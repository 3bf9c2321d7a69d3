// The beads module's dependency graph: one node per issue and links for
// "depends", "blocks" and "related" between issues that are both present,
// with a related pair linked once whichever side lists it; and the
// provider's state, which a change of project clears.
module BeadsGraph {
  import opened Wrappers
  import BeadsFallback

  /** An issue as the graph reads it; an absent list is empty. */
  datatype GraphIssue = GraphIssue(
    id: string, title: string, status: string, priority: int, kind: string, labels: seq<string>,
    dependencies: seq<string>, blocking: seq<string>, related: seq<string>)

  datatype Node = Node(id: string, name: string, status: string, priority: int, kind: string, labels: seq<string>)

  datatype LinkKind = Depends | Blocks | Related

  datatype Link = Link(source: string, target: string, kind: LinkKind)

  datatype Graph = Graph(nodes: seq<Node>, links: seq<Link>)

  /** One node per issue, in the order of the issues. */
  function Nodes(issues: seq<GraphIssue>): (r: seq<Node>)
    ensures |r| == |issues|
    ensures forall k :: 0 <= k < |issues| ==> r[k].id == issues[k].id && r[k].name == issues[k].title
  {
    if issues == [] then []
    else [Node(issues[0].id, issues[0].title, issues[0].status, issues[0].priority, issues[0].kind, issues[0].labels)]
         + Nodes(issues[1..])
  }

  /** `issueIds`. */
  function Ids(issues: seq<GraphIssue>): (r: set<string>)
    ensures forall x :: x in r <==> exists k :: 0 <= k < |issues| && issues[k].id == x
  {
    set k | 0 <= k < |issues| :: issues[k].id
  }

  // The link builder pushes onto one list; each function below is the list
  // after a run of pushes, starting from `links`.

  /** The pushes for `issue.dependencies`: dep → issue for each dependency present. */
  function PushDepends(links: seq<Link>, ids: set<string>, id: string, deps: seq<string>): seq<Link>
    decreases |deps|
  {
    if deps == [] then links
    else PushDepends(links + (if deps[0] in ids then [Link(deps[0], id, Depends)] else []), ids, id, deps[1..])
  }

  /** The pushes for `issue.blocking`: issue → blocked for each blocked issue present. */
  function PushBlocks(links: seq<Link>, ids: set<string>, id: string, blocked: seq<string>): seq<Link>
    decreases |blocked|
  {
    if blocked == [] then links
    else PushBlocks(links + (if blocked[0] in ids then [Link(id, blocked[0], Blocks)] else []), ids, id, blocked[1..])
  }

  /** Some related link already joins `a` and `b`, in either direction (`links.find`). */
  predicate HasRelated(links: seq<Link>, a: string, b: string)
  {
    exists k :: 0 <= k < |links| && links[k].kind == Related &&
                ((links[k].source == a && links[k].target == b) || (links[k].source == b && links[k].target == a))
  }

  /** The push for one related id, skipped when the pair is already linked. */
  function PushRelatedOne(links: seq<Link>, ids: set<string>, id: string, rel: string): seq<Link>
  {
    if rel in ids && !HasRelated(links, id, rel) then links + [Link(id, rel, Related)] else links
  }

  /** The pushes for `issue.related`. */
  function PushRelated(links: seq<Link>, ids: set<string>, id: string, rels: seq<string>): seq<Link>
    decreases |rels|
  {
    if rels == [] then links
    else PushRelated(PushRelatedOne(links, ids, id, rels[0]), ids, id, rels[1..])
  }

  /** Everything pushed for one issue. */
  function IssueLinks(links: seq<Link>, ids: set<string>, issue: GraphIssue): seq<Link>
  {
    PushRelated(PushBlocks(PushDepends(links, ids, issue.id, issue.dependencies), ids, issue.id, issue.blocking),
                ids, issue.id, issue.related)
  }

  /** Everything pushed for the issues in turn. */
  function AllLinks(links: seq<Link>, ids: set<string>, issues: seq<GraphIssue>): seq<Link>
    decreases |issues|
  {
    if issues == [] then links else AllLinks(IssueLinks(links, ids, issues[0]), ids, issues[1..])
  }

  /** `buildGraphData(issues)` as a value. */
  function GraphOf(issues: seq<GraphIssue>): Graph
  {
    Graph(Nodes(issues), AllLinks([], Ids(issues), issues))
  }

  /** `issue.dependencies?.forEach(...)`: the loop that pushes the depends links. */
  method PushDependsLoop(links0: seq<Link>, ids: set<string>, id: string, deps: seq<string>) returns (links: seq<Link>)
    ensures links == PushDepends(links0, ids, id, deps)
  {
    links := links0;
    var j := 0;
    while j < |deps|
      invariant 0 <= j <= |deps|
      invariant PushDepends(links0, ids, id, deps) == PushDepends(links, ids, id, deps[j..])
    {
      assert deps[j..][1..] == deps[j + 1..];
      links := links + (if deps[j] in ids then [Link(deps[j], id, Depends)] else []);
      j := j + 1;
    }
  }

  /** `issue.blocking?.forEach(...)`: the loop that pushes the blocks links. */
  method PushBlocksLoop(links0: seq<Link>, ids: set<string>, id: string, blocked: seq<string>) returns (links: seq<Link>)
    ensures links == PushBlocks(links0, ids, id, blocked)
  {
    links := links0;
    var j := 0;
    while j < |blocked|
      invariant 0 <= j <= |blocked|
      invariant PushBlocks(links0, ids, id, blocked) == PushBlocks(links, ids, id, blocked[j..])
    {
      assert blocked[j..][1..] == blocked[j + 1..];
      links := links + (if blocked[j] in ids then [Link(id, blocked[j], Blocks)] else []);
      j := j + 1;
    }
  }

  /** `issue.related?.forEach(...)`: the loop that pushes a related link unless the pair is already linked. */
  method PushRelatedLoop(links0: seq<Link>, ids: set<string>, id: string, rels: seq<string>) returns (links: seq<Link>)
    ensures links == PushRelated(links0, ids, id, rels)
  {
    links := links0;
    var j := 0;
    while j < |rels|
      invariant 0 <= j <= |rels|
      invariant PushRelated(links0, ids, id, rels) == PushRelated(links, ids, id, rels[j..])
    {
      assert rels[j..][1..] == rels[j + 1..];
      var rel := rels[j];
      if rel in ids && !HasRelated(links, id, rel) {
        links := links + [Link(id, rel, Related)];
      }
      j := j + 1;
    }
  }

  /** `buildGraphData`: the nodes, then the links pushed issue by issue. */
  method BuildGraphData(issues: seq<GraphIssue>) returns (g: Graph)
    ensures g == GraphOf(issues)
  {
    var ids := Ids(issues);
    var links: seq<Link> := [];
    var i := 0;
    while i < |issues|
      invariant 0 <= i <= |issues|
      invariant AllLinks([], ids, issues) == AllLinks(links, ids, issues[i..])
    {
      assert issues[i..][1..] == issues[i + 1..];
      var issue := issues[i];
      links := PushDependsLoop(links, ids, issue.id, issue.dependencies);
      links := PushBlocksLoop(links, ids, issue.id, issue.blocking);
      links := PushRelatedLoop(links, ids, issue.id, issue.related);
      i := i + 1;
    }
    return Graph(Nodes(issues), links);
  }

  // ---------------------------------------------------------------------
  // What the links satisfy
  // ---------------------------------------------------------------------

  /** Both ends of every link are issues of the graph. */
  predicate Within(links: seq<Link>, ids: set<string>)
  {
    forall k :: 0 <= k < |links| ==> links[k].source in ids && links[k].target in ids
  }

  /** No two related links join the same pair, in either direction. */
  predicate RelatedUnique(links: seq<Link>)
  {
    forall i, j :: 0 <= i < j < |links| && links[i].kind == Related && links[j].kind == Related ==>
      !(links[i].source == links[j].source && links[i].target == links[j].target) &&
      !(links[i].source == links[j].target && links[i].target == links[j].source)
  }

  /** Both facts hold of a list, and each run of pushes keeps them. */
  predicate LinksOk(links: seq<Link>, ids: set<string>)
  {
    Within(links, ids) && RelatedUnique(links)
  }

  lemma {:induction false} PushDependsOk(links: seq<Link>, ids: set<string>, id: string, deps: seq<string>)
    requires LinksOk(links, ids) && id in ids
    ensures LinksOk(PushDepends(links, ids, id, deps), ids)
    ensures HasPrefix(links, PushDepends(links, ids, id, deps))
    decreases |deps|
  {
    if deps != [] {
      var next := links + (if deps[0] in ids then [Link(deps[0], id, Depends)] else []);
      PushDependsOk(next, ids, id, deps[1..]);
    }
  }

  lemma {:induction false} PushBlocksOk(links: seq<Link>, ids: set<string>, id: string, blocked: seq<string>)
    requires LinksOk(links, ids) && id in ids
    ensures LinksOk(PushBlocks(links, ids, id, blocked), ids)
    ensures HasPrefix(links, PushBlocks(links, ids, id, blocked))
    decreases |blocked|
  {
    if blocked != [] {
      var next := links + (if blocked[0] in ids then [Link(id, blocked[0], Blocks)] else []);
      PushBlocksOk(next, ids, id, blocked[1..]);
    }
  }

  lemma PushRelatedOneOk(links: seq<Link>, ids: set<string>, id: string, rel: string)
    requires LinksOk(links, ids) && id in ids
    ensures LinksOk(PushRelatedOne(links, ids, id, rel), ids)
    ensures HasPrefix(links, PushRelatedOne(links, ids, id, rel))
    ensures rel in ids ==> HasRelated(PushRelatedOne(links, ids, id, rel), id, rel)
  {
    var r := PushRelatedOne(links, ids, id, rel);
    if rel in ids && !HasRelated(links, id, rel) {
      assert r[|links|] == Link(id, rel, Related);
      forall i, j | 0 <= i < j < |r| && r[i].kind == Related && r[j].kind == Related
        ensures !(r[i].source == r[j].source && r[i].target == r[j].target)
        ensures !(r[i].source == r[j].target && r[i].target == r[j].source)
      {
        if j == |links| {
          assert r[i] == links[i];
        }
      }
    }
  }

  lemma {:induction false} PushRelatedOk(links: seq<Link>, ids: set<string>, id: string, rels: seq<string>)
    requires LinksOk(links, ids) && id in ids
    ensures LinksOk(PushRelated(links, ids, id, rels), ids)
    ensures HasPrefix(links, PushRelated(links, ids, id, rels))
    decreases |rels|
  {
    if rels != [] {
      PushRelatedOneOk(links, ids, id, rels[0]);
      PushRelatedOk(PushRelatedOne(links, ids, id, rels[0]), ids, id, rels[1..]);
    }
  }

  /** A list is a prefix of another (the links pushed so far stay where they are). */
  predicate HasPrefix(p: seq<Link>, s: seq<Link>)
  {
    |p| <= |s| && s[..|p|] == p
  }

  lemma IssueLinksOk(links: seq<Link>, ids: set<string>, issue: GraphIssue)
    requires LinksOk(links, ids) && issue.id in ids
    ensures LinksOk(IssueLinks(links, ids, issue), ids)
    ensures HasPrefix(links, IssueLinks(links, ids, issue))
  {
    var a := PushDepends(links, ids, issue.id, issue.dependencies);
    PushDependsOk(links, ids, issue.id, issue.dependencies);
    var b := PushBlocks(a, ids, issue.id, issue.blocking);
    PushBlocksOk(a, ids, issue.id, issue.blocking);
    PushRelatedOk(b, ids, issue.id, issue.related);
    var c := PushRelated(b, ids, issue.id, issue.related);
    assert c[..|links|] == c[..|b|][..|links|];
    assert b[..|links|] == b[..|a|][..|links|];
  }

  lemma {:induction false} AllLinksOk(links: seq<Link>, ids: set<string>, issues: seq<GraphIssue>)
    requires LinksOk(links, ids)
    requires forall k :: 0 <= k < |issues| ==> issues[k].id in ids
    ensures LinksOk(AllLinks(links, ids, issues), ids)
    ensures HasPrefix(links, AllLinks(links, ids, issues))
    decreases |issues|
  {
    if issues != [] {
      IssueLinksOk(links, ids, issues[0]);
      var next := IssueLinks(links, ids, issues[0]);
      AllLinksOk(next, ids, issues[1..]);
      var r := AllLinks(links, ids, issues);
      assert r[..|links|] == r[..|next|][..|links|];
    }
  }

  /**
   * Every link joins two issues of the graph, and no two related links
   * join the same pair in either direction.
   */
  lemma GraphLinksOk(issues: seq<GraphIssue>)
    ensures LinksOk(GraphOf(issues).links, Ids(issues))
  {
    AllLinksOk([], Ids(issues), issues);
  }

  /** A dependency that is present gives a link from it to the issue. */
  lemma {:induction false} DependsLinked(links: seq<Link>, ids: set<string>, id: string, deps: seq<string>, k: int)
    requires 0 <= k < |deps| && deps[k] in ids
    ensures Link(deps[k], id, Depends) in PushDepends(links, ids, id, deps)
    decreases |deps|
  {
    var next := links + (if deps[0] in ids then [Link(deps[0], id, Depends)] else []);
    if k == 0 {
      PushDependsGrows(next, ids, id, deps[1..], |links|);
      assert next[|links|] == Link(deps[0], id, Depends);
    } else {
      DependsLinked(next, ids, id, deps[1..], k - 1);
    }
  }

  lemma {:induction false} PushDependsGrows(links: seq<Link>, ids: set<string>, id: string, deps: seq<string>, k: int)
    requires 0 <= k < |links|
    ensures |links| <= |PushDepends(links, ids, id, deps)| && PushDepends(links, ids, id, deps)[k] == links[k]
    decreases |deps|
  {
    if deps != [] {
      var next := links + (if deps[0] in ids then [Link(deps[0], id, Depends)] else []);
      PushDependsGrows(next, ids, id, deps[1..], k);
    }
  }

  /** An issue it blocks that is present gives a link from the issue to it. */
  lemma {:induction false} BlocksLinked(links: seq<Link>, ids: set<string>, id: string, blocked: seq<string>, k: int)
    requires 0 <= k < |blocked| && blocked[k] in ids
    ensures Link(id, blocked[k], Blocks) in PushBlocks(links, ids, id, blocked)
    decreases |blocked|
  {
    var next := links + (if blocked[0] in ids then [Link(id, blocked[0], Blocks)] else []);
    if k == 0 {
      PushBlocksGrows(next, ids, id, blocked[1..], |links|);
      assert next[|links|] == Link(id, blocked[0], Blocks);
    } else {
      BlocksLinked(next, ids, id, blocked[1..], k - 1);
    }
  }

  lemma {:induction false} PushBlocksGrows(links: seq<Link>, ids: set<string>, id: string, blocked: seq<string>, k: int)
    requires 0 <= k < |links|
    ensures |links| <= |PushBlocks(links, ids, id, blocked)| && PushBlocks(links, ids, id, blocked)[k] == links[k]
    decreases |blocked|
  {
    if blocked != [] {
      var next := links + (if blocked[0] in ids then [Link(id, blocked[0], Blocks)] else []);
      PushBlocksGrows(next, ids, id, blocked[1..], k);
    }
  }

  /** A related id that is present leaves the pair linked, in one direction or the other. */
  lemma {:induction false} RelatedLinked(links: seq<Link>, ids: set<string>, id: string, rels: seq<string>, k: int)
    requires 0 <= k < |rels| && rels[k] in ids
    ensures HasRelated(PushRelated(links, ids, id, rels), id, rels[k])
    decreases |rels|
  {
    var next := PushRelatedOne(links, ids, id, rels[0]);
    if k == 0 {
      if !HasRelated(links, id, rels[0]) {
        assert next[|links|] == Link(id, rels[0], Related);
      }
      RelatedKept(next, ids, id, rels[1..], id, rels[0]);
    } else {
      RelatedLinked(next, ids, id, rels[1..], k - 1);
    }
  }

  lemma {:induction false} RelatedKept(links: seq<Link>, ids: set<string>, id: string, rels: seq<string>, a: string, b: string)
    requires HasRelated(links, a, b)
    ensures HasRelated(PushRelated(links, ids, id, rels), a, b)
    decreases |rels|
  {
    if rels != [] {
      var next := PushRelatedOne(links, ids, id, rels[0]);
      var k :| 0 <= k < |links| && links[k].kind == Related &&
               ((links[k].source == a && links[k].target == b) || (links[k].source == b && links[k].target == a));
      assert next[k] == links[k];
      RelatedKept(next, ids, id, rels[1..], a, b);
    }
  }

  /** What a list holds, and every related pair it links, a longer list with it in front holds too. */
  lemma PrefixKeeps(p: seq<Link>, s: seq<Link>)
    requires HasPrefix(p, s)
    ensures forall x :: x in p ==> x in s
    ensures forall a, b :: HasRelated(p, a, b) ==> HasRelated(s, a, b)
  {
    forall x | x in p
      ensures x in s
    {
      var i :| 0 <= i < |p| && p[i] == x;
      assert s[i] == s[..|p|][i];
    }
    forall a, b | HasRelated(p, a, b)
      ensures HasRelated(s, a, b)
    {
      var i :| 0 <= i < |p| && p[i].kind == Related &&
               ((p[i].source == a && p[i].target == b) || (p[i].source == b && p[i].target == a));
      assert s[i] == s[..|p|][i];
    }
  }

  /** The links one issue contributes, as facts: its present dependencies and its present related ids. */
  predicate IssueCovered(links: seq<Link>, ids: set<string>, issue: GraphIssue)
  {
    (forall d :: 0 <= d < |issue.dependencies| && issue.dependencies[d] in ids ==>
       Link(issue.dependencies[d], issue.id, Depends) in links) &&
    (forall d :: 0 <= d < |issue.blocking| && issue.blocking[d] in ids ==>
       Link(issue.id, issue.blocking[d], Blocks) in links) &&
    (forall d :: 0 <= d < |issue.related| && issue.related[d] in ids ==>
       HasRelated(links, issue.id, issue.related[d]))
  }

  lemma IssueLinksCover(links: seq<Link>, ids: set<string>, issue: GraphIssue)
    requires LinksOk(links, ids) && issue.id in ids
    ensures IssueCovered(IssueLinks(links, ids, issue), ids, issue)
  {
    var a := PushDepends(links, ids, issue.id, issue.dependencies);
    PushDependsOk(links, ids, issue.id, issue.dependencies);
    var b := PushBlocks(a, ids, issue.id, issue.blocking);
    PushBlocksOk(a, ids, issue.id, issue.blocking);
    PushRelatedOk(b, ids, issue.id, issue.related);
    var c := PushRelated(b, ids, issue.id, issue.related);
    assert c[..|a|] == c[..|b|][..|a|];
    PrefixKeeps(a, c);
    PrefixKeeps(b, c);
    forall d | 0 <= d < |issue.dependencies| && issue.dependencies[d] in ids
      ensures Link(issue.dependencies[d], issue.id, Depends) in c
    {
      DependsLinked(links, ids, issue.id, issue.dependencies, d);
    }
    forall d | 0 <= d < |issue.blocking| && issue.blocking[d] in ids
      ensures Link(issue.id, issue.blocking[d], Blocks) in c
    {
      BlocksLinked(a, ids, issue.id, issue.blocking, d);
    }
    forall d | 0 <= d < |issue.related| && issue.related[d] in ids
      ensures HasRelated(c, issue.id, issue.related[d])
    {
      RelatedLinked(b, ids, issue.id, issue.related, d);
    }
  }

  lemma {:induction false} AllLinksCover(links: seq<Link>, ids: set<string>, issues: seq<GraphIssue>, k: int)
    requires LinksOk(links, ids)
    requires forall i :: 0 <= i < |issues| ==> issues[i].id in ids
    requires 0 <= k < |issues|
    ensures IssueCovered(AllLinks(links, ids, issues), ids, issues[k])
    decreases |issues|
  {
    var next := IssueLinks(links, ids, issues[0]);
    IssueLinksOk(links, ids, issues[0]);
    if k == 0 {
      IssueLinksCover(links, ids, issues[0]);
      AllLinksOk(next, ids, issues[1..]);
      PrefixKeeps(next, AllLinks(next, ids, issues[1..]));
    } else {
      AllLinksCover(next, ids, issues[1..], k - 1);
    }
  }

  /**
   * Every dependency that is an issue of the graph is linked to the issue
   * that lists it, the issue is linked to every issue of the graph it
   * blocks, and every related issue of the graph is linked to the
   * issue that lists it, in one direction or the other.
   */
  lemma GraphComplete(issues: seq<GraphIssue>, k: int)
    requires 0 <= k < |issues|
    ensures IssueCovered(GraphOf(issues).links, Ids(issues), issues[k])
  {
    AllLinksCover([], Ids(issues), issues, k);
  }

  /** `graphData`: none while there are no issues, the built graph otherwise. */
  function GraphData(issues: seq<GraphIssue>): (r: Option<Graph>)
    ensures r.None? <==> issues == []
    ensures r.Some? ==> r.value.nodes == Nodes(issues) && |r.value.nodes| == |issues|
  {
    if |issues| == 0 then None else Some(GraphOf(issues))
  }

  // ---------------------------------------------------------------------
  // Provider state
  // ---------------------------------------------------------------------

  /** The provider's data and UI state; the plan is kept as the JSON text `bv` printed. */
  datatype Provider = Provider(
    projectPath: string, issues: seq<GraphIssue>,
    triage: Option<BeadsFallback.Triage>, insights: Option<BeadsFallback.Insights>, plan: Option<string>,
    selectedIssueId: Option<string>, error: Option<string>)

  /** `setProjectPath(path)`: the new path, with all loaded data, the selection and the error cleared. */
  function SetProjectPath(p: Provider, path: string): (r: Provider)
    ensures r.projectPath == path
    ensures r.issues == [] && r.triage.None? && r.insights.None? && r.plan.None?
    ensures r.selectedIssueId.None? && r.error.None?
  {
    Provider(path, [], None, None, None, None, None)
  }

  /** After a change of project there is no graph to show. */
  lemma NoGraphAfterProjectChange(p: Provider, path: string)
    ensures GraphData(SetProjectPath(p, path).issues).None?
  {
  }
}
