// The answers the beads routes build from `.beads/issues.jsonl` themselves
// when the `bv` viewer cannot give one: the triage list (open issues by
// priority, quick wins, blockers) and the graph insights (degrees, density,
// one- and two-issue dependency cycles, a health score).
module BeadsFallback {
  import opened Wrappers
  import opened Strs
  import opened Orders
  import Radix

  /** The `priority` member of an issue as JSON gives it: missing, `null` or a number. */
  datatype Priority = Absent | Null | Num(n: int)

  /**
   * One issue line. A missing `status`, `type` or `id` reads as "", and a
   * missing `dependencies` or `blocking` list as the empty list, which is
   * how every use below treats them.
   */
  datatype Issue = Issue(id: string, status: string, priority: Priority, kind: string,
                         dependencies: seq<string>, blocking: seq<string>)

  /** `xs.filter(p)`: the elements that pass, in order. */
  function Filter<T(!new)>(s: seq<T>, p: T -> bool): (r: seq<T>)
    ensures |r| <= |s|
    ensures forall k :: 0 <= k < |r| ==> p(r[k])
    ensures forall x :: x in r <==> x in s && p(x)
  {
    if s == [] then []
    else
      assert forall x :: x in s <==> x == s[0] || x in s[1..];
      (if p(s[0]) then [s[0]] else []) + Filter(s[1..], p)
  }

  /** Two tests that no element passes together select at most all the elements between them. */
  lemma {:induction false} FilterDisjoint<T(!new)>(s: seq<T>, p: T -> bool, q: T -> bool)
    requires forall x :: x in s ==> !(p(x) && q(x))
    ensures |Filter(s, p)| + |Filter(s, q)| <= |s|
  {
    if s != [] {
      assert forall x :: x in s[1..] ==> x in s;
      FilterDisjoint(s[1..], p, q);
    }
  }

  /** `xs.map(i => i.id)`. */
  function Ids(s: seq<Issue>): (r: seq<string>)
    ensures |r| == |s|
    ensures forall k :: 0 <= k < |r| ==> r[k] == s[k].id
    ensures forall id :: id in r <==> exists x :: x in s && x.id == id
  {
    if s == [] then []
    else
      assert forall x :: x in s <==> x == s[0] || x in s[1..];
      [s[0].id] + Ids(s[1..])
  }

  predicate IsOpen(i: Issue)
  {
    i.status == "open" || i.status == "in_progress"
  }

  predicate IsBlocked(i: Issue)
  {
    i.status == "blocked"
  }

  /** `issue.priority || 5`: a missing, null or zero priority sorts as 5. */
  function SortPriority(i: Issue): (p: int)
    ensures p == 5 || (i.priority.Num? && p == i.priority.n != 0)
  {
    if i.priority.Num? && i.priority.n != 0 then i.priority.n else 5
  }

  /** The comparator `(a.priority || 5) - (b.priority || 5)` read as "a sorts before b". */
  predicate ByPriority(a: Issue, b: Issue)
  {
    SortPriority(a) < SortPriority(b)
  }

  lemma ByPriorityIsStrictWeakOrder()
    ensures StrictWeakOrder(ByPriority)
  {
  }

  /** The open issues after `openIssues.sort(...)`: most urgent first. */
  function RankedOpen(issues: seq<Issue>): (r: seq<Issue>)
    ensures multiset(r) == multiset(Filter(issues, IsOpen))
    ensures forall k :: 0 <= k < |r| ==> IsOpen(r[k]) && r[k] in issues
    ensures forall i, j :: 0 <= i < j < |r| ==> SortPriority(r[i]) <= SortPriority(r[j])
  {
    ByPriorityIsStrictWeakOrder();
    var r := InsertionSort(Filter(issues, IsOpen), ByPriority);
    RankedFacts(issues, r);
    r
  }

  lemma RankedFacts(issues: seq<Issue>, r: seq<Issue>)
    requires multiset(r) == multiset(Filter(issues, IsOpen)) && SortedBy(r, ByPriority)
    ensures forall k :: 0 <= k < |r| ==> IsOpen(r[k]) && r[k] in issues
    ensures forall i, j :: 0 <= i < j < |r| ==> SortPriority(r[i]) <= SortPriority(r[j])
  {
    forall k | 0 <= k < |r|
      ensures IsOpen(r[k]) && r[k] in issues
    {
      assert r[k] in multiset(Filter(issues, IsOpen));
    }
  }

  /** `issue.priority <= 2 ? 'high' : issue.priority <= 3 ? 'medium' : 'low'`; `null` compares as 0, a missing value never. */
  function Impact(p: Priority): (r: string)
    ensures r == "high" || r == "medium" || r == "low"
    ensures p.Absent? ==> r == "low"
    ensures p.Null? ==> r == "high"
    ensures p.Num? ==> (r == "high" <==> p.n <= 2) && (r == "low" <==> 3 < p.n)
  {
    match p
    case Absent => "low"
    case Null => "high"
    case Num(n) => if n <= 2 then "high" else if n <= 3 then "medium" else "low"
  }

  function ImpactRank(impact: string): int
  {
    if impact == "high" then 2 else if impact == "medium" then 1 else 0
  }

  /** A more urgent numeric priority never gets a lesser impact. */
  lemma ImpactFollowsPriority(a: int, b: int)
    requires a <= b
    ensures ImpactRank(Impact(Num(a))) >= ImpactRank(Impact(Num(b)))
  {
  }

  /**
   * Priority 0 sorts last (as 5) but is rated "high", while priority 4
   * sorts before it and is rated "low".
   */
  lemma ZeroPriorityRankedLastButHigh(zero: Issue, four: Issue)
    requires zero.priority == Num(0) && four.priority == Num(4)
    ensures ByPriority(four, zero)
    ensures Impact(zero.priority) == "high" && Impact(four.priority) == "low"
  {
  }

  /** One entry of the fallback triage list. */
  datatype Recommendation = Recommendation(issueId: string, rank: int, reasoning: string,
                                           unblockChain: seq<string>, estimatedImpact: string)

  /** `Priority ${issue.priority || 'unset'} ${issue.type || 'task'}`. */
  function Reasoning(i: Issue): string
  {
    "Priority "
    + (if i.priority.Num? && i.priority.n != 0 then Radix.FormatInt(i.priority.n, 10) else "unset")
    + " " + (if i.kind == "" then "task" else i.kind)
  }

  function Recommend(i: Issue, rank: int): (r: Recommendation)
    ensures r.issueId == i.id && r.rank == rank && r.unblockChain == i.dependencies
    ensures r.estimatedImpact == Impact(i.priority)
  {
    Recommendation(i.id, rank, Reasoning(i), i.dependencies, Impact(i.priority))
  }

  /** A quick win: nothing it depends on, and not urgent (`(priority || 5) >= 3`). */
  predicate QuickWin(i: Issue)
  {
    i.dependencies == [] && SortPriority(i) >= 3
  }

  /** The fallback body of GET /triage. */
  datatype Triage = Triage(recommendations: seq<Recommendation>, quickWins: seq<string>,
                           blockers: seq<string>, timestamp: string)

  /** The first ten of the ranked issues, numbered from 1. */
  function Recommendations(ranked: seq<Issue>): (r: seq<Recommendation>)
    ensures |r| == if |ranked| < 10 then |ranked| else 10
    ensures forall k :: 0 <= k < |r| ==> r[k].rank == k + 1 && r[k].issueId == ranked[k].id
  {
    var top := if |ranked| < 10 then ranked else ranked[..10];
    seq(|top|, k requires 0 <= k < |top| => Recommend(top[k], k + 1))
  }

  /** The first five quick wins among the ranked issues. */
  function QuickWins(ranked: seq<Issue>): (r: seq<string>)
    ensures |r| <= 5
    ensures |r| == if |Filter(ranked, QuickWin)| < 5 then |Filter(ranked, QuickWin)| else 5
    ensures forall id :: id in r ==> exists x :: x in ranked && x.id == id && QuickWin(x)
  {
    var wins := Filter(ranked, QuickWin);
    var firstWins := if |wins| < 5 then wins else wins[..5];
    assert forall x :: x in firstWins ==> x in wins;
    Ids(firstWins)
  }

  lemma {:induction false} FilterConcat<T(!new)>(a: seq<T>, b: seq<T>, p: T -> bool)
    ensures Filter(a + b, p) == Filter(a, p) + Filter(b, p)
  {
    if a == [] {
      assert a + b == b;
    } else {
      assert (a + b)[1..] == a[1..] + b;
      FilterConcat(a[1..], b, p);
    }
  }

  /**
   * The quick wins are reported in ranked order: a quick win with fewer
   * than five quick wins ranked ahead of it is reported, right after them.
   * With the length above this fixes the whole list.
   */
  lemma QuickWinReported(ranked: seq<Issue>, p: nat)
    requires p < |ranked| && QuickWin(ranked[p])
    requires |Filter(ranked[..p], QuickWin)| < 5
    ensures |Filter(ranked[..p], QuickWin)| < |QuickWins(ranked)|
    ensures QuickWins(ranked)[|Filter(ranked[..p], QuickWin)|] == ranked[p].id
  {
    assert ranked == ranked[..p] + ([ranked[p]] + ranked[p + 1..]);
    FilterConcat(ranked[..p], [ranked[p]] + ranked[p + 1..], QuickWin);
    FilterConcat([ranked[p]], ranked[p + 1..], QuickWin);
    assert Filter([ranked[p]], QuickWin) == [ranked[p]] by {
      assert [ranked[p]][1..] == [];
    }
  }

  /** The ids of the blocked issues. */
  function Blockers(issues: seq<Issue>): (r: seq<string>)
    ensures forall id :: id in r <==> exists x :: x in issues && x.id == id && IsBlocked(x)
  {
    Ids(Filter(issues, IsBlocked))
  }

  function TriageOf(issues: seq<Issue>, now: string): Triage
  {
    var ranked := RankedOpen(issues);
    Triage(Recommendations(ranked), QuickWins(ranked), Blockers(issues), now)
  }

  /** Every open issue is there to be ranked: the first recommendation is at least as urgent as any open issue. */
  lemma TopRecommendationMostUrgent(issues: seq<Issue>, x: Issue, now: string)
    requires x in issues && IsOpen(x)
    ensures |TriageOf(issues, now).recommendations| > 0
    ensures TriageOf(issues, now).recommendations[0].issueId == RankedOpen(issues)[0].id
    ensures SortPriority(RankedOpen(issues)[0]) <= SortPriority(x)
  {
    var ranked := RankedOpen(issues);
    assert x in Filter(issues, IsOpen);
    assert x in multiset(ranked);
    var j :| 0 <= j < |ranked| && ranked[j] == x;
  }

  /** Every recommendation names an open issue of the file. */
  lemma RecommendationsNameOpenIssues(issues: seq<Issue>, now: string)
    ensures forall k :: 0 <= k < |TriageOf(issues, now).recommendations| ==>
              exists x :: x in issues && IsOpen(x) && x.id == TriageOf(issues, now).recommendations[k].issueId
  {
    var ranked := RankedOpen(issues);
    var recs := Recommendations(ranked);
    assert TriageOf(issues, now).recommendations == recs;
    forall k | 0 <= k < |recs|
      ensures exists x :: x in issues && IsOpen(x) && x.id == recs[k].issueId
    {
      assert ranked[k] in issues && IsOpen(ranked[k]);
    }
  }

  /** Every quick win names an open issue of the file with no dependencies and priority 3 or less urgent. */
  lemma QuickWinsNameOpenIssues(issues: seq<Issue>, now: string)
    ensures forall id :: id in TriageOf(issues, now).quickWins ==>
              exists x :: x in issues && x.id == id && IsOpen(x) && QuickWin(x)
  {
    var ranked := RankedOpen(issues);
    var wins := QuickWins(ranked);
    assert TriageOf(issues, now).quickWins == wins;
    forall id | id in wins
      ensures exists x :: x in issues && x.id == id && IsOpen(x) && QuickWin(x)
    {
      var x :| x in ranked && x.id == id && QuickWin(x);
      var k :| 0 <= k < |ranked| && ranked[k] == x;
      assert x in issues && IsOpen(x);
    }
  }

  // ---------------------------------------------------------------------
  // Insights
  // ---------------------------------------------------------------------

  /** `deps + blocks` for one issue. */
  function DegreeCount(i: Issue): nat
  {
    |i.dependencies| + |i.blocking|
  }

  /** The `degree` object after `issues.forEach(...)`: a later issue with the same id overwrites. */
  function DegreeOf(issues: seq<Issue>): map<string, nat>
  {
    if issues == [] then map[]
    else
      var last := issues[|issues| - 1];
      DegreeOf(issues[..|issues| - 1])[last.id := DegreeCount(last)]
  }

  method ComputeDegree(issues: seq<Issue>) returns (degree: map<string, nat>)
    ensures degree == DegreeOf(issues)
  {
    degree := map[];
    var i := 0;
    while i < |issues|
      invariant 0 <= i <= |issues|
      invariant degree == DegreeOf(issues[..i])
    {
      degree := degree[issues[i].id := DegreeCount(issues[i])];
      assert issues[..i + 1][..i] == issues[..i];
      i := i + 1;
    }
    assert issues[..|issues|] == issues;
  }

  /** Every issue's id, and nothing else, is a key of the degree map. */
  lemma {:induction false} DegreeOfKeys(issues: seq<Issue>, id: string)
    ensures id in DegreeOf(issues) <==> exists j :: 0 <= j < |issues| && issues[j].id == id
  {
    if issues != [] {
      var front := issues[..|issues| - 1];
      DegreeOfKeys(front, id);
      if exists j :: 0 <= j < |front| && front[j].id == id {
        var j :| 0 <= j < |front| && front[j].id == id;
        assert issues[j].id == id;
      }
      if exists j :: 0 <= j < |issues| && issues[j].id == id {
        var j :| 0 <= j < |issues| && issues[j].id == id;
        if j < |front| {
          assert front[j].id == id;
        }
      }
    }
  }

  /** The degree recorded for an id is that of the last issue carrying it. */
  lemma {:induction false} DegreeOfLastWins(issues: seq<Issue>, j: nat)
    requires j < |issues|
    requires forall k :: j < k < |issues| ==> issues[k].id != issues[j].id
    ensures issues[j].id in DegreeOf(issues)
    ensures DegreeOf(issues)[issues[j].id] == DegreeCount(issues[j])
  {
    if j < |issues| - 1 {
      var front := issues[..|issues| - 1];
      assert front[j] == issues[j];
      DegreeOfLastWins(front, j);
    }
  }

  /** `issues.reduce((sum, i) => sum + deps + blocks, 0)`. */
  function TotalDeps(issues: seq<Issue>): (r: nat)
    ensures r == 0 <==>
              forall k :: 0 <= k < |issues| ==> issues[k].dependencies == [] && issues[k].blocking == []
  {
    if issues == [] then 0
    else
      var front := issues[..|issues| - 1];
      assert forall k :: 0 <= k < |front| ==> front[k] == issues[k];
      TotalDeps(front) + DegreeCount(issues[|issues| - 1])
  }

  /** `maxPossibleEdges > 0 ? totalDeps / maxPossibleEdges : 0`, with n*(n-1) possible edges. */
  function Density(total: nat, n: nat): real
  {
    if n * (n - 1) > 0 then total as real / (n * (n - 1)) as real else 0.0
  }

  /** The density passes one half exactly when the edges outnumber half the possible pairs. */
  lemma DensityHighIff(total: nat, n: nat)
    ensures Density(total, n) > 0.5 <==> n * (n - 1) > 0 && 2 * total > n * (n - 1)
  {
    var m := n * (n - 1);
    if m > 0 {
      HalfIff(total as real, m as real);
      assert (2 * total) as real == 2.0 * total as real;
    }
  }

  lemma HalfIff(t: real, m: real)
    requires m > 0.0
    ensures t / m > 0.5 <==> 2.0 * t > m
  {
    var d := t / m;
    assert d * m == t;
    if d > 0.5 {
      assert (d - 0.5) * m > 0.0;
    } else {
      assert (0.5 - d) * m >= 0.0;
    }
  }

  // --- cycles ---

  /** `issues.find(i => i.id === id)`: the first issue carrying `id`. */
  function FirstWithId(issues: seq<Issue>, id: string): (r: Option<Issue>)
    ensures r.Some? ==> r.value in issues && r.value.id == id
    ensures r.None? ==> forall x :: x in issues ==> x.id != id
  {
    if issues == [] then None
    else if issues[0].id == id then Some(issues[0])
    else
      assert forall x :: x in issues ==> x == issues[0] || x in issues[1..];
      FirstWithId(issues[1..], id)
  }

  /** `[a, b].sort()`: the two ids in string order. */
  function CyclePair(a: string, b: string): (c: seq<string>)
    ensures |c| == 2 && !StrLt(c[1], c[0])
    ensures (c[0] == a && c[1] == b) || (c[0] == b && c[1] == a)
  {
    StrLtAsymmetricAll(a, b);
    if StrLt(b, a) then [b, a] else [a, b]
  }

  lemma StrLtAsymmetricAll(a: string, b: string)
    ensures StrLt(a, b) ==> !StrLt(b, a)
  {
    if StrLt(a, b) {
      StrLtAsymmetric(a, b);
    }
  }

  /** `cycles.some(c => c.join() === cycle.join())`. */
  predicate Recorded(cycles: seq<seq<string>>, cycle: seq<string>)
  {
    exists c :: c in cycles && Join(c, ",") == Join(cycle, ",")
  }

  /** `depId` names an issue whose first holder of that id depends back on `issue`. */
  predicate DependsBack(issue: Issue, depId: string, all: seq<Issue>)
  {
    FirstWithId(all, depId).Some? && issue.id in FirstWithId(all, depId).value.dependencies
  }

  /** The inner step: a two-issue cycle through `depId` is pushed unless one that joins the same is there. */
  function AddPair(cycles: seq<seq<string>>, issue: Issue, depId: string, all: seq<Issue>): seq<seq<string>>
  {
    if DependsBack(issue, depId, all) && !Recorded(cycles, CyclePair(issue.id, depId))
    then cycles + [CyclePair(issue.id, depId)]
    else cycles
  }

  /** The inner loop over `deps`, from its first entry to its last. */
  function AddPairs(cycles: seq<seq<string>>, issue: Issue, deps: seq<string>, all: seq<Issue>): seq<seq<string>>
  {
    if deps == [] then cycles
    else AddPair(AddPairs(cycles, issue, deps[..|deps| - 1], all), issue, deps[|deps| - 1], all)
  }

  /** One pass of the outer loop: the self-reference, then the two-issue cycles. */
  function IssueCycles(cycles: seq<seq<string>>, issue: Issue, all: seq<Issue>): seq<seq<string>>
  {
    var self := if issue.id in issue.dependencies then cycles + [[issue.id]] else cycles;
    AddPairs(self, issue, issue.dependencies, all)
  }

  /** The cycles found after the issues of `done`, in order. */
  function CyclesOf(done: seq<Issue>, all: seq<Issue>): seq<seq<string>>
  {
    if done == [] then []
    else IssueCycles(CyclesOf(done[..|done| - 1], all), done[|done| - 1], all)
  }

  /** The cycle search: a self-reference and every two-issue cycle through a dependency. */
  method FindCycles(issues: seq<Issue>) returns (cycles: seq<seq<string>>)
    ensures cycles == CyclesOf(issues, issues)
  {
    cycles := [];
    var i := 0;
    while i < |issues|
      invariant 0 <= i <= |issues|
      invariant cycles == CyclesOf(issues[..i], issues)
    {
      var issue := issues[i];
      if issue.id in issue.dependencies {
        cycles := cycles + [[issue.id]];
      }
      cycles := PushPairs(cycles, issue, issues);
      assert issues[..i + 1][..i] == issues[..i];
      i := i + 1;
    }
    assert issues[..|issues|] == issues;
  }

  /** The inner `issue.dependencies?.forEach(...)` of the cycle search. */
  method PushPairs(start: seq<seq<string>>, issue: Issue, issues: seq<Issue>) returns (cycles: seq<seq<string>>)
    ensures cycles == AddPairs(start, issue, issue.dependencies, issues)
  {
    cycles := start;
    var deps := issue.dependencies;
    var j := 0;
    while j < |deps|
      invariant 0 <= j <= |deps|
      invariant cycles == AddPairs(start, issue, deps[..j], issues)
    {
      var depId := deps[j];
      var depIssue := FirstWithId(issues, depId);
      if depIssue.Some? && issue.id in depIssue.value.dependencies {
        var cycle := CyclePair(issue.id, depId);
        if !Recorded(cycles, cycle) {
          cycles := cycles + [cycle];
        }
      }
      assert deps[..j + 1][..j] == deps[..j];
      j := j + 1;
    }
    assert deps[..|deps|] == deps;
  }

  /** Issue `a` lists `b`, and the issue found for `b` lists `a`. */
  predicate Mutual(all: seq<Issue>, a: string, b: string)
  {
    exists x :: x in all && x.id == a && b in x.dependencies && DependsBack(x, b, all)
  }

  /**
   * A reported cycle is a self-reference `[a]` of an issue that lists its
   * own id, or an ordered pair of two ids that depend on each other.
   */
  predicate GoodCycle(c: seq<string>, all: seq<Issue>)
  {
    (|c| == 1 && exists x :: x in all && x.id == c[0] && c[0] in x.dependencies) ||
    (|c| == 2 && !StrLt(c[1], c[0]) && (Mutual(all, c[0], c[1]) || Mutual(all, c[1], c[0])))
  }

  predicate AllGood(cycles: seq<seq<string>>, all: seq<Issue>)
  {
    forall k :: 0 <= k < |cycles| ==> GoodCycle(cycles[k], all)
  }

  /** No two-issue cycle joins the same as a cycle reported before it. */
  predicate PairsUnique(cycles: seq<seq<string>>)
  {
    forall i, j :: 0 <= i < j < |cycles| && |cycles[j]| == 2 ==> Join(cycles[i], ",") != Join(cycles[j], ",")
  }

  lemma AddPairKeeps(cycles: seq<seq<string>>, issue: Issue, depId: string, all: seq<Issue>)
    requires issue in all && depId in issue.dependencies
    requires AllGood(cycles, all) && PairsUnique(cycles)
    ensures AllGood(AddPair(cycles, issue, depId, all), all)
    ensures PairsUnique(AddPair(cycles, issue, depId, all))
    ensures cycles <= AddPair(cycles, issue, depId, all)
  {
    if DependsBack(issue, depId, all) && !Recorded(cycles, CyclePair(issue.id, depId)) {
      var c := CyclePair(issue.id, depId);
      assert Mutual(all, issue.id, depId);
      assert GoodCycle(c, all);
      var r := cycles + [c];
      forall i, j | 0 <= i < j < |r| && |r[j]| == 2
        ensures Join(r[i], ",") != Join(r[j], ",")
      {
        if j == |cycles| {
          assert r[i] in cycles;
        }
      }
    }
  }

  lemma {:induction false} AddPairsKeeps(cycles: seq<seq<string>>, issue: Issue, deps: seq<string>, all: seq<Issue>)
    requires issue in all && forall d :: d in deps ==> d in issue.dependencies
    requires AllGood(cycles, all) && PairsUnique(cycles)
    ensures AllGood(AddPairs(cycles, issue, deps, all), all)
    ensures PairsUnique(AddPairs(cycles, issue, deps, all))
    ensures cycles <= AddPairs(cycles, issue, deps, all)
  {
    if deps != [] {
      var front := deps[..|deps| - 1];
      assert forall d :: d in front ==> d in deps;
      AddPairsKeeps(cycles, issue, front, all);
      AddPairKeeps(AddPairs(cycles, issue, front, all), issue, deps[|deps| - 1], all);
    }
  }

  lemma IssueCyclesKeeps(cycles: seq<seq<string>>, issue: Issue, all: seq<Issue>)
    requires issue in all
    requires AllGood(cycles, all) && PairsUnique(cycles)
    ensures AllGood(IssueCycles(cycles, issue, all), all)
    ensures PairsUnique(IssueCycles(cycles, issue, all))
    ensures cycles <= IssueCycles(cycles, issue, all)
  {
    var self := if issue.id in issue.dependencies then cycles + [[issue.id]] else cycles;
    assert AllGood(self, all);
    AddPairsKeeps(self, issue, issue.dependencies, all);
  }

  /**
   * Every reported cycle is a genuine self-reference or a mutual pair in
   * string order, and no pair is reported twice; the list only grows.
   */
  lemma {:induction false} CyclesOfGood(done: seq<Issue>, all: seq<Issue>)
    requires forall x :: x in done ==> x in all
    ensures AllGood(CyclesOf(done, all), all)
    ensures PairsUnique(CyclesOf(done, all))
  {
    if done != [] {
      var front := done[..|done| - 1];
      assert forall x :: x in front ==> x in done;
      CyclesOfGood(front, all);
      IssueCyclesKeeps(CyclesOf(front, all), done[|done| - 1], all);
    }
  }

  lemma RecordedGrows(small: seq<seq<string>>, big: seq<seq<string>>, cycle: seq<string>)
    requires small <= big && Recorded(small, cycle)
    ensures Recorded(big, cycle)
  {
    var c :| c in small && Join(c, ",") == Join(cycle, ",");
    var k :| 0 <= k < |small| && small[k] == c;
    assert big[k] == c;
  }

  /** After the inner loop has passed dependency `deps[j]`, its mutual pair is recorded. */
  lemma {:induction false} AddPairsRecords(cycles: seq<seq<string>>, issue: Issue, deps: seq<string>, j: nat, all: seq<Issue>)
    requires issue in all && forall d :: d in deps ==> d in issue.dependencies
    requires AllGood(cycles, all) && PairsUnique(cycles)
    requires j < |deps| && DependsBack(issue, deps[j], all)
    ensures Recorded(AddPairs(cycles, issue, deps, all), CyclePair(issue.id, deps[j]))
  {
    var front := deps[..|deps| - 1];
    assert forall d :: d in front ==> d in deps;
    AddPairsKeeps(cycles, issue, front, all);
    var before := AddPairs(cycles, issue, front, all);
    if j == |deps| - 1 {
      var c := CyclePair(issue.id, deps[j]);
      if !Recorded(before, c) {
        assert c in before + [c];
      }
    } else {
      assert front[j] == deps[j];
      AddPairsRecords(cycles, issue, front, j, all);
      AddPairKeeps(before, issue, deps[|deps| - 1], all);
      RecordedGrows(before, AddPair(before, issue, deps[|deps| - 1], all), CyclePair(issue.id, deps[j]));
    }
  }

  lemma {:induction false} CyclesOfGrows(done: seq<Issue>, n: nat, all: seq<Issue>)
    requires n <= |done| && forall x :: x in done ==> x in all
    ensures CyclesOf(done[..n], all) <= CyclesOf(done, all)
    decreases |done|
  {
    if n < |done| {
      var front := done[..|done| - 1];
      assert forall x :: x in front ==> x in done;
      assert front[..n] == done[..n];
      CyclesOfGrows(front, n, all);
      CyclesOfGood(front, all);
      IssueCyclesKeeps(CyclesOf(front, all), done[|done| - 1], all);
    } else {
      assert done[..n] == done;
    }
  }

  /** Once issue `all[i]` is done, the pair through its `j`th dependency is recorded. */
  lemma IssueRecordsPair(all: seq<Issue>, i: nat, j: nat)
    requires i < |all| && j < |all[i].dependencies|
    requires DependsBack(all[i], all[i].dependencies[j], all)
    ensures Recorded(CyclesOf(all[..i + 1], all), CyclePair(all[i].id, all[i].dependencies[j]))
  {
    var issue := all[i];
    assert all[..i + 1][..i] == all[..i];
    assert CyclesOf(all[..i + 1], all) == IssueCycles(CyclesOf(all[..i], all), issue, all);
    assert forall x :: x in all[..i] ==> x in all;
    CyclesOfGood(all[..i], all);
    var prior := CyclesOf(all[..i], all);
    var self := if issue.id in issue.dependencies then prior + [[issue.id]] else prior;
    assert AllGood(self, all);
    AddPairsRecords(self, issue, issue.dependencies, j, all);
  }

  /**
   * Completeness: whenever an issue lists an id whose issue lists it back,
   * that pair is among the reported cycles.
   */
  lemma MutualPairReported(all: seq<Issue>, i: nat, j: nat)
    requires i < |all| && j < |all[i].dependencies|
    requires DependsBack(all[i], all[i].dependencies[j], all)
    ensures Recorded(CyclesOf(all, all), CyclePair(all[i].id, all[i].dependencies[j]))
  {
    IssueRecordsPair(all, i, j);
    CyclesOfGrows(all, i + 1, all);
    RecordedGrows(CyclesOf(all[..i + 1], all), CyclesOf(all, all), CyclePair(all[i].id, all[i].dependencies[j]));
  }

  // --- health ---

  /** `blockedCount > issueCount * 0.3`. */
  predicate HighBlocked(blocked: nat, count: nat)
  {
    blocked as real > count as real * 0.3
  }

  lemma HighBlockedIff(blocked: nat, count: nat)
    ensures HighBlocked(blocked, count) <==> 10 * blocked > 3 * count
  {
  }

  /** `{score, risks, warnings}`. */
  datatype Health = Health(score: int, risks: seq<string>, warnings: seq<string>)

  const DensityWarning := "High dependency density may indicate over-coupling"

  /** The health block: 100 less 20 for many blocked, 10 per cycle, 10 for density, kept in [0, 100]. */
  function HealthOf(count: nat, blocked: nat, cycles: nat, density: real): (h: Health)
    ensures 0 <= h.score <= 100
    ensures h.score == 100 <==> !HighBlocked(blocked, count) && cycles == 0 && density <= 0.5
    ensures cycles >= 10 ==> h.score == 0
    ensures |h.risks| == (if HighBlocked(blocked, count) then 1 else 0) + (if cycles > 0 then 1 else 0)
    ensures h.warnings == if density > 0.5 then [DensityWarning] else []
  {
    var blockedRisk := if HighBlocked(blocked, count) then
                         ["High blocked ratio: " + Radix.FormatInt(blocked, 10) + "/" + Radix.FormatInt(count, 10) + " issues blocked"]
                       else [];
    var cycleRisk := if cycles > 0 then [Radix.FormatInt(cycles, 10) + " circular dependencies detected"] else [];
    var raw := 100 - (if HighBlocked(blocked, count) then 20 else 0) - 10 * cycles - (if density > 0.5 then 10 else 0);
    var score := if raw < 0 then 0 else if raw > 100 then 100 else raw;
    Health(score, blockedRisk + cycleRisk, if density > 0.5 then [DensityWarning] else [])
  }

  /** The handler's steps: start at 100, take off each penalty with its message, then clamp. */
  method ScoreHealth(count: nat, blocked: nat, cycles: nat, density: real) returns (h: Health)
    ensures h == HealthOf(count, blocked, cycles, density)
  {
    var score := 100;
    var risks: seq<string> := [];
    var warnings: seq<string> := [];
    if HighBlocked(blocked, count) {
      score := score - 20;
      risks := risks + ["High blocked ratio: " + Radix.FormatInt(blocked, 10) + "/" + Radix.FormatInt(count, 10) + " issues blocked"];
    }
    if cycles > 0 {
      score := score - cycles * 10;
      risks := risks + [Radix.FormatInt(cycles, 10) + " circular dependencies detected"];
    }
    if density > 0.5 {
      score := score - 10;
      warnings := warnings + [DensityWarning];
    }
    score := if score < 0 then 0 else if score > 100 then 100 else score;
    h := Health(score, risks, warnings);
  }

  /** Another cycle never raises the score. */
  lemma HealthFallsWithCycles(count: nat, blocked: nat, cycles: nat, density: real)
    ensures HealthOf(count, blocked, cycles + 1, density).score <= HealthOf(count, blocked, cycles, density).score
  {
  }

  /** The fallback body of GET /insights (the empty page-rank and path maps left out). */
  datatype Insights = Insights(degree: map<string, nat>, cycles: seq<seq<string>>, density: real,
                               health: Health, issueCount: nat, openCount: nat, blockedCount: nat,
                               timestamp: string)

  function InsightsOf(issues: seq<Issue>, now: string): (r: Insights)
    ensures r.issueCount == |issues| && r.openCount + r.blockedCount <= r.issueCount
    ensures forall id :: id in r.degree <==> exists x :: x in issues && x.id == id
    ensures AllGood(r.cycles, issues) && PairsUnique(r.cycles)
    ensures 0 <= r.health.score <= 100
    ensures r.timestamp == now
  {
    FilterDisjoint(issues, IsOpen, IsBlocked);
    assert forall x :: x in issues ==> x in issues;
    CyclesOfGood(issues, issues);
    forall id
      ensures id in DegreeOf(issues) <==> exists x :: x in issues && x.id == id
    {
      DegreeOfKeys(issues, id);
      if exists x :: x in issues && x.id == id {
        var x :| x in issues && x.id == id;
        var j :| 0 <= j < |issues| && issues[j] == x;
      }
    }
    var cycles := CyclesOf(issues, issues);
    var openCount := |Filter(issues, IsOpen)|;
    var blockedCount := |Filter(issues, IsBlocked)|;
    var density := Density(TotalDeps(issues), |issues|);
    Insights(DegreeOf(issues), cycles, density, HealthOf(|issues|, blockedCount, |cycles|, density),
             |issues|, openCount, blockedCount, now)
  }

  /** The route's computation, with the degree and cycle loops. */
  method ComputeInsights(issues: seq<Issue>, now: string) returns (r: Insights)
    ensures r == InsightsOf(issues, now)
  {
    var degree := ComputeDegree(issues);
    var cycles := FindCycles(issues);
    var openCount := |Filter(issues, IsOpen)|;
    var blockedCount := |Filter(issues, IsBlocked)|;
    var density := Density(TotalDeps(issues), |issues|);
    var health := ScoreHealth(|issues|, blockedCount, |cycles|, density);
    r := Insights(degree, cycles, density, health, |issues|, openCount, blockedCount, now);
  }
}
