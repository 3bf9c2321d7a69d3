// GET /api/beads/projects: a depth-limited walk from the search roots that
// lists every directory holding `.beads/issues.jsonl`. The walk's state, the
// list of projects found and the set of directories already searched, lives
// in a `ProjectSearch` object; the file system is a value the walk reads.
module BeadsProjects {
  import opened Strs
  import opened Wrappers
  import opened PathUtil
  import Radix
  import BeadsFallback

  /** A directory entry as `readdirSync(dir, {withFileTypes: true})` gives it. */
  datatype Entry = Entry(name: string, isDir: bool)

  /**
   * What the walk can see: the paths that exist, those that are
   * directories, and the listing of every directory that can be read (a
   * directory missing from `listing` makes `readdirSync` throw).
   */
  datatype FileSystem = FileSystem(paths: set<string>, dirs: set<string>, listing: map<string, seq<Entry>>)

  /** `dir/.beads` is a directory and `dir/.beads/issues.jsonl` exists. */
  predicate IsProject(dir: string, fs: FileSystem)
  {
    var beadsPath := JoinPath(dir, ".beads");
    beadsPath in fs.paths && beadsPath in fs.dirs && JoinPath(beadsPath, "issues.jsonl") in fs.paths
  }

  /** The walk enters directories whose name neither starts with "." nor is "node_modules". */
  predicate Descends(e: Entry)
  {
    e.isDir && !HasPrefix(e.name, ".") && e.name != "node_modules"
  }

  /** `parseInt(req.query.depth) || 3`: a missing, unparsable or zero depth is 3. */
  function MaxDepth(depthQuery: string): (d: int)
    ensures Radix.ParseInt(depthQuery).Some? && Radix.ParseInt(depthQuery).value != 0 ==>
              d == Radix.ParseInt(depthQuery).value
    ensures Radix.ParseInt(depthQuery).None? || Radix.ParseInt(depthQuery).value == 0 ==> d == 3
  {
    match Radix.ParseInt(depthQuery)
    case Some(n) => if n != 0 then n else 3
    case None => 3
  }

  /** A positive decimal depth is taken as written; "0" means the default. */
  lemma MaxDepthOfDecimal(n: nat)
    ensures MaxDepth(Radix.FormatNat(n, 10)) == if n == 0 then 3 else n
  {
    Radix.ParseIntFormat(n);
  }

  /** The subdirectories the walk enters from `dir`, whose listing is `entries`. */
  function ChildrenOf(dir: string, entries: seq<Entry>): set<string>
    decreases |entries|
  {
    if entries == [] then {}
    else
      var last := entries[|entries| - 1];
      ChildrenOf(dir, entries[..|entries| - 1]) + (if Descends(last) then {JoinPath(dir, last.name)} else {})
  }

  /** A path is a walked subdirectory exactly when some qualifying entry names it. */
  lemma {:induction false} ChildrenOfMembers(dir: string, entries: seq<Entry>, c: string)
    ensures c in ChildrenOf(dir, entries) <==>
              exists k :: 0 <= k < |entries| && Descends(entries[k]) && JoinPath(dir, entries[k].name) == c
  {
    if entries != [] {
      var front := entries[..|entries| - 1];
      ChildrenOfMembers(dir, front, c);
      if exists k :: 0 <= k < |front| && Descends(front[k]) && JoinPath(dir, front[k].name) == c {
        var k :| 0 <= k < |front| && Descends(front[k]) && JoinPath(dir, front[k].name) == c;
        assert entries[k] == front[k];
      }
      if exists k :: 0 <= k < |entries| && Descends(entries[k]) && JoinPath(dir, entries[k].name) == c {
        var k :| 0 <= k < |entries| && Descends(entries[k]) && JoinPath(dir, entries[k].name) == c;
        if k < |front| {
          assert front[k] == entries[k];
        }
      }
    }
  }

  /** `req.query.root ? [req.query.root] : defaultRoots`. */
  function SearchRoots(rootQuery: string): (roots: seq<string>)
    ensures rootQuery != "" ==> roots == [rootQuery]
    ensures rootQuery == "" ==> roots == ["/code", "/workspace"]
  {
    if rootQuery != "" then [rootQuery] else ["/code", "/workspace"]
  }

  /** The state of one request's walk: `projects` and `searched`. */
  class ProjectSearch {
    var projects: seq<string>
    var searched: set<string>
    const maxDepth: int
    const fs: FileSystem

    /**
     * Every listed directory is a project that was searched, none is listed
     * twice, and every searched project is listed.
     */
    predicate Valid()
      reads this
    {
      (forall k :: 0 <= k < |projects| ==> projects[k] in searched && IsProject(projects[k], fs)) &&
      (forall i, j :: 0 <= i < j < |projects| ==> projects[i] != projects[j]) &&
      (forall d :: d in searched && IsProject(d, fs) ==> d in projects)
    }

    constructor (maxDepth: int, fs: FileSystem)
      ensures Valid()
      ensures projects == [] && searched == {}
      ensures this.maxDepth == maxDepth && this.fs == fs
    {
      projects := [];
      searched := {};
      this.maxDepth := maxDepth;
      this.fs := fs;
    }

    /**
     * `findBeadsProjects(dir, depth)`: nothing below the depth limit or
     * already searched; otherwise `dir` is marked searched, listed when it
     * is a project, and its entries that qualify are walked one level deeper.
     */
    method Find(dir: string, depth: int)
      requires Valid()
      modifies this
      ensures Valid()
      ensures old(searched) <= searched && old(projects) <= projects
      ensures depth > maxDepth || dir in old(searched) ==> projects == old(projects) && searched == old(searched)
      ensures depth <= maxDepth ==> dir in searched
      ensures depth < maxDepth && dir !in old(searched) && dir in fs.listing ==>
                ChildrenOf(dir, fs.listing[dir]) <= searched
      decreases if depth <= maxDepth then maxDepth - depth + 1 else 0, 1
    {
      if depth > maxDepth {
        return;
      }
      if dir in searched {
        return;
      }
      searched := searched + {dir};
      if IsProject(dir, fs) {
        projects := projects + [dir];
      }
      if dir in fs.listing {
        WalkEntries(dir, depth, fs.listing[dir]);
      }
    }

    /**
     * The loop over a directory's entries: each one that qualifies is
     * walked one level deeper, so below the depth limit every such
     * subdirectory ends up searched.
     */
    method WalkEntries(dir: string, depth: int, entries: seq<Entry>)
      requires Valid() && depth <= maxDepth
      modifies this
      ensures Valid()
      ensures old(searched) <= searched && old(projects) <= projects
      ensures depth < maxDepth ==> ChildrenOf(dir, entries) <= searched
      decreases maxDepth - depth + 1, 0
    {
      var i := 0;
      while i < |entries|
        invariant 0 <= i <= |entries|
        invariant Valid()
        invariant old(searched) <= searched && old(projects) <= projects
        invariant depth < maxDepth ==> ChildrenOf(dir, entries[..i]) <= searched
      {
        if Descends(entries[i]) {
          Find(JoinPath(dir, entries[i].name), depth + 1);
        }
        assert entries[..i + 1][..i] == entries[..i];
        i := i + 1;
      }
      assert entries[..i] == entries;
    }
  }

  /**
   * The whole route: walk each search root that exists, then report the
   * projects found and the roots that exist.
   */
  method ProjectsRoute(rootQuery: string, depthQuery: string, fs: FileSystem)
    returns (projects: seq<string>, searchRoots: seq<string>)
    ensures forall k :: 0 <= k < |projects| ==> IsProject(projects[k], fs)
    ensures forall i, j :: 0 <= i < j < |projects| ==> projects[i] != projects[j]
    ensures searchRoots == BeadsFallback.Filter(SearchRoots(rootQuery), r => r in fs.paths)
    ensures MaxDepth(depthQuery) >= 0 ==>
              forall r :: r in SearchRoots(rootQuery) && r in fs.paths && IsProject(r, fs) ==> r in projects
    ensures var first := SearchRoots(rootQuery)[0];
            MaxDepth(depthQuery) >= 1 && first in fs.paths && first in fs.listing ==>
              forall c :: c in ChildrenOf(first, fs.listing[first]) && IsProject(c, fs) ==> c in projects
  {
    var roots := SearchRoots(rootQuery);
    var search := new ProjectSearch(MaxDepth(depthQuery), fs);
    var i := 0;
    while i < |roots|
      invariant 0 <= i <= |roots|
      invariant search.Valid() && search.fs == fs && search.maxDepth == MaxDepth(depthQuery)
      invariant search.maxDepth >= 0 ==> forall k :: 0 <= k < i && roots[k] in fs.paths ==> roots[k] in search.searched
      invariant i == 0 ==> search.searched == {}
      invariant var first := roots[0];
                i > 0 && search.maxDepth >= 1 && first in fs.paths && first in fs.listing ==>
                  ChildrenOf(first, fs.listing[first]) <= search.searched
    {
      if roots[i] in fs.paths {
        search.Find(roots[i], 0);
      }
      i := i + 1;
    }
    projects := search.projects;
    searchRoots := BeadsFallback.Filter(roots, r => r in fs.paths);
  }
}
