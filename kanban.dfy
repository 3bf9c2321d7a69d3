// The beads kanban board: issues bucketed by status into five fixed
// columns, with an extra "other" column for any other status, and each
// column sorted by priority, a missing priority counting as 99.
module Kanban {
  import opened Wrappers
  import opened Orders

  /** An issue as the board reads it. */
  datatype KanbanIssue = KanbanIssue(id: string, title: string, status: string, priority: Option<int>)

  /** The column statuses, in display order. */
  const Statuses: seq<string> := ["open", "ready", "in_progress", "blocked", "closed"]

  /** The column titles, in the same order. */
  const Labels: seq<string> := ["Open", "Ready", "In Progress", "Blocked", "Closed"]

  /** `issue.priority || 99`: an absent priority, or 0, counts as 99. */
  function SortPriority(i: KanbanIssue): (p: int)
    ensures i.priority.Some? && i.priority.value != 0 ==> p == i.priority.value
    ensures i.priority.None? || i.priority.value == 0 ==> p == 99
  {
    if i.priority.None? || i.priority.value == 0 then 99 else i.priority.value
  }

  /** The comparator `(a, b) => (a.priority || 99) - (b.priority || 99)` is negative. */
  predicate PriorityLt(a: KanbanIssue, b: KanbanIssue)
  {
    SortPriority(a) - SortPriority(b) < 0
  }

  lemma PriorityLtStrictWeak()
    ensures StrictWeakOrder(PriorityLt)
  {
    ByKeyStrictWeak(PriorityLt, (i: KanbanIssue) => Key3(SortPriority(i), "", ""));
  }

  /** The issues with the given status, in their order. */
  function Column(issues: seq<KanbanIssue>, status: string): seq<KanbanIssue>
  {
    if issues == [] then []
    else if issues[0].status == status then [issues[0]] + Column(issues[1..], status)
    else Column(issues[1..], status)
  }

  /** The issues whose status is none of `cols`, in their order. */
  function Other(issues: seq<KanbanIssue>, cols: seq<string>): seq<KanbanIssue>
  {
    if issues == [] then []
    else if issues[0].status !in cols then [issues[0]] + Other(issues[1..], cols)
    else Other(issues[1..], cols)
  }

  /** The first issue goes to its own status's column, and to no other. */
  lemma ColumnUnfold(issues: seq<KanbanIssue>)
    requires issues != []
    ensures forall s :: Column(issues, s) == (if issues[0].status == s then [issues[0]] else []) + Column(issues[1..], s)
  {
  }

  /** A column holds exactly the issues with its status. */
  lemma {:induction false} ColumnMembers(issues: seq<KanbanIssue>, status: string)
    ensures forall x :: x in Column(issues, status) <==> x in issues && x.status == status
  {
    if issues != [] {
      ColumnMembers(issues[1..], status);
      assert issues == [issues[0]] + issues[1..];
    }
  }

  /** "Other" holds exactly the issues whose status has no column. */
  lemma {:induction false} OtherMembers(issues: seq<KanbanIssue>, cols: seq<string>)
    ensures forall x :: x in Other(issues, cols) <==> x in issues && x.status !in cols
  {
    if issues != [] {
      OtherMembers(issues[1..], cols);
      assert issues == [issues[0]] + issues[1..];
    }
  }

  /** No status has two columns. */
  predicate Distinct(cols: seq<string>)
  {
    forall i, j :: 0 <= i < j < |cols| ==> cols[i] != cols[j]
  }

  lemma StatusesDistinct()
    ensures Distinct(Statuses)
  {
  }

  /** `issuesByStatus`: an empty list for every column status, set in a loop. */
  method EmptyBuckets(cols: seq<string>) returns (byStatus: map<string, seq<KanbanIssue>>)
    ensures forall s :: s in byStatus <==> s in cols
    ensures forall s :: s in byStatus ==> byStatus[s] == []
  {
    byStatus := map[];
    var c := 0;
    while c < |cols|
      invariant 0 <= c <= |cols|
      invariant forall s :: s in byStatus <==> s in cols[..c]
      invariant forall s :: s in byStatus ==> byStatus[s] == []
    {
      assert cols[..c + 1] == cols[..c] + [cols[c]];
      byStatus := byStatus[cols[c] := []];
      c := c + 1;
    }
    assert cols[..c] == cols;
  }

  /**
   * The loop over the issues that pushes each one onto its status's list,
   * or onto the "other" list when its status has none.
   */
  method Bucket(issues: seq<KanbanIssue>, cols: seq<string>) returns (byStatus: map<string, seq<KanbanIssue>>, other: seq<KanbanIssue>)
    ensures forall s :: s in byStatus <==> s in cols
    ensures forall s :: s in byStatus ==> byStatus[s] == Column(issues, s)
    ensures other == Other(issues, cols)
  {
    byStatus := EmptyBuckets(cols);
    other := [];
    var i := 0;
    while i < |issues|
      invariant 0 <= i <= |issues|
      invariant forall s :: s in byStatus <==> s in cols
      invariant forall s :: s in byStatus ==> Column(issues, s) == byStatus[s] + Column(issues[i..], s)
      invariant Other(issues, cols) == other + Other(issues[i..], cols)
    {
      assert issues[i..][1..] == issues[i + 1..];
      ColumnUnfold(issues[i..]);
      var issue := issues[i];
      if issue.status in byStatus {
        byStatus := byStatus[issue.status := byStatus[issue.status] + [issue]];
      } else {
        other := other + [issue];
      }
      i := i + 1;
    }
    assert issues[|issues|..] == [];
  }

  /** `columnIssues.sort(...)`: one list sorted in place by priority. */
  method SortByPriority(s: seq<KanbanIssue>) returns (r: seq<KanbanIssue>)
    ensures multiset(r) == multiset(s)
    ensures ByPriority(r)
  {
    var a := new KanbanIssue[|s|](k requires 0 <= k < |s| => s[k]);
    assert a[..] == s;
    PriorityLtStrictWeak();
    SortArray(a, PriorityLt);
    r := a[..];
  }

  /** No issue has a lower sort priority than one before it. */
  predicate ByPriority(s: seq<KanbanIssue>)
  {
    forall i, j :: 0 <= i < j < |s| ==> SortPriority(s[i]) <= SortPriority(s[j])
  }

  /** The board: the five columns in order, then the "other" column. */
  datatype Board = Board(columns: seq<seq<KanbanIssue>>, other: seq<KanbanIssue>)

  /**
   * The bucketing and sorting for the column statuses `cols`: column `k`
   * holds exactly the issues with status `cols[k]`, "other" exactly those
   * with none of them, each sorted by ascending priority.
   */
  method BuildBoard(issues: seq<KanbanIssue>, cols: seq<string>) returns (b: Board)
    ensures |b.columns| == |cols|
    ensures forall k :: 0 <= k < |cols| ==> multiset(b.columns[k]) == multiset(Column(issues, cols[k]))
    ensures multiset(b.other) == multiset(Other(issues, cols))
    ensures forall k :: 0 <= k < |cols| ==> ByPriority(b.columns[k])
    ensures ByPriority(b.other)
  {
    var byStatus, other := Bucket(issues, cols);
    var columns: seq<seq<KanbanIssue>> := [];
    var c := 0;
    while c < |cols|
      invariant 0 <= c <= |cols| && |columns| == c
      invariant forall k :: 0 <= k < c ==> multiset(columns[k]) == multiset(Column(issues, cols[k]))
      invariant forall k :: 0 <= k < c ==> ByPriority(columns[k])
    {
      assert cols[c] in cols;
      var bucket := byStatus[cols[c]];
      assert bucket == Column(issues, cols[c]);
      var sorted := SortByPriority(bucket);
      columns := columns + [sorted];
      assert columns[c] == sorted;
      c := c + 1;
    }
    var sortedOther := SortByPriority(other);
    b := Board(columns, sortedOther);
  }

  /** The issues of the columns for `ss`, together. */
  function ColumnsOf(issues: seq<KanbanIssue>, ss: seq<string>): multiset<KanbanIssue>
  {
    if ss == [] then multiset{} else multiset(Column(issues, ss[0])) + ColumnsOf(issues, ss[1..])
  }

  /** No issues, empty columns. */
  lemma {:induction false} ColumnsOfEmpty(cols: seq<string>)
    ensures ColumnsOf([], cols) == multiset{}
  {
    if cols != [] {
      ColumnsOfEmpty(cols[1..]);
    }
  }

  /** One issue more adds it to the columns exactly once when its status has one, and not at all otherwise. */
  lemma {:induction false} ColumnsOfCons(x: KanbanIssue, rest: seq<KanbanIssue>, cols: seq<string>)
    requires Distinct(cols)
    ensures ColumnsOf([x] + rest, cols) == ColumnsOf(rest, cols) + (if x.status in cols then multiset{x} else multiset{})
  {
    if cols != [] {
      assert ([x] + rest)[1..] == rest;
      ColumnsOfCons(x, rest, cols[1..]);
      assert x.status in cols <==> x.status == cols[0] || x.status in cols[1..];
      assert cols[0] !in cols[1..];
    }
  }

  /**
   * Every issue is in exactly one bucket: the columns and "other" together
   * are the issues, each as often as it occurs.
   */
  lemma {:induction false} Partition(issues: seq<KanbanIssue>, cols: seq<string>)
    requires Distinct(cols)
    ensures multiset(issues) == ColumnsOf(issues, cols) + multiset(Other(issues, cols))
  {
    if issues != [] {
      var x, rest := issues[0], issues[1..];
      Partition(rest, cols);
      assert issues == [x] + rest;
      assert multiset(issues) == multiset{x} + multiset(rest);
      ColumnsOfCons(x, rest, cols);
      var c, o := ColumnsOf(rest, cols), multiset(Other(rest, cols));
      if x.status in cols {
        assert Other(issues, cols) == Other(rest, cols);
        assert ColumnsOf(issues, cols) == c + multiset{x};
        assert (c + multiset{x}) + o == multiset{x} + (c + o);
      } else {
        assert Other(issues, cols) == [x] + Other(rest, cols);
        assert multiset(Other(issues, cols)) == multiset{x} + o;
        assert ColumnsOf(issues, cols) == c;
        assert c + (multiset{x} + o) == multiset{x} + (c + o);
      }
    } else {
      ColumnsOfEmpty(cols);
    }
  }

  /** The board's five columns and its "other" column hold every issue exactly once. */
  lemma BoardPartitions(issues: seq<KanbanIssue>)
    ensures multiset(issues) == ColumnsOf(issues, Statuses) + multiset(Other(issues, Statuses))
  {
    StatusesDistinct();
    Partition(issues, Statuses);
  }

  /** The "other" column is shown exactly when some issue's status has no column. */
  lemma OtherShownIff(issues: seq<KanbanIssue>, cols: seq<string>)
    ensures |Other(issues, cols)| > 0 <==> exists k :: 0 <= k < |issues| && issues[k].status !in cols
  {
    OtherMembers(issues, cols);
    if |Other(issues, cols)| > 0 {
      assert Other(issues, cols)[0] in Other(issues, cols);
    }
    if exists k :: 0 <= k < |issues| && issues[k].status !in cols {
      var k :| 0 <= k < |issues| && issues[k].status !in cols;
      assert issues[k] in Other(issues, cols);
    }
  }

  /** What the board component renders. */
  datatype View = Loading | ErrorMessage(message: string) | NoIssues | BoardView(board: Board, showOther: bool)

  /**
   * `KanbanView`: loading first, then a non-empty error, then the empty
   * message; otherwise the board, with the "other" column shown only
   * when it holds an issue.
   */
  method KanbanView(issues: seq<KanbanIssue>, loading: bool, error: Option<string>) returns (v: View)
    ensures loading ==> v == Loading
    ensures !loading && error.Some? && error.value != "" ==> v == ErrorMessage(error.value)
    ensures !loading && !(error.Some? && error.value != "") && issues == [] ==> v == NoIssues
    ensures !loading && !(error.Some? && error.value != "") && issues != [] ==> v.BoardView?
    ensures v.BoardView? ==> issues != [] && |v.board.columns| == |Statuses| &&
                             multiset(v.board.other) == multiset(Other(issues, Statuses)) &&
                             (v.showOther <==> |v.board.other| > 0)
    ensures v.BoardView? ==>
              (forall k :: 0 <= k < |Statuses| ==>
                 multiset(v.board.columns[k]) == multiset(Column(issues, Statuses[k])) &&
                 ByPriority(v.board.columns[k])) &&
              ByPriority(v.board.other)
  {
    if loading {
      return Loading;
    }
    if error.Some? && error.value != "" {
      return ErrorMessage(error.value);
    }
    if |issues| == 0 {
      return NoIssues;
    }
    var b := BuildBoard(issues, Statuses);
    v := BoardView(b, |b.other| > 0);
  }
}
