// The session helpers of Go package `tmux`. Its `CategorizeSession` and
// `GroupSessions` are the same code as package `core` and are modelled there
// (SessionCore.Categorize, SessionCore.GroupSessions); this module holds what
// differs: the priority table, display names, and the sorted group keys.
module SessionTmux {
  import opened Strs
  import opened Orders
  import SessionCore

  type Session = SessionCore.Session

  const PriorityHQ := 0
  const PriorityMain := 1
  const PriorityGT := 2
  const PriorityOther := 100

  /** `GetGroupPriority` of package `tmux`. */
  function GroupPriority(group: string): (p: int)
    ensures p in {PriorityHQ, PriorityMain, PriorityGT, PriorityOther}
  {
    if group == "hq" then PriorityHQ
    else if group == "main" then PriorityMain
    else if HasPrefix(group, "gt-") then PriorityGT
    else PriorityOther
  }

  /**
   * The `tmux` and `core` priority tables differ in their numbers but rank
   * every pair of groups the same way.
   */
  lemma PriorityOrderAgrees(g1: string, g2: string)
    ensures GroupPriority(g1) < GroupPriority(g2)
            <==> SessionCore.GroupPriority(g1) < SessionCore.GroupPriority(g2)
    ensures GroupPriority(g1) == GroupPriority(g2)
            <==> SessionCore.GroupPriority(g1) == SessionCore.GroupPriority(g2)
  {
  }

  /** Go's word separator for `strings.Title`, on ASCII characters. */
  predicate TitleSeparator(c: char)
  {
    c < 128 as char && !(IsLetter(c) || IsDigit(c) || c == '_')
  }

  function TitleFrom(s: string, atWordStart: bool): (r: string)
    ensures |r| == |s|
    ensures forall i :: 0 <= i < |s| ==>
              r[i] == if (i == 0 && atWordStart) || (i > 0 && TitleSeparator(s[i - 1]))
                      then UpperChar(s[i]) else s[i]
  {
    if s == [] then []
    else [if atWordStart then UpperChar(s[0]) else s[0]] + TitleFrom(s[1..], TitleSeparator(s[0]))
  }

  /** `strings.Title`: the first letter of every word in upper case. */
  function Title(s: string): (r: string)
    ensures |r| == |s|
    ensures s != [] ==> r[0] == UpperChar(s[0])
    ensures forall i :: 0 < i < |s| ==>
              r[i] == if TitleSeparator(s[i - 1]) then UpperChar(s[i]) else s[i]
  {
    TitleFrom(s, true)
  }

  /** `GetGroupDisplayName`: fixed names for hq, main and other, the titled rig name for gt-. */
  function GroupDisplayName(group: string): (r: string)
  {
    if group == "hq" then "HQ"
    else if group == "main" then "Main"
    else if group == "other" then "Other"
    else if HasPrefix(group, "gt-") then
      var parts := Split(group, '-');
      if |parts| >= 2 then Title(parts[1]) else Title(group)
    else Title(group)
  }

  /** A rig group "gt-<rig>" displays as its titled rig name. */
  lemma RigDisplayName(rig: string)
    requires '-' !in rig
    ensures GroupDisplayName("gt-" + rig) == Title(rig)
  {
    var g := "gt-" + rig;
    SessionCore.RigNameParts(g);
    assert g[3..] == rig;
    IndexOfAbsent(rig, '-');
    assert g != "hq" && g != "main" && g != "other" by {
      assert g[0] == 'g';
    }
  }

  /** The three fixed groups keep their configured names. */
  lemma FixedDisplayNames()
    ensures GroupDisplayName("hq") == "HQ"
    ensures GroupDisplayName("main") == "Main"
    ensures GroupDisplayName("other") == "Other"
  {
  }

  /** The display name of a session's group, from the session name. */
  lemma DisplayNameOfSession(name: string)
    requires HasPrefix(name, "gt-")
    ensures GroupDisplayName(SessionCore.Categorize(name)) == Title(name[3..][..IndexOf(name[3..], '-')])
  {
    var g := SessionCore.Categorize(name);
    var rig := name[3..][..IndexOf(name[3..], '-')];
    assert g == "gt-" + rig by {
      assert g[..3] == "gt-";
      assert g == g[..3] + g[3..];
      assert g[3..] == rig;
    }
    RigDisplayName(rig);
  }

  function SortKey(s: Session): Key3
  {
    Key3(GroupPriority(s.group), s.group, s.name)
  }

  /** The "less" function of `SortSessions` in package `tmux`. */
  predicate Less(a: Session, b: Session)
  {
    Key3Lt(SortKey(a), SortKey(b))
  }

  /** Both packages order sessions identically despite their different tables. */
  lemma LessAgrees(a: Session, b: Session)
    ensures Less(a, b) <==> SessionCore.Less(a, b)
  {
    PriorityOrderAgrees(a.group, b.group);
  }

  /** `SortSessions` of package `tmux`: in place by (priority, group, name). */
  method SortSessions(a: array<Session>)
    modifies a
    ensures SortedBy(a[..], Less)
    ensures SortedBy(a[..], SessionCore.Less)
    ensures multiset(a[..]) == multiset(old(a[..]))
  {
    ByKeyStrictWeak(Less, SortKey);
    SortArray(a, Less);
    forall a1, b1 | true
      ensures Less(a1, b1) == SessionCore.Less(a1, b1)
    {
      LessAgrees(a1, b1);
    }
  }

  function GroupKey(g: string): Key3
  {
    Key3(GroupPriority(g), g, "")
  }

  /** The order of `SortedGroupKeys`: priority, then the key itself. */
  predicate KeyLess(a: string, b: string)
  {
    Key3Lt(GroupKey(a), GroupKey(b))
  }

  /**
   * `SortedGroupKeys`: every key of the map exactly once, in strictly
   * increasing (priority, key) order. The map is walked in an arbitrary
   * order, as Go's map iteration is.
   */
  method SortedGroupKeys(grouped: map<string, seq<Session>>) returns (keys: seq<string>)
    ensures |keys| == |grouped.Keys|
    ensures forall k :: k in grouped <==> k in keys
    ensures forall i, j :: 0 <= i < j < |keys| ==> KeyLess(keys[i], keys[j])
  {
    var collected: seq<string> := [];
    var rest := grouped.Keys;
    while rest != {}
      invariant rest <= grouped.Keys
      invariant forall k :: k in grouped <==> k in rest || k in collected
      invariant forall k :: k in rest ==> k !in collected
      invariant forall i, j :: 0 <= i < j < |collected| ==> collected[i] != collected[j]
      decreases rest
    {
      var k :| k in rest;
      collected := collected + [k];
      rest := rest - {k};
    }
    var a := new string[|collected|](i requires 0 <= i < |collected| => collected[i]);
    assert a[..] == collected;
    ByKeyStrictWeak(KeyLess, GroupKey);
    SortArray(a, KeyLess);
    keys := a[..];
    DistinctPermutation(collected, keys);
    forall i, j | 0 <= i < j < |keys|
      ensures KeyLess(keys[i], keys[j])
    {
      Key3LtFacts(GroupKey(keys[i]), GroupKey(keys[j]), GroupKey(keys[j]));
    }
    DistinctCount(grouped.Keys, keys);
  }

  lemma DistinctPermutation(a: seq<string>, b: seq<string>)
    requires multiset(a) == multiset(b)
    requires forall i, j :: 0 <= i < j < |a| ==> a[i] != a[j]
    ensures forall i, j :: 0 <= i < j < |b| ==> b[i] != b[j]
    ensures forall k :: k in a <==> k in b
  {
    forall k
      ensures k in a <==> k in b
    {
      assert k in a <==> k in multiset(a);
      assert k in b <==> k in multiset(b);
    }
    forall i, j | 0 <= i < j < |b|
      ensures b[i] != b[j]
    {
      if b[i] == b[j] {
        assert multiset(b)[b[i]] >= 2 by {
          assert b == b[..i] + [b[i]] + b[i + 1..j] + [b[j]] + b[j + 1..];
        }
        DistinctOnce(a, b[i]);
      }
    }
  }

  lemma {:induction false} DistinctOnce(a: seq<string>, x: string)
    requires forall i, j :: 0 <= i < j < |a| ==> a[i] != a[j]
    ensures multiset(a)[x] <= 1
  {
    if a != [] {
      DistinctOnce(a[1..], x);
      assert a == [a[0]] + a[1..];
      if a[0] == x {
        assert x !in a[1..];
      }
    }
  }

  lemma {:induction false} DistinctCount(s: set<string>, keys: seq<string>)
    requires forall k :: k in s <==> k in keys
    requires forall i, j :: 0 <= i < j < |keys| ==> keys[i] != keys[j]
    ensures |keys| == |s|
    decreases |keys|
  {
    if keys != [] {
      var last := keys[|keys| - 1];
      var init := keys[..|keys| - 1];
      assert last !in init;
      DistinctCount(s - {last}, init);
    }
  }
}
