// The Go session directory of package `core`: grouping of tmux sessions by
// name, the (priority, group, name) order, partitioning by group, and the
// session-name validator every tmux handler runs before calling tmux.
module SessionCore {
  import opened Strs
  import opened Orders

  /** One tmux session as listed by `tmux list-sessions`. */
  datatype Session = Session(name: string, windows: int, attached: bool, group: string)

  /** The group of a rig session: "gt-" plus the name up to its next dash. */
  predicate RigGroupOf(name: string, group: string)
  {
    HasPrefix(group, "gt-") && '-' !in group[3..] && HasPrefix(name, group)
    && (|name| == |group| || name[|group|] == '-')
  }

  /** Every name that starts with "gt-" splits into at least two dash parts. */
  lemma RigNameParts(name: string)
    requires HasPrefix(name, "gt-")
    ensures |Split(name, '-')| >= 2
    ensures Split(name, '-')[0] == "gt"
    ensures Split(name, '-')[1] == name[3..][..IndexOf(name[3..], '-')]
  {
    assert name[..3] == "gt-";
    assert name[0] == 'g' && name[1] == 't' && name[2] == '-';
    assert IndexOf(name, '-') == 2;
  }

  /** The group of a rig name is its first two dash parts. */
  lemma RigCategory(name: string)
    requires HasPrefix(name, "gt-")
    ensures |Split(name, '-')| >= 2
    ensures Categorize(name) == Split(name, '-')[0] + "-" + Split(name, '-')[1]
  {
    RigNameParts(name);
  }

  /** `CategorizeSession`: the group a session name belongs to. */
  function Categorize(name: string): (group: string)
    ensures HasPrefix(name, "hq-") ==> group == "hq"
    ensures !HasPrefix(name, "hq-") && (name == "main" || name == "shell") ==> group == "main"
    ensures HasPrefix(name, "gt-") ==> RigGroupOf(name, group)
    ensures !HasPrefix(name, "hq-") && name != "main" && name != "shell" && !HasPrefix(name, "gt-")
            ==> group == "other"
  {
    if HasPrefix(name, "hq-") then "hq"
    else if name == "main" || name == "shell" then "main"
    else if HasPrefix(name, "gt-") then
      var parts := Split(name, '-');
      RigNameParts(name);
      if |parts| >= 2 then
        var rest := name[3..];
        var j := IndexOf(rest, '-');
        assert parts[0] + "-" + parts[1] == name[..3 + j];
        parts[0] + "-" + parts[1]
      else "gt-unknown"
    else "other"
  }

  /** `GetGroupPriority`: hq first, then main, then rigs, then the rest. */
  function GroupPriority(group: string): (p: int)
    ensures 0 <= p <= 4 && p != 2
  {
    if group == "hq" then 0
    else if group == "main" then 1
    else if HasPrefix(group, "gt-") then 3
    else 4
  }

  /** The priority of a session is fixed by the class of its name. */
  lemma PriorityByName(name: string)
    ensures GroupPriority(Categorize(name)) ==
      if HasPrefix(name, "hq-") then 0
      else if name == "main" || name == "shell" then 1
      else if HasPrefix(name, "gt-") then 3
      else 4
  {
    var g := Categorize(name);
    if HasPrefix(name, "hq-") {
    } else if name == "main" || name == "shell" {
    } else if HasPrefix(name, "gt-") {
      assert HasPrefix(g, "gt-");
      assert g != "hq" && g != "main" by {
        assert |g| >= 3 && g[2] == '-';
      }
    } else {
      assert g == "other";
      assert !HasPrefix(g, "gt-") by {
        assert g[0] == 'o';
      }
    }
  }

  function SortKey(s: Session): Key3
  {
    Key3(GroupPriority(s.group), s.group, s.name)
  }

  /** The "less" function handed to `sort.Slice` in `SortSessions`. */
  predicate Less(a: Session, b: Session)
  {
    Key3Lt(SortKey(a), SortKey(b))
  }

  lemma LessIsStrictWeakOrder()
    ensures StrictWeakOrder(Less)
  {
    ByKeyStrictWeak(Less, SortKey);
  }

  /** `SortSessions`: sorts the slice in place by (priority, group, name). */
  method SortSessions(a: array<Session>)
    modifies a
    ensures SortedBy(a[..], Less)
    ensures multiset(a[..]) == multiset(old(a[..]))
  {
    LessIsStrictWeakOrder();
    SortArray(a, Less);
  }

  /**
   * What sortedness means for a session list: priorities never decrease,
   * and names never decrease inside one group.
   */
  lemma SortedOrder(s: seq<Session>, i: int, j: int)
    requires SortedBy(s, Less)
    requires 0 <= i < j < |s|
    ensures GroupPriority(s[i].group) <= GroupPriority(s[j].group)
    ensures s[i].group == s[j].group ==> !StrLt(s[j].name, s[i].name)
  {
    assert !Less(s[j], s[i]);
  }

  /** In a sorted list the sessions of one group are contiguous. */
  lemma SortedGroupsContiguous(s: seq<Session>, i: int, j: int, k: int)
    requires SortedBy(s, Less)
    requires 0 <= i < j < k < |s| && s[i].group == s[k].group
    ensures s[j].group == s[i].group
  {
    assert !Less(s[j], s[i]) && !Less(s[k], s[j]);
    if s[j].group != s[i].group {
      StrLtTotal(s[i].group, s[j].group);
    }
  }

  /** The sessions of group `g`, in input order. */
  function OfGroup(sessions: seq<Session>, g: string): (r: seq<Session>)
    ensures forall k :: 0 <= k < |r| ==> r[k].group == g
    ensures |r| <= |sessions|
  {
    if sessions == [] then []
    else
      var last := sessions[|sessions| - 1];
      OfGroup(sessions[..|sessions| - 1], g) + (if last.group == g then [last] else [])
  }

  /** The groups that occur in a list of sessions. */
  function Groups(sessions: seq<Session>): (r: set<string>)
    ensures forall k :: 0 <= k < |sessions| ==> sessions[k].group in r
  {
    if sessions == [] then {}
    else Groups(sessions[..|sessions| - 1]) + {sessions[|sessions| - 1].group}
  }

  /** `GroupSessions`: appends every session to its group's list. */
  method GroupSessions(sessions: seq<Session>) returns (grouped: map<string, seq<Session>>)
    ensures grouped.Keys == Groups(sessions)
    ensures forall g :: g in grouped ==> grouped[g] == OfGroup(sessions, g)
  {
    grouped := map[];
    var i := 0;
    while i < |sessions|
      invariant 0 <= i <= |sessions|
      invariant GroupedPrefix(sessions[..i], grouped)
    {
      var s := sessions[i];
      var prev := if s.group in grouped then grouped[s.group] else [];
      GroupStep(sessions, i, grouped);
      grouped := grouped[s.group := prev + [s]];
      i := i + 1;
    }
    assert sessions[..|sessions|] == sessions;
  }

  /** `grouped` holds exactly the groups of `prefix`, each with its sessions in order. */
  ghost predicate GroupedPrefix(prefix: seq<Session>, grouped: map<string, seq<Session>>)
  {
    && grouped.Keys == Groups(prefix)
    && (forall g :: g in grouped ==> grouped[g] == OfGroup(prefix, g))
    && (forall g :: g !in grouped ==> OfGroup(prefix, g) == [])
  }

  /** Appending one more session to its group's list keeps the map in step. */
  lemma GroupStep(sessions: seq<Session>, i: int, grouped: map<string, seq<Session>>)
    requires 0 <= i < |sessions|
    requires GroupedPrefix(sessions[..i], grouped)
    ensures var s := sessions[i];
            var prev := if s.group in grouped then grouped[s.group] else [];
            GroupedPrefix(sessions[..i + 1], grouped[s.group := prev + [s]])
  {
    var s := sessions[i];
    var prev := if s.group in grouped then grouped[s.group] else [];
    var next := grouped[s.group := prev + [s]];
    PrefixStep(sessions, i);
    assert next.Keys == grouped.Keys + {s.group};
    forall g | g in next
      ensures next[g] == OfGroup(sessions[..i + 1], g)
    {
      if g != s.group {
        assert next[g] == grouped[g];
      }
    }
  }

  /** Taking one more session extends exactly its own group. */
  lemma PrefixStep(sessions: seq<Session>, i: int)
    requires 0 <= i < |sessions|
    ensures Groups(sessions[..i + 1]) == Groups(sessions[..i]) + {sessions[i].group}
    ensures forall g ::
              OfGroup(sessions[..i + 1], g)
              == OfGroup(sessions[..i], g) + (if sessions[i].group == g then [sessions[i]] else [])
  {
    assert sessions[..i + 1][..i] == sessions[..i];
  }

  /**
   * Each session sits in its own group's list exactly as often as it occurs
   * in the input, and in no other group's list.
   */
  lemma {:induction false} OfGroupPartition(sessions: seq<Session>, x: Session, g: string)
    ensures multiset(OfGroup(sessions, x.group))[x] == multiset(sessions)[x]
    ensures g != x.group ==> x !in OfGroup(sessions, g)
  {
    if sessions != [] {
      var init := sessions[..|sessions| - 1];
      OfGroupPartition(init, x, g);
      assert sessions == init + [sessions[|sessions| - 1]];
    }
  }

  /** Grouping a sorted list leaves every group's list sorted. */
  lemma {:induction false} OfGroupSorted(sessions: seq<Session>, g: string)
    requires SortedBy(sessions, Less)
    ensures SortedBy(OfGroup(sessions, g), Less)
  {
    if sessions != [] {
      var init := sessions[..|sessions| - 1];
      var last := sessions[|sessions| - 1];
      OfGroupSorted(init, g);
      var r := OfGroup(init, g);
      forall k | 0 <= k < |r|
        ensures !Less(last, r[k])
      {
        OfGroupMember(init, g, k);
      }
    }
  }

  lemma {:induction false} OfGroupMember(sessions: seq<Session>, g: string, k: int)
    requires 0 <= k < |OfGroup(sessions, g)|
    ensures exists m :: 0 <= m < |sessions| && sessions[m] == OfGroup(sessions, g)[k]
  {
    var init := sessions[..|sessions| - 1];
    if k < |OfGroup(init, g)| {
      OfGroupMember(init, g, k);
      var m :| 0 <= m < |init| && init[m] == OfGroup(init, g)[k];
      assert sessions[m] == init[m];
    } else {
      assert OfGroup(sessions, g)[k] == sessions[|sessions| - 1];
    }
  }

  /** One character allowed by `^[a-zA-Z0-9_-]+$`. */
  predicate NameChar(c: char)
  {
    IsLetter(c) || IsDigit(c) || c == '_' || c == '-'
  }

  /** The regular expression `^[a-zA-Z0-9_-]+$`, matched character by character. */
  predicate MatchesNamePattern(s: string)
  {
    s != [] && NameChar(s[0]) && (|s| == 1 || MatchesNamePattern(s[1..]))
  }

  /** A name every tmux handler accepts. */
  predicate WellFormedName(name: string)
  {
    0 < |name| <= 50 && forall i :: 0 <= i < |name| ==> NameChar(name[i])
  }

  lemma {:induction false} PatternMeansNameChars(s: string)
    ensures MatchesNamePattern(s) <==> s != [] && forall i :: 0 <= i < |s| ==> NameChar(s[i])
  {
    if |s| > 1 {
      PatternMeansNameChars(s[1..]);
      if forall i :: 0 <= i < |s| ==> NameChar(s[i]) {
        assert forall i :: 0 <= i < |s[1..]| ==> NameChar(s[1..][i]);
      }
      if MatchesNamePattern(s) {
        forall i | 0 <= i < |s|
          ensures NameChar(s[i])
        {
          if i > 0 {
            assert s[i] == s[1..][i - 1];
          }
        }
      }
    }
  }

  /** `ValidateSessionName`: (valid, message), checked in the order required, charset, length. */
  function ValidateSessionName(name: string, paramName: string): (r: (bool, string))
    ensures r.0 <==> WellFormedName(name)
    ensures r.0 ==> r.1 == ""
    ensures name == "" ==> r.1 == paramName + " is required."
    ensures name != "" && (exists i :: 0 <= i < |name| && !NameChar(name[i]))
            ==> r.1 == "Invalid " + paramName + ". Use only letters, numbers, dashes, and underscores."
    ensures |name| > 50 && (forall i :: 0 <= i < |name| ==> NameChar(name[i]))
            ==> r.1 == paramName + " too long (max 50 characters)."
  {
    PatternMeansNameChars(name);
    if name == "" then (false, paramName + " is required.")
    else if !MatchesNamePattern(name) then
      (false, "Invalid " + paramName + ". Use only letters, numbers, dashes, and underscores.")
    else if |name| > 50 then (false, paramName + " too long (max 50 characters).")
    else (true, "")
  }
}
