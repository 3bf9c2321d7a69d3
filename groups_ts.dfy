// The dashboard's own table of session groups: the display name and the
// sort priority of a group key, with three configured groups and a rule for
// rig groups "gt-<rig>". It is a fourth copy of the grouping rules; the
// lemmas below relate it to the Go `tmux` copy.
module DashboardGroups {
  import opened Strs
  import opened Wrappers
  import SessionTmux

  /** One entry of `GROUP_CONFIG`. */
  datatype GroupInfo = GroupInfo(displayName: string, priority: int)

  /** `GROUP_CONFIG[group]`: configured for "hq", "main" and "other" only. */
  function Config(group: string): (r: Option<GroupInfo>)
    ensures r.Some? <==> group in {"hq", "main", "other"}
  {
    if group == "hq" then Some(GroupInfo("HQ", 0))
    else if group == "main" then Some(GroupInfo("Main", 1))
    else if group == "other" then Some(GroupInfo("Other", 100))
    else None
  }

  /** `charAt(0).toUpperCase() + slice(1)`: the first character in upper case. */
  function Capitalize(s: string): (r: string)
    ensures |r| == |s|
    ensures s != [] ==> r[0] == UpperChar(s[0]) && r[1..] == s[1..]
  {
    if s == [] then "" else [UpperChar(s[0])] + s[1..]
  }

  /**
   * `getGroupDisplayName`: the configured name, else for "gt-<rig>" the rig
   * name with its first letter capitalised, else the group key itself.
   */
  function GroupDisplayName(group: string): (r: string)
    ensures Config(group).Some? ==> r == Config(group).value.displayName
    ensures Config(group).None? && HasPrefix(group, "gt-") ==> |r| == |group| - 3
    ensures Config(group).None? && HasPrefix(group, "gt-") && |group| > 3 ==> r[0] == UpperChar(group[3]) && r[1..] == group[4..]
    ensures Config(group).None? && !HasPrefix(group, "gt-") ==> r == group
  {
    match Config(group)
    case Some(info) => info.displayName
    case None =>
      if HasPrefix(group, "gt-") then Capitalize(group[3..]) else group
  }

  /** `getGroupPriority`: the configured priority, else 2 for rig groups, else 99. */
  function GroupPriority(group: string): (p: int)
    ensures Config(group).Some? ==> p == Config(group).value.priority
    ensures Config(group).None? ==> p == (if HasPrefix(group, "gt-") then 2 else 99)
  {
    match Config(group)
    case Some(info) => info.priority
    case None => if HasPrefix(group, "gt-") then 2 else 99
  }

  /** No configured group starts with "gt-". */
  lemma RigGroupsUnconfigured(rig: string)
    ensures Config("gt-" + rig).None?
  {
    var g := "gt-" + rig;
    assert g[0] == 'g' && g[1] == 't';
  }

  /** A rig group displays as its rig name with the first character in upper case. */
  lemma RigDisplayName(rig: string)
    ensures GroupDisplayName("gt-" + rig) == Capitalize(rig)
  {
    RigGroupsUnconfigured(rig);
    var g := "gt-" + rig;
    assert g[..3] == "gt-" && g[3..] == rig;
  }

  /** "gt-gastown" displays as "Gastown". */
  lemma GastownDisplayName()
    ensures GroupDisplayName("gt-gastown") == "Gastown"
  {
    assert "gt-gastown" == "gt-" + "gastown";
    RigDisplayName("gastown");
  }

  /** The three configured groups display as HQ, Main and Other. */
  lemma ConfiguredDisplayNames()
    ensures GroupDisplayName("hq") == "HQ"
    ensures GroupDisplayName("main") == "Main"
    ensures GroupDisplayName("other") == "Other"
  {
    assert Config("hq") == Some(GroupInfo("HQ", 0));
    assert Config("main") == Some(GroupInfo("Main", 1));
    assert Config("other") == Some(GroupInfo("Other", 100));
  }

  /** A group that is neither configured nor a rig displays as itself. */
  lemma UnknownDisplaysAsItself(group: string)
    requires group !in {"hq", "main", "other"} && !HasPrefix(group, "gt-")
    ensures GroupDisplayName(group) == group
  {
  }

  /**
   * For a rig name made of lower-case letters, this copy and the Go `tmux`
   * copy (`strings.Title` of the second dash segment) give the same name.
   */
  lemma RigDisplayAgreesWithTmux(rig: string)
    requires forall i :: 0 <= i < |rig| ==> IsLower(rig[i])
    ensures GroupDisplayName("gt-" + rig) == SessionTmux.GroupDisplayName("gt-" + rig)
  {
    assert '-' !in rig by {
      assert forall i :: 0 <= i < |rig| ==> rig[i] != '-';
    }
    SessionTmux.RigDisplayName(rig);
    RigDisplayName(rig);
    var t := SessionTmux.Title(rig);
    var c := Capitalize(rig);
    forall i | 0 <= i < |rig|
      ensures t[i] == c[i]
    {
      if i > 0 {
        assert !SessionTmux.TitleSeparator(rig[i - 1]);
        assert c[i] == c[1..][i - 1];
      }
    }
  }

  /**
   * Groups sort hq, then main, then rigs, then unknown groups, then "other":
   * unlike the Go `tmux` table, which ties unknown groups with "other".
   */
  lemma PriorityOrder(rig: string, unknown: string)
    requires unknown !in {"hq", "main", "other"} && !HasPrefix(unknown, "gt-")
    ensures GroupPriority("hq") < GroupPriority("main") < GroupPriority("gt-" + rig)
    ensures GroupPriority("gt-" + rig) < GroupPriority(unknown) < GroupPriority("other")
    ensures SessionTmux.GroupPriority(unknown) == SessionTmux.GroupPriority("other")
  {
    RigGroupsUnconfigured(rig);
    assert HasPrefix("gt-" + rig, "gt-") by {
      assert ("gt-" + rig)[..3] == "gt-";
    }
    assert !HasPrefix("other", "gt-") by {
      assert "other"[0] == 'o';
    }
  }

  /** Apart from unknown groups (99 here, 100 there), this table is the Go `tmux` one. */
  lemma PriorityAgreesWithTmux(group: string)
    requires group in {"hq", "main", "other"} || HasPrefix(group, "gt-")
    ensures GroupPriority(group) == SessionTmux.GroupPriority(group)
  {
    if group == "other" {
      assert !HasPrefix(group, "gt-") by {
        assert group[0] == 'o';
      }
    }
  }
}
