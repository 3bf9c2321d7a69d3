// The JavaScript session utilities of the Node API (`api/utils.js`): the
// third copy of the grouping rules, with its own priority table, the agent
// name of a session, and a sort that orders a copy of its input.
module SessionJs {
  import opened Strs
  import opened Orders
  import SessionCore

  /** A session record as the Node API and its tests build it. */
  datatype AgentSession = AgentSession(name: string, agentName: string, group: string)

  /** `getGroupPriority`: hq 0, main 1, rigs 2, anything else 3. */
  function GroupPriority(group: string): (p: int)
    ensures 0 <= p <= 3
  {
    if group == "hq" then 0
    else if group == "main" then 1
    else if HasPrefix(group, "gt-") then 2
    else 3
  }

  /** This table ranks groups exactly like the Go `core` table. */
  lemma PriorityOrderAgrees(g1: string, g2: string)
    ensures GroupPriority(g1) < GroupPriority(g2)
            <==> SessionCore.GroupPriority(g1) < SessionCore.GroupPriority(g2)
  {
  }

  /** `categorizeSession`: a rig name keeps its first two dash parts. */
  function Categorize(name: string): (group: string)
  {
    if HasPrefix(name, "hq-") then "hq"
    else if name == "main" || name == "shell" then "main"
    else if HasPrefix(name, "gt-") then
      var parts := Split(name, '-');
      if |parts| >= 2 then Join(parts[..2], "-") else "gt-unknown"
    else "other"
  }

  /** The JavaScript and Go categorisers agree on every name. */
  lemma CategorizeAgrees(name: string)
    ensures Categorize(name) == SessionCore.Categorize(name)
  {
    if !HasPrefix(name, "hq-") && name != "main" && name != "shell" && HasPrefix(name, "gt-") {
      var parts := Split(name, '-');
      SessionCore.RigNameParts(name);
      JoinTwo(parts);
    }
  }

  lemma JoinTwo(parts: seq<string>)
    requires |parts| >= 2
    ensures Join(parts[..2], "-") == parts[0] + "-" + parts[1]
  {
    var p2 := parts[..2];
    assert p2[1..] == [parts[1]];
  }

  /** `extractAgentName`: what follows the rig for rig names, else what follows the first dash. */
  function ExtractAgentName(name: string): (agent: string)
  {
    var parts := Split(name, '-');
    if |parts| >= 3 && HasPrefix(name, "gt-") then Join(parts[2..], "-")
    else if |parts| >= 2 then Join(parts[1..], "-")
    else name
  }

  /** The part of `s` after its first `-`, when there is one. */
  lemma AfterFirstDash(s: string)
    requires |Split(s, '-')| >= 2
    ensures s == Split(s, '-')[0] + "-" + Join(Split(s, '-')[1..], "-")
  {
    var i := IndexOf(s, '-');
    SplitFirst(s, '-');
    JoinSplit(s[i + 1..], '-');
    SliceAround(s, i);
  }

  /** A rig session name is its group, a dash and its agent name. */
  lemma RigAgentName(name: string)
    requires |Split(name, '-')| >= 3 && HasPrefix(name, "gt-")
    ensures name == SessionCore.Categorize(name) + "-" + ExtractAgentName(name)
  {
    var parts := Split(name, '-');
    ThreeDashParts(name);
    SessionCore.RigCategory(name);
    assert ExtractAgentName(name) == Join(parts[2..], "-");
  }

  /** A name of three or more dash parts: the first two, then the join of the rest. */
  lemma ThreeDashParts(name: string)
    requires |Split(name, '-')| >= 3
    ensures var parts := Split(name, '-');
            name == parts[0] + "-" + parts[1] + "-" + Join(parts[2..], "-")
  {
    var parts := Split(name, '-');
    AfterFirstDash(name);
    var q := parts[1..];
    JoinCons(q, "-");
    assert q[1..] == parts[2..];
    ConcatAssoc(parts[0] + "-", parts[1] + "-", Join(parts[2..], "-"));
  }

  /** Any other dashed name is its first part, a dash and its agent name. */
  lemma DashedAgentName(name: string)
    requires |Split(name, '-')| >= 2
    requires !(|Split(name, '-')| >= 3 && HasPrefix(name, "gt-"))
    ensures name == Split(name, '-')[0] + "-" + ExtractAgentName(name)
  {
    AfterFirstDash(name);
  }

  /** A name without a dash is its own agent name. */
  lemma UndashedAgentName(name: string)
    requires '-' !in name
    ensures ExtractAgentName(name) == name
  {
    IndexOfAbsent(name, '-');
  }

  function SortKey(s: AgentSession): Key3
  {
    Key3(GroupPriority(s.group), s.group, s.agentName)
  }

  /** The comparator of `sortSessions`, read as "a sorts before b". */
  predicate Before(a: AgentSession, b: AgentSession)
  {
    Key3Lt(SortKey(a), SortKey(b))
  }

  /**
   * `sortSessions`: a sorted copy, ordered by priority, then group, then
   * agent name; the input sequence is a value and stays as it was.
   */
  function SortSessions(sessions: seq<AgentSession>): (r: seq<AgentSession>)
    ensures multiset(r) == multiset(sessions)
    ensures forall i, j :: 0 <= i < j < |r| ==>
              GroupPriority(r[i].group) <= GroupPriority(r[j].group)
    ensures forall i, j ::
              0 <= i < j < |r| && GroupPriority(r[i].group) == GroupPriority(r[j].group)
              ==> !StrLt(r[j].group, r[i].group)
    ensures forall i, j :: 0 <= i < j < |r| && r[i].group == r[j].group ==>
              !StrLt(r[j].agentName, r[i].agentName)
  {
    ByKeyStrictWeak(Before, SortKey);
    var r := InsertionSort(sessions, Before);
    assert forall i, j :: 0 <= i < j < |r| ==> !Before(r[j], r[i]);
    assert forall s :: s in r ==> !StrLt(s.group, s.group) by {
      forall s | s in r { StrLtIrreflexive(s.group); }
    }
    r
  }
}
