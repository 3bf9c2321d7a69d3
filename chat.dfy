// The chat handlers of the Go server (`/api/chat/...`): the conversation
// list read out of `gt status`, the mapping of mail-search and bead records
// to chat messages, the in-place sort of a history by time, and the rule
// that decides whether a send succeeded. Commands, their output and the
// clock are parameters; a timestamp is an instant as an integer.
module Chat {
  import opened Strs
  import opened Wrappers
  import opened StatusLines

  /** `ChatMessage`. */
  datatype ChatMessage = ChatMessage(id: string, role: string, from: string, to: string,
                                     content: string, timestamp: int, read: bool)

  /** `Conversation`; the handler never fills in the unread count or the last message. */
  datatype Conversation = Conversation(target: string, displayName: string, role: string, online: bool,
                                       unreadCount: int, lastMessage: Option<ChatMessage>)

  // -------------------------------------------------------- conversations

  /** `strings.Title` on a `\w+` name: one word, so only its first letter is raised. */
  function Title(name: string): (r: string)
    ensures |r| == |name|
    ensures name != "" ==> r[1..] == name[1..]
    ensures name != "" ==> !IsLower(r[0]) && (IsLower(name[0]) || r[0] == name[0])
    ensures name == "" ==> r == ""
  {
    if name == "" then "" else [UpperChar(name[0])] + name[1..]
  }

  const CatEmoji: char := '\U{1F431}'
  const WorkerEmoji: char := '\U{1F477}'

  /** The label of a crew member or polecat. */
  function MemberDisplay(section: string, name: string): string
  {
    if section == "polecat" then [CatEmoji, ' '] + Title(name) else [WorkerEmoji, ' '] + Title(name)
  }

  /** The conversation with a rig-wide role: "rig/role", captioned with the rig. */
  function RigConversation(rig: string, role: string, caption: string, online: bool): Conversation
  {
    Conversation(rig + "/" + role, caption + " (" + rig + ")", role, online, 0, None)
  }

  /** The conversation of a main-role line under the current rig. */
  function RoleConversation(emoji: char, rig: string, online: bool): (c: Option<Conversation>)
    ensures c.Some? <==> RoleEmoji(emoji)
    ensures c.Some? ==> c.value.role != "crew" && c.value.role != "polecat"
  {
    if emoji == MayorEmoji then Some(Conversation("mayor/", "Mayor", "mayor", online, 0, None))
    else if emoji == DeaconEmoji then Some(Conversation("deacon/", "Deacon", "deacon", online, 0, None))
    else if emoji == WitnessEmoji then Some(RigConversation(rig, "witness", "Witness", online))
    else if emoji == RefineryEmoji then Some(RigConversation(rig, "refinery", "Refinery", online))
    else None
  }

  /** Where the conversation scan stands: what it found, the current rig and the current section. */
  datatype ConversationScan = ConversationScan(conversations: seq<Conversation>, rig: string, section: string)

  /** One pass of the `parseStatusForConversations` loop. */
  function ConversationStep(s: ConversationScan, line: string): ConversationScan
  {
    match MatchRig(line)
    case Some(rig) => s.(rig := rig)
    case None =>
      if Contains(line, "Crew") then s.(section := "crew")
      else if Contains(line, "Polecats") then s.(section := "polecat")
      else
        match MatchRole(line)
        case Some(r) =>
          var c := RoleConversation(r.emoji, s.rig, r.online);
          var s1 := if c.Some? then s.(conversations := s.conversations + [c.value]) else s;
          if r.emoji == MayorEmoji || r.emoji == DeaconEmoji then s1.(rig := "") else s1
        case None =>
          if s.section == "" || s.rig == "" then s
          else
            match MatchMember(line)
            case Some(m) =>
              s.(conversations := s.conversations +
                   [Conversation(s.rig + "/" + m.name, MemberDisplay(s.section, m.name), s.section, m.online, 0, None)])
            case None => s
  }

  function ConversationsFrom(s: ConversationScan, lines: seq<string>): ConversationScan
    decreases |lines|
  {
    if lines == [] then s else ConversationsFrom(ConversationStep(s, lines[0]), lines[1..])
  }

  const ConversationStart := ConversationScan([], "", "")

  /** The conversations `parseStatusForConversations` finds in the output of `gt status`. */
  function Conversations(output: string): seq<Conversation>
  {
    ConversationsFrom(ConversationStart, Split(output, '\n')).conversations
  }

  lemma ConversationsFromStep(s: ConversationScan, lines: seq<string>, i: nat)
    requires i < |lines|
    ensures ConversationsFrom(s, lines[i..]) == ConversationsFrom(ConversationStep(s, lines[i]), lines[i + 1..])
  {
    assert lines[i..][1..] == lines[i + 1..];
  }

  /** The loop of `parseStatusForConversations`. */
  method ParseStatusForConversations(output: string) returns (conversations: seq<Conversation>)
    ensures conversations == Conversations(output)
  {
    var lines := Split(output, '\n');
    conversations := [];
    var rig, section := "", "";
    var i := 0;
    while i < |lines|
      invariant 0 <= i <= |lines|
      invariant ConversationsFrom(ConversationScan(conversations, rig, section), lines[i..]) ==
                ConversationsFrom(ConversationStart, lines)
    {
      ConversationsFromStep(ConversationScan(conversations, rig, section), lines, i);
      var line := lines[i];
      i := i + 1;
      var rigMatch := MatchRig(line);
      if rigMatch.Some? {
        rig := rigMatch.value;
        continue;
      }
      if Contains(line, "Crew") {
        section := "crew";
        continue;
      }
      if Contains(line, "Polecats") {
        section := "polecat";
        continue;
      }
      var role := MatchRole(line);
      if role.Some? {
        var c := RoleConversation(role.value.emoji, rig, role.value.online);
        if c.Some? {
          conversations := conversations + [c.value];
        }
        if role.value.emoji == MayorEmoji || role.value.emoji == DeaconEmoji {
          rig := "";
        }
        continue;
      }
      if section != "" && rig != "" {
        var member := MatchMember(line);
        if member.Some? {
          var target := rig + "/" + member.value.name;
          conversations := conversations +
            [Conversation(target, MemberDisplay(section, member.value.name), section, member.value.online, 0, None)];
        }
      }
    }
    assert lines[|lines|..] == [];
  }

  /** A rig-wide role: its target is the rig it was listed under, then the role. */
  predicate RigRole(c: Conversation, role: string, caption: string)
  {
    |c.target| > |role| &&
    var rig := c.target[..|c.target| - |role| - 1];
    c.target == rig + "/" + role && c.role == role && c.displayName == caption + " (" + rig + ")"
  }

  /** A crew member or polecat: "rig/name", labelled by its section's emoji and the titled name. */
  predicate MemberOfRig(c: Conversation)
  {
    var k := IndexOf(c.target, '/');
    (c.role == "crew" || c.role == "polecat") && 0 < k < |c.target|
    && c.displayName == MemberDisplay(c.role, c.target[k + 1..])
  }

  /** The targets a conversation can have: the town-wide roles, the rig-wide roles, or a member. */
  predicate WellShaped(c: Conversation)
  {
    c.unreadCount == 0 && c.lastMessage.None? &&
    ((c.role == "mayor" && c.target == "mayor/" && c.displayName == "Mayor")
     || (c.role == "deacon" && c.target == "deacon/" && c.displayName == "Deacon")
     || RigRole(c, "witness", "Witness") || RigRole(c, "refinery", "Refinery")
     || MemberOfRig(c))
  }

  predicate ScanShaped(s: ConversationScan)
  {
    (s.section == "" || s.section == "crew" || s.section == "polecat")
    && (s.rig == "" || AllWord(s.rig))
    && forall k :: 0 <= k < |s.conversations| ==> WellShaped(s.conversations[k])
  }

  /** A rig name has no slash, so the first slash of "rig/name" follows the rig. */
  lemma MemberTarget(rig: string, name: string)
    requires AllWord(rig)
    ensures IndexOf(rig + "/" + name, '/') == |rig|
    ensures (rig + "/" + name)[|rig| + 1..] == name
  {
    assert forall k :: 0 <= k < |rig| ==> rig[k] != '/' by {
      assert !WordChar('/');
    }
    IndexOfAfter(rig, '/', name);
  }

  lemma RigConversationShaped(rig: string, role: string, caption: string, online: bool)
    ensures RigRole(RigConversation(rig, role, caption, online), role, caption)
  {
    var t := rig + "/" + role;
    assert t[..|t| - |role| - 1] == rig;
  }

  lemma RoleConversationShaped(emoji: char, rig: string, online: bool)
    requires RoleEmoji(emoji)
    ensures WellShaped(RoleConversation(emoji, rig, online).value)
  {
    if emoji == WitnessEmoji {
      RigConversationShaped(rig, "witness", "Witness", online);
    } else if emoji == RefineryEmoji {
      RigConversationShaped(rig, "refinery", "Refinery", online);
    }
  }

  lemma AppendShaped(cs: seq<Conversation>, c: Conversation)
    requires forall k :: 0 <= k < |cs| ==> WellShaped(cs[k])
    requires WellShaped(c)
    ensures forall k :: 0 <= k < |cs + [c]| ==> WellShaped((cs + [c])[k])
  {
  }

  lemma ConversationStepShaped(s: ConversationScan, line: string)
    requires ScanShaped(s)
    ensures ScanShaped(ConversationStep(s, line))
  {
    if MatchRig(line).None? && !Contains(line, "Crew") && !Contains(line, "Polecats") {
      match MatchRole(line)
      case Some(r) =>
        RoleConversationShaped(r.emoji, s.rig, r.online);
        AppendShaped(s.conversations, RoleConversation(r.emoji, s.rig, r.online).value);
      case None =>
        if s.section != "" && s.rig != "" && MatchMember(line).Some? {
          var m := MatchMember(line).value;
          MemberTarget(s.rig, m.name);
          AppendShaped(s.conversations,
                       Conversation(s.rig + "/" + m.name, MemberDisplay(s.section, m.name), s.section, m.online, 0, None));
        }
    }
  }

  lemma {:induction false} ConversationsFromShaped(s: ConversationScan, lines: seq<string>)
    requires ScanShaped(s)
    ensures ScanShaped(ConversationsFrom(s, lines))
    decreases |lines|
  {
    if lines != [] {
      ConversationStepShaped(s, lines[0]);
      ConversationsFromShaped(ConversationStep(s, lines[0]), lines[1..]);
    }
  }

  /**
   * Mayor and deacon are "mayor/" and "deacon/"; witness and refinery are
   * "rig/witness" and "rig/refinery" labelled with their rig; members are
   * "rig/name" labelled with their section's emoji and the titled name.
   */
  lemma ConversationsWellShaped(output: string)
    ensures forall k :: 0 <= k < |Conversations(output)| ==> WellShaped(Conversations(output)[k])
  {
    ConversationsFromShaped(ConversationStart, Split(output, '\n'));
  }

  /** After a mayor or deacon line the rig is cleared. */
  lemma TownRoleClearsRig(s: ConversationScan, line: string)
    requires MatchRig(line).None? && !Contains(line, "Crew") && !Contains(line, "Polecats")
    requires MatchRole(line).Some? && MatchRole(line).value.emoji in {MayorEmoji, DeaconEmoji}
    ensures ConversationStep(s, line).rig == ""
    ensures ConversationStep(s, line).section == s.section
  {
  }

  /** A line adds a member only when both a section and a rig are set. */
  lemma MemberNeedsSectionAndRig(s: ConversationScan, line: string)
    requires |ConversationStep(s, line).conversations| > |s.conversations|
    requires var c := ConversationStep(s, line).conversations; c[|c| - 1].role in {"crew", "polecat"}
    ensures s.section != "" && s.rig != ""
  {
    var c := ConversationStep(s, line).conversations;
    if MatchRig(line).None? && !Contains(line, "Crew") && !Contains(line, "Polecats") && MatchRole(line).Some? {
      var r := MatchRole(line).value;
      assert c[|c| - 1] == RoleConversation(r.emoji, s.rig, r.online).value;
    }
  }

  /** A step with no rig set and no rig heading keeps the rig unset and adds no member. */
  lemma NoRigStep(s: ConversationScan, line: string)
    requires s.rig == "" && MatchRig(line).None?
    ensures var t := ConversationStep(s, line);
            t.rig == "" && t.conversations[..|s.conversations|] == s.conversations
            && forall k :: |s.conversations| <= k < |t.conversations| ==> !MemberOfRig(t.conversations[k])
  {
    var t := ConversationStep(s, line);
    if Contains(line, "Crew") || Contains(line, "Polecats") {
      assert t.conversations == s.conversations;
    } else if MatchRole(line).Some? {
      var r := MatchRole(line).value;
      var c := RoleConversation(r.emoji, s.rig, r.online).value;
      assert t.conversations == s.conversations + [c];
      assert !MemberOfRig(c);
    } else {
      assert t == s;
    }
  }

  /** Without a rig heading no member is listed, whatever sections appear. */
  lemma {:induction false} MembersNeedRig(s: ConversationScan, lines: seq<string>)
    requires s.rig == ""
    requires forall k :: 0 <= k < |s.conversations| ==> !MemberOfRig(s.conversations[k])
    requires forall k :: 0 <= k < |lines| ==> MatchRig(lines[k]).None?
    ensures forall k :: 0 <= k < |ConversationsFrom(s, lines).conversations| ==>
              !MemberOfRig(ConversationsFrom(s, lines).conversations[k])
    decreases |lines|
  {
    if lines != [] {
      var t := ConversationStep(s, lines[0]);
      NoRigStep(s, lines[0]);
      forall k | 0 <= k < |t.conversations|
        ensures !MemberOfRig(t.conversations[k])
      {
        if k < |s.conversations| {
          assert t.conversations[k] == t.conversations[..|s.conversations|][k];
        }
      }
      MembersNeedRig(t, lines[1..]);
    }
  }

  // ---------------------------------------------------------- the history

  /** A `gt mail search --json` record; `time` is the parsed RFC 3339 timestamp, None when it is empty, malformed or zero. */
  datatype MailSearchResult = MailSearchResult(id: string, from: string, to: string, subject: string,
                                               body: string, time: Option<int>, read: bool)

  /** A `bd list --json` record; `createdAt` is the parsed creation time, None when it is empty, malformed or zero. */
  datatype BeadResult = BeadResult(id: string, title: string, description: string, owner: string,
                                   assignee: string, createdAt: Option<int>, status: string)

  /** Senders that are people, not agents: a crew member, the human, or nobody. */
  predicate FromPerson(from: string)
  {
    Contains(from, "crew") || Contains(from, "human") || from == ""
  }

  /** The chat message of one mail record, as `parseMailJSON` builds it. */
  function MailMessageOf(r: MailSearchResult, role: string, now: int): (m: ChatMessage)
    ensures m.role == "user" <==> FromPerson(r.from) || role == "user"
    ensures !FromPerson(r.from) ==> m.role == role
    ensures m.content == "" <==> r.body == "" && r.subject == ""
    ensures r.body != "" ==> m.content == r.body
    ensures m.timestamp == (if r.time.Some? then r.time.value else now)
    ensures m.id == r.id && m.from == r.from && m.to == r.to && m.read == r.read
  {
    ChatMessage(r.id, if FromPerson(r.from) then "user" else role, r.from, r.to,
                if r.body == "" then r.subject else r.body,
                if r.time.Some? then r.time.value else now, r.read)
  }

  /** The chat message of one bead, as `parseBeadsJSON` builds it. */
  function BeadMessageOf(b: BeadResult, role: string, now: int): (m: ChatMessage)
    ensures m.content == "" <==> b.description == "" && b.title == ""
    ensures b.description != "" ==> m.content == b.description
    ensures m.read <==> b.status == "closed"
    ensures m.from == b.owner && m.to == b.assignee && m.role == role && m.id == b.id
    ensures m.timestamp == (if b.createdAt.Some? then b.createdAt.value else now)
  {
    ChatMessage(b.id, role, b.owner, b.assignee, if b.description == "" then b.title else b.description,
                if b.createdAt.Some? then b.createdAt.value else now, b.status == "closed")
  }

  /** The loop of `parseMailJSON` over the decoded records. */
  method ParseMailResults(results: seq<MailSearchResult>, role: string, now: int) returns (messages: seq<ChatMessage>)
    ensures |messages| == |results|
    ensures forall k :: 0 <= k < |results| ==> messages[k] == MailMessageOf(results[k], role, now)
  {
    messages := [];
    for i := 0 to |results|
      invariant |messages| == i
      invariant forall k :: 0 <= k < i ==> messages[k] == MailMessageOf(results[k], role, now)
    {
      var r := results[i];
      var msgRole := role;
      if Contains(r.from, "crew") || Contains(r.from, "human") || r.from == "" {
        msgRole := "user";
      }
      var content := r.body;
      if content == "" {
        content := r.subject;
      }
      var ts := now;
      if r.time.Some? {
        ts := r.time.value;
      }
      messages := messages + [ChatMessage(r.id, msgRole, r.from, r.to, content, ts, r.read)];
    }
  }

  /** The loop of `parseBeadsJSON` over the decoded records. */
  method ParseBeadResults(results: seq<BeadResult>, role: string, now: int) returns (messages: seq<ChatMessage>)
    ensures |messages| == |results|
    ensures forall k :: 0 <= k < |results| ==> messages[k] == BeadMessageOf(results[k], role, now)
  {
    messages := [];
    for i := 0 to |results|
      invariant |messages| == i
      invariant forall k :: 0 <= k < i ==> messages[k] == BeadMessageOf(results[k], role, now)
    {
      var b := results[i];
      var content := b.description;
      if content == "" {
        content := b.title;
      }
      var ts := now;
      if b.createdAt.Some? {
        ts := b.createdAt.value;
      }
      messages := messages + [ChatMessage(b.id, role, b.owner, b.assignee, content, ts, b.status == "closed")];
    }
  }

  /** Oldest first: no message is later than one after it. */
  predicate ByTime(s: seq<ChatMessage>)
  {
    forall p, q :: 0 <= p < q < |s| ==> s[p].timestamp <= s[q].timestamp
  }

  /** `sortMessagesByTime`: for each position, swap every later message that is older into it. */
  method SortMessagesByTime(a: array<ChatMessage>)
    modifies a
    ensures ByTime(a[..])
    ensures multiset(a[..]) == multiset(old(a[..]))
  {
    var i := 0;
    while i < a.Length - 1
      invariant 0 <= i <= a.Length
      invariant forall p, q :: 0 <= p < i && p < q < a.Length ==> a[p].timestamp <= a[q].timestamp
      invariant multiset(a[..]) == multiset(old(a[..]))
    {
      var j := i + 1;
      while j < a.Length
        invariant i + 1 <= j <= a.Length
        invariant forall p, q :: 0 <= p < i && p < q < a.Length ==> a[p].timestamp <= a[q].timestamp
        invariant forall q :: i < q < j ==> a[i].timestamp <= a[q].timestamp
        invariant multiset(a[..]) == multiset(old(a[..]))
      {
        if a[i].timestamp > a[j].timestamp {
          a[i], a[j] := a[j], a[i];
        }
        j := j + 1;
      }
      i := i + 1;
    }
  }

  /** `strings.ReplaceAll` for a non-empty pattern, scanning left to right. */
  function ReplaceAll(s: string, pattern: string, with: string): (r: string)
    requires pattern != ""
    ensures !Contains(s, pattern) ==> r == s
    decreases |s|
  {
    if s == [] then []
    else if HasPrefix(s, pattern) then with + ReplaceAll(s[|pattern|..], pattern, with)
    else [s[0]] + ReplaceAll(s[1..], pattern, with)
  }

  /** A target with its slashes written as "%2F", as a client puts it in the URL. */
  function EscapeSlashes(t: string): string
  {
    if t == [] then [] else (if t[0] == '/' then "%2F" else [t[0]]) + EscapeSlashes(t[1..])
  }

  /** Replacing "%2F" by "/" undoes escaping the slashes of a target that has no "%". */
  lemma {:induction false} UnescapeTarget(t: string)
    requires '%' !in t
    ensures ReplaceAll(EscapeSlashes(t), "%2F", "/") == t
  {
    if t != [] {
      var rest := EscapeSlashes(t[1..]);
      UnescapeTarget(t[1..]);
      if t[0] == '/' {
        var e := "%2F" + rest;
        assert e[..3] == "%2F" && e[3..] == rest;
      } else {
        var e := [t[0]] + rest;
        assert e[1..] == rest;
        assert t == [t[0]] + t[1..];
      }
    }
  }

  /** What `GetHistory` answers. */
  datatype History =
    | HistoryOf(target: string, messages: seq<ChatMessage>)
    | HistoryRefused(status: int, code: string, message: string)

  /**
   * `GetHistory`: the messages from the target (mail records, as "agent"),
   * then those to it (beads, as "user"), sorted oldest first.
   */
  method GetHistory(target: string, fromResults: seq<MailSearchResult>, toResults: seq<BeadResult>, now: int)
    returns (h: History)
    ensures target == "" <==> h == HistoryRefused(400, "BAD_REQUEST", "Target is required")
    ensures h.HistoryOf? ==> h.target == ReplaceAll(target, "%2F", "/")
    ensures h.HistoryOf? ==> ByTime(h.messages)
    ensures h.HistoryOf? ==>
              multiset(h.messages) ==
                multiset(seq(|fromResults|, k requires 0 <= k < |fromResults| => MailMessageOf(fromResults[k], "agent", now)))
                + multiset(seq(|toResults|, k requires 0 <= k < |toResults| => BeadMessageOf(toResults[k], "user", now)))
  {
    if target == "" {
      return HistoryRefused(400, "BAD_REQUEST", "Target is required");
    }
    var decoded := ReplaceAll(target, "%2F", "/");
    var fromMessages := ParseMailResults(fromResults, "agent", now);
    var toMessages := ParseBeadResults(toResults, "user", now);
    assert fromMessages == seq(|fromResults|, k requires 0 <= k < |fromResults| => MailMessageOf(fromResults[k], "agent", now));
    assert toMessages == seq(|toResults|, k requires 0 <= k < |toResults| => BeadMessageOf(toResults[k], "user", now));
    var all := fromMessages + toMessages;
    var a := new ChatMessage[|all|](k requires 0 <= k < |all| => all[k]);
    assert a[..] == all;
    SortMessagesByTime(a);
    h := HistoryOf(decoded, a[..]);
  }

  // ------------------------------------------------------------- sending

  /** The note the nudge carries. */
  const NudgeNote: string := "\U{1F4EC} New message (Check Mail)"

  function IsIdChar(c: char): bool
  {
    IsLower(c) || IsDigit(c)
  }

  /** The end of the run of `[a-z0-9]` that starts at `i`. */
  function SpanId(s: string, i: nat): (j: nat)
    requires i <= |s|
    ensures i <= j <= |s|
    ensures forall k :: i <= k < j ==> IsIdChar(s[k])
    ensures j == |s| || !IsIdChar(s[j])
    decreases |s| - i
  {
    if i < |s| && IsIdChar(s[i]) then SpanId(s, i + 1) else i
  }

  /** `hq-[a-z0-9]+` matches at `p`. */
  predicate IdAt(s: string, p: nat)
  {
    p + 3 < |s| && s[p..p + 3] == "hq-" && IsIdChar(s[p + 3])
  }

  /** The leftmost match of `hq-[a-z0-9]+` from `p` on, or "" when there is none. */
  function FindMessageId(s: string, p: nat): (id: string)
    requires p <= |s|
    ensures id == "" || (|id| > 3 && id[..3] == "hq-" && forall k :: 3 <= k < |id| ==> IsIdChar(id[k]))
    ensures id == "" <==> forall q :: p <= q < |s| ==> !IdAt(s, q)
    decreases |s| - p
  {
    if p == |s| then ""
    else if IdAt(s, p) then s[p..SpanId(s, p + 3)]
    else FindMessageId(s, p + 1)
  }

  lemma {:induction false} SpanIdRun(s: string, i: nat, n: nat)
    requires i + n <= |s|
    requires forall k :: i <= k < i + n ==> IsIdChar(s[k])
    requires i + n == |s| || !IsIdChar(s[i + n])
    ensures SpanId(s, i) == i + n
    decreases n
  {
    if n > 0 {
      SpanIdRun(s, i + 1, n - 1);
    }
  }

  /**
   * When "hq-" first occurs at `p` with no "h" before it, followed by id
   * characters up to `e` and then something else, that span is the id found.
   */
  lemma MessageIdFound(s: string, p: nat, e: nat)
    requires p + 3 < e <= |s| && s[p..p + 3] == "hq-"
    requires forall k :: 0 <= k < p ==> s[k] != 'h'
    requires forall k :: p + 3 <= k < e ==> IsIdChar(s[k])
    requires e == |s| || !IsIdChar(s[e])
    ensures FindMessageId(s, 0) == s[p..e]
  {
    SpanIdRun(s, p + 3, e - p - 3);
    assert IdAt(s, p);
    FindSkips(s, 0, p);
  }

  /** Positions that hold no "h" are stepped over. */
  lemma {:induction false} FindSkips(s: string, q: nat, p: nat)
    requires q <= p < |s|
    requires forall k :: q <= k < p ==> s[k] != 'h'
    ensures FindMessageId(s, q) == FindMessageId(s, p)
    decreases p - q
  {
    if q < p {
      assert !IdAt(s, q) by {
        if q + 3 < |s| {
          assert s[q..q + 3][0] == s[q];
        }
      }
      FindSkips(s, q + 1, p);
    }
  }

  /** `SendChatRequest`. */
  datatype SendChatRequest = SendChatRequest(message: string)

  /** `SendChatResponse`. */
  datatype SendChatResponse = SendChatResponse(success: bool, messageId: string, mailSent: bool, nudged: bool, error: string)

  /** What `SendMessage` answers, with the two `gt` argument lists it runs. */
  datatype SendReply =
    | Delivered(response: SendChatResponse, mailArgs: seq<string>, nudgeArgs: seq<string>)
    | SendRefused(status: int, code: string, message: string)

  /**
   * `SendMessage`: `req` is the decoded body (None when it is not JSON);
   * `mail` is the combined output of `gt mail send`, as Success or as
   * Failure when the command failed; `nudged` says whether `gt nudge` ran.
   */
  function SendMessage(target: string, req: Option<SendChatRequest>, mail: Result<string, string>, nudged: bool): (r: SendReply)
    ensures target == "" ==> r == SendRefused(400, "BAD_REQUEST", "Target is required")
    ensures target != "" && req.None? ==> r == SendRefused(400, "BAD_REQUEST", "Invalid request body")
    ensures target != "" && req.Some? && req.value.message == "" ==> r == SendRefused(400, "BAD_REQUEST", "Message is required")
    ensures r.Delivered? <==> target != "" && req.Some? && req.value.message != "" && mail.Success?
    ensures r.Delivered? ==> r.response.success && r.response.mailSent && r.response.nudged == nudged
    ensures r.Delivered? ==> r.mailArgs == ["mail", "send", ReplaceAll(target, "%2F", "/"), "-m", req.value.message]
    ensures r.Delivered? ==> r.nudgeArgs == ["nudge", ReplaceAll(target, "%2F", "/"), "-m", NudgeNote]
    ensures r.Delivered? ==> r.response.messageId == FindMessageId(mail.value, 0)
    ensures target != "" && req.Some? && req.value.message != "" && mail.Failure? ==>
              r == SendRefused(500, "SEND_FAILED", "Mail send failed: " + Trim(mail.error))
  {
    if target == "" then SendRefused(400, "BAD_REQUEST", "Target is required")
    else if req.None? then SendRefused(400, "BAD_REQUEST", "Invalid request body")
    else if req.value.message == "" then SendRefused(400, "BAD_REQUEST", "Message is required")
    else
      var decoded := ReplaceAll(target, "%2F", "/");
      var mailArgs := ["mail", "send", decoded, "-m", req.value.message];
      var nudgeArgs := ["nudge", decoded, "-m", NudgeNote];
      if mail.Failure? then SendRefused(500, "SEND_FAILED", "Mail send failed: " + Trim(mail.error))
      else Delivered(SendChatResponse(true, FindMessageId(mail.value, 0), true, nudged, ""), mailArgs, nudgeArgs)
  }

  /** The nudge is best effort: whether it ran never changes whether the send succeeded. */
  lemma NudgeBestEffort(target: string, req: Option<SendChatRequest>, mail: Result<string, string>)
    ensures SendMessage(target, req, mail, true).Delivered? == SendMessage(target, req, mail, false).Delivered?
    ensures SendMessage(target, req, mail, false).SendRefused? ==>
              SendMessage(target, req, mail, true) == SendMessage(target, req, mail, false)
  {
  }
}
