// The mail handlers of the Go server (`/api/mail/...`): the parsers that
// read the inbox, the recipients and the town's name out of `gt` output, and
// the request checks of sending a message and marking one read. The output
// of each `gt` command, its failure, and the clock are parameters.
module Mail {
  import opened Strs
  import opened Wrappers
  import opened StatusLines
  import Radix

  /** `MailMessage`. */
  datatype MailMessage = MailMessage(id: string, from: string, to: string, subject: string,
                                     body: string, timestamp: string, read: bool)

  /** `MailRecipient`. */
  datatype MailRecipient = MailRecipient(id: string, name: string, role: string, path: string, online: bool)

  /** `TownStatus`. */
  datatype TownStatus = TownStatus(name: string, overseer: string)

  // ---------------------------------------------------------------- inbox

  /** One `ID | From | Subject [| Date]` line of the inbox, already trimmed; `now` stands in for a missing date. */
  function MessageLine(line: string, now: string): (m: Option<MailMessage>)
    ensures m.Some? <==> |Split(line, '|')| >= 3
    ensures m.Some? ==> m.value.to == "" && m.value.body == "" && !m.value.read
  {
    var parts := Split(line, '|');
    if |parts| < 3 then None
    else Some(MailMessage(Trim(parts[0]), Trim(parts[1]), "", Trim(parts[2]), "",
                          if |parts| >= 4 then Trim(parts[3]) else now, false))
  }

  /** Fields joined by "|" are read back trimmed, with the fourth as the date when there is one. */
  lemma MessageLineFields(fields: seq<string>, now: string)
    requires |fields| == 3 || |fields| == 4
    requires forall k :: 0 <= k < |fields| ==> '|' !in fields[k]
    ensures MessageLine(Join(fields, "|"), now) ==
            Some(MailMessage(Trim(fields[0]), Trim(fields[1]), "", Trim(fields[2]), "",
                             if |fields| == 4 then Trim(fields[3]) else now, false))
  {
    SplitJoin(fields, '|');
  }

  /** Where the inbox scan stands: the messages so far, whether the header was seen, whether it stopped. */
  datatype InboxScan = InboxScan(messages: seq<MailMessage>, inMessages: bool, stopped: bool)

  const InboxStart := InboxScan([], false, false)

  /** One pass of the `parseInboxOutput` loop. */
  function InboxStep(s: InboxScan, raw: string, now: string): InboxScan
  {
    var line := Trim(raw);
    if s.stopped || line == "" then s
    else if HasPrefix(line, "(no messages)") then s.(stopped := true)
    else if Contains(line, "Inbox:") then s.(inMessages := true)
    else if s.inMessages && !HasPrefix(line, "(") then
      match MessageLine(line, now)
      case Some(m) => s.(messages := s.messages + [m])
      case None => s
    else s
  }

  /** The scan from `s` over `lines`. */
  function InboxFrom(s: InboxScan, lines: seq<string>, now: string): InboxScan
    decreases |lines|
  {
    if lines == [] then s else InboxFrom(InboxStep(s, lines[0], now), lines[1..], now)
  }

  /** The messages `parseInboxOutput` finds in the output of `gt mail inbox`. */
  function Inbox(output: string, now: string): seq<MailMessage>
  {
    InboxFrom(InboxStart, Split(output, '\n'), now).messages
  }

  lemma InboxFromStep(s: InboxScan, lines: seq<string>, i: nat, now: string)
    requires i < |lines|
    ensures InboxFrom(s, lines[i..], now) == InboxFrom(InboxStep(s, lines[i], now), lines[i + 1..], now)
  {
    assert lines[i..][1..] == lines[i + 1..];
  }

  /** Once stopped, the scan reads nothing more. */
  lemma {:induction false} InboxStoppedStays(s: InboxScan, lines: seq<string>, now: string)
    requires s.stopped
    ensures InboxFrom(s, lines, now) == s
    decreases |lines|
  {
    if lines != [] {
      InboxStoppedStays(InboxStep(s, lines[0], now), lines[1..], now);
    }
  }

  /** Scanning two runs of lines is scanning the first, then the second from where it left off. */
  lemma {:induction false} InboxFromConcat(s: InboxScan, a: seq<string>, b: seq<string>, now: string)
    ensures InboxFrom(s, a + b, now) == InboxFrom(InboxFrom(s, a, now), b, now)
    decreases |a|
  {
    if a != [] {
      assert (a + b)[0] == a[0] && (a + b)[1..] == a[1..] + b;
      InboxFromConcat(InboxStep(s, a[0], now), a[1..], b, now);
    } else {
      assert a + b == b;
    }
  }

  /** The loop of `parseInboxOutput`, which breaks off at "(no messages)". */
  method ParseInboxOutput(output: string, now: string) returns (messages: seq<MailMessage>)
    ensures messages == Inbox(output, now)
  {
    var lines := Split(output, '\n');
    messages := [];
    var inMessages := false;
    var i := 0;
    while i < |lines|
      invariant 0 <= i <= |lines|
      invariant InboxFrom(InboxScan(messages, inMessages, false), lines[i..], now) == InboxFrom(InboxStart, lines, now)
    {
      InboxFromStep(InboxScan(messages, inMessages, false), lines, i, now);
      var line := Trim(lines[i]);
      if line == "" {
        i := i + 1;
        continue;
      }
      if HasPrefix(line, "(no messages)") {
        InboxStoppedStays(InboxScan(messages, inMessages, true), lines[i + 1..], now);
        break;
      }
      if Contains(line, "Inbox:") {
        inMessages := true;
        i := i + 1;
        continue;
      }
      if inMessages && line != "" && !HasPrefix(line, "(") {
        var parts := Split(line, '|');
        if |parts| >= 3 {
          var msg := MailMessage(Trim(parts[0]), Trim(parts[1]), "", Trim(parts[2]), "", now, false);
          if |parts| >= 4 {
            msg := msg.(timestamp := Trim(parts[3]));
          }
          messages := messages + [msg];
        }
      }
      i := i + 1;
    }
  }

  /** Nothing after a "(no messages)" line is read. */
  lemma InboxIgnoresAfterStop(pre: seq<string>, stop: string, post: seq<string>, now: string)
    requires HasPrefix(Trim(stop), "(no messages)")
    ensures InboxFrom(InboxStart, pre + [stop] + post, now).messages == InboxFrom(InboxStart, pre, now).messages
  {
    InboxFromConcat(InboxStart, pre + [stop], post, now);
    InboxFromConcat(InboxStart, pre, [stop], now);
    var s := InboxFrom(InboxStart, pre, now);
    var t := InboxStep(s, stop, now);
    assert InboxFrom(s, [stop], now) == t;
    assert t.stopped && t.messages == s.messages;
    InboxStoppedStays(t, post, now);
  }

  /** Before the header is seen, no line adds a message. */
  lemma {:induction false} NoHeaderNoMessages(s: InboxScan, lines: seq<string>, now: string)
    requires !s.inMessages
    requires forall k :: 0 <= k < |lines| ==> !Contains(Trim(lines[k]), "Inbox:")
    ensures InboxFrom(s, lines, now).messages == s.messages
    decreases |lines|
  {
    if lines != [] {
      NoHeaderNoMessages(InboxStep(s, lines[0], now), lines[1..], now);
    }
  }

  /** Output without an "Inbox:" header holds no messages. */
  lemma InboxNeedsHeader(output: string, now: string)
    requires forall k :: 0 <= k < |Split(output, '\n')| ==> !Contains(Trim(Split(output, '\n')[k]), "Inbox:")
    ensures Inbox(output, now) == []
  {
    NoHeaderNoMessages(InboxStart, Split(output, '\n'), now);
  }

  /** Lines that neither stop the scan nor hold the header leave the starting state alone. */
  lemma {:induction false} PreambleIgnored(pre: seq<string>, now: string)
    requires forall k :: 0 <= k < |pre| ==> !Contains(Trim(pre[k]), "Inbox:") && !HasPrefix(Trim(pre[k]), "(no messages)")
    ensures InboxFrom(InboxStart, pre, now) == InboxStart
    decreases |pre|
  {
    if pre != [] {
      assert InboxStep(InboxStart, pre[0], now) == InboxStart;
      PreambleIgnored(pre[1..], now);
    }
  }

  /** What comes before the header does not matter: the messages are read from the lines after it. */
  lemma InboxAfterHeader(pre: seq<string>, header: string, post: seq<string>, now: string)
    requires forall k :: 0 <= k < |pre| ==> !Contains(Trim(pre[k]), "Inbox:") && !HasPrefix(Trim(pre[k]), "(no messages)")
    requires Contains(Trim(header), "Inbox:") && !HasPrefix(Trim(header), "(no messages)")
    ensures InboxFrom(InboxStart, pre + [header] + post, now) == InboxFrom(InboxScan([], true, false), post, now)
  {
    PreambleIgnored(pre, now);
    InboxFromConcat(InboxStart, pre + [header], post, now);
    InboxFromConcat(InboxStart, pre, [header], now);
    assert Trim(header) != "";
    assert InboxFrom(InboxStart, [header], now) == InboxScan([], true, false);
  }

  /** `GetInbox`: a failing `gt mail inbox` gives an empty inbox, not an error. */
  function GetInbox(output: Result<string, string>, now: string): (messages: seq<MailMessage>)
    ensures output.Failure? ==> messages == []
    ensures output.Success? ==> messages == Inbox(output.value, now)
  {
    if output.Failure? then [] else Inbox(output.value, now)
  }

  // ----------------------------------------------------------- recipients

  /** The role an emoji of the role pattern stands for. */
  function RoleName(emoji: char): (role: string)
    ensures RoleEmoji(emoji) <==> role != ""
  {
    if emoji == MayorEmoji then "mayor"
    else if emoji == DeaconEmoji then "deacon"
    else if emoji == WitnessEmoji then "witness"
    else if emoji == RefineryEmoji then "refinery"
    else ""
  }

  /** Where the recipient scan stands: the recipients so far and the current section. */
  datatype RecipientScan = RecipientScan(recipients: seq<MailRecipient>, section: string)

  /** One pass of the `parseStatusForRecipients` loop. */
  function RecipientStep(s: RecipientScan, line: string): RecipientScan
  {
    if Contains(line, "Crew") then s.(section := "crew")
    else if Contains(line, "Polecats") then s.(section := "polecat")
    else
      match MatchRole(line)
      case Some(r) =>
        var role := RoleName(r.emoji);
        if role != "" then s.(recipients := s.recipients + [MailRecipient(r.name, r.name, role, role + "/", r.online)])
        else s
      case None =>
        if s.section == "" then s
        else
          match MatchMember(line)
          case Some(m) =>
            s.(recipients := s.recipients + [MailRecipient(s.section + "-" + m.name, m.name, s.section,
                                                           s.section + "/" + m.name, m.online)])
          case None => s
  }

  function RecipientsFrom(s: RecipientScan, lines: seq<string>): RecipientScan
    decreases |lines|
  {
    if lines == [] then s else RecipientsFrom(RecipientStep(s, lines[0]), lines[1..])
  }

  /** The recipients `parseStatusForRecipients` finds in the output of `gt status`. */
  function Recipients(output: string): seq<MailRecipient>
  {
    RecipientsFrom(RecipientScan([], ""), Split(output, '\n')).recipients
  }

  lemma RecipientsFromStep(s: RecipientScan, lines: seq<string>, i: nat)
    requires i < |lines|
    ensures RecipientsFrom(s, lines[i..]) == RecipientsFrom(RecipientStep(s, lines[i]), lines[i + 1..])
  {
    assert lines[i..][1..] == lines[i + 1..];
  }

  /** The loop of `parseStatusForRecipients`. */
  method ParseStatusForRecipients(output: string) returns (recipients: seq<MailRecipient>)
    ensures recipients == Recipients(output)
  {
    var lines := Split(output, '\n');
    recipients := [];
    var section := "";
    var i := 0;
    while i < |lines|
      invariant 0 <= i <= |lines|
      invariant RecipientsFrom(RecipientScan(recipients, section), lines[i..]) ==
                RecipientsFrom(RecipientScan([], ""), lines)
    {
      RecipientsFromStep(RecipientScan(recipients, section), lines, i);
      var line := lines[i];
      i := i + 1;
      if Contains(line, "Crew") {
        section := "crew";
        continue;
      }
      if Contains(line, "Polecats") {
        section := "polecat";
        continue;
      }
      var role := MatchRole(line);
      if role.Some? {
        var name := RoleName(role.value.emoji);
        if name != "" {
          recipients := recipients + [MailRecipient(role.value.name, role.value.name, name, name + "/", role.value.online)];
        }
        continue;
      }
      if section != "" {
        var member := MatchMember(line);
        if member.Some? {
          recipients := recipients + [MailRecipient(section + "-" + member.value.name, member.value.name, section,
                                                    section + "/" + member.value.name, member.value.online)];
        }
      }
    }
    assert lines[|lines|..] == [];
  }

  /** A mayor, deacon, witness or refinery: addressed by its role. */
  predicate MainRole(r: MailRecipient)
  {
    (r.role == "mayor" || r.role == "deacon" || r.role == "witness" || r.role == "refinery")
    && r.id == r.name && r.path == r.role + "/"
  }

  /** A crew member or polecat: addressed inside its section. */
  predicate SectionMember(r: MailRecipient)
  {
    (r.role == "crew" || r.role == "polecat") && r.id == r.role + "-" + r.name && r.path == r.role + "/" + r.name
  }

  /** Every parsed recipient has a word for a name and is one of the two kinds. */
  predicate WellShaped(r: MailRecipient)
  {
    r.name != "" && AllWord(r.name) && (MainRole(r) || SectionMember(r))
  }

  predicate ScanShaped(s: RecipientScan)
  {
    (s.section == "" || s.section == "crew" || s.section == "polecat")
    && forall k :: 0 <= k < |s.recipients| ==> WellShaped(s.recipients[k])
  }

  lemma RecipientStepShaped(s: RecipientScan, line: string)
    requires ScanShaped(s)
    ensures ScanShaped(RecipientStep(s, line))
  {
    var t := RecipientStep(s, line);
    if t.recipients != s.recipients {
      assert t.recipients[..|s.recipients|] == s.recipients;
      assert forall k :: 0 <= k < |s.recipients| ==> t.recipients[k] == s.recipients[k];
    }
  }

  lemma {:induction false} RecipientsFromShaped(s: RecipientScan, lines: seq<string>)
    requires ScanShaped(s)
    ensures ScanShaped(RecipientsFrom(s, lines))
    decreases |lines|
  {
    if lines != [] {
      RecipientStepShaped(s, lines[0]);
      RecipientsFromShaped(RecipientStep(s, lines[0]), lines[1..]);
    }
  }

  /** Main roles are addressed as "role/", section members as "section/name" with id "section-name". */
  lemma RecipientsWellShaped(output: string)
    ensures forall k :: 0 <= k < |Recipients(output)| ==> WellShaped(Recipients(output)[k])
  {
    RecipientsFromShaped(RecipientScan([], ""), Split(output, '\n'));
  }

  /** Outside a section only main roles are found. */
  lemma {:induction false} NoSectionOnlyRoles(s: RecipientScan, lines: seq<string>)
    requires s.section == "" && forall k :: 0 <= k < |s.recipients| ==> MainRole(s.recipients[k])
    requires forall k :: 0 <= k < |lines| ==> !Contains(lines[k], "Crew") && !Contains(lines[k], "Polecats")
    ensures forall k :: 0 <= k < |RecipientsFrom(s, lines).recipients| ==> MainRole(RecipientsFrom(s, lines).recipients[k])
    decreases |lines|
  {
    if lines != [] {
      var t := RecipientStep(s, lines[0]);
      assert t.section == "";
      assert forall k :: 0 <= k < |s.recipients| ==> t.recipients[k] == s.recipients[k];
      NoSectionOnlyRoles(t, lines[1..]);
    }
  }

  /** Status output with no "Crew" or "Polecats" heading yields no section members. */
  lemma NoSectionNoMembers(output: string)
    requires forall k :: 0 <= k < |Split(output, '\n')| ==>
               !Contains(Split(output, '\n')[k], "Crew") && !Contains(Split(output, '\n')[k], "Polecats")
    ensures forall k :: 0 <= k < |Recipients(output)| ==> MainRole(Recipients(output)[k])
  {
    NoSectionOnlyRoles(RecipientScan([], ""), Split(output, '\n'));
  }

  /** The recipient that stands for the human overseer. */
  const Human := MailRecipient("human", "Human Overseer", "human", "--human", true)

  /** What a mail handler answers. */
  datatype MailReply =
    | RecipientList(recipients: seq<MailRecipient>)
    | Status(town: TownStatus)
    | Sent(messageId: string, args: seq<string>)
    | MarkedRead(id: string)
    | Failed(status: int, code: string, message: string)

  /** `GetRecipients`: the parsed recipients, then the human overseer. */
  function GetRecipients(output: Result<string, string>): (r: MailReply)
    ensures output.Failure? ==> r == Failed(500, "COMMAND_FAILED", "Failed to get status")
    ensures output.Success? ==> r.RecipientList? && |r.recipients| >= 1
    ensures output.Success? ==> r.recipients[|r.recipients| - 1] == Human
    ensures output.Success? ==> r.recipients[..|r.recipients| - 1] == Recipients(output.value)
  {
    if output.Failure? then Failed(500, "COMMAND_FAILED", "Failed to get status")
    else
      var parsed := Recipients(output.value);
      assert (parsed + [Human])[..|parsed|] == parsed;
      RecipientList(parsed + [Human])
  }

  /** The human overseer is the last recipient and occurs nowhere else. */
  lemma HumanOnlyLast(output: string)
    ensures var r := GetRecipients(Success(output)).recipients;
            forall k :: 0 <= k < |r| ==> (r[k] == Human <==> k == |r| - 1)
  {
    var r := GetRecipients(Success(output)).recipients;
    RecipientsWellShaped(output);
    forall k | 0 <= k < |r| - 1
      ensures r[k] != Human
    {
      assert r[k] == r[..|r| - 1][k];
      assert WellShaped(r[k]);
    }
  }

  // ---------------------------------------------------------- town status

  /** What follows the first occurrence of `sep`. */
  function AfterFirst(s: string, sep: string): (r: string)
    requires sep != "" && Contains(s, sep)
    ensures s == s[..Find(s, sep)] + sep + r
  {
    var i := Find(s, sep);
    assert s == s[..i] + s[i..i + |sep|] + s[i + |sep|..];
    s[i + |sep|..]
  }

  /** What comes before the first occurrence of `sep`, or all of `s` when there is none. */
  function BeforeFirst(s: string, sep: string): (r: string)
    requires sep != ""
    ensures HasPrefix(s, r)
    ensures !Contains(s, sep) ==> r == s
  {
    s[..Find(s, sep)]
  }

  /** `strings.Split(s, sep)[1]` when `sep` occurs: the text between its first and second occurrence. */
  function SecondPiece(s: string, sep: string): (r: string)
    requires sep != "" && Contains(s, sep)
  {
    BeforeFirst(AfterFirst(s, sep), sep)
  }

  /** One pass of the `parseTownStatus` loop. */
  function TownStep(s: TownStatus, line: string): TownStatus
  {
    var s1 := if HasPrefix(line, "Town:") then s.(name := Trim(TrimPrefix(line, "Town:"))) else s;
    if Contains(line, "Overseer:") then s1.(overseer := Trim(SecondPiece(line, "Overseer:"))) else s1
  }

  function TownFrom(s: TownStatus, lines: seq<string>): TownStatus
    decreases |lines|
  {
    if lines == [] then s else TownFrom(TownStep(s, lines[0]), lines[1..])
  }

  /** The town `parseTownStatus` finds in the output of `gt status`. */
  function TownOf(output: string): TownStatus
  {
    TownFrom(TownStatus("", ""), Split(output, '\n'))
  }

  /** The loop of `parseTownStatus`. */
  method ParseTownStatus(output: string) returns (status: TownStatus)
    ensures status == TownOf(output)
  {
    var lines := Split(output, '\n');
    status := TownStatus("", "");
    for i := 0 to |lines|
      invariant TownFrom(status, lines[i..]) == TownOf(output)
    {
      assert lines[i..][1..] == lines[i + 1..];
      var line := lines[i];
      if HasPrefix(line, "Town:") {
        status := status.(name := Trim(TrimPrefix(line, "Town:")));
      }
      if Contains(line, "Overseer:") {
        status := status.(overseer := Trim(SecondPiece(line, "Overseer:")));
      }
    }
    assert lines[|lines|..] == [];
  }

  lemma {:induction false} TownFromConcat(s: TownStatus, a: seq<string>, b: seq<string>)
    ensures TownFrom(s, a + b) == TownFrom(TownFrom(s, a), b)
    decreases |a|
  {
    if a != [] {
      assert (a + b)[0] == a[0] && (a + b)[1..] == a[1..] + b;
      TownFromConcat(TownStep(s, a[0]), a[1..], b);
    } else {
      assert a + b == b;
    }
  }

  lemma {:induction false} NoTownLineKeepsName(s: TownStatus, lines: seq<string>)
    requires forall k :: 0 <= k < |lines| ==> !HasPrefix(lines[k], "Town:")
    ensures TownFrom(s, lines).name == s.name
    decreases |lines|
  {
    if lines != [] {
      NoTownLineKeepsName(TownStep(s, lines[0]), lines[1..]);
    }
  }

  /** The last "Town:" line names the town. */
  lemma LastTownLineWins(pre: seq<string>, line: string, post: seq<string>)
    requires HasPrefix(line, "Town:")
    requires forall k :: 0 <= k < |post| ==> !HasPrefix(post[k], "Town:")
    ensures TownFrom(TownStatus("", ""), pre + [line] + post).name == Trim(line[|"Town:"|..])
  {
    TownFromConcat(TownStatus("", ""), pre + [line], post);
    TownFromConcat(TownStatus("", ""), pre, [line]);
    var s := TownFrom(TownStatus("", ""), pre + [line]);
    assert s.name == Trim(line[|"Town:"|..]);
    NoTownLineKeepsName(s, post);
  }

  /** An "Overseer:" line after leading blanks gives the trimmed rest of the line. */
  lemma OverseerLine(s: TownStatus, pad: string, who: string)
    requires forall k :: 0 <= k < |pad| ==> IsSpace(pad[k])
    requires !Contains(who, "Overseer:")
    ensures TownStep(s, pad + "Overseer:" + who).overseer == Trim(who)
  {
    var sep := "Overseer:";
    var line := pad + sep + who;
    forall k | 0 <= k < |pad|
      ensures !HasPrefix(line[k..], sep)
    {
      assert line[k..][0] == pad[k];
    }
    assert line[|pad|..][..|sep|] == sep;
    FindAt(line, sep, |pad|);
    assert line[..|pad|] == pad;
    assert AfterFirst(line, sep) == who;
  }

  // --------------------------------------------------------- send, read

  /** `SendMailRequest`. */
  datatype SendMailRequest = SendMailRequest(to: string, subject: string, body: string)

  /** The arguments of `gt` for a message, with the `--human` branch as written. */
  function SendMailArgs(req: SendMailRequest): (args: seq<string>)
    ensures args == ["mail", "send", req.to, "-s", req.subject, "-m", req.body]
  {
    if req.to == "--human" then ["mail", "send", "--human", "-s", req.subject, "-m", req.body]
    else ["mail", "send", req.to, "-s", req.subject, "-m", req.body]
  }

  /** The reason a decoded request is refused, checked field by field in order. */
  function SendMailProblem(req: SendMailRequest): (problem: Option<string>)
    ensures problem.None? <==> req.to != "" && req.subject != "" && req.body != ""
  {
    if req.to == "" then Some("Recipient is required")
    else if req.subject == "" then Some("Subject is required")
    else if req.body == "" then Some("Message body is required")
    else None
  }

  /**
   * `SendMail`: `req` is the decoded body (None when it is not JSON),
   * `sendError` the trimmed output of a failing `gt mail send`, `nanos` the clock.
   */
  function SendMail(req: Option<SendMailRequest>, sendError: Option<string>, nanos: int): (r: MailReply)
    ensures req.None? ==> r == Failed(400, "BAD_REQUEST", "Invalid request body")
    ensures r.Failed? && r.status == 400 <==> req.None? || SendMailProblem(req.value).Some?
    ensures req.Some? && req.value.to == "" ==> r == Failed(400, "BAD_REQUEST", "Recipient is required")
    ensures req.Some? && SendMailProblem(req.value).Some? ==> r == Failed(400, "BAD_REQUEST", SendMailProblem(req.value).value)
    ensures r.Sent? <==> req.Some? && SendMailProblem(req.value).None? && sendError.None?
    ensures r.Sent? ==> r.args == ["mail", "send", req.value.to, "-s", req.value.subject, "-m", req.value.body]
    ensures r.Sent? ==> HasPrefix(r.messageId, "msg-")
    ensures req.Some? && SendMailProblem(req.value).None? && sendError.Some? ==>
              r == Failed(500, "SEND_FAILED", "Failed to send message: " + sendError.value)
  {
    if req.None? then Failed(400, "BAD_REQUEST", "Invalid request body")
    else
      match SendMailProblem(req.value)
      case Some(problem) => Failed(400, "BAD_REQUEST", problem)
      case None =>
        if sendError.Some? then Failed(500, "SEND_FAILED", "Failed to send message: " + sendError.value)
        else
          var id := "msg-" + Radix.FormatInt(nanos, 10);
          assert id[..4] == "msg-";
          Sent(id, SendMailArgs(req.value))
  }

  /** A refused request is refused before `gt` runs: the command's outcome and the clock do not matter. */
  lemma SendMailValidatesFirst(req: Option<SendMailRequest>, e1: Option<string>, e2: Option<string>, n1: int, n2: int)
    requires req.None? || SendMailProblem(req.value).Some?
    ensures SendMail(req, e1, n1) == SendMail(req, e2, n2)
  {
  }

  /** `MarkAsRead`: any non-empty id is reported read, whatever `gt mail read` does. */
  function MarkAsRead(id: string): (r: MailReply)
    ensures id == "" <==> r == Failed(400, "BAD_REQUEST", "Message ID is required")
    ensures id != "" <==> r == MarkedRead(id)
  {
    if id == "" then Failed(400, "BAD_REQUEST", "Message ID is required") else MarkedRead(id)
  }

  /** `GetStatus`: the town of the status output, or the command failure. */
  function GetStatus(output: Result<string, string>): (r: MailReply)
    ensures output.Failure? <==> r == Failed(500, "COMMAND_FAILED", "Failed to get status")
    ensures output.Success? ==> r == Status(TownOf(output.value))
  {
    if output.Failure? then Failed(500, "COMMAND_FAILED", "Failed to get status") else Status(TownOf(output.value))
  }
}
