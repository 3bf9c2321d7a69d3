// The Go tmux HTTP handler (`TmuxHandler`): turning `list-sessions` output
// into session records, the one-second sessions cache that every successful
// mutation clears, the guards of the create, delete, nuke and rename
// handlers, and the tmux commands built from an appearance request.
// Every tmux call is a parameter: its output, or the error it returned.
module TmuxApi {
  import opened Strs
  import opened Wrappers
  import opened Radix
  import opened Orders
  import SC = SessionCore

  type Session = SC.Session

  /** `time.Second`, the cache lifetime, in nanoseconds. */
  const CacheTTL := 1_000_000_000

  const NoServerErrors := ["no server running", "No such file or directory", "error connecting"]

  const NukeConfirm := "DASHBOARD-NUKE-CONFIRMED"

  /** The body of a `GET /api/tmux/sessions` reply. */
  datatype SessionsResponse = SessionsResponse(
    sessions: seq<Session>,
    grouped: map<string, seq<Session>>,
    timestamp: string,
    error: string)

  /** An error text that only says there is no tmux server. */
  predicate NoServerMessage(err: string)
  {
    exists i :: 0 <= i < |NoServerErrors| && Contains(err, NoServerErrors[i])
  }

  /** The search loop over the "no server" substrings. */
  method IsNoServerError(errStr: string) returns (isNoServer: bool)
    ensures isNoServer <==> NoServerMessage(errStr)
  {
    isNoServer := false;
    var i := 0;
    while i < |NoServerErrors|
      invariant 0 <= i <= |NoServerErrors|
      invariant !isNoServer
      invariant forall k :: 0 <= k < i ==> !Contains(errStr, NoServerErrors[k])
    {
      if Contains(errStr, NoServerErrors[i]) {
        isNoServer := true;
        return;
      }
      i := i + 1;
    }
  }

  /** The lines of tmux output, as the handler splits them. */
  function Lines(output: string): seq<string>
  {
    Split(Trim(output), '\n')
  }

  /** `Atoi` of the windows field, with 0 (and every syntax error) read as 1. */
  function WindowCount(field: string): (w: int)
    ensures w != 0
  {
    var n := Atoi(field).0;
    if n == 0 then 1 else n
  }

  /** What every parsed session satisfies. */
  predicate WellParsed(s: Session)
  {
    s.windows != 0 && ':' !in s.name && s.group == SC.Categorize(s.name)
  }

  /** One line of `name:windows:attached`, or nothing for a blank or short line. */
  function ParseLine(line: string): (r: Option<Session>)
    ensures r.Some? <==> |Split(Trim(line), ':')| >= 3
    ensures r.Some? ==> WellParsed(r.value)
  {
    var t := Trim(line);
    if t == "" then None
    else
      var parts := Split(t, ':');
      if |parts| >= 3 then
        Some(SC.Session(parts[0], WindowCount(parts[1]), parts[2] == "1", SC.Categorize(parts[0])))
      else None
  }

  /** Appends the session of a line, if it has one. */
  function AppendParsed(sessions: seq<Session>, parsed: Option<Session>): seq<Session>
  {
    if parsed.Some? then sessions + [parsed.value] else sessions
  }

  /** The sessions of a list of lines, in line order. */
  function ParsedSessions(lines: seq<string>): (r: seq<Session>)
    ensures |r| <= |lines|
  {
    if lines == [] then []
    else AppendParsed(ParsedSessions(lines[..|lines| - 1]), ParseLine(lines[|lines| - 1]))
  }

  lemma AppendWellParsed(sessions: seq<Session>, parsed: Option<Session>)
    requires forall k :: 0 <= k < |sessions| ==> WellParsed(sessions[k])
    requires parsed.Some? ==> WellParsed(parsed.value)
    ensures var r := AppendParsed(sessions, parsed);
            forall k :: 0 <= k < |r| ==> WellParsed(r[k])
  {
    if parsed.Some? {
      var r := sessions + [parsed.value];
      forall k | 0 <= k < |r|
        ensures WellParsed(r[k])
      {
        if k < |sessions| {
          assert r[k] == sessions[k];
        }
      }
    }
  }

  /** Every parsed session has a window count, a colon-free name and its category. */
  lemma {:induction false} ParsedSessionsFacts(lines: seq<string>)
    ensures forall k :: 0 <= k < |ParsedSessions(lines)| ==> WellParsed(ParsedSessions(lines)[k])
  {
    if lines != [] {
      var init := lines[..|lines| - 1];
      ParsedSessionsFacts(init);
      var p := ParsedSessions(init);
      assert forall k :: 0 <= k < |p| ==> WellParsed(p[k]);
      AppendWellParsed(p, ParseLine(lines[|lines| - 1]));
    }
  }

  lemma ParsedStep(lines: seq<string>, i: nat)
    requires i < |lines|
    ensures ParsedSessions(lines[..i + 1]) == AppendParsed(ParsedSessions(lines[..i]), ParseLine(lines[i]))
  {
    assert lines[..i + 1][..i] == lines[..i];
  }

  /** The parsing loop of `ListSessions`. */
  method ParseSessions(output: string) returns (sessions: seq<Session>)
    ensures sessions == ParsedSessions(Lines(output))
  {
    var lines := Lines(output);
    sessions := [];
    var i := 0;
    while i < |lines|
      invariant 0 <= i <= |lines|
      invariant sessions == ParsedSessions(lines[..i])
    {
      ParsedStep(lines, i);
      var parsed := ParseLine(lines[i]);
      if parsed.Some? {
        sessions := sessions + [parsed.value];
      }
      i := i + 1;
    }
    assert lines[..|lines|] == lines;
  }

  /** The line tmux prints for a session, given its count of attached clients. */
  function FormatLine(name: string, windows: int, clients: nat): string
  {
    name + ":" + FormatInt(windows, 10) + ":" + FormatNat(clients, 10)
  }

  lemma DigitsHaveNoColon(s: string)
    requires forall i :: 0 <= i < |s| ==> DigitValue(s[i], 10).Some?
    ensures ':' !in s && '\n' !in s
    ensures s != [] ==> !IsSpace(s[|s| - 1]) && !IsSpace(s[0])
  {
  }

  /** A decimal rendering has no colon and no space at either end. */
  lemma DecimalShape(n: int)
    ensures var w := FormatInt(n, 10);
            ':' !in w && !IsSpace(w[0]) && !IsSpace(w[|w| - 1])
  {
    var d := FormatNat(if n < 0 then -n else n, 10);
    DigitsHaveNoColon(d);
  }

  lemma JoinThree(a: string, b: string, c: string, sep: string)
    ensures Join([a, b, c], sep) == a + sep + b + sep + c
  {
    assert [a, b, c][1..] == [b, c];
    assert [b, c][1..] == [c];
    assert Join([c], sep) == c;
    assert Join([b, c], sep) == b + sep + c;
    assert Join([a, b, c], sep) == a + sep + (b + sep + c);
  }

  /** A printed line is already trimmed and splits back into its three fields. */
  lemma SplitFormattedLine(name: string, windows: int, clients: nat)
    requires ':' !in name && (name == [] || !IsSpace(name[0]))
    ensures var line := FormatLine(name, windows, clients);
            Trim(line) == line
            && Split(line, ':') == [name, FormatInt(windows, 10), FormatNat(clients, 10)]
  {
    var w := FormatInt(windows, 10);
    var c := FormatNat(clients, 10);
    var line := FormatLine(name, windows, clients);
    DecimalShape(windows);
    DecimalShape(clients);
    assert FormatInt(clients, 10) == c;
    assert line[|line| - 1] == c[|c| - 1];
    TrimNoSpace(line);
    JoinThree(name, w, c, ":");
    SplitJoin([name, w, c], ':');
  }

  /**
   * Parsing a line tmux printed gives back the session: its name, its
   * window count and its group; `attached` holds exactly when one client
   * is attached.
   */
  lemma ParseFormattedLine(name: string, windows: int, clients: nat)
    requires ':' !in name && (name == [] || !IsSpace(name[0]))
    requires MinInt64 <= windows <= MaxInt64 && windows != 0
    ensures ParseLine(FormatLine(name, windows, clients))
            == Some(SC.Session(name, windows, clients == 1, SC.Categorize(name)))
  {
    var line := FormatLine(name, windows, clients);
    SplitFormattedLine(name, windows, clients);
    var parts := Split(Trim(line), ':');
    assert parts[0] == name;
    assert |parts| == 3;
    AtoiFormat(windows);
    assert WindowCount(parts[1]) == windows;
    OneClient(clients);
    assert parts[2] == "1" <==> clients == 1;
  }

  /** Only a count of one prints as "1". */
  lemma OneClient(clients: nat)
    ensures FormatNat(clients, 10) == "1" <==> clients == 1
  {
    ParseFormat(clients, 10);
    if FormatNat(clients, 10) == "1" {
      assert ParseNat("1", 10) == 1;
    }
  }

  /** Trimmed, non-blank lines: the session names of a nuke. */
  function NonBlank(lines: seq<string>): (r: seq<string>)
    ensures |r| <= |lines|
    ensures forall k :: 0 <= k < |r| ==> r[k] != "" && Trim(r[k]) == r[k]
  {
    if lines == [] then []
    else
      var t := Trim(lines[|lines| - 1]);
      TrimIdempotent(lines[|lines| - 1]);
      NonBlank(lines[..|lines| - 1]) + (if t != "" then [t] else [])
  }

  /** The name-collecting loop of `DeleteAllSessions`. */
  method CollectNames(output: string) returns (names: seq<string>)
    ensures names == NonBlank(Lines(output))
  {
    var lines := Lines(output);
    names := [];
    var i := 0;
    while i < |lines|
      invariant 0 <= i <= |lines|
      invariant names == NonBlank(lines[..i])
    {
      assert lines[..i + 1][..i] == lines[..i];
      var line := Trim(lines[i]);
      if line != "" {
        names := names + [line];
      }
      i := i + 1;
    }
    assert lines[..|lines|] == lines;
  }

  /** The fields of an appearance request, in the order they are declared. */
  datatype ColorField = StatusBg | StatusFg | PaneBorderActive | PaneBorderInactive | ModeStyleBg | ModeStyleFg

  datatype Appearance = Appearance(
    statusBg: string, statusFg: string,
    paneBorderActive: string, paneBorderInactive: string,
    modeStyleBg: string, modeStyleFg: string)

  function FieldName(f: ColorField): string
  {
    match f
    case StatusBg => "statusBg"
    case StatusFg => "statusFg"
    case PaneBorderActive => "paneBorderActive"
    case PaneBorderInactive => "paneBorderInactive"
    case ModeStyleBg => "modeStyleBg"
    case ModeStyleFg => "modeStyleFg"
  }

  function FieldValue(req: Appearance, f: ColorField): string
  {
    match f
    case StatusBg => req.statusBg
    case StatusFg => req.statusFg
    case PaneBorderActive => req.paneBorderActive
    case PaneBorderInactive => req.paneBorderInactive
    case ModeStyleBg => req.modeStyleBg
    case ModeStyleFg => req.modeStyleFg
  }

  predicate HexDigit(c: char)
  {
    IsDigit(c) || 'a' <= c <= 'f' || 'A' <= c <= 'F'
  }

  /** The colour pattern `^#[0-9A-Fa-f]{3,6}$|^[a-zA-Z]+$|^default$`. */
  predicate ColorPattern(c: string)
  {
    (4 <= |c| <= 7 && c[0] == '#' && forall i :: 1 <= i < |c| ==> HexDigit(c[i]))
    || (|c| >= 1 && forall i :: 0 <= i < |c| ==> IsLetter(c[i]))
    || c == "default"
  }

  /** A field the handler rejects: set, and not a colour. */
  predicate BadField(req: Appearance, f: ColorField)
  {
    FieldValue(req, f) != "" && !ColorPattern(FieldValue(req, f))
  }

  /** The first rejected field in `order`, if any. */
  function FirstBad(req: Appearance, order: seq<ColorField>): (r: Option<ColorField>)
    ensures r.None? <==> forall k :: 0 <= k < |order| ==> !BadField(req, order[k])
  {
    if order == [] then None
    else if BadField(req, order[0]) then Some(order[0])
    else
      assert forall k :: 1 <= k < |order| ==> order[k] == order[1..][k - 1];
      FirstBad(req, order[1..])
  }

  /** The field reported is rejected, and every field before it in `order` is accepted. */
  lemma {:induction false} FirstBadIsFirst(req: Appearance, order: seq<ColorField>)
    requires FirstBad(req, order).Some?
    ensures exists i :: 0 <= i < |order| && order[i] == FirstBad(req, order).value && BadField(req, order[i]) &&
                        forall k :: 0 <= k < i ==> !BadField(req, order[k])
  {
    if !BadField(req, order[0]) {
      FirstBadIsFirst(req, order[1..]);
      var r := FirstBad(req, order[1..]).value;
      var i :| 0 <= i < |order[1..]| && order[1..][i] == r && BadField(req, order[1..][i]) &&
               forall k :: 0 <= k < i ==> !BadField(req, order[1..][k]);
      assert order[i + 1] == r;
      assert forall k :: 1 <= k < i + 1 ==> order[k] == order[1..][k - 1];
    } else {
      assert order[0] == FirstBad(req, order).value;
    }
  }

  /** The validation loop, walking the fields in map iteration order. */
  method FindInvalidColor(req: Appearance, order: seq<ColorField>) returns (bad: Option<ColorField>)
    ensures bad == FirstBad(req, order)
  {
    var i := 0;
    while i < |order|
      invariant 0 <= i <= |order|
      invariant FirstBad(req, order) == FirstBad(req, order[i..])
    {
      assert order[i..][1..] == order[i + 1..];
      var val := FieldValue(req, order[i]);
      if val != "" && !ColorPattern(val) {
        return Some(order[i]);
      }
      i := i + 1;
    }
    assert order[|order|..] == [];
    return None;
  }

  /** The `set -g` commands an appearance request asks for. */
  function BuildCommands(req: Appearance): (cmds: seq<seq<string>>)
    ensures |cmds| <= 4
  {
    (if req.statusBg != "" && req.statusFg != ""
     then [["set", "-g", "status-style", "bg=" + req.statusBg + ",fg=" + req.statusFg]] else [])
    + (if req.paneBorderActive != ""
       then [["set", "-g", "pane-active-border-style", "fg=" + req.paneBorderActive]] else [])
    + (if req.paneBorderInactive != ""
       then [["set", "-g", "pane-border-style", "fg=" + req.paneBorderInactive]] else [])
    + (if req.modeStyleBg != "" && req.modeStyleFg != ""
       then [["set", "-g", "mode-style", "bg=" + req.modeStyleBg + ",fg=" + req.modeStyleFg]] else [])
  }

  /** A status or mode style is only set when both of its colours are given. */
  lemma HalfPairsSetNothing(req: Appearance)
    ensures (req.statusBg == "" || req.statusFg == "") ==>
              forall k :: 0 <= k < |BuildCommands(req)| ==> BuildCommands(req)[k][2] != "status-style"
    ensures (req.modeStyleBg == "" || req.modeStyleFg == "") ==>
              forall k :: 0 <= k < |BuildCommands(req)| ==> BuildCommands(req)[k][2] != "mode-style"
    ensures BuildCommands(Appearance("", "", "", "", "", "")) == []
  {
  }

  /** How many of the commands tmux accepted. */
  function Accepted(cmds: seq<seq<string>>, succeeded: seq<string> -> bool): (n: nat)
    ensures n <= |cmds|
  {
    if cmds == [] then 0
    else Accepted(cmds[..|cmds| - 1], succeeded) + (if succeeded(cmds[|cmds| - 1]) then 1 else 0)
  }

  /** The `applied` counter loop. */
  method CountApplied(cmds: seq<seq<string>>, succeeded: seq<string> -> bool) returns (applied: nat)
    ensures applied == Accepted(cmds, succeeded)
    ensures applied <= |cmds|
  {
    applied := 0;
    var i := 0;
    while i < |cmds|
      invariant 0 <= i <= |cmds|
      invariant applied == Accepted(cmds[..i], succeeded)
    {
      assert cmds[..i + 1][..i] == cmds[..i];
      if succeeded(cmds[i]) {
        applied := applied + 1;
      }
      i := i + 1;
    }
    assert cmds[..|cmds|] == cmds;
  }

  /** What a handler answers. */
  datatype Reply =
    | Created(session: string)
    | Killed(session: string)
    | NothingToKill
    | Nuked(killed: nat, sessions: seq<string>)
    | Renamed(oldName: string, newName: string)
    | Applied(applied: nat, total: nat)
    | Failed(status: int, code: string, message: string)

  /** Parse, sort by group priority then name, and group by category. */
  method SortAndGroup(output: string) returns (sorted: seq<Session>, grouped: map<string, seq<Session>>)
    ensures multiset(sorted) == multiset(ParsedSessions(Lines(output)))
    ensures SortedBy(sorted, SC.Less)
    ensures grouped.Keys == SC.Groups(sorted)
    ensures forall g :: g in grouped ==> grouped[g] == SC.OfGroup(sorted, g)
  {
    var parsed := ParseSessions(output);
    var a := new Session[|parsed|](i requires 0 <= i < |parsed| => parsed[i]);
    assert a[..] == parsed;
    SC.SortSessions(a);
    sorted := a[..];
    grouped := SC.GroupSessions(sorted);
  }

  /** A generated session name: "shell-" and the clock in base 36. */
  function GeneratedName(nowMillis: int): string
  {
    "shell-" + FormatInt(nowMillis, 36)
  }

  /** A generated name always passes the validator, up to the 64-bit clock limit. */
  lemma GeneratedNameValid(nowMillis: int)
    requires 0 <= nowMillis <= MaxInt64
    ensures SC.WellFormedName(GeneratedName(nowMillis))
  {
    var d := FormatNat(nowMillis, 36);
    assert MaxInt64 < Pow(36, 13) by {
      assert Pow(36, 13) == 170581728179578208256;
    }
    FormatNatLength(nowMillis, 36, 13);
    var name := GeneratedName(nowMillis);
    forall i | 0 <= i < |name|
      ensures SC.NameChar(name[i])
    {
      if i >= 6 {
        assert name[i] == d[i - 6];
        assert DigitValue(d[i - 6], 36).Some?;
      }
    }
  }

  /** The handler with its sessions cache. */
  class TmuxHandler {
    var data: Option<SessionsResponse>
    var timestamp: int

    constructor()
      ensures data == None && timestamp == 0
    {
      data := None;
      timestamp := 0;
    }

    /** A cached reply exists and is younger than the TTL at time `now`. */
    predicate Fresh(now: int)
      reads this
    {
      data.Some? && now - timestamp < CacheTTL
    }

    /** `invalidateCache`: no cached reply, zero timestamp. */
    method InvalidateCache()
      modifies this
      ensures data == None && timestamp == 0
      ensures forall now :: !Fresh(now)
    {
      data := None;
      timestamp := 0;
    }

    /** What a freshly built reply says about the tmux outcome it came from. */
    ghost predicate Describes(resp: SessionsResponse, tmux: Result<string, string>)
    {
      match tmux
      case Failure(err) =>
        resp.sessions == [] && resp.grouped == map[]
        && resp.error == (if NoServerMessage(err) then "" else err)
      case Success(output) =>
        resp.error == ""
        && multiset(resp.sessions) == multiset(ParsedSessions(Lines(output)))
        && SortedBy(resp.sessions, SC.Less)
        && resp.grouped.Keys == SC.Groups(resp.sessions)
        && (forall g :: g in resp.grouped ==> resp.grouped[g] == SC.OfGroup(resp.sessions, g))
    }

    /**
     * `ListSessions`: the cached reply while it is fresh (tmux is not run);
     * otherwise a reply built from the tmux outcome, which is then cached
     * whether or not tmux failed.
     */
    method ListSessions(now: int, tmux: Result<string, string>, stamp: string)
      returns (resp: SessionsResponse, fromCache: bool)
      modifies this
      ensures fromCache <==> old(Fresh(now))
      ensures fromCache ==> resp == old(data).value && data == old(data) && timestamp == old(timestamp)
      ensures !fromCache ==> data == Some(resp) && timestamp == now && resp.timestamp == stamp
      ensures !fromCache ==> Describes(resp, tmux) && Fresh(now)
    {
      if data.Some? && now - timestamp < CacheTTL {
        return data.value, true;
      }
      resp := SessionsResponse([], map[], stamp, "");
      match tmux {
        case Failure(errStr) =>
          var isNoServer := IsNoServerError(errStr);
          if !isNoServer {
            resp := resp.(error := errStr);
          }
        case Success(output) =>
          var sorted, grouped := SortAndGroup(output);
          resp := resp.(sessions := sorted, grouped := grouped);
      }
      data := Some(resp);
      timestamp := now;
      fromCache := false;
    }

    /** `CreateSession`: `req` is the decoded name, `None` when the body is not JSON. */
    method CreateSession(req: Option<string>, contentLength: int, nowMillis: int, workDir: string,
                         tmuxErr: Option<string>)
      returns (reply: Reply, issued: seq<seq<string>>)
      modifies this
      ensures req.None? && contentLength > 0 ==>
                reply == Failed(400, "BAD_REQUEST", "Invalid JSON body") && issued == []
      ensures var name := if req.Some? then req.value else "";
              !(req.None? && contentLength > 0) && name != "" && !SC.WellFormedName(name) ==>
                reply == Failed(400, "BAD_REQUEST", SC.ValidateSessionName(name, "session name").1)
                && issued == []
      ensures var name := if req.Some? then req.value else "";
              var target := if name == "" then GeneratedName(nowMillis) else name;
              !(req.None? && contentLength > 0) && (name == "" || SC.WellFormedName(name)) ==>
                issued == [["new-session", "-d", "-s", target, "-c", workDir]]
                && reply == (if tmuxErr.None? then Created(target)
                             else Failed(400, "TMUX_ERROR", tmuxErr.value))
      ensures reply.Created? ==>
                data == None && timestamp == 0
                && issued == [["new-session", "-d", "-s", reply.session, "-c", workDir]]
                && (SC.WellFormedName(reply.session) || reply.session == GeneratedName(nowMillis))
      ensures !reply.Created? ==> data == old(data) && timestamp == old(timestamp)
      ensures reply.Created? || reply.Failed?
      ensures reply.Failed? && |issued| == 1 ==>
                tmuxErr.Some? && reply == Failed(400, "TMUX_ERROR", tmuxErr.value)
    {
      issued := [];
      if req.None? && contentLength > 0 {
        return Failed(400, "BAD_REQUEST", "Invalid JSON body"), issued;
      }
      var name := if req.Some? then req.value else "";
      if name == "" {
        name := GeneratedName(nowMillis);
      } else {
        var (valid, errMsg) := SC.ValidateSessionName(name, "session name");
        if !valid {
          return Failed(400, "BAD_REQUEST", errMsg), issued;
        }
      }
      issued := [["new-session", "-d", "-s", name, "-c", workDir]];
      if tmuxErr.Some? {
        return Failed(400, "TMUX_ERROR", tmuxErr.value), issued;
      }
      InvalidateCache();
      reply := Created(name);
    }

    /** `DeleteSession`: validate, kill, then clear the cache. */
    method DeleteSession(sessionName: string, tmuxErr: Option<string>)
      returns (reply: Reply, issued: seq<seq<string>>)
      modifies this
      ensures !SC.WellFormedName(sessionName) ==>
                reply == Failed(400, "BAD_REQUEST", SC.ValidateSessionName(sessionName, "session name").1)
                && issued == []
      ensures SC.WellFormedName(sessionName) ==> issued == [["kill-session", "-t", sessionName]]
      ensures SC.WellFormedName(sessionName) && tmuxErr.Some? ==>
                reply == Failed(500, "TMUX_ERROR", tmuxErr.value)
      ensures SC.WellFormedName(sessionName) && tmuxErr.None? ==> reply == Killed(sessionName)
      ensures reply.Killed? ==> data == None && timestamp == 0
      ensures !reply.Killed? ==> data == old(data) && timestamp == old(timestamp)
    {
      issued := [];
      var (valid, errMsg) := SC.ValidateSessionName(sessionName, "session name");
      if !valid {
        return Failed(400, "BAD_REQUEST", errMsg), issued;
      }
      issued := [["kill-session", "-t", sessionName]];
      if tmuxErr.Some? {
        return Failed(500, "TMUX_ERROR", tmuxErr.value), issued;
      }
      InvalidateCache();
      reply := Killed(sessionName);
    }

    /**
     * `DeleteAllSessions`: only with the confirmation header; kills the
     * tmux server only when at least one session is listed.
     */
    method DeleteAllSessions(confirmHeader: string, listed: Result<string, string>, killErr: Option<string>)
      returns (reply: Reply, issued: seq<seq<string>>)
      modifies this
      ensures confirmHeader != NukeConfirm ==>
                reply == Failed(403, "FORBIDDEN", "Nuke operation requires dashboard confirmation. Use the UI.")
                && issued == []
      ensures confirmHeader == NukeConfirm ==> |issued| >= 1 && issued[0] == ["list-sessions", "-F", "#{session_name}"]
      ensures var names := if listed.Success? then NonBlank(Lines(listed.value)) else [];
              confirmHeader == NukeConfirm && names == [] ==> reply == NothingToKill && |issued| == 1
      ensures var names := if listed.Success? then NonBlank(Lines(listed.value)) else [];
              confirmHeader == NukeConfirm && names != [] ==>
                issued == [["list-sessions", "-F", "#{session_name}"], ["kill-server"]]
                && reply == (if killErr.Some? then Failed(500, "TMUX_ERROR", killErr.value)
                             else Nuked(|names|, names))
      ensures reply.Nuked? ==> data == None && timestamp == 0
      ensures !reply.Nuked? ==> data == old(data) && timestamp == old(timestamp)
    {
      if confirmHeader != NukeConfirm {
        return Failed(403, "FORBIDDEN", "Nuke operation requires dashboard confirmation. Use the UI."), [];
      }
      issued := [["list-sessions", "-F", "#{session_name}"]];
      var sessionNames: seq<string> := [];
      if listed.Success? {
        sessionNames := CollectNames(listed.value);
      }
      if |sessionNames| == 0 {
        return NothingToKill, issued;
      }
      issued := issued + [["kill-server"]];
      if killErr.Some? {
        return Failed(500, "TMUX_ERROR", killErr.value), issued;
      }
      InvalidateCache();
      reply := Nuked(|sessionNames|, sessionNames);
    }

    /** `RenameSession`: old name, then body, then new name, then tmux. */
    method RenameSession(oldName: string, req: Option<string>, tmuxErr: Option<string>)
      returns (reply: Reply, issued: seq<seq<string>>)
      modifies this
      ensures !SC.WellFormedName(oldName) ==>
                reply == Failed(400, "BAD_REQUEST", SC.ValidateSessionName(oldName, "current session name").1)
                && issued == []
      ensures SC.WellFormedName(oldName) && req.None? ==>
                reply == Failed(400, "BAD_REQUEST", "Invalid JSON body") && issued == []
      ensures SC.WellFormedName(oldName) && req.Some? && !SC.WellFormedName(req.value) ==>
                reply == Failed(400, "BAD_REQUEST", SC.ValidateSessionName(req.value, "new session name").1)
                && issued == []
      ensures SC.WellFormedName(oldName) && req.Some? && SC.WellFormedName(req.value) ==>
                issued == [["rename-session", "-t", oldName, req.value]]
                && reply == (if tmuxErr.Some? then Failed(500, "TMUX_ERROR", tmuxErr.value)
                             else Renamed(oldName, req.value))
      ensures reply.Renamed? ==> data == None && timestamp == 0
      ensures !reply.Renamed? ==> data == old(data) && timestamp == old(timestamp)
    {
      var (valid, errMsg) := SC.ValidateSessionName(oldName, "current session name");
      if !valid {
        return Failed(400, "BAD_REQUEST", errMsg), [];
      }
      if req.None? {
        return Failed(400, "BAD_REQUEST", "Invalid JSON body"), [];
      }
      var (valid2, errMsg2) := SC.ValidateSessionName(req.value, "new session name");
      if !valid2 {
        return Failed(400, "BAD_REQUEST", errMsg2), [];
      }
      issued := [["rename-session", "-t", oldName, req.value]];
      if tmuxErr.Some? {
        return Failed(500, "TMUX_ERROR", tmuxErr.value), issued;
      }
      InvalidateCache();
      reply := Renamed(oldName, req.value);
    }

    /**
     * `ApplyAppearance`: any invalid colour is refused before a command
     * runs; otherwise every built command runs and the successes are counted.
     * `order` is the iteration order of the colour map.
     */
    method ApplyAppearance(req: Option<Appearance>, order: seq<ColorField>, succeeded: seq<string> -> bool)
      returns (reply: Reply, issued: seq<seq<string>>)
      requires forall f: ColorField :: f in order
      ensures req.None? ==> reply == Failed(400, "BAD_REQUEST", "Invalid JSON body") && issued == []
      ensures req.Some? && (exists f: ColorField :: BadField(req.value, f)) ==>
                FirstBad(req.value, order).Some? &&
                var f := FirstBad(req.value, order).value;
                reply == Failed(400, "BAD_REQUEST", "Invalid color for " + FieldName(f) + ": " + FieldValue(req.value, f))
                && issued == []
      ensures req.Some? && (forall f: ColorField :: !BadField(req.value, f)) ==>
                issued == BuildCommands(req.value)
                && reply == Applied(Accepted(issued, succeeded), |issued|)
      ensures reply.Applied? ==> reply.applied <= reply.total <= 4
    {
      if req.None? {
        return Failed(400, "BAD_REQUEST", "Invalid JSON body"), [];
      }
      var bad := FindInvalidColor(req.value, order);
      if bad.Some? {
        var key := FieldName(bad.value);
        var val := FieldValue(req.value, bad.value);
        return Failed(400, "BAD_REQUEST", "Invalid color for " + key + ": " + val), [];
      }
      forall f: ColorField
        ensures !BadField(req.value, f)
      {
        assert f in order;
        var k :| 0 <= k < |order| && order[k] == f;
      }
      issued := BuildCommands(req.value);
      var applied := CountApplied(issued, succeeded);
      reply := Applied(applied, |issued|);
    }
  }
}
