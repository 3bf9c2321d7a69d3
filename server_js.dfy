// The Node tmux API (`api/server.js`): the JavaScript twin of the Go tmux
// handler, with its own session-name validator, its own reading of
// `list-sessions` output, a one-second cache, the create, rename, delete,
// nuke and appearance handlers, Express routing in registration order, the
// bearer-token middleware mounted at "/api" and the CORS header.
// Every tmux call is a parameter: its output, or the message of the error it threw.
module ApiServer {
  import opened Strs
  import opened Wrappers
  import opened Radix
  import opened Orders
  import SC = SessionCore
  import SJ = SessionJs
  import TA = TmuxApi

  type Session = SC.Session

  /** `CACHE_TTL`, in milliseconds. */
  const CacheTTL := 1000

  /** The working directory of every session the Node API creates. */
  const WorkDir := "/code"

  /**
   * A field read from a JSON body: absent or falsy (`undefined`, `null`,
   * `false`, `0`), a string, or a truthy value of another type.
   */
  datatype JsValue = Falsy | Str(s: string) | OtherTruthy

  predicate Truthy(v: JsValue)
  {
    v.OtherTruthy? || (v.Str? && v.s != "")
  }

  /** `validateSessionName`: `None` when valid, else the message of the first failed check. */
  function ValidateSessionName(name: JsValue, paramName: string): (err: Option<string>)
    ensures err.None? <==> name.Str? && SC.WellFormedName(name.s)
    ensures !name.Str? ==> err == Some(paramName + " is required.")
  {
    if !Truthy(name) || !name.Str? then Some(paramName + " is required.")
    else
      SC.PatternMeansNameChars(name.s);
      if !SC.MatchesNamePattern(name.s) then
        Some("Invalid " + paramName + ". Use only letters, numbers, dashes, and underscores.")
      else if |name.s| > 50 then Some(paramName + " too long (max 50 characters).")
      else None
  }

  /** On strings the Node validator and the Go validator give the same verdict and message. */
  lemma ValidateAgrees(name: string, paramName: string)
    ensures var (valid, msg) := SC.ValidateSessionName(name, paramName);
            ValidateSessionName(Str(name), paramName) == (if valid then None else Some(msg))
  {
    SC.PatternMeansNameChars(name);
  }

  /** `lines.filter(line => line.trim())`: the non-blank lines, kept as they are. */
  function KeepNonBlank(lines: seq<string>): (r: seq<string>)
    ensures |r| <= |lines|
    ensures forall k :: 0 <= k < |r| ==> Trim(r[k]) != ""
  {
    if lines == [] then []
    else
      var last := lines[|lines| - 1];
      KeepNonBlank(lines[..|lines| - 1]) + (if Trim(last) != "" then [last] else [])
  }

  /** The kept lines trim to exactly the names the Go handler collects. */
  lemma {:induction false} KeepNonBlankTrims(lines: seq<string>)
    ensures |KeepNonBlank(lines)| == |TA.NonBlank(lines)|
    ensures forall k :: 0 <= k < |KeepNonBlank(lines)| ==> Trim(KeepNonBlank(lines)[k]) == TA.NonBlank(lines)[k]
  {
    if lines != [] {
      var init := lines[..|lines| - 1];
      KeepNonBlankTrims(init);
      var a := KeepNonBlank(init);
      var b := TA.NonBlank(init);
      assert |a| == |b| && forall k :: 0 <= k < |a| ==> Trim(a[k]) == b[k];
      var last := lines[|lines| - 1];
      var r := KeepNonBlank(lines);
      var g := TA.NonBlank(lines);
      assert r == a + (if Trim(last) != "" then [last] else []);
      assert g == b + (if Trim(last) != "" then [Trim(last)] else []);
      forall k | 0 <= k < |r|
        ensures Trim(r[k]) == g[k]
      {
        if k < |a| {
          assert r[k] == a[k] && g[k] == b[k];
        }
      }
    }
  }

  /** `output.trim().split('\n').filter(line => line.trim())`. */
  function JsLines(output: string): seq<string>
  {
    KeepNonBlank(Split(Trim(output), '\n'))
  }

  /** `parseInt(windows) || 1`: NaN, a missing field and zero all read as 1. */
  function JsWindows(field: Option<string>): (w: int)
    ensures w != 0
    ensures field.Some? && ParseInt(field.value).Some? && ParseInt(field.value).value != 0
            ==> w == ParseInt(field.value).value
  {
    var n := if field.Some? then ParseInt(field.value) else None;
    if n.None? || n.value == 0 then 1 else n.value
  }

  /**
   * One line, destructured as `[name, windows, attached]`: every non-blank
   * line gives a session, with a missing field read as `undefined`.
   */
  function ParseJsLine(line: string): (r: Session)
    ensures TA.WellParsed(r)
  {
    var parts := Split(line, ':');
    SplitNoSep(line, ':');
    SJ.CategorizeAgrees(parts[0]);
    SC.Session(parts[0],
               JsWindows(if |parts| >= 2 then Some(parts[1]) else None),
               |parts| >= 3 && parts[2] == "1",
               SJ.Categorize(parts[0]))
  }

  /** `.map(...)` over the kept lines. */
  function ParsedJs(lines: seq<string>): seq<Session>
  {
    seq(|lines|, k requires 0 <= k < |lines| => ParseJsLine(lines[k]))
  }

  /**
   * On a line tmux printed, the Node reading and the Go reading give the
   * same session (window counts of at least one, which tmux always has).
   */
  lemma JsLineAgrees(name: string, windows: int, clients: nat)
    requires ':' !in name && (name == [] || !IsSpace(name[0]))
    requires 1 <= windows <= MaxInt64
    ensures TA.ParseLine(TA.FormatLine(name, windows, clients)).Some?
    ensures ParseJsLine(TA.FormatLine(name, windows, clients))
            == TA.ParseLine(TA.FormatLine(name, windows, clients)).value
  {
    var line := TA.FormatLine(name, windows, clients);
    TA.SplitFormattedLine(name, windows, clients);
    TA.ParseFormattedLine(name, windows, clients);
    TA.OneClient(clients);
    ParseIntFormat(windows);
    SJ.CategorizeAgrees(name);
  }

  /** A line with fewer than three fields: Node keeps it as a session, Go drops it. */
  lemma ShortLineDiffers()
    ensures ParseJsLine("solo") == SC.Session("solo", 1, false, "other")
    ensures TA.ParseLine("solo").None?
  {
    assert IndexOf("solo", ':') == 4;
    assert Split("solo", ':') == ["solo"];
    TrimNoSpace("solo");
    assert !HasPrefix("solo", "hq-") && !HasPrefix("solo", "gt-");
  }

  function SortKey(s: Session): Key3
  {
    Key3(SJ.GroupPriority(s.group), s.group, s.name)
  }

  /** The comparator of the sessions sort, read as "a sorts before b". */
  predicate JsLess(a: Session, b: Session)
  {
    Key3Lt(SortKey(a), SortKey(b))
  }

  /** The Node order and the Go order on sessions are the same relation. */
  lemma JsLessAgrees(a: Session, b: Session)
    ensures JsLess(a, b) <==> SC.Less(a, b)
  {
    SJ.PriorityOrderAgrees(a.group, b.group);
    SJ.PriorityOrderAgrees(b.group, a.group);
  }

  /** The body of a `GET /api/tmux/sessions` reply; `error` is left out when `None`. */
  datatype JsResponse = JsResponse(
    sessions: seq<Session>,
    grouped: map<string, seq<Session>>,
    error: Option<string>,
    timestamp: string)

  /** What a handler answers. */
  datatype JsReply =
    | Created(session: string)
    | Renamed(oldName: string, newName: string)
    | Killed(session: string)
    | NothingToKill
    | Nuked(killed: nat, sessions: seq<string>)
    | Applied(applied: nat, total: nat)
    | Error(status: int, error: string)

  const NukeRefusal := "Nuke operation requires dashboard confirmation. Use the UI."

  /** The order `Object.entries` walks the colour fields: the order they are listed. */
  const ColorOrder := [TA.StatusBg, TA.StatusFg, TA.PaneBorderActive, TA.PaneBorderInactive,
                       TA.ModeStyleBg, TA.ModeStyleFg]

  /**
   * `POST /api/tmux/appearance`: the first field, in listing order, that is
   * set but not a colour is refused before any command runs; otherwise every
   * built command runs and the successes are counted.
   */
  method ApplyAppearance(req: TA.Appearance, succeeded: seq<string> -> bool)
    returns (reply: JsReply, issued: seq<seq<string>>)
    ensures reply.Error? <==> exists f: TA.ColorField :: TA.BadField(req, f)
    ensures reply.Error? ==>
              issued == [] && reply.status == 400
              && (exists k :: 0 <= k < |ColorOrder| && TA.BadField(req, ColorOrder[k])
                    && (forall j :: 0 <= j < k ==> !TA.BadField(req, ColorOrder[j]))
                    && reply.error == "Invalid color for " + TA.FieldName(ColorOrder[k])
                                      + ": " + TA.FieldValue(req, ColorOrder[k]))
    ensures !reply.Error? ==>
              issued == TA.BuildCommands(req)
              && reply == Applied(TA.Accepted(issued, succeeded), |issued|)
  {
    var i := 0;
    while i < |ColorOrder|
      invariant 0 <= i <= |ColorOrder|
      invariant forall j :: 0 <= j < i ==> !TA.BadField(req, ColorOrder[j])
    {
      var f := ColorOrder[i];
      var val := TA.FieldValue(req, f);
      if val != "" && !TA.ColorPattern(val) {
        assert TA.BadField(req, f);
        return Error(400, "Invalid color for " + TA.FieldName(f) + ": " + val), [];
      }
      i := i + 1;
    }
    forall f: TA.ColorField
      ensures !TA.BadField(req, f)
    {
      assert f == ColorOrder[ColorIndex(f)];
    }
    issued := TA.BuildCommands(req);
    var applied := TA.CountApplied(issued, succeeded);
    reply := Applied(applied, |issued|);
  }

  /** Where each colour field sits in `ColorOrder`. */
  function ColorIndex(f: TA.ColorField): (k: nat)
    ensures k < |ColorOrder| && ColorOrder[k] == f
  {
    match f
    case StatusBg => 0
    case StatusFg => 1
    case PaneBorderActive => 2
    case PaneBorderInactive => 3
    case ModeStyleBg => 4
    case ModeStyleFg => 5
  }

  /** The module-level `sessionsCache` and the handlers that clear it. */
  class SessionsApp {
    var data: Option<JsResponse>
    var timestamp: int

    constructor()
      ensures data == None && timestamp == 0
    {
      data := None;
      timestamp := 0;
    }

    /** A cached reply exists and is younger than the TTL at time `now`. */
    predicate Fresh(now: int)
      reads this
    {
      data.Some? && now - timestamp < CacheTTL
    }

    /** `invalidateSessionsCache`. */
    method InvalidateCache()
      modifies this
      ensures data == None && timestamp == 0
      ensures forall now :: !Fresh(now)
    {
      data := None;
      timestamp := 0;
    }

    /** What a freshly built reply says about the tmux outcome it came from. */
    ghost predicate Describes(resp: JsResponse, tmux: Result<string, string>)
    {
      match tmux
      case Failure(msg) =>
        resp.sessions == [] && resp.grouped == map[]
        && resp.error == (if TA.NoServerMessage(msg) then None else Some(msg))
      case Success(output) =>
        resp.error == None
        && multiset(resp.sessions) == multiset(ParsedJs(JsLines(output)))
        && SortedBy(resp.sessions, JsLess)
        && resp.grouped.Keys == SC.Groups(resp.sessions)
        && (forall g :: g in resp.grouped ==> resp.grouped[g] == SC.OfGroup(resp.sessions, g))
    }

    /**
     * `GET /api/tmux/sessions`: the cached reply while it is fresh (tmux is
     * not run); otherwise a reply built from the tmux outcome, cached whether
     * or not tmux failed.
     */
    method ListSessions(now: int, tmux: Result<string, string>, stamp: string)
      returns (resp: JsResponse, fromCache: bool)
      modifies this
      ensures fromCache <==> old(Fresh(now))
      ensures fromCache ==> resp == old(data).value && data == old(data) && timestamp == old(timestamp)
      ensures !fromCache ==> data == Some(resp) && timestamp == now && resp.timestamp == stamp
      ensures !fromCache ==> Describes(resp, tmux) && Fresh(now)
    {
      if data.Some? && now - timestamp < CacheTTL {
        return data.value, true;
      }
      match tmux {
        case Failure(msg) =>
          var isNoServer := TA.IsNoServerError(msg);
          resp := JsResponse([], map[], if isNoServer then None else Some(msg), stamp);
        case Success(output) =>
          var parsed := ParsedJs(JsLines(output));
          var a := new Session[|parsed|](i requires 0 <= i < |parsed| => parsed[i]);
          assert a[..] == parsed;
          ByKeyStrictWeak(JsLess, SortKey);
          SortArray(a, JsLess);
          var sorted := a[..];
          var grouped := SC.GroupSessions(sorted);
          resp := JsResponse(sorted, grouped, None, stamp);
      }
      data := Some(resp);
      timestamp := now;
      fromCache := false;
    }

    /** `POST /api/tmux/sessions`: a falsy name is replaced by a generated one. */
    method CreateSession(name: JsValue, nowMillis: nat, tmuxErr: Option<string>)
      returns (reply: JsReply, issued: seq<seq<string>>)
      modifies this
      ensures Truthy(name) && ValidateSessionName(name, "session name").Some? ==>
                reply == Error(400, ValidateSessionName(name, "session name").value) && issued == []
      ensures var chosen := if name.Str? && Truthy(name) then name.s else TA.GeneratedName(nowMillis);
              (!Truthy(name) || ValidateSessionName(name, "session name").None?) ==>
                issued == [["new-session", "-d", "-s", chosen, "-c", WorkDir]]
                && reply == (if tmuxErr.Some? then Error(400, tmuxErr.value) else Created(chosen))
      ensures reply.Created? ==> data == None && timestamp == 0
      ensures !reply.Created? ==> data == old(data) && timestamp == old(timestamp)
    {
      var chosen: string;
      if !Truthy(name) {
        chosen := TA.GeneratedName(nowMillis);
      } else {
        var err := ValidateSessionName(name, "session name");
        if err.Some? {
          return Error(400, err.value), [];
        }
        chosen := name.s;
      }
      issued := [["new-session", "-d", "-s", chosen, "-c", WorkDir]];
      if tmuxErr.Some? {
        return Error(400, tmuxErr.value), issued;
      }
      InvalidateCache();
      reply := Created(chosen);
    }

    /**
     * `PATCH /api/tmux/sessions/:name`: `decoded` is what `decodeURIComponent`
     * gave for the route parameter, or the message it threw.
     */
    method RenameSession(decoded: Result<string, string>, newName: JsValue, tmuxErr: Option<string>)
      returns (reply: JsReply, issued: seq<seq<string>>)
      modifies this
      ensures decoded.Failure? ==> reply == Error(500, decoded.error) && issued == []
      ensures decoded.Success? && !SC.WellFormedName(decoded.value) ==>
                reply == Error(400, ValidateSessionName(Str(decoded.value), "current session name").value)
                && issued == []
      ensures decoded.Success? && SC.WellFormedName(decoded.value)
              && ValidateSessionName(newName, "new session name").Some? ==>
                reply == Error(400, ValidateSessionName(newName, "new session name").value) && issued == []
      ensures decoded.Success? && SC.WellFormedName(decoded.value)
              && ValidateSessionName(newName, "new session name").None? ==>
                issued == [["rename-session", "-t", decoded.value, newName.s]]
                && reply == (if tmuxErr.Some? then Error(500, tmuxErr.value)
                             else Renamed(decoded.value, newName.s))
      ensures reply.Renamed? ==> data == None && timestamp == 0
      ensures !reply.Renamed? ==> data == old(data) && timestamp == old(timestamp)
    {
      if decoded.Failure? {
        return Error(500, decoded.error), [];
      }
      var oldName := decoded.value;
      var oldErr := ValidateSessionName(Str(oldName), "current session name");
      if oldErr.Some? {
        return Error(400, oldErr.value), [];
      }
      var newErr := ValidateSessionName(newName, "new session name");
      if newErr.Some? {
        return Error(400, newErr.value), [];
      }
      issued := [["rename-session", "-t", oldName, newName.s]];
      if tmuxErr.Some? {
        return Error(500, tmuxErr.value), issued;
      }
      InvalidateCache();
      reply := Renamed(oldName, newName.s);
    }

    /** `DELETE /api/tmux/sessions/:name`. */
    method DeleteSession(decoded: Result<string, string>, tmuxErr: Option<string>)
      returns (reply: JsReply, issued: seq<seq<string>>)
      modifies this
      ensures decoded.Failure? ==> reply == Error(500, decoded.error) && issued == []
      ensures decoded.Success? && !SC.WellFormedName(decoded.value) ==>
                reply == Error(400, ValidateSessionName(Str(decoded.value), "session name").value)
                && issued == []
      ensures decoded.Success? && SC.WellFormedName(decoded.value) ==>
                issued == [["kill-session", "-t", decoded.value]]
                && reply == (if tmuxErr.Some? then Error(500, tmuxErr.value) else Killed(decoded.value))
      ensures reply.Killed? ==> data == None && timestamp == 0
      ensures !reply.Killed? ==> data == old(data) && timestamp == old(timestamp)
    {
      if decoded.Failure? {
        return Error(500, decoded.error), [];
      }
      var sessionName := decoded.value;
      var err := ValidateSessionName(Str(sessionName), "session name");
      if err.Some? {
        return Error(400, err.value), [];
      }
      issued := [["kill-session", "-t", sessionName]];
      if tmuxErr.Some? {
        return Error(500, tmuxErr.value), issued;
      }
      InvalidateCache();
      reply := Killed(sessionName);
    }

    /**
     * `DELETE /api/tmux/sessions/all`: only with the confirmation header;
     * when tmux lists sessions at all, the server is killed, even when the
     * listing holds no name.
     */
    method NukeSessions(confirmHeader: Option<string>, listed: Result<string, string>, killErr: Option<string>)
      returns (reply: JsReply, issued: seq<seq<string>>)
      modifies this
      ensures confirmHeader != Some(TA.NukeConfirm) ==> reply == Error(403, NukeRefusal) && issued == []
      ensures confirmHeader == Some(TA.NukeConfirm) && listed.Failure? ==>
                reply == NothingToKill && issued == [["list-sessions", "-F", "#{session_name}"]]
      ensures confirmHeader == Some(TA.NukeConfirm) && listed.Success? ==>
                issued == [["list-sessions", "-F", "#{session_name}"], ["kill-server"]]
                && reply == (if killErr.Some? then Error(500, killErr.value)
                             else Nuked(|JsLines(listed.value)|, JsLines(listed.value)))
      ensures reply.Nuked? ==> data == None && timestamp == 0
      ensures !reply.Nuked? ==> data == old(data) && timestamp == old(timestamp)
    {
      if confirmHeader != Some(TA.NukeConfirm) {
        return Error(403, NukeRefusal), [];
      }
      issued := [["list-sessions", "-F", "#{session_name}"]];
      if listed.Failure? {
        return NothingToKill, issued;
      }
      var sessionNames := JsLines(listed.value);
      issued := issued + [["kill-server"]];
      if killErr.Some? {
        return Error(500, killErr.value), issued;
      }
      InvalidateCache();
      reply := Nuked(|sessionNames|, sessionNames);
    }
  }

  /** The names the Node nuke reports trim to the names the Go nuke reports. */
  lemma NukeNamesAgree(output: string)
    ensures |JsLines(output)| == |TA.NonBlank(TA.Lines(output))|
    ensures forall k :: 0 <= k < |JsLines(output)| ==> Trim(JsLines(output)[k]) == TA.NonBlank(TA.Lines(output))[k]
  {
    KeepNonBlankTrims(Split(Trim(output), '\n'));
  }

  // ---------------------------------------------------------------------
  // Routing. Express tries the routes in the order they were registered and
  // the first whose method and path pattern match handles the request.

  /** One segment of a route pattern: a literal, or a `:param` (one non-empty segment). */
  datatype Segment = Lit(text: string) | Param

  datatype Handler = ListH | CreateH | RenameH | DeleteH | NukeH | AppearanceH | HealthH

  datatype Route = Route(verb: string, pattern: seq<Segment>, handler: Handler)

  predicate SegmentMatches(seg: Segment, part: string)
  {
    match seg
    case Lit(t) => part == t
    case Param => part != ""
  }

  /** The segments of a request path, split at '/'. */
  function PathParts(path: string): seq<string>
  {
    Split(path, '/')
  }

  /** A request matches a route when the verbs agree and every segment matches. */
  predicate Matches(r: Route, verb: string, parts: seq<string>)
  {
    r.verb == verb && |r.pattern| == |parts|
    && forall k :: 0 <= k < |parts| ==> SegmentMatches(r.pattern[k], parts[k])
  }

  /** The handler of the first route that matches, if any. */
  function Dispatch(routes: seq<Route>, verb: string, parts: seq<string>): (h: Option<Handler>)
    ensures h.Some? ==> exists k :: 0 <= k < |routes| && Matches(routes[k], verb, parts) && routes[k].handler == h.value
    ensures h.None? <==> forall k :: 0 <= k < |routes| ==> !Matches(routes[k], verb, parts)
  {
    if routes == [] then None
    else if Matches(routes[0], verb, parts) then Some(routes[0].handler)
    else
      var h := Dispatch(routes[1..], verb, parts);
      assert forall k :: 1 <= k < |routes| ==> routes[k] == routes[1..][k - 1];
      h
  }

  /** Dispatching over two lists of routes: the first list wins. */
  lemma {:induction false} DispatchConcat(a: seq<Route>, b: seq<Route>, verb: string, parts: seq<string>)
    ensures Dispatch(a + b, verb, parts)
            == if Dispatch(a, verb, parts).Some? then Dispatch(a, verb, parts) else Dispatch(b, verb, parts)
  {
    if a != [] {
      assert (a + b)[0] == a[0];
      assert (a + b)[1..] == a[1..] + b;
      DispatchConcat(a[1..], b, verb, parts);
    } else {
      assert a + b == b;
    }
  }

  const ListRoute := Route("GET", [Lit(""), Lit("api"), Lit("tmux"), Lit("sessions")], ListH)
  const CreateRoute := Route("POST", [Lit(""), Lit("api"), Lit("tmux"), Lit("sessions")], CreateH)
  const RenameRoute := Route("PATCH", [Lit(""), Lit("api"), Lit("tmux"), Lit("sessions"), Param], RenameH)
  const DeleteRoute := Route("DELETE", [Lit(""), Lit("api"), Lit("tmux"), Lit("sessions"), Param], DeleteH)
  const NukeRoute := Route("DELETE", [Lit(""), Lit("api"), Lit("tmux"), Lit("sessions"), Lit("all")], NukeH)
  const AppearanceRoute := Route("POST", [Lit(""), Lit("api"), Lit("tmux"), Lit("appearance")], AppearanceH)
  const HealthRoute := Route("GET", [Lit(""), Lit("api"), Lit("health")], HealthH)

  const Leading := [ListRoute, CreateRoute, RenameRoute]
  const Trailing := [AppearanceRoute, HealthRoute]

  /** The routes in the order `api/server.js` registers them. */
  const Routes := Leading + [DeleteRoute, NukeRoute] + Trailing

  /** The same routes with the nuke route registered before the `:name` route. */
  const FixedRoutes := Leading + [NukeRoute, DeleteRoute] + Trailing

  /** The segments of the nuke request path. */
  const NukeParts := ["", "api", "tmux", "sessions", "all"]

  /** Only the nuke request's segments match the nuke pattern, and they match the `:name` pattern too. */
  lemma NukePattern(verb: string, parts: seq<string>)
    ensures Matches(NukeRoute, verb, parts) <==> verb == "DELETE" && parts == NukeParts
    ensures Matches(NukeRoute, verb, parts) ==> Matches(DeleteRoute, verb, parts)
  {
    if Matches(NukeRoute, verb, parts) {
      forall k | 0 <= k < 5
        ensures parts[k] == NukeParts[k] && SegmentMatches(DeleteRoute.pattern[k], parts[k])
      {
        assert SegmentMatches(NukeRoute.pattern[k], parts[k]);
      }
      assert parts == NukeParts;
    }
    if verb == "DELETE" && parts == NukeParts {
      forall k | 0 <= k < 5
        ensures SegmentMatches(NukeRoute.pattern[k], parts[k])
      {
      }
    }
  }

  lemma NoNukeAround(verb: string, parts: seq<string>)
    ensures Dispatch(Leading, verb, parts) != Some(NukeH)
    ensures Dispatch(Trailing, verb, parts) != Some(NukeH)
  {
  }

  /** As registered, no request ever reaches the nuke handler. */
  lemma NukeUnreachable(verb: string, parts: seq<string>)
    ensures Dispatch(Routes, verb, parts) != Some(NukeH)
  {
    DispatchConcat(Leading + [DeleteRoute, NukeRoute], Trailing, verb, parts);
    DispatchConcat(Leading, [DeleteRoute, NukeRoute], verb, parts);
    NoNukeAround(verb, parts);
    NukePattern(verb, parts);
  }

  /** A request matching none of the leading routes. */
  lemma LeadingMissesNuke()
    ensures Dispatch(Leading, "DELETE", NukeParts) == None
  {
    assert !Matches(ListRoute, "DELETE", NukeParts);
    assert !Matches(CreateRoute, "DELETE", NukeParts);
    assert !Matches(RenameRoute, "DELETE", NukeParts);
  }

  /** In particular the nuke request goes to the single-session delete, which kills a session "all". */
  lemma NukeRequestKillsSessionAll()
    ensures PathParts("/api/tmux/sessions/all") == NukeParts
    ensures Dispatch(Routes, "DELETE", NukeParts) == Some(DeleteH)
  {
    NukeRequestParts();
    DispatchConcat(Leading + [DeleteRoute, NukeRoute], Trailing, "DELETE", NukeParts);
    DispatchConcat(Leading, [DeleteRoute, NukeRoute], "DELETE", NukeParts);
    LeadingMissesNuke();
    NukePattern("DELETE", NukeParts);
  }

  lemma NukeRequestParts()
    ensures PathParts("/api/tmux/sessions/all") == NukeParts
  {
    SplitJoin(NukeParts, '/');
    JoinFive();
  }

  lemma JoinFive()
    ensures Join(NukeParts, "/") == "/api/tmux/sessions/all"
  {
    var p := NukeParts;
    JoinCons(p, "/");
    JoinCons(p[1..], "/");
    JoinCons(p[2..], "/");
    JoinCons(p[3..], "/");
    assert p[1..][1..] == p[2..] && p[2..][1..] == p[3..] && p[3..][1..] == p[4..];
    assert Join(NukeParts, "/") == "" + "/" + ("api" + "/" + ("tmux" + "/" + ("sessions" + "/" + "all")));
    NukePathText();
  }

  lemma NukePathText()
    ensures "" + "/" + ("api" + "/" + ("tmux" + "/" + ("sessions" + "/" + "all"))) == "/api/tmux/sessions/all"
  {
  }

  /**
   * With the nuke route first, the nuke request reaches the nuke handler and
   * every other request goes where it went before.
   */
  lemma FixedRoutesDispatch(verb: string, parts: seq<string>)
    ensures Dispatch(FixedRoutes, "DELETE", NukeParts) == Some(NukeH)
    ensures parts != NukeParts || verb != "DELETE" ==>
              Dispatch(FixedRoutes, verb, parts) == Dispatch(Routes, verb, parts)
  {
    DispatchConcat(Leading + [NukeRoute, DeleteRoute], Trailing, "DELETE", NukeParts);
    DispatchConcat(Leading, [NukeRoute, DeleteRoute], "DELETE", NukeParts);
    LeadingMissesNuke();
    NukePattern("DELETE", NukeParts);
    DispatchConcat(Leading + [NukeRoute, DeleteRoute], Trailing, verb, parts);
    DispatchConcat(Leading, [NukeRoute, DeleteRoute], verb, parts);
    DispatchConcat(Leading + [DeleteRoute, NukeRoute], Trailing, verb, parts);
    DispatchConcat(Leading, [DeleteRoute, NukeRoute], verb, parts);
    NukePattern(verb, parts);
  }

  /** Only the nuke request path splits into the nuke request's segments. */
  lemma NukePathOnly(path: string)
    requires PathParts(path) == NukeParts
    ensures path == "/api/tmux/sessions/all"
  {
    JoinSplit(path, '/');
    JoinFive();
  }

  // ---------------------------------------------------------------------
  // Bearer-token middleware, mounted with `app.use('/api', authMiddleware)`.

  datatype AuthOutcome = Pass | Unauthorized | Forbidden

  /** The body of `authMiddleware`, given the path it compares. */
  function AuthCheck(token: Option<string>, path: string, authHeader: Option<string>): (r: AuthOutcome)
    ensures r == Pass <==>
              token.None? || token.value == "" || path == "/api/health"
              || (authHeader.Some? && authHeader.value == "Bearer " + token.value)
  {
    if token.None? || token.value == "" then Pass
    else if path == "/api/health" then Pass
    else if authHeader.None? || authHeader.value == "" || !HasPrefix(authHeader.value, "Bearer ") then
      Unauthorized
    else if authHeader.value[7..] != token.value then
      assert authHeader.value != "Bearer " + token.value;
      Forbidden
    else
      assert authHeader.value == authHeader.value[..7] + authHeader.value[7..];
      Pass
  }

  /** A request path under the "/api" mount. */
  predicate UnderApi(path: string)
  {
    path == "/api" || HasPrefix(path, "/api/")
  }

  /** `req.path` inside a middleware mounted at "/api": the mount prefix is cut off. */
  function MountRelative(path: string): (r: string)
    requires UnderApi(path)
    ensures path == "/api" + r || (path == "/api" && r == "/")
  {
    if path == "/api" then "/" else
      assert path == path[..4] + path[4..];
      path[4..]
  }

  /** The middleware as mounted: it sees the mount-relative path. */
  function MountedAuth(token: Option<string>, path: string, authHeader: Option<string>): AuthOutcome
  {
    if UnderApi(path) then AuthCheck(token, MountRelative(path), authHeader) else Pass
  }

  /** As mounted, the health check needs a token once one is configured. */
  lemma HealthNeedsToken(token: string)
    requires token != ""
    ensures MountedAuth(Some(token), "/api/health", None) == Unauthorized
  {
    assert "/api/health"[..5] == "/api/";
    assert MountRelative("/api/health") == "/health";
  }

  /** The middleware comparing the full request path, as the health-check skip intends. */
  function FixedMountedAuth(token: Option<string>, path: string, authHeader: Option<string>): AuthOutcome
  {
    if UnderApi(path) then AuthCheck(token, path, authHeader) else Pass
  }

  /**
   * With the full path, a request without credentials passes exactly when
   * no token is configured, it is the health check, or it is outside "/api".
   */
  lemma FixedHealthOpen(token: Option<string>, path: string)
    ensures FixedMountedAuth(token, path, None) == Pass
            <==> token.None? || token.value == "" || path == "/api/health" || !UnderApi(path)
  {
  }

  // ---------------------------------------------------------------------
  // CORS header.

  /** `CORS_ORIGINS.split(',').map(o => o.trim())`. */
  function AllowedOrigins(env: string): seq<string>
  {
    var parts := Split(env, ',');
    seq(|parts|, k requires 0 <= k < |parts| => Trim(parts[k]))
  }

  /**
   * The `Access-Control-Allow-Origin` value: "*" when `CORS_ORIGINS` is unset
   * or empty; otherwise the request's origin when it is listed, and no header
   * when it is not.
   */
  function CorsOrigin(env: Option<string>, origin: Option<string>): (r: Option<string>)
    ensures env.None? || env.value == "" ==> r == Some("*")
    ensures env.Some? && env.value != "" ==>
              (r.Some? <==> origin.Some? && origin.value != "" && origin.value in AllowedOrigins(env.value))
              && (r.Some? ==> r == origin)
  {
    if env.None? || env.value == "" then Some("*")
    else if origin.Some? && origin.value != "" && origin.value in AllowedOrigins(env.value) then origin
    else None
  }
}
