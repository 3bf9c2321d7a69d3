// The Express router mounted at /api/beads: project-path validation against
// the allowed roots, the `bv` robot commands with their error messages, the
// response envelope, the error-to-status mapping, and the issues, triage,
// insights and plan routes. Environment values and the working directory
// are inputs; whether a path exists, what a file holds, what `bv` printed and
// how a line of JSON decodes are parameters.
module BeadsRoutes {
  import opened Strs
  import opened Wrappers
  import opened PathClean
  import opened PathUtil
  import opened BeadsFallback

  // ---------------------------------------------------------------------
  // Configuration and project paths
  // ---------------------------------------------------------------------

  /** `path.resolve(p)` from the server's working directory `cwd`. */
  function Resolve(p: string, cwd: string): string
  {
    Abs(p, Success(cwd)).value
  }

  /** The default of the roots setting. */
  const DefaultRootsSetting: string := "/code,/workspace"

  /** The comma-separated fields of the roots setting, or of its default when it is unset. */
  function RootFields(env: string): (fields: seq<string>)
    ensures |fields| >= 1
  {
    Split(EnvOr(env, DefaultRootsSetting), ',')
  }

  /** `ALLOWED_ROOTS`: each field of the setting trimmed and resolved. */
  function AllowedRoots(env: string, cwd: string): (roots: seq<string>)
    ensures |roots| == |RootFields(env)|
    ensures forall i :: 0 <= i < |roots| ==> roots[i] == Resolve(Trim(RootFields(env)[i]), cwd)
  {
    var fields := RootFields(env);
    seq(|fields|, i requires 0 <= i < |fields| => Resolve(Trim(fields[i]), cwd))
  }

  /** An empty field in the setting resolves to the working directory, which becomes a root. */
  lemma EmptyFieldAllowsWorkingDir(cwd: string)
    ensures AllowedRoots("/code,", cwd)[1] == JoinPath(cwd, "")
  {
    var env := "/code,";
    assert env == "/code" + [','] + "";
    IndexOfAfter("/code", ',', "");
    assert env[..5] == "/code" && env[6..] == "";
    assert Split("", ',') == [""];
    assert Split(env, ',') == ["/code", ""];
  }

  /** `DEFAULT_PROJECT_PATH`. */
  function DefaultProjectPath(env: string): (r: string)
    ensures r != ""
  {
    EnvOr(env, "/workspace")
  }

  /** `resolved === root || resolved.startsWith(root + path.sep)` for some allowed root. */
  predicate Admitted(resolved: string, roots: seq<string>)
  {
    exists i :: 0 <= i < |roots| && RootAllows(resolved, roots[i])
  }

  /**
   * `validateProjectPath`: the input (or the default when it is empty) is
   * resolved, refused outside every root, refused when it does not exist,
   * and otherwise returned resolved.
   */
  function ValidateProjectPath(input: string, roots: seq<string>, defaultPath: string, cwd: string,
                               present: string -> bool): (r: Result<string, string>)
    ensures var resolved := Resolve(if input != "" then input else defaultPath, cwd);
            (r.Success? <==> Admitted(resolved, roots) && present(resolved)) &&
            (r.Success? ==> r.value == resolved) &&
            (!Admitted(resolved, roots) ==>
               r == Failure("Project path not in allowed roots: " + resolved + ". Allowed: " + Join(roots, ", "))) &&
            (Admitted(resolved, roots) && !present(resolved) ==>
               r == Failure("Project path does not exist: " + resolved))
  {
    var resolved := Resolve(if input != "" then input else defaultPath, cwd);
    if !Admitted(resolved, roots) then
      Failure("Project path not in allowed roots: " + resolved + ". Allowed: " + Join(roots, ", "))
    else if !present(resolved) then
      Failure("Project path does not exist: " + resolved)
    else Success(resolved)
  }

  /** From an absolute working directory, an accepted path is absolute and already clean: no ".", ".." or doubled "/". */
  lemma ValidatedIsClean(input: string, roots: seq<string>, defaultPath: string, cwd: string, present: string -> bool)
    requires cwd != "" && cwd[0] == '/'
    requires ValidateProjectPath(input, roots, defaultPath, cwd, present).Success?
    ensures var p := ValidateProjectPath(input, roots, defaultPath, cwd, present).value;
            p != "" && p[0] == '/' && Clean(p) == p
  {
    var p := if input != "" then input else defaultPath;
    var joined := if p != "" && p[0] == '/' then p else if p == "" then cwd else cwd + "/" + p;
    assert joined != "" && joined[0] == '/';
    assert Resolve(p, cwd) == Clean(joined);
    CleanKeepsRoot(joined);
    CleanIdempotent(joined);
  }

  /**
   * With roots that are "/" and one name, going up out of a root and over
   * into a sibling that is not a root is refused ("/code/../etc").
   */
  lemma TraversalRefused(a: string, b: string, roots: seq<string>, defaultPath: string, cwd: string,
                         present: string -> bool)
    requires Plain(a) && Plain(b)
    requires forall i :: 0 <= i < |roots| ==> SimpleRoot(roots[i])
    requires "/" + b !in roots
    ensures ValidateProjectPath("/" + (a + "/" + (".." + "/" + b)), roots, defaultPath, cwd, present).Failure?
  {
    CleanUpAndOver(a, b);
    forall i | 0 <= i < |roots|
      ensures !RootAllows("/" + b, roots[i])
    {
      SiblingNotUnder(b, roots[i]);
    }
  }

  /** A path inside a root, the root included, is accepted when it exists. */
  lemma BelowRootAccepted(roots: seq<string>, i: nat, tail: string, defaultPath: string, cwd: string,
                          present: string -> bool)
    requires i < |roots| && SimpleRoot(roots[i]) && Plain(tail)
    requires present(roots[i] + "/" + tail)
    ensures ValidateProjectPath(roots[i] + "/" + tail, roots, defaultPath, cwd, present) == Success(roots[i] + "/" + tail)
  {
    var p := roots[i] + "/" + tail;
    var r1 := roots[i][1..];
    assert AllPlain([r1, tail]);
    CleanCanonical([r1, tail]);
    JoinCons([r1, tail], "/");
    assert Join([r1, tail][1..], "/") == tail;
    assert roots[i] == "/" + r1;
    assert p == "/" + Join([r1, tail], "/");
    assert Clean(p) == p;
    assert p[..|roots[i]| + 1] == roots[i] + "/";
    assert RootAllows(p, roots[i]);
  }

  /** `checkBeadsDirectory`: the project's `.beads` directory, which must exist. */
  function CheckBeadsDirectory(projectPath: string, present: string -> bool): (r: Result<string, string>)
    ensures r.Success? <==> present(JoinPath(projectPath, ".beads"))
    ensures r.Success? ==> r.value == JoinPath(projectPath, ".beads")
    ensures r.Failure? ==> r.error == "No .beads directory found in " + projectPath
  {
    var beadsPath := JoinPath(projectPath, ".beads");
    if present(beadsPath) then Success(beadsPath)
    else Failure("No .beads directory found in " + projectPath)
  }

  // ---------------------------------------------------------------------
  // The bv command
  // ---------------------------------------------------------------------

  /** A character of `[a-zA-Z0-9-]`. */
  predicate FlagChar(c: char)
  {
    IsLetter(c) || IsDigit(c) || c == '-'
  }

  /** `/^--[a-zA-Z0-9-]+$/.test(flag)`. */
  predicate ValidFlag(flag: string)
  {
    |flag| >= 3 && flag[0] == '-' && flag[1] == '-' && forall k :: 2 <= k < |flag| ==> FlagChar(flag[k])
  }

  /** An accepted flag is one option word: it starts with "-" and holds no space, slash or "=". */
  lemma ValidFlagIsOneOption(flag: string)
    requires ValidFlag(flag)
    ensures flag[0] == '-' && ' ' !in flag && '/' !in flag && '=' !in flag
  {
    forall k | 0 <= k < |flag|
      ensures flag[k] != ' ' && flag[k] != '/' && flag[k] != '='
    {
      if k >= 2 {
        assert FlagChar(flag[k]);
      }
    }
  }

  /** The three flags the routes pass are accepted. */
  lemma RouteFlagsValid()
    ensures ValidFlag(TriageFlag) && ValidFlag(InsightsFlag) && ValidFlag(PlanFlag)
  {
    FlagTail(TriageFlag, ['r', 'o', 'b', 'o', 't', '-', 't', 'r', 'i', 'a', 'g', 'e']);
    FlagTail(InsightsFlag, ['r', 'o', 'b', 'o', 't', '-', 'i', 'n', 's', 'i', 'g', 'h', 't', 's']);
    FlagTail(PlanFlag, ['r', 'o', 'b', 'o', 't', '-', 'p', 'l', 'a', 'n']);
  }

  lemma FlagTail(flag: string, tail: seq<char>)
    requires flag == ['-', '-'] + tail && tail != []
    requires forall c :: c in tail ==> c == '-' || ('a' <= c <= 'z')
    ensures ValidFlag(flag)
  {
    forall k | 2 <= k < |flag|
      ensures FlagChar(flag[k])
    {
      assert flag[k] == tail[k - 2];
      assert flag[k] in tail;
    }
  }

  const TriageFlag: string := "--robot-triage"
  const InsightsFlag: string := "--robot-insights"
  const PlanFlag: string := "--robot-plan"

  /** A flag with a space, or one not starting with "--", is refused. */
  lemma SingleDashRefused(rest: string)
    ensures !ValidFlag("-" + rest) || (rest != [] && rest[0] == '-')
    ensures !ValidFlag("--robot triage")
  {
    assert ("--robot triage")[7] == ' ';
  }

  /** The message `execBvCommand` throws when `bv` is missing, written around its "not found". */
  const BvMissing: string := "bv command " + "not found" + ". Please install beads_viewer."
  const BvUnparsable: string := "Failed to parse bv output as JSON"

  /**
   * What `execFileSync` did: the command printed `output`, or it failed
   * with an error whose message and `code` are given.
   */
  datatype BvRun = Printed(output: string) | RunFailed(message: string, code: string)

  /** The message the catch block of `execBvCommand` throws. */
  function BvFailure(message: string, code: string, syntaxError: bool): (m: string)
    ensures Contains(message, "not found") || Contains(message, "not recognized") || code == "ENOENT" ==>
              m == BvMissing
    ensures !(Contains(message, "not found") || Contains(message, "not recognized") || code == "ENOENT") ==>
              m == if syntaxError then BvUnparsable else "bv command failed: " + message
  {
    if Contains(message, "not found") || Contains(message, "not recognized") || code == "ENOENT" then BvMissing
    else if syntaxError then BvUnparsable
    else "bv command failed: " + message
  }

  /**
   * `execBvCommand`: an invalid flag is refused before anything runs; the
   * printed output is parsed as JSON (`parse` fails with the syntax error's
   * message).
   */
  function ExecBvCommand<J>(flag: string, run: BvRun, parse: string -> Result<J, string>): (r: Result<J, string>)
    ensures !ValidFlag(flag) ==> r == Failure("Invalid bv flag: " + flag)
    ensures r.Success? <==> ValidFlag(flag) && run.Printed? && parse(run.output).Success?
    ensures r.Success? ==> r.value == parse(run.output).value
    ensures ValidFlag(flag) && run.RunFailed? ==> r == Failure(BvFailure(run.message, run.code, false))
    ensures ValidFlag(flag) && run.Printed? && parse(run.output).Failure? ==>
              r == Failure(BvFailure(parse(run.output).error, "", true))
  {
    if !ValidFlag(flag) then Failure("Invalid bv flag: " + flag)
    else
      match run
      case RunFailed(message, code) => Failure(BvFailure(message, code, false))
      case Printed(output) =>
        match parse(output)
        case Success(v) => Success(v)
        case Failure(message) => Failure(BvFailure(message, "", true))
  }

  /** A missing executable (`ENOENT`) always surfaces as the install hint, whatever the message. */
  lemma MissingExecutableMessage<J>(flag: string, message: string, parse: string -> Result<J, string>)
    requires ValidFlag(flag)
    ensures ExecBvCommand(flag, RunFailed(message, "ENOENT"), parse) == Failure(BvMissing)
  {
  }

  // ---------------------------------------------------------------------
  // The response envelope and the error mapping
  // ---------------------------------------------------------------------

  /** The `error` argument of `createResponse`; "" stands for a missing or empty member. */
  datatype ErrorArg = ErrorArg(code: string, message: string, details: string)

  /** The `error` member of a response. */
  datatype ErrorBody = ErrorBody(code: string, message: string, details: Option<string>)

  /** `{success, timestamp, data?, error?}`. */
  datatype Envelope<T> = Envelope(success: bool, timestamp: string, data: Option<T>, error: Option<ErrorBody>)

  /**
   * `createResponse`: data only on success, error only on failure, with the
   * code, message and details defaulted. `None` stands for a falsy `data`
   * or `error` argument.
   */
  function CreateResponse<T>(success: bool, data: Option<T>, error: Option<ErrorArg>, now: string): (r: Envelope<T>)
    ensures r.success == success && r.timestamp == now
    ensures r.data == if success then data else None
    ensures r.error.Some? <==> !success && error.Some?
    ensures r.data.None? || r.error.None?
    ensures r.error.Some? ==>
              r.error.value.code == (if error.value.code != "" then error.value.code else "UNKNOWN_ERROR") &&
              r.error.value.message == (if error.value.message != "" then error.value.message else "An unknown error occurred") &&
              (r.error.value.details.Some? <==> error.value.details != "")
  {
    var body := if !success && error.Some? then
                  Some(ErrorBody(if error.value.code != "" then error.value.code else "UNKNOWN_ERROR",
                                 if error.value.message != "" then error.value.message else "An unknown error occurred",
                                 if error.value.details != "" then Some(error.value.details) else None))
                else None;
    Envelope(success, now, if success then data else None, body)
  }

  /** The error-handler's mapping as written: the first test that matches decides. */
  function ClassifyAsWritten(message: string): (r: (int, string))
    ensures Contains(message, "not found") ==> r == (404, "NOT_FOUND")
    ensures !Contains(message, "not found") && (Contains(message, "not installed") || Contains(message, "not recognized")) ==>
              r == (503, "BV_NOT_INSTALLED")
    ensures !Contains(message, "not found") && !Contains(message, "not installed") && !Contains(message, "not recognized") ==>
              r == if Contains(message, "timeout") then (504, "TIMEOUT") else (500, "INTERNAL_ERROR")
  {
    if Contains(message, "not found") then (404, "NOT_FOUND")
    else if Contains(message, "not installed") || Contains(message, "not recognized") then (503, "BV_NOT_INSTALLED")
    else if Contains(message, "timeout") then (504, "TIMEOUT")
    else (500, "INTERNAL_ERROR")
  }

  lemma BvMissingSaysNotFound()
    ensures Contains(BvMissing, "not found")
  {
    assert |"bv command "| == 11;
    assert BvMissing[11..20] == "not found";
    ContainsAt(BvMissing, "not found", 11);
  }

  /**
   * The message `execBvCommand` throws when `bv` is missing contains "not
   * found", so the handler answers 404 NOT_FOUND for it and never reaches
   * its BV_NOT_INSTALLED branch.
   */
  lemma MissingBvReportedNotFound<J>(flag: string, message: string, parse: string -> Result<J, string>)
    requires ValidFlag(flag)
    ensures ExecBvCommand(flag, RunFailed(message, "ENOENT"), parse) == Failure(BvMissing)
    ensures ClassifyAsWritten(BvMissing) == (404, "NOT_FOUND")
  {
    BvMissingSaysNotFound();
  }

  /** The mapping with the install hint recognised first, as 503 BV_NOT_INSTALLED. */
  function Classify(message: string): (r: (int, string))
    ensures message == BvMissing ==> r == (503, "BV_NOT_INSTALLED")
    ensures message != BvMissing ==> r == ClassifyAsWritten(message)
  {
    if message == BvMissing then (503, "BV_NOT_INSTALLED") else ClassifyAsWritten(message)
  }

  /**
   * Both mappings give one of the four statuses; the corrected one reports
   * a missing `bv` as not installed where the written one says not found.
   */
  lemma ClassifyOutcomes(message: string)
    ensures Classify(message) in {(404, "NOT_FOUND"), (503, "BV_NOT_INSTALLED"), (504, "TIMEOUT"), (500, "INTERNAL_ERROR")}
    ensures ClassifyAsWritten(message) in {(404, "NOT_FOUND"), (503, "BV_NOT_INSTALLED"), (504, "TIMEOUT"), (500, "INTERNAL_ERROR")}
    ensures Classify(BvMissing) == (503, "BV_NOT_INSTALLED")
    ensures ClassifyAsWritten(BvMissing) == (404, "NOT_FOUND")
  {
    BvMissingSaysNotFound();
  }

  /** An HTTP status and the envelope sent with it. */
  datatype Reply<T> = Reply(status: int, body: Envelope<T>)

  /** `res.json(createResponse(true, v))`, or the error handler's answer to a thrown message. */
  function Answer<T>(r: Result<T, string>, now: string): (reply: Reply<T>)
    ensures r.Success? ==> reply.status == 200 && reply.body.success && reply.body.data == Some(r.value)
    ensures r.Failure? ==>
              reply.status == Classify(r.error).0 && reply.status >= 404 && !reply.body.success &&
              reply.body.data.None? && reply.body.error.Some? && reply.body.error.value.code == Classify(r.error).1
  {
    match r
    case Success(v) => Reply(200, CreateResponse(true, Some(v), None, now))
    case Failure(message) =>
      var (status, code) := Classify(message);
      Reply(status, CreateResponse(false, None, Some(ErrorArg(code, message, "")), now))
  }

  /** The error handler as `asyncHandler` writes it, classifying with the written mapping. */
  function AnswerAsWritten<T>(r: Result<T, string>, now: string): (reply: Reply<T>)
    ensures r.Success? ==> reply.status == 200 && reply.body.success && reply.body.data == Some(r.value)
    ensures r.Failure? ==>
              reply.status == ClassifyAsWritten(r.error).0 && !reply.body.success &&
              reply.body.data.None? && reply.body.error.Some? && reply.body.error.value.code == ClassifyAsWritten(r.error).1
  {
    match r
    case Success(v) => Reply(200, CreateResponse(true, Some(v), None, now))
    case Failure(message) =>
      var (status, code) := ClassifyAsWritten(message);
      Reply(status, CreateResponse(false, None, Some(ErrorArg(code, message, "")), now))
  }

  /** The corrected handler answers as the written one except for the missing-`bv` message. */
  lemma AnswerAgrees<T>(r: Result<T, string>, now: string)
    ensures r.Success? || r.error != BvMissing ==> Answer(r, now) == AnswerAsWritten(r, now)
    ensures r == Failure(BvMissing) ==> AnswerAsWritten(r, now).status == 404 && Answer(r, now).status == 503
  {
    BvMissingSaysNotFound();
  }

  // ---------------------------------------------------------------------
  // Routes
  // ---------------------------------------------------------------------

  /** The environment and working directory the router was loaded with. */
  datatype Config = Config(roots: seq<string>, defaultPath: string, cwd: string)

  /** Reads the router's settings: the allowed roots and the default project. */
  function ConfigOf(rootsEnv: string, projectEnv: string, cwd: string): Config
  {
    Config(AllowedRoots(rootsEnv, cwd), DefaultProjectPath(projectEnv), cwd)
  }

  /** GET /health. */
  function HealthRoute(now: string): (reply: Reply<string>)
    ensures reply.status == 200 && reply.body.data == Some("ok") && reply.body.error.None?
  {
    Reply(200, CreateResponse(true, Some("ok"), None, now))
  }

  /** The non-blank lines of a trimmed file. */
  function ContentLines(content: string): (lines: seq<string>)
    ensures forall k :: 0 <= k < |lines| ==> Trim(lines[k]) != "" && '\n' !in lines[k]
  {
    SplitNoSep(Trim(content), '\n');
    Filter(Split(Trim(content), '\n'), NonBlank)
  }

  predicate NonBlank(line: string)
  {
    Trim(line) != ""
  }

  /** The lines that decode, in order; a line that does not is skipped. */
  function DecodedLines<J>(lines: seq<string>, decode: string -> Option<J>): (r: seq<J>)
    ensures |r| <= |lines|
    ensures (forall k :: 0 <= k < |lines| ==> decode(lines[k]).Some?) ==> |r| == |lines|
  {
    if lines == [] then []
    else
      var front := lines[..|lines| - 1];
      assert forall k :: 0 <= k < |front| ==> front[k] == lines[k];
      var last := decode(lines[|lines| - 1]);
      DecodedLines(front, decode) + (if last.Some? then [last.value] else [])
  }

  /** Every decoded issue comes from some line. */
  lemma {:induction false} DecodedFromLines<J>(lines: seq<string>, decode: string -> Option<J>, x: J)
    requires x in DecodedLines(lines, decode)
    ensures exists k :: 0 <= k < |lines| && decode(lines[k]) == Some(x)
  {
    var front := lines[..|lines| - 1];
    if x in DecodedLines(front, decode) {
      DecodedFromLines(front, decode, x);
      var k :| 0 <= k < |front| && decode(front[k]) == Some(x);
      assert lines[k] == front[k];
    }
  }

  /** The loop of GET /issues: each line that parses is pushed. */
  method CollectIssues<J>(lines: seq<string>, decode: string -> Option<J>) returns (issues: seq<J>)
    ensures issues == DecodedLines(lines, decode)
  {
    issues := [];
    var i := 0;
    while i < |lines|
      invariant 0 <= i <= |lines|
      invariant issues == DecodedLines(lines[..i], decode)
    {
      var parsed := decode(lines[i]);
      if parsed.Some? {
        issues := issues + [parsed.value];
      }
      assert lines[..i + 1][..i] == lines[..i];
      i := i + 1;
    }
    assert lines[..|lines|] == lines;
  }

  /** The request names an allowed, existing project that has a `.beads` directory. */
  predicate Located(cfg: Config, query: string, present: string -> bool)
  {
    ValidateProjectPath(query, cfg.roots, cfg.defaultPath, cfg.cwd, present).Success? &&
    CheckBeadsDirectory(ValidateProjectPath(query, cfg.roots, cfg.defaultPath, cfg.cwd, present).value, present).Success?
  }

  /** The issue file of a located project. */
  function IssuesFileOf(cfg: Config, query: string, present: string -> bool): string
    requires Located(cfg, query, present)
  {
    IssuesFile(JoinPath(ValidateProjectPath(query, cfg.roots, cfg.defaultPath, cfg.cwd, present).value, ".beads"))
  }

  /** A line that decodes contributes its issue. */
  lemma {:induction false} LineDecoded<J>(lines: seq<string>, decode: string -> Option<J>, k: nat)
    requires k < |lines| && decode(lines[k]).Some?
    ensures decode(lines[k]).value in DecodedLines(lines, decode)
  {
    var front := lines[..|lines| - 1];
    if k < |lines| - 1 {
      assert front[k] == lines[k];
      LineDecoded(front, decode, k);
    }
  }

  /** `{issues, totalCount, projectPath}`. */
  datatype IssueList<J> = IssueList(issues: seq<J>, totalCount: nat, projectPath: string)

  /** The issues file of a project whose `.beads` directory is `beadsPath`. */
  function IssuesFile(beadsPath: string): string
  {
    JoinPath(beadsPath, "issues.jsonl")
  }

  /** GET /issues: the parsed lines of the project's issue file. */
  method IssuesRoute<J>(cfg: Config, query: string, present: string -> bool, content: string,
                        decode: string -> Option<J>, now: string) returns (reply: Reply<IssueList<J>>)
    ensures reply == Answer(IssuesOf(cfg, query, present, content, decode), now)
  {
    var issues := CollectIssues(ContentLines(content), decode);
    var r := match ValidateProjectPath(query, cfg.roots, cfg.defaultPath, cfg.cwd, present)
      case Failure(e) => Failure(e)
      case Success(projectPath) =>
        match CheckBeadsDirectory(projectPath, present)
        case Failure(e) => Failure(e)
        case Success(beadsPath) =>
          if !present(IssuesFile(beadsPath)) then Failure("No issues.jsonl file found in " + beadsPath)
          else Success(IssueList(issues, |issues|, projectPath));
    reply := Answer(r, now);
  }

  /** What GET /issues answers with. */
  function IssuesOf<J>(cfg: Config, query: string, present: string -> bool, content: string,
                       decode: string -> Option<J>): (r: Result<IssueList<J>, string>)
    ensures r.Success? ==>
              ValidateProjectPath(query, cfg.roots, cfg.defaultPath, cfg.cwd, present) == Success(r.value.projectPath) &&
              present(JoinPath(r.value.projectPath, ".beads")) &&
              present(IssuesFile(JoinPath(r.value.projectPath, ".beads"))) &&
              r.value.totalCount == |r.value.issues| <= |ContentLines(content)|
    ensures r.Success? <==> Located(cfg, query, present) && present(IssuesFileOf(cfg, query, present))
    ensures r.Success? ==> r.value.issues == DecodedLines(ContentLines(content), decode)
    ensures ValidateProjectPath(query, cfg.roots, cfg.defaultPath, cfg.cwd, present).Failure? ==>
              r == Failure(ValidateProjectPath(query, cfg.roots, cfg.defaultPath, cfg.cwd, present).error)
  {
    match ValidateProjectPath(query, cfg.roots, cfg.defaultPath, cfg.cwd, present)
    case Failure(e) => Failure(e)
    case Success(projectPath) =>
      match CheckBeadsDirectory(projectPath, present)
      case Failure(e) => Failure(e)
      case Success(beadsPath) =>
        if !present(IssuesFile(beadsPath)) then Failure("No issues.jsonl file found in " + beadsPath)
        else
          var issues := DecodedLines(ContentLines(content), decode);
          Success(IssueList(issues, |issues|, projectPath))
  }

  /** The body of a triage or insights answer: `bv`'s own output, or the computed fallback. */
  datatype Computed<J, F> = FromBv(output: J) | Fallback(body: F)

  /**
   * The shared shape of GET /triage and GET /insights: validate, check the
   * `.beads` directory, ask `bv`; when it fails, compute the fallback from
   * the issue file, or rethrow its error when there is no such file.
   */
  function WithFallback<J, F>(cfg: Config, query: string, present: string -> bool, flag: string, run: BvRun,
                              parse: string -> Result<J, string>, fallback: F): (r: Result<Computed<J, F>, string>)
    ensures r.Success? ==>
              ValidateProjectPath(query, cfg.roots, cfg.defaultPath, cfg.cwd, present).Success? &&
              present(JoinPath(ValidateProjectPath(query, cfg.roots, cfg.defaultPath, cfg.cwd, present).value, ".beads"))
    ensures r.Success? && r.value.Fallback? ==>
              ExecBvCommand(flag, run, parse).Failure? && r.value.body == fallback
    ensures r.Success? && r.value.FromBv? ==> ExecBvCommand(flag, run, parse) == Success(r.value.output)
    ensures ValidateProjectPath(query, cfg.roots, cfg.defaultPath, cfg.cwd, present).Success? &&
            CheckBeadsDirectory(ValidateProjectPath(query, cfg.roots, cfg.defaultPath, cfg.cwd, present).value, present).Success? &&
            ExecBvCommand(flag, run, parse).Failure? &&
            !present(IssuesFile(JoinPath(ValidateProjectPath(query, cfg.roots, cfg.defaultPath, cfg.cwd, present).value, ".beads"))) ==>
              r == Failure(ExecBvCommand(flag, run, parse).error)
    ensures Located(cfg, query, present) && ExecBvCommand(flag, run, parse).Success? ==>
              r == Success(FromBv(ExecBvCommand(flag, run, parse).value))
    ensures Located(cfg, query, present) && ExecBvCommand(flag, run, parse).Failure? &&
            present(IssuesFileOf(cfg, query, present)) ==>
              r == Success(Fallback(fallback))
    ensures ValidateProjectPath(query, cfg.roots, cfg.defaultPath, cfg.cwd, present).Failure? ==>
              r == Failure(ValidateProjectPath(query, cfg.roots, cfg.defaultPath, cfg.cwd, present).error)
  {
    match ValidateProjectPath(query, cfg.roots, cfg.defaultPath, cfg.cwd, present)
    case Failure(e) => Failure(e)
    case Success(projectPath) =>
      match CheckBeadsDirectory(projectPath, present)
      case Failure(e) => Failure(e)
      case Success(beadsPath) =>
        match ExecBvCommand(flag, run, parse)
        case Success(v) => Success(FromBv(v))
        case Failure(e) =>
          if !present(IssuesFile(beadsPath)) then Failure(e)
          else Success(Fallback(fallback))
  }

  /** GET /triage; `content` is the issue file and `decode` reads one issue line (`None` for a line that fails or is falsy). */
  function TriageRoute<J>(cfg: Config, query: string, present: string -> bool, run: BvRun,
                          parse: string -> Result<J, string>, content: string,
                          decode: string -> Option<Issue>, now: string): (reply: Reply<Computed<J, Triage>>)
    ensures var bv := ExecBvCommand(TriageFlag, run, parse);
            Located(cfg, query, present) ==>
              (bv.Success? ==> reply.status == 200 && reply.body.data == Some(FromBv(bv.value))) &&
              (bv.Failure? && present(IssuesFileOf(cfg, query, present)) ==>
                 reply.status == 200 &&
                 reply.body.data == Some(Fallback(TriageOf(DecodedLines(ContentLines(content), decode), now)))) &&
              (bv.Failure? && !present(IssuesFileOf(cfg, query, present)) ==>
                 reply.status == Classify(bv.error).0 && !reply.body.success)
    ensures !Located(cfg, query, present) ==> reply.status >= 404 && !reply.body.success
  {
    var issues := DecodedLines(ContentLines(content), decode);
    Answer(WithFallback(cfg, query, present, TriageFlag, run, parse, TriageOf(issues, now)), now)
  }

  /** GET /insights, with the fallback computed by the degree and cycle loops. */
  method InsightsRoute<J>(cfg: Config, query: string, present: string -> bool, run: BvRun,
                          parse: string -> Result<J, string>, content: string,
                          decode: string -> Option<Issue>, now: string) returns (reply: Reply<Computed<J, Insights>>)
    ensures reply == Answer(WithFallback(cfg, query, present, InsightsFlag, run, parse,
                                         InsightsOf(DecodedLines(ContentLines(content), decode), now)), now)
  {
    var issues := CollectIssues(ContentLines(content), decode);
    var insights := ComputeInsights(issues, now);
    reply := Answer(WithFallback(cfg, query, present, InsightsFlag, run, parse, insights), now);
  }

  /** When `bv` cannot run and the project has no issue file, a missing `bv` is answered 503 BV_NOT_INSTALLED. */
  lemma TriageWithoutBvOrIssues<J>(cfg: Config, query: string, present: string -> bool, message: string,
                                   parse: string -> Result<J, string>, content: string,
                                   decode: string -> Option<Issue>, now: string)
    requires ValidateProjectPath(query, cfg.roots, cfg.defaultPath, cfg.cwd, present).Success?
    requires CheckBeadsDirectory(ValidateProjectPath(query, cfg.roots, cfg.defaultPath, cfg.cwd, present).value, present).Success?
    requires !present(IssuesFile(JoinPath(ValidateProjectPath(query, cfg.roots, cfg.defaultPath, cfg.cwd, present).value, ".beads")))
    ensures TriageRoute(cfg, query, present, RunFailed(message, "ENOENT"), parse, content, decode, now).status == 503
    ensures AnswerAsWritten(WithFallback(cfg, query, present, TriageFlag, RunFailed(message, "ENOENT"), parse,
                                         TriageOf(DecodedLines(ContentLines(content), decode), now)), now).status == 404
  {
    RouteFlagsValid();
    BvMissingSaysNotFound();
  }

  /** `{tracks, executionOrder, parallelizable, timestamp}` of an empty plan. */
  datatype Plan<J> = PlanFromBv(output: J) | EmptyPlan(timestamp: string)

  /** GET /plan: `bv`'s plan, or an empty plan whenever `bv` fails. */
  function PlanRoute<J>(cfg: Config, query: string, present: string -> bool, run: BvRun,
                        parse: string -> Result<J, string>, now: string): (reply: Reply<Plan<J>>)
    ensures ValidateProjectPath(query, cfg.roots, cfg.defaultPath, cfg.cwd, present).Success? &&
            CheckBeadsDirectory(ValidateProjectPath(query, cfg.roots, cfg.defaultPath, cfg.cwd, present).value, present).Success? ==>
              reply.status == 200 && reply.body.success
    ensures reply.status == 200 && ExecBvCommand(PlanFlag, run, parse).Failure? ==>
              reply.body.data == Some(EmptyPlan(now))
    ensures Located(cfg, query, present) && ExecBvCommand(PlanFlag, run, parse).Success? ==>
              reply.body.data == Some(PlanFromBv(ExecBvCommand(PlanFlag, run, parse).value))
    ensures !Located(cfg, query, present) ==> reply.status >= 404 && !reply.body.success
  {
    var r := match ValidateProjectPath(query, cfg.roots, cfg.defaultPath, cfg.cwd, present)
      case Failure(e) => Failure(e)
      case Success(projectPath) =>
        match CheckBeadsDirectory(projectPath, present)
        case Failure(e) => Failure(e)
        case Success(_) =>
          match ExecBvCommand(PlanFlag, run, parse)
          case Success(v) => Success(PlanFromBv(v))
          case Failure(_) => Success(EmptyPlan(now));
    ClassifyOutcomes(if r.Failure? then r.error else "");
    Answer(r, now)
  }
}
