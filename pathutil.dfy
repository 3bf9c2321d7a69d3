// Configuration and project-path validation of the Go server's `core`
// package: the allowed roots read once from the environment, the check that
// a project path lies under one of them, and the working directory and
// launch scripts with their defaults. Environment values, the working
// directory and whether a path exists are parameters.
module PathUtil {
  import opened Strs
  import opened Wrappers
  import opened PathClean

  /** `defaultAllowedRoots`. */
  const DefaultAllowedRoots: seq<string> := ["/code", "/vault"]

  /** The roots a `CHROTE_ROOTS` value configures: its comma-separated fields, trimmed; the defaults when it is unset. */
  function RootsFromEnv(env: string): (roots: seq<string>)
    ensures env == "" ==> roots == DefaultAllowedRoots
    ensures env != "" ==> |roots| == |Split(env, ',')|
  {
    if env == "" then DefaultAllowedRoots
    else
      var parts := Split(env, ',');
      seq(|parts|, i requires 0 <= i < |parts| => Trim(parts[i]))
  }

  /** A configured root is trimmed and holds no comma. */
  lemma RootsFromEnvClean(env: string)
    requires env != ""
    ensures forall i :: 0 <= i < |RootsFromEnv(env)| ==>
              RootsFromEnv(env)[i] == Trim(RootsFromEnv(env)[i]) && ',' !in RootsFromEnv(env)[i]
  {
    var parts := Split(env, ',');
    SplitNoSep(env, ',');
    forall i | 0 <= i < |parts|
      ensures Trim(parts[i]) == Trim(Trim(parts[i])) && ',' !in Trim(parts[i])
    {
      TrimIdempotent(parts[i]);
      TrimDrops(parts[i]);
    }
  }

  /** Writing trimmed, comma-free roots as a comma list configures exactly those roots. */
  lemma RootsFromEnvJoin(roots: seq<string>)
    requires roots != [] && roots != [""]
    requires forall i :: 0 <= i < |roots| ==> Bare(roots[i])
    ensures RootsFromEnv(Join(roots, ",")) == roots
  {
    var env := Join(roots, ",");
    SplitJoin(roots, ',');
    if |roots| == 1 {
      assert env == roots[0];
    } else {
      JoinCons(roots, ",");
    }
    RootsOfBareFields(env, roots);
  }

  /** Fields that are already bare come through the trimming unchanged. */
  lemma RootsOfBareFields(env: string, parts: seq<string>)
    requires env != "" && Split(env, ',') == parts
    requires forall i :: 0 <= i < |parts| ==> Bare(parts[i])
    ensures RootsFromEnv(env) == parts
  {
    RootsFromEnvFields(env);
    var r := RootsFromEnv(env);
    forall i | 0 <= i < |parts|
      ensures r[i] == parts[i]
    {
      TrimNoSpace(parts[i]);
    }
  }

  /** A field that survives a comma list unchanged: no comma, no white space at either end. */
  predicate Bare(s: string)
  {
    ',' !in s && (s == [] || (!IsSpace(s[0]) && !IsSpace(s[|s| - 1])))
  }

  lemma RootsFromEnvFields(env: string)
    requires env != ""
    ensures forall i :: 0 <= i < |Split(env, ',')| ==> RootsFromEnv(env)[i] == Trim(Split(env, ',')[i])
  {
  }

  /** The package-level once-only cache of the allowed roots. */
  class RootsConfig {
    var loaded: bool
    var roots: seq<string>

    constructor()
      ensures !loaded && roots == []
    {
      loaded := false;
      roots := [];
    }

    /**
     * `GetAllowedRoots`: the first call reads the environment value `env`
     * (split on commas, each field trimmed in place), later calls return
     * what the first one stored.
     */
    method GetAllowedRoots(env: string) returns (r: seq<string>)
      modifies this
      ensures loaded
      ensures old(loaded) ==> roots == old(roots)
      ensures !old(loaded) ==> roots == RootsFromEnv(env)
      ensures r == roots
    {
      if !loaded {
        if env != "" {
          roots := Split(env, ',');
          var i := 0;
          while i < |roots|
            invariant 0 <= i <= |roots| == |Split(env, ',')|
            invariant forall k :: 0 <= k < i ==> roots[k] == Trim(Split(env, ',')[k])
            invariant forall k :: i <= k < |roots| ==> roots[k] == Split(env, ',')[k]
          {
            roots := roots[i := Trim(roots[i])];
            i := i + 1;
          }
        } else {
          roots := DefaultAllowedRoots;
        }
        loaded := true;
      }
      r := roots;
    }

    /** `ResetConfigForTesting`: the next read loads the environment again. */
    method Reset()
      modifies this
      ensures !loaded && roots == []
    {
      loaded := false;
      roots := [];
    }
  }

  /** `filepath.Join` of two elements: empty elements are dropped, the rest joined by "/" and cleaned. */
  function JoinPath(a: string, b: string): (r: string)
    ensures a != "" && a[0] == '/' ==> r != "" && r[0] == '/'
  {
    if a == "" && b == "" then ""
    else if a == "" then Clean(b)
    else if b == "" then CleanKeepsRoot(a); Clean(a)
    else CleanKeepsRoot(a + "/" + b); Clean(a + "/" + b)
  }

  /**
   * `filepath.Abs`: an absolute path is cleaned; a relative one is joined to
   * the working directory, which `os.Getwd` may fail to report.
   */
  function Abs(p: string, wd: Result<string, string>): (r: Result<string, string>)
    ensures p != "" && p[0] == '/' ==> r == Success(Clean(p))
    ensures r.Failure? <==> (p == "" || p[0] != '/') && wd.Failure?
  {
    if p != "" && p[0] == '/' then Success(Clean(p))
    else if wd.Failure? then Failure(wd.error)
    else Success(JoinPath(wd.value, p))
  }

  /** The root-boundary test: the root itself, or below it after a "/". */
  predicate RootAllows(resolved: string, absRoot: string)
  {
    resolved == absRoot || HasPrefix(resolved, absRoot + "/")
  }

  /** `absRoot, _ := filepath.Abs(root)` as written: a failed `Abs` leaves the empty string. */
  function AbsRootAsWritten(root: string, wd: Result<string, string>): string
  {
    match Abs(root, wd)
    case Success(a) => a
    case Failure(_) => ""
  }

  /** The root loop as written: some root's (possibly empty) absolute form admits the path. */
  predicate AllowedAsWritten(resolved: string, roots: seq<string>, wd: Result<string, string>)
  {
    exists i :: 0 <= i < |roots| && RootAllows(resolved, AbsRootAsWritten(roots[i], wd))
  }

  /** The root loop with a root whose absolute form cannot be computed skipped. */
  predicate Allowed(resolved: string, roots: seq<string>, wd: Result<string, string>)
  {
    exists i :: 0 <= i < |roots| && Abs(roots[i], wd).Success? && RootAllows(resolved, Abs(roots[i], wd).value)
  }

  /**
   * When the working directory is unknown, a relative root such as "code"
   * admits every absolute path as written: its absolute form is "" and every
   * absolute path starts with "" + "/". With the failed root skipped, nothing
   * is admitted.
   */
  lemma RelativeRootFailsOpen(resolved: string, err: string)
    requires resolved != "" && resolved[0] == '/'
    ensures AllowedAsWritten(resolved, ["code"], Failure(err))
    ensures !Allowed(resolved, ["code"], Failure(err))
  {
    assert AbsRootAsWritten(["code"][0], Failure(err)) == "";
    assert HasPrefix(resolved, "" + "/");
  }

  /**
   * With the failed roots skipped, a path is admitted only by a root whose
   * absolute form exists; without a working directory that is an absolute root.
   */
  lemma AllowedNeedsAbsoluteRoot(resolved: string, roots: seq<string>, err: string)
    requires Allowed(resolved, roots, Failure(err))
    ensures exists i :: 0 <= i < |roots| && roots[i] != "" && roots[i][0] == '/' && RootAllows(resolved, Clean(roots[i]))
  {
  }

  /** The root loop of `ValidateProjectPath`, stopping at the first root that admits the path. */
  method IsAllowed(resolved: string, roots: seq<string>, wd: Result<string, string>) returns (isAllowed: bool)
    ensures isAllowed <==> Allowed(resolved, roots, wd)
  {
    isAllowed := false;
    var i := 0;
    while i < |roots|
      invariant 0 <= i <= |roots|
      invariant forall k :: 0 <= k < i ==> !(Abs(roots[k], wd).Success? && RootAllows(resolved, Abs(roots[k], wd).value))
    {
      var absRoot := Abs(roots[i], wd);
      if absRoot.Success? && RootAllows(resolved, absRoot.value) {
        isAllowed := true;
        break;
      }
      i := i + 1;
    }
  }

  /** The `(resolved, code, message)` triple `ValidateProjectPath` returns. */
  datatype Validation = Validation(path: string, code: string, message: string)

  /**
   * `ValidateProjectPath`: empty input, an unresolvable path, a path outside
   * every root and a missing path are refused in that order; `missing` is
   * whether `os.Stat` reported that the path does not exist.
   */
  method ValidateProjectPath(inputPath: string, roots: seq<string>, wd: Result<string, string>, missing: bool)
    returns (v: Validation)
    ensures inputPath == "" ==> v == Validation("", "BAD_REQUEST", "Missing required parameter: path")
    ensures inputPath != "" && Abs(inputPath, wd).Failure? ==>
              v == Validation("", "BAD_REQUEST", "Invalid path: " + Abs(inputPath, wd).error)
    ensures v.code == "FORBIDDEN" <==>
              inputPath != "" && Abs(inputPath, wd).Success? && !Allowed(Abs(inputPath, wd).value, roots, wd)
    ensures v.code == "NOT_FOUND" <==>
              inputPath != "" && Abs(inputPath, wd).Success? && Allowed(Abs(inputPath, wd).value, roots, wd) && missing
    ensures v.code == "" <==>
              inputPath != "" && Abs(inputPath, wd).Success? && Allowed(Abs(inputPath, wd).value, roots, wd) && !missing
    ensures v.code == "FORBIDDEN" ==>
              v.message == "Project path not in allowed roots: " + Abs(inputPath, wd).value + ". Allowed: " + Join(roots, ", ")
    ensures v.code == "NOT_FOUND" ==> v.message == "Project path does not exist: " + Abs(inputPath, wd).value
    ensures v.code == "" ==> v.message == "" && v.path == Abs(inputPath, wd).value
    ensures v.code != "" ==> v.path == ""
  {
    if inputPath == "" {
      return Validation("", "BAD_REQUEST", "Missing required parameter: path");
    }
    var resolved := Abs(inputPath, wd);
    if resolved.Failure? {
      return Validation("", "BAD_REQUEST", "Invalid path: " + resolved.error);
    }
    var isAllowed := IsAllowed(resolved.value, roots, wd);
    if !isAllowed {
      return Validation("", "FORBIDDEN",
        "Project path not in allowed roots: " + resolved.value + ". Allowed: " + Join(roots, ", "));
    }
    if missing {
      return Validation("", "NOT_FOUND", "Project path does not exist: " + resolved.value);
    }
    return Validation(resolved.value, "", "");
  }

  /** A root that is "/" followed by one plain name, as both default roots are. */
  predicate SimpleRoot(root: string)
  {
    |root| >= 2 && root[0] == '/' && Plain(root[1..])
  }

  lemma DefaultRootsSimple()
    ensures forall i :: 0 <= i < |DefaultAllowedRoots| ==> SimpleRoot(DefaultAllowedRoots[i])
  {
  }

  /** A simple root is its own absolute form. */
  lemma SimpleRootAbs(root: string, wd: Result<string, string>)
    requires SimpleRoot(root)
    ensures Abs(root, wd) == Success(root)
  {
    CleanCanonical([root[1..]]);
    assert Join([root[1..]], "/") == root[1..];
    assert root == "/" + root[1..];
  }

  /**
   * With simple roots, a single name under "/" that is not a root is
   * refused, even one that begins like a root ("/code-evil" with "/code").
   */
  lemma SiblingRejected(name: string, roots: seq<string>, wd: Result<string, string>)
    requires Plain(name)
    requires forall i :: 0 <= i < |roots| ==> SimpleRoot(roots[i])
    requires "/" + name !in roots
    ensures !Allowed("/" + name, roots, wd)
  {
    forall i | 0 <= i < |roots|
      ensures !RootAllows("/" + name, Abs(roots[i], wd).value)
    {
      SimpleRootAbs(roots[i], wd);
      SiblingNotUnder(name, roots[i]);
    }
  }

  lemma SiblingNotUnder(name: string, root: string)
    requires Plain(name) && SimpleRoot(root) && "/" + name != root
    ensures !RootAllows("/" + name, root)
  {
    if |root| + 1 <= |"/" + name| {
      assert ("/" + name)[|root|] == name[|root| - 1] != '/';
    }
  }

  /** A simple root admits itself and everything below it. */
  lemma BelowRootAllowed(roots: seq<string>, i: int, tail: string, wd: Result<string, string>)
    requires 0 <= i < |roots| && SimpleRoot(roots[i])
    ensures Allowed(roots[i], roots, wd)
    ensures Allowed(roots[i] + "/" + tail, roots, wd)
  {
    SimpleRootAbs(roots[i], wd);
    assert RootAllows(roots[i], Abs(roots[i], wd).value);
    assert (roots[i] + "/" + tail)[..|roots[i]| + 1] == roots[i] + "/";
    assert RootAllows(roots[i] + "/" + tail, Abs(roots[i], wd).value);
  }

  /** An environment value, or the default when it is unset. */
  function EnvOr(value: string, default: string): (r: string)
    ensures default != "" ==> r != ""
    ensures value != "" ==> r == value
    ensures value == "" ==> r == default
  {
    if value != "" then value else default
  }

  /** `GetWorkDir`: `CHROTE_WORKDIR`, else the first allowed root, else "/code". */
  function GetWorkDir(workdirEnv: string, roots: seq<string>): (r: string)
    ensures workdirEnv == "" ==> r in roots || (roots == [] && r == "/code")
    ensures workdirEnv != "" ==> r == workdirEnv
  {
    if workdirEnv != "" then workdirEnv
    else if |roots| > 0 then roots[0]
    else "/code"
  }

  /** With neither variable set the working directory is "/code", which the roots admit. */
  lemma DefaultWorkDir(wd: Result<string, string>)
    ensures GetWorkDir("", RootsFromEnv("")) == "/code"
    ensures Allowed(GetWorkDir("", RootsFromEnv("")), RootsFromEnv(""), wd)
  {
    DefaultRootsSimple();
    BelowRootAllowed(DefaultAllowedRoots, 0, "", wd);
  }

  /** `GetLaunchScript`: `CHROTE_LAUNCH_SCRIPT`, else the installed terminal launcher. */
  function GetLaunchScript(env: string): (r: string)
    ensures r != "" && (env != "" ==> r == env)
  {
    EnvOr(env, "/usr/local/bin/terminal-launch.sh")
  }

  /** `GetBvLaunchScript`: `CHROTE_BV_LAUNCH_SCRIPT`, else the installed beads-viewer launcher. */
  function GetBvLaunchScript(env: string): (r: string)
    ensures r != "" && (env != "" ==> r == env)
  {
    EnvOr(env, "/usr/local/bin/bv-launch.sh")
  }
}
