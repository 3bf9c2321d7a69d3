// The file API of the Go server (`FilesHandler`): resolving a requested path
// against the allowed roots, the virtual root listing, and the guards of the
// get, create, rename, delete and download handlers. The file system is a
// parameter: what `os.Stat` found and whether each file operation failed.
module FilesGo {
  import opened Strs
  import opened Wrappers
  import opened PathClean

  /** The roots `NewFilesHandler` allows, in the order they are tried. */
  const AllowedRoots: seq<string> := ["/code", "/vault"]

  /** `PathResult`: a resolved path with its root, the virtual root, or an error. */
  datatype PathResult = Resolved(path: string, root: string) | RootListing | Rejected(error: string)

  /** A path is the root itself or lies below it. */
  predicate UnderRoot(path: string, root: string)
  {
    path == root || HasPrefix(path, root + "/")
  }

  /** The path lies under one of the allowed roots. */
  predicate Contained(path: string)
  {
    exists i :: 0 <= i < |AllowedRoots| && UnderRoot(path, AllowedRoots[i])
  }

  /** The first root, in order, that `normalized` lies under. */
  function FirstRoot(roots: seq<string>, normalized: string): (m: Option<string>)
    ensures m.None? <==> forall i :: 0 <= i < |roots| ==> !UnderRoot(normalized, roots[i])
    ensures m.Some? ==> m.value in roots && UnderRoot(normalized, m.value)
  {
    if roots == [] then None
    else if UnderRoot(normalized, roots[0]) then Some(roots[0])
    else
      var m := FirstRoot(roots[1..], normalized);
      assert forall i :: 1 <= i < |roots| ==> roots[i] == roots[1..][i - 1];
      m
  }

  /** The root loop of `resolveSafePath`: the first root that matches, then `break`. */
  method MatchRoot(roots: seq<string>, normalized: string) returns (matched: Option<string>)
    ensures matched == FirstRoot(roots, normalized)
  {
    matched := None;
    var i := 0;
    while i < |roots|
      invariant 0 <= i <= |roots|
      invariant FirstRoot(roots, normalized) == FirstRoot(roots[i..], normalized)
    {
      if UnderRoot(normalized, roots[i]) {
        matched := Some(roots[i]);
        break;
      }
      assert roots[i..][1..] == roots[i + 1..];
      i := i + 1;
    }
    if i == |roots| {
      assert roots[i..] == [];
    }
  }

  /** The request path as `resolveSafePath` matches it: "" is "/", then `Clean`, then "\" becomes "/". */
  function Normalized(requestPath: string): string
  {
    var decoded := if requestPath == "" then "/" else requestPath;
    ReplaceChar(Clean(decoded), '\\', '/')
  }

  /**
   * `resolveSafePath` as written: the path found under a root is cleaned again
   * (`filepath.Abs` of an absolute path) and then only has to start with the
   * root's text.
   */
  function ResolveSafePathAsWritten(requestPath: string): (r: PathResult)
  {
    var normalized := Normalized(requestPath);
    match FirstRoot(AllowedRoots, normalized)
    case None =>
      if normalized == "/" || normalized == "." then RootListing else Rejected("Path not allowed")
    case Some(root) =>
      var resolved := ReplaceChar(Clean(normalized), '\\', '/');
      if !HasPrefix(resolved, root) then Rejected("Path traversal detected")
      else Resolved(resolved, root)
  }

  /**
   * `resolveSafePath` with the final check made the same root-boundary test
   * as the match: the resolved path must be the root or lie below it.
   */
  function ResolveSafePath(requestPath: string): (r: PathResult)
    ensures r.Resolved? ==> r.root in AllowedRoots && UnderRoot(r.path, r.root)
    ensures r.RootListing? <==>
              FirstRoot(AllowedRoots, Normalized(requestPath)).None? && Normalized(requestPath) in ["/", "."]
    ensures r == Rejected("Path not allowed") <==>
              FirstRoot(AllowedRoots, Normalized(requestPath)).None? && Normalized(requestPath) !in ["/", "."]
  {
    var normalized := Normalized(requestPath);
    match FirstRoot(AllowedRoots, normalized)
    case None =>
      if normalized == "/" || normalized == "." then RootListing else Rejected("Path not allowed")
    case Some(root) =>
      var resolved := ReplaceChar(Clean(normalized), '\\', '/');
      if !UnderRoot(resolved, root) then Rejected("Path traversal detected")
      else Resolved(resolved, root)
  }

  /** A path that matched an allowed root is rooted. */
  lemma MatchedIsRooted(normalized: string)
    requires FirstRoot(AllowedRoots, normalized).Some?
    ensures |normalized| > 0 && normalized[0] == '/'
  {
    var root := FirstRoot(AllowedRoots, normalized).value;
    assert root in AllowedRoots;
    AllowedRootsAbsolute(root);
    UnderRootStart(normalized, root);
  }

  /** A path under a non-empty root starts with the root's first character. */
  lemma UnderRootStart(path: string, root: string)
    requires UnderRoot(path, root) && root != ""
    ensures path != "" && path[0] == root[0]
  {
    if path != root {
      assert path[..|root| + 1] == root + "/";
      assert path[0] == path[..|root| + 1][0];
    }
  }

  /** Every allowed root is an absolute path. */
  lemma AllowedRootsAbsolute(root: string)
    requires root in AllowedRoots
    ensures |root| > 0 && root[0] == '/'
  {
  }

  /** `Normalized` leaves no "\" behind. */
  lemma NormalizedNoBackslash(requestPath: string)
    ensures '\\' !in Normalized(requestPath)
  {
  }

  /**
   * A resolved path is its root or lies below it, and it is canonical: "/"
   * and plain elements, with no ".." left to climb out with.
   */
  lemma ResolvedIsContained(requestPath: string)
    requires ResolveSafePath(requestPath).Resolved?
    ensures var r := ResolveSafePath(requestPath);
            Contained(r.path) && UnderRoot(r.path, r.root)
            && r.path == "/" + Join(Kept(r.path), "/") && AllPlain(Kept(r.path))
            && Clean(r.path) == r.path
  {
    var normalized := Normalized(requestPath);
    var r := ResolveSafePath(requestPath);
    MatchedIsRooted(normalized);
    NormalizedNoBackslash(requestPath);
    CleanNoChar('\\', normalized);
    ReplaceAbsent(Clean(normalized), '\\', '/');
    assert r.path == Clean(normalized);
    CleanRooted(normalized);
    CleanCanonical(Kept(normalized));
    assert r.root == AllowedRoots[0] || r.root == AllowedRoots[1];
  }

  /** Without a "\" in the request, the written and the corrected resolver agree. */
  lemma AgreesWithoutBackslash(requestPath: string)
    requires '\\' !in requestPath
    ensures ResolveSafePath(requestPath) == ResolveSafePathAsWritten(requestPath)
    ensures ResolveSafePath(requestPath) != Rejected("Path traversal detected")
  {
    var decoded := if requestPath == "" then "/" else requestPath;
    var normalized := Normalized(requestPath);
    CleanNoChar('\\', decoded);
    ReplaceAbsent(Clean(decoded), '\\', '/');
    assert normalized == Clean(decoded);
    if FirstRoot(AllowedRoots, normalized).Some? {
      var root := FirstRoot(AllowedRoots, normalized).value;
      MatchedIsRooted(normalized);
      CleanKeepsRoot(decoded);
      CleanIdempotent(decoded);
      assert Clean(normalized) == normalized;
      ReplaceAbsent(normalized, '\\', '/');
      assert UnderRoot(normalized, root);
      assert HasPrefix(normalized, root) by {
        if normalized != root {
          assert normalized[..|root|] == (root + "/")[..|root|];
        }
      }
    }
  }

  /** `ReplaceChar` works piece by piece. */
  lemma ReplaceConcat(x: string, y: string, from: char, to: char)
    ensures ReplaceChar(x + y, from, to) == ReplaceChar(x, from, to) + ReplaceChar(y, from, to)
  {
  }

  /** The text "/a\..\b" after "" becomes "/". */
  lemma ReplaceBackslashes(a: string, b: string)
    requires '\\' !in a && '\\' !in b
    ensures ReplaceChar("/" + (a + "\\" + (".." + "\\" + b)), '\\', '/') == "/" + (a + "/" + (".." + "/" + b))
  {
    var x := "/" + (a + "\\" + (".." + "\\" + b));
    var y := "/" + (a + "/" + (".." + "/" + b));
    var r := ReplaceChar(x, '\\', '/');
    assert |r| == |y|;
    forall i | 0 <= i < |y|
      ensures r[i] == y[i]
    {
      if 1 <= i < 1 + |a| {
        assert x[i] == a[i - 1] && y[i] == a[i - 1];
      } else if i > 4 + |a| {
        assert x[i] == b[i - 5 - |a|] && y[i] == b[i - 5 - |a|];
      }
    }
  }

  /** A single element made of "a\..\b" is plain: "" is not a separator. */
  lemma BackslashedIsPlain(a: string, b: string)
    requires Plain(a) && Plain(b)
    ensures Plain(a + "\\" + (".." + "\\" + b))
    ensures Clean("/" + (a + "\\" + (".." + "\\" + b))) == "/" + (a + "\\" + (".." + "\\" + b))
  {
    var w := a + "\\" + (".." + "\\" + b);
    assert w[0] == a[0];
    assert '/' !in w;
    assert |w| > 2;
    assert Join([w], "/") == w;
    CleanCanonical([w]);
  }

  /**
   * A request for "/a\..\b", with "/a" the first allowed root and plain
   * names `a` and `b` free of "", is matched under "/a" but resolves to "/b":
   * `Clean` keeps the backslashed name whole, the "" to "/" replacement
   * then creates a ".." element, and the second clean climbs out of "/a".
   */
  lemma BackslashClimbsOut(a: string, b: string)
    requires Plain(a) && Plain(b) && '\\' !in a && '\\' !in b
    requires "/" + a == AllowedRoots[0]
    ensures Normalized("/" + (a + "\\" + (".." + "\\" + b))) == "/" + (a + "/" + (".." + "/" + b))
    ensures FirstRoot(AllowedRoots, "/" + (a + "/" + (".." + "/" + b))) == Some("/" + a)
    ensures Clean("/" + (a + "/" + (".." + "/" + b))) == "/" + b
  {
    BackslashedIsPlain(a, b);
    ReplaceBackslashes(a, b);
    var n := "/" + (a + "/" + (".." + "/" + b));
    assert n[..|a| + 2] == "/" + a + "/";
    assert UnderRoot(n, "/" + a);
    CleanUpAndOver(a, b);
  }

  /**
   * So the written resolver accepts "/a\\..\\b" as "/b" under the root "/a"
   * whenever the name `b` merely starts with `a`, although "/b" lies outside
   * "/a"; the corrected resolver refuses it.
   */
  lemma BackslashEscapesRoot(a: string, b: string)
    requires Plain(a) && Plain(b) && '\\' !in a && '\\' !in b
    requires "/" + a == AllowedRoots[0]
    requires HasPrefix(b, a) && b != a
    ensures ResolveSafePathAsWritten("/" + (a + "\\" + (".." + "\\" + b))) == Resolved("/" + b, "/" + a)
    ensures !UnderRoot("/" + b, "/" + a)
    ensures ResolveSafePath("/" + (a + "\\" + (".." + "\\" + b))) == Rejected("Path traversal detected")
  {
    BackslashClimbsOut(a, b);
    ReplaceAbsent("/" + b, '\\', '/');
    assert ("/" + b)[..|"/" + a|] == "/" + a;
    assert ("/" + b)[|a| + 1] == b[|a|] != '/';
  }

  /** "", "/" and "." all name the virtual root of the listing. */
  lemma RootAliases()
    ensures ResolveSafePath("") == RootListing
    ensures ResolveSafePath("/") == RootListing
    ensures ResolveSafePath(".") == RootListing
  {
    CleanCanonical([]);
    assert "/" + Join([], "/") == "/";
    ReplaceAbsent("/", '\\', '/');
    SplitSingle(".", '/');
    assert Fold([], ["."], false) == [];
    assert Clean(".") == ".";
    ReplaceAbsent(".", '\\', '/');
  }

  /**
   * A single name under "/" that is not a root's own name is not allowed,
   * however it begins: "/code-evil" is not under "/code".
   */
  lemma SiblingNotAllowed(name: string)
    requires Plain(name) && '\\' !in name
    requires "/" + name !in AllowedRoots
    ensures ResolveSafePath("/" + name) == Rejected("Path not allowed")
  {
    CleanCanonical([name]);
    assert Join([name], "/") == name;
    ReplaceAbsent("/" + name, '\\', '/');
    forall i | 0 <= i < |AllowedRoots|
      ensures !UnderRoot("/" + name, AllowedRoots[i])
    {
      var root := AllowedRoots[i];
      if |root| + 1 <= |"/" + name| {
        assert ("/" + name)[|root|] == name[|root| - 1] != '/';
      }
    }
  }

  // ---- The handlers ----

  /** One entry of a directory listing; `modified` is the caller's clock reading. */
  datatype FileItem = FileItem(name: string, size: int, modified: string, isDir: bool, kind: string)

  /** `ListRoot`: one directory entry per root, named without its leading "/". */
  method ListRoot(roots: seq<string>, now: string) returns (items: array<FileItem>)
    ensures items.Length == |roots|
    ensures forall i :: 0 <= i < |roots| ==>
              items[i] == FileItem(TrimPrefix(roots[i], "/"), 0, now, true, "")
  {
    items := new FileItem[|roots|];
    var i := 0;
    while i < |roots|
      invariant 0 <= i <= |roots|
      invariant forall k :: 0 <= k < i ==>
                  items[k] == FileItem(TrimPrefix(roots[k], "/"), 0, now, true, "")
    {
      items[i] := FileItem(TrimPrefix(roots[i], "/"), 0, now, true, "");
      i := i + 1;
    }
  }

  /** The names of the listed roots are "code" and "vault". */
  lemma RootItemNames()
    ensures TrimPrefix(AllowedRoots[0], "/") == "code"
    ensures TrimPrefix(AllowedRoots[1], "/") == "vault"
  {
    assert HasPrefix("/code", "/") && HasPrefix("/vault", "/");
  }

  /** What `os.Stat` reported for a resolved path. */
  datatype Stat = Missing | StatFailed(message: string) | Directory | RegularFile

  /** The file-system action a request completed. */
  datatype Effect =
    | ListRoots
    | ListDirectory(path: string)
    | DescribeFile(path: string)
    | MakeDirectory(path: string)
    | WriteFile(path: string)
    | Move(source: string, target: string)
    | RemoveTree(path: string)
    | RemoveFile(path: string)
    | ServeFile(path: string)

  /** A handler's answer: the action it completed, or an error status with a code and message. */
  datatype Reply = Done(effect: Effect) | Failed(status: int, code: string, message: string)

  /** The JSON body of a rename request. */
  datatype RenameRequest = RenameRequest(action: string, destination: string)

  /** Every path the action touches lies under an allowed root. */
  predicate EffectContained(e: Effect)
  {
    match e
    case ListRoots => true
    case Move(source, target) => Contained(source) && Contained(target)
    case ListDirectory(p) => Contained(p)
    case DescribeFile(p) => Contained(p)
    case MakeDirectory(p) => Contained(p)
    case WriteFile(p) => Contained(p)
    case RemoveTree(p) => Contained(p)
    case RemoveFile(p) => Contained(p)
    case ServeFile(p) => Contained(p)
  }

  /** The answer to a failed file operation. */
  function Internal(err: string): Reply
  {
    Failed(500, "INTERNAL", err)
  }

  /** `GetResource`: the root listing, a directory listing or a file description. */
  function GetResource(pathVal: string, stat: Stat, readErr: Option<string>): (r: Reply)
    ensures r.Failed? && r.status == 403 <==> pathVal != "" && ResolveSafePath("/" + pathVal).Rejected?
    ensures r == Done(ListRoots) <==> pathVal == "" || ResolveSafePath("/" + pathVal).RootListing?
    ensures r.Done? ==> EffectContained(r.effect)
  {
    if pathVal == "" then Done(ListRoots)
    else
      match ResolveSafePath("/" + pathVal)
      case Rejected(e) => Failed(403, "FORBIDDEN", e)
      case RootListing => Done(ListRoots)
      case Resolved(path, _) =>
        ResolvedIsContained("/" + pathVal);
        match stat
        case Missing => Failed(404, "NOT_FOUND", "Not found")
        case StatFailed(m) => Internal(m)
        case Directory => if readErr.Some? then Internal(readErr.value) else Done(ListDirectory(path))
        case RegularFile => Done(DescribeFile(path))
  }

  /** The 403 of a mutating handler whose target is an error or the virtual root. */
  function Refusal(result: PathResult, rootMessage: string): Reply
    requires !result.Resolved?
  {
    Failed(403, "FORBIDDEN", if result.RootListing? then rootMessage else result.error)
  }

  /**
   * `CreateResource`: a path ending in "/" makes that directory; any other
   * makes the parent directory and writes the file (`writeErr` covers both
   * reading the body and writing the file).
   */
  function CreateResource(pathVal: string, mkdirErr: Option<string>, writeErr: Option<string>): (r: Reply)
    ensures r.Failed? && r.status == 403 <==> !ResolveSafePath("/" + pathVal).Resolved?
    ensures ResolveSafePath("/" + pathVal).RootListing? ==> r == Failed(403, "FORBIDDEN", "Cannot create at root")
    ensures r.Done? ==> EffectContained(r.effect)
    ensures r.Done? ==> (r.effect.MakeDirectory? <==> HasSuffix("/" + pathVal, "/"))
  {
    var requestPath := "/" + pathVal;
    var result := ResolveSafePath(requestPath);
    if !result.Resolved? then Refusal(result, "Cannot create at root")
    else
      ResolvedIsContained(requestPath);
      if HasSuffix(requestPath, "/") then
        if mkdirErr.Some? then Internal(mkdirErr.value) else Done(MakeDirectory(result.path))
      else if mkdirErr.Some? then Internal(mkdirErr.value)
      else if writeErr.Some? then Internal(writeErr.value)
      else Done(WriteFile(result.path))
  }

  /** `RenameResource`: both the source and the destination must resolve under a root. */
  function RenameResource(pathVal: string, body: Option<RenameRequest>, renameErr: Option<string>): (r: Reply)
    ensures !ResolveSafePath("/" + pathVal).Resolved? ==>
              r == Refusal(ResolveSafePath("/" + pathVal), "Cannot rename root")
    ensures r == Failed(400, "BAD_REQUEST", "Invalid request") <==>
              ResolveSafePath("/" + pathVal).Resolved? && body.Some?
              && (body.value.action != "rename" || body.value.destination == "")
    ensures r == Failed(403, "FORBIDDEN", "Invalid destination") <==>
              ResolveSafePath("/" + pathVal).Resolved? && body.Some?
              && body.value.action == "rename" && body.value.destination != ""
              && !ResolveSafePath(body.value.destination).Resolved?
    ensures r.Done? ==> r.effect.Move? && EffectContained(r.effect)
  {
    var result := ResolveSafePath("/" + pathVal);
    if !result.Resolved? then Refusal(result, "Cannot rename root")
    else if body.None? then Failed(400, "BAD_REQUEST", "Invalid JSON")
    else if body.value.action != "rename" || body.value.destination == "" then
      Failed(400, "BAD_REQUEST", "Invalid request")
    else
      var dest := ResolveSafePath(body.value.destination);
      if !dest.Resolved? then Failed(403, "FORBIDDEN", "Invalid destination")
      else if renameErr.Some? then Internal(renameErr.value)
      else
        ResolvedIsContained("/" + pathVal);
        ResolvedIsContained(body.value.destination);
        Done(Move(result.path, dest.path))
  }

  /** `DeleteResource`: a directory is removed with its contents, a file on its own. */
  function DeleteResource(pathVal: string, stat: Stat, removeErr: Option<string>): (r: Reply)
    ensures r.Failed? && r.status == 403 <==> !ResolveSafePath("/" + pathVal).Resolved?
    ensures ResolveSafePath("/" + pathVal).RootListing? ==> r == Failed(403, "FORBIDDEN", "Cannot delete root")
    ensures r.Done? ==> EffectContained(r.effect)
    ensures r.Done? ==> (r.effect.RemoveTree? <==> stat == Directory)
  {
    var result := ResolveSafePath("/" + pathVal);
    if !result.Resolved? then Refusal(result, "Cannot delete root")
    else
      ResolvedIsContained("/" + pathVal);
      match stat
      case Missing => Failed(404, "NOT_FOUND", "Not found")
      case StatFailed(m) => Internal(m)
      case Directory => if removeErr.Some? then Internal(removeErr.value) else Done(RemoveTree(result.path))
      case RegularFile => if removeErr.Some? then Internal(removeErr.value) else Done(RemoveFile(result.path))
  }

  /** `DownloadFile`: only a regular file is served. */
  function DownloadFile(pathVal: string, stat: Stat): (r: Reply)
    ensures r.Failed? && r.status == 403 <==> !ResolveSafePath("/" + pathVal).Resolved?
    ensures ResolveSafePath("/" + pathVal).RootListing? ==> r == Failed(403, "FORBIDDEN", "Cannot download root")
    ensures r.Done? ==> r.effect.ServeFile? && EffectContained(r.effect) && stat == RegularFile
    ensures ResolveSafePath("/" + pathVal).Resolved? && stat == Directory ==>
              r == Failed(400, "BAD_REQUEST", "Cannot download directory")
  {
    var result := ResolveSafePath("/" + pathVal);
    if !result.Resolved? then Refusal(result, "Cannot download root")
    else
      ResolvedIsContained("/" + pathVal);
      match stat
      case Missing => Failed(404, "NOT_FOUND", "Not found")
      case StatFailed(m) => Internal(m)
      case Directory => Failed(400, "BAD_REQUEST", "Cannot download directory")
      case RegularFile => Done(ServeFile(result.path))
  }
}
