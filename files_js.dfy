// The file API of the Node server (`file-routes.js`): the same allowed roots
// and handler guards as the Go file API, but the request path goes through
// Node's `path.normalize` (which keeps a trailing "/") and `path.resolve`,
// and no character is rewritten before matching. The path handed in is the
// one `decodeURIComponent` produced.
module FilesJs {
  import opened Strs
  import opened Wrappers
  import opened PathClean
  import opened FilesGo

  /** `requestPath || '/'`: the empty path stands for the root. */
  function Decoded(requestPath: string): (d: string)
    ensures d != ""
    ensures requestPath != "" ==> d == requestPath
  {
    if requestPath == "" then "/" else requestPath
  }

  /**
   * `resolveSafePath`: normalize, find the first root the path equals or lies
   * below, then resolve (a matched path is absolute, so `path.resolve` is
   * `Clean`) and check the result still starts with the root's text.
   */
  function ResolveSafePath(requestPath: string): (r: PathResult)
    ensures r.RootListing? <==>
              FirstRoot(AllowedRoots, Normalize(Decoded(requestPath))).None?
              && Normalize(Decoded(requestPath)) in ["/", ""]
    ensures r == Rejected("Path not allowed") <==>
              FirstRoot(AllowedRoots, Normalize(Decoded(requestPath))).None?
              && Normalize(Decoded(requestPath)) !in ["/", ""]
    ensures r.Resolved? ==> r.root in AllowedRoots && HasPrefix(r.path, r.root)
  {
    var normalized := Normalize(Decoded(requestPath));
    match FirstRoot(AllowedRoots, normalized)
    case None =>
      if normalized == "/" || normalized == "" then RootListing else Rejected("Path not allowed")
    case Some(root) =>
      var resolved := Clean(normalized);
      if !HasPrefix(resolved, root) then Rejected("Path traversal detected")
      else Resolved(resolved, root)
  }

  /** `path.normalize` keeps an absolute path absolute and a relative one relative. */
  lemma NormalizeKeepsRoot(p: string)
    requires p != ""
    ensures Normalize(p) != ""
    ensures Normalize(p)[0] == '/' <==> p[0] == '/'
  {
    if p[0] == '/' {
      NormalizeRooted(p);
      CleanKeepsRoot(p);
    } else {
      CleanRelative(p);
      var kept := Kept(p);
      if kept != [] {
        assert Element(kept[0]);
        JoinHead(kept, "/");
      }
    }
  }

  /**
   * On an absolute path, `path.normalize` is `Clean` with the trailing "/"
   * kept, and resolving the normalized path gives `Clean` of the original.
   */
  lemma NormalizeThenResolve(p: string)
    requires p != "" && p[0] == '/'
    ensures Clean(Normalize(p)) == Clean(p)
    ensures Normalize(p) == Clean(p) || (Normalize(p) == Clean(p) + "/" && Clean(p) != "/")
  {
    NormalizeRooted(p);
    CleanRooted(p);
    var kept := Kept(p);
    if p[|p| - 1] == '/' && kept != [] {
      CleanCanonicalTrailing(kept);
      assert Plain(kept[0]);
      JoinHead(kept, "/");
    } else {
      CleanCanonical(kept);
      assert Normalize(p) == Clean(p);
    }
  }

  /** A trailing "/" does not change which root a path lies under. */
  lemma UnderRootSlash(c: string, root: string)
    requires root != "" && root[|root| - 1] != '/'
    ensures UnderRoot(c + "/", root) <==> UnderRoot(c, root)
  {
    if UnderRoot(c, root) {
      if c == root {
        assert (c + "/")[..|root| + 1] == root + "/";
      } else {
        assert (c + "/")[..|root| + 1] == c[..|root| + 1];
      }
    }
    if UnderRoot(c + "/", root) {
      assert (c + "/")[|c|] == '/';
      if |c| == |root| {
        assert c == (c + "/")[..|root|];
      } else if |c| > |root| {
        assert c[..|root| + 1] == (c + "/")[..|root| + 1];
      }
    }
  }

  /** Every allowed root is absolute and does not end in "/". */
  lemma RootsWellFormed()
    ensures forall i :: 0 <= i < |AllowedRoots| ==>
              AllowedRoots[i] != "" && AllowedRoots[i][0] == '/' && AllowedRoots[i][|AllowedRoots[i]| - 1] != '/'
  {
  }

  /** Matching `c + "/"` finds the same root as matching `c`. */
  lemma {:induction false} FirstRootSlash(roots: seq<string>, c: string)
    requires forall i :: 0 <= i < |roots| ==> roots[i] != "" && roots[i][|roots[i]| - 1] != '/'
    ensures FirstRoot(roots, c + "/") == FirstRoot(roots, c)
  {
    if roots != [] {
      UnderRootSlash(c, roots[0]);
      FirstRootSlash(roots[1..], c);
    }
  }

  /** A path under a root starts with the root's text. */
  lemma UnderRootPrefix(path: string, root: string)
    requires UnderRoot(path, root)
    ensures HasPrefix(path, root)
  {
    if path != root {
      assert path[..|root|] == path[..|root| + 1][..|root|];
    }
  }

  /**
   * The traversal check is dead code: whatever matched a root still lies
   * under it after `path.resolve`, so `resolveSafePath` never answers
   * "Path traversal detected", and what it resolves stays inside the root.
   */
  lemma {:induction false} ResolvedIsContained(requestPath: string)
    ensures ResolveSafePath(requestPath) != Rejected("Path traversal detected")
    ensures ResolveSafePath(requestPath).Resolved? ==>
              UnderRoot(ResolveSafePath(requestPath).path, ResolveSafePath(requestPath).root)
              && Contained(ResolveSafePath(requestPath).path)
  {
    var decoded := Decoded(requestPath);
    var normalized := Normalize(decoded);
    var m := FirstRoot(AllowedRoots, normalized);
    if m.Some? {
      var root := m.value;
      RootsWellFormed();
      UnderRootStart(normalized, root);
      NormalizeKeepsRoot(decoded);
      NormalizeThenResolve(decoded);
      var resolved := Clean(normalized);
      if normalized != Clean(decoded) {
        UnderRootSlash(Clean(decoded), root);
      }
      assert UnderRoot(resolved, root);
      UnderRootPrefix(resolved, root);
      assert ResolveSafePath(requestPath) == Resolved(resolved, root);
    }
  }

  /**
   * On an absolute path without "\", the Node resolver and the corrected Go
   * resolver give the same answer.
   */
  lemma AgreesWithGo(p: string)
    requires p != "" && p[0] == '/' && '\\' !in p
    ensures ResolveSafePath(p) == FilesGo.ResolveSafePath(p)
  {
    CleanNoChar('\\', p);
    ReplaceAbsent(Clean(p), '\\', '/');
    assert FilesGo.Normalized(p) == Clean(p);
    CleanKeepsRoot(p);
    NormalizeThenResolve(p);
    RootsWellFormed();
    if Normalize(p) != Clean(p) {
      FirstRootSlash(AllowedRoots, Clean(p));
    }
    assert FirstRoot(AllowedRoots, Normalize(p)) == FirstRoot(AllowedRoots, Clean(p));
    ResolvedIsContained(p);
    CleanIdempotent(p);
    ReplaceAbsent(Clean(Clean(p)), '\\', '/');
  }

  /** `root.slice(1)`: the root's name without its first character. */
  function SliceFirst(root: string): string
  {
    if root == "" then "" else root[1..]
  }

  /** The virtual root listing: one directory entry per root, named without its leading "/". */
  function RootItems(roots: seq<string>, now: string): (items: seq<FileItem>)
    ensures |items| == |roots|
    ensures forall i :: 0 <= i < |roots| ==> items[i].isDir && items[i].size == 0 && items[i].modified == now
  {
    seq(|roots|, i requires 0 <= i < |roots| => FileItem(SliceFirst(roots[i]), 0, now, true, ""))
  }

  /** Each listed name, with "/" put back in front, is its root; the names agree with the Go listing. */
  lemma RootItemsName(roots: seq<string>, now: string)
    requires forall i :: 0 <= i < |roots| ==> roots[i] != "" && roots[i][0] == '/'
    ensures forall i :: 0 <= i < |roots| ==> "/" + RootItems(roots, now)[i].name == roots[i]
    ensures forall i :: 0 <= i < |roots| ==> RootItems(roots, now)[i].name == TrimPrefix(roots[i], "/")
  {
    forall i | 0 <= i < |roots|
      ensures "/" + RootItems(roots, now)[i].name == roots[i]
      ensures RootItems(roots, now)[i].name == TrimPrefix(roots[i], "/")
    {
      assert roots[i] == "/" + roots[i][1..];
      assert HasPrefix(roots[i], "/");
    }
  }

  // ---- The route handlers ----

  /** `GET /resources/<path>`: the root listing, a directory listing or a file description. */
  function GetResource(pathVal: string, stat: Stat, readErr: Option<string>): (r: Reply)
    ensures r.Failed? && r.status == 403 <==> ResolveSafePath("/" + pathVal).Rejected?
    ensures r == Done(ListRoots) <==> ResolveSafePath("/" + pathVal).RootListing?
    ensures r.Done? ==> EffectContained(r.effect)
  {
    var result := ResolveSafePath("/" + pathVal);
    match result
    case Rejected(e) => Failed(403, "FORBIDDEN", e)
    case RootListing => Done(ListRoots)
    case Resolved(path, _) =>
      ResolvedIsContained("/" + pathVal);
      match stat
      case Missing => Failed(404, "NOT_FOUND", "Not found")
      case StatFailed(m) => Internal(m)
      case Directory => if readErr.Some? then Internal(readErr.value) else Done(ListDirectory(path))
      case RegularFile => Done(DescribeFile(path))
  }

  /** `POST /resources/<path>`: a path ending in "/" makes that directory; any other writes the file. */
  function CreateResource(pathVal: string, mkdirErr: Option<string>, writeErr: Option<string>): (r: Reply)
    ensures r.Failed? && r.status == 403 <==> !ResolveSafePath("/" + pathVal).Resolved?
    ensures ResolveSafePath("/" + pathVal).RootListing? ==> r == Failed(403, "FORBIDDEN", "Cannot create at root")
    ensures r.Done? ==> EffectContained(r.effect)
    ensures r.Done? ==> (r.effect.MakeDirectory? <==> HasSuffix("/" + pathVal, "/"))
  {
    var requestPath := "/" + pathVal;
    var result := ResolveSafePath(requestPath);
    if !result.Resolved? then Refusal(result, "Cannot create at root")
    else
      ResolvedIsContained(requestPath);
      if HasSuffix(requestPath, "/") then
        if mkdirErr.Some? then Internal(mkdirErr.value) else Done(MakeDirectory(result.path))
      else if mkdirErr.Some? then Internal(mkdirErr.value)
      else if writeErr.Some? then Internal(writeErr.value)
      else Done(WriteFile(result.path))
  }

  /**
   * `PATCH /resources/<path>`: the body's fields, a missing one read as "" (a
   * body that is not an object has neither).
   */
  function RenameResource(pathVal: string, body: RenameRequest, renameErr: Option<string>): (r: Reply)
    ensures !ResolveSafePath("/" + pathVal).Resolved? ==>
              r == Refusal(ResolveSafePath("/" + pathVal), "Cannot rename root")
    ensures r == Failed(400, "BAD_REQUEST", "Invalid request") <==>
              ResolveSafePath("/" + pathVal).Resolved? && (body.action != "rename" || body.destination == "")
    ensures r == Failed(403, "FORBIDDEN", "Invalid destination") <==>
              ResolveSafePath("/" + pathVal).Resolved? && body.action == "rename" && body.destination != ""
              && !ResolveSafePath(body.destination).Resolved?
    ensures r.Done? ==> r.effect.Move? && EffectContained(r.effect)
  {
    var result := ResolveSafePath("/" + pathVal);
    if !result.Resolved? then Refusal(result, "Cannot rename root")
    else if body.action != "rename" || body.destination == "" then
      Failed(400, "BAD_REQUEST", "Invalid request")
    else
      var dest := ResolveSafePath(body.destination);
      if !dest.Resolved? then Failed(403, "FORBIDDEN", "Invalid destination")
      else if renameErr.Some? then Internal(renameErr.value)
      else
        ResolvedIsContained("/" + pathVal);
        ResolvedIsContained(body.destination);
        Done(Move(result.path, dest.path))
  }

  /** `DELETE /resources/<path>`: a directory is removed with its contents, a file on its own. */
  function DeleteResource(pathVal: string, stat: Stat, removeErr: Option<string>): (r: Reply)
    ensures r.Failed? && r.status == 403 <==> !ResolveSafePath("/" + pathVal).Resolved?
    ensures ResolveSafePath("/" + pathVal).RootListing? ==> r == Failed(403, "FORBIDDEN", "Cannot delete root")
    ensures r.Done? ==> EffectContained(r.effect)
    ensures r.Done? ==> (r.effect.RemoveTree? <==> stat == Directory)
  {
    var result := ResolveSafePath("/" + pathVal);
    if !result.Resolved? then Refusal(result, "Cannot delete root")
    else
      ResolvedIsContained("/" + pathVal);
      match stat
      case Missing => Failed(404, "NOT_FOUND", "Not found")
      case StatFailed(m) => Internal(m)
      case Directory => if removeErr.Some? then Internal(removeErr.value) else Done(RemoveTree(result.path))
      case RegularFile => if removeErr.Some? then Internal(removeErr.value) else Done(RemoveFile(result.path))
  }

  /** `GET /raw/<path>`: only a regular file is served. */
  function DownloadFile(pathVal: string, stat: Stat): (r: Reply)
    ensures r.Failed? && r.status == 403 <==> !ResolveSafePath("/" + pathVal).Resolved?
    ensures ResolveSafePath("/" + pathVal).RootListing? ==> r == Failed(403, "FORBIDDEN", "Cannot download root")
    ensures r.Done? ==> r.effect.ServeFile? && EffectContained(r.effect) && stat == RegularFile
    ensures ResolveSafePath("/" + pathVal).Resolved? && stat == Directory ==>
              r == Failed(400, "BAD_REQUEST", "Cannot download directory")
  {
    var result := ResolveSafePath("/" + pathVal);
    if !result.Resolved? then Refusal(result, "Cannot download root")
    else
      ResolvedIsContained("/" + pathVal);
      match stat
      case Missing => Failed(404, "NOT_FOUND", "Not found")
      case StatFailed(m) => Internal(m)
      case Directory => Failed(400, "BAD_REQUEST", "Cannot download directory")
      case RegularFile => Done(ServeFile(result.path))
  }
}
