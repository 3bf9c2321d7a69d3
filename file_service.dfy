// The file browser's client-side service: file name sanitising for uploads,
// the mapping from an HTTP status to a typed error, the user-facing error
// messages, the paths it builds and the checks on a directory listing. The
// network is a parameter: a request is answered by a `Response` value, or
// the `fetch` rejects.
module FileService {
  import opened Strs
  import opened Wrappers
  import Radix

  const ApiBase := "/api/files"

  /** `FileErrorCode`. */
  datatype ErrorCode = Network | NotFound | Permission | Conflict | Invalid | Server | Storage

  /** `FileOperationError`: a message, a code and, for HTTP failures, the status. */
  datatype FileError = FileError(message: string, code: ErrorCode, status: Option<int>)

  /** What a `fetch` gave back: only the status matters here. */
  datatype Response = Response(status: int)

  /**
   * What a `fetch` call gave: an answer, or a rejection carrying the thrown
   * `Error`'s message (`None` when what was thrown is not an `Error`).
   */
  datatype Fetched = Answered(response: Response) | Rejected(thrown: Option<string>)

  /** `response.ok`. */
  predicate Ok(r: Response)
  {
    200 <= r.status <= 299
  }

  /** A control character: U+0000 to U+001F, or U+007F. */
  predicate IsControl(c: char)
  {
    c as int <= 0x1f || c as int == 0x7f
  }

  /** A non-empty run of dots. */
  predicate OnlyDots(s: string)
  {
    |s| > 0 && forall i :: 0 <= i < |s| ==> s[i] == '.'
  }

  const SeparatorMessage := "Invalid filename: path separators and \"..\" are not allowed"
  const ControlMessage := "Invalid filename: control characters are not allowed"
  const EmptyMessage := "Invalid filename: name cannot be empty"
  const DotsMessage := "Invalid filename: \".\" and \"..\" are not allowed"

  /**
   * `sanitizeFilename`: refuses, in this order, separators and "..",
   * control characters, a blank name and a name of dots only; otherwise
   * the name with surrounding white space trimmed.
   */
  function SanitizeFilename(name: string): (r: Result<string, FileError>)
    ensures r.Success? <==>
              '/' !in name && '\\' !in name && !Contains(name, "..") &&
              (forall i :: 0 <= i < |name| ==> !IsControl(name[i])) &&
              Trim(name) != "" && !OnlyDots(Trim(name))
    ensures r.Success? ==> r.value == Trim(name)
    ensures r.Failure? ==> r.error.code == Invalid && r.error.status == None
  {
    if '/' in name || '\\' in name || Contains(name, "..") then
      Failure(FileError(SeparatorMessage, Invalid, None))
    else if exists i :: 0 <= i < |name| && IsControl(name[i]) then
      Failure(FileError(ControlMessage, Invalid, None))
    else
      var trimmed := Trim(name);
      if trimmed == "" then Failure(FileError(EmptyMessage, Invalid, None))
      else if OnlyDots(trimmed) then Failure(FileError(DotsMessage, Invalid, None))
      else Success(trimmed)
  }

  /**
   * A sanitised name is a single, real path component: not empty, not "."
   * or "..", with no separator and no control character in it.
   */
  lemma SanitizedIsComponent(name: string)
    requires SanitizeFilename(name).Success?
    ensures var n := SanitizeFilename(name).value;
            n != "" && n != "." && n != ".." && '/' !in n && '\\' !in n &&
            forall i :: 0 <= i < |n| ==> !IsControl(n[i])
  {
    var n := Trim(name);
    TrimDrops(name);
    var a := |name| - |TrimLeft(name)|;
    forall i | 0 <= i < |n|
      ensures n[i] == name[a + i]
    {
    }
  }

  /** "../x", "a/b" and "." are refused, each with its own message. */
  lemma SanitizeRefuses()
    ensures SanitizeFilename("../x") == Failure(FileError(SeparatorMessage, Invalid, None))
    ensures SanitizeFilename("a/b") == Failure(FileError(SeparatorMessage, Invalid, None))
    ensures SanitizeFilename(".") == Failure(FileError(DotsMessage, Invalid, None))
  {
    assert HasPrefix("../x", "..");
    assert "a/b"[1] == '/';
    assert !Contains(".", "..");
    assert OnlyDots(".");
  }

  /** A string without the first character of `sub` does not contain `sub`. */
  lemma {:induction false} NotContainsFirst(s: string, sub: string)
    requires sub != [] && sub[0] !in s
    ensures !Contains(s, sub)
    decreases |s|
  {
    if |s| > 0 {
      NotContainsFirst(s[1..], sub);
    }
  }

  /**
   * A name of ordinary characters (no dot, separator, control character
   * or white space at its ends) is accepted exactly as it is.
   */
  lemma SanitizeAcceptsPlain(name: string)
    requires name != [] && '.' !in name && '/' !in name && '\\' !in name
    requires forall i :: 0 <= i < |name| ==> !IsControl(name[i])
    requires !IsSpace(name[0]) && !IsSpace(name[|name| - 1])
    ensures SanitizeFilename(name) == Success(name)
  {
    NotContainsFirst(name, "..");
    TrimNoSpace(name);
  }

  /**
   * `throwForStatus(response, context)`: nothing for a 2xx status; 403,
   * 404, 409, 413 and 507 have fixed errors; any other status is a server
   * error whose message is the context and the status.
   */
  function StatusError(r: Response, context: string): (e: Option<FileError>)
    ensures e.None? <==> Ok(r)
    ensures e.Some? ==> e.value.status == Some(r.status)
    ensures e.Some? && r.status == 403 ==> e.value.code == Permission
    ensures e.Some? && r.status == 404 ==> e.value.code == NotFound
    ensures e.Some? && r.status == 409 ==> e.value.code == Conflict
    ensures e.Some? && (r.status == 413 || r.status == 507) ==> e.value.code == Storage
    ensures e.Some? && r.status !in {403, 404, 409, 413, 507} ==>
              e.value == FileError(context + ": " + Radix.FormatInt(r.status, 10), Server, Some(r.status))
  {
    if Ok(r) then None
    else if r.status == 403 then Some(FileError("Permission denied", Permission, Some(403)))
    else if r.status == 404 then Some(FileError("File not found", NotFound, Some(404)))
    else if r.status == 409 then Some(FileError("Already exists", Conflict, Some(409)))
    else if r.status == 413 then Some(FileError("File too large", Storage, Some(413)))
    else if r.status == 507 then Some(FileError("Insufficient storage", Storage, Some(507)))
    else Some(FileError(context + ": " + Radix.FormatInt(r.status, 10), Server, Some(r.status)))
  }

  /**
   * The catch block around every `fetch`: code NETWORK with no status, and
   * the `Error`'s own message or "Network error".
   */
  function NetworkError(thrown: Option<string>): (e: FileError)
    ensures e.code == Network && e.status == None
    ensures thrown.Some? ==> e.message == thrown.value
    ensures thrown.None? ==> e.message == "Network error"
  {
    FileError(if thrown.Some? then thrown.value else "Network error", Network, None)
  }

  /** What `getErrorMessage` may be handed: a file error, another `Error`, or anything else. */
  datatype Thrown = FileOp(error: FileError) | OtherError(message: string) | NotAnError

  /**
   * `getErrorMessage(error, context)`: a fixed message per code, with the
   * not-found and conflict wording depending on the operation and the
   * storage wording on the status.
   */
  function ErrorMessage(t: Thrown, context: string): (m: string)
    ensures t.OtherError? ==> m == t.message
    ensures t.NotAnError? ==> m == "An unexpected error occurred"
    ensures t.FileOp? && t.error.code == Invalid ==> m == t.error.message
    ensures t.FileOp? && t.error.code == Permission ==> m == "Permission denied"
    ensures t.FileOp? && t.error.code == NotFound ==>
              m == if context == "rename" then "File not found" else "Path not found"
    ensures t.FileOp? && t.error.code == Conflict ==>
              m == if context == "create" then "Folder already exists" else "Destination already exists"
    ensures t.FileOp? && t.error.code == Storage ==>
              m == if t.error.status == Some(413) then "File too large" else "Insufficient storage"
    ensures t.FileOp? && t.error.code == Network ==> m == "Network error - check your connection"
    ensures t.FileOp? && t.error.code == Server ==> m == "Server error (" + StatusText(t.error.status) + ")"
  {
    match t
    case FileOp(e) => (
      match e.code
      case Permission => "Permission denied"
      case NotFound => if context == "rename" then "File not found" else "Path not found"
      case Conflict => if context == "create" then "Folder already exists" else "Destination already exists"
      case Storage => if e.status == Some(413) then "File too large" else "Insufficient storage"
      case Invalid => e.message
      case Network => "Network error - check your connection"
      case Server => "Server error (" + StatusText(e.status) + ")")
    case OtherError(message) => message
    case NotAnError => "An unexpected error occurred"
  }

  /** A status as a template literal shows it; a missing one reads "undefined". */
  function StatusText(status: Option<int>): string
  {
    if status.Some? then Radix.FormatInt(status.value, 10) else "undefined"
  }

  /**
   * What the user reads after a failed request: a missing item on rename
   * is a file, elsewhere a path; a 409 on create is a folder that exists;
   * other unexpected statuses name the status.
   */
  lemma StatusMessages(context: string, status: int)
    ensures ErrorMessage(FileOp(StatusError(Response(404), context).value), "rename") == "File not found"
    ensures ErrorMessage(FileOp(StatusError(Response(404), context).value), "fetch") == "Path not found"
    ensures ErrorMessage(FileOp(StatusError(Response(409), context).value), "create") == "Folder already exists"
    ensures ErrorMessage(FileOp(StatusError(Response(413), context).value), context) == "File too large"
    ensures ErrorMessage(FileOp(StatusError(Response(507), context).value), context) == "Insufficient storage"
    ensures status == 500 ==>
              ErrorMessage(FileOp(StatusError(Response(status), context).value), context) == "Server error (500)"
  {
    if status == 500 {
      assert Radix.FormatInt(500, 10) == "500" by {
        assert Radix.FormatNat(500, 10) == Radix.FormatNat(50, 10) + [Radix.DigitChar(0)];
        assert Radix.FormatNat(50, 10) == Radix.FormatNat(5, 10) + [Radix.DigitChar(0)];
      }
    }
  }

  /** `path.startsWith('/') ? path : '/' + path`. */
  function CleanPath(path: string): (r: string)
    ensures HasPrefix(r, "/")
    ensures HasPrefix(path, "/") ==> r == path
    ensures !HasPrefix(path, "/") ==> r == "/" + path
  {
    if HasPrefix(path, "/") then path else "/" + path
  }

  /** Cleaning a clean path changes nothing. */
  lemma CleanPathIdempotent(path: string)
    ensures CleanPath(CleanPath(path)) == CleanPath(path)
  {
  }

  /** An item's path inside `dir`: "/name" at the root, "dir/name" elsewhere. */
  function ChildPath(dir: string, name: string): (r: string)
    ensures dir == "/" ==> r == "/" + name
    ensures dir != "/" ==> r == dir + "/" + name
  {
    if dir == "/" then "/" + name else dir + "/" + name
  }

  /** Inside a clean directory, a child path starts with "/", sits under the directory and ends with "/" and the name. */
  lemma ChildPathUnder(dir: string, name: string)
    requires HasPrefix(dir, "/")
    ensures var r := ChildPath(dir, name);
            HasPrefix(r, "/") && HasPrefix(r, dir) && HasSuffix(r, "/" + name)
  {
    var r := ChildPath(dir, name);
    if dir != "/" {
      assert r == dir + ("/" + name);
      assert r[..|dir|] == dir;
      assert r[..1] == dir[..1];
    }
  }

  /** `getDownloadUrl(path)`. */
  function DownloadUrl(path: string): (url: string)
    ensures |url| == |path| + 27
    ensures HasPrefix(url, ApiBase + "/raw") && HasSuffix(url, "?inline=false")
    ensures url[14..|url| - 13] == path
  {
    var url := ApiBase + "/raw" + path + "?inline=false";
    assert url[..|ApiBase + "/raw"|] == ApiBase + "/raw";
    assert url[|url| - |"?inline=false"|..] == "?inline=false";
    url
  }

  /** One entry of a directory listing as the server sends it. */
  datatype RawItem = RawItem(name: string, size: int, modified: string, isDir: bool, kind: string)

  /** A listing entry with the path the client gives it. */
  datatype FileItem = FileItem(name: string, size: int, modified: string, isDir: bool, kind: string, path: string)

  /**
   * The parsed body of a listing: not JSON at all, JSON that is not an
   * object, or an object with an optional `isDir` and an optional `items`
   * array (`None` also stands for an `items` that is not an array).
   */
  datatype Body = Unparsable | NotObject | Listing(isDir: Option<bool>, items: Option<seq<RawItem>>)

  /**
   * `fetchDirectory(path)`: a rejected request is a network error; an
   * answered one goes through the status check, then the shape checks, then
   * every entry is given its path under the clean directory path.
   */
  function FetchDirectory(path: string, f: Fetched, body: Body): (result: Result<seq<FileItem>, FileError>)
    ensures result.Success? <==>
              f.Answered? && Ok(f.response) && body.Listing? && body.isDir != Some(false) && body.items.Some?
    ensures f.Rejected? ==> result == Failure(NetworkError(f.thrown))
    ensures f.Answered? && !Ok(f.response) ==>
              result == Failure(StatusError(f.response, "Failed to fetch directory").value)
    ensures f.Answered? && Ok(f.response) && body.Listing? && body.isDir == Some(false) ==>
              result == Failure(FileError("Path is not a directory", Invalid, None))
    ensures result.Success? ==>
              |result.value| == |body.items.value| &&
              forall k :: 0 <= k < |result.value| ==>
                result.value[k].name == body.items.value[k].name &&
                result.value[k].isDir == body.items.value[k].isDir &&
                result.value[k].path == ChildPath(CleanPath(path), body.items.value[k].name)
  {
    var cleanPath := CleanPath(path);
    if f.Rejected? then Failure(NetworkError(f.thrown))
    else if !Ok(f.response) then Failure(StatusError(f.response, "Failed to fetch directory").value)
    else
      match body
      case Unparsable => Failure(FileError("Invalid server response", Invalid, None))
      case NotObject => Failure(FileError("Invalid directory response", Invalid, None))
      case Listing(isDir, items) =>
        if isDir == Some(false) then Failure(FileError("Path is not a directory", Invalid, None))
        else if items.None? then Failure(FileError("Invalid directory response", Invalid, None))
        else
          var raw := items.value;
          Success(seq(|raw|, k requires 0 <= k < |raw| =>
            FileItem(raw[k].name, raw[k].size, raw[k].modified, raw[k].isDir, raw[k].kind, ChildPath(cleanPath, raw[k].name))))
  }

  /**
   * `createFolder`: a rejected request is a network error, a 409 says the
   * folder exists, other failures go through `throwForStatus`.
   */
  function CreateFolderError(f: Fetched): (e: Option<FileError>)
    ensures e.None? <==> f.Answered? && Ok(f.response)
    ensures f.Rejected? ==> e == Some(NetworkError(f.thrown))
    ensures f.Answered? && f.response.status == 409 ==>
              e == Some(FileError("Folder already exists", Conflict, Some(409)))
    ensures f.Answered? && f.response.status != 409 ==> e == StatusError(f.response, "Failed to create folder")
  {
    match f
    case Rejected(thrown) => Some(NetworkError(thrown))
    case Answered(r) =>
      if r.status == 409 then Some(FileError("Folder already exists", Conflict, Some(409)))
      else StatusError(r, "Failed to create folder")
  }

  /**
   * `renameItem`: a rejected request is a network error, a 409 says the
   * destination exists, other failures go through `throwForStatus`.
   */
  function RenameError(f: Fetched): (e: Option<FileError>)
    ensures e.None? <==> f.Answered? && Ok(f.response)
    ensures f.Rejected? ==> e == Some(NetworkError(f.thrown))
    ensures f.Answered? && f.response.status == 409 ==>
              e == Some(FileError("Destination already exists", Conflict, Some(409)))
    ensures f.Answered? && f.response.status != 409 ==> e == StatusError(f.response, "Failed to rename")
  {
    match f
    case Rejected(thrown) => Some(NetworkError(thrown))
    case Answered(r) =>
      if r.status == 409 then Some(FileError("Destination already exists", Conflict, Some(409)))
      else StatusError(r, "Failed to rename")
  }

  /** An answered upload's failure, if any: 413 and 507 first, then `throwForStatus`. */
  function UploadError(r: Response, safeName: string): (e: Option<FileError>)
    ensures e.None? <==> Ok(r)
    ensures e.Some? ==> e.value.code != Network
  {
    if r.status == 413 then Some(FileError("File too large", Storage, Some(413)))
    else if r.status == 507 then Some(FileError("Insufficient storage", Storage, Some(507)))
    else StatusError(r, "Failed to upload " + safeName)
  }

  /**
   * One upload: the sanitised name's path under `dir`, or why it failed.
   * `fetch` stands for what the POST of a path gave.
   */
  function UploadStep(dir: string, name: string, fetch: string -> Fetched): (r: Result<string, FileError>)
    ensures r.Success? ==> SanitizeFilename(name).Success? && r.value == ChildPath(dir, SanitizeFilename(name).value)
    ensures SanitizeFilename(name).Failure? ==> r.Failure? && r.error == SanitizeFilename(name).error
    ensures SanitizeFilename(name).Success? ==>
              var safe := SanitizeFilename(name).value;
              var f := fetch(ChildPath(dir, safe));
              (f.Rejected? ==> r == Failure(NetworkError(f.thrown))) &&
              (f.Answered? ==> (r.Success? <==> Ok(f.response))) &&
              (f.Answered? && !Ok(f.response) ==> r == Failure(UploadError(f.response, safe).value))
  {
    match SanitizeFilename(name)
    case Failure(e) => Failure(e)
    case Success(safe) =>
      var full := ChildPath(dir, safe);
      match fetch(full)
      case Rejected(thrown) => Failure(NetworkError(thrown))
      case Answered(resp) =>
        match UploadError(resp, safe)
        case Some(e) => Failure(e)
        case None => Success(full)
  }

  /**
   * The outcome of uploading `names` into `dir`, one after the other: the
   * paths written before the first failure and that failure, if any.
   * `fetch` stands for what the POST of a path gave.
   */
  function UploadOutcome(dir: string, names: seq<string>, fetch: string -> Fetched): (o: (seq<string>, Option<FileError>))
    ensures |o.0| <= |names|
    ensures o.1.None? ==> |o.0| == |names|
    ensures forall k :: 0 <= k < |o.0| ==>
              SanitizeFilename(names[k]).Success? && o.0[k] == ChildPath(dir, SanitizeFilename(names[k]).value)
  {
    if names == [] then ([], None)
    else
      match UploadStep(dir, names[0], fetch)
      case Failure(e) => ([], Some(e))
      case Success(full) =>
        var rest := UploadOutcome(dir, names[1..], fetch);
        assert forall k :: 1 <= k < |names| ==> names[k] == names[1..][k - 1];
        ([full] + rest.0, rest.1)
  }

  /**
   * Every path sent is the result of a successful upload step, and an error
   * is the error of the step for the first name not sent.
   */
  lemma {:induction false} UploadOutcomeSteps(dir: string, names: seq<string>, fetch: string -> Fetched)
    ensures var o := UploadOutcome(dir, names, fetch);
            forall k :: 0 <= k < |o.0| ==> UploadStep(dir, names[k], fetch) == Success(o.0[k])
    ensures var o := UploadOutcome(dir, names, fetch);
            o.1.Some? ==>
              |o.0| < |names| && UploadStep(dir, names[|o.0|], fetch).Failure? &&
              o.1 == Some(UploadStep(dir, names[|o.0|], fetch).error)
  {
    if names != [] && UploadStep(dir, names[0], fetch).Success? {
      UploadOutcomeSteps(dir, names[1..], fetch);
      assert forall k :: 1 <= k < |names| ==> names[k] == names[1..][k - 1];
    }
  }

  /** `uploadFiles(dir, files)`: the loop that stops at the first refused name, rejected or failed request. */
  method UploadFiles(dir: string, names: seq<string>, fetch: string -> Fetched)
    returns (sent: seq<string>, error: Option<FileError>)
    ensures (sent, error) == UploadOutcome(dir, names, fetch)
  {
    sent := [];
    error := None;
    var i := 0;
    assert names[0..] == names;
    while i < |names|
      invariant 0 <= i <= |names|
      invariant UploadOutcome(dir, names, fetch).0 == sent + UploadOutcome(dir, names[i..], fetch).0
      invariant UploadOutcome(dir, names, fetch).1 == UploadOutcome(dir, names[i..], fetch).1
    {
      assert names[i..][1..] == names[i + 1..];
      var step := UploadStep(dir, names[i], fetch);
      if step.Failure? {
        error := Some(step.error);
        assert sent + [] == sent;
        return;
      }
      sent := sent + [step.value];
      i := i + 1;
    }
    assert names[|names|..] == [];
    assert sent + [] == sent;
  }

  /** A refused name stops the uploads before any request for it or for the names after it. */
  lemma RefusedNameStopsUploads(dir: string, names: seq<string>, fetch: string -> Fetched, k: nat)
    requires k < |names| && SanitizeFilename(names[k]).Failure?
    ensures |UploadOutcome(dir, names, fetch).0| <= k
    ensures UploadOutcome(dir, names, fetch).1.Some?
    decreases k
  {
    if k > 0 && UploadStep(dir, names[0], fetch).Success? {
      assert names[1..][k - 1] == names[k];
      RefusedNameStopsUploads(dir, names[1..], fetch, k - 1);
    }
  }

  /**
   * A rejected request stops the uploads with a network error: the names
   * before it are sent and nothing after it is.
   */
  lemma {:induction false} RejectedFetchStopsUploads(dir: string, names: seq<string>, fetch: string -> Fetched, k: nat)
    requires k < |names| && SanitizeFilename(names[k]).Success?
    requires fetch(ChildPath(dir, SanitizeFilename(names[k]).value)).Rejected?
    requires forall j :: 0 <= j < k ==> UploadStep(dir, names[j], fetch).Success?
    ensures |UploadOutcome(dir, names, fetch).0| == k
    ensures UploadOutcome(dir, names, fetch).1 ==
              Some(NetworkError(fetch(ChildPath(dir, SanitizeFilename(names[k]).value)).thrown))
    decreases k
  {
    if k > 0 {
      assert names[1..][k - 1] == names[k];
      assert forall j :: 0 <= j < k - 1 ==> names[1..][j] == names[j + 1];
      RejectedFetchStopsUploads(dir, names[1..], fetch, k - 1);
    }
  }

  /**
   * An answered POST that is not 2xx stops the uploads with its upload
   * error: the names before it are sent and nothing after it is.
   */
  lemma {:induction false} FailedReplyStopsUploads(dir: string, names: seq<string>, fetch: string -> Fetched, k: nat)
    requires k < |names| && SanitizeFilename(names[k]).Success?
    requires fetch(ChildPath(dir, SanitizeFilename(names[k]).value)).Answered?
    requires !Ok(fetch(ChildPath(dir, SanitizeFilename(names[k]).value)).response)
    requires forall j :: 0 <= j < k ==> UploadStep(dir, names[j], fetch).Success?
    ensures |UploadOutcome(dir, names, fetch).0| == k
    ensures UploadOutcome(dir, names, fetch).1 ==
              Some(UploadError(fetch(ChildPath(dir, SanitizeFilename(names[k]).value)).response,
                               SanitizeFilename(names[k]).value).value)
    decreases k
  {
    if k > 0 {
      assert names[1..][k - 1] == names[k];
      assert forall j :: 0 <= j < k - 1 ==> names[1..][j] == names[j + 1];
      FailedReplyStopsUploads(dir, names[1..], fetch, k - 1);
    }
  }
}
