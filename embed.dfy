// The embedded dashboard handler: a request for a static asset (a path with
// one of the known file extensions) is served as it is; every other path is
// a client-side route of the single-page app and is rewritten to "/", so
// that the file server answers with index.html.
module Embed {
  import opened Strs

  /** The extensions that mark a path as a static asset, in the order they are tried. */
  const Extensions: seq<string> := [
    ".html", ".css", ".js", ".json",
    ".png", ".jpg", ".jpeg", ".gif", ".svg", ".ico", ".webp",
    ".woff", ".woff2", ".ttf", ".eot",
    ".mp3", ".wav", ".ogg",
    ".mp4", ".webm",
    ".map", ".txt", ".xml"
  ]

  /** The path ends with one of the listed extensions. */
  predicate HasExtension(path: string)
  {
    exists k :: 0 <= k < |Extensions| && HasSuffix(path, Extensions[k])
  }

  /** `hasFileExtension`: tries the extensions in turn and stops at the first that ends the path. */
  method HasFileExtension(path: string) returns (b: bool)
    ensures b <==> HasExtension(path)
  {
    var i := 0;
    while i < |Extensions|
      invariant 0 <= i <= |Extensions|
      invariant forall k :: 0 <= k < i ==> !HasSuffix(path, Extensions[k])
    {
      if HasSuffix(path, Extensions[i]) {
        return true;
      }
      i := i + 1;
    }
    return false;
  }

  /** Every listed extension starts with a dot. */
  lemma ExtensionsStartWithDot()
    ensures forall k :: 0 <= k < |Extensions| ==> |Extensions[k]| >= 2 && Extensions[k][0] == '.'
  {
  }

  /** A path with no dot in it is never a static asset. */
  lemma NoDotNoExtension(path: string)
    requires '.' !in path
    ensures !HasExtension(path)
  {
    ExtensionsStartWithDot();
  }

  /** A path ending in any listed extension is a static asset. */
  lemma ListedExtensionsAreAssets(stem: string, k: nat)
    requires k < |Extensions|
    ensures HasExtension(stem + Extensions[k])
  {
    var p := stem + Extensions[k];
    assert p[|p| - |Extensions[k]|..] == Extensions[k];
  }

  /** The path the file server is asked for: the request's own for a static asset, "/" for anything else. */
  function ServedPath(path: string): (r: string)
    ensures path != "/" && HasExtension(path) ==> r == path
    ensures path == "/" || !HasExtension(path) ==> r == "/"
  {
    if path != "/" && HasExtension(path) then path else "/"
  }

  /** Rewriting is idempotent: the path served is served as itself. */
  lemma ServedPathIdempotent(path: string)
    ensures ServedPath(ServedPath(path)) == ServedPath(path)
  {
  }

  /** A client-side route such as "/files" or "/sessions/abc" gets index.html. */
  lemma RoutesGetIndex(path: string)
    requires '.' !in path
    ensures ServedPath(path) == "/"
  {
    NoDotNoExtension(path);
  }

  /** The request URL the handler rewrites in place. */
  class RequestUrl {
    var path: string

    constructor (path: string)
      ensures this.path == path
    {
      this.path := path;
    }
  }

  /**
   * The dashboard `Handler`: a static asset is passed on unchanged,
   * anything else has its path set to "/" first; `asset` says which.
   */
  method Handle(url: RequestUrl) returns (asset: bool)
    modifies url
    ensures asset <==> old(url.path) != "/" && HasExtension(old(url.path))
    ensures url.path == ServedPath(old(url.path))
    ensures asset ==> url.path == old(url.path)
  {
    var path := url.path;
    if path != "/" {
      var ext := HasFileExtension(path);
      if ext {
        return true;
      }
    }
    url.path := "/";
    return false;
  }
}
