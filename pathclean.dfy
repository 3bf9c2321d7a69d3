// Lexical path cleaning as Go's `path/filepath.Clean` and Node's
// `path.normalize` / `path.resolve` do it on a Unix system: the path is cut at
// every "/", empty and "." elements are dropped, and ".." removes the element
// before it (at the root of a rooted path it is dropped instead). No file
// system is consulted; "\" is an ordinary character.
module PathClean {
  import opened Strs

  /** An element `Clean` can keep: not empty, not ".", and free of "/". */
  predicate Element(seg: string)
  {
    seg != "" && seg != "." && '/' !in seg
  }

  /** An element that names a real child: an `Element` that is not "..". */
  predicate Plain(seg: string)
  {
    Element(seg) && seg != ".."
  }

  predicate AllElements(segs: seq<string>)
  {
    forall k :: 0 <= k < |segs| ==> Element(segs[k])
  }

  predicate AllPlain(segs: seq<string>)
  {
    forall k :: 0 <= k < |segs| ==> Plain(segs[k])
  }

  /** No piece holds the character `c`. */
  predicate NoChar(c: char, segs: seq<string>)
  {
    forall k :: 0 <= k < |segs| ==> c !in segs[k]
  }

  /** One path element applied to the elements kept so far. */
  function Step(kept: seq<string>, seg: string, rooted: bool): (r: seq<string>)
  {
    if seg == "" || seg == "." then kept
    else if seg == ".." then
      if kept != [] && kept[|kept| - 1] != ".." then kept[..|kept| - 1]
      else if rooted then kept
      else kept + [seg]
    else kept + [seg]
  }

  /** The elements kept after applying `segs` in order. */
  function Fold(kept: seq<string>, segs: seq<string>, rooted: bool): (r: seq<string>)
    decreases |segs|
  {
    if segs == [] then kept else Fold(Step(kept, segs[0], rooted), segs[1..], rooted)
  }

  /** The elements `Clean` keeps from `p`. */
  function Kept(p: string): seq<string>
  {
    Fold([], Split(p, '/'), |p| > 0 && p[0] == '/')
  }

  /**
   * `filepath.Clean`: "." for the empty path; a rooted path keeps its leading
   * "/"; a relative path that cancels out entirely becomes ".".
   */
  function Clean(p: string): (r: string)
  {
    if p == "" then "."
    else if p[0] == '/' then "/" + Join(Kept(p), "/")
    else if Kept(p) == [] then "."
    else Join(Kept(p), "/")
  }

  /**
   * Node's `path.normalize` on POSIX: `Clean`, except that a trailing "/" of
   * the input survives (and a relative path that cancels out becomes "./").
   */
  function Normalize(p: string): (r: string)
  {
    if p == "" then "."
    else
      var rooted := p[0] == '/';
      var trailing := p[|p| - 1] == '/';
      var body := Join(Kept(p), "/");
      if body == "" then
        if rooted then "/" else if trailing then "./" else "."
      else (if rooted then "/" else "") + body + (if trailing then "/" else "")
  }

  /** `strings.ReplaceAll` with one-character arguments. */
  function ReplaceChar(s: string, from: char, to: char): (r: string)
    ensures |r| == |s|
    ensures forall i :: 0 <= i < |s| ==> r[i] == (if s[i] == from then to else s[i])
    ensures from != to ==> from !in r
  {
    seq(|s|, i requires 0 <= i < |s| => if s[i] == from then to else s[i])
  }

  /** A string without `from` is left as it is. */
  lemma ReplaceAbsent(s: string, from: char, to: char)
    requires from !in s
    ensures ReplaceChar(s, from, to) == s
  {
  }

  // ---- Split over concatenations ----

  /** Joining two non-empty lists of pieces joins the two joins. */
  lemma {:induction false} JoinConcat(p: seq<string>, q: seq<string>, sep: string)
    requires p != [] && q != []
    ensures Join(p + q, sep) == Join(p, sep) + sep + Join(q, sep)
    decreases |p|
  {
    if |p| == 1 {
      assert (p + q)[1..] == q;
      JoinCons(p + q, sep);
    } else {
      JoinConcat(p[1..], q, sep);
      assert (p + q)[1..] == p[1..] + q;
      JoinCons(p + q, sep);
      JoinCons(p, sep);
    }
  }

  /** Splitting at a separator splits both sides independently. */
  lemma SplitConcat(a: string, sep: char, b: string)
    ensures Split(a + [sep] + b, sep) == Split(a, sep) + Split(b, sep)
  {
    var p, q := Split(a, sep), Split(b, sep);
    JoinSplit(a, sep);
    JoinSplit(b, sep);
    JoinConcat(p, q, [sep]);
    SplitNoSep(a, sep);
    SplitNoSep(b, sep);
    SplitJoin(p + q, sep);
  }

  /** A leading "/" contributes an empty first element. */
  lemma SplitRooted(j: string)
    ensures Split("/" + j, '/') == [""] + Split(j, '/')
  {
    assert "/" + j == [] + ['/'] + j;
    SplitConcat([], '/', j);
    assert Split([], '/') == [[]];
  }

  /** A trailing "/" contributes an empty last element. */
  lemma SplitTrailing(j: string)
    ensures Split(j + "/", '/') == Split(j, '/') + [""]
  {
    assert j + "/" == j + ['/'] + [];
    SplitConcat(j, '/', []);
    assert Split([], '/') == [[]];
  }

  /** A split of a string without separators is the string alone. */
  lemma SplitSingle(a: string, sep: char)
    requires sep !in a
    ensures Split(a, sep) == [a]
  {
    IndexOfAbsent(a, sep);
  }

  // ---- Fold ----

  /** Folding a concatenation is folding its halves one after the other. */
  lemma {:induction false} FoldConcat(kept: seq<string>, a: seq<string>, b: seq<string>, rooted: bool)
    ensures Fold(kept, a + b, rooted) == Fold(Fold(kept, a, rooted), b, rooted)
    decreases |a|
  {
    if a != [] {
      assert (a + b)[0] == a[0];
      assert (a + b)[1..] == a[1..] + b;
      FoldConcat(Step(kept, a[0], rooted), a[1..], b, rooted);
    } else {
      assert a + b == b;
    }
  }

  /** Plain elements are kept as they come. */
  lemma {:induction false} FoldPlain(kept: seq<string>, segs: seq<string>, rooted: bool)
    requires AllPlain(segs)
    ensures Fold(kept, segs, rooted) == kept + segs
    decreases |segs|
  {
    if segs != [] {
      assert Plain(segs[0]);
      FoldPlain(kept + [segs[0]], segs[1..], rooted);
      assert kept + [segs[0]] + segs[1..] == kept + segs;
    }
  }

  /** What `Fold` keeps are elements, and on a rooted path never "..". */
  lemma {:induction false} FoldElements(kept: seq<string>, segs: seq<string>, rooted: bool)
    requires AllElements(kept) && NoChar('/', segs)
    requires rooted ==> AllPlain(kept)
    ensures AllElements(Fold(kept, segs, rooted))
    ensures rooted ==> AllPlain(Fold(kept, segs, rooted))
    decreases |segs|
  {
    if segs != [] {
      assert '/' !in segs[0];
      var next := Step(kept, segs[0], rooted);
      assert AllElements(next) && (rooted ==> AllPlain(next));
      FoldElements(next, segs[1..], rooted);
    }
  }

  /** A character other than "." that no input element holds, no kept element holds either. */
  lemma {:induction false} FoldNoChar(c: char, kept: seq<string>, segs: seq<string>, rooted: bool)
    requires c != '.' && NoChar(c, kept) && NoChar(c, segs)
    ensures NoChar(c, Fold(kept, segs, rooted))
    decreases |segs|
  {
    if segs != [] {
      assert c !in segs[0];
      var next := Step(kept, segs[0], rooted);
      assert ".." == ['.', '.'];
      assert NoChar(c, next);
      FoldNoChar(c, next, segs[1..], rooted);
    }
  }

  /** No piece of a split holds a character the string does not. */
  lemma {:induction false} SplitNoChar(c: char, s: string, sep: char)
    requires c !in s
    ensures NoChar(c, Split(s, sep))
    decreases |s|
  {
    var i := IndexOf(s, sep);
    if i < |s| {
      SplitFirst(s, sep);
      assert c !in s[i + 1..];
      SplitNoChar(c, s[i + 1..], sep);
      var r := Split(s, sep);
      forall k | 0 <= k < |r|
        ensures c !in r[k]
      {
        if k > 0 {
          assert r[k] == r[1..][k - 1];
        } else {
          assert c !in s[..i];
        }
      }
    } else {
      assert Split(s, sep) == [s];
    }
  }

  /** A join holds no character that neither the pieces nor the separator hold. */
  lemma {:induction false} JoinNoChar(c: char, parts: seq<string>, sep: string)
    requires NoChar(c, parts) && c !in sep
    ensures c !in Join(parts, sep)
    decreases |parts|
  {
    if |parts| > 1 {
      assert c !in parts[0];
      JoinNoChar(c, parts[1..], sep);
    } else if |parts| == 1 {
      assert c !in parts[0];
    }
  }

  // ---- Clean ----

  /**
   * A rooted path cleans to "/" followed by plain elements joined with "/":
   * nothing empty, no "." and no "..".
   */
  lemma CleanRooted(p: string)
    requires |p| > 0 && p[0] == '/'
    ensures AllPlain(Kept(p))
    ensures Clean(p) == "/" + Join(Kept(p), "/")
  {
    SplitNoSep(p, '/');
    FoldElements([], Split(p, '/'), true);
  }

  /** A relative path cleans to "." or to elements that are neither empty nor ".". */
  lemma CleanRelative(p: string)
    requires p != "" && p[0] != '/'
    ensures AllElements(Kept(p))
    ensures Clean(p) == (if Kept(p) == [] then "." else Join(Kept(p), "/"))
  {
    SplitNoSep(p, '/');
    FoldElements([], Split(p, '/'), false);
  }

  /** Cleaning never adds a character other than "/" and "." to a path. */
  lemma CleanNoChar(c: char, p: string)
    requires c != '/' && c != '.' && c !in p
    ensures c !in Clean(p)
  {
    if p != "" {
      SplitNoChar(c, p, '/');
      FoldNoChar(c, [], Split(p, '/'), |p| > 0 && p[0] == '/');
      JoinNoChar(c, Kept(p), "/");
    }
  }

  /** The elements of a join of plain elements are those elements. */
  lemma SplitPlain(kept: seq<string>)
    requires AllPlain(kept)
    ensures Split(Join(kept, "/"), '/') == (if kept == [] then [""] else kept)
  {
    if kept == [] {
      assert Split([], '/') == [[]];
    } else {
      assert forall k :: 0 <= k < |kept| ==> '/' !in kept[k] by {
        forall k | 0 <= k < |kept| ensures '/' !in kept[k] { assert Plain(kept[k]); }
      }
      SplitJoin(kept, '/');
    }
  }

  /** From nothing, "" and then plain elements keep exactly the plain elements. */
  lemma FoldCanonical(kept: seq<string>)
    requires AllPlain(kept)
    ensures Fold([], [""] + (if kept == [] then [""] else kept), true) == kept
  {
    var mid := if kept == [] then [""] else kept;
    FoldConcat([], [""], mid, true);
    assert Fold([], [""], true) == [];
    if kept != [] {
      FoldPlain([], kept, true);
    }
  }

  /** Cleaning "/" followed by plain elements joined with "/" gives it back. */
  lemma CleanCanonical(kept: seq<string>)
    requires AllPlain(kept)
    ensures Kept("/" + Join(kept, "/")) == kept
    ensures Clean("/" + Join(kept, "/")) == "/" + Join(kept, "/")
  {
    var j := Join(kept, "/");
    var mid := if kept == [] then [""] else kept;
    SplitPlain(kept);
    SplitRooted(j);
    assert Split("/" + j, '/') == [""] + mid;
    FoldCanonical(kept);
    assert ("/" + j)[0] == '/';
  }

  /** The elements of "/" followed by plain elements and a trailing "/". */
  lemma SplitCanonicalTrailing(kept: seq<string>)
    requires AllPlain(kept) && kept != []
    ensures Split("/" + Join(kept, "/") + "/", '/') == [""] + kept + [""]
  {
    var j := Join(kept, "/");
    SplitPlain(kept);
    assert "/" + j + "/" == "/" + (j + "/");
    SplitRooted(j + "/");
    SplitTrailing(j);
  }

  /** The same with a trailing "/", which cleaning drops. */
  lemma CleanCanonicalTrailing(kept: seq<string>)
    requires AllPlain(kept) && kept != []
    ensures Kept("/" + Join(kept, "/") + "/") == kept
    ensures Clean("/" + Join(kept, "/") + "/") == "/" + Join(kept, "/")
  {
    var p := "/" + Join(kept, "/") + "/";
    SplitCanonicalTrailing(kept);
    assert Fold([], [""] + kept + [""], true) == kept by {
      FoldConcat([], [""] + kept, [""], true);
      FoldCanonical(kept);
      assert Fold(kept, [""], true) == kept;
    }
    assert p[0] == '/';
  }

  /** Cleaning is idempotent on rooted paths. */
  lemma CleanIdempotent(p: string)
    requires |p| > 0 && p[0] == '/'
    ensures Clean(Clean(p)) == Clean(p)
  {
    CleanRooted(p);
    CleanCanonical(Kept(p));
  }

  /** The elements of "../b". */
  lemma SplitUpward(b: string)
    requires Plain(b)
    ensures Split(".." + "/" + b, '/') == ["..", b]
  {
    SplitConcat("..", '/', b);
    SplitSingle("..", '/');
    SplitSingle(b, '/');
  }

  /** A plain first element is split off on its own. */
  lemma SplitLeading(a: string, tail: string)
    requires Plain(a)
    ensures Split(a + "/" + tail, '/') == [a] + Split(tail, '/')
  {
    SplitConcat(a, '/', tail);
    SplitSingle(a, '/');
  }

  /** The elements of "/a/../b". */
  lemma SplitUpAndOver(a: string, b: string)
    requires Plain(a) && Plain(b)
    ensures Split("/" + (a + "/" + (".." + "/" + b)), '/') == ["", a, "..", b]
  {
    var tail := ".." + "/" + b;
    SplitRooted(a + "/" + tail);
    SplitLeading(a, tail);
    SplitUpward(b);
  }

  /** Under the root, "a", ".." and "b" keep only "b". */
  lemma FoldUpAndOver(a: string, b: string)
    requires Plain(a) && Plain(b)
    ensures Fold([], ["", a, "..", b], true) == [b]
  {
    assert ["", a, "..", b][1..] == [a, "..", b];
    assert [a, "..", b][1..] == ["..", b];
    assert ["..", b][1..] == [b];
    assert Step([], a, true) == [a];
    assert Step([a], "..", true) == [];
    assert Fold([], [b], true) == [b] by {
      assert [b][1..] == [];
    }
    assert Fold([a], ["..", b], true) == [b];
    assert Fold([], [a, "..", b], true) == [b];
  }

  /** Going up from a plain element and down into another lands in the second. */
  lemma CleanUpAndOver(a: string, b: string)
    requires Plain(a) && Plain(b)
    ensures Clean("/" + (a + "/" + (".." + "/" + b))) == "/" + b
  {
    var p := "/" + (a + "/" + (".." + "/" + b));
    SplitUpAndOver(a, b);
    FoldUpAndOver(a, b);
    assert p[0] == '/';
    assert Kept(p) == [b];
  }

  /**
   * Node's `path.normalize` of a rooted path is `Clean` with the input's
   * trailing "/" kept (the root itself stays "/").
   */
  lemma NormalizeRooted(p: string)
    requires |p| > 0 && p[0] == '/'
    ensures var trailing := p[|p| - 1] == '/';
            Normalize(p) == Clean(p) + (if trailing && Kept(p) != [] then "/" else "")
  {
    CleanRooted(p);
    var kept := Kept(p);
    if kept != [] {
      assert Plain(kept[0]);
      JoinHead(kept, "/");
    }
  }

  /** A join starts with its first piece. */
  lemma JoinHead(parts: seq<string>, sep: string)
    requires parts != [] && parts[0] != ""
    ensures Join(parts, sep) != "" && Join(parts, sep)[0] == parts[0][0]
  {
    if |parts| > 1 {
      JoinCons(parts, sep);
    }
  }

  /** Cleaning keeps a path rooted, and a relative one relative. */
  lemma CleanKeepsRoot(p: string)
    ensures Clean(p) != ""
    ensures p != "" ==> (Clean(p)[0] == '/' <==> p[0] == '/')
    ensures p == "" ==> Clean(p) == "."
  {
    if p != "" && p[0] != '/' {
      CleanRelative(p);
      var kept := Kept(p);
      if kept != [] {
        assert Element(kept[0]);
        JoinHead(kept, "/");
        assert kept[0][0] in kept[0];
      }
    }
  }
}
