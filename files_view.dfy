// The file browser's client-side state: the back/forward history of
// visited directories, going up one level, the filtered and sorted listing,
// the sort header, the selection (plain, ctrl/meta and shift clicks) and the
// decision to submit or cancel a rename.  React's `setState` updates are
// functional, so each one is a function from the old state to the new.
module FilesView {
  import opened Strs
  import opened Wrappers
  import opened Orders
  import opened FileService
  import Windows

  // ---------------------------------------------------------------------
  // Navigation history
  // ---------------------------------------------------------------------

  /** The visited directories and the position of the one on screen. */
  datatype History = History(entries: seq<string>, index: int)

  /** The position always names an entry. */
  predicate HistoryOk(h: History)
  {
    0 <= h.index < |h.entries|
  }

  /** The history the browser starts with: the root alone. */
  const Initial := History(["/"], 0)

  function Current(h: History): string
    requires HistoryOk(h)
  {
    h.entries[h.index]
  }

  /** `navigateTo(path)`: forward entries are dropped, `path` is appended and becomes current. */
  function NavigateTo(h: History, path: string): (r: History)
    requires HistoryOk(h)
    ensures HistoryOk(r) && Current(r) == path
    ensures r.index == h.index + 1 && |r.entries| == h.index + 2
    ensures r.entries[..r.index] == h.entries[..h.index + 1]
  {
    History(h.entries[..h.index + 1] + [path], h.index + 1)
  }

  function CanGoBack(h: History): bool { h.index > 0 }

  function CanGoForward(h: History): bool { h.index < |h.entries| - 1 }

  /** `goBack`: one entry back when there is one, otherwise nothing changes. */
  function GoBack(h: History): (r: History)
    requires HistoryOk(h)
    ensures HistoryOk(r) && r.entries == h.entries
    ensures CanGoBack(h) ==> r.index == h.index - 1
    ensures !CanGoBack(h) ==> r == h
  {
    if h.index > 0 then History(h.entries, h.index - 1) else h
  }

  /** `goForward`: one entry forward when there is one, otherwise nothing changes. */
  function GoForward(h: History): (r: History)
    requires HistoryOk(h)
    ensures HistoryOk(r) && r.entries == h.entries
    ensures CanGoForward(h) ==> r.index == h.index + 1
    ensures !CanGoForward(h) ==> r == h
  {
    if h.index < |h.entries| - 1 then History(h.entries, h.index + 1) else h
  }

  /** After navigating, there is nothing to go forward to, and going back returns to where the browser was. */
  lemma BackAfterNavigate(h: History, path: string)
    requires HistoryOk(h)
    ensures !CanGoForward(NavigateTo(h, path))
    ensures Current(GoBack(NavigateTo(h, path))) == Current(h)
  {
    var r := NavigateTo(h, path);
    assert r.entries[h.index] == r.entries[..r.index][h.index];
  }

  /** Going forward undoes going back, and going back undoes going forward. */
  lemma BackForwardInverse(h: History)
    requires HistoryOk(h)
    ensures CanGoBack(h) ==> GoForward(GoBack(h)) == h
    ensures CanGoForward(h) ==> GoBack(GoForward(h)) == h
  {
  }

  // ---------------------------------------------------------------------
  // Going up
  // ---------------------------------------------------------------------

  /** `.filter(Boolean)` on path pieces: the empty ones dropped. */
  function NonEmpty(parts: seq<string>): (r: seq<string>)
    ensures forall k :: 0 <= k < |r| ==> r[k] != ""
    ensures forall x :: x in r <==> x in parts && x != ""
    ensures (forall k :: 0 <= k < |parts| ==> parts[k] != "") ==> r == parts
  {
    if parts == [] then []
    else if parts[0] == "" then NonEmpty(parts[1..])
    else [parts[0]] + NonEmpty(parts[1..])
  }

  /** The segments of a path: its non-empty pieces between "/". */
  function Segments(path: string): seq<string>
  {
    NonEmpty(Split(path, '/'))
  }

  /** `goUp`: the path without its last segment, or None at the root, where nothing happens. */
  function GoUp(path: string): (r: Option<string>)
    ensures r.None? <==> Segments(path) == []
    ensures r.Some? ==> HasPrefix(r.value, "/")
  {
    var parts := Segments(path);
    if |parts| > 0 then Some("/" + Join(parts[..|parts| - 1], "/")) else None
  }

  /** The root has no parent. */
  lemma GoUpAtRoot()
    ensures GoUp("/") == None
  {
    assert IndexOf("/", '/') == 0;
    assert Split("/", '/') == ["", ""] by {
      assert "/"[1..] == "";
      assert Split("", '/') == [""];
    }
  }

  /**
   * For a path "/s1/.../sn" of proper segments, going up gives
   * "/s1/.../s(n-1)": the last segment removed, the others kept.
   */
  lemma GoUpDropsLast(segs: seq<string>)
    requires |segs| >= 1
    requires forall k :: 0 <= k < |segs| ==> segs[k] != "" && '/' !in segs[k]
    ensures Segments("/" + Join(segs, "/")) == segs
    ensures GoUp("/" + Join(segs, "/")) == Some("/" + Join(segs[..|segs| - 1], "/"))
  {
    var parts := [""] + segs;
    assert parts[1..] == segs;
    JoinCons(parts, "/");
    assert Join(parts, "/") == "/" + Join(segs, "/");
    SplitJoin(parts, '/');
    assert NonEmpty(parts) == NonEmpty(segs);
  }

  // ---------------------------------------------------------------------
  // The listing on screen
  // ---------------------------------------------------------------------

  /** The item matches the search: its lower-cased name contains the lower-cased query. */
  predicate Matches(item: FileItem, query: string)
  {
    Contains(ToLower(item.name), ToLower(query))
  }

  /** The items that match, in their order. */
  function Filter(items: seq<FileItem>, query: string): (r: seq<FileItem>)
    ensures forall x :: x in r <==> x in items && Matches(x, query)
    ensures multiset(r) <= multiset(items)
  {
    if items == [] then []
    else
      var rest := Filter(items[1..], query);
      assert items == [items[0]] + items[1..];
      if Matches(items[0], query) then [items[0]] + rest else rest
  }

  /** An empty search shows every item; any other is applied as a filter. */
  function Visible(items: seq<FileItem>, query: string): seq<FileItem>
  {
    if query == "" then items else Filter(items, query)
  }

  /** Searching ignores case: queries that lower-case alike show the same items. */
  lemma VisibleIgnoresCase(items: seq<FileItem>, q1: string, q2: string)
    requires ToLower(q1) == ToLower(q2)
    ensures Visible(items, q1) == Visible(items, q2)
  {
    assert |q1| == |ToLower(q1)| && |q2| == |ToLower(q2)|;
    if q1 != "" {
      FilterSameQuery(items, q1, q2);
    }
  }

  lemma {:induction false} FilterSameQuery(items: seq<FileItem>, q1: string, q2: string)
    requires ToLower(q1) == ToLower(q2)
    ensures Filter(items, q1) == Filter(items, q2)
  {
    if items != [] {
      FilterSameQuery(items[1..], q1, q2);
    }
  }

  datatype SortKey = ByName | BySize | ByModified
  datatype SortDir = Asc | Desc

  /**
   * The comparison of two items of the same kind under a key: `localeCompare`
   * on names, the difference of sizes, or of modification times as
   * `parseDate` reads them.
   */
  function Compare(key: SortKey, parseDate: string -> int, a: FileItem, b: FileItem): int
  {
    match key
    case ByName => if StrLt(a.name, b.name) then -1 else if a.name == b.name then 0 else 1
    case BySize => a.size - b.size
    case ByModified => parseDate(a.modified) - parseDate(b.modified)
  }

  /** The comparator handed to `sort`: directories first, then the key, negated when descending. */
  function Comparator(key: SortKey, dir: SortDir, parseDate: string -> int, a: FileItem, b: FileItem): int
  {
    if a.isDir != b.isDir then (if a.isDir then -1 else 1)
    else if dir == Asc then Compare(key, parseDate, a, b)
    else -Compare(key, parseDate, a, b)
  }

  /** `a` sorts before `b`: the comparator is negative. */
  predicate Before(key: SortKey, dir: SortDir, parseDate: string -> int, a: FileItem, b: FileItem)
  {
    Comparator(key, dir, parseDate, a, b) < 0
  }

  /** The key's own "less": names by code point, sizes and times as numbers. */
  predicate KeyLt(key: SortKey, parseDate: string -> int, a: FileItem, b: FileItem)
  {
    match key
    case ByName => StrLt(a.name, b.name)
    case BySize => a.size < b.size
    case ByModified => parseDate(a.modified) < parseDate(b.modified)
  }

  /** The comparator's sign: directories first, then the key ascending, or reversed when descending. */
  lemma BeforeIff(key: SortKey, dir: SortDir, parseDate: string -> int, a: FileItem, b: FileItem)
    ensures Before(key, dir, parseDate, a, b) <==>
            (a.isDir && !b.isDir) ||
            (a.isDir == b.isDir && (if dir == Asc then KeyLt(key, parseDate, a, b) else KeyLt(key, parseDate, b, a)))
  {
    if key == ByName {
      StrLtTotal(a.name, b.name);
      if StrLt(b.name, a.name) {
        StrLtAsymmetric(b.name, a.name);
      }
    }
  }

  /** `KeyLt` is a strict weak order for every key. */
  lemma KeyLtFacts(key: SortKey, parseDate: string -> int, a: FileItem, b: FileItem, c: FileItem)
    ensures !KeyLt(key, parseDate, a, a)
    ensures KeyLt(key, parseDate, a, b) && KeyLt(key, parseDate, b, c) ==> KeyLt(key, parseDate, a, c)
    ensures KeyLt(key, parseDate, a, c) ==> KeyLt(key, parseDate, a, b) || KeyLt(key, parseDate, b, c)
  {
    if key == ByName {
      StrLtIrreflexive(a.name);
      if StrLt(a.name, b.name) && StrLt(b.name, c.name) {
        StrLtTransitive(a.name, b.name, c.name);
      }
      if StrLt(a.name, c.name) && !StrLt(a.name, b.name) && !StrLt(b.name, c.name) {
        StrLtTotal(a.name, b.name);
        StrLtTotal(b.name, c.name);
        if a.name != b.name {
          if b.name != c.name {
            StrLtTransitive(c.name, b.name, a.name);
          }
          StrLtAsymmetric(a.name, c.name);
        } else {
          StrLtIrreflexive(c.name);
        }
      }
    }
  }

  /** The three strict-weak-order facts for `Before` on one triple of items. */
  lemma BeforeFacts(key: SortKey, dir: SortDir, parseDate: string -> int, a: FileItem, b: FileItem, c: FileItem)
    ensures !Before(key, dir, parseDate, a, a)
    ensures Before(key, dir, parseDate, a, b) && Before(key, dir, parseDate, b, c) ==> Before(key, dir, parseDate, a, c)
    ensures Before(key, dir, parseDate, a, c) ==> Before(key, dir, parseDate, a, b) || Before(key, dir, parseDate, b, c)
  {
    BeforeIff(key, dir, parseDate, a, a);
    BeforeIff(key, dir, parseDate, a, b);
    BeforeIff(key, dir, parseDate, b, c);
    BeforeIff(key, dir, parseDate, a, c);
    KeyLtFacts(key, parseDate, a, b, c);
    KeyLtFacts(key, parseDate, c, b, a);
  }

  /** The comparator orders items by a strict weak order, whatever the key and the direction. */
  lemma BeforeStrictWeak(lt: (FileItem, FileItem) -> bool, key: SortKey, dir: SortDir, parseDate: string -> int)
    requires forall x, y :: lt(x, y) == Before(key, dir, parseDate, x, y)
    ensures StrictWeakOrder(lt)
  {
    forall a, b, c
      ensures !lt(a, a)
      ensures lt(a, b) && lt(b, c) ==> lt(a, c)
      ensures lt(a, c) ==> lt(a, b) || lt(b, c)
    {
      BeforeFacts(key, dir, parseDate, a, b, c);
    }
  }

  /**
   * `sortedItems`: the visible items, sorted by the comparator. The result
   * holds exactly the visible items, no item is preceded by one it sorts
   * before, and directories come first in either direction.
   */
  function SortedItems(items: seq<FileItem>, query: string, key: SortKey, dir: SortDir, parseDate: string -> int): (r: seq<FileItem>)
    ensures multiset(r) == multiset(Visible(items, query))
    ensures forall i, j :: 0 <= i < j < |r| ==> !Before(key, dir, parseDate, r[j], r[i])
    ensures forall i, j :: 0 <= i < j < |r| && r[j].isDir ==> r[i].isDir
  {
    var lt := (x: FileItem, y: FileItem) => Before(key, dir, parseDate, x, y);
    BeforeStrictWeak(lt, key, dir, parseDate);
    InsertionSort(Visible(items, query), lt)
  }

  /** An item is on screen exactly when it is in the directory and matches the search. */
  lemma SortedItemsShown(items: seq<FileItem>, query: string, key: SortKey, dir: SortDir, parseDate: string -> int, x: FileItem)
    ensures x in SortedItems(items, query, key, dir, parseDate) <==> x in items && (query == "" || Matches(x, query))
  {
    var r := SortedItems(items, query, key, dir, parseDate);
    assert x in r <==> x in multiset(r);
    assert x in Visible(items, query) <==> x in multiset(Visible(items, query));
  }

  /** Within the files (or within the directories), sizes ascend under an ascending size sort. */
  lemma SizesAscend(items: seq<FileItem>, query: string, parseDate: string -> int, i: int, j: int)
    requires var r := SortedItems(items, query, BySize, Asc, parseDate);
             0 <= i < j < |r| && r[i].isDir == r[j].isDir
    ensures var r := SortedItems(items, query, BySize, Asc, parseDate);
            r[i].size <= r[j].size
  {
  }

  /** The sort header state. */
  datatype SortState = SortState(sortBy: SortKey, sortDir: SortDir)

  /** `handleSort(key)`: the same key clicked while ascending turns descending; anything else sorts ascending by `key`. */
  function HandleSort(s: SortState, key: SortKey): (r: SortState)
    ensures r.sortBy == key
    ensures r.sortDir == Desc <==> s.sortBy == key && s.sortDir == Asc
  {
    SortState(key, if s.sortBy == key && s.sortDir == Asc then Desc else Asc)
  }

  /** Clicking one header alternates the direction: a third click undoes the second. */
  lemma HandleSortAlternates(s: SortState, key: SortKey)
    ensures HandleSort(HandleSort(s, key), key) != HandleSort(s, key)
    ensures HandleSort(HandleSort(HandleSort(s, key), key), key) == HandleSort(s, key)
  {
  }

  // ---------------------------------------------------------------------
  // Selection
  // ---------------------------------------------------------------------

  /** Modifier keys held during a click. */
  datatype Modifiers = Modifiers(ctrl: bool, meta: bool, shift: bool)

  /** The names of the listed items, in order. */
  function Names(items: seq<FileItem>): (r: seq<string>)
    ensures |r| == |items|
    ensures forall k :: 0 <= k < |items| ==> r[k] == items[k].name
  {
    if items == [] then [] else [items[0].name] + Names(items[1..])
  }

  /** A ctrl/meta click: the clicked name leaves the selection if it was in it and joins it at the end otherwise. */
  function Toggle(sel: seq<string>, name: string): (r: seq<string>)
    ensures forall x :: x in r <==> (x in sel && x != name) || (x == name && name !in sel)
    ensures Windows.NoDup(sel) ==> Windows.NoDup(r)
  {
    if name in sel then Windows.Without(sel, name) else sel + [name]
  }

  /** Toggling twice leaves the same names selected. */
  lemma ToggleTwice(sel: seq<string>, name: string)
    ensures forall x :: x in Toggle(Toggle(sel, name), name) <==> x in sel
  {
  }

  /** `Array.prototype.slice(start, end)`: negative bounds count from the end, and bounds are clamped. */
  function JsSlice<T>(s: seq<T>, start: int, end: int): (r: seq<T>)
    ensures 0 <= start <= end <= |s| ==> r == s[start..end]
  {
    var from := if start < 0 then (if |s| + start < 0 then 0 else |s| + start) else (if start > |s| then |s| else start);
    var to := if end < 0 then (if |s| + end < 0 then 0 else |s| + end) else (if end > |s| then |s| else end);
    if from >= to then [] else s[from..to]
  }

  function Min(a: int, b: int): int { if a <= b then a else b }
  function Max(a: int, b: int): int { if a <= b then b else a }

  /**
   * A shift click as written: the range from the most recently added
   * selected name (`Array.from(set).pop()`) to the clicked one. When that
   * name is not on screen its index is -1 and the slice starts at the end.
   */
  function ShiftRangeAsWritten(names: seq<string>, sel: seq<string>, name: string): (r: seq<string>)
    requires sel != []
    ensures var a := Windows.IndexIn(names, sel[|sel| - 1]);
            var c := Windows.IndexIn(names, name);
            a >= 0 && c >= 0 ==> r == names[Min(a, c)..Max(a, c) + 1]
  {
    var a := Windows.IndexIn(names, sel[|sel| - 1]);
    var c := Windows.IndexIn(names, name);
    JsSlice(names, Min(a, c), Max(a, c) + 1)
  }

  /**
   * With the anchor hidden by the search, a shift click on any but the last
   * row selects nothing at all, not even the row clicked.
   */
  lemma HiddenAnchorClearsSelection(names: seq<string>, sel: seq<string>, name: string)
    requires sel != [] && sel[|sel| - 1] !in names
    requires name in names && Windows.IndexIn(names, name) < |names| - 1
    ensures ShiftRangeAsWritten(names, sel, name) == []
  {
  }

  /** The same on a listing of two files: "x" selected, then filtered away, and "a" shift-clicked. */
  lemma HiddenAnchorExample()
    ensures ShiftRangeAsWritten(["a", "b"], ["x"], "a") == []
  {
    HiddenAnchorClearsSelection(["a", "b"], ["x"], "a");
  }

  /**
   * A shift click: the inclusive range between the anchor and the clicked
   * name when both are on screen; the clicked name alone otherwise.
   */
  function ShiftRange(names: seq<string>, sel: seq<string>, name: string): (r: seq<string>)
    requires sel != []
    ensures name in r
    ensures var a := Windows.IndexIn(names, sel[|sel| - 1]);
            var c := Windows.IndexIn(names, name);
            a >= 0 && c >= 0 ==> r == names[Min(a, c)..Max(a, c) + 1] && sel[|sel| - 1] in r
    ensures var a := Windows.IndexIn(names, sel[|sel| - 1]);
            var c := Windows.IndexIn(names, name);
            a < 0 || c < 0 ==> r == [name]
  {
    var a := Windows.IndexIn(names, sel[|sel| - 1]);
    var c := Windows.IndexIn(names, name);
    if a < 0 || c < 0 then [name]
    else
      assert names[c] == names[Min(a, c)..Max(a, c) + 1][c - Min(a, c)];
      assert names[a] == names[Min(a, c)..Max(a, c) + 1][a - Min(a, c)];
      names[Min(a, c)..Max(a, c) + 1]
  }

  /** When both names are on screen, the corrected range is the one written. */
  lemma ShiftRangeAgrees(names: seq<string>, sel: seq<string>, name: string)
    requires sel != [] && sel[|sel| - 1] in names && name in names
    ensures ShiftRange(names, sel, name) == ShiftRangeAsWritten(names, sel, name)
  {
  }

  /** `handleSelect(item, event)` over the names on screen. */
  function HandleSelect(names: seq<string>, sel: seq<string>, name: string, mods: Modifiers): (r: seq<string>)
    ensures mods.ctrl || mods.meta ==> r == Toggle(sel, name)
    ensures !mods.ctrl && !mods.meta && mods.shift && sel != [] ==> r == ShiftRange(names, sel, name)
    ensures !mods.ctrl && !mods.meta && !(mods.shift && sel != []) ==> r == [name]
  {
    if mods.ctrl || mods.meta then Toggle(sel, name)
    else if mods.shift && sel != [] then ShiftRange(names, sel, name)
    else [name]
  }

  /** A click without ctrl or meta always leaves the clicked name selected. */
  lemma ClickSelects(names: seq<string>, sel: seq<string>, name: string, mods: Modifiers)
    requires !mods.ctrl && !mods.meta
    ensures name in HandleSelect(names, sel, name, mods)
  {
  }

  // ---------------------------------------------------------------------
  // Rename
  // ---------------------------------------------------------------------

  /** What submitting the rename box does. */
  datatype RenameAction =
    | CancelRename                    // the box closes and nothing is sent
    | KeepOpen                        // the item is gone from the listing: nothing happens
    | Rename(from: string, to: string) // the request sent, from the item's path to the new one

  /** The first item with the given name. */
  function FindByName(items: seq<FileItem>, name: string): (r: Option<FileItem>)
    ensures r.Some? ==> r.value in items && r.value.name == name
    ensures r.None? ==> forall k :: 0 <= k < |items| ==> items[k].name != name
  {
    if items == [] then None
    else if items[0].name == name then Some(items[0])
    else FindByName(items[1..], name)
  }

  /**
   * `submitRename`: cancelled when no item is being renamed, the new
   * name is blank or unchanged; otherwise the item is renamed to the new
   * name (untrimmed) inside the current directory.
   */
  function SubmitRename(currentPath: string, items: seq<FileItem>, renaming: Option<string>, value: string): (r: RenameAction)
    ensures r.CancelRename? <==> renaming.None? || renaming.value == "" || Trim(value) == "" || value == renaming.value
    ensures r.KeepOpen? ==> renaming.Some? && forall k :: 0 <= k < |items| ==> items[k].name != renaming.value
    ensures r.Rename? ==> renaming.Some? && value != renaming.value && Trim(value) != "" &&
                          (exists k :: 0 <= k < |items| && items[k].name == renaming.value && r.from == items[k].path) &&
                          r.to == ChildPath(currentPath, value)
  {
    if renaming.None? || renaming.value == "" || Trim(value) == "" || value == renaming.value then CancelRename
    else
      match FindByName(items, renaming.value)
      case None => KeepOpen
      case Some(item) => Rename(item.path, ChildPath(currentPath, value))
  }

  /** A rename inside a clean directory targets a path under it that ends in the new name. */
  lemma RenameStaysInDirectory(currentPath: string, items: seq<FileItem>, renaming: Option<string>, value: string)
    requires HasPrefix(currentPath, "/")
    requires SubmitRename(currentPath, items, renaming, value).Rename?
    ensures var to := SubmitRename(currentPath, items, renaming, value).to;
            HasPrefix(to, currentPath) && HasSuffix(to, "/" + value)
  {
    ChildPathUnder(currentPath, value);
  }
}
