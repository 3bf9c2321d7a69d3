// The dashboard's terminal windows: each window holds an ordered list of
// bound tmux sessions and one active session. Every action of the session
// context is a functional update that maps the old window list to a new one.
module Windows {
  import opened Wrappers
  import Radix

  datatype Window = Window(id: string, bound: seq<string>, active: Option<string>, colorIndex: int)

  /** `window-${i}`. */
  function WindowId(i: nat): string
  {
    "window-" + Radix.FormatNat(i, 10)
  }

  /** Distinct positions get distinct window ids. */
  lemma WindowIdInjective(i: nat, j: nat)
    requires WindowId(i) == WindowId(j)
    ensures i == j
  {
    var p := "window-";
    assert WindowId(i)[|p|..] == Radix.FormatNat(i, 10);
    assert WindowId(j)[|p|..] == Radix.FormatNat(j, 10);
    Radix.ParseFormat(i, 10);
    Radix.ParseFormat(j, 10);
  }

  /** The empty window created at position `i`. */
  function EmptyWindow(i: nat): Window
  {
    Window(WindowId(i), [], None, i)
  }

  /** No session is bound twice to one window. */
  predicate NoDup(s: seq<string>)
  {
    forall i, j :: 0 <= i < j < |s| ==> s[i] != s[j]
  }

  /** A window's active session is one of its bound sessions, and there is one whenever any is bound. */
  predicate WindowOk(w: Window)
  {
    NoDup(w.bound) && (w.active.None? <==> w.bound == []) && (w.active.Some? ==> w.active.value in w.bound)
  }

  /** The window list the actions keep: window `i` is "window-i" with colour `i`, and each window is well formed. */
  predicate Valid(ws: seq<Window>)
  {
    forall i :: 0 <= i < |ws| ==> ws[i].id == WindowId(i) && ws[i].colorIndex == i && WindowOk(ws[i])
  }

  /** In a valid list, a window id names at most one window. */
  lemma IdsUnique(ws: seq<Window>, i: int, j: int)
    requires Valid(ws) && 0 <= i < |ws| && 0 <= j < |ws| && ws[i].id == ws[j].id
    ensures i == j
  {
    WindowIdInjective(i, j);
  }

  /** `createDefaultWindows(count)`. */
  function DefaultWindows(count: nat): (ws: seq<Window>)
    ensures |ws| == count && Valid(ws)
  {
    seq(count, i requires 0 <= i < count => EmptyWindow(i))
  }

  /** `Math.max(1, Math.min(4, count))`. */
  function ClampCount(count: int): (n: int)
    ensures 1 <= n <= 4
    ensures 1 <= count <= 4 ==> n == count
    ensures count < 1 ==> n == 1
    ensures count > 4 ==> n == 4
  {
    if count < 1 then 1 else if count > 4 then 4 else count
  }

  /**
   * `setWindowCount(count)`: the count is clamped to 1..4; growing appends
   * empty windows numbered from the old length, shrinking truncates.
   */
  function SetWindowCount(prev: seq<Window>, count: int): (r: seq<Window>)
    ensures |r| == ClampCount(count)
    ensures forall i :: 0 <= i < |r| && i < |prev| ==> r[i] == prev[i]
    ensures forall i :: |prev| <= i < |r| ==> r[i] == EmptyWindow(i)
  {
    var n := ClampCount(count);
    if n > |prev| then prev + seq(n - |prev|, k requires 0 <= k < n - |prev| => EmptyWindow(|prev| + k))
    else if n < |prev| then prev[..n]
    else prev
  }

  /** The loop that appends the new windows one at a time. */
  method ApplyWindowCount(prev: seq<Window>, count: int) returns (r: seq<Window>)
    ensures r == SetWindowCount(prev, count)
  {
    var n := ClampCount(count);
    if n > |prev| {
      r := prev;
      var i := |prev|;
      while i < n
        invariant |prev| <= i <= n && |r| == i
        invariant r[..|prev|] == prev
        invariant forall k :: |prev| <= k < i ==> r[k] == EmptyWindow(k)
      {
        r := r + [EmptyWindow(i)];
        i := i + 1;
      }
    } else if n < |prev| {
      r := prev[..n];
    } else {
      r := prev;
    }
  }

  /** Changing the window count keeps the list valid. */
  lemma SetWindowCountValid(prev: seq<Window>, count: int)
    requires Valid(prev)
    ensures Valid(SetWindowCount(prev, count))
  {
  }

  /** Putting a fresh element in front of a duplicate-free list keeps it duplicate-free. */
  lemma NoDupCons(x: string, rest: seq<string>)
    requires x !in rest && NoDup(rest)
    ensures NoDup([x] + rest)
  {
    var s := [x] + rest;
    forall i, j | 0 <= i < j < |s|
      ensures s[i] != s[j]
    {
      assert s[j] == rest[j - 1];
      if i > 0 {
        assert s[i] == rest[i - 1];
      }
    }
  }

  /** `boundSessions.filter(s => s !== name)`. */
  function Without(s: seq<string>, name: string): (r: seq<string>)
    ensures forall x :: x in r <==> x in s && x != name
    ensures |r| <= |s|
    ensures name !in s ==> r == s
    ensures NoDup(s) ==> NoDup(r)
  {
    if s == [] then []
    else
      var rest := Without(s[1..], name);
      assert NoDup(s) ==> NoDup(s[1..]) && s[0] !in s[1..] by {
        if NoDup(s) {
          forall i, j | 0 <= i < j < |s[1..]|
            ensures s[1..][i] != s[1..][j]
          {
            assert s[1..][i] == s[i + 1] && s[1..][j] == s[j + 1];
          }
        }
      }
      if s[0] == name then rest
      else
        assert NoDup(s) ==> NoDup([s[0]] + rest) by {
          if NoDup(s) {
            NoDupCons(s[0], rest);
          }
        }
        [s[0]] + rest
  }

  /** The window with `name` dropped; the first remaining session becomes active if `name` was. */
  function Unbind(w: Window, name: string): (r: Window)
    ensures r.id == w.id && r.colorIndex == w.colorIndex
    ensures name !in r.bound && forall x :: x in r.bound <==> x in w.bound && x != name
    ensures w.active != Some(name) ==> r.active == w.active
    ensures WindowOk(w) ==> WindowOk(r)
  {
    if name !in w.bound then w
    else
      var newBound := Without(w.bound, name);
      Window(w.id, newBound, if w.active == Some(name) then (if newBound == [] then None else Some(newBound[0])) else w.active, w.colorIndex)
  }

  /** The window with `name` appended unless already bound; it becomes active if none was. */
  function Bind(w: Window, name: string): (r: Window)
    ensures r.id == w.id && r.colorIndex == w.colorIndex
    ensures r.bound == if name in w.bound then w.bound else w.bound + [name]
    ensures r.active == if name in w.bound || w.active.Some? then w.active else Some(name)
    ensures WindowOk(w) ==> WindowOk(r)
  {
    if name in w.bound then w
    else
      var b := w.bound + [name];
      assert forall i :: 0 <= i < |w.bound| ==> b[i] == w.bound[i];
      Window(w.id, b, if w.active.Some? then w.active else Some(name), w.colorIndex)
  }

  /**
   * `addSessionToWindow(windowId, name)`: bound in the target window, then
   * taken out of every other window.
   */
  function AddSession(ws: seq<Window>, windowId: string, name: string): (r: seq<Window>)
    ensures |r| == |ws|
    ensures forall i :: 0 <= i < |ws| && ws[i].id == windowId ==> r[i] == Bind(ws[i], name)
    ensures forall i :: 0 <= i < |ws| && ws[i].id != windowId ==> r[i] == Unbind(ws[i], name)
  {
    var added := seq(|ws|, i requires 0 <= i < |ws| => if ws[i].id == windowId then Bind(ws[i], name) else ws[i]);
    seq(|ws|, i requires 0 <= i < |ws| => if added[i].id == windowId then added[i] else Unbind(added[i], name))
  }

  /**
   * Adding keeps the list valid, and afterwards the session is bound in the
   * target window and in no other.
   */
  lemma AddSessionBindsOnce(ws: seq<Window>, t: nat, name: string)
    requires Valid(ws) && t < |ws|
    ensures Valid(AddSession(ws, ws[t].id, name))
    ensures forall i :: 0 <= i < |ws| ==> (name in AddSession(ws, ws[t].id, name)[i].bound <==> i == t)
    ensures AddSession(ws, ws[t].id, name)[t].active.Some?
  {
    var r := AddSession(ws, ws[t].id, name);
    forall i | 0 <= i < |ws| && i != t
      ensures ws[i].id != ws[t].id
    {
      if ws[i].id == ws[t].id {
        IdsUnique(ws, i, t);
      }
    }
  }

  /** `removeSessionFromWindow(windowId, name)`: only the target window changes. */
  function RemoveSession(ws: seq<Window>, windowId: string, name: string): (r: seq<Window>)
    ensures |r| == |ws|
    ensures forall i :: 0 <= i < |ws| ==> r[i] == if ws[i].id == windowId then Unbind(ws[i], name) else ws[i]
  {
    seq(|ws|, i requires 0 <= i < |ws| => if ws[i].id == windowId then Unbind(ws[i], name) else ws[i])
  }

  /**
   * Removing keeps the list valid; removing the active session activates
   * the first one left, or none when the window is empty.
   */
  lemma RemoveActiveSession(ws: seq<Window>, t: nat, name: string)
    requires Valid(ws) && t < |ws| && ws[t].active == Some(name)
    ensures Valid(RemoveSession(ws, ws[t].id, name))
    ensures var w := RemoveSession(ws, ws[t].id, name)[t];
            name !in w.bound && w.active == (if w.bound == [] then None else Some(w.bound[0]))
  {
  }

  /** `setActiveSession(windowId, name)`: takes effect only for a session bound to the window. */
  function SetActive(ws: seq<Window>, windowId: string, name: string): (r: seq<Window>)
    ensures |r| == |ws|
    ensures forall i :: 0 <= i < |ws| ==>
              r[i] == if ws[i].id == windowId && name in ws[i].bound then ws[i].(active := Some(name)) else ws[i]
  {
    seq(|ws|, i requires 0 <= i < |ws| =>
      if ws[i].id == windowId && name in ws[i].bound then ws[i].(active := Some(name)) else ws[i])
  }

  /** Choosing the active session keeps every active session bound. */
  lemma SetActiveValid(ws: seq<Window>, windowId: string, name: string)
    requires Valid(ws)
    ensures Valid(SetActive(ws, windowId, name))
  {
  }

  /** `Array.prototype.indexOf`: the first position of `x`, or -1. */
  function IndexIn(s: seq<string>, x: string): (r: int)
    ensures -1 <= r < |s|
    ensures r == -1 <==> x !in s
    ensures r >= 0 ==> s[r] == x && x !in s[..r]
  {
    if s == [] then -1
    else if s[0] == x then 0
    else
      var k := IndexIn(s[1..], x);
      if k == -1 then -1
      else
        assert s[..k + 1] == [s[0]] + s[1..][..k];
        k + 1
  }

  /** The two cycling directions. */
  datatype Direction = Prev | Next

  /**
   * The position `cycleSession` moves from: the active session's index, or
   * 0 when there is none (an empty name is falsy and counts as none).
   */
  function CurrentIndex(w: Window): int
  {
    if w.active.Some? && w.active.value != "" then IndexIn(w.bound, w.active.value) else 0
  }

  /**
   * `cycleSession(windowId, direction)`: with more than one session, the
   * next or previous one becomes active, wrapping around.
   */
  function Cycle(ws: seq<Window>, windowId: string, dir: Direction): (r: seq<Window>)
    ensures |r| == |ws|
    ensures forall i :: 0 <= i < |ws| && (ws[i].id != windowId || |ws[i].bound| <= 1) ==> r[i] == ws[i]
    ensures forall i :: 0 <= i < |ws| && ws[i].id == windowId && |ws[i].bound| > 1 ==>
              var n := |ws[i].bound|;
              var c := CurrentIndex(ws[i]);
              r[i] == ws[i].(active := Some(ws[i].bound[if dir == Next then (c + 1) % n else (c - 1 + n) % n]))
  {
    seq(|ws|, i requires 0 <= i < |ws| => CycleWindow(ws[i], windowId, dir))
  }

  function CycleWindow(w: Window, windowId: string, dir: Direction): Window
  {
    if w.id != windowId || |w.bound| <= 1 then w
    else
      var n := |w.bound|;
      var c := CurrentIndex(w);
      w.(active := Some(w.bound[if dir == Next then (c + 1) % n else (c - 1 + n) % n]))
  }

  /** Cycling keeps the list valid. */
  lemma CycleValid(ws: seq<Window>, windowId: string, dir: Direction)
    requires Valid(ws)
    ensures Valid(Cycle(ws, windowId, dir))
  {
  }

  /**
   * In a well-formed window whose session names are not empty, stepping
   * back undoes stepping forward.
   */
  lemma PrevUndoesNext(w: Window)
    requires WindowOk(w) && |w.bound| > 1 && forall k :: 0 <= k < |w.bound| ==> w.bound[k] != ""
    ensures CycleWindow(CycleWindow(w, w.id, Next), w.id, Prev) == w
  {
    var n := |w.bound|;
    var c := IndexIn(w.bound, w.active.value);
    assert CurrentIndex(w) == c && 0 <= c < n;
    var d := (c + 1) % n;
    var w1 := w.(active := Some(w.bound[d]));
    assert CycleWindow(w, w.id, Next) == w1;
    IndexOfNoDup(w.bound, d);
    assert CurrentIndex(w1) == d;
    StepBack(c, n);
  }

  /** In a duplicate-free list, the first position of the element at `k` is `k`. */
  lemma IndexOfNoDup(s: seq<string>, k: int)
    requires NoDup(s) && 0 <= k < |s|
    ensures IndexIn(s, s[k]) == k
  {
    var r := IndexIn(s, s[k]);
    assert s[r] == s[k];
  }

  /** One step forward then one step back around a ring of `n` positions. */
  lemma StepBack(c: int, n: int)
    requires 0 <= c < n
    ensures ((c + 1) % n - 1 + n) % n == c
  {
    if c + 1 == n {
      ModSelf(n);
      ModSmall(n - 1, n);
    } else {
      ModSmall(c + 1, n);
      ModShift(c, n);
    }
  }

  lemma ModSmall(a: int, n: int)
    requires 0 <= a < n
    ensures a % n == a
  {
  }

  lemma ModSelf(n: int)
    requires n > 0
    ensures n % n == 0
  {
  }

  lemma ModShift(a: int, n: int)
    requires 0 <= a < n
    ensures (a + n) % n == a
  {
  }

  /** The set of every session bound to some window. */
  function Assigned(ws: seq<Window>): set<string>
  {
    set i, s | 0 <= i < |ws| && s in ws[i].bound :: s
  }

  /** `assignedSessions`: every window's bound sessions added to one set. */
  method AssignedSessions(ws: seq<Window>) returns (names: set<string>)
    ensures names == Assigned(ws)
    ensures forall s :: s in names <==> exists i :: 0 <= i < |ws| && s in ws[i].bound
  {
    names := {};
    var i := 0;
    while i < |ws|
      invariant 0 <= i <= |ws|
      invariant names == Assigned(ws[..i])
    {
      var b := ws[i].bound;
      var j := 0;
      while j < |b|
        invariant 0 <= j <= |b|
        invariant names == Assigned(ws[..i]) + (set k | 0 <= k < j :: b[k])
      {
        names := names + {b[j]};
        j := j + 1;
      }
      assert (set k | 0 <= k < |b| :: b[k]) == (set s | s in b);
      assert Assigned(ws[..i + 1]) == Assigned(ws[..i]) + (set s | s in b) by {
        assert ws[..i + 1][i] == ws[i];
        assert forall k :: 0 <= k < i ==> ws[..i + 1][k] == ws[..i][k];
      }
      i := i + 1;
    }
    assert ws[..|ws|] == ws;
  }

  /** After adding a session to a window, the session is among the assigned ones. */
  lemma AddedIsAssigned(ws: seq<Window>, t: nat, name: string)
    requires Valid(ws) && t < |ws|
    ensures name in Assigned(AddSession(ws, ws[t].id, name))
  {
    AddSessionBindsOnce(ws, t, name);
    var r := AddSession(ws, ws[t].id, name);
    assert name in r[t].bound;
  }
}
