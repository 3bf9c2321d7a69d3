// The toast queue of the dashboard: notifications kept newest first, at
// most five of them, each with an id drawn from an increasing counter.
// Both operations are functional updates of the provider's state.
module Toasts {
  datatype ToastKind = Success | Info | Warning | Error

  datatype Toast = Toast(id: int, message: string, kind: ToastKind, createdAt: int)

  /** The provider's state: the toasts shown, newest first, and the next id. */
  datatype ToastState = ToastState(toasts: seq<Toast>, nextId: int)

  /** `MAX_TOASTS`. */
  const MaxToasts := 5

  /** The state the provider starts in. */
  const Initial := ToastState([], 1)

  /** Ids strictly decrease from the newest toast to the oldest. */
  predicate NewestFirst(ts: seq<Toast>)
  {
    forall i, j :: 0 <= i < j < |ts| ==> ts[i].id > ts[j].id
  }

  /** What the provider keeps true: at most five toasts, newest first, every id drawn from the counter. */
  predicate Ok(s: ToastState)
  {
    |s.toasts| <= MaxToasts && s.nextId >= 1 && NewestFirst(s.toasts) &&
    forall i :: 0 <= i < |s.toasts| ==> 1 <= s.toasts[i].id < s.nextId
  }

  lemma InitialOk()
    ensures Ok(Initial)
  {
  }

  /**
   * `addToast(message, type)` at time `now`: the new toast, with the next
   * id, goes in front, and only the five newest are kept.
   */
  function AddToast(s: ToastState, message: string, kind: ToastKind, now: int): (r: ToastState)
    ensures r.nextId == s.nextId + 1
    ensures |r.toasts| == if |s.toasts| < MaxToasts then |s.toasts| + 1 else MaxToasts
    ensures r.toasts[0] == Toast(s.nextId, message, kind, now)
    ensures forall i :: 1 <= i < |r.toasts| ==> r.toasts[i] == s.toasts[i - 1]
  {
    var updated := [Toast(s.nextId, message, kind, now)] + s.toasts;
    var kept := if |updated| > MaxToasts then updated[..MaxToasts] else updated;
    ToastState(kept, s.nextId + 1)
  }

  /** Adding keeps the queue's invariant: the new id is above every id shown. */
  lemma AddKeepsOk(s: ToastState, message: string, kind: ToastKind, now: int)
    requires Ok(s)
    ensures Ok(AddToast(s, message, kind, now))
  {
    var r := AddToast(s, message, kind, now);
    forall i, j | 0 <= i < j < |r.toasts|
      ensures r.toasts[i].id > r.toasts[j].id
    {
      assert r.toasts[j] == s.toasts[j - 1];
      if i > 0 {
        assert r.toasts[i] == s.toasts[i - 1];
      }
    }
  }

  /** With five toasts shown, adding drops exactly the oldest one. */
  lemma AddDropsOldest(s: ToastState, message: string, kind: ToastKind, now: int)
    requires Ok(s) && |s.toasts| == MaxToasts
    ensures AddToast(s, message, kind, now).toasts == [Toast(s.nextId, message, kind, now)] + s.toasts[..MaxToasts - 1]
    ensures s.toasts[MaxToasts - 1] !in AddToast(s, message, kind, now).toasts
  {
    var r := AddToast(s, message, kind, now);
    var oldest := s.toasts[MaxToasts - 1];
    assert r.toasts == [Toast(s.nextId, message, kind, now)] + s.toasts[..MaxToasts - 1];
    forall i | 0 <= i < |r.toasts|
      ensures r.toasts[i].id != oldest.id
    {
      if i > 0 {
        assert r.toasts[i] == s.toasts[i - 1];
      }
    }
  }

  /** `prev.filter(toast => toast.id !== id)`. */
  function Without(ts: seq<Toast>, id: int): (r: seq<Toast>)
    ensures |r| <= |ts|
    ensures forall t :: t in r <==> t in ts && t.id != id
  {
    if ts == [] then []
    else if ts[0].id != id then [ts[0]] + Without(ts[1..], id)
    else Without(ts[1..], id)
  }

  /** Filtering keeps the remaining toasts in their order. */
  lemma {:induction false} WithoutNewestFirst(ts: seq<Toast>, id: int)
    requires NewestFirst(ts)
    ensures NewestFirst(Without(ts, id))
  {
    if ts != [] {
      var rest := Without(ts[1..], id);
      WithoutNewestFirst(ts[1..], id);
      if ts[0].id != id {
        forall k | 0 <= k < |rest|
          ensures rest[k].id < ts[0].id
        {
          assert rest[k] in ts[1..];
        }
        var r := [ts[0]] + rest;
        assert forall j :: 1 <= j < |r| ==> r[j] == rest[j - 1];
      }
    }
  }

  /** A filter that matches no toast changes nothing. */
  lemma {:induction false} WithoutAbsent(ts: seq<Toast>, id: int)
    requires forall i :: 0 <= i < |ts| ==> ts[i].id != id
    ensures Without(ts, id) == ts
  {
    if ts != [] {
      WithoutAbsent(ts[1..], id);
    }
  }

  /** `removeToast(id)`: every toast with that id goes, the others stay. */
  function RemoveToast(s: ToastState, id: int): (r: ToastState)
    ensures r.nextId == s.nextId
    ensures forall t :: t in r.toasts <==> t in s.toasts && t.id != id
  {
    ToastState(Without(s.toasts, id), s.nextId)
  }

  /** Removing keeps the queue's invariant, so the rest stay newest first. */
  lemma RemoveKeepsOk(s: ToastState, id: int)
    requires Ok(s)
    ensures Ok(RemoveToast(s, id))
  {
    var r := RemoveToast(s, id);
    WithoutNewestFirst(s.toasts, id);
    forall i | 0 <= i < |r.toasts|
      ensures 1 <= r.toasts[i].id < r.nextId
    {
      assert r.toasts[i] in s.toasts;
    }
  }

  /** Dismissing a toast just added, before the queue was full, restores the toasts shown before. */
  lemma RemoveUndoesAdd(s: ToastState, message: string, kind: ToastKind, now: int)
    requires Ok(s) && |s.toasts| < MaxToasts
    ensures RemoveToast(AddToast(s, message, kind, now), s.nextId).toasts == s.toasts
  {
    var r := AddToast(s, message, kind, now);
    assert r.toasts == [Toast(s.nextId, message, kind, now)] + s.toasts;
    assert r.toasts[1..] == s.toasts;
    WithoutAbsent(s.toasts, s.nextId);
  }
}
