// Comparison-based sorting as the dashboard uses it: Go's `sort.Slice`
// reorders a slice in place under a "less" function, and JavaScript's
// `Array.prototype.sort` (stable) orders a copy under a comparator.
module Orders {
  import opened Strs

  /** `lt` is a strict weak order, the requirement of both sort routines. */
  ghost predicate StrictWeakOrder<T(!new)>(lt: (T, T) -> bool)
  {
    (forall a :: !lt(a, a)) &&
    (forall a, b, c :: lt(a, b) && lt(b, c) ==> lt(a, c)) &&
    (forall a, b, c {:trigger lt(a, b), lt(b, c)} :: lt(a, c) ==> lt(a, b) || lt(b, c))
  }

  /** No element is "less" than an element placed before it. */
  predicate SortedBy<T>(s: seq<T>, lt: (T, T) -> bool)
  {
    forall i, j :: 0 <= i < j < |s| ==> !lt(s[j], s[i])
  }

  /**
   * Inserts `x` just before the first element that is greater than it, so
   * elements equal to `x` stay in front of it.
   */
  function Insert<T>(x: T, s: seq<T>, lt: (T, T) -> bool): (r: seq<T>)
    ensures multiset(r) == multiset(s) + multiset{x}
    ensures |r| == |s| + 1
  {
    if s == [] then [x]
    else if lt(x, s[0]) then [x] + s
    else
      assert s == [s[0]] + s[1..];
      [s[0]] + Insert(x, s[1..], lt)
  }

  lemma {:induction false} InsertSorted<T(!new)>(x: T, s: seq<T>, lt: (T, T) -> bool)
    requires StrictWeakOrder(lt)
    requires SortedBy(s, lt)
    ensures SortedBy(Insert(x, s, lt), lt)
  {
    if s != [] && !lt(x, s[0]) {
      var tail := Insert(x, s[1..], lt);
      InsertSorted(x, s[1..], lt);
      forall k | 0 <= k < |tail|
        ensures !lt(tail[k], s[0])
      {
        assert tail[k] in multiset(tail);
        if tail[k] != x {
          assert tail[k] in multiset(s[1..]);
          var m :| 0 <= m < |s[1..]| && s[1..][m] == tail[k];
          assert s[m + 1] == tail[k];
        }
      }
    }
  }

  /** A stable insertion sort on a copy: the model of `[...xs].sort(cmp)`. */
  function InsertionSort<T(!new)>(s: seq<T>, lt: (T, T) -> bool): (r: seq<T>)
    requires StrictWeakOrder(lt)
    ensures multiset(r) == multiset(s)
    ensures |r| == |s|
    ensures SortedBy(r, lt)
  {
    if s == [] then []
    else
      assert s == s[..|s| - 1] + [s[|s| - 1]];
      InsertSorted(s[|s| - 1], InsertionSort(s[..|s| - 1], lt), lt);
      Insert(s[|s| - 1], InsertionSort(s[..|s| - 1], lt), lt)
  }

  /** In-place insertion sort: the model of `sort.Slice(xs, less)`. */
  method SortArray<T(!new)>(a: array<T>, lt: (T, T) -> bool)
    requires StrictWeakOrder(lt)
    modifies a
    ensures SortedBy(a[..], lt)
    ensures multiset(a[..]) == multiset(old(a[..]))
  {
    if a.Length == 0 {
      return;
    }
    var i := 1;
    while i < a.Length
      invariant 1 <= i <= a.Length
      invariant multiset(a[..]) == multiset(old(a[..]))
      invariant SortedUpTo(a[..], i, i, lt)
    {
      var j := i;
      while j > 0 && lt(a[j], a[j - 1])
        invariant 0 <= j <= i
        invariant multiset(a[..]) == multiset(old(a[..]))
        invariant SortedUpTo(a[..], i + 1, j, lt)
      {
        SwapKeepsOrder(a[..], i, j, lt);
        Swap(a, j);
        j := j - 1;
      }
      StopKeepsOrder(a[..], i, j, lt);
      i := i + 1;
    }
  }

  /** Exchanges `a[j - 1]` and `a[j]`. */
  method Swap<T>(a: array<T>, j: int)
    requires 0 < j < a.Length
    modifies a
    ensures a[..] == old(a[..])[j - 1 := old(a[j])][j := old(a[j - 1])]
    ensures multiset(a[..]) == multiset(old(a[..]))
  {
    a[j], a[j - 1] := a[j - 1], a[j];
  }

  /** The prefix of length `n` is ordered, except possibly at position `hole`. */
  ghost predicate SortedUpTo<T(!new)>(s: seq<T>, n: int, hole: int, lt: (T, T) -> bool)
    requires 0 <= n <= |s|
  {
    forall p, q :: 0 <= p < q < n && q != hole ==> !lt(s[q], s[p])
  }

  /** Swapping the element at the hole one step down moves the hole with it. */
  lemma SwapKeepsOrder<T(!new)>(s: seq<T>, i: int, j: int, lt: (T, T) -> bool)
    requires StrictWeakOrder(lt)
    requires 0 < j <= i < |s| && lt(s[j], s[j - 1])
    requires SortedUpTo(s, i + 1, j, lt)
    ensures SortedUpTo(s[j - 1 := s[j]][j := s[j - 1]], i + 1, j - 1, lt)
  {
  }

  /** When the element stops moving, the whole prefix up to `i` is ordered. */
  lemma StopKeepsOrder<T(!new)>(s: seq<T>, i: int, j: int, lt: (T, T) -> bool)
    requires StrictWeakOrder(lt)
    requires 0 <= j <= i < |s|
    requires j == 0 || !lt(s[j], s[j - 1])
    requires SortedUpTo(s, i + 1, j, lt)
    ensures SortedUpTo(s, i + 1, i + 1, lt)
  {
  }

  /** Lexicographic key on (rank, text, text): every session order uses one. */
  datatype Key3 = Key3(rank: int, first: string, second: string)

  predicate Key3Lt(a: Key3, b: Key3)
  {
    if a.rank != b.rank then a.rank < b.rank
    else if a.first != b.first then StrLt(a.first, b.first)
    else StrLt(a.second, b.second)
  }

  lemma Key3LtFacts(a: Key3, b: Key3, c: Key3)
    ensures !Key3Lt(a, a)
    ensures Key3Lt(a, b) && Key3Lt(b, c) ==> Key3Lt(a, c)
    ensures a == b || Key3Lt(a, b) || Key3Lt(b, a)
  {
    StrLtIrreflexive(a.second);
    StrLtTotal(a.first, b.first);
    StrLtTotal(a.second, b.second);
    if Key3Lt(a, b) && Key3Lt(b, c) {
      if a.rank == b.rank == c.rank {
        if a.first == b.first == c.first {
          StrLtTransitive(a.second, b.second, c.second);
        } else if a.first == b.first {
        } else if b.first == c.first {
        } else {
          StrLtTransitive(a.first, b.first, c.first);
          if a.first == c.first {
            StrLtIrreflexive(a.first);
          }
        }
      }
    }
  }

  /** Comparing elements by a lexicographic key is a strict weak order. */
  lemma ByKeyStrictWeak<T(!new)>(lt: (T, T) -> bool, key: T -> Key3)
    requires forall x, y :: lt(x, y) == Key3Lt(key(x), key(y))
    ensures StrictWeakOrder(lt)
  {
    forall a, b, c
      ensures !lt(a, a)
      ensures lt(a, b) && lt(b, c) ==> lt(a, c)
      ensures lt(a, c) ==> lt(a, b) || lt(b, c)
    {
      Key3LtFacts(key(a), key(b), key(c));
      Key3LtFacts(key(a), key(c), key(b));
      Key3LtFacts(key(b), key(a), key(c));
      Key3LtFacts(key(b), key(c), key(a));
      Key3LtFacts(key(c), key(a), key(b));
      Key3LtFacts(key(c), key(b), key(a));
    }
  }
}
