/** Stable sorting by an integer key, and the order-keeping filter.

    `Array.prototype.sort` with a numeric comparator `(a, b) => key(a) - key(b)`
    is a stable ascending sort by `key`; the comparator `(a, b) => key(b) - key(a)`
    is the same sort by the negated key.  `SortBy` is that sort as a function
    (insertion from the right, one element at a time), `SortInPlace` is the
    in-place array algorithm proved equal to it, and the lemmas state what
    makes a sort stable: the output is ascending, a permutation of the input,
    and every class of equal keys keeps its input order. */
module StableSort {

  /** `s` is ascending by `key`. */
  ghost predicate SortedBy<T>(s: seq<T>, key: T -> int) {
    forall i, j :: 0 <= i < j < |s| ==> key(s[i]) <= key(s[j])
  }

  /** Every element of `s` has a key of at most `b`. */
  ghost predicate KeysAtMost<T>(s: seq<T>, key: T -> int, b: int) {
    forall i :: 0 <= i < |s| ==> key(s[i]) <= b
  }

  /** The elements of `s` that satisfy `p`, in their order in `s`
      (`Array.prototype.filter`). */
  function Filter<T>(s: seq<T>, p: T -> bool): (r: seq<T>)
    ensures forall i :: 0 <= i < |r| ==> p(r[i])
    ensures multiset(r) <= multiset(s)
    ensures forall i :: 0 <= i < |s| && p(s[i]) ==> s[i] in r
    decreases |s|
  {
    if |s| == 0 then []
    else
      var init, last := s[..|s| - 1], s[|s| - 1];
      assert s == init + [last];
      var r0 := Filter(init, p);
      assert forall i :: 0 <= i < |init| ==> init[i] == s[i];
      if p(last) then r0 + [last] else r0
  }

  /** The condition "has key `k`". */
  function KeyIs<T>(key: T -> int, k: int): T -> bool {
    x => key(x) == k
  }

  /** The elements of `s` whose key is `k`, in their order in `s`. */
  function KeyClass<T>(s: seq<T>, key: T -> int, k: int): seq<T> {
    Filter(s, KeyIs(key, k))
  }

  /** Inserts `x` into `t` after the last element whose key is at most
      `key(x)`, scanning from the right as insertion sort does. */
  function InsertBy<T>(t: seq<T>, x: T, key: T -> int): seq<T>
    decreases |t|
  {
    if |t| == 0 || key(t[|t| - 1]) <= key(x) then t + [x]
    else InsertBy(t[..|t| - 1], x, key) + [t[|t| - 1]]
  }

  /** Stable ascending sort of `s` by `key`. */
  function SortBy<T>(s: seq<T>, key: T -> int): seq<T>
    decreases |s|
  {
    if |s| == 0 then [] else InsertBy(SortBy(s[..|s| - 1], key), s[|s| - 1], key)
  }

  // ---------------------------------------------------------------------
  // Filter

  lemma FilterSnoc<T>(s: seq<T>, x: T, p: T -> bool)
    ensures Filter(s + [x], p) == Filter(s, p) + (if p(x) then [x] else [])
  {
    assert (s + [x])[..|s|] == s;
  }

  /** Two filters may be applied in either order. */
  lemma {:induction false} FilterCommute<T>(s: seq<T>, p: T -> bool, q: T -> bool)
    ensures Filter(Filter(s, p), q) == Filter(Filter(s, q), p)
    decreases |s|
  {
    if |s| > 0 {
      var init, x := s[..|s| - 1], s[|s| - 1];
      assert s == init + [x];
      FilterCommute(init, p, q);
      FilterTwiceSnoc(init, x, p, q);
      FilterTwiceSnoc(init, x, q, p);
    }
  }

  /** Filtering twice after appending `x` keeps `x` when it passes both. */
  lemma FilterTwiceSnoc<T>(init: seq<T>, x: T, p: T -> bool, q: T -> bool)
    ensures Filter(Filter(init + [x], p), q) == Filter(Filter(init, p), q) + (if p(x) && q(x) then [x] else [])
  {
    FilterSnoc(init, x, p);
    if p(x) {
      FilterSnoc(Filter(init, p), x, q);
    }
  }

  /** Filtering twice with the same condition is filtering once. */
  lemma {:induction false} FilterIdempotent<T>(s: seq<T>, p: T -> bool)
    ensures Filter(Filter(s, p), p) == Filter(s, p)
    decreases |s|
  {
    if |s| > 0 {
      var init, last := s[..|s| - 1], s[|s| - 1];
      assert s == init + [last];
      FilterIdempotent(init, p);
      FilterSnoc(init, last, p);
      if p(last) {
        FilterSnoc(Filter(init, p), last, p);
      }
    }
  }

  /** A filter leaves every element of `s` that satisfies `p` and drops the
      others: the multiset of the result is that of the satisfying elements. */
  lemma {:induction false} FilterCount<T>(s: seq<T>, p: T -> bool, x: T)
    ensures multiset(Filter(s, p))[x] == if p(x) then multiset(s)[x] else 0
    decreases |s|
  {
    if |s| > 0 {
      var init, last := s[..|s| - 1], s[|s| - 1];
      assert s == init + [last];
      FilterCount(init, p, x);
      FilterSnoc(init, last, p);
    }
  }

  lemma {:induction false} FilterKeysAtMost<T>(s: seq<T>, p: T -> bool, key: T -> int, b: int)
    requires KeysAtMost(s, key, b)
    ensures KeysAtMost(Filter(s, p), key, b)
    decreases |s|
  {
    if |s| > 0 {
      var init, last := s[..|s| - 1], s[|s| - 1];
      assert s == init + [last];
      FilterKeysAtMost(init, p, key, b);
      FilterSnoc(init, last, p);
    }
  }

  /** A filter of an ascending sequence is ascending. */
  lemma {:induction false} FilterSorted<T>(s: seq<T>, p: T -> bool, key: T -> int)
    requires SortedBy(s, key)
    ensures SortedBy(Filter(s, p), key)
    decreases |s|
  {
    if |s| > 0 {
      var init, last := s[..|s| - 1], s[|s| - 1];
      assert s == init + [last];
      FilterSorted(init, p, key);
      FilterSnoc(init, last, p);
      if p(last) {
        assert KeysAtMost(init, key, key(last));
        FilterKeysAtMost(init, p, key, key(last));
        SortedSnoc(Filter(init, p), last, key);
      }
    }
  }

  /** A sorted sequence stays sorted when an element with a key at least
      as large as all of its keys is appended. */
  lemma SortedSnoc<T>(t: seq<T>, x: T, key: T -> int)
    requires SortedBy(t, key) && KeysAtMost(t, key, key(x))
    ensures SortedBy(t + [x], key)
  {
    var r := t + [x];
    forall i, j | 0 <= i < j < |r| ensures key(r[i]) <= key(r[j]) {
      assert r[i] == t[i];
      if j < |t| {
        assert r[j] == t[j];
      }
    }
  }

  // ---------------------------------------------------------------------
  // InsertBy

  lemma {:induction false} InsertByPermutes<T>(t: seq<T>, x: T, key: T -> int)
    ensures |InsertBy(t, x, key)| == |t| + 1
    ensures multiset(InsertBy(t, x, key)) == multiset(t) + multiset{x}
    decreases |t|
  {
    if |t| > 0 && key(t[|t| - 1]) > key(x) {
      var init, last := t[..|t| - 1], t[|t| - 1];
      assert t == init + [last];
      InsertByPermutes(init, x, key);
    }
  }

  lemma {:induction false} InsertByKeysAtMost<T>(t: seq<T>, x: T, key: T -> int, b: int)
    requires KeysAtMost(t, key, b) && key(x) <= b
    ensures KeysAtMost(InsertBy(t, x, key), key, b)
    decreases |t|
  {
    if |t| > 0 && key(t[|t| - 1]) > key(x) {
      var init := t[..|t| - 1];
      InsertByKeysAtMost(init, x, key, b);
    }
  }

  lemma {:induction false} InsertBySorted<T>(t: seq<T>, x: T, key: T -> int)
    requires SortedBy(t, key)
    ensures SortedBy(InsertBy(t, x, key), key)
    decreases |t|
  {
    if |t| > 0 && key(t[|t| - 1]) > key(x) {
      var init, last := t[..|t| - 1], t[|t| - 1];
      InsertBySorted(init, x, key);
      assert KeysAtMost(init, key, key(last));
      InsertByKeysAtMost(init, x, key, key(last));
    }
  }

  /** An element whose key is at least every key of `t` goes at the end. */
  lemma InsertByLast<T>(t: seq<T>, x: T, key: T -> int)
    requires KeysAtMost(t, key, key(x))
    ensures InsertBy(t, x, key) == t + [x]
  {
  }

  lemma {:induction false} FilterInsertBy<T>(t: seq<T>, x: T, key: T -> int, p: T -> bool)
    requires SortedBy(t, key)
    ensures Filter(InsertBy(t, x, key), p)
         == if p(x) then InsertBy(Filter(t, p), x, key) else Filter(t, p)
    decreases |t|
  {
    if |t| == 0 || key(t[|t| - 1]) <= key(x) {
      FilterInsertByAtEnd(t, x, key, p);
    } else {
      var init, last := t[..|t| - 1], t[|t| - 1];
      assert t == init + [last];
      FilterInsertBy(init, x, key, p);
      InsertBySnocLarger(init, last, x, key);
      FilterShiftedSnoc(init, last, x, key, p);
    }
  }

  /** The case of `FilterInsertBy` where `x` goes last. */
  lemma FilterInsertByAtEnd<T>(t: seq<T>, x: T, key: T -> int, p: T -> bool)
    requires SortedBy(t, key)
    requires |t| == 0 || key(t[|t| - 1]) <= key(x)
    ensures Filter(InsertBy(t, x, key), p)
         == if p(x) then InsertBy(Filter(t, p), x, key) else Filter(t, p)
  {
    assert InsertBy(t, x, key) == t + [x];
    FilterSnoc(t, x, p);
    if p(x) {
      SortedKeysAtMost(t, key, key(x));
      FilterKeysAtMost(t, p, key, key(x));
      InsertByLast(Filter(t, p), x, key);
    }
  }

  /** In a sorted sequence no key exceeds the last one. */
  lemma SortedKeysAtMost<T>(t: seq<T>, key: T -> int, b: int)
    requires SortedBy(t, key)
    requires |t| == 0 || key(t[|t| - 1]) <= b
    ensures KeysAtMost(t, key, b)
  {
    forall i | 0 <= i < |t| ensures key(t[i]) <= b {
      if i < |t| - 1 {
        assert key(t[i]) <= key(t[|t| - 1]);
      }
    }
  }

  /** The case of `FilterInsertBy` where `x` goes before the last element,
      given the property for the elements before it. */
  lemma FilterShiftedSnoc<T>(init: seq<T>, last: T, x: T, key: T -> int, p: T -> bool)
    requires key(x) < key(last)
    requires InsertBy(init + [last], x, key) == InsertBy(init, x, key) + [last]
    requires Filter(InsertBy(init, x, key), p)
          == if p(x) then InsertBy(Filter(init, p), x, key) else Filter(init, p)
    ensures Filter(InsertBy(init + [last], x, key), p)
         == if p(x) then InsertBy(Filter(init + [last], p), x, key) else Filter(init + [last], p)
  {
    var r0 := InsertBy(init, x, key);
    FilterSnoc(r0, last, p);
    FilterSnoc(init, last, p);
    if p(last) && p(x) {
      InsertBySnocLarger(Filter(init, p), last, x, key);
    }
  }

  /** `x` goes before a last element of larger key. */
  lemma InsertBySnocLarger<T>(f: seq<T>, last: T, x: T, key: T -> int)
    requires key(x) < key(last)
    ensures InsertBy(f + [last], x, key) == InsertBy(f, x, key) + [last]
  {
    assert (f + [last])[..|f|] == f;
  }

  // ---------------------------------------------------------------------
  // SortBy

  /** The sort returns a permutation of its input. */
  lemma {:induction false} SortByPermutes<T>(s: seq<T>, key: T -> int)
    ensures |SortBy(s, key)| == |s|
    ensures multiset(SortBy(s, key)) == multiset(s)
    decreases |s|
  {
    if |s| > 0 {
      var init, last := s[..|s| - 1], s[|s| - 1];
      assert s == init + [last];
      SortByPermutes(init, key);
      InsertByPermutes(SortBy(init, key), last, key);
    }
  }

  /** The sort returns an ascending sequence. */
  lemma {:induction false} SortBySorted<T>(s: seq<T>, key: T -> int)
    ensures SortedBy(SortBy(s, key), key)
    decreases |s|
  {
    if |s| > 0 {
      SortBySorted(s[..|s| - 1], key);
      InsertBySorted(SortBy(s[..|s| - 1], key), s[|s| - 1], key);
    }
  }

  /** Sorting an already ascending sequence changes nothing. */
  lemma {:induction false} SortBySortedIdentity<T>(s: seq<T>, key: T -> int)
    requires SortedBy(s, key)
    ensures SortBy(s, key) == s
    decreases |s|
  {
    if |s| > 0 {
      var init, last := s[..|s| - 1], s[|s| - 1];
      assert s == init + [last];
      SortBySortedIdentity(init, key);
      assert KeysAtMost(init, key, key(last));
      InsertByLast(init, last, key);
    }
  }

  /** Sorting is idempotent. */
  lemma SortByIdempotent<T>(s: seq<T>, key: T -> int)
    ensures SortBy(SortBy(s, key), key) == SortBy(s, key)
  {
    SortBySorted(s, key);
    SortBySortedIdentity(SortBy(s, key), key);
  }

  /** Filtering after a stable sort is sorting after the filter. */
  lemma {:induction false} FilterSortBy<T>(s: seq<T>, key: T -> int, p: T -> bool)
    ensures Filter(SortBy(s, key), p) == SortBy(Filter(s, p), key)
    decreases |s|
  {
    if |s| > 0 {
      var init, last := s[..|s| - 1], s[|s| - 1];
      assert s == init + [last];
      FilterSortBy(init, key, p);
      SortBySorted(init, key);
      FilterInsertBy(SortBy(init, key), last, key, p);
      FilterSnoc(init, last, p);
      if p(last) {
        var f := Filter(init, p) + [last];
        assert f[..|f| - 1] == Filter(init, p);
      }
    }
  }

  lemma {:induction false} KeyClassSorted<T>(s: seq<T>, key: T -> int, k: int)
    ensures SortedBy(KeyClass(s, key, k), key)
  {
    var c := KeyClass(s, key, k);
    assert forall i :: 0 <= i < |c| ==> KeyIs(key, k)(c[i]);
  }

  /** Stability: the elements with any one key come out in their input
      order. */
  lemma SortByStable<T>(s: seq<T>, key: T -> int, k: int)
    ensures KeyClass(SortBy(s, key), key, k) == KeyClass(s, key, k)
  {
    FilterSortBy(s, key, KeyIs(key, k));
    KeyClassSorted(s, key, k);
    SortBySortedIdentity(KeyClass(s, key, k), key);
  }

  lemma LastIsMax<T>(s: seq<T>, key: T -> int, y: T)
    requires SortedBy(s, key) && y in s
    ensures key(y) <= key(s[|s| - 1])
  {
    var i :| 0 <= i < |s| && s[i] == y;
  }

  /** Dropping the last element of `s` drops it from its own class only. */
  lemma KeyClassDropLast<T>(s: seq<T>, key: T -> int, k: int)
    requires |s| > 0
    ensures KeyClass(s, key, k)
         == KeyClass(s[..|s| - 1], key, k) + (if k == key(s[|s| - 1]) then [s[|s| - 1]] else [])
  {
    assert s == s[..|s| - 1] + [s[|s| - 1]];
    FilterSnoc(s[..|s| - 1], s[|s| - 1], KeyIs(key, k));
  }

  lemma SameLastKey<T>(a: seq<T>, b: seq<T>, key: T -> int)
    requires |a| > 0 && |b| > 0 && SortedBy(b, key)
    requires KeyClass(a, key, key(a[|a| - 1])) == KeyClass(b, key, key(a[|a| - 1]))
    ensures key(a[|a| - 1]) <= key(b[|b| - 1])
  {
    var k := key(a[|a| - 1]);
    KeyClassDropLast(a, key, k);
    var c := KeyClass(b, key, k);
    assert c[|c| - 1] in multiset(b);
    assert KeyIs(key, k)(c[|c| - 1]);
    LastIsMax(b, key, c[|c| - 1]);
  }

  lemma DropSameLast<T>(a: seq<T>, b: seq<T>, key: T -> int, k: int)
    requires |a| > 0 && |b| > 0 && a[|a| - 1] == b[|b| - 1]
    requires KeyClass(a, key, k) == KeyClass(b, key, k)
    ensures KeyClass(a[..|a| - 1], key, k) == KeyClass(b[..|b| - 1], key, k)
  {
    KeyClassDropLast(a, key, k);
    KeyClassDropLast(b, key, k);
    var x, y := KeyClass(a[..|a| - 1], key, k), KeyClass(b[..|b| - 1], key, k);
    if k == key(a[|a| - 1]) {
      assert (x + [a[|a| - 1]])[..|x|] == x;
      assert (y + [a[|a| - 1]])[..|y|] == y;
    }
  }

  lemma SameClassesSameEmptiness<T>(a: seq<T>, b: seq<T>, key: T -> int)
    requires forall k :: KeyClass(a, key, k) == KeyClass(b, key, k)
    ensures |a| == 0 <==> |b| == 0
  {
    if |a| > 0 {
      KeyClassDropLast(a, key, key(a[|a| - 1]));
      assert KeyClass(b, key, key(a[|a| - 1])) != [];
    }
    if |b| > 0 {
      KeyClassDropLast(b, key, key(b[|b| - 1]));
      assert KeyClass(a, key, key(b[|b| - 1])) != [];
    }
  }

  lemma UniqueStep<T>(a: seq<T>, b: seq<T>, ia: seq<T>, ib: seq<T>, key: T -> int)
    requires |a| > 0 && |b| > 0 && ia == a[..|a| - 1] && ib == b[..|b| - 1]
    requires SortedBy(a, key) && SortedBy(b, key)
    requires forall k :: KeyClass(a, key, k) == KeyClass(b, key, k)
    ensures a[|a| - 1] == b[|b| - 1]
    ensures forall k :: KeyClass(ia, key, k) == KeyClass(ib, key, k)
  {
    SameLastKey(a, b, key);
    SameLastKey(b, a, key);
    var m := key(a[|a| - 1]);
    KeyClassDropLast(a, key, m);
    KeyClassDropLast(b, key, m);
    var ca, cb := KeyClass(a, key, m), KeyClass(b, key, m);
    assert ca[|ca| - 1] == a[|a| - 1] && cb[|cb| - 1] == b[|b| - 1];
    forall k ensures KeyClass(ia, key, k) == KeyClass(ib, key, k) {
      DropSameLast(a, b, key, k);
    }
  }

  /** Dropping the last element keeps a sequence sorted. */
  lemma SortedInit<T>(a: seq<T>, key: T -> int)
    requires |a| > 0 && SortedBy(a, key)
    ensures SortedBy(a[..|a| - 1], key)
  {
    var ia := a[..|a| - 1];
    assert forall i :: 0 <= i < |ia| ==> ia[i] == a[i];
  }

  /** Two ascending sequences with the same classes of equal keys are equal:
      ascending order and stability together determine the sort. */
  lemma {:induction false} SortedUnique<T>(a: seq<T>, b: seq<T>, key: T -> int)
    requires SortedBy(a, key) && SortedBy(b, key)
    requires forall k :: KeyClass(a, key, k) == KeyClass(b, key, k)
    ensures a == b
    decreases |a| + |b|
  {
    SameClassesSameEmptiness(a, b, key);
    if |a| > 0 {
      var ia, ib := a[..|a| - 1], b[..|b| - 1];
      assert a[|a| - 1] == b[|b| - 1] && forall k :: KeyClass(ia, key, k) == KeyClass(ib, key, k) by {
        UniqueStep(a, b, ia, ib, key);
      }
      assert SortedBy(ia, key) && SortedBy(ib, key) by {
        SortedInit(a, key);
        SortedInit(b, key);
      }
      SortedUnique(ia, ib, key);
      SnocInjective(a, b);
    }
  }

  /** Sequences with equal last elements and equal remainders are equal. */
  lemma SnocInjective<T>(a: seq<T>, b: seq<T>)
    requires |a| > 0 && |b| > 0
    requires a[..|a| - 1] == b[..|b| - 1] && a[|a| - 1] == b[|b| - 1]
    ensures a == b
  {
    assert a == a[..|a| - 1] + [a[|a| - 1]];
    assert b == b[..|b| - 1] + [b[|b| - 1]];
  }

  // ---------------------------------------------------------------------
  // The in-place algorithm

  /** Where `x` lands: after `t[..j]` when every later element has a larger
      key and `t[j - 1]`, if any, does not. */
  lemma {:induction false} InsertByAt<T>(t: seq<T>, j: int, x: T, key: T -> int)
    requires 0 <= j <= |t|
    requires forall k :: j <= k < |t| ==> key(t[k]) > key(x)
    requires j == 0 || key(t[j - 1]) <= key(x)
    ensures InsertBy(t, x, key) == t[..j] + [x] + t[j..]
    decreases |t|
  {
    if j == |t| {
      assert t[..j] == t && t[j..] == [];
    } else {
      var init, last := t[..|t| - 1], t[|t| - 1];
      assert key(last) > key(x);
      assert InsertBy(t, x, key) == InsertBy(init, x, key) + [last];
      assert init[..j] == t[..j];
      assert j == 0 || init[j - 1] == t[j - 1];
      assert forall k :: j <= k < |init| ==> init[k] == t[k];
      InsertByAt(init, j, x, key);
      assert t[j..] == init[j..] + [last];
    }
  }

  /** The array layout while `x` moves left: `t` with `x` at position `j`. */
  lemma SwapStep<T>(t: seq<T>, j: int, x: T, rest: seq<T>)
    requires 0 < j <= |t|
    ensures var s := t[..j] + [x] + t[j..] + rest;
      s[j] == x && s[j - 1] == t[j - 1] &&
      s[j - 1 := x][j := t[j - 1]] == t[..j - 1] + [x] + t[j - 1..] + rest
  {
    var s := t[..j] + [x] + t[j..] + rest;
    var u := t[..j - 1] + [x] + t[j - 1..] + rest;
    assert |s| == |u|;
    forall k | 0 <= k < |u| ensures s[j - 1 := x][j := t[j - 1]][k] == u[k] {
      if k < j - 1 {
      } else if k == j - 1 {
      } else if k == j {
      } else if k <= |t| {
        assert u[k] == t[k - 1];
      } else {
        assert u[k] == rest[k - |t| - 1];
      }
    }
  }

  /** The inner loop of insertion sort: `a[i]` moves left past every
      element of larger key, so `a[..i + 1]` becomes `InsertBy` of the old
      `a[..i]` and `a[i]`. */
  method InsertInPlace<T>(a: array<T>, i: int, key: T -> int)
    requires 0 <= i < a.Length
    modifies a
    ensures a[..] == InsertBy(old(a[..i]), old(a[i]), key) + old(a[i + 1..])
  {
    ghost var t, x, rest := a[..i], a[i], a[i + 1..];
    assert t[..i] == t && t[i..] == [];
    assert a[..] == t[..i] + [x] + t[i..] + rest;
    var j := i;
    while j > 0 && key(a[j - 1]) > key(a[j])
      invariant 0 <= j <= i
      invariant a[..] == t[..j] + [x] + t[j..] + rest
      invariant forall k :: j <= k < i ==> key(t[k]) > key(x)
    {
      SwapStep(t, j, x, rest);
      a[j - 1], a[j] := a[j], a[j - 1];
      j := j - 1;
    }
    if j > 0 {
      SwapStep(t, j, x, rest);
    }
    InsertByAt(t, j, x, key);
  }

  /** One step of the outer loop of insertion sort, on the array's contents
      `before` and `after` the inner loop. */
  lemma SortStep<T>(orig: seq<T>, i: int, before: seq<T>, after: seq<T>, key: T -> int)
    requires 0 <= i < |orig| == |before| == |after|
    requires before[..i] == SortBy(orig[..i], key) && before[i..] == orig[i..]
    requires after == InsertBy(before[..i], before[i], key) + before[i + 1..]
    ensures after[..i + 1] == SortBy(orig[..i + 1], key) && after[i + 1..] == orig[i + 1..]
  {
    var sorted := SortBy(orig[..i], key);
    assert before[i] == orig[i] && before[i + 1..] == orig[i + 1..];
    InsertByPermutes(sorted, orig[i], key);
    SplitAt(after, InsertBy(sorted, orig[i], key), orig[i + 1..]);
    assert orig[..i + 1][..i] == orig[..i];
  }

  /** The two parts of a concatenation. */
  lemma SplitAt<T>(s: seq<T>, u: seq<T>, v: seq<T>)
    requires s == u + v
    ensures s[..|u|] == u && s[|u|..] == v
  {
  }

  /** Insertion sort of `a`, in place: the array ends as `SortBy` of its
      old contents. */
  method SortInPlace<T>(a: array<T>, key: T -> int)
    modifies a
    ensures a[..] == SortBy(old(a[..]), key)
  {
    ghost var orig := a[..];
    var i := 0;
    while i < a.Length
      invariant 0 <= i <= a.Length
      invariant a[..i] == SortBy(orig[..i], key)
      invariant a[i..] == orig[i..]
    {
      ghost var before := a[..];
      InsertInPlace(a, i, key);
      SortStep(orig, i, before, a[..], key);
      i := i + 1;
    }
    assert a[..] == a[..a.Length];
    assert orig == orig[..a.Length];
  }
}
