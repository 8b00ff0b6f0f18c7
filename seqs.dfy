/** Sequence helpers shared by the server's stores and the client's pages: the
    first-match lookups that `Find(...).FirstOrDefault()` and JavaScript's `find`
    perform, the filters, folds, sorts and slices that LINQ and `Array.prototype`
    supply, each with the properties the rest of the model relies on. */
module Seqs {

  datatype Option<T> = None | Some(value: T)

  // ---------------------------------------------------------------------------
  // First-match lookup by key
  // ---------------------------------------------------------------------------

  /** The index of the first element whose key is `k`. */
  function FirstIndex<T, K(==)>(s: seq<T>, key: T -> K, k: K): (r: Option<nat>)
    ensures r.Some? ==> r.value < |s| && key(s[r.value]) == k
    ensures r.Some? ==> forall j :: 0 <= j < r.value ==> key(s[j]) != k
    ensures r.None? <==> forall j :: 0 <= j < |s| ==> key(s[j]) != k
  {
    if |s| == 0 then None
    else if key(s[0]) == k then Some(0)
    else match FirstIndex(s[1..], key, k)
      case None => None
      case Some(i) => Some(i + 1)
  }

  /** The first element whose key is `k`, or None. */
  function Find<T, K(==)>(s: seq<T>, key: T -> K, k: K): (r: Option<T>)
    ensures r.Some? <==> exists j :: 0 <= j < |s| && key(s[j]) == k
    ensures r.Some? ==> r.value in s && key(r.value) == k
  {
    match FirstIndex(s, key, k)
    case None => None
    case Some(i) => Some(s[i])
  }

  /** Replaces the first element whose key is `k` by `x` (a document store's replace-one). */
  function ReplaceFirst<T, K(==)>(s: seq<T>, key: T -> K, k: K, x: T): (r: seq<T>)
    ensures |r| == |s|
    ensures FirstIndex(s, key, k).None? ==> r == s
    ensures FirstIndex(s, key, k).Some? ==>
      var i := FirstIndex(s, key, k).value;
      r[i] == x && forall j :: 0 <= j < |s| && j != i ==> r[j] == s[j]
  {
    match FirstIndex(s, key, k)
    case None => s
    case Some(i) => s[i := x]
  }

  /** Removes the first element whose key is `k` (a document store's delete-one). */
  function RemoveFirst<T, K(==)>(s: seq<T>, key: T -> K, k: K): (r: seq<T>)
    ensures FirstIndex(s, key, k).None? ==> r == s
    ensures FirstIndex(s, key, k).Some? ==>
      var i := FirstIndex(s, key, k).value;
      |r| == |s| - 1 && r == s[..i] + s[i + 1..]
  {
    match FirstIndex(s, key, k)
    case None => s
    case Some(i) => s[..i] + s[i + 1..]
  }

  /** Appending a record whose key was absent makes it the one found by that key. */
  lemma {:induction false} FindAfterAppend<T, K>(s: seq<T>, key: T -> K, k: K, x: T)
    requires FirstIndex(s, key, k).None? && key(x) == k
    ensures FirstIndex(s + [x], key, k) == Some(|s|)
    ensures Find(s + [x], key, k) == Some(x)
  {
    if |s| > 0 {
      assert (s + [x])[1..] == s[1..] + [x];
      FindAfterAppend(s[1..], key, k, x);
    }
  }

  /** Appending leaves the first match of a key that was already present where it was. */
  lemma {:induction false} FindBeforeAppend<T, K>(s: seq<T>, key: T -> K, k: K, x: T)
    requires FirstIndex(s, key, k).Some?
    ensures FirstIndex(s + [x], key, k) == FirstIndex(s, key, k)
  {
    if key(s[0]) != k {
      assert (s + [x])[1..] == s[1..] + [x];
      FindBeforeAppend(s[1..], key, k, x);
    }
  }

  /** Replacing twice with a record that carries the key gives the state of one replacement. */
  lemma ReplaceFirstTwice<T, K>(s: seq<T>, key: T -> K, k: K, x: T)
    requires key(x) == k
    ensures ReplaceFirst(ReplaceFirst(s, key, k, x), key, k, x) == ReplaceFirst(s, key, k, x)
  {
    var once := ReplaceFirst(s, key, k, x);
    match FirstIndex(s, key, k)
    case None =>
    case Some(i) =>
      var j := FirstIndex(once, key, k);
      assert key(once[i]) == k;
      assert j == Some(i);
      assert once[i := x] == once;
  }

  // ---------------------------------------------------------------------------
  // Filter and map
  // ---------------------------------------------------------------------------

  /** The elements satisfying `p`, in their original order (LINQ `Where`, JS `filter`). */
  function Filter<T>(s: seq<T>, p: T -> bool): (r: seq<T>)
    ensures |r| <= |s|
    ensures forall i :: 0 <= i < |r| ==> p(r[i])
  {
    if |s| == 0 then []
    else Filter(s[..|s| - 1], p) + (if p(s[|s| - 1]) then [s[|s| - 1]] else [])
  }

  lemma {:induction false} FilterMember<T>(s: seq<T>, p: T -> bool, x: T)
    ensures x in Filter(s, p) <==> x in s && p(x)
  {
    if |s| > 0 {
      FilterMember(s[..|s| - 1], p, x);
      assert s == s[..|s| - 1] + [s[|s| - 1]];
    }
  }

  lemma FilterMemberAll<T>(s: seq<T>, p: T -> bool)
    ensures forall x :: x in Filter(s, p) <==> x in s && p(x)
  {
    forall x
      ensures x in Filter(s, p) <==> x in s && p(x)
    {
      FilterMember(s, p, x);
    }
  }

  /** Filtering distributes over concatenation: the kept elements keep their order. */
  lemma {:induction false} FilterAppend<T>(a: seq<T>, b: seq<T>, p: T -> bool)
    ensures Filter(a + b, p) == Filter(a, p) + Filter(b, p)
  {
    if |b| == 0 {
      assert a + b == a;
    } else {
      assert (a + b)[..|a + b| - 1] == a + b[..|b| - 1];
      FilterAppend(a, b[..|b| - 1], p);
    }
  }

  /** A one-element sequence is kept or dropped whole. */
  lemma FilterSingleton<T>(x: T, p: T -> bool)
    ensures Filter([x], p) == if p(x) then [x] else []
  {
    assert [x][..0] == [];
  }

  /** Every two elements, earlier first, are related by `rel`. */
  ghost predicate Pairwise<T>(s: seq<T>, rel: (T, T) -> bool)
  {
    forall i, j :: 0 <= i < j < |s| ==> rel(s[i], s[j])
  }

  /** A subsequence keeps a pairwise property. */
  lemma {:induction false} FilterPairwise<T>(s: seq<T>, p: T -> bool, rel: (T, T) -> bool)
    requires Pairwise(s, rel)
    ensures Pairwise(Filter(s, p), rel)
  {
    if |s| > 0 {
      var n := |s| - 1;
      var front := s[..n];
      assert Pairwise(front, rel);
      FilterPairwise(front, p, rel);
      var f := Filter(front, p);
      if p(s[n]) {
        forall k | 0 <= k < |f|
          ensures rel(f[k], s[n])
        {
          FilterMember(front, p, f[k]);
          var j :| 0 <= j < n && front[j] == f[k];
          assert rel(s[j], s[n]);
        }
        assert Filter(s, p) == f + [s[n]];
      }
    }
  }

  /** An element the predicate rejects leaves no trace in the filtered sequence. */
  lemma FilterSkips<T>(a: seq<T>, x: T, b: seq<T>, p: T -> bool)
    requires !p(x)
    ensures Filter(a + [x] + b, p) == Filter(a + b, p)
  {
    FilterAppend(a + [x], b, p);
    FilterAppend(a, [x], p);
    FilterAppend(a, b, p);
    FilterSingleton(x, p);
  }

  /** A filter that rejects exactly one position removes just that element. */
  lemma {:induction false} FilterDropsOne<T>(s: seq<T>, p: T -> bool, i: nat)
    requires i < |s| && !p(s[i])
    requires forall j :: 0 <= j < |s| && j != i ==> p(s[j])
    ensures Filter(s, p) == s[..i] + s[i + 1..]
  {
    var a, b := s[..i], s[i + 1..];
    assert s == a + [s[i]] + b;
    FilterAppend(a + [s[i]], b, p);
    FilterAppend(a, [s[i]], p);
    FilterKeepsAll(a, p);
    FilterKeepsAll(b, p);
    assert [s[i]][..0] == [];
  }

  /** A filter that rejects nothing returns its input. */
  lemma {:induction false} FilterKeepsAll<T>(s: seq<T>, p: T -> bool)
    requires forall i :: 0 <= i < |s| ==> p(s[i])
    ensures Filter(s, p) == s
  {
    if |s| > 0 {
      FilterKeepsAll(s[..|s| - 1], p);
    }
  }

  /** A filter keeps the whole length exactly when it rejects nothing. */
  lemma {:induction false} FilterKeepsAllIff<T>(s: seq<T>, p: T -> bool)
    ensures |Filter(s, p)| == |s| <==> forall i :: 0 <= i < |s| ==> p(s[i])
  {
    if |s| > 0 {
      var front := s[..|s| - 1];
      FilterKeepsAllIff(front, p);
      if forall i :: 0 <= i < |s| ==> p(s[i]) {
        FilterKeepsAll(s, p);
      }
    }
  }

  /** A filter that accepts nothing returns the empty sequence. */
  lemma {:induction false} FilterDropsAll<T>(s: seq<T>, p: T -> bool)
    requires forall i :: 0 <= i < |s| ==> !p(s[i])
    ensures Filter(s, p) == []
  {
    if |s| > 0 {
      FilterDropsAll(s[..|s| - 1], p);
    }
  }

  /** The distinct keys of the elements: no more of them than elements, each
      element's key among them, and each of them some element's key. */
  function KeySet<T, K>(s: seq<T>, key: T -> K): (r: set<K>)
    ensures |r| <= |s|
    ensures forall j :: 0 <= j < |s| ==> key(s[j]) in r
    ensures forall k :: k in r ==> exists j :: 0 <= j < |s| && key(s[j]) == k
  {
    if |s| == 0 then {}
    else
      var front := s[..|s| - 1];
      assert forall j :: 0 <= j < |front| ==> front[j] == s[j];
      KeySet(front, key) + {key(s[|s| - 1])}
  }

  function Map<T, U>(s: seq<T>, f: T -> U): (r: seq<U>)
    ensures |r| == |s| && forall i :: 0 <= i < |s| ==> r[i] == f(s[i])
  {
    seq(|s|, i requires 0 <= i < |s| => f(s[i]))
  }

  /** Mapping distributes over concatenation. */
  lemma MapAppend<T, U>(a: seq<T>, b: seq<T>, f: T -> U)
    ensures Map(a + b, f) == Map(a, f) + Map(b, f)
  {
  }

  /** A map that fixes every element but one is a single update. */
  lemma MapOnlyAt<T>(s: seq<T>, f: T -> T, i: nat)
    requires i < |s|
    requires forall j :: 0 <= j < |s| && j != i ==> f(s[j]) == s[j]
    ensures Map(s, f) == s[i := f(s[i])]
  {
  }

  // ---------------------------------------------------------------------------
  // Folds
  // ---------------------------------------------------------------------------

  /** Left-to-right sum (LINQ `Sum`, JS `reduce((acc, x) => acc + f(x), 0)`). */
  function Sum<T>(s: seq<T>, f: T -> real): real
  {
    if |s| == 0 then 0.0 else Sum(s[..|s| - 1], f) + f(s[|s| - 1])
  }

  lemma {:induction false} SumAppend<T>(a: seq<T>, b: seq<T>, f: T -> real)
    ensures Sum(a + b, f) == Sum(a, f) + Sum(b, f)
  {
    if |b| == 0 {
      assert a + b == a;
    } else {
      assert (a + b)[..|a + b| - 1] == a + b[..|b| - 1];
      SumAppend(a, b[..|b| - 1], f);
    }
  }

  /** Splitting a sequence by a predicate `p` and its complement `q` splits its sum. */
  lemma {:induction false} SumFilterSplit<T>(s: seq<T>, f: T -> real, p: T -> bool, q: T -> bool)
    requires forall x :: q(x) == !p(x)
    ensures Sum(s, f) == Sum(Filter(s, p), f) + Sum(Filter(s, q), f)
  {
    if |s| > 0 {
      var front, last := s[..|s| - 1], s[|s| - 1];
      SumFilterSplit(front, f, p, q);
      var keptP := if p(last) then [last] else [];
      var keptQ := if q(last) then [last] else [];
      SumAppend(Filter(front, p), keptP, f);
      SumAppend(Filter(front, q), keptQ, f);
      assert [last][..0] == [];
      assert Sum(keptP, f) + Sum(keptQ, f) == f(last);
    }
  }

  lemma {:induction false} SumNonNegative<T>(s: seq<T>, f: T -> real)
    requires forall i :: 0 <= i < |s| ==> f(s[i]) >= 0.0
    ensures Sum(s, f) >= 0.0
  {
    if |s| > 0 {
      SumNonNegative(s[..|s| - 1], f);
    }
  }

  lemma {:induction false} SumRemoveAt<T>(s: seq<T>, i: nat, f: T -> real)
    requires i < |s|
    ensures Sum(s, f) == Sum(s[..i] + s[i + 1..], f) + f(s[i])
  {
    assert s == s[..i] + [s[i]] + s[i + 1..];
    SumAppend(s[..i] + [s[i]], s[i + 1..], f);
    SumAppend(s[..i], [s[i]], f);
    SumAppend(s[..i], s[i + 1..], f);
  }

  /** Overwriting one element changes the sum by the difference of the two terms. */
  lemma SumUpdate<T>(s: seq<T>, i: nat, x: T, f: T -> real)
    requires i < |s|
    ensures Sum(s[i := x], f) == Sum(s, f) - f(s[i]) + f(x)
  {
    var t := s[i := x];
    assert t[..i] + t[i + 1..] == s[..i] + s[i + 1..];
    SumRemoveAt(s, i, f);
    SumRemoveAt(t, i, f);
  }

  /** Taking the last element out of `a` and an equal one out of `b` keeps
      two equal multisets equal. */
  lemma MultisetRemoveLast<T>(a: seq<T>, b: seq<T>, i: nat)
    requires multiset(a) == multiset(b) && |a| > 0 && i < |b| && b[i] == a[|a| - 1]
    ensures multiset(a[..|a| - 1]) == multiset(b[..i] + b[i + 1..])
  {
    var x := a[|a| - 1];
    assert a == a[..|a| - 1] + [x];
    assert b == b[..i] + [x] + b[i + 1..];
    assert multiset(b) == multiset(b[..i]) + multiset{x} + multiset(b[i + 1..]);
    assert multiset(b[..i] + b[i + 1..]) == multiset(b[..i]) + multiset(b[i + 1..]);
    assert multiset(a) == multiset(a[..|a| - 1]) + multiset{x};
    assert multiset(a[..|a| - 1]) == multiset(a) - multiset{x};
    assert multiset(b[..i] + b[i + 1..]) == multiset(b) - multiset{x};
  }

  /** The sum does not depend on the order of the elements. */
  lemma {:induction false} SumPermutation<T>(a: seq<T>, b: seq<T>, f: T -> real)
    requires multiset(a) == multiset(b)
    ensures Sum(a, f) == Sum(b, f)
  {
    if |a| == 0 {
      assert |b| == |multiset(b)| == 0;
    } else {
      var x := a[|a| - 1];
      assert x in multiset(b);
      var i :| 0 <= i < |b| && b[i] == x;
      var a', b' := a[..|a| - 1], b[..i] + b[i + 1..];
      MultisetRemoveLast(a, b, i);
      SumPermutation(a', b', f);
      SumRemoveAt(b, i, f);
    }
  }

  /** Integer left-to-right sum. */
  function SumInt<T>(s: seq<T>, f: T -> int): int
  {
    if |s| == 0 then 0 else SumInt(s[..|s| - 1], f) + f(s[|s| - 1])
  }

  lemma {:induction false} SumIntAppend<T>(a: seq<T>, b: seq<T>, f: T -> int)
    ensures SumInt(a + b, f) == SumInt(a, f) + SumInt(b, f)
  {
    if |b| == 0 {
      assert a + b == a;
    } else {
      assert (a + b)[..|a + b| - 1] == a + b[..|b| - 1];
      SumIntAppend(a, b[..|b| - 1], f);
    }
  }

  lemma {:induction false} SumIntUpdate<T>(s: seq<T>, i: nat, x: T, f: T -> int)
    requires i < |s|
    ensures SumInt(s[i := x], f) == SumInt(s, f) - f(s[i]) + f(x)
  {
    var n := |s| - 1;
    if i < n {
      assert s[i := x][..n] == s[..n][i := x];
      SumIntUpdate(s[..n], i, x, f);
    } else {
      assert s[i := x][..n] == s[..n];
    }
  }

  lemma {:induction false} SumIntBounds<T>(s: seq<T>, f: T -> int, lo: int)
    requires forall i :: 0 <= i < |s| ==> f(s[i]) >= lo
    ensures SumInt(s, f) >= lo * |s|
  {
    if |s| > 0 {
      SumIntBounds(s[..|s| - 1], f, lo);
    }
  }

  // ---------------------------------------------------------------------------
  // Stable sort, descending by a key
  // ---------------------------------------------------------------------------

  ghost predicate SortedDesc<T>(s: seq<T>, key: T -> real)
  {
    forall i, j :: 0 <= i < j < |s| ==> key(s[i]) >= key(s[j])
  }

  /** Puts `x` after every element whose key is at least `x`'s, so equal keys keep arrival order. */
  function InsertDesc<T>(s: seq<T>, x: T, key: T -> real): seq<T>
  {
    if |s| == 0 then [x]
    else if key(s[0]) >= key(x) then [s[0]] + InsertDesc(s[1..], x, key)
    else [x] + s
  }

  lemma {:induction false} InsertDescMultiset<T>(s: seq<T>, x: T, key: T -> real)
    ensures multiset(InsertDesc(s, x, key)) == multiset(s) + multiset{x}
  {
    if |s| > 0 && key(s[0]) >= key(x) {
      InsertDescMultiset(s[1..], x, key);
      assert s == [s[0]] + s[1..];
    }
  }

  /** Inserting an element no larger than a bound keeps every key under the bound. */
  lemma {:induction false} InsertDescBelow<T>(s: seq<T>, x: T, key: T -> real, bound: real)
    requires forall i :: 0 <= i < |s| ==> key(s[i]) <= bound
    requires key(x) <= bound
    ensures forall i :: 0 <= i < |InsertDesc(s, x, key)| ==> key(InsertDesc(s, x, key)[i]) <= bound
  {
    if |s| > 0 && key(s[0]) >= key(x) {
      InsertDescBelow(s[1..], x, key, bound);
    }
  }

  lemma {:induction false} InsertDescSorted<T>(s: seq<T>, x: T, key: T -> real)
    requires SortedDesc(s, key)
    ensures SortedDesc(InsertDesc(s, x, key), key)
  {
    if |s| > 0 && key(s[0]) >= key(x) {
      var rest := InsertDesc(s[1..], x, key);
      InsertDescSorted(s[1..], x, key);
      InsertDescBelow(s[1..], x, key, key(s[0]));
      var r := [s[0]] + rest;
      assert r == InsertDesc(s, x, key);
      forall i, j | 0 <= i < j < |r| ensures key(r[i]) >= key(r[j]) {
        if i == 0 {
          assert r[j] == rest[j - 1];
        } else {
          assert r[i] == rest[i - 1] && r[j] == rest[j - 1];
        }
      }
    }
  }

  /** A stable sort, largest key first (LINQ `OrderByDescending`, a JS `sort` with `key(b) - key(a)`). */
  function SortDesc<T>(s: seq<T>, key: T -> real): (r: seq<T>)
    ensures multiset(r) == multiset(s)
    ensures SortedDesc(r, key)
  {
    if |s| == 0 then []
    else
      var sorted := SortDesc(s[..|s| - 1], key);
      InsertDescMultiset(sorted, s[|s| - 1], key);
      InsertDescSorted(sorted, s[|s| - 1], key);
      assert s == s[..|s| - 1] + [s[|s| - 1]];
      InsertDesc(sorted, s[|s| - 1], key)
  }

  // ---------------------------------------------------------------------------
  // JavaScript slices and reversal
  // ---------------------------------------------------------------------------

  /** How `Array.prototype.slice` clamps an index: negative counts from the end. */
  function SliceIndex(i: int, len: nat): (r: nat)
    ensures r <= len
    ensures 0 <= i <= len ==> r == i
  {
    if i < 0 then (if len + i < 0 then 0 else len + i)
    else if i > len then len
    else i
  }

  /** `s.slice(start, end)`. */
  function JsSlice<T>(s: seq<T>, start: int, end: int): (r: seq<T>)
    ensures |r| <= |s|
  {
    var from, to := SliceIndex(start, |s|), SliceIndex(end, |s|);
    if from < to then s[from..to] else []
  }

  /** `s.slice(0, n)` keeps the first min(n, |s|) elements. */
  lemma TakeIsPrefix<T>(s: seq<T>, n: nat)
    ensures JsSlice(s, 0, n) == s[..if n < |s| then n else |s|]
  {
  }

  function Reverse<T>(s: seq<T>): (r: seq<T>)
    ensures |r| == |s|
    ensures forall i :: 0 <= i < |s| ==> r[i] == s[|s| - 1 - i]
  {
    if |s| == 0 then [] else [s[|s| - 1]] + Reverse(s[..|s| - 1])
  }
}
