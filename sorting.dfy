/** `Array.prototype.sort` with a comparator of the form `(a, b) => key(b) - key(a)`:
    a stable sort into non-increasing key order. ECMAScript requires the sort to
    be stable, so the result is fully determined; an insertion sort that puts
    each element before the already-sorted elements of equal key computes it. */
module Sorting {

  /** Non-increasing by `key`. */
  predicate SortedDesc<T>(s: seq<T>, key: T -> int) {
    forall i, j :: 0 <= i < j < |s| ==> key(s[i]) >= key(s[j])
  }

  /** The elements of `s` whose key is `k`, in their order in `s`. */
  function WithKey<T>(s: seq<T>, key: T -> int, k: int): (r: seq<T>)
    ensures |r| <= |s|
    ensures forall x :: x in r ==> x in s && key(x) == k
  {
    if s == [] then []
    else (if key(s[0]) == k then [s[0]] else []) + WithKey(s[1..], key, k)
  }

  /** Inserts `x` in front of the first element whose key is not larger. */
  function Insert<T>(x: T, s: seq<T>, key: T -> int): (r: seq<T>)
    requires SortedDesc(s, key)
    ensures SortedDesc(r, key)
    ensures multiset(r) == multiset(s) + multiset{x}
    ensures |r| == |s| + 1
  {
    if s == [] || key(x) >= key(s[0]) then
      ConsSorted(x, s, key);
      [x] + s
    else
      var rest := Insert(x, s[1..], key);
      assert s == [s[0]] + s[1..];
      HeadDominates(s[0], s[1..], x, rest, key);
      ConsSorted(s[0], rest, key);
      [s[0]] + rest
  }

  /** The head of a descending list passed over by `Insert` is no smaller
      than the first element of what follows it. */
  lemma HeadDominates<T>(h: T, t: seq<T>, x: T, rest: seq<T>, key: T -> int)
    requires SortedDesc([h] + t, key) && key(x) < key(h)
    requires rest != [] && multiset(rest) == multiset(t) + multiset{x}
    ensures key(h) >= key(rest[0])
  {
    assert rest[0] in multiset(rest);
    if rest[0] != x {
      assert rest[0] in multiset(t);
      var j :| 0 <= j < |t| && t[j] == rest[0];
      assert ([h] + t)[0] == h && ([h] + t)[j + 1] == t[j];
      assert key(([h] + t)[0]) >= key(([h] + t)[j + 1]);
    }
  }

  /** A head no smaller than the first element of a descending list extends it. */
  lemma ConsSorted<T>(h: T, s: seq<T>, key: T -> int)
    requires SortedDesc(s, key)
    requires s == [] || key(h) >= key(s[0])
    ensures SortedDesc([h] + s, key)
  {
    var r := [h] + s;
    forall i, j | 0 <= i < j < |r| ensures key(r[i]) >= key(r[j]) {
      if i == 0 {
        assert r[j] == s[j - 1];
        if j > 1 {
          assert key(s[0]) >= key(s[j - 1]);
        }
      } else {
        assert r[i] == s[i - 1] && r[j] == s[j - 1];
      }
    }
  }

  /** The stable sort into non-increasing key order. */
  function SortDesc<T>(s: seq<T>, key: T -> int): (r: seq<T>)
    ensures SortedDesc(r, key)
    ensures multiset(r) == multiset(s)
    ensures |r| == |s|
  {
    if s == [] then []
    else
      assert s == [s[0]] + s[1..];
      Insert(s[0], SortDesc(s[1..], key), key)
  }

  lemma {:induction false} WithKeyAppend<T>(a: seq<T>, b: seq<T>, key: T -> int, k: int)
    ensures WithKey(a + b, key, k) == WithKey(a, key, k) + WithKey(b, key, k)
  {
    if a == [] {
      assert a + b == b;
    } else {
      assert (a + b)[1..] == a[1..] + b;
      WithKeyAppend(a[1..], b, key, k);
    }
  }

  /** Insertion keeps `x` ahead of every element of equal key. */
  lemma {:induction false} InsertStable<T>(x: T, s: seq<T>, key: T -> int, k: int)
    requires SortedDesc(s, key)
    ensures WithKey(Insert(x, s, key), key, k)
         == (if key(x) == k then [x] else []) + WithKey(s, key, k)
  {
    if s == [] || key(x) >= key(s[0]) {
      WithKeyCons(x, s, key, k);
    } else {
      InsertStep(x, s, key);
      var rest := Insert(x, s[1..], key);
      InsertStable(x, s[1..], key, k);
      WithKeyCons(s[0], rest, key, k);
      WithKeyCons(s[0], s[1..], key, k);
      assert s == [s[0]] + s[1..];
      SwapHeads(s[0], x, WithKey(rest, key, k), WithKey(s[1..], key, k), key, k);
    }
  }

  /** One step of `Insert` past a head with a larger key. */
  lemma InsertStep<T>(x: T, s: seq<T>, key: T -> int)
    requires SortedDesc(s, key) && s != [] && key(x) < key(s[0])
    ensures SortedDesc(s[1..], key)
    ensures Insert(x, s, key) == [s[0]] + Insert(x, s[1..], key)
  {
  }

  /** At most one of two elements with different keys can have key `k`, so
      their contributions to `WithKey` commute. */
  lemma SwapHeads<T>(h: T, x: T, wr: seq<T>, wt: seq<T>, key: T -> int, k: int)
    requires key(x) < key(h)
    requires wr == (if key(x) == k then [x] else []) + wt
    ensures (if key(h) == k then [h] else []) + wr
         == (if key(x) == k then [x] else []) + ((if key(h) == k then [h] else []) + wt)
  {
  }

  lemma WithKeyCons<T>(x: T, s: seq<T>, key: T -> int, k: int)
    ensures WithKey([x] + s, key, k) == (if key(x) == k then [x] else []) + WithKey(s, key, k)
  {
    assert ([x] + s)[1..] == s;
  }

  /** Stability: for every key, the elements of that key keep their relative
      order. */
  lemma {:induction false} SortDescStable<T>(s: seq<T>, key: T -> int, k: int)
    ensures WithKey(SortDesc(s, key), key, k) == WithKey(s, key, k)
  {
    if s != [] {
      SortDescStable(s[1..], key, k);
      InsertStable(s[0], SortDesc(s[1..], key), key, k);
    }
  }

  /** A stable sort is unique: any sequence that is sorted and has the same
      elements of each key, in the same order, as `s` is `SortDesc(s)`. So the
      model agrees with every conforming `Array.prototype.sort`. */
  lemma SortDescUnique<T>(s: seq<T>, r: seq<T>, key: T -> int)
    requires SortedDesc(r, key)
    requires forall k :: WithKey(r, key, k) == WithKey(s, key, k)
    ensures r == SortDesc(s, key)
  {
    var t := SortDesc(s, key);
    forall k ensures WithKey(r, key, k) == WithKey(t, key, k) {
      SortDescStable(s, key, k);
    }
    SortedSameClassesEqual(r, t, key);
  }

  /** Two sorted sequences with the same per-key subsequences are equal. */
  lemma {:induction false} SortedSameClassesEqual<T>(r: seq<T>, t: seq<T>, key: T -> int)
    requires SortedDesc(r, key) && SortedDesc(t, key)
    requires forall k :: WithKey(r, key, k) == WithKey(t, key, k)
    ensures r == t
    decreases |r| + |t|
  {
    if r == [] {
      if t != [] {
        WithKeyHead(t, key);
        assert false;
      }
    } else if t == [] {
      WithKeyHead(r, key);
      assert false;
    } else {
      // Both heads carry the largest key; then the heads coincide.
      var kr, kt := key(r[0]), key(t[0]);
      assert WithKey(r, key, kr)[0] == r[0];
      var y := WithKey(t, key, kr)[0];
      assert y in t;
      assert kt >= kr by { FirstIsMax(t, key, y); }
      assert WithKey(t, key, kt)[0] == t[0];
      var z := WithKey(r, key, kt)[0];
      assert z in r;
      assert kr >= kt by { FirstIsMax(r, key, z); }
      assert r[0] == t[0];
      forall k ensures WithKey(r[1..], key, k) == WithKey(t[1..], key, k) {
        var h := if key(r[0]) == k then [r[0]] else [];
        assert WithKey(r, key, k) == h + WithKey(r[1..], key, k);
        assert WithKey(t, key, k) == h + WithKey(t[1..], key, k);
        assert WithKey(r[1..], key, k) == WithKey(r, key, k)[|h|..];
        assert WithKey(t[1..], key, k) == WithKey(t, key, k)[|h|..];
      }
      SortedSameClassesEqual(r[1..], t[1..], key);
    }
  }

  lemma WithKeyHead<T>(s: seq<T>, key: T -> int)
    requires s != []
    ensures WithKey(s, key, key(s[0])) != [] && WithKey(s, key, key(s[0]))[0] == s[0]
  {
  }

  /** In a descending list, an element outside the first `n` has a key no
      larger than the `n`-th. */
  lemma PrefixDominates<T>(s: seq<T>, n: nat, key: T -> int, y: T)
    requires SortedDesc(s, key) && 0 < n <= |s|
    requires y in multiset(s) - multiset(s[..n])
    ensures key(y) <= key(s[n - 1])
  {
    var rest := s[n..];
    assert s == s[..n] + rest;
    assert multiset(s) == multiset(s[..n]) + multiset(rest);
    assert y in rest;
    var j :| 0 <= j < |rest| && rest[j] == y;
    assert s[n + j] == y;
  }

  lemma FirstIsMax<T>(s: seq<T>, key: T -> int, y: T)
    requires SortedDesc(s, key) && y in s
    ensures key(s[0]) >= key(y)
  {
    var i :| 0 <= i < |s| && s[i] == y;
    if i > 0 {
      assert key(s[0]) >= key(s[i]);
    }
  }
}
