/**
 * `Array.prototype.sort` with a comparator `(a, b) => key(a) - key(b)`
 * (ascending) or `key(b) - key(a)` (descending). Since ES2019 the sort is
 * stable, and a stable sort by a key has exactly one possible result,
 * which `SortBy` computes by insertion.
 */
module StableSort {

  /** The comparator puts `a` strictly after `b`. */
  predicate After<T>(a: T, b: T, key: T -> real, desc: bool)
  {
    if desc then key(a) < key(b) else key(a) > key(b)
  }

  /** Inserts `x` after every entry of `s` it need not precede, scanning from the end. */
  function Insert<T>(x: T, s: seq<T>, key: T -> real, desc: bool): (r: seq<T>)
    ensures |r| == |s| + 1
    decreases |s|
  {
    if s == [] then [x]
    else if After(s[|s| - 1], x, key, desc) then Insert(x, s[..|s| - 1], key, desc) + [s[|s| - 1]]
    else s + [x]
  }

  /** The stable sort of `s` by `key`. */
  function SortBy<T>(s: seq<T>, key: T -> real, desc: bool): (r: seq<T>)
    ensures |r| == |s|
    decreases |s|
  {
    if s == [] then [] else Insert(s[|s| - 1], SortBy(s[..|s| - 1], key, desc), key, desc)
  }

  /** No entry is placed before one it must follow. */
  ghost predicate Ordered<T>(s: seq<T>, key: T -> real, desc: bool)
  {
    forall i, j :: 0 <= i < j < |s| ==> !After(s[i], s[j], key, desc)
  }

  /** The entries of `s` whose key is `v`, in order. */
  function WithKey<T>(s: seq<T>, key: T -> real, v: real): (r: seq<T>)
    decreases |s|
  {
    if s == [] then []
    else WithKey(s[..|s| - 1], key, v) + (if key(s[|s| - 1]) == v then [s[|s| - 1]] else [])
  }

  lemma {:induction false} InsertPermutes<T>(x: T, s: seq<T>, key: T -> real, desc: bool)
    ensures multiset(Insert(x, s, key, desc)) == multiset(s) + multiset{x}
    decreases |s|
  {
    if s != [] && After(s[|s| - 1], x, key, desc) {
      InsertPermutes(x, s[..|s| - 1], key, desc);
      assert s == s[..|s| - 1] + [s[|s| - 1]];
    }
  }

  /** The sorted list holds exactly the entries of the input. */
  lemma {:induction false} SortByPermutes<T>(s: seq<T>, key: T -> real, desc: bool)
    ensures multiset(SortBy(s, key, desc)) == multiset(s)
    decreases |s|
  {
    if s != [] {
      SortByPermutes(s[..|s| - 1], key, desc);
      InsertPermutes(s[|s| - 1], SortBy(s[..|s| - 1], key, desc), key, desc);
      assert s == s[..|s| - 1] + [s[|s| - 1]];
    }
  }

  lemma {:induction false} InsertOrdered<T>(x: T, s: seq<T>, key: T -> real, desc: bool)
    requires Ordered(s, key, desc)
    ensures Ordered(Insert(x, s, key, desc), key, desc)
    ensures forall i :: 0 <= i < |s| ==> Insert(x, s, key, desc)[i] in s || Insert(x, s, key, desc)[i] == x
    decreases |s|
  {
    var r := Insert(x, s, key, desc);
    if s == [] {
    } else if After(s[|s| - 1], x, key, desc) {
      var init := s[..|s| - 1];
      var last := s[|s| - 1];
      InsertOrdered(x, init, key, desc);
      InsertPermutes(x, init, key, desc);
      var r0 := Insert(x, init, key, desc);
      assert r == r0 + [last];
      forall i | 0 <= i < |r0| ensures !After(r0[i], last, key, desc) {
        assert r0[i] in multiset(r0);
        if r0[i] != x {
          assert r0[i] in multiset(init);
          var k :| 0 <= k < |init| && init[k] == r0[i];
          assert s[k] == init[k];
        }
      }
      forall i | 0 <= i < |s| ensures r[i] in s || r[i] == x {
        if i < |r0| {
          assert r0[i] in multiset(r0);
        }
      }
    } else {
      forall i | 0 <= i < |s| ensures !After(s[i], x, key, desc) {
        if i < |s| - 1 {
          assert !After(s[i], s[|s| - 1], key, desc);
        }
      }
    }
  }

  /** The sorted list is in key order (descending when `desc`). */
  lemma {:induction false} SortByOrdered<T>(s: seq<T>, key: T -> real, desc: bool)
    ensures Ordered(SortBy(s, key, desc), key, desc)
    decreases |s|
  {
    if s != [] {
      SortByOrdered(s[..|s| - 1], key, desc);
      InsertOrdered(s[|s| - 1], SortBy(s[..|s| - 1], key, desc), key, desc);
    }
  }

  lemma {:induction false} WithKeyAppend<T>(a: seq<T>, b: seq<T>, key: T -> real, v: real)
    ensures WithKey(a + b, key, v) == WithKey(a, key, v) + WithKey(b, key, v)
    decreases |b|
  {
    if b == [] {
      assert a + b == a;
    } else {
      var b0 := b[..|b| - 1];
      assert (a + b)[..|a + b| - 1] == a + b0;
      WithKeyAppend(a, b0, key, v);
    }
  }

  lemma {:induction false} InsertStable<T>(x: T, s: seq<T>, key: T -> real, desc: bool, v: real)
    ensures WithKey(Insert(x, s, key, desc), key, v)
         == WithKey(s, key, v) + (if key(x) == v then [x] else [])
    decreases |s|
  {
    if s == [] {
    } else if After(s[|s| - 1], x, key, desc) {
      var init := s[..|s| - 1];
      var last := s[|s| - 1];
      InsertStable(x, init, key, desc, v);
      WithKeyAppend(Insert(x, init, key, desc), [last], key, v);
      assert key(last) != key(x);
      assert WithKey([last], key, v) == (if key(last) == v then [last] else []) by {
        assert [last][..0] == [];
      }
    } else {
      WithKeyAppend(s, [x], key, v);
      assert WithKey([x], key, v) == (if key(x) == v then [x] else []) by {
        assert [x][..0] == [];
      }
    }
  }

  /** Entries with equal keys keep their relative order: the sort is stable. */
  lemma {:induction false} SortByStable<T>(s: seq<T>, key: T -> real, desc: bool, v: real)
    ensures WithKey(SortBy(s, key, desc), key, v) == WithKey(s, key, v)
    decreases |s|
  {
    if s != [] {
      SortByStable(s[..|s| - 1], key, desc, v);
      InsertStable(s[|s| - 1], SortBy(s[..|s| - 1], key, desc), key, desc, v);
    }
  }

  /** A list already in order is left as it is. */
  lemma {:induction false} SortBySorted<T>(s: seq<T>, key: T -> real, desc: bool)
    requires Ordered(s, key, desc)
    ensures SortBy(s, key, desc) == s
    decreases |s|
  {
    if s != [] {
      var init := s[..|s| - 1];
      assert Ordered(init, key, desc);
      SortBySorted(init, key, desc);
      if |init| > 0 {
        assert !After(init[|init| - 1], s[|s| - 1], key, desc);
      }
      assert init + [s[|s| - 1]] == s;
    }
  }

  /**
   * Sorts `a` in place by insertion: each entry in turn is inserted into
   * the sorted prefix before it.
   */
  method SortInPlace<T>(a: array<T>, key: T -> real, desc: bool)
    modifies a
    ensures a[..] == SortBy(old(a[..]), key, desc)
  {
    ghost var input := a[..];
    var i := 0;
    while i < a.Length
      invariant 0 <= i <= a.Length
      invariant a[..i] == SortBy(input[..i], key, desc)
      invariant a[i..] == input[i..]
    {
      InsertInPlace(a, i, key, desc);
      assert input[..i + 1][..i] == input[..i];
      i := i + 1;
    }
    assert input[..a.Length] == input;
  }

  /** Passing over an entry that must follow `x` moves it behind `x`. */
  lemma InsertPast<T>(x: T, s: seq<T>, j: nat, key: T -> real, desc: bool)
    requires 0 < j <= |s| && After(s[j - 1], x, key, desc)
    ensures Insert(x, s[..j], key, desc) + s[j..] == Insert(x, s[..j - 1], key, desc) + s[j - 1..]
  {
    assert s[..j][..j - 1] == s[..j - 1];
    assert s[j - 1..] == [s[j - 1]] + s[j..];
  }

  /** Stopping in front of an entry `x` may follow puts `x` right there. */
  lemma InsertStop<T>(x: T, s: seq<T>, j: nat, key: T -> real, desc: bool)
    requires j <= |s| && (j == 0 || !After(s[j - 1], x, key, desc))
    ensures Insert(x, s[..j], key, desc) + s[j..] == s[..j] + [x] + s[j..]
  {
  }

  /**
   * Moves `a[i]` into place within the prefix `a[..i]`, shifting the
   * entries that must follow it one place to the right.
   */
  method InsertInPlace<T>(a: array<T>, i: nat, key: T -> real, desc: bool)
    requires i < a.Length
    modifies a
    ensures a[..i + 1] == Insert(old(a[i]), old(a[..i]), key, desc)
    ensures a[i + 1..] == old(a[i + 1..])
  {
    var x := a[i];
    ghost var sorted := a[..i];
    var j := i;
    assert sorted[..j] == sorted && sorted[j..] == [];
    while j > 0 && After(a[j - 1], x, key, desc)
      invariant 0 <= j <= i
      invariant forall k :: 0 <= k < j ==> a[k] == sorted[k]
      invariant forall k :: j < k <= i ==> a[k] == sorted[k - 1]
      invariant forall k :: i < k < a.Length ==> a[k] == old(a[k])
      invariant Insert(x, sorted, key, desc) == Insert(x, sorted[..j], key, desc) + sorted[j..]
    {
      InsertPast(x, sorted, j, key, desc);
      a[j] := a[j - 1];
      j := j - 1;
    }
    a[j] := x;
    InsertStop(x, sorted, j, key, desc);
    assert a[..i + 1] == sorted[..j] + [x] + sorted[j..];
    assert forall k :: i + 1 <= k < a.Length ==> a[k] == old(a[k]);
  }
}
