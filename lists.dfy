/** The list idioms the stores use on keyed records, as functions over
    sequences: `filter` by key (`Without`, `Only`), `findIndex` / `find`
    by key (`FindKey`) and `reduce` to a sum (`SumOf`). */
module Lists {
  import opened Types

  /** The elements whose key differs from `k`, in their original order:
      `s.filter((x) => key(x) !== k)`. */
  function Without<T(!new), K(==)>(s: seq<T>, key: T -> K, k: K): (r: seq<T>)
    ensures |r| <= |s|
    ensures forall x :: x in r <==> x in s && key(x) != k
    ensures (forall x :: x in s ==> key(x) != k) ==> r == s
    ensures (exists x :: x in s && key(x) == k) ==> |r| < |s|
  {
    if s == [] then []
    else if key(s[0]) != k then [s[0]] + Without(s[1..], key, k)
    else Without(s[1..], key, k)
  }

  /** The elements whose key equals `k`, in their original order. */
  function Only<T(!new), K(==)>(s: seq<T>, key: T -> K, k: K): (r: seq<T>)
    ensures |r| <= |s|
    ensures forall x :: x in r <==> x in s && key(x) == k
    ensures (forall x :: x in s ==> key(x) != k) ==> r == []
  {
    if s == [] then []
    else if key(s[0]) == k then [s[0]] + Only(s[1..], key, k)
    else Only(s[1..], key, k)
  }

  /** Filtering commutes with concatenation: the elements kept from `a`
      come first, in order, then those kept from `b`. */
  lemma {:induction false} WithoutAppend<T(!new), K>(a: seq<T>, b: seq<T>, key: T -> K, k: K)
    ensures Without(a + b, key, k) == Without(a, key, k) + Without(b, key, k)
  {
    if a == [] {
      assert a + b == b;
    } else {
      assert (a + b)[0] == a[0];
      assert (a + b)[1..] == a[1..] + b;
      WithoutAppend(a[1..], b, key, k);
    }
  }

  lemma {:induction false} OnlyAppend<T(!new), K>(a: seq<T>, b: seq<T>, key: T -> K, k: K)
    ensures Only(a + b, key, k) == Only(a, key, k) + Only(b, key, k)
  {
    if a == [] {
      assert a + b == b;
    } else {
      assert (a + b)[0] == a[0];
      assert (a + b)[1..] == a[1..] + b;
      OnlyAppend(a[1..], b, key, k);
    }
  }

  /** Appending one element extends the filter by it exactly when its key matches. */
  lemma OnlySnoc<T(!new), K>(s: seq<T>, x: T, key: T -> K, k: K)
    ensures Only(s + [x], key, k) == Only(s, key, k) + if key(x) == k then [x] else []
  {
    OnlyAppend(s, [x], key, k);
    assert Only([x], key, k) == if key(x) == k then [x] else [];
  }

  /** Removing by a key twice removes nothing more. */
  lemma WithoutIdempotent<T(!new), K>(s: seq<T>, key: T -> K, k: K)
    ensures Without(Without(s, key, k), key, k) == Without(s, key, k)
  {
  }

  /** The index of the first element whose key is `k`, or `None`:
      `s.findIndex((x) => key(x) == k)` with -1 as `None`. */
  function FindKey<T(!new), K(==)>(s: seq<T>, key: T -> K, k: K): (r: Option<nat>)
    ensures r.Some? ==> r.value < |s| && key(s[r.value]) == k
    ensures r.Some? ==> forall j :: 0 <= j < r.value ==> key(s[j]) != k
    ensures r.None? <==> forall x :: x in s ==> key(x) != k
  {
    if s == [] then None
    else if key(s[0]) == k then Some(0)
    else match FindKey(s[1..], key, k)
      case None => None
      case Some(i) => Some(i + 1)
  }

  /** No two elements share a key `f`. */
  predicate DistinctBy<T, K(==)>(s: seq<T>, f: T -> K) {
    forall i, j :: 0 <= i < j < |s| ==> f(s[i]) != f(s[j])
  }

  /** Filtering keeps keys distinct: what remains is a subsequence. */
  lemma {:induction false} WithoutKeepsDistinct<T(!new), K, D>(s: seq<T>, key: T -> K, k: K, f: T -> D)
    requires DistinctBy(s, f)
    ensures DistinctBy(Without(s, key, k), f)
  {
    if s != [] {
      var rest := Without(s[1..], key, k);
      WithoutKeepsDistinct(s[1..], key, k, f);
      if key(s[0]) != k {
        forall y | y in rest ensures f(y) != f(s[0]) {
          var j :| 0 <= j < |s[1..]| && s[1..][j] == y;
          assert s[j + 1] == y;
        }
        var r := [s[0]] + rest;
        forall i, j | 0 <= i < j < |r| ensures f(r[i]) != f(r[j]) {
          if i > 0 {
            assert r[i] == rest[i - 1] && r[j] == rest[j - 1];
          } else {
            assert r[j] == rest[j - 1] && r[j] in rest;
          }
        }
      }
    }
  }

  /** With distinct keys, at most one element has a given key. */
  lemma {:induction false} OnlyOfDistinct<T(!new), K>(s: seq<T>, f: T -> K, k: K)
    requires DistinctBy(s, f)
    ensures |Only(s, f, k)| <= 1
  {
    if s != [] {
      assert DistinctBy(s[1..], f) by {
        forall i, j | 0 <= i < j < |s[1..]| ensures f(s[1..][i]) != f(s[1..][j]) {
          assert s[1..][i] == s[i + 1] && s[1..][j] == s[j + 1];
        }
      }
      if f(s[0]) == k {
        forall x | x in s[1..] ensures f(x) != k {
          var j :| 0 <= j < |s[1..]| && s[1..][j] == x;
          assert s[j + 1] == x;
        }
      } else {
        OnlyOfDistinct(s[1..], f, k);
      }
    }
  }

  /** `s.reduce((sum, x) => sum + f(x), 0)`: a left fold, so the last
      element is added last. */
  function SumOf<T>(s: seq<T>, f: T -> int): int {
    if s == [] then 0 else SumOf(s[..|s| - 1], f) + f(s[|s| - 1])
  }

  lemma {:induction false} SumAppend<T>(a: seq<T>, b: seq<T>, f: T -> int)
    ensures SumOf(a + b, f) == SumOf(a, f) + SumOf(b, f)
  {
    if b == [] {
      assert a + b == a;
    } else {
      assert (a + b)[..|a + b| - 1] == a + b[..|b| - 1];
      SumAppend(a, b[..|b| - 1], f);
    }
  }

  /** Replacing one element changes the sum by the difference of the two. */
  lemma SumUpdate<T>(s: seq<T>, i: nat, x: T, f: T -> int)
    requires i < |s|
    ensures SumOf(s[i := x], f) == SumOf(s, f) - f(s[i]) + f(x)
  {
    assert s == s[..i] + [s[i]] + s[i + 1..];
    assert s[i := x] == s[..i] + [x] + s[i + 1..];
    SumAppend(s[..i] + [s[i]], s[i + 1..], f);
    SumAppend(s[..i] + [x], s[i + 1..], f);
    SumAppend(s[..i], [s[i]], f);
    SumAppend(s[..i], [x], f);
  }

  /** Summing over the elements with one key, after appending `x`. */
  lemma SumOnlySnoc<T(!new), K>(s: seq<T>, x: T, key: T -> K, k: K, g: T -> int)
    ensures SumOf(Only(s + [x], key, k), g) == SumOf(Only(s, key, k), g) + if key(x) == k then g(x) else 0
  {
    OnlyAppend(s, [x], key, k);
    SumAppend(Only(s, key, k), Only([x], key, k), g);
    assert Only([x], key, k) == if key(x) == k then [x] else [];
    assert SumOf([x], g) == g(x) by { assert [x][..0] == []; }
  }

  /** Summing over the elements with one key, after replacing element `i`
      by an element with the same key. */
  lemma SumOnlyUpdate<T(!new), K>(s: seq<T>, i: nat, x: T, key: T -> K, k: K, g: T -> int)
    requires i < |s| && key(x) == key(s[i])
    ensures SumOf(Only(s[i := x], key, k), g) == SumOf(Only(s, key, k), g) + if key(x) == k then g(x) - g(s[i]) else 0
  {
    var a, b := s[..i], s[i + 1..];
    assert s == a + [s[i]] + b;
    assert s[i := x] == a + [x] + b;
    OnlyAppend(a + [s[i]], b, key, k);
    OnlyAppend(a + [x], b, key, k);
    SumAppend(Only(a + [s[i]], key, k), Only(b, key, k), g);
    SumAppend(Only(a + [x], key, k), Only(b, key, k), g);
    SumOnlySnoc(a, s[i], key, k, g);
    SumOnlySnoc(a, x, key, k, g);
  }
}
