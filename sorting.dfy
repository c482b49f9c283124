/** `Array.prototype.sort` with a comparator `(a, b) => key(b) - key(a)`: a stable
    sort into descending key order (ECMAScript requires stability since 2019). It is
    written here as an insertion sort; what callers rely on is stated by the
    ensures clauses and the stability lemma, which together fix the result. */
module Sorting {

  /** Every element's key is at least the key of every later element. */
  predicate SortedDesc<T>(s: seq<T>, key: T -> int) {
    forall i, j :: 0 <= i < j < |s| ==> key(s[i]) >= key(s[j])
  }

  /** `s.map(f)`. */
  function MapSeq<T, U>(s: seq<T>, f: T -> U): (r: seq<U>)
    ensures |r| == |s|
    ensures forall i :: 0 <= i < |s| ==> r[i] == f(s[i])
  {
    seq(|s|, i requires 0 <= i < |s| => f(s[i]))
  }

  /** The elements whose key is `k`, in their order in `s`. */
  function WithKey<T>(s: seq<T>, key: T -> int, k: int): (r: seq<T>)
    ensures |r| <= |s|
  {
    if s == [] then []
    else (if key(s[0]) == k then [s[0]] else []) + WithKey(s[1..], key, k)
  }

  /** Places `x` after every element whose key is at least `key(x)`. */
  function InsertDesc<T>(s: seq<T>, x: T, key: T -> int): (r: seq<T>)
    ensures |r| == |s| + 1
  {
    if s == [] then [x]
    else if key(s[0]) >= key(x) then [s[0]] + InsertDesc(s[1..], x, key)
    else [x] + s
  }

  lemma {:induction false} InsertDescPermutes<T>(s: seq<T>, x: T, key: T -> int)
    ensures multiset(InsertDesc(s, x, key)) == multiset(s) + multiset{x}
  {
    if s != [] {
      if key(s[0]) >= key(x) {
        InsertDescPermutes(s[1..], x, key);
        assert s == [s[0]] + s[1..];
      } else {
        assert InsertDesc(s, x, key) == [x] + s;
      }
    }
  }

  /** Inserting keeps every key below a common bound. */
  lemma {:induction false} InsertDescBounded<T>(s: seq<T>, x: T, key: T -> int, b: int)
    requires forall i :: 0 <= i < |s| ==> key(s[i]) <= b
    requires key(x) <= b
    ensures forall i :: 0 <= i < |s| + 1 ==> key(InsertDesc(s, x, key)[i]) <= b
  {
    var r := InsertDesc(s, x, key);
    if s == [] {
    } else if key(s[0]) >= key(x) {
      var rest := InsertDesc(s[1..], x, key);
      forall i | 0 <= i < |s| - 1 ensures key(s[1..][i]) <= b {
        assert s[1..][i] == s[i + 1];
      }
      InsertDescBounded(s[1..], x, key, b);
      forall i | 0 <= i < |r| ensures key(r[i]) <= b {
        if i > 0 {
          assert r[i] == rest[i - 1];
        }
      }
    } else {
      forall i | 0 <= i < |r| ensures key(r[i]) <= b {
        if i > 0 {
          assert r[i] == s[i - 1];
        }
      }
    }
  }

  lemma {:induction false} InsertDescSorted<T>(s: seq<T>, x: T, key: T -> int)
    requires SortedDesc(s, key)
    ensures SortedDesc(InsertDesc(s, x, key), key)
  {
    if s != [] {
      var r := InsertDesc(s, x, key);
      if key(s[0]) >= key(x) {
        var tail := s[1..];
        var rest := InsertDesc(tail, x, key);
        assert r == [s[0]] + rest;
        forall i, j | 0 <= i < j < |tail| ensures key(tail[i]) >= key(tail[j]) {
          assert tail[i] == s[i + 1] && tail[j] == s[j + 1];
        }
        InsertDescSorted(tail, x, key);
        forall i | 0 <= i < |tail| ensures key(tail[i]) <= key(s[0]) {
          assert tail[i] == s[i + 1];
        }
        InsertDescBounded(tail, x, key, key(s[0]));
        forall i, j | 0 <= i < j < |r| ensures key(r[i]) >= key(r[j]) {
          assert r[j] == rest[j - 1];
          if i > 0 {
            assert r[i] == rest[i - 1];
          }
        }
      } else {
        assert r == [x] + s;
        forall i, j | 0 <= i < j < |r| ensures key(r[i]) >= key(r[j]) {
          assert r[j] == s[j - 1];
          if i > 0 {
            assert r[i] == s[i - 1];
          } else {
            assert key(s[0]) >= key(s[j - 1]);
          }
        }
      }
    }
  }

  /** The stable descending sort of `s`. */
  function SortDesc<T>(s: seq<T>, key: T -> int): (r: seq<T>)
    ensures |r| == |s|
    ensures multiset(r) == multiset(s)
    ensures SortedDesc(r, key)
  {
    if s == [] then []
    else
      assert s == s[..|s| - 1] + [s[|s| - 1]];
      var sorted := SortDesc(s[..|s| - 1], key);
      InsertDescSorted(sorted, s[|s| - 1], key);
      InsertDescPermutes(sorted, s[|s| - 1], key);
      InsertDesc(sorted, s[|s| - 1], key)
  }

  lemma {:induction false} WithKeyAppend<T>(a: seq<T>, b: seq<T>, key: T -> int, k: int)
    ensures WithKey(a + b, key, k) == WithKey(a, key, k) + WithKey(b, key, k)
  {
    if a == [] {
      assert a + b == b;
    } else {
      var head := if key(a[0]) == k then [a[0]] else [];
      assert (a + b)[0] == a[0];
      assert (a + b)[1..] == a[1..] + b;
      WithKeyAppend(a[1..], b, key, k);
      calc {
        WithKey(a + b, key, k);
        head + WithKey(a[1..] + b, key, k);
        head + (WithKey(a[1..], key, k) + WithKey(b, key, k));
        (head + WithKey(a[1..], key, k)) + WithKey(b, key, k);
        WithKey(a, key, k) + WithKey(b, key, k);
      }
    }
  }

  lemma {:induction false} WithKeyNone<T>(s: seq<T>, key: T -> int, k: int)
    requires forall i :: 0 <= i < |s| ==> key(s[i]) != k
    ensures WithKey(s, key, k) == []
  {
    if s != [] {
      WithKeyNone(s[1..], key, k);
    }
  }

  lemma {:induction false} InsertDescStable<T>(s: seq<T>, x: T, key: T -> int, k: int)
    requires SortedDesc(s, key)
    ensures WithKey(InsertDesc(s, x, key), key, k)
         == WithKey(s, key, k) + (if key(x) == k then [x] else [])
  {
    if s == [] {
      assert WithKey([x], key, k) == (if key(x) == k then [x] else []) + WithKey([], key, k);
    } else if key(s[0]) >= key(x) {
      var tail := s[1..];
      forall i, j | 0 <= i < j < |tail| ensures key(tail[i]) >= key(tail[j]) {
        assert tail[i] == s[i + 1] && tail[j] == s[j + 1];
      }
      InsertDescStable(tail, x, key, k);
      var rest := InsertDesc(tail, x, key);
      assert InsertDesc(s, x, key) == [s[0]] + rest;
      assert ([s[0]] + rest)[1..] == rest;
      assert WithKey([s[0]] + rest, key, k) == (if key(s[0]) == k then [s[0]] else []) + WithKey(rest, key, k);
    } else {
      assert InsertDesc(s, x, key) == [x] + s;
      assert ([x] + s)[1..] == s;
      assert WithKey([x] + s, key, k) == (if key(x) == k then [x] else []) + WithKey(s, key, k);
      if key(x) == k {
        forall i | 0 <= i < |s| ensures key(s[i]) != k {
          if i > 0 {
            assert key(s[0]) >= key(s[i]);
          }
        }
        WithKeyNone(s, key, k);
      }
    }
  }

  /** Stability: among elements with equal keys the input order is kept. With
      SortedDesc and the multiset equality this determines the result. */
  lemma {:induction false} SortDescStable<T>(s: seq<T>, key: T -> int, k: int)
    ensures WithKey(SortDesc(s, key), key, k) == WithKey(s, key, k)
  {
    if s != [] {
      var init, last := s[..|s| - 1], s[|s| - 1];
      assert s == init + [last];
      SortDescStable(init, key, k);
      InsertDescStable(SortDesc(init, key), last, key, k);
      WithKeyAppend(init, [last], key, k);
    }
  }

  lemma MapSeqAppend<T, U>(a: seq<T>, b: seq<T>, f: T -> U)
    ensures MapSeq(a + b, f) == MapSeq(a, f) + MapSeq(b, f)
  {
    var l, r := MapSeq(a + b, f), MapSeq(a, f) + MapSeq(b, f);
    forall i | 0 <= i < |l| ensures l[i] == r[i] {
      if i < |a| {
        assert (a + b)[i] == a[i];
      } else {
        assert (a + b)[i] == b[i - |a|];
      }
    }
  }

  lemma MultisetCancel<T>(m1: multiset<T>, m2: multiset<T>, x: T)
    requires m1 + multiset{x} == m2 + multiset{x}
    ensures m1 == m2
  {
    forall y ensures m1[y] == m2[y] {
      assert (m1 + multiset{x})[y] == m1[y] + multiset{x}[y];
      assert (m2 + multiset{x})[y] == m2[y] + multiset{x}[y];
    }
  }

  /** `MapSeq` around the element at `j` and with that element removed. */
  lemma MapSeqAt<T, U>(b: seq<T>, j: nat, f: T -> U)
    requires j < |b|
    ensures MapSeq(b, f) == MapSeq(b[..j], f) + ([f(b[j])] + MapSeq(b[j + 1..], f))
    ensures MapSeq(b[..j] + b[j + 1..], f) == MapSeq(b[..j], f) + MapSeq(b[j + 1..], f)
  {
    var pre, x, post := b[..j], b[j], b[j + 1..];
    assert b == pre + ([x] + post);
    MapSeqCons(x, post, f);
    MapSeqAppend(pre, [x] + post, f);
    MapSeqAppend(pre, post, f);
  }

  lemma MapSeqCons<T, U>(x: T, s: seq<T>, f: T -> U)
    ensures MapSeq([x] + s, f) == [f(x)] + MapSeq(s, f)
  {
    assert ([x] + s)[1..] == s;
  }

  /** Taking out the element at `j` takes one copy of it, and of its image,
      out of the multisets. */
  lemma RemoveAt<T, U>(b: seq<T>, j: nat, f: T -> U)
    requires j < |b|
    ensures multiset(b) == multiset(b[..j] + b[j + 1..]) + multiset{b[j]}
    ensures multiset(MapSeq(b, f)) == multiset(MapSeq(b[..j] + b[j + 1..], f)) + multiset{f(b[j])}
  {
    assert b == b[..j] + [b[j]] + b[j + 1..];
    MapSeqAt(b, j, f);
    var mp, mq := MapSeq(b[..j], f), MapSeq(b[j + 1..], f);
    assert multiset(mp + ([f(b[j])] + mq)) == multiset(mp) + (multiset{f(b[j])} + multiset(mq));
  }

  /** Rearranging the elements rearranges their images: equal multisets of
      elements give equal multisets of values of `f`. */
  lemma {:induction false} MapSeqMultiset<T, U>(a: seq<T>, b: seq<T>, f: T -> U)
    requires multiset(a) == multiset(b)
    ensures multiset(MapSeq(a, f)) == multiset(MapSeq(b, f))
    decreases |a|
  {
    if a == [] {
      assert |b| == |multiset(b)| == 0;
    } else {
      var x := a[0];
      assert x in multiset(b);
      var j :| 0 <= j < |b| && b[j] == x;
      var restA, restB := a[..0] + a[1..], b[..j] + b[j + 1..];
      RemoveAt(a, 0, f);
      RemoveAt(b, j, f);
      MultisetCancel(multiset(restA), multiset(restB), x);
      MapSeqMultiset(restA, restB, f);
    }
  }

  /** Sorting permutes the values of any projection `f` of the elements. */
  lemma SortDescMap<T, U>(s: seq<T>, key: T -> int, f: T -> U)
    ensures multiset(MapSeq(SortDesc(s, key), f)) == multiset(MapSeq(s, f))
  {
    MapSeqMultiset(SortDesc(s, key), s, f);
  }
}
