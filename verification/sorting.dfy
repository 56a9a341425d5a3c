/** A stable sort on a key, the model of `Array.prototype.sort` with a
    comparator (ECMAScript 2019 requires that sort to be stable). Ties are
    the pairs the order relates both ways. */
module Sorting {
  import opened Seqs

  /** `le` relates every pair one way or the other and is transitive. */
  ghost predicate TotalPreorder<K(!new)>(le: (K, K) -> bool) {
    && (forall a, b :: le(a, b) || le(b, a))
    && (forall a, b, c :: le(a, b) && le(b, c) ==> le(a, c))
  }

  /** Every earlier element's key is `le` every later element's key. */
  ghost predicate SortedBy<T, K>(s: seq<T>, key: T -> K, le: (K, K) -> bool) {
    forall i, j :: 0 <= i < j < |s| ==> le(key(s[i]), key(s[j]))
  }

  /** `x` placed before the first element whose key it does not exceed. */
  function Insert<T, K>(x: T, s: seq<T>, key: T -> K, le: (K, K) -> bool): (r: seq<T>)
    ensures multiset(r) == multiset(s) + multiset{x}
    ensures |r| == |s| + 1
  {
    if |s| == 0 then [x]
    else if le(key(x), key(s[0])) then [x] + s
    else
      assert s == [s[0]] + s[1..];
      [s[0]] + Insert(x, s[1..], key, le)
  }

  /** Insertion sort of `s` by `key` under `le`: a permutation of `s`. */
  function SortBy<T, K>(s: seq<T>, key: T -> K, le: (K, K) -> bool): (r: seq<T>)
    ensures multiset(r) == multiset(s)
    ensures |r| == |s|
  {
    if |s| == 0 then []
    else
      assert s == [s[0]] + s[1..];
      Insert(s[0], SortBy(s[1..], key, le), key, le)
  }

  lemma {:induction false} InsertSorted<T, K(!new)>(x: T, s: seq<T>, key: T -> K, le: (K, K) -> bool)
    requires TotalPreorder(le)
    requires SortedBy(s, key, le)
    ensures SortedBy(Insert(x, s, key, le), key, le)
  {
    if |s| > 0 && !le(key(x), key(s[0])) {
      var tail := Insert(x, s[1..], key, le);
      InsertSorted(x, s[1..], key, le);
      assert le(key(s[0]), key(x));
      forall j | 0 <= j < |tail|
        ensures le(key(s[0]), key(tail[j]))
      {
        assert tail[j] in multiset(tail);
        if tail[j] != x {
          assert tail[j] in multiset(s[1..]);
          var k :| 0 <= k < |s[1..]| && s[1..][k] == tail[j];
          assert s[k + 1] == tail[j];
        }
      }
      var r := [s[0]] + tail;
      forall i, j | 0 <= i < j < |r|
        ensures le(key(r[i]), key(r[j]))
      {
        if i > 0 {
          assert r[i] == tail[i - 1] && r[j] == tail[j - 1];
        } else {
          assert r[j] == tail[j - 1];
        }
      }
    } else if |s| > 0 {
      var r := [x] + s;
      forall i, j | 0 <= i < j < |r|
        ensures le(key(r[i]), key(r[j]))
      {
        if i == 0 {
          assert r[j] == s[j - 1];
          if j > 1 {
            assert le(key(s[0]), key(s[j - 1]));
          }
        } else {
          assert r[i] == s[i - 1] && r[j] == s[j - 1];
        }
      }
    }
  }

  /** The result is ordered by `key`. */
  lemma {:induction false} SortBySorted<T, K(!new)>(s: seq<T>, key: T -> K, le: (K, K) -> bool)
    requires TotalPreorder(le)
    ensures SortedBy(SortBy(s, key, le), key, le)
  {
    if |s| > 0 {
      SortBySorted(s[1..], key, le);
      InsertSorted(s[0], SortBy(s[1..], key, le), key, le);
    }
  }

  /** `p` picks out elements that all tie with each other under `le`. */
  ghost predicate SelectsOneTieClass<T(!new), K>(p: T -> bool, key: T -> K, le: (K, K) -> bool) {
    forall x, y :: p(x) && p(y) ==> le(key(x), key(y))
  }

  lemma {:induction false} InsertStable<T(!new), K(!new)>(x: T, s: seq<T>, key: T -> K, le: (K, K) -> bool, p: T -> bool)
    requires SelectsOneTieClass(p, key, le)
    ensures Filter(Insert(x, s, key, le), p) == (if p(x) then [x] else []) + Filter(s, p)
  {
    if |s| == 0 {
      assert Insert(x, s, key, le) == [x] + s;
      FilterCons(x, s, p);
    } else if le(key(x), key(s[0])) {
      assert Insert(x, s, key, le) == [x] + s;
      FilterCons(x, s, p);
    } else {
      var tail := Insert(x, s[1..], key, le);
      assert Insert(x, s, key, le) == [s[0]] + tail;
      InsertStable(x, s[1..], key, le, p);
      FilterCons(s[0], tail, p);
      FilterCons(s[0], s[1..], p);
      assert s == [s[0]] + s[1..];
      if p(x) {
        assert !p(s[0]);
      }
    }
  }

  /** Stability: among elements of one tie class, the sort keeps the input
      order. */
  lemma {:induction false} SortByStable<T(!new), K(!new)>(s: seq<T>, key: T -> K, le: (K, K) -> bool, p: T -> bool)
    requires SelectsOneTieClass(p, key, le)
    ensures Filter(SortBy(s, key, le), p) == Filter(s, p)
  {
    if |s| > 0 {
      SortByStable(s[1..], key, le, p);
      InsertStable(s[0], SortBy(s[1..], key, le), key, le, p);
      FilterCons(s[0], s[1..], p);
      assert s == [s[0]] + s[1..];
    }
  }
}
