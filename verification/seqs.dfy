/** Order-preserving selection over sequences (JavaScript's `Array.filter`). */
module Seqs {

  /** The elements of `s` that satisfy `p`, in their original order. */
  function Filter<T(!new)>(s: seq<T>, p: T -> bool): (r: seq<T>)
    ensures |r| <= |s|
    ensures forall i :: 0 <= i < |r| ==> p(r[i])
  {
    if |s| == 0 then []
    else
      var rest := Filter(s[1..], p);
      assert s == [s[0]] + s[1..];
      if p(s[0]) then [s[0]] + rest else rest
  }

  /** The selected elements are exactly the members of `s` that satisfy `p`. */
  lemma {:induction false} FilterMembers<T(!new)>(s: seq<T>, p: T -> bool)
    ensures forall x :: x in Filter(s, p) <==> x in s && p(x)
  {
    if |s| > 0 {
      FilterMembers(s[1..], p);
      assert s == [s[0]] + s[1..];
    }
  }

  /** Selection on a sequence with a known first element. */
  lemma FilterCons<T(!new)>(x: T, s: seq<T>, p: T -> bool)
    ensures Filter([x] + s, p) == (if p(x) then [x] else []) + Filter(s, p)
  {
    assert ([x] + s)[1..] == s;
  }

  /** Selection distributes over concatenation: the relative order of the
      selected elements is the order they had in the input. */
  lemma {:induction false} FilterAppend<T(!new)>(a: seq<T>, b: seq<T>, p: T -> bool)
    ensures Filter(a + b, p) == Filter(a, p) + Filter(b, p)
  {
    if |a| == 0 {
      assert a + b == b;
    } else {
      assert (a + b)[1..] == a[1..] + b;
      FilterAppend(a[1..], b, p);
    }
  }

  /** Selecting with a predicate no element satisfies yields nothing. */
  lemma {:induction false} FilterNone<T(!new)>(s: seq<T>, p: T -> bool)
    requires forall i :: 0 <= i < |s| ==> !p(s[i])
    ensures Filter(s, p) == []
  {
    if |s| > 0 {
      FilterNone(s[1..], p);
    }
  }

  /** The first selected element is the first element of `s` satisfying
      `p`. */
  lemma {:induction false} FilterFirst<T(!new)>(s: seq<T>, p: T -> bool)
    requires |Filter(s, p)| > 0
    ensures exists i :: 0 <= i < |s| && s[i] == Filter(s, p)[0] && forall j :: 0 <= j < i ==> !p(s[j])
  {
    FilterCons(s[0], s[1..], p);
    assert s == [s[0]] + s[1..];
    if !p(s[0]) {
      FilterFirst(s[1..], p);
      var i :| 0 <= i < |s[1..]| && s[1..][i] == Filter(s[1..], p)[0] && forall j :: 0 <= j < i ==> !p(s[1..][j]);
      assert s[i + 1] == Filter(s, p)[0];
      forall j | 0 <= j < i + 1 ensures !p(s[j]) {
        if j > 0 {
          assert s[j] == s[1..][j - 1];
        }
      }
    } else {
      assert s[0] == Filter(s, p)[0];
    }
  }

  /** No element occurs twice. */
  ghost predicate NoDup<T>(s: seq<T>) {
    forall i, j :: 0 <= i < j < |s| ==> s[i] != s[j]
  }

  lemma {:induction false} NoDupCountsOnce<T>(s: seq<T>, x: T)
    requires NoDup(s)
    ensures multiset(s)[x] <= 1
  {
    if |s| > 0 {
      var tail := s[1..];
      assert NoDup(tail) by {
        forall i, j | 0 <= i < j < |tail| ensures tail[i] != tail[j] {
          assert tail[i] == s[i + 1] && tail[j] == s[j + 1];
        }
      }
      NoDupCountsOnce(tail, x);
      assert s == [s[0]] + tail;
      if x == s[0] {
        assert x !in tail by {
          forall j | 0 <= j < |tail| ensures tail[j] != x {
            assert tail[j] == s[j + 1];
          }
        }
      }
    }
  }

  lemma RepeatCountsTwice<T>(s: seq<T>, i: int, j: int)
    requires 0 <= i < j < |s| && s[i] == s[j]
    ensures multiset(s)[s[i]] >= 2
  {
    assert s == s[..i] + [s[i]] + s[i + 1..j] + [s[j]] + s[j + 1..];
  }

  /** A permutation of a duplicate-free sequence is duplicate-free. */
  lemma PermutationKeepsNoDup<T>(s: seq<T>, r: seq<T>)
    requires NoDup(s) && multiset(r) == multiset(s)
    ensures NoDup(r)
  {
    forall i, j | 0 <= i < j < |r| ensures r[i] != r[j] {
      if r[i] == r[j] {
        RepeatCountsTwice(r, i, j);
        NoDupCountsOnce(s, r[i]);
      }
    }
  }
}
