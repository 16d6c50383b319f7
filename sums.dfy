/**
 * Finite sums of real-valued weights over sets and sequences. Balances are
 * sums over an unordered collection of flows, so the set sum, taken in an
 * arbitrary order, is the reference that every ordered sum is related to.
 */
module Sums {

  /** The sum of w over S, taken in an arbitrary order. */
  ghost function SetSum<T>(S: set<T>, w: T -> real): real
    decreases S
  {
    if S == {} then 0.0 else var x :| x in S; w(x) + SetSum(S - {x}, w)
  }

  /** Any element can be taken out first: the set sum does not depend on the order. */
  lemma {:induction false} SetSumRemove<T>(S: set<T>, x: T, w: T -> real)
    requires x in S
    ensures SetSum(S, w) == w(x) + SetSum(S - {x}, w)
    decreases S
  {
    var y :| y in S && SetSum(S, w) == w(y) + SetSum(S - {y}, w);
    if y != x {
      SetSumRemove(S - {y}, x, w);
      SetSumRemove(S - {x}, y, w);
      assert S - {y} - {x} == S - {x} - {y};
    }
  }

  lemma {:induction false} SetSumUnion<T>(A: set<T>, B: set<T>, w: T -> real)
    requires A !! B
    ensures SetSum(A + B, w) == SetSum(A, w) + SetSum(B, w)
    decreases A
  {
    if A == {} {
      assert A + B == B;
    } else {
      var x :| x in A;
      SetSumRemove(A + B, x, w);
      SetSumRemove(A, x, w);
      assert A + B - {x} == (A - {x}) + B;
      SetSumUnion(A - {x}, B, w);
    }
  }

  /** Weights that agree on S give the same sum. */
  lemma {:induction false} SetSumExt<T>(S: set<T>, v: T -> real, w: T -> real)
    requires forall x :: x in S ==> v(x) == w(x)
    ensures SetSum(S, v) == SetSum(S, w)
    decreases S
  {
    if S != {} {
      var x :| x in S;
      SetSumRemove(S, x, v);
      SetSumRemove(S, x, w);
      SetSumExt(S - {x}, v, w);
    }
  }

  lemma {:induction false} SetSumZero<T>(S: set<T>, w: T -> real)
    requires forall x :: x in S ==> w(x) == 0.0
    ensures SetSum(S, w) == 0.0
    decreases S
  {
    if S != {} {
      var x :| x in S;
      SetSumRemove(S, x, w);
      SetSumZero(S - {x}, w);
    }
  }

  /** The elements of R whose key is k. */
  ghost function Filter<T(!new), K>(R: set<T>, key: T -> K, k: K): (F: set<T>)
    ensures F <= R
    ensures forall r :: r in F <==> r in R && key(r) == k
  {
    set r | r in R && key(r) == k
  }

  /**
   * Summing by groups: when every element's key is in K, the sum over R is
   * the sum over the keys of the sums over each key's group.
   */
  lemma {:induction false} Partition<T(!new), K(!new)>(R: set<T>, K: set<K>, key: T -> K, w: T -> real)
    requires forall r :: r in R ==> key(r) in K
    ensures SetSum(R, w) == SetSum(K, k => SetSum(Filter(R, key, k), w))
    decreases K
  {
    var g := k => SetSum(Filter(R, key, k), w);
    if K == {} {
      assert R == {};
    } else {
      var k :| k in K;
      var F := Filter(R, key, k);
      var rest := R - F;
      assert R == F + rest;
      SetSumUnion(F, rest, w);
      Partition(rest, K - {k}, key, w);
      var g' := k' => SetSum(Filter(rest, key, k'), w);
      forall k' | k' in K - {k}
        ensures g'(k') == g(k')
      {
        assert Filter(rest, key, k') == Filter(R, key, k');
      }
      SetSumExt(K - {k}, g', g);
      SetSumRemove(K, k, g);
    }
  }

  /** The sum of w over s from left to right. */
  function SeqSum<T>(s: seq<T>, w: T -> real): real
  {
    if s == [] then 0.0 else SeqSum(s[..|s| - 1], w) + w(s[|s| - 1])
  }

  lemma {:induction false} SeqSumAppend<T>(s: seq<T>, t: seq<T>, w: T -> real)
    ensures SeqSum(s + t, w) == SeqSum(s, w) + SeqSum(t, w)
    decreases |t|
  {
    if t == [] {
      assert s + t == s;
    } else {
      assert (s + t)[..|s + t| - 1] == s + t[..|t| - 1];
      SeqSumAppend(s, t[..|t| - 1], w);
    }
  }

  /**
   * A sequence that lists each element of S exactly once sums to the set
   * sum: the order of a bucket of flows does not change its total.
   */
  lemma {:induction false} SeqSumOfSet<T>(s: seq<T>, S: set<T>, w: T -> real)
    requires multiset(s) == multiset(S)
    ensures SeqSum(s, w) == SetSum(S, w)
    decreases |s|
  {
    if s == [] {
      assert |multiset(S)| == 0;
      assert forall x :: x in S ==> x in multiset(S);
    } else {
      var x := s[|s| - 1];
      var init := s[..|s| - 1];
      assert s == init + [x];
      assert x in multiset(s);
      assert x in S;
      assert multiset(init) == multiset(S - {x}) by {
        assert multiset(s) == multiset(init) + multiset{x};
        assert multiset(init) == multiset(s) - multiset{x};
        assert multiset(S - {x}) == multiset(S) - multiset{x};
      }
      SeqSumOfSet(init, S - {x}, w);
      SetSumRemove(S, x, w);
    }
  }
}
