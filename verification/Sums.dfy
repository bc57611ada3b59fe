/** Sums over finite sets and sequences, with the update laws the state-machine proofs use. */
module Sums {
  /** The sum of `weight` over `keys`. */
  ghost function SumOver<K(!new)>(keys: set<K>, weight: K -> nat): nat {
    if keys == {} then 0
    else
      var k :| k in keys;
      weight(k) + SumOver(keys - {k}, weight)
  }

  lemma {:induction false} SumOverRemove<K(!new)>(keys: set<K>, k: K, weight: K -> nat)
    requires k in keys
    ensures SumOver(keys, weight) == weight(k) + SumOver(keys - {k}, weight)
    decreases keys
  {
    var pick :| pick in keys && SumOver(keys, weight) == weight(pick) + SumOver(keys - {pick}, weight);
    if pick != k {
      SumOverRemove(keys - {pick}, k, weight);
      assert keys - {pick} - {k} == keys - {k} - {pick};
      SumOverRemove(keys - {k}, pick, weight);
    }
  }

  lemma {:induction false} SumOverMonotone<K(!new)>(small: set<K>, large: set<K>, low: K -> nat, high: K -> nat)
    requires small <= large
    requires forall k :: k in small ==> low(k) <= high(k)
    ensures SumOver(small, low) <= SumOver(large, high)
    decreases large
  {
    if small != {} {
      var k :| k in small;
      SumOverRemove(small, k, low);
      SumOverRemove(large, k, high);
      SumOverMonotone(small - {k}, large - {k}, low, high);
    }
  }

  /** The sum of `weight` over the elements of `s`. */
  function SumSeq<T>(s: seq<T>, weight: T -> nat): nat {
    if s == [] then 0 else SumSeq(s[..|s| - 1], weight) + weight(s[|s| - 1])
  }

  lemma {:induction false} SumSeqUpdate<T>(s: seq<T>, i: nat, x: T, weight: T -> nat)
    requires i < |s|
    ensures SumSeq(s[i := x], weight) + weight(s[i]) == SumSeq(s, weight) + weight(x)
  {
    var last := |s| - 1;
    if i == last {
      assert s[i := x][..last] == s[..last];
    } else {
      SumSeqUpdate(s[..last], i, x, weight);
      assert s[i := x][..last] == s[..last][i := x];
    }
  }

  lemma SumSeqAppend<T>(s: seq<T>, x: T, weight: T -> nat)
    ensures SumSeq(s + [x], weight) == SumSeq(s, weight) + weight(x)
  {
    assert (s + [x])[..|s|] == s;
  }

  lemma {:induction false} SumSeqAtLeast<T>(s: seq<T>, i: nat, weight: T -> nat)
    requires i < |s|
    ensures weight(s[i]) <= SumSeq(s, weight)
  {
    if i < |s| - 1 {
      SumSeqAtLeast(s[..|s| - 1], i, weight);
    }
  }

  /** Two different positions weigh at most the whole sum. */
  lemma {:induction false} SumSeqPair<T>(s: seq<T>, i: nat, j: nat, weight: T -> nat)
    requires i < j < |s|
    ensures weight(s[i]) + weight(s[j]) <= SumSeq(s, weight)
  {
    if j == |s| - 1 {
      SumSeqAtLeast(s[..j], i, weight);
    } else {
      SumSeqPair(s[..|s| - 1], i, j, weight);
    }
  }

  /** A positive sum has a position that contributes to it. */
  lemma {:induction false} SumSeqWitness<T>(s: seq<T>, weight: T -> nat) returns (i: nat)
    requires SumSeq(s, weight) > 0
    ensures i < |s| && weight(s[i]) > 0
  {
    if weight(s[|s| - 1]) > 0 {
      i := |s| - 1;
    } else {
      i := SumSeqWitness(s[..|s| - 1], weight);
    }
  }
}
