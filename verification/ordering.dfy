/**
 * Ordering of ranking rows by a lexicographic key, as the ranking engine's
 * `order_by(...)` followed by numbering 1..n does it (apps/rankings/services.py).
 *
 * A row's key is a sequence of integers compared lexicographically, smallest
 * first; descending fields are negated. Rows whose keys are equal may come in
 * any order, as the database leaves their order undefined.
 */
module Ordering {

  /** Lexicographic order on integer sequences: a proper prefix comes first. */
  predicate LexLess(a: seq<int>, b: seq<int>)
    decreases |a|
  {
    |b| > 0 && (|a| == 0 || a[0] < b[0] || (a[0] == b[0] && LexLess(a[1..], b[1..])))
  }

  lemma {:induction false} LexLessIrreflexive(a: seq<int>)
    ensures !LexLess(a, a)
  {
    if |a| > 0 {
      LexLessIrreflexive(a[1..]);
    }
  }

  lemma {:induction false} LexLessTransitive(a: seq<int>, b: seq<int>, c: seq<int>)
    requires LexLess(a, b) && LexLess(b, c)
    ensures LexLess(a, c)
    decreases |a|
  {
    if |a| > 0 && a[0] == b[0] && b[0] == c[0] {
      LexLessTransitive(a[1..], b[1..], c[1..]);
    }
  }

  /** Two different keys are always ordered one way or the other. */
  lemma {:induction false} LexLessTotal(a: seq<int>, b: seq<int>)
    requires a != b
    ensures LexLess(a, b) || LexLess(b, a)
    decreases |a|
  {
    if |a| > 0 && |b| > 0 && a[0] == b[0] {
      assert a == [a[0]] + a[1..] && b == [b[0]] + b[1..];
      LexLessTotal(a[1..], b[1..]);
    }
  }

  lemma LexLessAsymmetric(a: seq<int>, b: seq<int>)
    requires LexLess(a, b)
    ensures !LexLess(b, a)
  {
    if LexLess(b, a) {
      LexLessTransitive(a, b, a);
      LexLessIrreflexive(a);
    }
  }

  predicate NoDuplicates<K(==)>(s: seq<K>) {
    forall i, j | 0 <= i < j < |s| :: s[i] != s[j]
  }

  /** No row is placed after a row whose key is strictly larger than its own. */
  predicate SortedByKey<K(==)>(order: seq<K>, keys: map<K, seq<int>>)
    requires forall i | 0 <= i < |order| :: order[i] in keys
  {
    forall i, j | 0 <= i < j < |order| :: !LexLess(keys[order[j]], keys[order[i]])
  }

  /** `order` lists every row of `keys` exactly once, sorted by key. */
  predicate IsRankOrder<K(==)>(order: seq<K>, keys: map<K, seq<int>>) {
    && |order| == |keys|
    && (forall i | 0 <= i < |order| :: order[i] in keys)
    && (forall k | k in keys :: k in order)
    && NoDuplicates(order)
    && SortedByKey(order, keys)
  }

  predicate DistinctKeys<K(==)>(keys: map<K, seq<int>>) {
    forall x, y | x in keys && y in keys && x != y :: keys[x] != keys[y]
  }

  /** Insert `k` before the first row whose key is strictly larger, keeping the order sorted. */
  method InsertByKey<K(==)>(order: seq<K>, k: K, keys: map<K, seq<int>>) returns (r: seq<K>, at: nat)
    requires k in keys
    requires forall i | 0 <= i < |order| :: order[i] in keys
    requires SortedByKey(order, keys)
    ensures at <= |order| && r == order[..at] + [k] + order[at..]
    ensures forall i | 0 <= i < |r| :: r[i] in keys
    ensures forall x :: x in r <==> x in order || x == k
    ensures NoDuplicates(order) && k !in order ==> NoDuplicates(r)
    ensures SortedByKey(r, keys)
  {
    var i := 0;
    while i < |order| && !LexLess(keys[k], keys[order[i]])
      invariant 0 <= i <= |order|
      invariant forall j | 0 <= j < i :: !LexLess(keys[k], keys[order[j]])
    {
      i := i + 1;
    }
    r, at := order[..i] + [k] + order[i..], i;
    InsertAtBoundaryKeepsSorted(order, k, keys, i);
  }

  /**
   * Placing `k` after the rows whose key is not larger than its own and before
   * the first row whose key is larger keeps a sorted order sorted.
   */
  lemma InsertAtBoundaryKeepsSorted<K>(order: seq<K>, k: K, keys: map<K, seq<int>>, i: nat)
    requires k in keys && i <= |order|
    requires forall j | 0 <= j < |order| :: order[j] in keys
    requires SortedByKey(order, keys)
    requires forall j | 0 <= j < i :: !LexLess(keys[k], keys[order[j]])
    requires i < |order| ==> LexLess(keys[k], keys[order[i]])
    ensures var r := order[..i] + [k] + order[i..];
      && (forall j | 0 <= j < |r| :: r[j] in keys)
      && (forall x :: x in r <==> x in order || x == k)
      && (NoDuplicates(order) && k !in order ==> NoDuplicates(r))
      && SortedByKey(r, keys)
  {
    var r := order[..i] + [k] + order[i..];
    assert forall j | 0 <= j < |r| :: r[j] == if j < i then order[j] else if j == i then k else order[j - 1];
    forall a, b | 0 <= a < b < |r|
      ensures !LexLess(keys[r[b]], keys[r[a]])
    {
      if a == i && b > i {
        // r[b] is order[b - 1] and order[i] is the first row with a larger key than k.
        if LexLess(keys[order[b - 1]], keys[k]) {
          if b - 1 == i {
            LexLessAsymmetric(keys[k], keys[order[i]]);
          } else {
            LexLessTransitive(keys[order[b - 1]], keys[k], keys[order[i]]);
          }
        }
      }
    }
  }

  /** Sort the rows of `keys`; rows with equal keys come in an unspecified order. */
  method SortByKey<K(==)>(keys: map<K, seq<int>>) returns (order: seq<K>)
    ensures IsRankOrder(order, keys)
  {
    order := [];
    var rest := keys.Keys;
    while rest != {}
      invariant rest <= keys.Keys
      invariant forall i | 0 <= i < |order| :: order[i] in keys && order[i] !in rest
      invariant forall k | k in keys && k !in rest :: k in order
      invariant NoDuplicates(order)
      invariant SortedByKey(order, keys)
      invariant |order| + |rest| == |keys|
      decreases |rest|
    {
      var k :| k in rest;
      var at;
      order, at := InsertByKey(order, k, keys);
      rest := rest - {k};
    }
  }

  /** A row with a strictly smaller key is always listed earlier. */
  lemma RankOrderRespectsKeys<K>(order: seq<K>, keys: map<K, seq<int>>, i: nat, j: nat)
    requires IsRankOrder(order, keys)
    requires i < |order| && j < |order|
    requires LexLess(keys[order[i]], keys[order[j]])
    ensures i < j
  {
    if i == j {
      LexLessIrreflexive(keys[order[i]]);
    }
  }

  /** Sorted duplicate-free lists of the same rows with pairwise different keys are equal. */
  lemma {:induction false} SortedListsEqual<K>(a: seq<K>, b: seq<K>, keys: map<K, seq<int>>)
    requires forall i | 0 <= i < |a| :: a[i] in keys
    requires forall i | 0 <= i < |b| :: b[i] in keys
    requires |a| == |b|
    requires forall x :: x in a <==> x in b
    requires NoDuplicates(a) && NoDuplicates(b)
    requires SortedByKey(a, keys) && SortedByKey(b, keys)
    requires DistinctKeys(keys)
    ensures a == b
    decreases |a|
  {
    if |a| > 0 {
      assert a[0] in a;
      if a[0] != b[0] {
        assert b[0] in b;
        var j :| 0 <= j < |a| && a[j] == b[0];
        var i :| 0 <= i < |b| && b[i] == a[0];
        assert j > 0 && i > 0;
        LexLessTotal(keys[a[0]], keys[b[0]]);
        assert false;
      }
      forall x
        ensures x in a[1..] <==> x in b[1..]
      {
        if x in a[1..] {
          var k :| 1 <= k < |a| && a[k] == x;
          assert x in b && x != b[0];
        }
        if x in b[1..] {
          var k :| 1 <= k < |b| && b[k] == x;
          assert x in a && x != a[0];
        }
      }
      SortedListsEqual(a[1..], b[1..], keys);
    }
  }

  /**
   * With pairwise different keys there is only one rank order, so numbering the
   * rows again on unchanged data gives every row the same position.
   */
  lemma RankOrderUnique<K>(a: seq<K>, b: seq<K>, keys: map<K, seq<int>>)
    requires IsRankOrder(a, keys) && IsRankOrder(b, keys)
    requires DistinctKeys(keys)
    ensures a == b
  {
    SortedListsEqual(a, b, keys);
  }

  /** Row `order[i]` is numbered i + 1. */
  predicate PositionsFollowOrder<K(==)>(order: seq<K>, pos: map<K, nat>) {
    forall i | 0 <= i < |order| :: order[i] in pos && pos[order[i]] == i + 1
  }

  /**
   * The positions number the rows 1..n in an order sorted by key (the result of
   * numbering the rows of a sorted listing); rows with equal keys may be numbered
   * either way.
   */
  ghost predicate Ranked<K(!new)>(keys: map<K, seq<int>>, pos: map<K, nat>) {
    pos.Keys == keys.Keys && exists order :: IsRankOrder(order, keys) && PositionsFollowOrder(order, pos)
  }

  /**
   * Every row has a positive position, no two rows share one, and a row with a
   * strictly smaller key has a strictly smaller position.
   */
  predicate PositionsRespectKeys<K>(keys: map<K, seq<int>>, pos: map<K, nat>) {
    && pos.Keys == keys.Keys
    && (forall k | k in pos :: 1 <= pos[k])
    && (forall a, b | a in pos && b in pos && a != b :: pos[a] != pos[b])
    && (forall a, b | a in keys && b in keys && LexLess(keys[a], keys[b]) :: pos[a] < pos[b])
  }

  /**
   * Ranked positions are a permutation of 1..n, and a row with a strictly
   * smaller key gets a strictly smaller position.
   */
  lemma RankedPositions<K(!new)>(keys: map<K, seq<int>>, pos: map<K, nat>)
    requires Ranked(keys, pos)
    ensures forall k | k in pos :: 1 <= pos[k] <= |keys|
    ensures forall a, b | a in pos && b in pos && a != b :: pos[a] != pos[b]
    ensures forall a, b | a in keys && b in keys && LexLess(keys[a], keys[b]) :: pos[a] < pos[b]
  {
    var order :| IsRankOrder(order, keys) && PositionsFollowOrder(order, pos);
    forall k | k in pos
      ensures exists i :: 0 <= i < |order| && order[i] == k
    {
      assert k in order;
    }
    forall a, b | a in keys && b in keys && LexLess(keys[a], keys[b])
      ensures pos[a] < pos[b]
    {
      assert a in order && b in order;
      var i :| 0 <= i < |order| && order[i] == a;
      var j :| 0 <= j < |order| && order[j] == b;
      RankOrderRespectsKeys(order, keys, i, j);
    }
  }

  /** Ranked positions respect the keys. */
  lemma RankedRespectsKeys<K(!new)>(keys: map<K, seq<int>>, pos: map<K, nat>)
    requires Ranked(keys, pos)
    ensures PositionsRespectKeys(keys, pos)
  {
    RankedPositions(keys, pos);
  }

  /**
   * With pairwise different keys the positions are determined by the keys, so
   * numbering again rows whose keys did not change gives the same positions.
   */
  lemma RankedUnique<K(!new)>(keys: map<K, seq<int>>, pos1: map<K, nat>, pos2: map<K, nat>)
    requires Ranked(keys, pos1) && Ranked(keys, pos2)
    requires DistinctKeys(keys)
    ensures pos1 == pos2
  {
    var o1 :| IsRankOrder(o1, keys) && PositionsFollowOrder(o1, pos1);
    var o2 :| IsRankOrder(o2, keys) && PositionsFollowOrder(o2, pos2);
    RankOrderUnique(o1, o2, keys);
    assert pos1.Keys == keys.Keys == pos2.Keys;
    SameOrderSamePositions(o1, keys.Keys, pos1, pos2);
  }

  /** Two position maps over the same keys that both follow one listing of those keys are equal. */
  lemma SameOrderSamePositions<K>(order: seq<K>, ks: set<K>, pos1: map<K, nat>, pos2: map<K, nat>)
    requires pos1.Keys == ks && pos2.Keys == ks
    requires forall k | k in ks :: k in order
    requires PositionsFollowOrder(order, pos1) && PositionsFollowOrder(order, pos2)
    ensures pos1 == pos2
  {
    forall k | k in ks
      ensures pos1[k] == pos2[k]
    {
      var i :| 0 <= i < |order| && order[i] == k;
    }
  }
}
