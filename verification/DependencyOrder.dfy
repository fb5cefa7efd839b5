/** What the greedy order means on the sorted list itself, told by the fields of its items. */
module DependencyOrder {
  import opened Wrappers
  import opened DependencySort

  /** One of the two says that the first comes before the second. */
  predicate Precedes(x: Item, y: Item) { x.before == Some(y.id) || y.after == Some(x.id) }

  /** The smaller order, which is 0 if none is given, and the smaller id for equal orders. */
  predicate RanksBelow(x: Item, y: Item) {
    var a, b := if x.order == None then 0 else x.order.value, if y.order == None then 0 else y.order.value;
    a < b || (a == b && x.id < y.id)
  }

  /** Everything that has to come before the `j`-th item stands among the first `i`. */
  ghost predicate Free(r: seq<Item>, i: nat, j: nat)
    requires j < |r|
  {
    forall k :: 0 <= k < |r| && Precedes(r[k], r[j]) ==> k < i
  }

  ghost predicate ConstraintsHold(r: seq<Item>) {
    forall i, j :: 0 <= i < |r| && 0 <= j < |r| && Precedes(r[i], r[j]) ==> i < j
  }

  /** Of two items the earlier ranks below the later one, if the later one need not wait for anything from there on. */
  ghost predicate RanksHold(r: seq<Item>) {
    forall i, j :: 0 <= i < j < |r| && Free(r, i, j) ==> RanksBelow(r[i], r[j])
  }

  lemma PermutationIsDistinct(items: seq<Item>, r: seq<Item>)
    requires DistinctIds(items) && multiset(r) == multiset(items)
    ensures DistinctIds(r)
  {
    forall i, j | 0 <= i < j < |r| ensures r[i].id != r[j].id {
      if r[i].id == r[j].id {
        InSame(items, r, i);
        InSame(items, r, j);
        var m :| 0 <= m < |items| && items[m] == r[i];
        var n :| 0 <= n < |items| && items[n] == r[j];
        assert m == n;
        TwiceInSeq(r, i, j);
        OnceInSeq(items, m);
      }
    }
  }

  lemma InSame(items: seq<Item>, r: seq<Item>, i: nat)
    requires multiset(r) == multiset(items) && i < |r|
    ensures r[i] in items
  {
    assert r[i] in multiset(r);
  }

  lemma TwiceInSeq(r: seq<Item>, i: nat, j: nat)
    requires i < j < |r| && r[i] == r[j]
    ensures multiset(r)[r[i]] >= 2
  {
    assert r == r[..i] + [r[i]] + r[i + 1..j] + [r[j]] + r[j + 1..];
  }

  lemma OnceInSeq(items: seq<Item>, m: nat)
    requires DistinctIds(items) && m < |items|
    ensures multiset(items)[items[m]] == 1
  {
    assert items == items[..m] + [items[m]] + items[m + 1..];
    assert items[m] !in items[..m] && items[m] !in items[m + 1..];
  }

  lemma EdgesAreConstraints(items: seq<Item>, x: Item, y: Item)
    requires DistinctIds(items) && x in items && y in items
    ensures Edge(items, x.id, y.id) <==> Precedes(x, y)
  {
    var m :| 0 <= m < |items| && items[m] == x;
    var n :| 0 <= n < |items| && items[n] == y;
    assert x.id in Ids(items) && y.id in Ids(items);
    if Edge(items, x.id, y.id) {
      var i :| 0 <= i < |items| && Says(items[i], x.id, y.id);
      assert i == m || i == n;
    }
    if Precedes(x, y) { assert Says(items[m], x.id, y.id) || Says(items[n], x.id, y.id); }
  }

  /** The place of an item tells whether it is among the first. */
  lemma PlacedIff(r: seq<Item>, i: nat, j: nat)
    requires DistinctIds(r) && i <= |r| && j < |r|
    ensures r[j].id in Ids(r[..i]) <==> j < i
  {
    if j < i { assert r[..i][j] == r[j]; }
    if k :| 0 <= k < i && r[..i][k].id == r[j].id { assert k == j; }
  }

  /** The list holds each of the items. */
  ghost predicate Arranges(items: seq<Item>, r: seq<Item>) {
    DistinctIds(items) && DistinctIds(r) && forall x :: x in items <==> x in r
  }

  lemma ReadyIff(items: seq<Item>, r: seq<Item>, i: nat, j: nat)
    requires Arranges(items, r) && i <= |r| && j < |r|
    ensures Ready(items, Ids(r[..i]), r[j]) <==> i <= j && Free(r, i, j)
  {
    assert r[j] in items;
    PlacedIff(r, i, j);
    if Ready(items, Ids(r[..i]), r[j]) {
      forall k | 0 <= k < |r| && Precedes(r[k], r[j]) ensures k < i {
        assert r[k] in items;
        EdgesAreConstraints(items, r[k], r[j]);
        assert r[k].id in Preds(items, r[j].id);
        PlacedIff(r, i, k);
      }
    }
    if i <= j && Free(r, i, j) {
      forall u | u in Preds(items, r[j].id) ensures u in Ids(r[..i]) {
        var m :| 0 <= m < |items| && items[m].id == u;
        assert items[m] in r;
        var k :| 0 <= k < |r| && r[k] == items[m];
        EdgesAreConstraints(items, r[k], r[j]);
        PlacedIff(r, i, k);
      }
    }
  }

  lemma LeastReadyIff(items: seq<Item>, r: seq<Item>, i: nat)
    requires Arranges(items, r) && i < |r|
    ensures LeastReady(items, Ids(r[..i]), r[i]) <==>
      Free(r, i, i) && forall j :: i < j < |r| && Free(r, i, j) ==> RanksBelow(r[i], r[j])
  {
    var placed := Ids(r[..i]);
    forall j: nat | j < |r| ensures Ready(items, placed, r[j]) <==> i <= j && Free(r, i, j) {
      ReadyIff(items, r, i, j);
    }
    hide Free, Ids;
    if LeastReady(items, placed, r[i]) {
      forall j | i < j < |r| && Free(r, i, j) ensures RanksBelow(r[i], r[j]) {
        assert Ready(items, placed, r[j]) && r[j] != r[i];
      }
    }
    if Free(r, i, i) && forall j :: i < j < |r| && Free(r, i, j) ==> RanksBelow(r[i], r[j]) {
      forall y | Ready(items, placed, y) ensures y == r[i] || Less(r[i], y) {
        assert y in r;
        var j :| 0 <= j < |r| && r[j] == y;
      }
    }
  }

  /**
   * A permutation of the items is the greedy order if and only if every constraint holds in it, and of
   * two items the earlier ranks below the later one, unless something that has to come before the later
   * one does not stand before the earlier one.
   */
  lemma GreedyIffConstraintsAndRanks(items: seq<Item>, r: seq<Item>)
    requires DistinctIds(items) && multiset(r) == multiset(items)
    ensures Greedy(items, r) <==> ConstraintsHold(r) && RanksHold(r)
  {
    PermutationIsDistinct(items, r);
    assert forall x :: x in items <==> x in multiset(items);
    assert forall x :: x in r <==> x in multiset(r);
    assert Arranges(items, r);
    forall i: nat | i < |r|
      ensures LeastReady(items, Ids(r[..i]), r[i]) <==>
        Free(r, i, i) && forall j :: i < j < |r| && Free(r, i, j) ==> RanksBelow(r[i], r[j])
    {
      LeastReadyIff(items, r, i);
    }
    assert ConstraintsHold(r) <==> forall i: nat :: i < |r| ==> Free(r, i, i);
    hide LeastReady, Ids, ConstraintsHold, Free, RanksBelow, Arranges, DistinctIds;
  }

  /** Without constraints, the sorted list goes up in rank. */
  lemma UnconstrainedIsSorted(items: seq<Item>, r: seq<Item>, i: nat, j: nat)
    requires DistinctIds(items) && multiset(r) == multiset(items) && Greedy(items, r) && i < j < |r|
    requires forall x :: x in items ==> x.before == None && x.after == None
    ensures RanksBelow(r[i], r[j])
  {
    GreedyIffConstraintsAndRanks(items, r);
    hide Greedy, RanksBelow;
    forall k: nat | k < |r| ensures !Precedes(r[k], r[j]) {
      InSame(items, r, k);
      InSame(items, r, j);
    }
    assert Free(r, i, j);
  }
}
