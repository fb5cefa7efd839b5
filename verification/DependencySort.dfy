/**
 * Ordering items by `before`/`after` constraints with `order` and id as tie breakers. Ids are
 * compared by a strict total order, here that of the integers.
 */
module DependencySort {
  import opened Wrappers

  type Id = int

  datatype Item = Item(id: Id, order: Option<int>, before: Option<Id>, after: Option<Id>)

  function Order(x: Item): int { if x.order.Some? then x.order.value else 0 }

  predicate Less(x: Item, y: Item) {
    if Order(x) != Order(y) then Order(x) < Order(y) else x.id < y.id
  }

  function Ids(items: seq<Item>): set<Id> { set i | 0 <= i < |items| :: items[i].id }

  ghost predicate DistinctIds(items: seq<Item>) {
    forall i, j :: 0 <= i < j < |items| ==> items[i].id != items[j].id
  }

  /** `u` must come before `v` because this item says so. */
  predicate Says(x: Item, u: Id, v: Id) {
    (x.id == u && x.before == Some(v)) || (x.id == v && x.after == Some(u))
  }

  /** `u` must come before `v`; constraints naming unknown items are ignored. */
  ghost predicate Edge(items: seq<Item>, u: Id, v: Id) {
    u in Ids(items) && v in Ids(items) && exists i :: 0 <= i < |items| && Says(items[i], u, v)
  }

  ghost predicate IsPath(items: seq<Item>, p: seq<Id>) {
    forall k :: 0 <= k < |p| - 1 ==> Edge(items, p[k], p[k + 1])
  }

  ghost predicate Cyclic(items: seq<Item>) {
    exists p :: IsPath(items, p) && |p| >= 2 && p[0] == p[|p| - 1]
  }

  ghost function Preds(items: seq<Item>, v: Id): set<Id> { set u | u in Ids(items) && Edge(items, u, v) }

  /** `x` has not been placed, and everything before it has. */
  ghost predicate Ready(items: seq<Item>, placed: set<Id>, x: Item) {
    x in items && x.id !in placed && Preds(items, x.id) <= placed
  }

  /** Each position holds the least item that was ready for it. */
  ghost predicate Greedy(items: seq<Item>, r: seq<Item>) {
    forall k :: 0 <= k < |r| ==> LeastReady(items, Ids(r[..k]), r[k])
  }

  ghost predicate LeastReady(items: seq<Item>, placed: set<Id>, x: Item) {
    Ready(items, placed, x) && forall y :: Ready(items, placed, y) ==> y == x || Less(x, y)
  }

  // ---------------------------------------------------------------- sorting the ready list

  function Insert(x: Item, list: seq<Item>): seq<Item> {
    if list == [] || Less(x, list[0]) then [x] + list else [list[0]] + Insert(x, list[1..])
  }

  /** The ready list in (order, id) order. */
  function SortReady(list: seq<Item>): seq<Item> {
    if list == [] then [] else Insert(list[|list| - 1], SortReady(list[..|list| - 1]))
  }

  ghost predicate InOrder(list: seq<Item>) {
    forall i, j :: 0 <= i < j < |list| ==> !Less(list[j], list[i])
  }

  lemma {:induction false} InsertSorts(x: Item, list: seq<Item>)
    requires InOrder(list)
    ensures InOrder(Insert(x, list)) && multiset(Insert(x, list)) == multiset(list) + multiset{x}
    ensures forall y :: y in Insert(x, list) ==> y == x || y in list
  {
    if list == [] || Less(x, list[0]) {
      forall j | 0 <= j < |list| ensures !Less(list[j], x) { if j > 0 { assert !Less(list[j], list[0]); } }
    } else {
      InsertSorts(x, list[1..]);
      assert list == [list[0]] + list[1..];
      var rest := Insert(x, list[1..]);
      forall j | 0 <= j < |rest| ensures !Less(rest[j], list[0]) {
        assert rest[j] in rest;
        if rest[j] != x { NotLessThanFirst(list, rest[j]); }
      }
    }
  }

  lemma NotLessThanFirst(list: seq<Item>, y: Item)
    requires list != [] && InOrder(list) && y in list[1..]
    ensures !Less(y, list[0])
  {
    var k :| 0 <= k < |list[1..]| && list[1..][k] == y;
    assert list[k + 1] == y;
  }

  lemma {:induction false} SortReadySorts(list: seq<Item>)
    ensures InOrder(SortReady(list)) && multiset(SortReady(list)) == multiset(list) && |SortReady(list)| == |list|
    ensures forall x :: x in SortReady(list) <==> x in list
  {
    if list != [] {
      var rest, x := list[..|list| - 1], list[|list| - 1];
      SortReadySorts(rest);
      InsertSorts(x, SortReady(rest));
      assert list == rest + [x];
    }
    assert |multiset(SortReady(list))| == |multiset(list)|;
    forall x ensures x in SortReady(list) <==> x in list {
      assert x in SortReady(list) <==> x in multiset(SortReady(list));
      assert x in list <==> x in multiset(list);
    }
  }

  // ---------------------------------------------------------------- uniqueness

  lemma LeastReadyUnique(a: seq<Item>, b: seq<Item>, placed: set<Id>, x: Item, y: Item)
    requires multiset(a) == multiset(b)
    requires LeastReady(a, placed, x) && LeastReady(b, placed, y)
    ensures x == y
  {
    ReadyForEither(a, b, placed, x);
    ReadyForEither(b, a, placed, y);
  }

  lemma SameItems(a: seq<Item>, b: seq<Item>)
    requires multiset(a) == multiset(b)
    ensures forall x :: x in a <==> x in b
    ensures Ids(a) == Ids(b)
    ensures forall u, v :: Edge(a, u, v) <==> Edge(b, u, v)
  {
    assert forall x :: x in a <==> x in multiset(a);
    assert forall x :: x in b <==> x in multiset(b);
    IdsWithin(a, b);
    IdsWithin(b, a);
    forall u, v ensures Edge(a, u, v) <==> Edge(b, u, v) {
      if Edge(a, u, v) { var i :| 0 <= i < |a| && Says(a[i], u, v); assert a[i] in b; }
      if Edge(b, u, v) { var i :| 0 <= i < |b| && Says(b[i], u, v); assert b[i] in a; }
    }
  }

  lemma IdsWithin(a: seq<Item>, b: seq<Item>)
    requires forall x :: x in a ==> x in b
    ensures Ids(a) <= Ids(b)
  {
    forall id | id in Ids(a) ensures id in Ids(b) {
      var i :| 0 <= i < |a| && a[i].id == id;
      assert a[i] in b;
      var j :| 0 <= j < |b| && b[j] == a[i];
    }
  }

  lemma ReadyForEither(a: seq<Item>, b: seq<Item>, placed: set<Id>, x: Item)
    requires multiset(a) == multiset(b) && Ready(a, placed, x)
    ensures Ready(b, placed, x)
  {
    SameItems(a, b);
    assert Preds(a, x.id) == Preds(b, x.id);
  }

  /** The result does not depend on the order in which the items are given. */
  lemma {:induction false} OrderOfInputIsIrrelevant(a: seq<Item>, b: seq<Item>, r: seq<Item>, s: seq<Item>)
    requires multiset(a) == multiset(b) && Greedy(a, r) && Greedy(b, s) && |r| == |s|
    ensures r == s
  {
    if r != [] {
      var n := |r| - 1;
      GreedyPrefix(a, r, n);
      GreedyPrefix(b, s, n);
      OrderOfInputIsIrrelevant(a, b, r[..n], s[..n]);
      LeastReadyUnique(a, b, Ids(r[..n]), r[n], s[n]);
      assert r == r[..n] + [r[n]] && s == s[..n] + [s[n]];
    }
  }

  lemma {:induction false} PathsCarryOver(a: seq<Item>, b: seq<Item>, path: seq<Id>)
    requires multiset(a) == multiset(b) && IsPath(a, path)
    ensures IsPath(b, path)
  {
    SameItems(a, b);
    hide Edge, Ids;
  }

  /** Permuted inputs are cyclic alike. */
  lemma CyclicAlike(a: seq<Item>, b: seq<Item>)
    requires multiset(a) == multiset(b)
    ensures Cyclic(a) <==> Cyclic(b)
  {
    hide IsPath;
    if Cyclic(a) {
      var path :| IsPath(a, path) && |path| >= 2 && path[0] == path[|path| - 1];
      PathsCarryOver(a, b, path);
    }
    if Cyclic(b) {
      var path :| IsPath(b, path) && |path| >= 2 && path[0] == path[|path| - 1];
      PathsCarryOver(b, a, path);
    }
  }

  /** What sorting gives for distinct ids: a failure exactly on cycles, and else the greedy order of all items. */
  ghost predicate IsOutcome(items: seq<Item>, result: Result<seq<Item>, seq<Id>>) {
    && (|items| <= 1 ==> result == Ok(items))
    && (|items| > 1 ==> (result.Err? <==> Cyclic(items)))
    && (|items| > 1 && result.Ok? ==> Greedy(items, result.value) && multiset(result.value) == multiset(items))
  }

  /** Permuted inputs fail alike, and if they do not fail they are sorted alike. */
  lemma PermutedInputsEndAlike(a: seq<Item>, b: seq<Item>, x: Result<seq<Item>, seq<Id>>, y: Result<seq<Item>, seq<Id>>)
    requires multiset(a) == multiset(b) && IsOutcome(a, x) && IsOutcome(b, y)
    ensures (x.Err? <==> y.Err?) && (x.Ok? ==> x == y)
  {
    hide Cyclic, Greedy;
    assert |a| == |multiset(a)| == |multiset(b)| == |b|;
    if |a| > 1 {
      CyclicAlike(a, b);
      if x.Ok? {
        assert |x.value| == |multiset(x.value)| == |multiset(y.value)| == |y.value|;
        OrderOfInputIsIrrelevant(a, b, x.value, y.value);
      }
    } else if |a| == 1 {
      assert a[0] in multiset(b);
      assert a == b;
    }
  }

  lemma GreedyPrefix(items: seq<Item>, r: seq<Item>, n: nat)
    requires Greedy(items, r) && n <= |r|
    ensures Greedy(items, r[..n])
  {
    forall k | 0 <= k < n ensures LeastReady(items, Ids(r[..n][..k]), r[..n][k]) {
      assert r[..n][..k] == r[..k];
    }
  }

  // ---------------------------------------------------------------- cycles

  ghost predicate HasPredIn(items: seq<Item>, left: set<Id>, v: Id) { exists u :: u in left && Edge(items, u, v) }

  ghost function Member(s: set<Id>): Id
    requires s != {}
    ensures Member(s) in s
  {
    assert (forall x :: x !in s) ==> s == {};
    var x :| x in s; x
  }

  lemma PredIn(items: seq<Item>, left: set<Id>, v: Id) returns (u: Id)
    requires HasPredIn(items, left, v)
    ensures u in left && Edge(items, u, v)
  {
    u :| u in left && Edge(items, u, v);
  }

  /** In a non-empty set where everything has a predecessor there are arbitrarily long paths. */
  lemma {:induction false} PathWithin(items: seq<Item>, left: set<Id>, n: nat) returns (p: seq<Id>)
    requires left != {} && forall v :: v in left ==> HasPredIn(items, left, v)
    ensures |p| == n + 1 && IsPath(items, p) && forall k :: 0 <= k < |p| ==> p[k] in left
  {
    hide Edge, HasPredIn;
    if n == 0 {
      p := [Member(left)];
    } else {
      var q := PathWithin(items, left, n - 1);
      var u := PredIn(items, left, q[0]);
      p := [u] + q;
      forall k | 0 <= k < |p| - 1 ensures Edge(items, p[k], p[k + 1]) {
        if k > 0 { assert p[k] == q[k - 1] && p[k + 1] == q[k]; }
      }
    }
  }

  lemma {:induction false} Pigeonhole(p: seq<Id>, s: set<Id>) returns (i: nat, j: nat)
    requires |p| > |s| && forall k :: 0 <= k < |p| ==> p[k] in s
    ensures i < j < |p| && p[i] == p[j]
    decreases |p|
  {
    var n := |p| - 1;
    if exists k :: 0 <= k < n && p[k] == p[n] {
      i :| 0 <= i < n && p[i] == p[n];
      j := n;
    } else {
      i, j := Pigeonhole(p[..n], s - {p[n]});
    }
  }

  lemma StuckMeansCyclic(items: seq<Item>, left: set<Id>)
    requires left != {} && forall v :: v in left ==> HasPredIn(items, left, v)
    ensures Cyclic(items)
  {
    hide Edge, HasPredIn;
    var p := PathWithin(items, left, |left|);
    var i, j := Pigeonhole(p, left);
    var c := p[i..j + 1];
    forall k | 0 <= k < |c| - 1 ensures Edge(items, c[k], c[k + 1]) {
      assert c[k] == p[i + k] && c[k + 1] == p[i + k + 1];
    }
    assert IsPath(items, c);
  }

  /** Along a complete greedy order every path moves to the right. */
  lemma {:induction false} PathsMoveRight(items: seq<Item>, r: seq<Item>, p: seq<Id>, a: nat, b: nat)
    requires Greedy(items, r) && IsPath(items, p) && |p| >= 2 && a < |r| && b < |r|
    requires r[a].id == p[0] && r[b].id == p[|p| - 1] && Ids(items) <= Ids(r)
    ensures a < b
  {
    assert Edge(items, p[|p| - 2], p[|p| - 1]);
    var n := |p| - 2;
    assert p[n] in Preds(items, r[b].id);
    assert LeastReady(items, Ids(r[..b]), r[b]);
    var c :| 0 <= c < b && r[..b][c].id == p[n];
    if n == 0 {
      SameIdSamePlace(items, r, a, c);
    } else {
      var q := p[..n + 1];
      forall k | 0 <= k < |q| - 1 ensures Edge(items, q[k], q[k + 1]) {
        assert q[k] == p[k] && q[k + 1] == p[k + 1];
      }
      PathsMoveRight(items, r, q, a, c);
    }
  }

  lemma LaterIsDifferent(items: seq<Item>, r: seq<Item>, a: nat, c: nat)
    requires Greedy(items, r) && a < c < |r|
    ensures r[a].id != r[c].id
  {
    assert LeastReady(items, Ids(r[..c]), r[c]);
    assert r[..c][a] == r[a] && r[..c][a].id in Ids(r[..c]);
  }

  lemma SameIdSamePlace(items: seq<Item>, r: seq<Item>, a: nat, c: nat)
    requires Greedy(items, r) && a < |r| && c < |r| && r[a].id == r[c].id
    ensures a == c
  {
    hide Greedy;
    if a < c {
      LaterIsDifferent(items, r, a, c);
    } else if c < a {
      LaterIsDifferent(items, r, c, a);
    }
  }

  lemma CompleteMeansAcyclic(items: seq<Item>, r: seq<Item>)
    requires Greedy(items, r) && Ids(items) <= Ids(r)
    ensures !Cyclic(items)
  {
    if Cyclic(items) {
      var p :| IsPath(items, p) && |p| >= 2 && p[0] == p[|p| - 1];
      assert Edge(items, p[0], p[1]);
      assert p[0] in Ids(r);
      var a :| 0 <= a < |r| && r[a].id == p[0];
      PathsMoveRight(items, r, p, a, a);
    }
  }

  // ---------------------------------------------------------------- what Kahn's loop keeps

  ghost predicate NoRepeats(list: seq<Item>) { forall x :: multiset(list)[x] <= 1 }

  /** The ready list holds each ready item once, in order. */
  ghost predicate HoldsReady(items: seq<Item>, placed: set<Id>, list: seq<Item>) {
    (forall x :: x in list <==> Ready(items, placed, x)) && NoRepeats(list) && InOrder(list)
  }

  ghost function Waiting(items: seq<Item>, placed: set<Id>, v: Id): nat { |Preds(items, v) - placed| }

  ghost predicate CountsWaiting(items: seq<Item>, placed: set<Id>, degree: map<Id, int>) {
    degree.Keys == Ids(items) && forall v :: v in degree ==> degree[v] == Waiting(items, placed, v)
  }

  lemma IdsOfMore(r: seq<Item>, x: Item)
    ensures Ids(r + [x]) == Ids(r) + {x.id}
  {
    forall id | id in Ids(r) + {x.id} ensures id in Ids(r + [x]) {
      if id in Ids(r) {
        var i :| 0 <= i < |r| && r[i].id == id;
        assert (r + [x])[i] == r[i];
      } else {
        assert (r + [x])[|r|] == x;
      }
    }
  }

  lemma SameIdSameItem(items: seq<Item>, x: Item, y: Item)
    requires DistinctIds(items) && x in items && y in items && x.id == y.id
    ensures x == y
  {
    var i :| 0 <= i < |items| && items[i] == x;
    var j :| 0 <= j < |items| && items[j] == y;
    assert !(i < j) && !(j < i);
  }

  lemma FirstIsLeast(items: seq<Item>, placed: set<Id>, list: seq<Item>)
    requires DistinctIds(items) && HoldsReady(items, placed, list) && list != []
    ensures LeastReady(items, placed, list[0])
  {
    hide Preds;
    var x := list[0];
    assert x in list;
    forall y | Ready(items, placed, y) ensures y == x || Less(x, y) {
      var j :| 0 <= j < |list| && list[j] == y;
      if j > 0 {
        assert !Less(list[j], list[0]);
        if x.id == y.id { SameIdSameItem(items, x, y); }
      }
    }
  }

  lemma GreedyExtends(items: seq<Item>, r: seq<Item>, x: Item)
    requires Greedy(items, r) && LeastReady(items, Ids(r), x)
    ensures Greedy(items, r + [x])
  {
    hide LeastReady;
    var s := r + [x];
    forall k | 0 <= k < |s| ensures LeastReady(items, Ids(s[..k]), s[k]) {
      assert s[..k] == r[..k];
      if k == |r| { assert r[..k] == r; }
    }
  }

  /** Everything that must come before a placed item has been placed. */
  lemma PlacedIsClosed(items: seq<Item>, r: seq<Item>, v: Id)
    requires Greedy(items, r) && v in Ids(r)
    ensures Preds(items, v) <= Ids(r)
  {
    var c :| 0 <= c < |r| && r[c].id == v;
    assert LeastReady(items, Ids(r[..c]), r[c]);
    forall u | u in Preds(items, v) ensures u in Ids(r) {
      assert u in Ids(r[..c]);
      var k :| 0 <= k < c && r[..c][k].id == u;
      assert r[k].id == u;
    }
  }

  lemma WaitingForNone(items: seq<Item>, placed: set<Id>, v: Id)
    ensures Waiting(items, placed, v) == 0 <==> Preds(items, v) <= placed
  {
    NothingLeft(Preds(items, v), placed);
  }

  lemma NothingLeft(p: set<Id>, placed: set<Id>)
    ensures |p - placed| == 0 <==> p <= placed
  {
    var q := p - placed;
    assert p <= placed ==> q == {};
    assert q == {} ==> |q| == 0;
    forall u | u in p && |q| == 0 ensures u in placed { assert u in q || u in placed; }
  }

  lemma WaitingDrops(items: seq<Item>, placed: set<Id>, u: Id, v: Id)
    requires u !in placed
    ensures Waiting(items, placed + {u}, v) == Waiting(items, placed, v) - (if u in Preds(items, v) then 1 else 0)
  {
    var p := Preds(items, v);
    assert p - (placed + {u}) == (p - placed) - {u};
  }

  /** Which items become ready when `x` is placed: those waiting for nothing but `x`. */
  lemma NewlyReady(items: seq<Item>, r: seq<Item>, x: Item, y: Item)
    requires DistinctIds(items) && Greedy(items, r) && Ready(items, Ids(r), x)
    ensures Ready(items, Ids(r) + {x.id}, y) <==> (Ready(items, Ids(r), y) && y != x) || Awaits(items, Ids(r), x, y)
    ensures Awaits(items, Ids(r), x, y) ==> !Ready(items, Ids(r), y)
  {
    hide Greedy, DistinctIds, Preds, Waiting;
    var placed := Ids(r);
    WaitingDrops(items, placed, x.id, y.id);
    WaitingForNone(items, placed + {x.id}, y.id);
    WaitingForNone(items, placed, y.id);
    if y in items && y.id == x.id { SameIdSameItem(items, x, y); }
    if y.id in placed { PlacedIsClosed(items, r, y.id); }
  }

  /** `y` waits for `x` and for nothing else. */
  ghost predicate Awaits(items: seq<Item>, placed: set<Id>, x: Item, y: Item) {
    y in items && x.id in Preds(items, y.id) && Waiting(items, placed, y.id) == 1
  }

  lemma {:induction false} CardinalityOfIds(r: seq<Item>)
    ensures |Ids(r)| <= |r|
    ensures DistinctIds(r) ==> |Ids(r)| == |r|
    ensures DistinctIds(r) ==> NoRepeats(r)
  {
    if r == [] {
      assert Ids(r) == {};
    } else {
      var init, x := r[..|r| - 1], r[|r| - 1];
      assert r == init + [x];
      CardinalityOfIds(init);
      IdsOfMore(init, x);
      if DistinctIds(r) {
        forall i, j | 0 <= i < j < |init| ensures init[i].id != init[j].id {
          assert init[i] == r[i] && init[j] == r[j];
        }
        assert x.id !in Ids(init);
        assert x !in init;
        assert multiset(r) == multiset(init) + multiset{x};
      }
    }
  }

  lemma GreedyIsDistinct(items: seq<Item>, r: seq<Item>)
    requires Greedy(items, r)
    ensures DistinctIds(r) && Ids(r) <= Ids(items) && forall x :: x in r ==> x in items
  {
    forall i, j | 0 <= i < j < |r| ensures r[i].id != r[j].id { LaterIsDifferent(items, r, i, j); }
    forall x | x in r ensures x in items {
      var k :| 0 <= k < |r| && r[k] == x;
      assert LeastReady(items, Ids(r[..k]), r[k]);
    }
    IdsWithin(r, items);
  }

  /** Once everything is placed, there is no cycle and the result is a permutation of the items. */
  lemma AllPlaced(items: seq<Item>, r: seq<Item>)
    requires DistinctIds(items) && Greedy(items, r) && |r| == |items|
    ensures !Cyclic(items) && multiset(r) == multiset(items)
  {
    hide Greedy, Cyclic;
    GreedyIsDistinct(items, r);
    CardinalityOfIds(r);
    CardinalityOfIds(items);
    SubsetOfSameSize(Ids(r), Ids(items));
    CompleteMeansAcyclic(items, r);
    forall x ensures multiset(r)[x] == multiset(items)[x] {
      assert x in r <==> x in multiset(r);
      assert x in items <==> x in multiset(items);
      if x in items && x !in r {
        assert x.id in Ids(r);
        var k :| 0 <= k < |r| && r[k].id == x.id;
        SameIdSameItem(items, r[k], x);
      }
    }
  }

  lemma SubsetOfSameSize(a: set<Id>, b: set<Id>)
    requires a <= b && |a| == |b|
    ensures a == b
  {
    assert b == a + (b - a);
    assert |b| == |a| + |b - a|;
  }

  /** When nothing is ready before everything is placed, what is left holds a cycle. */
  lemma StuckEarly(items: seq<Item>, r: seq<Item>)
    requires DistinctIds(items) && Greedy(items, r) && |r| != |items| && forall x :: !Ready(items, Ids(r), x)
    ensures Cyclic(items)
  {
    hide Greedy, Cyclic, Edge;
    GreedyIsDistinct(items, r);
    CardinalityOfIds(r);
    CardinalityOfIds(items);
    var left := Ids(items) - Ids(r);
    NothingLeft(Ids(items), Ids(r));
    assert |left| == 0 ==> Ids(items) == Ids(r);
    forall v | v in left ensures HasPredIn(items, left, v) {
      var i :| 0 <= i < |items| && items[i].id == v;
      assert !Ready(items, Ids(r), items[i]);
    }
    StuckMeansCyclic(items, left);
  }

  // ---------------------------------------------------------------- the sort itself

  ghost function Positive(degree: map<Id, int>): set<Id> { set v | v in degree && degree[v] > 0 }

  /** The items by id: the last one given under an id. */
  method MapItems(items: seq<Item>) returns (itemMap: map<Id, Item>)
    ensures itemMap.Keys == Ids(items)
    ensures forall id :: id in itemMap ==> itemMap[id].id == id && itemMap[id] in items
  {
    itemMap := map[];
    for n := 0 to |items|
      invariant itemMap.Keys == Ids(items[..n])
      invariant forall id :: id in itemMap ==> itemMap[id].id == id && itemMap[id] in items
    {
      IdsOfMore(items[..n], items[n]);
      assert items[..n + 1] == items[..n] + [items[n]];
      itemMap := itemMap[items[n].id := items[n]];
    }
    assert items[..|items|] == items;
  }

  /** The targets of each item, kept as sets. */
  method Targets(items: seq<Item>, itemMap: map<Id, Item>) returns (adj: map<Id, set<Id>>)
    requires itemMap.Keys == Ids(items)
    ensures adj.Keys == Ids(items)
    ensures forall u, v :: u in adj ==> (v in adj[u] <==> Edge(items, u, v))
  {
    hide Says;
    adj := map id | id in itemMap :: {};
    for n := 0 to |items|
      invariant adj.Keys == Ids(items)
      invariant forall u, v :: u in adj ==> (v in adj[u] <==> SaidBefore(items, n, u, v))
    {
      assert items[n].id in Ids(items);
      adj := AddConstraints(items[n], itemMap, adj);
      forall u, v | u in adj ensures v in adj[u] <==> SaidBefore(items, n + 1, u, v) { SaidByMore(items, n, u, v); }
    }
  }

  method AddConstraints(x: Item, itemMap: map<Id, Item>, adj: map<Id, set<Id>>) returns (next: map<Id, set<Id>>)
    requires adj.Keys == itemMap.Keys && x.id in itemMap
    ensures next.Keys == adj.Keys
    ensures forall u, v :: u in adj ==> (v in next[u] <==> v in adj[u] || (v in adj && Says(x, u, v)))
  {
    next := adj;
    if x.before.Some? && x.before.value in itemMap {
      next := next[x.id := next[x.id] + {x.before.value}];
    }
    if x.after.Some? && x.after.value in itemMap {
      next := next[x.after.value := next[x.after.value] + {x.id}];
    }
  }

  ghost predicate SaidBefore(items: seq<Item>, n: nat, u: Id, v: Id)
    requires n <= |items|
  {
    u in Ids(items) && v in Ids(items) && exists i :: 0 <= i < n && Says(items[i], u, v)
  }

  lemma SaidByMore(items: seq<Item>, n: nat, u: Id, v: Id)
    requires n < |items|
    ensures SaidBefore(items, n + 1, u, v) <==>
      SaidBefore(items, n, u, v) || (u in Ids(items) && v in Ids(items) && Says(items[n], u, v))
  {
  }

  ghost function Into(adj: map<Id, set<Id>>, from: set<Id>, v: Id): set<Id> {
    set u | u in from && u in adj && v in adj[u]
  }

  /** How many items each item has to wait for. */
  method Degrees(items: seq<Item>, adj: map<Id, set<Id>>) returns (inDegree: map<Id, int>)
    requires adj.Keys == Ids(items)
    requires forall u, v :: u in adj ==> (v in adj[u] <==> Edge(items, u, v))
    ensures inDegree.Keys == Ids(items) && CountsWaiting(items, {}, inDegree)
  {
    hide Edge, Into, Waiting;
    inDegree := map id | id in adj :: 0;
    var left := adj.Keys;
    forall v ensures Into(adj, {}, v) == {} { IntoNothing(adj, v); }
    assert adj.Keys - left == {};
    while left != {}
      invariant left <= adj.Keys && inDegree.Keys == adj.Keys
      invariant forall v :: v in inDegree ==> inDegree[v] == |Into(adj, adj.Keys - left, v)|
      decreases |left|
    {
      assert (forall u :: u !in left) ==> left == {};
      var u :| u in left;
      forall v | v in adj[u] ensures v in adj.Keys { EdgeEnds(items, u, v); }
      inDegree := CountTargets(adj, adj.Keys - left, u, inDegree);
      assert adj.Keys - (left - {u}) == (adj.Keys - left) + {u};
      left := left - {u};
    }
    assert adj.Keys - left == adj.Keys;
    forall v | v in inDegree ensures inDegree[v] == Waiting(items, {}, v) { IntoAll(items, adj, v); }
  }

  /** Adds the targets of one more item to the counts. */
  method CountTargets(adj: map<Id, set<Id>>, ghost from: set<Id>, u: Id, inDegree: map<Id, int>)
    returns (d: map<Id, int>)
    requires u in adj && u !in from && adj[u] <= inDegree.Keys
    requires forall v :: v in inDegree ==> inDegree[v] == |Into(adj, from, v)|
    ensures d.Keys == inDegree.Keys && forall v :: v in d ==> d[v] == |Into(adj, from + {u}, v)|
  {
    hide Into;
    d := AddOne(inDegree, adj[u]);
    forall v | v in d ensures d[v] == |Into(adj, from + {u}, v)| { IntoGrows(adj, from, u, v); }
  }

  lemma IntoNothing(adj: map<Id, set<Id>>, v: Id)
    ensures Into(adj, {}, v) == {}
  {
  }

  lemma IntoAll(items: seq<Item>, adj: map<Id, set<Id>>, v: Id)
    requires adj.Keys == Ids(items)
    requires forall u, v :: u in adj ==> (v in adj[u] <==> Edge(items, u, v))
    ensures |Into(adj, adj.Keys, v)| == Waiting(items, {}, v)
  {
    assert Into(adj, adj.Keys, v) == Preds(items, v) - {} by { hide Edge; }
  }

  lemma EdgeEnds(items: seq<Item>, u: Id, v: Id)
    ensures Edge(items, u, v) ==> u in Ids(items) && v in Ids(items)
  {
  }

  lemma IntoGrows(adj: map<Id, set<Id>>, from: set<Id>, u: Id, v: Id)
    requires u in adj && u !in from
    ensures |Into(adj, from + {u}, v)| == |Into(adj, from, v)| + (if v in adj[u] then 1 else 0)
  {
    if v in adj[u] {
      assert Into(adj, from + {u}, v) == Into(adj, from, v) + {u};
    } else {
      assert Into(adj, from + {u}, v) == Into(adj, from, v);
    }
  }

  method AddOne(inDegree: map<Id, int>, targets: set<Id>) returns (d: map<Id, int>)
    requires targets <= inDegree.Keys
    ensures d.Keys == inDegree.Keys
    ensures forall v :: v in d ==> d[v] == inDegree[v] + (if v in targets then 1 else 0)
  {
    d := inDegree;
    var left := targets;
    while left != {}
      invariant left <= targets && d.Keys == inDegree.Keys
      invariant forall v :: v in d ==> d[v] == inDegree[v] + (if v in targets - left then 1 else 0)
      decreases |left|
    {
      assert (forall v :: v !in left) ==> left == {};
      var v :| v in left;
      d := d[v := d[v] + 1];
      left := left - {v};
    }
  }

  /** The items nothing has to come before. */
  method InitiallyReady(items: seq<Item>, inDegree: map<Id, int>) returns (ready: seq<Item>)
    requires CountsWaiting(items, {}, inDegree)
    ensures forall x :: x in ready <==> Ready(items, {}, x)
    ensures DistinctIds(items) ==> NoRepeats(ready)
  {
    hide DistinctIds, Waiting, Preds, Edge;
    ready := [];
    for n := 0 to |items|
      invariant forall x :: x in ready <==> x in items[..n] && Ready(items, {}, x)
      invariant DistinctIds(items) ==> NoRepeats(ready)
    {
      var x := items[n];
      assert items[..n + 1] == items[..n] + [x];
      assert x.id in Ids(items);
      WaitingForNone(items, {}, x.id);
      if DistinctIds(items) { NotBefore(items, n); }
      if inDegree[x.id] == 0 {
        ready := ready + [x];
      }
    }
    assert items[..|items|] == items;
  }

  lemma NotBefore(items: seq<Item>, n: nat)
    requires DistinctIds(items) && n < |items|
    ensures items[n] !in items[..n]
  {
    forall i | 0 <= i < n ensures items[..n][i] != items[n] { assert items[i].id != items[n].id; }
  }

  /** The items of `released` that join the ready list. */
  ghost predicate Joins(itemMap: map<Id, Item>, inDegree: map<Id, int>, released: set<Id>, x: Item) {
    x.id in released && x.id in inDegree && inDegree[x.id] == 1 && x.id in itemMap && itemMap[x.id] == x
  }

  /** Takes one from the count of every target; those that reach zero join the ready list. */
  method Release(targets: set<Id>, itemMap: map<Id, Item>, inDegree: map<Id, int>, ready: seq<Item>)
    returns (d: map<Id, int>, r: seq<Item>)
    requires targets <= inDegree.Keys && itemMap.Keys == inDegree.Keys
    requires forall id :: id in itemMap ==> itemMap[id].id == id
    ensures d.Keys == inDegree.Keys
    ensures forall v :: v in d ==> d[v] == inDegree[v] - (if v in targets then 1 else 0)
    ensures forall x :: x in r <==> x in ready || Joins(itemMap, inDegree, targets, x)
    ensures NoRepeats(ready) && (forall x :: Joins(itemMap, inDegree, targets, x) ==> x !in ready) ==> NoRepeats(r)
    ensures |r| + |Positive(d)| <= |ready| + |Positive(inDegree)|
  {
    d, r := inDegree, ready;
    var left := targets;
    while left != {}
      invariant left <= targets && d.Keys == inDegree.Keys
      invariant forall v :: v in d ==> d[v] == inDegree[v] - (if v in targets - left then 1 else 0)
      invariant forall x :: x in r <==> x in ready || Joins(itemMap, inDegree, targets - left, x)
      invariant NoRepeats(ready) && (forall x :: Joins(itemMap, inDegree, targets, x) ==> x !in ready) ==> NoRepeats(r)
      invariant |r| + |Positive(d)| <= |ready| + |Positive(inDegree)|
      decreases |left|
    {
      assert (forall v :: v !in left) ==> left == {};
      var v :| v in left;
      ghost var was := d;
      d := d[v := d[v] - 1];
      if d[v] == 0 {
        assert Positive(d) == Positive(was) - {v};
        assert Joins(itemMap, inDegree, targets, itemMap[v]) && !Joins(itemMap, inDegree, targets - left, itemMap[v]);
        OneMore(r, itemMap[v]);
        r := r + [itemMap[v]];
      } else {
        assert Positive(d) <= Positive(was);
        SmallerSet(Positive(d), Positive(was));
      }
      left := left - {v};
    }
  }

  lemma OneMore(list: seq<Item>, x: Item)
    ensures NoRepeats(list) && x !in list ==> NoRepeats(list + [x])
  {
    assert x in list <==> x in multiset(list);
    assert multiset(list + [x]) == multiset(list) + multiset{x};
  }

  lemma SmallerSet(a: set<Id>, b: set<Id>)
    requires a <= b
    ensures |a| <= |b|
  {
    assert b == a + (b - a);
  }

  /** `x` is placed: the invariant of the loop moves on. */
  lemma Placing(items: seq<Item>, r: seq<Item>, ready: seq<Item>, itemMap: map<Id, Item>, before: map<Id, int>,
                after: map<Id, int>,
                adj: map<Id, set<Id>>, next: seq<Item>)
    requires DistinctIds(items) && Greedy(items, r) && HoldsReady(items, Ids(r), ready) && ready != []
    requires CountsWaiting(items, Ids(r), before) && after.Keys == before.Keys == adj.Keys == itemMap.Keys
    requires forall id :: id in itemMap ==> itemMap[id].id == id && itemMap[id] in items
    requires forall u, v :: u in adj ==> (v in adj[u] <==> Edge(items, u, v))
    requires ready[0].id in adj && forall v :: v in after ==>
      after[v] == before[v] - (if v in adj[ready[0].id] then 1 else 0)
    requires forall x :: x in next <==> x in ready[1..] || Joins(itemMap, before, adj[ready[0].id], x)
    requires NoRepeats(ready[1..]) && (forall x :: Joins(itemMap, before, adj[ready[0].id], x) ==> x !in ready[1..]) ==>
      NoRepeats(next)
    ensures Greedy(items, r + [ready[0]])
    ensures CountsWaiting(items, Ids(r + [ready[0]]), after)
    ensures NoRepeats(next) && forall x :: x in next <==> Ready(items, Ids(r + [ready[0]]), x)
  {
    hide Edge, Greedy, DistinctIds, Waiting, Ready, Joins, Awaits, NoRepeats, InOrder, LeastReady, Preds;
    var x, placed := ready[0], Ids(r);
    assert x in ready;
    ReadyIsGiven(items, placed, x);
    FirstIsLeast(items, placed, ready);
    GreedyExtends(items, r, x);
    IdsOfMore(r, x);
    forall v | v in after ensures after[v] == Waiting(items, placed + {x.id}, v) {
      WaitingDrops(items, placed, x.id, v);
      AdjIsPreds(items, adj, x.id, v);
    }
    forall y ensures y in next <==> Ready(items, placed + {x.id}, y) {
      RestOfReady(ready, y);
      NewlyReady(items, r, x, y);
      JoinsIsAwaits(items, placed, x, y, itemMap, before, adj);
    }
    forall y | Joins(itemMap, before, adj[x.id], y) ensures y !in ready[1..] {
      RestOfReady(ready, y);
      NewlyReady(items, r, x, y);
      JoinsIsAwaits(items, placed, x, y, itemMap, before, adj);
    }
    RestOfReady(ready, x);
  }

  lemma AdjIsPreds(items: seq<Item>, adj: map<Id, set<Id>>, u: Id, v: Id)
    requires u in adj && forall u, v :: u in adj ==> (v in adj[u] <==> Edge(items, u, v))
    ensures v in adj[u] <==> u in Preds(items, v)
  {
    EdgeEnds(items, u, v);
  }

  lemma RestOfReady(ready: seq<Item>, y: Item)
    requires ready != [] && NoRepeats(ready)
    ensures y in ready[1..] <==> y in ready && y != ready[0]
    ensures NoRepeats(ready[1..])
  {
    assert ready == [ready[0]] + ready[1..];
    assert multiset(ready) == multiset{ready[0]} + multiset(ready[1..]);
    assert y in ready[1..] <==> y in multiset(ready[1..]);
    assert y in ready <==> y in multiset(ready);
    forall z ensures multiset(ready)[z] <= 1 && multiset(ready[1..])[z] <= 1 { assert multiset(ready)[z] <= 1; }
  }

  lemma JoinsIsAwaits(items: seq<Item>, placed: set<Id>, x: Item, y: Item, itemMap: map<Id, Item>, before: map<Id, int>,
                      adj: map<Id, set<Id>>)
    requires DistinctIds(items) && x.id in adj && CountsWaiting(items, placed, before) &&
      before.Keys == adj.Keys == itemMap.Keys
    requires forall id :: id in itemMap ==> itemMap[id].id == id && itemMap[id] in items
    requires forall u, v :: u in adj ==> (v in adj[u] <==> Edge(items, u, v))
    ensures Joins(itemMap, before, adj[x.id], y) <==> Awaits(items, placed, x, y)
  {
    hide DistinctIds;
    if y in items {
      assert y.id in Ids(items);
      SameIdSameItem(items, itemMap[y.id], y);
    }
  }

  /**
   * Sorts by the constraints, then by order, then by id. For distinct ids it fails exactly when the
   * constraints are cyclic, and otherwise returns a permutation in which every position holds the
   * least item all of whose predecessors stand to its left.
   */
  method SortWithDependencies(items: seq<Item>) returns (result: Result<seq<Item>, seq<Id>>)
    ensures |items| <= 1 ==> result == Ok(items)
    ensures DistinctIds(items) ==> IsOutcome(items, result)
    ensures result.Err? ==> result.error == seq(|items|, i requires 0 <= i < |items| => items[i].id)
  {
    hide Edge, Cyclic, Greedy, DistinctIds, Waiting, Ready, NoRepeats, InOrder, CountsWaiting, SortReady;
    if |items| <= 1 { return Ok(items); }
    var itemMap := MapItems(items);
    var adj := Targets(items, itemMap);
    var inDegree := Degrees(items, adj);
    var ready := InitiallyReady(items, inDegree);
    SortKeepsReady(items, {}, ready);
    ready := SortReady(ready);
    var placed: seq<Item> := [];
    forall x | x in ready ensures x.id in adj { ReadyIsGiven(items, {}, x); }
    ghost var distinct := DistinctIds(items);
    assert Ids(placed) == {};
    GreedyAtStart(items);
    while |ready| > 0
      invariant inDegree.Keys == Ids(items) && forall x :: x in ready ==> x.id in adj
      invariant distinct ==> Greedy(items, placed) && HoldsReady(items, Ids(placed), ready)
      invariant distinct ==> CountsWaiting(items, Ids(placed), inDegree)
      decreases |ready| + |Positive(inDegree)|
    {
      var current := ready[0];
      assert current in ready;
      forall v | v in adj[current.id] ensures v in inDegree.Keys { EdgeEnds(items, current.id, v); }
      var degrees, more := Release(adj[current.id], itemMap, inDegree, ready[1..]);
      if distinct { Placing(items, placed, ready, itemMap, inDegree, degrees, adj, more); }
      placed := placed + [current];
      inDegree := degrees;
      SortKeepsReady(items, Ids(placed), more);
      ready := SortReady(more);
    }
    if |placed| != |items| {
      if distinct { StuckEarly(items, placed); }
      return Err(seq(|items|, i requires 0 <= i < |items| => items[i].id));
    }
    if distinct { AllPlaced(items, placed); }
    return Ok(placed);
  }

  lemma SortKeepsReady(items: seq<Item>, placed: set<Id>, list: seq<Item>)
    ensures |SortReady(list)| == |list| && forall x :: x in SortReady(list) <==> x in list
    ensures NoRepeats(list) && (forall x :: x in list <==> Ready(items, placed, x)) ==>
      HoldsReady(items, placed, SortReady(list))
  {
    hide Ready;
    SortReadySorts(list);
  }

  lemma ReadyIsGiven(items: seq<Item>, placed: set<Id>, x: Item)
    requires Ready(items, placed, x)
    ensures x.id in Ids(items) && x.id !in placed
  {
  }

  lemma GreedyAtStart(items: seq<Item>)
    ensures Greedy(items, [])
  {
  }
}
