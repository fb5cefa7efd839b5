/** Local mirrors of master data: the handler of change events, and the reconciliation pass. */
module Mirror {
  import opened Wrappers

  type Id = string

  datatype Row = Row(seqNo: int, data: string)

  type Rows = map<Id, Row>

  /** `payload` is the after image or, failing that, the payload, as the mapper turns it into mirror data. */
  datatype Event = Event(eventType: string, aggregateId: Id, seqNo: int, payload: Option<string>)

  datatype Outcome = Skipped | Deleted | Ignored | Upserted | MissingPayload

  datatype Types = Types(changed: set<string>, deleted: set<string>)

  // ---------------------------------------------------------------- one event

  predicate Newer(rows: Rows, e: Event) { e.aggregateId !in rows || rows[e.aggregateId].seqNo < e.seqNo }

  function OutcomeOf(ty: Types, rows: Rows, e: Event): Outcome {
    if e.eventType in ty.deleted then (if e.aggregateId in rows && Newer(rows, e) then Deleted else Skipped)
    else if e.eventType !in ty.changed then Ignored
    else if !Newer(rows, e) then Skipped
    else if e.payload.None? then MissingPayload
    else Upserted
  }

  function Handled(ty: Types, rows: Rows, e: Event): Rows {
    match OutcomeOf(ty, rows, e)
    case Deleted => rows - {e.aggregateId}
    case Upserted => rows[e.aggregateId := Row(e.seqNo, e.payload.value)]
    case _ => rows
  }

  /** The answer tells what was done: only newer events count, and only those with data write. */
  ghost predicate Answers(ty: Types, was: Rows, e: Event, outcome: Outcome, rows: Rows) {
    var id := e.aggregateId;
    var seen := id in was && was[id].seqNo >= e.seqNo;
    var deletion := e.eventType in ty.deleted;
    var change := !deletion && e.eventType in ty.changed;
    && (outcome == Ignored <==> !deletion && !change)
    && (outcome == Deleted <==> deletion && id in was && !seen)
    && (outcome == MissingPayload <==> change && !seen && e.payload == None)
    && (outcome == Upserted <==> change && !seen && e.payload != None)
    && (outcome == Skipped <==> (deletion && id !in was) || ((deletion || change) && seen))
    && (forall k :: k != id ==> (k in rows <==> k in was) && (k in was ==> rows[k] == was[k]))
    && (outcome == Deleted ==> id !in rows)
    && (outcome == Upserted ==> id in rows && rows[id] == Row(e.seqNo, e.payload.value))
    && (outcome != Deleted && outcome != Upserted ==> rows == was)
  }

  datatype Item = Item(sourceId: Id, seqNo: int, data: string)

  // ---------------------------------------------------------------- one reconciliation pass

  function IdsOf(items: seq<Item>): set<Id> { set i | 0 <= i < |items| :: items[i].sourceId }

  ghost predicate DistinctIds(items: seq<Item>) {
    forall i, j :: 0 <= i < j < |items| ==> items[i].sourceId != items[j].sourceId
  }

  /** The mirror has the item already, or something newer. */
  predicate UpToDate(existing: Rows, item: Item) {
    item.sourceId in existing && existing[item.sourceId].seqNo >= item.seqNo
  }

  /** What the upserts leave: the decision is taken on the rows as they were. */
  function Written(existing: Rows, items: seq<Item>): Rows {
    if items == [] then existing else
      var last := items[|items| - 1];
      var rows := Written(existing, items[..|items| - 1]);
      if UpToDate(existing, last) then rows else rows[last.sourceId := Row(last.seqNo, last.data)]
  }

  ghost function Stale(existing: Rows, items: seq<Item>): set<Id> {
    set i | 0 <= i < |items| && !UpToDate(existing, items[i]) :: items[i].sourceId
  }

  /** The newer of the row there was and the row of the source. */
  function Newest(existing: Rows, item: Item): Row {
    if UpToDate(existing, item) then existing[item.sourceId] else Row(item.seqNo, item.data)
  }

  /** The mirror has exactly the source's ids, each with the newer row. */
  ghost predicate IsReconciled(was: Rows, items: seq<Item>, rows: Rows) {
    rows.Keys == IdsOf(items) && forall i :: 0 <= i < |items| ==>
      items[i].sourceId in rows && rows[items[i].sourceId] == Newest(was, items[i])
  }

  lemma WriteOneMore(existing: Rows, items: seq<Item>, i: nat)
    requires i < |items|
    ensures items[..i + 1][..i] == items[..i] && items[..i + 1][i] == items[i]
    ensures Stale(existing, items[..i + 1]) == Stale(existing, items[..i]) + if UpToDate(existing, items[i]) then {}
      else {items[i].sourceId}
    ensures DistinctIds(items) ==> items[i].sourceId !in Stale(existing, items[..i])
  {
    assert items[..i + 1] == items[..i] + [items[i]];
    var more := items[..i + 1];
    forall id | id in Stale(existing, items[..i]) ensures id in Stale(existing, more) {
      var k :| 0 <= k < i && !UpToDate(existing, items[..i][k]) && items[..i][k].sourceId == id;
      assert more[k] == items[..i][k];
    }
    if !UpToDate(existing, items[i]) { assert more[i] == items[i]; }
  }

  lemma {:induction false} WrittenKeys(existing: Rows, items: seq<Item>)
    ensures Written(existing, items).Keys == existing.Keys + IdsOf(items)
  {
    if items != [] {
      var n := |items| - 1;
      WrittenKeys(existing, items[..n]);
      assert items == items[..n] + [items[n]];
      forall id ensures id in IdsOf(items) <==> id in IdsOf(items[..n]) || id == items[n].sourceId {
        if id in IdsOf(items[..n]) {
          var k :| 0 <= k < n && items[..n][k].sourceId == id;
          assert items[k].sourceId == id;
        }
        if id in IdsOf(items) {
          var k :| 0 <= k < |items| && items[k].sourceId == id;
          assert k < n ==> items[..n][k].sourceId == id;
        }
        assert items[n].sourceId in IdsOf(items);
      }
    } else {
      assert IdsOf(items) == {};
    }
  }

  lemma {:induction false} WrittenAt(existing: Rows, items: seq<Item>, i: nat)
    requires i < |items| && DistinctIds(items)
    ensures items[i].sourceId in Written(existing, items) &&
      Written(existing, items)[items[i].sourceId] == Newest(existing, items[i])
  {
    var n := |items| - 1;
    if i < n {
      assert DistinctIds(items[..n]);
      WrittenAt(existing, items[..n], i);
    } else if UpToDate(existing, items[n]) {
      WrittenElsewhere(existing, items[..n], items[n].sourceId);
    }
  }

  lemma {:induction false} WrittenElsewhere(existing: Rows, items: seq<Item>, id: Id)
    requires forall k :: 0 <= k < |items| ==> items[k].sourceId != id
    ensures id in Written(existing, items) <==> id in existing
    ensures id in existing ==> Written(existing, items)[id] == existing[id]
  {
    if items != [] { WrittenElsewhere(existing, items[..|items| - 1], id); }
  }

  lemma SweptIsReconciled(existing: Rows, items: seq<Item>)
    requires DistinctIds(items)
    ensures IsReconciled(existing, items, Written(existing, items) - (existing.Keys - IdsOf(items)))
  {
    WrittenKeys(existing, items);
    forall i: nat | i < |items|
      ensures items[i].sourceId in IdsOf(items) && items[i].sourceId in Written(existing, items)
      && Written(existing, items)[items[i].sourceId] == Newest(existing, items[i]) {
      WrittenAt(existing, items, i);
    }
  }

  /** After a pass every sequence number is the greater of the two, so none has fallen. */
  lemma SeqIsTheGreater(was: Rows, items: seq<Item>, rows: Rows, i: nat)
    requires IsReconciled(was, items, rows) && i < |items|
    ensures var id := items[i].sourceId;
      rows[id].seqNo == if id in was && was[id].seqNo > items[i].seqNo then was[id].seqNo else items[i].seqNo
  {
  }

  /** A second pass over the same source upserts nothing, deletes nothing and changes nothing. */
  lemma SecondPassIsIdle(was: Rows, items: seq<Item>, rows: Rows, next: Rows)
    requires IsReconciled(was, items, rows) && IsReconciled(rows, items, next)
    ensures next == rows && Stale(rows, items) == {} && rows.Keys - IdsOf(items) == {}
  {
    forall i | 0 <= i < |items| ensures UpToDate(rows, items[i]) {
      assert rows[items[i].sourceId] == Newest(was, items[i]);
    }
    forall id | id in rows ensures next[id] == rows[id] {
      var i :| 0 <= i < |items| && items[i].sourceId == id;
      assert next[id] == Newest(rows, items[i]);
    }
  }

  /** A table of mirror rows under a unique source id, with the two ways of keeping it up to date. */
  class MirrorModel {
    var rows: Rows

    constructor ()
      ensures rows == map[]
    {
      rows := map[];
    }

    method Handle(ty: Types, event: Event) returns (outcome: Outcome)
      modifies this
      ensures outcome == OutcomeOf(ty, old(rows), event)
      ensures rows == Handled(ty, old(rows), event)
      ensures Answers(ty, old(rows), event, outcome, rows)
    {
      if event.eventType in ty.deleted {
        if event.aggregateId !in rows || rows[event.aggregateId].seqNo >= event.seqNo { return Skipped; }
        rows := rows - {event.aggregateId};
        return Deleted;
      }
      if event.eventType !in ty.changed { return Ignored; }
      if event.aggregateId in rows && rows[event.aggregateId].seqNo >= event.seqNo { return Skipped; }
      if event.payload.None? { return MissingPayload; }
      rows := rows[event.aggregateId := Row(event.seqNo, event.payload.value)];
      return Upserted;
    }

    /**
     * One reconciliation pass. For a source with distinct ids that is not empty, the mirror ends with
     * exactly the source's ids, each with the newer of the two rows; an empty source changes nothing.
     */
    method ReconcileEntity(items: seq<Item>) returns (upserted: nat, deleted: nat, skipped: nat)
      modifies this
      ensures items == [] ==> rows == old(rows) && upserted == 0 && deleted == 0 && skipped == 0
      ensures items != [] && DistinctIds(items) ==> IsReconciled(old(rows), items, rows)
      ensures items != [] && DistinctIds(items) ==> forall i :: 0 <= i < |items| ==>
        var id := items[i].sourceId;
        id in rows && rows[id] == if id in old(rows) && old(rows)[id].seqNo >= items[i].seqNo
        then old(rows)[id] else Row(items[i].seqNo, items[i].data)
      ensures items != [] ==> rows.Keys == IdsOf(items) && deleted == |old(rows).Keys - IdsOf(items)|
      ensures upserted + skipped == |items|
      ensures DistinctIds(items) ==> upserted == |Stale(old(rows), items)|
    {
      ghost var distinct := DistinctIds(items);
      var existing := rows;
      upserted, deleted, skipped := 0, 0, 0;
      for i := 0 to |items|
        invariant rows == Written(existing, items[..i])
        invariant upserted + skipped == i && (distinct ==> upserted == |Stale(existing, items[..i])|)
      {
        var item := items[i];
        WriteOneMore(existing, items, i);
        if item.sourceId in existing && existing[item.sourceId].seqNo >= item.seqNo {
          skipped := skipped + 1;
          continue;
        }
        rows := rows[item.sourceId := Row(item.seqNo, item.data)];
        upserted := upserted + 1;
      }
      assert items[..|items|] == items;
      if items == [] { return; }
      WrittenKeys(existing, items);
      deleted := Sweep(existing.Keys, IdsOf(items));
      if distinct { SweptIsReconciled(existing, items); }
    }

    /** Deletes the rows that were there before and are not in the source. */
    method Sweep(existing: set<Id>, sourceIds: set<Id>) returns (deleted: nat)
      requires existing <= rows.Keys
      modifies this
      ensures rows == old(rows) - (existing - sourceIds)
      ensures deleted == |existing - sourceIds|
    {
      var left := existing;
      ghost var gone: set<Id> := {};
      deleted := 0;
      while left != {}
        invariant left <= existing && gone == (existing - sourceIds) - left
        invariant rows == old(rows) - gone && deleted == |gone|
        decreases |left|
      {
        var id :| id in left;
        if id !in sourceIds {
          assert old(rows) - gone - {id} == old(rows) - (gone + {id});
          rows := rows - {id};
          deleted := deleted + 1;
          gone := gone + {id};
        }
        left := left - {id};
      }
      assert gone == existing - sourceIds;
    }
  }

  // ---------------------------------------------------------------- runs of events

  function After(ty: Types, start: Rows, run: seq<Event>): Rows {
    if run == [] then start else Handled(ty, After(ty, start, run[..|run| - 1]), run[|run| - 1])
  }

  predicate Deletes(ty: Types, e: Event, id: Id) { e.aggregateId == id && e.eventType in ty.deleted }

  predicate Writes(ty: Types, e: Event, id: Id) {
    e.aggregateId == id && e.eventType !in ty.deleted && e.eventType in ty.changed && e.payload.Some?
  }

  predicate Counts(ty: Types, e: Event, id: Id) { Deletes(ty, e, id) || Writes(ty, e, id) }

  /** An event is fixed by its id and sequence number; it may be delivered any number of times. */
  ghost predicate Consistent(ty: Types, run: seq<Event>, id: Id) {
    forall e, f :: e in run && f in run && Counts(ty, e, id) && Counts(ty, f, id) && e.seqNo == f.seqNo ==> e == f
  }

  /** The event with the greatest sequence number. */
  ghost predicate IsGreatest(ty: Types, run: seq<Event>, id: Id, g: Event) {
    g in run && Counts(ty, g, id) && forall e :: e in run && Counts(ty, e, id) ==> e.seqNo <= g.seqNo
  }

  function RowOf(e: Event): Row
    requires e.payload.Some?
  {
    Row(e.seqNo, e.payload.value)
  }

  lemma InOneMore(run: seq<Event>, e: Event)
    requires run != []
    ensures e in run <==> e in run[..|run| - 1] || e == run[|run| - 1]
  {
    assert run == run[..|run| - 1] + [run[|run| - 1]];
  }

  /** No live row is newer than every event that could have written it. */
  lemma {:induction false} RowsComeFromEvents(ty: Types, run: seq<Event>, id: Id)
    ensures var t := After(ty, map[], run);
      id in t ==> exists e :: e in run && Writes(ty, e, id) && t[id] == RowOf(e)
  {
    if run != [] {
      var n := |run| - 1;
      RowsComeFromEvents(ty, run[..n], id);
      var t := After(ty, map[], run[..n]);
      if id in t {
        var e :| e in run[..n] && Writes(ty, e, id) && t[id] == RowOf(e);
        InOneMore(run, e);
      }
      InOneMore(run, run[n]);
      assert Writes(ty, run[n], id) ==> Handled(ty, t, run[n]) == t || Handled(ty, t, run[n])[id] == RowOf(run[n]);
    }
  }

  /** When the greatest event is a change, the mirror ends with it, in whatever order events arrive. */
  lemma {:induction false} GreatestChangeWins(ty: Types, run: seq<Event>, id: Id, g: Event)
    requires Consistent(ty, run, id) && IsGreatest(ty, run, id, g) && Writes(ty, g, id)
    ensures var t := After(ty, map[], run); id in t && t[id] == RowOf(g)
  {
    var n := |run| - 1;
    var before, e := After(ty, map[], run[..n]), run[n];
    forall f ensures f in run <==> f in run[..n] || f == e { InOneMore(run, f); }
    if g in run[..n] {
      GreatestChangeWins(ty, run[..n], id, g);
    } else {
      RowsComeFromEvents(ty, run[..n], id);
      if id in before {
        var f :| f in run[..n] && Writes(ty, f, id) && before[id] == RowOf(f);
        assert f.seqNo < g.seqNo;
      }
    }
  }

  ghost function ChangesIn(ty: Types, run: seq<Event>): set<Event> {
    set e | e in run && Writes(ty, e, e.aggregateId)
  }

  predicate NoDeletes(ty: Types, run: seq<Event>) { forall i :: 0 <= i < |run| ==> run[i].eventType !in ty.deleted }

  lemma {:induction false} GreatestExists(ty: Types, run: seq<Event>, id: Id) returns (g: Option<Event>)
    ensures match g
      case None => forall e :: e in run ==> !Counts(ty, e, id)
      case Some(e) => IsGreatest(ty, run, id, e)
  {
    if run == [] {
      g := None;
    } else {
      var n := |run| - 1;
      g := GreatestExists(ty, run[..n], id);
      forall f ensures f in run <==> f in run[..n] || f == run[n] { InOneMore(run, f); }
      if Counts(ty, run[n], id) && (g.None? || g.value.seqNo < run[n].seqNo) { g := Some(run[n]); }
    }
  }

  /** Confluence: runs without deletes that deliver the same changes, in any order and number, end alike. */
  lemma ChangesAreConfluent(ty: Types, a: seq<Event>, b: seq<Event>)
    requires NoDeletes(ty, a) && NoDeletes(ty, b) && ChangesIn(ty, a) == ChangesIn(ty, b)
    requires forall id :: Consistent(ty, a, id) && Consistent(ty, b, id)
    ensures After(ty, map[], a) == After(ty, map[], b)
  {
    forall id ensures Lookup(After(ty, map[], a), id) == Lookup(After(ty, map[], b), id) { SameFor(ty, a, b, id); }
    SameLookups(After(ty, map[], a), After(ty, map[], b));
  }

  function Lookup(rows: Rows, id: Id): Option<Row> { if id in rows then Some(rows[id]) else None }

  lemma SameLookups(a: Rows, b: Rows)
    requires forall id :: Lookup(a, id) == Lookup(b, id)
    ensures a == b
  {
    forall id ensures id in a <==> id in b { assert Lookup(a, id) == Lookup(b, id); }
    forall id | id in a ensures a[id] == b[id] { assert Lookup(a, id) == Lookup(b, id); }
  }

  lemma SameFor(ty: Types, a: seq<Event>, b: seq<Event>, id: Id)
    requires NoDeletes(ty, a) && NoDeletes(ty, b) && ChangesIn(ty, a) == ChangesIn(ty, b)
    requires Consistent(ty, a, id) && Consistent(ty, b, id)
    ensures Lookup(After(ty, map[], a), id) == Lookup(After(ty, map[], b), id)
  {
    var g := GreatestExists(ty, a, id);
    forall e ensures (e in a && Counts(ty, e, id)) <==> (e in b && Counts(ty, e, id)) {
      assert e in a && Writes(ty, e, id) <==> e in ChangesIn(ty, a) && e.aggregateId == id;
      assert e in b && Writes(ty, e, id) <==> e in ChangesIn(ty, b) && e.aggregateId == id;
    }
    RowsComeFromEvents(ty, a, id);
    RowsComeFromEvents(ty, b, id);
    if g.Some? {
      assert IsGreatest(ty, b, id, g.value);
      GreatestChangeWins(ty, a, id, g.value);
      GreatestChangeWins(ty, b, id, g.value);
    }
  }

  // ---------------------------------------------------------------- deletes

  /** A change that no later delete outranks. */
  ghost predicate Survives(ty: Types, run: seq<Event>, id: Id, i: nat)
    requires i < |run|
  {
    Writes(ty, run[i], id) && forall j :: i < j < |run| && Deletes(ty, run[j], id) ==> run[j].seqNo <= run[i].seqNo
  }

  /** The row is there exactly when some change is outranked by no delete that arrives after it. */
  lemma PresentIffSurvives(ty: Types, run: seq<Event>, id: Id)
    ensures id in After(ty, map[], run) <==> exists i: nat :: i < |run| && Survives(ty, run, id, i)
  {
    hide After, Survives;
    RowSurvives(ty, run, id);
    forall i: nat | i < |run| && Survives(ty, run, id, i) ensures id in After(ty, map[], run) {
      SurvivorIsPresent(ty, run, id, i);
    }
  }

  lemma {:induction false} SurvivorIsPresent(ty: Types, run: seq<Event>, id: Id, i: nat)
    requires i < |run| && Survives(ty, run, id, i)
    ensures id in After(ty, map[], run) && After(ty, map[], run)[id].seqNo >= run[i].seqNo
  {
    var n := |run| - 1;
    if i < n {
      SurvivesOneMore(ty, run, id, i);
      hide Survives;
      SurvivorIsPresent(ty, run[..n], id, i);
    }
  }

  lemma SurvivesOneMore(ty: Types, run: seq<Event>, id: Id, i: nat)
    requires i + 1 < |run|
    ensures Survives(ty, run, id, i) <==>
      Survives(ty, run[..|run| - 1], id, i) &&
        (Deletes(ty, run[|run| - 1], id) ==> run[|run| - 1].seqNo <= run[i].seqNo)
  {
    var init := run[..|run| - 1];
    assert forall j :: 0 <= j < |init| ==> init[j] == run[j];
  }

  /** A live row was written by a change that survives. */
  lemma {:induction false} RowSurvives(ty: Types, run: seq<Event>, id: Id)
    ensures var t := After(ty, map[], run);
      id in t ==> exists i: nat :: i < |run| && Survives(ty, run, id, i) && t[id] == RowOf(run[i])
  {
    if run != [] {
      var n := |run| - 1;
      var before, t := After(ty, map[], run[..n]), After(ty, map[], run);
      RowSurvives(ty, run[..n], id);
      if id in t {
        if id in before && t[id] == before[id] {
          var i: nat :| i < n && Survives(ty, run[..n], id, i) && before[id] == RowOf(run[..n][i]);
          SurvivesOneMore(ty, run, id, i);
          assert Survives(ty, run, id, i) && t[id] == RowOf(run[i]);
        } else {
          assert Survives(ty, run, id, n) && t[id] == RowOf(run[n]);
        }
      }
    }
  }

  /** What the last writer by sequence number would leave. */
  ghost predicate IsLastWriter(ty: Types, run: seq<Event>, id: Id, row: Option<Row>) {
    match row
    case None => forall g :: IsGreatest(ty, run, id, g) ==> Deletes(ty, g, id)
    case Some(r) => exists g :: IsGreatest(ty, run, id, g) && Writes(ty, g, id) && r == RowOf(g)
  }

  /**
   * The handler keeps no tombstones, so deletes are not confluent: the mirror ends with what the last
   * writer by sequence number leaves if and only if the greatest event is not a delete, or no change
   * that arrives, before or after it, escapes being outranked by a later delete.
   */
  lemma RightIffNothingResurrected(ty: Types, run: seq<Event>, id: Id)
    requires Consistent(ty, run, id)
    ensures IsLastWriter(ty, run, id, Lookup(After(ty, map[], run), id)) <==>
      ((exists g :: IsGreatest(ty, run, id, g) && Deletes(ty, g, id)) ==>
        !exists i: nat :: i < |run| && Survives(ty, run, id, i))
  {
    PresentIffSurvives(ty, run, id);
    var greatest := GreatestExists(ty, run, id);
    if greatest.Some? && Writes(ty, greatest.value, id) {
      GreatestChangeWins(ty, run, id, greatest.value);
    }
    if greatest.None? { RowsComeFromEvents(ty, run, id); }
  }

  /** Three events for which the order of arrival decides. */
  lemma OutOfOrderDeleteResurrects(id: Id, old1: string, old2: string)
    ensures var ty := Types({"changed"}, {"deleted"});
      var e1, e2, e3 := Event("changed", id, 1, Some(old1)), Event("changed", id, 2, Some(old2)),
        Event("deleted", id, 3, None);
      After(ty, map[], [e1, e2, e3]) == map[] && After(ty, map[], [e1, e3, e2]) == map[id := Row(2, old2)]
  {
    var ty := Types({"changed"}, {"deleted"});
    var e1, e2, e3 := Event("changed", id, 1, Some(old1)), Event("changed", id, 2, Some(old2)),
      Event("deleted", id, 3, None);
    assert [e1, e2, e3][..2] == [e1, e2] && [e1, e3, e2][..2] == [e1, e3];
    assert [e1, e2][..1] == [e1] && [e1, e3][..1] == [e1] && [e1][..0] == [];
    assert After(ty, map[], [e1]) == map[id := Row(1, old1)];
    assert After(ty, map[], [e1, e2]) == map[id := Row(2, old2)];
    assert After(ty, map[], [e1, e3]) == map[];
  }

  // ---------------------------------------------------------------- in order

  /** Applying every event as it comes, whatever its sequence number. */
  function Replayed(ty: Types, run: seq<Event>): Rows {
    if run == [] then map[] else
      var rows, e := Replayed(ty, run[..|run| - 1]), run[|run| - 1];
      if Deletes(ty, e, e.aggregateId) then rows - {e.aggregateId}
      else if Writes(ty, e, e.aggregateId) then rows[e.aggregateId := RowOf(e)]
      else rows
  }

  /** The events of each id come in order; the same one may come several times in a row. */
  ghost predicate InOrder(ty: Types, run: seq<Event>) {
    forall i, j :: 0 <= i < j < |run| && CountTogether(ty, run[i], run[j]) ==> InTurn(run[i], run[j])
  }

  predicate CountTogether(ty: Types, e: Event, f: Event) {
    e.aggregateId == f.aggregateId && Counts(ty, e, e.aggregateId) && Counts(ty, f, f.aggregateId)
  }

  predicate InTurn(e: Event, f: Event) { e.seqNo < f.seqNo || e == f }

  /** In order, the handler is plain replay: the last writer wins, deletes included. */
  lemma {:induction false} InOrderIsReplay(ty: Types, run: seq<Event>)
    requires InOrder(ty, run)
    ensures After(ty, map[], run) == Replayed(ty, run)
  {
    if run != [] {
      var n := |run| - 1;
      var e, id := run[n], run[n].aggregateId;
      assert InOrder(ty, run[..n]);
      InOrderIsReplay(ty, run[..n]);
      RowSurvives(ty, run[..n], id);
      var before := After(ty, map[], run[..n]);
      assert After(ty, map[], run) == Handled(ty, before, e);
      if id in before && Counts(ty, e, id) {
        hide After, Replayed, Handled, Survives;
        var i: nat :| i < n && Survives(ty, run[..n], id, i) && before[id] == RowOf(run[..n][i]);
        assert InTurn(run[i], e);
      }
    }
  }

  ghost predicate NeverDeletes(ty: Types, run: seq<Event>, id: Id) {
    forall k :: 0 <= k < |run| ==> !Deletes(ty, run[k], id)
  }

  /** Over any run without a deletion of it, a row stays, and every change of it raises its sequence number. */
  lemma {:induction false} LiveRowsOnlyRise(ty: Types, start: Rows, run: seq<Event>, id: Id)
    requires id in start && NeverDeletes(ty, run, id)
    ensures var t := After(ty, start, run); id in t && (t[id] == start[id] || t[id].seqNo > start[id].seqNo)
  {
    if run != [] {
      var n := |run| - 1;
      assert NeverDeletes(ty, run[..n], id) && !Deletes(ty, run[n], id);
      LiveRowsOnlyRise(ty, start, run[..n], id);
    }
  }
}
