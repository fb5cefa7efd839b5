/**
 * Change events of one mirror handled at the same time: a handler reads the row, decides, and later writes
 * without looking again. When such a write puts an older row in the place of a newer one.
 */
module MirrorRaces {
  import opened Mirror

  type CallId = nat

  /** A handler that has decided to write; `readAt` writes had been made when it read. */
  datatype Call = Call(event: Event, readAt: nat)

  datatype State = State(rows: Rows, calls: map<CallId, Call>, writes: seq<Event>)

  datatype Step = Read(call: CallId, event: Event) | Write(call: CallId)

  function Begin(rows: Rows): State { State(rows, map[], []) }

  /** The outcomes that lead to a write. */
  predicate Writes(ty: Types, rows: Rows, e: Event) {
    OutcomeOf(ty, rows, e).Upserted? || OutcomeOf(ty, rows, e).Deleted?
  }

  /** The unguarded write; deleting a row that is gone is passed over. */
  function Put(ty: Types, rows: Rows, e: Event): Rows {
    if e.eventType in ty.deleted then rows - {e.aggregateId}
    else if e.payload.Some? then rows[e.aggregateId := Row(e.seqNo, e.payload.value)]
    else rows
  }

  predicate Enabled(s: State, step: Step) {
    match step case Read(c, _) => c !in s.calls case Write(c) => c in s.calls
  }

  function Next(ty: Types, s: State, step: Step): State
    requires Enabled(s, step)
  {
    match step
    case Read(c, e) => if Writes(ty, s.rows, e) then s.(calls := s.calls[c := Call(e, |s.writes|)]) else s
    case Write(c) =>
      var e := s.calls[c].event;
      State(Put(ty, s.rows, e), s.calls - {c}, s.writes + [e])
  }

  ghost predicate IsRun(ty: Types, s: State, run: seq<Step>)
    decreases |run|
  {
    run != [] ==> Enabled(s, run[0]) && IsRun(ty, Next(ty, s, run[0]), run[1..])
  }

  ghost function After(ty: Types, s: State, run: seq<Step>): State
    requires IsRun(ty, s, run)
    decreases |run|
  {
    if run == [] then s else After(ty, Next(ty, s, run[0]), run[1..])
  }

  /** A handler that nothing interrupts is the atomic one. */
  lemma UninterruptedIsHandled(ty: Types, s: State, c: CallId, e: Event)
    requires c !in s.calls
    ensures var t := Next(ty, s, Read(c, e));
      (if c in t.calls then Next(ty, t, Write(c)).rows else t.rows) == Handled(ty, s.rows, e)
  {
  }

  // ---------------------------------------------------------------- rows are what was written last

  function Replay(ty: Types, rows: Rows, writes: seq<Event>): Rows {
    if writes == [] then rows else Put(ty, Replay(ty, rows, writes[..|writes| - 1]), writes[|writes| - 1])
  }

  ghost predicate CallOk(ty: Types, rows: Rows, writes: seq<Event>, call: Call) {
    call.readAt <= |writes| && Writes(ty, Replay(ty, rows, writes[..call.readAt]), call.event)
  }

  ghost predicate Inv(ty: Types, rows: Rows, s: State) {
    && s.rows == Replay(ty, rows, s.writes)
    && (forall c :: c in s.calls ==> CallOk(ty, rows, s.writes, s.calls[c]))
    && (forall k :: 0 <= k < |s.writes| ==> CanWrite(ty, s.writes[k]))
  }

  /** A deletion, or a change with data. */
  predicate CanWrite(ty: Types, e: Event) {
    e.eventType in ty.deleted || (e.eventType in ty.changed && e.payload.Some?)
  }

  lemma CallStaysOk(ty: Types, rows: Rows, writes: seq<Event>, e: Event, call: Call)
    requires CallOk(ty, rows, writes, call)
    ensures CallOk(ty, rows, writes + [e], call)
  {
    assert (writes + [e])[..call.readAt] == writes[..call.readAt];
  }

  lemma WriterIsOk(ty: Types, rows: Rows, s: State, c: CallId)
    requires Inv(ty, rows, s) && c in s.calls
    ensures CanWrite(ty, s.calls[c].event)
  {
    assert CallOk(ty, rows, s.writes, s.calls[c]);
    hide Replay;
  }

  lemma OneMoreWrite(ty: Types, rows: Rows, writes: seq<Event>, e: Event)
    ensures Replay(ty, rows, writes + [e]) == Put(ty, Replay(ty, rows, writes), e)
  {
    assert (writes + [e])[..|writes|] == writes;
  }

  lemma StepKeepsInv(ty: Types, rows: Rows, s: State, step: Step)
    requires Inv(ty, rows, s) && Enabled(s, step)
    ensures Inv(ty, rows, Next(ty, s, step))
  {
    if step.Write? {
      var e := s.calls[step.call].event;
      WriterIsOk(ty, rows, s, step.call);
      OneMoreWrite(ty, rows, s.writes, e);
      hide Replay, CallOk, CanWrite, Put;
      forall c | c in s.calls ensures CallOk(ty, rows, s.writes + [e], s.calls[c]) {
        CallStaysOk(ty, rows, s.writes, e, s.calls[c]);
      }
    } else {
      assert s.writes[..|s.writes|] == s.writes;
      assert Writes(ty, s.rows, step.event) ==> CallOk(ty, rows, s.writes, Call(step.event, |s.writes|));
      hide Replay, CallOk, CanWrite, Writes;
    }
  }

  lemma {:induction false} RunKeepsInv(ty: Types, rows: Rows, s: State, run: seq<Step>)
    requires Inv(ty, rows, s) && IsRun(ty, s, run)
    ensures Inv(ty, rows, After(ty, s, run))
    decreases |run|
  {
    if run != [] {
      StepKeepsInv(ty, rows, s, run[0]);
      RunKeepsInv(ty, rows, Next(ty, s, run[0]), run[1..]);
    }
  }

  ghost predicate NoneFrom(writes: seq<Event>, id: Id, n: nat) {
    forall j :: n <= j < |writes| ==> writes[j].aggregateId != id
  }

  /** The `k`-th write is the last one to that row. */
  ghost predicate LastOn(writes: seq<Event>, id: Id, k: nat) {
    k < |writes| && writes[k].aggregateId == id && NoneFrom(writes, id, k + 1)
  }

  lemma {:induction false} RowStays(ty: Types, rows: Rows, writes: seq<Event>, id: Id, n: nat)
    requires n <= |writes| && NoneFrom(writes, id, n)
    ensures var was, now := Replay(ty, rows, writes[..n]), Replay(ty, rows, writes);
      (id in now <==> id in was) && (id in now ==> now[id] == was[id])
    decreases |writes| - n
  {
    var m := |writes| - 1;
    if n == |writes| {
      assert writes[..n] == writes;
    } else {
      assert writes[..m][..n] == writes[..n];
      RowStays(ty, rows, writes[..m], id, n);
    }
  }

  lemma RowIsLastWritten(ty: Types, rows: Rows, writes: seq<Event>, id: Id, k: nat)
    requires LastOn(writes, id, k) && CanWrite(ty, writes[k])
    ensures id in Replay(ty, rows, writes) <==> writes[k].eventType !in ty.deleted
    ensures id in Replay(ty, rows, writes) ==> Replay(ty, rows, writes)[id].seqNo == writes[k].seqNo
  {
    RowStays(ty, rows, writes, id, k + 1);
    assert writes[..k + 1][..k] == writes[..k] && writes[..k + 1][k] == writes[k];
  }

  lemma {:induction false} FindLast(writes: seq<Event>, id: Id, n: nat) returns (k: nat)
    requires n <= |writes|
    ensures if NoneFrom(writes, id, n) then true else n <= k && LastOn(writes, id, k)
    decreases |writes| - n
  {
    k := n;
    if n < |writes| {
      k := FindLast(writes, id, n + 1);
      if NoneFrom(writes, id, n + 1) { k := n; }
    }
  }

  // ---------------------------------------------------------------- when a newer row is lost

  /** The write finds a newer row than it brings, which it overwrites or deletes. */
  predicate LosesNewer(s: State, c: CallId)
    requires c in s.calls
  {
    var e := s.calls[c].event;
    e.aggregateId in s.rows && s.rows[e.aggregateId].seqNo > e.seqNo
  }

  /** Since the handler read, the last write to its row was a newer change. */
  ghost predicate Overtaken(ty: Types, s: State, c: CallId)
    requires c in s.calls
  {
    var e := s.calls[c].event;
    exists k :: s.calls[c].readAt <= k && LastOn(s.writes, e.aggregateId, k)
      && s.writes[k].eventType !in ty.deleted && s.writes[k].seqNo > e.seqNo
  }

  /**
   * A write loses a newer row exactly when the last write to the row since the handler's own read was a
   * newer change; what was there before the read is never lost.
   */
  lemma LosesNewerIffOvertaken(ty: Types, rows: Rows, run: seq<Step>, c: CallId)
    requires IsRun(ty, Begin(rows), run) && c in After(ty, Begin(rows), run).calls
    ensures var s := After(ty, Begin(rows), run); LosesNewer(s, c) <==> Overtaken(ty, s, c)
  {
    var s := After(ty, Begin(rows), run);
    RunKeepsInv(ty, rows, Begin(rows), run);
    var call := s.calls[c];
    var id := call.event.aggregateId;
    assert CallOk(ty, rows, s.writes, call);
    var k := FindLast(s.writes, id, call.readAt);
    hide IsRun, After, Replay;
    if NoneFrom(s.writes, id, call.readAt) {
      RowStays(ty, rows, s.writes, id, call.readAt);
    } else {
      RowIsLastWritten(ty, rows, s.writes, id, k);
      forall j | LastOn(s.writes, id, j) ensures j == k {}
    }
  }

  /** Two handlers of an empty mirror: the older change is written last and stays. */
  lemma OlderChangeMayStay(ty: Types, id: Id, older: Event, newer: Event)
    requires older.aggregateId == newer.aggregateId == id && older.seqNo < newer.seqNo
    requires older.eventType in ty.changed && newer.eventType in ty.changed
    requires older.eventType !in ty.deleted && newer.eventType !in ty.deleted
    requires older.payload.Some? && newer.payload.Some?
    ensures var run := [Read(0, older), Read(1, newer), Write(1)];
      && IsRun(ty, Begin(map[]), run)
      && var s := After(ty, Begin(map[]), run);
         0 in s.calls && LosesNewer(s, 0) &&
           Next(ty, s, Write(0)).rows == map[id := Row(older.seqNo, older.payload.value)]
  {
    var run := [Read(0, older), Read(1, newer), Write(1)];
    var s0 := Begin(map[]);
    var s1 := Next(ty, s0, run[0]);
    var s2 := Next(ty, s1, run[1]);
    var s3 := Next(ty, s2, run[2]);
    assert run[1..][0] == run[1] && run[1..][1..][0] == run[2] && run[1..][1..][1..] == [];
    assert IsRun(ty, s3, []) && After(ty, s3, []) == s3;
    assert IsRun(ty, s2, run[1..][1..]) && After(ty, s2, run[1..][1..]) == s3;
    assert IsRun(ty, s1, run[1..]) && After(ty, s1, run[1..]) == s3;
  }
}
