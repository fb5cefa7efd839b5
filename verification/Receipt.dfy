/**
 * The receiving side of the outbox: any number of concurrent and repeated deliveries call the
 * receipt helper, whose transaction inserts the receipt under a unique (sourceApp, eventId) key and
 * runs the business callback. One event of the model is one statement of one call.
 */
module Receipt {
  import opened Wrappers

  type CallId = nat
  type Digest = string

  datatype Key = Key(sourceApp: string, eventId: string)

  datatype Contract = Contract(capabilityId: string, capabilityVersion: string, capabilityDigest: Digest,
                               bindingId: string, bindingVersion: string)

  datatype Envelope = Envelope(key: Key, contract: Contract, payload: string, payloadDigest: Digest)

  datatype Record = Record(key: Key, contract: Contract, payloadDigest: Digest)

  /** One run of the business callback, as it shows in the database. */
  datatype Effect = Effect(call: CallId, key: Key)

  /** What a transaction has written and nobody else can see yet. */
  datatype Tx = Tx(inserted: Option<Record>, effects: seq<Effect>)

  datatype Failure = PayloadMismatch | ReceiptMismatch | ProcessFailed | DatabaseError | UniqueConflict

  datatype Phase =
    | Looking
    | Creating
    | Processing(record: Record)
    | Committing(duplicate: bool, record: Record)
    | Rereading
    | Returned(duplicate: bool, record: Record)
    | Failed(failure: Failure)

  datatype Call = Call(envelope: Envelope, tx: Tx, phase: Phase)

  datatype State = State(receipts: map<Key, Record>, effects: seq<Effect>, calls: map<CallId, Call>)

  datatype Event =
    | Begin(call: CallId, envelope: Envelope)
    | Find(call: CallId)
    | Create(call: CallId)
    | ProcessEnds(call: CallId, ok: bool)
    | Commit(call: CallId, acknowledged: bool)
    | Reread(call: CallId)
    | DatabaseFails(call: CallId)

  const NOTHING := Tx(None, [])

  const START := State(map[], [], map[])

  function NewRecord(e: Envelope): Record { Record(e.key, e.contract, e.payloadDigest) }

  /** The check of an existing receipt: the digest, and the five fields of the contract. */
  function AssertMatching(existing: Record, e: Envelope): Result<Record, Failure> {
    if existing.payloadDigest != e.payloadDigest ||
      existing.contract != e.contract then Err(ReceiptMismatch) else Ok(existing)
  }

  function Lookup(receipts: map<Key, Record>, key: Key): Option<Record> {
    if key in receipts then Some(receipts[key]) else None
  }

  /** Another open transaction holds an uncommitted row under the key. */
  ghost predicate Locked(s: State, c: CallId, key: Key) {
    exists d :: d in s.calls && d != c && s.calls[d].tx.inserted.Some? && s.calls[d].tx.inserted.value.key == key
  }

  predicate InTransaction(p: Phase) { p.Looking? || p.Creating? || p.Processing? || p.Committing? }

  ghost predicate Enabled(s: State, e: Event) {
    if e.Begin? then e.call !in s.calls
    else e.call in s.calls && var call := s.calls[e.call];
    match e
    case Begin(_, _) => true
    case Find(_) => call.phase.Looking?
    // The insert waits for a transaction that holds the key.
    case Create(c) => call.phase.Creating? && (call.envelope.key in s.receipts || !Locked(s, c, call.envelope.key))
    case ProcessEnds(_, _) => call.phase.Processing?
    case Commit(_, _) => call.phase.Committing?
    case Reread(_) => call.phase.Rereading?
    case DatabaseFails(_) => InTransaction(call.phase) || call.phase.Rereading?
  }

  function Begun(digest: string -> Digest, e: Envelope): Call {
    Call(e, NOTHING, if digest(e.payload) != e.payloadDigest then Failed(PayloadMismatch) else Looking)
  }

  function RolledBack(call: Call, next: Phase): Call { call.(tx := NOTHING, phase := next) }

  function Found(receipts: map<Key, Record>, call: Call): Call {
    match Lookup(receipts, call.envelope.key)
    case None => call.(phase := Creating)
    case Some(existing) =>
      match AssertMatching(existing, call.envelope)
      case Err(f) => RolledBack(call, Failed(f))
      case Ok(r) => call.(phase := Committing(true, r))
  }

  function Created(receipts: map<Key, Record>, call: Call): Call {
    if call.envelope.key in receipts then RolledBack(call, Rereading)
    else call.(tx := call.tx.(inserted := Some(NewRecord(call.envelope))),
      phase := Processing(NewRecord(call.envelope)))
  }

  function Processed(c: CallId, call: Call, ok: bool): Call
    requires call.phase.Processing?
  {
    if !ok then RolledBack(call, Failed(ProcessFailed))
    else call.(tx := call.tx.(effects := call.tx.effects + [Effect(c, call.envelope.key)]),
      phase := Committing(false, call.phase.record))
  }

  function Ended(call: Call, acknowledged: bool): Call
    requires call.phase.Committing?
  {
    call.(tx := NOTHING,
      phase := if acknowledged then Returned(call.phase.duplicate, call.phase.record) else Failed(DatabaseError))
  }

  function Reconsidered(receipts: map<Key, Record>, call: Call): Call {
    match Lookup(receipts, call.envelope.key)
    case None => call.(phase := Failed(UniqueConflict))
    case Some(existing) =>
      match AssertMatching(existing, call.envelope)
      case Err(f) => call.(phase := Failed(f))
      case Ok(r) => call.(phase := Returned(true, r))
  }

  function Published(receipts: map<Key, Record>, tx: Tx): map<Key, Record> {
    if tx.inserted.Some? then receipts[tx.inserted.value.key := tx.inserted.value] else receipts
  }

  /** The call after its event. */
  function CallAfter(digest: string -> Digest, s: State, e: Event): Call
    requires Enabled(s, e)
  {
    match e
    case Begin(_, envelope) => Begun(digest, envelope)
    case Find(c) => Found(s.receipts, s.calls[c])
    case Create(c) => Created(s.receipts, s.calls[c])
    case ProcessEnds(c, ok) => Processed(c, s.calls[c], ok)
    case Commit(c, acknowledged) => Ended(s.calls[c], acknowledged)
    case Reread(c) => Reconsidered(s.receipts, s.calls[c])
    case DatabaseFails(c) => RolledBack(s.calls[c], Failed(DatabaseError))
  }

  function Apply(digest: string -> Digest, s: State, e: Event): State
    requires Enabled(s, e)
  {
    var next := s.(calls := s.calls[e.call := CallAfter(digest, s, e)]);
    if e.Commit? then
      next.(receipts := Published(s.receipts, s.calls[e.call].tx), effects := s.effects + s.calls[e.call].tx.effects)
    else
      next
  }

  ghost predicate IsRun(digest: string -> Digest, s: State, run: seq<Event>)
    decreases |run|
  {
    run != [] ==> Enabled(s, run[0]) && IsRun(digest, Apply(digest, s, run[0]), run[1..])
  }

  ghost function After(digest: string -> Digest, s: State, run: seq<Event>): State
    requires IsRun(digest, s, run)
    decreases |run|
  {
    if run == [] then s else After(digest, Apply(digest, s, run[0]), run[1..])
  }

  // ---------------------------------------------------------------- what every step keeps

  ghost predicate Agrees(r: Record, e: Envelope) {
    r.key == e.key && r.payloadDigest == e.payloadDigest && r.contract == e.contract
  }

  ghost function Committed(effects: seq<Effect>, key: Key): nat {
    if effects == [] then 0
      else Committed(effects[..|effects| - 1], key) + (if effects[|effects| - 1].key == key then 1 else 0)
  }

  ghost predicate Stands(receipts: map<Key, Record>, r: Record, e: Envelope) {
    e.key in receipts && receipts[e.key] == r && Agrees(r, e)
  }

  ghost predicate CallOk(digest: string -> Digest, receipts: map<Key, Record>, c: CallId, call: Call) {
    var e := call.envelope;
    && (call.phase.Failed? || digest(e.payload) == e.payloadDigest)
    && match call.phase
       case Looking => call.tx == NOTHING
       case Creating => call.tx == NOTHING
       case Processing(r) => call.tx == Tx(Some(r), []) && r == NewRecord(e) && e.key !in receipts
       case Committing(duplicate, r) =>
         if duplicate then call.tx == NOTHING && Stands(receipts, r, e)
         else call.tx == Tx(Some(r), [Effect(c, e.key)]) && r == NewRecord(e) && e.key !in receipts
       case Rereading => call.tx == NOTHING && e.key in receipts
       case Returned(_, r) => call.tx == NOTHING && Stands(receipts, r, e)
       case Failed(_) => call.tx == NOTHING
  }

  ghost predicate Holds(call: Call, key: Key) { call.tx.inserted.Some? && call.tx.inserted.value.key == key }

  ghost predicate OneHolder(calls: map<CallId, Call>) {
    forall c, d, key :: c in calls && d in calls && Holds(calls[c], key) && Holds(calls[d], key) ==> c == d
  }

  /** A committed run of the callback belongs to a call that returned, or whose commit went unacknowledged. */
  ghost predicate EffectOk(calls: map<CallId, Call>, e: Effect) {
    && e.call in calls && e.key == calls[e.call].envelope.key
    && (calls[e.call].phase.Returned? || calls[e.call].phase == Failed(DatabaseError))
  }

  /** A call that returns as the first delivery is the one whose effect is committed. */
  ghost predicate ReturnOk(effects: seq<Effect>, c: CallId, call: Call) {
    call.phase.Returned? ==> (Effect(c, call.envelope.key) in effects <==> !call.phase.duplicate)
  }

  ghost predicate KeysMatch(receipts: map<Key, Record>) { forall k :: k in receipts ==> receipts[k].key == k }

  ghost predicate Inv(digest: string -> Digest, s: State) {
    && KeysMatch(s.receipts)
    && (forall c :: c in s.calls ==> CallOk(digest, s.receipts, c, s.calls[c]))
    && OneHolder(s.calls)
    && (forall k :: Committed(s.effects, k) == if k in s.receipts then 1 else 0)
    && (forall e :: e in s.effects ==> EffectOk(s.calls, e))
    && (forall c :: c in s.calls ==> ReturnOk(s.effects, c, s.calls[c]))
  }

  /** The acting call keeps its own part of the invariant. */
  lemma OwnPart(digest: string -> Digest, s: State, e: Event)
    requires Enabled(s, e) && (e.call in s.calls ==> CallOk(digest, s.receipts, e.call, s.calls[e.call]))
    requires KeysMatch(s.receipts)
    ensures CallOk(digest, Apply(digest, s, e).receipts, e.call, CallAfter(digest, s, e))
  {
    hide Committed, OneHolder;
  }

  /** What the step adds to the database: nothing, or one receipt with the effect that goes with it. */
  lemma Publishes(digest: string -> Digest, s: State, e: Event)
    requires Enabled(s, e) && (e.call in s.calls ==> CallOk(digest, s.receipts, e.call, s.calls[e.call]))
    ensures var t := Apply(digest, s, e);
      t.calls == s.calls[e.call := CallAfter(digest, s, e)] &&
      ((t.receipts == s.receipts && t.effects == s.effects && (e.Commit? ==> s.calls[e.call].phase.duplicate))
       || (e.Commit? && !s.calls[e.call].phase.duplicate && s.calls[e.call].envelope.key !in s.receipts
           && Holds(s.calls[e.call], s.calls[e.call].envelope.key)
           && t.receipts == s.receipts[s.calls[e.call].envelope.key := NewRecord(s.calls[e.call].envelope)]
           && t.effects == s.effects + [Effect(e.call, s.calls[e.call].envelope.key)]))
  {
    if e.Commit? && s.calls[e.call].phase.duplicate { assert s.effects + [] == s.effects; }
  }

  /** Another call keeps its part, whatever receipt is added under a key it does not hold. */
  lemma OthersPart(digest: string -> Digest, receipts: map<Key, Record>, c: CallId, call: Call, r: Record)
    requires CallOk(digest, receipts, c, call) && r.key !in receipts && !Holds(call, r.key)
    ensures CallOk(digest, receipts[r.key := r], c, call)
  {
  }

  lemma HolderKept(digest: string -> Digest, s: State, e: Event)
    requires Enabled(s, e) && OneHolder(s.calls) &&
      (e.call in s.calls ==> CallOk(digest, s.receipts, e.call, s.calls[e.call]))
    ensures OneHolder(s.calls[e.call := CallAfter(digest, s, e)])
  {
    var after := CallAfter(digest, s, e);
    if e.call !in s.calls || after.tx.inserted != s.calls[e.call].tx.inserted {
      forall key | Holds(after, key) ensures forall d :: d in s.calls && d != e.call ==> !Holds(s.calls[d], key) {
        assert e.Create? && !Locked(s, e.call, key);
      }
    } else {
      assert forall key :: Holds(after, key) <==> Holds(s.calls[e.call], key);
    }
  }

  lemma OneMoreEffect(effects: seq<Effect>, e: Effect, key: Key)
    ensures Committed(effects + [e], key) == Committed(effects, key) + if e.key == key then 1 else 0
  {
    assert (effects + [e])[..|effects|] == effects;
  }

  lemma StepKeepsInv(digest: string -> Digest, s: State, e: Event)
    requires Inv(digest, s) && Enabled(s, e)
    ensures Inv(digest, Apply(digest, s, e))
  {
    var t := Apply(digest, s, e);
    OwnPart(digest, s, e);
    Publishes(digest, s, e);
    HolderKept(digest, s, e);
    CallsKept(digest, s, e);
    EffectsKept(digest, s, e);
    if t.effects != s.effects {
      forall k ensures Committed(t.effects, k) == if k in t.receipts then 1 else 0 {
        OneMoreEffect(s.effects, Effect(e.call, s.calls[e.call].envelope.key), k);
      }
    }
  }

  lemma CallsKept(digest: string -> Digest, s: State, e: Event)
    requires Inv(digest, s) && Enabled(s, e)
    ensures forall c :: c in s.calls && c != e.call ==> CallOk(digest, Apply(digest, s, e).receipts, c, s.calls[c])
  {
    Publishes(digest, s, e);
    hide Apply, CallOk, Enabled;
    if Apply(digest, s, e).receipts != s.receipts {
      forall c | c in s.calls && c != e.call ensures CallOk(digest, Apply(digest, s, e).receipts, c, s.calls[c]) {
        OthersPart(digest, s.receipts, c, s.calls[c], NewRecord(s.calls[e.call].envelope));
      }
    }
  }

  lemma EffectsKept(digest: string -> Digest, s: State, e: Event)
    requires Inv(digest, s) && Enabled(s, e)
    ensures var t := Apply(digest, s, e);
      (forall f :: f in t.effects ==> EffectOk(t.calls, f)) && forall c :: c in t.calls ==>
        ReturnOk(t.effects, c, t.calls[c])
  {
    Publishes(digest, s, e);
    var t := Apply(digest, s, e);
    NotYetEnded(digest, s, e);
    forall f | f in t.effects ensures EffectOk(t.calls, f) { assert f in s.effects ==> EffectOk(s.calls, f); }
    forall c | c in t.calls ensures ReturnOk(t.effects, c, t.calls[c]) {
      if c != e.call { assert ReturnOk(s.effects, c, s.calls[c]); }
    }
  }

  /** The acting call has not committed before: a call whose effect is committed has ended. */
  lemma NotYetEnded(digest: string -> Digest, s: State, e: Event)
    requires Inv(digest, s) && Enabled(s, e)
    ensures forall f :: f in s.effects ==> f.call != e.call
    ensures var after := CallAfter(digest, s, e);
      after.phase.Returned? ==>
        (e.Commit? && s.calls[e.call].phase.duplicate == after.phase.duplicate) || after.phase.duplicate
  {
    assert forall f :: f in s.effects ==> EffectOk(s.calls, f);
  }

  /** Every reachable state. */
  lemma {:induction false} RunKeepsInv(digest: string -> Digest, s: State, run: seq<Event>)
    requires Inv(digest, s) && IsRun(digest, s, run)
    ensures Inv(digest, After(digest, s, run))
    decreases |run|
  {
    if run != [] {
      StepKeepsInv(digest, s, run[0]);
      RunKeepsInv(digest, Apply(digest, s, run[0]), run[1..]);
    }
  }

  // ---------------------------------------------------------------- the main results

  /**
   * However deliveries interleave and repeat: the committed runs of the callback for an event number
   * one if its receipt is committed, and none otherwise.
   */
  lemma EffectsMatchReceipts(digest: string -> Digest, run: seq<Event>, key: Key)
    requires IsRun(digest, START, run)
    ensures var s := After(digest, START, run);
      Committed(s.effects, key) == if key in s.receipts then 1 else 0
  {
    RunKeepsInv(digest, START, run);
  }

  /**
   * A normal return carries the committed receipt of the event, which agrees with the envelope, whose
   * payload has the digest it names.
   */
  lemma ReturnedReceiptsAgree(digest: string -> Digest, run: seq<Event>, c: CallId)
    requires IsRun(digest, START, run)
    requires c in After(digest, START, run).calls && After(digest, START, run).calls[c].phase.Returned?
    ensures var s := After(digest, START, run);
      var call := s.calls[c];
      && Stands(s.receipts, call.phase.record, call.envelope) &&
        digest(call.envelope.payload) == call.envelope.payloadDigest
      && (call.phase.duplicate <==> Effect(c, call.envelope.key) !in s.effects)
  {
    RunKeepsInv(digest, START, run);
  }

  /** The committed receipt under this key was written by this call, together with its effect. */
  ghost predicate Wrote(s: State, c: CallId, key: Key) {
    key in s.receipts && c in s.calls && Effect(c, key) in s.effects &&
      s.receipts[key] == NewRecord(s.calls[c].envelope)
  }

  ghost predicate EveryReceiptHasAWriter(s: State) { forall key :: key in s.receipts ==> exists c :: Wrote(s, c, key) }

  lemma StepKeepsWriters(digest: string -> Digest, s: State, e: Event)
    requires Inv(digest, s) && EveryReceiptHasAWriter(s) && Enabled(s, e)
    ensures EveryReceiptHasAWriter(Apply(digest, s, e))
  {
    var t := Apply(digest, s, e);
    Publishes(digest, s, e);
    EnvelopesStay(digest, s, e);
    hide Apply, Enabled, CallAfter, Inv;
    forall key | key in t.receipts ensures exists c :: Wrote(t, c, key) {
      if key in s.receipts {
        var c :| Wrote(s, c, key);
        assert Wrote(t, c, key);
      } else {
        assert Wrote(t, e.call, key);
      }
    }
  }

  lemma EnvelopesStay(digest: string -> Digest, s: State, e: Event)
    requires Enabled(s, e)
    ensures forall c :: c in s.calls ==>
      c in Apply(digest, s, e).calls && Apply(digest, s, e).calls[c].envelope == s.calls[c].envelope
  {
  }

  lemma {:induction false} RunKeepsWriters(digest: string -> Digest, s: State, run: seq<Event>)
    requires Inv(digest, s) && EveryReceiptHasAWriter(s) && IsRun(digest, s, run)
    ensures EveryReceiptHasAWriter(After(digest, s, run))
    decreases |run|
  {
    hide Inv, EveryReceiptHasAWriter, Apply;
    if run != [] {
      StepKeepsInv(digest, s, run[0]);
      StepKeepsWriters(digest, s, run[0]);
      RunKeepsWriters(digest, Apply(digest, s, run[0]), run[1..]);
    }
  }

  /** Every committed receipt was written by exactly one call, whose effect was committed with it. */
  lemma OneWriter(digest: string -> Digest, run: seq<Event>, key: Key) returns (writer: CallId)
    requires IsRun(digest, START, run) && key in After(digest, START, run).receipts
    ensures var s := After(digest, START, run);
      Wrote(s, writer, key) && forall c :: Effect(c, key) in s.effects ==> c == writer
  {
    var s := After(digest, START, run);
    RunKeepsInv(digest, START, run);
    RunKeepsWriters(digest, START, run);
    writer :| Wrote(s, writer, key);
    forall c | Effect(c, key) in s.effects ensures c == writer {
      EffectsMatchReceipts(digest, run, key);
      var i :| 0 <= i < |s.effects| && s.effects[i] == Effect(c, key);
      var j :| 0 <= j < |s.effects| && s.effects[j] == Effect(writer, key);
      if i < j { CommittedOnce(s.effects, key, i, j); }
      if j < i { CommittedOnce(s.effects, key, j, i); }
    }
  }

  /** A call whose callback failed, or that was refused, has left neither an effect nor a receipt of its own. */
  lemma FailuresLeaveNothing(digest: string -> Digest, run: seq<Event>, c: CallId)
    requires IsRun(digest, START, run)
    requires c in After(digest, START, run).calls
    ensures var s := After(digest, START, run);
      var call := s.calls[c];
      call.phase.Failed? && call.phase.failure != DatabaseError ==>
        && call.tx == NOTHING && (forall e :: e in s.effects ==> e.call != c)
        && forall key :: !Wrote(s, c, key)
  {
    RunKeepsInv(digest, START, run);
    var s := After(digest, START, run);
    assert CallOk(digest, s.receipts, c, s.calls[c]);
    assert forall e :: e in s.effects ==> EffectOk(s.calls, e);
  }

  lemma {:induction false} CommittedOnce(effects: seq<Effect>, key: Key, i: nat, j: nat)
    requires i < j < |effects| && effects[i].key == key && effects[j].key == key
    ensures Committed(effects, key) >= 2
  {
    var n := |effects| - 1;
    if j < n {
      CommittedOnce(effects[..n], key, i, j);
    } else {
      CommittedSome(effects[..n], key, i);
    }
  }

  lemma {:induction false} CommittedSome(effects: seq<Effect>, key: Key, i: nat)
    requires i < |effects| && effects[i].key == key
    ensures Committed(effects, key) >= 1
  {
    var n := |effects| - 1;
    if i < n { CommittedSome(effects[..n], key, i); }
  }

  /** Of all the calls for one event at most one returns as the first delivery. */
  lemma OneFirstDelivery(digest: string -> Digest, run: seq<Event>, c: CallId, d: CallId)
    requires IsRun(digest, START, run)
    requires var calls := After(digest, START, run).calls;
      c in calls && d in calls && calls[c].phase.Returned? && calls[d].phase.Returned?
      && calls[c].envelope.key == calls[d].envelope.key && !calls[c].phase.duplicate && !calls[d].phase.duplicate
    ensures c == d
  {
    RunKeepsInv(digest, START, run);
    var s := After(digest, START, run);
    var key := s.calls[c].envelope.key;
    assert ReturnOk(s.effects, c, s.calls[c]) && ReturnOk(s.effects, d, s.calls[d]);
    var i :| 0 <= i < |s.effects| && s.effects[i] == Effect(c, key);
    var j :| 0 <= j < |s.effects| && s.effects[j] == Effect(d, key);
    if i < j { CommittedOnce(s.effects, key, i, j); }
    if j < i { CommittedOnce(s.effects, key, j, i); }
  }

  /** A committed receipt stays as it is, and so does every committed effect. */
  lemma {:induction false} ReceiptsAreForGood(digest: string -> Digest, s: State, run: seq<Event>)
    requires Inv(digest, s) && IsRun(digest, s, run)
    ensures var t := After(digest, s, run);
      s.effects <= t.effects && forall k :: k in s.receipts ==> k in t.receipts && t.receipts[k] == s.receipts[k]
    decreases |run|
  {
    if run != [] {
      var t := Apply(digest, s, run[0]);
      assert s.effects <= t.effects && forall k :: k in s.receipts ==>
        k in t.receipts && t.receipts[k] == s.receipts[k] by {
        Publishes(digest, s, run[0]);
      }
      StepKeepsInv(digest, s, run[0]);
      hide Inv, Apply, Enabled;
      ReceiptsAreForGood(digest, t, run[1..]);
    }
  }

  /**
   * The loser of an insert race finds the winner's receipt when it looks again, so the conflict
   * itself never reaches a caller; it returns exactly when that receipt agrees with its envelope.
   */
  lemma LosersFindTheWinner(digest: string -> Digest, run: seq<Event>, c: CallId)
    requires IsRun(digest, START, run)
    requires c in After(digest, START, run).calls && After(digest, START, run).calls[c].phase.Rereading?
    ensures var s := After(digest, START, run);
      var key := s.calls[c].envelope.key;
      && key in s.receipts
      && Apply(digest, s, Reread(c)).calls[c].phase ==
         (if Agrees(s.receipts[key], s.calls[c].envelope) then Returned(true, s.receipts[key])
           else Failed(ReceiptMismatch))
  {
    RunKeepsInv(digest, START, run);
    assert CallOk(digest, After(digest, START, run).receipts, c, After(digest, START, run).calls[c]);
  }

  /** The unique-key error is never what a call ends with. */
  lemma {:induction false} ConflictNeverSurfaces(digest: string -> Digest, s: State, run: seq<Event>, c: CallId)
    requires Inv(digest, s) && IsRun(digest, s, run) && (c in s.calls ==> s.calls[c].phase != Failed(UniqueConflict))
    ensures var t := After(digest, s, run); c in t.calls ==> t.calls[c].phase != Failed(UniqueConflict)
    decreases |run|
  {
    if run != [] {
      var t := Apply(digest, s, run[0]);
      StepKeepsInv(digest, s, run[0]);
      assert c in t.calls ==> t.calls[c].phase != Failed(UniqueConflict) by {
        if run[0].call == c && c in s.calls { assert CallOk(digest, s.receipts, c, s.calls[c]); }
      }
      hide Inv, Apply, Enabled;
      ConflictNeverSurfaces(digest, t, run[1..], c);
    }
  }

  // ---------------------------------------------------------------- refusals

  /**
   * The call was refused for a reason: for its payload exactly if that has not the digest the envelope
   * names, and for a receipt only if the committed one differs in the digest or in the contract.
   */
  ghost predicate RefusedRightly(digest: string -> Digest, receipts: map<Key, Record>, call: Call) {
    var e := call.envelope;
    && (call.phase == Failed(PayloadMismatch) <==> digest(e.payload) != e.payloadDigest)
    && (call.phase == Failed(ReceiptMismatch) ==>
          e.key in receipts &&
          (receipts[e.key].payloadDigest != e.payloadDigest || receipts[e.key].contract != e.contract))
  }

  ghost predicate AllRefusedRightly(digest: string -> Digest, s: State) {
    forall c :: c in s.calls ==> RefusedRightly(digest, s.receipts, s.calls[c])
  }

  lemma ActingRefusedRightly(digest: string -> Digest, s: State, e: Event)
    requires Enabled(s, e)
    requires e.call in s.calls ==>
      CallOk(digest, s.receipts, e.call, s.calls[e.call]) && RefusedRightly(digest, s.receipts, s.calls[e.call])
    ensures RefusedRightly(digest, s.receipts, CallAfter(digest, s, e))
  {
  }

  lemma StillRefusedRightly(digest: string -> Digest, a: map<Key, Record>, b: map<Key, Record>, call: Call)
    requires RefusedRightly(digest, a, call) && forall k :: k in a ==> k in b && b[k] == a[k]
    ensures RefusedRightly(digest, b, call)
  {
  }

  lemma StepRefusesRightly(digest: string -> Digest, s: State, e: Event)
    requires Inv(digest, s) && AllRefusedRightly(digest, s) && Enabled(s, e)
    ensures AllRefusedRightly(digest, Apply(digest, s, e))
  {
    var t := Apply(digest, s, e);
    Publishes(digest, s, e);
    ActingRefusedRightly(digest, s, e);
    assert forall k :: k in s.receipts ==> k in t.receipts && t.receipts[k] == s.receipts[k];
    hide Apply, Enabled, CallAfter, Inv, RefusedRightly;
    forall c | c in t.calls ensures RefusedRightly(digest, t.receipts, t.calls[c]) {
      StillRefusedRightly(digest, s.receipts, t.receipts, t.calls[c]);
    }
  }

  lemma {:induction false} RunRefusesRightly(digest: string -> Digest, s: State, run: seq<Event>)
    requires Inv(digest, s) && AllRefusedRightly(digest, s) && IsRun(digest, s, run)
    ensures AllRefusedRightly(digest, After(digest, s, run))
    decreases |run|
  {
    if run != [] {
      StepKeepsInv(digest, s, run[0]);
      StepRefusesRightly(digest, s, run[0]);
      hide Inv, AllRefusedRightly, Apply, Enabled;
      RunRefusesRightly(digest, Apply(digest, s, run[0]), run[1..]);
    }
  }

  /**
   * Nobody is refused for nothing: over every run, a call fails for its payload exactly if the digest
   * does not fit, and no call is refused while the committed receipt agrees with its envelope.
   */
  lemma RefusalsAreRight(digest: string -> Digest, run: seq<Event>, c: CallId)
    requires IsRun(digest, START, run) && c in After(digest, START, run).calls
    ensures var s := After(digest, START, run);
      var call := s.calls[c];
      && (call.phase == Failed(PayloadMismatch) <==> digest(call.envelope.payload) != call.envelope.payloadDigest)
      && (call.envelope.key in s.receipts && Agrees(s.receipts[call.envelope.key], call.envelope) ==>
            call.phase != Failed(ReceiptMismatch))
      && (call.phase == Failed(ReceiptMismatch) ==> call.envelope.key in s.receipts)
  {
    RunRefusesRightly(digest, START, run);
    assert RefusedRightly(digest, After(digest, START, run).receipts, After(digest, START, run).calls[c]);
  }

  /** Whatever the other calls do, this one stands where it stood. */
  lemma {:induction false} OthersDoNotDisturb(digest: string -> Digest, s: State, run: seq<Event>, c: CallId)
    requires IsRun(digest, s, run) && c in s.calls && forall i :: 0 <= i < |run| ==> run[i].call != c
    ensures c in After(digest, s, run).calls && After(digest, s, run).calls[c] == s.calls[c]
    decreases |run|
  {
    if run != [] {
      var t := Apply(digest, s, run[0]);
      assert c in t.calls && t.calls[c] == s.calls[c];
      assert forall i :: 0 <= i < |run[1..]| ==> run[1..][i] == run[i + 1];
      hide Apply, Enabled;
      OthersDoNotDisturb(digest, t, run[1..], c);
    }
  }

  /**
   * A repeated delivery. A call that looks while a receipt is committed under its key finds it: if digest
   * and contract agree with its envelope it goes on, whatever other calls do meanwhile, to return that
   * receipt as a duplicate when its commit is acknowledged, and otherwise it is refused there and then.
   */
  lemma RepetitionReturnsIffAgreed(digest: string -> Digest, run: seq<Event>, c: CallId, others: seq<Event>)
    requires IsRun(digest, START, run)
    requires var s := After(digest, START, run);
      && c in s.calls && s.calls[c].phase.Looking? && s.calls[c].envelope.key in s.receipts
      && IsRun(digest, Apply(digest, s, Find(c)), others)
    requires forall i :: 0 <= i < |others| ==> others[i].call != c
    ensures var s := After(digest, START, run);
      var e, t := s.calls[c].envelope, After(digest, Apply(digest, s, Find(c)), others);
      var r := s.receipts[e.key];
      && c in t.calls && e.key in t.receipts && t.receipts[e.key] == r
      && if r.payloadDigest == e.payloadDigest && r.contract == e.contract then
           Enabled(t, Commit(c, true)) && Apply(digest, t, Commit(c, true)).calls[c].phase == Returned(true, r) &&
             Apply(digest, t, Commit(c, true)).effects == t.effects
         else t.calls[c].phase == Failed(ReceiptMismatch)
  {
    var s := After(digest, START, run);
    RunKeepsInv(digest, START, run);
    var found := Apply(digest, s, Find(c));
    StepKeepsInv(digest, s, Find(c));
    FindJudges(digest, s, c);
    hide Inv, Apply, Enabled;
    OthersDoNotDisturb(digest, found, others, c);
    ReceiptsAreForGood(digest, found, others);
    var t := After(digest, found, others);
    if t.calls[c].phase.Committing? { CommitReturns(digest, t, c); }
  }

  lemma FindJudges(digest: string -> Digest, s: State, c: CallId)
    requires Inv(digest, s) && c in s.calls && s.calls[c].phase.Looking? && s.calls[c].envelope.key in s.receipts
    ensures var e, found := s.calls[c].envelope, Apply(digest, s, Find(c));
      var r := s.receipts[e.key];
      && found.receipts == s.receipts && c in found.calls && found.calls[c].tx == NOTHING
      && found.calls[c].phase ==
         if r.payloadDigest == e.payloadDigest && r.contract == e.contract then Committing(true, r)
         else Failed(ReceiptMismatch)
  {
    assert CallOk(digest, s.receipts, c, s.calls[c]);
  }

  lemma CommitReturns(digest: string -> Digest, t: State, c: CallId)
    requires c in t.calls && t.calls[c].phase.Committing? && t.calls[c].tx == NOTHING
    ensures Enabled(t, Commit(c, true))
    ensures var p, done := t.calls[c].phase, Apply(digest, t, Commit(c, true));
      done.calls[c].phase == Returned(p.duplicate, p.record) && done.effects == t.effects
  {
    assert t.effects + [] == t.effects;
  }

  /** A delivery that meets no receipt, no rival and no error is processed, and returns as the first. */
  lemma FirstDeliverySucceeds(digest: string -> Digest, s: State, c: CallId, e: Envelope)
    returns (s1: State, s2: State, s3: State, s4: State, s5: State)
    requires c !in s.calls && e.key !in s.receipts && !Locked(s, c, e.key) && digest(e.payload) == e.payloadDigest
    ensures Moves(digest, s, Begin(c, e), s1) && Moves(digest, s1, Find(c), s2) && Moves(digest, s2, Create(c), s3)
    ensures Moves(digest, s3, ProcessEnds(c, true), s4) && Moves(digest, s4, Commit(c, true), s5)
    ensures s5.calls == s.calls[c := Call(e, NOTHING, Returned(false, NewRecord(e)))]
    ensures s5.effects == s.effects + [Effect(c, e.key)] && s5.receipts == s.receipts[e.key := NewRecord(e)]
  {
    s1 := Apply(digest, s, Begin(c, e));
    s2 := Apply(digest, s1, Find(c));
    assert Locked(s2, c, e.key) ==> Locked(s, c, e.key);
    s3 := Apply(digest, s2, Create(c));
    s4 := Apply(digest, s3, ProcessEnds(c, true));
    s5 := Apply(digest, s4, Commit(c, true));
  }

  ghost predicate Moves(digest: string -> Digest, s: State, e: Event, t: State) {
    Enabled(s, e) && t == Apply(digest, s, e)
  }
}
