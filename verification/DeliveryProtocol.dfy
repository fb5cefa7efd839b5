/**
 * The outbox delivery protocol as a state machine.
 *
 * A state is the delivery table together with what the workers remember: a ticket for every
 * delivery a worker has ever claimed, holding the `attempts` value it read with the claim. Every
 * event is one atomic database step, or the start of a handler, and a run is any sequence of
 * enabled events; so a run covers any number of workers, reclaimers and administrators, and a
 * worker may act on a ticket long after its lease was taken away.
 */
module DeliveryProtocol {
  import opened Wrappers

  type DeliveryId = nat
  type LeaseId = nat
  type Time = int

  datatype Status = Pending | Processing | Processed | DeadLetter | Ignored

  /** What `last_error` may say: one of the two fixed reclaim texts, or a handler's own message. */
  datatype Note = StaleLockReclaimed | StaleLockReclaimedTerminal | Message(text: string)

  datatype Row = Row(
    eventSeq: int,
    status: Status,
    attempts: nat,
    nextAttemptAt: Option<Time>,
    lockedAt: Option<Time>,
    lockedBy: Option<LeaseId>,
    lastError: Option<Note>,
    processedAt: Option<Time>)

  datatype Config = Config(
    batchSize: nat,
    maxAttempts: int,
    staleLockMs: nat,
    baseBackoffMs: nat,
    maxBackoffMs: nat)

  /** A worker's memory of one claimed delivery. */
  datatype Ticket = Ticket(id: DeliveryId, lease: LeaseId)

  /** What a worker asks the guarded update to write. */
  datatype Completion =
    | Succeed(at: Time)
    | Ignore(at: Time, message: string)
    | Terminate(at: Time, message: string)
    | Defer(message: string)
    | Fail(at: Time, message: string, retryAfterMs: Option<int>)

  datatype Event =
    | Enqueue(id: DeliveryId, eventSeq: int)
    | ReclaimTerminal(staleBefore: Time)
    | ReclaimRetry(staleBefore: Time)
    | Claim(lease: LeaseId, now: Time, skipped: set<DeliveryId>, picked: set<DeliveryId>)
    | StartHandler(ticket: Ticket)
    | Complete(ticket: Ticket, completion: Completion)
    | AdminRetry(id: DeliveryId, now: Time)
    | AdminIgnore(id: DeliveryId, now: Time)

  /** Per delivery, how often each kind of step really changed its row. */
  datatype Ledger = Ledger(claims: nat, deferrals: nat, plainExits: nat, adminRetries: nat)

  datatype State = State(
    rows: map<DeliveryId, Row>,
    tickets: map<Ticket, nat>,
    leases: set<LeaseId>,
    started: set<Ticket>,
    deferred: set<Ticket>,
    ledger: map<DeliveryId, Ledger>)

  const EMPTY := State(map[], map[], {}, {}, {}, map[])

  // ---------------------------------------------------------------- row updates

  function Min(a: int, b: int): int { if a < b then a else b }
  function Max(a: int, b: int): int { if a < b then b else a }

  function Pow2(n: nat): nat { if n == 0 then 1 else 2 * Pow2(n - 1) }

  /** Exponential backoff, or the delay the handler asked for, both capped. */
  function RetryDelayMs(cfg: Config, attempts: nat, retryAfterMs: Option<int>): int {
    match retryAfterMs
    case Some(ms) => Min(Max(ms, 0), cfg.maxBackoffMs)
    case None => Min(cfg.baseBackoffMs * Pow2(attempts), cfg.maxBackoffMs)
  }

  function BoundedError(message: string): string {
    if |message| > 1000 then message[..1000] + "\U{2026}" else message
  }

  function Unlocked(row: Row): Row { row.(lockedAt := None, lockedBy := None) }

  predicate IsStale(row: Row, staleBefore: Time) {
    row.status == Processing && row.lockedAt.Some? && row.lockedAt.value < staleBefore
  }

  predicate HitsReclaimTerminal(cfg: Config, row: Row, staleBefore: Time) {
    IsStale(row, staleBefore) && row.attempts >= cfg.maxAttempts - 1
  }

  predicate HitsReclaimRetry(cfg: Config, row: Row, staleBefore: Time) {
    IsStale(row, staleBefore) && row.attempts < cfg.maxAttempts - 1
  }

  function ReclaimedTerminal(row: Row): Row {
    Unlocked(row).(status := DeadLetter, attempts := row.attempts + 1,
                   lastError := Some(StaleLockReclaimedTerminal))
  }

  function ReclaimedRetry(row: Row): Row {
    Unlocked(row).(status := Pending, attempts := row.attempts + 1,
                   lastError := Some(StaleLockReclaimed))
  }

  predicate IsDue(row: Row, now: Time) {
    row.status == Pending && (row.nextAttemptAt.None? || row.nextAttemptAt.value <= now)
  }

  /** What `ORDER BY seq LIMIT batchSize FOR UPDATE SKIP LOCKED` may return. */
  ghost predicate IsDueBatch(cfg: Config, rows: map<DeliveryId, Row>, now: Time,
                             skipped: set<DeliveryId>, picked: set<DeliveryId>)
  {
    && |picked| <= cfg.batchSize
    && (forall i :: i in picked ==> i in rows && i !in skipped && IsDue(rows[i], now))
    && (forall j :: j in rows && j !in skipped && j !in picked && IsDue(rows[j], now) ==>
          |picked| == cfg.batchSize && forall i :: i in picked ==> rows[i].eventSeq <= rows[j].eventSeq)
  }

  function Claimed(row: Row, lease: LeaseId, now: Time): Row {
    row.(status := Processing, lockedAt := Some(now), lockedBy := Some(lease))
  }

  /** The guard of every completion. */
  predicate Passes(rows: map<DeliveryId, Row>, t: Ticket) {
    t.id in rows && rows[t.id].status == Processing && rows[t.id].lockedBy == Some(t.lease)
  }

  /** The row a completion writes; `seen` is the attempts value read with the claim. */
  function Completed(cfg: Config, row: Row, seen: nat, c: Completion): Row {
    match c
    case Succeed(at) =>
      Unlocked(row).(status := Processed, processedAt := Some(at), lastError := None)
    case Ignore(at, message) =>
      Unlocked(row).(status := Ignored, processedAt := Some(at), lastError := Some(Message(message)))
    case Terminate(at, message) =>
      Unlocked(row).(status := DeadLetter, processedAt := Some(at), lastError := Some(Message(BoundedError(message))))
    case Defer(message) =>
      Unlocked(row).(status := Pending, attempts := seen, nextAttemptAt := None, lastError := Some(Message(message)))
    case Fail(at, message, retryAfterMs) =>
      var terminal := seen + 1 >= cfg.maxAttempts;
      Unlocked(row).(status := if terminal then DeadLetter else Pending,
                     attempts := seen + 1,
                     nextAttemptAt := if terminal then None else Some(at + RetryDelayMs(cfg, seen, retryAfterMs)),
                     lastError := Some(Message(BoundedError(message))))
  }

  function Retried(row: Row, now: Time): Row {
    Unlocked(row).(status := Pending, nextAttemptAt := Some(now), processedAt := None)
  }

  function AdminIgnored(row: Row, now: Time): Row {
    Unlocked(row).(status := Ignored, processedAt := Some(now))
  }

  // ---------------------------------------------------------------- steps and runs

  ghost predicate Enabled(cfg: Config, s: State, e: Event) {
    match e
    case Enqueue(id, _) => id !in s.rows
    case Claim(lease, now, skipped, picked) =>
      lease !in s.leases && IsDueBatch(cfg, s.rows, now, skipped, picked)
    case StartHandler(t) => t in s.tickets && t !in s.started && t !in s.deferred
    case Complete(t, c) => t in s.tickets && (c.Defer? ==> t !in s.started && t !in s.deferred)
    case _ => true
  }

  function RowAfter(cfg: Config, s: State, e: Event, id: DeliveryId): Row
    requires id in s.rows
  {
    var row := s.rows[id];
    match e
    case ReclaimTerminal(before) => if HitsReclaimTerminal(cfg, row, before) then ReclaimedTerminal(row) else row
    case ReclaimRetry(before) => if HitsReclaimRetry(cfg, row, before) then ReclaimedRetry(row) else row
    case Claim(lease, now, _, picked) => if id in picked then Claimed(row, lease, now) else row
    case Complete(t, c) =>
      if t.id == id && t in s.tickets && Passes(s.rows, t) then Completed(cfg, row, s.tickets[t], c) else row
    case AdminRetry(i, now) => if i == id && row.status == DeadLetter then Retried(row, now) else row
    case AdminIgnore(i, now) => if i == id && row.status == DeadLetter then AdminIgnored(row, now) else row
    case _ => row
  }

  function LedgerAfter(cfg: Config, s: State, e: Event, id: DeliveryId): Ledger
    requires id in s.rows && id in s.ledger
  {
    var l := s.ledger[id];
    match e
    case Claim(_, _, _, picked) => if id in picked then l.(claims := l.claims + 1) else l
    case Complete(t, c) =>
      if t.id != id || !Passes(s.rows, t) then l
      else if c.Defer? then l.(deferrals := l.deferrals + 1)
      else if c.Fail? then l
      else l.(plainExits := l.plainExits + 1)
    case AdminRetry(i, _) =>
      if i == id && s.rows[id].status == DeadLetter then l.(adminRetries := l.adminRetries + 1) else l
    case _ => l
  }

  const NEW_LEDGER := Ledger(0, 0, 0, 0)

  function NewRow(eventSeq: int): Row { Row(eventSeq, Pending, 0, None, None, None, None, None) }

  function Tickets(ids: set<DeliveryId>, lease: LeaseId, rows: map<DeliveryId, Row>): map<Ticket, nat>
    requires ids <= rows.Keys
  {
    map t | t in (set i | i in ids :: Ticket(i, lease)) :: rows[t.id].attempts
  }

  function Apply(cfg: Config, s: State, e: Event): State
    requires s.rows.Keys == s.ledger.Keys
    requires e.Claim? ==> e.picked <= s.rows.Keys
  {
    var rows := map id | id in s.rows :: RowAfter(cfg, s, e, id);
    var ledger := map id | id in s.rows :: LedgerAfter(cfg, s, e, id);
    match e
    case Enqueue(id, eventSeq) => s.(rows := rows[id := NewRow(eventSeq)], ledger := ledger[id := NEW_LEDGER])
    case Claim(lease, now, _, picked) =>
      s.(rows := rows, ledger := ledger,
         tickets := s.tickets + Tickets(picked, lease, s.rows), leases := s.leases + {lease})
    case StartHandler(t) => s.(started := s.started + {t})
    case Complete(t, c) =>
      s.(rows := rows, ledger := ledger, deferred := if c.Defer? then s.deferred + {t} else s.deferred)
    case _ => s.(rows := rows, ledger := ledger)
  }

  /** `events`, taken one after the other from `s`, are all enabled. */
  ghost predicate IsRun(cfg: Config, s: State, events: seq<Event>)
    decreases |events|
  {
    s.rows.Keys == s.ledger.Keys &&
    (events != [] ==> Enabled(cfg, s, events[0]) && IsRun(cfg, Apply(cfg, s, events[0]), events[1..]))
  }

  ghost function After(cfg: Config, s: State, events: seq<Event>): State
    requires IsRun(cfg, s, events)
    decreases |events|
  {
    if events == [] then s else After(cfg, Apply(cfg, s, events[0]), events[1..])
  }

  lemma {:induction false} RunConcat(cfg: Config, s: State, a: seq<Event>, b: seq<Event>)
    requires IsRun(cfg, s, a) && IsRun(cfg, After(cfg, s, a), b)
    ensures IsRun(cfg, s, a + b) && After(cfg, s, a + b) == After(cfg, After(cfg, s, a), b)
    decreases |a|
  {
    if a == [] {
      assert a + b == b;
    } else {
      RunConcat(cfg, Apply(cfg, s, a[0]), a[1..], b);
      assert (a + b)[0] == a[0] && (a + b)[1..] == a[1..] + b;
    }
  }
}
