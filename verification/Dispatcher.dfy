/**
 * The dispatcher and the administration service working on the delivery table. Every method is
 * tied to the protocol: what it does to the table is what a run of protocol events does.
 */
module Dispatcher {
  import opened Wrappers
  import opened DeliveryProtocol
  import opened DeliveryInvariants

  /** A claimed delivery as the worker read it back. */
  datatype Delivery = Delivery(ticket: Ticket, attempts: nat)

  datatype BindingCheck = Enabled | Disabled(message: string) | CheckThrew(message: string)

  datatype Outcome =
    | Handled
    | ThrewIgnored(message: string)
    | ThrewTerminal(message: string)
    | Threw(message: string, retryAfterMs: Option<int>)

  /** What the registry, the kill switch and the handler answer for one delivery. */
  datatype Answers = Answers(now: Time, missingHandler: Option<string>, binding: BindingCheck, outcome: Outcome)

  datatype AdminError = NotFound | Conflict

  function CompletionFor(a: Answers): Completion {
    if a.missingHandler.Some? then Ignore(a.now, a.missingHandler.value)
    else if a.binding.Disabled? then Defer(a.binding.message)
    else if a.binding.CheckThrew? then Fail(a.now, a.binding.message, None)
    else match a.outcome
      case Handled => Succeed(a.now)
      case ThrewIgnored(message) => Ignore(a.now, message)
      case ThrewTerminal(message) => Terminate(a.now, message)
      case Threw(message, retryAfterMs) => Fail(a.now, message, retryAfterMs)
  }

  function Ids(picked: seq<DeliveryId>): set<DeliveryId> { set i | i in picked }

  predicate RunsHandler(a: Answers) { a.missingHandler.None? && a.binding.Enabled? }

  /** The protocol events of processing one delivery. */
  function ProcessEvents(t: Ticket, a: Answers): seq<Event> {
    (if RunsHandler(a) then [StartHandler(t)] else []) + [Complete(t, CompletionFor(a))]
  }

  /** The claimed deliveries are processed one after the other. */
  function ProcessedInTurn(claimed: seq<Delivery>, answers: DeliveryId -> Answers, n: nat): seq<Event>
    requires n <= |claimed|
  {
    if n == 0 then [] else
      var t := claimed[n - 1].ticket;
      ProcessedInTurn(claimed, answers, n - 1) + ProcessEvents(t, answers(t.id))
  }

  /** What one tick does: both reclaims, the claim, and the processing of what was claimed. */
  function TickEvents(before: Time, claim: Event, claimed: seq<Delivery>, answers: DeliveryId -> Answers): seq<Event> {
    [ReclaimTerminal(before), ReclaimRetry(before)] + [claim] + ProcessedInTurn(claimed, answers, |claimed|)
  }

  lemma Regroup(a: seq<Event>, b: seq<Event>, c: seq<Event>)
    ensures a + b + c == a + (b + c)
  {
  }

  ghost predicate Fresh(s: State, t: Ticket) {
    t in s.tickets && t !in s.started && t !in s.deferred
  }

  /** `to` is where the run `events` leads from `from`. */
  ghost predicate Leads(cfg: Config, from: State, events: seq<Event>, to: State) {
    IsRun(cfg, from, events) && to == After(cfg, from, events)
  }

  lemma LeadsNowhere(cfg: Config, s: State)
    requires Inv(cfg, s)
    ensures Leads(cfg, s, [], s)
  {
  }

  lemma LeadsStep(cfg: Config, from: State, events: seq<Event>, mid: State, e: Event)
    requires Leads(cfg, from, events, mid) && Inv(cfg, mid) && DeliveryProtocol.Enabled(cfg, mid, e)
    ensures Leads(cfg, from, events + [e], Apply(cfg, mid, e)) && Inv(cfg, Apply(cfg, mid, e))
  {
    hide Apply, Inv;
    Step(cfg, mid, e);
    InvKeys(cfg, mid);
    InvKeys(cfg, Apply(cfg, mid, e));
    assert [e][1..] == [];
    RunConcat(cfg, from, events, [e]);
  }

  lemma InvKeys(cfg: Config, s: State)
    requires Inv(cfg, s)
    ensures s.rows.Keys == s.ledger.Keys
  {
  }

  lemma LeadsOn(cfg: Config, from: State, a: seq<Event>, mid: State, b: seq<Event>, to: State)
    requires Leads(cfg, from, a, mid) && Leads(cfg, mid, b, to)
    ensures Leads(cfg, from, a + b, to)
  {
    hide Apply;
    RunConcat(cfg, from, a, b);
  }

  // ---------------------------------------------------------------- how a delivery ends

  /** The delay before the next attempt: what the handler asked for, or the backoff doubled each time, capped. */
  function Delay(cfg: Config, attempts: nat, a: Answers): int {
    var wanted := if RunsHandler(a) && a.outcome.Threw? then a.outcome.retryAfterMs else None;
    var ms := if wanted == None then cfg.baseBackoffMs * Pow2(attempts)
      else if wanted.value < 0 then 0 else wanted.value;
    if ms > cfg.maxBackoffMs then cfg.maxBackoffMs else ms
  }

  /** What has become of a row whose lease still held. */
  ghost predicate Settled(cfg: Config, row: Row, a: Answers, after: Row) {
    var ran := a.missingHandler.None? && a.binding.Enabled?;
    var disabled := a.missingHandler.None? && a.binding.Disabled?;
    var terminal := ran && a.outcome.ThrewTerminal?;
    var failed := a.missingHandler.None? && (a.binding.CheckThrew? || (ran && a.outcome.Threw?));
    var last := row.attempts + 1 >= cfg.maxAttempts;
    && after.lockedAt == None && after.lockedBy == None && after.eventSeq == row.eventSeq
    && (after.status == Processed <==> ran && a.outcome.Handled?)
    && (after.status == Ignored <==> a.missingHandler.Some? || (ran && a.outcome.ThrewIgnored?))
    && (after.status == DeadLetter <==> terminal || (failed && last))
    && (after.status == Pending <==> disabled || (failed && !last))
    && (disabled ==> after.nextAttemptAt == None)
    && (failed ==> after.nextAttemptAt == if last then None else Some(a.now + Delay(cfg, row.attempts, a)))
    && (!disabled && !failed ==> after.nextAttemptAt == row.nextAttemptAt)
    && after.attempts == (if failed then row.attempts + 1 else row.attempts)
    && after.processedAt == (if disabled || failed then row.processedAt else Some(a.now))
    && (after.lastError == None <==> after.status == Processed)
  }

  lemma CompletionSettles(cfg: Config, row: Row, a: Answers)
    ensures Settled(cfg, row, a, Completed(cfg, row, row.attempts, CompletionFor(a)))
  {
  }

  /** A worker whose lease holds remembers the row's attempts. */
  lemma HolderRemembers(cfg: Config, s: State, t: Ticket)
    requires Inv(cfg, s) && t in s.tickets && Passes(s.rows, t)
    ensures s.tickets[t] == s.rows[t.id].attempts
  {
    assert TicketOk(s, t);
  }

  /** What has become of a row whose worker was given up: one more attempt is counted, and the lock is gone. */
  ghost predicate GivenUp(cfg: Config, row: Row, after: Row) {
    var last := row.attempts + 1 >= cfg.maxAttempts;
    after == row.(status := if last then DeadLetter else Pending, attempts := row.attempts + 1, lockedAt := None,
                  lockedBy := None,
                  lastError := Some(if last then StaleLockReclaimedTerminal else StaleLockReclaimed))
  }

  lemma StaleRowsAreGivenUp(cfg: Config, rows: map<DeliveryId, Row>, before: Time)
    ensures var after := RowsAfterReclaim(cfg, rows, before);
      after.Keys == rows.Keys && forall id :: id in rows ==>
        if rows[id].status == Processing && rows[id].lockedAt.Some? && rows[id].lockedAt.value < before
        then GivenUp(cfg, rows[id], after[id]) else after[id] == rows[id]
  {
  }

  // ---------------------------------------------------------------- what each event does to the table

  /** Everything the workers remember is as it was. */
  ghost predicate SameMemory(s: State, t: State) {
    t.tickets == s.tickets && t.leases == s.leases && t.started == s.started && t.deferred == s.deferred
  }

  function RowsAfterReclaimTerminal(cfg: Config, rows: map<DeliveryId, Row>, before: Time): map<DeliveryId, Row> {
    map id | id in rows :: if HitsReclaimTerminal(cfg, rows[id], before) then ReclaimedTerminal(rows[id]) else rows[id]
  }

  function RowsAfterReclaimRetry(cfg: Config, rows: map<DeliveryId, Row>, before: Time): map<DeliveryId, Row> {
    map id | id in rows :: if HitsReclaimRetry(cfg, rows[id], before) then ReclaimedRetry(rows[id]) else rows[id]
  }

  function RowsAfterReclaim(cfg: Config, rows: map<DeliveryId, Row>, before: Time): map<DeliveryId, Row> {
    RowsAfterReclaimRetry(cfg, RowsAfterReclaimTerminal(cfg, rows, before), before)
  }

  lemma ReclaimFrame(cfg: Config, s: State, before: Time)
    requires s.rows.Keys == s.ledger.Keys
    ensures var t := Apply(cfg, s, ReclaimTerminal(before));
      t.rows == RowsAfterReclaimTerminal(cfg, s.rows, before) && SameMemory(s, t)
    ensures var t := Apply(cfg, s, ReclaimRetry(before));
      t.rows == RowsAfterReclaimRetry(cfg, s.rows, before) && SameMemory(s, t)
  {
  }

  lemma NothingStaleIsLeft(cfg: Config, rows: map<DeliveryId, Row>, before: Time)
    ensures var after := RowsAfterReclaim(cfg, rows, before);
      forall id :: id in after ==> !IsStale(after[id], before)
  {
  }

  function RowsAfterClaim(rows: map<DeliveryId, Row>, picked: set<DeliveryId>, lease: LeaseId,
                          now: Time): map<DeliveryId, Row> {
    map id | id in rows :: if id in picked then Claimed(rows[id], lease, now) else rows[id]
  }

  lemma ClaimedRows(rows: map<DeliveryId, Row>, picked: set<DeliveryId>, lease: LeaseId, now: Time)
    ensures var after := RowsAfterClaim(rows, picked, lease, now);
      after.Keys == rows.Keys && forall id :: id in rows ==>
        after[id] == if id in picked
        then rows[id].(status := Processing, lockedAt := Some(now), lockedBy := Some(lease)) else rows[id]
  {
  }

  lemma ClaimFrame(cfg: Config, s: State, e: Event)
    requires Inv(cfg, s) && DeliveryProtocol.Enabled(cfg, s, e) && e.Claim?
    ensures s.rows.Keys == s.ledger.Keys
    ensures Apply(cfg, s, e).rows == RowsAfterClaim(s.rows, e.picked, e.lease, e.now)
    ensures forall id :: id in e.picked ==>
      var s', t := Apply(cfg, s, e), Ticket(id, e.lease);
      id in s.rows && Fresh(s', t) && Passes(s'.rows, t) && s'.tickets[t] == s.rows[id].attempts
  {
    hide Inv;
    InvKeys(cfg, s);
    OldTicketsHaveOldLeases(cfg, s);
    forall id | id in e.picked
      ensures var s', t := Apply(cfg, s, e), Ticket(id, e.lease);
        id in s.rows && Fresh(s', t) && Passes(s'.rows, t) && s'.tickets[t] == s.rows[id].attempts
    {
      assert Ticket(id, e.lease) in Tickets(e.picked, e.lease, s.rows);
      assert Ticket(id, e.lease) !in s.tickets;
    }
  }

  lemma OldTicketsHaveOldLeases(cfg: Config, s: State)
    requires Inv(cfg, s)
    ensures forall t :: t in s.tickets ==> t.lease in s.leases
    ensures s.started <= s.tickets.Keys && s.deferred <= s.tickets.Keys
  {
    forall t | t in s.tickets ensures t.lease in s.leases { assert TicketOk(s, t); }
  }

  lemma CompleteFrame(cfg: Config, s: State, t: Ticket, c: Completion)
    requires s.rows.Keys == s.ledger.Keys && t in s.tickets
    ensures var s' := Apply(cfg, s, Complete(t, c));
      && s'.rows ==
        (if Passes(s.rows, t) then s.rows[t.id := Completed(cfg, s.rows[t.id], s.tickets[t], c)] else s.rows)
      && !Passes(s'.rows, t) && s'.tickets == s.tickets
      && (forall u :: u != t && Fresh(s, u) ==> Fresh(s', u))
  {
  }

  lemma StartFrame(cfg: Config, s: State, t: Ticket)
    requires s.rows.Keys == s.ledger.Keys
    ensures var s' := Apply(cfg, s, StartHandler(t));
      s'.rows == s.rows && s'.tickets == s.tickets && (forall u :: u != t && Fresh(s, u) ==> Fresh(s', u))
  {
  }

  lemma AdminRetryFrame(cfg: Config, s: State, id: DeliveryId, now: Time)
    requires s.rows.Keys == s.ledger.Keys
    ensures Apply(cfg, s, AdminRetry(id, now)).rows
      == if id in s.rows && s.rows[id].status == DeadLetter then s.rows[id := Retried(s.rows[id], now)] else s.rows
  {
    hide Retried;
  }

  lemma AdminIgnoreFrame(cfg: Config, s: State, id: DeliveryId, now: Time)
    requires s.rows.Keys == s.ledger.Keys
    ensures Apply(cfg, s, AdminIgnore(id, now)).rows
      == if id in s.rows && s.rows[id].status == DeadLetter then s.rows[id := AdminIgnored(s.rows[id], now)] else s.rows
  {
    hide AdminIgnored;
  }

  class DomainEventDispatcher {
    const cfg: Config
    var rows: map<DeliveryId, Row>
    var running: bool
    ghost var protocol: State

    ghost predicate Valid()
      reads this
    {
      Inv(cfg, protocol) && protocol.rows == rows
    }

    constructor (cfg: Config)
      ensures Valid() && this.cfg == cfg && protocol == EMPTY && !running
    {
      this.cfg := cfg;
      rows, running, protocol := map[], false, EMPTY;
      new;
      EmptyInv(cfg);
    }

    /** Both reclaim updates: afterwards nothing older than the cut-off is still locked. */
    method ReclaimStaleLocks(now: Time)
      requires Valid()
      modifies this`rows, this`protocol
      ensures Valid()
      ensures var before := now - cfg.staleLockMs;
        && Leads(cfg, old(protocol), [ReclaimTerminal(before), ReclaimRetry(before)], protocol)
        && rows == RowsAfterReclaim(cfg, old(rows), before)
        && (forall id :: id in rows ==> !IsStale(rows[id], before))
      ensures rows.Keys == old(rows).Keys && forall id :: id in rows ==>
        var row := old(rows)[id];
        if row.status == Processing && row.lockedAt.Some? && row.lockedAt.value < now - cfg.staleLockMs
        then GivenUp(cfg, row, rows[id]) else rows[id] == row
      ensures SameMemory(old(protocol), protocol)
    {
      hide Inv, Apply, IsRun, After, RowsAfterReclaimTerminal, RowsAfterReclaimRetry;
      var before := now - cfg.staleLockMs;
      ghost var s := protocol;
      LeadsNowhere(cfg, s);
      InvKeys(cfg, s);
      ReclaimFrame(cfg, s, before);
      LeadsStep(cfg, s, [], s, ReclaimTerminal(before));
      protocol := Apply(cfg, s, ReclaimTerminal(before));
      rows := RowsAfterReclaimTerminal(cfg, rows, before);
      InvKeys(cfg, protocol);
      ReclaimFrame(cfg, protocol, before);
      assert [] + [ReclaimTerminal(before)] == [ReclaimTerminal(before)];
      LeadsStep(cfg, s, [ReclaimTerminal(before)], protocol, ReclaimRetry(before));
      protocol := Apply(cfg, protocol, ReclaimRetry(before));
      rows := RowsAfterReclaimRetry(cfg, rows, before);
      assert [ReclaimTerminal(before)] + [ReclaimRetry(before)] == [ReclaimTerminal(before), ReclaimRetry(before)];
      NothingStaleIsLeft(cfg, s.rows, before);
      StaleRowsAreGivenUp(cfg, s.rows, before);
    }

    /** Claims the batch the query picked and reads it back under the new lease. */
    method ClaimDueDeliveries(lease: LeaseId, now: Time, skipped: set<DeliveryId>, picked: seq<DeliveryId>)
      returns (claimed: seq<Delivery>)
      requires Valid() && lease !in protocol.leases
      requires IsDueBatch(cfg, rows, now, skipped, Ids(picked))
      modifies this`rows, this`protocol
      ensures Valid()
      ensures Leads(cfg, old(protocol), [Claim(lease, now, skipped, Ids(picked))], protocol)
      ensures rows == RowsAfterClaim(old(rows), Ids(picked), lease, now)
      ensures rows.Keys == old(rows).Keys && forall id :: id in rows ==>
        var row := old(rows)[id];
        rows[id] == if id in picked then row.(status := Processing, lockedAt := Some(now), lockedBy := Some(lease))
        else row
      ensures |claimed| == |picked|
      ensures forall k :: 0 <= k < |claimed| ==>
        && picked[k] in old(rows)
        && claimed[k] == Delivery(Ticket(picked[k], lease), old(rows)[picked[k]].attempts)
        && Fresh(protocol, claimed[k].ticket) && Passes(rows, claimed[k].ticket)
        && protocol.tickets[claimed[k].ticket] == claimed[k].attempts
    {
      hide Inv, Apply, IsRun, After, RowsAfterClaim;
      ghost var s := protocol;
      ghost var e := Claim(lease, now, skipped, Ids(picked));
      ClaimFrame(cfg, s, e);
      assert forall k :: 0 <= k < |picked| ==> picked[k] in e.picked;
      claimed := seq(|picked|, k requires 0 <= k < |picked| && picked[k] in rows reads this =>
        Delivery(Ticket(picked[k], lease), rows[picked[k]].attempts));
      rows := RowsAfterClaim(rows, Ids(picked), lease, now);
      ClaimedRows(s.rows, Ids(picked), lease, now);
      LeadsNowhere(cfg, s);
      LeadsStep(cfg, s, [], s, e);
      assert [] + [e] == [e];
      protocol := Apply(cfg, s, e);
    }

    /** The guarded update; a lost lease makes it a no-op. */
    method CompleteDelivery(d: Delivery, c: Completion)
      requires Valid() && d.ticket in protocol.tickets && protocol.tickets[d.ticket] == d.attempts
      requires c.Defer? ==> Fresh(protocol, d.ticket)
      modifies this`rows, this`protocol
      ensures Valid() && !Passes(rows, d.ticket)
      ensures protocol == Apply(cfg, old(protocol), Complete(d.ticket, c))
      ensures rows == if Passes(old(rows), d.ticket)
                      then old(rows)[d.ticket.id := Completed(cfg, old(rows)[d.ticket.id], d.attempts, c)]
                      else old(rows)
    {
      hide Inv, Apply, Completed;
      ghost var s := protocol;
      InvKeys(cfg, s);
      Step(cfg, s, Complete(d.ticket, c));
      CompleteFrame(cfg, s, d.ticket, c);
      protocol := Apply(cfg, s, Complete(d.ticket, c));
      if Passes(rows, d.ticket) {
        rows := rows[d.ticket.id := Completed(cfg, rows[d.ticket.id], d.attempts, c)];
      }
    }

    method MarkFailed(d: Delivery, now: Time, message: string, retryAfterMs: Option<int>)
      requires Valid() && d.ticket in protocol.tickets && protocol.tickets[d.ticket] == d.attempts
      modifies this`rows, this`protocol
      ensures Valid() && !Passes(rows, d.ticket)
      ensures protocol == Apply(cfg, old(protocol), Complete(d.ticket, Fail(now, message, retryAfterMs)))
      ensures rows == if Passes(old(rows), d.ticket)
                      then old(rows)[d.ticket.id := Completed(cfg, old(rows)[d.ticket.id], d.attempts,
                        Fail(now, message, retryAfterMs))]
                      else old(rows)
    {
      hide Inv, Apply, Completed;
      CompleteDelivery(d, Fail(now, message, retryAfterMs));
    }

    /**
     * Handles one claimed delivery. If its lease held, the row ends as the answers say; whatever they
     * say, the lease is gone afterwards.
     */
    method ProcessDelivery(d: Delivery, a: Answers)
      requires Valid() && Fresh(protocol, d.ticket) && protocol.tickets[d.ticket] == d.attempts
      modifies this`rows, this`protocol
      ensures Valid() && !Passes(rows, d.ticket)
      ensures Leads(cfg, old(protocol), ProcessEvents(d.ticket, a), protocol)
      ensures rows == if Passes(old(rows), d.ticket)
                      then old(rows)[d.ticket.id := Completed(cfg, old(rows)[d.ticket.id], d.attempts,
                        CompletionFor(a))]
                      else old(rows)
      ensures Passes(old(rows), d.ticket) ==> Settled(cfg, old(rows)[d.ticket.id], a, rows[d.ticket.id])
      ensures protocol.tickets == old(protocol.tickets)
      ensures forall t :: t != d.ticket && Fresh(old(protocol), t) ==> Fresh(protocol, t)
    {
      hide Inv, Apply, Completed, IsRun, After;
      ghost var s := protocol;
      InvKeys(cfg, s);
      LeadsNowhere(cfg, s);
      if Passes(rows, d.ticket) {
        HolderRemembers(cfg, s, d.ticket);
        CompletionSettles(cfg, rows[d.ticket.id], a);
      }
      hide Settled;
      if !RunsHandler(a) {
        CompleteFrame(cfg, s, d.ticket, CompletionFor(a));
        LeadsStep(cfg, s, [], s, Complete(d.ticket, CompletionFor(a)));
        if a.missingHandler.Some? {
          CompleteDelivery(d, Ignore(a.now, a.missingHandler.value));
        } else if a.binding.Disabled? {
          CompleteDelivery(d, Defer(a.binding.message));
        } else {
          MarkFailed(d, a.now, a.binding.message, None);
        }
        return;
      }
      LeadsStep(cfg, s, [], s, StartHandler(d.ticket));
      assert [] + [StartHandler(d.ticket)] == [StartHandler(d.ticket)];
      StartFrame(cfg, s, d.ticket);
      protocol := Apply(cfg, s, StartHandler(d.ticket));
      ghost var started := protocol;
      InvKeys(cfg, started);
      CompleteFrame(cfg, started, d.ticket, CompletionFor(a));
      match a.outcome {
        case Handled => CompleteDelivery(d, Succeed(a.now));
        case ThrewIgnored(message) => CompleteDelivery(d, Ignore(a.now, message));
        case ThrewTerminal(message) => CompleteDelivery(d, Terminate(a.now, message));
        case Threw(message, retryAfterMs) => MarkFailed(d, a.now, message, retryAfterMs);
      }
      LeadsStep(cfg, s, [StartHandler(d.ticket)], started, Complete(d.ticket, CompletionFor(a)));
    }

    /** Processes the claimed deliveries in turn. */
    method ProcessAll(claimed: seq<Delivery>, answers: DeliveryId -> Answers) returns (ghost trace: seq<Event>)
      requires Valid()
      requires forall j :: 0 <= j < |claimed| ==>
        claimed[j].ticket in protocol.tickets && protocol.tickets[claimed[j].ticket] == claimed[j].attempts
      requires forall j :: 0 <= j < |claimed| ==> Fresh(protocol, claimed[j].ticket)
      requires forall j, k :: 0 <= j < k < |claimed| ==> claimed[j].ticket.id != claimed[k].ticket.id
      modifies this`rows, this`protocol
      ensures Valid() && running == old(running)
      ensures Leads(cfg, old(protocol), trace, protocol) && trace == ProcessedInTurn(claimed, answers, |claimed|)
      ensures forall j :: 0 <= j < |claimed| ==>
        claimed[j].ticket in protocol.tickets && !Passes(rows, claimed[j].ticket)
    {
      hide Inv, Apply, Completed, IsRun, After;
      trace := [];
      LeadsNowhere(cfg, protocol);
      ghost var s := protocol;
      for k := 0 to |claimed|
        invariant Valid() && running == old(running)
        invariant Leads(cfg, s, trace, protocol) && trace == ProcessedInTurn(claimed, answers, k)
        invariant forall j :: 0 <= j < |claimed| ==>
          claimed[j].ticket in protocol.tickets && protocol.tickets[claimed[j].ticket] == claimed[j].attempts
        invariant forall j :: k <= j < |claimed| ==> Fresh(protocol, claimed[j].ticket)
        invariant forall j :: 0 <= j < k ==> !Passes(rows, claimed[j].ticket)
      {
        ghost var here := protocol;
        var t := claimed[k].ticket;
        ProcessDelivery(claimed[k], answers(t.id));
        LeadsOn(cfg, s, trace, here, ProcessEvents(t, answers(t.id)), protocol);
        trace := trace + ProcessEvents(t, answers(t.id));
      }
    }

    /**
     * One poll, running alone. A tick that overlaps a running one does nothing; otherwise it
     * reclaims, claims and processes, and no delivery it claimed is left under its lease.
     */
    method Tick(lease: LeaseId, now: Time, skipped: set<DeliveryId>, picked: seq<DeliveryId>,
                answers: DeliveryId -> Answers)
      returns (claimed: seq<Delivery>, ghost trace: seq<Event>)
      requires Valid() && lease !in protocol.leases
      requires IsDueBatch(cfg, RowsAfterReclaim(cfg, rows, now - cfg.staleLockMs), now, skipped, Ids(picked))
      requires forall j, k :: 0 <= j < k < |picked| ==> picked[j] != picked[k]
      modifies this
      ensures Valid() && running == old(running)
      ensures old(running) ==> rows == old(rows) && trace == [] && claimed == []
      ensures Leads(cfg, old(protocol), trace, protocol)
      ensures forall k :: 0 <= k < |claimed| ==>
        claimed[k].ticket.lease == lease && claimed[k].ticket in protocol.tickets && !Passes(rows, claimed[k].ticket)
      ensures !old(running) ==>
        |claimed| == |picked| && forall k :: 0 <= k < |claimed| ==> claimed[k].ticket.id == picked[k]
      ensures !old(running) ==>
        trace == TickEvents(now - cfg.staleLockMs, Claim(lease, now, skipped, Ids(picked)), claimed, answers)
    {
      hide Inv, Apply, Completed, IsRun, After, RowsAfterReclaim, RowsAfterClaim, IsDueBatch;
      claimed, trace := [], [];
      LeadsNowhere(cfg, protocol);
      if running { return; }
      running := true;
      ghost var s := protocol;
      ReclaimStaleLocks(now);
      ghost var before := now - cfg.staleLockMs;
      trace := [ReclaimTerminal(before), ReclaimRetry(before)];
      ghost var mid := protocol;
      claimed := ClaimDueDeliveries(lease, now, skipped, picked);
      LeadsOn(cfg, s, trace, mid, [Claim(lease, now, skipped, Ids(picked))], protocol);
      trace := trace + [Claim(lease, now, skipped, Ids(picked))];
      ghost var here := protocol;
      ghost var processed := ProcessAll(claimed, answers);
      LeadsOn(cfg, s, trace, here, processed, protocol);
      trace := trace + processed;
      running := false;
    }

    /** The conditional update behind the administrator's retry and ignore. */
    method UpdateDeadLetterDelivery(id: DeliveryId, now: Time, retry: bool) returns (r: Result<Row, AdminError>)
      requires Valid()
      modifies this`rows, this`protocol
      ensures Valid()
      ensures r == (if id !in old(rows) then Err(NotFound)
                    else if old(rows)[id].status != DeadLetter then Err(Conflict)
                    else Ok(if retry then Retried(old(rows)[id], now) else AdminIgnored(old(rows)[id], now)))
      ensures r.Ok? ==>
        r.value == old(rows)[id].(lockedAt := None, lockedBy := None, status := if retry then Pending else Ignored,
          nextAttemptAt := if retry then Some(now) else old(rows)[id].nextAttemptAt,
          processedAt := if retry then None else Some(now))
      ensures rows == if r.Ok? then old(rows)[id := r.value] else old(rows)
      ensures protocol == Apply(cfg, old(protocol), if retry then AdminRetry(id, now) else AdminIgnore(id, now))
    {
      hide Inv, Apply;
      ghost var s := protocol;
      ghost var e := if retry then AdminRetry(id, now) else AdminIgnore(id, now);
      InvKeys(cfg, s);
      Step(cfg, s, e);
      AdminRetryFrame(cfg, s, id, now);
      AdminIgnoreFrame(cfg, s, id, now);
      protocol := Apply(cfg, s, e);
      if id !in rows { return Err(NotFound); }
      if rows[id].status != DeadLetter { return Err(Conflict); }
      var after := if retry then Retried(rows[id], now) else AdminIgnored(rows[id], now);
      rows := rows[id := after];
      return Ok(after);
    }
  }
}
