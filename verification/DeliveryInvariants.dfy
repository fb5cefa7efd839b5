/** What every run of the delivery protocol keeps. */
module DeliveryInvariants {
  import opened Wrappers
  import opened DeliveryProtocol

  /** At least one attempt is always made, whatever `maxAttempts` says. */
  function AttemptBudget(cfg: Config): nat { Max(cfg.maxAttempts, 1) }

  ghost function TicketsOf(ts: set<Ticket>, id: DeliveryId): set<Ticket> { set t | t in ts && t.id == id }

  function InFlight(row: Row): nat { if row.status == Processing then 1 else 0 }

  ghost predicate RowOk(row: Row) {
    && (row.status == Processing <==> row.lockedBy.Some?)
    && (row.status == Processing <==> row.lockedAt.Some?)
  }

  /** Claims are accounted for, and what is left of the budget depends on the status. */
  ghost predicate LedgerOk(cfg: Config, row: Row, l: Ledger) {
    && l.claims == row.attempts + l.deferrals + l.plainExits + InFlight(row)
    && l.plainExits <= l.adminRetries + (if row.status == Pending || row.status == Processing then 0 else 1)
    && row.attempts + l.plainExits <= AttemptBudget(cfg) + l.adminRetries
    && (row.status == Pending || row.status == Processing ==>
          row.attempts + l.plainExits < AttemptBudget(cfg) + l.adminRetries)
  }

  ghost predicate TicketOk(s: State, t: Ticket)
    requires t in s.tickets
  {
    && t.id in s.rows && t.lease in s.leases
    && (s.rows[t.id].lockedBy == Some(t.lease) ==> s.rows[t.id].attempts == s.tickets[t])
  }

  ghost predicate LeaseHeld(s: State, id: DeliveryId)
    requires id in s.rows
  {
    s.rows[id].lockedBy.Some? ==> Ticket(id, s.rows[id].lockedBy.value) in s.tickets
  }

  ghost predicate Inv(cfg: Config, s: State) {
    && s.rows.Keys == s.ledger.Keys
    && (forall id :: id in s.rows ==> RowOk(s.rows[id]) && LedgerOk(cfg, s.rows[id], s.ledger[id]))
    && (forall id :: id in s.rows ==> LeaseHeld(s, id))
    && (forall t :: t in s.tickets ==> TicketOk(s, t))
    && s.started <= s.tickets.Keys && s.deferred <= s.tickets.Keys && s.started !! s.deferred
    && (forall id :: id in s.rows ==> Counted(s, id))
  }

  /** Tickets count claims, and every effective deferral has its own deferred ticket. */
  ghost predicate Counted(s: State, id: DeliveryId)
    requires id in s.ledger
  {
    && |TicketsOf(s.tickets.Keys, id)| == s.ledger[id].claims
    && s.ledger[id].deferrals <= |TicketsOf(s.deferred, id)|
  }

  lemma EmptyInv(cfg: Config)
    ensures Inv(cfg, EMPTY)
  {
  }

  /** Whoever passes the guard of this event remembers the row's attempts. */
  ghost predicate SeesCurrent(s: State, e: Event, id: DeliveryId)
    requires id in s.rows
  {
    e.Complete? && e.ticket.id == id && e.ticket in s.tickets && Passes(s.rows, e.ticket) ==>
      s.tickets[e.ticket] == s.rows[id].attempts
  }

  /** One event on one row, from local facts only. */
  lemma RowAfterOk(cfg: Config, s: State, e: Event, id: DeliveryId)
    requires id in s.rows && id in s.ledger && RowOk(s.rows[id]) && LedgerOk(cfg, s.rows[id], s.ledger[id])
    requires SeesCurrent(s, e, id) && (e.Complete? ==> e.ticket in s.tickets)
    requires e.Claim? && id in e.picked ==> s.rows[id].status == Pending
    ensures RowOk(RowAfter(cfg, s, e, id))
    ensures LedgerOk(cfg, RowAfter(cfg, s, e, id), LedgerAfter(cfg, s, e, id))
  {
  }

  /** What one event may do to one row, from local facts only. */
  lemma RowAfterFacts(cfg: Config, s: State, e: Event, id: DeliveryId)
    requires id in s.rows && id in s.ledger && RowOk(s.rows[id])
    requires e.Claim? && id in e.picked ==> s.rows[id].status == Pending
    ensures var row, next := s.rows[id], RowAfter(cfg, s, e, id);
      && (next.lockedBy.Some? ==> next.attempts == row.attempts)
      && (next.lockedBy.Some? ==> next.lockedBy == row.lockedBy || (e.Claim? && next.lockedBy == Some(e.lease)))
      && (row.status == Processed || row.status == Ignored ==> next == row)
      && (row.status == DeadLetter && next != row ==> e.AdminRetry? || e.AdminIgnore?)
      && (row.status == Pending && next != row ==> e.Claim? && id in e.picked)
  {
  }

  lemma Local(cfg: Config, s: State, e: Event, id: DeliveryId)
    requires Inv(cfg, s) && Enabled(cfg, s, e) && id in s.rows
    ensures id in s.ledger && RowOk(s.rows[id]) && LedgerOk(cfg, s.rows[id], s.ledger[id])
    ensures SeesCurrent(s, e, id) && LeaseHeld(s, id) && Counted(s, id)
    ensures e.Claim? && id in e.picked ==> s.rows[id].status == Pending
    ensures var s' := Apply(cfg, s, e);
      && id in s'.rows && id in s'.ledger
      && s'.rows[id] == RowAfter(cfg, s, e, id) && s'.ledger[id] == LedgerAfter(cfg, s, e, id)
  {
    if e.Complete? && e.ticket.id == id { assert TicketOk(s, e.ticket); }
  }

  lemma RowStep(cfg: Config, s: State, e: Event, id: DeliveryId)
    requires Inv(cfg, s) && Enabled(cfg, s, e) && id in s.rows
    ensures var s' := Apply(cfg, s, e);
      && id in s'.rows && id in s'.ledger && RowOk(s'.rows[id])
      && LedgerOk(cfg, s'.rows[id], s'.ledger[id]) && LeaseHeld(s', id)
  {
    Local(cfg, s, e, id);
    RowAfterOk(cfg, s, e, id);
    LeaseStep(cfg, s, e, id);
  }

  lemma LeaseStep(cfg: Config, s: State, e: Event, id: DeliveryId)
    requires s.rows.Keys == s.ledger.Keys && Enabled(cfg, s, e) && id in s.rows && LeaseHeld(s, id)
    ensures id in Apply(cfg, s, e).rows && LeaseHeld(Apply(cfg, s, e), id)
  {
    if e.Claim? && id in e.picked { assert Ticket(id, e.lease) in Tickets(e.picked, e.lease, s.rows); }
  }

  lemma TicketStep(cfg: Config, s: State, e: Event, t: Ticket)
    requires Inv(cfg, s) && Enabled(cfg, s, e) && t in Apply(cfg, s, e).tickets
    ensures TicketOk(Apply(cfg, s, e), t)
  {
    if t in s.tickets {
      assert TicketOk(s, t);
      Local(cfg, s, e, t.id);
      RowAfterFacts(cfg, s, e, t.id);
      OldTicketKept(cfg, s, e, t);
    } else {
      assert e.Claim? && t.id in e.picked;
    }
  }

  lemma OldTicketKept(cfg: Config, s: State, e: Event, t: Ticket)
    requires s.rows.Keys == s.ledger.Keys && Enabled(cfg, s, e) && t in s.tickets && t.id in s.rows &&
      t.lease in s.leases
    ensures t in Apply(cfg, s, e).tickets && Apply(cfg, s, e).tickets[t] == s.tickets[t]
    ensures t.lease in Apply(cfg, s, e).leases
  {
  }

  lemma CountStep(cfg: Config, s: State, e: Event, id: DeliveryId)
    requires Inv(cfg, s) && Enabled(cfg, s, e) && id in s.rows
    ensures id in Apply(cfg, s, e).ledger && Counted(Apply(cfg, s, e), id)
  {
    Local(cfg, s, e, id);
    match e
    case Claim(lease, now, skipped, picked) =>
      assert forall t :: t in s.tickets ==> t.lease in s.leases by {
        forall t | t in s.tickets ensures t.lease in s.leases { assert TicketOk(s, t); }
      }
      ClaimCounts(cfg, s, e, id);
    case Complete(t, c) => DeferCounts(cfg, s, t, c, id);
    case _ =>
  }

  lemma ClaimCounts(cfg: Config, s: State, e: Event, id: DeliveryId)
    requires s.rows.Keys == s.ledger.Keys && e.Claim? && e.picked <= s.rows.Keys && id in s.rows && Counted(s, id)
    requires Ticket(id, e.lease) !in s.tickets
    ensures Counted(Apply(cfg, s, e), id)
  {
    var s', t := Apply(cfg, s, e), Ticket(id, e.lease);
    var added := Tickets(e.picked, e.lease, s.rows);
    assert t in added <==> id in e.picked;
    assert s'.tickets.Keys == s.tickets.Keys + added.Keys;
    assert TicketsOf(added.Keys, id) == if id in e.picked then {t} else {};
    assert TicketsOf(s'.tickets.Keys, id) == TicketsOf(s.tickets.Keys, id) + TicketsOf(added.Keys, id);
  }

  lemma DeferCounts(cfg: Config, s: State, t: Ticket, c: Completion, id: DeliveryId)
    requires s.rows.Keys == s.ledger.Keys && Enabled(cfg, s, Complete(t, c)) && id in s.rows && Counted(s, id)
    ensures Counted(Apply(cfg, s, Complete(t, c)), id)
  {
    CompleteCounts(cfg, s, t, c, id);
    hide Apply, Enabled, TicketsOf;
    if c.Defer? { OneMoreTicket(s.deferred, t, id); }
  }

  lemma OneMoreTicket(ts: set<Ticket>, t: Ticket, id: DeliveryId)
    requires t !in ts
    ensures |TicketsOf(ts + {t}, id)| == |TicketsOf(ts, id)| + if t.id == id then 1 else 0
  {
    assert TicketsOf(ts + {t}, id) == TicketsOf(ts, id) + if t.id == id then {t} else {};
  }

  /** What a completion does to the counters of one delivery and to the workers' memories. */
  lemma CompleteCounts(cfg: Config, s: State, t: Ticket, c: Completion, id: DeliveryId)
    requires s.rows.Keys == s.ledger.Keys && Enabled(cfg, s, Complete(t, c)) && id in s.rows
    ensures var s' := Apply(cfg, s, Complete(t, c));
      && s'.tickets == s.tickets && id in s'.ledger && s'.ledger[id].claims == s.ledger[id].claims
      && s'.ledger[id].deferrals <= s.ledger[id].deferrals + (if c.Defer? && t.id == id then 1 else 0)
      && s'.deferred == (if c.Defer? then s.deferred + {t} else s.deferred) && (c.Defer? ==> t !in s.deferred)
  {
    hide RowAfter;
  }

  /** Everything the invariant says about one delivery. */
  ghost predicate DeliveryOk(cfg: Config, s: State, id: DeliveryId)
    requires id in s.rows && id in s.ledger
  {
    RowOk(s.rows[id]) && LedgerOk(cfg, s.rows[id], s.ledger[id]) && LeaseHeld(s, id) && Counted(s, id)
  }

  lemma DeliveryStep(cfg: Config, s: State, e: Event, id: DeliveryId)
    requires Inv(cfg, s) && Enabled(cfg, s, e) && id in s.rows
    ensures var s' := Apply(cfg, s, e); id in s'.rows && id in s'.ledger && DeliveryOk(cfg, s', id)
  {
    RowStep(cfg, s, e, id);
    CountStep(cfg, s, e, id);
  }

  lemma FirstStep(cfg: Config, s: State, id: DeliveryId, eventSeq: int)
    requires Inv(cfg, s) && id !in s.rows
    ensures var s' := Apply(cfg, s, Enqueue(id, eventSeq));
      id in s'.rows && id in s'.ledger && DeliveryOk(cfg, s', id)
  {
    assert TicketsOf(s.tickets.Keys, id) == {} by {
      forall t | t in s.tickets ensures t.id != id { assert TicketOk(s, t); }
    }
  }

  lemma KeysStep(cfg: Config, s: State, e: Event)
    requires s.rows.Keys == s.ledger.Keys && Enabled(cfg, s, e)
    requires s.started <= s.tickets.Keys && s.deferred <= s.tickets.Keys && s.started !! s.deferred
    ensures var s' := Apply(cfg, s, e);
      && s'.rows.Keys == s'.ledger.Keys == s.rows.Keys + (if e.Enqueue? then {e.id} else {})
      && s'.started <= s'.tickets.Keys && s'.deferred <= s'.tickets.Keys && s'.started !! s'.deferred
  {
    hide RowAfter, LedgerAfter;
  }

  lemma Step(cfg: Config, s: State, e: Event)
    requires Inv(cfg, s) && Enabled(cfg, s, e)
    ensures Inv(cfg, Apply(cfg, s, e))
  {
    KeysStep(cfg, s, e);
    hide Apply, Enabled, Inv, DeliveryOk, TicketOk;
    var s' := Apply(cfg, s, e);
    forall id | id in s'.rows ensures DeliveryOk(cfg, s', id) {
      if id in s.rows { DeliveryStep(cfg, s, e, id); } else { FirstStep(cfg, s, id, e.eventSeq); }
    }
    forall t | t in s'.tickets ensures TicketOk(s', t) { TicketStep(cfg, s, e, t); }
    Assemble(cfg, s');
  }

  lemma Assemble(cfg: Config, s: State)
    requires s.rows.Keys == s.ledger.Keys && s.started <= s.tickets.Keys && s.deferred <= s.tickets.Keys &&
      s.started !! s.deferred
    requires (forall id :: id in s.rows ==> DeliveryOk(cfg, s, id)) && forall t :: t in s.tickets ==> TicketOk(s, t)
    ensures Inv(cfg, s)
  {
    forall id | id in s.rows
      ensures RowOk(s.rows[id]) && LedgerOk(cfg, s.rows[id], s.ledger[id]) && LeaseHeld(s, id) && Counted(s, id)
    {
      assert DeliveryOk(cfg, s, id);
    }
    hide RowOk, LedgerOk, LeaseHeld, Counted, TicketOk, DeliveryOk;
  }

  /** Every reachable state satisfies the invariant. */
  lemma {:induction false} RunKeepsInv(cfg: Config, s: State, events: seq<Event>)
    requires Inv(cfg, s) && IsRun(cfg, s, events)
    ensures Inv(cfg, After(cfg, s, events))
    decreases |events|
  {
    if events != [] {
      Step(cfg, s, events[0]);
      RunKeepsInv(cfg, Apply(cfg, s, events[0]), events[1..]);
    }
  }

  /** States reached from an empty table. */
  ghost predicate Reachable(cfg: Config, s: State) {
    exists events :: IsRun(cfg, EMPTY, events) && s == After(cfg, EMPTY, events)
  }

  lemma ReachableInv(cfg: Config, s: State)
    requires Reachable(cfg, s)
    ensures Inv(cfg, s)
  {
    var events :| IsRun(cfg, EMPTY, events) && s == After(cfg, EMPTY, events);
    EmptyInv(cfg);
    RunKeepsInv(cfg, EMPTY, events);
  }

  // ---------------------------------------------------------------- consequences

  /**
   * In every reachable state a row is PROCESSING exactly when it carries a lease, at most one
   * ticket can still complete it, and that ticket's remembered attempts are the row's: the
   * absolute write of `attempts` never loses an update.
   */
  lemma CompletionGuardIsSound(cfg: Config, s: State, t: Ticket, u: Ticket)
    requires Reachable(cfg, s) && t in s.tickets && u in s.tickets
    ensures t.id in s.rows && u.id in s.rows
    ensures s.rows[t.id].status == Processing <==> s.rows[t.id].lockedBy.Some?
    ensures s.rows[t.id].status == Processing <==> s.rows[t.id].lockedAt.Some?
    ensures Passes(s.rows, t) ==> s.tickets[t] == s.rows[t.id].attempts
    ensures Passes(s.rows, t) && Passes(s.rows, u) && t.id == u.id ==> t == u
  {
    ReachableInv(cfg, s);
    assert TicketOk(s, t) && TicketOk(s, u) && RowOk(s.rows[t.id]);
  }

  /** Claims, handler runs and attempts of a delivery are bounded by its budget. */
  lemma DeliveryBudget(cfg: Config, s: State, id: DeliveryId)
    requires Reachable(cfg, s) && id in s.rows
    ensures id in s.ledger
    ensures var l := s.ledger[id];
      && l.claims == s.rows[id].attempts + l.deferrals + l.plainExits + InFlight(s.rows[id])
      && l.claims <= AttemptBudget(cfg) + l.adminRetries + l.deferrals
      && |TicketsOf(s.started, id)| <= AttemptBudget(cfg) + l.adminRetries
      && (s.rows[id].status == Pending || s.rows[id].status == Processing ==>
            s.rows[id].attempts < AttemptBudget(cfg) + l.adminRetries)
  {
    ReachableInv(cfg, s);
    assert LedgerOk(cfg, s.rows[id], s.ledger[id]) && Counted(s, id);
    SubsetCount(TicketsOf(s.started, id) + TicketsOf(s.deferred, id), TicketsOf(s.tickets.Keys, id));
    assert TicketsOf(s.started, id) !! TicketsOf(s.deferred, id);
  }

  lemma {:induction false} SubsetCount<T>(a: set<T>, b: set<T>)
    requires a <= b
    ensures |a| <= |b|
  {
    if a != {} {
      var x :| x in a;
      SubsetCount(a - {x}, b - {x});
    }
  }

  /** PROCESSED and IGNORED are never left, and such a row is never written again. */
  lemma {:induction false} FinalForever(cfg: Config, s: State, events: seq<Event>, id: DeliveryId)
    requires Inv(cfg, s) && IsRun(cfg, s, events) && id in s.rows
    requires s.rows[id].status == Processed || s.rows[id].status == Ignored
    ensures id in After(cfg, s, events).rows && After(cfg, s, events).rows[id] == s.rows[id]
    decreases |events|
  {
    if events != [] {
      Step(cfg, s, events[0]);
      Local(cfg, s, events[0], id);
      RowAfterFacts(cfg, s, events[0], id);
      FinalForever(cfg, Apply(cfg, s, events[0]), events[1..], id);
    }
  }

  /** A lease that was taken away stays away: from then on its ticket can change nothing. */
  lemma {:induction false} LostLeaseStaysLost(cfg: Config, s: State, events: seq<Event>, t: Ticket, c: Completion)
    requires Inv(cfg, s) && IsRun(cfg, s, events) && t in s.tickets && !Passes(s.rows, t)
    ensures var end := After(cfg, s, events);
      && t in end.tickets && !Passes(end.rows, t)
      && end.rows.Keys == end.ledger.Keys && Apply(cfg, end, Complete(t, c)).rows == end.rows
    decreases |events|
  {
    if events != [] {
      var e := events[0];
      assert TicketOk(s, t);
      Step(cfg, s, e);
      Local(cfg, s, e, t.id);
      RowAfterFacts(cfg, s, e, t.id);
      OldTicketKept(cfg, s, e, t);
      LostLeaseStaysLost(cfg, Apply(cfg, s, e), events[1..], t, c);
    }
  }

  lemma OneReclaim(cfg: Config, row: Row, before: Time)
    ensures !IsStale(ReclaimedTerminal(row), before) && !IsStale(ReclaimedRetry(row), before)
  {
  }

  lemma ReclaimRows(cfg: Config, s: State, e: Event)
    requires s.rows.Keys == s.ledger.Keys && (e.ReclaimTerminal? || e.ReclaimRetry?)
    ensures Apply(cfg, s, e) == s.(rows := map id | id in s.rows :: RowAfter(cfg, s, e, id))
  {
    hide RowAfter;
    assert (map id | id in s.rows :: LedgerAfter(cfg, s, e, id)) == s.ledger;
  }

  /** The two reclaim updates commute, so their order and what runs first does not matter. */
  lemma ReclaimsCommute(cfg: Config, s: State, before: Time)
    requires s.rows.Keys == s.ledger.Keys
    ensures var a := Apply(cfg, s, ReclaimTerminal(before));
            var b := Apply(cfg, s, ReclaimRetry(before));
            a.rows.Keys == a.ledger.Keys && b.rows.Keys == b.ledger.Keys
            && Apply(cfg, a, ReclaimRetry(before)) == Apply(cfg, b, ReclaimTerminal(before))
            && forall id :: id in s.rows ==> !IsStale(Apply(cfg, a, ReclaimRetry(before)).rows[id], before)
  {
    hide Apply, ReclaimedTerminal, ReclaimedRetry;
    var t, r := ReclaimTerminal(before), ReclaimRetry(before);
    ReclaimRows(cfg, s, t);
    ReclaimRows(cfg, s, r);
    var a, b := Apply(cfg, s, t), Apply(cfg, s, r);
    ReclaimRows(cfg, a, r);
    ReclaimRows(cfg, b, t);
    forall id | id in s.rows { OneReclaim(cfg, s.rows[id], before); }
    assert (map id | id in a.rows :: RowAfter(cfg, a, r, id)) == (map id | id in b.rows :: RowAfter(cfg, b, t, id));
  }

  // ---------------------------------------------------------------- a ranking over runs

  /** Steps of the run that changed the row of `id`. */
  ghost function Moves(cfg: Config, s: State, events: seq<Event>, id: DeliveryId): nat
    requires IsRun(cfg, s, events)
    decreases |events|
  {
    if events == [] then 0 else
      var s' := Apply(cfg, s, events[0]);
      (if id in s.rows && s'.rows[id] != s.rows[id] then 1 else 0) + Moves(cfg, s', events[1..], id)
  }

  ghost function RowPotential(row: Row, l: Ledger): int {
    2 * l.claims - InFlight(row) + l.adminRetries + (if row.status == Processed || row.status == Ignored then 1 else 0)
  }

  ghost function Potential(s: State, id: DeliveryId): int
    requires id in s.rows && id in s.ledger
  {
    RowPotential(s.rows[id], s.ledger[id])
  }

  lemma PotentialGrows(cfg: Config, s: State, e: Event, id: DeliveryId)
    requires Inv(cfg, s) && Enabled(cfg, s, e) && id in s.rows
    ensures var s' := Apply(cfg, s, e);
      && id in s'.rows && id in s'.ledger
      && Potential(s', id) >= Potential(s, id) + (if s'.rows[id] != s.rows[id] then 1 else 0)
  {
    Local(cfg, s, e, id);
    PotentialLocal(cfg, s, e, id);
  }

  lemma PotentialLocal(cfg: Config, s: State, e: Event, id: DeliveryId)
    requires id in s.rows && id in s.ledger && RowOk(s.rows[id])
    requires e.Claim? && id in e.picked ==> s.rows[id].status == Pending
    requires e.Complete? ==> e.ticket in s.tickets
    ensures var row, next := s.rows[id], RowAfter(cfg, s, e, id);
      RowPotential(next, LedgerAfter(cfg, s, e, id))
        >= RowPotential(row, s.ledger[id]) + (if next != row then 1 else 0)
  {
  }

  lemma {:induction false} MovesBelowPotential(cfg: Config, s: State, events: seq<Event>, id: DeliveryId)
    requires Inv(cfg, s) && IsRun(cfg, s, events) && id in s.rows
    ensures id in After(cfg, s, events).rows && id in After(cfg, s, events).ledger
    ensures Moves(cfg, s, events, id) <= Potential(After(cfg, s, events), id) - Potential(s, id)
    decreases |events|
  {
    if events != [] {
      Step(cfg, s, events[0]);
      PotentialGrows(cfg, s, events[0], id);
      MovesBelowPotential(cfg, Apply(cfg, s, events[0]), events[1..], id);
    }
  }

  /**
   * A delivery's row changes only finitely often: in any run, however long, at most twice per
   * allowed claim, plus once per administrator retry, plus once for the final status.
   */
  lemma RowChangesAreBounded(cfg: Config, s: State, events: seq<Event>, id: DeliveryId)
    requires Inv(cfg, s) && IsRun(cfg, s, events) && id in s.rows
    ensures var end := After(cfg, s, events);
      && id in end.ledger
      && Moves(cfg, s, events, id)
           <= 2 * (AttemptBudget(cfg) + end.ledger[id].adminRetries + end.ledger[id].deferrals)
              + end.ledger[id].adminRetries + 1
  {
    RunKeepsInv(cfg, s, events);
    MovesBelowPotential(cfg, s, events, id);
    var end := After(cfg, s, events);
    assert LedgerOk(cfg, end.rows[id], end.ledger[id]) && LedgerOk(cfg, s.rows[id], s.ledger[id]);
  }

  // ---------------------------------------------------------------- backoff

  lemma {:induction false} Pow2Monotone(m: nat, n: nat)
    requires m <= n
    ensures Pow2(m) <= Pow2(n)
    decreases n
  {
    if m < n { Pow2Monotone(m, n - 1); }
  }

  /** Delays stay within the cap and never shrink as attempts accumulate. */
  lemma BackoffIsMonotone(cfg: Config, m: nat, n: nat, requested: Option<int>)
    requires m <= n
    ensures 0 <= RetryDelayMs(cfg, m, requested) <= RetryDelayMs(cfg, n, requested) <= cfg.maxBackoffMs
  {
    Pow2Monotone(m, n);
    ScaleMonotone(cfg.baseBackoffMs, Pow2(m), Pow2(n));
  }

  lemma ScaleMonotone(k: nat, a: nat, b: nat)
    requires a <= b
    ensures 0 <= k * a <= k * b
  {
  }

  /** All claims of the run are made before `until`. */
  ghost predicate ClaimsBefore(events: seq<Event>, until: Time) {
    forall k :: 0 <= k < |events| && events[k].Claim? ==> events[k].now < until
  }

  /** Until its next attempt is due, a waiting row is left alone by everybody. */
  lemma {:induction false} BackoffIsHeld(cfg: Config, s: State, events: seq<Event>, id: DeliveryId)
    requires Inv(cfg, s) && IsRun(cfg, s, events) && id in s.rows
    requires s.rows[id].status == Pending && s.rows[id].nextAttemptAt.Some?
    requires ClaimsBefore(events, s.rows[id].nextAttemptAt.value)
    ensures id in After(cfg, s, events).rows && After(cfg, s, events).rows[id] == s.rows[id]
    decreases |events|
  {
    if events != [] {
      var s' := Apply(cfg, s, events[0]);
      Step(cfg, s, events[0]);
      Local(cfg, s, events[0], id);
      RowAfterFacts(cfg, s, events[0], id);
      assert ClaimsBefore(events[1..], s'.rows[id].nextAttemptAt.value) by {
        forall k | 0 <= k < |events[1..]| && events[1..][k].Claim?
          ensures events[1..][k].now < s.rows[id].nextAttemptAt.value
        { assert events[1..][k] == events[k + 1]; }
      }
      BackoffIsHeld(cfg, s', events[1..], id);
    }
  }

  // ---------------------------------------------------------------- the configured limit

  ghost predicate NoRetryOf(events: seq<Event>, id: DeliveryId) {
    forall k :: 0 <= k < |events| && events[k].AdminRetry? ==> events[k].id != id
  }

  /** Within the configured limit, or waiting with at least one attempt left. */
  ghost predicate WithinLimit(cfg: Config, row: Row) {
    row.attempts <= AttemptBudget(cfg)
    && (row.status == Pending || row.status == Processing ==> row.attempts < AttemptBudget(cfg))
  }

  lemma LimitLocal(cfg: Config, s: State, e: Event, id: DeliveryId)
    requires id in s.rows && RowOk(s.rows[id]) && WithinLimit(cfg, s.rows[id]) && SeesCurrent(s, e, id)
    requires e.Claim? && id in e.picked ==> s.rows[id].status == Pending
    requires e.Complete? ==> e.ticket in s.tickets
    requires e.AdminRetry? ==> e.id != id
    ensures WithinLimit(cfg, RowAfter(cfg, s, e, id))
  {
  }

  lemma {:induction false} LimitHolds(cfg: Config, s: State, events: seq<Event>, id: DeliveryId)
    requires Inv(cfg, s) && IsRun(cfg, s, events) && id in s.rows
    requires NoRetryOf(events, id) && WithinLimit(cfg, s.rows[id])
    ensures id in After(cfg, s, events).rows && WithinLimit(cfg, After(cfg, s, events).rows[id])
    decreases |events|
  {
    if events != [] {
      var s' := Apply(cfg, s, events[0]);
      Step(cfg, s, events[0]);
      Local(cfg, s, events[0], id);
      LimitLocal(cfg, s, events[0], id);
      assert NoRetryOf(events[1..], id) by {
        forall k | 0 <= k < |events[1..]| && events[1..][k].AdminRetry? ensures events[1..][k].id != id
        { assert events[1..][k] == events[k + 1]; }
      }
      LimitHolds(cfg, s', events[1..], id);
    }
  }

  /** Some continuation with no further retry takes the delivery past the configured limit. */
  ghost predicate CanOverrun(cfg: Config, s: State, id: DeliveryId) {
    exists events :: IsRun(cfg, s, events) && NoRetryOf(events, id)
      && id in After(cfg, s, events).rows && After(cfg, s, events).rows[id].attempts > AttemptBudget(cfg)
  }

  /** Claiming `id` alone, every other row being locked by somebody else. */
  lemma LoneClaim(cfg: Config, s: State, id: DeliveryId, lease: LeaseId, now: Time) returns (claim: Event)
    requires Inv(cfg, s) && id in s.rows && cfg.batchSize >= 1 && lease !in s.leases && IsDue(s.rows[id], now)
    ensures claim.Claim? && Enabled(cfg, s, claim)
    ensures var s', t := Apply(cfg, s, claim), Ticket(id, lease);
      id in s'.rows && s'.rows[id].attempts == s.rows[id].attempts
      && t in s'.tickets && s'.tickets[t] == s.rows[id].attempts && Passes(s'.rows, t)
  {
    claim := Claim(lease, now, s.rows.Keys - {id}, {id});
    hide LedgerAfter, LedgerOk, Counted;
    Local(cfg, s, claim, id);
    assert Ticket(id, lease) in Tickets({id}, lease, s.rows);
  }

  /** How a retried, exhausted delivery overruns: claim it alone, then fail. */
  lemma OverrunRun(cfg: Config, s: State, id: DeliveryId, lease: LeaseId, now: Time) returns (events: seq<Event>)
    requires Inv(cfg, s) && id in s.rows && cfg.batchSize >= 1 && lease !in s.leases && IsDue(s.rows[id], now)
    ensures IsRun(cfg, s, events) && NoRetryOf(events, id)
    ensures id in After(cfg, s, events).rows && After(cfg, s, events).rows[id].attempts == s.rows[id].attempts + 1
  {
    var claim := LoneClaim(cfg, s, id, lease, now);
    Step(cfg, s, claim);
    events := ThenFail(cfg, s, claim, Apply(cfg, s, claim), Ticket(id, lease), now);
  }

  lemma ThenFail(cfg: Config, s: State, e: Event, s1: State, t: Ticket, now: Time) returns (events: seq<Event>)
    requires s.rows.Keys == s.ledger.Keys && Enabled(cfg, s, e) && !e.AdminRetry? && s1 == Apply(cfg, s, e)
    requires Inv(cfg, s1) && t in s1.tickets && Passes(s1.rows, t)
    ensures IsRun(cfg, s, events) && NoRetryOf(events, t.id)
    ensures AttemptsAt(After(cfg, s, events), t.id, s1.tickets[t] + 1)
  {
    var fail := FailureOf(t, now);
    FailAt(cfg, s1, fail);
    Step(cfg, s1, fail);
    events := TwoSteps(cfg, s, e, s1, fail, Apply(cfg, s1, fail), t.id);
  }

  ghost predicate AttemptsAt(s: State, id: DeliveryId, n: nat) {
    id in s.rows && s.rows[id].attempts == n
  }

  lemma FailureOf(t: Ticket, now: Time) returns (fail: Event)
    ensures fail.Complete? && fail.ticket == t && fail.completion.Fail?
  {
    fail := Complete(t, Fail(now, "", None));
  }

  lemma FailAt(cfg: Config, s: State, fail: Event)
    requires Inv(cfg, s) && fail.Complete? && fail.completion.Fail?
    requires fail.ticket in s.tickets && Passes(s.rows, fail.ticket)
    ensures Enabled(cfg, s, fail)
    ensures fail.ticket.id in Apply(cfg, s, fail).rows
    ensures Apply(cfg, s, fail).rows[fail.ticket.id].attempts == s.tickets[fail.ticket] + 1
  {
    Local(cfg, s, fail, fail.ticket.id);
  }

  lemma TwoSteps(cfg: Config, s: State, e: Event, s1: State, f: Event, s2: State, id: DeliveryId)
    returns (events: seq<Event>)
    requires s.rows.Keys == s.ledger.Keys && Enabled(cfg, s, e) && s1 == Apply(cfg, s, e)
    requires s1.rows.Keys == s1.ledger.Keys && Enabled(cfg, s1, f) && s2 == Apply(cfg, s1, f)
    requires s2.rows.Keys == s2.ledger.Keys && !e.AdminRetry? && !f.AdminRetry?
    ensures IsRun(cfg, s, events) && NoRetryOf(events, id) && After(cfg, s, events) == s2
  {
    events := [e, f];
    assert events[1..] == [f] && [f][1..] == [];
    assert IsRun(cfg, s2, []) && After(cfg, s2, []) == s2;
    assert IsRun(cfg, s1, [f]) && After(cfg, s1, [f]) == s2;
  }

  lemma {:induction false} FreshLease(leases: set<LeaseId>) returns (unused: LeaseId)
    ensures forall l :: l in leases ==> l < unused
  {
    if leases == {} {
      unused := 0;
    } else {
      var l :| l in leases;
      var rest := FreshLease(leases - {l});
      assert forall k :: k in leases ==> k == l || k in leases - {l};
      unused := if l < rest then rest else l + 1;
    }
  }

  /**
   * `attempts <= maxAttempts` is not kept by an administrator's retry, which leaves `attempts` as
   * it was. It can be overrun afterwards exactly when the dead-lettered row had used up the limit, or had
   * gone past it after an earlier retry.
   */
  lemma RetryOverrunsIffExhausted(cfg: Config, s: State, id: DeliveryId, now: Time)
    requires Inv(cfg, s) && id in s.rows && s.rows[id].status == DeadLetter && cfg.batchSize >= 1
    ensures CanOverrun(cfg, Apply(cfg, s, AdminRetry(id, now)), id) <==> s.rows[id].attempts >= AttemptBudget(cfg)
  {
    var e := AdminRetry(id, now);
    var s' := Apply(cfg, s, e);
    Step(cfg, s, e);
    if s.rows[id].attempts >= AttemptBudget(cfg) {
      var lease := FreshLease(s'.leases);
      var events := OverrunRun(cfg, s', id, lease, now);
    } else if CanOverrun(cfg, s', id) {
      var events :| IsRun(cfg, s', events) && NoRetryOf(events, id)
        && id in After(cfg, s', events).rows && After(cfg, s', events).rows[id].attempts > AttemptBudget(cfg);
      LimitHolds(cfg, s', events, id);
    }
  }
}
