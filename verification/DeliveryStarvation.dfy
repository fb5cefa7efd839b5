/**
 * When a pending delivery can be passed over for ever. Rows that are deferred become due again at once,
 * so a batch of open rows of no later sequence can be claimed again and again in its place.
 */
module DeliveryStarvation {
  import opened DeliveryProtocol
  import opened DeliveryInvariants
  import opened DeliveryProgress

  predicate IsOpen(row: Row) { row.status != Processed && row.status != Ignored }

  /** The rows that stand, or can come to stand, before this delivery. */
  ghost function OpenBefore(s: State, d: DeliveryId): set<DeliveryId>
    requires d in s.rows
  {
    set i | i in s.rows && i != d && IsOpen(s.rows[i]) && s.rows[i].eventSeq <= s.rows[d].eventSeq
  }

  /** Everything enqueued during the run is of a later sequence. */
  ghost predicate EnqueuesAfter(run: seq<Event>, eventSeq: int) {
    forall k :: 0 <= k < |run| && run[k].Enqueue? ==> run[k].eventSeq > eventSeq
  }

  /** Some run passes the delivery over at least so many times. */
  ghost predicate CanBePassedOver(cfg: Config, s: State, d: DeliveryId, times: nat)
    requires d in s.rows
  {
    exists run :: IsRun(cfg, s, run) && EnqueuesAfter(run, s.rows[d].eventSeq) && PassedOver(cfg, s, run, d) >= times
  }

  // ---------------------------------------------------------------- fewer than a batch

  /** Closed rows stay closed, so no row comes to stand before the delivery that did not. */
  lemma OpenBeforeShrinks(cfg: Config, s: State, e: Event, d: DeliveryId)
    requires Inv(cfg, s) && Enabled(cfg, s, e) && d in s.rows
    requires e.Enqueue? ==> e.eventSeq > s.rows[d].eventSeq
    ensures d in Apply(cfg, s, e).rows && OpenBefore(Apply(cfg, s, e), d) <= OpenBefore(s, d)
  {
    var t := Apply(cfg, s, e);
    Kept(cfg, s, e, d);
    forall i | i in OpenBefore(t, d) ensures i in OpenBefore(s, d) {
      if i in s.rows {
        Kept(cfg, s, e, i);
        Local(cfg, s, e, i);
        RowAfterFacts(cfg, s, e, i);
      }
    }
  }

  lemma PassingNeedsABatch(cfg: Config, s: State, e: Event, d: DeliveryId)
    requires Inv(cfg, s) && Enabled(cfg, s, e) && d in s.rows && PassesOver(s, e, d)
    ensures |OpenBefore(s, d)| >= cfg.batchSize
  {
    assert s.rows.Keys == s.ledger.Keys;
    assert Ahead(s, d) <= OpenBefore(s, d);
    hide Inv, Apply, Enabled, PassesOver, Ahead, OpenBefore;
    PassingOverClears(cfg, s, e, d);
    SubsetCount(e.picked, OpenBefore(s, d));
  }

  lemma {:induction false} NeverPassedOver(cfg: Config, s: State, run: seq<Event>, d: DeliveryId)
    requires Inv(cfg, s) && IsRun(cfg, s, run) && d in s.rows && EnqueuesAfter(run, s.rows[d].eventSeq)
    requires |OpenBefore(s, d)| < cfg.batchSize
    ensures PassedOver(cfg, s, run, d) == 0
    decreases |run|
  {
    if run != [] {
      var e, t := run[0], Apply(cfg, s, run[0]);
      Kept(cfg, s, e, d);
      Step(cfg, s, e);
      OpenBeforeShrinks(cfg, s, e, d);
      if PassesOver(s, e, d) { PassingNeedsABatch(cfg, s, e, d); }
      SubsetCount(OpenBefore(t, d), OpenBefore(s, d));
      hide Inv, Apply, Enabled, OpenBefore, PassesOver;
      assert EnqueuesAfter(run[1..], t.rows[d].eventSeq) by {
        forall k | 0 <= k < |run[1..]| && run[1..][k].Enqueue? ensures run[1..][k].eventSeq > s.rows[d].eventSeq {
          assert run[1..][k] == run[k + 1];
        }
      }
      NeverPassedOver(cfg, t, run[1..], d);
    }
  }

  // ---------------------------------------------------------------- runs, step by step

  /** The run enqueues nothing and passes the delivery over so many times. */
  ghost predicate PassesTimes(cfg: Config, s: State, run: seq<Event>, d: DeliveryId, times: nat) {
    && IsRun(cfg, s, run) && d in s.rows && PassedOver(cfg, s, run, d) == times
    && forall k :: 0 <= k < |run| ==> !run[k].Enqueue?
  }

  lemma NoSteps(cfg: Config, s: State, d: DeliveryId)
    requires s.rows.Keys == s.ledger.Keys && d in s.rows
    ensures PassesTimes(cfg, s, [], d, 0)
  {
  }

  lemma OneMoreStep(cfg: Config, s: State, e: Event, rest: seq<Event>, d: DeliveryId, times: nat)
    requires s.rows.Keys == s.ledger.Keys && Enabled(cfg, s, e) && !e.Enqueue? && d in s.rows
    requires PassesTimes(cfg, Apply(cfg, s, e), rest, d, times)
    ensures PassesTimes(cfg, s, [e] + rest, d, times + if PassesOver(s, e, d) then 1 else 0)
  {
    hide Apply, Enabled, PassesOver;
    var run := [e] + rest;
    assert run[0] == e && run[1..] == rest;
  }

  // ---------------------------------------------------------------- a round

  /** The batch is what a claim may take now although the delivery is due. */
  ghost predicate InTheWay(cfg: Config, s: State, batch: set<DeliveryId>, d: DeliveryId, now: Time) {
    && Inv(cfg, s) && d in s.rows && d !in batch && IsDue(s.rows[d], now)
    && IsDueBatch(cfg, s.rows, now, {}, batch)
  }

  /** The row is due at any time, and is of the same sequence as before. */
  predicate Released(was: Row, row: Row) {
    row.status == Pending && row.nextAttemptAt.None? && row.eventSeq == was.eventSeq
  }

  /** The row is claimed under this lease, by a worker that has not acted on it yet. */
  ghost predicate Owned(s: State, i: DeliveryId, lease: LeaseId, was: Row) {
    && i in s.rows && Ticket(i, lease) in s.tickets && Passes(s.rows, Ticket(i, lease))
    && Ticket(i, lease) !in s.started && Ticket(i, lease) !in s.deferred && s.rows[i].eventSeq == was.eventSeq
  }

  /** What a round has made of a row: `todo` is still to be deferred. */
  ghost predicate InRound(from: State, s: State, batch: set<DeliveryId>, todo: set<DeliveryId>, lease: LeaseId,
                          i: DeliveryId)
    requires i in from.rows && i in s.rows
  {
    if i in todo then Owned(s, i, lease, from.rows[i])
    else if i in batch then Released(from.rows[i], s.rows[i])
    else s.rows[i] == from.rows[i]
  }

  /** In the middle of a round. */
  ghost predicate Deferring(cfg: Config, from: State, s: State, batch: set<DeliveryId>, todo: set<DeliveryId>,
                            lease: LeaseId)
  {
    && Inv(cfg, s) && s.rows.Keys == from.rows.Keys && todo <= batch <= from.rows.Keys
    && forall i :: i in s.rows ==> InRound(from, s, batch, todo, lease, i)
  }

  lemma NewTicket(cfg: Config, s: State, i: DeliveryId, lease: LeaseId)
    requires Inv(cfg, s) && lease !in s.leases
    ensures Ticket(i, lease) !in s.started && Ticket(i, lease) !in s.deferred
  {
    assert Ticket(i, lease) in s.tickets ==> TicketOk(s, Ticket(i, lease));
  }

  lemma ClaimedRow(cfg: Config, s: State, batch: set<DeliveryId>, i: DeliveryId, now: Time, lease: LeaseId)
    requires s.rows.Keys == s.ledger.Keys && batch <= s.rows.Keys && i in s.rows
    requires Ticket(i, lease) !in s.started && Ticket(i, lease) !in s.deferred
    ensures var t := Apply(cfg, s, Claim(lease, now, {}, batch));
      i in t.rows && InRound(s, t, batch, batch, lease, i)
  {
    if i in batch { assert Ticket(i, lease) in Tickets(batch, lease, s.rows); }
  }

  lemma ClaimOfTheBatch(cfg: Config, s: State, batch: set<DeliveryId>, d: DeliveryId, now: Time, lease: LeaseId)
    requires InTheWay(cfg, s, batch, d, now) && lease !in s.leases
    ensures Inv(cfg, s) && s.rows.Keys == s.ledger.Keys && d in s.rows && batch <= s.rows.Keys
    ensures var e := Claim(lease, now, {}, batch); Enabled(cfg, s, e) && PassesOver(s, e, d)
  {
    hide Inv, IsDue;
    assert s.rows.Keys == s.ledger.Keys by { KeysAgree(cfg, s); }
  }

  lemma KeysAgree(cfg: Config, s: State)
    requires Inv(cfg, s)
    ensures s.rows.Keys == s.ledger.Keys && s.started <= s.tickets.Keys && s.deferred <= s.tickets.Keys &&
      s.started !! s.deferred
  {
  }

  lemma ClaimTakesTheBatch(cfg: Config, s: State, batch: set<DeliveryId>, d: DeliveryId, now: Time, lease: LeaseId)
    requires InTheWay(cfg, s, batch, d, now) && lease !in s.leases
    ensures Deferring(cfg, s, Apply(cfg, s, Claim(lease, now, {}, batch)), batch, batch, lease)
  {
    hide Inv, Apply, Enabled, IsDueBatch, InRound, InTheWay;
    var e := Claim(lease, now, {}, batch);
    ClaimOfTheBatch(cfg, s, batch, d, now, lease);
    Step(cfg, s, e);
    KeysAgree(cfg, s);
    KeysStep(cfg, s, e);
    forall i | i in s.rows ensures InRound(s, Apply(cfg, s, e), batch, batch, lease, i) {
      NewTicket(cfg, s, i, lease);
      ClaimedRow(cfg, s, batch, i, now, lease);
    }
  }

  lemma DeferredRow(cfg: Config, from: State, s: State, batch: set<DeliveryId>, todo: set<DeliveryId>,
                    lease: LeaseId, i: DeliveryId, j: DeliveryId)
    requires s.rows.Keys == s.ledger.Keys && j in s.rows && j in from.rows && i in todo && todo <= batch
    requires i in from.rows && Owned(s, i, lease, from.rows[i]) && InRound(from, s, batch, todo, lease, j)
    ensures var e := Complete(Ticket(i, lease), Defer(""));
      && Enabled(cfg, s, e) && j in Apply(cfg, s, e).rows
      && InRound(from, Apply(cfg, s, e), batch, todo - {i}, lease, j)
  {
    hide LedgerAfter;
  }

  lemma DeferOne(cfg: Config, from: State, s: State, batch: set<DeliveryId>, todo: set<DeliveryId>, lease: LeaseId,
                 i: DeliveryId)
    requires Deferring(cfg, from, s, batch, todo, lease) && i in todo
    ensures var e := Complete(Ticket(i, lease), Defer(""));
      Enabled(cfg, s, e) && Deferring(cfg, from, Apply(cfg, s, e), batch, todo - {i}, lease)
  {
    var e := Complete(Ticket(i, lease), Defer(""));
    hide Inv, Apply, Enabled, InRound, Owned;
    KeysAgree(cfg, s);
    assert i in s.rows && InRound(from, s, batch, todo, lease, i);
    OwnedInRound(from, s, batch, todo, lease, i);
    DeferredRow(cfg, from, s, batch, todo, lease, i, i);
    Step(cfg, s, e);
    KeysStep(cfg, s, e);
    forall j | j in s.rows ensures InRound(from, Apply(cfg, s, e), batch, todo - {i}, lease, j) {
      DeferredRow(cfg, from, s, batch, todo, lease, i, j);
    }
  }

  lemma OwnedInRound(from: State, s: State, batch: set<DeliveryId>, todo: set<DeliveryId>, lease: LeaseId,
                     i: DeliveryId)
    requires i in from.rows && i in s.rows && i in todo && InRound(from, s, batch, todo, lease, i)
    ensures Owned(s, i, lease, from.rows[i])
  {
  }

  lemma StillInTheWay(cfg: Config, from: State, t: State, batch: set<DeliveryId>, d: DeliveryId, now: Time,
                      lease: LeaseId)
    requires InTheWay(cfg, from, batch, d, now) && Deferring(cfg, from, t, batch, {}, lease)
    ensures InTheWay(cfg, t, batch, d, now)
  {
    hide Inv;
    forall j | j in t.rows
      ensures t.rows[j].eventSeq == from.rows[j].eventSeq && (IsDue(t.rows[j], now) <==> IsDue(from.rows[j], now))
    {
      assert InRound(from, t, batch, {}, lease, j);
      assert j in batch ==> IsDue(from.rows[j], now);
    }
    hide InRound, IsDue;
  }

  /** The batch is claimed, every delivery in it is deferred, and all is as before: so often as one likes. */
  lemma {:induction false} Rounds(cfg: Config, s: State, batch: set<DeliveryId>, d: DeliveryId, now: Time, n: nat)
    returns (run: seq<Event>)
    requires InTheWay(cfg, s, batch, d, now)
    ensures PassesTimes(cfg, s, run, d, n)
    decreases n, 0
  {
    hide Inv, PassesTimes, Apply, Enabled, PassesOver, InTheWay, Deferring;
    var lease := FreshLease(s.leases);
    var e := Claim(lease, now, {}, batch);
    ClaimOfTheBatch(cfg, s, batch, d, now, lease);
    if n == 0 {
      NoSteps(cfg, s, d);
      return [];
    }
    ClaimTakesTheBatch(cfg, s, batch, d, now, lease);
    run := RoundsAfter(cfg, s, Apply(cfg, s, e), batch, batch, lease, d, now, n - 1);
    OneMoreStep(cfg, s, e, run, d, n - 1);
    run := [e] + run;
  }

  lemma {:induction false} RoundsAfter(cfg: Config, from: State, s: State, batch: set<DeliveryId>,
                                       todo: set<DeliveryId>, lease: LeaseId, d: DeliveryId, now: Time, n: nat)
    returns (run: seq<Event>)
    requires InTheWay(cfg, from, batch, d, now) && Deferring(cfg, from, s, batch, todo, lease)
    ensures PassesTimes(cfg, s, run, d, n)
    decreases n, 1 + |todo|
  {
    assert d in s.rows && s.rows.Keys == s.ledger.Keys;
    hide Inv, PassesTimes, Apply, Enabled, Deferring, InTheWay;
    if todo == {} {
      StillInTheWay(cfg, from, s, batch, d, now, lease);
      run := Rounds(cfg, s, batch, d, now, n);
      return;
    }
    var i :| i in todo;
    var e := Complete(Ticket(i, lease), Defer(""));
    DeferOne(cfg, from, s, batch, todo, lease, i);
    run := RoundsAfter(cfg, from, Apply(cfg, s, e), batch, todo - {i}, lease, d, now, n);
    OneMoreStep(cfg, s, e, run, d, n);
    run := [e] + run;
  }

  // ---------------------------------------------------------------- the batch that is taken

  /** The rows of the set are of no later sequence than any other row in `all`. */
  ghost predicate AreLeast(rows: map<DeliveryId, Row>, all: set<DeliveryId>, least: set<DeliveryId>) {
    && least <= all <= rows.Keys
    && forall i, j :: i in least && j in all - least ==> rows[i].eventSeq <= rows[j].eventSeq
  }

  lemma {:induction false} Earliest(rows: map<DeliveryId, Row>, all: set<DeliveryId>) returns (m: DeliveryId)
    requires all <= rows.Keys && all != {}
    ensures m in all && forall j :: j in all ==> rows[m].eventSeq <= rows[j].eventSeq
    decreases all
  {
    m :| m in all;
    if all != {m} {
      var rest := all - {m};
      var k := Earliest(rows, rest);
      assert forall j :: j in all ==> j == m || j in rest;
      if rows[k].eventSeq < rows[m].eventSeq { m := k; }
    }
  }

  lemma {:induction false} LeastOf(rows: map<DeliveryId, Row>, all: set<DeliveryId>, n: nat)
    returns (least: set<DeliveryId>)
    requires all <= rows.Keys && n <= |all|
    ensures AreLeast(rows, all, least) && |least| == n
    decreases n
  {
    least := {};
    if n > 0 {
      least := LeastOf(rows, all, n - 1);
      Shrinks(all, least);
      var m := Earliest(rows, all - least);
      assert least + {m} <= all;
      least := least + {m};
    }
  }

  /** If a batch of rows before the delivery is due, some batch is in its way. */
  lemma BatchInTheWay(cfg: Config, s: State, before: set<DeliveryId>, d: DeliveryId, now: Time)
    returns (batch: set<DeliveryId>)
    requires Inv(cfg, s) && d in s.rows && IsDue(s.rows[d], now) && before <= s.rows.Keys && d !in before
    requires forall i :: i in before ==> IsDue(s.rows[i], now) && s.rows[i].eventSeq <= s.rows[d].eventSeq
    requires |before| >= cfg.batchSize
    ensures InTheWay(cfg, s, batch, d, now)
  {
    hide Inv, IsDue;
    var due := set i | i in s.rows && i != d && IsDue(s.rows[i], now);
    SubsetCount(before, due);
    batch := LeastOf(s.rows, due, cfg.batchSize);
    forall i | i in batch ensures s.rows[i].eventSeq <= s.rows[d].eventSeq {
      if i !in before {
        if before <= batch - {i} { SubsetCount(before, batch - {i}); }
        var j :| j in before && j !in batch - {i};
        assert j in due - batch;
      }
    }
  }

  // ---------------------------------------------------------------- bringing the open rows to due

  /** A time after every lock, and at which every waiting row is due. */
  lemma {:induction false} Horizon(rows: map<DeliveryId, Row>, ids: set<DeliveryId>) returns (now: Time)
    requires ids <= rows.Keys
    ensures forall i :: i in ids ==> Settled(rows[i], now)
    decreases ids
  {
    now := 0;
    if ids != {} {
      var i :| i in ids;
      var t := Horizon(rows, ids - {i});
      assert forall j :: j in ids ==> j == i || j in ids - {i};
      now := Max(t, Max(LockedUntil(rows[i]), if rows[i].nextAttemptAt.Some? then rows[i].nextAttemptAt.value else t));
    }
  }

  function LockedUntil(row: Row): Time { if row.lockedAt.Some? then row.lockedAt.value + 1 else 0 }

  predicate Settled(row: Row, now: Time) {
    && (row.lockedAt.Some? ==> row.lockedAt.value < now)
    && (row.nextAttemptAt.Some? ==> row.nextAttemptAt.value <= now)
  }

  /** Due, or a retry away from it, and of the same sequence as before. */
  predicate NearlyDue(was: Row, row: Row, now: Time) {
    (row.status == DeadLetter || IsDue(row, now)) && row.eventSeq == was.eventSeq
  }

  lemma ReclaimedRow(cfg: Config, row: Row, now: Time)
    requires RowOk(row) && IsOpen(row) && Settled(row, now)
    ensures var mid := if HitsReclaimTerminal(cfg, row, now) then ReclaimedTerminal(row) else row;
      NearlyDue(row, if HitsReclaimRetry(cfg, mid, now) then ReclaimedRetry(mid) else mid, now)
  {
  }

  /** An open row on its way to due: `todo` is still to be retried. */
  ghost predicate OnTheWay(from: State, s: State, todo: set<DeliveryId>, now: Time, i: DeliveryId) {
    && i in from.rows && i in s.rows && NearlyDue(from.rows[i], s.rows[i], now)
    && (i !in todo ==> IsDue(s.rows[i], now))
  }

  ghost predicate Preparing(cfg: Config, from: State, s: State, d: DeliveryId, todo: set<DeliveryId>, now: Time)
    requires d in from.rows
  {
    && Inv(cfg, s) && OnTheWay(from, s, {}, now, d) && todo <= OpenBefore(from, d)
    && forall i :: i in OpenBefore(from, d) ==> OnTheWay(from, s, todo, now, i)
  }

  lemma RetriedRow(cfg: Config, from: State, s: State, todo: set<DeliveryId>, now: Time, i: DeliveryId, j: DeliveryId)
    requires s.rows.Keys == s.ledger.Keys && OnTheWay(from, s, todo, now, j)
    ensures OnTheWay(from, Apply(cfg, s, AdminRetry(i, now)), todo - {i}, now, j)
  {
    hide LedgerAfter;
  }

  lemma RetryOne(cfg: Config, from: State, s: State, d: DeliveryId, todo: set<DeliveryId>, now: Time, i: DeliveryId)
    requires d in from.rows && Preparing(cfg, from, s, d, todo, now) && i in todo
    ensures Preparing(cfg, from, Apply(cfg, s, AdminRetry(i, now)), d, todo - {i}, now)
  {
    hide Inv, Apply, Enabled, OpenBefore, OnTheWay;
    var e := AdminRetry(i, now);
    KeysAgree(cfg, s);
    assert Enabled(cfg, s, e) by { RetryIsEnabled(cfg, s, i, now); }
    Step(cfg, s, e);
    RetriedRow(cfg, from, s, {}, now, i, d);
    var none: set<DeliveryId> := {};
    assert none - {i} == none;
    forall j | j in OpenBefore(from, d) ensures OnTheWay(from, Apply(cfg, s, e), todo - {i}, now, j) {
      RetriedRow(cfg, from, s, todo, now, i, j);
    }
  }

  lemma RetryIsEnabled(cfg: Config, s: State, i: DeliveryId, now: Time)
    ensures Enabled(cfg, s, AdminRetry(i, now))
  {
  }

  lemma OpenIsThere(s: State, d: DeliveryId, i: DeliveryId)
    requires d in s.rows && i in OpenBefore(s, d)
    ensures i in s.rows && i != d && IsOpen(s.rows[i]) && s.rows[i].eventSeq <= s.rows[d].eventSeq
  {
  }

  lemma {:induction false} RetryThenRounds(cfg: Config, from: State, s: State, d: DeliveryId, todo: set<DeliveryId>,
                                           now: Time, n: nat)
    returns (run: seq<Event>)
    requires d in from.rows && Preparing(cfg, from, s, d, todo, now) && |OpenBefore(from, d)| >= cfg.batchSize
    ensures PassesTimes(cfg, s, run, d, n)
    decreases |todo|
  {
    hide Inv, Apply, OpenBefore, NearlyDue, IsDue, PassesTimes;
    if todo == {} {
      PreparedIsInTheWay(cfg, from, s, d, now);
      var batch := BatchInTheWay(cfg, s, OpenBefore(from, d), d, now);
      run := Rounds(cfg, s, batch, d, now, n);
      return;
    }
    var i :| i in todo;
    var e := AdminRetry(i, now);
    KeysAgree(cfg, s);
    RetryOne(cfg, from, s, d, todo, now, i);
    hide Preparing;
    run := RetryThenRounds(cfg, from, Apply(cfg, s, e), d, todo - {i}, now, n);
    OneMoreStep(cfg, s, e, run, d, n);
    run := [e] + run;
  }

  lemma PreparedIsInTheWay(cfg: Config, from: State, s: State, d: DeliveryId, now: Time)
    requires d in from.rows && Preparing(cfg, from, s, d, {}, now)
    ensures Inv(cfg, s) && d in s.rows && IsDue(s.rows[d], now)
    ensures OpenBefore(from, d) <= s.rows.Keys && d !in OpenBefore(from, d)
    ensures forall i :: i in OpenBefore(from, d) ==>
      IsDue(s.rows[i], now) && s.rows[i].eventSeq <= s.rows[d].eventSeq
  {
    hide Inv, IsDue;
    forall i | i in OpenBefore(from, d)
      ensures i in s.rows && IsDue(s.rows[i], now) && s.rows[i].eventSeq <= s.rows[d].eventSeq
    {
      assert OnTheWay(from, s, {}, now, i);
    }
  }

  lemma ReclaimedTwice(cfg: Config, s: State, i: DeliveryId, now: Time, todo: set<DeliveryId>)
    requires s.rows.Keys == s.ledger.Keys && i in s.rows && RowOk(s.rows[i]) && Settled(s.rows[i], now)
    requires IsOpen(s.rows[i]) && (i in todo || s.rows[i].status == Pending)
    ensures var mid := Apply(cfg, s, ReclaimTerminal(now));
      && mid.rows.Keys == mid.ledger.Keys && i in mid.rows
      && OnTheWay(s, Apply(cfg, mid, ReclaimRetry(now)), todo, now, i)
  {
    hide LedgerAfter;
    ReclaimedRow(cfg, s.rows[i], now);
  }

  /** Both reclaims, with a cut-off after every lock, leave the open rows due or dead-lettered. */
  lemma ReclaimBoth(cfg: Config, s: State, d: DeliveryId, now: Time)
    requires Inv(cfg, s) && d in s.rows && s.rows[d].status == Pending
    requires forall i :: i in s.rows ==> Settled(s.rows[i], now)
    ensures var mid := Apply(cfg, s, ReclaimTerminal(now));
      && Inv(cfg, mid) && d in mid.rows
      && Preparing(cfg, s, Apply(cfg, mid, ReclaimRetry(now)), d, OpenBefore(s, d), now)
  {
    var a, b := ReclaimTerminal(now), ReclaimRetry(now);
    var mid := Apply(cfg, s, a);
    KeysAgree(cfg, s);
    assert forall i :: i in s.rows ==> RowOk(s.rows[i]);
    assert Enabled(cfg, s, a) && Enabled(cfg, mid, b);
    hide Inv, Apply, Enabled, OpenBefore, OnTheWay, RowOk, Settled;
    Step(cfg, s, a);
    Step(cfg, mid, b);
    ReclaimedTwice(cfg, s, d, now, {});
    forall i | i in OpenBefore(s, d) ensures OnTheWay(s, Apply(cfg, mid, b), OpenBefore(s, d), now, i) {
      OpenIsThere(s, d, i);
      ReclaimedTwice(cfg, s, i, now, OpenBefore(s, d));
    }
  }

  lemma BatchStarves(cfg: Config, s: State, d: DeliveryId, n: nat) returns (run: seq<Event>)
    requires Inv(cfg, s) && d in s.rows && s.rows[d].status == Pending && |OpenBefore(s, d)| >= cfg.batchSize
    ensures PassesTimes(cfg, s, run, d, n)
  {
    var now := Horizon(s.rows, s.rows.Keys);
    var a, b := ReclaimTerminal(now), ReclaimRetry(now);
    var mid := Apply(cfg, s, a);
    ReclaimBoth(cfg, s, d, now);
    KeysAgree(cfg, s);
    KeysAgree(cfg, mid);
    hide Inv, Apply, OpenBefore, PassesTimes, Preparing;
    run := RetryThenRounds(cfg, s, Apply(cfg, mid, b), d, OpenBefore(s, d), now, n);
    OneMoreStep(cfg, mid, b, run, d, n);
    OneMoreStep(cfg, s, a, [b] + run, d, n);
    run := [a] + ([b] + run);
  }

  // ---------------------------------------------------------------- the exact condition

  /**
   * A pending delivery can be passed over any number of times, and indeed at all, exactly when the open
   * rows of no later sequence make a batch. With fewer it is taken by the first claim that finds it due
   * and unlocked, however often anything is deferred, fails or is retried.
   */
  lemma StarvesIffABatchIsOpen(cfg: Config, s: State, d: DeliveryId)
    requires Inv(cfg, s) && d in s.rows && s.rows[d].status == Pending
    ensures CanBePassedOver(cfg, s, d, 1) <==> |OpenBefore(s, d)| >= cfg.batchSize
    ensures (forall n: nat :: CanBePassedOver(cfg, s, d, n)) <==> |OpenBefore(s, d)| >= cfg.batchSize
  {
    hide Inv, OpenBefore;
    if |OpenBefore(s, d)| >= cfg.batchSize {
      forall n: nat ensures CanBePassedOver(cfg, s, d, n) { var run := BatchStarves(cfg, s, d, n); }
    } else if CanBePassedOver(cfg, s, d, 1) {
      var run :| IsRun(cfg, s, run) && EnqueuesAfter(run, s.rows[d].eventSeq) && PassedOver(cfg, s, run, d) >= 1;
      NeverPassedOver(cfg, s, run, d);
    }
  }
}
