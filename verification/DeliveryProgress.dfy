/**
 * How long a due delivery can be passed over by claims. Claims take due rows in the order of their event
 * sequence; a delivery is passed over only when a full batch of rows stands before it.
 */
module DeliveryProgress {
  import opened DeliveryProtocol

  /** The pending rows that may be claimed before this delivery. */
  ghost function Ahead(s: State, d: DeliveryId): set<DeliveryId>
    requires d in s.rows
  {
    set i | i in s.rows && i != d && s.rows[i].status == Pending && s.rows[i].eventSeq <= s.rows[d].eventSeq
  }

  /** A claim that could have taken the delivery and did not. */
  ghost predicate PassesOver(s: State, e: Event, d: DeliveryId)
    requires d in s.rows
  {
    e.Claim? && d !in e.skipped && d !in e.picked && IsDue(s.rows[d], e.now)
  }

  /** How many claims of the run pass the delivery over. */
  ghost function PassedOver(cfg: Config, s: State, run: seq<Event>, d: DeliveryId): nat
    requires IsRun(cfg, s, run) && d in s.rows
    decreases |run|
  {
    if run == [] then 0
    else
      Kept(cfg, s, run[0], d);
      (if PassesOver(s, run[0], d) then 1 else 0) + PassedOver(cfg, Apply(cfg, s, run[0]), run[1..], d)
  }

  /**
   * How often, in the run, a row comes to stand before the delivery: enqueued, deferred, failed,
   * reclaimed or retried.
   */
  ghost function CameAhead(cfg: Config, s: State, run: seq<Event>, d: DeliveryId): nat
    requires IsRun(cfg, s, run) && d in s.rows
    decreases |run|
  {
    if run == [] then 0
    else
      Kept(cfg, s, run[0], d);
      var t := Apply(cfg, s, run[0]);
      |Ahead(t, d) - Ahead(s, d)| + CameAhead(cfg, t, run[1..], d)
  }

  lemma Kept(cfg: Config, s: State, e: Event, d: DeliveryId)
    requires s.rows.Keys == s.ledger.Keys && Enabled(cfg, s, e) && d in s.rows
    ensures d in Apply(cfg, s, e).rows && Apply(cfg, s, e).rows[d].eventSeq == s.rows[d].eventSeq
  {
  }

  /** Passing the delivery over takes a full batch away from before it. */
  lemma PassingOverClears(cfg: Config, s: State, e: Event, d: DeliveryId)
    requires s.rows.Keys == s.ledger.Keys && Enabled(cfg, s, e) && d in s.rows && PassesOver(s, e, d)
    ensures d in Apply(cfg, s, e).rows && Ahead(Apply(cfg, s, e), d) == Ahead(s, d) - e.picked
    ensures |e.picked| == cfg.batchSize && e.picked <= Ahead(s, d)
  {
    Kept(cfg, s, e, d);
  }

  lemma Shrinks<T>(a: set<T>, b: set<T>)
    requires b <= a
    ensures |a - b| == |a| - |b|
  {
    assert a == (a - b) + b;
  }

  lemma Grows<T>(a: set<T>, b: set<T>)
    ensures |b| <= |a| + |b - a|
  {
    assert b == (b * a) + (b - a);
    Shrinks(a, b * a);
  }

  /** The rows of that many full batches. */
  function Batches(cfg: Config, n: nat): nat { cfg.batchSize * n }

  lemma StepBalance(cfg: Config, s: State, e: Event, d: DeliveryId)
    requires s.rows.Keys == s.ledger.Keys && Enabled(cfg, s, e) && d in s.rows
    ensures d in Apply(cfg, s, e).rows
    ensures (if PassesOver(s, e, d) then cfg.batchSize else 0) + |Ahead(Apply(cfg, s, e), d)|
      <= |Ahead(s, d)| + |Ahead(Apply(cfg, s, e), d) - Ahead(s, d)|
  {
    Kept(cfg, s, e, d);
    hide Apply, Enabled, Ahead;
    if PassesOver(s, e, d) {
      PassingOverClears(cfg, s, e, d);
      Shrinks(Ahead(s, d), e.picked);
    } else {
      Grows(Ahead(s, d), Ahead(Apply(cfg, s, e), d));
    }
  }

  /**
   * In every run, a delivery is passed over at most once for every full batch of rows that stood or came to
   * stand before it.
   */
  lemma {:induction false} PassingOverIsBounded(cfg: Config, s: State, run: seq<Event>, d: DeliveryId)
    requires IsRun(cfg, s, run) && d in s.rows
    ensures Batches(cfg, PassedOver(cfg, s, run, d)) <= |Ahead(s, d)| + CameAhead(cfg, s, run, d)
    decreases |run|
  {
    if run != [] {
      var e, t, rest := run[0], Apply(cfg, s, run[0]), run[1..];
      StepBalance(cfg, s, e, d);
      hide Apply, Enabled, Ahead, PassesOver, Batches;
      PassingOverIsBounded(cfg, t, rest, d);
      var passed, came := PassedOver(cfg, t, rest, d), CameAhead(cfg, t, rest, d);
      Balance(cfg, PassesOver(s, e, d), passed, |Ahead(s, d)|, |Ahead(t, d)|, |Ahead(t, d) - Ahead(s, d)|, came);
    } else {
      assert Batches(cfg, 0) == 0;
    }
  }

  lemma Balance(cfg: Config, passes: bool, passed: nat, before: nat, after: nat, gap: nat, came: nat)
    requires (if passes then cfg.batchSize else 0) + after <= before + gap && Batches(cfg, passed) <= after + came
    ensures Batches(cfg, (if passes then 1 else 0) + passed) <= before + (gap + came)
  {
  }

  /**
   * If no row comes to stand before it, a delivery is passed over no more often than the rows before it
   * make batches.
   */
  lemma ClaimedInTurn(cfg: Config, s: State, run: seq<Event>, d: DeliveryId)
    requires IsRun(cfg, s, run) && d in s.rows && CameAhead(cfg, s, run, d) == 0 && cfg.batchSize > 0
    ensures PassedOver(cfg, s, run, d) <= |Ahead(s, d)| / cfg.batchSize
  {
    PassingOverIsBounded(cfg, s, run, d);
    var k := PassedOver(cfg, s, run, d);
    if k > |Ahead(s, d)| / cfg.batchSize { MoreThanBatches(cfg.batchSize, k, |Ahead(s, d)|); }
  }

  lemma MoreThanBatches(b: nat, k: nat, n: nat)
    requires b > 0 && k > n / b
    ensures b * k > n
  {
    assert n < b * (n / b + 1);
    assert b * (n / b + 1) <= b * k;
  }
}
