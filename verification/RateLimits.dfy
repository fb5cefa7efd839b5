/**
 * Fixed-window rate limiting, as the delegation package and the API-key package each have it, and the
 * outbound throttle with its circuit breaker. Time is in milliseconds and never runs backwards.
 */
module RateLimits {
  import opened Wrappers

  const WINDOW_MS: nat := 60_000

  const DEFAULT_LIMIT: int := 60

  datatype Bucket = Bucket(count: nat, windowStart: nat)

  type Buckets = map<string, Bucket>

  // ---------------------------------------------------------------- one step

  /** The call opens a new window for the key. */
  predicate Opens(b: Buckets, key: string, now: int) { key !in b || now - b[key].windowStart >= WINDOW_MS }

  function Counted(b: Buckets, key: string, now: nat): Buckets {
    b[key := if Opens(b, key, now) then Bucket(1, now) else b[key].(count := b[key].count + 1)]
  }

  function Unevicted(b: Buckets, now: int): Buckets {
    map key | key in b && now - b[key].windowStart < WINDOW_MS * 2 :: b[key]
  }

  /** Deletes what has been idle for two windows, one key at a time. */
  method EvictStale(b: Buckets, now: nat) returns (kept: Buckets)
    ensures kept == Unevicted(b, now)
  {
    kept := b;
    var left := b.Keys;
    while left != {}
      invariant left <= b.Keys && left <= kept.Keys
      invariant kept == map key | key in b && (key in left || now - b[key].windowStart < WINDOW_MS * 2) :: b[key]
      decreases |left|
    {
      var key :| key in left;
      if now - b[key].windowStart >= WINDOW_MS * 2 {
        kept := kept - {key};
      }
      left := left - {key};
    }
  }

  function CeilSeconds(ms: int): int { (ms + 999) / 1000 }

  /**
   * None when the call is admitted, otherwise the seconds to wait. A call that opens a window is
   * admitted whatever the limit.
   */
  function RetryAfter(b: Buckets, key: string, limitPerMin: Option<int>, now: nat): Option<int> {
    var limit := if limitPerMin.Some? then limitPerMin.value else DEFAULT_LIMIT;
    if Allowed(limit, b, Consume(key, now)) then None else Some(CeilSeconds(WINDOW_MS - (now - b[key].windowStart)))
  }

  class RollingWindowRateLimiter {
    const limitPerMinute: int
    var buckets: Buckets

    constructor (limit: int)
      requires limit > 0
      ensures limitPerMinute == limit && buckets == map[]
    {
      limitPerMinute := limit;
      buckets := map[];
    }

    /** Refuses a limit that is not positive. */
    static method Create(limit: int) returns (r: Option<RollingWindowRateLimiter>)
      ensures r.Some? <==> limit > 0
      ensures r.Some? ==> fresh(r.value) && r.value.limitPerMinute == limit && r.value.buckets == map[]
    {
      if limit <= 0 { return None; }
      var limiter := new RollingWindowRateLimiter(limit);
      return Some(limiter);
    }

    method TryConsume(key: string, now: nat) returns (allowed: bool)
      requires limitPerMinute > 0
      modifies this
      ensures buckets == Counted(old(buckets), key, now)
      ensures allowed == Allowed(limitPerMinute, old(buckets), Consume(key, now))
    {
      if key !in buckets || now - buckets[key].windowStart >= WINDOW_MS {
        buckets := buckets[key := Bucket(1, now)];
        return 1 <= limitPerMinute;
      }
      var bucket := buckets[key];
      bucket := bucket.(count := bucket.count + 1);
      buckets := buckets[key := bucket];
      return bucket.count <= limitPerMinute;
    }

    method Evict(now: nat)
      modifies this
      ensures buckets == Unevicted(old(buckets), now)
    {
      buckets := EvictStale(buckets, now);
    }
  }

  class ApiKeyRateLimiter {
    var buckets: Buckets

    constructor ()
      ensures buckets == map[]
    {
      buckets := map[];
    }

    method Check(keyId: string, limitPerMin: Option<int>, now: nat) returns (retryAfter: Option<int>)
      modifies this
      ensures buckets == Counted(old(buckets), keyId, now)
      ensures retryAfter == RetryAfter(old(buckets), keyId, limitPerMin, now)
    {
      var limit := if limitPerMin.Some? then limitPerMin.value else DEFAULT_LIMIT;
      if keyId !in buckets || now - buckets[keyId].windowStart >= WINDOW_MS {
        buckets := buckets[keyId := Bucket(1, now)];
        return None;
      }
      var bucket := buckets[keyId];
      bucket := bucket.(count := bucket.count + 1);
      buckets := buckets[keyId := bucket];
      if bucket.count > limit {
        return Some(CeilSeconds(WINDOW_MS - (now - bucket.windowStart)));
      }
      return None;
    }

    method Evict(now: nat)
      modifies this
      ensures buckets == Unevicted(old(buckets), now)
    {
      buckets := EvictStale(buckets, now);
    }
  }

  // ---------------------------------------------------------------- runs

  datatype Event = Consume(key: string, at: nat) | Evict(at: nat)

  function Step(b: Buckets, e: Event): Buckets {
    match e
    case Consume(key, at) => Counted(b, key, at)
    case Evict(at) => Unevicted(b, at)
  }

  function After(run: seq<Event>): Buckets {
    if run == [] then map[] else Step(After(run[..|run| - 1]), run[|run| - 1])
  }

  predicate Monotone(run: seq<Event>) { forall i, j :: 0 <= i < j < |run| ==> run[i].at <= run[j].at }

  predicate Allowed(limit: int, b: Buckets, e: Event) {
    e.Consume? && (Opens(b, e.key, e.at) || b[e.key].count + 1 <= limit)
  }

  /** How many calls for the key are admitted in the minute from `from` on. */
  function Admitted(limit: int, run: seq<Event>, key: string, from: int): nat {
    if run == [] then 0 else
      var n := |run| - 1;
      var e := run[n];
      Admitted(limit, run[..n], key, from)
        + if e.Consume? && e.key == key && from <= e.at < from + WINDOW_MS &&
          Allowed(limit, After(run[..n]), e) then 1 else 0
  }

  function Min(a: int, b: int): int { if a <= b then a else b }

  /** What the bucket of the key says about the calls admitted in the minute from `from` on. */
  ghost predicate Bounded(limit: int, run: seq<Event>, key: string, from: int, now: int) {
    var b, a := After(run), Admitted(limit, run, key, from);
    a <= 2 * limit - 1 &&
    if key !in b then a == 0 || now >= from + WINDOW_MS
    else
      var s, c := b[key].windowStart, b[key].count;
      && 1 <= c && s <= now
      && (s + WINDOW_MS <= from ==> a == 0)
      && (s < from ==> a <= Min(c, limit) - 1)
      && (from <= s < from + WINDOW_MS ==> a <= limit - 1 + Min(c, limit))
  }

  ghost function Clock(run: seq<Event>): int { if run == [] then 0 else run[|run| - 1].at }

  lemma {:induction false} KeepsBounded(limit: int, run: seq<Event>, key: string, from: int)
    requires limit > 0 && Monotone(run)
    ensures Bounded(limit, run, key, from, Clock(run))
  {
    if run != [] {
      var n := |run| - 1;
      KeepsBounded(limit, run[..n], key, from);
      assert n > 0 ==> run[n - 1].at <= run[n].at;
      StepBounded(limit, run, key, from);
    }
  }

  lemma StepBounded(limit: int, run: seq<Event>, key: string, from: int)
    requires limit > 0 && run != [] && Bounded(limit, run[..|run| - 1], key, from, Clock(run[..|run| - 1]))
    requires Clock(run[..|run| - 1]) <= run[|run| - 1].at
    ensures Bounded(limit, run, key, from, run[|run| - 1].at)
  {
    var n := |run| - 1;
    var b, e := After(run[..n]), run[n];
    assert After(run) == Step(b, e);
  }

  /** In no half-open minute are more than twice the limit less one calls for a key admitted. */
  lemma AtMostTwiceTheLimit(limit: int, run: seq<Event>, key: string, from: int)
    requires limit > 0 && Monotone(run)
    ensures Admitted(limit, run, key, from) <= 2 * limit - 1
  {
    KeepsBounded(limit, run, key, from);
  }

  function Repeat(e: Event, n: nat): seq<Event> { seq(n, _ => e) }

  /** `limit` calls just before a window ends and `limit` at the start of the next. */
  function Burst(limit: nat, key: string): seq<Event>
    requires limit > 0
  {
    [Consume(key, 0)] + Repeat(Consume(key, WINDOW_MS - 1), limit - 1) + Repeat(Consume(key, WINDOW_MS), limit)
  }

  lemma OneMore(limit: int, run: seq<Event>, e: Event, key: string, from: int)
    ensures After(run + [e]) == Step(After(run), e)
    ensures Admitted(limit, run + [e], key, from) == Admitted(limit, run, key, from)
      + if e.Consume? && e.key == key && from <= e.at < from + WINDOW_MS && Allowed(limit, After(run), e) then 1 else 0
  {
    assert (run + [e])[..|run|] == run;
  }

  lemma RepeatMore(run: seq<Event>, e: Event, n: nat)
    requires n > 0
    ensures run + Repeat(e, n) == run + Repeat(e, n - 1) + [e]
  {
  }

  /** Calls that fall into the open window of the key, and within the limit, are admitted. */
  lemma {:induction false} CallsInOneWindow(limit: nat, run: seq<Event>, key: string, b: Bucket, at: nat, n: nat,
                                            from: int)
    requires key in After(run) && After(run)[key] == b && b.windowStart <= at < b.windowStart + WINDOW_MS
    requires from <= at < from + WINDOW_MS && b.count + n <= limit
    ensures var t := After(run + Repeat(Consume(key, at), n)); key in t && t[key] == b.(count := b.count + n)
    ensures Admitted(limit, run + Repeat(Consume(key, at), n), key, from) == Admitted(limit, run, key, from) + n
  {
    var e := Consume(key, at);
    if n == 0 {
      assert run + Repeat(e, 0) == run;
    } else {
      hide After, Admitted, Repeat, Step, Allowed;
      CallsInOneWindow(limit, run, key, b, at, n - 1, from);
      RepeatMore(run, e, n);
      NextCall(limit, run + Repeat(e, n - 1), key, b.(count := b.count + (n - 1)), at, from);
    }
  }

  lemma NextCall(limit: nat, run: seq<Event>, key: string, b: Bucket, at: nat, from: int)
    requires key in After(run) && After(run)[key] == b && at < b.windowStart + WINDOW_MS && b.count < limit
    requires from <= at < from + WINDOW_MS
    ensures var t := After(run + [Consume(key, at)]); key in t && t[key] == b.(count := b.count + 1)
    ensures Admitted(limit, run + [Consume(key, at)], key, from) == Admitted(limit, run, key, from) + 1
  {
    hide After, Admitted, Step, Allowed;
    OneMore(limit, run, Consume(key, at), key, from);
    CountsOn(limit, After(run), key, at);
  }

  lemma CountsOn(limit: int, b: Buckets, key: string, at: nat)
    requires key in b && at < b[key].windowStart + WINDOW_MS && b[key].count < limit
    ensures Allowed(limit, b, Consume(key, at))
    ensures var t := Step(b, Consume(key, at)); key in t && t[key] == b[key].(count := b[key].count + 1)
  {
  }

  /** The bound is reached for every limit. */
  lemma TwiceTheLimitIsReached(limit: nat, key: string)
    requires limit > 0
    ensures Monotone(Burst(limit, key)) && Admitted(limit, Burst(limit, key), key, 1) == 2 * limit - 1
  {
    assert Monotone(Burst(limit, key));
    var first := [Consume(key, 0)];
    assert After([]) == map[] && Admitted(limit, [], key, 1) == 0;
    var before := first + Repeat(Consume(key, WINDOW_MS - 1), limit - 1);
    var next := before + [Consume(key, WINDOW_MS)];
    assert next + Repeat(Consume(key, WINDOW_MS), limit - 1) == Burst(limit, key);
    hide After, Admitted, Repeat, Burst, Monotone;
    OneMore(limit, [], Consume(key, 0), key, 1);
    assert [] + first == first;
    CallsInOneWindow(limit, first, key, Bucket(1, 0), WINDOW_MS - 1, limit - 1, 1);
    OneMore(limit, before, Consume(key, WINDOW_MS), key, 1);
    CallsInOneWindow(limit, next, key, Bucket(1, WINDOW_MS), WINDOW_MS, limit - 1, 1);
  }

  // ---------------------------------------------------------------- eviction

  /** Two limiters that will answer alike from `now` on: they differ only in expired buckets. */
  ghost predicate Alike(a: Buckets, b: Buckets, now: int) {
    forall key :: (key in a && key in b && a[key] == b[key]) || (Opens(a, key, now) && Opens(b, key, now))
  }

  function WithoutEvictions(run: seq<Event>): seq<Event> {
    if run == [] then [] else
      WithoutEvictions(run[..|run| - 1]) + if run[|run| - 1].Evict? then [] else [run[|run| - 1]]
  }

  /** The answers of the calls of a run, in order. */
  function Answers(limit: int, run: seq<Event>): seq<bool> {
    if run == [] then [] else
      Answers(limit, run[..|run| - 1]) + if run[|run| - 1].Evict? then []
        else [Allowed(limit, After(run[..|run| - 1]), run[|run| - 1])]
  }

  lemma AlikeStep(a: Buckets, b: Buckets, e: Event, now: int)
    requires Alike(a, b, now) && now <= e.at
    ensures e.Consume? ==>
      Alike(Step(a, e), Step(b, e), e.at) && forall limit :: Allowed(limit, a, e) == Allowed(limit, b, e)
    ensures e.Evict? ==> Alike(Step(a, e), b, e.at)
  {
  }

  /** Evictions, wherever they fall, change no answer. */
  lemma {:induction false} EvictionIsInvisible(limit: int, run: seq<Event>)
    requires Monotone(run)
    ensures Answers(limit, run) == Answers(limit, WithoutEvictions(run))
    ensures Alike(After(run), After(WithoutEvictions(run)), Clock(run))
  {
    if run != [] {
      var n := |run| - 1;
      assert n > 0 ==> run[n - 1].at <= run[n].at;
      EvictionIsInvisible(limit, run[..n]);
      var plain, e := WithoutEvictions(run[..n]), run[n];
      AlikeStep(After(run[..n]), After(plain), e, Clock(run[..n]));
      if e.Consume? { assert (plain + [e])[..|plain|] == plain; } else { assert plain + [] == plain; }
    }
  }

  // ---------------------------------------------------------------- retrying

  function AfterFrom(b: Buckets, run: seq<Event>): Buckets {
    if run == [] then b else Step(AfterFrom(b, run[..|run| - 1]), run[|run| - 1])
  }

  /**
   * A refused caller is told to wait from one to sixty seconds: exactly the least whole number of
   * seconds after which the window has passed.
   */
  lemma RetryAfterIsLeast(b: Buckets, key: string, limitPerMin: Option<int>, now: nat)
    requires key in b ==> b[key].windowStart <= now
    requires RetryAfter(b, key, limitPerMin, now).Some?
    ensures var r := RetryAfter(b, key, limitPerMin, now).value;
      && 1 <= r <= 60
      && (forall wait: nat :: RetryAfter(Counted(b, key, now), key, limitPerMin, now + 1000 * wait).None? <==>
        wait >= r)
  {
  }

  /** Other calls, for other keys, and evictions in between do not matter. */
  lemma {:induction false} RetryIsAdmitted(b: Buckets, key: string, limitPerMin: Option<int>, now: nat, run: seq<Event>,
                                           later: nat, next: Option<int>)
    requires key in b ==> b[key].windowStart <= now
    requires RetryAfter(b, key, limitPerMin, now).Some? &&
      later >= now + 1000 * RetryAfter(b, key, limitPerMin, now).value
    requires forall i :: 0 <= i < |run| ==> run[i].Consume? ==> run[i].key != key
    ensures var t := AfterFrom(Counted(b, key, now), run);
      (key in t ==> t[key] == Counted(b, key, now)[key]) && RetryAfter(t, key, next, later).None?
  {
    RetryAfterIsLeast(b, key, limitPerMin, now);
    if run != [] {
      RetryIsAdmitted(b, key, limitPerMin, now, run[..|run| - 1], later, next);
    }
  }
}
