/**
 * Two loggers of rejected requests that write at most twenty lines per source and window one by one
 * and sum up the rest: the one of the delegated login, and the one of the delegation client.
 */
module EventLogs {
  const MAX_EVENTS: nat := 20

  datatype Line<S> = Single(source: S) | Summary(source: S, suppressed: nat)

  /** The lines written one by one for a source. */
  function Singles<S(==)>(lines: seq<Line<S>>, source: S): nat {
    if lines == [] then 0 else
      Singles(lines[..|lines| - 1], source) + if lines[|lines| - 1] == Single(source) then 1 else 0
  }

  /** What the summary lines of a source add up to. */
  function Summed<S(==)>(lines: seq<Line<S>>, source: S): nat {
    if lines == [] then 0 else
      var last := lines[|lines| - 1];
      Summed(lines[..|lines| - 1], source) + if last.Summary? && last.source == source then last.suppressed else 0
  }

  lemma OneMoreLine<S>(lines: seq<Line<S>>, line: Line<S>, source: S)
    ensures Singles(lines + [line], source) == Singles(lines, source) + if line == Single(source) then 1 else 0
    ensures Summed(lines + [line], source) == Summed(lines, source) + if line.Summary? &&
      line.source == source then line.suppressed else 0
  {
    assert (lines + [line])[..|lines|] == lines;
  }
}

/** The logger of the delegated login, whose sources are a profile and a category of error. */
module DelegatedLog {
  import opened RateLimits
  import opened EventLogs

  datatype Category = IdentityMappingFailed | TokenRejected | InternalError {
    function Name(): (s: string)
      ensures ':' !in s
    {
      match this
      case IdentityMappingFailed => "identity_mapping_failed"
      case TokenRejected => "token_rejected"
      case InternalError => "internal_error"
    }
  }

  datatype Fault = IdentityMapping | Unauthorized | Other

  function Categorize(error: Fault): Category {
    match error
    case IdentityMapping => IdentityMappingFailed
    case Unauthorized => TokenRejected
    case Other => InternalError
  }

  datatype Source = Source(profile: string, category: string)

  datatype LogBucket = LogBucket(count: nat, suppressed: nat, windowStart: nat)

  datatype State = State(buckets: map<string, LogBucket>, lines: seq<Line<Source>>)

  function KeyOf(profile: string, category: string): string { profile + [':'] + category }

  function LastColon(key: string): (i: int)
    ensures -1 <= i < |key| && (i >= 0 ==> key[i] == ':') && forall k :: i < k < |key| ==> key[k] != ':'
  {
    if key == "" then -1 else if key[|key| - 1] == ':' then |key| - 1 else LastColon(key[..|key| - 1])
  }

  /** Splits a key at its last colon, as the flushes do. */
  function SourceOf(key: string): Source {
    var i := LastColon(key);
    if i < 0 then Source(key[..if |key| > 0 then |key| - 1 else 0], key) else Source(key[..i], key[i + 1..])
  }

  lemma KeySplits(profile: string, category: string)
    requires ':' !in category
    ensures SourceOf(KeyOf(profile, category)) == Source(profile, category)
  {
    var key := KeyOf(profile, category);
    assert key[|profile|] == ':';
    forall k | |profile| < k < |key| ensures key[k] != ':' { assert key[k] == category[k - |profile| - 1]; }
    assert key[..|profile|] == profile && key[|profile| + 1..] == category;
  }

  // ---------------------------------------------------------------- one step

  predicate Expired(b: LogBucket, now: int) { now - b.windowStart >= WINDOW_MS }

  predicate Fresh(buckets: map<string, LogBucket>, key: string, now: int) {
    key !in buckets || Expired(buckets[key], now)
  }

  function Summaries(buckets: map<string, LogBucket>, key: string): seq<Line<Source>> {
    if key in buckets && buckets[key].suppressed > 0 then [Summary(SourceOf(key), buckets[key].suppressed)] else []
  }

  /** One rejection: a summary of the window that is over, if it suppressed any, then a line or a count. */
  function Recorded(s: State, profile: string, category: Category, now: nat): State {
    var key := KeyOf(profile, category.Name());
    var rolled := Fresh(s.buckets, key, now);
    var bucket := if rolled then LogBucket(0, 0, now) else s.buckets[key];
    var lines := s.lines + if rolled then Summaries(s.buckets, key) else [];
    if bucket.count < MAX_EVENTS then
      State(s.buckets[key := bucket.(count := bucket.count + 1)], lines + [Single(Source(profile, category.Name()))])
    else
      State(s.buckets[key := bucket.(suppressed := bucket.suppressed + 1)], lines)
  }

  /** The keys are ones that a rejection can have made, and no count passes the maximum. */
  ghost predicate Valid(s: State) {
    forall key :: key in s.buckets ==>
      s.buckets[key].count <= MAX_EVENTS && KeyOf(SourceOf(key).profile, SourceOf(key).category) == key
  }

  ghost function Pending(buckets: map<string, LogBucket>, source: Source): nat {
    var key := KeyOf(source.profile, source.category);
    if key in buckets && SourceOf(key) == source then buckets[key].suppressed else 0
  }

  /** The flush drops the buckets of these keys and has written out what they suppressed. */
  ghost predicate Flushed(s: State, t: State, keys: set<string>) {
    && t.buckets == s.buckets - keys
    && forall source :: Singles(t.lines, source) == Singles(s.lines, source)
         && Summed(t.lines, source) + Pending(t.buckets, source) == Summed(s.lines, source) + Pending(s.buckets, source)
  }

  ghost function ExpiredKeys(buckets: map<string, LogBucket>, now: int): set<string> {
    set key | key in buckets && Expired(buckets[key], now)
  }

  class DelegatedSecurityEventLogger {
    var buckets: map<string, LogBucket>
    var lines: seq<Line<Source>>

    ghost function Contents(): State
      reads this
    {
      State(buckets, lines)
    }

    constructor ()
      ensures Contents() == State(map[], [])
    {
      buckets, lines := map[], [];
    }

    method RecordRejection(profile: string, error: Fault, now: nat)
      modifies this
      ensures Contents() == Recorded(old(Contents()), profile, Categorize(error), now)
      ensures |lines| > |old(lines)| && lines[|lines| - 1].Single? ==>
        lines[|lines| - 1].source == Source(profile, if error == IdentityMapping then "identity_mapping_failed"
          else if error == Unauthorized then "token_rejected" else "internal_error")
    {
      var category := Categorize(error);
      var key := KeyOf(profile, category.Name());
      if key !in buckets || now - buckets[key].windowStart >= WINDOW_MS {
        KeySplits(profile, category.Name());
        if key in buckets && buckets[key].suppressed > 0 {
          LogSummary(profile, category.Name(), buckets[key].suppressed);
        }
        buckets := buckets[key := LogBucket(0, 0, now)];
      }
      var bucket := buckets[key];
      if bucket.count < MAX_EVENTS {
        buckets := buckets[key := bucket.(count := bucket.count + 1)];
        lines := lines + [Single(Source(profile, category.Name()))];
        return;
      }
      buckets := buckets[key := bucket.(suppressed := bucket.suppressed + 1)];
    }

    method LogSummary(profile: string, category: string, suppressed: nat)
      modifies this`lines
      ensures lines == old(lines) + [Summary(Source(profile, category), suppressed)]
    {
      lines := lines + [Summary(Source(profile, category), suppressed)];
    }

    method OnModuleDestroy()
      requires Valid(Contents())
      modifies this
      ensures Flushed(old(Contents()), Contents(), old(buckets).Keys) && buckets == map[]
    {
      FlushAll();
    }

    method SummarizeBucket(key: string)
      requires key in buckets
      modifies this`lines
      ensures lines == old(lines) + Summaries(buckets, key)
    {
      if buckets[key].suppressed > 0 {
        LogSummary(SourceOf(key).profile, SourceOf(key).category, buckets[key].suppressed);
      }
    }

    /** Sums up a bucket and drops it. */
    method FlushBucket(key: string)
      requires key in buckets && Valid(Contents())
      modifies this
      ensures Flushed(old(Contents()), Contents(), {key}) && Valid(Contents()) && buckets == old(buckets) - {key}
    {
      hide Flushed, Valid, Summaries;
      ghost var s := Contents();
      SummarizeBucket(key);
      buckets := buckets - {key};
      DropOne(s, Contents(), key);
    }

    method FlushExpired(now: nat)
      requires Valid(Contents())
      modifies this
      ensures Flushed(old(Contents()), Contents(), ExpiredKeys(old(buckets), now))
    {
      hide Flushed, Valid, Summaries;
      var left := buckets.Keys;
      ghost var was := Contents();
      FlushNothing(was);
      ghost var gone: set<string> := {};
      while left != {}
        invariant left <= was.buckets.Keys && gone == ExpiredKeys(was.buckets, now) - left
        invariant forall key :: key in left ==> key in buckets && buckets[key] == was.buckets[key]
        invariant Flushed(was, Contents(), gone) && Valid(Contents())
        decreases |left|
      {
        var key :| key in left;
        if now - buckets[key].windowStart >= WINDOW_MS {
          ghost var s := Contents();
          FlushBucket(key);
          FlushOneMore(was, s, Contents(), gone, key);
          gone := gone + {key};
        }
        left := left - {key};
      }
      assert gone == ExpiredKeys(was.buckets, now);
    }

    method FlushAll()
      requires Valid(Contents())
      modifies this
      ensures Flushed(old(Contents()), Contents(), old(buckets).Keys) && buckets == map[]
    {
      hide Flushed, Valid, Summaries;
      var left := buckets.Keys;
      ghost var was := Contents();
      FlushNothing(was);
      // The buckets not yet summed up: the map itself is cleared at the end.
      ghost var s := was;
      while left != {}
        invariant left <= buckets.Keys && buckets == was.buckets
        invariant s == State(was.buckets - (was.buckets.Keys - left), lines)
        invariant Flushed(was, s, was.buckets.Keys - left) && Valid(s)
        decreases |left|
      {
        var key :| key in left;
        SummarizeBucket(key);
        ghost var t := State(s.buckets - {key}, lines);
        SameSummaries(s.buckets, buckets, key);
        DropOne(s, t, key);
        FlushOneMore(was, s, t, was.buckets.Keys - left, key);
        assert was.buckets.Keys - left + {key} == was.buckets.Keys - (left - {key});
        s := t;
        left := left - {key};
      }
      buckets := map[];
      assert s.buckets == map[];
      assert was.buckets.Keys - left == was.buckets.Keys;
    }
  }

  lemma SameSummaries(a: map<string, LogBucket>, b: map<string, LogBucket>, key: string)
    requires key in a && key in b && a[key] == b[key]
    ensures Summaries(a, key) == Summaries(b, key)
  {
  }

  lemma FlushNothing(s: State)
    ensures Flushed(s, s, {}) && s.buckets - {} == s.buckets
  {
    assert s.buckets - {} == s.buckets;
  }

  lemma DropOne(s: State, t: State, key: string)
    requires Valid(s) && key in s.buckets && t == State(s.buckets - {key}, s.lines + Summaries(s.buckets, key))
    ensures Flushed(s, t, {key}) && Valid(t)
  {
    forall source ensures Singles(t.lines, source) == Singles(s.lines, source)
      && Summed(t.lines, source) + Pending(t.buckets, source) == Summed(s.lines, source) + Pending(s.buckets, source) {
      if s.buckets[key].suppressed > 0 {
        OneMoreLine(s.lines, Summary(SourceOf(key), s.buckets[key].suppressed), source);
      } else {
        assert t.lines == s.lines;
      }
    }
  }

  lemma FlushOneMore(was: State, s: State, t: State, keys: set<string>, key: string)
    requires Flushed(was, s, keys) && Flushed(s, t, {key})
    ensures Flushed(was, t, keys + {key})
  {
    assert was.buckets - keys - {key} == was.buckets - (keys + {key});
  }

  // ---------------------------------------------------------------- whole runs

  datatype Event = Record(profile: string, error: Fault, at: nat) | Sweep(at: nat) | Destroy(at: nat)

  ghost predicate Follows(s: State, e: Event, t: State) {
    match e
    case Record(profile, error, at) => t == Recorded(s, profile, Categorize(error), at)
    case Sweep(at) => Flushed(s, t, ExpiredKeys(s.buckets, at))
    case Destroy(_) => Flushed(s, t, s.buckets.Keys)
  }

  /** The states a run goes through, from an empty logger. */
  ghost predicate IsTrace(states: seq<State>, run: seq<Event>) {
    |states| == |run| + 1 && states[0] == State(map[], []) && forall i :: 0 <= i < |run| ==>
      Follows(states[i], run[i], states[i + 1])
  }

  ghost predicate Concerns(e: Event, source: Source) {
    e.Record? && Source(e.profile, Categorize(e.error).Name()) == source
  }

  ghost function RecordedIn(run: seq<Event>, source: Source): nat {
    if run == [] then 0 else RecordedIn(run[..|run| - 1], source) + if Concerns(run[|run| - 1], source) then 1 else 0
  }

  ghost function Accounted(s: State, source: Source): nat {
    Singles(s.lines, source) + Summed(s.lines, source) + Pending(s.buckets, source)
  }

  lemma RecordAccounts(s: State, profile: string, category: Category, now: nat, source: Source)
    ensures Accounted(Recorded(s, profile, category, now), source) ==
      Accounted(s, source) + if Source(profile, category.Name()) == source then 1 else 0
  {
    hide Valid;
    var key, own := KeyOf(profile, category.Name()), Source(profile, category.Name());
    KeySplits(profile, category.Name());
    var t := Recorded(s, profile, category, now);
    var rolled := if Fresh(s.buckets, key, now) then Summaries(s.buckets, key) else [];
    var lines := s.lines + rolled;
    if rolled != [] { OneMoreLine(s.lines, rolled[0], source); } else { assert lines == s.lines; }
    OneMoreLine(lines, Single(own), source);
    hide Singles, Summed, SourceOf;
    PendingElsewhere(s.buckets, key, t.buckets[key], source);
  }

  lemma RecordKeepsValid(s: State, profile: string, category: Category, now: nat)
    requires Valid(s)
    ensures Valid(Recorded(s, profile, category, now))
  {
    KeySplits(profile, category.Name());
  }

  lemma PendingElsewhere(buckets: map<string, LogBucket>, key: string, bucket: LogBucket, source: Source)
    ensures SourceOf(key) != source ==> Pending(buckets[key := bucket], source) == Pending(buckets, source)
  {
  }

  lemma StepAccounts(s: State, e: Event, t: State, source: Source)
    requires Valid(s) && Follows(s, e, t)
    ensures Valid(t) && Accounted(t, source) == Accounted(s, source) + if Concerns(e, source) then 1 else 0
  {
    if e.Record? {
      RecordAccounts(s, e.profile, Categorize(e.error), e.at, source);
      RecordKeepsValid(s, e.profile, Categorize(e.error), e.at);
    }
  }

  /**
   * Nothing is lost: at every point of every run, the rejections of a source number its single lines,
   * what its summaries add up to, and what is still suppressed.
   */
  lemma {:induction false} NothingIsLost(states: seq<State>, run: seq<Event>, source: Source)
    requires IsTrace(states, run)
    ensures Valid(states[|run|]) && Accounted(states[|run|], source) == RecordedIn(run, source)
  {
    if run != [] {
      var n := |run| - 1;
      NothingIsLost(states[..n + 1], run[..n], source);
      hide Follows, Valid, Accounted, Concerns;
      StepAccounts(states[n], run[n], states[n + 1], source);
    }
  }

  /** After shutdown the log accounts for every rejection. */
  lemma ShutdownAccountsForAll(states: seq<State>, run: seq<Event>, source: Source)
    requires IsTrace(states, run) && run != [] && run[|run| - 1].Destroy?
    ensures var t := states[|run|];
      t.buckets == map[] && Singles(t.lines, source) + Summed(t.lines, source) == RecordedIn(run, source)
  {
    NothingIsLost(states, run, source);
    assert Follows(states[|run| - 1], run[|run| - 1], states[|run|]);
    var s := states[|run| - 1];
    assert s.buckets - s.buckets.Keys == map[];
  }

  // ---------------------------------------------------------------- how many single lines

  /** The rejection is logged on a line of its own. */
  predicate LoggedSingly(buckets: map<string, LogBucket>, key: string, now: nat) {
    Fresh(buckets, key, now) || buckets[key].count < MAX_EVENTS
  }

  /** That is what the predicate says: a line is added for the source of the rejection, and for no other. */
  lemma SingleLineIffLoggedSingly(s: State, profile: string, category: Category, now: nat, source: Source)
    ensures Singles(Recorded(s, profile, category, now).lines, source) == Singles(s.lines, source)
      + if source == Source(profile, category.Name()) &&
        LoggedSingly(s.buckets, KeyOf(profile, category.Name()), now) then 1 else 0
  {
    var key := KeyOf(profile, category.Name());
    var rolled := if Fresh(s.buckets, key, now) then Summaries(s.buckets, key) else [];
    var lines := s.lines + rolled;
    if rolled != [] { OneMoreLine(s.lines, rolled[0], source); } else { assert lines == s.lines; }
    OneMoreLine(lines, Single(Source(profile, category.Name())), source);
  }

  /** The same calls on a limiter of twenty a minute. */
  function Calls(run: seq<Event>): seq<RateLimits.Event> {
    seq(|run|, i requires 0 <= i < |run| =>
      match run[i]
      case Record(profile, error, at) => Consume(KeyOf(profile, Categorize(error).Name()), at)
      case Sweep(at) => Evict(at)
      case Destroy(at) => Evict(at))
  }

  /** The logger's buckets and the limiter's answer alike from `now` on. */
  ghost predicate Mirrors(l: map<string, LogBucket>, b: Buckets, now: int) {
    forall key :: (Fresh(l, key, now) && Opens(b, key, now))
      || (key in l && key in b && l[key].windowStart == b[key].windowStart &&
        l[key].count == Min(b[key].count, MAX_EVENTS))
  }

  lemma MirrorStep(s: State, e: Event, t: State, b: Buckets, now: int)
    requires Follows(s, e, t) && Mirrors(s.buckets, b, now) && now <= e.at && !e.Destroy?
    ensures Mirrors(t.buckets, Step(b, Calls([e])[0]), e.at)
    ensures e.Record? ==> var key := KeyOf(e.profile, Categorize(e.error).Name());
      LoggedSingly(s.buckets, key, e.at) == Allowed(MAX_EVENTS, b, Consume(key, e.at))
  {
    hide Singles, Summed, Pending, KeyOf;
  }

  function Clock(run: seq<Event>): int { if run == [] then 0 else run[|run| - 1].at }

  predicate Orderly(run: seq<Event>) {
    (forall i :: 0 <= i < |run| ==> !run[i].Destroy?) && forall i, j :: 0 <= i < j < |run| ==> run[i].at <= run[j].at
  }

  /** The rejections of the source logged singly in the minute from `from` on. */
  ghost function SinglyIn(states: seq<State>, run: seq<Event>, source: Source, from: int): nat
    requires |states| == |run| + 1
  {
    if run == [] then 0 else
      var n := |run| - 1;
      var e := run[n];
      SinglyIn(states[..n + 1], run[..n], source, from)
        + if Concerns(e, source) && from <= e.at < from + WINDOW_MS
             && LoggedSingly(states[n].buckets, KeyOf(source.profile, source.category), e.at) then 1 else 0
  }

  lemma {:induction false} LoggedAsAdmitted(states: seq<State>, run: seq<Event>, source: Source, from: int)
    requires IsTrace(states, run) && Orderly(run) && ':' !in source.category
    ensures Mirrors(states[|run|].buckets, RateLimits.After(Calls(run)), Clock(run))
    ensures SinglyIn(states, run, source, from) ==
      Admitted(MAX_EVENTS, Calls(run), KeyOf(source.profile, source.category), from)
  {
    if run != [] {
      var n := |run| - 1;
      OrderlyPrefix(states, run);
      hide IsTrace, Follows, Orderly, Mirrors, LoggedSingly, Allowed, KeyOf, Step, SourceOf, Concerns, RateLimits.After,
        Admitted;
      LoggedAsAdmitted(states[..n + 1], run[..n], source, from);
      var key, calls, call := KeyOf(source.profile, source.category), Calls(run[..n]), Calls([run[n]])[0];
      assert Calls(run) == calls + [call];
      MirrorStep(states[n], run[n], states[n + 1], RateLimits.After(calls), Clock(run[..n]));
      OneMore(MAX_EVENTS, calls, call, key, from);
      ConcernsIffKey(run[n], source);
    }
  }

  lemma OrderlyPrefix(states: seq<State>, run: seq<Event>)
    requires IsTrace(states, run) && Orderly(run) && run != []
    ensures var n := |run| - 1;
      && |states| == n + 2 && IsTrace(states[..n + 1], run[..n]) && Orderly(run[..n])
      && Follows(states[n], run[n], states[n + 1]) && !run[n].Destroy? && Clock(run[..n]) <= run[n].at
  {
    hide Follows;
  }

  /** Keys tell sources apart. */
  lemma ConcernsIffKey(e: Event, source: Source)
    requires ':' !in source.category
    ensures Concerns(e, source) <==>
      e.Record? && KeyOf(e.profile, Categorize(e.error).Name()) == KeyOf(source.profile, source.category)
  {
    KeySplits(source.profile, source.category);
    if e.Record? { KeySplits(e.profile, Categorize(e.error).Name()); }
    hide KeyOf, SourceOf;
  }

  /** While the logger is in service, no source gets more than thirty-nine single lines in any minute. */
  lemma SinglesAreBounded(states: seq<State>, run: seq<Event>, source: Source, from: int)
    requires IsTrace(states, run) && Orderly(run) && ':' !in source.category
    ensures SinglyIn(states, run, source, from) <= 2 * MAX_EVENTS - 1
  {
    LoggedAsAdmitted(states, run, source, from);
    AtMostTwiceTheLimit(MAX_EVENTS, Calls(run), KeyOf(source.profile, source.category), from);
  }

  // ---------------------------------------------------------------- single lines of one window

  /** The rejection opens a new window for its source. */
  ghost predicate OpensWindow(s: State, e: Event, source: Source) {
    Concerns(e, source) && Fresh(s.buckets, KeyOf(source.profile, source.category), e.at)
  }

  /** How many single lines the open window has room for. */
  ghost function Room(s: State, source: Source): int {
    var key := KeyOf(source.profile, source.category);
    if key in s.buckets then MAX_EVENTS - s.buckets[key].count else 0
  }

  lemma StepUsesRoom(s: State, e: Event, t: State, source: Source)
    requires Follows(s, e, t) && Valid(s) && ':' !in source.category
    ensures Singles(t.lines, source) + Room(t, source)
      <= Singles(s.lines, source) + if OpensWindow(s, e, source) then MAX_EVENTS else Room(s, source)
  {
    hide Singles, Summed, Pending, KeyOf, SourceOf, Summaries, Concerns;
    ConcernsIffKey(e, source);
    if e.Record? {
      SingleLineIffLoggedSingly(s, e.profile, Categorize(e.error), e.at, source);
      ConcernsItsSource(e, source);
    }
  }

  lemma ConcernsItsSource(e: Event, source: Source)
    requires e.Record?
    ensures Concerns(e, source) <==> source == Source(e.profile, Categorize(e.error).Name())
  {
  }

  lemma RoomIsBounded(s: State, source: Source)
    requires Valid(s)
    ensures 0 <= Room(s, source) <= MAX_EVENTS
  {
  }

  lemma TraceIsValid(states: seq<State>, run: seq<Event>, i: nat)
    requires IsTrace(states, run) && i <= |run|
    ensures Valid(states[i])
  {
    NothingIsLost(states[..i + 1], run[..i], Source("", ""));
  }

  /**
   * Twenty per window: from just before one rejection up to any later point, with no other window opened for
   * the source in between, at most twenty single lines are added for it, in any run and at any times.
   */
  lemma {:induction false} AtMostTwentyPerWindow(states: seq<State>, run: seq<Event>, source: Source, i: nat, j: nat)
    requires IsTrace(states, run) && ':' !in source.category && i < j <= |run|
    requires forall k :: i < k < j ==> !OpensWindow(states[k], run[k], source)
    ensures Singles(states[j].lines, source) + Room(states[j], source) <= Singles(states[i].lines, source) + MAX_EVENTS
    ensures Singles(states[j].lines, source) <= Singles(states[i].lines, source) + MAX_EVENTS
    decreases j
  {
    var n := j - 1;
    assert |states| == |run| + 1 && Follows(states[n], run[n], states[j]);
    hide Follows, IsTrace, Valid, Room, Singles, OpensWindow, KeyOf;
    TraceIsValid(states, run, n);
    TraceIsValid(states, run, j);
    RoomIsBounded(states[n], source);
    RoomIsBounded(states[j], source);
    StepUsesRoom(states[n], run[n], states[j], source);
    if n > i { AtMostTwentyPerWindow(states, run, source, i, n); }
  }
}

/** The logger of the delegation client, which counts by category through the rate limiter. */
module ClientLog {
  import opened RateLimits
  import opened EventLogs

  const REJECTIONS_PER_MINUTE: int := 20

  datatype State = State(buckets: Buckets, suppressed: map<string, nat>, lines: seq<Line<string>>)

  function Pending(suppressed: map<string, nat>, category: string): nat {
    if category in suppressed then suppressed[category] else 0
  }

  function Recorded(s: State, category: string, now: nat): State {
    var buckets := Counted(s.buckets, category, now);
    if Allowed(REJECTIONS_PER_MINUTE, s.buckets, Consume(category, now)) then
      State(buckets, s.suppressed, s.lines + [Single(category)])
    else
      State(buckets, s.suppressed[category := Pending(s.suppressed, category) + 1], s.lines)
  }

  /** Everything suppressed has been written out. */
  ghost predicate Flushed(s: State, t: State) {
    && t.buckets == s.buckets && t.suppressed == map[]
    && forall category :: Singles(t.lines, category) == Singles(s.lines, category)
         && Summed(t.lines, category) == Summed(s.lines, category) + Pending(s.suppressed, category)
  }

  /** The summaries of these categories, and no others, have been added. */
  ghost predicate SummedUp(before: seq<Line<string>>, after: seq<Line<string>>, suppressed: map<string, nat>,
                           done: set<string>) {
    forall c :: Summed(after, c) == Summed(before, c) + (if c in done then Pending(suppressed, c) else 0)
  }

  class SecurityEventLog {
    const limiter: RollingWindowRateLimiter
    var suppressed: map<string, nat>
    var lines: seq<Line<string>>

    ghost predicate Valid() { limiter.limitPerMinute == REJECTIONS_PER_MINUTE }

    ghost function Contents(): State
      reads this, limiter
    {
      State(limiter.buckets, suppressed, lines)
    }

    constructor ()
      ensures Valid() && fresh(limiter) && Contents() == State(map[], map[], [])
    {
      limiter := new RollingWindowRateLimiter(REJECTIONS_PER_MINUTE);
      suppressed, lines := map[], [];
    }

    method RecordRejection(category: string, now: nat)
      requires Valid()
      modifies this, limiter
      ensures Contents() == Recorded(old(Contents()), category, now)
    {
      var allowed := limiter.TryConsume(category, now);
      if allowed {
        lines := lines + [Single(category)];
        return;
      }
      suppressed := suppressed[category := (if category in suppressed then suppressed[category] else 0) + 1];
    }

    method FlushSuppressed()
      modifies this
      ensures Flushed(old(Contents()), Contents())
    {
      var left := suppressed.Keys;
      ghost var was := Contents();
      while left != {}
        invariant left <= suppressed.Keys && suppressed == was.suppressed
        invariant forall category :: Singles(lines, category) == Singles(was.lines, category)
        invariant SummedUp(was.lines, lines, was.suppressed, was.suppressed.Keys - left)
        decreases |left|
      {
        var category :| category in left;
        var count := suppressed[category];
        forall c ensures var line := Summary(category, count);
          Singles(lines + [line], c) == Singles(lines, c) &&
            Summed(lines + [line], c) == Summed(lines, c) + if c == category then count else 0 {
          OneMoreLine(lines, Summary(category, count), c);
        }
        if count > 0 {
          lines := lines + [Summary(category, count)];
        }
        left := left - {category};
      }
      suppressed := map[];
    }

    method Dispose()
      modifies this
      ensures Flushed(old(Contents()), Contents())
    {
      FlushSuppressed();
    }
  }

  // ---------------------------------------------------------------- whole runs

  datatype Event = Record(category: string, at: nat) | Flush(at: nat) | EvictOld(at: nat)

  ghost predicate Follows(s: State, e: Event, t: State) {
    match e
    case Record(category, at) => t == Recorded(s, category, at)
    case Flush(_) => Flushed(s, t)
    case EvictOld(at) => t == s.(buckets := Unevicted(s.buckets, at))
  }

  ghost predicate IsTrace(states: seq<State>, run: seq<Event>) {
    |states| == |run| + 1 && states[0] == State(map[], map[], []) && forall i :: 0 <= i < |run| ==>
      Follows(states[i], run[i], states[i + 1])
  }

  ghost function RecordedIn(run: seq<Event>, category: string): nat {
    if run == [] then 0 else
      RecordedIn(run[..|run| - 1], category) + if run[|run| - 1].Record? &&
        run[|run| - 1].category == category then 1 else 0
  }

  ghost function Accounted(s: State, category: string): nat {
    Singles(s.lines, category) + Summed(s.lines, category) + Pending(s.suppressed, category)
  }

  lemma StepAccounts(s: State, e: Event, t: State, category: string)
    requires Follows(s, e, t)
    ensures Accounted(t, category) == Accounted(s, category) + if e.Record? && e.category == category then 1 else 0
  {
    if e.Record? { OneMoreLine(s.lines, Single(e.category), category); }
  }

  /** Nothing is lost, across flushes, window rollovers, evictions and disposal. */
  lemma {:induction false} NothingIsLost(states: seq<State>, run: seq<Event>, category: string)
    requires IsTrace(states, run)
    ensures Accounted(states[|run|], category) == RecordedIn(run, category)
    ensures run != [] && run[|run| - 1].Flush? ==>
      Singles(states[|run|].lines, category) + Summed(states[|run|].lines, category) == RecordedIn(run, category)
  {
    if run != [] {
      var n := |run| - 1;
      NothingIsLost(states[..n + 1], run[..n], category);
      assert Follows(states[n], run[n], states[n + 1]);
      StepAccounts(states[n], run[n], states[n + 1], category);
    }
  }

  function Calls(run: seq<Event>): seq<RateLimits.Event> {
    if run == [] then [] else
      Calls(run[..|run| - 1]) +
        match run[|run| - 1]
        case Record(category, at) => [Consume(category, at)]
        case Flush(_) => []
        case EvictOld(at) => [Evict(at)]
  }

  /** The rejections of the category logged singly in the minute from `from` on. */
  ghost function SinglyIn(states: seq<State>, run: seq<Event>, category: string, from: int): nat
    requires |states| == |run| + 1
  {
    if run == [] then 0 else
      var n := |run| - 1;
      var e := run[n];
      SinglyIn(states[..n + 1], run[..n], category, from)
        + if e.Record? && e.category == category && from <= e.at < from + WINDOW_MS
             && Allowed(REJECTIONS_PER_MINUTE, states[n].buckets, Consume(category, e.at)) then 1 else 0
  }

  predicate Orderly(run: seq<Event>) { forall i, j :: 0 <= i < j < |run| ==> run[i].at <= run[j].at }

  lemma {:induction false} LoggedAsAdmitted(states: seq<State>, run: seq<Event>, category: string, from: int)
    requires IsTrace(states, run) && Orderly(run)
    ensures states[|run|].buckets == RateLimits.After(Calls(run))
    ensures SinglyIn(states, run, category, from) == Admitted(REJECTIONS_PER_MINUTE, Calls(run), category, from)
  {
    if run != [] {
      var n := |run| - 1;
      LoggedAsAdmitted(states[..n + 1], run[..n], category, from);
      assert Follows(states[n], run[n], states[n + 1]);
      CallsOfOneMore(run);
      hide IsTrace, Orderly, Allowed, Counted, Unevicted, Flushed, Calls, RateLimits.After, Admitted;
      var calls := Calls(run[..n]);
      match run[n]
      case Record(c, at) => OneMore(REJECTIONS_PER_MINUTE, calls, Consume(c, at), category, from);
      case EvictOld(at) => OneMore(REJECTIONS_PER_MINUTE, calls, Evict(at), category, from);
      case Flush(_) =>
    } else {
      assert states[0].buckets == RateLimits.After([]);
    }
  }

  lemma CallsOfOneMore(run: seq<Event>)
    requires run != []
    ensures var calls := Calls(run[..|run| - 1]);
      match run[|run| - 1]
      case Record(category, at) => Calls(run) == calls + [Consume(category, at)]
      case EvictOld(at) => Calls(run) == calls + [Evict(at)]
      case Flush(_) => Calls(run) == calls
  {
  }

  lemma {:induction false} CallsAreMonotone(run: seq<Event>)
    requires Orderly(run)
    ensures Monotone(Calls(run)) && forall c :: c in Calls(run) ==> run != [] && c.at <= run[|run| - 1].at
  {
    if run != [] {
      var n := |run| - 1;
      CallsAreMonotone(run[..n]);
      assert n > 0 ==> run[n - 1].at <= run[n].at;
    }
  }

  /** No category gets more than thirty-nine single lines in any minute. */
  lemma SinglesAreBounded(states: seq<State>, run: seq<Event>, category: string, from: int)
    requires IsTrace(states, run) && Orderly(run)
    ensures SinglyIn(states, run, category, from) <= 2 * REJECTIONS_PER_MINUTE - 1
  {
    LoggedAsAdmitted(states, run, category, from);
    CallsAreMonotone(run);
    AtMostTwiceTheLimit(REJECTIONS_PER_MINUTE, Calls(run), category, from);
  }

  // ---------------------------------------------------------------- single lines of one window

  predicate OpensWindow(s: State, e: Event, category: string) {
    e.Record? && e.category == category && Opens(s.buckets, category, e.at)
  }

  /** How many single lines the open window has room for. */
  function Room(s: State, category: string): nat {
    if category in s.buckets && s.buckets[category].count <= REJECTIONS_PER_MINUTE
    then REJECTIONS_PER_MINUTE - s.buckets[category].count else 0
  }

  lemma StepUsesRoom(s: State, e: Event, t: State, category: string)
    requires Follows(s, e, t)
    ensures Singles(t.lines, category) + Room(t, category)
      <= Singles(s.lines, category) + if OpensWindow(s, e, category) then REJECTIONS_PER_MINUTE else Room(s, category)
  {
    if e.Record? { OneMoreLine(s.lines, Single(e.category), category); }
    hide Singles, Summed;
  }

  /**
   * Twenty per window: from just before one rejection up to any later point, with no other window opened for
   * the category in between, at most twenty single lines are added for it.
   */
  lemma {:induction false} AtMostTwentyPerWindow(states: seq<State>, run: seq<Event>, category: string, i: nat, j: nat)
    requires IsTrace(states, run) && i < j <= |run|
    requires forall k :: i < k < j ==> !OpensWindow(states[k], run[k], category)
    ensures Singles(states[j].lines, category) + Room(states[j], category)
      <= Singles(states[i].lines, category) + REJECTIONS_PER_MINUTE
    decreases j
  {
    var n := j - 1;
    assert Follows(states[n], run[n], states[j]);
    StepUsesRoom(states[n], run[n], states[j], category);
    assert Room(states[n], category) <= REJECTIONS_PER_MINUTE;
    hide Follows, IsTrace, Room, Singles, OpensWindow;
    if n > i { AtMostTwentyPerWindow(states, run, category, i, n); }
  }
}
