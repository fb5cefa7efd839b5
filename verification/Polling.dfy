/**
 * The controller that polls the unread count. Its methods, the timer and the replies of the server
 * take turns on one thread; a reply goes through its promise chain in steps, with anything in between.
 */
module Polling {
  import opened Wrappers

  type RequestId = nat

  datatype Stage = Loading | Called | Finishing | Settled

  datatype Request = Request(sequence: nat, stage: Stage)

  datatype Delivery = Count(sequence: nat, value: nat) | Error(sequence: nat)

  /** The things that make earlier replies stale. */
  datatype Mark = Issued(request: RequestId) | Stopped

  /**
   * The variables of the closure, the promises it has made, the interval timers that are running, the
   * callbacks it has made, and what has happened so far.
   */
  datatype State = State(enabled: bool, timer: Option<nat>, inFlight: Option<RequestId>, visible: bool, active: bool,
                         requestSequence: nat, requests: seq<Request>, timers: set<nat>, created: nat,
                         deliveries: seq<Delivery>, history: seq<Mark>)

  datatype Event =
    | Refresh
    | ForceRefresh
    | Start
    | Stop
    | SetVisible(visible: bool)
    | Tick(timer: nat)
    | Resolve(request: RequestId, result: Option<int>)
    | CallbackThrows(request: RequestId)
    | CallbackReturns(request: RequestId)
    | Reject(request: RequestId)
    | Finish(request: RequestId)

  function Initial(enabled: bool): State { State(enabled, None, None, true, false, 0, [], {}, 0, [], []) }

  predicate At(s: State, r: RequestId, stage: Stage) { r < |s.requests| && s.requests[r].stage == stage }

  predicate Enabled(s: State, e: Event) {
    match e
    case Tick(t) => t in s.timers
    case Resolve(r, _) => At(s, r, Loading)
    case Reject(r) => At(s, r, Loading)
    case CallbackThrows(r) => At(s, r, Called)
    case CallbackReturns(r) => At(s, r, Called)
    case Finish(r) => At(s, r, Finishing)
    case _ => true
  }

  function IssuedRequest(s: State): State {
    var r := |s.requests|;
    s.(requestSequence := s.requestSequence + 1, requests := s.requests + [Request(s.requestSequence + 1, Loading)],
       inFlight := Some(r), history := s.history + [Issued(r)])
  }

  function Refreshed(s: State): State { if !s.active || !s.visible || s.inFlight.Some? then s else IssuedRequest(s) }

  function Started(s: State): State {
    if s.active then s
    else if !s.enabled then s.(active := true)
    else Refreshed(s.(active := true)).(timer := Some(s.created), timers := s.timers + {s.created},
      created := s.created + 1)
  }

  function StoppedAt(s: State): State {
    s.(active := false, requestSequence := s.requestSequence + 1, history := s.history + [Stopped],
       timers := if s.timer.Some? then s.timers - {s.timer.value} else s.timers, timer := None)
  }

  function Moved(s: State, r: RequestId, stage: Stage): State
    requires r < |s.requests|
  {
    s.(requests := s.requests[r := s.requests[r].(stage := stage)])
  }

  /** A count that is negative or not finite reads as zero. */
  function Shown(result: Option<int>): nat { if result.Some? && result.value > 0 then result.value else 0 }

  function Next(s: State, e: Event): State
    requires Enabled(s, e)
  {
    match e
    case Refresh => Refreshed(s)
    case ForceRefresh => if s.active then IssuedRequest(s) else s
    case Start => Started(s)
    case Stop => StoppedAt(s)
    case SetVisible(v) => if v && s.active && s.enabled then Refreshed(s.(visible := v)) else s.(visible := v)
    case Tick(_) => Refreshed(s)
    case Resolve(r, result) =>
      if s.requests[r].sequence != s.requestSequence then Moved(s, r, Finishing)
      else Moved(s, r, Called).(deliveries := s.deliveries + [Count(s.requests[r].sequence, Shown(result))])
    case CallbackReturns(r) => Moved(s, r, Finishing)
    case CallbackThrows(r) => Failed(s, r)
    case Reject(r) => Failed(s, r)
    case Finish(r) => Moved(s, r, Settled).(inFlight := if s.inFlight == Some(r) then None else s.inFlight)
  }

  function Failed(s: State, r: RequestId): State
    requires r < |s.requests|
  {
    if s.requests[r].sequence != s.requestSequence then Moved(s, r, Finishing)
    else Moved(s, r, Finishing).(deliveries := s.deliveries + [Error(s.requests[r].sequence)])
  }

  // ---------------------------------------------------------------- the controller

  class NotificationPollingController {
    const enabled: bool
    var timer: Option<nat>
    var inFlight: Option<RequestId>
    var visible: bool
    var active: bool
    var requestSequence: nat
    var requests: seq<Request>
    var timers: set<nat>
    var created: nat
    var deliveries: seq<Delivery>
    ghost var history: seq<Mark>

    ghost function Contents(): State
      reads this
    {
      State(enabled, timer, inFlight, visible, active, requestSequence, requests, timers, created, deliveries, history)
    }

    constructor (isEnabled: bool)
      ensures Contents() == Initial(isEnabled)
    {
      enabled := isEnabled;
      timer, inFlight, visible, active, requestSequence := None, None, true, false, 0;
      requests, timers, created, deliveries, history := [], {}, 0, [], [];
    }

    method IssueRequest() returns (promise: RequestId)
      modifies this
      ensures Contents() == IssuedRequest(old(Contents())) && promise == |old(requests)|
    {
      requestSequence := requestSequence + 1;
      promise := |requests|;
      requests := requests + [Request(requestSequence, Loading)];
      history := history + [Issued(promise)];
      inFlight := Some(promise);
    }

    method RefreshNow()
      modifies this
      ensures Contents() == Refreshed(old(Contents()))
    {
      if !active || !visible { return; }
      if inFlight.None? { var _ := IssueRequest(); }
    }

    method ForceRefreshNow()
      modifies this
      ensures Contents() == Next(old(Contents()), ForceRefresh)
    {
      if !active { return; }
      var _ := IssueRequest();
    }

    method StartPolling()
      modifies this
      ensures Contents() == Next(old(Contents()), Start)
    {
      if active { return; }
      active := true;
      if !enabled { return; }
      RefreshNow();
      timer, timers, created := Some(created), timers + {created}, created + 1;
    }

    method StopPolling()
      modifies this
      ensures Contents() == Next(old(Contents()), Stop)
    {
      active := false;
      requestSequence := requestSequence + 1;
      history := history + [Stopped];
      if timer.Some? { timers := timers - {timer.value}; }
      timer := None;
    }

    method ShowOrHide(nextVisible: bool)
      modifies this
      ensures Contents() == Next(old(Contents()), SetVisible(nextVisible))
    {
      visible := nextVisible;
      if visible && active && enabled { RefreshNow(); }
    }

    /** The first link of the chain: the reply is passed on unless it is stale. */
    method OnResult(request: RequestId, result: Option<int>)
      requires At(Contents(), request, Loading)
      modifies this
      ensures Contents() == Next(old(Contents()), Resolve(request, result))
      ensures var sequence := old(requests)[request].sequence;
        deliveries == old(deliveries) +
          if sequence != old(requestSequence) then []
          else [Count(sequence, if result == None || result.value < 0 then 0 else result.value)]
    {
      var sequence := requests[request].sequence;
      if sequence != requestSequence {
        requests := requests[request := requests[request].(stage := Finishing)];
        return;
      }
      deliveries := deliveries + [Count(sequence, Shown(result))];
      requests := requests[request := requests[request].(stage := Called)];
    }

    /** The second: an error, of the request or of the callback, is passed on unless it is stale. */
    method OnFailure(request: RequestId)
      requires At(Contents(), request, Loading) || At(Contents(), request, Called)
      modifies this
      ensures Contents() == Failed(old(Contents()), request)
    {
      if requests[request].sequence == requestSequence {
        deliveries := deliveries + [Error(requests[request].sequence)];
      }
      requests := requests[request := requests[request].(stage := Finishing)];
    }

    /** The last: the promise is settled. */
    method OnFinally(request: RequestId)
      requires At(Contents(), request, Finishing)
      modifies this
      ensures Contents() == Next(old(Contents()), Finish(request))
    {
      requests := requests[request := requests[request].(stage := Settled)];
      if inFlight == Some(request) { inFlight := None; }
    }
  }

  // ---------------------------------------------------------------- what every step keeps

  /** The newest request, unless it has settled. */
  function NewestUnsettled(s: State): Option<RequestId> {
    if s.requests == [] || s.requests[|s.requests| - 1].stage == Settled then None else Some(|s.requests| - 1)
  }

  ghost predicate RequestOk(s: State, r: nat)
    requires r < |s.requests|
  {
    1 <= s.requests[r].sequence <= |s.history| && s.history[s.requests[r].sequence - 1] == Issued(r)
  }

  ghost predicate MarkOk(s: State, i: nat)
    requires i < |s.history|
  {
    s.history[i].Issued? ==> s.history[i].request < |s.requests| && s.requests[s.history[i].request].sequence == i + 1
  }

  /** Each issue and each stop takes one sequence number. */
  ghost predicate Numbered(s: State) {
    && s.requestSequence == |s.history|
    && (forall r: nat :: r < |s.requests| ==> RequestOk(s, r))
    && (forall i: nat :: i < |s.history| ==> MarkOk(s, i))
  }

  ghost predicate TimersOk(s: State) {
    && s.timers == (if s.timer.Some? then {s.timer.value} else {})
    && (s.timer.Some? <==> s.active && s.enabled)
    && (s.timer.Some? ==> s.timer.value < s.created)
  }

  /** What a delivery says about its request: it has been answered, and not with an error before a count. */
  ghost predicate DeliveryOk(s: State, d: Delivery) {
    && 1 <= d.sequence <= |s.history| && s.history[d.sequence - 1].Issued?
    && var r := s.history[d.sequence - 1].request;
       r < |s.requests| && s.requests[r].stage != Loading && (d.Error? ==> s.requests[r].stage != Called)
  }

  ghost predicate InOrder(d: seq<Delivery>) {
    forall i, j :: 0 <= i < j < |d| ==>
      d[i].sequence < d[j].sequence || (d[i].sequence == d[j].sequence && d[i].Count? && d[j].Error?)
  }

  /** All but the timers. */
  ghost predicate Core(s: State) {
    && Numbered(s)
    && s.inFlight == NewestUnsettled(s)
    && (forall d :: d in s.deliveries ==> DeliveryOk(s, d))
    && InOrder(s.deliveries)
  }

  ghost predicate Inv(s: State) { Core(s) && TimersOk(s) }

  lemma IssueKeepsCore(s: State)
    requires Core(s)
    ensures Core(IssuedRequest(s))
  {
    var t := IssuedRequest(s);
    forall d | d in s.deliveries ensures DeliveryOk(t, d) { assert DeliveryOk(s, d); }
    forall r: nat | r < |t.requests| ensures RequestOk(t, r) { assert r < |s.requests| ==> RequestOk(s, r); }
    forall i: nat | i < |t.history| ensures MarkOk(t, i) { assert i < |s.history| ==> MarkOk(s, i); }
    hide DeliveryOk, InOrder, RequestOk, MarkOk;
  }

  lemma StopKeepsCore(s: State)
    requires Core(s)
    ensures Core(StoppedAt(s))
  {
    var t := StoppedAt(s);
    forall d | d in s.deliveries ensures DeliveryOk(t, d) { assert DeliveryOk(s, d); }
    forall r: nat | r < |t.requests| ensures RequestOk(t, r) { assert r < |s.requests| ==> RequestOk(s, r); }
    forall i: nat | i < |t.history| ensures MarkOk(t, i) { assert i < |s.history| ==> MarkOk(s, i); }
    hide DeliveryOk, InOrder, RequestOk, MarkOk;
  }

  ghost predicate Later(from: Stage, to: Stage) {
    (from.Loading? && !to.Loading? && !to.Settled?) || (from.Called? && to.Finishing?) ||
      (from.Finishing? && to.Settled?)
  }

  /** A request moves along its chain. */
  lemma MoveKeepsNumbers(s: State, r: RequestId, stage: Stage)
    requires Numbered(s) && r < |s.requests|
    ensures Numbered(Moved(s, r, stage))
    ensures NewestUnsettled(Moved(s, r, stage)) ==
      if r != |s.requests| - 1 then NewestUnsettled(s) else if stage == Settled then None else Some(r)
  {
    var t := Moved(s, r, stage);
    forall q: nat | q < |t.requests| ensures RequestOk(t, q) { assert RequestOk(s, q); }
    forall i: nat | i < |t.history| ensures MarkOk(t, i) { assert MarkOk(s, i); }
    hide RequestOk, MarkOk;
  }

  lemma MoveKeepsDelivery(s: State, r: RequestId, stage: Stage, d: Delivery)
    requires r < |s.requests| && Later(s.requests[r].stage, stage) && DeliveryOk(s, d)
    ensures DeliveryOk(Moved(s, r, stage), d)
  {
  }

  /** A delivery made now comes after all that were made before. */
  lemma NewestComesLast(s: State, r: RequestId, d: Delivery)
    requires Core(s) && r < |s.requests| && s.requests[r].sequence == s.requestSequence == d.sequence
    requires s.requests[r].stage == Loading || (s.requests[r].stage == Called && d.Error?)
    ensures InOrder(s.deliveries + [d])
  {
    assert RequestOk(s, r);
    forall i | 0 <= i < |s.deliveries|
      ensures s.deliveries[i].sequence < d.sequence ||
        (s.deliveries[i].sequence == d.sequence && s.deliveries[i].Count? && d.Error?) {
      assert DeliveryOk(s, s.deliveries[i]);
    }
  }

  /** One link of a promise chain, with the callback it makes, if any. */
  lemma ChainKeepsCore(s: State, r: RequestId, stage: Stage, made: seq<Delivery>)
    requires Core(s) && r < |s.requests| && Later(s.requests[r].stage, stage)
    requires made == [] ||
      (|made| == 1 && made[0].sequence == s.requests[r].sequence == s.requestSequence && !stage.Settled?
      && (made[0].Count? ==> s.requests[r].stage == Loading)
      && (made[0].Error? ==> stage == Finishing && !s.requests[r].stage.Finishing?))
    ensures Core(Moved(s, r, stage).(deliveries := s.deliveries + made,
      inFlight := if stage == Settled && s.inFlight == Some(r) then None else s.inFlight))
  {
    var moved := Moved(s, r, stage);
    MoveKeepsNumbers(s, r, stage);
    forall d | d in s.deliveries ensures DeliveryOk(moved, d) { MoveKeepsDelivery(s, r, stage, d); }
    if made != [] {
      NewestComesLast(s, r, made[0]);
      assert RequestOk(s, r) && DeliveryOk(moved, made[0]);
      assert s.deliveries + made == s.deliveries + [made[0]];
    } else {
      assert s.deliveries + made == s.deliveries;
    }
    var t := moved.(deliveries := s.deliveries + made,
      inFlight := if stage == Settled && s.inFlight == Some(r) then None else s.inFlight);
    forall d | d in t.deliveries ensures DeliveryOk(t, d) { assert DeliveryOk(moved, d); }
    forall q: nat | q < |t.requests| ensures RequestOk(t, q) { assert RequestOk(moved, q); }
    forall i: nat | i < |t.history| ensures MarkOk(t, i) { assert MarkOk(moved, i); }
    hide DeliveryOk, InOrder, RequestOk, MarkOk;
  }

  /** The deliveries and their order do not depend on timers, visibility or activity. */
  lemma OthersKeepCore(s: State, t: State)
    requires Core(s) &&
      t == s.(timer := t.timer, visible := t.visible, active := t.active, timers := t.timers, created := t.created)
    ensures Core(t)
  {
    forall d | d in s.deliveries ensures DeliveryOk(t, d) { assert DeliveryOk(s, d); }
    forall r: nat | r < |t.requests| ensures RequestOk(t, r) { assert RequestOk(s, r); }
    forall i: nat | i < |t.history| ensures MarkOk(t, i) { assert MarkOk(s, i); }
    hide DeliveryOk, InOrder, RequestOk, MarkOk;
  }

  lemma RefreshKeepsCore(s: State)
    requires Core(s)
    ensures Core(Refreshed(s))
  {
    hide Core;
    if s.active && s.visible && s.inFlight.None? { IssueKeepsCore(s); }
  }

  lemma StepKeepsCore(s: State, e: Event)
    requires Core(s) && Enabled(s, e)
    ensures Core(Next(s, e))
  {
    hide Core;
    match e
    case Refresh => RefreshKeepsCore(s);
    case ForceRefresh => if s.active { IssueKeepsCore(s); }
    case Start =>
      if !s.active {
        OthersKeepCore(s, s.(active := true));
        RefreshKeepsCore(s.(active := true));
        if s.enabled { OthersKeepCore(Refreshed(s.(active := true)), Next(s, e)); }
      }
    case Stop => StopKeepsCore(s);
    case SetVisible(v) =>
      OthersKeepCore(s, s.(visible := v));
      RefreshKeepsCore(s.(visible := v));
    case Tick(_) => RefreshKeepsCore(s);
    case _ => ReplyKeepsCore(s, e);
  }

  lemma ReplyKeepsCore(s: State, e: Event)
    requires Core(s) && Enabled(s, e) &&
      (e.Resolve? || e.CallbackThrows? || e.CallbackReturns? || e.Reject? || e.Finish?)
    ensures Core(Next(s, e))
  {
    hide Core;
    var r := e.request;
    var sequence := s.requests[r].sequence;
    var made := if sequence != s.requestSequence then []
      else if e.Resolve? then [Count(sequence, Shown(e.result))]
      else if e.Reject? || e.CallbackThrows? then [Error(sequence)] else [];
    assert s.deliveries + [] == s.deliveries;
    ChainKeepsCore(s, r, Next(s, e).requests[r].stage, made);
  }

  lemma StepKeepsTimers(s: State, e: Event)
    requires TimersOk(s) && Enabled(s, e)
    ensures TimersOk(Next(s, e))
  {
  }

  lemma StepKeepsInv(s: State, e: Event)
    requires Inv(s) && Enabled(s, e)
    ensures Inv(Next(s, e))
  {
    StepKeepsCore(s, e);
    StepKeepsTimers(s, e);
  }

  ghost predicate IsRun(s: State, run: seq<Event>)
    decreases |run|
  {
    run != [] ==> Enabled(s, run[0]) && IsRun(Next(s, run[0]), run[1..])
  }

  ghost function After(s: State, run: seq<Event>): State
    requires IsRun(s, run)
    decreases |run|
  {
    if run == [] then s else After(Next(s, run[0]), run[1..])
  }

  /**
   * In every interleaving: the request in flight is the newest one until it has settled, at most one
   * timer runs, and only while the controller is active, and deliveries come in the order in which
   * their requests were issued, with at most one count each.
   */
  lemma {:induction false} RunKeepsInv(s: State, run: seq<Event>)
    requires Inv(s) && IsRun(s, run)
    ensures Inv(After(s, run))
    decreases |run|
  {
    if run != [] {
      StepKeepsInv(s, run[0]);
      RunKeepsInv(Next(s, run[0]), run[1..]);
    }
  }

  lemma InitialHolds(enabled: bool)
    ensures Inv(Initial(enabled))
  {
  }

  /** A callback is made exactly when the last thing that happened, of issues and stops, is the issue of its request. */
  lemma OnlyTheNewestIsDelivered(s: State, e: Event)
    requires Inv(s) && Enabled(s, e) && (e.Resolve? || e.Reject? || e.CallbackThrows?)
    ensures |Next(s, e).deliveries| > |s.deliveries| <==>
      s.history != [] && s.history[|s.history| - 1] == Issued(e.request)
  {
    assert RequestOk(s, e.request);
    assert s.history != [] ==> MarkOk(s, |s.history| - 1);
  }

  /** No other step makes a callback. */
  lemma OtherStepsDeliverNothing(s: State, e: Event)
    requires Enabled(s, e) && !(e.Resolve? || e.Reject? || e.CallbackThrows?)
    ensures Next(s, e).deliveries == s.deliveries
  {
  }

  /** A reply, or an error of the callback, to the request whose issue is the last thing issued or stopped. */
  ghost predicate AnswersNewest(s: State, e: Event) {
    && (e.Resolve? || e.Reject? || e.CallbackThrows?)
    && s.history != [] && s.history[|s.history| - 1] == Issued(e.request)
  }

  function CallbackFor(s: State, e: Event): Delivery {
    if e.Resolve? then Count(|s.history|, Shown(e.result)) else Error(|s.history|)
  }

  /** One callback for each such step of the run. */
  ghost function Callbacks(s: State, run: seq<Event>): seq<Delivery>
    requires IsRun(s, run)
    decreases |run|
  {
    if run == [] then []
    else
      (if AnswersNewest(s, run[0]) then [CallbackFor(s, run[0])] else []) + Callbacks(Next(s, run[0]), run[1..])
  }

  lemma StepDelivers(s: State, e: Event)
    requires Inv(s) && Enabled(s, e)
    ensures Next(s, e).deliveries == s.deliveries + if AnswersNewest(s, e) then [CallbackFor(s, e)] else []
  {
    if e.Resolve? || e.Reject? || e.CallbackThrows? {
      OnlyTheNewestIsDelivered(s, e);
      assert RequestOk(s, e.request);
    } else {
      OtherStepsDeliverNothing(s, e);
    }
  }

  lemma {:induction false} RunDelivers(s: State, run: seq<Event>)
    requires Inv(s) && IsRun(s, run)
    ensures After(s, run).deliveries == s.deliveries + Callbacks(s, run)
    decreases |run|
  {
    if run == [] {
      assert s.deliveries + [] == s.deliveries;
    } else {
      var e := run[0];
      StepKeepsInv(s, e);
      StepDelivers(s, e);
      hide Inv, Next, AnswersNewest;
      RunDelivers(Next(s, e), run[1..]);
      Regroup(s.deliveries, if AnswersNewest(s, e) then [CallbackFor(s, e)] else [], Callbacks(Next(s, e), run[1..]));
    }
  }

  lemma Regroup(a: seq<Delivery>, b: seq<Delivery>, c: seq<Delivery>)
    ensures a + b + c == a + (b + c)
  {
  }

  /**
   * Over every run the callbacks made are, in order, one for each answer that comes while its request is the
   * last thing issued or stopped, and no others.
   */
  lemma CallbacksAreForTheNewest(enabled: bool, run: seq<Event>)
    requires IsRun(Initial(enabled), run)
    ensures After(Initial(enabled), run).deliveries == Callbacks(Initial(enabled), run)
  {
    InitialHolds(enabled);
    RunDelivers(Initial(enabled), run);
    hide After, Callbacks;
    assert Initial(enabled).deliveries == [];
    assert [] + Callbacks(Initial(enabled), run) == Callbacks(Initial(enabled), run);
  }

  /**
   * A plain refresh issues a request exactly when the controller is active and visible and the newest
   * request has settled.
   */
  lemma RefreshIssuesIffSettled(s: State, e: Event)
    requires Inv(s) && Enabled(s, e) && (e.Refresh? || e.Tick?)
    ensures |Next(s, e).requests| > |s.requests| <==> s.active && s.visible && NewestUnsettled(s).None?
  {
  }

  // ---------------------------------------------------------------- requests side by side

  predicate Unsettled(s: State, r: RequestId) { r < |s.requests| && s.requests[r].stage != Settled }

  ghost predicate Issues(s: State, e: Event) { Enabled(s, e) && |Next(s, e).requests| > |s.requests| }

  /** The step issues a request while this one has not settled. */
  ghost predicate IssuesBeside(s: State, e: Event, r: RequestId) { Issues(s, e) && Unsettled(s, r) }

  /** The step forces a refresh over the newest request, which has not settled. */
  predicate ForcesOver(s: State, e: Event, r: RequestId) {
    e.ForceRefresh? && s.active && |s.requests| == r + 1 && Unsettled(s, r)
  }

  ghost predicate ForcedOver(s: State, run: seq<Event>, r: RequestId)
    requires IsRun(s, run)
    decreases |run|
  {
    run != [] && (ForcesOver(s, run[0], r) || ForcedOver(Next(s, run[0]), run[1..], r))
  }

  /** Some step of the run issues a request beside one that has not settled. */
  ghost predicate Overlaps(s: State, run: seq<Event>)
    requires IsRun(s, run)
    decreases |run|
  {
    run != [] && ((exists r :: IssuesBeside(s, run[0], r)) || Overlaps(Next(s, run[0]), run[1..]))
  }

  /** Some step of the run forces a refresh over a request that has not settled. */
  ghost predicate Forces(s: State, run: seq<Event>)
    requires IsRun(s, run)
    decreases |run|
  {
    run != [] && ((exists r :: ForcesOver(s, run[0], r)) || Forces(Next(s, run[0]), run[1..]))
  }

  ghost predicate OlderSettled(s: State) { forall r :: 0 <= r < |s.requests| - 1 ==> s.requests[r].stage == Settled }

  lemma SettledStays(s: State, e: Event, r: RequestId)
    requires Enabled(s, e) && r < |s.requests| && s.requests[r].stage == Settled
    ensures r < |Next(s, e).requests| && Next(s, e).requests[r].stage == Settled
  {
    hide Shown;
    if e.Resolve? || e.Reject? || e.CallbackThrows? || e.CallbackReturns? || e.Finish? {
      assert s.requests[e.request].stage != Settled;
    }
  }

  lemma {:induction false} SettledForGood(s: State, run: seq<Event>, r: RequestId)
    requires IsRun(s, run) && r < |s.requests| && s.requests[r].stage == Settled
    ensures !Unsettled(After(s, run), r)
    decreases |run|
  {
    if run != [] {
      SettledStays(s, run[0], r);
      SettledForGood(Next(s, run[0]), run[1..], r);
    }
  }

  /** One step at most adds one request; it does so over an unsettled newest request only when forced. */
  lemma IssuingIsForced(s: State, e: Event)
    requires Core(s) && Enabled(s, e)
    ensures |s.requests| <= |Next(s, e).requests| <= |s.requests| + 1
    ensures s.requests != [] && Unsettled(s, |s.requests| - 1) ==>
      (Issues(s, e) <==> ForcesOver(s, e, |s.requests| - 1))
  {
    assert s.inFlight == NewestUnsettled(s);
    hide Core, Shown;
    if e.Resolve? || e.Reject? || e.CallbackThrows? || e.CallbackReturns? || e.Finish? {
      assert |Next(s, e).requests| == |s.requests|;
    }
  }

  lemma BesideIffForced(s: State, e: Event, r: RequestId)
    requires Core(s) && OlderSettled(s) && Enabled(s, e)
    ensures IssuesBeside(s, e, r) <==> ForcesOver(s, e, r)
  {
    IssuingIsForced(s, e);
  }

  lemma OlderStaySettled(s: State, e: Event)
    requires Core(s) && OlderSettled(s) && Enabled(s, e) && forall r :: !ForcesOver(s, e, r)
    ensures OlderSettled(Next(s, e))
  {
    IssuingIsForced(s, e);
    var t := Next(s, e);
    assert s.requests != [] ==> !ForcesOver(s, e, |s.requests| - 1);
    forall r | 0 <= r < |t.requests| - 1 ensures t.requests[r].stage == Settled {
      if r < |s.requests| - 1 { SettledStays(s, e, r); }
      else { SettledStays(s, e, r); }
    }
  }

  lemma {:induction false} OverlapsIffForcesFrom(s: State, run: seq<Event>)
    requires Inv(s) && OlderSettled(s) && IsRun(s, run)
    ensures Overlaps(s, run) <==> Forces(s, run)
    decreases |run|
  {
    if run != [] {
      var e := run[0];
      hide Inv, OlderSettled, IssuesBeside, ForcesOver;
      forall r ensures IssuesBeside(s, e, r) <==> ForcesOver(s, e, r) { CoreOf(s); BesideIffForced(s, e, r); }
      if forall r :: !ForcesOver(s, e, r) {
        CoreOf(s);
        OlderStaySettled(s, e);
        StepKeepsInv(s, e);
        OverlapsIffForcesFrom(Next(s, e), run[1..]);
      }
    }
  }

  lemma CoreOf(s: State)
    requires Inv(s)
    ensures Core(s)
  {
  }

  /**
   * Two requests run side by side in a run exactly when a refresh is forced over a request that has not
   * settled: plain refreshes, ticks, starts and returns to view never bring it about.
   */
  lemma OverlapsIffForces(enabled: bool, run: seq<Event>)
    requires IsRun(Initial(enabled), run)
    ensures Overlaps(Initial(enabled), run) <==> Forces(Initial(enabled), run)
  {
    InitialHolds(enabled);
    OverlapsIffForcesFrom(Initial(enabled), run);
  }

  lemma {:induction false} LeftBehindIffForcedFrom(s: State, run: seq<Event>, r: RequestId)
    requires Inv(s) && IsRun(s, run) && Unsettled(After(s, run), r)
    ensures r + 1 < |After(s, run).requests| <==> r + 1 < |s.requests| || ForcedOver(s, run, r)
    decreases |run|
  {
    if run != [] {
      var e, t := run[0], Next(s, run[0]);
      assert r < |s.requests| ==> Unsettled(s, r) by {
        if r < |s.requests| && s.requests[r].stage == Settled { SettledForGood(s, run, r); }
      }
      CoreOf(s);
      IssuingIsForced(s, e);
      StepKeepsInv(s, e);
      hide Inv, Next;
      LeftBehindIffForcedFrom(t, run[1..], r);
    }
  }

  /**
   * In every reachable state a request that has not settled is older than the newest exactly when a refresh
   * was forced over it.
   */
  lemma LeftBehindIffForced(enabled: bool, run: seq<Event>, r: RequestId)
    requires IsRun(Initial(enabled), run) && Unsettled(After(Initial(enabled), run), r)
    ensures r + 1 < |After(Initial(enabled), run).requests| <==> ForcedOver(Initial(enabled), run, r)
  {
    InitialHolds(enabled);
    LeftBehindIffForcedFrom(Initial(enabled), run, r);
  }

  /** Every request that a step issues beside without being forced was itself forced over before. */
  lemma PlainStepIssuesBesideForced(enabled: bool, run: seq<Event>, e: Event, r: RequestId)
    requires IsRun(Initial(enabled), run) && !e.ForceRefresh?
    ensures IssuesBeside(After(Initial(enabled), run), e, r) ==> ForcedOver(Initial(enabled), run, r)
  {
    var s := After(Initial(enabled), run);
    InitialHolds(enabled);
    RunKeepsInv(Initial(enabled), run);
    hide After, Initial, ForcedOver;
    if IssuesBeside(s, e, r) {
      IssuingIsForced(s, e);
      LeftBehindIffForced(enabled, run, r);
    }
  }

  /**
   * Such a step from a new controller: after a forced refresh has settled, a plain one runs beside the
   * first request.
   */
  lemma PlainStepMayIssueBeside() returns (run: seq<Event>)
    ensures IsRun(Initial(true), run) && IssuesBeside(After(Initial(true), run), Refresh, 0)
  {
    run := [Start, ForceRefresh, Reject(1), Finish(1)];
    var s0 := Initial(true);
    var s1 := Next(s0, Start);
    var s2 := Next(s1, ForceRefresh);
    var s3 := Next(s2, Reject(1));
    var s4 := Next(s3, Finish(1));
    assert run[1..][0] == ForceRefresh && run[1..][1..][0] == Reject(1) && run[1..][1..][1..][0] == Finish(1);
    assert run[1..][1..][1..][1..] == [];
    hide Next;
    assert IsRun(s4, []) && After(s4, []) == s4;
  }

  /**
   * Stopping does not forget the request in flight: starting again issues a request exactly when the
   * newest one has settled, and otherwise waits for a reply that will be discarded.
   */
  lemma RestartIssuesIffSettled(s: State)
    requires Inv(s) && s.active && s.visible && s.enabled
    ensures var t := Next(Next(s, Stop), Start);
      && (|t.requests| > |s.requests| <==> NewestUnsettled(s).None?)
      && (NewestUnsettled(s).Some? ==>
        t.inFlight == NewestUnsettled(s) && t.requests[t.inFlight.value].sequence != t.requestSequence)
  {
    if s.requests != [] { assert RequestOk(s, |s.requests| - 1); }
  }
}
