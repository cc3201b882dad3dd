/** The pull-to-refresh edge trigger (SSListRefresher).

    The tracker reads two rectangles on every layout pass: the sentinel
    `pullDownRect` (the frame of the list's first row) and `displayRect` (the
    refresh indicator's natural frame).  When the sentinel has been pulled far
    enough below the indicator's top it asks, on the main queue, to send one
    trigger; the trigger's receiver starts the refresh and hands over the
    completion `stopObserving`.

    Every deferred step is an explicit event: `RunQueued` runs the oldest block
    handed to `DispatchQueue.main.async`; `CooldownElapsed` runs the oldest
    2-second timer started by `stopObserving`; `TriggerReceived` is the
    debounced publisher delivering a value. */
module ListRefresher {
  import opened Geometry

  /** A block waiting on the main queue. */
  datatype Block = FireIfEnabled | ReEnableIfDisabled

  datatype RefresherState = RefresherState(
    stopNotifying: bool,
    enableCallback: bool,
    isActive: bool,
    isRefreshing: bool,
    queue: seq<Block>,      // blocks handed to the main queue, oldest first
    cooldowns: nat,         // 2-second timers started and not yet run
    sent: nat,              // values sent to the trigger subject
    refreshRequests: nat)   // calls of `onRefresh` with the completion handle

  datatype RefresherEvent =
    | Sample(pullDownRect: Rect, displayRect: Rect)
    | RunQueued
    | TriggerReceived
    | StopObserving(allowMore: bool)
    | CooldownElapsed

  /** Extra pull, beyond the indicator's height, before a trigger is requested. */
  const NotifyMargin: real := 20.0
  /** A sentinel within this distance of the indicator's top counts as retracted. */
  const RetractSlack: real := 8.0
  /** The sentinel is tracked only below this multiple of the larger height. */
  const BandFactor: real := 3.0

  /** The host binds `isActive` and `isRefreshing`; the tracker's own state starts armed. */
  function Initial(isActive: bool): (s: RefresherState)
    ensures s.enableCallback && !s.stopNotifying && s.queue == [] && s.sent == 0
  {
    RefresherState(false, true, isActive, false, [], 0, 0, 0)
  }

  /** `refresherView`'s band test: the sentinel is below the indicator's top
      and less than three of the larger height down. */
  predicate InBand(pull: Rect, display: Rect)
  {
    MinY(pull) > MinY(display) && MinY(pull) < Max(Height(pull), Height(display)) * BandFactor
  }

  /** Height of the indicator frame shown while the sentinel is in the band. */
  function IndicatorHeight(pull: Rect, display: Rect): (h: real)
    requires InBand(pull, display)
    ensures h > 0.0 && MinY(display) + h == MinY(pull)
  {
    MinY(pull) - MinY(display)
  }

  /** The sentinel has left the retracted zone near the indicator's top. */
  predicate Pulled(pull: Rect, display: Rect)
  {
    MinY(pull) > MinY(display) + RetractSlack
  }

  /** The pull is deep enough to ask for a trigger. */
  predicate PastThreshold(pull: Rect, display: Rect)
  {
    Pulled(pull, display) && MinY(pull) - MinY(display) > Height(display) + NotifyMargin
  }

  /** `trackRefreshableEvent`: hands at most one block to the main queue. */
  function Track(s: RefresherState, pull: Rect, display: Rect): RefresherState
  {
    if s.stopNotifying then s
    else if Pulled(pull, display) then
      if PastThreshold(pull, display) && s.enableCallback then s.(queue := s.queue + [FireIfEnabled]) else s
    else if !s.enableCallback then s.(queue := s.queue + [ReEnableIfDisabled])
    else s
  }

  /** A main-queue block re-reads `enableCallback` when it runs. */
  function RunBlock(s: RefresherState, b: Block): RefresherState
  {
    match b
    case FireIfEnabled => if s.enableCallback then s.(enableCallback := false, sent := s.sent + 1) else s
    case ReEnableIfDisabled => if !s.enableCallback then s.(enableCallback := true) else s
  }

  /** One event.  A sample is looked at only while `isActive` (the modifier
      otherwise returns the plain content) and only inside the band; a trigger
      is handled only while `isActive`. */
  function Step(s: RefresherState, e: RefresherEvent): RefresherState
  {
    match e
    case Sample(pull, display) =>
      if s.isActive && InBand(pull, display) then Track(s, pull, display) else s
    case RunQueued =>
      if s.queue == [] then s else RunBlock(s.(queue := s.queue[1..]), s.queue[0])
    case TriggerReceived =>
      if s.isActive then s.(isRefreshing := true, refreshRequests := s.refreshRequests + 1) else s
    case StopObserving(allowMore) =>
      s.(stopNotifying := true, isActive := allowMore, isRefreshing := false, cooldowns := s.cooldowns + 1)
    case CooldownElapsed =>
      if s.cooldowns == 0 then s else s.(stopNotifying := false, cooldowns := s.cooldowns - 1)
  }

  function Run(s: RefresherState, events: seq<RefresherEvent>): RefresherState
    decreases |events|
  {
    if events == [] then s else Run(Step(s, events[0]), events[1..])
  }

  function Count(q: seq<Block>, b: Block): (n: nat)
    ensures n <= |q|
    decreases |q|
  {
    if q == [] then 0 else (if q[0] == b then 1 else 0) + Count(q[1..], b)
  }

  lemma {:induction false} CountAppend(q: seq<Block>, x: Block, b: Block)
    ensures Count(q + [x], b) == Count(q, b) + (if x == b then 1 else 0)
    decreases |q|
  {
    if q == [] {
      assert q + [x] == [x];
    } else {
      assert (q + [x])[1..] == q[1..] + [x];
      CountAppend(q[1..], x, b);
    }
  }

  /** A sample a disarmed tracker evaluates with the sentinel in the
      retracted zone: it queues a re-arm block, the only thing that can re-arm
      the tracker.  A retracted sample while armed queues nothing. */
  predicate Retracting(s: RefresherState, e: RefresherEvent)
  {
    e.Sample? && s.isActive && !s.stopNotifying && !s.enableCallback
    && InBand(e.pullDownRect, e.displayRect) && !Pulled(e.pullDownRect, e.displayRect)
  }

  /** The sends still possible without a new retraction: the armed flag plus
      the re-enabling blocks waiting on the main queue. */
  function Credit(s: RefresherState): nat
  {
    (if s.enableCallback then 1 else 0) + Count(s.queue, ReEnableIfDisabled)
  }

  function Retractions(s: RefresherState, events: seq<RefresherEvent>): nat
    decreases |events|
  {
    if events == [] then 0
    else (if Retracting(s, events[0]) then 1 else 0) + Retractions(Step(s, events[0]), events[1..])
  }

  /** The plain content is returned while inactive: samples and triggers do nothing. */
  lemma InactiveIgnoresGeometry(s: RefresherState, pull: Rect, display: Rect)
    requires !s.isActive
    ensures Step(s, Sample(pull, display)) == s
    ensures Step(s, TriggerReceived) == s
  {
  }

  /** While the cooldown holds `stopNotifying`, samples change nothing. */
  lemma StoppedIgnoresGeometry(s: RefresherState, pull: Rect, display: Rect)
    requires s.stopNotifying
    ensures Step(s, Sample(pull, display)) == s
  {
  }

  /** One step: a send happens only by running a fire block while armed, and
      a fire block is queued only by an active, unstopped, armed tracker whose
      sentinel is in the band and past the threshold. */
  lemma FireConditions(s: RefresherState, e: RefresherEvent)
    ensures s.sent <= Step(s, e).sent <= s.sent + 1
    ensures Step(s, e).sent == s.sent + 1 <==>
      e.RunQueued? && s.queue != [] && s.queue[0] == FireIfEnabled && s.enableCallback
    ensures Step(s, e).sent == s.sent + 1 ==> !Step(s, e).enableCallback
    ensures Step(s, e).queue == s.queue + [FireIfEnabled] <==>
      e.Sample? && s.isActive && !s.stopNotifying && s.enableCallback
      && InBand(e.pullDownRect, e.displayRect) && PastThreshold(e.pullDownRect, e.displayRect)
  {
    if e.RunQueued? && s.queue != [] {
      assert |Step(s, e).queue| < |s.queue + [FireIfEnabled]|;
    }
    if e.Sample? && Step(s, e).queue == s.queue + [FireIfEnabled] {
      assert Step(s, e).queue != s.queue + [ReEnableIfDisabled] by {
        assert (s.queue + [FireIfEnabled])[|s.queue|] == FireIfEnabled;
      }
    }
  }

  /** The credit never grows except by a retracting sample, and each send
      spends one. */
  lemma StepCredit(s: RefresherState, e: RefresherEvent)
    ensures Step(s, e).sent + Credit(Step(s, e)) <= s.sent + Credit(s) + (if Retracting(s, e) then 1 else 0)
  {
    match e
    case Sample(pull, display) =>
      if s.isActive && InBand(pull, display) && !s.stopNotifying {
        CountAppend(s.queue, FireIfEnabled, ReEnableIfDisabled);
        CountAppend(s.queue, ReEnableIfDisabled, ReEnableIfDisabled);
      }
    case RunQueued =>
      if s.queue != [] {
        assert Count(s.queue, ReEnableIfDisabled)
          == (if s.queue[0] == ReEnableIfDisabled then 1 else 0) + Count(s.queue[1..], ReEnableIfDisabled);
      }
    case TriggerReceived =>
    case StopObserving(_) =>
    case CooldownElapsed =>
  }

  /** Rising edge only: over any run, the sends plus the credit left grow by at
      most the number of retracting samples. */
  lemma {:induction false} SendsBoundedByRetractions(s: RefresherState, events: seq<RefresherEvent>)
    ensures Run(s, events).sent + Credit(Run(s, events)) <= s.sent + Credit(s) + Retractions(s, events)
    decreases |events|
  {
    if events != [] {
      StepCredit(s, events[0]);
      SendsBoundedByRetractions(Step(s, events[0]), events[1..]);
    }
  }

  /** At most one trigger per pull: from a fresh tracker, every send after the
      first needs its own retracting sample in between. */
  lemma AtMostOneSendPerPull(isActive: bool, events: seq<RefresherEvent>)
    ensures Run(Initial(isActive), events).sent <= 1 + Retractions(Initial(isActive), events)
  {
    SendsBoundedByRetractions(Initial(isActive), events);
  }

  /** After a send, samples past the threshold cannot send again until a
      retracting sample has been seen. */
  lemma {:induction false} NoRefireWithoutRetraction(s: RefresherState, events: seq<RefresherEvent>)
    requires !s.enableCallback && Count(s.queue, ReEnableIfDisabled) == 0
    requires Retractions(s, events) == 0
    ensures Run(s, events).sent == s.sent
  {
    SendsBoundedByRetractions(s, events);
    assert Run(s, events).sent >= s.sent by { SentNeverDecreases(s, events); }
  }

  lemma {:induction false} SentNeverDecreases(s: RefresherState, events: seq<RefresherEvent>)
    ensures Run(s, events).sent >= s.sent
    decreases |events|
  {
    if events != [] {
      FireConditions(s, events[0]);
      SentNeverDecreases(Step(s, events[0]), events[1..]);
    }
  }

  /** All `a` blocks of the queue come before all its `b` blocks. */
  predicate Ordered(q: seq<Block>, a: Block, b: Block)
  {
    forall i, j :: 0 <= i < j < |q| ==> !(q[i] == b && q[j] == a)
  }

  /** The shape of the main queue: an armed tracker has its re-arm blocks
      ahead of its fire blocks, a disarmed one its fire blocks ahead of its
      re-arm blocks. */
  predicate Shaped(s: RefresherState)
  {
    if s.enableCallback then Ordered(s.queue, ReEnableIfDisabled, FireIfEnabled)
    else Ordered(s.queue, FireIfEnabled, ReEnableIfDisabled)
  }

  lemma {:induction false} CountAbsent(q: seq<Block>, b: Block)
    requires forall i :: 0 <= i < |q| ==> q[i] != b
    ensures Count(q, b) == 0
    decreases |q|
  {
    if q != [] {
      CountAbsent(q[1..], b);
    }
  }

  /** Every step keeps the queue's shape. */
  lemma StepShaped(s: RefresherState, e: RefresherEvent)
    requires Shaped(s)
    ensures Shaped(Step(s, e))
  {
    var q := s.queue;
    if e.Sample? {
      var t := Step(s, e);
      if t.queue != q {
        if s.enableCallback {
          assert t.queue == q + [FireIfEnabled];
          assert Ordered(t.queue, ReEnableIfDisabled, FireIfEnabled) by {
            forall i, j | 0 <= i < j < |t.queue| ensures !(t.queue[i] == FireIfEnabled && t.queue[j] == ReEnableIfDisabled) {
              if j < |q| { assert t.queue[i] == q[i] && t.queue[j] == q[j]; }
            }
          }
        } else {
          assert t.queue == q + [ReEnableIfDisabled];
          assert Ordered(t.queue, FireIfEnabled, ReEnableIfDisabled) by {
            forall i, j | 0 <= i < j < |t.queue| ensures !(t.queue[i] == ReEnableIfDisabled && t.queue[j] == FireIfEnabled) {
              if j < |q| { assert t.queue[i] == q[i] && t.queue[j] == q[j]; }
            }
          }
        }
      }
    } else if e.RunQueued? && q != [] {
      var rest := q[1..];
      forall i, j | 0 <= i < j < |rest| ensures rest[i] == q[i + 1] && rest[j] == q[j + 1] {
      }
      if s.enableCallback && q[0] == FireIfEnabled {
        forall j | 0 <= j < |rest| ensures rest[j] != ReEnableIfDisabled {
          assert q[j + 1] == rest[j];
        }
      } else if !s.enableCallback && q[0] == ReEnableIfDisabled {
        forall j | 0 <= j < |rest| ensures rest[j] != FireIfEnabled {
          assert q[j + 1] == rest[j];
        }
      }
    }
  }

  lemma {:induction false} RunShaped(s: RefresherState, events: seq<RefresherEvent>)
    requires Shaped(s)
    ensures Shaped(Run(s, events))
    decreases |events|
  {
    if events != [] {
      StepShaped(s, events[0]);
      RunShaped(Step(s, events[0]), events[1..]);
    }
  }

  /** A send leaves the tracker disarmed with no re-arm block waiting: the
      fire block that sent was at the front of an armed queue, so every block
      behind it is a fire block. */
  lemma SendLeavesNoReArm(s: RefresherState, e: RefresherEvent)
    requires Shaped(s)
    requires Step(s, e).sent == s.sent + 1
    ensures !Step(s, e).enableCallback
    ensures Count(Step(s, e).queue, ReEnableIfDisabled) == 0
  {
    FireConditions(s, e);
    var q := s.queue;
    var rest := q[1..];
    assert Step(s, e).queue == rest;
    forall j | 0 <= j < |rest| ensures rest[j] != ReEnableIfDisabled {
      assert q[j + 1] == rest[j];
    }
    CountAbsent(rest, ReEnableIfDisabled);
  }

  /** At most one trigger per pull: in any run of a new tracker, once a value
      has been sent, nothing more is sent until the sentinel has come back to
      the retracted zone. */
  lemma NoRefireAfterSend(isActive: bool, before: seq<RefresherEvent>, e: RefresherEvent, after: seq<RefresherEvent>)
    requires var s := Run(Initial(isActive), before); Step(s, e).sent == s.sent + 1
    requires Retractions(Step(Run(Initial(isActive), before), e), after) == 0
    ensures var t := Step(Run(Initial(isActive), before), e); Run(t, after).sent == t.sent
  {
    var s := Run(Initial(isActive), before);
    assert Shaped(Initial(isActive));
    RunShaped(Initial(isActive), before);
    SendLeavesNoReArm(s, e);
    NoRefireWithoutRetraction(Step(s, e), after);
  }

  /** Nothing but a completion with `allowMore == true` activates the tracker,
      and an inactive tracker queues nothing new: after `stopObserving(false)`
      the only sends left are fire blocks that were already queued. */
  lemma {:induction false} DisabledForGood(s: RefresherState, events: seq<RefresherEvent>)
    requires !s.isActive
    requires forall i :: 0 <= i < |events| ==> events[i] != StopObserving(true)
    ensures !Run(s, events).isActive
    ensures Run(s, events).refreshRequests == s.refreshRequests
    ensures Run(s, events).sent + Count(Run(s, events).queue, FireIfEnabled) <= s.sent + Count(s.queue, FireIfEnabled)
    decreases |events|
  {
    if events != [] {
      var t := Step(s, events[0]);
      if events[0].RunQueued? && s.queue != [] {
        assert Count(s.queue, FireIfEnabled)
          == (if s.queue[0] == FireIfEnabled then 1 else 0) + Count(s.queue[1..], FireIfEnabled);
      }
      DisabledForGood(t, events[1..]);
    }
  }

  /** `stopObserving` sets its three fields at once and starts one cooldown;
      only the cooldown's end clears `stopNotifying`. */
  lemma CompletionThenCooldown(s: RefresherState, allowMore: bool)
    ensures var t := Step(s, StopObserving(allowMore));
      t.stopNotifying && t.isActive == allowMore && !t.isRefreshing && t.cooldowns == s.cooldowns + 1
      && t.enableCallback == s.enableCallback && t.queue == s.queue
    ensures !Step(Step(s, StopObserving(allowMore)), CooldownElapsed).stopNotifying
  {
  }

  /** A received trigger marks the refresh and calls `onRefresh` once. */
  lemma TriggerStartsRefresh(s: RefresherState)
    requires s.isActive
    ensures Step(s, TriggerReceived).isRefreshing
    ensures Step(s, TriggerReceived).refreshRequests == s.refreshRequests + 1
  {
  }

  /** The full cycle: a completion that allows more, its cooldown, a sentinel
      back in the retracted zone and then a deep pull send exactly once more. */
  lemma RearmAfterCooldown(s: RefresherState, back: Rect, pull: Rect, display: Rect)
    requires s.isActive && s.queue == [] && s.cooldowns == 0
    requires InBand(back, display) && !Pulled(back, display)
    requires InBand(pull, display) && PastThreshold(pull, display)
    ensures Run(s, [StopObserving(true), CooldownElapsed, Sample(back, display), RunQueued,
                    Sample(pull, display), RunQueued]).sent == s.sent + 1
  {
    var s1 := Step(s, StopObserving(true));
    var s2 := Step(s1, CooldownElapsed);
    assert !s2.stopNotifying && s2.isActive && s2.queue == [];
    var s3 := Step(s2, Sample(back, display));
    var s4 := Step(s3, RunQueued);
    assert s4.enableCallback && s4.queue == [] && s4.sent == s.sent;
    var s5 := Step(s4, Sample(pull, display));
    assert s5.queue == [FireIfEnabled];
    var s6 := Step(s5, RunQueued);
    assert s6.sent == s.sent + 1;
    var evs := [StopObserving(true), CooldownElapsed, Sample(back, display), RunQueued, Sample(pull, display), RunQueued];
    assert Run(s, evs) == Run(s1, evs[1..]);
    assert Run(s1, evs[1..]) == Run(s2, evs[2..]);
    assert Run(s2, evs[2..]) == Run(s3, evs[3..]);
    assert Run(s3, evs[3..]) == Run(s4, evs[4..]);
    assert Run(s4, evs[4..]) == Run(s5, evs[5..]);
    assert Run(s5, evs[5..]) == Run(s6, []);
  }

  /** One layout pass with the sentinel's top at each of `ys` in turn, the
      main queue drained after each. */
  function PullThrough(s: RefresherState, ys: seq<real>, display: Rect): RefresherState
    decreases |ys|
  {
    if ys == [] then s
    else PullThrough(Step(Step(s, Sample(Rect(0.0, ys[0], 320.0, 60.0), display)), RunQueued), ys[1..], display)
  }

  /** The indicator 50 high at the list's top, a sentinel 60 high pulled
      through 0, 10, 30, 55, 72, 76 and 80: exactly one send, at 72. */
  lemma PullSequenceSendsOnce()
    ensures var display := Rect(0.0, 0.0, 320.0, 50.0);
      var s1 := PullThrough(Initial(true), [0.0, 10.0, 30.0, 55.0], display);
      var s2 := PullThrough(s1, [72.0], display);
      s1.sent == 0 && s2.sent == 1 && PullThrough(s2, [76.0, 80.0], display).sent == 1
  {
    var display := Rect(0.0, 0.0, 320.0, 50.0);
    var s0 := Initial(true);
    var a := PullThrough(s0, [0.0, 10.0, 30.0, 55.0], display);
    assert PullThrough(s0, [0.0, 10.0, 30.0, 55.0], display) == PullThrough(s0, [10.0, 30.0, 55.0], display);
    assert PullThrough(s0, [10.0, 30.0, 55.0], display) == PullThrough(s0, [30.0, 55.0], display);
    assert PullThrough(s0, [30.0, 55.0], display) == PullThrough(s0, [55.0], display);
    assert PullThrough(s0, [55.0], display) == s0;
    var b := PullThrough(a, [72.0], display);
    assert b == s0.(enableCallback := false, sent := 1);
    assert PullThrough(b, [76.0, 80.0], display) == PullThrough(b, [80.0], display);
    assert PullThrough(b, [80.0], display) == b;
  }

  /** The tracker itself: the modifier's `@State` fields and the host
      bindings it writes, with the deferred work it has handed out. */
  class SSListRefresher {
    var stopNotifying: bool
    var enableCallback: bool
    var isActive: bool
    var isRefreshing: bool
    var queue: seq<Block>
    var cooldowns: nat
    var sent: nat
    var refreshRequests: nat

    function State(): RefresherState
      reads this
    {
      RefresherState(stopNotifying, enableCallback, isActive, isRefreshing, queue, cooldowns, sent, refreshRequests)
    }

    constructor (isActive: bool)
      ensures State() == Initial(isActive)
    {
      stopNotifying := false;
      enableCallback := true;
      this.isActive := isActive;
      isRefreshing := false;
      queue := [];
      cooldowns := 0;
      sent := 0;
      refreshRequests := 0;
    }

    /** `body` and `refresherView` evaluated with the current geometry. */
    method Body(pullDownRect: Rect, displayRect: Rect)
      modifies this
      ensures State() == Step(old(State()), Sample(pullDownRect, displayRect))
      ensures !old(isActive) || old(stopNotifying) ==> State() == old(State())
    {
      if isActive {
        var newY := MinY(pullDownRect);
        var maxAllowedY := if Height(pullDownRect) > Height(displayRect) then Height(pullDownRect) else Height(displayRect);
        if newY > MinY(displayRect) && newY < maxAllowedY * BandFactor {
          TrackRefreshableEvent(pullDownRect, displayRect);
        }
      }
    }

    method TrackRefreshableEvent(pullDownRect: Rect, displayRect: Rect)
      modifies this
      ensures State() == Track(old(State()), pullDownRect, displayRect)
    {
      if !stopNotifying {
        var newY := MinY(pullDownRect);
        if newY > MinY(displayRect) + RetractSlack {
          var newHeight := newY - MinY(displayRect);
          var notifyAtHeight := Height(displayRect) + NotifyMargin;
          if newHeight > notifyAtHeight {
            if enableCallback {
              queue := queue + [FireIfEnabled];
            }
          }
        } else {
          if !enableCallback {
            queue := queue + [ReEnableIfDisabled];
          }
        }
      }
    }

    /** The main queue runs the oldest block handed to it, if any. */
    method RunQueued()
      modifies this
      ensures State() == Step(old(State()), RefresherEvent.RunQueued)
    {
      if queue != [] {
        var block := queue[0];
        queue := queue[1..];
        match block
        case FireIfEnabled =>
          if enableCallback {
            enableCallback := !enableCallback;
            sent := sent + 1;
          }
        case ReEnableIfDisabled =>
          if !enableCallback {
            enableCallback := !enableCallback;
          }
      }
    }

    /** The `onReceive` handler, attached only while `isActive`. */
    method ReceiveTrigger()
      modifies this
      ensures State() == Step(old(State()), TriggerReceived)
    {
      if isActive {
        isRefreshing := true;
        refreshRequests := refreshRequests + 1;
      }
    }

    /** The completion handle given to `onRefresh`. */
    method StopObserving(allowMore: bool)
      modifies this
      ensures State() == Step(old(State()), RefresherEvent.StopObserving(allowMore))
    {
      stopNotifying := true;
      isActive := allowMore;
      isRefreshing := false;
      cooldowns := cooldowns + 1;
    }

    /** The oldest 2-second timer started by `StopObserving` runs, if any. */
    method CooldownElapsed()
      modifies this
      ensures State() == Step(old(State()), RefresherEvent.CooldownElapsed)
    {
      if cooldowns > 0 {
        stopNotifying := false;
        cooldowns := cooldowns - 1;
      }
    }
  }
}
