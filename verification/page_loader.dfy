/** The load-more edge trigger (SSNewPageLoader).

    The tracker reads the sentinel `pullUpRect` (the frame of the list's last
    row) and `displayRect` (the load-more indicator's frame at the bottom of the
    list).  When the sentinel has risen far enough above the indicator's top it
    asks the main queue to send a trigger; the trigger's receiver marks the
    page load and, 0.7 seconds later, resets the sentinel and calls
    `onPageLoad` with the completion `stopRefreshing`.

    Deferred work is explicit: `RunQueued` runs the oldest block handed to
    `DispatchQueue.main.async`; `LoadDelayElapsed` runs the oldest 0.7-second
    timer; `CooldownElapsed` runs the oldest 2-second timer started by
    `stopRefreshing`; `TriggerReceived` is the debounced publisher delivering a
    value. */
module PageLoader {
  import opened Geometry

  /** A block waiting on the main queue. */
  datatype Block = SendTrigger | ReEnable

  datatype LoaderState = LoaderState(
    stopRefresh: bool,
    enableCallback: bool,
    isPageLoading: bool,
    isActive: bool,
    pullUpRect: Rect,
    queue: seq<Block>,      // blocks handed to the main queue, oldest first
    pendingLoads: nat,      // 0.7-second timers started and not yet run
    cooldowns: nat,         // 2-second timers started and not yet run
    sent: nat,              // values sent to the trigger subject
    loadRequests: nat)      // calls of `onPageLoad` with the completion handle

  datatype LoaderEvent =
    | Sample(pullUpRect: Rect, displayRect: Rect)
    | RunQueued
    | TriggerReceived
    | LoadDelayElapsed
    | StopRefreshing(allowMore: bool)
    | CooldownElapsed

  /** The host binds `isActive`, `isPageLoading` and the sentinel; the
      tracker's own state starts armed. */
  function Initial(isActive: bool, pullUpRect: Rect): (s: LoaderState)
    ensures s.enableCallback && !s.stopRefresh && !s.isPageLoading && s.queue == [] && s.pendingLoads == 0
  {
    LoaderState(false, true, false, isActive, pullUpRect, [], 0, 0, 0, 0)
  }

  /** `loadMoreView` tracks, and shows the indicator, only for a measured
      sentinel whose top is at or above the indicator's top. */
  predicate Tracked(pull: Rect, display: Rect)
  {
    pull != Zero && MinY(pull) <= MinY(display)
  }

  /** The indicator frame's height: the rise of the sentinel above the
      indicator's top, clamped to the indicator's own height. */
  function FrameHeight(pull: Rect, display: Rect): (h: real)
    ensures 0.0 <= h <= Height(display)
    ensures 0.0 <= MinY(display) - MinY(pull) <= Height(display) ==> h == MinY(display) - MinY(pull)
    ensures MinY(display) - MinY(pull) < 0.0 ==> h == 0.0
    ensures MinY(display) - MinY(pull) > Height(display) ==> h == Height(display)
  {
    var newHeight := MinY(display) - MinY(pull);
    if newHeight < 0.0 then 0.0 else if newHeight > Height(display) then Height(display) else newHeight
  }

  /** The distance the sentinel must rise above the indicator's top. */
  function NotifyAtHeight(display: Rect, extra: real): real
  {
    Height(display) + extra
  }

  /** The outer test of `trackRefreshableEvent`. */
  predicate PastThreshold(pull: Rect, display: Rect, extra: real)
  {
    MinY(pull) + NotifyAtHeight(display, extra) < MinY(display)
  }

  /** The inner test `newHeight > notifyAtHeight` adds nothing to the outer one. */
  lemma InnerTestIsOuterTest(pull: Rect, display: Rect, extra: real)
    ensures PastThreshold(pull, display, extra) <==> MinY(display) - MinY(pull) > NotifyAtHeight(display, extra)
  {
  }

  /** `trackRefreshableEvent`: hands at most one block to the main queue. */
  function Track(s: LoaderState, pull: Rect, display: Rect, extra: real): LoaderState
  {
    if s.stopRefresh then s
    else if PastThreshold(pull, display, extra) then
      if MinY(display) - MinY(pull) > NotifyAtHeight(display, extra) && s.enableCallback
      then s.(queue := s.queue + [SendTrigger]) else s
    else if !s.enableCallback then s.(queue := s.queue + [ReEnable])
    else s
  }

  /** One event for a loader configured with `extra` as its `notifyVariableHeight`.
      A sample is the host's new sentinel frame followed by `loadMoreView`. */
  function Step(s: LoaderState, e: LoaderEvent, extra: real): LoaderState
  {
    match e
    case Sample(pull, display) =>
      var t := s.(pullUpRect := pull);
      if Tracked(pull, display) then Track(t, pull, display, extra) else t
    case RunQueued =>
      if s.queue == [] then s
      else
        var t := s.(queue := s.queue[1..]);
        if s.queue[0] == SendTrigger then t.(sent := t.sent + 1) else t.(enableCallback := true)
    case TriggerReceived =>
      var t := s.(enableCallback := false);
      if !s.stopRefresh && !s.isPageLoading
      then t.(stopRefresh := true, isPageLoading := true, pendingLoads := s.pendingLoads + 1)
      else t
    case LoadDelayElapsed =>
      if s.pendingLoads == 0 then s
      else s.(pullUpRect := Zero, loadRequests := s.loadRequests + 1, pendingLoads := s.pendingLoads - 1)
    case StopRefreshing(allowMore) =>
      s.(stopRefresh := true, isActive := allowMore, isPageLoading := false, cooldowns := s.cooldowns + 1)
    case CooldownElapsed =>
      if s.cooldowns == 0 then s else s.(stopRefresh := false, cooldowns := s.cooldowns - 1)
  }

  function Run(s: LoaderState, events: seq<LoaderEvent>, extra: real): LoaderState
    decreases |events|
  {
    if events == [] then s else Run(Step(s, events[0], extra), events[1..], extra)
  }

  /** An unmeasured sentinel hides the indicator and queues nothing, and so
      does one below the indicator's top. */
  lemma UntrackedSampleQueuesNothing(s: LoaderState, pull: Rect, display: Rect, extra: real)
    requires pull == Zero || MinY(pull) > MinY(display)
    ensures Step(s, Sample(pull, display), extra) == s.(pullUpRect := pull)
  {
  }

  /** A sample queues a send exactly when the tracker is not stopped, is armed,
      and the measured sentinel is past the threshold on the tracked side. */
  lemma SendConditions(s: LoaderState, pull: Rect, display: Rect, extra: real)
    ensures Step(s, Sample(pull, display), extra).queue == s.queue + [SendTrigger] <==>
      Tracked(pull, display) && !s.stopRefresh && s.enableCallback && PastThreshold(pull, display, extra)
    ensures Step(s, Sample(pull, display), extra).queue == s.queue + [ReEnable] <==>
      Tracked(pull, display) && !s.stopRefresh && !s.enableCallback && !PastThreshold(pull, display, extra)
  {
    assert (s.queue + [SendTrigger])[|s.queue|] != (s.queue + [ReEnable])[|s.queue|];
    assert s.queue + [SendTrigger] != s.queue + [ReEnable];
    assert s.queue != s.queue + [SendTrigger] && s.queue != s.queue + [ReEnable];
  }

  /** Every trigger disarms; a load is scheduled only when neither the cooldown
      nor a load is in progress, so a repeated trigger mid-load schedules nothing. */
  lemma TriggerSchedulesOnce(s: LoaderState, extra: real)
    ensures !Step(s, TriggerReceived, extra).enableCallback
    ensures Step(s, TriggerReceived, extra).pendingLoads == s.pendingLoads + (if !s.stopRefresh && !s.isPageLoading then 1 else 0)
    ensures !s.stopRefresh && !s.isPageLoading ==>
      Step(s, TriggerReceived, extra).stopRefresh && Step(s, TriggerReceived, extra).isPageLoading
    ensures var t := Step(s, TriggerReceived, extra);
      Step(t, TriggerReceived, extra) == t
  {
  }

  /** The delayed step resets the sentinel to zero and calls `onPageLoad`. */
  lemma DelayedLoadCallsOnPageLoad(s: LoaderState, extra: real)
    requires s.pendingLoads > 0
    ensures Step(s, LoadDelayElapsed, extra).pullUpRect == Zero
    ensures Step(s, LoadDelayElapsed, extra).loadRequests == s.loadRequests + 1
  {
  }

  /** `stopRefreshing` sets its three fields and starts a cooldown; only the
      cooldown's end clears `stopRefresh`, and a trigger in between schedules nothing. */
  lemma CompletionThenCooldown(s: LoaderState, allowMore: bool, extra: real)
    ensures var t := Step(s, StopRefreshing(allowMore), extra);
      t.stopRefresh && t.isActive == allowMore && !t.isPageLoading && t.cooldowns == s.cooldowns + 1
    ensures var t := Step(s, StopRefreshing(allowMore), extra);
      Step(t, TriggerReceived, extra).pendingLoads == t.pendingLoads
    ensures !Step(Step(s, StopRefreshing(allowMore), extra), CooldownElapsed, extra).stopRefresh
  {
  }

  function Completions(events: seq<LoaderEvent>): nat
    decreases |events|
  {
    if events == [] then 0 else (if events[0].StopRefreshing? then 1 else 0) + Completions(events[1..])
  }

  /** Loads scheduled so far, run or not. */
  function Scheduled(s: LoaderState): nat
  {
    s.pendingLoads + s.loadRequests
  }

  function Idle(s: LoaderState): nat
  {
    if s.isPageLoading then 0 else 1
  }

  /** One step schedules a load only by turning `isPageLoading` on, and only a
      completion turns it off. */
  lemma StepLoads(s: LoaderState, e: LoaderEvent, extra: real)
    ensures Scheduled(Step(s, e, extra)) + Idle(Step(s, e, extra)) <= Scheduled(s) + Idle(s) + (if e.StopRefreshing? then 1 else 0)
  {
    match e
    case Sample(pull, display) =>
      var t := s.(pullUpRect := pull);
      if Tracked(pull, display) {
        assert Track(t, pull, display, extra).pendingLoads == s.pendingLoads;
        assert Track(t, pull, display, extra).isPageLoading == s.isPageLoading;
      }
    case RunQueued =>
    case TriggerReceived =>
    case LoadDelayElapsed =>
    case StopRefreshing(_) =>
    case CooldownElapsed =>
  }

  /** At most one outstanding load: over any run, the loads scheduled grow by
      at most the completions in it (plus one if no load was in progress). */
  lemma {:induction false} LoadsBoundedByCompletions(s: LoaderState, events: seq<LoaderEvent>, extra: real)
    ensures Scheduled(Run(s, events, extra)) + Idle(Run(s, events, extra)) <= Scheduled(s) + Idle(s) + Completions(events)
    decreases |events|
  {
    if events != [] {
      StepLoads(s, events[0], extra);
      LoadsBoundedByCompletions(Step(s, events[0], extra), events[1..], extra);
    }
  }

  lemma AtMostOneLoadPerCompletion(isActive: bool, pullUpRect: Rect, events: seq<LoaderEvent>, extra: real)
    ensures Scheduled(Run(Initial(isActive, pullUpRect), events, extra)) <= 1 + Completions(events)
  {
    LoadsBoundedByCompletions(Initial(isActive, pullUpRect), events, extra);
  }

  /** The tracker itself: the modifier's `@State` fields, the host bindings it
      writes and the deferred work it has handed out. */
  class SSNewPageLoader {
    const notifyVariableHeight: real
    var stopRefresh: bool
    var enableCallback: bool
    var isPageLoading: bool
    var isActive: bool
    var pullUpRect: Rect
    var queue: seq<Block>
    var pendingLoads: nat
    var cooldowns: nat
    var sent: nat
    var loadRequests: nat

    function State(): LoaderState
      reads this
    {
      LoaderState(stopRefresh, enableCallback, isPageLoading, isActive, pullUpRect, queue,
                  pendingLoads, cooldowns, sent, loadRequests)
    }

    constructor (isActive: bool, pullUpRect: Rect, notifyVariableHeight: real)
      ensures this.notifyVariableHeight == notifyVariableHeight
      ensures State() == Initial(isActive, pullUpRect)
    {
      this.notifyVariableHeight := notifyVariableHeight;
      stopRefresh := false;
      enableCallback := true;
      isPageLoading := false;
      this.isActive := isActive;
      this.pullUpRect := pullUpRect;
      queue := [];
      pendingLoads := 0;
      cooldowns := 0;
      sent := 0;
      loadRequests := 0;
    }

    /** The host's new sentinel frame, then `body`/`loadMoreView`. */
    method Body(newPullUpRect: Rect, displayRect: Rect)
      modifies this
      ensures State() == Step(old(State()), Sample(newPullUpRect, displayRect), notifyVariableHeight)
    {
      pullUpRect := newPullUpRect;
      if pullUpRect != Zero {
        var newY := MinY(pullUpRect);
        if newY <= MinY(displayRect) {
          TrackRefreshableEvent(pullUpRect, displayRect);
        }
      }
    }

    method TrackRefreshableEvent(pull: Rect, displayRect: Rect)
      modifies this
      ensures State() == Track(old(State()), pull, displayRect, notifyVariableHeight)
    {
      if !stopRefresh {
        var newY := MinY(pull);
        var notifyAtHeight := Height(displayRect) + notifyVariableHeight;
        if newY + notifyAtHeight < MinY(displayRect) {
          var newHeight := MinY(displayRect) - newY;
          if newHeight > notifyAtHeight {
            if enableCallback {
              queue := queue + [SendTrigger];
            }
          }
        } else {
          if !enableCallback {
            queue := queue + [ReEnable];
          }
        }
      }
    }

    /** The main queue runs the oldest block handed to it, if any. */
    method RunQueued()
      modifies this
      ensures State() == Step(old(State()), LoaderEvent.RunQueued, notifyVariableHeight)
    {
      if queue != [] {
        var block := queue[0];
        queue := queue[1..];
        match block
        case SendTrigger => sent := sent + 1;
        case ReEnable => enableCallback := true;
      }
    }

    /** The `onReceive` handler. */
    method ReceiveTrigger()
      modifies this
      ensures State() == Step(old(State()), TriggerReceived, notifyVariableHeight)
    {
      enableCallback := false;
      if !stopRefresh && !isPageLoading {
        stopRefresh := true;
        isPageLoading := true;
        pendingLoads := pendingLoads + 1;
      }
    }

    /** The oldest 0.7-second timer runs: the sentinel is reset and `onPageLoad` called. */
    method LoadDelayElapsed()
      modifies this
      ensures State() == Step(old(State()), LoaderEvent.LoadDelayElapsed, notifyVariableHeight)
    {
      if pendingLoads > 0 {
        pendingLoads := pendingLoads - 1;
        pullUpRect := Zero;
        loadRequests := loadRequests + 1;
      }
    }

    /** The completion handle given to `onPageLoad`. */
    method StopRefreshing(allowMore: bool)
      modifies this
      ensures State() == Step(old(State()), LoaderEvent.StopRefreshing(allowMore), notifyVariableHeight)
    {
      stopRefresh := true;
      isActive := allowMore;
      isPageLoading := false;
      cooldowns := cooldowns + 1;
    }

    /** The oldest 2-second timer started by `StopRefreshing` runs, if any. */
    method CooldownElapsed()
      modifies this
      ensures State() == Step(old(State()), LoaderEvent.CooldownElapsed, notifyVariableHeight)
    {
      if cooldowns > 0 {
        stopRefresh := false;
        cooldowns := cooldowns - 1;
      }
    }
  }
}
