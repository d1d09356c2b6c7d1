/** The scheduler as a state machine over values. Each function is one discrete event:
    a control call (`start`, `stop`, `trigger_now`), a timer firing, or one half of the
    execute routine (its begin, up to invoking the task, and its end, after the task has
    returned or raised). Threads are separate events; timers are identities in a set of
    pending timers, so that more than one armed timer stays visible. */
module SchedulerSpec {
  import opened Common

  /** The configured default interval, in seconds. */
  const SCREENSHOT_INTERVAL_SECONDS: int := 1800

  /** The identity of one armed one-shot timer. */
  type TimerId = nat

  /** `interval or SCREENSHOT_INTERVAL_SECONDS`: an absent or zero interval falls back to
      the default; any other value, a negative one included, is kept. */
  function EffectiveInterval(interval: Option<int>): (r: int)
    ensures r != 0
    ensures interval.Some? && interval.value != 0 ==> r == interval.value
    ensures interval.None? || interval == Some(0) ==> r == SCREENSHOT_INTERVAL_SECONDS
  {
    if interval.Some? && interval.value != 0 then interval.value else SCREENSHOT_INTERVAL_SECONDS
  }

  /** How arming the next timer treats the timer already referenced. `AsWritten` is the
      scheduler's own behaviour: the reference is overwritten and the earlier timer stays
      armed. `CancelPrevious` cancels the referenced timer first. */
  datatype RearmPolicy = AsWritten | CancelPrevious

  datatype SchedState = SchedState(
    interval: int,
    running: bool,          // `_running`
    processing: bool,       // `_is_processing`
    timer: Option<TimerId>, // `_timer`, the one timer the scheduler still refers to
    pending: set<TimerId>,  // timers armed and neither fired nor cancelled
    nextId: TimerId,        // the identity the next armed timer gets
    runs: nat,              // invocations of the task so far
    inFlight: nat)          // invocations of the task begun and not yet ended

  /** Well-formedness of a reachable state: the in-flight flag counts the runs in progress,
      and every timer identity handed out is below `nextId`. */
  ghost predicate Inv(s: SchedState) {
    && s.inFlight == (if s.processing then 1 else 0)
    && (forall t :: t in s.pending ==> t < s.nextId)
    && (s.timer.Some? ==> s.timer.value < s.nextId)
  }

  /** `Scheduler.__init__`: not running, not processing, no timer. */
  function Init(interval: Option<int>): (s: SchedState)
    ensures Inv(s) && OneChain(s)
    ensures !s.running && !s.processing && s.timer.None? && s.pending == {}
    ensures s.interval == EffectiveInterval(interval) && s.runs == 0
  {
    SchedState(EffectiveInterval(interval), false, false, None, {}, 0, 0, 0)
  }

  /** The pending timers once the referenced one has been cancelled (cancelling a timer
      that has already fired does nothing). */
  function WithoutReferenced(s: SchedState): set<TimerId> {
    if s.timer.Some? then s.pending - {s.timer.value} else s.pending
  }

  /** `_schedule_next`: when running, arm a fresh timer and refer to it. */
  function ScheduleNext(s: SchedState, p: RearmPolicy): SchedState {
    if !s.running then s
    else
      var kept := if p == CancelPrevious then WithoutReferenced(s) else s.pending;
      s.(timer := Some(s.nextId), pending := kept + {s.nextId}, nextId := s.nextId + 1)
  }

  /** `start`. */
  function Start(s: SchedState, p: RearmPolicy): SchedState {
    if s.running then s
    else ScheduleNext(s.(running := true), p)
  }

  /** `stop`: clears running and cancels and forgets the referenced timer only. */
  function Stop(s: SchedState): SchedState {
    if !s.running then s
    else s.(running := false, pending := WithoutReferenced(s), timer := None)
  }

  /** The begin half of `_execute`. When a run is in flight the task is not invoked and a
      timer is rearmed (if running); otherwise the flag is set and the task is invoked.
      The boolean says whether the task was invoked. */
  function Begin(s: SchedState, p: RearmPolicy): (SchedState, bool) {
    if s.processing then (ScheduleNext(s, p), false)
    else (s.(processing := true, runs := s.runs + 1, inFlight := s.inFlight + 1), true)
  }

  /** The end half of `_execute` (its `finally` block), after the task has returned or
      raised: the two are handled alike. The flag is cleared, then a timer is rearmed if
      the scheduler is still running. */
  function End(s: SchedState, p: RearmPolicy): SchedState
    requires s.inFlight > 0
  {
    var s' := s.(processing := false, inFlight := s.inFlight - 1);
    if s'.running then ScheduleNext(s', p) else s'
  }

  /** A pending timer fires: it is no longer pending, and `_execute` begins. */
  function Fire(s: SchedState, t: TimerId, p: RearmPolicy): (SchedState, bool)
    requires t in s.pending
  {
    Begin(s.(pending := s.pending - {t}), p)
  }

  /** `trigger_now`: nothing while a run is in flight, otherwise `_execute` begins. */
  function TriggerNow(s: SchedState, p: RearmPolicy): (SchedState, bool) {
    if s.processing then (s, false) else Begin(s, p)
  }

  /** The events that drive a scheduler: the three control calls, a timer firing, and
      the end of the task's run. An event that cannot happen in a state (a timer that is
      not pending fires, or a run ends while none is in flight) leaves it unchanged. */
  datatype Event = StartCall | StopCall | TriggerCall | TimerFires(t: TimerId) | TaskEnds

  function Step(s: SchedState, e: Event, p: RearmPolicy): SchedState {
    match e
    case StartCall => Start(s, p)
    case StopCall => Stop(s)
    case TriggerCall => TriggerNow(s, p).0
    case TimerFires(t) => if t in s.pending then Fire(s, t, p).0 else s
    case TaskEnds => if s.inFlight > 0 then End(s, p) else s
  }

  /** The state after a sequence of events. */
  function Run(s: SchedState, events: seq<Event>, p: RearmPolicy): SchedState
    decreases |events|
  {
    if events == [] then s else Run(Step(s, events[0], p), events[1..], p)
  }

  lemma {:induction false} RunAppend(s: SchedState, a: seq<Event>, b: seq<Event>, p: RearmPolicy)
    ensures Run(s, a + b, p) == Run(Run(s, a, p), b, p)
    decreases |a|
  {
    if a == [] {
      assert a + b == b;
    } else {
      assert (a + b)[0] == a[0];
      assert (a + b)[1..] == a[1..] + b;
      RunAppend(Step(s, a[0], p), a[1..], b, p);
    }
  }

  /** Every event keeps the well-formedness invariant, under either policy. */
  lemma StepKeepsInv(s: SchedState, e: Event, p: RearmPolicy)
    requires Inv(s)
    ensures Inv(Step(s, e, p))
  {
  }

  /** Single flight on every reachable state: whatever interleaving of control calls,
      timer firings and run completions follows construction, at most one run of the
      task is in flight, and one is in flight exactly when the flag is set. */
  lemma {:induction false} SingleFlight(interval: Option<int>, events: seq<Event>, p: RearmPolicy)
    ensures Inv(Run(Init(interval), events, p))
    ensures Run(Init(interval), events, p).inFlight <= 1
    ensures Run(Init(interval), events, p).inFlight == 1 <==> Run(Init(interval), events, p).processing
  {
    RunKeepsInv(Init(interval), events, p);
  }

  lemma {:induction false} RunKeepsInv(s: SchedState, events: seq<Event>, p: RearmPolicy)
    requires Inv(s)
    ensures Inv(Run(s, events, p))
    decreases |events|
  {
    if events != [] {
      StepKeepsInv(s, events[0], p);
      RunKeepsInv(Step(s, events[0], p), events[1..], p);
    }
  }

  // ---------------------------------------------------------------------------------
  // Properties of the scheduler as written

  /** Arming a timer happens exactly when the scheduler is running, and adds exactly one
      pending timer, which becomes the referenced one. */
  lemma ScheduleNextArmsIffRunning(s: SchedState)
    requires Inv(s)
    ensures Inv(ScheduleNext(s, AsWritten))
    ensures ScheduleNext(s, AsWritten).pending != s.pending <==> s.running
    ensures s.running ==>
      && ScheduleNext(s, AsWritten).pending == s.pending + {s.nextId}
      && |ScheduleNext(s, AsWritten).pending| == |s.pending| + 1
      && ScheduleNext(s, AsWritten).timer == Some(s.nextId)
  {
  }

  /** `start` on a stopped scheduler sets running and arms one timer; on a running one it
      changes nothing. */
  lemma StartArmsOne(s: SchedState)
    requires Inv(s)
    ensures Inv(Start(s, AsWritten))
    ensures s.running ==> Start(s, AsWritten) == s
    ensures !s.running ==>
      var r := Start(s, AsWritten);
      && r.running && r.processing == s.processing && r.runs == s.runs
      && r.pending == s.pending + {s.nextId} && |r.pending| == |s.pending| + 1
  {
    if !s.running {
      ScheduleNextArmsIffRunning(s.(running := true));
    }
  }

  /** `stop` on a stopped scheduler changes nothing; otherwise it clears running, cancels
      and forgets the referenced timer, and leaves the in-flight run alone. */
  lemma StopSpec(s: SchedState)
    requires Inv(s)
    ensures Inv(Stop(s))
    ensures !s.running ==> Stop(s) == s
    ensures s.running ==>
      var r := Stop(s);
      && !r.running && r.timer.None? && r.processing == s.processing
      && r.inFlight == s.inFlight && r.runs == s.runs
      && r.pending == s.pending - (if s.timer.Some? then {s.timer.value} else {})
  {
  }

  /** Single flight: a begin while a run is in flight does not invoke the task, keeps the
      flag set and rearms exactly when running; a begin while idle invokes the task once,
      sets the flag and arms nothing. */
  lemma BeginSpec(s: SchedState)
    requires Inv(s)
    ensures Inv(Begin(s, AsWritten).0)
    ensures Begin(s, AsWritten).1 <==> !s.processing
    ensures Begin(s, AsWritten).0.processing
    ensures s.processing ==>
      var r := Begin(s, AsWritten).0;
      && r.runs == s.runs && r.inFlight == 1
      && (r.pending != s.pending <==> s.running)
    ensures !s.processing ==>
      var r := Begin(s, AsWritten).0;
      && r.runs == s.runs + 1 && r.inFlight == 1
      && r.pending == s.pending && r.running == s.running
  {
    if s.processing {
      ScheduleNextArmsIffRunning(s);
    }
  }

  /** After the task, the flag is cleared and a timer is rearmed exactly when the
      scheduler is still running at that moment. */
  lemma EndSpec(s: SchedState)
    requires Inv(s) && s.inFlight > 0
    ensures Inv(End(s, AsWritten))
    ensures !End(s, AsWritten).processing && End(s, AsWritten).inFlight == 0
    ensures End(s, AsWritten).running == s.running
    ensures End(s, AsWritten).pending != s.pending <==> s.running
    ensures s.running ==> End(s, AsWritten).pending == s.pending + {s.nextId}
  {
    ScheduleNextArmsIffRunning(s.(processing := false, inFlight := s.inFlight - 1));
  }

  /** A timer firing consumes that timer and then behaves as a begin. */
  lemma FireSpec(s: SchedState, t: TimerId)
    requires Inv(s) && t in s.pending
    ensures Inv(Fire(s, t, AsWritten).0)
    ensures Fire(s, t, AsWritten).1 <==> !s.processing
    ensures !s.processing ==> Fire(s, t, AsWritten).0.pending == s.pending - {t}
  {
    BeginSpec(s.(pending := s.pending - {t}));
  }

  /** `trigger_now` while a run is in flight changes nothing (unlike a timer firing, it
      does not rearm); otherwise it is exactly the begin of `_execute`. */
  lemma TriggerNowSpec(s: SchedState)
    requires Inv(s)
    ensures Inv(TriggerNow(s, AsWritten).0)
    ensures s.processing ==> TriggerNow(s, AsWritten) == (s, false)
    ensures !s.processing ==> TriggerNow(s, AsWritten) == Begin(s, AsWritten)
    ensures TriggerNow(s, AsWritten).1 <==> !s.processing
  {
    BeginSpec(s);
  }

  /** A manual trigger on a running, idle scheduler leaves the armed timer live and, once
      the run ends, arms a second one: two timer chains. */
  lemma TriggerAddsTimerChain(s: SchedState)
    requires Inv(s) && s.running && !s.processing
    ensures var r := End(TriggerNow(s, AsWritten).0, AsWritten);
      r.pending == s.pending + {s.nextId} && |r.pending| == |s.pending| + 1
  {
    TriggerNowSpec(s);
    EndSpec(TriggerNow(s, AsWritten).0);
  }

  /** The trace start, trigger_now, end of that run, stop: the timer armed by `start` was
      never cancelled, so after `stop` it is still pending, and when it fires the task
      runs once more although the scheduler is stopped. */
  lemma OrphanTimerRunsAfterStop()
    ensures var s2 := Run(Init(None), [StartCall, TriggerCall, TaskEnds], AsWritten);
      var s3 := Step(s2, StopCall, AsWritten);
      && |s2.pending| == 2
      && !s3.running && s3.pending == {0}
      && Step(s3, TimerFires(0), AsWritten).runs == s3.runs + 1
  {
    var s1 := Step(Init(None), StartCall, AsWritten);
    assert s1.pending == {0} && s1.timer == Some(0) && s1.nextId == 1;
    var s2 := Step(Step(s1, TriggerCall, AsWritten), TaskEnds, AsWritten);
    assert s2.pending == {0, 1} && s2.timer == Some(1);
    assert Run(Init(None), [StartCall, TriggerCall, TaskEnds], AsWritten) == s2 by {
      RunAppend(Init(None), [StartCall], [TriggerCall, TaskEnds], AsWritten);
      RunAppend(s1, [TriggerCall], [TaskEnds], AsWritten);
    }
    var s3 := Step(s2, StopCall, AsWritten);
    assert s3.pending == {0, 1} - {1};
  }

  /** The events the application itself sends a scheduler after starting it once: timer
      firings, ends of runs and `stop`. It never calls `trigger_now` or `start` again. */
  predicate ControllerEvent(e: Event) {
    e != StartCall && e != TriggerCall
  }

  /** As written, a started scheduler driven only by controller events keeps a single
      timer chain: at most one timer is pending, none while a run is in flight, and none
      once stopped. So the orphan of `OrphanTimerRunsAfterStop` needs `trigger_now`. */
  ghost predicate ControllerChain(s: SchedState) {
    OneChain(s) && (s.processing ==> s.pending == {})
  }

  lemma ControllerStepKeepsChain(s: SchedState, e: Event)
    requires ControllerChain(s) && ControllerEvent(e)
    ensures ControllerChain(Step(s, e, AsWritten))
  {
    if e.TimerFires? && e.t in s.pending {
      assert s.pending == {e.t};
    }
  }

  lemma {:induction false} RunKeepsControllerChain(s: SchedState, events: seq<Event>)
    requires ControllerChain(s)
    requires forall i :: 0 <= i < |events| ==> ControllerEvent(events[i])
    ensures ControllerChain(Run(s, events, AsWritten))
    decreases |events|
  {
    if events != [] {
      ControllerStepKeepsChain(s, events[0]);
      RunKeepsControllerChain(Step(s, events[0], AsWritten), events[1..]);
    }
  }

  /** The application's use of the scheduler as written: `start` once after
      construction, then any sequence of timer firings, run ends and `stop` calls leaves
      at most one pending timer, and none once the scheduler is stopped. */
  lemma ControllerDrivenSchedulerHasOneTimer(interval: Option<int>, events: seq<Event>)
    requires forall i :: 0 <= i < |events| ==> ControllerEvent(events[i])
    ensures var r := Run(Start(Init(interval), AsWritten), events, AsWritten);
      && |r.pending| <= 1
      && (!r.running ==> r.pending == {})
  {
    var s0 := Start(Init(interval), AsWritten);
    RunKeepsControllerChain(s0, events);
    OneChainBound(Run(s0, events, AsWritten));
  }

  // ---------------------------------------------------------------------------------
  // The corrected rearm policy

  /** With `CancelPrevious`, the only pending timer is the referenced one, and a stopped
      scheduler has no pending timer at all. */
  ghost predicate OneChain(s: SchedState) {
    && Inv(s)
    && (forall t :: t in s.pending ==> s.timer == Some(t))
    && (!s.running ==> s.pending == {})
  }

  lemma OneChainBound(s: SchedState)
    requires OneChain(s)
    ensures |s.pending| <= 1
  {
    if s.pending != {} {
      assert s.pending == {s.timer.value};
    }
  }

  /** Arming under `CancelPrevious` replaces the one pending timer. */
  lemma ScheduleNextKeepsOneChain(s: SchedState)
    requires OneChain(s)
    ensures OneChain(ScheduleNext(s, CancelPrevious))
    ensures s.running ==> ScheduleNext(s, CancelPrevious).pending == {s.nextId}
  {
  }

  /** Every event keeps a single timer chain under `CancelPrevious`. */
  lemma OneChainPreserved(s: SchedState, t: TimerId)
    requires OneChain(s)
    ensures OneChain(Start(s, CancelPrevious))
    ensures OneChain(Stop(s))
    ensures OneChain(Begin(s, CancelPrevious).0)
    ensures OneChain(TriggerNow(s, CancelPrevious).0)
    ensures s.inFlight > 0 ==> OneChain(End(s, CancelPrevious))
    ensures t in s.pending ==> OneChain(Fire(s, t, CancelPrevious).0)
  {
  }

  lemma {:induction false} RunKeepsOneChain(s: SchedState, events: seq<Event>)
    requires OneChain(s)
    ensures OneChain(Run(s, events, CancelPrevious))
    decreases |events|
  {
    if events != [] {
      var e := events[0];
      match e {
        case TimerFires(t) => OneChainPreserved(s, t);
        case _ => OneChainPreserved(s, 0);
      }
      RunKeepsOneChain(Step(s, e, CancelPrevious), events[1..]);
    }
  }

  /** Under `CancelPrevious`, once the scheduler is stopped no timer-driven run happens:
      as long as nobody calls `start` or `trigger_now` again, any sequence of timer
      firings, run completions and further `stop` calls leaves the count of runs as it
      is. The as-written trace of `OrphanTimerRunsAfterStop` breaks exactly this. */
  lemma {:induction false} NoScheduledRunAfterStop(s: SchedState, events: seq<Event>)
    requires OneChain(s) && !s.running
    requires forall i :: 0 <= i < |events| ==> events[i] != StartCall && events[i] != TriggerCall
    ensures var r := Run(s, events, CancelPrevious);
      r.runs == s.runs && !r.running && r.pending == {}
    decreases |events|
  {
    if events != [] {
      var s' := Step(s, events[0], CancelPrevious);
      OneChainPreserved(s, 0);
      assert s'.runs == s.runs && !s'.running;
      NoScheduledRunAfterStop(s', events[1..]);
    }
  }

  /** Under `CancelPrevious`, after `stop` nothing is pending, so no timer can fire and no
      further scheduled run occurs; the trace that leaves an orphan timer as written now
      ends with no pending timer. */
  lemma CancelPreviousStopLeavesNoTimer(s: SchedState)
    requires OneChain(s)
    ensures Stop(s).pending == {}
    ensures var s1 := Start(Init(None), CancelPrevious);
      var s2 := End(TriggerNow(s1, CancelPrevious).0, CancelPrevious);
      |s2.pending| == 1 && Stop(s2).pending == {}
  {
    var s1 := Start(Init(None), CancelPrevious);
    assert s1.pending == {0} && s1.timer == Some(0);
    var s2 := End(TriggerNow(s1, CancelPrevious).0, CancelPrevious);
    assert s2.pending == {1} && s2.timer == Some(1);
    if s.running && s.timer.Some? {
      assert s.pending <= {s.timer.value};
    }
  }
}
