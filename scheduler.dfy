/** The periodic scheduler: a running flag, an in-flight flag and a reference to the
    last armed timer, updated in place by each control call and timer event. Every method
    is proved to take the object's state exactly as the matching event of `SchedulerSpec`
    takes the abstract state. The rearm policy is fixed at construction: `AsWritten` is the
    scheduler's own behaviour, `CancelPrevious` the corrected one, under which the object
    invariant also keeps a single timer chain. */
module Scheduling {
  import opened Common
  import S = SchedulerSpec

  class Scheduler {
    const interval: int
    const policy: S.RearmPolicy
    var running: bool
    var isProcessing: bool
    var timer: Option<S.TimerId>
    /** The timers that the timer facility still holds armed for this scheduler. */
    var pending: set<S.TimerId>
    var nextId: S.TimerId
    /** How many times the task has been invoked. */
    var runs: nat
    /** Runs of the task begun and not yet ended. */
    ghost var inFlight: nat

    ghost function State(): S.SchedState
      reads this
    {
      S.SchedState(interval, running, isProcessing, timer, pending, nextId, runs, inFlight)
    }

    ghost predicate Valid()
      reads this
    {
      && S.Inv(State())
      && (policy == S.CancelPrevious ==> S.OneChain(State()))
    }

    /** `Scheduler.__init__`. */
    constructor (interval: Option<int>, policy: S.RearmPolicy)
      ensures Valid()
      ensures State() == S.Init(interval) && this.policy == policy
    {
      this.interval := S.EffectiveInterval(interval);
      this.policy := policy;
      running := false;
      isProcessing := false;
      timer := None;
      pending := {};
      nextId := 0;
      runs := 0;
      inFlight := 0;
    }

    /** `_schedule_next`: the new timer overwrites the reference. As written, an earlier
        timer is not cancelled. */
    method ScheduleNext()
      requires Valid()
      modifies this
      ensures Valid()
      ensures State() == S.ScheduleNext(old(State()), policy)
    {
      S.ScheduleNextArmsIffRunning(State());
      if policy == S.CancelPrevious {
        S.ScheduleNextKeepsOneChain(State());
      }
      if !running {
        return;
      }
      if policy == S.CancelPrevious && timer.Some? {
        pending := pending - {timer.value};
      }
      timer := Some(nextId);
      pending := pending + {nextId};
      nextId := nextId + 1;
    }

    /** `start`. */
    method Start()
      requires Valid()
      modifies this
      ensures Valid()
      ensures State() == S.Start(old(State()), policy)
      ensures running
    {
      if running {
        return;
      }
      running := true;
      ScheduleNext();
    }

    /** `stop`. */
    method Stop()
      requires Valid()
      modifies this
      ensures Valid()
      ensures State() == S.Stop(old(State()))
      ensures !running && isProcessing == old(isProcessing)
    {
      if !running {
        return;
      }
      running := false;
      if timer.Some? {
        pending := pending - {timer.value};
        timer := None;
      }
    }

    /** The begin half of `_execute`; `invoked` says whether the task is now running. */
    method BeginExecute() returns (invoked: bool)
      requires Valid()
      modifies this
      ensures Valid()
      ensures (State(), invoked) == S.Begin(old(State()), policy)
      ensures invoked <==> !old(isProcessing)
    {
      if isProcessing {
        ScheduleNext();
        return false;
      }
      isProcessing := true;
      runs := runs + 1;
      inFlight := inFlight + 1;
      invoked := true;
    }

    /** The end half of `_execute`, whether the task returned or raised. */
    method EndExecute()
      requires Valid() && inFlight > 0
      modifies this
      ensures Valid()
      ensures State() == S.End(old(State()), policy)
      ensures !isProcessing
    {
      isProcessing := false;
      inFlight := inFlight - 1;
      if running {
        ScheduleNext();
      }
    }

    /** A pending timer fires and runs `_execute`. */
    method Fire(t: S.TimerId) returns (invoked: bool)
      requires Valid() && t in pending
      modifies this
      ensures Valid()
      ensures (State(), invoked) == S.Fire(old(State()), t, policy)
    {
      pending := pending - {t};
      invoked := BeginExecute();
    }

    /** `trigger_now`. */
    method TriggerNow() returns (invoked: bool)
      requires Valid()
      modifies this
      ensures Valid()
      ensures (State(), invoked) == S.TriggerNow(old(State()), policy)
      ensures old(isProcessing) ==> !invoked && State() == old(State())
    {
      if isProcessing {
        return false;
      }
      invoked := BeginExecute();
    }

    /** `is_running`: the running flag, whether or not a run is in flight. */
    function IsRunning(): (r: bool)
      reads this
      ensures r == running
    {
      running
    }
  }

  /** A client driving the scheduler through its methods only: a second manual trigger
      during a run is refused, and the run's end rearms while running. As written, the
      timer armed by `start` survives `stop`; with the corrected policy nothing does. */
  method ManualTriggerTwice()
  {
    var s := new Scheduler(None, S.AsWritten);
    assert s.interval == S.SCREENSHOT_INTERVAL_SECONDS;
    s.Start();
    var first := s.TriggerNow();
    var second := s.TriggerNow();
    assert first && !second && s.runs == 1;
    s.EndExecute();
    assert s.pending == {0, 1} && s.IsRunning();
    s.Stop();
    assert s.pending == {0} && !s.IsRunning();

    var c := new Scheduler(Some(0), S.CancelPrevious);
    assert c.interval == S.SCREENSHOT_INTERVAL_SECONDS;
    c.Start();
    var invoked := c.TriggerNow();
    c.EndExecute();
    assert c.pending == {1};
    c.Stop();
    assert c.pending == {};
  }
}
