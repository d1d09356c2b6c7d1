/** The menu-bar application's orchestration: the capture, describe and append
    workflow and the status transitions it makes, the once-a-second controller that
    creates or drops the scheduler from the status, the manual-capture guard, and the
    text of the status menu items. Collaborators (capture, inference, the tracking file,
    notifications) are steps whose success or failure is given. */
module MenuBar {
  import opened Common
  import opened Status
  import S = SchedulerSpec
  import Scheduling

  /** The steps of one workflow run, in the order they are attempted. */
  datatype WorkflowStep = Capture | Describe | Append | Notify

  /** How each collaborator behaves when it is invoked: whether the capture succeeds, the
      description produced (none when inference fails), whether appending to the
      tracking file succeeds, and whether the success notification succeeds. */
  datatype StepResults = StepResults(
    captureOk: bool,
    description: Option<string>,
    appendOk: bool,
    notifyOk: bool)

  const AllSteps: seq<WorkflowStep> := [Capture, Describe, Append, Notify]

  /** The collaborator steps all succeed up to and including the append. */
  predicate Recorded(r: StepResults) {
    r.captureOk && r.description.Some? && r.appendOk
  }

  /** Every step, the notification included, succeeds. */
  predicate Succeeded(r: StepResults) {
    Recorded(r) && r.notifyOk
  }

  /** The steps a run invokes: they run in order, and the first failure skips the rest. */
  function StepsRun(r: StepResults): (steps: seq<WorkflowStep>)
    ensures 1 <= |steps| <= 4 && steps == AllSteps[..|steps|]
    ensures Describe in steps <==> r.captureOk
    ensures Append in steps <==> r.captureOk && r.description.Some?
    ensures Notify in steps <==> Recorded(r)
  {
    if !r.captureOk then [Capture]
    else if r.description.None? then [Capture, Describe]
    else if !r.appendOk then [Capture, Describe, Append]
    else AllSteps
  }

  /** The registry once a run has begun: `Processing`, with the start time recorded. */
  function BeginEffect(rec: StatusRecord, now: Timestamp): (out: StatusRecord)
    ensures out.status == Processing && out.lastExecutionTime == Some(now)
    ensures out.(status := rec.status, lastExecutionTime := rec.lastExecutionTime) == rec
  {
    rec.(status := Processing, lastExecutionTime := Some(now))
  }

  /** The registry once a run has ended. A full success leaves `Running`, a reset
      counter and the new entry. A failure before the notification leaves `Error`, one
      more failure counted and the last entry untouched. A failing notification comes
      after the entry was stored and the counter reset, so it leaves `Error`, a count of
      exactly one and the new entry. */
  function FinishEffect(rec: StatusRecord, r: StepResults, now: Timestamp): (out: StatusRecord)
    ensures out.status == (if Succeeded(r) then Running else Error)
    ensures out.lastExecutionTime == rec.lastExecutionTime
    ensures out.nextExecutionTime == rec.nextExecutionTime
    ensures Recorded(r) ==>
      && out.lastEntryPreview == Preview(r.description.value)
      && out.lastEntryTimestamp == Some(now)
      && out.errorCount == (if r.notifyOk then 0 else 1)
    ensures !Recorded(r) ==>
      && out.lastEntryPreview == rec.lastEntryPreview
      && out.lastEntryTimestamp == rec.lastEntryTimestamp
      && out.errorCount == rec.errorCount + 1
    ensures Consistent(rec) ==> Consistent(out)
  {
    var stored :=
      if Recorded(r) then
        rec.(lastEntryPreview := Preview(r.description.value),
             lastEntryTimestamp := Some(now),
             status := Running, errorCount := 0)
      else rec;
    if Succeeded(r) then stored
    else stored.(status := Error, errorCount := stored.errorCount + 1)
  }

  /** The error counter only grows between successes, and a success always clears it. */
  lemma ErrorCountBetweenResets(rec: StatusRecord, r: StepResults, now: Timestamp)
    ensures var out := FinishEffect(BeginEffect(rec, now), r, now);
      && (Succeeded(r) <==> out.errorCount == 0 && out.status == Running)
      && (!Succeeded(r) ==> out.errorCount >= 1 && out.status == Error)
      && (!Recorded(r) ==> out.errorCount == rec.errorCount + 1)
  {
  }

  /** What `_check_scheduler` does with the scheduler, given the status and whether a
      scheduler exists. */
  datatype ControlAction = CreateAndStart | StopAndDrop | Keep

  function ControlDecision(status: AppStatus, hasScheduler: bool): (a: ControlAction)
    ensures a == CreateAndStart <==> status == Running && !hasScheduler
    ensures a == StopAndDrop <==> (status == Stopped || status == Error) && hasScheduler
    ensures status == Processing ==> a == Keep
  {
    var isRunning := status == Running;
    if isRunning && !hasScheduler then CreateAndStart
    else if !isRunning && hasScheduler && status != Processing then StopAndDrop
    else Keep
  }

  /** The menu's cut of a preview: at most 50 characters are shown, followed by "..."
      when the preview is longer. */
  const MENU_PREVIEW_LIMIT: nat := 50

  function ShortPreview(p: string): (r: string)
    ensures |p| <= MENU_PREVIEW_LIMIT ==> r == p
    ensures |p| > MENU_PREVIEW_LIMIT ==>
      |r| == MENU_PREVIEW_LIMIT + 3 && r[..MENU_PREVIEW_LIMIT] == p[..MENU_PREVIEW_LIMIT]
      && r[MENU_PREVIEW_LIMIT..] == "..."
  {
    if |p| > MENU_PREVIEW_LIMIT then p[..MENU_PREVIEW_LIMIT] + "..." else p
  }

  const NO_ENTRY_TITLE: string := "Last Entry: None"

  /** The title of the last-entry menu item; `timeText` is the entry's time as the menu
      formats it. */
  function LastEntryTitle(preview: Option<string>, ts: Option<Timestamp>, timeText: string): (r: string)
    ensures preview.Some? && preview.value != [] && ts.Some? ==>
      var k := 12 + |timeText|;
      && r != NO_ENTRY_TITLE
      && |r| == k + 3 + |ShortPreview(preview.value)|
      && r[..12] == "Last Entry (" && r[12..k] == timeText && r[k..k + 3] == "): "
      && r[k + 3..] == ShortPreview(preview.value)
    ensures !(preview.Some? && preview.value != [] && ts.Some?) ==> r == NO_ENTRY_TITLE
  {
    if preview.Some? && preview.value != [] && ts.Some? then
      var r := "Last Entry (" + timeText + "): " + ShortPreview(preview.value);
      assert r[10] == ' ' && NO_ENTRY_TITLE[10] == ':';
      r
    else NO_ENTRY_TITLE
  }

  /** For every registry state the menu can read, the last entry is shown exactly when a
      preview is stored, and what is shown of it is at most 53 characters. */
  lemma LastEntryShownIffPreview(rec: StatusRecord, timeText: string)
    requires Consistent(rec)
    ensures LastEntryTitle(rec.lastEntryPreview, rec.lastEntryTimestamp, timeText) == NO_ENTRY_TITLE
            <==> rec.lastEntryPreview.None?
    ensures rec.lastEntryPreview.Some? ==> |ShortPreview(rec.lastEntryPreview.value)| <= MENU_PREVIEW_LIMIT + 3
  {
  }

  class App {
    const statusService: StatusService
    var scheduler: Scheduling.Scheduler?
    /** Workflow threads started by "Capture Now" that have not begun yet. */
    var launched: nat

    ghost predicate Valid()
      reads this, statusService, scheduler
    {
      && statusService.Valid()
      && (scheduler != null ==> scheduler.Valid())
    }

    /** The application starts with no scheduler and the status set to `Running`, so that
        the controller's first tick creates and starts one. */
    constructor ()
      ensures Valid() && fresh(statusService)
      ensures statusService.Snapshot() == InitialRecord.(status := Running)
      ensures scheduler == null && launched == 0
    {
      var service := new StatusService();
      service.SetStatus(Running);
      statusService := service;
      scheduler := null;
      launched := 0;
    }

    /** The first part of `_execute_workflow`, before any step runs. */
    method BeginWorkflow(now: Timestamp)
      requires Valid()
      modifies statusService
      ensures Valid()
      ensures statusService.Snapshot() == BeginEffect(old(statusService.Snapshot()), now)
    {
      statusService.SetStatus(Processing);
      statusService.SetLastExecution(None, now);
    }

    /** The rest of `_execute_workflow`: the steps in order, a failure of any one of
        them (the notification included) ending the run in `Error`. */
    method FinishWorkflow(r: StepResults, now: Timestamp) returns (steps: seq<WorkflowStep>)
      requires Valid()
      modifies statusService
      ensures Valid()
      ensures steps == StepsRun(r)
      ensures statusService.Snapshot() == FinishEffect(old(statusService.Snapshot()), r, now)
    {
      steps := [Capture];
      var failed := !r.captureOk;
      if !failed {
        steps := steps + [Describe];
        failed := r.description.None?;
      }
      if !failed {
        steps := steps + [Append];
        failed := !r.appendOk;
      }
      if !failed {
        statusService.SetLastEntry(r.description.value, None, now);
        statusService.SetStatus(Running);
        statusService.ResetErrorCount();
        steps := steps + [Notify];
        failed := !r.notifyOk;
      }
      if failed {
        statusService.SetStatus(Error);
        statusService.IncrementErrorCount();
      }
    }

    /** A whole run of `_execute_workflow` with no other event in between. */
    method ExecuteWorkflow(r: StepResults, start: Timestamp, end: Timestamp)
      returns (steps: seq<WorkflowStep>)
      requires Valid()
      modifies statusService
      ensures Valid()
      ensures steps == StepsRun(r)
      ensures statusService.Snapshot()
              == FinishEffect(BeginEffect(old(statusService.Snapshot()), start), r, end)
    {
      BeginWorkflow(start);
      steps := FinishWorkflow(r, end);
    }

    /** A pending timer of the current scheduler fires. The scheduler's task is the
        workflow; when the in-flight flag lets it run, the workflow runs and the
        scheduler's end step follows, with no other event in between. */
    method ScheduledRun(t: S.TimerId, r: StepResults, start: Timestamp, end: Timestamp)
      returns (invoked: bool)
      requires Valid() && scheduler != null && t in scheduler.pending
      modifies scheduler, statusService
      ensures Valid() && scheduler == old(scheduler)
      ensures invoked <==> !old(scheduler.isProcessing)
      ensures invoked ==>
        && statusService.Snapshot()
           == FinishEffect(BeginEffect(old(statusService.Snapshot()), start), r, end)
        && scheduler.State()
           == S.End(S.Fire(old(scheduler.State()), t, scheduler.policy).0, scheduler.policy)
      ensures !invoked ==>
        && statusService.Snapshot() == old(statusService.Snapshot())
        && scheduler.State() == S.Fire(old(scheduler.State()), t, scheduler.policy).0
    {
      invoked := scheduler.Fire(t);
      if invoked {
        var _ := ExecuteWorkflow(r, start, end);
        scheduler.EndExecute();
      }
    }

    /** `_check_scheduler`: creates and starts a scheduler when the status is `Running`
        and there is none; stops and drops it when the status is `Stopped` or `Error`;
        never touches it while `Processing`. */
    method CheckScheduler()
      requires Valid()
      modifies this, scheduler
      ensures Valid()
      ensures statusService.Snapshot() == old(statusService.Snapshot())
      ensures launched == old(launched)
      ensures var a := ControlDecision(old(statusService.status), old(scheduler) != null);
        && (a == CreateAndStart ==>
              && scheduler != null && fresh(scheduler)
              && scheduler.policy == S.AsWritten
              && scheduler.State() == S.Start(S.Init(Some(S.SCREENSHOT_INTERVAL_SECONDS)), S.AsWritten))
        && (a == StopAndDrop ==>
              scheduler == null && old(scheduler).State() == S.Stop(old(scheduler.State())))
        && (a == Keep ==> scheduler == old(scheduler))
      ensures old(statusService.status) == Processing || old(statusService.status) == Running ==>
        old(scheduler) != null ==> scheduler == old(scheduler) && unchanged(scheduler)
    {
      var status := statusService.GetStatus();
      var isRunning := status == Running;
      if isRunning && scheduler == null {
        var created := new Scheduling.Scheduler(Some(S.SCREENSHOT_INTERVAL_SECONDS), S.AsWritten);
        created.Start();
        scheduler := created;
      } else if !isRunning && scheduler != null && status != Processing {
        scheduler.Stop();
        scheduler := null;
      }
    }

    /** `_on_capture_now`: while `Processing` nothing starts; otherwise exactly one
        workflow thread is started. */
    method OnCaptureNow() returns (started: bool)
      requires Valid()
      modifies this`launched
      ensures Valid()
      ensures started <==> statusService.status != Processing
      ensures launched == old(launched) + (if started then 1 else 0)
    {
      if statusService.GetStatus() == Processing {
        return false;
      }
      launched := launched + 1;
      started := true;
    }

    /** A started manual-capture thread begins its workflow. */
    method BeginManualWorkflow(now: Timestamp)
      requires Valid() && launched > 0
      modifies this`launched, statusService
      ensures Valid()
      ensures launched == old(launched) - 1
      ensures statusService.Snapshot() == BeginEffect(old(statusService.Snapshot()), now)
    {
      launched := launched - 1;
      BeginWorkflow(now);
    }

    /** `_update_menu_status`: the titles of the status item and the last-entry item. */
    method MenuTitles(timeText: string) returns (statusTitle: string, entryTitle: string)
      requires Valid()
      ensures statusTitle == "Status: " + StatusString(statusService.status)
      ensures entryTitle == NO_ENTRY_TITLE <==> statusService.lastEntryPreview.None?
      ensures entryTitle
              == LastEntryTitle(statusService.lastEntryPreview, statusService.lastEntryTimestamp, timeText)
    {
      statusTitle := "Status: " + statusService.GetStatusString();
      entryTitle := LastEntryTitle(statusService.lastEntryPreview, statusService.lastEntryTimestamp, timeText);
      LastEntryShownIffPreview(statusService.Snapshot(), timeText);
    }
  }

  /** A failed run makes the controller stop and drop the scheduler; while the run is in
      flight the controller leaves it alone. Only a later successful run sets `Running`
      again, after which the controller's next tick creates a new scheduler. */
  method FailureStopsPeriodicRuns(app: App, r: StepResults, t0: Timestamp, t1: Timestamp)
    requires app.Valid() && app.scheduler != null && !Succeeded(r)
    modifies app, app.statusService, app.scheduler
  {
    app.BeginWorkflow(t0);
    app.CheckScheduler();
    assert app.scheduler != null;
    var _ := app.FinishWorkflow(r, t1);
    assert app.statusService.status == Error;
    app.CheckScheduler();
    assert app.scheduler == null;
    var again := StepResults(true, Some("ok"), true, true);
    var _ := app.ExecuteWorkflow(again, t1, t1);
    assert app.statusService.status == Running && app.statusService.errorCount == 0;
    app.CheckScheduler();
    assert app.scheduler != null && app.scheduler.running;
  }

  /** The manual-capture guard reads the status, which a started thread sets to
      `Processing` only when its workflow begins: two clicks before that start two
      workflows. */
  method TwoClicksBeforeProcessing(app: App)
    requires app.Valid() && app.statusService.status != Processing
    modifies app
  {
    var first := app.OnCaptureNow();
    var second := app.OnCaptureNow();
    assert first && second && app.launched == old(app.launched) + 2;
  }
}
