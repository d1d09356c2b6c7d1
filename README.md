# Screendescribe scheduling and status coordination, in Dafny

This project models the part of the Screendescribe menu-bar application that decides
when the capture → describe → record job runs, and how the job's state is reported.

- **Scheduler.** This is a periodic executor with a running flag and an in-flight flag.
  It keeps a reference to the last one-shot timer it armed. It offers `start`, `stop`,
  `trigger_now` and `is_running`, and its execute routine rearms only after a run ends.
  `SchedulerSpec` (scheduler_spec.dfy) gives it as a state machine over values.
  `Scheduling.Scheduler` (scheduler.dfy) is the class whose methods update its fields in
  place. Each method is proved to move the object's state exactly as the matching event
  of `SchedulerSpec` moves the abstract state.
- **Status service.** This is the registry of the application status (`Stopped`,
  `Running`, `Processing`, `Error`). It also holds the last execution time, the last
  entry's preview (at most 100 characters) and timestamp, an error counter and the next
  execution time (status_service.dfy).
- **Logging service.** This is an in-memory log capped at `max_entries`, with a guard
  against re-entrant logging. It answers queries by level and by count
  (logging_service.dfy).
- **Menu-bar orchestration.** This covers the workflow's status transitions, the
  once-a-second controller that creates or drops the scheduler according to the status,
  the "Capture Now" guard and the text of the status menu items (menu_bar.dfy).

How the model treats the outside world:

- Timers are identities in a set of pending timers. Threads are separate events.
- The execute routine is split into a begin step (up to invoking the task) and an end
  step (its `finally` block). Other events can happen in between.
- The capture, inference, tracking-file and notification collaborators are steps whose
  success or failure is an input (`MenuBar.StepResults`).
- Clock readings are integers passed in as "now" (`Common.Timestamp`). Formatted times
  are strings passed in.

Behaviour of the code that the model keeps as it is:

- `set_last_entry` stores the timestamp even when an empty text leaves no preview, so a
  timestamp can exist without a preview. `Status.Consistent` states the direction that
  holds: a stored preview always comes with its timestamp.
- The scheduler keeps any non-zero interval, negative ones included, and replaces only an
  absent or zero interval by 1800 seconds.
- `stop` cancels only the timer the scheduler still refers to (see Findings).
- The workflow resets the error counter and stores the entry before it sends the success
  notification. So a failing notification leaves `Error` with a count of exactly 1 and
  the new entry stored.
- A failed run sets `Error`, and the controller's next tick then stops and drops the
  scheduler. It leaves the scheduler alone while the run is in flight. Periodic runs
  resume only after a later successful run, for instance one from "Capture Now", sets
  `Running` again. The client method `MenuBar.FailureStopsPeriodicRuns` walks through
  this sequence.
- "Capture Now" does not go through the scheduler. It starts a thread that runs the
  workflow directly, guarded only by the status. The status becomes `Processing` only
  when that thread begins, so two clicks before then start two workflows
  (`MenuBar.TwoClicksBeforeProcessing`). The scheduler's single-flight guarantee covers
  only the runs the scheduler itself starts.

## Model

| member | source | states |
|---|---|---|
| `Common.OrNow` | src/status_service.py:67 | a given timestamp is kept; only an absent one falls back to "now" |
| `Status.StatusString` | src/status_service.py:151-167 | every status has a non-empty name; the name is "Processing..." exactly for `Processing` |
| `Status.StatusStringInjective` | src/status_service.py:158-167 | the four statuses map to four distinct strings |
| `Status.Preview` | src/status_service.py:88 | an empty text gives no preview; any other text gives a prefix of it, of length min(len, 100) |
| `Status.StatusService.constructor` | src/status_service.py:20-27 | starts `Stopped` with error count 0 and every optional field absent |
| `Status.StatusService.SetStatus` | src/status_service.py:30-38 | overwrites the status and nothing else; keeps the preview invariant |
| `Status.StatusService.GetStatus` | src/status_service.py:40-48 | the status currently held |
| `Status.StatusService.IsRunning` | src/status_service.py:50-57 | true exactly when the status is `Running` (never while `Processing`) |
| `Status.StatusService.SetLastExecution` | src/status_service.py:59-67 | stores the given timestamp or "now"; nothing else changes |
| `Status.StatusService.SetLastEntry` | src/status_service.py:79-89 | stores the truncated preview (absent for an empty text) and, in every case, the timestamp or "now" |
| `Status.StatusService.IncrementErrorCount` | src/status_service.py:111-114 | the count rises by exactly 1; nothing else changes |
| `Status.StatusService.ResetErrorCount` | src/status_service.py:116-119 | the count becomes 0; nothing else changes |
| `Status.StatusService.SetNextExecutionTime` | src/status_service.py:131-139 | stores its argument, an absent time included; nothing else changes |
| `Status.StatusService.GetStatusString` | src/status_service.py:151-167 | the name of the current status |
| `Logging.LevelName` | src/logging_service.py:10-16 | every level has a non-empty name made of upper-case letters only |
| `Logging.LevelNameInjective` | src/logging_service.py:10-16 | the four levels have four distinct names |
| `Logging.Format` | src/logging_service.py:37-40 | the formatted entry is `[`, the time text, `] [`, the level name, `] ` and the message, each at its position |
| `Logging.FormatDeterminesEntry` | src/logging_service.py:37-40 | with the same time text, two entries that format alike have the same level and message |
| `Logging.Appended` | src/logging_service.py:91-96 | the new buffer is the old one plus the entry, minus exactly the oldest entry when over capacity; a non-negative capacity bound is kept; with a positive capacity the new entry is last |
| `Logging.OfLevel` | src/logging_service.py:146-147 | the result holds exactly the entries of that level, and no more entries than the input |
| `Logging.OfLevelConcat` | src/logging_service.py:146-147 | filtering commutes with concatenation, so the original order is kept |
| `Logging.OfLevelAll` | src/logging_service.py:146-147 | a buffer whose entries all have the level is returned unchanged |
| `Logging.OfLevelIdempotent` | src/logging_service.py:146-147 | filtering twice by one level equals filtering once |
| `Logging.SliceFrom` | src/logging_service.py:151 | Python's `s[start:]`: the result is a suffix of `s`; for `start >= 0` its length is max(0, n - start), for `start < 0` it is min(-start, n) |
| `Logging.EntriesOf` | src/logging_service.py:128-153 | with a level, every result has it; a limit of none or 0 returns all filtered entries; a limit k > 0 returns the last min(k, n); a negative limit drops the first entries |
| `Logging.LoggingService.constructor` | src/logging_service.py:54-64 | empty buffer, the given capacity (100 by default), guard off |
| `Logging.LoggingService.Log` | src/logging_service.py:79-110 | with the guard set, nothing changes; otherwise the buffer becomes `Appended(old, entry, max)` and the guard is off again on return, even when the console echo re-enters `log` |
| `Logging.LoggingService.GetEntries` | src/logging_service.py:128-153 | `EntriesOf` on the current buffer |
| `Logging.LoggingService.GetRecent` | src/logging_service.py:155-165 | equals `get_entries(limit=count)` with a count of 100 by default: the last min(count, n) entries, or all when the count is 0 |
| `Logging.LoggingService.Clear` | src/logging_service.py:180-182 | the buffer is empty; the guard is untouched |
| `SchedulerSpec.EffectiveInterval` | src/scheduler.py:27 | an absent or zero interval becomes 1800; any other value is kept; the result is never 0 |
| `SchedulerSpec.Init` | src/scheduler.py:26-31 | a fresh scheduler, for any interval, is not running, not processing, has no timer and no pending timer, and is a single timer chain |
| `SchedulerSpec.ScheduleNextArmsIffRunning` | src/scheduler.py:57-64 | a timer is armed iff running; it adds exactly one pending timer and becomes the referenced one |
| `SchedulerSpec.StartArmsOne` | src/scheduler.py:34-43 | start on a stopped scheduler sets running and arms one timer; on a running one it changes nothing |
| `SchedulerSpec.StopSpec` | src/scheduler.py:45-55 | stop on a stopped scheduler changes nothing; otherwise it clears running, cancels and forgets only the referenced timer, and leaves the in-flight flag |
| `SchedulerSpec.BeginSpec` | src/scheduler.py:66-80 | while processing, the task is not invoked, the flag stays set and a timer is rearmed iff running; while idle, the task is invoked once and nothing is armed |
| `SchedulerSpec.EndSpec` | src/scheduler.py:83-87 | after the task (returned or raised) the flag is cleared and a timer is rearmed iff still running |
| `SchedulerSpec.FireSpec` | src/scheduler.py:62 | a firing timer is consumed and the execute routine begins |
| `SchedulerSpec.TriggerNowSpec` | src/scheduler.py:89-96 | while processing, a manual trigger changes nothing (no rearm); otherwise it is exactly the begin of the execute routine |
| `SchedulerSpec.StepKeepsInv` | src/scheduler.py:34-96 | every event (start, stop, trigger, timer firing, end of a run) keeps the well-formedness invariant, under either policy |
| `SchedulerSpec.RunKeepsInv` | src/scheduler.py:34-96 | any sequence of events keeps the well-formedness invariant |
| `SchedulerSpec.SingleFlight` | src/scheduler.py:69-84 | after any sequence of events from construction, at most one run of the task is in flight, and one is in flight exactly when the flag is set |
| `SchedulerSpec.TriggerAddsTimerChain` | src/scheduler.py:86-96 | a manual run on a running scheduler leaves the armed timer pending and arms another |
| `SchedulerSpec.ControllerStepKeepsChain` | src/scheduler.py:45-87 | as written, a timer firing, a run end or `stop` keeps at most one pending timer, none while a run is in flight and none once stopped |
| `SchedulerSpec.RunKeepsControllerChain` | src/scheduler.py:45-87 | as written, any sequence of timer firings, run ends and `stop` calls keeps that single timer chain |
| `SchedulerSpec.ControllerDrivenSchedulerHasOneTimer` | menu_bar.py:109-121 | a scheduler started once and then driven only by timer firings, run ends and `stop`, as the application drives it, has at most one pending timer and none once stopped |
| `SchedulerSpec.OrphanTimerRunsAfterStop` | src/scheduler.py:45-64 | start, trigger, end, stop leaves the first timer pending, and its firing runs the task on a stopped scheduler |
| `SchedulerSpec.ScheduleNextKeepsOneChain` | src/scheduler.py:57-64 | with the corrected rearm, arming replaces the single pending timer |
| `SchedulerSpec.OneChainBound` | src/scheduler.py:57-64 | with the corrected rearm, at most one timer is pending |
| `SchedulerSpec.OneChainPreserved` | src/scheduler.py:34-96 | with the corrected rearm, every event keeps a single timer chain and a stopped scheduler with no pending timer |
| `SchedulerSpec.RunKeepsOneChain` | src/scheduler.py:34-96 | with the corrected rearm, any sequence of events keeps a single timer chain |
| `SchedulerSpec.NoScheduledRunAfterStop` | src/scheduler.py:45-87 | with the corrected rearm, once stopped, no sequence of timer firings, run ends and stops adds a run of the task |
| `SchedulerSpec.CancelPreviousStopLeavesNoTimer` | src/scheduler.py:45-64 | with the corrected rearm, stop leaves no pending timer, also after the trace that orphans one as written |
| `Scheduling.Scheduler.constructor` | src/scheduler.py:14-31 | the object starts in `Init(interval)` |
| `Scheduling.Scheduler.ScheduleNext` | src/scheduler.py:57-64 | the object moves as `SchedulerSpec.ScheduleNext` |
| `Scheduling.Scheduler.Start` | src/scheduler.py:34-43 | the object moves as `SchedulerSpec.Start` and is running afterwards |
| `Scheduling.Scheduler.Stop` | src/scheduler.py:45-55 | the object moves as `SchedulerSpec.Stop`; not running afterwards, in-flight flag untouched |
| `Scheduling.Scheduler.BeginExecute` | src/scheduler.py:66-80 | the object moves as `SchedulerSpec.Begin`; the task is invoked iff no run was in flight |
| `Scheduling.Scheduler.EndExecute` | src/scheduler.py:81-87 | the object moves as `SchedulerSpec.End`; the flag is cleared |
| `Scheduling.Scheduler.Fire` | src/scheduler.py:62 | the object moves as `SchedulerSpec.Fire` |
| `Scheduling.Scheduler.TriggerNow` | src/scheduler.py:89-96 | the object moves as `SchedulerSpec.TriggerNow`; while processing nothing changes |
| `Scheduling.Scheduler.IsRunning` | src/scheduler.py:98-100 | the running flag, whatever the in-flight flag |
| `MenuBar.StepsRun` | menu_bar.py:128-158 | the steps run in order capture, describe, append, notify; each later step runs iff every earlier one succeeded |
| `MenuBar.BeginEffect` | menu_bar.py:125-126 | `Processing` and the start time are recorded before any step; nothing else changes |
| `MenuBar.FinishEffect` | menu_bar.py:146-170 | success: `Running`, count 0, entry stored; failure before the notification: `Error`, count + 1, entry unchanged; failing notification: `Error`, count 1, entry stored; the preview invariant is kept |
| `MenuBar.ErrorCountBetweenResets` | menu_bar.py:125-170 | a whole run ends with count 0 and `Running` iff every step succeeded, else `Error` with a count of at least 1 |
| `MenuBar.ControlDecision` | menu_bar.py:106-121 | create and start iff `Running` with no scheduler; stop and drop iff `Stopped` or `Error` with one; never act while `Processing` |
| `MenuBar.ShortPreview` | menu_bar.py:94-98 | a preview of at most 50 characters is shown unchanged, a longer one as its first 50 characters plus "..." |
| `MenuBar.LastEntryTitle` | menu_bar.py:89-101 | with a non-empty preview and a timestamp, the title is "Last Entry (", the time, "): " and the short preview, each at its position, and differs from "Last Entry: None"; otherwise it is "Last Entry: None" |
| `MenuBar.LastEntryShownIffPreview` | menu_bar.py:89-101 | for every consistent registry, the menu shows "Last Entry: None" iff no preview is stored |
| `MenuBar.App.constructor` | menu_bar.py:36-59 | no scheduler yet, status `Running`, every other registry field initial |
| `MenuBar.App.BeginWorkflow` | menu_bar.py:125-126 | the registry moves as `BeginEffect` |
| `MenuBar.App.FinishWorkflow` | menu_bar.py:128-170 | the steps run are `StepsRun`; the registry moves as `FinishEffect` |
| `MenuBar.App.ExecuteWorkflow` | menu_bar.py:123-170 | a whole run: `BeginEffect` then `FinishEffect` |
| `MenuBar.App.ScheduledRun` | src/scheduler.py:66-87 | a timer of the current scheduler fires; the workflow runs exactly when no run was in flight, followed by the scheduler's end step; otherwise the registry is unchanged |
| `MenuBar.App.CheckScheduler` | menu_bar.py:103-121 | follows `ControlDecision`: a fresh started scheduler, or the old one stopped and dropped, or no change; never touches the scheduler while `Processing` |
| `MenuBar.App.OnCaptureNow` | menu_bar.py:179-192 | no workflow starts while `Processing`; exactly one starts otherwise |
| `MenuBar.App.BeginManualWorkflow` | menu_bar.py:190-192 | a started capture thread begins its workflow as `BeginEffect` |
| `MenuBar.App.MenuTitles` | menu_bar.py:81-101 | the status title is "Status: " plus the status name; the entry title is "Last Entry: None" iff no preview is stored |

## Findings

| source | as written | input that shows it | evidently intended | confidence | as-written member | corrected member |
|---|---|---|---|---|---|---|
| src/scheduler.py:62 | `_schedule_next` overwrites `_timer` without cancelling the timer it referred to, and `stop` cancels only the referenced timer | `start()`, `trigger_now()` with the run completing, then `stop()`: the timer armed by `start` is still pending and, when it fires, runs the task on a stopped scheduler | one timer chain; after `stop` no further scheduled run | high; not executed | `SchedulerSpec.OrphanTimerRunsAfterStop` | `SchedulerSpec.NoScheduledRunAfterStop` |

The corrected rearm policy, `CancelPrevious`, cancels the referenced timer before it arms
a new one. `Scheduling.Scheduler` implements both policies, chosen at construction. Under
`CancelPrevious` its object invariant keeps at most one pending timer and none once
stopped (`SchedulerSpec.OneChainPreserved`). After `stop`, no timer firing can start
another run (`SchedulerSpec.NoScheduledRunAfterStop`). The application object `MenuBar.App`
creates its scheduler with the written policy, as the source does.
The defect is latent in the application itself. Nothing there calls `trigger_now`, and
each scheduler is started once. Driven that way, the written scheduler keeps a single
timer chain (`SchedulerSpec.ControllerDrivenSchedulerHasOneTimer`). The orphan needs
another client that calls `trigger_now` on a running scheduler. The client method
`Scheduling.ManualTriggerTwice` drives one scheduler of each policy through `start`,
two manual triggers, the run's end and `stop`. It shows the refused second trigger, the
orphan left as written and the empty pending set under the correction.

## Left out

- Real threads, `threading.Timer`, `threading.Lock` and the `rumps` timers. Timers are
  pending identities, and a timer firing or a thread's step is a separate event. The
  in-flight test and set at the start of `_execute` is one atomic step in the model. In
  the source it is not atomic, so two firings racing between the test and the set are
  not modelled.
- The other steps that the model makes atomic. The end of `_execute` (its `finally` block,
  src/scheduler.py:83-87) reads `_running` and rearms without `_lock`, so a `stop` that
  runs between the read and the assignment of `_timer` lets a timer be armed after
  `stop`. `SchedulerSpec.NoScheduledRunAfterStop` relies on `End` being one step.
  `trigger_now` tests the flag (src/scheduler.py:91) and `_execute` tests it again
  (src/scheduler.py:69). A run begun by a timer in between sends the manual call into
  the skip branch, which rearms. `SchedulerSpec.TriggerNow` makes the two tests one.
- Interval timing and cadence drift (`interval + job_duration`). There is no clock in the
  model; only the order of events is modelled.
- `datetime.now`, `strftime` and `isoformat`. Timestamps are integers passed in, and
  formatted times are strings passed in.
- `StatusService.get_status_info`. It takes the non-reentrant lock and then calls
  `get_status_string`, which takes the same lock, so it deadlocks. A snapshot is modelled
  as `StatusService.Snapshot` instead.
- The trivial getters of the status service other than `GetStatus`. They are field reads
  in the model.
- The global singletons `get_status_service` and `get_logging_service`. Services are
  explicit objects.
- The Python `logging` console handler of the logging service, and `get_logger`. The
  echo is an external step. `Log`'s `reenter` argument says whether the echo calls back
  into the service. The only handler the source installs is a stdout stream handler,
  which never does, so `reenter = false` is the program's own case.
- Logging.LoggingService.Log: it is one atomic step, so the model does not capture the
  entry a second thread loses. In the source, a `log` call from another thread (a timer
  thread in `_execute`, a "Capture Now" workflow thread, or the menu-bar thread) that
  arrives while the first call is echoing (src/logging_service.py:99-110) sees the guard
  set at :88 and drops its entry silently.
- Logging.LoggingService.GetEntries: it returns a value, so the model does not capture
  aliasing. With no level and a falsy limit, `get_entries` returns the live buffer
  itself (src/logging_service.py:143 and :153), and a later `log` or `clear` changes the
  list the caller already holds.
- `LoggingService.debug`, `info`, `warning` and `error`. Each only calls `log` with its
  level.
- `get_formatted_logs`, a newline join of formatted entries, and `LogEntry.to_dict`. Both
  are formatting only.
- The log messages the scheduler and the application emit. They do not affect state.
- The capture, inference and tracking-file collaborators (src/screenshot.py,
  src/model_inference.py, src/tracking.py). Each is a step that succeeds or fails.
- Notifications. The success notification is a step that can fail. The error
  notification in the `except` block is left out: if it raised, the exception would leave
  the workflow after the status and counter were already updated, so the registry would
  be the same.
- The log viewer and progress windows, "View Logs...", "Preferences...", `_cleanup`,
  main.py, bootstrap.py and config.py. These are UI, process set-up or constants. The
  default interval of 1800 seconds is a constant here.
- Timers of a dropped scheduler. The application starts each scheduler once and never
  calls `trigger_now`, so under the written rearm a scheduler it stops and drops holds no
  pending timer (`SchedulerSpec.ControllerDrivenSchedulerHasOneTimer`), except through the
  race at the end of `_execute` named above. `MenuBar.App` therefore fires only timers of
  its current scheduler.
