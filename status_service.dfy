/** The status registry: the lifecycle status of the application, metadata about the
    last execution and the last recorded entry, and a counter of failed runs. */
module Status {
  import opened Common

  /** `AppStatus`: exactly one of four values is held at any time. */
  datatype AppStatus = Stopped | Running | Processing | Error

  /** Stored previews are cut to this many characters. */
  const PREVIEW_LIMIT: nat := 100

  /** The human-readable name of a status, as shown in the menu. */
  function StatusString(s: AppStatus): (r: string)
    ensures |r| > 0
    ensures r == "Processing..." <==> s == Processing
  {
    match s
    case Running => "Running"
    case Stopped => "Stopped"
    case Processing => "Processing..."
    case Error => "Error"
  }

  /** The four statuses have four distinct names, so the name determines the status. */
  lemma StatusStringInjective(a: AppStatus, b: AppStatus)
    ensures StatusString(a) == StatusString(b) <==> a == b
  {
  }

  /** What `set_last_entry` keeps of an entry's text: an empty text is stored as no
      preview at all, anything else is cut to its first `PREVIEW_LIMIT` characters. */
  function Preview(text: string): (r: Option<string>)
    ensures r.None? <==> text == []
    ensures r.Some? ==> r.value <= text
    ensures r.Some? ==> |r.value| == if |text| <= PREVIEW_LIMIT then |text| else PREVIEW_LIMIT
  {
    if text == [] then None
    else if |text| <= PREVIEW_LIMIT then Some(text)
    else Some(text[..PREVIEW_LIMIT])
  }

  /** A point-in-time copy of every field of the registry. */
  datatype StatusRecord = StatusRecord(
    status: AppStatus,
    lastExecutionTime: Option<Timestamp>,
    lastEntryPreview: Option<string>,
    lastEntryTimestamp: Option<Timestamp>,
    errorCount: nat,
    nextExecutionTime: Option<Timestamp>)

  /** The registry as it is constructed. */
  const InitialRecord := StatusRecord(Stopped, None, None, None, 0, None)

  /** What every operation of the registry keeps: a stored preview is non-empty, at most
      `PREVIEW_LIMIT` long, and always comes with the timestamp of its entry. The converse
      does not hold: an empty entry text leaves a timestamp without a preview. */
  ghost predicate Consistent(r: StatusRecord) {
    r.lastEntryPreview.Some? ==>
      && r.lastEntryTimestamp.Some?
      && 0 < |r.lastEntryPreview.value| <= PREVIEW_LIMIT
  }

  class StatusService {
    var status: AppStatus
    var lastExecutionTime: Option<Timestamp>
    var lastEntryPreview: Option<string>
    var lastEntryTimestamp: Option<Timestamp>
    var errorCount: nat
    var nextExecutionTime: Option<Timestamp>

    /** All fields at once. */
    function Snapshot(): StatusRecord
      reads this
    {
      StatusRecord(status, lastExecutionTime, lastEntryPreview, lastEntryTimestamp,
                   errorCount, nextExecutionTime)
    }

    ghost predicate Valid()
      reads this
    {
      Consistent(Snapshot())
    }

    constructor ()
      ensures Valid()
      ensures Snapshot() == InitialRecord
    {
      status := Stopped;
      lastExecutionTime := None;
      lastEntryPreview := None;
      lastEntryTimestamp := None;
      errorCount := 0;
      nextExecutionTime := None;
    }

    /** `set_status`: an unconditional overwrite of the status; nothing else changes. */
    method SetStatus(s: AppStatus)
      requires Valid()
      modifies this
      ensures Valid()
      ensures Snapshot() == old(Snapshot()).(status := s)
    {
      status := s;
    }

    /** `get_status`: the status currently held. */
    function GetStatus(): (r: AppStatus)
      reads this
      ensures r == status
    {
      status
    }

    /** `is_running` holds exactly when the status is `Running`; `Processing` does not count. */
    predicate IsRunning()
      reads this
      ensures IsRunning() <==> status == Running
      ensures IsRunning() ==> status != Processing
    {
      GetStatus() == Running
    }

    /** `set_last_execution`: the given timestamp, or "now" when none is given. */
    method SetLastExecution(t: Option<Timestamp>, now: Timestamp)
      requires Valid()
      modifies this
      ensures Valid()
      ensures Snapshot() == old(Snapshot()).(lastExecutionTime := Some(OrNow(t, now)))
    {
      lastExecutionTime := Some(OrNow(t, now));
    }

    /** `set_last_entry`: stores the preview of the text (possibly none) and, in every
        case, the entry's timestamp. */
    method SetLastEntry(text: string, t: Option<Timestamp>, now: Timestamp)
      requires Valid()
      modifies this
      ensures Valid()
      ensures Snapshot() == old(Snapshot()).(lastEntryPreview := Preview(text),
                                             lastEntryTimestamp := Some(OrNow(t, now)))
      ensures lastEntryPreview.Some? ==> lastEntryPreview.value <= text
    {
      lastEntryPreview := Preview(text);
      lastEntryTimestamp := Some(OrNow(t, now));
    }

    /** `increment_error_count`: exactly one more failure. */
    method IncrementErrorCount()
      requires Valid()
      modifies this
      ensures Valid()
      ensures Snapshot() == old(Snapshot()).(errorCount := old(errorCount) + 1)
    {
      errorCount := errorCount + 1;
    }

    /** `reset_error_count`. */
    method ResetErrorCount()
      requires Valid()
      modifies this
      ensures Valid()
      ensures Snapshot() == old(Snapshot()).(errorCount := 0)
    {
      errorCount := 0;
    }

    /** `set_next_execution_time`: stores its argument, an absent time included. */
    method SetNextExecutionTime(t: Option<Timestamp>)
      requires Valid()
      modifies this
      ensures Valid()
      ensures Snapshot() == old(Snapshot()).(nextExecutionTime := t)
    {
      nextExecutionTime := t;
    }

    /** `get_status_string`. */
    function GetStatusString(): (r: string)
      reads this
      ensures r == StatusString(status)
    {
      StatusString(GetStatus())
    }
  }
}
