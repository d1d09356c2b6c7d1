/** The in-memory log: a buffer of the most recent entries, capped at a maximum size,
    with a guard against re-entrant logging, and the queries the log viewer uses. */
module Logging {
  import opened Common

  datatype LogLevel = Debug | Info | Warning | Error

  /** A log entry; its timestamp is an abstract clock reading. */
  datatype LogEntry = LogEntry(level: LogLevel, message: string, timestamp: Timestamp)

  /** The default capacity of the buffer and the default count of `get_recent`. */
  const DEFAULT_MAX_ENTRIES: int := 100
  const DEFAULT_RECENT_COUNT: int := 100

  /** The text of a level, as it appears in a formatted entry: a non-empty upper-case
      word, so it never contains the bracket that closes it in a formatted entry. */
  function LevelName(level: LogLevel): (r: string)
    ensures |r| > 0
    ensures forall i :: 0 <= i < |r| ==> 'A' <= r[i] <= 'Z'
  {
    match level
    case Debug => "DEBUG"
    case Info => "INFO"
    case Warning => "WARNING"
    case Error => "ERROR"
  }

  /** The four levels have four distinct names. */
  lemma LevelNameInjective(a: LogLevel, b: LogLevel)
    ensures LevelName(a) == LevelName(b) <==> a == b
  {
  }

  /** `LogEntry.__str__`, with the formatted clock reading supplied by the caller: the
      time in brackets, the level name in brackets, then the message. */
  function Format(e: LogEntry, timeText: string): (r: string)
    ensures |r| == |timeText| + |LevelName(e.level)| + |e.message| + 6
    ensures r[0] == '[' && r[1..1 + |timeText|] == timeText
    ensures r[1 + |timeText|..4 + |timeText|] == "] ["
    ensures r[4 + |timeText|..4 + |timeText| + |LevelName(e.level)|] == LevelName(e.level)
    ensures r[4 + |timeText| + |LevelName(e.level)|..6 + |timeText| + |LevelName(e.level)|] == "] "
    ensures r[|r| - |e.message|..] == e.message
  {
    "[" + timeText + "] [" + LevelName(e.level) + "] " + e.message
  }

  /** With the same time text, the formatted line determines the entry's level and
      message: the level name ends at the first `]` after the time. */
  lemma {:induction false} FormatDeterminesEntry(a: LogEntry, b: LogEntry, timeText: string)
    requires Format(a, timeText) == Format(b, timeText)
    ensures a.level == b.level && a.message == b.message
  {
    var r := Format(a, timeText);
    var la, lb := LevelName(a.level), LevelName(b.level);
    var k := 4 + |timeText|;
    assert forall i :: k <= i < k + |la| ==> r[i] == la[i - k] != ']';
    assert forall i :: k <= i < k + |lb| ==> r[i] == lb[i - k] != ']';
    assert r[k + |la|] == ']' && r[k + |lb|] == ']';
    assert la == r[k..k + |la|] == lb;
    LevelNameInjective(a.level, b.level);
  }

  /** The buffer after one `log` call: the entry is appended and, when that puts the
      buffer over `maxEntries`, the oldest entry (and only it) is dropped. */
  function Appended(entries: seq<LogEntry>, e: LogEntry, maxEntries: int): (r: seq<LogEntry>)
    ensures |r| == if |entries| + 1 > maxEntries then |entries| else |entries| + 1
    ensures r == (entries + [e])[|entries| + 1 - |r|..]
    ensures 0 <= maxEntries && |entries| <= maxEntries ==> |r| <= maxEntries
    ensures 0 < maxEntries && |entries| <= maxEntries ==> 0 < |r| && r[|r| - 1] == e
  {
    var s := entries + [e];
    if |s| > maxEntries then s[1..] else s
  }

  /** The list comprehension `[e for e in entries if e.level == level]`. */
  function OfLevel(s: seq<LogEntry>, level: LogLevel): (r: seq<LogEntry>)
    ensures |r| <= |s|
    ensures forall i :: 0 <= i < |r| ==> r[i].level == level
    ensures forall e :: e in r <==> e in s && e.level == level
  {
    if s == [] then []
    else if s[0].level == level then [s[0]] + OfLevel(s[1..], level)
    else OfLevel(s[1..], level)
  }

  /** Filtering commutes with concatenation, so the kept entries stay in their order. */
  lemma {:induction false} OfLevelConcat(a: seq<LogEntry>, b: seq<LogEntry>, level: LogLevel)
    ensures OfLevel(a + b, level) == OfLevel(a, level) + OfLevel(b, level)
  {
    if a == [] {
      assert a + b == b;
    } else {
      assert (a + b)[0] == a[0];
      assert (a + b)[1..] == a[1..] + b;
      OfLevelConcat(a[1..], b, level);
    }
  }

  /** A buffer whose entries all have the level is left as it is. */
  lemma {:induction false} OfLevelAll(s: seq<LogEntry>, level: LogLevel)
    requires forall i :: 0 <= i < |s| ==> s[i].level == level
    ensures OfLevel(s, level) == s
  {
    if s != [] {
      OfLevelAll(s[1..], level);
    }
  }

  /** Filtering twice by the same level is filtering once. */
  lemma OfLevelIdempotent(s: seq<LogEntry>, level: LogLevel)
    ensures OfLevel(OfLevel(s, level), level) == OfLevel(s, level)
  {
    OfLevelAll(OfLevel(s, level), level);
  }

  /** Python's `s[start:]`: a negative start counts from the end, and the start is
      clipped to the bounds of the sequence. */
  function SliceFrom<T>(s: seq<T>, start: int): (r: seq<T>)
    ensures |r| <= |s| && r == s[|s| - |r|..]
    ensures start >= 0 ==> |r| == if start <= |s| then |s| - start else 0
    ensures start < 0 ==> |r| == if -start <= |s| then -start else |s|
  {
    if start >= 0 then s[if start <= |s| then start else |s|..]
    else s[if -start <= |s| then |s| + start else 0..]
  }

  /** `get_entries` on a given buffer: filter by level when one is given, then keep
      `entries[-limit:]` when the limit is truthy (present and non-zero). */
  function EntriesOf(entries: seq<LogEntry>, level: Option<LogLevel>, limit: Option<int>): (r: seq<LogEntry>)
    ensures level.Some? ==> forall i :: 0 <= i < |r| ==> r[i].level == level.value
    ensures limit.None? || limit == Some(0) ==>
      r == if level.Some? then OfLevel(entries, level.value) else entries
    ensures limit.Some? && limit.value > 0 ==>
      var f := if level.Some? then OfLevel(entries, level.value) else entries;
      |r| == (if limit.value <= |f| then limit.value else |f|) && r == f[|f| - |r|..]
    ensures limit.Some? && limit.value < 0 ==>
      var f := if level.Some? then OfLevel(entries, level.value) else entries;
      r == f[if -limit.value <= |f| then -limit.value else |f|..]
  {
    var filtered := if level.Some? then OfLevel(entries, level.value) else entries;
    if limit.Some? && limit.value != 0 then SliceFrom(filtered, -limit.value) else filtered
  }

  class LoggingService {
    const maxEntries: int
    var entries: seq<LogEntry>
    /** Set while the entry is being echoed to the console, so that a log call made from
        inside that echo adds nothing. */
    var loggingDirectly: bool

    /** The capacity bound holds whenever the capacity is not negative. */
    ghost predicate Valid()
      reads this
    {
      0 <= maxEntries ==> |entries| <= maxEntries
    }

    constructor (maxEntries: int := DEFAULT_MAX_ENTRIES)
      ensures Valid()
      ensures this.maxEntries == maxEntries && entries == [] && !loggingDirectly
    {
      this.maxEntries := maxEntries;
      entries := [];
      loggingDirectly := false;
    }

    /** `log`. The console handler is an external step; `reenter` says whether it calls
        back into this service with the same message while the entry is echoed. */
    method Log(level: LogLevel, message: string, now: Timestamp, reenter: bool)
      requires Valid()
      modifies this
      decreases if reenter then 1 else 0
      ensures Valid()
      ensures old(loggingDirectly) ==> entries == old(entries) && loggingDirectly
      ensures !old(loggingDirectly) ==>
        && entries == Appended(old(entries), LogEntry(level, message, now), maxEntries)
        && !loggingDirectly
    {
      if loggingDirectly {
        return;
      }
      var entry := LogEntry(level, message, now);
      entries := entries + [entry];
      if |entries| > maxEntries {
        entries := entries[1..];
      }
      loggingDirectly := true;
      if reenter {
        Log(level, message, now, false);
      }
      loggingDirectly := false;
    }

    /** `get_entries` on the current buffer. */
    function GetEntries(level: Option<LogLevel>, limit: Option<int>): (r: seq<LogEntry>)
      reads this
      ensures r == EntriesOf(entries, level, limit)
    {
      EntriesOf(entries, level, limit)
    }

    /** `get_recent`: the last `count` entries of every level (all of them when the
        count is zero). */
    function GetRecent(count: int := DEFAULT_RECENT_COUNT): (r: seq<LogEntry>)
      reads this
      ensures r == GetEntries(None, Some(count))
      ensures count > 0 ==> |r| == (if count <= |entries| then count else |entries|)
      ensures count > 0 ==> r == entries[|entries| - |r|..]
      ensures count == 0 ==> r == entries
    {
      GetEntries(None, Some(count))
    }

    /** `clear`: the buffer is emptied; the capacity and the guard are untouched. */
    method Clear()
      requires Valid()
      modifies this
      ensures Valid()
      ensures entries == [] && loggingDirectly == old(loggingDirectly)
    {
      entries := [];
    }
  }
}
