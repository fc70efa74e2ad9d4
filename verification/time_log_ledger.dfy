/** The time-log ledger of a task: an ordered sequence of logged work intervals,
    and the three edits the task modal offers on it ("Add a log", delete one,
    change one). Order is entry order, never re-sorted. */
module TimeLogLedger {
  import opened Base

  /** One logged interval; `amount` is kept separately from `end - start`. */
  datatype TimeLog = TimeLog(start: Minutes, end: Minutes, amount: Minutes)

  /** The fixed length of a log created by "Add a log", and the gap left after the previous one. */
  const DefaultDuration: Minutes := 30

  predicate WellFormed(log: TimeLog) {
    log.start <= log.end && log.amount >= 0
  }

  predicate AllWellFormed(logs: seq<TimeLog>) {
    forall k :: 0 <= k < |logs| ==> WellFormed(logs[k])
  }

  /** "Add a log": append one default-length log. It starts one default duration after the
      last log's end; on an empty ledger it starts at the task's start when the task is timed
      (`start && allDay === false`), and one default duration before `now` otherwise. */
  function AddDefaultTimeLog(logs: seq<TimeLog>, taskStart: Option<Minutes>, allDay: bool, now: Minutes)
    : (r: seq<TimeLog>)
    ensures |r| == |logs| + 1
    ensures r[..|logs|] == logs
    ensures r[|logs|].amount == DefaultDuration
    ensures r[|logs|].end - r[|logs|].start == DefaultDuration
    ensures |logs| > 0 ==> r[|logs|].start - logs[|logs| - 1].end == DefaultDuration
    ensures |logs| == 0 && taskStart.Some? && !allDay ==> r[|logs|].start == taskStart.value
    ensures |logs| == 0 && (taskStart.None? || allDay) ==> r[|logs|].end == now
  {
    var fallback := if taskStart.Some? && !allDay then taskStart.value else now - DefaultDuration;
    var logStart := if |logs| > 0 then logs[|logs| - 1].end + DefaultDuration else fallback;
    logs + [TimeLog(logStart, logStart + DefaultDuration, DefaultDuration)]
  }

  /** `xs.filter((_, i) => index !== i)` over the suffix `xs` whose first element sits at
      position `offset` of the whole sequence. */
  function WithoutPosition<T>(xs: seq<T>, index: int, offset: int): (r: seq<T>)
    ensures |r| == |xs| - (if offset <= index < offset + |xs| then 1 else 0)
    ensures forall x :: x in r ==> x in xs
    decreases |xs|
  {
    if |xs| == 0 then []
    else (if offset == index then [] else [xs[0]]) + WithoutPosition(xs[1..], index, offset + 1)
  }

  /** `xs.map((x, i) => index === i ? data : x)` over the suffix `xs` whose first element sits at
      position `offset` of the whole sequence. */
  function ReplacePosition<T>(xs: seq<T>, index: int, data: T, offset: int): (r: seq<T>)
    ensures |r| == |xs|
    ensures forall k :: 0 <= k < |xs| ==> r[k] == if offset + k == index then data else xs[k]
    decreases |xs|
  {
    if |xs| == 0 then []
    else [if offset == index then data else xs[0]] + ReplacePosition(xs[1..], index, data, offset + 1)
  }

  /** Putting the head back in front of a splice of the tail is a splice of the whole. */
  lemma ConsSplice<T>(xs: seq<T>, j: int)
    requires 0 < j < |xs|
    ensures [xs[0]] + (xs[1..][..j - 1] + xs[1..][j..]) == xs[..j] + xs[j + 1..]
  {
    assert xs[1..][..j - 1] == xs[1..j];
    assert xs[1..][j..] == xs[j + 1..];
    assert [xs[0]] + xs[1..j] == xs[..j];
  }

  /** Dropping the element at a position inside the suffix splices it out; a position outside
      the suffix keeps every element. */
  lemma {:induction false} WithoutPositionSplices<T>(xs: seq<T>, index: int, offset: int)
    ensures offset <= index < offset + |xs| ==>
      WithoutPosition(xs, index, offset) == xs[..index - offset] + xs[index - offset + 1..]
    ensures !(offset <= index < offset + |xs|) ==> WithoutPosition(xs, index, offset) == xs
    decreases |xs|
  {
    if |xs| > 0 {
      WithoutPositionSplices(xs[1..], index, offset + 1);
      if offset == index {
        assert xs[1..] == xs[..0] + xs[1..];
      } else if offset < index < offset + |xs| {
        ConsSplice(xs, index - offset);
      } else {
        assert [xs[0]] + xs[1..] == xs;
      }
    }
  }

  /** Delete the log at `index`. An index outside the ledger deletes nothing. */
  function DeleteTimeLog(logs: seq<TimeLog>, index: int): (r: seq<TimeLog>)
    ensures 0 <= index < |logs| ==> r == logs[..index] + logs[index + 1..]
    ensures !(0 <= index < |logs|) ==> r == logs
  {
    WithoutPositionSplices(logs, index, 0);
    WithoutPosition(logs, index, 0)
  }

  /** Replace the log at `index` by `data`. An index outside the ledger replaces nothing. */
  function UpdateTimeLog(logs: seq<TimeLog>, index: int, data: TimeLog): (r: seq<TimeLog>)
    ensures 0 <= index < |logs| ==> r == logs[index := data]
    ensures !(0 <= index < |logs|) ==> r == logs
  {
    ReplacePosition(logs, index, data, 0)
  }

  /** Deleting the log just added restores the ledger: the two edits are inverse. */
  lemma DeleteUndoesAdd(logs: seq<TimeLog>, taskStart: Option<Minutes>, allDay: bool, now: Minutes)
    ensures DeleteTimeLog(AddDefaultTimeLog(logs, taskStart, allDay, now), |logs|) == logs
  {
  }

  /** Two consecutive "Add a log" clicks leave a fixed gap between the two new logs. */
  lemma AddTwiceLeavesGap(logs: seq<TimeLog>, taskStart: Option<Minutes>, allDay: bool, now: Minutes)
    ensures var once := AddDefaultTimeLog(logs, taskStart, allDay, now);
            var twice := AddDefaultTimeLog(once, taskStart, allDay, now);
            |twice| == |logs| + 2 &&
            twice[|logs| + 1].start == twice[|logs|].end + DefaultDuration &&
            twice[|logs|].end < twice[|logs| + 1].start
  {
  }

  /** Every ledger edit keeps a well-formed ledger well-formed (the replacement log being well-formed too). */
  lemma EditsPreserveWellFormed(logs: seq<TimeLog>, taskStart: Option<Minutes>, allDay: bool, now: Minutes,
                                index: int, data: TimeLog)
    requires AllWellFormed(logs)
    requires WellFormed(data)
    ensures AllWellFormed(AddDefaultTimeLog(logs, taskStart, allDay, now))
    ensures AllWellFormed(DeleteTimeLog(logs, index))
    ensures AllWellFormed(UpdateTimeLog(logs, index, data))
  {
  }

  /** Writing back the log already at a position changes nothing; a second update at the
      same position overrides the first. */
  lemma UpdateRestoresAndOverrides(logs: seq<TimeLog>, index: int, a: TimeLog, b: TimeLog)
    ensures 0 <= index < |logs| ==> UpdateTimeLog(logs, index, logs[index]) == logs
    ensures UpdateTimeLog(UpdateTimeLog(logs, index, a), index, b) == UpdateTimeLog(logs, index, b)
  {
  }
}
