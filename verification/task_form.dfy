/** The modal's staging form and the handlers that rewrite one field of it: the
    single-date / date-range switch and the three time-log edits. Each handler ends in
    `updateFormData` with a one-field patch, so everything else stays as it was. */
module TaskForm {
  import opened Base
  import opened TimeLogLedger

  datatype Form = Form(
    title: string,
    startDateVal: Option<Minutes>,
    startTime: Option<Minutes>,
    endDateVal: Option<Minutes>,
    estimatedTime: Option<Minutes>,
    projectId: Option<string>,
    timeLogs: Option<seq<TimeLog>>)

  datatype PlacementMode = DateRange | SingleDate

  /** The modal shows the range picker exactly when an end date is present. */
  predicate IsRangeMode(f: Form) {
    f.endDateVal.Some?
  }

  /** Switch between single date and date range. Only `endDateVal` is written: a range ends
      one day after the start (after `now` when no start is set); a single date has no end. */
  function SwitchRangeMode(f: Form, mode: PlacementMode, now: Minutes): (r: Form)
    ensures r == f.(endDateVal := r.endDateVal)
    ensures IsRangeMode(r) <==> mode == DateRange
    ensures mode == DateRange ==> r.endDateVal.value - f.startDateVal.GetOr(now) == MinutesPerDay
  {
    var start := f.startDateVal.GetOr(now);
    var end := if mode == DateRange then Some(start + MinutesPerDay) else None;
    f.(endDateVal := end)
  }

  /** Range, then single date, then range again keeps the start and recomputes the end from it:
      the original end is not resurrected, and the result is that of a single switch to range. */
  lemma RangeRoundTrip(f: Form, now1: Minutes, now2: Minutes, now3: Minutes)
    ensures var g := SwitchRangeMode(SwitchRangeMode(SwitchRangeMode(f, DateRange, now1), SingleDate, now2),
                                     DateRange, now3);
            g.startDateVal == f.startDateVal && g == SwitchRangeMode(f, DateRange, now3)
    ensures f.startDateVal.Some? ==>
            SwitchRangeMode(f, DateRange, now1) == SwitchRangeMode(f, DateRange, now3)
  {
  }

  /** A date range produced by the switch always ends strictly after its start. */
  lemma RangeEndsAfterStart(f: Form, now: Minutes)
    requires f.startDateVal.Some?
    ensures SwitchRangeMode(f, DateRange, now).endDateVal.value > f.startDateVal.value
  {
  }

  /** "Add a log" on the form: the ledger (absent means empty) grows by the default log. */
  function AddLog(f: Form, taskStart: Option<Minutes>, allDay: bool, now: Minutes): (r: Form)
    ensures r == f.(timeLogs := r.timeLogs)
    ensures r.timeLogs.Some? && |r.timeLogs.value| == |f.timeLogs.GetOr([])| + 1
    ensures r.timeLogs.value[..|f.timeLogs.GetOr([])|] == f.timeLogs.GetOr([])
    ensures var logs := f.timeLogs.GetOr([]);
            var n := r.timeLogs.value[|logs|];
            && n.amount == DefaultDuration
            && n.end - n.start == DefaultDuration
            && (|logs| > 0 ==> n.start == logs[|logs| - 1].end + DefaultDuration)
            && (|logs| == 0 && taskStart.Some? && !allDay ==> n.start == taskStart.value)
            && (|logs| == 0 && (taskStart.None? || allDay) ==> n.end == now)
  {
    f.(timeLogs := Some(AddDefaultTimeLog(f.timeLogs.GetOr([]), taskStart, allDay, now)))
  }

  /** Delete one log on the form; an absent ledger becomes an empty one. */
  function DeleteLog(f: Form, index: int): (r: Form)
    ensures r == f.(timeLogs := r.timeLogs)
    ensures r.timeLogs.Some?
    ensures var logs := f.timeLogs.GetOr([]);
            0 <= index < |logs| ==> r.timeLogs.value == logs[..index] + logs[index + 1..]
    ensures !(0 <= index < |f.timeLogs.GetOr([])|) ==> r.timeLogs == Some(f.timeLogs.GetOr([]))
  {
    f.(timeLogs := Some(DeleteTimeLog(f.timeLogs.GetOr([]), index)))
  }

  /** Change one log on the form; an absent ledger becomes an empty one. */
  function UpdateLog(f: Form, index: int, data: TimeLog): (r: Form)
    ensures r == f.(timeLogs := r.timeLogs)
    ensures r.timeLogs.Some?
    ensures var logs := f.timeLogs.GetOr([]);
            0 <= index < |logs| ==> r.timeLogs.value == logs[index := data]
    ensures !(0 <= index < |f.timeLogs.GetOr([])|) ==> r.timeLogs == Some(f.timeLogs.GetOr([]))
  {
    f.(timeLogs := Some(UpdateTimeLog(f.timeLogs.GetOr([]), index, data)))
  }

  /** The placement switch and the ledger edits write disjoint fields, so they commute. */
  lemma PlacementAndLedgerCommute(f: Form, mode: PlacementMode, now: Minutes, index: int, data: TimeLog,
                                  taskStart: Option<Minutes>, allDay: bool, logNow: Minutes)
    ensures SwitchRangeMode(AddLog(f, taskStart, allDay, logNow), mode, now)
            == AddLog(SwitchRangeMode(f, mode, now), taskStart, allDay, logNow)
    ensures SwitchRangeMode(UpdateLog(f, index, data), mode, now) == UpdateLog(SwitchRangeMode(f, mode, now), index, data)
    ensures SwitchRangeMode(DeleteLog(f, index), mode, now) == DeleteLog(SwitchRangeMode(f, mode, now), index)
  {
  }
}
