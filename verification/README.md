# Agenda task modal and calendar event: a Dafny model

This project models the decision logic of two components of the Logseq agenda plugin:

- the **task modal** (`TaskModal`), which creates and edits agenda tasks. The model covers
  its time-log ledger edits ("Add a log", delete a log, change a log), the single-date /
  date-range switch, the edit lock on recurring tasks, the Complete / Incomplete status
  switch, and what "Save" does with the written task: it fails, or it emits the task, tags
  it with the filters it matches, or hides it;
- the **time-box calendar event** (`TheCalendarEvent`). The model covers its display flags,
  the "Remove from timebox" action and the context-menu dispatch.

The handlers are lifted out of the React components as pure functions over immutable records.
Every timestamp is a whole number of minutes. "Now" is a parameter. Adding one day adds 1440
minutes. The answers of the outliner and of the filter query are inputs: the written block,
whether its page was found, the rebuilt task, and the (uuid, filter) rows.

Modules:

- `Base` (`base.dfy`): the option type and the minute unit.
- `TimeLogLedger` (`time_log_ledger.dfy`): the time-log record and the three ledger edits.
  Delete and update are written as the index-filter and index-map the code performs. Lemmas
  tie them to a splice and a point update.
- `Tasks` (`tasks.dfy`): the task, its block, its status and the filters. The task type's own
  declaration file is not part of this model; the record holds the fields the modelled code
  reads or writes.
- `TaskForm` (`task_form.dfy`): the staging form, the range switch, and the ledger edits as
  one-field form updates.
- `TaskStatus` (`task_status.dfy`): the edit lock and the status switch.
- `FilterVisibility` (`filter_visibility.dfy`): the filter resolver and the post-write
  decision of the save handler.
- `CalendarEvent` (`calendar_event.dfy`): the calendar event's flags and menu actions.

The code behaves as follows in these cases, and the model does the same:

- A delete or update at an index outside the ledger leaves the ledger unchanged. It does not
  fail with an index error.
- With no filter selected, the task is emitted exactly as it was rebuilt. Its `filters` field
  is not cleared.
- A matching task is tagged with the list of `filter` values of the query rows for its block,
  in row order. This is a list, not a set.
- Switching to a range always overwrites the end date, even when one was already set.
- Only the status switch (and the Save button) honours the edit lock. The range switch and
  the time-log handlers do not check it, so the model does not lock them.

## Model

| member | source | states |
|---|---|---|
| TimeLogLedger.AddDefaultTimeLog | src/pages/NewDashboard/components/TaskModal/index.tsx:149-156 | the ledger grows by exactly one log and earlier logs keep their order; the new log lasts and counts 30 minutes; it starts 30 minutes after the last log's end, else at the start of a timed task, else it ends at now |
| TimeLogLedger.WithoutPosition | src/pages/NewDashboard/components/TaskModal/index.tsx:160 | the index filter drops exactly one element when the index falls inside the sequence and none otherwise, and introduces no new element |
| TimeLogLedger.ReplacePosition | src/pages/NewDashboard/components/TaskModal/index.tsx:165-168 | the index map keeps the length, puts the new value at the index and keeps every other position |
| TimeLogLedger.WithoutPositionSplices | src/pages/NewDashboard/components/TaskModal/index.tsx:160 | the index filter equals splicing out the element at the index, and is the identity for an index outside the sequence |
| TimeLogLedger.DeleteTimeLog | src/pages/NewDashboard/components/TaskModal/index.tsx:158-161 | deleting at an index inside the ledger removes that log and keeps the others in order; an index outside leaves the ledger unchanged |
| TimeLogLedger.UpdateTimeLog | src/pages/NewDashboard/components/TaskModal/index.tsx:163-169 | updating at an index inside the ledger replaces that log alone; an index outside leaves the ledger unchanged |
| TimeLogLedger.DeleteUndoesAdd | src/pages/NewDashboard/components/TaskModal/index.tsx:149-161 | deleting the log just added restores the original ledger |
| TimeLogLedger.AddTwiceLeavesGap | src/pages/NewDashboard/components/TaskModal/index.tsx:153-155 | two consecutive adds leave a 30-minute gap between the new logs, so they do not overlap |
| TimeLogLedger.EditsPreserveWellFormed | src/pages/NewDashboard/components/TaskModal/index.tsx:149-169 | add, delete and update keep every log's end at or after its start and its amount non-negative |
| TimeLogLedger.UpdateRestoresAndOverrides | src/pages/NewDashboard/components/TaskModal/index.tsx:163-169 | writing back the log already at an index changes nothing; a second update at the same index overrides the first |
| TaskForm.SwitchRangeMode | src/pages/NewDashboard/components/TaskModal/index.tsx:139-143 | only the end date is written; the modal is in range mode afterwards exactly when range was asked for; a range ends one day after the start, or after now when no start is set |
| TaskForm.RangeRoundTrip | src/pages/NewDashboard/components/TaskModal/index.tsx:139-143 | range, single date, range keeps the start and gives the same form as one switch to range, so the old end is not resurrected; with a start set, now does not matter |
| TaskForm.RangeEndsAfterStart | src/pages/NewDashboard/components/TaskModal/index.tsx:140-141 | a range made by the switch ends strictly after its start |
| TaskForm.AddLog | src/pages/NewDashboard/components/TaskModal/index.tsx:149-156 | on the form, an absent ledger counts as empty; add writes only the ledger, which becomes one longer with the old logs as its prefix; the new log lasts and counts 30 minutes and starts 30 minutes after the last log's end, else at the start of a timed task, else it ends at now |
| TaskForm.DeleteLog | src/pages/NewDashboard/components/TaskModal/index.tsx:158-161 | on the form, delete writes only the ledger: the spliced ledger for an index inside it, the current (or empty) ledger otherwise |
| TaskForm.UpdateLog | src/pages/NewDashboard/components/TaskModal/index.tsx:163-169 | on the form, update writes only the ledger: the point-updated ledger for an index inside it, the current (or empty) ledger otherwise |
| TaskForm.PlacementAndLedgerCommute | src/pages/NewDashboard/components/TaskModal/index.tsx:139-169 | the range switch and each of the three ledger edits (add, delete, update) touch disjoint fields, so their order does not matter |
| TaskStatus.MarkerOf | src/pages/NewDashboard/components/TaskModal/index.tsx:186 | the block keyword is TODO exactly for the to-do status, and DONE for the done status |
| TaskStatus.EditDisabled | src/pages/NewDashboard/components/TaskModal/index.tsx:78-79 | create mode is never locked; in edit mode the modal is locked exactly when the task has a recurrence rule or is a past recurring occurrence |
| TaskStatus.EditLock | src/pages/NewDashboard/components/TaskModal/index.tsx:78-79 | a status switch on an existing task is refused exactly when it has a recurrence rule or is a past recurring occurrence; create mode is never locked; an unlocked task is switched and stays unlocked |
| TaskStatus.SwitchTaskStatus | src/pages/NewDashboard/components/TaskModal/index.tsx:176-188 | refused exactly when edit is disabled, ignored exactly in create mode, otherwise the task with the new status, a block keyword that agrees with it, and every other field equal |
| TaskStatus.SwitchRoundTrip | src/pages/NewDashboard/components/TaskModal/index.tsx:180-188 | switching a task whose keyword agrees with its status, and switching back, restores the task exactly |
| FilterVisibility.SelectedFilters | src/pages/NewDashboard/components/TaskModal/index.tsx:108 | the selected definitions are exactly the configured filters whose id is selected |
| FilterVisibility.SelectedFiltersAppend | src/pages/NewDashboard/components/TaskModal/index.tsx:108 | selection over concatenated definitions is the concatenation of the selections, so configured order is kept |
| FilterVisibility.SelectedFiltersSingle | src/pages/NewDashboard/components/TaskModal/index.tsx:108 | one definition is kept exactly when its id is selected |
| FilterVisibility.Uuids | src/pages/NewDashboard/components/TaskModal/index.tsx:111 | the uuid list has one entry per query row, the row's uuid, in row order |
| FilterVisibility.MatchingFilters | src/pages/NewDashboard/components/TaskModal/index.tsx:113-115 | a filter is in the result exactly when the query returned the row (uuid, filter) |
| FilterVisibility.MatchingFiltersSingle | src/pages/NewDashboard/components/TaskModal/index.tsx:113-115 | one row contributes its filter exactly when it lists the block, so with the append lemma the list has one entry per listing row, in row order, duplicates kept |
| FilterVisibility.MatchingFiltersAppend | src/pages/NewDashboard/components/TaskModal/index.tsx:113-115 | matching over concatenated rows is the concatenation of the matches, so row order is kept |
| FilterVisibility.MatchedIffListed | src/pages/NewDashboard/components/TaskModal/index.tsx:111-115 | the block matches some filter exactly when its uuid is among the query's uuids |
| FilterVisibility.ResolveVisibility | src/pages/NewDashboard/components/TaskModal/index.tsx:110-129 | no selected filter: the task is emitted unchanged; otherwise it is hidden exactly when no row lists its block, and when emitted, only its filters change, to the non-empty list of the filters of the rows that listed it, in row order with duplicates kept |
| FilterVisibility.HandleOk | src/pages/NewDashboard/components/TaskModal/index.tsx:89-129 | a failed write and a missing page end the save with their own error; otherwise the filter decision is taken on the written block's uuid, with no filter selected the rebuilt task is emitted unchanged, and with filters selected an emitted task is tagged with the filters of the rows listing the written block, in row order |
| FilterVisibility.ResolveExamples | src/pages/NewDashboard/components/TaskModal/index.tsx:108-129 | two selected filters of which one lists the block tag the task with that one; a selection that does not list the block hides it |
| CalendarEvent.AllDayOnly | src/Agenda3/components/timebox/TheCalendarEvent.tsx:22-24 | the local patch sets the all-day flag and no other field |
| CalendarEvent.Duration | src/Agenda3/components/timebox/TheCalendarEvent.tsx:34-35 | the duration exists exactly when the event has an end, and is the minutes from start to end |
| CalendarEvent.IsShowTimeText | src/Agenda3/components/timebox/TheCalendarEvent.tsx:34 | the time text is shown exactly for a timed event with an end that lasts over 20 minutes |
| CalendarEvent.IsSmallHeight | src/Agenda3/components/timebox/TheCalendarEvent.tsx:35 | the small font is used exactly for a timed event with an end that lasts at most 10 minutes |
| CalendarEvent.IsDone | src/Agenda3/components/timebox/TheCalendarEvent.tsx:36 | the event is drawn as done exactly when its task is not a to-do |
| CalendarEvent.DisplayFlags | src/Agenda3/components/timebox/TheCalendarEvent.tsx:34-36 | the time text and the small font never both apply and never apply to all-day or endless events; time text over 20 minutes, small font at 10 or less; done exactly when the task is not a to-do |
| CalendarEvent.OnDeleteTask | src/Agenda3/components/timebox/TheCalendarEvent.tsx:17-20 | deleting removes the task locally and deletes its block, both for the given id |
| CalendarEvent.OnRemoveTime | src/Agenda3/components/timebox/TheCalendarEvent.tsx:21-31 | both updates target the event id; the local one sets only all-day; the block one sets all-day and copies start and estimate unchanged |
| CalendarEvent.RemoveTimeWritesAllDayTask | src/Agenda3/components/timebox/TheCalendarEvent.tsx:25-30 | the block update carries exactly the date fields of the event's task made all-day |
| CalendarEvent.MenuClick | src/Agenda3/components/timebox/TheCalendarEvent.tsx:66-69 | key delete deletes, key remove removes from the time box, any other key does nothing, and every effect targets the event id |

## Left out

- Outliner and store calls are not modelled: writing, deleting and re-reading blocks, page lookup, favourites, `updateTaskStatus`, `updateTaskData` and `deleteTaskBlock`. They appear only as their inputs and as the effects the handlers request.
- Rebuilding a task from its block and running the filter query are foreign calls. Their results are inputs.
- The actual time shown next to the ledger is computed in an edit hook that is not part of this model, so no sum-of-amounts property is stated.
- `handleDelete` is not modelled: in edit mode it deletes the task's block, reports the id and closes the modal, and in create mode it does nothing. All of its work is outliner calls and UI.
- `createPage` is not modelled: it creates a page in the outliner, refreshes the page list and shows a message. It has no decision logic.
- Notifications, messages, analytics tracking, focus timers and opening or closing the modal are not modelled. The model records only the outcome that decides them: `Hidden` for the "task is hidden" notice and `Failed` for the error messages.
- The disabled state of the Save and status buttons (index.tsx:220, 229, 268) is rendering. The lock is modelled where the handler checks it.
- The `start` and `allDay` values that "Add a log" reads come from a form hook that is not part of this model, so they are inputs.
- Only the edit session is modelled for the time-log handlers. They read the edit hook's ledger and are shown only in edit mode.
- Calendar arithmetic is simplified: adding one day adds 1440 minutes, ignoring daylight-saving changes, and time is counted in whole minutes. Sub-minute precision and dayjs's truncation of fractional minutes in `diff` are not modelled.
- Indexes are integers. A fractional JavaScript number index matches no position, exactly like an index outside the ledger.
- The multiple-view switcher and the Gantt calendar only render views and have no logic of their own.
