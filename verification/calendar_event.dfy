/** A task drawn as an event in the time-box calendar: its display flags, the
    "Remove from timebox" action and the context-menu dispatch. */
module CalendarEvent {
  import opened Base
  import opened Tasks

  /** A calendar event. `end` is absent when the calendar gives none; `task` is the agenda
      task the event was built from (its extended properties). */
  datatype Event = Event(id: string, title: string, allDay: bool, start: Minutes, end: Option<Minutes>, task: Task)

  /** A partial task update for the local task store: absent fields are left alone. */
  datatype TaskPatch = TaskPatch(
    allDay: Option<bool>,
    start: Option<Option<Minutes>>,
    end: Option<Option<Minutes>>,
    estimatedTime: Option<Option<Minutes>>,
    status: Option<Status>)

  /** The date fields written back to a task's block. */
  datatype BlockDateInfo = BlockDateInfo(uuid: string, allDay: bool, start: Option<Minutes>, estimatedTime: Option<Minutes>)

  /** A side effect of a menu action, on the local task store or on the outliner. */
  datatype Effect =
    | LocalDelete(taskId: string)
    | BlockDelete(taskId: string)
    | LocalUpdate(taskId: string, patch: TaskPatch)
    | BlockDateUpdate(info: BlockDateInfo)

  function TargetOf(e: Effect): string {
    match e
    case LocalDelete(id) => id
    case BlockDelete(id) => id
    case LocalUpdate(id, _) => id
    case BlockDateUpdate(info) => info.uuid
  }

  /** The patch that sets only the all-day flag. */
  function AllDayOnly(): (p: TaskPatch)
    ensures p.allDay == Some(true)
    ensures p.start.None? && p.end.None? && p.estimatedTime.None? && p.status.None?
  {
    TaskPatch(Some(true), None, None, None, None)
  }

  /** Event length in whole minutes. Without an end the difference is not a number, so every
      comparison on it is false; `None` stands for that. */
  function Duration(e: Event): (d: Option<Minutes>)
    ensures d.Some? <==> e.end.Some?
    ensures d.Some? ==> e.start + d.value == e.end.value
  {
    if e.end.Some? then Some(e.end.value - e.start) else None
  }

  /** The event is tall enough to show its time text. */
  function IsShowTimeText(e: Event): (r: bool)
    ensures r <==> !e.allDay && e.end.Some? && e.end.value - e.start > 20
  {
    !e.allDay && Duration(e).Some? && Duration(e).value > 20
  }

  /** The event is short enough to use the small title font. */
  function IsSmallHeight(e: Event): (r: bool)
    ensures r <==> !e.allDay && e.end.Some? && e.end.value - e.start <= 10
  {
    !e.allDay && Duration(e).Some? && Duration(e).value <= 10
  }

  /** The event is drawn struck through and faded. */
  function IsDone(e: Event): (r: bool)
    ensures r <==> e.task.status != Todo
  {
    e.task.status == Done
  }

  /** The two display flags never hold together and never hold for an all-day event. A timed event
      with an end has the time text exactly when it lasts over 20 minutes, the small font exactly
      when it lasts at most 10, and neither in between. An event is drawn as done exactly when
      its task is not a to-do. */
  lemma DisplayFlags(e: Event)
    ensures IsDone(e) <==> e.task.status != Todo
    ensures !(IsShowTimeText(e) && IsSmallHeight(e))
    ensures e.allDay ==> !IsShowTimeText(e) && !IsSmallHeight(e)
    ensures e.end.None? ==> !IsShowTimeText(e) && !IsSmallHeight(e)
    ensures !e.allDay && e.end.Some? ==>
              && (IsShowTimeText(e) <==> e.end.value - e.start > 20)
              && (IsSmallHeight(e) <==> e.end.value - e.start <= 10)
  {
  }

  /** "Delete task": drop the task locally and delete its block. */
  function OnDeleteTask(taskId: string): (r: seq<Effect>)
    ensures |r| == 2 && r[0].LocalDelete? && r[1].BlockDelete?
    ensures forall x :: x in r ==> TargetOf(x) == taskId
  {
    [LocalDelete(taskId), BlockDelete(taskId)]
  }

  /** The date fields a task's block would carry for this task. */
  function DateInfoOf(uuid: string, t: Task): BlockDateInfo {
    BlockDateInfo(uuid, t.allDay, t.start, t.estimatedTime)
  }

  /** "Remove from timebox": locally set only the all-day flag, and write back to the block the
      all-day flag with the task's start and estimate unchanged. */
  function OnRemoveTime(e: Event): (r: seq<Effect>)
    ensures |r| == 2 && r[0].LocalUpdate? && r[1].BlockDateUpdate?
    ensures forall x :: x in r ==> TargetOf(x) == e.id
    ensures r[0].patch == AllDayOnly()
    ensures r[1].info.allDay
    ensures r[1].info.start == e.task.start && r[1].info.estimatedTime == e.task.estimatedTime
  {
    [LocalUpdate(e.id, AllDayOnly()),
     BlockDateUpdate(BlockDateInfo(e.id, true, e.task.start, e.task.estimatedTime))]
  }

  /** What is written to the block is what the task itself would read once made all-day. */
  lemma RemoveTimeWritesAllDayTask(e: Event)
    ensures OnRemoveTime(e)[1].info == DateInfoOf(e.id, e.task.(allDay := true))
  {
  }

  /** The context menu: "delete" deletes the event's task, "remove" takes it out of the time box,
      and every other key does nothing. */
  function MenuClick(e: Event, key: string): (r: seq<Effect>)
    ensures key == "delete" ==> r == OnDeleteTask(e.id)
    ensures key == "remove" ==> r == OnRemoveTime(e)
    ensures key != "delete" && key != "remove" ==> r == []
    ensures forall x :: x in r ==> TargetOf(x) == e.id
  {
    (if key == "delete" then OnDeleteTask(e.id) else [])
    + (if key == "remove" then OnRemoveTime(e) else [])
  }
}
