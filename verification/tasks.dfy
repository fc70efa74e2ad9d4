/** The agenda task as the modal and the calendar see it. Only the fields the modelled
    handlers read or write are kept. */
module Tasks {
  import opened Base
  import opened TimeLogLedger

  datatype Status = Todo | Done

  /** A recurrence rule attached to a task; as an object it is truthy whenever present. */
  datatype RecurrenceRule = RecurrenceRule(text: string)

  type FilterId = string

  /** A user-defined filter; only its result (which blocks match) is consumed here. */
  datatype Filter = Filter(id: FilterId, name: string, query: string)

  /** The outliner block behind a task; `marker` is its TODO/DONE keyword. */
  datatype RawBlock = RawBlock(uuid: string, content: string, marker: string)

  datatype Task = Task(
    id: string,
    title: string,
    status: Status,
    allDay: bool,
    start: Option<Minutes>,
    end: Option<Minutes>,
    estimatedTime: Option<Minutes>,
    timeLogs: seq<TimeLog>,
    rrule: Option<RecurrenceRule>,
    recurringPast: bool,
    projectId: string,
    filters: seq<Filter>,
    rawBlock: RawBlock)
}
