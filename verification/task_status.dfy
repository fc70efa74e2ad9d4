/** The edit lock on recurring tasks and the "Complete" / "Incomplete" status switch of the
    task modal. */
module TaskStatus {
  import opened Tasks
  import TaskForm

  /** What the modal was opened for: a new task from initial form data, or an existing task. */
  datatype ModalInfo = Create(initialData: TaskForm.Form) | Edit(initialTaskData: Task)

  /** A task that carries a recurrence rule, or is a materialised past occurrence of one. */
  predicate IsRecurring(t: Task) {
    t.rrule.Some? || t.recurringPast
  }

  /** The modal refuses edits of recurring tasks: never in create mode, and in edit mode exactly
      for a task with a recurrence rule or one that is a past occurrence. */
  function EditDisabled(info: ModalInfo): (r: bool)
    ensures info.Create? ==> !r
    ensures info.Edit? ==> (r <==> info.initialTaskData.rrule.Some? || info.initialTaskData.recurringPast)
  {
    info.Edit? && IsRecurring(info.initialTaskData)
  }

  /** The outliner keyword for a status. */
  function MarkerOf(status: Status): (m: string)
    ensures m == "TODO" <==> status == Todo
    ensures status == Done ==> m == "DONE"
  {
    if status == Todo then "TODO" else "DONE"
  }

  /** A task whose block keyword agrees with its status. */
  predicate InSync(t: Task) {
    t.rawBlock.marker == MarkerOf(t.status)
  }

  /** Outcome of a status switch: refused with a message, ignored (create mode), or the updated task. */
  datatype StatusSwitch = Refused | Ignored | Switched(task: Task)

  /** Switch a task's status. A locked task is refused; in create mode nothing happens;
      otherwise the task is emitted with only its status and block keyword rewritten. */
  function SwitchTaskStatus(info: ModalInfo, status: Status): (r: StatusSwitch)
    ensures r.Refused? <==> EditDisabled(info)
    ensures r.Ignored? <==> info.Create?
    ensures r.Switched? ==>
              && info.Edit?
              && r.task.status == status
              && InSync(r.task)
              && r.task == info.initialTaskData.(status := r.task.status,
                                                 rawBlock := info.initialTaskData.rawBlock.(marker := r.task.rawBlock.marker))
  {
    if EditDisabled(info) then Refused
    else if !info.Edit? then Ignored
    else
      var t := info.initialTaskData;
      Switched(t.(status := status, rawBlock := t.rawBlock.(marker := MarkerOf(status))))
  }

  /** The lock: a status switch on an existing task is refused exactly when the task is recurring,
      never in create mode, and an unlocked task is switched and stays unlocked. */
  lemma EditLock(t: Task, f: TaskForm.Form, status: Status)
    ensures SwitchTaskStatus(Edit(t), status).Refused? <==> t.rrule.Some? || t.recurringPast
    ensures !SwitchTaskStatus(Create(f), status).Refused?
    ensures !IsRecurring(t) ==>
              && SwitchTaskStatus(Edit(t), status).Switched?
              && !IsRecurring(SwitchTaskStatus(Edit(t), status).task)
  {
  }

  /** Completing a task and then marking it incomplete again (or the reverse) restores it exactly,
      as long as its block keyword agreed with its status to begin with. */
  lemma SwitchRoundTrip(t: Task, status: Status)
    requires !IsRecurring(t)
    requires InSync(t)
    ensures var once := SwitchTaskStatus(Edit(t), status).task;
            SwitchTaskStatus(Edit(once), t.status) == Switched(t)
  {
  }
}
