/** The task record the scorer reads. Tasks are built and owned by the
    surrounding application; this model only reads their five fields.
    Points in time are whole seconds on one common clock. */
module TaskModel {

  /** An optional value: the due date of a task may be absent. */
  datatype Option<+T> = None | Some(value: T)

  /** Priority levels. `UnknownPriority` stands for any value outside the
      four named levels, which the weight table does not know. */
  datatype Priority = Low | Medium | High | Urgent | UnknownPriority

  /** Task states. Only `Done` and `Review` influence the score; every
      other state (named or not) is status-neutral. */
  datatype Status = Active | Done | Review | OtherStatus(name: string)

  datatype Task = Task(
    priority: Priority,
    dueDate: Option<int>,
    status: Status,
    tags: seq<string>,
    updatedAt: int
  )

  /** Seconds in one day, the unit of every day difference. */
  const Day: int := 86400

  /** A status that neither lowers nor raises the score. */
  predicate IsNeutralStatus(s: Status) {
    s != Done && s != Review
  }
}
