/** The task record shared by the task list screen and the add-task screen. */
module Tasks {
  import opened Wrappers

  datatype Priority = Low | Medium | High
  datatype Status = Pending | Completed

  /** Timestamps are milliseconds since the epoch, standing in for ISO date strings. */
  type Time = int

  datatype Task = Task(
    id: string,
    title: string,
    description: string,
    priority: Priority,
    status: Status,
    createdAt: Time,
    completedAt: Option<Time>)

  /** The store key both screens read and write. */
  const TasksKey: string := "tasks"

  /** A task whose completion time is recorded exactly while it is completed. */
  predicate Consistent(t: Task) {
    t.completedAt.Some? <==> t.status == Completed
  }

  predicate AllConsistent(tasks: seq<Task>) {
    forall i :: 0 <= i < |tasks| ==> Consistent(tasks[i])
  }
}
