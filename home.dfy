/**
 * The task list screen: the task form's submit handler, the five list mutations
 * (each builds a new list and replaces the `tasks` state), the filtered and sorted view,
 * and the two counters.
 */
module Home {
  import opened Wrappers
  import opened Text
  import opened Seqs
  import opened Tasks
  import opened Storage

  /** The record the task form passes to `onSubmit`. */
  datatype TaskData = TaskData(
    title: string,
    description: string,
    priority: Priority,
    status: Status,
    id: Option<string>)

  datatype FilterMode = All | PendingOnly | CompletedOnly
  datatype SortOrder = Newest | Oldest | ByPriority

  // ---------------------------------------------------------------- task form

  /**
   * `TaskForm.handleSubmit`: `None` (no `onSubmit` call) for a blank title; otherwise the
   * trimmed title and description, the chosen priority and, when a task is being edited,
   * its status and (non-empty) id.
   */
  function SubmitForm(title: string, description: string, priority: Priority, editing: Option<Task>)
    : (r: Option<TaskData>)
    ensures r.None? <==> IsBlank(title)
    ensures r.Some? ==> r.value.title != [] && r.value.title == Trim(title)
                        && r.value.description == Trim(description) && r.value.priority == priority
    ensures r.Some? && editing.Some? ==> r.value.status == editing.value.status
    ensures r.Some? && editing.None? ==> r.value.status == Pending && r.value.id == None
    ensures r.Some? && editing.Some? && editing.value.id != "" ==> r.value.id == Some(editing.value.id)
    ensures r.Some? && editing.Some? && editing.value.id == "" ==> r.value.id == None
  {
    if Trim(title) == [] then None
    else
      Some(TaskData(
        Trim(title),
        Trim(description),
        priority,
        if editing.Some? then editing.value.status else Pending,
        if editing.Some? && editing.value.id != "" then Some(editing.value.id) else None))
  }

  // ---------------------------------------------------------------- mutations

  /** `addTask`: the form's fields with a fresh id, creation time and status "Pending". */
  function AppendTask(tasks: seq<Task>, data: TaskData, id: string, now: Time): (r: seq<Task>)
    ensures |r| == |tasks| + 1 && r[..|tasks|] == tasks
    ensures var t := r[|tasks|];
      t.id == id && t.title == data.title && t.description == data.description
      && t.priority == data.priority && t.status == Pending && t.createdAt == now
      && t.completedAt == None
  {
    tasks + [Task(id, data.title, data.description, data.priority, Pending, now, None)]
  }

  /** The task `updateTask` targets. */
  predicate Targets(data: TaskData, t: Task) {
    data.id == Some(t.id)
  }

  /** `updateTask`: every task whose id matches takes the form's title, description and priority. */
  function UpdateMatching(tasks: seq<Task>, data: TaskData): (r: seq<Task>)
    ensures |r| == |tasks|
    ensures forall i :: 0 <= i < |r| ==>
      r[i].id == tasks[i].id && r[i].status == tasks[i].status
      && r[i].createdAt == tasks[i].createdAt && r[i].completedAt == tasks[i].completedAt
    ensures forall i :: 0 <= i < |r| && Targets(data, tasks[i]) ==>
      r[i].title == data.title && r[i].description == data.description && r[i].priority == data.priority
    ensures forall i :: 0 <= i < |r| && !Targets(data, tasks[i]) ==> r[i] == tasks[i]
  {
    seq(|tasks|, i requires 0 <= i < |tasks| =>
      if Targets(data, tasks[i])
      then tasks[i].(title := data.title, description := data.description, priority := data.priority)
      else tasks[i])
  }

  /** One task's status flip: a pending task completes now, any other task becomes pending again. */
  function Toggled(t: Task, now: Time): (r: Task)
    ensures t.status == Pending ==> r.status == Completed && r.completedAt == Some(now)
    ensures t.status != Pending ==> r.status == Pending && r.completedAt == None
    ensures r.id == t.id && r.title == t.title && r.description == t.description
            && r.priority == t.priority && r.createdAt == t.createdAt
  {
    if t.status == Pending
    then t.(status := Completed, completedAt := Some(now))
    else t.(status := Pending, completedAt := None)
  }

  /** `toggleStatus`: flips every task whose id matches. */
  function ToggleMatching(tasks: seq<Task>, id: string, now: Time): (r: seq<Task>)
    ensures |r| == |tasks|
    ensures forall i :: 0 <= i < |r| && tasks[i].id != id ==> r[i] == tasks[i]
    ensures forall i :: 0 <= i < |r| && tasks[i].id == id ==> r[i].status != tasks[i].status
    ensures forall i :: 0 <= i < |r| && tasks[i].id == id ==> r[i] == Toggled(tasks[i], now)
  {
    seq(|tasks|, i requires 0 <= i < |tasks| =>
      if tasks[i].id == id then Toggled(tasks[i], now) else tasks[i])
  }

  function IdIsNot(id: string): Task -> bool {
    (t: Task) => t.id != id
  }

  function StatusIs(st: Status): Task -> bool {
    (t: Task) => t.status == st
  }

  function StatusIsNot(st: Status): Task -> bool {
    (t: Task) => t.status != st
  }

  /** `deleteTask`: the tasks whose id differs, in their original order. */
  function RemoveTask(tasks: seq<Task>, id: string): (r: seq<Task>)
    ensures forall i :: 0 <= i < |r| ==> r[i].id != id
    ensures InOrderSelection(r, tasks, IdIsNot(id))
  {
    FilterPositions(tasks, IdIsNot(id));
    FilterMembers(tasks, IdIsNot(id));
    Filter(tasks, IdIsNot(id))
  }

  /** `clearCompleted`: the tasks that are not completed, in their original order. */
  function RemoveCompleted(tasks: seq<Task>): (r: seq<Task>)
    ensures forall i :: 0 <= i < |r| ==> r[i].status != Completed
    ensures InOrderSelection(r, tasks, StatusIsNot(Completed))
  {
    FilterPositions(tasks, StatusIsNot(Completed));
    FilterMembers(tasks, StatusIsNot(Completed));
    Filter(tasks, StatusIsNot(Completed))
  }

  // ---------------------------------------------------------------- properties of the mutations

  lemma UpdateUnknownId(tasks: seq<Task>, data: TaskData)
    requires forall i :: 0 <= i < |tasks| ==> !Targets(data, tasks[i])
    ensures UpdateMatching(tasks, data) == tasks
  {
    var r := UpdateMatching(tasks, data);
    assert forall i :: 0 <= i < |r| ==> r[i] == tasks[i];
  }

  /** Toggling twice gives back each task's status, and for a consistent task whether it has a completion time. */
  lemma ToggleTwice(tasks: seq<Task>, id: string, now1: Time, now2: Time)
    ensures var r := ToggleMatching(ToggleMatching(tasks, id, now1), id, now2);
      |r| == |tasks|
      && (forall i :: 0 <= i < |r| ==> r[i].status == tasks[i].status)
      && (forall i :: 0 <= i < |r| && Consistent(tasks[i]) ==>
            r[i].completedAt.Some? == tasks[i].completedAt.Some?)
  {
    var m := ToggleMatching(tasks, id, now1);
    var r := ToggleMatching(m, id, now2);
    forall i | 0 <= i < |r|
      ensures r[i].status == tasks[i].status
      ensures Consistent(tasks[i]) ==> r[i].completedAt.Some? == tasks[i].completedAt.Some?
    {
      if tasks[i].id == id {
        assert m[i] == Toggled(tasks[i], now1);
        assert r[i] == Toggled(m[i], now2);
      }
    }
  }

  /** No mutation breaks "a completion time is recorded exactly while completed". */
  lemma MutationsKeepConsistent(tasks: seq<Task>, data: TaskData, id: string, now: Time)
    requires AllConsistent(tasks)
    ensures AllConsistent(AppendTask(tasks, data, id, now))
    ensures AllConsistent(UpdateMatching(tasks, data))
    ensures AllConsistent(ToggleMatching(tasks, id, now))
    ensures AllConsistent(RemoveTask(tasks, id))
    ensures AllConsistent(RemoveCompleted(tasks))
  {
    var a := AppendTask(tasks, data, id, now);
    assert forall i :: 0 <= i < |tasks| ==> a[i] == a[..|tasks|][i];
    var d := RemoveTask(tasks, id);
    FilterMembers(tasks, IdIsNot(id));
    FilterMembers(tasks, StatusIsNot(Completed));
    assert forall i :: 0 <= i < |d| ==> d[i] in tasks;
    var c := RemoveCompleted(tasks);
    assert forall i :: 0 <= i < |c| ==> c[i] in tasks;
  }

  lemma RemoveTaskAbsent(tasks: seq<Task>, id: string)
    requires forall i :: 0 <= i < |tasks| ==> tasks[i].id != id
    ensures RemoveTask(tasks, id) == tasks
  {
    FilterAll(tasks, IdIsNot(id));
  }

  lemma RemoveTaskIdempotent(tasks: seq<Task>, id: string)
    ensures RemoveTask(RemoveTask(tasks, id), id) == RemoveTask(tasks, id)
  {
    FilterIdempotent(tasks, IdIsNot(id));
  }

  lemma RemoveCompletedIdempotent(tasks: seq<Task>)
    ensures RemoveCompleted(RemoveCompleted(tasks)) == RemoveCompleted(tasks)
  {
    FilterIdempotent(tasks, StatusIsNot(Completed));
  }

  // ---------------------------------------------------------------- the view

  /** The `filteredTasks` callback. */
  function Shows(mode: FilterMode): Task -> bool {
    (t: Task) => match mode
      case CompletedOnly => t.status == Completed
      case PendingOnly => t.status == Pending
      case All => true
  }

  /** `filteredTasks`: "all" is every task; the others select one status, in list order. */
  function FilterTasks(tasks: seq<Task>, mode: FilterMode): (r: seq<Task>)
    ensures InOrderSelection(r, tasks, Shows(mode))
    ensures mode == All ==> r == tasks
    ensures mode == PendingOnly ==> forall i :: 0 <= i < |r| ==> r[i].status == Pending
    ensures mode == CompletedOnly ==> forall i :: 0 <= i < |r| ==> r[i].status == Completed
  {
    FilterPositions(tasks, Shows(mode));
    FilterMembers(tasks, Shows(mode));
    if mode == All then
      FilterAll(tasks, Shows(mode));
      Filter(tasks, Shows(mode))
    else
      Filter(tasks, Shows(mode))
  }

  lemma NoneKept(tasks: seq<Task>, st: Status)
    ensures |Filter(tasks, StatusIs(st))| == 0 <==> forall i :: 0 <= i < |tasks| ==> tasks[i].status != st
  {
    var r := Filter(tasks, StatusIs(st));
    FilterMembers(tasks, StatusIs(st));
    if |r| != 0 {
      assert r[0] in tasks && r[0].status == st;
      var i :| 0 <= i < |tasks| && tasks[i] == r[0];
    }
  }

  /** `pendingCount`: zero exactly when no task is pending. */
  function PendingCount(tasks: seq<Task>): (n: nat)
    ensures n <= |tasks|
    ensures n == 0 <==> forall i :: 0 <= i < |tasks| ==> tasks[i].status != Pending
  {
    NoneKept(tasks, Pending);
    |Filter(tasks, StatusIs(Pending))|
  }

  /** `completedCount`: zero exactly when no task is completed. */
  function CompletedCount(tasks: seq<Task>): (n: nat)
    ensures n <= |tasks|
    ensures n == 0 <==> forall i :: 0 <= i < |tasks| ==> tasks[i].status != Completed
  {
    NoneKept(tasks, Completed);
    |Filter(tasks, StatusIs(Completed))|
  }

  /** The two filtered views have the counters' lengths, and the counters add up to the total. */
  lemma CountsMatchViews(tasks: seq<Task>)
    ensures |FilterTasks(tasks, PendingOnly)| == PendingCount(tasks)
    ensures |FilterTasks(tasks, CompletedOnly)| == CompletedCount(tasks)
    ensures PendingCount(tasks) + CompletedCount(tasks) == |tasks|
  {
    FilterExtensional(tasks, Shows(PendingOnly), StatusIs(Pending));
    FilterExtensional(tasks, Shows(CompletedOnly), StatusIs(Completed));
    FilterComplement(tasks, StatusIs(Pending), StatusIs(Completed));
  }

  /** `priorityOrder`: high=3, medium=2, low=1. */
  function Rank(p: Priority): (r: int)
    ensures 1 <= r <= 3
  {
    match p
    case High => 3
    case Medium => 2
    case Low => 1
  }

  /** The ranks order the priorities high over medium over low. */
  lemma RankOrder()
    ensures Rank(Low) < Rank(Medium) < Rank(High)
  {
  }

  /** The `sortedTasks` comparator: negative when `a` belongs before `b`. */
  function Compare(order: SortOrder, a: Task, b: Task): (r: int)
    ensures r == Key(order)(a) - Key(order)(b)
    ensures order == Newest ==> (r < 0 <==> a.createdAt > b.createdAt)
    ensures order == Oldest ==> (r < 0 <==> a.createdAt < b.createdAt)
    ensures order == ByPriority ==> (r < 0 <==> Rank(a.priority) > Rank(b.priority))
  {
    match order
    case Newest => b.createdAt - a.createdAt
    case Oldest => a.createdAt - b.createdAt
    case ByPriority => Rank(b.priority) - Rank(a.priority)
  }

  /** A key whose ascending order is the comparator's order. */
  function Key(order: SortOrder): Task -> int {
    (t: Task) => match order
      case Newest => -t.createdAt
      case Oldest => t.createdAt
      case ByPriority => -Rank(t.priority)
  }

  /** `sortedTasks`: a stable sort of the filtered list under the comparator. */
  function SortTasks(tasks: seq<Task>, order: SortOrder): (r: seq<Task>)
    ensures multiset(r) == multiset(tasks)
    ensures forall i, j :: 0 <= i < j < |r| ==> Compare(order, r[i], r[j]) <= 0
    ensures order == Newest ==> forall i, j :: 0 <= i < j < |r| ==> r[i].createdAt >= r[j].createdAt
    ensures order == Oldest ==> forall i, j :: 0 <= i < j < |r| ==> r[i].createdAt <= r[j].createdAt
    ensures order == ByPriority ==>
      forall i, j :: 0 <= i < j < |r| ==> Rank(r[i].priority) >= Rank(r[j].priority)
  {
    SortBy(tasks, Key(order))
  }

  /** Tasks the comparator ties keep their relative order. */
  lemma SortTasksStable(tasks: seq<Task>, order: SortOrder, k: int)
    ensures Filter(SortTasks(tasks, order), HasKey(Key(order), k)) == Filter(tasks, HasKey(Key(order), k))
  {
    SortByStable(tasks, Key(order), k);
  }

  function PriorityIs(p: Priority): Task -> bool {
    (t: Task) => t.priority == p
  }

  /** Sorting by priority keeps the tasks of each priority in their filtered order. */
  lemma PrioritySortStable(tasks: seq<Task>, p: Priority)
    ensures Filter(SortTasks(tasks, ByPriority), PriorityIs(p)) == Filter(tasks, PriorityIs(p))
  {
    var k := -Rank(p);
    SortTasksStable(tasks, ByPriority, k);
    FilterExtensional(tasks, HasKey(Key(ByPriority), k), PriorityIs(p));
    var r := SortTasks(tasks, ByPriority);
    FilterExtensional(r, HasKey(Key(ByPriority), k), PriorityIs(p));
  }

  /**
   * `SortTasks` is what any conforming `Array.prototype.sort` returns: an arrangement of the
   * input that the comparator accepts and that keeps tied tasks in input order is this one.
   */
  lemma SortTasksUnique(tasks: seq<Task>, r: seq<Task>, order: SortOrder)
    requires forall i, j :: 0 <= i < j < |r| ==> Compare(order, r[i], r[j]) <= 0
    requires forall k :: Filter(r, HasKey(Key(order), k)) == Filter(tasks, HasKey(Key(order), k))
    ensures r == SortTasks(tasks, order)
  {
    StableSortUnique(tasks, r, Key(order));
  }

  /** The list the screen shows. */
  function Visible(tasks: seq<Task>, mode: FilterMode, order: SortOrder): (r: seq<Task>)
    ensures multiset(r) == multiset(FilterTasks(tasks, mode))
    ensures mode == All ==> multiset(r) == multiset(tasks)
    ensures forall i, j :: 0 <= i < j < |r| ==> Compare(order, r[i], r[j]) <= 0
  {
    SortTasks(FilterTasks(tasks, mode), order)
  }

  // ---------------------------------------------------------------- the screen's state

  class HomeScreen {
    var tasks: seq<Task>
    var filter: FilterMode
    var sortBy: SortOrder
    const storage: KeyValueStore<Task>

    /** The write-back effect has run: the store holds the current list. */
    ghost predicate Valid()
      reads this, storage
    {
      TasksKey in storage.items && storage.items[TasksKey] == tasks
    }

    /** Mounting: load the stored list if there is one, then the effect writes it back. */
    constructor (storage: KeyValueStore<Task>)
      modifies storage
      ensures this.storage == storage && Valid()
      ensures tasks == old(storage.GetItem(TasksKey)).GetOr([])
      ensures storage.items == old(storage.items)[TasksKey := tasks]
      ensures filter == All && sortBy == Newest
    {
      this.storage := storage;
      var saved := storage.GetItem(TasksKey);
      tasks := saved.GetOr([]);
      filter, sortBy := All, Newest;
      new;
      storage.SetItem(TasksKey, tasks);
    }

    /** `setTasks(updated)` and the effect that persists it. */
    method SetTasks(updated: seq<Task>)
      modifies this`tasks, storage
      ensures tasks == updated && Valid()
      ensures storage.items == old(storage.items)[TasksKey := updated]
    {
      tasks := updated;
      storage.SetItem(TasksKey, tasks);
    }

    method AddTask(data: TaskData, id: string, now: Time)
      modifies this`tasks, storage
      ensures tasks == AppendTask(old(tasks), data, id, now) && Valid()
      ensures storage.items == old(storage.items)[TasksKey := tasks]
    {
      SetTasks(AppendTask(tasks, data, id, now));
    }

    method UpdateTask(data: TaskData)
      modifies this`tasks, storage
      ensures tasks == UpdateMatching(old(tasks), data) && Valid()
      ensures storage.items == old(storage.items)[TasksKey := tasks]
    {
      SetTasks(UpdateMatching(tasks, data));
    }

    method ToggleStatus(id: string, now: Time)
      modifies this`tasks, storage
      ensures tasks == ToggleMatching(old(tasks), id, now) && Valid()
      ensures storage.items == old(storage.items)[TasksKey := tasks]
    {
      SetTasks(ToggleMatching(tasks, id, now));
    }

    method DeleteTask(id: string)
      modifies this`tasks, storage
      ensures tasks == RemoveTask(old(tasks), id) && Valid()
      ensures storage.items == old(storage.items)[TasksKey := tasks]
    {
      SetTasks(RemoveTask(tasks, id));
    }

    method ClearCompleted()
      modifies this`tasks, storage
      ensures tasks == RemoveCompleted(old(tasks)) && Valid()
      ensures storage.items == old(storage.items)[TasksKey := tasks]
    {
      SetTasks(RemoveCompleted(tasks));
    }

    /**
     * Submitting the task form: `updateTask` while a task is being edited, `addTask`
     * otherwise; a blank title changes nothing.
     */
    method Submit(title: string, description: string, priority: Priority, editing: Option<Task>,
                  id: string, now: Time)
      requires Valid()
      modifies this`tasks, storage
      ensures Valid()
      ensures IsBlank(title) ==> tasks == old(tasks) && storage.items == old(storage.items)
      ensures !IsBlank(title) ==> storage.items == old(storage.items)[TasksKey := tasks]
      ensures !IsBlank(title) && editing.None? ==>
        tasks == AppendTask(old(tasks), SubmitForm(title, description, priority, editing).value, id, now)
      ensures !IsBlank(title) && editing.Some? ==>
        tasks == UpdateMatching(old(tasks), SubmitForm(title, description, priority, editing).value)
    {
      var data := SubmitForm(title, description, priority, editing);
      if data.Some? {
        if editing.Some? {
          UpdateTask(data.value);
        } else {
          AddTask(data.value, id, now);
        }
      }
    }

    method SetFilter(mode: FilterMode)
      modifies this`filter
      ensures filter == mode
    {
      filter := mode;
    }

    method SetSortBy(order: SortOrder)
      modifies this`sortBy
      ensures sortBy == order
    {
      sortBy := order;
    }
  }
}
