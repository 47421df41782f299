/** The task records the priority engine consumes, and the dependency map it derives from them. */
module TaskModel {

  /** A value that may be absent, as `task.get('id')` may return None. */
  datatype Option<+T> = None | Some(value: T)

  /**
   * One task as the engine receives it. Dates are day numbers (days since any fixed epoch),
   * so `due - today` is the number of whole days until the task is due.
   */
  datatype Task = Task(
    id: Option<int>,
    title: string,
    due: int,
    hours: real,
    importance: int,
    deps: seq<int>)

  /** `dependency_map`: a task id to the ids of the tasks it depends on. */
  type DependencyMap = map<int, seq<int>>

  /** Whole days from `today` to the task's due date, negative when overdue. */
  function DaysUntilDue(t: Task, today: int): int {
    t.due - today
  }

  /** The field constraints the input layer enforces before calling the engine. */
  predicate WellFormedTask(t: Task) {
    1 <= t.importance <= 10 && 0.1 <= t.hours <= 1000.0
  }

  /** Task ids that are present are pairwise distinct (absent ids are not compared). */
  predicate UniqueIds(tasks: seq<Task>) {
    forall i, j :: 0 <= i < j < |tasks| && tasks[i].id.Some? && tasks[j].id.Some? ==>
      tasks[i].id.value != tasks[j].id.value
  }

  /** `task_id and deps`: the id is present and non-zero, and the dependency list is non-empty. */
  predicate EntersDependencyMap(t: Task) {
    t.id.Some? && t.id.value != 0 && |t.deps| > 0
  }
}
