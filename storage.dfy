/**
 * The browser's `localStorage` entries the task tracker reads and writes, seen through
 * `JSON.parse`: each key holds a typed value, and a missing key reads as the default the
 * scripts supply with `|| []`, `|| {}` or `null`.
 */
module Storage {
  import opened Collections

  /** The two to-do categories; `type` is `"exercise"` or `"personal"`. */
  datatype Category = Exercise | Personal

  /** One element of a stored task list: `{name, duration, completed}`. */
  datatype TaskRecord = TaskRecord(name: string, duration: int, completed: bool)

  /** One day of `cozyTasksLog`: the names completed that day, per category. */
  datatype DayLog = DayLog(exercisesDone: seq<string>, personalsDone: seq<string>)

  class Store {
    /** `cozyExercises` and `cozyPersonals`. */
    var taskLists: map<Category, seq<TaskRecord>>
    /** `cozyExercisesLastReset` and `cozyPersonalsLastReset`: a `toDateString()` day. */
    var lastReset: map<Category, string>
    /** `cozyExercisesLog` and `cozyPersonalsLog`: date key to the names completed that day. */
    var categoryLogs: map<Category, map<string, seq<string>>>
    /** `cozyTasksLog`: date key to both categories' completed names. */
    var tasksLog: map<string, DayLog>

    constructor (taskLists: map<Category, seq<TaskRecord>>, lastReset: map<Category, string>,
                 categoryLogs: map<Category, map<string, seq<string>>>, tasksLog: map<string, DayLog>)
      ensures this.taskLists == taskLists && this.lastReset == lastReset
      ensures this.categoryLogs == categoryLogs && this.tasksLog == tasksLog
    {
      this.taskLists := taskLists;
      this.lastReset := lastReset;
      this.categoryLogs := categoryLogs;
      this.tasksLog := tasksLog;
    }

    /** `JSON.parse(localStorage.getItem(storageKey)) || []`. */
    function Tasks(c: Category): seq<TaskRecord>
      reads this
    {
      if c in taskLists then taskLists[c] else []
    }

    /** `JSON.parse(localStorage.getItem(logKey)) || {}`. */
    function CategoryLog(c: Category): map<string, seq<string>>
      reads this
    {
      if c in categoryLogs then categoryLogs[c] else map[]
    }

    /** `localStorage.getItem(lastResetKey)`, `null` when never written. */
    function LastReset(c: Category): Option<string>
      reads this
    {
      if c in lastReset then Some(lastReset[c]) else None
    }
  }
}
