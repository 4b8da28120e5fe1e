/**
 * dashboard.js: `updateTaskProgress(type)` reads the stored list of one category, computes its
 * summary and rewrites today's entry of `cozyTasksLog`; the page runs it for both categories on
 * load and again on every tick of a two-second poll.
 */
module Dashboard {
  import opened Calendar
  import opened Storage
  import opened Progress
  import opened DateKey

  /**
   * `updateTaskProgress(c)` on `today`: the summary of the stored list, and today's entry of the
   * log rewritten for this category. Only `cozyTasksLog` is written.
   */
  method UpdateTaskProgress(store: Store, c: Category, today: Date) returns (s: Summary)
    requires ValidDate(today)
    modifies store
    ensures s == Summarize(store.Tasks(c))
    ensures store.tasksLog == UpdatedLog(old(store.tasksLog), LocalDateKey(today), c, store.Tasks(c))
    ensures store.taskLists == old(store.taskLists) && store.lastReset == old(store.lastReset)
    ensures store.categoryLogs == old(store.categoryLogs)
  {
    var tasks := store.Tasks(c);
    s := Summarize(tasks);
    var todayKey := LocalDateKey(today);
    store.tasksLog := UpdatedLog(store.tasksLog, todayKey, c, tasks);
  }

  /** The log after one round of the dashboard: the exercise list first, then the personal list. */
  function PollLog(log: map<string, DayLog>, key: string, ex: seq<TaskRecord>, pe: seq<TaskRecord>): map<string, DayLog> {
    UpdatedLog(UpdatedLog(log, key, Exercise, ex), key, Personal, pe)
  }

  /** One round of the poll (and of the page load): both categories, exercise first. */
  method Poll(store: Store, today: Date) returns (ex: Summary, pe: Summary)
    requires ValidDate(today)
    modifies store
    ensures ex == Summarize(store.Tasks(Exercise)) && pe == Summarize(store.Tasks(Personal))
    ensures store.tasksLog == PollLog(old(store.tasksLog), LocalDateKey(today), store.Tasks(Exercise), store.Tasks(Personal))
    ensures store.taskLists == old(store.taskLists) && store.lastReset == old(store.lastReset)
    ensures store.categoryLogs == old(store.categoryLogs)
  {
    ex := UpdateTaskProgress(store, Exercise, today);
    pe := UpdateTaskProgress(store, Personal, today);
  }

  /**
   * A round of the poll over unchanged lists leaves the log as it found it, so the poll may
   * repeat any number of times; the same holds for the order of the two categories.
   */
  lemma PollIdempotent(log: map<string, DayLog>, key: string, ex: seq<TaskRecord>, pe: seq<TaskRecord>)
    ensures PollLog(PollLog(log, key, ex, pe), key, ex, pe) == PollLog(log, key, ex, pe)
    ensures PollLog(log, key, ex, pe) == UpdatedLog(UpdatedLog(log, key, Personal, pe), key, Exercise, ex)
  {
    var once := PollLog(log, key, ex, pe);
    UpdatedLogCommutes(once, key, ex, pe);
    UpdatedLogIdempotent(UpdatedLog(once, key, Personal, pe), key, Exercise, ex);
    UpdatedLogCommutes(log, key, ex, pe);
  }

  /**
   * After a round, today's entry holds exactly the completed names of both stored lists, in
   * list order, and every other day is untouched.
   */
  lemma PollLogSpec(log: map<string, DayLog>, key: string, ex: seq<TaskRecord>, pe: seq<TaskRecord>)
    ensures var r := PollLog(log, key, ex, pe);
            r.Keys == log.Keys + {key}
            && r[key] == DayLog(CompletedNames(ex), CompletedNames(pe))
            && forall k :: k in log && k != key ==> r[k] == log[k]
  {
    UpdatedLogSpec(log, key, Exercise, ex);
    UpdatedLogSpec(UpdatedLog(log, key, Exercise, ex), key, Personal, pe);
  }
}
