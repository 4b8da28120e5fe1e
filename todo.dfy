/**
 * One to-do list of `initToDo` (to-do.js): the in-memory `tasks` array of task objects, the
 * once-a-day reset of the stored list, the add, delete and checkbox handlers, and the countdown
 * timer of the exercise list with its closure variables `timerInterval`, `currentTask` and
 * `remainingTime`.
 */
module ToDo {
  import opened Collections
  import opened Text
  import opened Calendar
  import opened Storage
  import opened Progress
  import opened DateKey

  /** A task object of the `tasks` array; the checkbox and the timer write `completed` in place. */
  class Task {
    const name: string
    const duration: int
    var completed: bool

    /** A task object as `JSON.parse` or the add handler creates it. */
    constructor (r: TaskRecord)
      ensures Record() == r
    {
      name := r.name;
      duration := r.duration;
      completed := r.completed;
    }

    /** What `JSON.stringify` writes for this object. */
    function Record(): TaskRecord
      reads this
    {
      TaskRecord(name, duration, completed)
    }
  }

  /** The records of a list of task objects, in order. */
  function Records(ts: seq<Task>): (r: seq<TaskRecord>)
    reads ts
    ensures |r| == |ts| && forall i :: 0 <= i < |ts| ==> r[i] == ts[i].Record()
  {
    if ts == [] then [] else [ts[0].Record()] + Records(ts[1..])
  }

  /** `JSON.parse` of a stored list: one new, distinct task object per record. */
  method LoadTasks(records: seq<TaskRecord>) returns (ts: seq<Task>)
    ensures Records(ts) == records
    ensures forall i :: 0 <= i < |ts| ==> fresh(ts[i])
    ensures forall i, j :: 0 <= i < j < |ts| ==> ts[i] != ts[j]
  {
    ts := [];
    var i := 0;
    while i < |records|
      invariant 0 <= i <= |records| && |ts| == i
      invariant forall j :: 0 <= j < i ==> fresh(ts[j]) && ts[j].Record() == records[j]
      invariant forall j, k :: 0 <= j < k < i ==> ts[j] != ts[k]
    {
      var t := new Task(records[i]);
      ts := ts + [t];
      i := i + 1;
    }
  }

  function Unchecked(t: TaskRecord): TaskRecord {
    t.(completed := false)
  }

  /** The three stored values of one category the daily reset reads and writes. */
  datatype ResetView = ResetView(tasks: seq<TaskRecord>, log: map<string, seq<string>>, marker: Option<string>)

  function StoredView(s: Store, c: Category): ResetView
    reads s
  {
    ResetView(s.Tasks(c), s.CategoryLog(c), s.LastReset(c))
  }

  /**
   * The daily reset block: when the marker is not today's day string, yesterday's completed
   * names go into the category log unless that day already has an entry, every flag is
   * cleared, and the marker becomes today.
   */
  function DailyReset(v: ResetView, todayStr: string, yKey: string): ResetView {
    if v.marker == Some(todayStr) then v
    else
      var log := if yKey in v.log then v.log else v.log[yKey := CompletedNames(v.tasks)];
      ResetView(Map(v.tasks, Unchecked), log, Some(todayStr))
  }

  /**
   * The reset runs only when the marker differs from today, and afterwards the marker is today.
   * A reset clears every flag and keeps the length, names and durations; it files yesterday's
   * completed names, in list order, only under a key the log does not have yet, and no existing
   * log entry is ever changed.
   */
  lemma DailyResetSpec(v: ResetView, todayStr: string, yKey: string)
    ensures var r := DailyReset(v, todayStr, yKey);
            r.marker == Some(todayStr)
            && (v.marker == Some(todayStr) ==> r == v)
            && |r.tasks| == |v.tasks|
            && (v.marker != Some(todayStr) ==>
                  forall i :: 0 <= i < |v.tasks| ==>
                    !r.tasks[i].completed && r.tasks[i].name == v.tasks[i].name && r.tasks[i].duration == v.tasks[i].duration)
            && (forall k :: k in v.log ==> k in r.log && r.log[k] == v.log[k])
            && (v.marker != Some(todayStr) ==> r.log.Keys == v.log.Keys + {yKey})
            && (v.marker != Some(todayStr) && yKey !in v.log ==> r.log[yKey] == CompletedNames(v.tasks))
  {
  }

  /** A second page load on the same day finds the marker set and changes nothing. */
  lemma DailyResetOncePerDay(v: ResetView, todayStr: string, yKey: string, yKey': string)
    ensures DailyReset(DailyReset(v, todayStr, yKey), todayStr, yKey') == DailyReset(v, todayStr, yKey)
  {
  }

  /** `mm:ss` of the timer display: both parts `String(...).padStart(2, '0')`. */
  function ClockText(r: nat): string {
    PadStart2(NatToString(r / 60)) + ":" + PadStart2(NatToString(r % 60))
  }

  /**
   * The display is the minutes, `:`, and two digits of seconds, and these read back as `r`:
   * `mins * 60 + secs == r` with `secs < 60`. The minutes are not cut to two digits: from 100
   * minutes on they take three or more. Under 100 minutes the display is five characters.
   */
  lemma ClockTextReadsBack(r: nat)
    ensures var m := PadStart2(NatToString(r / 60));
            var s := PadStart2(NatToString(r % 60));
            ClockText(r) == m + ":" + s && |s| == 2 && |m| >= 2
            && AllDigits(m) && AllDigits(s)
            && DigitsValue(m) * 60 + DigitsValue(s) == r && DigitsValue(s) < 60
            && (r < 6000 <==> |ClockText(r)| == 5)
  {
    var m := PadStart2(NatToString(r / 60));
    var s := PadStart2(NatToString(r % 60));
    PadStart2Value(r / 60);
    PadStart2Value(r % 60);
    if r >= 6000 {
      assert |NatToString(r / 60)| >= 3;
    }
  }

  /**
   * The add button's validation: the trimmed name, and `parseInt` of the trimmed duration;
   * `!name || !duration` turns away an empty name, `NaN` and 0, but lets a negative duration in.
   */
  function NewTask(nameInput: string, durationInput: string): (r: Option<TaskRecord>)
    ensures r.Some? ==> r.value.name != [] && r.value.duration != 0 && !r.value.completed
    ensures r.Some? ==> r.value.name == Trim(nameInput) && ParseInt(Trim(durationInput)) == Some(r.value.duration)
    ensures r.None? <==> Trim(nameInput) == [] || ParseInt(Trim(durationInput)).None?
                         || ParseInt(Trim(durationInput)) == Some(0)
  {
    var name := Trim(nameInput);
    var duration := ParseInt(Trim(durationInput));
    if name == [] || duration.None? || duration.value == 0 then None
    else Some(TaskRecord(name, duration.value, false))
  }

  /**
   * A duration typed as white space, an optional sign, digits (leading zeros allowed) and
   * anything that does not go on with a digit (`"+5"`, `"007"`, `"1.5"`, `"5 min "`) is read
   * as the signed value of those digits. When that value is not zero the task is accepted
   * with the trimmed name and that value, negative values included.
   */
  lemma NewTaskAccepts(nameInput: string, pre: string, sign: string, ds: string, rest: string)
    requires Trim(nameInput) != []
    requires forall i :: 0 <= i < |pre| ==> IsWhitespace(pre[i])
    requires IsSign(sign) && AllDigits(ds) && ds != [] && DigitsValue(ds) != 0
    requires rest == [] || !IsDigit(rest[0])
    ensures NewTask(nameInput, pre + sign + ds + rest)
            == Some(TaskRecord(Trim(nameInput), SignedValue(sign, ds), false))
  {
    TrimmedDurationValue(pre, sign, ds, rest);
  }

  /**
   * `parseInt` of the trimmed duration field: white space before, an optional sign, digits,
   * and a tail that does not go on with a digit (trailing white space included).
   */
  lemma TrimmedDurationValue(pre: string, sign: string, ds: string, rest: string)
    requires forall i :: 0 <= i < |pre| ==> IsWhitespace(pre[i])
    requires IsSign(sign) && AllDigits(ds) && ds != []
    requires rest == [] || !IsDigit(rest[0])
    ensures ParseInt(Trim(pre + sign + ds + rest)) == Some(SignedValue(sign, ds))
  {
    var core := sign + ds + rest;
    assert core[0] == if sign == "" then ds[0] else sign[0];
    assert pre + sign + ds + rest == pre + core;
    TrimStartAfter(pre, core);
    var tail := TrimEndOfNumber(sign, ds, rest);
    ParseIntOfDigits(sign, ds, tail);
  }

  /** `trimEnd` never reaches into the digits: it only shortens the tail after them. */
  lemma TrimEndOfNumber(sign: string, ds: string, rest: string) returns (tail: string)
    requires AllDigits(ds) && ds != []
    requires rest == [] || !IsDigit(rest[0])
    ensures TrimEnd(sign + ds + rest) == sign + ds + tail
    ensures tail == [] || !IsDigit(tail[0])
  {
    var core := sign + ds + rest;
    var n := |sign| + |ds|;
    var r := TrimEnd(core);
    assert core[n - 1] == ds[|ds| - 1];
    assert n <= |r|;
    tail := rest[..|r| - n];
    assert r == sign + ds + tail;
  }

  /** Trimming removes exactly the white space around a piece that neither starts nor ends with it. */
  lemma {:induction false} TrimAround(pre: string, core: string, post: string)
    requires core != [] && !IsWhitespace(core[0]) && !IsWhitespace(core[|core| - 1])
    requires forall i :: 0 <= i < |pre| ==> IsWhitespace(pre[i])
    requires forall i :: 0 <= i < |post| ==> IsWhitespace(post[i])
    ensures Trim(pre + core + post) == core
  {
    TrimStartAfter(pre, core + post);
    assert pre + core + post == pre + (core + post);
    TrimEndBefore(core, post);
  }

  lemma {:induction false} TrimStartAfter(pre: string, s: string)
    requires s != [] && !IsWhitespace(s[0])
    requires forall i :: 0 <= i < |pre| ==> IsWhitespace(pre[i])
    ensures TrimStart(pre + s) == s
  {
    if pre == [] {
      assert pre + s == s;
    } else {
      assert (pre + s)[1..] == pre[1..] + s;
      TrimStartAfter(pre[1..], s);
    }
  }

  lemma {:induction false} TrimEndBefore(s: string, post: string)
    requires s != [] && !IsWhitespace(s[|s| - 1])
    requires forall i :: 0 <= i < |post| ==> IsWhitespace(post[i])
    ensures TrimEnd(s + post) == s
  {
    if post == [] {
      assert s + post == s;
    } else {
      var t := s + post;
      assert t[..|t| - 1] == s + post[..|post| - 1];
      TrimEndBefore(s, post[..|post| - 1]);
    }
  }

  /**
   * A duration whose digits are all zeros, with or without a sign or a tail (`"0"`, `"00"`,
   * `"-0"`, `"0.5"`), is read as 0 and turned away like a missing one.
   */
  lemma NewTaskRejectsZero(nameInput: string, pre: string, sign: string, ds: string, rest: string)
    requires forall i :: 0 <= i < |pre| ==> IsWhitespace(pre[i])
    requires IsSign(sign) && AllDigits(ds) && ds != [] && DigitsValue(ds) == 0
    requires rest == [] || !IsDigit(rest[0])
    ensures NewTask(nameInput, pre + sign + ds + rest) == None
  {
    TrimmedDurationValue(pre, sign, ds, rest);
  }

  /**
   * A duration whose trimmed text starts with neither a digit nor a sign, or with a sign
   * that no digit follows (`"-"`, `"+x"`, `"--5"`), is not a number, and the task is turned
   * away.
   */
  lemma NewTaskRejectsNonNumbers(nameInput: string, durationInput: string)
    requires var d := Trim(durationInput);
             d != [] && if d[0] == '-' || d[0] == '+' then |d| == 1 || !IsDigit(d[1]) else !IsDigit(d[0])
    ensures NewTask(nameInput, durationInput) == None
  {
    var d := Trim(durationInput);
    if d[0] == '-' || d[0] == '+' {
      assert d == [d[0]] + d[1..];
      ParseIntOfBareSign([d[0]], d[1..]);
    } else {
      TrimStartAfter([], d);
      assert [] + d == d;
      ParseIntNaN(d);
    }
  }

  /**
   * The records of `ts` after `t.completed = true`: the entries whose object is `t` are marked
   * done, every other entry keeps its record. When `t` is not in the list, nothing changes.
   */
  function MarkedDone(before: seq<TaskRecord>, ts: seq<Task>, t: Task?): (r: seq<TaskRecord>)
    requires |before| == |ts|
    ensures |r| == |before|
    ensures forall j :: 0 <= j < |r| ==> r[j] == if ts[j] == t then before[j].(completed := true) else before[j]
  {
    if ts == [] then []
    else [if ts[0] == t then before[0].(completed := true) else before[0]] + MarkedDone(before[1..], ts[1..], t)
  }

  /**
   * The state of one `initToDo` closure. `timerRunning` stands for `timerInterval !== null`;
   * `activeIntervals` counts the intervals scheduled with `setInterval` and not yet cleared.
   */
  class ToDoList {
    const store: Store
    const category: Category
    var tasks: seq<Task>
    /** The records of `tasks`, as `JSON.stringify(tasks)` would write them. */
    ghost var Contents: seq<TaskRecord>
    var timerRunning: bool
    var activeIntervals: nat
    var currentTask: Task?
    var remainingTime: int

    /**
     * `Contents` describes the task objects, the objects are distinct, and at most one interval
     * is live, which exists exactly while the timer runs.
     */
    ghost predicate Valid()
      reads this, tasks
    {
      |tasks| == |Contents|
      && (forall i :: 0 <= i < |tasks| ==> tasks[i].Record() == Contents[i])
      && (forall i, j :: 0 <= i < j < |tasks| ==> tasks[i] != tasks[j])
      && activeIntervals == (if timerRunning then 1 else 0)
      && (timerRunning ==> currentTask != null)
    }

    /** `JSON.stringify(tasks)`. */
    function Snapshot(): (r: seq<TaskRecord>)
      requires Valid()
      reads this, tasks
      ensures r == Contents
    {
      Records(tasks)
    }

    /** The loading part of `initToDo(type)`: the stored list of `category`, timer idle. */
    constructor (store: Store, category: Category)
      ensures Valid() && this.store == store && this.category == category
      ensures !timerRunning && currentTask == null && remainingTime == 0
      ensures forall i :: 0 <= i < |tasks| ==> fresh(tasks[i])
      ensures Contents == store.Tasks(category)
    {
      var loaded := LoadTasks(store.Tasks(category));
      this.store := store;
      this.category := category;
      tasks := loaded;
      Contents := store.Tasks(category);
      timerRunning := false;
      activeIntervals := 0;
      currentTask := null;
      remainingTime := 0;
    }

    /**
     * The rest of `initToDo(type)` on the loaded list: the daily reset (yesterday is the day
     * before `today`), then today's entry of `cozyTasksLog`.
     */
    method Init(todayStr: string, today: Date)
      requires ValidDate(today) && Valid() && Contents == store.Tasks(category)
      modifies this, tasks, store
      ensures Valid() && tasks == old(tasks)
      ensures timerRunning == old(timerRunning) && currentTask == old(currentTask) && remainingTime == old(remainingTime)
      ensures StoredView(store, category) == DailyReset(old(StoredView(store, category)), todayStr, LocalDateKey(PreviousDay(today)))
      ensures Contents == store.Tasks(category)
      ensures store.tasksLog == UpdatedLog(old(store.tasksLog), LocalDateKey(today), category, Contents)
      ensures StoredView(store, OtherCategory(category)) == old(StoredView(store, OtherCategory(category)))
    {
      RunDailyReset(todayStr, LocalDateKey(PreviousDay(today)));
      var _ := UpdateProgress(LocalDateKey(today));
    }

    /** The reset block of `initToDo`, on the freshly loaded list. */
    method RunDailyReset(todayStr: string, yKey: string)
      requires Valid() && Contents == store.Tasks(category)
      modifies this, tasks, store
      ensures Valid() && tasks == old(tasks) && Contents == store.Tasks(category)
      ensures timerRunning == old(timerRunning) && activeIntervals == old(activeIntervals)
      ensures currentTask == old(currentTask) && remainingTime == old(remainingTime)
      ensures StoredView(store, category) == DailyReset(old(StoredView(store, category)), todayStr, yKey)
      ensures store.tasksLog == old(store.tasksLog)
      ensures StoredView(store, OtherCategory(category)) == old(StoredView(store, OtherCategory(category)))
    {
      if store.LastReset(category) != Some(todayStr) {
        ArchiveDay(yKey, CompletedNames(Snapshot()));
        ClearFlags();
        SaveTasks();
        store.lastReset := store.lastReset[category := todayStr];
      }
    }

    /** `if (!log[yKey]) { log[yKey] = names; ... }`: a day already in the category log keeps its entry. */
    method ArchiveDay(yKey: string, names: seq<string>)
      modifies store
      ensures store.CategoryLog(category) == if yKey in old(store.CategoryLog(category)) then old(store.CategoryLog(category))
                                             else old(store.CategoryLog(category))[yKey := names]
      ensures store.CategoryLog(OtherCategory(category)) == old(store.CategoryLog(OtherCategory(category)))
      ensures store.taskLists == old(store.taskLists) && store.lastReset == old(store.lastReset)
      ensures store.tasksLog == old(store.tasksLog)
    {
      var log := store.CategoryLog(category);
      if yKey !in log {
        store.categoryLogs := store.categoryLogs[category := log[yKey := names]];
      }
    }

    /** `tasks.forEach(t => t.completed = false)`. */
    method ClearFlags()
      requires Valid()
      modifies this, tasks
      ensures Valid() && tasks == old(tasks) && Contents == Map(old(Contents), Unchecked)
      ensures timerRunning == old(timerRunning) && activeIntervals == old(activeIntervals)
      ensures currentTask == old(currentTask) && remainingTime == old(remainingTime)
    {
      var i := 0;
      while i < |tasks|
        invariant 0 <= i <= |tasks|
        invariant forall j :: 0 <= j < |tasks| ==>
                    tasks[j].Record() == if j < i then Unchecked(Contents[j]) else Contents[j]
        modifies tasks
      {
        tasks[i].completed := false;
        i := i + 1;
      }
      Contents := Map(Contents, Unchecked);
    }

    /** `saveTasks()`: the list is written under this category's key, nothing else. */
    method SaveTasks()
      requires Valid()
      modifies store
      ensures store.taskLists == old(store.taskLists)[category := Contents]
      ensures store.lastReset == old(store.lastReset) && store.categoryLogs == old(store.categoryLogs)
      ensures store.tasksLog == old(store.tasksLog)
    {
      store.taskLists := store.taskLists[category := Snapshot()];
    }

    /** `updateProgress()`: the summary of the in-memory list, and today's entry of `cozyTasksLog`. */
    method UpdateProgress(todayKey: string) returns (s: Summary)
      requires Valid()
      modifies store
      ensures s == Summarize(Contents)
      ensures store.tasksLog == UpdatedLog(old(store.tasksLog), todayKey, category, Contents)
      ensures store.taskLists == old(store.taskLists) && store.lastReset == old(store.lastReset)
      ensures store.categoryLogs == old(store.categoryLogs)
    {
      var records := Snapshot();
      s := Summarize(records);
      store.tasksLog := UpdatedLog(store.tasksLog, todayKey, category, records);
    }

    /** `saveTasks(); updateProgress();`, which every change to the list ends with. */
    method Persist(todayKey: string) returns (s: Summary)
      requires Valid()
      modifies store
      ensures s == Summarize(Contents)
      ensures store.taskLists == old(store.taskLists)[category := Contents]
      ensures store.tasksLog == UpdatedLog(old(store.tasksLog), todayKey, category, Contents)
      ensures store.lastReset == old(store.lastReset) && store.categoryLogs == old(store.categoryLogs)
    {
      SaveTasks();
      s := UpdateProgress(todayKey);
    }

    /** The checkbox of task `i`: its flag takes the box's state, then save and progress. */
    method Toggle(i: nat, checked: bool, todayKey: string) returns (s: Summary)
      requires Valid() && i < |tasks|
      modifies this, tasks[i], store
      ensures Valid() && tasks == old(tasks)
      ensures Contents == old(Contents)[i := old(Contents)[i].(completed := checked)]
      ensures timerRunning == old(timerRunning) && activeIntervals == old(activeIntervals)
      ensures currentTask == old(currentTask) && remainingTime == old(remainingTime)
      ensures store.taskLists == old(store.taskLists)[category := Contents]
      ensures store.tasksLog == UpdatedLog(old(store.tasksLog), todayKey, category, Contents)
      ensures store.lastReset == old(store.lastReset) && store.categoryLogs == old(store.categoryLogs)
      ensures s == Summarize(Contents)
    {
      tasks[i].completed := checked;
      Contents := Contents[i := Contents[i].(completed := checked)];
      s := Persist(todayKey);
    }

    /** The delete button of task `i`: `tasks.splice(i, 1)`, save and progress; the timer keeps running. */
    method Delete(i: nat, todayKey: string) returns (s: Summary)
      requires Valid() && i < |tasks|
      modifies this, store
      ensures Valid()
      ensures tasks == old(tasks[..i] + tasks[i + 1..])
      ensures Contents == old(Contents[..i] + Contents[i + 1..])
      ensures timerRunning == old(timerRunning) && activeIntervals == old(activeIntervals)
      ensures currentTask == old(currentTask) && remainingTime == old(remainingTime)
      ensures store.taskLists == old(store.taskLists)[category := Contents]
      ensures store.tasksLog == UpdatedLog(old(store.tasksLog), todayKey, category, Contents)
      ensures store.lastReset == old(store.lastReset) && store.categoryLogs == old(store.categoryLogs)
      ensures s == Summarize(Contents)
    {
      tasks := tasks[..i] + tasks[i + 1..];
      Contents := Contents[..i] + Contents[i + 1..];
      s := Persist(todayKey);
    }

    /**
     * The add button: a no-op when `NewTask` turns the inputs away; otherwise the new task is
     * appended (see `Append`).
     */
    method Add(nameInput: string, durationInput: string, todayKey: string) returns (s: Option<Summary>)
      requires Valid()
      modifies this, store
      ensures Valid()
      ensures timerRunning == old(timerRunning) && activeIntervals == old(activeIntervals)
      ensures currentTask == old(currentTask) && remainingTime == old(remainingTime)
      ensures NewTask(nameInput, durationInput).None? ==>
                s.None? && tasks == old(tasks) && Contents == old(Contents)
                && store.taskLists == old(store.taskLists) && store.tasksLog == old(store.tasksLog)
      ensures NewTask(nameInput, durationInput).Some? ==>
                Contents == old(Contents) + [NewTask(nameInput, durationInput).value]
                && store.taskLists == old(store.taskLists)[category := Contents]
                && store.tasksLog == UpdatedLog(old(store.tasksLog), todayKey, category, Contents)
                && s == Some(Summarize(Contents))
      ensures store.lastReset == old(store.lastReset) && store.categoryLogs == old(store.categoryLogs)
    {
      var r := NewTask(nameInput, durationInput);
      if r.None? {
        return None;
      }
      var summary := Append(r.value, todayKey);
      s := Some(summary);
    }

    /** `tasks.push(newTask)` of an accepted task: one new object at the end, then save and progress. */
    method Append(r: TaskRecord, todayKey: string) returns (s: Summary)
      requires Valid()
      modifies this, store
      ensures Valid()
      ensures |tasks| == old(|tasks|) + 1 && tasks[..old(|tasks|)] == old(tasks) && fresh(tasks[old(|tasks|)])
      ensures Contents == old(Contents) + [r]
      ensures timerRunning == old(timerRunning) && activeIntervals == old(activeIntervals)
      ensures currentTask == old(currentTask) && remainingTime == old(remainingTime)
      ensures store.taskLists == old(store.taskLists)[category := Contents]
      ensures store.tasksLog == UpdatedLog(old(store.tasksLog), todayKey, category, Contents)
      ensures store.lastReset == old(store.lastReset) && store.categoryLogs == old(store.categoryLogs)
      ensures s == Summarize(Contents)
    {
      var t := new Task(r);
      tasks := tasks + [t];
      Contents := Contents + [r];
      s := Persist(todayKey);
    }

    /** `startTimer`: the old interval is cleared before the new one is set, so exactly one is live. */
    method StartTimer()
      requires Valid() && currentTask != null
      modifies this
      ensures Valid() && timerRunning && activeIntervals == 1
      ensures tasks == old(tasks) && Contents == old(Contents)
      ensures currentTask == old(currentTask) && remainingTime == old(remainingTime)
    {
      if timerRunning {
        activeIntervals := activeIntervals - 1;
        timerRunning := false;
      }
      activeIntervals := activeIntervals + 1;
      timerRunning := true;
    }

    /**
     * The start button of exercise `i`: on the running task it pauses and keeps the time left;
     * any other press, a paused task included, starts task `i` over from its full duration.
     */
    method PressStart(i: nat)
      requires Valid() && category == Exercise && i < |tasks|
      modifies this
      ensures Valid() && tasks == old(tasks) && Contents == old(Contents)
      ensures old(currentTask == tasks[i] && timerRunning) ==>
                !timerRunning && activeIntervals == 0
                && currentTask == old(currentTask) && remainingTime == old(remainingTime)
      ensures !old(currentTask == tasks[i] && timerRunning) ==>
                timerRunning && activeIntervals == 1
                && currentTask == tasks[i] && remainingTime == Contents[i].duration * 60
    {
      if currentTask == tasks[i] && timerRunning {
        activeIntervals := activeIntervals - 1;
        timerRunning := false;
      } else {
        currentTask := tasks[i];
        remainingTime := tasks[i].duration * 60;
        StartTimer();
      }
    }

    /**
     * One interval tick. With time left it counts down one second and shows `mm:ss`; at zero
     * or below the timer expires (see `Expire`).
     */
    method Tick(todayKey: string) returns (display: string, s: Option<Summary>)
      requires Valid() && timerRunning
      modifies this, currentTask, store
      ensures Valid() && tasks == old(tasks)
      ensures old(remainingTime) > 0 ==>
                remainingTime == old(remainingTime) - 1 && timerRunning && currentTask == old(currentTask)
                && old(currentTask).completed == old(currentTask.completed)
                && display == ClockText(remainingTime) && s.None?
                && Contents == old(Contents) && store.taskLists == old(store.taskLists)
                && store.tasksLog == old(store.tasksLog)
      ensures old(remainingTime) <= 0 ==>
                !timerRunning && currentTask == null && remainingTime == 0 && display == "00:00"
                && old(currentTask).completed && s == Some(Summarize(Contents))
                && Contents == MarkedDone(old(Contents), tasks, old(currentTask))
                && store.taskLists == old(store.taskLists)[category := Contents]
                && store.tasksLog == UpdatedLog(old(store.tasksLog), todayKey, category, Contents)
      ensures store.lastReset == old(store.lastReset) && store.categoryLogs == old(store.categoryLogs)
    {
      if remainingTime <= 0 {
        display := "00:00";
        var summary := Expire(todayKey);
        s := Some(summary);
      } else {
        remainingTime := remainingTime - 1;
        display := ClockText(remainingTime);
        s := None;
      }
    }

    /**
     * The expiring tick: the interval is cleared, the timed task is marked completed, the list
     * is saved and progress updated, and the timer goes idle. A task deleted while it ran is
     * marked on its detached object only, so the list does not change.
     */
    method Expire(todayKey: string) returns (s: Summary)
      requires Valid() && timerRunning
      modifies this, currentTask, store
      ensures Valid() && tasks == old(tasks)
      ensures !timerRunning && activeIntervals == 0 && currentTask == null && remainingTime == 0
      ensures old(currentTask).completed
      ensures Contents == MarkedDone(old(Contents), tasks, old(currentTask))
      ensures store.taskLists == old(store.taskLists)[category := Contents]
      ensures store.tasksLog == UpdatedLog(old(store.tasksLog), todayKey, category, Contents)
      ensures store.lastReset == old(store.lastReset) && store.categoryLogs == old(store.categoryLogs)
      ensures s == Summarize(Contents)
    {
      activeIntervals := 0;
      timerRunning := false;
      var t := currentTask;
      t.completed := true;
      Contents := MarkedDone(Contents, tasks, t);
      s := Persist(todayKey);
      remainingTime := 0;
      currentTask := null;
    }

    /** The reset button: the same idle state as an expired timer, with nothing marked completed. */
    method ResetTimer()
      requires Valid() && category == Exercise
      modifies this
      ensures Valid() && tasks == old(tasks) && Contents == old(Contents)
      ensures !timerRunning && activeIntervals == 0 && currentTask == null && remainingTime == 0
    {
      activeIntervals := 0;
      timerRunning := false;
      remainingTime := 0;
      currentTask := null;
    }
  }
}
