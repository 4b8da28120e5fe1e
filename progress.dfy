/**
 * The progress summary of one category and its entry in `cozyTasksLog`, shared by
 * `updateTaskProgress` (dashboard.js) and `updateProgress` (to-do.js), which compute the same
 * counts, percentage and log update.
 */
module Progress {
  import opened Collections
  import opened Storage

  function IsDone(t: TaskRecord): bool {
    t.completed
  }

  function TaskName(t: TaskRecord): string {
    t.name
  }

  /** `tasks.filter(t => t.completed).map(t => t.name)`. */
  function CompletedNames(ts: seq<TaskRecord>): seq<string> {
    Map(Filter(ts, IsDone), TaskName)
  }

  /** `tasks.filter(t => t.completed).length`. */
  function CompletedCount(ts: seq<TaskRecord>): nat {
    |Filter(ts, IsDone)|
  }

  /** A name is logged exactly when some completed task carries it. */
  lemma CompletedNamesMembers(ts: seq<TaskRecord>, name: string)
    ensures name in CompletedNames(ts) <==> exists i :: 0 <= i < |ts| && ts[i].completed && ts[i].name == name
  {
    var f := Filter(ts, IsDone);
    FilterMembers(ts, IsDone);
    if name in CompletedNames(ts) {
      var k :| 0 <= k < |f| && CompletedNames(ts)[k] == name;
      assert f[k] in ts;
    }
    if exists i :: 0 <= i < |ts| && ts[i].completed && ts[i].name == name {
      var i :| 0 <= i < |ts| && ts[i].completed && ts[i].name == name;
      FilterKeeps(ts, IsDone, ts[i]);
      var k :| 0 <= k < |f| && f[k] == ts[i];
      assert CompletedNames(ts)[k] == name;
    }
  }

  /** The logged names follow list order: the names of a concatenation are the concatenated names. */
  lemma CompletedNamesAppend(a: seq<TaskRecord>, b: seq<TaskRecord>)
    ensures CompletedNames(a + b) == CompletedNames(a) + CompletedNames(b)
  {
    FilterAppend(a, b, IsDone);
  }

  /** Count bounds: `completed + remaining == total` with `remaining >= 0`; all done exactly when every task is. */
  lemma CompletedCountBounds(ts: seq<TaskRecord>)
    ensures CompletedCount(ts) <= |ts|
    ensures CompletedCount(ts) == |ts| <==> forall i :: 0 <= i < |ts| ==> ts[i].completed
  {
    FilterLengthAll(ts, IsDone);
  }

  /**
   * `Math.round((completed / total) * 100)`, or 0 for an empty list, in integer arithmetic:
   * rounding half up is `floor(x + 1/2)`.
   */
  function RoundedPercent(completed: nat, total: nat): int
    requires completed <= total
  {
    if total == 0 then 0 else (200 * completed + total) / (2 * total)
  }

  /** The percentage is the integer nearest to `100 * completed / total`, halves rounded up. */
  lemma RoundedPercentNearest(completed: nat, total: nat)
    requires completed <= total && total > 0
    ensures var p := RoundedPercent(completed, total);
            2 * (p * total) - total <= 200 * completed < 2 * (p * total) + total
  {
    var p := RoundedPercent(completed, total);
    var a := 200 * completed + total;
    var b := 2 * total;
    assert p == a / b;
    assert b * p <= a < b * p + b;
    assert b * p == 2 * (p * total);
  }

  /** Multiplying by a positive number keeps the order of two integers. */
  lemma MulOrder(x: int, y: int, t: int)
    requires t > 0
    ensures x < y <==> x * t < y * t
  {
    assert (y - x) * t == y * t - x * t;
    assert y - x > 0 ==> (y - x) * t > 0;
    assert y - x <= 0 ==> (y - x) * t <= 0;
  }

  /** The percentage lies in 0..100, and it is 0 when nothing is done. */
  lemma RoundedPercentRange(completed: nat, total: nat)
    requires completed <= total
    ensures 0 <= RoundedPercent(completed, total) <= 100
    ensures completed == 0 ==> RoundedPercent(completed, total) == 0
  {
    if total > 0 {
      var p := RoundedPercent(completed, total);
      RoundedPercentNearest(completed, total);
      MulOrder(p, 101, total);
      MulOrder(-1, p, total);
      MulOrder(p, 1, total);
    }
  }

  /** A list with every task done shows 100%, whatever its length. */
  lemma AllDoneIsHundred(total: nat)
    requires total > 0
    ensures RoundedPercent(total, total) == 100
  {
    var p := RoundedPercent(total, total);
    RoundedPercentNearest(total, total);
    MulOrder(p, 101, total);
    MulOrder(99, p, total);
  }

  /**
   * With fewer than 200 tasks, 100% is shown exactly when every task is done. (The direction
   * from all done to 100% holds for any length, `AllDoneIsHundred`; from 200 tasks on, rounding
   * can reach 100 one task short, `RoundingReachesHundredEarly`.)
   */
  lemma HundredPercentIffAllDone(completed: nat, total: nat)
    requires completed <= total && 0 < total < 200
    ensures RoundedPercent(completed, total) == 100 <==> completed == total
  {
    RoundedPercentNearest(completed, total);
    var p := RoundedPercent(completed, total);
    MulOrder(p, 101, total);
    MulOrder(99, p, total);
    assert p == 100 ==> p * total == 100 * total;
  }

  /** 200 of 201 tasks done is 99.5...%, which `Math.round` shows as 100. */
  lemma RoundingReachesHundredEarly()
    ensures RoundedPercent(200, 201) == 100
    ensures RoundedPercent(2, 5) == 40
  {
  }

  /** The three-way message under the count. */
  datatype Message = NoTasks | AllDone | Remaining(count: int)

  /** `total === 0`, then `remaining === 0`, then the remaining count. */
  function MessageFor(total: nat, remaining: int): Message {
    if total == 0 then NoTasks else if remaining == 0 then AllDone else Remaining(remaining)
  }

  datatype Summary = Summary(completed: nat, total: nat, remaining: int, percent: int, message: Message)

  /** Counts, percentage and message of one category's task list. */
  function Summarize(ts: seq<TaskRecord>): Summary {
    var c := CompletedCount(ts);
    Summary(c, |ts|, |ts| - c, RoundedPercent(c, |ts|), MessageFor(|ts|, |ts| - c))
  }

  /**
   * `completed + remaining == total` with nothing negative; the percentage lies in 0..100; the
   * message is "no tasks" exactly for an empty list, "all done" exactly when every task of a
   * non-empty list is done, and otherwise carries the positive remaining count.
   */
  lemma SummarizeSpec(ts: seq<TaskRecord>)
    ensures var s := Summarize(ts);
            s.total == |ts| && s.completed + s.remaining == s.total && s.remaining >= 0
            && 0 <= s.percent <= 100
            && (s.message == NoTasks <==> ts == [])
            && (s.message == AllDone <==> ts != [] && forall i :: 0 <= i < |ts| ==> ts[i].completed)
            && (s.message.Remaining? ==> s.message.count == s.remaining > 0)
  {
    CompletedCountBounds(ts);
    RoundedPercentRange(CompletedCount(ts), |ts|);
  }

  /** The done-list of one category in a day's entry. */
  function DoneList(d: DayLog, c: Category): seq<string> {
    match c
    case Exercise => d.exercisesDone
    case Personal => d.personalsDone
  }

  function OtherCategory(c: Category): Category {
    match c
    case Exercise => Personal
    case Personal => Exercise
  }

  /** A day's entry with one category's done-list replaced. */
  function WithDone(d: DayLog, c: Category, names: seq<string>): DayLog {
    match c
    case Exercise => d.(exercisesDone := names)
    case Personal => d.(personalsDone := names)
  }

  /**
   * The read-modify-write of `cozyTasksLog`: today's entry (two empty lists when missing) gets
   * this category's completed names; the other category's list and every other day stay as they were.
   */
  function UpdatedLog(log: map<string, DayLog>, key: string, c: Category, ts: seq<TaskRecord>): map<string, DayLog> {
    var today := if key in log then log[key] else DayLog([], []);
    log[key := WithDone(today, c, CompletedNames(ts))]
  }

  /**
   * Today's entry holds this category's completed names in list order, the other category's
   * list is the old one (empty for a new entry), and every other day is untouched.
   */
  lemma UpdatedLogSpec(log: map<string, DayLog>, key: string, c: Category, ts: seq<TaskRecord>)
    ensures var r := UpdatedLog(log, key, c, ts);
            r.Keys == log.Keys + {key}
            && (forall k :: k in log && k != key ==> r[k] == log[k])
            && DoneList(r[key], c) == CompletedNames(ts)
            && DoneList(r[key], OtherCategory(c)) == if key in log then DoneList(log[key], OtherCategory(c)) else []
  {
  }

  /** Writing the same list again changes nothing, so the two-second poll can repeat it freely. */
  lemma UpdatedLogIdempotent(log: map<string, DayLog>, key: string, c: Category, ts: seq<TaskRecord>)
    ensures UpdatedLog(UpdatedLog(log, key, c, ts), key, c, ts) == UpdatedLog(log, key, c, ts)
  {
  }

  /** Updating the two categories in either order gives the same log. */
  lemma UpdatedLogCommutes(log: map<string, DayLog>, key: string, ex: seq<TaskRecord>, pe: seq<TaskRecord>)
    ensures UpdatedLog(UpdatedLog(log, key, Exercise, ex), key, Personal, pe)
         == UpdatedLog(UpdatedLog(log, key, Personal, pe), key, Exercise, ex)
  {
  }
}
