/**
 * main.js: the month grid of the dashboard (`generateCalendar`), the active state of the
 * sidebar links (`syncActiveLinks`) and the per-page dispatch (`handlePageInit`).
 */
module Shell {
  import opened Calendar

  /** One child of `#calendar-grid`: a weekday header, an empty filler, or a day with its number. */
  datatype Cell = Header(text: string) | Blank | DayCell(day: nat, highlighted: bool)

  const Weekdays: seq<string> := ["Sun", "Mon", "Tue", "Wed", "Thu", "Fri", "Sat"]

  /**
   * The grid of a month whose first day falls on weekday `firstDay` and which has `daysInMonth`
   * days, with day `today` highlighted: the seven headers, `firstDay` blanks, then the days.
   */
  function CalendarGrid(firstDay: nat, daysInMonth: nat, today: int): seq<Cell> {
    seq(7, i requires 0 <= i < 7 => Header(Weekdays[i]))
    + seq(firstDay, _ => Blank)
    + seq(daysInMonth, i requires 0 <= i < daysInMonth => DayCell(i + 1, i + 1 == today))
  }

  /**
   * The grid's shape: `7 + firstDay + daysInMonth` cells; the headers Sun to Sat in order, then
   * blanks, then the day numbers 1 to `daysInMonth` ascending, each highlighted iff it is `today`.
   */
  lemma CalendarGridShape(firstDay: nat, daysInMonth: nat, today: int)
    ensures var g := CalendarGrid(firstDay, daysInMonth, today);
            |g| == 7 + firstDay + daysInMonth
            && (forall i :: 0 <= i < 7 ==> g[i] == Header(Weekdays[i]))
            && (forall i :: 7 <= i < 7 + firstDay ==> g[i] == Blank)
            && (forall i :: 7 + firstDay <= i < |g| ==> g[i] == DayCell(i - 6 - firstDay, i - 6 - firstDay == today))
  {
  }

  /**
   * When `today` is a day of the month, exactly one cell is highlighted: the cell of that day.
   * Otherwise no cell is.
   */
  lemma {:induction false} ExactlyOneHighlighted(firstDay: nat, daysInMonth: nat, today: int)
    ensures var g := CalendarGrid(firstDay, daysInMonth, today);
            forall i :: 0 <= i < |g| ==>
              (g[i].DayCell? && g[i].highlighted <==> 1 <= today <= daysInMonth && i == 6 + firstDay + today)
  {
    var g := CalendarGrid(firstDay, daysInMonth, today);
    forall i | 0 <= i < |g|
      ensures g[i].DayCell? && g[i].highlighted <==> 1 <= today <= daysInMonth && i == 6 + firstDay + today
    {
      if i >= 7 + firstDay {
        assert g[i] == DayCell(i - 6 - firstDay, i - 6 - firstDay == today);
      } else if i >= 7 {
        assert g[i] == Blank;
      } else {
        assert g[i].Header?;
      }
    }
  }

  /**
   * `generateCalendar()` for the date `date`: seven headers, then `new Date(y, m, 1).getDay()`
   * blanks, then the days up to `new Date(y, m + 1, 0).getDate()`, with `date.getDate()` highlighted.
   */
  method GenerateCalendar(date: Date) returns (grid: seq<Cell>)
    requires ValidDate(date)
    ensures grid == CalendarGrid(Weekday(Date(date.year, date.month, 1)), DaysInMonth(date.year, date.month), date.day)
  {
    grid := [];
    var i := 0;
    while i < 7
      invariant 0 <= i <= 7 && |grid| == i
      invariant forall j :: 0 <= j < i ==> grid[j] == Header(Weekdays[j])
    {
      grid := grid + [Header(Weekdays[i])];
      i := i + 1;
    }
    var firstDay := Weekday(Date(date.year, date.month, 1));
    var lastDay := PreviousDay(FirstOfNextMonth(date.year, date.month));
    DayZeroOfNextMonth(date.year, date.month);
    var daysInMonth := lastDay.day;
    i := 0;
    while i < firstDay
      invariant 0 <= i <= firstDay && |grid| == 7 + i
      invariant forall j :: 0 <= j < 7 ==> grid[j] == Header(Weekdays[j])
      invariant forall j :: 7 <= j < |grid| ==> grid[j] == Blank
    {
      grid := grid + [Blank];
      i := i + 1;
    }
    var d := 1;
    while d <= daysInMonth
      invariant 1 <= d <= daysInMonth + 1 && |grid| == 6 + firstDay + d
      invariant forall j :: 0 <= j < 7 ==> grid[j] == Header(Weekdays[j])
      invariant forall j :: 7 <= j < 7 + firstDay ==> grid[j] == Blank
      invariant forall j :: 7 + firstDay <= j < |grid| ==> grid[j] == DayCell(j - 6 - firstDay, j - 6 - firstDay == date.day)
    {
      grid := grid + [DayCell(d, d == date.day)];
      d := d + 1;
    }
    CalendarGridShape(firstDay, daysInMonth, date.day);
  }

  /** The month grid of a valid date: between 35 and 44 cells, with the day of `date` the one highlighted. */
  lemma GenerateCalendarBounds(date: Date)
    requires ValidDate(date)
    ensures var g := CalendarGrid(Weekday(Date(date.year, date.month, 1)), DaysInMonth(date.year, date.month), date.day);
            35 <= |g| <= 44
            && g[6 + Weekday(Date(date.year, date.month, 1)) + date.day] == DayCell(date.day, true)
  {
    CalendarGridShape(Weekday(Date(date.year, date.month, 1)), DaysInMonth(date.year, date.month), date.day);
  }

  /** A sidebar link: its `data-page` attribute and whether it carries the `active` class. */
  class NavLink {
    const page: string
    var active: bool

    constructor (page: string, active: bool)
      ensures this.page == page && this.active == active
    {
      this.page := page;
      this.active := active;
    }
  }

  /** `syncActiveLinks(page)`: each link of both sidebars is active exactly when its page is `page`. */
  method SyncActiveLinks(links: seq<NavLink>, page: string)
    modifies links
    ensures forall i :: 0 <= i < |links| ==> links[i].active == (links[i].page == page)
  {
    var i := 0;
    while i < |links|
      invariant 0 <= i <= |links|
      invariant forall j :: 0 <= j < i ==> links[j].active == (links[j].page == page)
    {
      links[i].active := links[i].page == page;
      i := i + 1;
    }
  }

  /** What `handlePageInit` sets in motion, in order. */
  datatype PageAction =
    | SyncLinks(page: string)
    | InitExerciseToDo
    | AttachGoBackHome
    | AttachViewActivities
    | BuildCalendar
    | InitSettingsPage

  /**
   * `handlePageInit(page)`; `exerciseToDoDefined` and `settingsDefined` stand for the two
   * `typeof ... === 'function'` tests.
   */
  function PageInitActions(page: string, exerciseToDoDefined: bool, settingsDefined: bool): seq<PageAction> {
    [SyncLinks(page)]
    + (if page == "activities" then (if exerciseToDoDefined then [InitExerciseToDo] else []) + [AttachGoBackHome] else [])
    + (if page == "dashboard" then [AttachViewActivities, AttachGoBackHome, BuildCalendar] else [])
    + (if page == "settings" && settingsDefined then [InitSettingsPage] else [])
  }

  /**
   * The links are synced first on every page; the calendar is built only on the dashboard and
   * the settings page initialised only on the settings page.
   */
  lemma PageInitDispatch(page: string, exerciseToDoDefined: bool, settingsDefined: bool)
    ensures var a := PageInitActions(page, exerciseToDoDefined, settingsDefined);
            a[0] == SyncLinks(page)
            && (BuildCalendar in a <==> page == "dashboard")
            && (InitSettingsPage in a <==> page == "settings" && settingsDefined)
            && (InitExerciseToDo in a <==> page == "activities" && exerciseToDoDefined)
  {
  }
}
