/** The month view of the calendar page: the whole-week range of days around the
    month, each day tagged as in or out of the month, and each day's entries, of
    which the cell shows the first three and a "+N more" line for the rest.

    Days are integer day numbers, one per calendar day, with day 0 a Sunday. A month
    is given by the numbers of its first and last day. The `yyyy-MM-dd` text of a day
    is a parameter `key`. */
module CalendarGrid {
  import opened Wrappers
  import opened Events

  /** The weekday of day `d`: 0 for Sunday up to 6 for Saturday, the order of the
      column headers "Sun" … "Sat". */
  function Weekday(d: int): (w: nat)
    ensures w < 7
  {
    d % 7
  }

  /** `startOfWeek(d)` with weeks starting on Sunday. */
  function StartOfWeek(d: int): (s: int)
    ensures s <= d < s + 7 && Weekday(s) == 0
  {
    d - Weekday(d)
  }

  /** `endOfWeek(d)` with weeks starting on Sunday. */
  function EndOfWeek(d: int): (e: int)
    ensures e - 7 < d <= e && Weekday(e) == 6
  {
    StartOfWeek(d) + 6
  }

  /** The Sunday on or before `d` is the only Sunday in the seven days ending at `d`. */
  lemma StartOfWeekUnique(d: int, s: int)
    requires s <= d < s + 7 && Weekday(s) == 0
    ensures s == StartOfWeek(d)
  {
    var t := StartOfWeek(d);
    assert s % 7 == 0 && t % 7 == 0;
    assert (s - t) % 7 == 0;
  }

  /** The Saturday on or after `d` is the only Saturday in the seven days from `d`. */
  lemma EndOfWeekUnique(d: int, e: int)
    requires e - 7 < d <= e && Weekday(e) == 6
    ensures e == EndOfWeek(d)
  {
    var t := EndOfWeek(d);
    assert (e - t) % 7 == 0;
  }

  /** A month: its first and last day. */
  datatype Month = Month(first: int, last: int)

  /** A calendar month has 28 to 31 days. */
  predicate ValidMonth(m: Month) {
    28 <= m.last - m.first + 1 <= 31
  }

  /** `eachDayOfInterval({ start, end })`: every day from `start` to `end`, both
      included, in order. */
  function EachDay(start: int, end: int): (days: seq<int>)
    ensures |days| == if end < start then 0 else end - start + 1
    ensures forall i :: 0 <= i < |days| ==> days[i] == start + i
    decreases end - start
  {
    if end < start then [] else [start] + EachDay(start + 1, end)
  }

  /** `calendarDays`: the days from the Sunday on or before the month's first day to
      the Saturday on or after its last day. */
  function CalendarDays(m: Month): seq<int> {
    EachDay(StartOfWeek(m.first), EndOfWeek(m.last))
  }

  /** The grid is whole weeks, from a Sunday to a Saturday, four to six of them, with
      consecutive days; cell `i` sits under the header of column `i % 7` ("Sun" for 0
      through "Sat" for 6). */
  lemma GridShape(m: Month)
    requires ValidMonth(m)
    ensures var days := CalendarDays(m);
      && |days| % 7 == 0 && 28 <= |days| <= 42
      && days[0] == StartOfWeek(m.first) && days[|days| - 1] == EndOfWeek(m.last)
      && (forall i :: 0 < i < |days| ==> days[i] == days[i - 1] + 1)
      && (forall i :: 0 <= i < |days| ==> Weekday(days[i]) == i % 7)
  {
    var s, e := StartOfWeek(m.first), EndOfWeek(m.last);
    var ks, ke := s / 7, (e + 1) / 7;
    assert s == 7 * ks && e + 1 == 7 * ke;
    assert |CalendarDays(m)| == 7 * (ke - ks);
    forall i | 0 <= i < |CalendarDays(m)| ensures Weekday(CalendarDays(m)[i]) == i % 7 {
      WeekdayOfOffset(ks, i);
    }
  }

  /** Day `i` of a grid that starts on a Sunday falls on weekday `i % 7`. */
  lemma WeekdayOfOffset(k: int, i: nat)
    ensures Weekday(7 * k + i) == i % 7
  {
    var q, r := i / 7, i % 7;
    assert 7 * k + i == 7 * (k + q) + r;
  }

  /** The grid holds every day of the month: the month's days are the cells from
      index `m.first - days[0]` to `m.last - days[0]`, with fewer than seven leading
      and fewer than seven trailing days of the neighbouring months. */
  lemma GridCoversMonth(m: Month)
    requires ValidMonth(m)
    ensures var days := CalendarDays(m);
      && 0 <= m.first - days[0] < 7
      && 0 <= |days| - 1 - (m.last - days[0]) < 7
      && (forall d :: m.first <= d <= m.last ==> d in days)
  {
    var days := CalendarDays(m);
    forall d | m.first <= d <= m.last ensures d in days {
      assert days[d - days[0]] == d;
    }
  }

  /** `isSameMonth(day, currentDate)`, where `m` is the month of `currentDate`. */
  predicate IsCurrentMonth(m: Month, day: int) {
    m.first <= day <= m.last
  }

  /** The in-month cells form one contiguous block of the grid, and every cell of the
      block is in the month. */
  lemma CurrentMonthIsBlock(m: Month)
    requires ValidMonth(m)
    ensures var days := CalendarDays(m);
      forall i :: 0 <= i < |days| ==>
        (IsCurrentMonth(m, days[i]) <==> m.first - days[0] <= i <= m.last - days[0])
  {
  }

  /** `getEventsForDay(day)`: the store's lookup on the day's `yyyy-MM-dd` text. */
  function EventsForDay(events: seq<Event>, user: Option<string>, key: int -> string, day: int): (r: seq<Event>)
    ensures forall e :: e in r <==> user.Some? && e in events && e.date == key(day) && e.userId == user.value
  {
    Query(events, user, key(day))
  }

  /** How many events a cell lists. */
  const MaxShown: nat := 3

  /** `dayEvents.slice(0, 3)`. */
  function Shown(es: seq<Event>): (r: seq<Event>)
    ensures |r| == if |es| < MaxShown then |es| else MaxShown
    ensures r == es[..|r|]
  {
    if |es| <= MaxShown then es else es[..MaxShown]
  }

  /** The "+N more" line: `N = dayEvents.length - 3`, shown only when it is positive. */
  function More(es: seq<Event>): (more: Option<nat>)
    ensures more.Some? <==> |es| > MaxShown
  {
    if |es| > MaxShown then Some(|es| - MaxShown) else None
  }

  /** The listed events and the count in the "+N more" line add up to all events of
      the day, and the listed ones are the first in store order. */
  lemma ShownPlusMore(es: seq<Event>)
    ensures |Shown(es)| + More(es).GetOr(0) == |es|
    ensures Shown(es) + es[|Shown(es)|..] == es
    ensures More(es).None? ==> Shown(es) == es
  {
  }

  /** One cell of the grid. */
  datatype Cell = Cell(day: int, inMonth: bool, shown: seq<Event>, more: Option<nat>)

  function CellFor(m: Month, events: seq<Event>, user: Option<string>, key: int -> string, day: int): Cell {
    var es := EventsForDay(events, user, key, day);
    Cell(day, IsCurrentMonth(m, day), Shown(es), More(es))
  }

  /** The grid as rendered: one cell per day of `calendarDays`. */
  function MonthView(m: Month, events: seq<Event>, user: Option<string>, key: int -> string): (cells: seq<Cell>)
    ensures |cells| == |CalendarDays(m)|
  {
    MapSeq(CalendarDays(m), (d: int) => CellFor(m, events, user, key, d))
  }

  /** Each cell is its grid day, tagged with whether it is in the month, listing the
      first entries of the user's lookup for that day and counting the rest. */
  lemma MonthViewCells(m: Month, events: seq<Event>, user: Option<string>, key: int -> string, i: nat)
    requires i < |CalendarDays(m)|
    ensures var c, day := MonthView(m, events, user, key)[i], CalendarDays(m)[i];
      var all := EventsForDay(events, user, key, day);
      && c.day == day
      && (c.inMonth <==> m.first <= day <= m.last)
      && c.shown == all[..|c.shown|] && |c.shown| <= MaxShown
      && |c.shown| + c.more.GetOr(0) == |all|
      && (c.more.Some? <==> |all| > MaxShown)
  {
    var day := CalendarDays(m)[i];
    ShownPlusMore(EventsForDay(events, user, key, day));
  }

  /** With no logged-in user every cell is empty. */
  lemma NoUserEmptyCells(m: Month, events: seq<Event>, key: int -> string, i: nat)
    requires i < |CalendarDays(m)|
    ensures MonthView(m, events, None, key)[i].shown == []
    ensures MonthView(m, events, None, key)[i].more == None
  {
  }

  /** When distinct days have distinct texts, no entry is listed in two cells. */
  lemma DistinctDaysShareNoEvent(m: Month, events: seq<Event>, user: Option<string>, key: int -> string, i: nat, j: nat, e: Event)
    requires forall a, b :: key(a) == key(b) ==> a == b
    requires i < j < |CalendarDays(m)|
    ensures var cells := MonthView(m, events, user, key);
      e in cells[i].shown ==> e !in cells[j].shown
  {
    var days := CalendarDays(m);
    var cells := MonthView(m, events, user, key);
    if e in cells[i].shown {
      assert e in EventsForDay(events, user, key, days[i]);
      assert days[i] != days[j];
      assert e.date != key(days[j]);
      assert e !in EventsForDay(events, user, key, days[j]);
    }
  }
}
