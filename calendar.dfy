/** The month activity calendar: the grid's shape (month length and the
    Monday-first offset of day 1), the per-day aggregation of the month's
    transactions, the colour of each day, and the month navigation. */
module Calendar {
  import opened Common
  import opened Domain
  import opened Lists

  /** A calendar date; `month` counts from 0 as `getMonth()` does. */
  datatype CivilDate = CivilDate(year: int, month: int, day: int)

  predicate LeapYear(y: int)
  {
    (y % 4 == 0 && y % 100 != 0) || y % 400 == 0
  }

  /** `new Date(year, month + 1, 0).getDate()`: the last day of the month. */
  function DaysInMonth(year: int, month: int): int
    requires 0 <= month < 12
  {
    if month == 1 then (if LeapYear(year) then 29 else 28)
    else if month == 3 || month == 5 || month == 8 || month == 10 then 30
    else 31
  }

  /** A month has 28 to 31 days, February has 29 exactly in leap years, and
      the months of 31 days are January, March, May, July, August, October
      and December. */
  lemma DaysInMonthSpec(year: int, month: int)
    requires 0 <= month < 12
    ensures 28 <= DaysInMonth(year, month) <= 31
    ensures month == 1 ==> (DaysInMonth(year, month) == 29 <==> LeapYear(year))
    ensures DaysInMonth(year, month) == 31 <==> month in {0, 2, 4, 6, 7, 9, 11}
    ensures month != 1 ==> DaysInMonth(year, month) >= 30
  {
  }

  /** Days from 1 January 1970 to the given date in the proleptic Gregorian
      calendar (the count behind `new Date(year, month, day)`). */
  function DaysFromCivil(year: int, month: int, day: int): int
    requires 0 <= month < 12
  {
    var y := if month < 2 then year - 1 else year;
    var mp := (month + 10) % 12;
    var doy := (153 * mp + 2) / 5 + day - 1;
    MarchBase(y) + doy - 719468
  }

  /** The day count starts at 1 January 1970 (a Thursday), and 1 March 2024
      was a Friday. */
  lemma DaysFromCivilExamples()
    ensures DaysFromCivil(1970, 0, 1) == 0 && (DaysFromCivil(1970, 0, 1) + 4) % 7 == 4
    ensures DaysFromCivil(2024, 2, 1) == 19783 && (DaysFromCivil(2024, 2, 1) + 4) % 7 == 5
  {
    assert MarchBase(1969) == 719162 && (153 * 10 + 2) / 5 == 306;
    assert MarchBase(2024) == 739251 && 2 / 5 == 0;
    assert 19787 % 7 == 5;
  }

  /** Days from 1 March of year 0 to 1 March of the year `y`: 365 a year
      plus one for each leap day in between. */
  function MarchBase(y: int): int
  {
    365 * y + y / 4 - y / 100 + y / 400
  }

  /** Going from `y` to `y + 1` adds one to `y / d` exactly when `d`
      divides `y + 1`, for the three divisors of the leap-year rule. */
  lemma LeapDivisorSteps(y: int)
    ensures (y + 1) / 4 == y / 4 + (if (y + 1) % 4 == 0 then 1 else 0)
    ensures (y + 1) / 100 == y / 100 + (if (y + 1) % 100 == 0 then 1 else 0)
    ensures (y + 1) / 400 == y / 400 + (if (y + 1) % 400 == 0 then 1 else 0)
  {
  }

  /** From 1 March of `y` to 1 March of `y + 1` there are 366 days exactly
      when `y + 1` is a leap year. */
  lemma MarchYearLength(y: int)
    ensures MarchBase(y + 1) == MarchBase(y) + (if LeapYear(y + 1) then 366 else 365)
  {
    LeapDivisorSteps(y);
  }

  /** Day 1 of the next month comes the month's length after day 1 of this
      one. */
  lemma NextMonthStart(year: int, month: int)
    requires 0 <= month < 11
    ensures DaysFromCivil(year, month + 1, 1) == DaysFromCivil(year, month, 1) + DaysInMonth(year, month)
  {
    if month == 1 {
      MarchYearLength(year - 1);
    }
  }

  /** 1 January comes 31 days after 1 December of the year before. */
  lemma NextYearStart(year: int)
    ensures DaysFromCivil(year + 1, 0, 1) == DaysFromCivil(year, 11, 1) + 31
  {
  }

  /** `getFirstDayOfMonth(date)`: the weekday of day 1, 0 being Sunday. */
  function FirstDayOfMonth(year: int, month: int): (w: int)
    requires 0 <= month < 12
    ensures 0 <= w < 7
    ensures w == Weekday(DaysFromCivil(year, month, 1) * DayMs)
  {
    (DaysFromCivil(year, month, 1) + 4) % 7
  }

  /** The first weekday of each month follows from the previous month's by
      its length, across the turn of the year too. */
  lemma FirstDaysFollow(year: int, month: int)
    requires 0 <= month < 12
    ensures month < 11 ==>
      FirstDayOfMonth(year, month + 1) == (FirstDayOfMonth(year, month) + DaysInMonth(year, month)) % 7
    ensures month == 11 ==>
      FirstDayOfMonth(year + 1, 0) == (FirstDayOfMonth(year, 11) + 31) % 7
  {
    if month < 11 {
      NextMonthStart(year, month);
      WeekdayShift(DaysFromCivil(year, month, 1), DaysInMonth(year, month));
    } else {
      NextYearStart(year);
      WeekdayShift(DaysFromCivil(year, 11, 1), 31);
    }
  }

  lemma WeekdayShift(a: int, n: int)
    ensures (a + n + 4) % 7 == ((a + 4) % 7 + n) % 7
  {
  }

  /** `startDayOffset`: the blank cells before day 1 in a Monday-first
      week. */
  function StartDayOffset(firstDay: int): int
  {
    if firstDay == 0 then 6 else firstDay - 1
  }

  /** Sunday goes to the end of the week and every other weekday moves one
      place forward; the offset is the weekday counted from Monday. */
  lemma StartDayOffsetSpec(firstDay: int)
    requires 0 <= firstDay < 7
    ensures 0 <= StartDayOffset(firstDay) <= 6
    ensures StartDayOffset(firstDay) == (firstDay + 6) % 7
    ensures (StartDayOffset(firstDay) + 1) % 7 == firstDay
  {
  }

  /** What one calendar day aggregates. */
  datatype Activity = Activity(count: int, total: int)

  /** A transaction falls in the displayed month, by its local date. */
  predicate InMonth(tx: Transaction, dateOf: int -> CivilDate, year: int, month: int)
  {
    dateOf(tx.date).year == year && dateOf(tx.date).month == month
  }

  predicate OnDay(tx: Transaction, dateOf: int -> CivilDate, year: int, month: int, day: int)
  {
    InMonth(tx, dateOf, year, month) && dateOf(tx.date).day == day
  }

  /** The transactions of one day of the displayed month, in order. */
  function OfDay(txs: seq<Transaction>, dateOf: int -> CivilDate, year: int, month: int, day: int): seq<Transaction>
  {
    Filter(txs, (tx: Transaction) => OnDay(tx, dateOf, year, month, day))
  }

  /** `activity` holds an entry for exactly the days of the displayed month
      that have transactions, with their number and the sum of their
      amounts. */
  ghost predicate Summarises(activity: map<int, Activity>, txs: seq<Transaction>,
                             dateOf: int -> CivilDate, year: int, month: int)
  {
    forall d :: DaySummarised(activity, txs, dateOf, year, month, d)
  }

  /** Day `d` has an entry exactly when it has transactions, and the entry
      holds their number and the sum of their amounts. */
  ghost predicate DaySummarised(activity: map<int, Activity>, txs: seq<Transaction>,
                                dateOf: int -> CivilDate, year: int, month: int, d: int)
  {
    var ts := OfDay(txs, dateOf, year, month, d);
    (d in activity <==> ts != []) && (d in activity ==> activity[d] == Activity(|ts|, TotalAmount(ts)))
  }

  /** `monthData`: walks the transactions once, adding each one of the
      displayed month to its day's entry, created on first use.  `dateOf`
      is the local-time reading of a timestamp (`getFullYear`, `getMonth`,
      `getDate`). */
  method MonthData(txs: seq<Transaction>, dateOf: int -> CivilDate, year: int, month: int)
    returns (activity: map<int, Activity>)
    ensures Summarises(activity, txs, dateOf, year, month)
  {
    activity := map[];
    for i := 0 to |txs|
      invariant Summarises(activity, txs[..i], dateOf, year, month)
    {
      var tx := txs[i];
      var before := activity;
      if InMonth(tx, dateOf, year, month) {
        var day := dateOf(tx.date).day;
        var entry := if day in activity then activity[day] else Activity(0, 0);
        activity := activity[day := Activity(entry.count + 1, entry.total + tx.amount)];
      }
      RecordStep(before, activity, txs, i, dateOf, year, month);
    }
    assert txs[..|txs|] == txs;
  }

  /** Adding transaction `i` to its day (if it is in the month) turns a
      summary of the first `i` transactions into one of the first `i + 1`. */
  lemma RecordStep(before: map<int, Activity>, after: map<int, Activity>, txs: seq<Transaction>, i: int,
                   dateOf: int -> CivilDate, year: int, month: int)
    requires 0 <= i < |txs| && Summarises(before, txs[..i], dateOf, year, month)
    requires var tx := txs[i];
      var day := dateOf(tx.date).day;
      var entry := if day in before then before[day] else Activity(0, 0);
      after == if InMonth(tx, dateOf, year, month)
               then before[day := Activity(entry.count + 1, entry.total + tx.amount)]
               else before
    ensures Summarises(after, txs[..i + 1], dateOf, year, month)
  {
    var upto := txs[..i + 1];
    forall d
      ensures DaySummarised(after, upto, dateOf, year, month, d)
    {
      DayStep(before, after, txs, i, dateOf, year, month, d);
    }
  }

  /** The same step, for one day. */
  lemma DayStep(before: map<int, Activity>, after: map<int, Activity>, txs: seq<Transaction>, i: int,
                dateOf: int -> CivilDate, year: int, month: int, d: int)
    requires 0 <= i < |txs| && DaySummarised(before, txs[..i], dateOf, year, month, d)
    requires var tx := txs[i];
      var day := dateOf(tx.date).day;
      var entry := if day in before then before[day] else Activity(0, 0);
      after == if InMonth(tx, dateOf, year, month)
               then before[day := Activity(entry.count + 1, entry.total + tx.amount)]
               else before
    ensures DaySummarised(after, txs[..i + 1], dateOf, year, month, d)
  {
    OfDayStep(txs, i, dateOf, year, month, d);
    var b := OfDay(txs[..i], dateOf, year, month, d);
    if OnDay(txs[i], dateOf, year, month, d) {
      TotalAmountAppend(b, [txs[i]]);
    } else {
      assert b + [] == b;
    }
  }

  /** One more transaction joins its own day's list and no other. */
  lemma OfDayStep(txs: seq<Transaction>, i: int, dateOf: int -> CivilDate, year: int, month: int, d: int)
    requires 0 <= i < |txs|
    ensures OfDay(txs[..i + 1], dateOf, year, month, d)
      == OfDay(txs[..i], dateOf, year, month, d) + (if OnDay(txs[i], dateOf, year, month, d) then [txs[i]] else [])
    ensures TotalAmount(OfDay(txs[..i + 1], dateOf, year, month, d))
      == TotalAmount(OfDay(txs[..i], dateOf, year, month, d)) + (if OnDay(txs[i], dateOf, year, month, d) then txs[i].amount else 0)
  {
    assert txs[..i + 1][..i] == txs[..i];
    if OnDay(txs[i], dateOf, year, month, d) {
      TotalAmountAppend(OfDay(txs[..i], dateOf, year, month, d), [txs[i]]);
    }
  }

  /** Counts of days 1 to `k`. */
  function CountUpTo(txs: seq<Transaction>, dateOf: int -> CivilDate, year: int, month: int, k: int): int
    decreases k
  {
    if k < 1 then 0 else CountUpTo(txs, dateOf, year, month, k - 1) + |OfDay(txs, dateOf, year, month, k)|
  }

  /** Totals of days 1 to `k`. */
  function TotalUpTo(txs: seq<Transaction>, dateOf: int -> CivilDate, year: int, month: int, k: int): int
    decreases k
  {
    if k < 1 then 0 else TotalUpTo(txs, dateOf, year, month, k - 1) + TotalAmount(OfDay(txs, dateOf, year, month, k))
  }

  lemma {:induction false} UpToStep(txs: seq<Transaction>, dateOf: int -> CivilDate, year: int, month: int, k: int)
    requires txs != []
    ensures var init, tx := txs[..|txs| - 1], txs[|txs| - 1];
      var counted := InMonth(tx, dateOf, year, month) && 1 <= dateOf(tx.date).day <= k;
      CountUpTo(txs, dateOf, year, month, k) == CountUpTo(init, dateOf, year, month, k) + (if counted then 1 else 0)
      && TotalUpTo(txs, dateOf, year, month, k) == TotalUpTo(init, dateOf, year, month, k) + (if counted then tx.amount else 0)
    decreases k
  {
    if k >= 1 {
      UpToStep(txs, dateOf, year, month, k - 1);
      OfDayStep(txs, |txs| - 1, dateOf, year, month, k);
      assert txs[..|txs|] == txs;
    }
  }

  /** The transactions of the displayed month. */
  function OfMonth(txs: seq<Transaction>, dateOf: int -> CivilDate, year: int, month: int): seq<Transaction>
  {
    Filter(txs, (tx: Transaction) => InMonth(tx, dateOf, year, month))
  }

  /** Over days 1 to 31 the per-day counts add up to the number of the
      month's transactions and the per-day totals to their amounts: each
      transaction of the month is counted on exactly one day, and nothing
      from other months is counted. */
  lemma {:induction false} MonthDataAddsUp(txs: seq<Transaction>, dateOf: int -> CivilDate, year: int, month: int)
    requires forall i :: 0 <= i < |txs| ==> 1 <= dateOf(txs[i].date).day <= 31
    ensures CountUpTo(txs, dateOf, year, month, 31) == |OfMonth(txs, dateOf, year, month)|
    ensures TotalUpTo(txs, dateOf, year, month, 31) == TotalAmount(OfMonth(txs, dateOf, year, month))
  {
    if txs == [] {
      ZeroUpTo(txs, dateOf, year, month, 31);
    } else {
      var init, tx := txs[..|txs| - 1], txs[|txs| - 1];
      MonthDataAddsUp(init, dateOf, year, month);
      UpToStep(txs, dateOf, year, month, 31);
      if InMonth(tx, dateOf, year, month) {
        TotalAmountAppend(OfMonth(init, dateOf, year, month), [tx]);
      }
    }
  }

  lemma {:induction false} ZeroUpTo(txs: seq<Transaction>, dateOf: int -> CivilDate, year: int, month: int, k: int)
    requires txs == []
    ensures CountUpTo(txs, dateOf, year, month, k) == 0 && TotalUpTo(txs, dateOf, year, month, k) == 0
    decreases k
  {
    if k >= 1 {
      ZeroUpTo(txs, dateOf, year, month, k - 1);
    }
  }

  datatype Shade = Strong | Moderate | Light | Neutral | TodayOutline

  /** The background of a day cell: by the day's total when it has activity,
      the "today" outline only for a day without any. */
  function DayShade(activity: Option<Activity>, isToday: bool): Shade
  {
    if activity.Some? then
      if activity.value.total > 5000 then Strong
      else if activity.value.total > 1000 then Moderate
      else if activity.value.total > 0 then Light
      else Neutral
    else if isToday then TodayOutline
    else Neutral
  }

  /** The shades partition the totals at 5000, 1000 and 0; a day with
      activity never gets the today outline, and a day with activity whose
      total is not positive stays neutral. */
  lemma DayShadeSpec(activity: Option<Activity>, isToday: bool)
    ensures DayShade(activity, isToday) == TodayOutline <==> activity.None? && isToday
    ensures activity.Some? ==>
      (DayShade(activity, isToday) == Strong <==> activity.value.total > 5000)
      && (DayShade(activity, isToday) == Moderate <==> 1000 < activity.value.total <= 5000)
      && (DayShade(activity, isToday) == Light <==> 0 < activity.value.total <= 1000)
      && (DayShade(activity, isToday) == Neutral <==> activity.value.total <= 0)
  {
  }

  /** The month before, with the year carried back from January. */
  function PrevOf(year: int, month: int): (int, int)
  {
    if month == 0 then (year - 1, 11) else (year, month - 1)
  }

  /** The month after, with the year carried over from December. */
  function NextOf(year: int, month: int): (int, int)
  {
    if month == 11 then (year + 1, 0) else (year, month + 1)
  }

  /** On valid months the two moves stay valid and undo each other. */
  lemma PrevNextInverse(year: int, month: int)
    requires 0 <= month < 12
    ensures 0 <= PrevOf(year, month).1 < 12 && 0 <= NextOf(year, month).1 < 12
    ensures NextOf(PrevOf(year, month).0, PrevOf(year, month).1) == (year, month)
    ensures PrevOf(NextOf(year, month).0, NextOf(year, month).1) == (year, month)
  {
  }

  /** The displayed date (`currentDate`). */
  class MonthView {
    var year: int
    var month: int
    var day: int

    ghost predicate Valid()
      reads this
    {
      0 <= month < 12 && 1 <= day <= 31
    }

    /** Starts on today's date. */
    constructor(today: CivilDate)
      requires 0 <= today.month < 12 && 1 <= today.day <= 31
      ensures Valid() && year == today.year && month == today.month && day == today.day
    {
      year, month, day := today.year, today.month, today.day;
    }

    /** `prevMonth()`: day 1 of the month before. */
    method PrevMonth()
      requires Valid()
      modifies this
      ensures Valid() && (year, month) == PrevOf(old(year), old(month)) && day == 1
    {
      var (y, m) := PrevOf(year, month);
      year, month, day := y, m, 1;
    }

    /** `nextMonth()`: day 1 of the month after. */
    method NextMonth()
      requires Valid()
      modifies this
      ensures Valid() && (year, month) == NextOf(old(year), old(month)) && day == 1
    {
      var (y, m) := NextOf(year, month);
      year, month, day := y, m, 1;
    }
  }
}
