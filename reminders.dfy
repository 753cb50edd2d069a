/** Contextual reminders: the habitual saving weekday, inactivity, goal
    deadlines within a week, a streak at risk, the assembled reminder list
    and the cooldown between two showings.  `now` stands for `new Date()`. */
module Reminders {
  import opened Common
  import opened Domain
  import opened Sorting
  import opened Lists

  /** The weekday the user usually saves on, and how often they did. */
  datatype Pattern = Pattern(day: int, dayName: string, frequency: int)

  const DayNames: seq<string> :=
    ["Sunday", "Monday", "Tuesday", "Wednesday", "Thursday", "Friday", "Saturday"]

  /** Among weekdays `0 .. n - 1`, the first one with the most transactions. */
  function BestDay(txs: seq<Transaction>, n: int): (b: int)
    requires 1 <= n <= 7
    ensures 0 <= b < n
    ensures forall d :: 0 <= d < n ==> WeekdayCount(txs, d) <= WeekdayCount(txs, b)
    ensures forall d :: 0 <= d < b ==> WeekdayCount(txs, d) < WeekdayCount(txs, b)
  {
    if n == 1 then 0
    else
      var p := BestDay(txs, n - 1);
      if WeekdayCount(txs, n - 1) > WeekdayCount(txs, p) then n - 1 else p
  }

  /** What `analyzeSavingPattern` answers: nothing for fewer than five
      transactions or when no weekday has three; otherwise the weekday with
      the most transactions, the earliest in the week on a tie. */
  function PatternSpec(txs: seq<Transaction>): Option<Pattern>
  {
    if |txs| < 5 then None
    else
      var b := BestDay(txs, 7);
      if WeekdayCount(txs, b) < 3 then None
      else Some(Pattern(b, DayNames[b], WeekdayCount(txs, b)))
  }

  /** The pattern exists exactly when there are five transactions and some
      weekday has three; its frequency is the largest weekday count. */
  lemma PatternSpecIff(txs: seq<Transaction>)
    ensures PatternSpec(txs).None? <==> |txs| < 5 || forall d :: 0 <= d < 7 ==> WeekdayCount(txs, d) < 3
    ensures PatternSpec(txs).Some? ==>
      var p := PatternSpec(txs).value;
      0 <= p.day < 7 && p.frequency == WeekdayCount(txs, p.day) && p.frequency >= 3
      && forall d :: 0 <= d < 7 ==> WeekdayCount(txs, d) <= p.frequency
  {
  }

  function NegFrequency(e: (int, int)): int
  {
    -e.1
  }

  /** `Object.entries(dayFrequency)` after the weekdays `0 .. n - 1` were
      seen: integer keys come out in ascending order. */
  ghost function Entries(txs: seq<Transaction>, n: int): (es: seq<(int, int)>)
    requires 0 <= n <= 7
    ensures forall i :: 0 <= i < |es| ==>
      0 <= es[i].0 < n && es[i].1 == WeekdayCount(txs, es[i].0) && es[i].1 > 0
    ensures forall i, j :: 0 <= i < j < |es| ==> es[i].0 < es[j].0
    ensures forall d :: 0 <= d < n && WeekdayCount(txs, d) > 0 ==> (d, WeekdayCount(txs, d)) in es
  {
    if n == 0 then []
    else
      var es := Entries(txs, n - 1);
      if WeekdayCount(txs, n - 1) > 0 then es + [(n - 1, WeekdayCount(txs, n - 1))] else es
  }

  /** The `forEach` that fills `dayFrequency`. */
  method CountWeekdays(txs: seq<Transaction>) returns (dayFrequency: map<int, int>)
    ensures forall d :: d in dayFrequency <==> 0 <= d < 7 && WeekdayCount(txs, d) > 0
    ensures forall d :: d in dayFrequency ==> dayFrequency[d] == WeekdayCount(txs, d)
  {
    dayFrequency := map[];
    var i := 0;
    while i < |txs|
      invariant 0 <= i <= |txs|
      invariant forall d :: d in dayFrequency <==> 0 <= d < 7 && WeekdayCount(txs[..i], d) > 0
      invariant forall d :: d in dayFrequency ==> dayFrequency[d] == WeekdayCount(txs[..i], d)
    {
      var day := Weekday(txs[i].date);
      assert txs[..i + 1][..i] == txs[..i];
      dayFrequency := dayFrequency[day := (if day in dayFrequency then dayFrequency[day] else 0) + 1];
      i := i + 1;
    }
    assert txs[..i] == txs;
  }

  /** `Object.entries(dayFrequency)`. */
  method FrequencyEntries(dayFrequency: map<int, int>, ghost txs: seq<Transaction>) returns (entries: seq<(int, int)>)
    requires forall d :: d in dayFrequency <==> 0 <= d < 7 && WeekdayCount(txs, d) > 0
    requires forall d :: d in dayFrequency ==> dayFrequency[d] == WeekdayCount(txs, d)
    ensures entries == Entries(txs, 7)
  {
    entries := [];
    var d := 0;
    while d < 7
      invariant 0 <= d <= 7 && entries == Entries(txs, d)
    {
      if d in dayFrequency {
        entries := entries + [(d, dayFrequency[d])];
      }
      d := d + 1;
    }
  }

  /** With five or more transactions the sorted entries start with the
      earliest weekday of highest count. */
  lemma SortedEntriesHead(txs: seq<Transaction>)
    requires |txs| >= 5
    ensures var sorted := SortBy(Entries(txs, 7), NegFrequency);
      var b := BestDay(txs, 7);
      |sorted| > 0 && sorted[0] == (b, WeekdayCount(txs, b))
  {
    var entries := Entries(txs, 7);
    var b := BestDay(txs, 7);
    var m := WeekdayCount(txs, b);
    WeekdayCountsAddUp(txs);
    assert m > 0;
    assert (b, m) in entries;
    var j :| 0 <= j < |entries| && entries[j] == (b, m);
    SortByHead(entries, NegFrequency, j);
  }

  /** `analyzeSavingPattern(transactions)`: counts per weekday in an object,
      then its entries sorted by count, most frequent first. */
  method AnalyzeSavingPattern(txs: seq<Transaction>) returns (r: Option<Pattern>)
    ensures r == PatternSpec(txs)
  {
    if |txs| < 5 {
      return None;
    }
    var dayFrequency := CountWeekdays(txs);
    var entries := FrequencyEntries(dayFrequency, txs);
    var sorted := SortBy(entries, NegFrequency);
    SortedEntriesHead(txs);
    if |sorted| == 0 || sorted[0].1 < 3 {
      return None;
    }
    var best := sorted[0];
    return Some(Pattern(best.0, DayNames[best.0], best.1));
  }

  /** `checkInactivity`: `daysSince` is `None` for Infinity. */
  datatype Inactivity = Inactivity(isInactive: bool, daysSince: Option<int>)

  /** `differenceInDays(later, earlier)`: whole days, rounded towards zero. */
  function FullDays(later: int, earlier: int): int
  {
    TruncDiv(later - earlier, DayMs)
  }

  /** `checkInactivity(transactions)`, the newest transaction first. */
  function CheckInactivity(txs: seq<Transaction>, now: int): (r: Inactivity)
    ensures txs == [] ==> r == Inactivity(true, None)
    ensures txs != [] ==> r.daysSince.Some? && (r.isInactive <==> now - txs[0].date >= 3 * DayMs)
  {
    if txs == [] then Inactivity(true, None)
    else
      var days := FullDays(now, txs[0].date);
      Inactivity(days >= 3, Some(days))
  }

  /** A deadline entry; `progress` is `None` where the division is 0 / 0
      (NaN), for a goal with an empty plan. */
  datatype Deadline = Deadline(goal: Goal, daysUntil: int, progress: Option<real>, isAtRisk: bool)

  predicate DueWithinWeek(g: Goal, now: int)
  {
    g.targetDate.Some? && 0 < FullDays(g.targetDate.value, now) <= 7
  }

  /** A goal is listed when its target date lies one to eight days (the
      eighth excluded) after now. */
  lemma DueWithinWeekIff(g: Goal, now: int)
    ensures DueWithinWeek(g, now) <==>
      g.targetDate.Some? && DayMs <= g.targetDate.value - now < 8 * DayMs
  {
  }

  function DeadlineOf(g: Goal, now: int): Deadline
    requires g.targetDate.Some?
  {
    var days := FullDays(g.targetDate.value, now);
    var plan := g.savingsPlan;
    var progress := if |plan| == 0 then None else Some(PaidCount(plan) as real / |plan| as real * 100.0);
    Deadline(g, days, progress, progress.Some? && progress.value < 70.0 && days <= 3)
  }

  /** A goal is at risk when fewer than 70% of its bits, counted and not
      weighed by amount, are paid and at most three days remain. */
  lemma DeadlineRisk(g: Goal, now: int)
    requires DueWithinWeek(g, now)
    ensures var dl := DeadlineOf(g, now);
      0 < dl.daysUntil <= 7
      && (dl.isAtRisk <==> |g.savingsPlan| > 0 && 10 * PaidCount(g.savingsPlan) < 7 * |g.savingsPlan|
                           && dl.daysUntil <= 3)
  {
    var plan := g.savingsPlan;
    if |plan| > 0 {
      PercentBelow(PaidCount(plan), |plan|, 70);
    }
  }

  /** `part / whole * 100 < p`, in integers. */
  lemma PercentBelow(part: int, whole: int, p: int)
    requires whole > 0
    ensures part as real / whole as real * 100.0 < p as real <==> 100 * part < p * whole
  {
    var q := part as real / whole as real;
    assert q * whole as real == part as real;
    assert (q * 100.0 - p as real) * whole as real == (100 * part - p * whole) as real;
    ProductSign(q * 100.0 - p as real, whole as real);
  }

  /** `checkDeadlines(goals)`. */
  function CheckDeadlines(goals: seq<Goal>, now: int): (r: seq<Deadline>)
  {
    var due := Filter(goals, (g: Goal) => DueWithinWeek(g, now));
    seq(|due|, i requires 0 <= i < |due| => DeadlineOf(due[i], now))
  }

  /** The deadlines are those of exactly the goals due within a week, in
      goal order. */
  lemma CheckDeadlinesSpec(goals: seq<Goal>, now: int)
    ensures var r := CheckDeadlines(goals, now);
      (forall i :: 0 <= i < |r| ==> r[i].goal in goals && DueWithinWeek(r[i].goal, now)
                                    && r[i] == DeadlineOf(r[i].goal, now))
      && (forall g :: g in goals && DueWithinWeek(g, now) ==> exists i :: 0 <= i < |r| && r[i].goal == g)
      && |r| <= |goals|
  {
    var due := Filter(goals, (g: Goal) => DueWithinWeek(g, now));
    var r := CheckDeadlines(goals, now);
    FilterMembers(goals, (g: Goal) => DueWithinWeek(g, now));
    forall g | g in goals && DueWithinWeek(g, now) ensures exists i :: 0 <= i < |r| && r[i].goal == g {
      var i :| 0 <= i < |due| && due[i] == g;
      assert r[i].goal == g;
    }
  }

  /** `checkStreakRisk(transactions, currentStreak)`, the newest transaction
      first. */
  function CheckStreakRisk(txs: seq<Transaction>, streak: int, now: int): (r: bool)
    ensures streak == 0 ==> !r
    ensures streak != 0 && txs == [] ==> r
  {
    if streak == 0 then false
    else if txs == [] then true
    else DayOf(now) - DayOf(txs[0].date) == 0 && HourOf(now) >= 18
  }

  /** Contrary to the comment beside it, the check reports a risk only when
      the newest transaction was made today, from six in the evening on. */
  lemma StreakRiskMeansSavedToday(txs: seq<Transaction>, streak: int, now: int)
    requires txs != []
    ensures CheckStreakRisk(txs, streak, now)
        <==> streak != 0 && DayOf(txs[0].date) == DayOf(now) && 18 * HourMs <= now % DayMs
  {
  }

  /** `txs.some(tx => same calendar day as today)`. */
  function HasTransactionOn(txs: seq<Transaction>, day: int): (b: bool)
    ensures b <==> exists i :: 0 <= i < |txs| && DayOf(txs[i].date) == day
  {
    if txs == [] then false
    else if DayOf(txs[0].date) == day then true
    else
      assert forall i :: 0 < i < |txs| ==> txs[i] == txs[1..][i - 1];
      HasTransactionOn(txs[1..], day)
  }

  datatype ReminderKind = InactivityReminder | PatternReminder | DeadlineReminder | StreakRiskReminder

  /** A reminder, reduced to its type, priority and the goal it links to. */
  datatype Reminder = Reminder(kind: ReminderKind, priority: Priority, goalId: Option<int>)

  /** The user's switches; an absent preference is `false`. */
  datatype Preferences = Preferences(disableInactivity: bool, disablePattern: bool,
                                     disableDeadlines: bool, disableStreak: bool)

  function DeadlineReminderOf(dl: Deadline): Reminder
  {
    Reminder(DeadlineReminder, if dl.isAtRisk then High else Medium, Some(dl.goal.id))
  }

  /** `generateReminders(transactions, goals, currentStreak, userPreferences)`:
      inactivity, then the habitual weekday, then one per deadline, then the
      streak; each can be switched off, and the weekday one also needs no
      transaction today. */
  method GenerateReminders(txs: seq<Transaction>, goals: seq<Goal>, streak: int,
                           prefs: Preferences, now: int) returns (reminders: seq<Reminder>)
    ensures var inactive := CheckInactivity(txs, now).isInactive && !prefs.disableInactivity;
      var pattern := PatternSpec(txs);
      var habitual := pattern.Some? && Weekday(now) == pattern.value.day && !prefs.disablePattern
                      && !HasTransactionOn(txs, DayOf(now));
      var risk := CheckStreakRisk(txs, streak, now) && !prefs.disableStreak;
      reminders == (if inactive then [Reminder(InactivityReminder, Medium, None)] else [])
                 + (if habitual then [Reminder(PatternReminder, High, None)] else [])
                 + (if prefs.disableDeadlines then [] else DeadlineReminders(CheckDeadlines(goals, now)))
                 + (if risk then [Reminder(StreakRiskReminder, High, None)] else [])
  {
    ghost var inactive := CheckInactivity(txs, now).isInactive && !prefs.disableInactivity;
    ghost var first: seq<Reminder> := if inactive then [Reminder(InactivityReminder, Medium, None)] else [];
    reminders := [];
    var inactivity := CheckInactivity(txs, now);
    if inactivity.isInactive && !prefs.disableInactivity {
      reminders := reminders + [Reminder(InactivityReminder, Medium, None)];
    }
    assert reminders == first;
    var pattern := AnalyzeSavingPattern(txs);
    ghost var habitual := pattern.Some? && Weekday(now) == pattern.value.day && !prefs.disablePattern
                          && !HasTransactionOn(txs, DayOf(now));
    if pattern.Some? && Weekday(now) == pattern.value.day && !prefs.disablePattern {
      var hasTransactionToday := HasTransactionOn(txs, DayOf(now));
      if !hasTransactionToday {
        reminders := reminders + [Reminder(PatternReminder, High, None)];
      }
    }
    assert reminders == first + (if habitual then [Reminder(PatternReminder, High, None)] else []);
    var deadlines := CheckDeadlines(goals, now);
    reminders := PushDeadlineReminders(reminders, deadlines, prefs.disableDeadlines);
    if CheckStreakRisk(txs, streak, now) && !prefs.disableStreak {
      reminders := reminders + [Reminder(StreakRiskReminder, High, None)];
    }
  }

  /** One reminder per deadline, in order. */
  function DeadlineReminders(deadlines: seq<Deadline>): (r: seq<Reminder>)
    ensures |r| == |deadlines|
    ensures forall i :: 0 <= i < |r| ==>
      r[i].kind == DeadlineReminder && r[i].goalId == Some(deadlines[i].goal.id)
      && (r[i].priority == High <==> deadlines[i].isAtRisk)
  {
    seq(|deadlines|, i requires 0 <= i < |deadlines| => DeadlineReminderOf(deadlines[i]))
  }

  /** The `deadlines.forEach` that pushes a reminder per deadline unless
      deadlines are switched off. */
  method PushDeadlineReminders(reminders: seq<Reminder>, deadlines: seq<Deadline>, disabled: bool)
    returns (r: seq<Reminder>)
    ensures r == reminders + (if disabled then [] else DeadlineReminders(deadlines))
  {
    r := reminders;
    var i := 0;
    while i < |deadlines|
      invariant 0 <= i <= |deadlines|
      invariant r == reminders + (if disabled then [] else DeadlineReminders(deadlines[..i]))
    {
      if !disabled {
        assert DeadlineReminders(deadlines[..i + 1]) == DeadlineReminders(deadlines[..i]) + [DeadlineReminderOf(deadlines[i])];
        r := r + [DeadlineReminderOf(deadlines[i])];
      }
      i := i + 1;
    }
    assert deadlines[..i] == deadlines;
  }

  const DefaultCooldownHours: int := 24

  /** `shouldShowReminder(type, lastShown, cooldownHours)`: always when never
      shown, otherwise once the cooldown has fully passed. */
  function ShouldShowReminder(lastShown: Option<int>, cooldownHours: int, now: int): (b: bool)
    ensures b <==> lastShown.None? || now - lastShown.value >= cooldownHours * HourMs
  {
    if lastShown.None? then true
    else
      var hoursSince := (now - lastShown.value) as real / HourMs as real;
      assert hoursSince * HourMs as real == (now - lastShown.value) as real;
      hoursSince >= cooldownHours as real
  }
}
