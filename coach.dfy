/** The integer parts of the savings coach: the priority order of its
    insights, its own streak count (which, unlike the store's, starts from
    today), the short-history answer of the frequency analysis, the streak
    insight and the best saving day. */
module Coach {
  import opened Common
  import opened Domain
  import opened Sorting
  import opened Streaks

  /** An insight, reduced to what the order and the tests look at. */
  datatype Insight = Insight(kind: string, priority: Priority, title: string)

  /** `{ high: 3, medium: 2, low: 1 }`. */
  function Rank(p: Priority): (n: int)
    ensures 1 <= n <= 3
    ensures (p == High <==> n == 3) && (p == Low <==> n == 1)
  {
    match p
    case High => 3
    case Medium => 2
    case Low => 1
  }

  function NegRank(i: Insight): int
  {
    -Rank(i.priority)
  }

  /** `insights.sort((a, b) => priority[b.priority] - priority[a.priority])`. */
  function OrderInsights(insights: seq<Insight>): seq<Insight>
  {
    SortBy(insights, NegRank)
  }

  /** The insights come out high first, then medium, then low, as a
      permutation of the input that keeps the generation order within each
      priority. */
  lemma OrderInsightsSpec(insights: seq<Insight>, p: Priority)
    ensures var r := OrderInsights(insights);
      && multiset(r) == multiset(insights)
      && (forall i, j :: 0 <= i < j < |r| ==> Rank(r[i].priority) >= Rank(r[j].priority))
      && KeyFilter(r, NegRank, -Rank(p)) == KeyFilter(insights, NegRank, -Rank(p))
  {
    SortByIsSorted(insights, NegRank);
    SortByPermutes(insights, NegRank);
    SortByStable(insights, NegRank, -Rank(p));
    var r := OrderInsights(insights);
    forall i, j | 0 <= i < j < |r| ensures Rank(r[i].priority) >= Rank(r[j].priority) {
      assert NegRank(r[i]) <= NegRank(r[j]);
    }
  }

  /** The coach's walk from the running day `current` over days newest
      first: a transaction on the running day counts and moves it back, one
      more than a day before it ends the walk, and any other (the day before,
      or a later day) is skipped. */
  function CoachWalk(days: seq<int>, current: int): (k: nat)
    ensures k <= |days|
  {
    if days == [] then 0
    else if current - days[0] == 0 then 1 + CoachWalk(days[1..], current - 1)
    else if current - days[0] > 1 then 0
    else CoachWalk(days[1..], current)
  }

  /** `calculateCurrentStreak(transactions)` at time `now`. */
  method CoachStreak(txs: seq<Transaction>, now: int) returns (streak: int)
    ensures streak == if txs == [] then 0 else CoachWalk(DaysNewestFirst(txs), DayOf(now))
  {
    if |txs| == 0 {
      return 0;
    }
    var sorted := NewestFirst(txs);
    streak := CoachWalkFrom(sorted, DayOf(now));
  }

  /** The counting loop of `calculateCurrentStreak`, from running day `start`. */
  method CoachWalkFrom(sorted: seq<Transaction>, start: int) returns (streak: int)
    ensures streak == CoachWalk(DaysOf(sorted), start)
  {
    ghost var days := DaysOf(sorted);
    var current := start;
    streak := 0;
    var i := 0;
    while i < |sorted|
      invariant 0 <= i <= |sorted|
      invariant streak + CoachWalk(days[i..], current) == CoachWalk(days, start)
    {
      var txDay := DayOf(sorted[i].date);
      var diff := current - txDay;
      assert days[i..][0] == txDay && days[i..][1..] == days[i + 1..];
      if diff == 0 {
        streak := streak + 1;
        current := current - 1;
      } else if diff > 1 {
        break;
      }
      i := i + 1;
    }
  }

  /** A positive walk needs a transaction on the starting day. */
  lemma {:induction false} CoachWalkNeedsStart(days: seq<int>, current: int)
    requires CoachWalk(days, current) > 0
    ensures current in days
  {
    if days[0] != current {
      CoachWalkNeedsStart(days[1..], current);
    }
  }

  /** On days newest first the walk is exactly the run of consecutive days
      back from the starting day: the `k` days `current`, `current - 1`, ...,
      `current - k + 1` all have a transaction and the day before them has
      none. */
  lemma {:induction false} CoachWalkIsRun(days: seq<int>, current: int)
    requires forall i, j :: 0 <= i < j < |days| ==> days[i] >= days[j]
    ensures var k := CoachWalk(days, current);
      (forall d :: current - k < d <= current ==> d in days) && current - k !in days
  {
    if days != [] {
      var tail := days[1..];
      var k := CoachWalk(days, current);
      if current - days[0] == 0 {
        CoachWalkIsRun(tail, current - 1);
        forall d | current - k < d <= current ensures d in days {
          if d < current {
            assert d in tail;
          }
        }
      } else if current - days[0] <= 1 {
        CoachWalkIsRun(tail, current);
        assert days[0] != current - k;
        forall d | current - k < d <= current ensures d in days {
          assert d in tail;
        }
      }
    }
  }

  /** The coach's streak is positive only with a transaction dated today,
      and it never exceeds the number of transactions. */
  lemma CoachStreakNeedsToday(txs: seq<Transaction>, now: int)
    requires txs != []
    ensures CoachWalk(DaysNewestFirst(txs), DayOf(now)) <= |txs|
    ensures CoachWalk(DaysNewestFirst(txs), DayOf(now)) > 0 ==>
      exists i :: 0 <= i < |txs| && DayOf(txs[i].date) == DayOf(now)
  {
    var days := DaysNewestFirst(txs);
    var sorted := NewestFirst(txs);
    if CoachWalk(days, DayOf(now)) > 0 {
      CoachWalkNeedsStart(days, DayOf(now));
      var m :| 0 <= m < |days| && days[m] == DayOf(now);
      assert sorted[m] in multiset(txs);
      var i :| 0 <= i < |txs| && txs[i] == sorted[m];
    }
  }

  /** `calculateSavingsFrequency` answers coefficient 1 for fewer than three
      transactions; the statistics it computes otherwise are not modelled. */
  function ShortHistoryCoefficient(txs: seq<Transaction>): (r: Option<real>)
    ensures r.Some? <==> |txs| < 3
    ensures r.Some? ==> r.value == 1.0
  {
    if |txs| < 3 then Some(1.0) else None
  }


  /** The streak insight, low priority, is produced only from seven days on. */
  function StreakInsight(currentStreak: int): (r: Option<Insight>)
    ensures r.Some? <==> currentStreak >= 7
    ensures r.Some? ==> r.value.priority == Low && r.value.kind == "positive"
  {
    if currentStreak >= 7 then Some(Insight("positive", Low, "Day Streak")) else None
  }

  /** `total / count`, or 0 when nothing was counted. */
  function Average(total: int, count: int): (r: real)
    ensures count > 0 && total >= 0 ==> r >= 0.0
    ensures count <= 0 ==> r == 0.0
  {
    if count > 0 then total as real / count as real else 0.0
  }

  /** The average of weekday `d`, 0 without transactions. */
  function DayAverage(txs: seq<Transaction>, d: int): real
  {
    Average(WeekdayTotal(txs, d), WeekdayCount(txs, d))
  }

  /** `overallAvg`: the mean amount of a non-empty history. */
  function OverallAverage(txs: seq<Transaction>): real
    requires |txs| > 0
  {
    TotalAmount(txs) as real / |txs| as real
  }

  /** For a positive divisor, a quotient is at most `a` exactly when the
      dividend is at most `a` times the divisor. */
  lemma QuotientAtMost(x: real, y: real, a: real)
    requires y > 0.0
    ensures x / y <= a <==> x <= a * y
  {
    assert x == (x / y) * y;
    if x / y <= a {
      assert (x / y) * y <= a * y;
    } else {
      assert (x / y) * y > a * y;
    }
  }

  /** A weekday whose average is at most `a` totals at most `a` per
      transaction. */
  lemma DayTotalBound(txs: seq<Transaction>, d: int, a: real)
    requires DayAverage(txs, d) <= a
    ensures WeekdayTotal(txs, d) as real <= a * WeekdayCount(txs, d) as real
  {
    if WeekdayCount(txs, d) == 0 {
      NoCountNoTotal(txs, d);
    } else {
      QuotientAtMost(WeekdayTotal(txs, d) as real, WeekdayCount(txs, d) as real, a);
    }
  }

  /** The overall mean is a weighted mean of the weekday averages, so it never
      exceeds the largest of them. */
  lemma OverallAtMostBest(txs: seq<Transaction>, best: int)
    requires |txs| > 0 && 0 <= best < 7
    requires forall d :: 0 <= d < 7 ==> DayAverage(txs, d) <= DayAverage(txs, best)
    ensures OverallAverage(txs) <= DayAverage(txs, best)
  {
    var a := DayAverage(txs, best);
    forall d | 0 <= d < 7
      ensures DayExcess(txs, d, a) <= 0.0
    {
      NoDayExcess(txs, d, a);
    }
    NoExcess(txs, a);
  }

  /** A weekday whose average is at most `a` exceeds it by nothing in total. */
  lemma NoDayExcess(txs: seq<Transaction>, d: int, a: real)
    requires DayAverage(txs, d) <= a
    ensures DayExcess(txs, d, a) <= 0.0
  {
    DayTotalBound(txs, d, a);
    DayExcessIs(txs, d, a);
    ScaledIs(a, WeekdayCount(txs, d));
  }

  /** No weekday exceeding `a` in total puts the mean at most `a`. */
  lemma NoExcess(txs: seq<Transaction>, a: real)
    requires |txs| > 0
    requires forall d :: 0 <= d < 7 ==> DayExcess(txs, d, a) <= 0.0
    ensures OverallAverage(txs) <= a
  {
    NoTotalExcess(txs, a);
    ExcessIs(txs, a);
    ScaledIs(a, |txs|);
    assert TotalAmount(txs) as real <= a * |txs| as real;
    QuotientAtMost(TotalAmount(txs) as real, |txs| as real, a);
  }

  /** No weekday exceeding `a` in total leaves no excess over all of them. */
  lemma NoTotalExcess(txs: seq<Transaction>, a: real)
    requires forall d :: 0 <= d < 7 ==> DayExcess(txs, d, a) <= 0.0
    ensures Excess(txs, a) <= 0.0
  {
    DayExcessesAddUp(txs, a);
  }

  /** How far the amounts exceed `a` each, summed. */
  function Excess(txs: seq<Transaction>, a: real): real
  {
    if txs == [] then 0.0 else Excess(txs[..|txs| - 1], a) + (txs[|txs| - 1].amount as real - a)
  }

  /** As `Excess`, over the transactions of weekday `d`. */
  function DayExcess(txs: seq<Transaction>, d: int, a: real): real
  {
    if txs == [] then 0.0
    else DayExcess(txs[..|txs| - 1], d, a)
         + (if Weekday(txs[|txs| - 1].date) == d then txs[|txs| - 1].amount as real - a else 0.0)
  }

  /** `a` added up `n` times. */
  function Scaled(a: real, n: nat): real
  {
    if n == 0 then 0.0 else Scaled(a, n - 1) + a
  }

  lemma ScaleStep(a: real, c: int)
    ensures a * (c + 1) as real == a * c as real + a
  {
  }

  lemma {:induction false} ScaledIs(a: real, n: nat)
    ensures Scaled(a, n) == a * n as real
  {
    if n > 0 {
      ScaledIs(a, n - 1);
      ScaleStep(a, n - 1);
    }
  }

  lemma {:induction false} ExcessIs(txs: seq<Transaction>, a: real)
    ensures Excess(txs, a) == TotalAmount(txs) as real - Scaled(a, |txs|)
  {
    if txs != [] {
      ExcessIs(txs[..|txs| - 1], a);
    }
  }

  lemma {:induction false} DayExcessIs(txs: seq<Transaction>, d: int, a: real)
    ensures DayExcess(txs, d, a) == WeekdayTotal(txs, d) as real - Scaled(a, WeekdayCount(txs, d))
  {
    if txs != [] {
      var init := txs[..|txs| - 1];
      DayExcessIs(init, d, a);
      if Weekday(txs[|txs| - 1].date) == d {
        assert WeekdayCount(txs, d) == WeekdayCount(init, d) + 1;
      } else {
        assert WeekdayCount(txs, d) == WeekdayCount(init, d);
      }
    }
  }

  lemma {:induction false} DayExcessesAddUp(txs: seq<Transaction>, a: real)
    ensures DayExcess(txs, 0, a) + DayExcess(txs, 1, a) + DayExcess(txs, 2, a) + DayExcess(txs, 3, a)
          + DayExcess(txs, 4, a) + DayExcess(txs, 5, a) + DayExcess(txs, 6, a) == Excess(txs, a)
  {
    if txs != [] {
      DayExcessesAddUp(txs[..|txs| - 1], a);
    }
  }



  /** The `dayTotals` / `dayCounts` pass of `findBestSavingDay`. */
  method TallyWeekdays(txs: seq<Transaction>) returns (totals: array<int>, counts: array<int>)
    ensures fresh(totals) && fresh(counts) && totals.Length == 7 && counts.Length == 7
    ensures forall d :: 0 <= d < 7 ==> counts[d] == WeekdayCount(txs, d) && totals[d] == WeekdayTotal(txs, d)
  {
    totals := new int[7](_ => 0);
    counts := new int[7](_ => 0);
    var i := 0;
    while i < |txs|
      invariant 0 <= i <= |txs|
      invariant forall d :: 0 <= d < 7 ==> counts[d] == WeekdayCount(txs[..i], d) && totals[d] == WeekdayTotal(txs[..i], d)
    {
      var day := Weekday(txs[i].date);
      assert txs[..i + 1][..i] == txs[..i];
      totals[day] := totals[day] + txs[i].amount;
      counts[day] := counts[day] + 1;
      i := i + 1;
    }
    assert txs[..i] == txs;
  }

  /** A value at least a positive mean lies a non-negative percentage above
      it, after rounding. */
  lemma PercentNotNegative(x: real, m: real)
    requires m > 0.0 && x >= m
    ensures Round((x - m) / m * 100.0) >= 0
  {
    assert (x - m) / m >= 0.0;
  }

  /** `findBestSavingDay(transactions)`: the weekday with the highest average
      (the first one on ties, since the reduce only moves on a strictly
      larger average), its transaction count, and the confidence
      `count / total`, absent (NaN) with no transactions; and `percentage`,
      how far the best day's average lies above the overall mean, in
      percent rounded half up, absent where the code divides by a zero mean
      (NaN or Infinity). */
  method BestSavingDay(txs: seq<Transaction>) returns (best: int, count: int, confidence: Option<real>,
                                                       percentage: Option<int>)
    ensures 0 <= best < 7 && count == WeekdayCount(txs, best)
    ensures forall d :: 0 <= d < 7 ==> DayAverage(txs, d) <= DayAverage(txs, best)
    ensures forall d :: 0 <= d < best ==> DayAverage(txs, d) < DayAverage(txs, best)
    ensures confidence.Some? <==> |txs| > 0
    ensures confidence.Some? ==> 0.0 <= confidence.value <= 1.0
                                 && confidence.value == count as real / |txs| as real
    ensures percentage.Some? <==> |txs| > 0 && TotalAmount(txs) != 0
    ensures percentage.Some? ==>
      percentage.value == Round((DayAverage(txs, best) - OverallAverage(txs)) / OverallAverage(txs) * 100.0)
    ensures percentage.Some? && TotalAmount(txs) > 0 ==> percentage.value >= 0
  {
    var totals, counts := TallyWeekdays(txs);
    best := 0;
    var d := 1;
    while d < 7
      invariant 1 <= d <= 7 && 0 <= best < d
      invariant forall e :: 0 <= e < d ==> DayAverage(txs, e) <= DayAverage(txs, best)
      invariant forall e :: 0 <= e < best ==> DayAverage(txs, e) < DayAverage(txs, best)
    {
      if Average(totals[d], counts[d]) > Average(totals[best], counts[best]) {
        best := d;
      }
      d := d + 1;
    }
    count := counts[best];
    confidence := DayConfidence(txs, best, count);
    percentage := DayPercentage(txs, best, Average(totals[best], counts[best]));
  }

  /** The `confidence` figure of `findBestSavingDay`: the share of all
      transactions that fall on the chosen day, `count` of them. */
  method DayConfidence(txs: seq<Transaction>, best: int, count: int) returns (confidence: Option<real>)
    requires 0 <= best < 7 && count == WeekdayCount(txs, best)
    ensures confidence.Some? <==> |txs| > 0
    ensures confidence.Some? ==> 0.0 <= confidence.value <= 1.0
                                 && confidence.value == count as real / |txs| as real
  {
    if |txs| == 0 {
      confidence := None;
    } else {
      confidence := Some(count as real / |txs| as real);
    }
  }

  /** The `percentage` figure of `findBestSavingDay`: how far the chosen
      day's average `bestAvg` lies above the overall mean, in percent. */
  method DayPercentage(txs: seq<Transaction>, best: int, bestAvg: real) returns (percentage: Option<int>)
    requires 0 <= best < 7 && bestAvg == DayAverage(txs, best)
    requires forall d :: 0 <= d < 7 ==> DayAverage(txs, d) <= DayAverage(txs, best)
    ensures percentage.Some? <==> |txs| > 0 && TotalAmount(txs) != 0
    ensures percentage.Some? ==>
      percentage.value == Round((DayAverage(txs, best) - OverallAverage(txs)) / OverallAverage(txs) * 100.0)
    ensures percentage.Some? && TotalAmount(txs) > 0 ==> percentage.value >= 0
  {
    if |txs| == 0 || TotalAmount(txs) == 0 {
      percentage := None;
    } else {
      var overall := OverallAverage(txs);
      percentage := Some(Round((bestAvg - overall) / overall * 100.0));
      if TotalAmount(txs) > 0 {
        assert percentage.value >= 0 by {
          OverallAtMostBest(txs, best);
          PercentNotNegative(bestAvg, overall);
        }
      }
    }
  }
}
