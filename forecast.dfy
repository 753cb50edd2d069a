/** The savings forecast: a daily deposit rate measured over the last thirty
    days, projected month by month until the goals' total target is reached
    or a year has passed. */
module Forecast {
  import opened Common
  import opened Domain
  import opened Lists

  /** A deposit made inside the window. */
  predicate RecentDeposit(tx: Transaction, windowStart: int)
  {
    tx.date >= windowStart && tx.kind == "deposit"
  }

  function RecentDeposits(txs: seq<Transaction>, windowStart: int): seq<Transaction>
  {
    Filter(txs, tx => RecentDeposit(tx, windowStart))
  }

  /** The window's length in days, at least one. */
  function WindowDays(now: int, windowStart: int): (d: real)
    ensures d >= 1.0
  {
    MaxReal(1.0, (now - windowStart) as real / DayMs as real)
  }

  /** Rupees per day: recent deposits over the window's length. `windowStart`
      is the same clock time thirty calendar days before `now`. */
  function DailyRate(txs: seq<Transaction>, now: int, windowStart: int): real
  {
    TotalAmount(RecentDeposits(txs, windowStart)) as real / WindowDays(now, windowStart)
  }

  /** What a month adds to the projection: thirty days at the daily rate. */
  function MonthlyStep(txs: seq<Transaction>, now: int, windowStart: int): real
  {
    DailyRate(txs, now, windowStart) * 30.0
  }

  /** The projected amount after `k` monthly steps of `step`. */
  function Projected(start: int, step: real, k: int): real
  {
    start as real + k as real * step
  }

  /** The date after `k` calls of `setMonth(getMonth() + 1)`. */
  function MonthsLater(addMonths: (int, int) -> int, t: int, k: nat): int
  {
    if k == 0 then t else addMonths(MonthsLater(addMonths, t, k - 1), 1)
  }

  /** The projection after `k` months is still below the total target. */
  predicate ShortOf(goals: seq<Goal>, step: real, k: int)
  {
    Projected(TotalPaid(goals), step, k) < TotalTarget(goals) as real
  }

  datatype Point = Point(date: int, amount: int, target: int)

  /** The point of month `k`. */
  function PointAt(goals: seq<Goal>, step: real, now: int, addMonths: (int, int) -> int, k: nat): Point
  {
    Point(MonthsLater(addMonths, now, k), Round(Projected(TotalPaid(goals), step, k)), TotalTarget(goals))
  }

  /** `forecastData`: empty with fewer than two transactions or no recent
      deposits; otherwise the start point and then one point a month while
      the projection stays below the total target, for at most twelve
      months. */
  method ForecastData(goals: seq<Goal>, txs: seq<Transaction>, now: int, windowStart: int,
                      addMonths: (int, int) -> int) returns (points: seq<Point>)
    ensures |txs| < 2 || DailyRate(txs, now, windowStart) == 0.0 <==> points == []
    ensures |points| <= 13
    ensures forall k :: 0 <= k < |points| ==>
      points[k] == PointAt(goals, MonthlyStep(txs, now, windowStart), now, addMonths, k)
    ensures forall k :: 0 <= k < |points| - 1 ==> ShortOf(goals, MonthlyStep(txs, now, windowStart), k)
    ensures points != [] && |points| < 13 ==> !ShortOf(goals, MonthlyStep(txs, now, windowStart), |points| - 1)
  {
    if |txs| < 2 {
      return [];
    }
    var recentSavings := TotalAmount(RecentDeposits(txs, windowStart));
    var dailyRate := recentSavings as real / WindowDays(now, windowStart);
    if dailyRate == 0.0 {
      return [];
    }
    var currentTotal := TotalPaid(goals);
    var totalTarget := TotalTarget(goals);
    var step := dailyRate * 30.0;
    var projected := currentTotal as real;
    var currentDate := now;
    points := [Point(currentDate, Round(projected), totalTarget)];
    var loops := 0;
    while projected < totalTarget as real && loops < 12
      invariant 0 <= loops <= 12 && |points| == loops + 1
      invariant projected == Projected(currentTotal, step, loops)
      invariant currentDate == MonthsLater(addMonths, now, loops)
      invariant forall k :: 0 <= k < |points| ==> points[k] == PointAt(goals, step, now, addMonths, k)
      invariant forall k :: 0 <= k < loops ==> ShortOf(goals, step, k)
      decreases 12 - loops
    {
      ProjectedStep(currentTotal, step, loops);
      loops := loops + 1;
      currentDate := addMonths(currentDate, 1);
      projected := projected + step;
      points := points + [Point(currentDate, Round(projected), totalTarget)];
    }
  }

  /** One more month adds one step. */
  lemma ProjectedStep(start: int, step: real, k: int)
    ensures Projected(start, step, k + 1) == Projected(start, step, k) + step
  {
    assert (k + 1) as real * step == k as real * step + step;
  }

  lemma RoundMonotone(x: real, y: real)
    requires x <= y
    ensures Round(x) <= Round(y)
  {
  }

  /** With a positive rate the forecast amounts never decrease. */
  lemma ForecastNondecreasing(goals: seq<Goal>, step: real, now: int, addMonths: (int, int) -> int, j: nat, k: nat)
    requires step > 0.0 && j <= k
    ensures PointAt(goals, step, now, addMonths, j).amount <= PointAt(goals, step, now, addMonths, k).amount
  {
    var start := TotalPaid(goals);
    assert (k - j) as real * step >= 0.0;
    assert Projected(start, step, k) == Projected(start, step, j) + (k - j) as real * step;
    RoundMonotone(Projected(start, step, j), Projected(start, step, k));
  }

  /** Only `'deposit'` transactions move the rate: adding a transaction of
      any other kind, such as a `'debit'` payment, leaves it as it was. */
  lemma RateIgnoresOtherKinds(txs: seq<Transaction>, tx: Transaction, now: int, windowStart: int)
    requires tx.kind != "deposit"
    ensures DailyRate(txs + [tx], now, windowStart) == DailyRate(txs, now, windowStart)
  {
    FilterAppend(txs, [tx], t => RecentDeposit(t, windowStart));
    assert RecentDeposits([tx], windowStart) == [];
    assert RecentDeposits(txs + [tx], windowStart) == RecentDeposits(txs, windowStart);
  }

  /** A window of exactly thirty days divides by thirty. */
  lemma ThirtyDayWindow(txs: seq<Transaction>, now: int)
    ensures DailyRate(txs, now, now - 30 * DayMs)
      == TotalAmount(RecentDeposits(txs, now - 30 * DayMs)) as real / 30.0
  {
    assert (now - (now - 30 * DayMs)) as real / DayMs as real == 30.0;
  }
}
