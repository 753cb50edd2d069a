/** The analytics page: the balance trend over time (downsampled to at most
    twenty points), the distribution of savings over goals, the deposits and
    withdrawals per calendar month, and the key metrics. */
module Analytics {
  import opened Common
  import opened Domain
  import opened Lists
  import opened Sorting
  import opened Calendar

  /** How a transaction moves the trend: deposits add, withdrawals subtract,
      and every other kind (a `'debit'` payment included) leaves it. */
  function Signed(tx: Transaction): int
  {
    if tx.kind == "deposit" then tx.amount
    else if tx.kind == "withdraw" then -tx.amount
    else 0
  }

  function DateKey(tx: Transaction): int
  {
    tx.date
  }

  /** The transactions oldest first (a stable sort by date). */
  function Chronological(txs: seq<Transaction>): seq<Transaction>
  {
    SortBy(txs, DateKey)
  }

  /** The sorted history is a permutation of the transactions, oldest
      first. */
  lemma ChronologicalSpec(txs: seq<Transaction>)
    ensures var r := Chronological(txs);
      multiset(r) == multiset(txs)
      && forall i, j :: 0 <= i < j < |r| ==> r[i].date <= r[j].date
  {
    SortByIsSorted(txs, DateKey);
    SortByPermutes(txs, DateKey);
    var r := SortBy(txs, DateKey);
    assert forall i, j :: 0 <= i < j < |r| ==> DateKey(r[i]) <= DateKey(r[j]);
  }

  /** A point's label: the "Start" of an empty history, or a day. */
  datatype Label = Start | On(date: int)

  datatype TrendPoint = TrendPoint(at: Label, balance: int)

  /** The points before downsampling: a zero point dated like the first
      transaction, then the running balance after each transaction. */
  function RawTrend(sorted: seq<Transaction>): (r: seq<TrendPoint>)
    requires sorted != []
    ensures |r| == |sorted| + 1
  {
    [TrendPoint(On(sorted[0].date), 0)]
    + seq(|sorted|, k requires 0 <= k < |sorted| => TrendPoint(On(sorted[k].date), SumBy(sorted[..k + 1], Signed)))
  }

  /** The point after transaction `k`: its date and the balance so far. */
  lemma RawTrendAt(sorted: seq<Transaction>, k: int)
    requires 0 <= k < |sorted|
    ensures RawTrend(sorted)[0] == TrendPoint(On(sorted[0].date), 0)
    ensures RawTrend(sorted)[k + 1] == TrendPoint(On(sorted[k].date), SumBy(sorted[..k], Signed) + Signed(sorted[k]))
  {
    SumByPrefixStep(sorted, k, Signed);
  }

  /** `dataPoints.filter((_, i) => i % step === 0)`: the points at the
      multiples of `step`. */
  function EveryNth<T>(points: seq<T>, step: int): (r: seq<T>)
    requires step > 0
    ensures |r| == CeilDiv(|points|, step)
    ensures forall j :: 0 <= j < |r| ==> j * step < |points| && r[j] == points[j * step]
  {
    var q := CeilDiv(|points|, step);
    MultiplesBelow(|points|, step);
    seq(q, j requires 0 <= j < q => points[j * step])
  }

  lemma MultiplesBelow(n: int, step: int)
    requires step > 0
    ensures forall j :: 0 <= j < CeilDiv(n, step) ==> j * step < n
  {
    var q := CeilDiv(n, step);
    forall j | 0 <= j < q
      ensures j * step < n
    {
      MulMonotone(j, q - 1, step);
    }
  }

  /** The limit on the number of points. */
  function Downsample<T>(points: seq<T>): seq<T>
  {
    if |points| > 20 then EveryNth(points, CeilDiv(|points|, 20)) else points
  }

  /** The step `⌈n/20⌉` leaves at most twenty multiples below `n`. */
  lemma StepLeavesTwenty(n: int)
    requires n > 20
    ensures CeilDiv(n, CeilDiv(n, 20)) <= 20
  {
    var step := CeilDiv(n, 20);
    var q := CeilDiv(n, step);
    if q > 20 {
      MulMonotone(20, q - 1, step);
      assert false;
    }
  }

  /** A multiple of `step` below `n` is one of the first `⌈n/step⌉`. */
  lemma MultipleIndex(n: int, step: int, i: int)
    requires step > 0 && 0 <= i < n && i % step == 0
    ensures i / step < CeilDiv(n, step) && (i / step) * step == i
  {
    var q := CeilDiv(n, step);
    if i / step >= q {
      MulMonotone(q, i / step, step);
      assert false;
    }
  }

  /** Downsampling keeps at most twenty points, the first one among them,
      and exactly the points whose index is a multiple of the step. */
  lemma DownsampleSpec<T>(points: seq<T>)
    requires |points| > 20
    ensures var step := CeilDiv(|points|, 20);
      var r := Downsample(points);
      |r| <= 20 && r != [] && r[0] == points[0]
      && (forall i :: 0 <= i < |points| && i % step == 0 ==> i / step < |r| && r[i / step] == points[i])
  {
    var n := |points|;
    var step := CeilDiv(n, 20);
    var r := EveryNth(points, step);
    assert Downsample(points) == r;
    StepLeavesTwenty(n);
    MultipleIndex(n, step, 0);
    forall i | 0 <= i < n && i % step == 0
      ensures i / step < |r| && r[i / step] == points[i]
    {
      MultipleIndex(n, step, i);
    }
  }

  /** `trendData`. */
  method TrendData(txs: seq<Transaction>) returns (points: seq<TrendPoint>)
    ensures txs == [] ==> points == [TrendPoint(Start, 0)]
    ensures txs != [] ==> points == Downsample(RawTrend(Chronological(txs)))
  {
    var sortedTx := Chronological(txs);
    if sortedTx == [] {
      SortByPermutes(txs, DateKey);
      assert |txs| == |multiset(sortedTx)| == 0;
      return [TrendPoint(Start, 0)];
    }
    var currentBalance := 0;
    var dataPoints := [TrendPoint(On(sortedTx[0].date), 0)];
    for i := 0 to |sortedTx|
      invariant currentBalance == SumBy(sortedTx[..i], Signed)
      invariant |dataPoints| == i + 1
      invariant forall k :: 0 <= k <= i ==> dataPoints[k] == RawTrend(sortedTx)[k]
    {
      RawTrendAt(sortedTx, i);
      SumByPrefixStep(sortedTx, i, Signed);
      currentBalance := currentBalance + Signed(sortedTx[i]);
      dataPoints := dataPoints + [TrendPoint(On(sortedTx[i].date), currentBalance)];
    }
    assert dataPoints == RawTrend(sortedTx);
    points := Downsample(dataPoints);
  }

  /** The trend starts at zero, each point moves by its transaction, and the
      last point is the net of all deposits and withdrawals in whatever
      order they were recorded. */
  lemma RawTrendSpec(txs: seq<Transaction>)
    requires txs != []
    ensures var r := RawTrend(Chronological(txs));
      var sorted := Chronological(txs);
      r[0].balance == 0
      && (forall k :: 0 <= k < |sorted| ==> r[k + 1].balance == r[k].balance + Signed(sorted[k]))
      && r[|r| - 1].balance == SumBy(txs, Signed)
  {
    var sorted := Chronological(txs);
    var r := RawTrend(sorted);
    forall k | 0 <= k < |sorted|
      ensures r[k + 1].balance == r[k].balance + Signed(sorted[k])
    {
      RawTrendAt(sorted, k);
      if k == 0 {
        assert sorted[..0] == [];
      } else {
        RawTrendAt(sorted, k - 1);
        SumByPrefixStep(sorted, k - 1, Signed);
      }
    }
    assert sorted[..|sorted|] == sorted;
    SortByPermutes(txs, DateKey);
    SumByPermutation(sorted, txs, Signed);
  }

  /** One slice of the goal distribution chart. */
  datatype Slice = Slice(name: string, value: int)

  function SliceOf(g: Goal): Slice
  {
    Slice(g.name, PaidTotal(g.savingsPlan))
  }

  function NegValue(s: Slice): int
  {
    -s.value
  }

  /** The goals' slices with something saved, in goal order. */
  function SavedSlices(goals: seq<Goal>): seq<Slice>
  {
    Filter(seq(|goals|, i requires 0 <= i < |goals| => SliceOf(goals[i])), (s: Slice) => s.value > 0)
  }

  /** `distributionData`. */
  function Distribution(goals: seq<Goal>): seq<Slice>
  {
    SortBy(SavedSlices(goals), NegValue)
  }

  /** A slice has something saved exactly when its goal's paid total is
      positive. */
  lemma SavedSlicesMembers(goals: seq<Goal>)
    ensures forall s :: s in SavedSlices(goals) <==>
      exists i :: 0 <= i < |goals| && SliceOf(goals[i]) == s && s.value > 0
  {
    var all := seq(|goals|, i requires 0 <= i < |goals| => SliceOf(goals[i]));
    FilterMembers(all, (s: Slice) => s.value > 0);
    forall s
      ensures s in all <==> exists i :: 0 <= i < |goals| && SliceOf(goals[i]) == s
    {
      if s in all {
        var i :| 0 <= i < |all| && all[i] == s;
      }
      if exists i :: 0 <= i < |goals| && SliceOf(goals[i]) == s {
        var i :| 0 <= i < |goals| && SliceOf(goals[i]) == s;
        assert all[i] == s;
      }
    }
  }

  /** The chart shows one slice per goal with a positive paid total, and
      only those, largest first. */
  lemma DistributionSpec(goals: seq<Goal>)
    ensures var r := Distribution(goals);
      multiset(r) == multiset(SavedSlices(goals))
      && (forall s :: s in r <==> exists i :: 0 <= i < |goals| && SliceOf(goals[i]) == s && s.value > 0)
      && (forall i, j :: 0 <= i < j < |r| ==> r[i].value >= r[j].value)
  {
    var saved := SavedSlices(goals);
    var r := Distribution(goals);
    SortByIsSorted(saved, NegValue);
    SortByPermutes(saved, NegValue);
    SavedSlicesMembers(goals);
    SameMembers(r, saved);
    LargestFirst(r);
  }

  /** Sorted by the negated value is largest first. */
  lemma LargestFirst(r: seq<Slice>)
    requires SortedBy(r, NegValue)
    ensures forall i, j :: 0 <= i < j < |r| ==> r[i].value >= r[j].value
  {
    forall i, j | 0 <= i < j < |r|
      ensures r[i].value >= r[j].value
    {
      assert NegValue(r[i]) <= NegValue(r[j]);
    }
  }

  /** One month's bar: the month (0 for January) and what went in and out. */
  datatype MonthBar = MonthBar(month: int, deposits: int, withdrawals: int)

  /** The month key of a transaction: its local month, whatever the year. */
  function MonthKey(tx: Transaction, dateOf: int -> CivilDate): int
  {
    dateOf(tx.date).month
  }

  /** The months in the order their first transaction appears. */
  function MonthsSeen(txs: seq<Transaction>, dateOf: int -> CivilDate): (r: seq<int>)
    ensures forall i, j :: 0 <= i < j < |r| ==> r[i] != r[j]
    ensures forall m :: m in r <==> exists k :: 0 <= k < |txs| && MonthKey(txs[k], dateOf) == m
  {
    if txs == [] then []
    else
      var prev := MonthsSeen(txs[..|txs| - 1], dateOf);
      var m := MonthKey(txs[|txs| - 1], dateOf);
      assert forall k :: 0 <= k < |txs| - 1 ==> txs[..|txs| - 1][k] == txs[k];
      if m in prev then prev else prev + [m]
  }

  /** The deposits of month `m`, all years together. */
  function DepositsIn(txs: seq<Transaction>, dateOf: int -> CivilDate, m: int): int
  {
    if txs == [] then 0
    else
      var tx := txs[|txs| - 1];
      DepositsIn(txs[..|txs| - 1], dateOf, m)
      + (if MonthKey(tx, dateOf) == m && tx.kind == "deposit" then tx.amount else 0)
  }

  /** The withdrawals of month `m`, all years together. */
  function WithdrawalsIn(txs: seq<Transaction>, dateOf: int -> CivilDate, m: int): int
  {
    if txs == [] then 0
    else
      var tx := txs[|txs| - 1];
      WithdrawalsIn(txs[..|txs| - 1], dateOf, m)
      + (if MonthKey(tx, dateOf) == m && tx.kind == "withdraw" then tx.amount else 0)
  }

  /** Every month's bar, in first-seen order. */
  function MonthBars(txs: seq<Transaction>, dateOf: int -> CivilDate): (r: seq<MonthBar>)
    ensures |r| == |MonthsSeen(txs, dateOf)|
    ensures forall k :: 0 <= k < |r| ==> r[k].month == MonthsSeen(txs, dateOf)[k]
  {
    var seen := MonthsSeen(txs, dateOf);
    seq(|seen|, k requires 0 <= k < |seen| =>
      MonthBar(seen[k], DepositsIn(txs, dateOf, seen[k]), WithdrawalsIn(txs, dateOf, seen[k])))
  }

  /** `slice(-6)`. */
  function LastSix<T>(s: seq<T>): (r: seq<T>)
    ensures |r| <= 6 && |r| <= |s| && s == s[..|s| - |r|] + r
    ensures |s| <= 6 ==> r == s
  {
    if |s| > 6 then s[|s| - 6..] else s
  }

  /** A month no earlier transaction fell in has nothing yet. */
  lemma {:induction false} UnseenMonthEmpty(txs: seq<Transaction>, dateOf: int -> CivilDate, m: int)
    requires m !in MonthsSeen(txs, dateOf)
    ensures DepositsIn(txs, dateOf, m) == 0 && WithdrawalsIn(txs, dateOf, m) == 0
  {
    if txs != [] {
      var init := txs[..|txs| - 1];
      assert forall k :: 0 <= k < |init| ==> init[k] == txs[k];
      assert MonthKey(txs[|txs| - 1], dateOf) != m;
      UnseenMonthEmpty(init, dateOf, m);
    }
  }

  /** The bars as the loop has built them after the first `i` transactions. */
  ghost predicate BarsSoFar(months: map<int, MonthBar>, order: seq<int>, done: seq<Transaction>,
                            dateOf: int -> CivilDate)
  {
    order == MonthsSeen(done, dateOf)
    && (forall m :: m in months <==> m in order)
    && (forall m :: m in months ==>
          months[m] == MonthBar(m, DepositsIn(done, dateOf, m), WithdrawalsIn(done, dateOf, m)))
  }

  /** A transaction counted into its month's bar: deposits and withdrawals
      add up, any other kind leaves the bar as it is. */
  function Counted(bar: MonthBar, tx: Transaction): MonthBar
  {
    if tx.kind == "deposit" then bar.(deposits := bar.deposits + tx.amount)
    else if tx.kind == "withdraw" then bar.(withdrawals := bar.withdrawals + tx.amount)
    else bar
  }

  /** One `forEach` step keeps the bars up to date. */
  lemma BarsStep(months: map<int, MonthBar>, order: seq<int>, txs: seq<Transaction>, i: int,
                 dateOf: int -> CivilDate)
    requires 0 <= i < |txs|
    requires BarsSoFar(months, order, txs[..i], dateOf)
    ensures var tx := txs[i];
      var key := MonthKey(tx, dateOf);
      var order' := if key in months then order else order + [key];
      var bar := if key in months then months[key] else MonthBar(key, 0, 0);
      BarsSoFar(months[key := Counted(bar, tx)], order', txs[..i + 1], dateOf)
  {
    var done, tx := txs[..i + 1], txs[i];
    assert done[..i] == txs[..i] && done[i] == tx;
    var key := MonthKey(tx, dateOf);
    var order' := if key in months then order else order + [key];
    var bar := if key in months then months[key] else MonthBar(key, 0, 0);
    var months' := months[key := Counted(bar, tx)];
    assert order' == MonthsSeen(done, dateOf);
    assert forall m :: m in months' <==> m in order';
    if key !in months {
      UnseenMonthEmpty(txs[..i], dateOf, key);
    }
    forall m | m in months'
      ensures months'[m] == MonthBar(m, DepositsIn(done, dateOf, m), WithdrawalsIn(done, dateOf, m))
    {
      CountedInto(done, dateOf, m, if m == key then bar else months[m]);
    }
  }

  /** Counting the last transaction into a month's bar built from the ones
      before it gives that month's bar for all of them; another month's bar
      is unchanged. */
  lemma CountedInto(done: seq<Transaction>, dateOf: int -> CivilDate, m: int, bar: MonthBar)
    requires done != []
    requires var init := done[..|done| - 1];
      bar == MonthBar(m, DepositsIn(init, dateOf, m), WithdrawalsIn(init, dateOf, m))
    ensures var tx := done[|done| - 1];
      MonthKey(tx, dateOf) == m ==>
        Counted(bar, tx) == MonthBar(m, DepositsIn(done, dateOf, m), WithdrawalsIn(done, dateOf, m))
    ensures MonthKey(done[|done| - 1], dateOf) != m ==>
      bar == MonthBar(m, DepositsIn(done, dateOf, m), WithdrawalsIn(done, dateOf, m))
  {
  }

  /** Once every transaction is counted, reading the map in first-seen
      order gives the bars. */
  lemma BarsFinal(months: map<int, MonthBar>, order: seq<int>, txs: seq<Transaction>,
                  dateOf: int -> CivilDate)
    requires BarsSoFar(months, order, txs, dateOf)
    ensures forall k :: 0 <= k < |order| ==> order[k] in months
    ensures seq(|order|, k requires 0 <= k < |order| && order[k] in months => months[order[k]])
            == MonthBars(txs, dateOf)
  {
    forall k | 0 <= k < |order|
      ensures order[k] in months
    {
      assert order[k] in order;
    }
    var values := seq(|order|, k requires 0 <= k < |order| && order[k] in months => months[order[k]]);
    var all := MonthBars(txs, dateOf);
    forall k | 0 <= k < |order|
      ensures values[k] == all[k]
    {
      assert order[k] in order;
    }
  }

  /** `monthlyData`: one bar per month in the order the months first
      appear, the last six of them. */
  method MonthlyData(txs: seq<Transaction>, dateOf: int -> CivilDate) returns (bars: seq<MonthBar>)
    ensures bars == LastSix(MonthBars(txs, dateOf))
  {
    var months: map<int, MonthBar> := map[];
    var order: seq<int> := [];
    for i := 0 to |txs|
      invariant BarsSoFar(months, order, txs[..i], dateOf)
    {
      BarsStep(months, order, txs, i, dateOf);
      var tx := txs[i];
      var key := MonthKey(tx, dateOf);
      var bar := MonthBar(key, 0, 0);
      if key in months {
        bar := months[key];
      } else {
        order := order + [key];
      }
      months := months[key := Counted(bar, tx)];
    }
    assert txs[..|txs|] == txs;
    BarsFinal(months, order, txs, dateOf);
    bars := LastSix(seq(|order|, k requires 0 <= k < |order| && order[k] in months => months[order[k]]));
  }

  /** The chart holds at most six bars, for distinct months, each month's
      bar adding up that month's deposits and withdrawals. */
  lemma MonthlySpec(txs: seq<Transaction>, dateOf: int -> CivilDate)
    ensures var bars := LastSix(MonthBars(txs, dateOf));
      |bars| <= 6
      && (forall i, j :: 0 <= i < j < |bars| ==> bars[i].month != bars[j].month)
      && (forall b :: b in bars ==>
            (b.deposits == DepositsIn(txs, dateOf, b.month) && b.withdrawals == WithdrawalsIn(txs, dateOf, b.month)))
  {
    var all := MonthBars(txs, dateOf);
    MonthBarsSpec(txs, dateOf);
    LastSixKeeps(all, (b: MonthBar) => b.month,
                 (b: MonthBar) => b.deposits == DepositsIn(txs, dateOf, b.month)
                                  && b.withdrawals == WithdrawalsIn(txs, dateOf, b.month));
  }

  /** Every month's bar, before the cut: distinct months, each adding up
      that month's deposits and withdrawals. */
  lemma MonthBarsSpec(txs: seq<Transaction>, dateOf: int -> CivilDate)
    ensures var all := MonthBars(txs, dateOf);
      (forall i, j :: 0 <= i < j < |all| ==> all[i].month != all[j].month)
      && (forall b :: b in all ==>
            b.deposits == DepositsIn(txs, dateOf, b.month)
            && b.withdrawals == WithdrawalsIn(txs, dateOf, b.month))
  {
  }

  /** The cut keeps distinct keys distinct and a property every element
      has. */
  lemma LastSixKeeps<T>(s: seq<T>, key: T -> int, p: T -> bool)
    requires forall i, j :: 0 <= i < j < |s| ==> key(s[i]) != key(s[j])
    requires forall x :: x in s ==> p(x)
    ensures var r := LastSix(s);
      (forall i, j :: 0 <= i < j < |r| ==> key(r[i]) != key(r[j]))
      && (forall x :: x in r ==> p(x))
  {
    var r := LastSix(s);
    var off := |s| - |r|;
    assert forall i :: 0 <= i < |r| ==> r[i] == s[off + i];
  }

  /** With six months or fewer in the history, every month that has a
      transaction gets its bar. */
  lemma MonthlyComplete(txs: seq<Transaction>, dateOf: int -> CivilDate, k: int)
    requires |MonthsSeen(txs, dateOf)| <= 6 && 0 <= k < |txs|
    ensures exists b :: b in LastSix(MonthBars(txs, dateOf)) && b.month == MonthKey(txs[k], dateOf)
  {
    var seen := MonthsSeen(txs, dateOf);
    var all := MonthBars(txs, dateOf);
    var m := MonthKey(txs[k], dateOf);
    assert m in seen;
    var p :| 0 <= p < |seen| && seen[p] == m;
    assert all[p] in LastSix(all);
  }

  /** A ratio of a positive denominator reaches 1 exactly when the
      numerator reaches the denominator. */
  lemma RatioAtLeastOne(p: real, t: real)
    requires t > 0.0
    ensures p / t >= 1.0 <==> p >= t
  {
    RatioCompare(p, t, 1.0);
  }

  /** `progress` of the key metrics, in percent. */
  function OverallProgress(goals: seq<Goal>): real
  {
    var target := TotalTarget(goals);
    if target > 0 then TotalPaid(goals) as real / target as real * 100.0 else 0.0
  }

  /** `avgTransaction`: the mean amount, 0 without transactions. */
  function AverageAmount(txs: seq<Transaction>): real
  {
    if |txs| > 0 then TotalAmount(txs) as real / |txs| as real else 0.0
  }

  /** Progress is 0 without a positive total target and reaches 100 exactly
      when the paid total meets it; the mean times the count is the total. */
  lemma MetricsSpec(goals: seq<Goal>, txs: seq<Transaction>)
    ensures TotalTarget(goals) <= 0 ==> OverallProgress(goals) == 0.0
    ensures TotalTarget(goals) > 0 ==>
      (OverallProgress(goals) >= 100.0 <==> TotalPaid(goals) >= TotalTarget(goals))
    ensures AverageAmount(txs) * |txs| as real == TotalAmount(txs) as real
  {
    var target := TotalTarget(goals);
    if target > 0 {
      RatioAtLeastOne(TotalPaid(goals) as real, target as real);
    }
  }
}
