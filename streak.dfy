/** The savings streak of the store (`calculateStreak`): the transactions,
    newest first, are walked from the day of the latest one; every
    transaction on the running day counts and moves the running day back,
    one on the day just before it is skipped, and anything else ends the
    walk.  The streak is 0 when the latest transaction is more than one day
    before today. */
module Streaks {
  import opened Common
  import opened Domain
  import opened Sorting

  function NegDate(t: Transaction): int
  {
    -t.date
  }

  /** `[...transactions].sort((a, b) => new Date(b.date) - new Date(a.date))`. */
  function NewestFirst(txs: seq<Transaction>): (r: seq<Transaction>)
    ensures |r| == |txs| && multiset(r) == multiset(txs)
    ensures forall i, j :: 0 <= i < j < |r| ==> r[i].date >= r[j].date
  {
    SortByIsSorted(txs, NegDate);
    SortByPermutes(txs, NegDate);
    SortBy(txs, NegDate)
  }

  /** The day number of every transaction, in order. */
  function DaysOf(txs: seq<Transaction>): (r: seq<int>)
    ensures |r| == |txs|
    ensures forall i :: 0 <= i < |txs| ==> r[i] == DayOf(txs[i].date)
  {
    seq(|txs|, i requires 0 <= i < |txs| => DayOf(txs[i].date))
  }

  lemma DayOfMonotone(a: int, b: int)
    requires a <= b
    ensures DayOf(a) <= DayOf(b)
  {
  }

  /** Day numbers of the transactions, newest first: they never increase. */
  function DaysNewestFirst(txs: seq<Transaction>): (r: seq<int>)
    ensures r == DaysOf(NewestFirst(txs))
    ensures forall i, j :: 0 <= i < j < |r| ==> r[i] >= r[j]
  {
    var sorted := NewestFirst(txs);
    var r := DaysOf(sorted);
    assert forall i, j :: 0 <= i < j < |r| ==> r[i] >= r[j] by {
      forall i, j | 0 <= i < j < |r| ensures r[i] >= r[j] {
        DayOfMonotone(sorted[j].date, sorted[i].date);
      }
    }
    r
  }

  /** Length of the run `d, d - 1, d - 2, ...` at the head of `days`. */
  function PrefixRun(days: seq<int>, d: int): (k: nat)
    ensures k <= |days|
  {
    if days != [] && days[0] == d then 1 + PrefixRun(days[1..], d - 1) else 0
  }

  /** The streak: 0 with no transactions or when the latest is more than a
      day before today; otherwise the run of consecutive days, one
      transaction each, that starts at the latest transaction's day. */
  ghost function StreakSpec(txs: seq<Transaction>, now: int): nat
  {
    if txs == [] then 0
    else
      var days := DaysNewestFirst(txs);
      if DayOf(now) - days[0] > 1 then 0 else PrefixRun(days, days[0])
  }

  /** The walk the loop performs, from the running day `current`. */
  function Walk(days: seq<int>, current: int): nat
  {
    if days == [] then 0
    else if current - days[0] == 0 then 1 + Walk(days[1..], current - 1)
    else if current - days[0] == 1 then Walk(days[1..], current)
    else 0
  }

  /** `calculateStreak()` over the store's transactions at time `now`. */
  method CalculateStreak(txs: seq<Transaction>, now: int) returns (streak: int)
    ensures streak == StreakSpec(txs, now)
  {
    if |txs| == 0 {
      return 0;
    }
    var sorted := NewestFirst(txs);
    var today := DayOf(now);
    var lastTx := DayOf(sorted[0].date);
    if today - lastTx > 1 {
      return 0;
    }
    streak := WalkFrom(sorted, lastTx);
    WalkIsPrefixRun(DaysNewestFirst(txs), lastTx);
  }

  /** The counting loop of `calculateStreak`, from running day `start`. */
  method WalkFrom(sorted: seq<Transaction>, start: int) returns (streak: int)
    ensures streak == Walk(DaysOf(sorted), start)
  {
    ghost var days := DaysOf(sorted);
    streak := 0;
    var current := start;
    var i := 0;
    while i < |sorted|
      invariant 0 <= i <= |sorted|
      invariant streak + Walk(days[i..], current) == Walk(days, start)
    {
      var txDate := DayOf(sorted[i].date);
      var diff := current - txDate;
      assert days[i..][0] == txDate && days[i..][1..] == days[i + 1..];
      if diff == 0 {
        streak := streak + 1;
        current := current - 1;
      } else if diff == 1 {
      } else {
        break;
      }
      i := i + 1;
    }
  }

  /** Once every remaining day lies before the day preceding `current`,
      nothing more is counted. */
  lemma {:induction false} WalkBelowIsZero(days: seq<int>, current: int)
    requires forall i :: 0 <= i < |days| ==> days[i] <= current - 1
    ensures Walk(days, current) == 0
  {
    if days != [] && current - days[0] == 1 {
      WalkBelowIsZero(days[1..], current);
    }
  }

  /** On days newest first the walk counts exactly the head run. */
  lemma {:induction false} WalkIsPrefixRun(days: seq<int>, current: int)
    requires forall i, j :: 0 <= i < j < |days| ==> days[i] >= days[j]
    ensures Walk(days, current) == PrefixRun(days, current)
  {
    if days != [] {
      if days[0] == current {
        WalkIsPrefixRun(days[1..], current - 1);
      } else if current - days[0] == 1 {
        WalkBelowIsZero(days[1..], current);
      }
    }
  }

  /** The streak is positive exactly when some transaction is dated no
      earlier than yesterday. */
  lemma StreakPositiveIff(txs: seq<Transaction>, now: int)
    ensures StreakSpec(txs, now) > 0
        <==> exists i :: 0 <= i < |txs| && DayOf(now) - DayOf(txs[i].date) <= 1
  {
    if txs != [] {
      var sorted := NewestFirst(txs);
      var days := DaysNewestFirst(txs);
      assert sorted[0] in multiset(txs);
      var k :| 0 <= k < |txs| && txs[k] == sorted[0];
      if exists i :: 0 <= i < |txs| && DayOf(now) - DayOf(txs[i].date) <= 1 {
        var i :| 0 <= i < |txs| && DayOf(now) - DayOf(txs[i].date) <= 1;
        assert txs[i] in multiset(sorted);
        var j :| 0 <= j < |sorted| && sorted[j] == txs[i];
        DayOfMonotone(sorted[j].date, sorted[0].date);
      }
    }
  }

  /** The head run `d, d - 1, ...` consists of distinct days of `days`. */
  lemma {:induction false} PrefixRunValues(days: seq<int>, d: int)
    ensures forall m :: 0 <= m < PrefixRun(days, d) ==> days[m] == d - m
  {
    if days != [] && days[0] == d {
      PrefixRunValues(days[1..], d - 1);
    }
  }

  /** The integers `lo, ..., lo + k - 1`. */
  ghost function Range(lo: int, k: nat): (r: set<int>)
    ensures |r| == k
    ensures forall x :: x in r <==> lo <= x < lo + k
  {
    if k == 0 then {} else Range(lo, k - 1) + {lo + k - 1}
  }

  /** The distinct days on which transactions were made. */
  ghost function DaySet(txs: seq<Transaction>): set<int>
  {
    set i | 0 <= i < |txs| :: DayOf(txs[i].date)
  }

  /** The streak never exceeds the number of distinct transaction days. */
  lemma StreakAtMostDistinctDays(txs: seq<Transaction>, now: int)
    ensures StreakSpec(txs, now) <= |DaySet(txs)|
  {
    if txs != [] {
      var sorted := NewestFirst(txs);
      var days := DaysNewestFirst(txs);
      var k := PrefixRun(days, days[0]);
      PrefixRunValues(days, days[0]);
      var lo := days[0] - k + 1;
      var run := Range(lo, k);
      forall x | x in run ensures x in DaySet(txs) {
        var m := days[0] - x;
        assert days[m] == x;
        assert sorted[m] in multiset(txs);
        var j :| 0 <= j < |txs| && txs[j] == sorted[m];
      }
      SubsetCard(run, DaySet(txs));
    }
  }

  lemma SubsetCard<T>(a: set<T>, b: set<T>)
    requires a <= b
    ensures |a| <= |b|
  {
    assert b == a + (b - a);
  }

  /** A second transaction on the latest transaction's day ends the walk
      right after the first. */
  lemma SameDayEndsStreak(txs: seq<Transaction>, now: int)
    requires |txs| >= 2
    requires DaysNewestFirst(txs)[1] == DaysNewestFirst(txs)[0]
    ensures StreakSpec(txs, now) <= 1
  {
    var days := DaysNewestFirst(txs);
    assert days[1..][0] == days[0];
    assert PrefixRun(days[1..], days[0] - 1) == 0;
  }
}
