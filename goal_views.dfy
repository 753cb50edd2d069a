/** What the goal detail view and the dashboard derive from the active goal:
    the saved total, the progress percentage and its level badge, what is
    left to save, the time left, and the goal's transaction history. */
module GoalViews {
  import opened Common
  import opened Domain
  import opened Text
  import opened Lists
  import opened Streaks

  /** A JavaScript number as `Math.min(saved / target * 100, 100)` can yield
      it: a finite value, or `NaN` / `-Infinity` for a zero target. */
  datatype Percent = Finite(p: real) | NaN | NegInfinity

  /** `Math.min((totalSaved / targetAmount) * 100, 100)`.  A zero target
      divides to `+Infinity` (capped at 100), `NaN` or `-Infinity` by the sign
      of the saved total. */
  function Progress(saved: int, target: int): Percent
  {
    if target != 0 then Finite(MinReal(saved as real * 100.0 / target as real, 100.0))
    else if saved > 0 then Finite(100.0)
    else if saved == 0 then NaN
    else NegInfinity
  }

  /** The progress is a number unless the target is 0 and nothing is saved
      (or less); for a positive target it is capped at 100, reaches 100
      exactly when the saved total reaches the target, is exactly the share
      in percent below that, and is not negative when nothing negative was
      saved. */
  lemma ProgressSpec(saved: int, target: int)
    ensures Progress(saved, target).Finite? <==> (target != 0 || saved > 0)
    ensures target > 0 ==>
      var p := Progress(saved, target).p;
      p <= 100.0 && (saved >= 0 ==> p >= 0.0) && (p == 100.0 <==> saved >= target)
      && (saved < target ==> p * target as real == 100.0 * saved as real)
  {
    if target > 0 {
      var q := saved as real * 100.0 / target as real;
      assert q * target as real == 100.0 * saved as real;
      RatioCompare(saved as real * 100.0, target as real, 100.0);
      RatioCompare(saved as real * 100.0, target as real, 0.0);
    }
  }

  /** `goal.targetAmount - totalSaved`: negative once the goal is overpaid. */
  function Remaining(g: Goal): int
  {
    g.targetAmount - PaidTotal(g.savingsPlan)
  }

  /** Only paid bits count towards the saved total, and for a positive target
      the progress shows 100 exactly when nothing remains to be saved. */
  lemma RemainingSpec(g: Goal)
    ensures Remaining(g) + PaidTotal(g.savingsPlan) == g.targetAmount
    ensures PaidCount(g.savingsPlan) == 0 ==> Remaining(g) == g.targetAmount
    ensures g.targetAmount > 0 ==>
      (Progress(PaidTotal(g.savingsPlan), g.targetAmount) == Finite(100.0) <==> Remaining(g) <= 0)
  {
    if PaidCount(g.savingsPlan) == 0 {
      NothingPaid(g.savingsPlan);
    }
    ProgressSpec(PaidTotal(g.savingsPlan), g.targetAmount);
  }

  lemma {:induction false} NothingPaid(plan: seq<Bit>)
    requires PaidCount(plan) == 0
    ensures PaidTotal(plan) == 0
  {
    if plan != [] {
      NothingPaid(plan[..|plan| - 1]);
    }
  }

  /** The dashboard shows the same progress: with a positive target, the
      goal shows 100 exactly when its paid bits add up to the target. */
  lemma DashboardProgress(g: Goal)
    requires g.targetAmount > 0
    ensures Progress(PaidTotal(g.savingsPlan), g.targetAmount) == Finite(100.0)
        <==> PaidTotal(g.savingsPlan) >= g.targetAmount
    ensures PaidCount(g.savingsPlan) == |g.savingsPlan| && PlanTotal(g.savingsPlan) >= g.targetAmount
        && (forall i :: 0 <= i < |g.savingsPlan| ==> g.savingsPlan[i].amount >= 0)
        ==> Progress(PaidTotal(g.savingsPlan), g.targetAmount) == Finite(100.0)
  {
    ProgressSpec(PaidTotal(g.savingsPlan), g.targetAmount);
    if forall i :: 0 <= i < |g.savingsPlan| ==> g.savingsPlan[i].amount >= 0 {
      PaidTotalBounds(g.savingsPlan);
    }
  }

  /** `Math.floor(progress / 20) + 1`, the level on the goal's badge. */
  function LevelBadge(progress: real): int
  {
    (progress / 20.0).Floor + 1
  }

  /** Over the range progress takes, the badge reads 1 to 6, never goes down
      as progress grows, and reads 6 only at 100. */
  lemma LevelBadgeRange(p: real, p': real)
    requires 0.0 <= p <= p' <= 100.0
    ensures 1 <= LevelBadge(p) <= LevelBadge(p') <= 6
    ensures LevelBadge(p) == 6 <==> p == 100.0
  {
    var x, x' := p / 20.0, p' / 20.0;
    assert 0.0 <= x <= x' <= 5.0;
    assert x == 5.0 <==> p == 100.0;
  }

  /** `Math.ceil((endDate - now) / day)`. */
  function DaysLeft(g: Goal, addMonths: (int, int) -> int, now: int): int
  {
    CeilDiv(GoalEndTime(g, addMonths) - now, DayMs)
  }

  /** The detail view's `getTimeLeft()`: `None` is "Done", otherwise the day
      count. */
  function DetailTimeLeft(g: Goal, addMonths: (int, int) -> int, now: int): Option<int>
  {
    var d := DaysLeft(g, addMonths, now);
    if d < 0 then None else Some(d)
  }

  /** A ceiling quotient is negative exactly when the dividend is at most
      minus the divisor. */
  lemma CeilNegative(a: int, b: int)
    requires b > 0
    ensures CeilDiv(a, b) < 0 <==> a <= -b
  {
    var q := CeilDiv(a, b);
    if q < 0 {
      assert q * b <= -b;
    } else {
      assert (q - 1) * b >= -b;
    }
  }

  /** "Done" shows once the end lies a whole day or more in the past (less
      than a day past still counts 0 days); otherwise the count is the number
      of started days until the end. */
  lemma DetailTimeLeftSpec(g: Goal, addMonths: (int, int) -> int, now: int)
    ensures var diff := GoalEndTime(g, addMonths) - now;
      (DetailTimeLeft(g, addMonths, now).None? <==> diff <= -DayMs)
      && (DetailTimeLeft(g, addMonths, now).Some? ==>
            var d := DetailTimeLeft(g, addMonths, now).value;
            d >= 0 && (d - 1) * DayMs < diff <= d * DayMs)
  {
    CeilNegative(GoalEndTime(g, addMonths) - now, DayMs);
  }

  /** The dashboard's `getTimeLeft()` text. */
  function DashboardTimeLeft(g: Goal, addMonths: (int, int) -> int, now: int): string
  {
    var d := DaysLeft(g, addMonths, now);
    if d < 0 then "Finished"
    else if d > 365 then IntToString(d / 365) + " Years left"
    else IntToString(d) + " Days left"
  }

  lemma FinishedIsNotANumber()
    ensures ParseInt("Finished") == None
  {
    assert TrimStart("Finished") == "Finished";
    assert DigitRun("Finished") == 0;
  }

  /** The dashboard text agrees with the detail view: "Finished" exactly when
      the detail view says "Done"; otherwise its leading number reads back as
      the day count, or as the whole years in it beyond 365 days. */
  lemma DashboardAgreesWithDetail(g: Goal, addMonths: (int, int) -> int, now: int)
    ensures var text := DashboardTimeLeft(g, addMonths, now);
      var detail := DetailTimeLeft(g, addMonths, now);
      (text == "Finished" <==> detail.None?)
      && (detail.Some? && detail.value <= 365 ==>
            ParseInt(text) == Some(detail.value) && text[|text| - 10..] == " Days left")
      && (detail.Some? && detail.value > 365 ==>
            ParseInt(text) == Some(detail.value / 365) && detail.value / 365 >= 1
            && text[|text| - 11..] == " Years left")
  {
    var d := DaysLeft(g, addMonths, now);
    var text := DashboardTimeLeft(g, addMonths, now);
    FinishedIsNotANumber();
    if d > 365 {
      ParseIntRoundTrip(d / 365, " Years left");
    } else if d >= 0 {
      ParseIntRoundTrip(d, " Days left");
    }
  }

  /** `tx.description?.includes(goal.name)`. */
  predicate MentionsGoal(name: string, tx: Transaction)
  {
    tx.description.Some? && Includes(tx.description.value, name)
  }

  /** `goalTransactions`: the transactions naming the goal in their
      description, newest first. */
  function GoalTransactions(txs: seq<Transaction>, name: string): seq<Transaction>
  {
    NewestFirst(Filter(txs, (tx: Transaction) => MentionsGoal(name, tx)))
  }

  /** The history holds exactly the transactions whose description contains
      the goal's name (each as often as in the input), ordered by date from
      the newest. */
  lemma GoalTransactionsSpec(txs: seq<Transaction>, name: string)
    ensures var h := GoalTransactions(txs, name);
      (forall tx :: tx in h <==> tx in txs && tx.description.Some?
                                 && Contains(tx.description.value, name))
      && multiset(h) == multiset(Filter(txs, (tx: Transaction) => MentionsGoal(name, tx)))
      && forall i, j :: 0 <= i < j < |h| ==> h[i].date >= h[j].date
  {
    var f := Filter(txs, (tx: Transaction) => MentionsGoal(name, tx));
    FilterMembers(txs, (tx: Transaction) => MentionsGoal(name, tx));
    var h := NewestFirst(f);
    forall tx ensures tx in h <==> tx in f {
      assert tx in h <==> tx in multiset(h);
      assert tx in f <==> tx in multiset(f);
    }
  }
}
