/** The Time Traveler page: the goal being simulated, its default monthly
    contribution, and a five-year month-by-month projection of the balance
    with the first month the target is met. */
module TimeTraveler {
  import opened Common
  import opened Domain
  import opened Lists

  /** The `<select>`'s value: the id the page starts with, or the text of
      the option the user picked. */
  datatype Selection = StartId(id: int) | Picked(value: string)

  /** The initial `currentGoal?.id || goals[0]?.id || 'hypothetical'`; an id
      of 0 is falsy. */
  function InitialSelection(currentGoal: Option<Goal>, goals: seq<Goal>): Selection
  {
    if currentGoal.Some? && currentGoal.value.id != 0 then StartId(currentGoal.value.id)
    else if goals != [] && goals[0].id != 0 then StartId(goals[0].id)
    else Picked("hypothetical")
  }

  /** `goals.find(g => g.id === selectedGoalId)`: a number never equals a
      string under `===`, so only the starting id can match. */
  function SelectedGoal(goals: seq<Goal>, sel: Selection): Option<Goal>
  {
    match sel
    case StartId(id) => Find(goals, (g: Goal) => g.id == id)
    case Picked(_) => Find(goals, (g: Goal) => false)
  }

  /** Picking any option from the dropdown selects no goal, so the page
      falls back to the hypothetical goal. */
  lemma PickedMatchesNothing(goals: seq<Goal>, value: string)
    ensures SelectedGoal(goals, Picked(value)).None?
  {
  }

  /** The starting id selects the first goal with that id, if there is one. */
  lemma StartIdSelects(goals: seq<Goal>, id: int)
    ensures SelectedGoal(goals, StartId(id)).Some? <==> exists i :: 0 <= i < |goals| && goals[i].id == id
    ensures SelectedGoal(goals, StartId(id)).Some? ==> SelectedGoal(goals, StartId(id)).value.id == id
  {
    var r := SelectedGoal(goals, StartId(id));
    if r.None? {
      forall i | 0 <= i < |goals| ensures goals[i].id != id {
        assert !((g: Goal) => g.id == id)(goals[i]);
      }
    }
  }

  /** `planAmount` scaled to a month: times 4 for weekly goals, 30 for daily
      ones, divided by 12 for yearly ones. */
  function BaseMonthly(g: Goal): real
    requires g.totalSlots != 0
  {
    var planAmount := g.targetAmount as real / g.totalSlots as real;
    match g.frequency
    case Weekly => planAmount * 4.0
    case Daily => planAmount * 30.0
    case Yearly => planAmount / 12.0
    case _ => planAmount
  }

  /** The effect run when the goal changes:
      `Math.round(baseMonthly / 100) * 100 || 1000`. `None` stands for the
      infinite contribution a goal of zero slots with a non-zero target
      gives; a zero target over zero slots is `NaN`, which falls back to
      1000. */
  function DefaultContribution(g: Goal): Option<int>
  {
    if g.totalSlots == 0 then
      (if g.targetAmount == 0 then Some(1000) else None)
    else
      var rounded := Round(BaseMonthly(g) / 100.0) * 100;
      Some(if rounded == 0 then 1000 else rounded)
  }

  /** The default is 1000 exactly when the monthly base rounds to zero
      hundreds, that is lies in [-50, 50); otherwise it is the base rounded
      to the nearest multiple of 100, halves going up. */
  lemma DefaultContributionSpec(g: Goal)
    requires g.totalSlots != 0
    ensures var c := DefaultContribution(g).value;
      var base := BaseMonthly(g);
      (c == 1000 <==> -50.0 <= base < 50.0 || 950.0 <= base < 1050.0)
      && (-50.0 <= base < 50.0 ==> c == 1000)
      && (!(-50.0 <= base < 50.0) ==> c % 100 == 0 && base - 50.0 < c as real <= base + 50.0)
  {
    var y := BaseMonthly(g) / 100.0;
    var n := Round(y);
    assert y * 100.0 == BaseMonthly(g);
    assert (n == 0) <==> -0.5 <= y < 0.5;
    assert (n == 10) <==> 9.5 <= y < 10.5;
  }

  /** One point of the chart. */
  datatype SimPoint = SimPoint(month: int, balance: int, target: int)

  /** The balance after `i` months. */
  function BalanceAt(start: int, contribution: int, i: int): int
  {
    start + i * contribution
  }

  /** The goal's paid total, or 0 without a goal. */
  function StartingBalance(goal: Option<Goal>): int
  {
    if goal.Some? then PaidTotal(goal.value.savingsPlan) else 0
  }

  /** The goal's target, or 100000 without a goal. */
  function SimTarget(goal: Option<Goal>): int
  {
    if goal.Some? then goal.value.targetAmount else 100000
  }

  /** The balance at month 0: the paid total plus the one-time boost. */
  function SimStart(goal: Option<Goal>, boost: int): int
  {
    StartingBalance(goal) + boost
  }

  /** Month `i` is the first of months `0..60` to meet the target. */
  predicate FirstHit(start: int, contribution: int, target: int, i: int)
  {
    0 <= i <= 60 && BalanceAt(start, contribution, i) >= target
    && forall j :: 0 <= j < i ==> BalanceAt(start, contribution, j) < target
  }

  /** `simulationData`: 61 points, months 0 to 60, and `goalHitMonth`. */
  method Simulation(goal: Option<Goal>, boost: int, contribution: int)
    returns (data: seq<SimPoint>, goalHitMonth: int)
    ensures |data| == 61
    ensures forall i :: 0 <= i < 61 ==>
      data[i] == SimPoint(i, BalanceAt(SimStart(goal, boost), contribution, i), SimTarget(goal))
    ensures goalHitMonth == -1 || FirstHit(SimStart(goal, boost), contribution, SimTarget(goal), goalHitMonth)
    ensures goalHitMonth == -1 <==>
      forall i :: 0 <= i <= 60 ==> BalanceAt(SimStart(goal, boost), contribution, i) < SimTarget(goal)
  {
    var currentBalance := StartingBalance(goal);
    var target := SimTarget(goal);
    var start := currentBalance + boost;
    var projectedBalance := start;
    data := [];
    goalHitMonth := -1;
    for i := 0 to 61
      invariant |data| == i
      invariant projectedBalance == BalanceAt(start, contribution, i)
      invariant forall k :: 0 <= k < i ==> data[k] == SimPoint(k, BalanceAt(start, contribution, k), target)
      invariant goalHitMonth == -1 || FirstHit(start, contribution, target, goalHitMonth)
      invariant goalHitMonth == -1 <==> forall k :: 0 <= k < i ==> BalanceAt(start, contribution, k) < target
      invariant goalHitMonth < i
    {
      data := data + [SimPoint(i, projectedBalance, target)];
      if projectedBalance >= target && goalHitMonth == -1 {
        goalHitMonth := i;
      }
      projectedBalance := projectedBalance + contribution;
      BalanceStep(start, contribution, i);
    }
  }

  lemma BalanceStep(start: int, contribution: int, i: int)
    ensures BalanceAt(start, contribution, i + 1) == BalanceAt(start, contribution, i) + contribution
  {
  }

  /** An independent reading of `goalHitMonth` for a positive contribution:
      month 0 when the start already meets the target, otherwise the number
      of contributions that close the gap, rounded up, if that is within
      five years. */
  function HitMonth(start: int, contribution: int, target: int): int
    requires contribution > 0
  {
    if start >= target then 0
    else
      var m := CeilDiv(target - start, contribution);
      if m <= 60 then m else -1
  }

  lemma HitMonthAgrees(start: int, contribution: int, target: int)
    requires contribution > 0
    ensures HitMonth(start, contribution, target) == -1 || FirstHit(start, contribution, target, HitMonth(start, contribution, target))
    ensures HitMonth(start, contribution, target) == -1 <==>
      forall i :: 0 <= i <= 60 ==> BalanceAt(start, contribution, i) < target
  {
    if start < target {
      var m := CeilDiv(target - start, contribution);
      assert m >= 1 by {
        if m <= 0 {
          MulMonotone(m, 0, contribution);
        }
      }
      forall j | 0 <= j < m
        ensures BalanceAt(start, contribution, j) < target
      {
        MulMonotone(j, m - 1, contribution);
      }
    }
  }

  /** So the simulated month equals the closed form. */
  lemma SimulationHitMonth(start: int, contribution: int, target: int, goalHitMonth: int)
    requires contribution > 0
    requires goalHitMonth == -1 || FirstHit(start, contribution, target, goalHitMonth)
    requires goalHitMonth == -1 <==> forall i :: 0 <= i <= 60 ==> BalanceAt(start, contribution, i) < target
    ensures goalHitMonth == HitMonth(start, contribution, target)
  {
    HitMonthAgrees(start, contribution, target);
  }
}
