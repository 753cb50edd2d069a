/** The rules the savings store applies when it changes state: which
    achievements a trigger unlocks, which milestone a payment celebrates, how
    a payment marks its bit, how a challenge progresses, and replacing a
    record by id. */
module StoreRules {
  import opened Common
  import opened Domain
  import opened Lists

  /** The store's achievement definitions, by id, in table order.  Every id
      the store asks to unlock is one of them, so the definition lookup in
      `unlock` always succeeds. */
  datatype Achievement =
    | BeginnersLuck | FirstDrop | HighFive | OnARoll | BigSpender | HalfwayHero
    | GoalCrusher | PiggyMaster | WeekLong | MonthStrong | CenturyClub

  /** The id text stored for an achievement. */
  function AchievementId(a: Achievement): string
  {
    match a
    case BeginnersLuck => "beginners_luck"
    case FirstDrop => "first_drop"
    case HighFive => "high_five"
    case OnARoll => "on_a_roll"
    case BigSpender => "big_spender"
    case HalfwayHero => "halfway_hero"
    case GoalCrusher => "goal_crusher"
    case PiggyMaster => "piggy_master"
    case WeekLong => "week_long"
    case MonthStrong => "month_strong"
    case CenturyClub => "century_club"
  }

  /** What `checkAchievements` is asked to look at.  A payment carries the
      bit's amount, the goal with its plan already updated, and the bit id. */
  datatype Trigger = GoalCreated | PaymentMade(amount: int, goal: Goal, bitId: string) | ChallengeCompleted

  /** Paid total of a plan that also counts the bit being paid. */
  function CreditedTotal(plan: seq<Bit>, bitId: string): int
  {
    if plan == [] then 0
    else
      var b := plan[|plan| - 1];
      CreditedTotal(plan[..|plan| - 1], bitId) + (if b.status == Paid || b.id == bitId then b.amount else 0)
  }

  /** Goals whose paid total has reached their target. */
  function CompletedGoals(goals: seq<Goal>): (n: nat)
    ensures n <= |goals|
  {
    if goals == [] then 0
    else CompletedGoals(goals[..|goals| - 1])
         + (if PaidTotal(goals[|goals| - 1].savingsPlan) >= goals[|goals| - 1].targetAmount then 1 else 0)
  }

  predicate Distinct(s: seq<Achievement>)
  {
    forall i, j :: 0 <= i < j < |s| ==> s[i] != s[j]
  }

  /** The achievements a trigger asks to unlock, in the order they are
      tried.  `priorTxCount` and `priorStreak` are the transaction count and
      streak before the payment is recorded, and `priorGoals` the goals
      before its plan update: the values the handler still sees. */
  function Candidates(trigger: Trigger, priorTxCount: int, priorStreak: int, priorGoals: seq<Goal>): seq<Achievement>
  {
    match trigger
    case GoalCreated => [BeginnersLuck]
    case ChallengeCompleted => []
    case PaymentMade(amount, goal, bitId) =>
      Pick(PaymentOrder, PaymentFacts(amount, goal, bitId, priorTxCount, priorStreak, priorGoals))
  }

  /** What the payment rules look at: the new transaction count, the amount,
      the new streak, whether half and all of the target are saved, and
      whether this completion makes three completed goals. */
  datatype Facts = Facts(totalTx: int, amount: int, newStreak: int, half: bool, full: bool, third: bool)

  /** The order in which the payment rules are tried. */
  const PaymentOrder: seq<Achievement> :=
    [FirstDrop, HighFive, OnARoll, BigSpender, WeekLong, MonthStrong, CenturyClub,
     HalfwayHero, GoalCrusher, PiggyMaster]

  /** The condition of each payment rule. */
  predicate Earned(a: Achievement, f: Facts)
  {
    match a
    case FirstDrop => true
    case HighFive => f.totalTx >= 5
    case OnARoll => f.totalTx >= 10
    case BigSpender => f.amount > 1000
    case WeekLong => f.newStreak >= 7
    case MonthStrong => f.newStreak >= 30
    case CenturyClub => f.newStreak >= 100
    case HalfwayHero => f.half
    case GoalCrusher => f.full
    case PiggyMaster => f.full && f.third
    case BeginnersLuck => false
  }

  /** The rules of `order` that hold, in order. */
  function Pick(order: seq<Achievement>, f: Facts): (r: seq<Achievement>)
    ensures forall x :: x in r <==> x in order && Earned(x, f)
  {
    if order == [] then []
    else (if Earned(order[0], f) then [order[0]] else []) + Pick(order[1..], f)
  }

  /** Picking from a list without repeats gives a list without repeats. */
  lemma {:induction false} PickDistinct(order: seq<Achievement>, f: Facts)
    requires Distinct(order)
    ensures Distinct(Pick(order, f))
  {
    if order != [] {
      PickDistinct(order[1..], f);
      var rest := Pick(order[1..], f);
      assert order[0] !in order[1..];
      if Earned(order[0], f) {
        var r := [order[0]] + rest;
        forall i, j | 0 <= i < j < |r| ensures r[i] != r[j] {
          if i == 0 {
            assert r[j] in rest;
          } else {
            assert r[i] == rest[i - 1] && r[j] == rest[j - 1];
          }
        }
      }
    }
  }

  /** A payment asks for exactly the achievements whose rule holds, each
      once, and never for `beginners_luck`. */
  lemma PaymentRules(f: Facts)
    ensures Distinct(Pick(PaymentOrder, f))
    ensures forall x :: x in Pick(PaymentOrder, f) <==> x != BeginnersLuck && Earned(x, f)
  {
    PaymentOrderCovers();
    PickDistinct(PaymentOrder, f);
  }

  /** Every achievement but `beginners_luck` is a payment rule, once. */
  lemma PaymentOrderCovers()
    ensures Distinct(PaymentOrder)
    ensures forall x :: x in PaymentOrder <==> x != BeginnersLuck
  {
    forall x | x != BeginnersLuck ensures x in PaymentOrder {
      match x
      case FirstDrop => assert PaymentOrder[0] == x;
      case HighFive => assert PaymentOrder[1] == x;
      case OnARoll => assert PaymentOrder[2] == x;
      case BigSpender => assert PaymentOrder[3] == x;
      case WeekLong => assert PaymentOrder[4] == x;
      case MonthStrong => assert PaymentOrder[5] == x;
      case CenturyClub => assert PaymentOrder[6] == x;
      case HalfwayHero => assert PaymentOrder[7] == x;
      case GoalCrusher => assert PaymentOrder[8] == x;
      case PiggyMaster => assert PaymentOrder[9] == x;
    }
  }

  /** The rule inputs of a payment: the count and streak one past the values
      before the payment, the saved share counting the bit just paid, and
      the completed goals before it. */
  function PaymentFacts(amount: int, goal: Goal, bitId: string, priorTxCount: int, priorStreak: int,
                        priorGoals: seq<Goal>): (f: Facts)
    ensures f.totalTx == priorTxCount + 1 && f.newStreak == priorStreak + 1 && f.amount == amount
    ensures f.half == ReachedPercent(CreditedTotal(goal.savingsPlan, bitId), goal.targetAmount, 50)
    ensures f.full == ReachedPercent(CreditedTotal(goal.savingsPlan, bitId), goal.targetAmount, 100)
    ensures f.third == (CompletedGoals(priorGoals) >= 2)
  {
    var saved := CreditedTotal(goal.savingsPlan, bitId);
    Facts(priorTxCount + 1, amount, priorStreak + 1,
          ReachedPercent(saved, goal.targetAmount, 50),
          ReachedPercent(saved, goal.targetAmount, 100),
          CompletedGoals(priorGoals) + 1 >= 3)
  }

  /** What a payment asks for, in the store's terms: `first_drop` always,
      the count rules on the count before the payment plus one, the streak
      rules on the streak before it plus one, the amount rule, and no
      `beginners_luck`. */
  lemma PaymentTriggerRules(amount: int, goal: Goal, bitId: string, priorTxCount: int, priorStreak: int,
                            priorGoals: seq<Goal>)
    ensures var c := Candidates(PaymentMade(amount, goal, bitId), priorTxCount, priorStreak, priorGoals);
      && Distinct(c)
      && FirstDrop in c
      && (HighFive in c <==> priorTxCount >= 4)
      && (OnARoll in c <==> priorTxCount >= 9)
      && (BigSpender in c <==> amount > 1000)
      && (WeekLong in c <==> priorStreak >= 6)
      && (MonthStrong in c <==> priorStreak >= 29)
      && (CenturyClub in c <==> priorStreak >= 99)
      && BeginnersLuck !in c
  {
    var f := PaymentFacts(amount, goal, bitId, priorTxCount, priorStreak, priorGoals);
    var c := Pick(PaymentOrder, f);
    assert c == Candidates(PaymentMade(amount, goal, bitId), priorTxCount, priorStreak, priorGoals);
    PaymentRules(f);
    assert HighFive in c <==> Earned(HighFive, f);
    assert OnARoll in c <==> Earned(OnARoll, f);
    assert BigSpender in c <==> Earned(BigSpender, f);
    assert WeekLong in c <==> Earned(WeekLong, f);
    assert MonthStrong in c <==> Earned(MonthStrong, f);
    assert CenturyClub in c <==> Earned(CenturyClub, f);
  }

  /** The goal rules of a payment: half and all of the target saved,
      counting the bit just paid, and the third completed goal. */
  lemma PaymentGoalRules(amount: int, goal: Goal, bitId: string, priorTxCount: int, priorStreak: int,
                         priorGoals: seq<Goal>)
    ensures var c := Candidates(PaymentMade(amount, goal, bitId), priorTxCount, priorStreak, priorGoals);
      var saved := CreditedTotal(goal.savingsPlan, bitId);
      && (HalfwayHero in c <==> ReachedPercent(saved, goal.targetAmount, 50))
      && (GoalCrusher in c <==> ReachedPercent(saved, goal.targetAmount, 100))
      && (PiggyMaster in c <==> ReachedPercent(saved, goal.targetAmount, 100) && CompletedGoals(priorGoals) >= 2)
  {
    var f := PaymentFacts(amount, goal, bitId, priorTxCount, priorStreak, priorGoals);
    var c := Pick(PaymentOrder, f);
    assert c == Candidates(PaymentMade(amount, goal, bitId), priorTxCount, priorStreak, priorGoals);
    PaymentRules(f);
    assert HalfwayHero in c <==> Earned(HalfwayHero, f);
    assert GoalCrusher in c <==> Earned(GoalCrusher, f);
    assert PiggyMaster in c <==> Earned(PiggyMaster, f);
  }

  /** Every trigger asks for each achievement at most once. */
  lemma CandidatesDistinct(trigger: Trigger, priorTxCount: int, priorStreak: int, priorGoals: seq<Goal>)
    ensures Distinct(Candidates(trigger, priorTxCount, priorStreak, priorGoals))
  {
    if trigger.PaymentMade? {
      PaymentTriggerRules(trigger.amount, trigger.goal, trigger.bitId, priorTxCount, priorStreak, priorGoals);
    }
  }

  /** The appends `unlock` makes: a candidate not in the set seen so far is
      appended twice (the handler appends it in two successive state
      updates) and joins the set. */
  function Unlocks(candidates: seq<Achievement>, unlocked: set<Achievement>): seq<Achievement>
  {
    if candidates == [] then []
    else if candidates[0] !in unlocked
    then [candidates[0], candidates[0]] + Unlocks(candidates[1..], unlocked + {candidates[0]})
    else Unlocks(candidates[1..], unlocked)
  }

  /** One step of the unlock loop keeps `done + Unlocks(rest) == total`. */
  lemma UnlocksStep(candidates: seq<Achievement>, i: int, unlocked: set<Achievement>,
                    done: seq<Achievement>, total: seq<Achievement>)
    requires 0 <= i < |candidates|
    requires done + Unlocks(candidates[i..], unlocked) == total
    ensures var c := candidates[i];
      c !in unlocked ==> (done + [c, c]) + Unlocks(candidates[i + 1..], unlocked + {c}) == total
    ensures candidates[i] in unlocked ==> done + Unlocks(candidates[i + 1..], unlocked) == total
  {
    var c := candidates[i];
    assert candidates[i..][0] == c && candidates[i..][1..] == candidates[i + 1..];
    if c !in unlocked {
      var rest := Unlocks(candidates[i + 1..], unlocked + {c});
      assert Unlocks(candidates[i..], unlocked) == [c, c] + rest;
      assert (done + [c, c]) + rest == done + ([c, c] + rest);
    }
  }

  /** With no candidates left, what was appended is the whole list. */
  lemma UnlocksDone(candidates: seq<Achievement>, unlocked: set<Achievement>,
                    done: seq<Achievement>, total: seq<Achievement>)
    requires done + Unlocks(candidates[|candidates|..], unlocked) == total
    ensures done == total
  {
    assert candidates[|candidates|..] == [];
    assert done + [] == done;
  }

  /** For distinct candidates, each achievement appears in the appended list
      exactly twice when it is a candidate not unlocked before, and never
      otherwise. */
  lemma {:induction false} UnlocksCount(candidates: seq<Achievement>, unlocked: set<Achievement>, x: Achievement)
    requires Distinct(candidates)
    ensures multiset(Unlocks(candidates, unlocked))[x]
         == if x in candidates && x !in unlocked then 2 else 0
  {
    if candidates != [] {
      var c := candidates[0];
      var rest := candidates[1..];
      assert x in candidates <==> x == c || x in rest;
      if c !in unlocked {
        UnlocksCount(rest, unlocked + {c}, x);
        assert multiset([c, c] + Unlocks(rest, unlocked + {c}))
            == multiset([c, c]) + multiset(Unlocks(rest, unlocked + {c}));
      } else {
        UnlocksCount(rest, unlocked, x);
      }
    }
  }

  /** The celebration thresholds, in percent. */
  const Milestones: seq<int> := [25, 50, 75, 100]

  /** The first threshold of `ms` that the progress reaches and that has not
      been celebrated for the goal yet. */
  function FirstMilestone(ms: seq<int>, paid: int, target: int, triggered: seq<int>): (r: Option<int>)
    ensures r.Some? ==> exists k :: 0 <= k < |ms| && ms[k] == r.value
                          && ReachedPercent(paid, target, ms[k]) && ms[k] !in triggered
                          && forall j :: 0 <= j < k ==> !(ReachedPercent(paid, target, ms[j]) && ms[j] !in triggered)
    ensures r.None? <==> forall j :: 0 <= j < |ms| ==> !(ReachedPercent(paid, target, ms[j]) && ms[j] !in triggered)
  {
    if ms == [] then None
    else if ReachedPercent(paid, target, ms[0]) && ms[0] !in triggered then Some(ms[0])
    else
      var r := FirstMilestone(ms[1..], paid, target, triggered);
      assert forall j :: 1 <= j < |ms| ==> ms[j] == ms[1..][j - 1];
      if r.Some? then
        var k :| 0 <= k < |ms[1..]| && ms[1..][k] == r.value
                 && ReachedPercent(paid, target, ms[1..][k]) && ms[1..][k] !in triggered
                 && forall j :: 0 <= j < k ==> !(ReachedPercent(paid, target, ms[1..][j]) && ms[1..][j] !in triggered);
        assert ms[k + 1] == r.value;
        r
      else r
  }

  /** The milestone a payment celebrates: the smallest of 25, 50, 75 and 100
      percent that is reached and not yet in the goal's triggered list. */
  lemma NextMilestoneIsSmallest(paid: int, target: int, triggered: seq<int>)
    ensures var r := FirstMilestone(Milestones, paid, target, triggered);
      && (r.Some? ==> r.value in Milestones && ReachedPercent(paid, target, r.value)
                      && r.value !in triggered
                      && forall m :: m in Milestones && m < r.value
                           ==> !(ReachedPercent(paid, target, m) && m !in triggered))
      && (r.None? <==> forall m :: m in Milestones ==> !(ReachedPercent(paid, target, m) && m !in triggered))
  {
    var r := FirstMilestone(Milestones, paid, target, triggered);
    if r.Some? {
      var k :| 0 <= k < |Milestones| && Milestones[k] == r.value
               && ReachedPercent(paid, target, Milestones[k]) && Milestones[k] !in triggered
               && forall j :: 0 <= j < k ==> !(ReachedPercent(paid, target, Milestones[j]) && Milestones[j] !in triggered);
      forall m | m in Milestones && m < r.value
        ensures !(ReachedPercent(paid, target, m) && m !in triggered)
      {
        var j :| 0 <= j < |Milestones| && Milestones[j] == m;
        assert j < k;
      }
    }
  }

  /** The plan after paying `bitId`: every bit with that id becomes paid at
      `now` by `payer`; every other bit is unchanged. */
  function MarkPaid(plan: seq<Bit>, bitId: string, now: int, payer: Payer): (r: seq<Bit>)
    ensures |r| == |plan|
    ensures forall i :: 0 <= i < |plan| && plan[i].id != bitId ==> r[i] == plan[i]
    ensures forall i :: 0 <= i < |plan| && plan[i].id == bitId ==>
      r[i] == plan[i].(status := Paid, paidAt := Some(now), paidBy := Some(payer))
  {
    seq(|plan|, i requires 0 <= i < |plan| =>
      if plan[i].id == bitId then plan[i].(status := Paid, paidAt := Some(now), paidBy := Some(payer))
      else plan[i])
  }

  /** Paying the only, still pending bit with an id raises the paid total by
      exactly that bit's amount, which the handler's own count also sees. */
  lemma {:induction false} MarkPaidRaisesTotal(plan: seq<Bit>, bitId: string, now: int, payer: Payer, i: int)
    requires 0 <= i < |plan| && plan[i].id == bitId && plan[i].status == Pending
    requires forall j :: 0 <= j < |plan| && plan[j].id == bitId ==> j == i
    ensures PaidTotal(MarkPaid(plan, bitId, now, payer)) == PaidTotal(plan) + plan[i].amount
    ensures CreditedTotal(MarkPaid(plan, bitId, now, payer), bitId) == PaidTotal(plan) + plan[i].amount
    decreases |plan|
  {
    var n := |plan| - 1;
    var r := MarkPaid(plan, bitId, now, payer);
    assert r[..n] == MarkPaid(plan[..n], bitId, now, payer);
    assert PaidTotal(r) == PaidTotal(r[..n]) + (if r[n].status == Paid then r[n].amount else 0);
    assert CreditedTotal(r, bitId) == CreditedTotal(r[..n], bitId)
      + (if r[n].status == Paid || r[n].id == bitId then r[n].amount else 0);
    assert PaidTotal(plan) == PaidTotal(plan[..n]) + (if plan[n].status == Paid then plan[n].amount else 0);
    if i < n {
      assert r[n] == plan[n];
      MarkPaidRaisesTotal(plan[..n], bitId, now, payer, i);
    } else {
      assert r[..n] == plan[..n] by {
        assert forall j :: 0 <= j < n ==> plan[..n][j].id != bitId;
      }
      NoIdCredited(plan[..n], bitId);
    }
  }

  /** Without the id in the plan, the handler's count is the paid total. */
  lemma {:induction false} NoIdCredited(plan: seq<Bit>, bitId: string)
    requires forall j :: 0 <= j < |plan| ==> plan[j].id != bitId
    ensures CreditedTotal(plan, bitId) == PaidTotal(plan)
  {
    if plan != [] {
      NoIdCredited(plan[..|plan| - 1], bitId);
    }
  }

  /** The first bit with the id (`plan.find`). */
  function FindBit(plan: seq<Bit>, id: string): (r: Option<Bit>)
    ensures r.Some? ==> r.value in plan && r.value.id == id
    ensures r.None? <==> forall i :: 0 <= i < |plan| ==> plan[i].id != id
    ensures r.Some? ==> exists i :: 0 <= i < |plan| && plan[i] == r.value && forall j :: 0 <= j < i ==> plan[j].id != id
  {
    if plan == [] then None
    else if plan[0].id == id then Some(plan[0])
    else
      var r := FindBit(plan[1..], id);
      if r.Some? then FirstMatchInTail(plan, (b: Bit) => b.id, id, r.value); r else r
  }


  /** The first goal with the id (`goals.find`). */
  function FindGoal(goals: seq<Goal>, id: int): (r: Option<Goal>)
    ensures r.Some? ==> r.value in goals && r.value.id == id
    ensures r.None? <==> forall i :: 0 <= i < |goals| ==> goals[i].id != id
    ensures r.Some? ==> exists i :: 0 <= i < |goals| && goals[i] == r.value && forall j :: 0 <= j < i ==> goals[j].id != id
  {
    if goals == [] then None
    else if goals[0].id == id then Some(goals[0])
    else
      var r := FindGoal(goals[1..], id);
      if r.Some? then FirstMatchInTail(goals, (g: Goal) => g.id, id, r.value); r else r
  }


  /** `goals.map(g => g.id === updated.id ? updated : g)`. */
  function ReplaceGoal(goals: seq<Goal>, updated: Goal): (r: seq<Goal>)
    ensures |r| == |goals|
    ensures forall i :: 0 <= i < |goals| ==> r[i] == if goals[i].id == updated.id then updated else goals[i]
  {
    if goals == [] then [] else [if goals[0].id == updated.id then updated else goals[0]] + ReplaceGoal(goals[1..], updated)
  }

  /** After replacing, looking the id up finds the new record when the old
      list had one with that id, and nothing otherwise. */
  lemma {:induction false} ReplaceThenFind(goals: seq<Goal>, updated: Goal)
    ensures FindGoal(ReplaceGoal(goals, updated), updated.id)
         == if FindGoal(goals, updated.id).Some? then Some(updated) else None
  {
    if goals != [] && goals[0].id != updated.id {
      var r := ReplaceGoal(goals, updated);
      assert r == [goals[0]] + ReplaceGoal(goals[1..], updated);
      assert r[1..] == ReplaceGoal(goals[1..], updated);
      ReplaceThenFind(goals[1..], updated);
    }
  }


  /** `goals.filter(g => g.id !== id)`. */
  function RemoveGoal(goals: seq<Goal>, id: int): (r: seq<Goal>)
    ensures |r| <= |goals|
    ensures forall g :: g in r <==> g in goals && g.id != id
  {
    if goals == [] then []
    else (if goals[0].id != id then [goals[0]] else []) + RemoveGoal(goals[1..], id)
  }

  /** `accounts.filter(a => a.id !== id)`. */
  function RemoveAccount(accounts: seq<Account>, id: int): (r: seq<Account>)
    ensures |r| <= |accounts|
    ensures forall a :: a in r <==> a in accounts && a.id != id
  {
    if accounts == [] then []
    else (if accounts[0].id != id then [accounts[0]] else []) + RemoveAccount(accounts[1..], id)
  }

  /** The first record left after removing is the first one with another
      id; nothing is left exactly when every record had the id. */
  lemma {:induction false} RemoveGoalFirst(goals: seq<Goal>, id: int, k: int)
    requires 0 <= k < |goals| && goals[k].id != id
    requires forall j :: 0 <= j < k ==> goals[j].id == id
    ensures RemoveGoal(goals, id) != [] && RemoveGoal(goals, id)[0] == goals[k]
  {
    if k > 0 {
      RemoveGoalFirst(goals[1..], id, k - 1);
    }
  }

  /** A challenge after `updateChallengeProgress` adds `amount` and, when
      asked, one to the count: completed, at `now`, exactly when a set
      amount target or a set count target is reached. */
  function Progressed(c: Challenge, amount: int, incrementCount: bool, now: int): (r: Challenge)
    ensures r.currentAmount == c.currentAmount + amount
    ensures r.currentCount == c.currentCount + (if incrementCount then 1 else 0)
    ensures r.(currentAmount := c.currentAmount, currentCount := c.currentCount,
               status := c.status, completedAt := c.completedAt) == c
  {
    var u := c.(currentAmount := c.currentAmount + amount,
                currentCount := if incrementCount then c.currentCount + 1 else c.currentCount);
    if (IsSet(c.targetAmount) && u.currentAmount >= c.targetAmount.value)
       || (IsSet(c.targetCount) && u.currentCount >= c.targetCount.value)
    then u.(status := Completed, completedAt := Some(now))
    else u
  }

  /** A challenge completes exactly when one of its set targets is reached
      (a 0 target counts as unset, as JavaScript's `&&` makes it); otherwise its status and completion time stay as they were. */
  lemma ProgressedCompletes(c: Challenge, amount: int, incrementCount: bool, now: int)
    ensures var r := Progressed(c, amount, incrementCount, now);
      var reached := (c.targetAmount.Some? && c.targetAmount.value != 0 && r.currentAmount >= c.targetAmount.value)
                     || (c.targetCount.Some? && c.targetCount.value != 0 && r.currentCount >= c.targetCount.value);
      && (reached ==> r.status == Completed && r.completedAt == Some(now))
      && (!reached ==> r.status == c.status && r.completedAt == c.completedAt)
  {
  }

  /** With non-negative contributions progress never goes back, and a
      reached target stays reached. */
  lemma ProgressMonotone(c: Challenge, amount: int, incrementCount: bool, now: int)
    requires amount >= 0
    ensures var r := Progressed(c, amount, incrementCount, now);
      && r.currentAmount >= c.currentAmount && r.currentCount >= c.currentCount
      && ((IsSet(c.targetAmount) && c.currentAmount >= c.targetAmount.value)
          || (IsSet(c.targetCount) && c.currentCount >= c.targetCount.value)
          ==> r.status == Completed)
  {
  }

  /** The first challenge with the id (`challenges.find`). */
  function FindChallenge(cs: seq<Challenge>, id: int): (r: Option<Challenge>)
    ensures r.Some? ==> r.value in cs && r.value.id == id
    ensures r.None? <==> forall i :: 0 <= i < |cs| ==> cs[i].id != id
    ensures r.Some? ==> exists i :: 0 <= i < |cs| && cs[i] == r.value && forall j :: 0 <= j < i ==> cs[j].id != id
  {
    if cs == [] then None
    else if cs[0].id == id then Some(cs[0])
    else
      var r := FindChallenge(cs[1..], id);
      if r.Some? then FirstMatchInTail(cs, (c: Challenge) => c.id, id, r.value); r else r
  }


  /** `challenges.map(c => c.id === updated.id ? updated : c)`. */
  function ReplaceChallenge(cs: seq<Challenge>, updated: Challenge): (r: seq<Challenge>)
    ensures |r| == |cs|
    ensures forall i :: 0 <= i < |cs| ==> r[i] == if cs[i].id == updated.id then updated else cs[i]
  {
    if cs == [] then [] else [if cs[0].id == updated.id then updated else cs[0]] + ReplaceChallenge(cs[1..], updated)
  }

  /** Active challenges whose end lies before `now`: the expiry check's list. */
  function Expired(cs: seq<Challenge>, now: int): (r: seq<Challenge>)
    ensures forall c :: c in r <==> c in cs && c.status == Active && now > c.endDate
  {
    if cs == [] then []
    else (if cs[0].status == Active && now > cs[0].endDate then [cs[0]] else []) + Expired(cs[1..], now)
  }

  /** Active challenges whose window holds the date (both ends inclusive). */
  function Running(cs: seq<Challenge>, date: int): (r: seq<Challenge>)
    ensures forall c :: c in r <==> c in cs && c.status == Active && c.startDate <= date <= c.endDate
  {
    if cs == [] then []
    else (if cs[0].status == Active && cs[0].startDate <= date <= cs[0].endDate then [cs[0]] else [])
         + Running(cs[1..], date)
  }

  /** `updateChallengeProgress(id, amount, incrementCount)` on the list
      `acc`, where `snapshot` is the list the handler's closure sees: an
      unknown or no longer active challenge changes nothing, otherwise the
      progressed copy replaces every entry with its id. */
  function ProgressStep(acc: seq<Challenge>, snapshot: seq<Challenge>, id: int, amount: int,
                        incrementCount: bool, now: int): (r: seq<Challenge>)
    ensures |r| == |acc|
  {
    match FindChallenge(snapshot, id)
    case None => acc
    case Some(c) => if c.status == Active then ReplaceChallenge(acc, Progressed(c, amount, incrementCount, now)) else acc
  }

  /** Active challenges, in order (`challenges.filter(c => c.status === 'active')`). */
  function ActiveOnes(cs: seq<Challenge>): (r: seq<Challenge>)
    ensures forall c :: c in r <==> c in cs && c.status == Active
  {
    if cs == [] then [] else (if cs[0].status == Active then [cs[0]] else []) + ActiveOnes(cs[1..])
  }

  /** The window test of the transaction effect: both ends inclusive. */
  predicate InWindow(c: Challenge, date: int)
  {
    c.startDate <= date <= c.endDate
  }

  /** The transaction effect's loop over the challenges still to visit:
      each one whose window holds the transaction's date is progressed by
      its amount and one more count. */
  function TxEffect(acc: seq<Challenge>, snapshot: seq<Challenge>, visit: seq<Challenge>, tx: Transaction,
                    now: int): (r: seq<Challenge>)
    ensures |r| == |acc|
    decreases |visit|
  {
    if visit == [] then acc
    else
      var next := if InWindow(visit[0], tx.date) then ProgressStep(acc, snapshot, visit[0].id, tx.amount, true, now) else acc;
      TxEffect(next, snapshot, visit[1..], tx, now)
  }

  /** The expiry loop over the expired challenges still to visit: each is
      marked failed in place. */
  function ExpireEach(acc: seq<Challenge>, visit: seq<Challenge>): (r: seq<Challenge>)
    ensures |r| == |acc|
    decreases |visit|
  {
    if visit == [] then acc else ExpireEach(ReplaceChallenge(acc, visit[0].(status := Failed)), visit[1..])
  }

  predicate DistinctIds(cs: seq<Challenge>)
  {
    forall i, j :: 0 <= i < j < |cs| ==> cs[i].id != cs[j].id
  }

  predicate SameIds(a: seq<Challenge>, b: seq<Challenge>)
  {
    |a| == |b| && forall k :: 0 <= k < |a| ==> a[k].id == b[k].id
  }

  /** With distinct ids the lookup finds the very challenge. */
  lemma FindDistinct(cs: seq<Challenge>, c: Challenge)
    requires DistinctIds(cs) && c in cs
    ensures FindChallenge(cs, c.id) == Some(c)
  {
    var d := FindChallenge(cs, c.id);
    var i :| 0 <= i < |cs| && cs[i] == c;
    assert cs[i].id == c.id;
    if d.Some? {
      var j :| 0 <= j < |cs| && cs[j] == d.value;
      assert cs[j].id == cs[i].id;
    }
  }

  /** Replacing by the id of a snapshot entry touches that entry's position
      only, when the ids are distinct and the list follows the snapshot's ids. */
  lemma ReplaceAtSnapshot(acc: seq<Challenge>, snapshot: seq<Challenge>, c: Challenge, u: Challenge)
    requires DistinctIds(snapshot) && SameIds(acc, snapshot)
    requires c in snapshot && u.id == c.id
    ensures var n := ReplaceChallenge(acc, u);
      SameIds(n, snapshot) && forall k :: 0 <= k < |n| ==> n[k] == if snapshot[k] == c then u else acc[k]
  {
    var n := ReplaceChallenge(acc, u);
    var j :| 0 <= j < |snapshot| && snapshot[j] == c;
    forall k | 0 <= k < |n| ensures n[k] == if snapshot[k] == c then u else acc[k] {
      if acc[k].id == c.id {
        assert snapshot[k].id == snapshot[j].id;
      }
    }
  }

  /** Position by position, the transaction effect progresses exactly the
      visited active challenges whose window holds the date, each from its
      value in the snapshot, and leaves every other entry as it was. */
  lemma {:induction false} TxEffectPointwise(acc: seq<Challenge>, snapshot: seq<Challenge>, visit: seq<Challenge>,
                                             tx: Transaction, now: int)
    requires DistinctIds(snapshot) && SameIds(acc, snapshot)
    requires forall c :: c in visit ==> c in snapshot && c.status == Active
    ensures var r := TxEffect(acc, snapshot, visit, tx, now);
      SameIds(r, snapshot)
      && forall k :: 0 <= k < |r| ==>
           r[k] == if snapshot[k] in visit && InWindow(snapshot[k], tx.date)
                   then Progressed(snapshot[k], tx.amount, true, now) else acc[k]
    decreases |visit|
  {
    if visit != [] {
      var c := visit[0];
      assert c in visit;
      var next := if InWindow(c, tx.date) then ProgressStep(acc, snapshot, c.id, tx.amount, true, now) else acc;
      var pc := Progressed(c, tx.amount, true, now);
      if InWindow(c, tx.date) {
        FindDistinct(snapshot, c);
        assert pc.id == c.id;
        assert next == ReplaceChallenge(acc, pc);
        ReplaceAtSnapshot(acc, snapshot, c, pc);
      }
      assert forall k :: 0 <= k < |next| ==>
        next[k] == if snapshot[k] == c && InWindow(c, tx.date) then pc else acc[k];
      TxEffectPointwise(next, snapshot, visit[1..], tx, now);
      var r := TxEffect(acc, snapshot, visit, tx, now);
      forall k | 0 <= k < |r|
        ensures r[k] == if snapshot[k] in visit && InWindow(snapshot[k], tx.date)
                        then Progressed(snapshot[k], tx.amount, true, now) else acc[k]
      {
        assert snapshot[k] in visit <==> snapshot[k] == c || snapshot[k] in visit[1..];
      }
    }
  }

  /** Position by position, the expiry loop fails exactly the visited
      challenges and leaves every other entry as it was. */
  lemma {:induction false} ExpireEachPointwise(acc: seq<Challenge>, snapshot: seq<Challenge>, visit: seq<Challenge>)
    requires DistinctIds(snapshot) && SameIds(acc, snapshot)
    requires forall c :: c in visit ==> c in snapshot
    ensures var r := ExpireEach(acc, visit);
      SameIds(r, snapshot)
      && forall k :: 0 <= k < |r| ==> r[k] == if snapshot[k] in visit then snapshot[k].(status := Failed) else acc[k]
    decreases |visit|
  {
    if visit != [] {
      var c := visit[0];
      assert c in visit;
      var fc := c.(status := Failed);
      var next := ReplaceChallenge(acc, fc);
      ReplaceAtSnapshot(acc, snapshot, c, fc);
      ExpireEachPointwise(next, snapshot, visit[1..]);
      var r := ExpireEach(acc, visit);
      forall k | 0 <= k < |r|
        ensures r[k] == if snapshot[k] in visit then snapshot[k].(status := Failed) else acc[k]
      {
        assert snapshot[k] in visit <==> snapshot[k] == c || snapshot[k] in visit[1..];
      }
    }
  }

  /** The expiry check turns exactly the active challenges past their end
      into failed ones and changes nothing else. */
  lemma ExpiryFailsOnlyExpired(cs: seq<Challenge>, now: int)
    requires DistinctIds(cs)
    ensures var r := ExpireEach(cs, Expired(cs, now));
      |r| == |cs|
      && forall k :: 0 <= k < |cs| ==>
           r[k] == if cs[k].status == Active && now > cs[k].endDate then cs[k].(status := Failed) else cs[k]
  {
    ExpireEachPointwise(cs, cs, Expired(cs, now));
  }

  /** The transaction effect progresses exactly the active challenges whose
      window holds the newest transaction's date, and nothing else. */
  lemma TxEffectProgressesRunning(cs: seq<Challenge>, tx: Transaction, now: int)
    requires DistinctIds(cs)
    ensures var r := TxEffect(cs, cs, ActiveOnes(cs), tx, now);
      |r| == |cs|
      && forall k :: 0 <= k < |cs| ==>
           r[k] == if cs[k].status == Active && InWindow(cs[k], tx.date)
                   then Progressed(cs[k], tx.amount, true, now) else cs[k]
  {
    TxEffectPointwise(cs, cs, ActiveOnes(cs), tx, now);
  }
}
