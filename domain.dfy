/** The records the savings store keeps (goals with their plans of "bits",
    accounts, transactions, challenges) and the totals every screen derives
    from them. */
module Domain {
  import opened Common

  datatype Frequency = Daily | Weekly | Monthly | Yearly | OtherFrequency
  datatype DurationUnit = Days | Weeks | Months | Years | OtherUnit

  datatype BitStatus = Pending | Paid

  /** Who paid a bit: a linked account, or `'manual'`. */
  datatype Payer = FromAccount(accountId: int) | Manual

  /** One deposit slot of a goal's plan. */
  datatype Bit = Bit(id: string, index: int, amount: int, status: BitStatus,
                     dueDate: int, paidAt: Option<int>, paidBy: Option<Payer>)

  /** `durationValue` is `None` when the goal has none (or an empty one);
      `targetDate` is only present on goals imported from elsewhere. */
  datatype Goal = Goal(id: int, name: string, targetAmount: int, totalSlots: int,
                       frequency: Frequency, durationValue: Option<int>,
                       durationUnit: Option<DurationUnit>, category: string,
                       createdAt: int, targetDate: Option<int>, savingsPlan: seq<Bit>)

  /** `kind` is the transaction's `type` text: `'debit'` for payments the store
      records, `'deposit'` and `'withdraw'` for the kinds analytics counts. */
  datatype Transaction = Transaction(id: int, amount: int, kind: string, accountId: Option<Payer>,
                                     description: Option<string>, date: int,
                                     goalName: Option<string>, note: Option<string>,
                                     mood: Option<string>)

  /** The urgency of an insight or a reminder. */
  datatype Priority = High | Medium | Low

  datatype Account = Account(id: int, upiId: string, name: string)

  datatype ChallengeStatus = Active | Completed | Failed

  /** A started challenge.  A target of `None` is a falsy (absent or zero) one. */
  datatype Challenge = Challenge(id: int, title: string,
                                 targetAmount: Option<int>, targetCount: Option<int>,
                                 currentAmount: int, currentCount: int,
                                 startDate: int, endDate: int, status: ChallengeStatus,
                                 reward: int, completedAt: Option<int>)

  /** A target JavaScript treats as true: present and not 0. */
  predicate IsSet(target: Option<int>)
  {
    target.Some? && target.value != 0
  }

  /** `target || null`: a 0 target is stored as no target. */
  function OrNull(target: Option<int>): (r: Option<int>)
    ensures IsSet(target) ==> r == target
    ensures !IsSet(target) ==> r.None?
  {
    if IsSet(target) then target else None
  }

  /** Days between due dates: 1, 7, 30 or 365; anything else counts as daily. */
  function IntervalDays(f: Frequency): (d: int)
    ensures d in {1, 7, 30, 365}
    ensures f == OtherFrequency ==> d == 1
  {
    match f
    case Daily => 1
    case Weekly => 7
    case Monthly => 30
    case Yearly => 365
    case OtherFrequency => 1
  }

  /** Sum of the amounts of all bits (left fold, as `reduce` computes it). */
  function PlanTotal(plan: seq<Bit>): int
  {
    if plan == [] then 0 else PlanTotal(plan[..|plan| - 1]) + plan[|plan| - 1].amount
  }

  /** `plan.filter(b => b.status === 'paid').reduce((s, b) => s + b.amount, 0)`. */
  function PaidTotal(plan: seq<Bit>): int
  {
    if plan == [] then 0
    else PaidTotal(plan[..|plan| - 1])
         + (if plan[|plan| - 1].status == Paid then plan[|plan| - 1].amount else 0)
  }

  /** Number of paid bits. */
  function PaidCount(plan: seq<Bit>): (n: nat)
    ensures n <= |plan|
  {
    if plan == [] then 0
    else PaidCount(plan[..|plan| - 1]) + (if plan[|plan| - 1].status == Paid then 1 else 0)
  }

  /** `transactions.reduce((sum, tx) => sum + tx.amount, 0)`. */
  function TotalAmount(txs: seq<Transaction>): int
  {
    if txs == [] then 0 else TotalAmount(txs[..|txs| - 1]) + txs[|txs| - 1].amount
  }

  /** Number of transactions dated on weekday `d` (`getDay()`). */
  function WeekdayCount(txs: seq<Transaction>, d: int): (n: nat)
    ensures n <= |txs|
  {
    if txs == [] then 0
    else WeekdayCount(txs[..|txs| - 1], d) + (if Weekday(txs[|txs| - 1].date) == d then 1 else 0)
  }

  /** Total amount of the transactions dated on weekday `d`. */
  function WeekdayTotal(txs: seq<Transaction>, d: int): int
  {
    if txs == [] then 0
    else WeekdayTotal(txs[..|txs| - 1], d) + (if Weekday(txs[|txs| - 1].date) == d then txs[|txs| - 1].amount else 0)
  }

  /** Every transaction falls on exactly one weekday, so the seven counts add
      up to the number of transactions. */
  lemma {:induction false} WeekdayCountsAddUp(txs: seq<Transaction>)
    ensures WeekdayCount(txs, 0) + WeekdayCount(txs, 1) + WeekdayCount(txs, 2) + WeekdayCount(txs, 3)
          + WeekdayCount(txs, 4) + WeekdayCount(txs, 5) + WeekdayCount(txs, 6) == |txs|
  {
    if txs != [] {
      WeekdayCountsAddUp(txs[..|txs| - 1]);
    }
  }

  /** The seven weekday totals add up to the total amount. */
  lemma {:induction false} WeekdayTotalsAddUp(txs: seq<Transaction>)
    ensures WeekdayTotal(txs, 0) + WeekdayTotal(txs, 1) + WeekdayTotal(txs, 2) + WeekdayTotal(txs, 3)
          + WeekdayTotal(txs, 4) + WeekdayTotal(txs, 5) + WeekdayTotal(txs, 6) == TotalAmount(txs)
  {
    if txs != [] {
      WeekdayTotalsAddUp(txs[..|txs| - 1]);
    }
  }

  /** A weekday without transactions has a total of 0. */
  lemma {:induction false} NoCountNoTotal(txs: seq<Transaction>, d: int)
    requires WeekdayCount(txs, d) == 0
    ensures WeekdayTotal(txs, d) == 0
  {
    if txs != [] {
      NoCountNoTotal(txs[..|txs| - 1], d);
    }
  }

  /** JavaScript's `part / whole * 100 >= p` for a finite `p`, exactly:
      with a zero `whole` the quotient is +Infinity for a positive part and NaN
      (never `>=`) otherwise. */
  predicate ReachedPercent(part: int, whole: int, p: int)
  {
    if whole > 0 then 100 * part >= p * whole
    else if whole == 0 then part > 0
    else 100 * part <= p * whole
  }

  /** `Math.min(part / whole * 100, 100)` for a positive whole. */
  function ProgressPercent(part: int, whole: int): (r: real)
    requires whole > 0
    ensures r <= 100.0
    ensures part >= 0 ==> r >= 0.0
    ensures r == 100.0 <==> part >= whole
  {
    var q := part as real * 100.0 / whole as real;
    RatioCompare(part as real * 100.0, whole as real, 100.0);
    RatioCompare(part as real * 100.0, whole as real, 0.0);
    MinReal(q, 100.0)
  }

  /** With amounts that are not negative, the paid total lies between 0 and
      the plan total, and reaches it when every bit is paid. */
  lemma {:induction false} PaidTotalBounds(plan: seq<Bit>)
    requires forall i :: 0 <= i < |plan| ==> plan[i].amount >= 0
    ensures 0 <= PaidTotal(plan) <= PlanTotal(plan)
    ensures PaidCount(plan) == |plan| ==> PaidTotal(plan) == PlanTotal(plan)
  {
    if plan != [] {
      PaidTotalBounds(plan[..|plan| - 1]);
    }
  }

  lemma {:induction false} TotalAmountAppend(a: seq<Transaction>, b: seq<Transaction>)
    ensures TotalAmount(a + b) == TotalAmount(a) + TotalAmount(b)
    decreases |b|
  {
    if b == [] {
      assert a + b == a;
    } else {
      assert (a + b)[..|a + b| - 1] == a + b[..|b| - 1];
      TotalAmountAppend(a, b[..|b| - 1]);
    }
  }

  /** Changing one bit changes the plan total by the difference of amounts. */
  lemma {:induction false} PlanTotalUpdate(plan: seq<Bit>, i: int, b: Bit)
    requires 0 <= i < |plan|
    ensures PlanTotal(plan[i := b]) == PlanTotal(plan) - plan[i].amount + b.amount
    decreases |plan|
  {
    var n := |plan| - 1;
    if i < n {
      assert plan[i := b][..n] == plan[..n][i := b];
      PlanTotalUpdate(plan[..n], i, b);
    } else {
      assert plan[i := b][..n] == plan[..n];
    }
  }

  /** Swapping two bits keeps the plan total. */
  lemma PlanTotalSwap(plan: seq<Bit>, i: int, j: int)
    requires 0 <= i < |plan| && 0 <= j < |plan|
    ensures PlanTotal(plan[i := plan[j]][j := plan[i]]) == PlanTotal(plan)
  {
    PlanTotalUpdate(plan, i, plan[j]);
    PlanTotalUpdate(plan[i := plan[j]], j, plan[i]);
  }

  /** When a goal's time runs out: `createdAt` plus its duration, where a
      missing value is 0 and a missing unit is months.  `addMonths` is the
      calendar's month arithmetic (`setMonth`); a year is twelve months, which
      agrees with `setFullYear` including the 29 February roll-over. */
  function GoalEndTime(g: Goal, addMonths: (int, int) -> int): (t: int)
    ensures (g.durationValue == None && (g.durationUnit == Some(Days) || g.durationUnit == Some(Weeks)))
            ==> t == g.createdAt
    ensures g.durationUnit == Some(OtherUnit) ==> t == g.createdAt
  {
    var val := match g.durationValue case Some(v) => v case None => 0;
    var unit := match g.durationUnit case Some(u) => u case None => Months;
    match unit
    case Days => g.createdAt + val * DayMs
    case Weeks => g.createdAt + val * 7 * DayMs
    case Months => addMonths(g.createdAt, val)
    case Years => addMonths(g.createdAt, 12 * val)
    case OtherUnit => g.createdAt
  }

  /** The paid totals of all goals added up (`goals.reduce`). */
  function TotalPaid(goals: seq<Goal>): int
  {
    if goals == [] then 0 else TotalPaid(goals[..|goals| - 1]) + PaidTotal(goals[|goals| - 1].savingsPlan)
  }

  /** The targets of all goals added up. */
  function TotalTarget(goals: seq<Goal>): int
  {
    if goals == [] then 0 else TotalTarget(goals[..|goals| - 1]) + goals[|goals| - 1].targetAmount
  }
}
