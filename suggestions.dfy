/** The smart suggestions card: tips chosen from the first goal's progress,
    the streak and the weekend saving pattern, pushed in that order, with a
    fallback tip, and cut to the first two. */
module Suggestions {
  import opened Common
  import opened Domain
  import opened Lists

  datatype Tip =
    | FirstGoal
    | HalfwayNear(away: real)
    | AlmostThere(remaining: int)
    | NewStreak
    | WeekLong(daysToGo: int)
    | MonthStrong(daysToGo: int)
    | Weekend(suggested: int)
    | Momentum(lastAmount: int)

  /** The order in which the kinds of tip are pushed. */
  function Rank(t: Tip): int
  {
    match t
    case FirstGoal => 0
    case HalfwayNear(_) => 1
    case AlmostThere(_) => 1
    case NewStreak => 2
    case WeekLong(_) => 2
    case MonthStrong(_) => 2
    case Weekend(_) => 3
    case Momentum(_) => 4
  }

  /** `(totalSaved / targetAmount) * 100` for a non-zero target. */
  function GoalPercent(g: Goal): real
    requires g.targetAmount != 0
  {
    PaidTotal(g.savingsPlan) as real / g.targetAmount as real * 100.0
  }

  /** Progress in [45, 50).  A zero target gives `Infinity` or `NaN`, which
      is in neither range. */
  predicate NearHalf(g: Goal)
  {
    g.targetAmount != 0 && 45.0 <= GoalPercent(g) < 50.0
  }

  /** Progress in [95, 100). */
  predicate NearFull(g: Goal)
  {
    g.targetAmount != 0 && 95.0 <= GoalPercent(g) < 100.0
  }

  predicate StreakTipDue(streak: int, txs: seq<Transaction>)
  {
    (streak == 0 && |txs| > 0) || (3 <= streak < 7) || (7 <= streak < 30)
  }

  predicate OnWeekend(tx: Transaction)
  {
    Weekday(tx.date) == 0 || Weekday(tx.date) == 6
  }

  function WeekendTxs(txs: seq<Transaction>): seq<Transaction>
  {
    Filter(txs, OnWeekend)
  }

  /** The mean weekend amount beats 1.2 times a seventh of the last seven
      amounts, over at least seven transactions of which three or more fell
      on a Saturday or a Sunday. */
  predicate WeekendPattern(txs: seq<Transaction>)
  {
    |txs| >= 7 && |WeekendTxs(txs)| >= 3
    && TotalAmount(WeekendTxs(txs)) as real / |WeekendTxs(txs)| as real
       > TotalAmount(txs[|txs| - 7..]) as real / 7.0 * 1.2
  }

  /** Each tip appears only under its own condition and carries the figure
      the message shows. */
  predicate Justified(t: Tip, g: Goal, txs: seq<Transaction>, streak: int)
  {
    match t
    case FirstGoal => false
    case HalfwayNear(away) =>
      NearHalf(g) && away == g.targetAmount as real * 0.5 - PaidTotal(g.savingsPlan) as real
    case AlmostThere(remaining) =>
      !NearHalf(g) && NearFull(g) && remaining == g.targetAmount - PaidTotal(g.savingsPlan)
    case NewStreak => streak == 0 && |txs| > 0
    case WeekLong(n) => 3 <= streak < 7 && n == 7 - streak
    case MonthStrong(n) => 7 <= streak < 30 && n == 30 - streak
    case Weekend(_) => WeekendPattern(txs)
    case Momentum(amount) => |txs| > 0 && amount == txs[|txs| - 1].amount
  }

  /** The milestone tip for the first goal, if any. */
  function MilestoneTip(g: Goal): (r: seq<Tip>)
    ensures |r| <= 1 && (r != [] <==> NearHalf(g) || NearFull(g))
    ensures r != [] ==> Rank(r[0]) == 1
  {
    var saved := PaidTotal(g.savingsPlan);
    if NearHalf(g) then [HalfwayNear(g.targetAmount as real * 0.5 - saved as real)]
    else if NearFull(g) then [AlmostThere(g.targetAmount - saved)]
    else []
  }

  /** The streak tip, if any. */
  function StreakTip(streak: int, txs: seq<Transaction>): (r: seq<Tip>)
    ensures |r| <= 1 && (r != [] <==> StreakTipDue(streak, txs))
    ensures r != [] ==> Rank(r[0]) == 2
  {
    if streak == 0 && |txs| > 0 then [NewStreak]
    else if 3 <= streak < 7 then [WeekLong(7 - streak)]
    else if 7 <= streak < 30 then [MonthStrong(30 - streak)]
    else []
  }

  /** The weekend tip, if any, suggesting the rounded weekend mean. */
  function WeekendTip(txs: seq<Transaction>): (r: seq<Tip>)
    ensures |r| <= 1 && (r != [] <==> WeekendPattern(txs))
    ensures r != [] ==> r[0].Weekend?
  {
    if |txs| >= 7 then
      var weekend := WeekendTxs(txs);
      if |weekend| >= 3 then
        var avgWeekend := TotalAmount(weekend) as real / |weekend| as real;
        if avgWeekend > TotalAmount(txs[|txs| - 7..]) as real / 7.0 * 1.2 then [Weekend(Round(avgWeekend))]
        else []
      else []
    else []
  }

  /** Every tip the three rules give is justified. */
  lemma RulesJustified(g: Goal, txs: seq<Transaction>, streak: int)
    ensures forall t :: t in MilestoneTip(g) + StreakTip(streak, txs) + WeekendTip(txs) ==>
      Justified(t, g, txs, streak)
  {
    var m, st, w := MilestoneTip(g), StreakTip(streak, txs), WeekendTip(txs);
    assert m != [] ==> Justified(m[0], g, txs, streak);
    assert st != [] ==> Justified(st[0], g, txs, streak);
    assert w != [] ==> Justified(w[0], g, txs, streak);
    forall t | t in m + st + w
      ensures Justified(t, g, txs, streak)
    {
      assert t in m || t in st || t in w;
    }
  }

  /** Pushing at most one tip of each rank, then the fallback when nothing
      was pushed, and cutting to two keeps the ranks increasing and keeps a
      tip of each rule unless two earlier ones fill the card. */
  lemma Assembly(m: seq<Tip>, st: seq<Tip>, w: seq<Tip>, fallback: bool, last: int, tips: seq<Tip>)
    requires |m| <= 1 && |st| <= 1 && |w| <= 1
    requires m != [] ==> Rank(m[0]) == 1
    requires st != [] ==> Rank(st[0]) == 2
    requires w != [] ==> w[0].Weekend?
    requires var all := m + st + w + (if fallback && m + st + w == [] then [Momentum(last)] else []);
      tips == if |all| <= 2 then all else all[..2]
    ensures |tips| <= 2
    ensures forall i, j :: 0 <= i < j < |tips| ==> Rank(tips[i]) < Rank(tips[j])
    ensures forall i :: 0 <= i < |tips| ==> tips[i] in m + st + w || tips[i] == Momentum(last)
    ensures m != [] ==> |tips| > 0 && tips[0] == m[0]
    ensures st != [] ==> exists i :: 0 <= i < |tips| && tips[i] == st[0]
    ensures w != [] && (m == [] || st == []) ==> exists i :: 0 <= i < |tips| && tips[i] == w[0]
    ensures (exists i :: 0 <= i < |tips| && tips[i].Momentum?) <==> fallback && m + st + w == []
  {
    var rules := m + st + w;
    assert forall i :: 0 <= i < |rules| ==> !rules[i].Momentum?;
    if st != [] {
      assert tips[|m|] == st[0];
    }
    if w != [] && (m == [] || st == []) {
      assert tips[|m| + |st|] == w[0];
    }
    if fallback && rules == [] {
      assert tips == [Momentum(last)];
      assert tips[0].Momentum?;
    } else {
      assert forall i :: 0 <= i < |tips| ==> tips[i] == rules[i];
    }
  }

  /** The card's tips for a first goal `g`: the rules' tips in order, the
      momentum tip when none applies and there is a transaction, cut to two. */
  function Assembled(g: Goal, txs: seq<Transaction>, streak: int): seq<Tip>
  {
    Card(MilestoneTip(g) + StreakTip(streak, txs) + WeekendTip(txs), txs)
  }

  /** The rules' tips, the momentum tip when there are none and there is a
      transaction, cut to two. */
  function Card(rules: seq<Tip>, txs: seq<Transaction>): seq<Tip>
  {
    var all := rules + (if rules == [] && |txs| > 0 then [Momentum(txs[|txs| - 1].amount)] else []);
    if |all| <= 2 then all else all[..2]
  }

  /** The card holds at most two tips, in rule order, each justified; each
      rule's tip is there unless two earlier tips fill the card, and the
      momentum tip comes exactly when no rule applies and there is a
      transaction. */
  lemma AssembledSpec(g: Goal, txs: seq<Transaction>, streak: int)
    ensures var tips := Assembled(g, txs, streak);
      |tips| <= 2
      && (forall i, j :: 0 <= i < j < |tips| ==> Rank(tips[i]) < Rank(tips[j]))
      && (forall i :: 0 <= i < |tips| ==> Justified(tips[i], g, txs, streak))
      && ((NearHalf(g) || NearFull(g)) ==> |tips| > 0 && Rank(tips[0]) == 1)
      && (StreakTipDue(streak, txs) ==> exists i :: 0 <= i < |tips| && Rank(tips[i]) == 2)
      && (WeekendPattern(txs) && !((NearHalf(g) || NearFull(g)) && StreakTipDue(streak, txs))
          ==> exists i :: 0 <= i < |tips| && tips[i].Weekend?)
      && ((exists i :: 0 <= i < |tips| && tips[i].Momentum?)
          <==> |txs| > 0 && !NearHalf(g) && !NearFull(g) && !StreakTipDue(streak, txs) && !WeekendPattern(txs))
  {
    var m, st, w := MilestoneTip(g), StreakTip(streak, txs), WeekendTip(txs);
    var last := if |txs| > 0 then txs[|txs| - 1].amount else 0;
    var tips := Assembled(g, txs, streak);
    Assembly(m, st, w, |txs| > 0, last, tips);
    RulesJustified(g, txs, streak);
    forall i | 0 <= i < |tips|
      ensures Justified(tips[i], g, txs, streak)
    {
      if !tips[i].Momentum? {
        assert tips[i] in m + st + w;
      }
    }
  }

  /** The `suggestions` memo. */
  method Suggest(goals: seq<Goal>, txs: seq<Transaction>, streak: int) returns (tips: seq<Tip>)
    ensures goals == [] ==> tips == [FirstGoal]
    ensures goals != [] ==> tips == Assembled(goals[0], txs, streak)
  {
    if goals == [] {
      return [FirstGoal];
    }
    var g := goals[0];
    tips := PushTips(MilestoneTip(g), StreakTip(streak, txs), WeekendTip(txs), txs);
  }

  /** The pushes of the memo: each rule's tips in turn, then the fallback,
      then the cut to two. */
  method PushTips(m: seq<Tip>, st: seq<Tip>, w: seq<Tip>, txs: seq<Transaction>) returns (tips: seq<Tip>)
    ensures tips == Card(m + st + w, txs)
    ensures |tips| <= 2
  {
    var all: seq<Tip> := [];
    all := all + m;
    all := all + st;
    all := all + w;
    assert all == m + st + w;
    if all == [] && |txs| > 0 {
      all := all + [Momentum(txs[|txs| - 1].amount)];
    }
    tips := if |all| <= 2 then all else all[..2];
  }
}
