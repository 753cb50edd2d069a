/** The savings store (`PiggyProvider`): the goals with their plans, the
    accounts, the transactions, the unlocked achievements, the milestones
    already celebrated per goal, the challenges and the piggy's mood.  Every
    action is one atomic step; a value the action's closure read before the
    step (the transactions, goals and achievements a late achievement check
    still sees, the challenge list an effect loop still sees) is passed in
    explicitly.  Dates are milliseconds, `now` is the action's clock
    reading, and ids and random numbers are parameters. */
module Store {
  import opened Common
  import opened Text
  import opened Domain
  import opened Streaks
  import opened PlanGeneration
  import opened Healer
  import opened StoreRules

  datatype Mood = Neutral | Happy | Excited | Sad

  /** The milestone being celebrated, as the celebration modal shows it. */
  datatype Celebration = Celebration(milestone: int, goalName: string, currentAmount: int, targetAmount: int)

  /** A challenge template as `createChallenge` reads it; a target of `None`
      is an absent or zero one. */
  datatype ChallengeTemplate = ChallengeTemplate(title: string, targetAmount: Option<int>,
                                                 targetCount: Option<int>, durationDays: int, reward: int)

  /** Everything the store holds. */
  datatype StoreView = StoreView(
    goals: seq<Goal>,
    activeGoalId: Option<int>,
    accounts: seq<Account>,
    defaultAccountId: Option<int>,
    transactions: seq<Transaction>,
    unlocked: seq<Achievement>,
    triggered: map<int, seq<int>>,
    celebrating: Option<Celebration>,
    challenges: seq<Challenge>,
    mood: Mood,
    isEditing: bool,
    streak: int)

  /** `goals.find(g => g.id === activeGoalId) || null`. */
  function ActiveIn(v: StoreView): (r: Option<Goal>)
    ensures r.Some? ==> v.activeGoalId == Some(r.value.id) && r.value in v.goals
    ensures v.activeGoalId.Some? && (exists i :: 0 <= i < |v.goals| && v.goals[i].id == v.activeGoalId.value)
            ==> r.Some?
  {
    match v.activeGoalId
    case None => None
    case Some(id) => FindGoal(v.goals, id)
  }

  function ElemSet(s: seq<Achievement>): set<Achievement>
  {
    set x | x in s
  }

  /** The triggered milestones of a goal (`triggeredMilestones[id] || []`). */
  function TriggeredOf(m: map<int, seq<int>>, id: int): seq<int>
  {
    if id in m then m[id] else []
  }

  /** `checkAchievements(trigger)` run by a closure that saw the
      transactions `priorTxs`, the goals `priorGoals` and the unlocked list
      `priorUnlocked`: the unlocks are appended to the current list. */
  ghost function AfterUnlocks(v: StoreView, trigger: Trigger, priorTxs: seq<Transaction>, priorGoals: seq<Goal>,
                              priorUnlocked: seq<Achievement>, now: int): StoreView
  {
    v.(unlocked := v.unlocked
         + Unlocks(Candidates(trigger, |priorTxs|, StreakSpec(priorTxs, now), priorGoals), ElemSet(priorUnlocked)))
  }

  /** The goal `createGoal` adds: the name falls back to `Goal <n>` with `n`
      one past the number of goals. */
  function NewGoal(id: int, name: string, amount: int, slots: int, frequency: Frequency,
                   durationValue: Option<int>, durationUnit: Option<DurationUnit>, category: string,
                   now: int, goalCount: int, plan: seq<Bit>): (g: Goal)
    ensures g.id == id && g.targetAmount == amount && g.totalSlots == slots && g.savingsPlan == plan
    ensures g.createdAt == now && g.targetDate == None
    ensures name != "" ==> g.name == name
    ensures name == "" ==> g.name == "Goal " + IntToString(goalCount + 1)
  {
    Goal(id, if name != "" then name else "Goal " + IntToString(goalCount + 1), amount, slots, frequency,
         durationValue, durationUnit, category, now, None, plan)
  }

  /** The transaction a payment records. */
  function PaymentRecord(bit: Bit, payer: Payer, goalName: string, now: int): (t: Transaction)
    ensures t.amount == bit.amount && t.kind == "debit" && t.date == now && t.id == now
    ensures t.accountId == Some(payer)
  {
    Transaction(now, bit.amount, "debit", Some(payer),
                Some("Saved \U{20B9}" + IntToString(bit.amount) + " for " + goalName), now, None, None, None)
  }

  /** The store after `makePayment(bitId, payer)`, with `v` the state it
      starts from. */
  ghost function AfterPayment(v: StoreView, bitId: string, payer: Payer, now: int): StoreView
  {
    match ActiveIn(v)
    case None => v
    case Some(g) =>
      var updatedPlan := MarkPaid(g.savingsPlan, bitId, now, payer);
      var updatedGoal := g.(savingsPlan := updatedPlan);
      var saved := v.(goals := ReplaceGoal(v.goals, updatedGoal), mood := Happy);
      match FindBit(g.savingsPlan, bitId)
      case None => saved
      case Some(bit) =>
        AfterUnlocks(AfterRecord(saved, g, bit, updatedPlan, payer, now),
                     PaymentMade(bit.amount, updatedGoal, bitId), v.transactions, v.goals, v.unlocked, now)
  }

  /** The transaction and milestone part of a payment of `bit` into goal
      `g`, whose plan is `updatedPlan` after the payment. */
  function AfterRecord(v: StoreView, g: Goal, bit: Bit, updatedPlan: seq<Bit>, payer: Payer, now: int): StoreView
  {
    var paid := PaidTotal(updatedPlan);
    var triggered := TriggeredOf(v.triggered, g.id);
    var recorded := v.(transactions := v.transactions + [PaymentRecord(bit, payer, g.name, now)]);
    match FirstMilestone(Milestones, paid, g.targetAmount, triggered)
    case None => recorded
    case Some(m) =>
      recorded.(triggered := v.triggered[g.id := triggered + [m]],
                celebrating := Some(Celebration(m, g.name, paid, g.targetAmount)),
                mood := Excited)
  }

  /** The store after `deleteGoal()`. */
  function AfterDeleteGoal(v: StoreView): StoreView
  {
    match v.activeGoalId
    case None => v
    case Some(id) =>
      var remaining := RemoveGoal(v.goals, id);
      v.(goals := remaining, triggered := v.triggered - {id},
         activeGoalId := if |remaining| > 0 then Some(remaining[0].id) else None)
  }

  /** The store after `addAccount(upiId, name, isDefault)`; the new id is the
      clock reading. */
  function AfterAddAccount(v: StoreView, upiId: string, name: string, isDefault: bool, now: int): StoreView
  {
    v.(accounts := v.accounts + [Account(now, upiId, name)],
       defaultAccountId := if isDefault || |v.accounts| == 0 then Some(now) else v.defaultAccountId)
  }

  /** The store after `deleteAccount(id)`. */
  function AfterDeleteAccount(v: StoreView, id: int): StoreView
  {
    v.(accounts := RemoveAccount(v.accounts, id),
       defaultAccountId := if v.defaultAccountId == Some(id) then None else v.defaultAccountId)
  }

  /** The challenge `createChallenge` starts at `now`; a missing or 0 target
      is stored as no target. */
  function NewChallenge(t: ChallengeTemplate, now: int): (c: Challenge)
    ensures c.status == Active && c.currentAmount == 0 && c.currentCount == 0 && c.completedAt == None
    ensures c.id == now && c.startDate == now && c.endDate == now + t.durationDays * DayMs
    ensures c.title == t.title && c.reward == t.reward
    ensures (IsSet(t.targetAmount) ==> c.targetAmount == t.targetAmount) && (!IsSet(t.targetAmount) ==> c.targetAmount.None?)
    ensures (IsSet(t.targetCount) ==> c.targetCount == t.targetCount) && (!IsSet(t.targetCount) ==> c.targetCount.None?)
  {
    Challenge(now, t.title, OrNull(t.targetAmount), OrNull(t.targetCount), 0, 0, now, now + t.durationDays * DayMs,
              Active, t.reward, None)
  }

  class PiggyStore {
    var goals: seq<Goal>
    var activeGoalId: Option<int>
    var accounts: seq<Account>
    var defaultAccountId: Option<int>
    var transactions: seq<Transaction>
    var unlockedAchievements: seq<Achievement>
    var triggeredMilestones: map<int, seq<int>>
    var celebratingMilestone: Option<Celebration>
    var challenges: seq<Challenge>
    var piggyMood: Mood
    var isEditing: bool
    var savingsStreak: int

    function View(): StoreView
      reads this
    {
      StoreView(goals, activeGoalId, accounts, defaultAccountId, transactions, unlockedAchievements,
                triggeredMilestones, celebratingMilestone, challenges, piggyMood, isEditing, savingsStreak)
    }

    function ActiveGoal(): (r: Option<Goal>)
      reads this
      ensures r == ActiveIn(View())
    {
      match activeGoalId
      case None => None
      case Some(id) => FindGoal(goals, id)
    }

    /** The start-up load: the stored goals pass through the healer (goal `k`
        takes its fresh ids from `uuids[k]`), and the active goal is the
        stored one or else the first goal. */
    constructor Load(dbGoals: seq<Goal>, dbAccounts: seq<Account>, dbTransactions: seq<Transaction>,
                     dbAchievements: seq<Achievement>, activeId: Option<int>, dbTriggered: map<int, seq<int>>,
                     dbChallenges: seq<Challenge>, dbDefaultAccount: Option<int>, uuids: seq<seq<string>>)
      requires |uuids| >= |dbGoals|
      requires forall k :: 0 <= k < |dbGoals| ==> |uuids[k]| >= |dbGoals[k].savingsPlan|
      ensures View() == StoreView(HealGoals(dbGoals, uuids),
                                  if activeId.Some? then activeId
                                  else if |dbGoals| > 0 then Some(dbGoals[0].id) else None,
                                  dbAccounts, dbDefaultAccount, dbTransactions, dbAchievements, dbTriggered,
                                  None, dbChallenges, Neutral, false, 0)
    {
      goals := HealGoals(dbGoals, uuids);
      accounts := dbAccounts;
      transactions := dbTransactions;
      unlockedAchievements := dbAchievements;
      activeGoalId := if activeId.Some? then activeId else if |dbGoals| > 0 then Some(dbGoals[0].id) else None;
      triggeredMilestones := dbTriggered;
      challenges := dbChallenges;
      defaultAccountId := dbDefaultAccount;
      celebratingMilestone := None;
      piggyMood := Neutral;
      isEditing := false;
      savingsStreak := 0;
    }

    /** `saveGoal(updated)`: the goal with its id is replaced in place. */
    method SaveGoal(updated: Goal)
      modifies this
      ensures View() == old(View()).(goals := ReplaceGoal(old(goals), updated))
    {
      goals := ReplaceGoal(goals, updated);
    }

    /** The effect that recomputes the streak when the transactions change. */
    method RefreshStreak(now: int)
      modifies this
      ensures View() == old(View()).(streak := StreakSpec(old(transactions), now))
    {
      savingsStreak := CalculateStreak(transactions, now);
    }

    /** `checkAchievements(trigger)`, from a closure that saw `priorTxs`,
        `priorGoals` and `priorUnlocked`. */
    method CheckAchievements(trigger: Trigger, priorTxs: seq<Transaction>, priorGoals: seq<Goal>,
                             priorUnlocked: seq<Achievement>, now: int)
      modifies this
      ensures View() == AfterUnlocks(old(View()), trigger, priorTxs, priorGoals, priorUnlocked, now)
    {
      var streak := CalculateStreak(priorTxs, now);
      var candidates := Candidates(trigger, |priorTxs|, streak, priorGoals);
      AppendUnlocks(candidates, ElemSet(priorUnlocked));
    }

    /** The loop of `checkAchievements`: each candidate not unlocked yet is
        appended twice, by two successive `setUnlockedAchievements`
        updates, and then counts as unlocked. */
    method AppendUnlocks(candidates: seq<Achievement>, unlocked: set<Achievement>)
      modifies this`unlockedAchievements
      ensures unlockedAchievements == old(unlockedAchievements) + Unlocks(candidates, unlocked)
    {
      var unlockedSet := unlocked;
      ghost var total := Unlocks(candidates, unlocked);
      ghost var done: seq<Achievement> := [];
      assert candidates[0..] == candidates;
      var i := 0;
      while i < |candidates|
        invariant 0 <= i <= |candidates|
        invariant unlockedAchievements == old(unlockedAchievements) + done
        invariant done + Unlocks(candidates[i..], unlockedSet) == total
      {
        var id := candidates[i];
        UnlocksStep(candidates, i, unlockedSet, done, total);
        if id !in unlockedSet {
          unlockedAchievements := unlockedAchievements + [id];
          unlockedAchievements := unlockedAchievements + [id];
          unlockedSet := unlockedSet + {id};
          done := done + [id, id];
        }
        i := i + 1;
      }
      UnlocksDone(candidates, unlockedSet, done, total);
    }

    /** `createGoal(...)`: the new goal, with id `now + jitter` and a plan
        from the generator, is appended and made active; editing ends and
        `beginners_luck` is asked for.  `freshIds` are the plan's bit ids. */
    method CreateGoal(name: string, amount: int, slots: int, frequency: Frequency,
                      durationValue: Option<int>, durationUnit: Option<DurationUnit>, category: string,
                      now: int, jitter: int, freshIds: seq<string>)
      returns (newId: int, ghost plan: seq<Bit>)
      requires 0 <= jitter < 1000
      requires slots >= 1 && |freshIds| >= slots
      modifies this
      ensures newId == now + jitter
      ensures |plan| == slots && PlanTotal(plan) == amount
      ensures forall p :: 0 <= p < |plan| ==> FreshBit(plan[p], slots, frequency, now, freshIds)
      ensures View()
           == AfterUnlocks(old(View()).(goals := old(goals) + [NewGoal(newId, name, amount, slots, frequency, durationValue,
                                                                         durationUnit, category, now, |old(goals)|, plan)],
                                        activeGoalId := Some(newId), isEditing := false),
                           GoalCreated, old(transactions), old(goals), old(unlockedAchievements), now)
    {
      var priorTxs := transactions;
      var priorGoals := goals;
      var priorUnlocked := unlockedAchievements;
      newId := now + jitter;
      var p := GeneratePlan(amount, slots, frequency, now, freshIds);
      plan := p;
      var newGoal := NewGoal(newId, name, amount, slots, frequency, durationValue, durationUnit, category,
                             now, |goals|, p);
      goals := goals + [newGoal];
      activeGoalId := Some(newId);
      isEditing := false;
      CheckAchievements(GoalCreated, priorTxs, priorGoals, priorUnlocked, now);
    }

    /** `updateGoal(form)`: without an active goal nothing happens.  The plan
        is regenerated (with `freshIds`, at `now`) only when the amount, the
        slot count or the frequency differs; an empty name keeps the old
        one; editing ends. */
    method UpdateGoal(name: string, amount: int, slots: int, frequency: Frequency,
                      durationValue: Option<int>, durationUnit: Option<DurationUnit>,
                      now: int, freshIds: seq<string>)
      returns (ghost plan: seq<Bit>)
      requires slots >= 1 && |freshIds| >= slots
      modifies this
      ensures old(ActiveGoal()).None? ==> View() == old(View())
      ensures old(ActiveGoal()).Some? ==>
        var g := old(ActiveGoal()).value;
        var regenerate := amount != g.targetAmount || slots != g.totalSlots || frequency != g.frequency;
        && (!regenerate ==> plan == g.savingsPlan)
        && (regenerate ==> |plan| == slots && PlanTotal(plan) == amount
                           && forall p :: 0 <= p < |plan| ==> FreshBit(plan[p], slots, frequency, now, freshIds))
        && View() == old(View()).(goals := ReplaceGoal(old(goals),
                                      g.(name := if name != "" then name else g.name, targetAmount := amount,
                                         totalSlots := slots, frequency := frequency,
                                         durationValue := durationValue, durationUnit := durationUnit,
                                         savingsPlan := plan)),
                                  isEditing := false)
    {
      var active := ActiveGoal();
      if active.None? {
        return [];
      }
      var g := active.value;
      var newPlan := EditedPlan(g, amount, slots, frequency, now, freshIds);
      plan := newPlan;
      var updated := g.(name := if name != "" then name else g.name, targetAmount := amount,
                        totalSlots := slots, frequency := frequency,
                        durationValue := durationValue, durationUnit := durationUnit, savingsPlan := newPlan);
      SaveGoal(updated);
      isEditing := false;
    }

    method SwitchGoal(id: int)
      modifies this
      ensures View() == old(View()).(activeGoalId := Some(id))
    {
      activeGoalId := Some(id);
    }

    method AddAccount(upiId: string, name: string, isDefault: bool, now: int)
      modifies this
      ensures View() == AfterAddAccount(old(View()), upiId, name, isDefault, now)
    {
      var wasEmpty := |accounts| == 0;
      accounts := accounts + [Account(now, upiId, name)];
      if isDefault || wasEmpty {
        defaultAccountId := Some(now);
      }
    }

    method DeleteAccount(id: int)
      modifies this
      ensures View() == AfterDeleteAccount(old(View()), id)
    {
      accounts := RemoveAccount(accounts, id);
      if defaultAccountId == Some(id) {
        defaultAccountId := None;
      }
    }

    method SetGlobalDefaultAccount(id: int)
      modifies this
      ensures View() == old(View()).(defaultAccountId := Some(id))
    {
      defaultAccountId := Some(id);
    }

    /** `makePayment(bitId, payer)` at time `now`. */
    method MakePayment(bitId: string, payer: Payer, now: int)
      modifies this
      ensures View() == AfterPayment(old(View()), bitId, payer, now)
    {
      var active := ActiveGoal();
      if active.None? {
        return;
      }
      var g := active.value;
      var priorTxs := transactions;
      var priorGoals := goals;
      var priorUnlocked := unlockedAchievements;
      var updatedPlan := MarkPaid(g.savingsPlan, bitId, now, payer);
      var updatedGoal := g.(savingsPlan := updatedPlan);
      SaveGoal(updatedGoal);
      piggyMood := Happy;
      var bit := FindBit(g.savingsPlan, bitId);
      if bit.Some? {
        RecordPayment(g, bit.value, updatedPlan, payer, now);
        CheckAchievements(PaymentMade(bit.value.amount, updatedGoal, bitId), priorTxs, priorGoals, priorUnlocked, now);
      }
    }

    /** The new transaction, then the first milestone reached and not yet
        celebrated for the goal, if any. */
    method RecordPayment(g: Goal, bit: Bit, updatedPlan: seq<Bit>, payer: Payer, now: int)
      modifies this
      ensures View() == AfterRecord(old(View()), g, bit, updatedPlan, payer, now)
    {
      transactions := transactions + [PaymentRecord(bit, payer, g.name, now)];
      var totalSaved := PaidTotal(updatedPlan);
      var triggered := TriggeredOf(triggeredMilestones, g.id);
      var hit := FirstMilestone(Milestones, totalSaved, g.targetAmount, triggered);
      if hit.Some? {
        triggeredMilestones := triggeredMilestones[g.id := triggered + [hit.value]];
        celebratingMilestone := Some(Celebration(hit.value, g.name, totalSaved, g.targetAmount));
        piggyMood := Excited;
      }
    }

    /** `deleteGoal()`: the active goal and its triggered milestones go, and
        the first remaining goal, if any, becomes active. */
    method DeleteGoal()
      modifies this
      ensures View() == AfterDeleteGoal(old(View()))
    {
      if activeGoalId.None? {
        return;
      }
      var id := activeGoalId.value;
      var remaining := RemoveGoal(goals, id);
      triggeredMilestones := triggeredMilestones - {id};
      goals := remaining;
      if |remaining| > 0 {
        SwitchGoal(remaining[0].id);
      } else {
        activeGoalId := None;
      }
    }

    method CloseMilestone()
      modifies this
      ensures View() == old(View()).(celebrating := None)
    {
      celebratingMilestone := None;
    }

    /** `createChallenge(template)` at time `now`; the new id is the clock
        reading. */
    method CreateChallenge(t: ChallengeTemplate, now: int) returns (id: int)
      modifies this
      ensures id == now
      ensures View() == old(View()).(challenges := old(challenges) + [NewChallenge(t, now)])
    {
      var c := NewChallenge(t, now);
      challenges := challenges + [c];
      id := c.id;
    }

    /** `updateChallengeProgress(id, amount, incrementCount)`, from a closure
        that saw the challenge list `snapshot`.  Completing a challenge also
        runs the `CHALLENGE_COMPLETED` check, which unlocks nothing. */
    method UpdateChallengeProgress(snapshot: seq<Challenge>, id: int, amount: int, incrementCount: bool, now: int)
      modifies this
      ensures View() == old(View()).(challenges := ProgressStep(old(challenges), snapshot, id, amount, incrementCount, now))
    {
      var found := FindChallenge(snapshot, id);
      if found.None? || found.value.status != Active {
        return;
      }
      var updated := Progressed(found.value, amount, incrementCount, now);
      challenges := ReplaceChallenge(challenges, updated);
    }

    /** The effect run when the number of transactions changes: every
        challenge active at the start whose window holds the newest
        transaction's date is progressed by its amount and one count, each
        pass doing what `UpdateChallengeProgress` does with the list seen at
        the start. */
    method OnTransactionAdded(now: int)
      modifies this
      ensures |old(transactions)| == 0 ==> View() == old(View())
      ensures |old(transactions)| > 0 ==>
        View() == old(View()).(challenges := TxEffect(old(challenges), old(challenges), ActiveOnes(old(challenges)),
                                                      old(transactions)[|old(transactions)| - 1], now))
    {
      if |transactions| == 0 {
        return;
      }
      var lastTx := transactions[|transactions| - 1];
      var snapshot := challenges;
      var active := ActiveOnes(snapshot);
      var cs := challenges;
      var i := 0;
      while i < |active|
        invariant 0 <= i <= |active|
        invariant TxEffect(cs, snapshot, active[i..], lastTx, now) == TxEffect(snapshot, snapshot, active, lastTx, now)
      {
        var c := active[i];
        assert active[i..][0] == c && active[i..][1..] == active[i + 1..];
        if InWindow(c, lastTx.date) {
          cs := ProgressStep(cs, snapshot, c.id, lastTx.amount, true, now);
        }
        i := i + 1;
      }
      challenges := cs;
    }

    /** The expiry check at time `now`: every challenge active at the start
        whose end lies before `now` is marked failed in place. */
    method ExpireChallenges(now: int)
      modifies this
      ensures View() == old(View()).(challenges := ExpireEach(old(challenges), Expired(old(challenges), now)))
    {
      var expired := Expired(challenges, now);
      var cs := challenges;
      var i := 0;
      while i < |expired|
        invariant 0 <= i <= |expired|
        invariant ExpireEach(cs, expired[i..]) == ExpireEach(old(challenges), expired)
      {
        assert expired[i..][0] == expired[i] && expired[i..][1..] == expired[i + 1..];
        cs := ReplaceChallenge(cs, expired[i].(status := Failed));
        i := i + 1;
      }
      challenges := cs;
    }
  }

  /** The plan an edited goal keeps: the old one unless the amount, the slot
      count or the frequency changed, else a fresh one. */
  method EditedPlan(g: Goal, amount: int, slots: int, frequency: Frequency, now: int, freshIds: seq<string>)
    returns (plan: seq<Bit>)
    requires slots >= 1 && |freshIds| >= slots
    ensures var regenerate := amount != g.targetAmount || slots != g.totalSlots || frequency != g.frequency;
      && (!regenerate ==> plan == g.savingsPlan)
      && (regenerate ==> |plan| == slots && PlanTotal(plan) == amount
                         && forall p :: 0 <= p < |plan| ==> FreshBit(plan[p], slots, frequency, now, freshIds))
  {
    plan := g.savingsPlan;
    if amount != g.targetAmount || slots != g.totalSlots || frequency != g.frequency {
      plan := GeneratePlan(amount, slots, frequency, now, freshIds);
    }
  }

  /** A payment changes only the active goal, and in it only the bits with
      the paid id; accounts and challenges stay as they were, and without an
      active goal nothing changes at all. */
  lemma PaymentTouchesOnlyTheBit(v: StoreView, bitId: string, payer: Payer, now: int)
    ensures var r := AfterPayment(v, bitId, payer, now);
      && (ActiveIn(v).None? ==> r == v)
      && r.accounts == v.accounts && r.challenges == v.challenges && r.defaultAccountId == v.defaultAccountId
      && r.activeGoalId == v.activeGoalId
      && (ActiveIn(v).Some? ==>
            var g := ActiveIn(v).value;
            && |r.goals| == |v.goals|
            && (forall i :: 0 <= i < |v.goals| && v.goals[i].id != g.id ==> r.goals[i] == v.goals[i])
            && FindGoal(r.goals, g.id) == Some(g.(savingsPlan := MarkPaid(g.savingsPlan, bitId, now, payer))))
  {
    if ActiveIn(v).Some? {
      var g := ActiveIn(v).value;
      var ug := g.(savingsPlan := MarkPaid(g.savingsPlan, bitId, now, payer));
      PaymentFrame(v, bitId, payer, now);
      ReplaceThenFind(v.goals, ug);
    }
  }

  /** What a payment leaves alone: the goals become the replaced list, and
      accounts, challenges, the default and the active id do not change. */
  lemma PaymentFrame(v: StoreView, bitId: string, payer: Payer, now: int)
    ensures var r := AfterPayment(v, bitId, payer, now);
      && r.accounts == v.accounts && r.challenges == v.challenges && r.defaultAccountId == v.defaultAccountId
      && r.activeGoalId == v.activeGoalId
      && (ActiveIn(v).Some? ==>
            var g := ActiveIn(v).value;
            r.goals == ReplaceGoal(v.goals, g.(savingsPlan := MarkPaid(g.savingsPlan, bitId, now, payer))))
  {
    if ActiveIn(v).Some? {
      var g := ActiveIn(v).value;
      var updatedPlan := MarkPaid(g.savingsPlan, bitId, now, payer);
      var ug := g.(savingsPlan := updatedPlan);
      var saved := v.(goals := ReplaceGoal(v.goals, ug), mood := Happy);
      if FindBit(g.savingsPlan, bitId).Some? {
        var bit := FindBit(g.savingsPlan, bitId).value;
        var rec := AfterRecord(saved, g, bit, updatedPlan, payer, now);
        assert rec.goals == saved.goals && rec.accounts == v.accounts && rec.challenges == v.challenges;
        assert rec.defaultAccountId == v.defaultAccountId && rec.activeGoalId == v.activeGoalId;
        assert AfterPayment(v, bitId, payer, now)
            == AfterUnlocks(rec, PaymentMade(bit.amount, ug, bitId), v.transactions, v.goals, v.unlocked, now);
      }
    }
  }

  /** A payment of a known bit appends exactly one transaction, of that
      bit's amount, so the recorded total grows by the amount; an unknown id
      records nothing, celebrates nothing and unlocks nothing. */
  lemma PaymentRecordsOneTransaction(v: StoreView, bitId: string, payer: Payer, now: int)
    requires ActiveIn(v).Some?
    ensures var r := AfterPayment(v, bitId, payer, now);
      var g := ActiveIn(v).value;
      && (FindBit(g.savingsPlan, bitId).None? ==>
            r.transactions == v.transactions && r.triggered == v.triggered
            && r.celebrating == v.celebrating && r.unlocked == v.unlocked && r.mood == Happy)
      && (FindBit(g.savingsPlan, bitId).Some? ==>
            var bit := FindBit(g.savingsPlan, bitId).value;
            && |r.transactions| == |v.transactions| + 1
            && r.transactions[..|v.transactions|] == v.transactions
            && r.transactions[|v.transactions|].amount == bit.amount
            && r.transactions[|v.transactions|].kind == "debit"
            && TotalAmount(r.transactions) == TotalAmount(v.transactions) + bit.amount)
  {
    PaymentRecordPart(v, bitId, payer, now);
    var g := ActiveIn(v).value;
    if FindBit(g.savingsPlan, bitId).Some? {
      var bit := FindBit(g.savingsPlan, bitId).value;
      AppendOneRecord(v.transactions, PaymentRecord(bit, payer, g.name, now));
    }
  }

  /** Appending one transaction adds its amount to the total. */
  lemma AppendOneRecord(txs: seq<Transaction>, tx: Transaction)
    ensures var r := txs + [tx];
      |r| == |txs| + 1 && r[..|txs|] == txs && r[|txs|] == tx
      && TotalAmount(r) == TotalAmount(txs) + tx.amount
  {
    TotalAmountAppend(txs, [tx]);
    assert TotalAmount([tx]) == tx.amount by {
      assert [tx][..0] == [];
    }
  }

  /** At most one milestone fires per payment, only for the active goal, and
      it is the smallest of 25, 50, 75 and 100 percent that the paid total
      after the payment reaches and that the goal has not celebrated yet. */
  lemma PaymentCelebratesSmallestMilestone(v: StoreView, bitId: string, payer: Payer, now: int)
    requires ActiveIn(v).Some?
    ensures var r := AfterPayment(v, bitId, payer, now);
      var g := ActiveIn(v).value;
      var paid := PaidTotal(MarkPaid(g.savingsPlan, bitId, now, payer));
      var before := TriggeredOf(v.triggered, g.id);
      && (forall id :: id != g.id ==> TriggeredOf(r.triggered, id) == TriggeredOf(v.triggered, id))
      && (r.triggered == v.triggered || exists m :: TriggeredOf(r.triggered, g.id) == before + [m])
      && (r.triggered != v.triggered ==>
            var m := TriggeredOf(r.triggered, g.id)[|before|];
            && r.celebrating == Some(Celebration(m, g.name, paid, g.targetAmount))
            && m in Milestones && ReachedPercent(paid, g.targetAmount, m) && m !in before
            && (forall m' :: m' in Milestones && m' < m ==> !(ReachedPercent(paid, g.targetAmount, m') && m' !in before)))
  {
    var g := ActiveIn(v).value;
    var paid := PaidTotal(MarkPaid(g.savingsPlan, bitId, now, payer));
    var before := TriggeredOf(v.triggered, g.id);
    var hit := FirstMilestone(Milestones, paid, g.targetAmount, before);
    var r := AfterPayment(v, bitId, payer, now);
    PaymentRecordPart(v, bitId, payer, now);
    CelebrationOf(v.triggered, r.triggered, r.celebrating, g.id, g.name, paid, g.targetAmount,
                  FindBit(g.savingsPlan, bitId).Some? && hit.Some?);
  }

  /** The milestone part of a payment, on the milestone map alone: either
      nothing fires, or the first milestone due is appended to the goal's
      list and celebrated. */
  lemma CelebrationOf(before: map<int, seq<int>>, after: map<int, seq<int>>, celebrating: Option<Celebration>,
                      id: int, name: string, paid: int, target: int, fired: bool)
    requires var hit := FirstMilestone(Milestones, paid, target, TriggeredOf(before, id));
      && (!fired ==> after == before)
      && (fired ==> hit.Some? && after == before[id := TriggeredOf(before, id) + [hit.value]]
                    && celebrating == Some(Celebration(hit.value, name, paid, target)))
    ensures var had := TriggeredOf(before, id);
      && (forall id' :: id' != id ==> TriggeredOf(after, id') == TriggeredOf(before, id'))
      && (after == before || exists m :: TriggeredOf(after, id) == had + [m])
      && (after != before ==>
            var m := TriggeredOf(after, id)[|had|];
            && celebrating == Some(Celebration(m, name, paid, target))
            && m in Milestones && ReachedPercent(paid, target, m) && m !in had
            && (forall m' :: m' in Milestones && m' < m ==> !(ReachedPercent(paid, target, m') && m' !in had)))
  {
    var had := TriggeredOf(before, id);
    NextMilestoneIsSmallest(paid, target, had);
    if fired {
      var m := FirstMilestone(Milestones, paid, target, had).value;
      assert TriggeredOf(after, id) == had + [m];
      assert TriggeredOf(after, id)[|had|] == m;
    }
  }

  /** The transaction, milestone and mood part of a payment is the record
      step's; an unknown bit leaves them alone. */
  lemma PaymentRecordPart(v: StoreView, bitId: string, payer: Payer, now: int)
    requires ActiveIn(v).Some?
    ensures var r := AfterPayment(v, bitId, payer, now);
      var g := ActiveIn(v).value;
      var updatedPlan := MarkPaid(g.savingsPlan, bitId, now, payer);
      var paid := PaidTotal(updatedPlan);
      var before := TriggeredOf(v.triggered, g.id);
      && (FindBit(g.savingsPlan, bitId).None? ==>
            r.transactions == v.transactions && r.triggered == v.triggered
            && r.celebrating == v.celebrating && r.unlocked == v.unlocked && r.mood == Happy)
      && (FindBit(g.savingsPlan, bitId).Some? ==>
            var bit := FindBit(g.savingsPlan, bitId).value;
            && r.transactions == v.transactions + [PaymentRecord(bit, payer, g.name, now)]
            && (FirstMilestone(Milestones, paid, g.targetAmount, before).None? ==>
                  r.triggered == v.triggered && r.celebrating == v.celebrating)
            && (FirstMilestone(Milestones, paid, g.targetAmount, before).Some? ==>
                  var m := FirstMilestone(Milestones, paid, g.targetAmount, before).value;
                  r.triggered == v.triggered[g.id := before + [m]]
                  && r.celebrating == Some(Celebration(m, g.name, paid, g.targetAmount))))
  {
    var g := ActiveIn(v).value;
    var updatedPlan := MarkPaid(g.savingsPlan, bitId, now, payer);
    var ug := g.(savingsPlan := updatedPlan);
    var saved := v.(goals := ReplaceGoal(v.goals, ug), mood := Happy);
    if FindBit(g.savingsPlan, bitId).Some? {
      var bit := FindBit(g.savingsPlan, bitId).value;
      var rec := AfterRecord(saved, g, bit, updatedPlan, payer, now);
      assert AfterPayment(v, bitId, payer, now)
          == AfterUnlocks(rec, PaymentMade(bit.amount, ug, bitId), v.transactions, v.goals, v.unlocked, now);
    }
  }

  /** A payment appends each achievement twice when its rule fires and it
      was not unlocked when the payment began, and never otherwise. */
  lemma PaymentUnlocksCount(v: StoreView, bitId: string, payer: Payer, now: int, x: Achievement)
    requires ActiveIn(v).Some? && FindBit(ActiveIn(v).value.savingsPlan, bitId).Some?
    ensures var r := AfterPayment(v, bitId, payer, now);
      var g := ActiveIn(v).value;
      var bit := FindBit(g.savingsPlan, bitId).value;
      var c := Candidates(PaymentMade(bit.amount, g.(savingsPlan := MarkPaid(g.savingsPlan, bitId, now, payer)), bitId),
                          |v.transactions|, StreakSpec(v.transactions, now), v.goals);
      multiset(r.unlocked)[x] == multiset(v.unlocked)[x] + (if x in c && x !in v.unlocked then 2 else 0)
  {
    var r := AfterPayment(v, bitId, payer, now);
    var g := ActiveIn(v).value;
    var bit := FindBit(g.savingsPlan, bitId).value;
    var trigger := PaymentMade(bit.amount, g.(savingsPlan := MarkPaid(g.savingsPlan, bitId, now, payer)), bitId);
    var c := Candidates(trigger, |v.transactions|, StreakSpec(v.transactions, now), v.goals);
    CandidatesDistinct(trigger, |v.transactions|, StreakSpec(v.transactions, now), v.goals);
    UnlocksCount(c, ElemSet(v.unlocked), x);
    assert r.unlocked == v.unlocked + Unlocks(c, ElemSet(v.unlocked));
  }

  /** Deleting the active goal leaves no goal with its id and forgets its
      milestones; the first goal with another id becomes active, or none
      when every goal had the id.  Without an active goal nothing changes. */
  lemma DeleteGoalActivatesFirstRemaining(v: StoreView)
    ensures var r := AfterDeleteGoal(v);
      && (v.activeGoalId.None? ==> r == v)
      && (v.activeGoalId.Some? ==>
            var id := v.activeGoalId.value;
            && (forall g :: g in r.goals <==> g in v.goals && g.id != id)
            && id !in r.triggered
            && (forall k :: k in r.triggered <==> k in v.triggered && k != id)
            && (r.activeGoalId.None? <==> forall i :: 0 <= i < |v.goals| ==> v.goals[i].id == id)
            && (forall k :: 0 <= k < |v.goals| && v.goals[k].id != id && (forall j :: 0 <= j < k ==> v.goals[j].id == id)
                  ==> r.activeGoalId == Some(v.goals[k].id)))
  {
    if v.activeGoalId.Some? {
      var id := v.activeGoalId.value;
      var r := AfterDeleteGoal(v);
      forall k | 0 <= k < |v.goals| && v.goals[k].id != id && (forall j :: 0 <= j < k ==> v.goals[j].id == id)
        ensures r.activeGoalId == Some(v.goals[k].id)
      {
        RemoveGoalFirst(v.goals, id, k);
      }
      if r.activeGoalId.Some? {
        assert RemoveGoal(v.goals, id)[0] in v.goals;
      }
    }
  }

  /** A new account becomes the default exactly when it is flagged so or is
      the first one; otherwise the default stays. */
  lemma AddAccountDefault(v: StoreView, upiId: string, name: string, isDefault: bool, now: int)
    ensures var r := AfterAddAccount(v, upiId, name, isDefault, now);
      && r.accounts[..|v.accounts|] == v.accounts && r.accounts[|v.accounts|] == Account(now, upiId, name)
      && ((isDefault || v.accounts == []) ==> r.defaultAccountId == Some(now))
      && (!(isDefault || v.accounts == []) ==> r.defaultAccountId == v.defaultAccountId)
      && r.goals == v.goals && r.transactions == v.transactions
  {
  }

  /** Deleting an account removes exactly the accounts with its id and
      clears the default exactly when the default was that account. */
  lemma DeleteAccountDefault(v: StoreView, id: int)
    ensures var r := AfterDeleteAccount(v, id);
      && (forall a :: a in r.accounts <==> a in v.accounts && a.id != id)
      && (r.defaultAccountId == None <==> v.defaultAccountId == None || v.defaultAccountId == Some(id))
      && (r.defaultAccountId != None ==> r.defaultAccountId == v.defaultAccountId)
  {
  }

  /** Loading returns every stored goal whose plan has no repeated bit id
      exactly as stored, and activates the stored id or else the first goal. */
  lemma LoadKeepsCleanGoals(dbGoals: seq<Goal>, uuids: seq<seq<string>>, k: int)
    requires |uuids| >= |dbGoals|
    requires forall j :: 0 <= j < |dbGoals| ==> |uuids[j]| >= |dbGoals[j].savingsPlan|
    requires 0 <= k < |dbGoals|
    requires forall i, j :: 0 <= i < j < |dbGoals[k].savingsPlan| ==> dbGoals[k].savingsPlan[i].id != dbGoals[k].savingsPlan[j].id
    ensures HealGoals(dbGoals, uuids)[k] == dbGoals[k]
  {
    HealKeepsCleanPlan(dbGoals[k].savingsPlan, uuids[k]);
  }
}
