/** Splitting a savings target into a plan of deposit slots ("bits").

    `Math.random()` choices are nondeterministic choices (`:|`) and the
    `crypto.randomUUID()` values are taken from the oracle `freshIds`, one per
    slot, in creation order.  The code calls `Date.now()` again for each
    bit; the model reads the clock once, as `now`. */
module PlanGeneration {
  import opened Common
  import opened Domain

  /** Milliseconds between two due dates of a plan with this frequency. */
  function IntervalMs(f: Frequency): int
  {
    IntervalDays(f) * DayMs
  }

  /** Due date of the bit `k` intervals after the first. */
  function DueAt(now: int, f: Frequency, k: int): int
  {
    now + k * IntervalMs(f)
  }

  /** Amount of bit number `p` (from 0) in the even split. */
  function EvenAmount(amount: int, slots: int, p: int): int
    requires slots > 0
  {
    amount / slots + (if p < amount % slots then 1 else 0)
  }

  /** A plan's smallest per-slot amount and the chunk sizes it distributes. */
  datatype Tier = Tier(minAmount: int, chunks: seq<int>)

  /** The tier for a target split into `slots` slots; the chunks start at
      the minimum and grow. */
  function TierFor(amount: int, slots: int): (t: Tier)
    requires slots > 0
    ensures |t.chunks| == 4 && t.chunks[0] == t.minAmount > 0
    ensures t.chunks[0] < t.chunks[1] < t.chunks[2] < t.chunks[3]
  {
    if amount > 50000 * slots then Tier(5000, [5000, 10000, 20000, 50000])
    else if amount > 5000 * slots then Tier(500, [500, 1000, 2000, 5000])
    else if amount > 500 * slots then Tier(100, [100, 200, 500, 1000])
    else Tier(50, [50, 100, 200, 500])
  }

  /** The tier is picked by the average amount per slot, `amount / slots`
      computed exactly: above 50000 the minimum is 5000, above 5000 it is
      500, above 500 it is 100, and otherwise 50. */
  lemma TierByAverage(amount: int, slots: int)
    requires slots > 0
    ensures amount as real / slots as real > 50000.0 ==> TierFor(amount, slots).minAmount == 5000
    ensures 5000.0 < amount as real / slots as real <= 50000.0 ==> TierFor(amount, slots).minAmount == 500
    ensures 500.0 < amount as real / slots as real <= 5000.0 ==> TierFor(amount, slots).minAmount == 100
    ensures amount as real / slots as real <= 500.0 ==> TierFor(amount, slots).minAmount == 50
  {
    AverageAbove(amount, slots, 50000);
    AverageAbove(amount, slots, 5000);
    AverageAbove(amount, slots, 500);
  }

  /** The average exceeds `x` exactly when the amount exceeds `x` per slot. */
  lemma AverageAbove(amount: int, slots: int, x: int)
    requires slots > 0
    ensures amount as real / slots as real > x as real <==> amount > x * slots
  {
    RatioCompare(amount as real, slots as real, x as real);
    assert (x * slots) as real == x as real * slots as real;
  }

  /** A larger average never gets a smaller minimum. */
  lemma TierMonotone(a1: int, s1: int, a2: int, s2: int)
    requires s1 > 0 && s2 > 0
    requires a1 as real / s1 as real <= a2 as real / s2 as real
    ensures TierFor(a1, s1).minAmount <= TierFor(a2, s2).minAmount
  {
    TierByAverage(a1, s1);
    TierByAverage(a2, s2);
  }

  /** A freshly generated bit: its index is in range, it carries the index's
      fresh id, it is pending and unpaid, and it is due `index - 1` intervals
      after `now`. */
  predicate FreshBit(b: Bit, slots: int, frequency: Frequency, now: int, freshIds: seq<string>)
  {
    1 <= b.index <= slots && b.index <= |freshIds|
    && b.id == freshIds[b.index - 1]
    && b.status == Pending && b.paidAt == None && b.paidBy == None
    && b.dueDate == DueAt(now, frequency, b.index - 1)
  }

  /** Some bit of the plan has index `k`. */
  ghost predicate HasIndex(plan: seq<Bit>, k: int)
  {
    exists p :: 0 <= p < |plan| && plan[p].index == k
  }

  /** `generatePlanLogic(amount, slots, frequency)`.  Callers pass a positive
      slot count (the form refuses any other). */
  method GeneratePlan(amount: int, slots: int, frequency: Frequency, now: int, freshIds: seq<string>)
    returns (plan: seq<Bit>)
    requires slots >= 1
    requires |freshIds| >= slots
    ensures |plan| == slots
    ensures PlanTotal(plan) == amount
    ensures forall p :: 0 <= p < |plan| ==> FreshBit(plan[p], slots, frequency, now, freshIds)
    ensures forall k :: 1 <= k <= slots ==> HasIndex(plan, k)
    ensures amount < TierFor(amount, slots).minAmount * slots ==>
      forall p :: 0 <= p < |plan| ==>
        plan[p].index == p + 1 && plan[p].amount == EvenAmount(amount, slots, p)
    ensures amount >= TierFor(amount, slots).minAmount * slots ==>
      forall p :: 0 <= p < |plan| ==> plan[p].amount >= TierFor(amount, slots).minAmount
  {
    var tier := TierFor(amount, slots);
    var minAmount := tier.minAmount;
    if amount < minAmount * slots {
      plan := EvenSplit(amount, slots, frequency, now, freshIds);
      forall k | 1 <= k <= slots
        ensures HasIndex(plan, k)
      {
        assert plan[k - 1].index == k;
      }
      return;
    }
    plan := TieredPlan(amount, slots, frequency, now, freshIds);
  }

  /** The tiered branch of `generatePlanLogic`: every slot starts at the
      tier minimum, the rest is handed out in random chunks, and the bits are
      shuffled. */
  method TieredPlan(amount: int, slots: int, frequency: Frequency, now: int, freshIds: seq<string>)
    returns (plan: seq<Bit>)
    requires slots >= 1 && |freshIds| >= slots
    requires amount >= TierFor(amount, slots).minAmount * slots
    ensures |plan| == slots
    ensures PlanTotal(plan) == amount
    ensures forall p :: 0 <= p < |plan| ==>
      FreshBit(plan[p], slots, frequency, now, freshIds) && plan[p].amount >= TierFor(amount, slots).minAmount
    ensures forall k :: 1 <= k <= slots ==> HasIndex(plan, k)
  {
    var tier := TierFor(amount, slots);
    var minAmount := tier.minAmount;
    var raw := new int[slots](_ => minAmount);
    assert raw[..] == seq(slots, _ => minAmount);
    SumConstant(slots, minAmount);
    Distribute(raw, tier, amount - minAmount * slots);
    var built := BuildBits(raw, frequency, now, freshIds);
    var arr := new Bit[slots](k requires 0 <= k < slots => built[k]);
    assert arr[..] == built;
    Shuffle(arr);
    plan := arr[..];
    ShuffledStillFresh(plan, built, raw[..], frequency, now, freshIds, minAmount);
  }

  /** A reordering of freshly built bits, numbered `1..slots`, still holds
      fresh bits of at least the minimum, one with each index. */
  lemma ShuffledStillFresh(plan: seq<Bit>, built: seq<Bit>, amounts: seq<int>, frequency: Frequency,
                           now: int, freshIds: seq<string>, minAmount: int)
    requires multiset(plan) == multiset(built)
    requires |built| == |amounts| <= |freshIds|
    requires forall p :: 0 <= p < |amounts| ==>
      built[p] == Bit(freshIds[p], p + 1, amounts[p], Pending, DueAt(now, frequency, p), None, None)
    requires forall p :: 0 <= p < |amounts| ==> amounts[p] >= minAmount
    ensures forall p :: 0 <= p < |plan| ==>
      FreshBit(plan[p], |amounts|, frequency, now, freshIds) && plan[p].amount >= minAmount
    ensures forall k :: 1 <= k <= |amounts| ==> HasIndex(plan, k)
  {
    var slots := |amounts|;
    forall p | 0 <= p < |plan|
      ensures FreshBit(plan[p], slots, frequency, now, freshIds) && plan[p].amount >= minAmount
    {
      assert plan[p] in multiset(built);
      var q :| 0 <= q < |built| && built[q] == plan[p];
    }
    forall k | 1 <= k <= slots
      ensures HasIndex(plan, k)
    {
      assert built[k - 1] in multiset(plan);
      var p :| 0 <= p < |plan| && plan[p] == built[k - 1];
    }
  }

  /** The even split used when the target cannot give every slot the tier
      minimum: `amount / slots` rounded down, plus one for the first
      `amount mod slots` bits, in index order. */
  method EvenSplit(amount: int, slots: int, frequency: Frequency, now: int, freshIds: seq<string>)
    returns (plan: seq<Bit>)
    requires slots >= 1
    requires |freshIds| >= slots
    ensures |plan| == slots
    ensures PlanTotal(plan) == amount
    ensures forall p :: 0 <= p < slots ==>
      plan[p] == Bit(freshIds[p], p + 1, EvenAmount(amount, slots, p),
                     Pending, DueAt(now, frequency, p), None, None)
  {
    var interval := IntervalMs(frequency);
    var bitAmount := amount / slots;
    var rem := amount - bitAmount * slots;
    assert rem == amount % slots by {
      DivModParts(amount, slots);
    }
    plan := [];
    var i := 0;
    while i < slots
      invariant 0 <= i <= slots && |plan| == i
      invariant forall p :: 0 <= p < i ==>
        plan[p] == Bit(freshIds[p], p + 1, EvenAmount(amount, slots, p),
                       Pending, DueAt(now, frequency, p), None, None)
      invariant PlanTotal(plan) == EvenPrefixTotal(amount, slots, i)
    {
      var b := Bit(freshIds[i], i + 1, if i < rem then bitAmount + 1 else bitAmount,
                   Pending, now + i * interval, None, None);
      assert b == Bit(freshIds[i], i + 1, EvenAmount(amount, slots, i),
                      Pending, DueAt(now, frequency, i), None, None);
      assert PlanTotal(plan + [b]) == EvenPrefixTotal(amount, slots, i + 1) by {
        assert (plan + [b])[..i] == plan;
        EvenPrefixStep(amount, slots, i);
      }
      plan := plan + [b];
      i := i + 1;
    }
    EvenPrefixWhole(amount, slots);
  }

  /** Total of the first `i` bits of the even split. */
  function EvenPrefixTotal(amount: int, slots: int, i: int): int
    requires slots > 0
  {
    i * (amount / slots) + (if i < amount % slots then i else amount % slots)
  }

  lemma EvenPrefixStep(amount: int, slots: int, i: int)
    requires slots > 0 && 0 <= i
    ensures EvenPrefixTotal(amount, slots, i + 1)
         == EvenPrefixTotal(amount, slots, i) + EvenAmount(amount, slots, i)
  {
    MulSucc(i, amount / slots);
  }

  /** All bits of the even split add up to the target. */
  lemma EvenPrefixWhole(amount: int, slots: int)
    requires slots > 0
    ensures EvenPrefixTotal(amount, slots, slots) == amount
  {
    DivModParts(amount, slots);
    assert slots * (amount / slots) == amount / slots * slots;
  }

  /** Hands `remaining` out to random slots: a random chunk (larger chunks
      being rarer and only while enough is left) while at least the minimum
      is left, and whatever is finally left over to one random slot.  Each
      pass lowers `remaining` by at least the minimum, so the loop ends. */
  method Distribute(raw: array<int>, tier: Tier, remaining0: int)
    modifies raw
    requires raw.Length >= 1 && remaining0 >= 0
    requires |tier.chunks| == 4 && tier.chunks[0] == tier.minAmount > 0
    requires tier.chunks[0] < tier.chunks[1] < tier.chunks[2] < tier.chunks[3]
    requires forall p :: 0 <= p < raw.Length ==> raw[p] >= tier.minAmount
    ensures Sum(raw[..]) == old(Sum(raw[..])) + remaining0
    ensures forall p :: 0 <= p < raw.Length ==> raw[p] >= tier.minAmount
  {
    var chunks := tier.chunks;
    var remaining := remaining0;
    while remaining >= tier.minAmount
      invariant Sum(raw[..]) + remaining == old(Sum(raw[..])) + remaining0
      invariant forall p :: 0 <= p < raw.Length ==> raw[p] >= tier.minAmount
      invariant remaining >= 0
      decreases remaining
    {
      var slotIdx :| 0 <= slotIdx < raw.Length;
      var r: real :| 0.0 <= r < 1.0;
      var chunk := chunks[0];
      if remaining >= chunks[3] && r > 0.9 {
        chunk := chunks[3];
      } else if remaining >= chunks[2] && r > 0.7 {
        chunk := chunks[2];
      } else if remaining >= chunks[1] && r > 0.4 {
        chunk := chunks[1];
      }
      SumUpdate(raw[..], slotIdx, raw[slotIdx] + chunk);
      raw[slotIdx] := raw[slotIdx] + chunk;
      remaining := remaining - chunk;
    }
    if remaining > 0 {
      var idx :| 0 <= idx < raw.Length;
      SumUpdate(raw[..], idx, raw[idx] + remaining);
      raw[idx] := raw[idx] + remaining;
    }
  }

  /** One pending bit per slot amount, in index order. */
  method BuildBits(raw: array<int>, frequency: Frequency, now: int, freshIds: seq<string>)
    returns (built: seq<Bit>)
    requires |freshIds| >= raw.Length
    ensures |built| == raw.Length
    ensures PlanTotal(built) == Sum(raw[..])
    ensures forall p :: 0 <= p < raw.Length ==>
      built[p] == Bit(freshIds[p], p + 1, raw[p], Pending, DueAt(now, frequency, p), None, None)
  {
    var interval := IntervalMs(frequency);
    built := [];
    var i := 0;
    while i < raw.Length
      invariant 0 <= i <= raw.Length && |built| == i
      invariant forall p :: 0 <= p < i ==>
        built[p] == Bit(freshIds[p], p + 1, raw[p], Pending, DueAt(now, frequency, p), None, None)
      invariant PlanTotal(built) == Sum(raw[..i])
    {
      var b := Bit(freshIds[i], i + 1, raw[i], Pending, DueAt(now, frequency, i), None, None);
      assert (built + [b])[..i] == built;
      assert raw[..i + 1][..i] == raw[..i];
      built := built + [b];
      i := i + 1;
    }
    assert raw[..raw.Length] == raw[..];
  }

  /** The Fisher-Yates loop: for `i` from the last position down to 1, swap
      position `i` with a random position `j <= i`.  It only permutes. */
  method Shuffle(arr: array<Bit>)
    modifies arr
    ensures multiset(arr[..]) == old(multiset(arr[..]))
    ensures PlanTotal(arr[..]) == old(PlanTotal(arr[..]))
  {
    var i := arr.Length - 1;
    while i > 0
      invariant i < arr.Length
      invariant multiset(arr[..]) == old(multiset(arr[..]))
      invariant PlanTotal(arr[..]) == old(PlanTotal(arr[..]))
    {
      var j :| 0 <= j <= i;
      ghost var before := arr[..];
      arr[i], arr[j] := arr[j], arr[i];
      assert arr[..] == Swapped(before, i, j);
      SwapPermutes(before, i, j);
      PlanTotalSwap(before, i, j);
      i := i - 1;
    }
  }

  /** `s` with positions `i` and `j` exchanged. */
  function Swapped<T>(s: seq<T>, i: int, j: int): seq<T>
    requires 0 <= i < |s| && 0 <= j < |s|
  {
    s[i := s[j]][j := s[i]]
  }

  /** A swap only permutes. */
  lemma SwapPermutes<T>(s: seq<T>, i: int, j: int)
    requires 0 <= i < |s| && 0 <= j < |s|
    ensures multiset(Swapped(s, i, j)) == multiset(s)
  {
  }

  lemma DivModParts(amount: int, slots: int)
    requires slots > 0
    ensures amount - amount / slots * slots == amount % slots
    ensures 0 <= amount % slots < slots
  {
  }

  lemma MulSucc(i: int, b: int)
    ensures (i + 1) * b == i * b + b
  {
  }

  lemma {:induction false} SumConstant(n: nat, v: int)
    ensures Sum(seq(n, _ => v)) == v * n
  {
    if n > 0 {
      assert seq(n, _ => v)[..n - 1] == seq(n - 1, _ => v);
      SumConstant(n - 1, v);
    }
  }
}
