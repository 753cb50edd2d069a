/** The round-up tracker: the spare change each transaction would leave when
    rounded up to the next hundred, added up over the transactions, and the
    switch that turns tracking on and off. */
module RoundUp {
  import opened Common
  import opened Domain

  /** `Math.ceil(amount / 100) * 100 - amount`. */
  function RoundUpOf(amount: int): int
  {
    CeilDiv(amount, 100) * 100 - amount
  }

  /** A round-up lies in [0, 99] and is 0 exactly for a multiple of 100. */
  lemma RoundUpRange(amount: int)
    ensures 0 <= RoundUpOf(amount) <= 99
    ensures RoundUpOf(amount) == 0 <==> amount % 100 == 0
  {
  }

  /** The accumulator of the `reduce`. */
  datatype RoundUpData = RoundUpData(totalRoundUp: int, count: int)

  /** `transactions.reduce(...)` from `{ totalRoundUp: 0, count: 0 }`. */
  function Collected(txs: seq<Transaction>): RoundUpData
  {
    if txs == [] then RoundUpData(0, 0)
    else
      var acc := Collected(txs[..|txs| - 1]);
      RoundUpData(acc.totalRoundUp + RoundUpOf(txs[|txs| - 1].amount), acc.count + 1)
  }

  /** The count is the number of transactions, and the total is at most 99
      per transaction; it is 0 exactly when every amount is a multiple of
      100. */
  lemma {:induction false} CollectedSpec(txs: seq<Transaction>)
    ensures Collected(txs).count == |txs|
    ensures 0 <= Collected(txs).totalRoundUp <= 99 * |txs|
    ensures Collected(txs).totalRoundUp == 0 <==> forall i :: 0 <= i < |txs| ==> txs[i].amount % 100 == 0
  {
    if txs != [] {
      var init := txs[..|txs| - 1];
      CollectedSpec(init);
      RoundUpRange(txs[|txs| - 1].amount);
      assert forall i :: 0 <= i < |init| ==> init[i] == txs[i];
    }
  }

  /** The average shown: 0 without transactions, else the rounded mean. */
  function AverageRoundUp(d: RoundUpData): int
  {
    if d.count > 0 then Round(d.totalRoundUp as real / d.count as real) else 0
  }

  /** The average lies in [0, 99]. */
  lemma AverageRange(txs: seq<Transaction>)
    ensures 0 <= AverageRoundUp(Collected(txs)) <= 99
  {
    CollectedSpec(txs);
    var d := Collected(txs);
    if d.count > 0 {
      MeanBounds(d.totalRoundUp, d.count, 0, 99);
    }
  }

  /** The tracker's switch (kept in browser storage, which is not
      modelled). */
  class Tracker {
    var enabled: bool

    constructor(enabled: bool)
      ensures this.enabled == enabled
    {
      this.enabled := enabled;
    }

    /** `handleToggle()`: flips the switch and sends a notification only when
        switching on. */
    method Toggle() returns (notified: bool)
      modifies this
      ensures enabled == !old(enabled)
      ensures notified <==> enabled
    {
      enabled := !enabled;
      notified := enabled;
    }

    /** `handleCollect()`: notifies with the collected total only when there is
        something to collect; nothing changes either way. */
    method Collect(txs: seq<Transaction>) returns (notice: Option<int>)
      ensures notice.Some? <==> exists i :: 0 <= i < |txs| && txs[i].amount % 100 != 0
      ensures notice.Some? ==> 0 < notice.value <= 99 * |txs|
      ensures notice == if Collected(txs).totalRoundUp > 0 then Some(Collected(txs).totalRoundUp) else None
    {
      var data := Collected(txs);
      CollectedSpec(txs);
      if data.totalRoundUp > 0 {
        notice := Some(data.totalRoundUp);
      } else {
        notice := None;
      }
    }
  }
}
