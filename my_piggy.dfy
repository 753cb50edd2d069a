/** The piggy companion card: the level reached by the total of all
    transactions, the next threshold, and the progress bar towards it. */
module MyPiggy {
  import opened Common
  import opened Domain

  /** `transactions.reduce((sum, tx) => sum + tx.amount, 0)`. */
  function TotalSavings(txs: seq<Transaction>): int
  {
    TotalAmount(txs)
  }

  /** `getLevel(savings).level`. */
  function PiggyLevel(savings: int): int
  {
    if savings < 100 then 1
    else if savings < 500 then 2
    else if savings < 2000 then 3
    else 4
  }

  /** The level lies in 1..4, never drops as savings grow, and is 4 exactly
      from 2000 on. */
  lemma PiggyLevelSpec(s: int, s': int)
    requires s <= s'
    ensures 1 <= PiggyLevel(s) <= PiggyLevel(s') <= 4
    ensures PiggyLevel(s) == 4 <==> s >= 2000
  {
  }

  /** The "(Next: …)" figure, shown below level 4. */
  function NextThreshold(savings: int): Option<int>
  {
    var level := PiggyLevel(savings);
    if level >= 4 then None
    else if level == 1 then Some(100)
    else if level == 2 then Some(500)
    else Some(2000)
  }

  /** There is a next threshold exactly below level 4, and it lies above the
      savings. */
  lemma NextThresholdSpec(savings: int)
    ensures NextThreshold(savings).None? <==> PiggyLevel(savings) == 4
    ensures NextThreshold(savings).Some? ==> NextThreshold(savings).value > savings
  {
  }

  /** The progress bar's width in percent, present below level 4; at level 4
      the "Max Level Reached" badge shows instead. */
  function ProgressWidth(savings: int): Option<real>
  {
    var level := PiggyLevel(savings);
    if level == 4 then None
    else if level == 1 then Some(savings as real / 100.0 * 100.0)
    else if level == 2 then Some((savings - 100) as real / 400.0 * 100.0)
    else Some((savings - 500) as real / 1500.0 * 100.0)
  }

  /** The bar shows exactly when the badge does not, and for savings that are
      not negative it is partly filled: at least 0 and below 100. */
  lemma ProgressWidthSpec(savings: int)
    ensures ProgressWidth(savings).None? <==> PiggyLevel(savings) == 4
    ensures savings >= 0 && ProgressWidth(savings).Some? ==>
      0.0 <= ProgressWidth(savings).value < 100.0
  {
  }
}
