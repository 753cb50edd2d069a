/** The catalogue of savings challenges, its lookups, and the progress of a
    challenge measured over the transactions dated inside its window. */
module Challenges {
  import opened Common
  import opened Domain
  import opened Lists

  datatype Difficulty = Easy | Medium | Hard | Expert

  /** A catalogue entry, without its icon, colours and badge text. */
  datatype ChallengeDef = ChallengeDef(
    id: string, title: string, difficulty: Difficulty,
    duration: int, target: int, reward: int)

  /** `CHALLENGES`. */
  const Catalogue: seq<ChallengeDef> := [
    ChallengeDef("sprint_saver", "7-Day Sprint", Easy, 7, 7, 100),
    ChallengeDef("weekend_warrior", "Weekend Warrior", Difficulty.Medium, 30, 2000, 250),
    ChallengeDef("savings_streak", "Streak King", Hard, 30, 30, 500),
    ChallengeDef("thousand_club", "1K Club", Difficulty.Medium, 7, 1000, 200),
    ChallengeDef("daily_discipline", "Daily Discipline", Difficulty.Medium, 14, 700, 150),
    ChallengeDef("monthly_marathon", "Monthly Marathon", Hard, 30, 5000, 750),
    ChallengeDef("payday_boost", "Payday Boost", Difficulty.Medium, 1, 1500, 300),
    ChallengeDef("century_challenge", "Century Challenge", Hard, 60, 100, 1000),
    ChallengeDef("royal_saver", "Royal Saver", Expert, 60, 10000, 1500),
    ChallengeDef("quick_start", "Quick Start", Easy, 1, 3, 50),
    ChallengeDef("consistency_king", "Consistency King", Difficulty.Medium, 30, 10, 300),
    ChallengeDef("mega_saver", "Mega Saver", Expert, 90, 20000, 2500)
  ]

  /** The twelve entries have distinct ids and a positive duration, target
      and reward. */
  lemma CatalogueWellFormed()
    ensures |Catalogue| == 12
    ensures forall i, j :: 0 <= i < j < |Catalogue| ==> Catalogue[i].id != Catalogue[j].id
    ensures forall i :: 0 <= i < |Catalogue| ==>
      Catalogue[i].duration > 0 && Catalogue[i].target > 0 && Catalogue[i].reward > 0
  {
    forall i, j | 0 <= i < j < |Catalogue|
      ensures Catalogue[i].id != Catalogue[j].id
    {
      IdTags(i);
      IdTags(j);
    }
  }

  /** No two ids share their first two letters. */
  const Tags: seq<string> := ["sp", "we", "sa", "th", "da", "mo", "pa", "ce", "ro", "qu", "co", "me"]

  lemma IdTags(i: int)
    requires 0 <= i < |Catalogue|
    ensures |Catalogue[i].id| >= 2 && Catalogue[i].id[..2] == Tags[i]
  {
  }

  /** `getChallengeById(id)`. */
  function ChallengeById(id: string): (r: Option<ChallengeDef>)
  {
    Find(Catalogue, (c: ChallengeDef) => c.id == id)
  }

  /** The lookup finds the entry carrying the id, and nothing for any other
      id. */
  lemma ChallengeByIdSpec(id: string)
    ensures ChallengeById(id).None? <==> forall i :: 0 <= i < |Catalogue| ==> Catalogue[i].id != id
    ensures forall i :: 0 <= i < |Catalogue| && Catalogue[i].id == id ==> ChallengeById(id) == Some(Catalogue[i])
  {
    CatalogueWellFormed();
    forall i | 0 <= i < |Catalogue| && Catalogue[i].id == id
      ensures ChallengeById(id) == Some(Catalogue[i])
    {
      FindUnique(Catalogue, (c: ChallengeDef) => c.id == id, i);
    }
  }

  /** `getChallengesByDifficulty(difficulty)`. */
  function ChallengesByDifficulty(d: Difficulty): seq<ChallengeDef>
  {
    Filter(Catalogue, (c: ChallengeDef) => c.difficulty == d)
  }

  /** Exactly the entries of that difficulty, in catalogue order; every
      difficulty has at least one entry. */
  lemma ChallengesByDifficultySpec(d: Difficulty)
    ensures forall c :: c in ChallengesByDifficulty(d) <==> c in Catalogue && c.difficulty == d
    ensures SubsequenceOf(ChallengesByDifficulty(d), Catalogue)
    ensures |ChallengesByDifficulty(d)| >= 1
  {
    FilterMembers(Catalogue, (c: ChallengeDef) => c.difficulty == d);
    var w := EntryOf(d);
    assert Catalogue[w] in ChallengesByDifficulty(d);
  }

  /** An entry of each difficulty. */
  function EntryOf(d: Difficulty): (i: int)
    ensures 0 <= i < |Catalogue| && Catalogue[i].difficulty == d
  {
    if d.Easy? then 0
    else if d.Medium? then 1
    else if d.Hard? then 2
    else 8
  }

  /** `txDate >= challengeStart && txDate <= challengeEnd`: both ends count,
      and the end is `duration` whole days after the start. */
  predicate InWindow(date: int, start: int, duration: int)
  {
    start <= date <= start + duration * DayMs
  }

  /** The challenges whose progress is a number of transactions. */
  predicate CountsSaves(id: string)
  {
    id == "sprint_saver" || id == "savings_streak" || id == "century_challenge"
    || id == "quick_start" || id == "consistency_king"
  }

  /** The transactions dated within the window. */
  function Relevant(c: ChallengeDef, txs: seq<Transaction>, start: int): seq<Transaction>
  {
    Filter(txs, (tx: Transaction) => InWindow(tx.date, start, c.duration))
  }

  /** `calculateChallengeProgress(challenge, transactions, startDate)`. */
  function ChallengeProgress(c: ChallengeDef, txs: seq<Transaction>, start: int): int
  {
    var relevant := Relevant(c, txs, start);
    if CountsSaves(c.id) then |relevant| else TotalAmount(relevant)
  }

  /** What one transaction adds to the progress. */
  function Contribution(c: ChallengeDef, start: int, tx: Transaction): int
  {
    if !InWindow(tx.date, start, c.duration) then 0
    else if CountsSaves(c.id) then 1
    else tx.amount
  }

  lemma {:induction false} FilteredTotal(c: ChallengeDef, txs: seq<Transaction>, start: int)
    ensures TotalAmount(Relevant(c, txs, start))
         == SumBy(txs, (tx: Transaction) => if InWindow(tx.date, start, c.duration) then tx.amount else 0)
  {
    if txs != [] {
      var init := txs[..|txs| - 1];
      FilteredTotal(c, init, start);
      var last := txs[|txs| - 1];
      if InWindow(last.date, start, c.duration) {
        var r := Relevant(c, init, start);
        assert Relevant(c, txs, start) == r + [last];
        TotalAmountAppend(r, [last]);
      }
    }
  }

  lemma {:induction false} FilteredCount(c: ChallengeDef, txs: seq<Transaction>, start: int)
    ensures |Relevant(c, txs, start)|
         == SumBy(txs, (tx: Transaction) => if InWindow(tx.date, start, c.duration) then 1 else 0)
  {
    if txs != [] {
      FilteredCount(c, txs[..|txs| - 1], start);
    }
  }

  /** Progress adds up, transaction by transaction, what each one
      contributes: one save or its amount if it is dated in the window,
      nothing otherwise. */
  lemma ProgressIsSumOfContributions(c: ChallengeDef, txs: seq<Transaction>, start: int)
    ensures ChallengeProgress(c, txs, start) == SumBy(txs, (tx: Transaction) => Contribution(c, start, tx))
  {
    if CountsSaves(c.id) {
      FilteredCount(c, txs, start);
      SumByExtensional(txs, (tx: Transaction) => if InWindow(tx.date, start, c.duration) then 1 else 0,
                       (tx: Transaction) => Contribution(c, start, tx));
    } else {
      FilteredTotal(c, txs, start);
      SumByExtensional(txs, (tx: Transaction) => if InWindow(tx.date, start, c.duration) then tx.amount else 0,
                       (tx: Transaction) => Contribution(c, start, tx));
    }
  }

  /** Progress does not depend on the order of the transactions. */
  lemma ProgressOrderFree(c: ChallengeDef, txs: seq<Transaction>, txs': seq<Transaction>, start: int)
    requires multiset(txs) == multiset(txs')
    ensures ChallengeProgress(c, txs, start) == ChallengeProgress(c, txs', start)
  {
    ProgressIsSumOfContributions(c, txs, start);
    ProgressIsSumOfContributions(c, txs', start);
    SumByPermutation(txs, txs', (tx: Transaction) => Contribution(c, start, tx));
  }

  /** A transaction outside the window changes nothing; one inside adds one
      save or its amount. */
  lemma ProgressAppend(c: ChallengeDef, txs: seq<Transaction>, tx: Transaction, start: int)
    ensures ChallengeProgress(c, txs + [tx], start) == ChallengeProgress(c, txs, start)
      + (if !InWindow(tx.date, start, c.duration) then 0 else if CountsSaves(c.id) then 1 else tx.amount)
  {
    ProgressIsSumOfContributions(c, txs, start);
    ProgressIsSumOfContributions(c, txs + [tx], start);
    assert (txs + [tx])[..|txs|] == txs;
  }

  /** For the counting challenges, progress is a number of transactions
      (not of distinct days), so it never exceeds their total count. */
  lemma CountedProgressBound(c: ChallengeDef, txs: seq<Transaction>, start: int)
    requires CountsSaves(c.id)
    ensures 0 <= ChallengeProgress(c, txs, start) <= |txs|
  {
  }

  /** Every other challenge sums the amounts of the transactions in the
      window. */
  lemma AmountProgress(c: ChallengeDef, txs: seq<Transaction>, start: int)
    requires !CountsSaves(c.id)
    ensures ChallengeProgress(c, txs, start)
         == SumBy(txs, (tx: Transaction) => if InWindow(tx.date, start, c.duration) then tx.amount else 0)
  {
    FilteredTotal(c, txs, start);
  }
}
