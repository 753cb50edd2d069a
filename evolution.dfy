/** The evolution levels of the piggy companion: the level reached for a
    saved total, the level after it, and the progress towards it. */
module Evolution {
  import opened Common
  import opened Lists

  /** A level, without its emoji, colours and messages. */
  datatype Level = Level(id: string, name: string, threshold: int)

  /** `EVOLUTION_LEVELS`. */
  const Levels: seq<Level> := [
    Level("baby", "Baby Piggy", 0),
    Level("teen", "Growing Piggy", 10000),
    Level("adult", "Mature Piggy", 50000),
    Level("master", "Piggy Master", 100000),
    Level("legend", "Legendary Piggy", 500000)
  ]

  /** Thresholds rise strictly, starting at 0, and the ids are distinct. */
  lemma LevelsAscending()
    ensures |Levels| == 5 && Levels[0].threshold == 0
    ensures forall i, j :: 0 <= i < j < |Levels| ==> Levels[i].threshold < Levels[j].threshold
    ensures forall i, j :: 0 <= i < j < |Levels| ==> Levels[i].id != Levels[j].id
  {
  }

  /** `getCurrentEvolutionLevel(totalSaved)`: the first level of the
      reversed list that the total reaches, else the first level. */
  function CurrentLevel(total: int): Level
  {
    var found := Find(Reverse(Levels), (l: Level) => total >= l.threshold);
    if found.Some? then found.value else Levels[0]
  }

  /** Position of the current level, as `findIndex` by id finds it. */
  function LevelIndex(total: int): int
  {
    var current := CurrentLevel(total);
    FindIndex(Levels, (l: Level) => l.id == current.id)
  }

  /** The current level is the one with the largest threshold not above the
      total, and the first level for a negative total. */
  lemma CurrentLevelSpec(total: int)
    ensures 0 <= LevelIndex(total) < |Levels| && CurrentLevel(total) == Levels[LevelIndex(total)]
    ensures total >= 0 ==> CurrentLevel(total).threshold <= total
    ensures forall i :: 0 <= i < |Levels| && Levels[i].threshold <= total ==> i <= LevelIndex(total)
    ensures total < 0 ==> LevelIndex(total) == 0
  {
    var k := CurrentPosition(total);
    FindIndexOfDistinct(k, CurrentLevel(total).id);
  }

  /** Where the current level sits in the table. */
  lemma CurrentPosition(total: int) returns (k: int)
    ensures 0 <= k < |Levels| && CurrentLevel(total) == Levels[k]
    ensures total >= 0 ==> Levels[k].threshold <= total
    ensures forall i :: 0 <= i < |Levels| && Levels[i].threshold <= total ==> i <= k
    ensures total < 0 ==> k == 0
  {
    LevelsAscending();
    var f := (l: Level) => total >= l.threshold;
    var j := FindInReverse(Levels, f);
    if j >= 0 {
      k := j;
      forall i | 0 <= i < |Levels| && Levels[i].threshold <= total ensures i <= k {
        assert f(Levels[i]);
      }
    } else {
      k := 0;
    }
  }

  lemma FindIndexOfDistinct(k: int, id: string)
    requires 0 <= k < |Levels| && Levels[k].id == id
    ensures FindIndex(Levels, (l: Level) => l.id == id) == k
  {
    LevelsAscending();
  }

  /** The level never drops as the saved total grows. */
  lemma LevelMonotone(a: int, b: int)
    requires a <= b
    ensures LevelIndex(a) <= LevelIndex(b)
  {
    CurrentLevelSpec(a);
    CurrentLevelSpec(b);
    LevelsAscending();
    if a >= 0 {
      assert Levels[LevelIndex(a)].threshold <= b;
    }
  }

  /** `getNextEvolutionLevel(totalSaved)` (declared under a name split by a
      space, so the module does not parse; this is the function its callers
      use): none at the last level, otherwise the following entry. */
  function NextLevel(total: int): Option<Level>
  {
    var idx := LevelIndex(total);
    if idx == |Levels| - 1 then None
    else
      assert -1 <= idx < |Levels|;
      Some(Levels[idx + 1])
  }

  /** There is a next level exactly below the last threshold; it is the entry
      right after the current one, and its threshold is above the total. */
  lemma NextLevelSpec(total: int)
    ensures NextLevel(total).None? <==> total >= Levels[|Levels| - 1].threshold
    ensures NextLevel(total).Some? ==>
      NextLevel(total) == Some(Levels[LevelIndex(total) + 1])
      && NextLevel(total).value.threshold > total
  {
    CurrentLevelSpec(total);
    LevelsAscending();
  }

  /** `Math.min(Math.max(x, 0), 100)`. */
  function Clamp(x: real): (r: real)
    ensures 0.0 <= r <= 100.0
  {
    if x < 0.0 then 0.0 else if x > 100.0 then 100.0 else x
  }

  /** The facts about the two thresholds the progress divides by. */
  lemma ProgressSpan(total: int)
    requires NextLevel(total).Some?
    ensures var span := NextLevel(total).value.threshold - CurrentLevel(total).threshold;
      span > 0 && total - CurrentLevel(total).threshold < span
      && (total <= 0 ==> total - CurrentLevel(total).threshold <= 0)
  {
    NextLevelSpec(total);
    CurrentLevelSpec(total);
    LevelsAscending();
  }

  /** A share of a positive span, in percent. */
  lemma ShareBelowWhole(part: int, span: int)
    requires span > 0 && part < span
    ensures part as real / span as real * 100.0 < 100.0
    ensures part <= 0 ==> part as real / span as real * 100.0 <= 0.0
  {
    RatioCompare(part as real, span as real, 1.0);
    RatioCompare(part as real, span as real, 0.0);
  }

  /** `getEvolutionProgress(totalSaved)`: 100 at the last level, otherwise the
      share of the way from the current threshold to the next one. */
  function EvolutionProgress(total: int): (p: real)
    ensures 0.0 <= p <= 100.0
    ensures p == 100.0 <==> total >= Levels[|Levels| - 1].threshold
    ensures total <= 0 ==> p == 0.0
  {
    NextLevelSpec(total);
    var current := CurrentLevel(total);
    var next := NextLevel(total);
    if next.None? then 100.0
    else
      ProgressSpan(total);
      Share(total - current.threshold, next.value.threshold - current.threshold)
  }

  /** The clamped percentage of `span` that `part` covers. */
  function Share(part: int, span: int): (r: real)
    requires span > 0 && part < span
    ensures 0.0 <= r < 100.0
    ensures part <= 0 ==> r == 0.0
  {
    ShareBelowWhole(part, span);
    Clamp(part as real / span as real * 100.0)
  }
}
