/** The what-if savings simulator: how many saves of a fixed amount reach a
    target, how long that takes at a given frequency, and how the duration is
    written and judged. */
module Simulator {
  import opened Common
  import opened Domain
  import opened Text

  datatype Simulation = Simulation(totalSaves: int, totalDays: int, months: int,
                                   years: int, remainingMonths: int)

  /** `Math.ceil(target / save)` for a non-zero integer save. */
  function SavesNeeded(target: int, save: int): int
    requires save != 0
  {
    if save > 0 then CeilDiv(target, save) else CeilDiv(-target, -save)
  }

  /** The `simulation` memo.  A save of 0 divides by zero (`Infinity` or
      `NaN` throughout), which is `None` here.  The frequency comes from a
      select offering the four named ones. */
  function Simulate(target: int, save: int, freq: Frequency): Option<Simulation>
    requires freq != OtherFrequency
  {
    if save == 0 then None
    else
      var saves := SavesNeeded(target, save);
      var days := saves * IntervalDays(freq);
      var months := days / 30;
      Some(Simulation(saves, days, months, months / 12, JsRem(months, 12)))
  }

  /** With a positive save the number of saves is the least one whose total
      reaches the target, and the days are that many intervals; for a target
      that is not negative the months are the whole 30-day periods in them,
      split into whole years and the months left over. */
  lemma SimulateSpec(target: int, save: int, freq: Frequency)
    requires freq != OtherFrequency
    ensures Simulate(target, save, freq).None? <==> save == 0
    ensures save > 0 ==>
      var s := Simulate(target, save, freq).value;
      s.totalSaves * save >= target > (s.totalSaves - 1) * save
      && s.totalDays == s.totalSaves * IntervalDays(freq)
    ensures save > 0 && target >= 0 ==>
      var s := Simulate(target, save, freq).value;
      s.totalSaves >= 0 && s.totalDays >= 0
      && s.months * 30 <= s.totalDays < s.months * 30 + 30
      && s.months == 12 * s.years + s.remainingMonths && 0 <= s.remainingMonths < 12
  {
    if save > 0 && target >= 0 {
      var q := SavesNeeded(target, save);
      assert q >= 0;
      assert q * IntervalDays(freq) >= 0;
    }
  }

  /** `formatDuration()`. */
  function FormatDuration(s: Simulation): string
  {
    if s.years > 0 then IntToString(s.years) + "y " + IntToString(s.remainingMonths) + "m"
    else IntToString(s.months) + " months"
  }

  /** The duration text leads with the years when there is at least one, and
      with the months otherwise; only the first form holds a `y`. */
  lemma FormatDurationSpec(s: Simulation)
    ensures ParseInt(FormatDuration(s)) == Some(if s.years > 0 then s.years else s.months)
    ensures s.years > 0 <==> 'y' in FormatDuration(s)
  {
    if s.years > 0 {
      YearsText(s);
    } else {
      MonthsText(s);
    }
  }

  lemma YearsText(s: Simulation)
    requires s.years > 0
    ensures ParseInt(FormatDuration(s)) == Some(s.years) && 'y' in FormatDuration(s)
  {
    var lead := IntToString(s.years);
    var tail := "y " + IntToString(s.remainingMonths) + "m";
    assert FormatDuration(s) == lead + tail;
    ParseIntRoundTrip(s.years, tail);
    assert FormatDuration(s)[|lead|] == 'y';
  }

  lemma MonthsText(s: Simulation)
    requires s.years <= 0
    ensures ParseInt(FormatDuration(s)) == Some(s.months) && 'y' !in FormatDuration(s)
  {
    assert FormatDuration(s) == IntToString(s.months) + " months";
    ParseIntRoundTrip(s.months, " months");
    NoLetterInNumber(s.months, 'y');
    assert 'y' !in " months";
    NotInConcat(IntToString(s.months), " months", 'y');
  }

  lemma NotInConcat(a: string, b: string, c: char)
    requires forall k :: 0 <= k < |a| ==> a[k] != c
    requires c !in b
    ensures c !in a + b
  {
  }

  datatype Band = Quick | Steady | LongTerm | Patient

  /** The message under the results, by months. */
  function MessageBand(months: int): Band
  {
    if months < 6 then Quick
    else if months < 12 then Steady
    else if months < 24 then LongTerm
    else Patient
  }

  function BandRank(b: Band): int
  {
    match b
    case Quick => 0
    case Steady => 1
    case LongTerm => 2
    case Patient => 3
  }

  /** Each band covers one range of months, and a longer plan never gets an
      earlier band. */
  lemma MessageBandSpec(m: int, m': int)
    requires m <= m'
    ensures MessageBand(m) == Quick <==> m < 6
    ensures MessageBand(m) == Steady <==> 6 <= m < 12
    ensures MessageBand(m) == LongTerm <==> 12 <= m < 24
    ensures MessageBand(m) == Patient <==> m >= 24
    ensures BandRank(MessageBand(m)) <= BandRank(MessageBand(m'))
  {
  }
}
