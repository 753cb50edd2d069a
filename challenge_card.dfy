/** The challenge card: its progress bar and the time left before the
    challenge ends. */
module ChallengeCard {
  import opened Common
  import opened Domain
  import opened Text

  /** `getProgress()`: the amount target when set, else the count target,
      else 0. */
  function CardProgress(c: Challenge): real
  {
    if IsSet(c.targetAmount) then
      MinReal(c.currentAmount as real / c.targetAmount.value as real * 100.0, 100.0)
    else if IsSet(c.targetCount) then
      MinReal(c.currentCount as real / c.targetCount.value as real * 100.0, 100.0)
    else 0.0
  }

  /** The share of a positive target, in percent, is not negative for a part
      that is not negative. */
  lemma ShareNotNegative(part: int, target: int)
    requires part >= 0 && target > 0
    ensures part as real / target as real * 100.0 >= 0.0
  {
    RatioCompare(part as real, target as real, 0.0);
  }

  /** Progress never exceeds 100; with positive targets and counters that are
      not negative it is not negative either; without any target it is 0; and
      the amount target takes precedence over the count target. */
  lemma CardProgressSpec(c: Challenge)
    ensures CardProgress(c) <= 100.0
    ensures !IsSet(c.targetAmount) && !IsSet(c.targetCount) ==> CardProgress(c) == 0.0
    ensures (IsSet(c.targetAmount) ==> c.targetAmount.value > 0 && c.currentAmount >= 0)
         && (!IsSet(c.targetAmount) && IsSet(c.targetCount) ==> c.targetCount.value > 0 && c.currentCount >= 0)
         ==> CardProgress(c) >= 0.0
    ensures IsSet(c.targetAmount) ==>
      CardProgress(c) == CardProgress(c.(targetCount := None))
  {
    if IsSet(c.targetAmount) && c.targetAmount.value > 0 && c.currentAmount >= 0 {
      ShareNotNegative(c.currentAmount, c.targetAmount.value);
    } else if !IsSet(c.targetAmount) && IsSet(c.targetCount) && c.targetCount.value > 0 && c.currentCount >= 0 {
      ShareNotNegative(c.currentCount, c.targetCount.value);
    }
  }

  datatype TimeRemaining = Expired | Left(days: int, hours: int)

  /** `getTimeRemaining()` before it is written out. */
  function Remaining(endDate: int, now: int): TimeRemaining
  {
    var diff := endDate - now;
    if diff <= 0 then Expired
    else Left(diff / DayMs, (diff % DayMs) / HourMs)
  }

  /** "Expired" exactly when the end is not after now; otherwise the days and
      hours are the whole days and the whole hours of the remainder, so they
      fall short of the time left by less than an hour. */
  lemma RemainingSpec(endDate: int, now: int)
    ensures Remaining(endDate, now).Expired? <==> endDate <= now
    ensures Remaining(endDate, now).Left? ==>
      var r := Remaining(endDate, now);
      r.days >= 0 && 0 <= r.hours < 24
      && r.days * DayMs + r.hours * HourMs <= endDate - now < r.days * DayMs + (r.hours + 1) * HourMs
  {
  }

  /** The text of `getTimeRemaining()`. */
  function RemainingText(endDate: int, now: int): string
  {
    match Remaining(endDate, now)
    case Expired => "Expired"
    case Left(days, hours) =>
      if days > 0 then IntToString(days) + "d " + IntToString(hours) + "h left"
      else IntToString(hours) + "h left"
  }

  lemma ExpiredIsNotANumber()
    ensures ParseInt("Expired") == None
  {
    assert TrimStart("Expired") == "Expired";
    assert DigitRun("Expired") == 0;
  }

  /** The text leads with the days when at least one whole day is left, and
      with the hours otherwise; "Expired" carries no number. */
  lemma RemainingTextSpec(endDate: int, now: int)
    ensures var r := Remaining(endDate, now);
      ParseInt(RemainingText(endDate, now))
        == if r.Expired? then None else if r.days > 0 then Some(r.days) else Some(r.hours)
  {
    var r := Remaining(endDate, now);
    if r.Expired? {
      ExpiredIsNotANumber();
    } else if r.days > 0 {
      DaysText(r.days, r.hours);
    } else {
      ParseIntRoundTrip(r.hours, "h left");
    }
  }

  lemma DaysText(days: int, hours: int)
    ensures ParseInt(IntToString(days) + "d " + IntToString(hours) + "h left") == Some(days)
  {
    var lead := IntToString(days);
    var tail := "d " + IntToString(hours) + "h left";
    assert lead + "d " + IntToString(hours) + "h left" == lead + tail;
    ParseIntRoundTrip(days, tail);
  }
}
