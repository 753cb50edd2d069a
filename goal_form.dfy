/** The goal form: the deposit-slot estimate it recomputes whenever the
    duration or the frequency changes, and the guard on submitting it. */
module GoalForm {
  import opened Common
  import opened Domain
  import opened Text

  /** Days in one unit of duration; an unknown unit counts as days. */
  function UnitDays(u: DurationUnit): (d: int)
    ensures d in {1, 7, 30, 365}
    ensures u == OtherUnit ==> d == 1
  {
    match u
    case Days => 1
    case Weeks => 7
    case Months => 30
    case Years => 365
    case OtherUnit => 1
  }

  /** The slot-estimate effect: no duration text gives 0, otherwise
      `Math.ceil(days / interval)` kept only when positive (NaN and
      non-positive estimates become 0). */
  function EstimatedSlots(durationValue: string, unit: DurationUnit, frequency: Frequency): (n: int)
    ensures n >= 0
    ensures durationValue == [] ==> n == 0
  {
    if durationValue == [] then 0
    else
      match ParseInt(durationValue)
      case None => 0
      case Some(v) =>
        var slots := CeilDiv(v * UnitDays(unit), IntervalDays(frequency));
        if slots > 0 then slots else 0
  }

  /** For a duration text that reads as the number `v`, the estimate is the
      least number of deposits whose intervals cover the duration in days,
      and 0 when that duration is not positive. */
  lemma EstimatedSlotsSpec(durationValue: string, unit: DurationUnit, frequency: Frequency, v: int)
    requires durationValue != [] && ParseInt(durationValue) == Some(v)
    ensures var n := EstimatedSlots(durationValue, unit, frequency);
      var days := v * UnitDays(unit);
      var interval := IntervalDays(frequency);
      (days > 0 ==> n * interval >= days > (n - 1) * interval)
      && (days <= 0 ==> n == 0)
  {
    var days := v * UnitDays(unit);
    var interval := IntervalDays(frequency);
    var q := CeilDiv(days, interval);
    if days <= 0 {
      assert q * interval < interval;
    } else {
      assert q > 0;
    }
  }

  /** There are deposits to make exactly when the duration text reads as a
      positive number; an empty, unreadable, zero or negative duration gives
      none. */
  lemma SlotsPositiveIff(durationValue: string, unit: DurationUnit, frequency: Frequency)
    ensures EstimatedSlots(durationValue, unit, frequency) > 0
      <==> durationValue != [] && ParseInt(durationValue).Some? && ParseInt(durationValue).value > 0
  {
    if durationValue != [] && ParseInt(durationValue).Some? {
      var v := ParseInt(durationValue).value;
      EstimatedSlotsSpec(durationValue, unit, frequency, v);
      assert v > 0 <==> v * UnitDays(unit) > 0;
    }
  }

  /** One month of daily deposits is 30 slots; one year of monthly deposits
      is 13, since 365 days need a thirteenth 30-day interval. */
  lemma EstimateExamples()
    ensures EstimatedSlots("1", Months, Daily) == 30
    ensures EstimatedSlots("1", Years, Monthly) == 13
  {
    assert TrimStart("1") == "1";
    assert DigitRun("1") == 1;
    assert ParseNat("1") == 1;
    assert ParseInt("1") == Some(1);
  }

  /** What `handleSubmit` hands to `createGoal`. */
  datatype CreateRequest = CreateRequest(name: string, amount: string, slots: int,
                                         frequency: Frequency, durationValue: string,
                                         durationUnit: DurationUnit)

  /** The form's state: the text inputs and the last estimate. */
  class GoalFormState {
    var name: string
    var amount: string
    var durationValue: string
    var durationUnit: DurationUnit
    var frequency: Frequency
    var estimatedSlots: int

    /** A new form: one month of daily deposits, nothing else filled in. */
    constructor()
      ensures name == [] && amount == [] && durationValue == "1"
      ensures durationUnit == Months && frequency == Daily
      ensures estimatedSlots == 0
    {
      name := [];
      amount := [];
      durationValue := "1";
      durationUnit := Months;
      frequency := Daily;
      estimatedSlots := 0;
    }

    /** The effect that runs when the duration or the frequency changes:
        only the estimate changes. */
    method RecomputeEstimate()
      modifies this
      ensures estimatedSlots == EstimatedSlots(durationValue, durationUnit, frequency)
      ensures name == old(name) && amount == old(amount) && durationValue == old(durationValue)
      ensures durationUnit == old(durationUnit) && frequency == old(frequency)
    {
      if durationValue == [] {
        estimatedSlots := 0;
        return;
      }
      var parsed := ParseInt(durationValue);
      if parsed.None? {
        estimatedSlots := 0;
        return;
      }
      var val := parsed.value;
      var days := val * UnitDays(durationUnit);
      var interval := IntervalDays(frequency);
      var slots := CeilDiv(days, interval);
      estimatedSlots := if slots > 0 then slots else 0;
    }

    /** `handleSubmit`: refused (no request) when the amount is empty or there
        are no slots; otherwise the request carries the trimmed name and the
        form's other values.  The form itself is left as it is. */
    method Submit() returns (req: Option<CreateRequest>)
      ensures req.None? <==> amount == [] || estimatedSlots <= 0
      ensures req.Some? ==> req.value == CreateRequest(Trim(name), amount, estimatedSlots,
                                                       frequency, durationValue, durationUnit)
      ensures req.Some? ==> req.value.slots > 0 && req.value.amount != []
    {
      if amount == [] || estimatedSlots <= 0 {
        return None;
      }
      req := Some(CreateRequest(Trim(name), amount, estimatedSlots, frequency, durationValue, durationUnit));
    }
  }
}
