/** The streak badge: its colour band, flame animation, "Best" tag and
    achievement markers, all chosen by thresholds on the streak. */
module StreakBadge {
  import opened Common

  datatype StreakColor = RedOrange | OrangeYellow | YellowAmber | EmeraldTeal | BlueIndigo
  datatype Flame = Pulse | SlowBounce | NoAnimation

  /** `getStreakColor(streak)`. */
  function StreakColorOf(streak: int): StreakColor
  {
    if streak >= 30 then RedOrange
    else if streak >= 14 then OrangeYellow
    else if streak >= 7 then YellowAmber
    else if streak >= 3 then EmeraldTeal
    else BlueIndigo
  }

  /** Each colour belongs to exactly one band of streak lengths. */
  lemma StreakColorBands(streak: int)
    ensures StreakColorOf(streak) == RedOrange <==> streak >= 30
    ensures StreakColorOf(streak) == OrangeYellow <==> 14 <= streak < 30
    ensures StreakColorOf(streak) == YellowAmber <==> 7 <= streak < 14
    ensures StreakColorOf(streak) == EmeraldTeal <==> 3 <= streak < 7
    ensures StreakColorOf(streak) == BlueIndigo <==> streak < 3
  {
  }

  /** `getFlameIntensity(streak)`. */
  function FlameOf(streak: int): Flame
  {
    if streak >= 30 then Pulse
    else if streak >= 14 then SlowBounce
    else NoAnimation
  }

  lemma FlameBands(streak: int)
    ensures FlameOf(streak) == Pulse <==> streak >= 30
    ensures FlameOf(streak) == SlowBounce <==> 14 <= streak < 30
    ensures FlameOf(streak) == NoAnimation <==> streak < 14
  {
  }

  /** What the badge shows. */
  datatype Badge = Badge(streak: int, color: StreakColor, flame: Flame, best: Option<int>,
                         marker100: bool, marker30: bool, marker7: bool)

  /** The component's render: nothing for a zero streak. */
  function Render(currentStreak: int, longestStreak: int): Option<Badge>
  {
    if currentStreak == 0 then None
    else Some(Badge(currentStreak, StreakColorOf(currentStreak), FlameOf(currentStreak),
                    if longestStreak > currentStreak then Some(longestStreak) else None,
                    currentStreak >= 100, currentStreak >= 30, currentStreak >= 7))
  }

  /** Nothing renders exactly for a zero streak; "Best" shows exactly when the
      longest streak beats the current one; the markers nest, each implying
      the ones for shorter streaks. */
  lemma RenderSpec(currentStreak: int, longestStreak: int)
    ensures Render(currentStreak, longestStreak).None? <==> currentStreak == 0
    ensures Render(currentStreak, longestStreak).Some? ==>
      var b := Render(currentStreak, longestStreak).value;
      (b.best.Some? <==> longestStreak > currentStreak)
      && (b.best.Some? ==> b.best.value == longestStreak)
      && (b.marker100 ==> b.marker30) && (b.marker30 ==> b.marker7)
      && (b.marker30 <==> b.color == RedOrange) && (b.marker30 <==> b.flame == Pulse)
  {
  }
}
