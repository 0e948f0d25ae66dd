/** The tacking advisor's angle helpers of countdown.js: normalising a
    bearing, the signed difference of two bearings, which tack the boat is
    on, and whether it is headed or lifted. Bearings are whole degrees;
    `null` readings are `Null`. */
module WindAngles {
  import opened JsSemantics

  /** `normalizeAngle`: JavaScript's remainder by 360, moved up by 360 when
      negative. The result is the bearing in [0, 360) congruent to the
      input. */
  function NormalizeAngle(angle: int): (r: int)
    ensures 0 <= r < 360
    ensures r == angle % 360
  {
    RemShifted(angle, 360);
    var a := Rem(angle, 360);
    if a < 0 then a + 360 else a
  }

  /** `angleDifference`: the turn from `angle1` to `angle2`, folded into
      [-180, 180] by the two corrections of the source. */
  function AngleDifference(angle1: int, angle2: int): (r: int)
    ensures -180 <= r <= 180
    ensures (r - (angle2 - angle1)) % 360 == 0
  {
    var diff := NormalizeAngle(angle2) - NormalizeAngle(angle1);
    var diff := if diff > 180 then diff - 360 else diff;
    var diff := if diff < -180 then diff + 360 else diff;
    Congruent(diff, angle1, angle2);
    diff
  }

  /** Any value that differs from the normalised difference by a whole turn
      is congruent to `angle2 - angle1`. */
  lemma Congruent(d: int, angle1: int, angle2: int)
    requires d == NormalizeAngle(angle2) - NormalizeAngle(angle1) ||
             d == NormalizeAngle(angle2) - NormalizeAngle(angle1) - 360 ||
             d == NormalizeAngle(angle2) - NormalizeAngle(angle1) + 360
    ensures (d - (angle2 - angle1)) % 360 == 0
  {
    var k := angle1 / 360 - angle2 / 360;
    assert NormalizeAngle(angle2) - NormalizeAngle(angle1) - (angle2 - angle1) == 360 * k;
    var j := if d == NormalizeAngle(angle2) - NormalizeAngle(angle1) then k
             else if d < NormalizeAngle(angle2) - NormalizeAngle(angle1) then k - 1 else k + 1;
    assert d - (angle2 - angle1) == 360 * j;
  }

  /** Exchanging the two bearings negates the difference, half a turn
      included: only a normalised difference of exactly 180 stays 180, so
      the exchanged order gives -180. */
  lemma AngleDifferenceSwap(angle1: int, angle2: int)
    ensures AngleDifference(angle2, angle1) == -AngleDifference(angle1, angle2)
  {
  }

  const Port := "port"
  const Starboard := "starboard"
  const InIronsOrDownwind := "in_irons_or_downwind"
  const UnknownTack := "unknown"

  /** Whether `s` begins with `prefix` (`String.prototype.startsWith`). */
  predicate StartsWith(s: string, prefix: string) {
    |prefix| <= |s| && s[..|prefix|] == prefix
  }

  /** `getCurrentTack`: "unknown" without both readings; "port" when the
      wind is between 5 and 175 degrees to the left of the bow (the
      difference is negative), "starboard" when it is between 5 and 175
      degrees to the right, and "in_irons_or_downwind" otherwise. */
  function GetCurrentTack(boatHeadingCog: Nullable<int>, twd: Nullable<int>): (r: string)
    ensures r == UnknownTack <==> twd.Null? || boatHeadingCog.Null?
    ensures r == Port <==> (boatHeadingCog.Value? && twd.Value? &&
                            -175 < AngleDifference(boatHeadingCog.value, twd.value) < -5)
    ensures r == Starboard <==> (boatHeadingCog.Value? && twd.Value? &&
                                 5 < AngleDifference(boatHeadingCog.value, twd.value) < 175)
    ensures r == InIronsOrDownwind <==> (boatHeadingCog.Value? && twd.Value? &&
                                         var d := AngleDifference(boatHeadingCog.value, twd.value);
                                         !(-175 < d < -5) && !(5 < d < 175))
  {
    if twd.Null? || boatHeadingCog.Null? then UnknownTack
    else
      var windRelativeToBow := AngleDifference(boatHeadingCog.value, twd.value);
      if windRelativeToBow < -5 && windRelativeToBow > -175 then Port
      else if windRelativeToBow > 5 && windRelativeToBow < 175 then Starboard
      else InIronsOrDownwind
  }

  /** Exchanging the boat's heading and the wind's direction exchanges port
      and starboard. */
  lemma TackMirror(heading: int, twd: int)
    ensures GetCurrentTack(Value(heading), Value(twd)) == Port <==>
            GetCurrentTack(Value(twd), Value(heading)) == Starboard
  {
    AngleDifferenceSwap(heading, twd);
  }

  const NotCloseHauled := "not_close_hauled"
  const Header := "header"
  const Lift := "lift"
  const OnOptimalAngle := "on_optimal_angle"

  /** `checkHeaderLift`: "not_close_hauled" without both readings or when
      the tack given starts with "in_irons"; otherwise the absolute angle
      to the wind is compared with the optimal close-hauled angle, with 7
      degrees of tolerance either way. */
  function CheckHeaderLift(boatHeadingCog: Nullable<int>, twd: Nullable<int>, optimalCloseHauledAngle: int, currentTack: string): (r: string)
    ensures r == NotCloseHauled <==> twd.Null? || boatHeadingCog.Null? || StartsWith(currentTack, "in_irons")
    ensures r != NotCloseHauled ==> (boatHeadingCog.Value? && twd.Value? &&
                                     var a := Abs(AngleDifference(boatHeadingCog.value, twd.value));
                                     (r == Header <==> a > optimalCloseHauledAngle + 7) &&
                                     (r == Lift <==> a < optimalCloseHauledAngle - 7) &&
                                     (r == OnOptimalAngle <==> optimalCloseHauledAngle - 7 <= a <= optimalCloseHauledAngle + 7))
  {
    if twd.Null? || boatHeadingCog.Null? || StartsWith(currentTack, "in_irons") then NotCloseHauled
    else
      var actualAngleToWind := Abs(AngleDifference(boatHeadingCog.value, twd.value));
      if actualAngleToWind > optimalCloseHauledAngle + 7 then Header
      else if actualAngleToWind < optimalCloseHauledAngle - 7 then Lift
      else OnOptimalAngle
  }

  /** `Math.abs`. */
  function Abs(x: int): (r: int)
    ensures r >= 0 && (r == x || r == -x)
  {
    if x < 0 then -x else x
  }

  /** Fed the tack `getCurrentTack` computes for the same readings, the
      advisor only answers header / lift / optimal when the boat is on port
      or starboard tack, so the angle to the wind is then between 5 and 175
      degrees; in irons, running downwind or without readings it answers
      "not_close_hauled". */
  lemma HeaderLiftOnlyOnTack(heading: Nullable<int>, twd: Nullable<int>, opt: int)
    ensures var tack := GetCurrentTack(heading, twd);
      CheckHeaderLift(heading, twd, opt, tack) != NotCloseHauled <==> tack == Port || tack == Starboard
    ensures var tack := GetCurrentTack(heading, twd);
      CheckHeaderLift(heading, twd, opt, tack) != NotCloseHauled ==>
        5 < Abs(AngleDifference(heading.value, twd.value)) < 175
  {
    var tack := GetCurrentTack(heading, twd);
    assert !StartsWith(Port, "in_irons");
    assert !StartsWith(Starboard, "in_irons") by { assert Starboard[..8][0] != "in_irons"[0]; }
    assert StartsWith(InIronsOrDownwind, "in_irons") by { assert InIronsOrDownwind[..8] == "in_irons"; }
    assert !StartsWith(UnknownTack, "in_irons");
  }

  /** A narrower angle to the wind never gives a worse verdict: the verdicts
      lift, on-optimal, header are ordered by the angle to the wind. */
  lemma HeaderLiftMonotone(h1: int, h2: int, twd: int, opt: int, tack: string)
    requires !StartsWith(tack, "in_irons")
    requires Abs(AngleDifference(h1, twd)) <= Abs(AngleDifference(h2, twd))
    ensures Rank(CheckHeaderLift(Value(h1), Value(twd), opt, tack)) <=
            Rank(CheckHeaderLift(Value(h2), Value(twd), opt, tack))
  {
  }

  /** Orders the close-hauled verdicts from best to worst. */
  function Rank(verdict: string): int {
    if verdict == Lift then 0 else if verdict == OnOptimalAngle then 1 else 2
  }
}
