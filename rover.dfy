/**
 * The four-wheel rover: a body-frame velocity command (a 2D linear
 * velocity and an angular velocity) is guarded against sideways motion
 * the wheels cannot make, scaled down uniformly when it would overdrive
 * the wheels, and mixed into front-left, front-right, back-left and
 * back-right wheel speeds for the four motors.
 */
module Rovers {
  import opened Motors
  import opened Utilities

  /** The wheel type that can move sideways. */
  const Mecanum: string := "mecanum"
  /** The wheel type the rover is built with. */
  const Leg: string := "leg"
  /** Distance from a wheel to the centre of gravity along x plus the
      distance along y, as one lumped constant. */
  const WheelToCog: real := 1.0

  /** A velocity command: linear velocity (x, y) and angular velocity. */
  datatype Command = Command(x: real, y: real, omega: real)

  /** The speeds given to the four wheel motors. */
  datatype WheelSpeeds = WheelSpeeds(frontLeft: real, frontRight: real,
                                     backLeft: real, backRight: real)

  function Abs(a: real): (r: real)
    ensures r >= 0.0
    ensures r == a || r == -a
  {
    if a < 0.0 then -a else a
  }

  /** The largest combined wheel demand |x| + |y| + |r omega|. */
  function Combined(c: Command): (m: real)
    ensures m >= 0.0
    ensures Abs(c.x) <= m && Abs(c.y) <= m && Abs(WheelToCog * c.omega) <= m
  {
    Abs(c.x) + Abs(c.y) + Abs(WheelToCog * c.omega)
  }

  /** Whether the command asks non-mecanum wheels for motion along x.
      Discarding that motion strictly lowers the combined demand. */
  predicate DiscardsX(wheelType: string, c: Command)
    ensures DiscardsX(wheelType, c) ==> Combined(c.(x := 0.0)) < Combined(c)
  {
    wheelType != Mecanum && c.x != 0.0
  }

  /** The command with its x component removed when the wheels cannot
      realise it. */
  function Guard(wheelType: string, c: Command): (g: Command)
    ensures g.y == c.y && g.omega == c.omega
    ensures g.x == (if wheelType == Mecanum then c.x else 0.0)
  {
    if DiscardsX(wheelType, c) then c.(x := 0.0) else c
  }

  /** The factor the command is divided by: its combined demand when that
      exceeds 1, otherwise 1. */
  function Scale(c: Command): (k: real)
    ensures k >= 1.0 && k >= Combined(c)
  {
    if Combined(c) > 1.0 then Combined(c) else 1.0
  }

  /** The command scaled down uniformly so that its combined demand is at
      most 1; a command already within that budget is left alone. */
  function Saturate(c: Command): (s: Command)
    ensures Combined(c) <= 1.0 ==> s == c
  {
    var m := Combined(c);
    if m > 1.0 then Command(c.x / m, c.y / m, c.omega / m) else c
  }

  /** After saturation the combined demand is at most 1, and exactly 1 when
      the command had to be scaled. */
  lemma SaturateWithinBudget(c: Command)
    ensures Combined(Saturate(c)) <= 1.0
    ensures Combined(c) > 1.0 ==> Combined(Saturate(c)) == 1.0
  {
    if Combined(c) > 1.0 {
      SaturatedDemand(c, Combined(c));
    }
  }

  /** Dividing every component by the positive demand m gives demand 1. */
  lemma SaturatedDemand(c: Command, m: real)
    requires m > 0.0 && m == Combined(c)
    ensures Combined(Command(c.x / m, c.y / m, c.omega / m)) == 1.0
  {
    var s := Command(c.x / m, c.y / m, c.omega / m);
    AbsOfQuotient(c.x, m);
    AbsOfQuotient(c.y, m);
    AbsOfQuotient(c.omega, m);
    CombinedUnitLever(c);
    CombinedUnitLever(s);
    SumOfQuotients(Abs(c.x), Abs(c.y), Abs(c.omega), m);
  }

  /** With WheelToCog = 1 the turning demand is |omega|. */
  lemma CombinedUnitLever(c: Command)
    ensures Combined(c) == Abs(c.x) + Abs(c.y) + Abs(c.omega)
  {
    assert WheelToCog * c.omega == c.omega;
  }

  lemma AbsOfQuotient(a: real, m: real)
    requires m > 0.0
    ensures Abs(a / m) == Abs(a) / m
  {
    if a < 0.0 {
      assert a / m < 0.0;
      assert -(a / m) == (-a) / m;
    } else {
      assert a / m >= 0.0;
    }
  }

  lemma SumOfQuotients(a: real, b: real, d: real, m: real)
    requires m > 0.0 && m == a + b + d
    ensures a / m + b / m + d / m == 1.0
  {
    assert a / m + b / m + d / m == (a + b + d) / m;
  }

  /** Saturation divides all three components by the same factor, so it
      keeps the direction of travel and the ratio of turning to
      translation. */
  lemma SaturateScalesUniformly(c: Command)
    ensures Saturate(c) == Command(c.x / Scale(c), c.y / Scale(c), c.omega / Scale(c))
  {
    if Combined(c) <= 1.0 {
      assert Scale(c) == 1.0;
    }
  }

  /** The four-wheel mixing law. */
  function Mix(c: Command): (w: WheelSpeeds)
    ensures w.frontLeft + w.frontRight == 2.0 * c.x
    ensures w.backLeft + w.backRight == 2.0 * c.x
    ensures Combined(c) <= 1.0 ==>
      Abs(w.frontLeft) <= 1.0 && Abs(w.frontRight) <= 1.0 &&
      Abs(w.backLeft) <= 1.0 && Abs(w.backRight) <= 1.0
  {
    WheelSpeeds(c.x - c.y - WheelToCog * c.omega,
                c.x + c.y + WheelToCog * c.omega,
                c.x + c.y - WheelToCog * c.omega,
                c.x - c.y + WheelToCog * c.omega)
  }

  /** The command that a set of wheel speeds realises: the inverse of Mix. */
  function Unmix(w: WheelSpeeds): (c: Command)
  {
    Command((w.frontLeft + w.frontRight) / 2.0,
            (w.backLeft - w.frontLeft) / 2.0,
            (w.frontRight - w.backLeft) / (2.0 * WheelToCog))
  }

  /** Mixing loses nothing: the command can be read back from the wheel
      speeds. */
  lemma UnmixOfMix(c: Command)
    ensures Unmix(Mix(c)) == c
  {
  }

  /** `set_velocities` as a value: the wheel speeds a command produces.
      Every wheel speed handed to a motor lies in [-1, 1]. */
  function Decompose(wheelType: string, c: Command): (w: WheelSpeeds)
    ensures Abs(w.frontLeft) <= 1.0 && Abs(w.frontRight) <= 1.0
    ensures Abs(w.backLeft) <= 1.0 && Abs(w.backRight) <= 1.0
  {
    SaturateWithinBudget(Guard(wheelType, c));
    Mix(Saturate(Guard(wheelType, c)))
  }

  /** Without mecanum wheels the front wheels, and the back wheels, turn
      in opposite directions at the same speed. */
  lemma NonMecanumPairsOppose(wheelType: string, c: Command)
    requires wheelType != Mecanum
    ensures var w := Decompose(wheelType, c);
            w.frontLeft == -w.frontRight && w.backLeft == -w.backRight
  {
    var g := Guard(wheelType, c);
    SaturateScalesUniformly(g);
  }

  /** Within the budget no scaling happens: the wheels get the raw mix. */
  lemma UnsaturatedIsRawMix(wheelType: string, c: Command)
    requires Combined(Guard(wheelType, c)) <= 1.0
    ensures Decompose(wheelType, c) == Mix(Guard(wheelType, c))
  {
  }

  /** A zero command stops all four wheels. */
  lemma ZeroCommandStops(wheelType: string)
    ensures Decompose(wheelType, Command(0.0, 0.0, 0.0)) == WheelSpeeds(0.0, 0.0, 0.0, 0.0)
  {
  }

  /** Full speed along y with no rotation is exactly on budget and drives
      the wheels at (-1, 1, 1, -1). */
  lemma FullSpeedAlongY(wheelType: string)
    ensures Decompose(wheelType, Command(0.0, 1.0, 0.0)) == WheelSpeeds(-1.0, 1.0, 1.0, -1.0)
  {
    assert Combined(Guard(wheelType, Command(0.0, 1.0, 0.0))) == 1.0;
  }

  /** A mecanum command of demand 2.4 is divided by 2.4 before mixing. */
  lemma OverBudgetIsScaled()
    ensures Decompose(Mecanum, Command(0.8, 0.8, 0.8))
         == WheelSpeeds(-0.8 / 2.4, 2.4 / 2.4, 0.8 / 2.4, 0.8 / 2.4)
  {
    var c := Command(0.8, 0.8, 0.8);
    assert Guard(Mecanum, c) == c;
    assert Combined(c) == 2.4;
    assert Saturate(c) == Command(0.8 / 2.4, 0.8 / 2.4, 0.8 / 2.4);
  }

  /** The motors' own clamp never changes a decomposed wheel speed. */
  lemma MotorClampInactive(wheelType: string, c: Command)
    ensures var w := Decompose(wheelType, c);
            Clamp(w.frontLeft) == w.frontLeft && Clamp(w.frontRight) == w.frontRight &&
            Clamp(w.backLeft) == w.backLeft && Clamp(w.backRight) == w.backRight
  {
  }

  /** The rover: four motors and the wheel type it is built with. */
  class Rover {
    const wheelType: string
    const frontLeft: Motor
    const frontRight: Motor
    const backLeft: Motor
    const backRight: Motor

    /** Four distinct motors, none of them inverted. */
    predicate Valid()
    {
      frontLeft != frontRight && frontLeft != backLeft && frontLeft != backRight &&
      frontRight != backLeft && frontRight != backRight && backLeft != backRight &&
      !frontLeft.invert && !frontRight.invert && !backLeft.invert && !backRight.invert
    }

    /** A leg-wheeled rover with its motors on pins P9_14, P9_16, P8_13 and
        P8_19, all standing still. */
    constructor ()
      ensures Valid() && wheelType == Leg
      ensures fresh(frontLeft) && fresh(frontRight) && fresh(backLeft) && fresh(backRight)
      ensures frontLeft.pin == "P9_14" && frontRight.pin == "P9_16"
      ensures backLeft.pin == "P8_13" && backRight.pin == "P8_19"
      ensures frontLeft.duty == DutyZero && frontRight.duty == DutyZero
      ensures backLeft.duty == DutyZero && backRight.duty == DutyZero
    {
      wheelType := Leg;
      frontLeft := new Motor("P9_14");
      frontRight := new Motor("P9_16");
      backLeft := new Motor("P8_13");
      backRight := new Motor("P8_19");
    }

    /**
     * Drives the rover at `linear` and `angular`. The caller's vector is
     * changed in place: its x is zeroed when the wheels cannot move
     * sideways, and it is divided by the combined demand when that
     * exceeds 1. `degraded` reports that x was discarded.
     */
    method SetVelocities(linear: Vec2, angular: real) returns (degraded: bool)
      requires Valid()
      modifies linear, frontLeft, frontRight, backLeft, backRight
      ensures degraded <==> DiscardsX(wheelType, Command(old(linear.x), old(linear.y), angular))
      ensures var s := Saturate(Guard(wheelType, Command(old(linear.x), old(linear.y), angular)));
              linear.x == s.x && linear.y == s.y
      ensures var w := Decompose(wheelType, Command(old(linear.x), old(linear.y), angular));
              frontLeft.duty == DutyCycle(w.frontLeft) && frontRight.duty == DutyCycle(w.frontRight) &&
              backLeft.duty == DutyCycle(w.backLeft) && backRight.duty == DutyCycle(w.backRight)
    {
      ghost var c := Command(linear.x, linear.y, angular);
      ghost var g := Guard(wheelType, c);
      degraded := wheelType != Mecanum && linear.x != 0.0;
      if degraded {
        linear.x := 0.0;
      }
      assert linear.x == g.x && linear.y == g.y && angular == g.omega;
      var wheelToCog := WheelToCog;
      var maxCombinedSpeed := Abs(linear.x) + Abs(linear.y) + Abs(wheelToCog * angular);
      assert maxCombinedSpeed == Combined(g);
      var omega := angular;
      if maxCombinedSpeed > 1.0 {
        linear.DivInPlace(maxCombinedSpeed);
        omega := omega / maxCombinedSpeed;
      }
      ghost var s := Saturate(g);
      assert linear.x == s.x && linear.y == s.y && omega == s.omega;
      var frontLeftSpeed := linear.x - linear.y - wheelToCog * omega;
      var frontRightSpeed := linear.x + linear.y + wheelToCog * omega;
      var backLeftSpeed := linear.x + linear.y - wheelToCog * omega;
      var backRightSpeed := linear.x - linear.y + wheelToCog * omega;
      assert WheelSpeeds(frontLeftSpeed, frontRightSpeed, backLeftSpeed, backRightSpeed)
          == Decompose(wheelType, c);
      frontLeft.SetSpeed(frontLeftSpeed);
      frontRight.SetSpeed(frontRightSpeed);
      backLeft.SetSpeed(backLeftSpeed);
      backRight.SetSpeed(backRightSpeed);
    }
  }
}
