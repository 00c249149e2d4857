/**
 * A motor speed controller or servo driven by 50 Hz PWM. A speed in
 * [-1, 1] maps linearly onto a pulse width of 5 % to 10 % of the period,
 * 7.5 % meaning stop. The PWM output is recorded in the motor's `duty`
 * field instead of being sent to the hardware.
 */
module Motors {

  /** PWM frequency in Hz. */
  const Freq: nat := 50
  /** Smallest pulse width, in percent of the period (full reverse). */
  const DutyMin: real := 5.0
  /** Largest pulse width, in percent of the period (full forward). */
  const DutyMax: real := 10.0
  /** Pulse width at which the motor stands still. */
  const DutyZero: real := 7.5

  /** `speed` limited to [-1, 1]. */
  function Clamp(speed: real): (s: real)
    ensures -1.0 <= s <= 1.0
    ensures -1.0 <= speed <= 1.0 ==> s == speed
    ensures speed > 1.0 ==> s == 1.0
    ensures speed < -1.0 ==> s == -1.0
  {
    if speed > 1.0 then 1.0
    else if speed < -1.0 then -1.0
    else speed
  }

  /** The duty cycle for a speed between -1 (full backwards) and 1 (full
      forwards); speeds outside that range are clamped first. */
  function DutyCycle(speed: real): (d: real)
    ensures DutyMin <= d <= DutyMax
    ensures speed >= 1.0 ==> d == DutyMax
    ensures speed <= -1.0 ==> d == DutyMin
    ensures speed == 0.0 ==> d == DutyZero
  {
    var s := Clamp(speed);
    (s + 1.0) / 2.0 * (DutyMax - DutyMin) + DutyMin
  }

  /** The speed that a duty cycle in [DutyMin, DutyMax] commands. */
  function SpeedOf(duty: real): (s: real)
    requires DutyMin <= duty <= DutyMax
    ensures -1.0 <= s <= 1.0
  {
    (duty - DutyMin) / (DutyMax - DutyMin) * 2.0 - 1.0
  }

  /** SpeedOf inverts DutyCycle on [-1, 1]: distinct speeds in range give
      distinct duty cycles. */
  lemma SpeedOfDutyCycle(speed: real)
    requires -1.0 <= speed <= 1.0
    ensures SpeedOf(DutyCycle(speed)) == speed
  {
  }

  /** Speeds beyond full scale command the same duty cycle as full scale. */
  lemma DutyCycleSaturates(speed: real)
    ensures speed > 1.0 ==> DutyCycle(speed) == DutyCycle(1.0)
    ensures speed < -1.0 ==> DutyCycle(speed) == DutyCycle(-1.0)
  {
  }

  /** A faster command never gives a smaller pulse width. */
  lemma DutyCycleMonotone(s1: real, s2: real)
    requires s1 <= s2
    ensures DutyCycle(s1) <= DutyCycle(s2)
  {
  }

  /** Opposite speeds give pulse widths symmetric about DutyZero. */
  lemma DutyCycleSymmetric(speed: real)
    ensures DutyCycle(speed) + DutyCycle(-speed) == DutyMin + DutyMax
  {
    assert Clamp(-speed) == -Clamp(speed);
  }

  /** The speed a motor actually uses: reversed when it is mounted inverted. */
  function Oriented(invert: bool, speed: real): (s: real)
    ensures invert ==> s == -speed
    ensures !invert ==> s == speed
  {
    if invert then -speed else speed
  }

  /** An inverted motor mirrors the plain motor's pulse width about
      DutyZero; a plain motor uses the duty cycle of the speed itself. */
  lemma InvertedMirrorsDuty(speed: real)
    ensures DutyCycle(Oriented(true, speed)) == DutyMin + DutyMax - DutyCycle(speed)
    ensures DutyCycle(Oriented(false, speed)) == DutyCycle(speed)
  {
    DutyCycleSymmetric(speed);
  }

  /** One PWM-driven motor on a named pin. */
  class Motor {
    /** The header pin the PWM signal is generated on, such as "P9_14". */
    const pin: string
    /** Whether positive speeds should turn the motor backwards. */
    const invert: bool
    /** The PWM frequency the output was started with. */
    const frequency: nat
    /** The duty cycle currently commanded on the pin. */
    var duty: real

    /** Starts PWM on `pin` at Freq with the motor standing still. */
    constructor (pin: string, invert: bool := false)
      ensures this.pin == pin && this.invert == invert
      ensures frequency == Freq && duty == DutyZero
    {
      this.pin := pin;
      this.invert := invert;
      frequency := Freq;
      duty := DutyZero;
    }

    /** Commands `speed`, reversed first if the motor is inverted. */
    method SetSpeed(speed: real)
      modifies this
      ensures duty == DutyCycle(Oriented(invert, speed))
      ensures invert ==> duty == DutyMin + DutyMax - DutyCycle(speed)
      ensures !invert ==> duty == DutyCycle(speed)
      ensures DutyMin <= duty <= DutyMax
    {
      InvertedMirrorsDuty(speed);
      var s := speed;
      if invert {
        s := s * -1.0;
      }
      duty := DutyCycle(s);
    }
  }
}
