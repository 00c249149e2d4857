/**
 * The decoding and unit-conversion part of the LSM303 accelerometer /
 * magnetometer driver. The six-byte lists that the driver reads over I2C
 * are inputs here; the bus transactions themselves are not modelled.
 */
module Lsm303 {
  import opened Exceptions
  import opened SensorBytes

  /** Acceleration in g per least significant bit (1 milli-g). */
  const AccelMgLsb: real := 0.001
  /** Standard gravity, in m/s^2. */
  const GravityEarth: real := 9.80665
  /** Magnetometer counts per gauss on the x and y axes at gain +/-1.3. */
  const MagGaussLsbXY: real := 1100.0
  /** Magnetometer counts per gauss on the z axis at gain +/-1.3. */
  const MagGaussLsbZ: real := 980.0
  /** Microtesla per gauss. */
  const GaussToMicrotesla: real := 100.0

  /** One accelerometer sample (m/s^2) and one magnetometer sample (uT). */
  datatype Reading = Reading(accel: Triple, mag: Triple)

  /**
   * The signed 12-bit acceleration count at `idx`: low byte first, then
   * high byte, read as 16-bit two's complement and shifted right
   * arithmetically by 4 bits. Dafny's `/` by a positive divisor rounds
   * toward negative infinity, as an arithmetic right shift does.
   */
  function Accel12(blist: seq<Byte>, idx: nat): (r: int)
    requires idx + 1 < |blist|
    ensures -2048 <= r <= 2047
    ensures r < 0 <==> blist[idx + 1] >= 128
  {
    Signed16(Word(blist[idx + 1], blist[idx])) / 16
  }

  /** The signed 16-bit magnetometer count at `idx`: high byte first,
      then low byte, read as two's complement. */
  function Mag16(blist: seq<Byte>, idx: nat): (r: int)
    requires idx + 1 < |blist|
    ensures -32768 <= r <= 32767
    ensures r < 0 <==> blist[idx] >= 128
  {
    Signed16(Word(blist[idx], blist[idx + 1]))
  }

  /** The accelerometer count is the signed little-endian 16-bit value
      rounded down to a multiple of 16, then divided by 16. */
  lemma Accel12IsFloor(blist: seq<Byte>, idx: nat)
    requires idx + 1 < |blist|
    ensures var s := Signed16(blist[idx] as int + 256 * blist[idx + 1] as int);
            16 * Accel12(blist, idx) <= s < 16 * Accel12(blist, idx) + 16
  {
  }

  /** Encoding a signed 16-bit value big-endian, as the magnetometer sends
      it, and decoding it with Mag16 gives the value back. */
  lemma {:induction false} Mag16RoundTrip(v: int)
    requires -32768 <= v <= 32767
    ensures var n := Unsigned16(v);
            Mag16([n / 256, n % 256], 0) == v
  {
    var n := Unsigned16(v);
    WordOfBytes(n);
    Signed16OfUnsigned16(v);
  }

  /** Scale from an accelerometer count to m/s^2. */
  const AccelScale: real := AccelMgLsb * GravityEarth

  /** Converts an accelerometer count to m/s^2: 1000 counts are one g, and
      the conversion keeps the sign of the count. */
  function AccelToMs2(count: int): (a: real)
    ensures count == 1000 ==> a == GravityEarth
    ensures a == 0.0 <==> count == 0
    ensures a > 0.0 <==> count > 0
    ensures a * 100000.0 == count as real * 980.665
  {
    count as real * AccelMgLsb * GravityEarth
  }

  /** The accelerometer conversion is additive, so together with its value
      at 1000 counts it is fixed on every count. */
  lemma AccelToMs2Additive(c1: int, c2: int)
    ensures AccelToMs2(c1 + c2) == AccelToMs2(c1) + AccelToMs2(c2)
  {
  }

  /** Converts a magnetometer count to uT, given the axis's counts per gauss:
      one gauss worth of counts is 100 uT, and the sign of the count is kept. */
  function MagToMicrotesla(count: int, lsbPerGauss: real): (m: real)
    requires lsbPerGauss > 0.0
    ensures count as real == lsbPerGauss ==> m == GaussToMicrotesla
    ensures m == 0.0 <==> count == 0
    ensures m > 0.0 <==> count > 0
    ensures m * lsbPerGauss == count as real * GaussToMicrotesla
  {
    count as real / lsbPerGauss * GaussToMicrotesla
  }

  /** At gain +/-1.3, 1100 counts on x or y and 980 counts on z are one
      gauss, 100 uT. */
  lemma MagGaussCalibration()
    ensures MagToMicrotesla(1100, MagGaussLsbXY) == GaussToMicrotesla
    ensures MagToMicrotesla(980, MagGaussLsbZ) == GaussToMicrotesla
  {
  }

  /** The magnetometer conversion is additive at a fixed gain, so together
      with its value at one gauss it is fixed on every count. */
  lemma MagToMicroteslaAdditive(c1: int, c2: int, lsbPerGauss: real)
    requires lsbPerGauss > 0.0
    ensures MagToMicrotesla(c1 + c2, lsbPerGauss)
         == MagToMicrotesla(c1, lsbPerGauss) + MagToMicrotesla(c2, lsbPerGauss)
  {
  }

  /**
   * The accelerometer part of `read`: the counts at offsets 0, 2 and 4,
   * each converted to m/s^2. A list of fewer than six bytes raises
   * IndexError.
   */
  function ReadAccel(blist: seq<Byte>): (r: Result<Triple>)
    ensures r.Ok? <==> |blist| >= 6
    ensures r.Err? ==> r.error == IndexError
    ensures r.Ok? ==>
      r.value == Triple(AccelToMs2(Accel12(blist, 0)),
                        AccelToMs2(Accel12(blist, 2)),
                        AccelToMs2(Accel12(blist, 4)))
    ensures r.Ok? ==>
      r.value.x * 100000.0 == Accel12(blist, 0) as real * 980.665 &&
      r.value.y * 100000.0 == Accel12(blist, 2) as real * 980.665 &&
      r.value.z * 100000.0 == Accel12(blist, 4) as real * 980.665
  {
    if |blist| < 6 then Err(IndexError)
    else Ok(Triple(AccelToMs2(Accel12(blist, 0)),
                   AccelToMs2(Accel12(blist, 2)),
                   AccelToMs2(Accel12(blist, 4))))
  }

  /**
   * The magnetometer part of `read`: the counts at offsets 0, 2 and 4;
   * x and y divided by 1100 counts per gauss, z by 980, all three then
   * converted to uT. A list of fewer than six bytes raises IndexError.
   */
  function ReadMag(blist: seq<Byte>): (r: Result<Triple>)
    ensures r.Ok? <==> |blist| >= 6
    ensures r.Err? ==> r.error == IndexError
    ensures r.Ok? ==>
      r.value == Triple(MagToMicrotesla(Mag16(blist, 0), MagGaussLsbXY),
                        MagToMicrotesla(Mag16(blist, 2), MagGaussLsbXY),
                        MagToMicrotesla(Mag16(blist, 4), MagGaussLsbZ))
    ensures r.Ok? ==>
      r.value.x * 11.0 == Mag16(blist, 0) as real &&
      r.value.y * 11.0 == Mag16(blist, 2) as real &&
      r.value.z * 9.8 == Mag16(blist, 4) as real
  {
    if |blist| < 6 then Err(IndexError)
    else Ok(Triple(MagToMicrotesla(Mag16(blist, 0), MagGaussLsbXY),
                   MagToMicrotesla(Mag16(blist, 2), MagGaussLsbXY),
                   MagToMicrotesla(Mag16(blist, 4), MagGaussLsbZ)))
  }

  /** `read`: the accelerometer sample, then the magnetometer sample. */
  function Read(accelBytes: seq<Byte>, magBytes: seq<Byte>): (r: Result<Reading>)
    ensures r.Ok? <==> |accelBytes| >= 6 && |magBytes| >= 6
    ensures r.Err? ==> r.error == IndexError
    ensures r.Ok? ==>
      Ok(r.value.accel) == ReadAccel(accelBytes) && Ok(r.value.mag) == ReadMag(magBytes)
  {
    var a := ReadAccel(accelBytes);
    if a.Err? then Err(a.error)
    else
      var m := ReadMag(magBytes);
      if m.Err? then Err(m.error)
      else Ok(Reading(a.value, m.value))
  }

  /** Every accelerometer component lies within the sensor's 12-bit range
      converted to m/s^2. */
  lemma ReadAccelBounds(blist: seq<Byte>)
    requires |blist| >= 6
    ensures var t := ReadAccel(blist).value;
            -2048.0 * AccelScale <= t.x <= 2047.0 * AccelScale &&
            -2048.0 * AccelScale <= t.y <= 2047.0 * AccelScale &&
            -2048.0 * AccelScale <= t.z <= 2047.0 * AccelScale
  {
    AccelToMs2Bounds(Accel12(blist, 0));
    AccelToMs2Bounds(Accel12(blist, 2));
    AccelToMs2Bounds(Accel12(blist, 4));
  }

  lemma AccelToMs2Bounds(count: int)
    requires -2048 <= count <= 2047
    ensures -2048.0 * AccelScale <= AccelToMs2(count) <= 2047.0 * AccelScale
  {
  }

  /** Every magnetometer component lies within the 16-bit range converted
      to uT at the axis's gain. */
  lemma ReadMagBounds(blist: seq<Byte>)
    requires |blist| >= 6
    ensures var t := ReadMag(blist).value;
            -32768.0 <= t.x * 11.0 <= 32767.0 &&
            -32768.0 <= t.y * 11.0 <= 32767.0 &&
            -32768.0 <= t.z * 9.8 <= 32767.0
  {
  }

  /** A byte list of zeros reads as no acceleration and no field. */
  lemma ReadZeros()
    ensures Read([0, 0, 0, 0, 0, 0], [0, 0, 0, 0, 0, 0])
         == Ok(Reading(Triple(0.0, 0.0, 0.0), Triple(0.0, 0.0, 0.0)))
  {
  }
}
