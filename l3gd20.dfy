/**
 * The decoding and unit-conversion part of the L3GD20 gyroscope driver.
 * The six-byte list read over I2C is an input; the bus transactions are
 * not modelled.
 */
module L3gd20 {
  import opened Exceptions
  import opened SensorBytes
  import Lsm303

  /** Degrees per second per count at the 250 dps range. */
  const GyroSensitivity250Dps: real := 0.00875
  /** Radians per degree, to the precision the driver uses. */
  const DpsToRad: real := 0.017453293

  /** The signed 16-bit angular-rate count at `idx`: low byte first, then
      high byte, read as two's complement. */
  function Gyro16(blist: seq<Byte>, idx: nat): (r: int)
    requires idx + 1 < |blist|
    ensures -32768 <= r <= 32767
    ensures r < 0 <==> blist[idx + 1] >= 128
    ensures var n := blist[idx] as int + 256 * blist[idx + 1] as int;
            (n < 32768 ==> r == n) && (n >= 32768 ==> r == n - 65536)
  {
    Signed16(Word(blist[idx + 1], blist[idx]))
  }

  /** Encoding a signed 16-bit value little-endian, as the gyroscope sends
      it, and decoding it with Gyro16 gives the value back. */
  lemma {:induction false} Gyro16RoundTrip(v: int)
    requires -32768 <= v <= 32767
    ensures var n := Unsigned16(v);
            Gyro16([n % 256, n / 256], 0) == v
  {
    var n := Unsigned16(v);
    WordOfBytes(n);
    Signed16OfUnsigned16(v);
  }

  /** The gyroscope and the magnetometer decode the same way up to byte
      order: Gyro16 on (lo, hi) is Mag16 on (hi, lo). */
  lemma Gyro16IsSwappedMag16(lo: Byte, hi: Byte)
    ensures Gyro16([lo, hi], 0) == Lsm303.Mag16([hi, lo], 0)
  {
  }

  /** The accelerometer reads the same byte order as the gyroscope and
      keeps the top 12 bits: its count is the gyroscope count divided by
      16, rounded toward negative infinity. */
  lemma Accel12IsGyro16Shifted(blist: seq<Byte>, idx: nat)
    requires idx + 1 < |blist|
    ensures 16 * Lsm303.Accel12(blist, idx) <= Gyro16(blist, idx)
                                             < 16 * Lsm303.Accel12(blist, idx) + 16
  {
  }

  /** Converts a gyroscope count to rad/s: each count is 8.75 millidegrees
      per second, so 8000 counts are 70 degrees per second; the sign of the
      count is kept. */
  function GyroToRadPerSec(count: int): (w: real)
    ensures count == 8000 ==> w == 70.0 * DpsToRad
    ensures w == 0.0 <==> count == 0
    ensures w > 0.0 <==> count > 0
    ensures w == count as real * 0.00015271631375
  {
    count as real * GyroSensitivity250Dps * DpsToRad
  }

  /** The gyroscope conversion is additive, so together with its value at
      8000 counts it is fixed on every count. */
  lemma GyroToRadPerSecAdditive(c1: int, c2: int)
    ensures GyroToRadPerSec(c1 + c2) == GyroToRadPerSec(c1) + GyroToRadPerSec(c2)
  {
  }

  /**
   * `read`: the counts at offsets 0, 2 and 4, each converted to rad/s.
   * A list of fewer than six bytes raises IndexError.
   */
  function Read(blist: seq<Byte>): (r: Result<Triple>)
    ensures r.Ok? <==> |blist| >= 6
    ensures r.Err? ==> r.error == IndexError
    ensures r.Ok? ==>
      r.value.x == Gyro16(blist, 0) as real * 0.00015271631375 &&
      r.value.y == Gyro16(blist, 2) as real * 0.00015271631375 &&
      r.value.z == Gyro16(blist, 4) as real * 0.00015271631375
  {
    if |blist| < 6 then Err(IndexError)
    else Ok(Triple(GyroToRadPerSec(Gyro16(blist, 0)),
                   GyroToRadPerSec(Gyro16(blist, 2)),
                   GyroToRadPerSec(Gyro16(blist, 4))))
  }

  /** A byte list of zeros reads as no rotation. */
  lemma ReadZeros()
    ensures Read([0, 0, 0, 0, 0, 0]) == Ok(Triple(0.0, 0.0, 0.0))
  {
  }

  /** Reading the little-endian encodings of three signed 16-bit rates
      recovers each rate, scaled to rad/s. */
  lemma {:induction false} ReadRoundTrip(vx: int, vy: int, vz: int)
    requires -32768 <= vx <= 32767 && -32768 <= vy <= 32767 && -32768 <= vz <= 32767
    ensures var nx, ny, nz := Unsigned16(vx), Unsigned16(vy), Unsigned16(vz);
            Read([nx % 256, nx / 256, ny % 256, ny / 256, nz % 256, nz / 256])
              == Ok(Triple(GyroToRadPerSec(vx), GyroToRadPerSec(vy), GyroToRadPerSec(vz)))
  {
    var nx, ny, nz := Unsigned16(vx), Unsigned16(vy), Unsigned16(vz);
    var b: seq<Byte> := [nx % 256, nx / 256, ny % 256, ny / 256, nz % 256, nz / 256];
    Gyro16RoundTrip(vx);
    Gyro16RoundTrip(vy);
    Gyro16RoundTrip(vz);
    GyroAt(b, 0, vx);
    GyroAt(b, 2, vy);
    GyroAt(b, 4, vz);
  }

  /** Gyro16 at `idx` depends only on the two bytes there. */
  lemma GyroAt(blist: seq<Byte>, idx: nat, v: int)
    requires idx + 1 < |blist|
    requires Gyro16([blist[idx], blist[idx + 1]], 0) == v
    ensures Gyro16(blist, idx) == v
  {
  }
}
