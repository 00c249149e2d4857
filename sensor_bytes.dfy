/**
 * Bytes as returned by an I2C block read, and the 16-bit two's-complement
 * interpretation shared by the accelerometer, magnetometer and gyroscope
 * decoders.
 */
module SensorBytes {

  /** One unsigned byte of a register dump. */
  type Byte = b: int | 0 <= b < 256

  /** Three physical components (x, y, z) of one sensor sample. */
  datatype Triple = Triple(x: real, y: real, z: real)

  /** The unsigned 16-bit word whose high byte is `hi` and low byte is `lo`,
      `lo | (hi << 8)`. The two bytes occupy disjoint bits, so the OR is a sum. */
  function Word(hi: Byte, lo: Byte): (n: int)
    ensures 0 <= n < 65536
    ensures n / 256 == hi && n % 256 == lo
  {
    hi * 256 + lo
  }

  /** Reads an unsigned 16-bit word as a two's-complement signed value. */
  function Signed16(n: int): (v: int)
    requires 0 <= n < 65536
    ensures -32768 <= v <= 32767
    ensures (n - v) % 65536 == 0
    ensures v < 0 <==> n >= 32768
  {
    if n < 32768 then n else n - 65536
  }

  /** The unsigned word that encodes the signed 16-bit value `v`. */
  function Unsigned16(v: int): (n: int)
    requires -32768 <= v <= 32767
    ensures 0 <= n < 65536
  {
    v % 65536
  }

  /** Range and congruence modulo 65536 determine a signed 16-bit value. */
  lemma Signed16Unique(n: int, v: int)
    requires 0 <= n < 65536
    requires -32768 <= v <= 32767
    requires (n - v) % 65536 == 0
    ensures Signed16(n) == v
  {
    var d := n - v;
    assert -32767 <= d <= 98303;
  }

  /** Decoding the encoding of a signed 16-bit value gives it back. */
  lemma {:induction false} Signed16OfUnsigned16(v: int)
    requires -32768 <= v <= 32767
    ensures Signed16(Unsigned16(v)) == v
  {
    var n := Unsigned16(v);
    assert (n - v) % 65536 == 0;
    Signed16Unique(n, v);
  }

  /** Splitting a word into its high and low bytes and joining them again
      gives the word back. */
  lemma WordOfBytes(n: int)
    requires 0 <= n < 65536
    ensures Word(n / 256, n % 256) == n
  {
  }
}
