/** Shared vocabulary of the renderer's host side: optional values, the fixed-width
    integer types of the host/device interface, and single-precision floats kept as
    their bit patterns (no float arithmetic is modelled). */
module Common {

  datatype Option<T> = None | Some(value: T)

  /** uint8_t */
  type byte = x: int | 0 <= x < 0x100
  /** uint16_t */
  type u16 = x: int | 0 <= x < 0x1_0000
  /** cl_uint / uint32_t */
  type u32 = x: int | 0 <= x < 0x1_0000_0000
  /** cl_int / int */
  type i32 = x: int | -0x8000_0000 <= x < 0x8000_0000

  /** A float (cl_float), as its IEEE-754 single-precision bit pattern. */
  datatype Float = Float(bits: u32)

  /** The float +0.0 (all bits clear). */
  const FloatZero := Float(0)
  /** The float 1.0 (bit pattern 0x3F800000). */
  const FloatOne := Float(0x3F80_0000)

  /** The four little-endian bytes of a 32-bit value, as they lie in memory on the host. */
  function U32ToBytes(v: u32): (r: seq<byte>)
    ensures |r| == 4
  {
    [v % 0x100, (v / 0x100) % 0x100, (v / 0x1_0000) % 0x100, v / 0x100_0000]
  }

  /** Reads a 32-bit value from four little-endian bytes (a `uint32_t` or the bits of a float). */
  function U32FromBytes(b: seq<byte>): (v: u32)
    requires |b| == 4
    ensures v % 0x100 == (b[0] as int) && v / 0x100_0000 == (b[3] as int)
  {
    b[0] as int + 0x100 * (b[1] as int) + 0x1_0000 * (b[2] as int) + 0x100_0000 * (b[3] as int)
  }

  lemma U32BytesRoundTrip(v: u32)
    ensures U32FromBytes(U32ToBytes(v)) == v
  {
    var q1 := v / 0x100;
    var q2 := q1 / 0x100;
    var q3 := q2 / 0x100;
    assert v == v % 0x100 + 0x100 * q1;
    assert q1 == q1 % 0x100 + 0x100 * q2;
    assert q2 == q2 % 0x100 + 0x100 * q3;
    assert v / 0x1_0000 == q2;
    assert v / 0x100_0000 == q3;
  }

  /** A slice within the front part of a concatenation is that slice of the front part. */
  lemma SliceOfFront<T>(front: seq<T>, back: seq<T>, a: nat, b: nat)
    requires a <= b <= |front|
    ensures (front + back)[a..b] == front[a..b]
  {
  }

  /** The back part of a concatenation, sliced from where the front part ends. */
  lemma SliceOfBack<T>(front: seq<T>, back: seq<T>, a: nat, b: nat)
    requires a == |front| && b == |front| + |back|
    ensures (front + back)[a..b] == back
  {
  }
}
