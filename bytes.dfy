/**
 * Bytes as the JavaScript code sees them in a `Uint8Array`, and the
 * 32-bit integer semantics of JavaScript's bitwise operators.
 */
module Bytes {

  /** One element of a `Uint8Array`. */
  type byte = x: int | 0 <= x < 0x100

  const TWO_32: int := 0x1_0000_0000
  const TWO_31: int := 0x8000_0000

  /** A value of a signed 32-bit integer, what `x | 0` or `x >> 0` yields. */
  predicate IsInt32(v: int) {
    -TWO_31 <= v < TWO_31
  }

  /**
   * JavaScript's ToInt32: every bitwise operator first wraps its operand
   * to a signed 32-bit integer.
   */
  function ToInt32(v: int): (w: int)
    ensures IsInt32(w)
    ensures (w - v) % TWO_32 == 0
    ensures IsInt32(v) ==> w == v
  {
    var m := v % TWO_32;
    if m >= TWO_31 then m - TWO_32 else m
  }

  /**
   * `v & 0xff`: the low eight bits of ToInt32(v). Dafny's `%` is Euclidean,
   * which is what a two's-complement mask gives for a negative operand too.
   */
  function LowByte(v: int): (b: byte)
    ensures (v - b) % 0x100 == 0
    ensures 0 <= v < 0x100 ==> b == v
  {
    ToInt32(v) % 0x100
  }

  /** `(v >> k) & 0xff` for an arithmetic shift by k = 0, 8, 16 or 24 bits. */
  function ShiftedByte(v: int, k: nat): byte
    requires k <= 3
  {
    var w := ToInt32(v);
    if k == 0 then w % 0x100
    else if k == 1 then (w / 0x100) % 0x100
    else if k == 2 then (w / 0x1_0000) % 0x100
    else (w / 0x100_0000) % 0x100
  }

  /**
   * Masking after ToInt32 loses nothing below bit 32: the low byte and the
   * second byte of a value are those of the value itself.
   */
  lemma LowBytesOfAnyInt(v: int)
    ensures LowByte(v) == v % 0x100
    ensures ShiftedByte(v, 1) == (v / 0x100) % 0x100
  {
    var w := ToInt32(v);
    var k := (v - w) / TWO_32;
    assert v == w + 0x100 * (0x100_0000 * k);
    ShiftByMultiple(w, 0x100_0000 * k);
    ShiftByMultiple(w / 0x100, 0x1_0000 * k);
  }

  /** Adding a multiple of 0x100 leaves the low byte and shifts the quotient. */
  lemma ShiftByMultiple(a: int, q: int)
    ensures (a + 0x100 * q) % 0x100 == a % 0x100
    ensures (a + 0x100 * q) / 0x100 == a / 0x100 + q
  {
    assert a + 0x100 * q == 0x100 * (a / 0x100 + q) + a % 0x100;
  }

  /** The low sixteen bits are the low byte and the next one. */
  lemma LowTwoBytes(n: int)
    ensures n % 0x1_0000 == n % 0x100 + 0x100 * ((n / 0x100) % 0x100)
  {
    var q := n / 0x100;
    var lo := n % 0x100;
    var q2 := q / 0x100;
    var mid := q % 0x100;
    assert n == 0x1_0000 * q2 + (0x100 * mid + lo);
    assert 0 <= 0x100 * mid + lo < 0x1_0000;
  }

  /** The four little-endian bytes the source writes for a 32-bit integer. */
  function Int32LE(v: int): (r: seq<byte>)
  {
    [ShiftedByte(v, 0), ShiftedByte(v, 1), ShiftedByte(v, 2), ShiftedByte(v, 3)]
  }

  /** Reading four bytes back as a signed little-endian 32-bit integer. */
  function DecodeInt32LE(b: seq<byte>): (v: int)
    requires |b| == 4
    ensures IsInt32(v)
  {
    var u: int := b[0] + 0x100 * (b[1] as int) + 0x1_0000 * (b[2] as int) + 0x100_0000 * (b[3] as int);
    if u >= TWO_31 then u - TWO_32 else u
  }

  /** The unsigned reading of a 32-bit pattern, split into its bytes. */
  lemma UnsignedSplit(u: int)
    requires 0 <= u < TWO_32
    ensures u == u % 0x100 + 0x100 * ((u / 0x100) % 0x100)
                 + 0x1_0000 * ((u / 0x1_0000) % 0x100) + 0x100_0000 * (u / 0x100_0000)
    ensures u / 0x100_0000 < 0x100
  {
    var q1 := u / 0x100;
    var q2 := q1 / 0x100;
    var q3 := q2 / 0x100;
    assert u == u % 0x100 + 0x100 * q1;
    assert q1 == q1 % 0x100 + 0x100 * q2;
    assert q2 == q2 % 0x100 + 0x100 * q3;
    assert q2 == u / 0x1_0000;
    assert q3 == u / 0x100_0000;
  }

  /** The bytes of a negative int32 are those of its unsigned reading. */
  lemma ShiftedBytesUnsigned(w: int)
    requires IsInt32(w)
    ensures var u := if w < 0 then w + TWO_32 else w;
      && w % 0x100 == u % 0x100
      && (w / 0x100) % 0x100 == (u / 0x100) % 0x100
      && (w / 0x1_0000) % 0x100 == (u / 0x1_0000) % 0x100
      && (w / 0x100_0000) % 0x100 == u / 0x100_0000
  {
    if w < 0 {
      var u := w + TWO_32;
      ShiftByMultiple(w, 0x100_0000);
      ShiftByMultiple(w / 0x100, 0x1_0000);
      ShiftByWhole(w, 0x1_0000, 0x1_0000);
      ShiftByMultiple(w / 0x1_0000, 0x100);
      ShiftByWhole(w, 0x100_0000, 0x100);
      ShiftByMultiple(w / 0x100_0000, 1);
      assert 0 <= u / 0x100_0000 < 0x100;
    } else {
      assert 0 <= w / 0x100_0000 < 0x100;
    }
  }

  /** Adding q whole units of d shifts the quotient by q and keeps the remainder. */
  lemma ShiftByWhole(a: int, d: int, q: int)
    requires d == 0x1_0000 || d == 0x100_0000
    ensures (a + d * q) / d == a / d + q
    ensures (a + d * q) % d == a % d
  {
    if d == 0x1_0000 {
      assert a + 0x1_0000 * q == 0x1_0000 * (a / 0x1_0000 + q) + a % 0x1_0000;
    } else {
      assert a + 0x100_0000 * q == 0x100_0000 * (a / 0x100_0000 + q) + a % 0x100_0000;
    }
  }

  /** Packing then unpacking recovers the int32 value the operators see. */
  lemma {:induction false} Int32RoundTrip(v: int)
    ensures |Int32LE(v)| == 4
    ensures DecodeInt32LE(Int32LE(v)) == ToInt32(v)
    ensures IsInt32(v) ==> DecodeInt32LE(Int32LE(v)) == v
  {
    var w := ToInt32(v);
    var u := if w < 0 then w + TWO_32 else w;
    ShiftedBytesUnsigned(w);
    UnsignedSplit(u);
  }

  /** The bytes of a 32-bit unsigned value assembled from four bytes. */
  lemma UnsignedJoin(b0: int, b1: int, b2: int, b3: int)
    requires 0 <= b0 < 0x100 && 0 <= b1 < 0x100 && 0 <= b2 < 0x100 && 0 <= b3 < 0x100
    ensures var u := b0 + 0x100 * b1 + 0x1_0000 * b2 + 0x100_0000 * b3;
      && u % 0x100 == b0
      && (u / 0x100) % 0x100 == b1
      && (u / 0x1_0000) % 0x100 == b2
      && u / 0x100_0000 == b3
  {
    var u := b0 + 0x100 * b1 + 0x1_0000 * b2 + 0x100_0000 * b3;
    var q1 := b1 + 0x100 * b2 + 0x1_0000 * b3;
    assert u == b0 + 0x100 * q1;
    assert u / 0x100 == q1;
    var q2 := b2 + 0x100 * b3;
    assert q1 == b1 + 0x100 * q2;
    assert u / 0x1_0000 == q2;
    assert u / 0x100_0000 == b3;
  }

  /** Unpacking then packing gives back the same four bytes. */
  lemma {:induction false} Int32BytesRoundTrip(b: seq<byte>)
    requires |b| == 4
    ensures Int32LE(DecodeInt32LE(b)) == b
  {
    var w := DecodeInt32LE(b);
    assert ToInt32(w) == w;
    UnsignedJoin(b[0], b[1], b[2], b[3]);
    ShiftedBytesUnsigned(w);
  }
}
