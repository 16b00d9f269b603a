/** Java's 32-bit `int` and the 4-byte big-endian encoding that
    `MotorDigest.bytes(int)` produces for the digest's wire format. */
module Int32Bytes {

  const MIN_INT32: int := -0x8000_0000
  const MAX_INT32: int := 0x7FFF_FFFF

  /** A Java `int`. */
  type Int32 = i: int | -0x8000_0000 <= i <= 0x7FFF_FFFF

  /** One octet fed to the message digest. Java's `byte` is signed; the
      digest only sees its eight bits, which this unsigned view keeps. */
  type Byte = b: int | 0 <= b < 0x100

  /** The 32 bits of `v` read as an unsigned number (two's complement),
      which is what `>>>` shifts. */
  function Unsigned(v: Int32): (u: nat)
    ensures u < 0x1_0000_0000
    ensures (u - v) % 0x1_0000_0000 == 0
    ensures v >= 0 ==> u == v
  {
    if v < 0 then v + 0x1_0000_0000 else v
  }

  /** Reads 32 unsigned bits back as a Java `int`. */
  function Signed(u: nat): (v: Int32)
    requires u < 0x1_0000_0000
    ensures Unsigned(v) == u
  {
    if u <= MAX_INT32 then u else u - 0x1_0000_0000
  }

  /** The value of four bytes read most-significant first. */
  function BigEndian(b: seq<Byte>): (u: nat)
    requires |b| == 4
    ensures u < 0x1_0000_0000
  {
    (b[0] as int) * 0x100_0000 + (b[1] as int) * 0x1_0000 + (b[2] as int) * 0x100 + b[3]
  }

  /** `bytes(value)`: bits 31..24, 23..16, 15..8 and 7..0 of `value`,
      each as `(value >>> k) & 0xFF`. */
  function Bytes(v: Int32): (r: seq<Byte>)
    ensures |r| == 4
    ensures BigEndian(r) == Unsigned(v)
  {
    var u := Unsigned(v);
    var r := [u / 0x100_0000 % 0x100, u / 0x1_0000 % 0x100, u / 0x100 % 0x100, u % 0x100];
    DigitsOf(u);
    r
  }

  /** Four bytes read back as a big-endian two's-complement `int`. */
  function FromBytes(b: seq<Byte>): (v: Int32)
    requires |b| == 4
    ensures Unsigned(v) == BigEndian(b)
  {
    Signed(BigEndian(b))
  }

  /** The four base-256 digits of `u`, most significant first, add up to `u`. */
  lemma DigitsOf(u: nat)
    requires u < 0x1_0000_0000
    ensures (u / 0x100_0000 % 0x100) * 0x100_0000 + (u / 0x1_0000 % 0x100) * 0x1_0000
            + (u / 0x100 % 0x100) * 0x100 + u % 0x100 == u
  {
    var d0, q0 := u % 0x100, u / 0x100;
    var d1, q1 := q0 % 0x100, q0 / 0x100;
    var d2, d3 := q1 % 0x100, q1 / 0x100;
    assert u == q0 * 0x100 + d0;
    assert q0 == q1 * 0x100 + d1;
    assert q1 == d3 * 0x100 + d2;
    assert u / 0x1_0000 == q1;
    assert u / 0x100_0000 == d3;
  }

  /** Unsigned is one-to-one on Java `int`s. */
  lemma UnsignedInjective(v: Int32, w: Int32)
    requires Unsigned(v) == Unsigned(w)
    ensures v == w
  {
  }

  /** Division with remainder by 256 has one answer. */
  lemma DivMod256(u: int, q: int, d: int)
    requires u == q * 0x100 + d && 0 <= d < 0x100
    ensures u / 0x100 == q && u % 0x100 == d
  {
  }

  /** The base-256 digits of a big-endian value are the bytes it was read from. */
  lemma DigitsOfBigEndian(b: seq<Byte>)
    requires |b| == 4
    ensures var u := BigEndian(b);
      [u / 0x100_0000 % 0x100, u / 0x1_0000 % 0x100, u / 0x100 % 0x100, u % 0x100] == b
  {
    var u := BigEndian(b);
    var q1 := (b[0] as int) * 0x100 + b[1];
    var q0 := q1 * 0x100 + b[2];
    DivMod256(u, q0, b[3]);
    DivMod256(q0, q1, b[2]);
    DivMod256(q1, b[0], b[1]);
    DivMod256(b[0], 0, b[0]);
    assert u / 0x1_0000 == q0 / 0x100;
    assert u / 0x100_0000 == q1 / 0x100;
  }

  /** Big-endian reading is one-to-one on 4-byte sequences. */
  lemma BigEndianInjective(a: seq<Byte>, b: seq<Byte>)
    requires |a| == 4 && |b| == 4
    requires BigEndian(a) == BigEndian(b)
    ensures a == b
  {
    DigitsOfBigEndian(a);
    DigitsOfBigEndian(b);
  }

  /** Round trip: decoding `bytes(v)` as a big-endian two's-complement
      32-bit value gives back `v`. */
  lemma FromBytesOfBytes(v: Int32)
    ensures FromBytes(Bytes(v)) == v
  {
    UnsignedInjective(FromBytes(Bytes(v)), v);
  }

  /** The other direction: every 4 bytes are `bytes` of exactly one `int`. */
  lemma BytesOfFromBytes(b: seq<Byte>)
    requires |b| == 4
    ensures Bytes(FromBytes(b)) == b
  {
    BigEndianInjective(Bytes(FromBytes(b)), b);
  }

  /** Distinct `int`s are encoded as distinct byte quadruples. */
  lemma BytesInjective(v: Int32, w: Int32)
    requires Bytes(v) == Bytes(w)
    ensures v == w
  {
    FromBytesOfBytes(v);
    FromBytesOfBytes(w);
  }
}
