/**
 * Byte-level helpers shared by the fMP4 box parser, the RTP packetisers and
 * the input-message codecs: a byte is an integer in [0, 256), and
 * multi-byte fields are written big-endian (network order, RTP and ISO BMFF)
 * or little-endian (the browser input messages and the gamepad packets).
 */
module Bytes {

  type Byte = b: int | 0 <= b < 0x100
  type U16 = x: int | 0 <= x < 0x1_0000
  type U32 = x: int | 0 <= x < 0x1_0000_0000

  const TWO_16: int := 0x1_0000
  const TWO_32: int := 0x1_0000_0000
  const TWO_64: int := 0x1_0000_0000_0000_0000

  /** Big-endian 32-bit field, as `struct.unpack(">I", …)` reads it. */
  function Be32(s: seq<Byte>): (v: nat)
    requires |s| == 4
    ensures v < TWO_32
  {
    s[0] as int * 0x100_0000 + s[1] as int * 0x1_0000 + s[2] as int * 0x100 + s[3] as int
  }

  /** Big-endian 64-bit field, as `struct.unpack(">Q", …)` reads it. */
  function Be64(s: seq<Byte>): (v: nat)
    requires |s| == 8
    ensures v < TWO_64
  {
    Be32(s[..4]) * 0x1_0000_0000 + Be32(s[4..])
  }

  /** The two bytes of a 16-bit value, most significant first. */
  function ToBe16(x: U16): (r: seq<Byte>)
    ensures |r| == 2 && r[0] as int * 0x100 + r[1] as int == x
  {
    [x / 0x100, x % 0x100]
  }

  /** The four bytes of a 32-bit value, most significant first. */
  function ToBe32(x: U32): (r: seq<Byte>)
    ensures |r| == 4 && Be32(r) == x
  {
    var hi, lo := x / 0x1_0000, x % 0x1_0000;
    [hi / 0x100, hi % 0x100, lo / 0x100, lo % 0x100]
  }

  /** Little-endian 16-bit field: `data[i] | (data[i + 1] << 8)`. */
  function Le16(lo: Byte, hi: Byte): (v: U16)
    ensures v % 0x100 == lo && v / 0x100 == hi
  {
    lo as int + hi as int * 0x100
  }

  /** The two bytes of a 16-bit value, least significant first. */
  function ToLe16(x: U16): (r: seq<Byte>)
    ensures |r| == 2 && Le16(r[0], r[1]) == x
  {
    [x % 0x100, x / 0x100]
  }

  lemma Le16RoundTrip(x: U16, lo: Byte, hi: Byte)
    ensures Le16(ToLe16(x)[0], ToLe16(x)[1]) == x
    ensures ToLe16(Le16(lo, hi)) == [lo, hi]
  {
  }

  /** Reinterpretation of 16 bits as a two's-complement `int16_t`. */
  function ToInt16(u: U16): (i: int)
    ensures -0x8000 <= i < 0x8000
    ensures (i + TWO_16) % TWO_16 == u
  {
    if u >= 0x8000 then u - TWO_16 else u
  }

  /** The 16 bits that store an `int16_t`, the inverse of ToInt16. */
  function FromInt16(i: int): (u: U16)
    requires -0x8000 <= i < 0x8000
    ensures ToInt16(u) == i
  {
    if i < 0 then i + TWO_16 else i
  }

  /**
   * `static_cast<int>` of a wider integer: the low 32 bits, read as two's
   * complement. Values that fit are kept.
   */
  function ToInt32(x: int): (i: int)
    ensures -0x8000_0000 <= i < 0x8000_0000
    ensures (x - i) % TWO_32 == 0
    ensures -0x8000_0000 <= x < 0x8000_0000 ==> i == x
  {
    var u := x % TWO_32;
    if u >= 0x8000_0000 then u - TWO_32 else u
  }

  /** C++'s conversion of a floating value to an integer: truncation toward zero. */
  function Truncate(r: real): (i: int)
    ensures 0.0 <= r ==> i as real <= r < i as real + 1.0
    ensures r < 0.0 ==> i as real - 1.0 < r <= i as real
  {
    if r >= 0.0 then r.Floor else -((-r).Floor)
  }

  /** C's `/` on integers: the quotient truncated toward zero. */
  function CDiv(a: int, b: int): (q: int)
    requires b > 0
    ensures a >= 0 ==> q == a / b
    ensures a < 0 ==> q == -((-a) / b)
  {
    if a >= 0 then a / b else -((-a) / b)
  }

  function Min(a: int, b: int): (m: int)
    ensures m <= a && m <= b && (m == a || m == b)
  {
    if a < b then a else b
  }

  /** Concatenation of a list of byte runs, built from the back the way a reader accumulates them. */
  function Concat(runs: seq<seq<Byte>>): seq<Byte>
  {
    if runs == [] then [] else Concat(runs[..|runs| - 1]) + runs[|runs| - 1]
  }

  lemma {:induction false} ConcatCons(x: seq<Byte>, runs: seq<seq<Byte>>)
    ensures Concat([x] + runs) == x + Concat(runs)
    decreases |runs|
  {
    if runs != [] {
      var init := runs[..|runs| - 1];
      assert ([x] + runs)[..|runs|] == [x] + init;
      ConcatCons(x, init);
    } else {
      assert Concat([x]) == Concat([]) + x;
    }
  }

  lemma {:induction false} ConcatAppend(r1: seq<seq<Byte>>, r2: seq<seq<Byte>>)
    ensures Concat(r1 + r2) == Concat(r1) + Concat(r2)
    decreases |r2|
  {
    if r2 == [] {
      assert r1 + r2 == r1;
    } else {
      var init := r2[..|r2| - 1];
      assert (r1 + r2)[..|r1 + r2| - 1] == r1 + init;
      ConcatAppend(r1, init);
    }
  }

  lemma AppendAssoc<T>(x: seq<T>, y: seq<T>, z: seq<T>)
    ensures x + y + z == x + (y + z)
  {
  }

  // ---------------------------------------------------------------- decimal text

  function Digit(d: nat): (c: char)
    requires d < 10
    ensures '0' <= c <= '9'
  {
    ('0' as int + d) as char
  }

  /**
   * The decimal text of a count, most significant digit first, as
   * `std::to_string` and Python's `str` write it.
   */
  function Decimal(n: nat): (s: string)
    ensures |s| >= 1 && (n >= 10 <==> |s| >= 2)
    decreases n
  {
    if n < 10 then [Digit(n)] else Decimal(n / 10) + [Digit(n % 10)]
  }

  /** Different numbers have different decimal spellings. */
  lemma {:induction false} DecimalInjective(a: nat, b: nat)
    requires Decimal(a) == Decimal(b)
    ensures a == b
    decreases a
  {
    if a >= 10 && b >= 10 {
      var sa, sb := Decimal(a), Decimal(b);
      assert sa[|sa| - 1] == Digit(a % 10) && sb[|sb| - 1] == Digit(b % 10);
      assert sa[..|sa| - 1] == Decimal(a / 10) && sb[..|sb| - 1] == Decimal(b / 10);
      DecimalInjective(a / 10, b / 10);
    } else {
      assert Decimal(a)[0] == Decimal(b)[0];
    }
  }
}
