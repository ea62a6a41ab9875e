/** Bytes, fixed-width unsigned integers and their big-endian encodings. */
module Bytes {

  type byte = x: int | 0 <= x < 0x100
  type u16 = x: int | 0 <= x < 0x1_0000
  type u32 = x: int | 0 <= x < 0x1_0000_0000

  const TWO_32 := 0x1_0000_0000

  datatype Option<+T> = None | Some(value: T)

  /** Go's conversion of a non-negative int to uint32: the low 32 bits. */
  function Truncate32(n: nat): (r: u32)
  {
    if n < TWO_32 then n else n % 0x1_0000_0000
  }

  function Least(a: nat, b: nat): nat {
    if a < b then a else b
  }

  /** Addition of uint32 values, which wraps around. */
  function Add32(a: u32, b: u32): (r: u32)
    ensures r == a + b || r == a + b - TWO_32
  {
    if a + b < TWO_32 then a + b else a + b - TWO_32
  }

  function U16(n: u16): (b: seq<byte>)
    ensures |b| == 2
  {
    [n / 0x100, n % 0x100]
  }

  function U32(n: u32): (b: seq<byte>)
    ensures |b| == 4
  {
    [n / 0x100_0000, n / 0x1_0000 % 0x100, n / 0x100 % 0x100, n % 0x100]
  }

  function GetU16(b: seq<byte>): u16
    requires |b| >= 2
  {
    var hi: int, lo: int := b[0], b[1];
    hi * 0x100 + lo
  }

  function GetU32(b: seq<byte>): u32
    requires |b| >= 4
  {
    var b0: int, b1: int, b2: int, b3: int := b[0], b[1], b[2], b[3];
    b0 * 0x100_0000 + b1 * 0x1_0000 + b2 * 0x100 + b3
  }

  lemma U16RoundTrip(n: u16, tail: seq<byte>)
    ensures GetU16(U16(n) + tail) == n
  {
  }

  lemma GetU16Inverse(b: seq<byte>)
    requires |b| >= 2
    ensures U16(GetU16(b)) == b[..2]
  {
  }

  /** The base-256 digits of a 32-bit number recombine to the number. */
  lemma Digits(n: u32)
    ensures n / 0x100_0000 * 0x100_0000 + n / 0x1_0000 % 0x100 * 0x1_0000 + n / 0x100 % 0x100 * 0x100 + n % 0x100 == n
  {
    var m: int := n / 0x100;
    var h: int := m / 0x100;
    assert n / 0x1_0000 == h;
    assert n / 0x100_0000 == h / 0x100;
  }

  lemma U32RoundTrip(n: u32, tail: seq<byte>)
    ensures GetU32(U32(n) + tail) == n
  {
    Digits(n);
    var b := U32(n) + tail;
    assert b[0] == n / 0x100_0000 && b[1] == n / 0x1_0000 % 0x100 && b[2] == n / 0x100 % 0x100 && b[3] == n % 0x100;
  }

  /** Four digits are the base-256 digits of the number they make. */
  lemma DigitsOf(b0: byte, b1: byte, b2: byte, b3: byte, n: int)
    requires n == b0 as int * 0x100_0000 + b1 as int * 0x1_0000 + b2 as int * 0x100 + b3 as int
    ensures n / 0x100_0000 == b0 && n / 0x1_0000 % 0x100 == b1 && n / 0x100 % 0x100 == b2 && n % 0x100 == b3
  {
    var i0: int, i1: int, i2: int := b0, b1, b2;
    assert n / 0x1_0000 == i0 * 0x100 + i1;
    assert n / 0x100 == i0 * 0x1_0000 + i1 * 0x100 + i2;
  }

  lemma GetU32Inverse(b: seq<byte>)
    requires |b| >= 4
    ensures U32(GetU32(b)) == b[..4]
  {
    DigitsOf(b[0], b[1], b[2], b[3], GetU32(b));
  }

  lemma Assoc<T>(a: seq<T>, b: seq<T>, c: seq<T>)
    ensures a + b + c == a + (b + c)
  {
  }

  lemma Parts<T>(whole: seq<T>, front: seq<T>, back: seq<T>)
    requires whole == front + back
    ensures whole[..|front|] == front && whole[|front|..] == back
  {
  }

  /** Concatenation of a list of byte strings. */
  function Concat(parts: seq<seq<byte>>): seq<byte> {
    if parts == [] then [] else parts[0] + Concat(parts[1..])
  }

  lemma {:induction false} ConcatAppend(xs: seq<seq<byte>>, ys: seq<seq<byte>>)
    ensures Concat(xs + ys) == Concat(xs) + Concat(ys)
  {
    if xs == [] {
      assert xs + ys == ys;
    } else {
      assert (xs + ys)[1..] == xs[1..] + ys;
      ConcatAppend(xs[1..], ys);
      Assoc(xs[0], Concat(xs[1..]), Concat(ys));
    }
  }
}
