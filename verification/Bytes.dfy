/** Bytes and the bit operations the codecs use on them. */
module Bytes {

  datatype Option<+T> = None | Some(value: T)

  type byte = b: int | 0 <= b < 256

  /** The bytes of a character literal of the source. */
  function Ascii(s: string): (r: seq<byte>)
    ensures |r| == |s|
  {
    seq(|s|, i requires 0 <= i < |s| => s[i] as int % 256)
  }

  function Pow2(n: nat): (p: nat)
    ensures p >= 1
  {
    if n == 0 then 1 else 2 * Pow2(n - 1)
  }

  /** Bitwise exclusive or of the low `width` bits. */
  function XorBits(a: nat, b: nat, width: nat): (r: nat)
    ensures r < Pow2(width)
  {
    if width == 0 then 0
    else (if a % 2 == b % 2 then 0 else 1) + 2 * XorBits(a / 2, b / 2, width - 1)
  }

  /** Bitwise or of the low `width` bits. */
  function OrBits(a: nat, b: nat, width: nat): (r: nat)
    ensures r < Pow2(width)
  {
    if width == 0 then 0
    else (if a % 2 == 1 || b % 2 == 1 then 1 else 0) + 2 * OrBits(a / 2, b / 2, width - 1)
  }

  lemma Pow2Eight()
    ensures Pow2(8) == 256
  {
  }

  function Xor(a: byte, b: byte): byte {
    Pow2Eight();
    XorBits(a, b, 8)
  }

  function Or(a: byte, b: byte): byte {
    Pow2Eight();
    OrBits(a, b, 8)
  }

  lemma BitSplit(low: nat, high: nat)
    requires low < 2
    ensures (low + 2 * high) / 2 == high && (low + 2 * high) % 2 == low
  {
  }

  lemma {:induction false} XorBitsTwice(a: nat, b: nat, width: nat)
    requires a < Pow2(width)
    ensures XorBits(XorBits(a, b, width), b, width) == a
  {
    if width > 0 {
      var low, high := if a % 2 == b % 2 then 0 else 1, XorBits(a / 2, b / 2, width - 1);
      var x := XorBits(a, b, width);
      BitSplit(low, high);
      assert x / 2 == high && x % 2 == low;
      XorBitsTwice(a / 2, b / 2, width - 1);
      assert XorBits(x, b, width) == (if x % 2 == b % 2 then 0 else 1) + 2 * (a / 2);
    }
  }

  /** Masking twice with the same byte is the identity. */
  lemma XorTwice(a: byte, b: byte)
    ensures Xor(Xor(a, b), b) == a
  {
    Pow2Eight();
    XorBitsTwice(a, b, 8);
  }

  lemma {:induction false} OrBitsZero(b: nat, width: nat)
    requires b < Pow2(width)
    ensures OrBits(0, b, width) == b
  {
    if width > 0 {
      OrBitsZero(b / 2, width - 1);
    }
  }

  lemma {:induction false} OrBitsComm(a: nat, b: nat, width: nat)
    ensures OrBits(a, b, width) == OrBits(b, a, width)
  {
    if width > 0 {
      OrBitsComm(a / 2, b / 2, width - 1);
    }
  }

  function ShiftLeft(x: nat, k: nat): nat
    decreases k
  {
    if k == 0 then x else ShiftLeft(2 * x, k - 1)
  }

  function ShiftRight(x: nat, k: nat): (r: nat)
    ensures r <= x
  {
    if k == 0 then x else ShiftRight(x / 2, k - 1)
  }

  /** When the operands do not overlap, or is addition. */
  lemma {:induction false} OrBitsDisjoint(high: nat, low: nat, k: nat, width: nat)
    requires k <= width
    requires low < Pow2(k) && high < Pow2(width - k)
    ensures OrBits(ShiftLeft(high, k), low, width) == ShiftLeft(high, k) + low
  {
    if k == 0 {
      OrBitsComm(high, 0, width);
      OrBitsZero(high, width);
    } else {
      ShiftLeftDouble(high, k - 1);
      OrBitsDisjoint(high, low / 2, k - 1, width - 1);
      var h := ShiftLeft(high, k - 1);
      assert ShiftLeft(high, k) == 2 * h && (2 * h) / 2 == h && (2 * h) % 2 == 0;
    }
  }

  lemma {:induction false} ShiftLeftDouble(x: nat, k: nat)
    ensures ShiftLeft(2 * x, k) == 2 * ShiftLeft(x, k)
    decreases k
  {
    if k > 0 {
      ShiftLeftDouble(2 * x, k - 1);
    }
  }

  lemma {:induction false} OrDisjoint(high: nat, low: nat, k: nat)
    requires k <= 8 && low < Pow2(k) && high < Pow2(8 - k)
    requires ShiftLeft(high, k) < 256 && low < 256
    ensures ShiftLeft(high, k) + low < 256
    ensures Or(ShiftLeft(high, k), low) == ShiftLeft(high, k) + low
  {
    Pow2Eight();
    OrBitsDisjoint(high, low, k, 8);
  }

  lemma OrZero(b: byte)
    ensures Or(0, b) == b
  {
    Pow2Eight();
    OrBitsZero(b, 8);
  }

  /** `s` stands in `data` at position `i`. */
  predicate At(data: seq<byte>, i: nat, s: seq<byte>) { i + |s| <= |data| && data[i..i + |s|] == s }

  lemma AtSplit(data: seq<byte>, i: nat, s: seq<byte>, t: seq<byte>)
    ensures At(data, i, s + t) <==> At(data, i, s) && At(data, i + |s|, t)
  {
    if i + |s| + |t| <= |data| {
      var whole := data[i..i + |s| + |t|];
      assert whole[..|s|] == data[i..i + |s|] && whole[|s|..] == data[i + |s|..i + |s| + |t|];
      assert (s + t)[..|s|] == s && (s + t)[|s|..] == t;
      assert whole == whole[..|s|] + whole[|s|..];
    }
  }
}
