/** Base64 as the websocket endpoint and the file upload use it. */
module Base64 {
  import opened Bytes

  const PAD: byte := 0x3D

  // ---------------------------------------------------------------- alphabet

  function Alphabet(k: nat): byte
    requires k < 64
  {
    if k < 26 then 65 + k
    else if k < 52 then 97 + (k - 26)
    else if k < 62 then 48 + (k - 52)
    else if k == 62 then 43
    else 47
  }

  /** The lookup table: the six bits of a character moved to the top of a byte, -1 outside the alphabet. */
  function DecodeChar(c: byte): (d: int)
    ensures d < 256
  {
    if 65 <= c <= 90 then (c - 65) * 4
    else if 97 <= c <= 122 then (c - 97 + 26) * 4
    else if 48 <= c <= 57 then (c - 48 + 52) * 4
    else if c == 43 then 62 * 4
    else if c == 47 then 63 * 4
    else -1
  }

  predicate Is64(c: byte) { DecodeChar(c) >= 0 }

  lemma AlphabetTable(k: nat)
    requires k < 64
    ensures DecodeChar(Alphabet(k)) == 4 * k && Alphabet(k) != PAD
  {
  }

  // ---------------------------------------------------------------- reference encoding (RFC 4648, section 4)

  /** Character `j` of the four that carry the 24-bit group `n`. */
  function GroupChar(n: nat, j: nat): byte
    requires n < 0x1000000 && j < 4
  {
    Alphabet(
      if j == 0 then n / 64 / 64 / 64
      else if j == 1 then n / 64 / 64 % 64
      else if j == 2 then n / 64 % 64
      else n % 64)
  }

  function Group(in1: byte, in2: byte, in3: byte): (n: nat)
    ensures n < 0x1000000
  {
    in1 as int * 0x10000 + in2 as int * 0x100 + in3
  }

  function Quad(in1: byte, in2: byte, in3: byte): (q: seq<byte>)
    ensures |q| == 4
  {
    var n := Group(in1, in2, in3);
    [GroupChar(n, 0), GroupChar(n, 1), GroupChar(n, 2), GroupChar(n, 3)]
  }

  function Encoded(x: seq<byte>): seq<byte> {
    if |x| == 0 then []
    else if |x| == 1 then Quad(x[0], 0, 0)[..2] + [PAD, PAD]
    else if |x| == 2 then Quad(x[0], x[1], 0)[..3] + [PAD]
    else Quad(x[0], x[1], x[2]) + Encoded(x[3..])
  }

  // ---------------------------------------------------------------- what decoding writes

  function OrAt(buf: seq<byte>, k: nat, v: byte): (r: seq<byte>)
    ensures |r| == |buf|
  {
    if k < |buf| then buf[k := Or(buf[k], v)] else buf
  }

  
  /** Effect of one character on the output bytes: its six bits start at bit `pos`. */
  function Put(buf: seq<byte>, pos: nat, dc: byte): (r: seq<byte>)
    ensures |r| == |buf|
  {
    var first := OrAt(buf, pos / 8, ShiftRight(dc, pos % 8));
    if pos % 8 > 2 then OrAt(first, pos / 8 + 1, ShiftLeft(dc, 8 - pos % 8) % 256) else first
  }

  predicate AllSymbols(cs: seq<byte>) { forall j :: 0 <= j < |cs| ==> Is64(cs[j]) }

  function Symbols(data: seq<byte>): (cs: seq<byte>)
    ensures AllSymbols(cs)
  {
    if data == [] then []
    else (if Is64(data[0]) then [data[0]] else []) + Symbols(data[1..])
  }

  function Pads(data: seq<byte>): nat {
    if data == [] then 0 else (if data[0] == PAD then 1 else 0) + Pads(data[1..])
  }

  function Fill(buf: seq<byte>, cs: seq<byte>, pos: nat): (r: seq<byte>)
    requires AllSymbols(cs)
    ensures |r| == |buf|
    decreases |cs|
  {
    if cs == [] then buf
    else
      assert Is64(cs[0]);
      Fill(Put(buf, pos, DecodeChar(cs[0])), cs[1..], pos + 6)
  }

  function Zeros(n: nat): (z: seq<byte>)
    ensures |z| == n
  {
    seq(n, _ => 0)
  }

  function SizeOf(data: seq<byte>): int {
    (|Symbols(data)| + Pads(data)) / 4 * 3 - Pads(data)
  }

  /** None is the length error raised when padding outweighs the symbols. */
  function Decoded(data: seq<byte>): Option<seq<byte>> {
    if SizeOf(data) == 0 then Some([])
    else if SizeOf(data) < 0 then None
    else Some(Fill(Zeros(SizeOf(data)), Symbols(data), 0))
  }

  // ---------------------------------------------------------------- the loops of the source

  lemma {:induction false} SymbolsConcat(a: seq<byte>, b: seq<byte>)
    ensures Symbols(a + b) == Symbols(a) + Symbols(b)
    ensures Pads(a + b) == Pads(a) + Pads(b)
  {
    if a == [] {
      assert a + b == b;
    } else {
      assert (a + b)[1..] == a[1..] + b;
      SymbolsConcat(a[1..], b);
    }
  }

  lemma SymbolsStep(data: seq<byte>, i: nat)
    requires i < |data|
    ensures Symbols(data[..i + 1]) == Symbols(data[..i]) + if Is64(data[i]) then [data[i]] else []
    ensures Pads(data[..i + 1]) == Pads(data[..i]) + if data[i] == PAD then 1 else 0
  {
    assert data[..i + 1] == data[..i] + [data[i]];
    SymbolsConcat(data[..i], [data[i]]);
  }

  method DecodeSize(data: seq<byte>) returns (size: int)
    ensures size == SizeOf(data)
  {
    var s, eque, i := 0, 0, 0;
    while i < |data|
      invariant 0 <= i <= |data|
      invariant s == |Symbols(data[..i])| && eque == Pads(data[..i])
    {
      SymbolsStep(data, i);
      var c := data[i];
      if Is64(c) {
        s := s + 1;
      } else if c == PAD {
        eque := eque + 1;
      }
      i := i + 1;
    }
    assert data[..i] == data;
    size := (s + eque) / 4 * 3 - eque;
  }

  method SetData(data: array<byte>, pos: nat, c: byte)
    requires Is64(c)
    modifies data
    ensures data[..] == Put(old(data[..]), pos, DecodeChar(c))
  {
    var ibyte, ides := pos / 8, pos % 8;
    var dc: byte := DecodeChar(c);
    if ibyte >= data.Length {
      return;
    }
    data[ibyte] := Or(data[ibyte], ShiftRight(dc, ides));
    if ides > 2 && ibyte + 1 < data.Length {
      data[ibyte + 1] := Or(data[ibyte + 1], ShiftLeft(dc, 8 - ides) % 256);
    }
  }

  method Decode(data: seq<byte>) returns (r: Option<seq<byte>>)
    ensures r == Decoded(data)
  {
    var size := DecodeSize(data);
    if size == 0 {
      return Some([]);
    }
    if size < 0 {
      return None;
    }
    var res := new byte[size](_ => 0);
    assert res[..] == Zeros(size);
    var pos, i := 0, 0;
    while i < |data|
      invariant 0 <= i <= |data|
      invariant Fill(Zeros(size), Symbols(data), 0) == Fill(res[..], Symbols(data[i..]), pos)
    {
      var c := data[i];
      FillStep(res[..], data, i, pos);
      if Is64(c) {
        SetData(res, pos, c);
        pos := pos + 6;
      }
      i := i + 1;
    }
    return Some(res[..]);
  }

  lemma FillStep(buf: seq<byte>, data: seq<byte>, i: nat, pos: nat)
    requires i < |data|
    ensures Fill(buf, Symbols(data[i..]), pos) ==
            if Is64(data[i]) then Fill(Put(buf, pos, DecodeChar(data[i])), Symbols(data[i + 1..]), pos + 6)
            else Fill(buf, Symbols(data[i + 1..]), pos)
  {
    assert data[i..][1..] == data[i + 1..];
    var rest := Symbols(data[i + 1..]);
    assert ([data[i]] + rest)[1..] == rest && [] + rest == rest;
  }

  lemma SixBits(a: nat, p: nat)
    requires p < 64
    ensures (a * 64 + p) / 64 == a && (a * 64 + p) % 64 == p
  {
  }

  lemma SplitByte(b: byte)
    ensures b == b / 4 * 4 + b % 4 && b == b / 16 * 16 + b % 16 && b == b / 64 * 64 + b % 64
    ensures b / 4 < 64 && b / 16 < 16 && b / 64 < 4
  {
  }

  /** The four characters of a group, with the shifts and masks of the source. */
  lemma GroupShifts(in1: byte, in2: byte, in3: byte)
    ensures
      var n := Group(in1, in2, in3);
      && n / 64 / 64 / 64 == in1 / 4 % 64
      && n / 64 / 64 % 64 == in1 % 4 * 16 + in2 / 16
      && n / 64 % 64 == in2 % 16 * 4 + in3 / 64
      && n % 64 == in3 % 64
  {
    SplitByte(in1);
    SplitByte(in2);
    SplitByte(in3);
    var a: nat, p: nat, q: nat, f: nat := in1 / 4, in1 % 4 * 16 + in2 / 16, in2 % 16 * 4 + in3 / 64, in3 % 64;
    SixBits((a * 64 + p) * 64 + q, f);
    SixBits(a * 64 + p, q);
    SixBits(a, p);
    assert Group(in1, in2, in3) == ((a * 64 + p) * 64 + q) * 64 + f;
  }

  lemma QuadShifts(in1: byte, in2: byte, in3: byte)
    ensures Quad(in1, in2, in3) == [Alphabet(in1 / 4 % 64), Alphabet(in1 % 4 * 16 + in2 / 16),
                                    Alphabet(in2 % 16 * 4 + in3 / 64), Alphabet(in3 % 64)]
  {
    GroupShifts(in1, in2, in3);
  }

  method QuadChars(in1: byte, in2: byte, in3: byte) returns (c0: byte, c1: byte, c2: byte, c3: byte)
    ensures [c0, c1, c2, c3] == Quad(in1, in2, in3)
  {
    QuadShifts(in1, in2, in3);
    c0 := Alphabet(in1 / 4 % 64);
    c1 := Alphabet(in1 % 4 * 16 + in2 / 16);
    c2 := Alphabet(in2 % 16 * 4 + in3 / 64);
    c3 := Alphabet(in3 % 64);
  }

  method WriteQuad(ret: array<byte>, out: nat, in1: byte, in2: byte, in3: byte)
    requires out + 4 <= ret.Length
    modifies ret
    ensures ret[..out + 4] == old(ret[..out]) + Quad(in1, in2, in3)
  {
    hide Quad;
    ret[out], ret[out + 1], ret[out + 2], ret[out + 3] := QuadChars(in1, in2, in3);
  }

  method NextByte(data: seq<byte>, i: nat) returns (b: byte, next: nat)
    requires i <= |data|
    ensures b == ByteAt(data, i) && next == Min(i + 1, |data|)
  {
    if i < |data| {
      return data[i], i + 1;
    }
    return 0, i;
  }

  lemma UnpaddedStep(data: seq<byte>, i: nat)
    requires i < |data|
    ensures Unpadded(data[i..]) == Quad(ByteAt(data, i), ByteAt(data, i + 1), ByteAt(data, i + 2))
                                   + Unpadded(data[Min(i + 3, |data|)..])
  {
  }

  method PadEnd(ret: array<byte>, inSize: nat)
    requires inSize > 0 ==> ret.Length >= 4
    modifies ret
    ensures ret[..] == Padded(old(ret[..]), inSize)
  {
    if inSize % 3 == 2 {
      ret[ret.Length - 1] := PAD;
    }
    if inSize % 3 == 1 {
      ret[ret.Length - 2] := PAD;
      ret[ret.Length - 1] := PAD;
    }
  }

  method Encode(data: seq<byte>) returns (r: seq<byte>)
    ensures r == Encoded(data)
  {
    hide Quad, Unpadded, Padded, Encoded;
    UnpaddedLength(data);
    var inSize := |data|;
    var outSize := (inSize + 2) / 3 * 4;
    var ret := new byte[outSize](_ => 0);
    var out, i := 0, 0;
    while out < outSize
      invariant 0 <= out <= outSize && 0 <= i <= inSize
      invariant Unpadded(data) == ret[..out] + Unpadded(data[i..])
    {
      UnpaddedLength(data[i..]);
      UnpaddedStep(data, i);
      var in1, in2, in3;
      in1, i := NextByte(data, i);
      in2, i := NextByte(data, i);
      in3, i := NextByte(data, i);
      WriteQuad(ret, out, in1, in2, in3);
      out := out + 4;
    }
    assert ret[..] == ret[..out] == Unpadded(data);
    PadEnd(ret, inSize);
    UnpaddedPadded(data);
    return ret[..];
  }

  function Min(a: int, b: int): int { if a < b then a else b }

  function ByteAt(data: seq<byte>, i: nat): byte { if i < |data| then data[i] else 0 }

  /** All groups of the input, the missing bytes of the last one taken as zero. */
  function Unpadded(x: seq<byte>): seq<byte> {
    if x == [] then [] else Quad(x[0], ByteAt(x, 1), ByteAt(x, 2)) + Unpadded(x[Min(3, |x|)..])
  }

  lemma {:induction false} UnpaddedLength(x: seq<byte>)
    ensures |Unpadded(x)| == (|x| + 2) / 3 * 4
  {
    hide Quad;
    if |x| >= 3 {
      UnpaddedLength(x[3..]);
    } else if |x| > 0 {
      assert x[|x|..] == [];
    }
  }

  function Padded(q: seq<byte>, inSize: nat): seq<byte>
    requires inSize > 0 ==> |q| >= 4
  {
    if inSize % 3 == 2 then q[|q| - 1 := PAD]
    else if inSize % 3 == 1 then q[|q| - 2 := PAD][|q| - 1 := PAD]
    else q
  }

  lemma PaddedTail(q: seq<byte>, r: seq<byte>, n: nat)
    requires |q| == 4 && n > 3 && |r| >= 4
    ensures Padded(q + r, n) == q + Padded(r, n - 3)
  {
  }

  lemma {:induction false} UnpaddedPadded(x: seq<byte>)
    ensures |x| > 0 ==> |Unpadded(x)| >= 4
    ensures Padded(Unpadded(x), |x|) == Encoded(x)
  {
    hide Quad;
    if |x| > 3 {
      UnpaddedPadded(x[3..]);
      PaddedTail(Quad(x[0], x[1], x[2]), Unpadded(x[3..]), |x|);
    } else if |x| > 0 {
      assert Unpadded(x[|x|..]) == [];
      assert Encoded([]) == [];
    }
  }

  // ---------------------------------------------------------------- decoding undoes encoding

  lemma QuadSymbols(in1: byte, in2: byte, in3: byte)
    ensures AllSymbols(Quad(in1, in2, in3))
  {
    hide DecodeChar;
    var n := Group(in1, in2, in3);
    AlphabetTable(n / 64 / 64 / 64);
    AlphabetTable(n / 64 / 64 % 64);
    AlphabetTable(n / 64 % 64);
    AlphabetTable(n % 64);
  }

  lemma {:induction false} SymbolsOfSymbols(cs: seq<byte>)
    requires AllSymbols(cs)
    ensures Symbols(cs) == cs && Pads(cs) == 0
  {
    if cs != [] {
      SymbolsOfSymbols(cs[1..]);
      assert Is64(cs[0]);
    }
  }

  /** The symbols of an encoding, without its padding. */
  function Body(x: seq<byte>): seq<byte> {
    if |x| == 0 then []
    else if |x| == 1 then Quad(x[0], 0, 0)[..2]
    else if |x| == 2 then Quad(x[0], x[1], 0)[..3]
    else Quad(x[0], x[1], x[2]) + Body(x[3..])
  }

  lemma GroupSymbols(x: seq<byte>)
    requires |x| >= 3
    ensures Symbols(Encoded(x)) == Quad(x[0], x[1], x[2]) + Symbols(Encoded(x[3..]))
    ensures Pads(Encoded(x)) == Pads(Encoded(x[3..])) && |Quad(x[0], x[1], x[2])| == 4
  {
    hide Quad, DecodeChar, Symbols, Pads;
    var q := Quad(x[0], x[1], x[2]);
    QuadSymbols(x[0], x[1], x[2]);
    SymbolsOfSymbols(q);
    SymbolsConcat(q, Encoded(x[3..]));
  }

  lemma {:induction false} TailSymbols(x: seq<byte>)
    requires 0 < |x| < 3
    ensures Symbols(Encoded(x)) == Quad(x[0], ByteAt(x, 1), 0)[..|x| + 1]
    ensures Pads(Encoded(x)) == 3 - |x|
  {
    hide Quad, DecodeChar, Symbols, Pads;
    var q := Quad(x[0], ByteAt(x, 1), 0)[..|x| + 1];
    QuadSymbols(x[0], ByteAt(x, 1), 0);
    SymbolsOfSymbols(q);
    PadSymbols();
    SymbolsConcat(q, if |x| == 1 then [PAD, PAD] else [PAD]);
  }

  lemma {:induction false} BodySize(x: seq<byte>)
    ensures |Body(x)| == 4 * (|x| / 3) + (if |x| % 3 == 0 then 0 else |x| % 3 + 1)
  {
    hide Quad;
    if |x| >= 3 {
      BodySize(x[3..]);
    }
  }

  lemma {:induction false} EncodedParts(x: seq<byte>)
    ensures Symbols(Encoded(x)) == Body(x)
    ensures Pads(Encoded(x)) == if |x| % 3 == 0 then 0 else 3 - |x| % 3
  {
    hide Quad, DecodeChar;
    if |x| >= 3 {
      hide Symbols, Pads, Encoded;
      EncodedParts(x[3..]);
      GroupSymbols(x);
    } else if |x| > 0 {
      hide Symbols, Pads, Encoded;
      TailSymbols(x);
    }
  }

  lemma EncodedSymbols(x: seq<byte>)
    ensures Symbols(Encoded(x)) == Body(x)
    ensures Pads(Encoded(x)) == if |x| % 3 == 0 then 0 else 3 - |x| % 3
    ensures |Body(x)| + Pads(Encoded(x)) == (|x| + 2) / 3 * 4
  {
    hide Body, Symbols, Pads, Encoded;
    EncodedParts(x);
    BodySize(x);
  }

  lemma PadSymbols()
    ensures Symbols([PAD]) == [] && Pads([PAD]) == 1
    ensures Symbols([PAD, PAD]) == [] && Pads([PAD, PAD]) == 2
  {
  }

  // The four writes of a group: where the bits of each character land.

  lemma ShiftRight2(x: nat)
    ensures ShiftRight(x, 2) == x / 4
  {
    assert ShiftRight(x / 2, 1) == ShiftRight(x / 2 / 2, 0);
  }

  lemma ShiftRight4(x: nat)
    ensures ShiftRight(x, 4) == x / 16
  {
    assert ShiftRight(x, 4) == ShiftRight(x / 2, 3) == ShiftRight(x / 4, 2);
    ShiftRight2(x / 4);
  }

  lemma ShiftRight6(x: nat)
    ensures ShiftRight(x, 6) == x / 64
  {
    assert ShiftRight(x, 6) == ShiftRight(x / 2, 5) == ShiftRight(x / 4, 4);
    ShiftRight4(x / 4);
  }

  lemma ShiftLefts(x: nat)
    ensures ShiftLeft(x, 2) == 4 * x && ShiftLeft(x, 4) == 16 * x && ShiftLeft(x, 6) == 64 * x
  {
  }

  // A byte cut in two is written below as high and low part: 4 * a0 + b0, 16 * a1 + b1, 64 * a2 + b2.

  lemma OrJoin2(high: nat, low: nat)
    requires high < 64 && low < 4
    ensures Or(4 * high, low) == 4 * high + low
  {
    assert Pow2(2) == 4 && Pow2(6) == 4 * Pow2(4);
    ShiftLefts(high);
    OrDisjoint(high, low, 2);
  }

  lemma OrJoin4(high: nat, low: nat)
    requires high < 16 && low < 16
    ensures Or(16 * high, low) == 16 * high + low
  {
    assert Pow2(4) == 16;
    ShiftLefts(high);
    OrDisjoint(high, low, 4);
  }

  lemma OrJoin6(high: nat, low: nat)
    requires high < 4 && low < 64
    ensures Or(64 * high, low) == 64 * high + low
  {
    assert Pow2(2) == 4 && Pow2(6) == 4 * Pow2(4);
    ShiftLefts(high);
    OrDisjoint(high, low, 6);
  }

  function Spill(b: byte, n: nat): seq<byte> { if n > 0 then [b] + Zeros(n - 1) else [] }

  lemma PutFirst(done: seq<byte>, n: nat, a0: nat)
    requires n > 0 && a0 < 64
    ensures Put(done + Zeros(n), 8 * |done|, 4 * a0) == done + Spill(4 * a0, n)
  {
    OrZero(4 * a0);
    assert (8 * |done|) / 8 == |done| && (8 * |done|) % 8 == 0;
  }

  /** A write that completes byte `k` and starts the next one. */
  lemma OrNext(done: seq<byte>, n: nat, b: byte, v: byte, w: byte, x: byte)
    requires n > 0 && Or(b, v) == x
    ensures OrAt(OrAt(done + Spill(b, n), |done|, v), |done| + 1, w) == (done + [x]) + Spill(w, n - 1)
  {
    hide Or;
    OrZero(w);
    assert n > 1 ==> (done + Spill(b, n))[|done| + 1] == 0;
  }

  lemma PutSecond(done: seq<byte>, n: nat, a0: nat, b0: nat, a1: nat)
    requires n > 0 && a0 < 64 && b0 < 4 && a1 < 16
    ensures Put(done + Spill(4 * a0, n), 8 * |done| + 6, 4 * (16 * b0 + a1))
            == (done + [4 * a0 + b0]) + Spill(16 * a1, n - 1)
  {
    hide OrAt, Spill, Or, ShiftLeft, ShiftRight;
    var dc := 4 * (16 * b0 + a1);
    assert dc / 64 == b0 && 4 * dc % 256 == 16 * a1 && dc < 256;
    ShiftRight6(dc);
    ShiftLefts(dc);
    OrJoin2(a0, b0);
    var first: byte, second: byte, left: byte := 4 * a0, 4 * a0 + b0, 16 * a1;
    OrNext(done, n, first, b0, left, second);
    BitSix(|done|);
  }

  lemma BitSix(n: nat)
    ensures (8 * n + 6) / 8 == n && (8 * n + 6) % 8 == 6
  {
  }

  lemma PutThird(done: seq<byte>, n: nat, a1: nat, b1: nat, a2: nat)
    requires n > 0 && a1 < 16 && b1 < 16 && a2 < 4
    ensures Put(done + Spill(16 * a1, n), 8 * |done| + 4, 4 * (4 * b1 + a2))
            == (done + [16 * a1 + b1]) + Spill(64 * a2, n - 1)
  {
    hide OrAt, Spill, Or, ShiftLeft, ShiftRight;
    var dc := 4 * (4 * b1 + a2);
    ShiftRight4(dc);
    ShiftLefts(dc);
    assert dc / 16 == b1 && 16 * dc % 256 == 64 * a2;
    OrJoin4(a1, b1);
    OrNext(done, n, 16 * a1, b1, 64 * a2, 16 * a1 + b1);
    assert (8 * |done| + 4) / 8 == |done| && (8 * |done| + 4) % 8 == 4;
  }

  lemma PutFourth(done: seq<byte>, n: nat, a2: nat, b2: nat)
    requires n > 0 && a2 < 4 && b2 < 64
    ensures Put(done + Spill(64 * a2, n), 8 * |done| + 2, 4 * b2) == (done + [64 * a2 + b2]) + Zeros(n - 1)
  {
    hide Or, ShiftLeft, ShiftRight;
    ShiftRight2(4 * b2);
    OrJoin6(a2, b2);
    assert (8 * |done| + 2) / 8 == |done| && (8 * |done| + 2) % 8 == 2;
  }

  /** One character of the fold, given what its write leaves. */
  lemma FillFirst(buf: seq<byte>, k: nat, cs: seq<byte>, pos: nat, next: seq<byte>)
    requires k < 64 && AllSymbols(cs) && Put(buf, pos, 4 * k) == next
    ensures AllSymbols([Alphabet(k)] + cs)
    ensures Fill(buf, [Alphabet(k)] + cs, pos) == Fill(next, cs, pos + 6)
  {
    hide Put, Alphabet, DecodeChar;
    AlphabetTable(k);
    assert ([Alphabet(k)] + cs)[1..] == cs;
  }

  lemma FillChar1(done: seq<byte>, n: nat, a0: nat, cs: seq<byte>, pos: nat)
    requires n > 0 && a0 < 64 && AllSymbols(cs) && pos == 8 * |done|
    ensures AllSymbols([Alphabet(a0)] + cs)
    ensures Fill(done + Zeros(n), [Alphabet(a0)] + cs, pos) == Fill(done + Spill(4 * a0, n), cs, pos + 6)
  {
    hide Put, Alphabet, Fill, Is64, Spill, Zeros;
    PutFirst(done, n, a0);
    FillFirst(done + Zeros(n), a0, cs, pos, done + Spill(4 * a0, n));
  }

  lemma FillChar2(done: seq<byte>, n: nat, x0: byte, a0: nat, b0: nat, a1: nat, cs: seq<byte>, pos: nat)
    requires x0 == 4 * a0 + b0 && n > 0 && a0 < 64 && b0 < 4 && a1 < 16 && AllSymbols(cs) && pos == 8 * |done| + 6
    ensures AllSymbols([Alphabet(16 * b0 + a1)] + cs)
    ensures Fill(done + Spill(4 * a0, n), [Alphabet(16 * b0 + a1)] + cs, pos)
            == Fill((done + [x0]) + Spill(16 * a1, n - 1), cs, pos + 6)
  {
    hide Put, Alphabet, Fill, Is64, Spill, Zeros;
    PutSecond(done, n, a0, b0, a1);
    FillFirst(done + Spill(4 * a0, n), 16 * b0 + a1, cs, pos, (done + [x0]) + Spill(16 * a1, n - 1));
  }

  lemma FillChar3(done: seq<byte>, n: nat, x1: byte, a1: nat, b1: nat, a2: nat, cs: seq<byte>, pos: nat)
    requires x1 == 16 * a1 + b1 && n > 0 && a1 < 16 && b1 < 16 && a2 < 4 && AllSymbols(cs) && pos == 8 * |done| + 4
    ensures AllSymbols([Alphabet(4 * b1 + a2)] + cs)
    ensures Fill(done + Spill(16 * a1, n), [Alphabet(4 * b1 + a2)] + cs, pos)
            == Fill((done + [x1]) + Spill(64 * a2, n - 1), cs, pos + 6)
  {
    hide Put, Alphabet, Fill, Is64, Spill, Zeros;
    PutThird(done, n, a1, b1, a2);
    FillFirst(done + Spill(16 * a1, n), 4 * b1 + a2, cs, pos, (done + [x1]) + Spill(64 * a2, n - 1));
  }

  lemma FillChar4(done: seq<byte>, n: nat, x2: byte, a2: nat, b2: nat, cs: seq<byte>, pos: nat)
    requires x2 == 64 * a2 + b2 && n > 0 && a2 < 4 && b2 < 64 && AllSymbols(cs) && pos == 8 * |done| + 2
    ensures AllSymbols([Alphabet(b2)] + cs)
    ensures Fill(done + Spill(64 * a2, n), [Alphabet(b2)] + cs, pos) == Fill((done + [x2]) + Zeros(n - 1), cs, pos + 6)
  {
    hide Put, Alphabet, Fill, Is64, Spill, Zeros;
    PutFourth(done, n, a2, b2);
    FillFirst(done + Spill(64 * a2, n), b2, cs, pos, (done + [x2]) + Zeros(n - 1));
  }

  /** The characters of a group, in terms of the parts of its bytes. */
  lemma QuadParts(in1: byte, in2: byte, in3: byte) returns (a0: nat, b0: nat, a1: nat, b1: nat, a2: nat, b2: nat)
    ensures a0 < 64 && b0 < 4 && a1 < 16 && b1 < 16 && a2 < 4 && b2 < 64
    ensures in1 == 4 * a0 + b0 && in2 == 16 * a1 + b1 && in3 == 64 * a2 + b2
    ensures Quad(in1, in2, in3) == [Alphabet(a0), Alphabet(16 * b0 + a1), Alphabet(4 * b1 + a2), Alphabet(b2)]
    ensures in2 == 0 ==> a1 == b1 == 0
    ensures in3 == 0 ==> a2 == b2 == 0
  {
    hide Quad, Alphabet;
    QuadShifts(in1, in2, in3);
    a0, b0, a1, b1, a2, b2 := in1 / 4, in1 % 4, in2 / 16, in2 % 16, in3 / 64, in3 % 64;
  }

  /** A full group fills three bytes. */
  lemma {:induction false} FillGroup(done: seq<byte>, n: nat, x0: byte, x1: byte, x2: byte, cs: seq<byte>)
    requires n >= 3 && AllSymbols(cs)
    ensures AllSymbols(Quad(x0, x1, x2) + cs)
    ensures Fill(done + Zeros(n), Quad(x0, x1, x2) + cs, 8 * |done|)
            == Fill((done + [x0, x1, x2]) + Zeros(n - 3), cs, 8 * |done + [x0, x1, x2]|)
  {
    hide Put, Alphabet, Fill, Quad, Spill, Is64, Zeros;
    var pos := 8 * |done|;
    var a0, b0, a1, b1, a2, b2 := QuadParts(x0, x1, x2);
    FillChar4(done + [x0] + [x1], n - 2, x2, a2, b2, cs, pos + 18);
    var c4 := [Alphabet(b2)] + cs;
    FillChar3(done + [x0], n - 1, x1, a1, b1, a2, c4, pos + 12);
    var c3 := [Alphabet(4 * b1 + a2)] + c4;
    FillChars12(done, n, x0, a0, b0, a1, c3, pos);
    assert Quad(x0, x1, x2) + cs == [Alphabet(a0)] + ([Alphabet(16 * b0 + a1)] + c3);
    assert done + [x0] + [x1] + [x2] == done + [x0, x1, x2];
  }

  lemma FillEnd(done: seq<byte>, b: byte, pos: nat)
    ensures AllSymbols([])
    ensures Fill(done + Spill(b, 0), [], pos) == done
  {
  }

  lemma BodyOne(x0: byte, q: seq<byte>)
    requires |q| == 4 && Quad(x0, 0, 0) == q
    ensures Body([x0]) == [q[0]] + ([q[1]] + [])
  {
  }

  lemma BodyTwo(x0: byte, x1: byte, q: seq<byte>)
    requires |q| == 4 && Quad(x0, x1, 0) == q
    ensures Body([x0, x1]) == [q[0]] + ([q[1]] + ([q[2]] + []))
  {
  }

  /** The last, padded groups: what would spill past the end is dropped. */
  lemma FillTail1(done: seq<byte>, x0: byte)
    ensures AllSymbols(Body([x0]))
    ensures Fill(done + Zeros(1), Body([x0]), 8 * |done|) == done + [x0]
  {
    hide Put, Alphabet, Fill, Quad, Is64, Zeros, Body, AllSymbols, Spill;
    var pos := 8 * |done|;
    var a0, b0, a1, b1, a2, b2 := QuadParts(x0, 0, 0);
    BodyOne(x0, Quad(x0, 0, 0));
    FillEnd(done + [x0], 16 * a1, pos + 12);
    FillChars12(done, 1, x0, a0, b0, a1, [], pos);
  }

  /** The first two characters of a group complete one byte. */
  lemma FillChars12(done: seq<byte>, n: nat, x0: byte, a0: nat, b0: nat, a1: nat, cs: seq<byte>, pos: nat)
    requires x0 == 4 * a0 + b0 && n > 0 && a0 < 64 && b0 < 4 && a1 < 16 && AllSymbols(cs) && pos == 8 * |done|
    ensures AllSymbols([Alphabet(a0)] + ([Alphabet(16 * b0 + a1)] + cs))
    ensures Fill(done + Zeros(n), [Alphabet(a0)] + ([Alphabet(16 * b0 + a1)] + cs), pos)
            == Fill((done + [x0]) + Spill(16 * a1, n - 1), cs, pos + 12)
  {
    hide Put, Alphabet, Fill, Is64, Zeros, AllSymbols, Spill;
    FillChar2(done, n, x0, a0, b0, a1, cs, pos + 6);
    FillChar1(done, n, a0, [Alphabet(16 * b0 + a1)] + cs, pos);
  }

  lemma FillChar3End(done: seq<byte>, x1: byte, a1: nat, b1: nat, a2: nat, pos: nat)
    requires x1 == 16 * a1 + b1 && a1 < 16 && b1 < 16 && a2 < 4 && pos == 8 * |done| + 4
    ensures AllSymbols([Alphabet(4 * b1 + a2)] + [])
    ensures Fill(done + Spill(16 * a1, 1), [Alphabet(4 * b1 + a2)] + [], pos) == done + [x1]
  {
    hide Put, Alphabet, Fill, Is64, Spill;
    FillEnd(done + [x1], 64 * a2, pos + 6);
    FillChar3(done, 1, x1, a1, b1, a2, [], pos);
  }

  lemma FillTwo(done: seq<byte>, x0: byte, x1: byte, a0: nat, b0: nat, a1: nat, b1: nat, a2: nat, c3: seq<byte>)
    requires x0 == 4 * a0 + b0 && x1 == 16 * a1 + b1 && a0 < 64 && b0 < 4 && a1 < 16 && b1 < 16 && a2 < 4
    requires c3 == [Alphabet(4 * b1 + a2)] + []
    ensures AllSymbols([Alphabet(a0)] + ([Alphabet(16 * b0 + a1)] + c3))
    ensures Fill(done + Zeros(2), [Alphabet(a0)] + ([Alphabet(16 * b0 + a1)] + c3), 8 * |done|) == done + [x0] + [x1]
  {
    hide Put, Alphabet, Fill, Is64, Zeros, AllSymbols, Spill;
    FillChar3End(done + [x0], x1, a1, b1, a2, 8 * |done| + 12);
    FillChars12(done, 2, x0, a0, b0, a1, c3, 8 * |done|);
  }

  lemma {:induction false} FillTail2(done: seq<byte>, x0: byte, x1: byte)
    ensures AllSymbols(Body([x0, x1]))
    ensures Fill(done + Zeros(2), Body([x0, x1]), 8 * |done|) == done + [x0] + [x1]
  {
    hide Put, Alphabet, Fill, Quad, Is64, Zeros, Body, AllSymbols, Spill;
    var a0, b0, a1, b1, a2, b2 := QuadParts(x0, x1, 0);
    BodyTwo(x0, x1, Quad(x0, x1, 0));
    FillTwo(done, x0, x1, a0, b0, a1, b1, a2, [Alphabet(4 * b1 + a2)] + []);
  }

  lemma {:induction false} FillBody(done: seq<byte>, x: seq<byte>)
    ensures AllSymbols(Body(x))
    ensures Fill(done + Zeros(|x|), Body(x), 8 * |done|) == done + x
    decreases |x|
  {
    hide Put, Alphabet, Quad;
    if |x| >= 3 {
      var next := done + [x[0], x[1], x[2]];
      FillBody(next, x[3..]);
      FillGroup(done, |x|, x[0], x[1], x[2], Body(x[3..]));
      assert next + x[3..] == done + x;
    } else if |x| == 1 {
      FillTail1(done, x[0]);
      assert x == [x[0]];
    } else if |x| == 2 {
      FillTail2(done, x[0], x[1]);
      assert x == [x[0], x[1]] && done + [x[0]] + [x[1]] == done + x;
    } else {
      assert done + Zeros(0) == done + x;
    }
  }

  lemma SizeBalance(n: nat, symbols: nat, pads: nat)
    requires pads == if n % 3 == 0 then 0 else 3 - n % 3
    requires symbols + pads == (n + 2) / 3 * 4
    ensures (symbols + pads) / 4 * 3 - pads == n
  {
  }

  /** Decoding, bit offsets and all, undoes encoding. */
  lemma RoundTrip(x: seq<byte>)
    ensures Decoded(Encoded(x)) == Some(x)
  {
    hide Put, Alphabet, Fill, Encoded;
    EncodedSymbols(x);
    FillBody([], x);
    assert [] + Zeros(|x|) == Zeros(|x|) && [] + x == x;
    SizeBalance(|x|, |Body(x)|, Pads(Encoded(x)));
  }

  /** Characters that are neither symbols nor padding do not matter, wherever they are inserted. */
  lemma JunkIgnored(a: seq<byte>, junk: seq<byte>, b: seq<byte>)
    requires forall k :: 0 <= k < |junk| ==> !Is64(junk[k]) && junk[k] != PAD
    ensures Decoded(a + junk + b) == Decoded(a + b)
  {
    hide Fill, DecodeChar;
    JunkSymbols(junk);
    SymbolsConcat(a + junk, b);
    SymbolsConcat(a, junk);
    SymbolsConcat(a, b);
    assert Symbols(a) + [] == Symbols(a);
  }

  lemma {:induction false} JunkSymbols(junk: seq<byte>)
    requires forall k :: 0 <= k < |junk| ==> !Is64(junk[k]) && junk[k] != PAD
    ensures Symbols(junk) == [] && Pads(junk) == 0
  {
    if junk != [] {
      JunkSymbols(junk[1..]);
      assert !Is64(junk[0]);
    }
  }
}
