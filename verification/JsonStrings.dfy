/** Writing and reading JSON strings (RFC 8259, section 7). */
module JsonStrings {
  import opened Bytes
  import Utf8

  const QUOTE: byte := 0x22
  const BACKSLASH: byte := 0x5C
  const SLASH: byte := 0x2F
  const LOWER_U: byte := 0x75

  // ---------------------------------------------------------------- hexadecimal

  function HexDigit(c: byte): (d: int)
    ensures -1 <= d < 16
  {
    if 0x30 <= c <= 0x39 then c - 0x30
    else if 0x61 <= c <= 0x66 then c - 0x61 + 10
    else if 0x41 <= c <= 0x46 then c - 0x41 + 10
    else -1
  }

  function HexChar(d: nat): byte
    requires d < 16
  {
    if d < 10 then 0x30 + d else 0x61 + (d - 10)
  }

  /** The number read from the stream: the leading digits, 0 when there is none. */
  function HexValue(s: seq<byte>, acc: nat): nat
    decreases |s|
  {
    if s == [] || HexDigit(s[0]) < 0 then acc else HexValue(s[1..], acc * 16 + HexDigit(s[0]))
  }

  predicate AllHex(s: seq<byte>) { forall k :: 0 <= k < |s| ==> HexDigit(s[k]) >= 0 }

  lemma FourHexDigits(s: seq<byte>)
    requires |s| == 4 && AllHex(s)
    ensures HexValue(s, 0) == ((HexDigit(s[0]) * 16 + HexDigit(s[1])) * 16 + HexDigit(s[2])) * 16 + HexDigit(s[3])
    ensures HexValue(s, 0) < 0x10000
  {
    var a, b, c := s[1..], s[2..], s[3..];
    assert a[0] == s[1] && a[1..] == b && b[0] == s[2] && b[1..] == c && c[0] == s[3] && c[1..] == [];
    var d := HexDigit(s[0]);
    assert HexValue(s, 0) == HexValue(a, d);
    assert HexValue(a, d) == HexValue(b, d * 16 + HexDigit(s[1]));
    var e := d * 16 + HexDigit(s[1]);
    assert HexValue(b, e) == HexValue(c, e * 16 + HexDigit(s[2]));
    var f := e * 16 + HexDigit(s[2]);
    assert HexValue(c, f) == HexValue([], f * 16 + HexDigit(s[3]));
  }

  // ---------------------------------------------------------------- writing

  function CharToHex(c: nat): seq<byte>
    requires c < 256
  {
    [BACKSLASH, LOWER_U, 0x30, 0x30, HexChar(c / 16), HexChar(c % 16)]
  }

  /** The letter of the two-character escape of `c`, 0 when it has none. */
  function ShortLetter(c: byte): byte {
    if c == QUOTE || c == BACKSLASH || c == SLASH then c
    else if c == 0x08 then 0x62
    else if c == 0x0C then 0x66
    else if c == 0x0A then 0x6E
    else if c == 0x0D then 0x72
    else if c == 0x09 then 0x74
    else 0
  }

  function EncodedByte(c: byte): (s: seq<byte>)
    ensures s != []
  {
    if ShortLetter(c) != 0 then [BACKSLASH, ShortLetter(c)]
    else if c == 127 || c <= 31 then CharToHex(c)
    else [c]
  }

  function Encoded(x: seq<byte>): seq<byte> {
    if x == [] then [] else EncodedByte(x[0]) + Encoded(x[1..])
  }

  method EncodeJsonString(data: seq<byte>) returns (ret: seq<byte>)
    ensures ret == Encoded(data)
  {
    hide CharToHex;
    ret := [];
    var i := 0;
    while i < |data|
      invariant 0 <= i <= |data|
      invariant Encoded(data) == ret + Encoded(data[i..])
    {
      var uc := data[i];
      var piece;
      if uc >= 0x80 {
        piece := [uc];
      } else if uc == QUOTE {
        piece := [BACKSLASH, QUOTE];
      } else if uc == BACKSLASH {
        piece := [BACKSLASH, BACKSLASH];
      } else if uc == SLASH {
        piece := [BACKSLASH, SLASH];
      } else if uc == 0x08 {
        piece := [BACKSLASH, 0x62];
      } else if uc == 0x0C {
        piece := [BACKSLASH, 0x66];
      } else if uc == 0x0A {
        piece := [BACKSLASH, 0x6E];
      } else if uc == 0x0D {
        piece := [BACKSLASH, 0x72];
      } else if uc == 0x09 {
        piece := [BACKSLASH, 0x74];
      } else if uc == 127 || uc <= 31 {
        piece := CharToHex(uc);
      } else {
        piece := [uc];
      }
      EncodedStep(data, i, piece, ret);
      ret := ret + piece;
      i := i + 1;
    }
  }

  lemma EncodedStep(data: seq<byte>, i: nat, piece: seq<byte>, ret: seq<byte>)
    requires i < |data| && piece == EncodedByte(data[i])
    ensures ret + Encoded(data[i..]) == (ret + piece) + Encoded(data[i + 1..])
  {
  }

  // ---------------------------------------------------------------- reading

  const REPLACEMENT: seq<byte> := [0xEF, 0xBF, 0xBD]

  function ThreeBytes(u: nat): seq<byte> {
    [u / 4096 % 16 + 0xE0, u / 64 % 64 + 0x80, u % 64 + 0x80]
  }

  function FourBytes(u: nat): seq<byte> {
    [u / 262144 % 8 + 0xF0, u / 4096 % 64 + 0x80, u / 64 % 64 + 0x80, u % 64 + 0x80]
  }

  /** Bytes produced by the escape whose digits start at `i`, and the last position it uses. */
  function DecodeHexa(data: seq<byte>, i: nat): (r: (seq<byte>, nat))
    requires 2 <= i <= |data|
    ensures r.1 >= i - 1 && r.1 < |data|
  {
    if i + 4 > |data| then (REPLACEMENT, |data| - 1)
    else
      var unicode := HexValue(data[i..i + 4], 0);
      if unicode <= 0x7F then ([unicode], i + 3)
      else if unicode <= 0x7FF then ([unicode / 64 % 32 + 0xC0, unicode % 64 + 0x80], i + 3)
      else if 0xD800 <= unicode < 0xDC00 then DecodePair(data, i, unicode)
      else if 0xDC00 <= unicode <= 0xDFFF then (REPLACEMENT, i + 3)
      else (ThreeBytes(unicode), i + 3)
  }

  function DecodePair(data: seq<byte>, i: nat, high: nat): (r: (seq<byte>, nat))
    requires i + 4 <= |data|
    ensures i <= r.1 < |data|
  {
    if i + 10 > |data| || data[i + 4] != BACKSLASH || data[i + 5] != LOWER_U then (REPLACEMENT, i + 3)
    else
      var low := HexValue(data[i + 6..i + 10], 0);
      if !(0xDC00 <= low <= 0xDFFF) then (REPLACEMENT + REPLACEMENT, i + 6)
      else (FourBytes(high % 1024 * 1024 + low % 1024 + 0x10000), i + 9)
  }

  /** The byte a two-character escape stands for; None for a bad escape. */
  function ShortMeaning(letter: byte): Option<byte> {
    if letter == BACKSLASH || letter == QUOTE || letter == SLASH then Some(letter)
    else if letter == 0x62 then Some(0x08)
    else if letter == 0x66 then Some(0x0C)
    else if letter == 0x6E then Some(0x0A)
    else if letter == 0x72 then Some(0x0D)
    else if letter == 0x74 then Some(0x09)
    else None
  }

  function Prepend(s: seq<byte>, rest: Option<seq<byte>>): Option<seq<byte>> {
    if rest.Some? then Some(s + rest.value) else None
  }

  /** Decoding from position `i` on; None is the bad request for a bad escape. */
  function Decoded(data: seq<byte>, i: nat, limit: nat): Option<seq<byte>>
    requires limit <= |data|
    decreases |data| - i
  {
    if i >= limit then Some([])
    else if data[i] == BACKSLASH then
      if i + 1 >= limit then Some([])
      else if data[i + 1] == LOWER_U then
        var (out, last) := DecodeHexa(data, i + 2);
        Prepend(out, Decoded(data, last + 1, limit))
      else if ShortMeaning(data[i + 1]).Some?
      then Prepend([ShortMeaning(data[i + 1]).value], Decoded(data, i + 2, limit))
      else None
    else if data[i] == QUOTE then Some([])
    else Prepend([data[i]], Decoded(data, i + 1, limit))
  }

  function Limit(data: seq<byte>, i: nat, len: nat): nat { if i + len <= |data| then i + len else |data| }

  method DecodeHexaUnicodeToUtf8(data: seq<byte>, start: nat) returns (result: seq<byte>, i: nat)
    requires 2 <= start <= |data|
    ensures (result, i) == DecodeHexa(data, start)
  {
    i := start;
    if i + 4 > |data| {
      return REPLACEMENT, |data| - 1;
    }
    var unicode := HexValue(data[i..i + 4], 0);
    if unicode <= 0x7F {
      result := [unicode];
    } else if unicode <= 0x7FF {
      result := [unicode / 64 % 32 + 0xC0, unicode % 64 + 0x80];
    } else if 0xD800 <= unicode < 0xDC00 {
      if i + 6 > |data| || data[i + 4..i + 6] != [BACKSLASH, LOWER_U] || i + 10 > |data| {
        i := i + 3;
        return REPLACEMENT, i;
      }
      assert data[i + 4] == data[i + 4..i + 6][0] && data[i + 5] == data[i + 4..i + 6][1];
      var low := HexValue(data[i + 6..i + 10], 0);
      if !(0xDC00 <= low <= 0xDFFF) {
        i := i + 6;
        return REPLACEMENT + REPLACEMENT, i;
      }
      unicode := unicode % 1024 * 1024 + low % 1024 + 0x10000;
      result := FourBytes(unicode);
      i := i + 6;
    } else if 0xDC00 <= unicode <= 0xDFFF {
      result := REPLACEMENT;
    } else {
      result := ThreeBytes(unicode);
    }
    i := i + 3;
  }

  method DecodeJsonString(data: seq<byte>, start: nat, len: nat) returns (r: Option<seq<byte>>)
    ensures r == Decoded(data, start, Limit(data, start, len))
  {
    hide DecodeHexa;
    var ret := [];
    var i := start;
    var limit := if i + len <= |data| then i + len else |data|;
    PrependNothing(Decoded(data, i, limit));
    while i < limit
      invariant Decoded(data, start, limit) == Prepend(ret, Decoded(data, i, limit))
      decreases |data| - i
    {
      var c := data[i];
      ghost var from, before := i, ret;
      if c == BACKSLASH {
        if i + 1 >= limit {
          break;
        }
        i := i + 1;
        var next := data[i];
        if next == LOWER_U {
          i := i + 1;
          var out;
          out, i := DecodeHexaUnicodeToUtf8(data, i);
          ret := ret + out;
        } else {
          var short := ShortMeaning(next);
          if short.None? {
            return None;
          }
          ret := ret + [short.value];
        }
      } else {
        if c == QUOTE {
          PrependTwice(ret, [], None);
          return Some(ret);
        }
        ret := ret + [c];
      }
      i := i + 1;
      PrependTwice(before, ret[|before|..], Decoded(data, i, limit));
      assert before + ret[|before|..] == ret;
    }
    PrependTwice(ret, [], None);
    return Some(ret);
  }

  lemma PrependTwice(a: seq<byte>, b: seq<byte>, rest: Option<seq<byte>>)
    ensures Prepend(a, Prepend(b, rest)) == Prepend(a + b, rest)
    ensures Prepend(a, Some([])) == Some(a)
  {
    if rest.Some? {
      assert a + (b + rest.value) == (a + b) + rest.value;
    }
    assert a + [] == a;
  }

  lemma PrependNothing(rest: Option<seq<byte>>)
    ensures Prepend([], rest) == rest
  {
    if rest.Some? {
      assert [] + rest.value == rest.value;
    }
  }

  // ---------------------------------------------------------------- reference: what a JSON string means

  /** The units of a JSON string. The digits of an escape may be of either case; two groups make a surrogate pair. */
  datatype Unit =
    | Raw(b: byte)
    | Short(letter: byte)
    | Unicode(v: Utf8.scalar, digits: seq<byte>)

  predicate WellFormed(u: Unit) {
    match u
    case Raw(b) => b != QUOTE && b != BACKSLASH
    case Short(letter) => ShortMeaning(letter).Some?
    case Unicode(v, digits) =>
      && AllHex(digits)
      && if v < 0x10000 then |digits| == 4 && HexValue(digits, 0) == v
         else
           && |digits| == 8
           && HexValue(digits[..4], 0) == 0xD800 + (v - 0x10000) / 1024
           && HexValue(digits[4..], 0) == 0xDC00 + (v - 0x10000) % 1024
  }

  function UnitText(u: Unit): (s: seq<byte>)
    requires WellFormed(u)
    ensures |s| > 0
  {
    match u
    case Raw(b) => [b]
    case Short(letter) => [BACKSLASH, letter]
    case Unicode(v, digits) =>
      if v < 0x10000 then [BACKSLASH, LOWER_U] + digits
      else [BACKSLASH, LOWER_U] + digits[..4] + [BACKSLASH, LOWER_U] + digits[4..]
  }

  function UnitMeaning(u: Unit): seq<byte>
    requires WellFormed(u)
  {
    match u
    case Raw(b) => [b]
    case Short(letter) => [ShortMeaning(letter).value]
    case Unicode(v, _) => Utf8.EncodeScalar(v)
  }

  predicate AllWellFormed(us: seq<Unit>) { forall k :: 0 <= k < |us| ==> WellFormed(us[k]) }

  function Text(us: seq<Unit>): seq<byte>
    requires AllWellFormed(us)
  {
    if us == [] then [] else UnitText(us[0]) + Text(us[1..])
  }

  function Meaning(us: seq<Unit>): seq<byte>
    requires AllWellFormed(us)
  {
    if us == [] then [] else UnitMeaning(us[0]) + Meaning(us[1..])
  }

  lemma DivByParts(u: nat)
    ensures u / 4096 == u / 64 / 64 && u / 262144 == u / 64 / 64 / 64
  {
  }

  lemma ThreeBytesEncode(u: nat)
    requires 0x800 <= u < 0x10000 && !(0xD800 <= u < 0xE000)
    ensures ThreeBytes(u) == Utf8.EncodeScalar(u)
  {
  }

  lemma FourBytesEncode(u: nat)
    requires 0x10000 <= u <= 0x10FFFF
    ensures FourBytes(u) == Utf8.EncodeScalar(u)
  {
    DivByParts(u);
    assert u / 64 / 64 / 64 < 8;
  }

  lemma PairArithmetic(v: nat, high: nat, low: nat)
    requires 0x10000 <= v <= 0x10FFFF && high == 0xD800 + (v - 0x10000) / 1024 && low == 0xDC00 + (v - 0x10000) % 1024
    ensures 0xD800 <= high < 0xDC00 && 0xDC00 <= low <= 0xDFFF
    ensures high % 1024 * 1024 + low % 1024 + 0x10000 == v
  {
  }

  lemma PairEncodes(v: Utf8.scalar, high: nat, low: nat)
    requires v >= 0x10000 && high == 0xD800 + (v - 0x10000) / 1024 && low == 0xDC00 + (v - 0x10000) % 1024
    ensures 0xD800 <= high < 0xDC00 && 0xDC00 <= low <= 0xDFFF
    ensures FourBytes(high % 1024 * 1024 + low % 1024 + 0x10000) == Utf8.EncodeScalar(v)
  {
    PairArithmetic(v, high, low);
    FourBytesEncode(v);
  }

  /** A well-formed escape decodes to the UTF-8 encoding of its scalar value. */
  lemma EscapeDecodes(data: seq<byte>, i: nat, u: Unit)
    requires u.Unicode? && WellFormed(u) && At(data, i, UnitText(u))
    ensures DecodeHexa(data, i + 2) == (UnitMeaning(u), i + |UnitText(u)| - 1)
  {
    var v, digits := u.v, u.digits;
    if v < 0x10000 {
      AtSplit(data, i, [BACKSLASH, LOWER_U], digits);
      assert data[i + 2..i + 6] == digits;
      if v >= 0x800 {
        ThreeBytesEncode(v);
      }
    } else {
      PairDecodes(data, i, u);
    }
  }

  lemma PairDecodes(data: seq<byte>, i: nat, u: Unit)
    requires u.Unicode? && WellFormed(u) && u.v >= 0x10000 && At(data, i, UnitText(u))
    ensures DecodeHexa(data, i + 2) == (UnitMeaning(u), i + |UnitText(u)| - 1)
  {
    hide HexValue, FourBytes, Utf8.EncodeScalar, HexDigit;
    var mark: seq<byte> := [BACKSLASH, LOWER_U];
    var high, low := u.digits[..4], u.digits[4..];
    AtSplit(data, i, mark + high + mark, low);
    AtSplit(data, i, mark + high, mark);
    AtSplit(data, i, mark, high);
    assert data[i + 6] == data[i + 6..i + 8][0] && data[i + 7] == data[i + 6..i + 8][1];
    PairEncodes(u.v, HexValue(high, 0), HexValue(low, 0));
  }

  lemma UnitDecodes(data: seq<byte>, i: nat, u: Unit, limit: nat)
    requires WellFormed(u) && At(data, i, UnitText(u)) && i + |UnitText(u)| <= limit <= |data|
    ensures Decoded(data, i, limit) == Prepend(UnitMeaning(u), Decoded(data, i + |UnitText(u)|, limit))
  {
    hide DecodeHexa, HexValue, HexDigit, Utf8.EncodeScalar, AllHex;
    var text := UnitText(u);
    assert data[i] == data[i..i + |text|][0];
    if |text| > 1 {
      assert data[i + 1] == data[i..i + |text|][1];
    }
    if u.Unicode? {
      EscapeDecodes(data, i, u);
    }
  }

  /** Decoding any well-formed JSON string text gives what it means. */
  lemma {:induction false} DecodesMeaning(data: seq<byte>, i: nat, us: seq<Unit>)
    requires AllWellFormed(us) && At(data, i, Text(us))
    ensures Decoded(data, i, i + |Text(us)|) == Some(Meaning(us))
    decreases |us|
  {
    hide DecodeHexa, WellFormed, UnitMeaning, UnitText, ShortMeaning;
    if us != [] {
      var text := UnitText(us[0]);
      AtSplit(data, i, text, Text(us[1..]));
      DecodesMeaning(data, i + |text|, us[1..]);
      UnitDecodes(data, i, us[0], i + |Text(us)|);
    }
  }

  // ---------------------------------------------------------------- the writer is undone

  /** How the writer spells one byte. */
  function UnitOf(c: byte): Unit {
    if ShortLetter(c) != 0 then Short(ShortLetter(c))
    else if c == 127 || c <= 31 then Unicode(c, CharToHex(c)[2..])
    else Raw(c)
  }

  lemma HexOfByte(c: nat)
    requires c < 128
    ensures |CharToHex(c)| == 6 && AllHex(CharToHex(c)[2..]) && HexValue(CharToHex(c)[2..], 0) == c
  {
    var digits := CharToHex(c)[2..];
    assert digits == [0x30, 0x30, HexChar(c / 16), HexChar(c % 16)];
    FourHexDigits(digits);
  }

  lemma UnitOfByte(c: byte)
    ensures WellFormed(UnitOf(c)) && UnitText(UnitOf(c)) == EncodedByte(c) && UnitMeaning(UnitOf(c)) == [c]
  {
    if ShortLetter(c) == 0 && (c == 127 || c <= 31) {
      hide HexValue, HexDigit;
      HexOfByte(c);
      assert CharToHex(c) == [BACKSLASH, LOWER_U] + CharToHex(c)[2..];
    }
  }

  function UnitsOf(x: seq<byte>): (us: seq<Unit>)
    ensures AllWellFormed(us)
  {
    if x == [] then []
    else
      UnitOfByte(x[0]);
      [UnitOf(x[0])] + UnitsOf(x[1..])
  }

  lemma {:induction false} UnitsOfEncoded(x: seq<byte>)
    ensures Text(UnitsOf(x)) == Encoded(x) && Meaning(UnitsOf(x)) == x
  {
    hide UnitOf, UnitText, UnitMeaning, EncodedByte, WellFormed;
    if x != [] {
      UnitOfByte(x[0]);
      UnitsOfEncoded(x[1..]);
      assert UnitsOf(x)[1..] == UnitsOf(x[1..]);
    }
  }

  /** Reading back what the writer wrote, wherever it stands in the message. */
  lemma StringRoundTrip(data: seq<byte>, i: nat, x: seq<byte>)
    requires At(data, i, Encoded(x))
    ensures Decoded(data, i, Limit(data, i, |Encoded(x)|)) == Some(x)
  {
    hide Text, Meaning, Decoded;
    UnitsOfEncoded(x);
    DecodesMeaning(data, i, UnitsOf(x));
  }

  /** Any spelling of scalar values as escapes decodes to their UTF-8 encoding. */
  lemma {:induction false} EscapesMeanUtf8(us: seq<Unit>)
    requires AllWellFormed(us) && forall k :: 0 <= k < |us| ==> us[k].Unicode?
    ensures Decoded(Text(us), 0, |Text(us)|) == Some(Utf8.Encode(seq(|us|, k requires 0 <= k < |us| => us[k].v)))
  {
    hide WellFormed, Decoded, UnitText, Utf8.EncodeScalar;
    assert At(Text(us), 0, Text(us));
    DecodesMeaning(Text(us), 0, us);
    EscapedMeaning(us);
  }

  lemma {:induction false} EscapedMeaning(us: seq<Unit>)
    requires AllWellFormed(us) && forall k :: 0 <= k < |us| ==> us[k].Unicode?
    ensures Meaning(us) == Utf8.Encode(seq(|us|, k requires 0 <= k < |us| => us[k].v))
  {
    hide WellFormed, Utf8.EncodeScalar;
    if us != [] {
      EscapedMeaning(us[1..]);
      var vs := seq(|us|, k requires 0 <= k < |us| => us[k].v);
      var ws := seq(|us| - 1, k requires 0 <= k < |us| - 1 => us[1..][k].v);
      assert vs[1..] == ws;
    }
  }

  // ---------------------------------------------------------------- the standard, spelled out

  const LETTERS: seq<byte> := [0x22, 0x5C, 0x2F, 0x62, 0x66, 0x6E, 0x72, 0x74]

  const CHARACTERS: seq<byte> := [0x22, 0x5C, 0x2F, 0x08, 0x0C, 0x0A, 0x0D, 0x09]

  /** The two-character escapes of RFC 8259 stand for their characters, and no others are accepted. */
  lemma EscapeTable()
    ensures LETTERS == Ascii("\"\\/bfnrt")
    ensures forall k :: 0 <= k < 8 ==> ShortMeaning(LETTERS[k]) == Some(CHARACTERS[k])
    ensures forall c: byte :: c !in LETTERS ==> ShortMeaning(c).None?
  {
  }

  /** Hexadecimal digits count in their order, in either case. */
  lemma HexTable(d: nat)
    requires d < 16
    ensures HexDigit(Ascii("0123456789abcdef")[d]) == d && HexDigit(Ascii("0123456789ABCDEF")[d]) == d
  {
  }

  predicate IsHexDigit(c: byte) {
    0x30 <= c <= 0x39 || 0x41 <= c <= 0x46 || 0x61 <= c <= 0x66
  }

  /** Characters as RFC 8259 lets them stand in a string: no quote, no backslash, no control character; and escapes. */
  predicate IsStandard(s: seq<byte>) {
    || s == []
    || (s[0] >= 0x20 && s[0] != 0x22 && s[0] != 0x5C && IsStandard(s[1..]))
    || (|s| >= 2 && s[0] == 0x5C && s[1] in LETTERS && IsStandard(s[2..]))
    || (|s| >= 6 && s[0] == 0x5C && s[1] == 0x75 && (forall k :: 2 <= k < 6 ==> IsHexDigit(s[k])) && IsStandard(s[6..]))
  }

  /** Whatever is written between quotes is a string of RFC 8259, section 7. */
  lemma {:induction false} EncodedIsStandard(x: seq<byte>)
    ensures IsStandard(Encoded(x))
  {
    if x != [] {
      EncodedIsStandard(x[1..]);
      var first, rest := EncodedByte(x[0]), Encoded(x[1..]);
      assert (first + rest)[|first|..] == rest;
    }
  }
}
