/** XML text as it is written and as it is understood: bytes, the five entities by name, references by number. */
module XmlUnits {
  import opened Bytes
  import opened XmlText
  import Decimal

  /** A byte as it is, an entity, or a reference by number. */
  datatype Unit = Raw(b: byte) | Amp | Lt | Gt | Apos | Quot | Numbered(digits: seq<byte>)

  predicate WellFormed(u: Unit) {
    match u
    case Raw(b) => b != AMP
    case Numbered(digits) => SEMICOLON !in digits
    case _ => true
  }

  type Units = us: seq<Unit> | forall u <- us :: WellFormed(u)

  function UnitText(u: Unit): seq<byte> {
    match u
    case Raw(b) => [b]
    case Amp => Ascii("&amp;")
    case Lt => Ascii("&lt;")
    case Gt => Ascii("&gt;")
    case Apos => Ascii("&apos;")
    case Quot => Ascii("&quot;")
    case Numbered(digits) => Ascii("&#") + digits + Ascii(";")
  }

  /** The byte a unit stands for: that of a number modulo 256. */
  function UnitMeaning(u: Unit): byte {
    match u
    case Raw(b) => b
    case Amp => 0x26
    case Lt => 0x3C
    case Gt => 0x3E
    case Apos => 0x27
    case Quot => 0x22
    case Numbered(digits) => Decimal.Atoll(digits) % 256
  }

  function Text(us: seq<Unit>): seq<byte> {
    if us == [] then [] else UnitText(us[0]) + Text(us[1..])
  }

  function Meaning(us: seq<Unit>): (m: seq<byte>)
    ensures |m| == |us|
  {
    if us == [] then [] else [UnitMeaning(us[0])] + Meaning(us[1..])
  }

  /** A number that is written in decimal digits stands for the byte of that value. */
  lemma NumberMeans(n: byte)
    ensures WellFormed(Numbered(Decimal.Itos(n))) && UnitMeaning(Numbered(Decimal.Itos(n))) == n
  {
    Decimal.ItosRoundTrip(n);
  }

  /** What stands between the ampersand and the semicolon. */
  function Code(u: Unit): seq<byte>
    requires !u.Raw?
  {
    match u
    case Amp => AMP_NAME
    case Lt => LT_NAME
    case Gt => GT_NAME
    case Apos => APOS_NAME
    case Quot => QUOT_NAME
    case Numbered(digits) => [HASH] + digits
  }

  lemma CodeText(u: Unit)
    requires !u.Raw? && WellFormed(u)
    ensures UnitText(u) == [AMP] + Code(u) + [SEMICOLON] && SEMICOLON !in Code(u)
    ensures CodeMeaning(Code(u)) == Some(UnitMeaning(u))
  {
    if u.Numbered? {
      assert Ascii("&#") == [AMP] + [HASH] && Ascii(";") == [SEMICOLON];
      assert ([HASH] + u.digits)[1..] == u.digits;
      assert [AMP] + [HASH] + u.digits + [SEMICOLON] == [AMP] + ([HASH] + u.digits) + [SEMICOLON];
    } else {
      NamedText(u);
    }
  }

  lemma NamedText(u: Unit)
    requires !u.Raw? && !u.Numbered?
    ensures UnitText(u) == [AMP] + Code(u) + [SEMICOLON] && SEMICOLON !in Code(u)
    ensures CodeMeaning(Code(u)) == Some(UnitMeaning(u))
  {
  }

  lemma RawDecodes(data: seq<byte>, i: nat, b: byte)
    requires b != AMP && At(data, i, [b])
    ensures Decoded(data, i) == Prepend(b, Decoded(data, i + 1))
  {
    assert data[i] == data[i..i + 1][0];
  }

  /** An ampersand, a code and a semicolon. */
  lemma CodeDecodes(data: seq<byte>, i: nat, code: seq<byte>)
    requires At(data, i, [AMP] + code + [SEMICOLON]) && SEMICOLON !in code && CodeMeaning(code).Some?
    ensures Decoded(data, i) == Prepend(CodeMeaning(code).value, Decoded(data, i + |code| + 2))
  {
    hide CodeMeaning;
    var end := i + 1 + |code|;
    AtSplit(data, i, [AMP] + code, [SEMICOLON]);
    AtSplit(data, i, [AMP], code);
    assert data[i] == data[i..i + 1][0] && data[end] == data[end..end + 1][0];
    assert data[i + 1..end] == code;
    NoneInside(data, i + 1, end, code);
    SemicolonAt(data, i + 1, end);
  }

  lemma UnitDecodes(data: seq<byte>, i: nat, u: Unit)
    requires WellFormed(u) && At(data, i, UnitText(u))
    ensures Decoded(data, i) == Prepend(UnitMeaning(u), Decoded(data, i + |UnitText(u)|))
  {
    if u.Raw? {
      RawDecodes(data, i, u.b);
    } else {
      CodeText(u);
      CodeDecodes(data, i, Code(u));
    }
    hide Decoded, CodeMeaning, At, Ascii;
  }

  lemma {:induction false} UnitsDecode(data: seq<byte>, i: nat, us: Units)
    requires At(data, i, Text(us)) && i + |Text(us)| == |data|
    ensures Decoded(data, i) == Some(Meaning(us))
    decreases |us|
  {
    hide UnitText, UnitMeaning, WellFormed, Decoded, At;
    if us == [] {
      NothingLeft(data);
    } else {
      AtSplit(data, i, UnitText(us[0]), Text(us[1..]));
      UnitDecodes(data, i, us[0]);
      UnitsDecode(data, i + |UnitText(us[0])|, us[1..]);
    }
  }

  /** Text that decodes is made of such units. */
  lemma {:induction false} DecodedIsUnits(data: seq<byte>, i: nat) returns (us: Units)
    requires i <= |data| && Decoded(data, i).Some?
    ensures data[i..] == Text(us)
    decreases |data| - i
  {
    hide CodeMeaning, Ascii, WellFormed, UnitText;
    if i == |data| {
      us := [];
    } else if data[i] != AMP {
      var rest := DecodedIsUnits(data, i + 1);
      RawUnit(data[i]);
      us := OneMore(Raw(data[i]), [data[i]], rest);
      assert data[i..] == [data[i]] + data[i + 1..];
    } else {
      var end := FindSemicolon(data, i + 1);
      var code := data[i + 1..end];
      var rest := DecodedIsUnits(data, end + 1);
      var u := UnitOfCode(code);
      CodeText(u);
      us := OneMore(u, [AMP] + code + [SEMICOLON], rest);
      assert data[i..] == [AMP] + code + [SEMICOLON] + data[end + 1..];
    }
  }

  lemma RawUnit(b: byte)
    requires b != AMP
    ensures WellFormed(Raw(b)) && UnitText(Raw(b)) == [b]
  {
  }

  lemma OneMore(u: Unit, text: seq<byte>, rest: Units) returns (us: Units)
    requires WellFormed(u) && UnitText(u) == text
    ensures Text(us) == text + Text(rest)
  {
    us := [u] + rest;
    assert us[1..] == rest;
  }

  lemma UnitOfCode(code: seq<byte>) returns (u: Unit)
    requires CodeMeaning(code).Some? && SEMICOLON !in code
    ensures !u.Raw? && WellFormed(u) && Code(u) == code
  {
    u := if code != [] && code[0] == HASH then Numbered(code[1..])
         else if code == AMP_NAME then Amp
         else if code == LT_NAME then Lt
         else if code == GT_NAME then Gt
         else if code == APOS_NAME then Apos
         else Quot;
  }

  /** Text is understood exactly when it is made of such units, and then it is what they stand for. */
  lemma DecodesMeaning(data: seq<byte>, m: seq<byte>)
    ensures Decoded(data, 0) == Some(m) <==> exists us: Units :: Text(us) == data && Meaning(us) == m
  {
    hide Decoded, Text, Meaning;
    if Decoded(data, 0) == Some(m) {
      var us := DecodedIsUnits(data, 0);
      assert data[0..] == data && data[0..|data|] == data;
      UnitsDecode(data, 0, us);
    }
    if exists us: Units :: Text(us) == data && Meaning(us) == m {
      var us: Units :| Text(us) == data && Meaning(us) == m;
      assert data[0..|data|] == data;
      UnitsDecode(data, 0, us);
    }
  }

  // ---------------------------------------------------------------- what the writer writes

  /** How a byte is written. */
  function Spelled(c: byte): Unit {
    if c == 0x26 then Amp
    else if c == 0x3C then Lt
    else if c == 0x3E then Gt
    else if c == 0x27 then Apos
    else if c == 0x22 then Quot
    else Raw(c)
  }

  function AllSpelled(x: seq<byte>): seq<Unit> {
    if x == [] then [] else [Spelled(x[0])] + AllSpelled(x[1..])
  }

  lemma SpelledText(c: byte)
    ensures EscapedByte(c) == UnitText(Spelled(c)) && UnitMeaning(Spelled(c)) == c && WellFormed(Spelled(c))
  {
  }

  /** The writer spells the five special characters by name and everything else as it is. */
  lemma {:induction false} EscapedSpells(x: seq<byte>)
    ensures Escaped(x) == Text(AllSpelled(x)) && Meaning(AllSpelled(x)) == x
  {
    hide UnitText, UnitMeaning, EscapedByte;
    if x != [] {
      EscapedSpells(x[1..]);
      SpelledText(x[0]);
    }
  }
}
