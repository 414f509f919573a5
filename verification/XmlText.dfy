/** Text in XML messages: the cleaning of byte sequences, and the five entities. */
module XmlText {
  import opened Bytes
  import Decimal
  import Utf8

  // ---------------------------------------------------------------- cleaning

  /** The first of the announced continuation bytes from `k` on that is not one; `extra + 1` when all are. */
  function FirstBad(t: seq<byte>, extra: nat, k: nat): (j: nat)
    requires 1 <= k <= extra + 1 <= |t|
    ensures k <= j <= extra + 1
    ensures forall i :: k <= i < j ==> t[i] / 64 == 2
    ensures j <= extra ==> t[j] / 64 != 2
    decreases extra + 1 - k
  {
    if k == extra + 1 || t[k] / 64 != 2 then k else FirstBad(t, extra, k + 1)
  }

  /** The number of bytes of the first character, or minus the number of bytes to leave out. */
  function NumBytes(t: seq<byte>): (n: int)
    requires t != []
    ensures n != 0 && -|t| <= n <= |t|
  {
    var extra := Utf8.Extra(t[0]);
    if extra < 0 || 1 + extra > |t| then -1
    else
      var bad := FirstBad(t, extra, 1);
      if bad <= extra then -(bad + 1) else 1 + extra
  }

  function Clean(t: seq<byte>): (s: seq<byte>)
    ensures |s| <= |t|
    decreases |t|
  {
    if t == [] then []
    else if NumBytes(t) > 0 then t[..NumBytes(t)] + Clean(t[NumBytes(t)..])
    else Clean(t[-NumBytes(t)..])
  }

  method GetUtf8NbytesChar(text: seq<byte>, pos: nat) returns (n: int)
    requires pos <= |text|
    ensures n == if pos < |text| then NumBytes(text[pos..]) else 0
  {
    if pos >= |text| {
      return 0;
    }
    ghost var t := text[pos..];
    var c := text[pos];
    var numBytes := -1;
    if c / 128 == 0 {
      assert FirstBad(t, 0, 1) == 1;
      return 1;
    }
    if c / 32 == 6 { numBytes := 2; }
    else if c / 16 == 14 { numBytes := 3; }
    else if c / 8 == 30 { numBytes := 4; }
    else { return -1; }
    if pos + numBytes > |text| {
      return -1;
    }
    var i := 1;
    while i < numBytes
      invariant 1 <= i <= numBytes
      invariant FirstBad(t, numBytes - 1, 1) == FirstBad(t, numBytes - 1, i)
    {
      c := text[pos + i];
      if c / 64 != 2 {
        return -(i + 1);
      }
      i := i + 1;
    }
    return numBytes;
  }

  lemma CleanStep(text: seq<byte>, pos: nat, clean: seq<byte>)
    requires pos < |text|
    ensures var n := NumBytes(text[pos..]);
            && (n > 0 ==> clean + Clean(text[pos..]) == (clean + text[pos..pos + n]) + Clean(text[pos + n..]))
            && (n < 0 ==> Clean(text[pos..]) == Clean(text[pos - n..]))
  {
    hide NumBytes;
    var rest := text[pos..];
    var n := NumBytes(rest);
    if n > 0 {
      assert rest[..n] == text[pos..pos + n] && rest[n..] == text[pos + n..];
    } else {
      assert rest[-n..] == text[pos - n..];
    }
  }

  method GetCleanUtf8(text: seq<byte>) returns (clean: seq<byte>)
    ensures clean == Clean(text)
  {
    hide NumBytes, Clean;
    clean := [];
    var pos := 0;
    assert [] + Clean(text[0..]) == Clean(text) by { assert text[0..] == text; }
    while pos < |text|
      invariant 0 <= pos <= |text|
      invariant Clean(text) == clean + Clean(text[pos..])
    {
      var numBytes := GetUtf8NbytesChar(text, pos);
      // The source also tests for 0, which means the end and cannot be here.
      CleanStep(text, pos, clean);
      if numBytes > 0 {
        clean := clean + text[pos..pos + numBytes];
        pos := pos + numBytes;
      } else {
        pos := pos - numBytes;
      }
    }
    assert clean + Clean([]) == clean by { NothingToClean(); }
  }

  lemma NothingToClean()
    ensures Clean([]) == []
  {
  }

  /** A character that is kept is found again wherever it stands. */
  lemma NumBytesPrefix(t: seq<byte>, rest: seq<byte>)
    requires t != [] && NumBytes(t) > 0
    ensures NumBytes(t[..NumBytes(t)] + rest) == NumBytes(t)
  {
  }

  /** Cleaning twice is cleaning once. */
  lemma {:induction false} CleanTwice(t: seq<byte>)
    ensures Clean(Clean(t)) == Clean(t)
    decreases |t|
  {
    hide NumBytes;
    if t != [] {
      var n := NumBytes(t);
      if n > 0 {
        var rest := Clean(t[n..]);
        CleanTwice(t[n..]);
        NumBytesPrefix(t, rest);
        var s := t[..n] + rest;
        assert s[..n] == t[..n] && s[n..] == rest;
      } else {
        CleanTwice(t[-n..]);
      }
    }
  }

  /** Text in which every character has all the continuation bytes it announces. */
  predicate Complete(t: seq<byte>)
    decreases |t|
  {
    t == [] || (NumBytes(t) > 0 && Complete(t[NumBytes(t)..]))
  }

  /** Cleaning leaves exactly the complete texts alone, and its results are complete. */
  lemma {:induction false} CleanIffComplete(t: seq<byte>)
    ensures Clean(t) == t <==> Complete(t)
    ensures Complete(Clean(t))
    decreases |t|
  {
    hide NumBytes;
    if t != [] {
      var n := NumBytes(t);
      if n > 0 {
        var rest := Clean(t[n..]);
        CleanIffComplete(t[n..]);
        NumBytesPrefix(t, rest);
        var s := t[..n] + rest;
        assert s[n..] == rest && s[..n] == t[..n] && t == t[..n] + t[n..];
      } else {
        CleanIffComplete(t[-n..]);
        assert |Clean(t)| < |t|;
      }
    }
  }

  lemma CharLenIsNumBytes(t: seq<byte>)
    requires t != [] && Utf8.CharLen(t) > 0
    ensures NumBytes(t) == Utf8.CharLen(t)
  {
  }

  /** Cleaning leaves valid UTF-8 alone. */
  lemma {:induction false} CleanOnValid(t: seq<byte>)
    requires Utf8.Valid(t)
    ensures Clean(t) == t
    decreases |t|
  {
    hide NumBytes, Utf8.CharLen;
    if t != [] {
      CharLenIsNumBytes(t);
      CleanOnValid(t[NumBytes(t)..]);
      assert t == t[..NumBytes(t)] + t[NumBytes(t)..];
    }
  }

  /**
   * Every character that cleaning keeps is one that valid UTF-8 allows: no overlong form, no surrogate, none too
   * large.
   */
  predicate KeepsAllowed(t: seq<byte>)
    decreases |t|
  {
    t == [] ||
    if NumBytes(t) > 0 then Utf8.CharLen(t) > 0 && KeepsAllowed(t[NumBytes(t)..])
    else KeepsAllowed(t[-NumBytes(t)..])
  }

  /** Whether a kept character is allowed does not depend on what follows it. */
  lemma AllowedPrefix(t: seq<byte>, rest: seq<byte>)
    requires t != [] && NumBytes(t) > 0
    ensures var u := t[..NumBytes(t)] + rest;
            && (Utf8.CharLen(u) > 0 <==> Utf8.CharLen(t) > 0)
            && (Utf8.CharLen(u) > 0 ==> Utf8.CharLen(u) == NumBytes(t))
  {
    var n := NumBytes(t);
    var u := t[..n] + rest;
    NumBytesPrefix(t, rest);
    if Utf8.CharLen(t) > 0 {
      CharLenIsNumBytes(t);
      Utf8.CharLenPrefix(t, rest);
    }
    if Utf8.CharLen(u) > 0 {
      CharLenIsNumBytes(u);
      Utf8.CharLenPrefix(u, t[n..]);
      assert u[..n] + t[n..] == t;
    }
  }

  /** Cleaned text is valid UTF-8 exactly when every character kept is allowed. */
  lemma {:induction false} CleanIsValidIff(t: seq<byte>)
    ensures Utf8.Valid(Clean(t)) <==> KeepsAllowed(t)
    decreases |t|
  {
    hide NumBytes, Utf8.CharLen;
    if t != [] {
      var n := NumBytes(t);
      if n > 0 {
        var rest := Clean(t[n..]);
        CleanIsValidIff(t[n..]);
        AllowedPrefix(t, rest);
        var s := t[..n] + rest;
        assert s[n..] == rest;
      } else {
        CleanIsValidIff(t[-n..]);
      }
    }
  }

  /** Clean text that is not valid UTF-8: an overlong form is kept. */
  lemma OverlongKept()
    ensures var t: seq<byte> := [0xC0, 0x80]; Clean(t) == t && !Utf8.Valid(t) && !KeepsAllowed(t)
  {
    var t: seq<byte> := [0xC0, 0x80];
    CleanIsValidIff(t);
    assert NumBytes(t) == 2 && t[2..] == [] && t[..2] == t;
    assert Utf8.CharLen(t) == 0;
  }

  /** How many bytes the first byte of a character announces; 0 when it cannot be one. */
  function Announced(b: byte): nat {
    if b < 0x80 then 1 else if 0xC0 <= b < 0xE0 then 2 else if 0xE0 <= b < 0xF0 then 3 else if 0xF0 <= b < 0xF8 then 4
    else 0
  }

  predicate Continues(b: byte) {
    0x80 <= b < 0xC0
  }

  /** Exactly as many bytes as the first one announces, all others continuing it. */
  predicate IsCharacter(c: seq<byte>) {
    c != [] && |c| == Announced(c[0]) && forall k :: 1 <= k < |c| ==> Continues(c[k])
  }

  /** Such a character at the front is kept. */
  lemma CleanKeeps(c: seq<byte>, t: seq<byte>)
    requires IsCharacter(c)
    ensures Clean(c + t) == c + Clean(t)
  {
    AnnouncedIsExtra();
    hide Utf8.Extra;
    var s := c + t;
    assert s[0] == c[0] && 1 <= |c| && Utf8.Extra(s[0]) + 1 == |c|;
    var bad := FirstBad(s, |c| - 1, 1);
    assert bad < |c| ==> s[bad] == c[bad] && Continues(c[bad]);
    assert s[..|c|] == c && s[|c|..] == t;
  }

  /** A byte at the front that announces no character, or more than is left, is left out alone. */
  lemma CleanSkipsByte(t: seq<byte>)
    requires t != [] && (Announced(t[0]) == 0 || Announced(t[0]) > |t|)
    ensures Clean(t) == Clean(t[1..])
  {
    AnnouncedIsExtra();
  }

  /** A character cut short is left out together with the byte that should have continued it. */
  lemma CleanSkipsCut(t: seq<byte>, j: nat)
    requires t != [] && 1 <= j < Announced(t[0]) <= |t|
    requires (forall k :: 1 <= k < j ==> Continues(t[k])) && !Continues(t[j])
    ensures Clean(t) == Clean(t[j + 1..])
  {
    assert Utf8.Extra(t[0]) + 1 == Announced(t[0]) by { AnnouncedIsExtra(); }
    hide FirstBad, Utf8.Extra, Announced, Continues;
    FirstThatDoesNot(t, Utf8.Extra(t[0]), j);
    assert NumBytes(t) == -(j + 1);
    hide NumBytes;
  }

  lemma FirstThatDoesNot(t: seq<byte>, extra: nat, j: nat)
    requires 1 <= j <= extra < |t| && (forall k :: 1 <= k < j ==> Continues(t[k])) && !Continues(t[j])
    ensures FirstBad(t, extra, 1) == j
  {
    var bad := FirstBad(t, extra, 1);
    hide FirstBad;
    assert bad < j ==> Continues(t[bad]);
  }

  lemma AnnouncedIsExtra()
    ensures forall b: byte :: Announced(b) == Utf8.Extra(b) + 1
  {
  }

  // ---------------------------------------------------------------- entities

  const AMP: byte := 0x26
  const SEMICOLON: byte := 0x3B
  const HASH: byte := 0x23

  const AMP_NAME: seq<byte> := [0x61, 0x6D, 0x70]
  const LT_NAME: seq<byte> := [0x6C, 0x74]
  const GT_NAME: seq<byte> := [0x67, 0x74]
  const APOS_NAME: seq<byte> := [0x61, 0x70, 0x6F, 0x73]
  const QUOT_NAME: seq<byte> := [0x71, 0x75, 0x6F, 0x74]

  /** The name of the entity that stands for a character. */
  function EntityOf(c: byte): seq<byte> {
    if c == 0x26 then AMP_NAME
    else if c == 0x3C then LT_NAME
    else if c == 0x3E then GT_NAME
    else if c == 0x27 then APOS_NAME
    else if c == 0x22 then QUOT_NAME
    else []
  }

  function EscapedByte(c: byte): (s: seq<byte>)
    ensures s != []
  {
    if EntityOf(c) == [] then [c] else [AMP] + EntityOf(c) + [SEMICOLON]
  }

  function Escaped(x: seq<byte>): seq<byte> {
    if x == [] then [] else EscapedByte(x[0]) + Escaped(x[1..])
  }

  function Encoded(rawdata: seq<byte>): seq<byte> {
    Escaped(Clean(rawdata))
  }

  lemma EscapedStep(data: seq<byte>, i: nat, done: seq<byte>)
    requires i < |data|
    ensures done + Escaped(data[i..]) == (done + EscapedByte(data[i])) + Escaped(data[i + 1..])
  {
    hide EscapedByte;
    assert data[i..][1..] == data[i + 1..];
  }

  method EncodeXml(rawdata: seq<byte>) returns (ret: seq<byte>)
    ensures ret == Encoded(rawdata)
  {
    hide EscapedByte, Clean;
    var data := GetCleanUtf8(rawdata);
    ret := [];
    for i := 0 to |data|
      invariant Escaped(data) == ret + Escaped(data[i..])
    {
      EscapedStep(data, i, ret);
      ret := ret + EscapedByte(data[i]);
    }
  }

  function FindSemicolon(data: seq<byte>, i: nat): (j: nat)
    requires i <= |data|
    ensures i <= j <= |data| && (j < |data| ==> data[j] == SEMICOLON)
    ensures forall k :: i <= k < j ==> data[k] != SEMICOLON
    decreases |data| - i
  {
    if i == |data| || data[i] == SEMICOLON then i else FindSemicolon(data, i + 1)
  }

  /** The byte an entity stands for: by number, modulo 256, or by name; None is the bad request exception. */
  function CodeMeaning(code: seq<byte>): Option<byte> {
    if code != [] && code[0] == HASH then Some(Decimal.Atoll(code[1..]) % 256)
    else if code == AMP_NAME then Some(0x26)
    else if code == LT_NAME then Some(0x3C)
    else if code == GT_NAME then Some(0x3E)
    else if code == APOS_NAME then Some(0x27)
    else if code == QUOT_NAME then Some(0x22)
    else None
  }

  function Prepend(c: byte, rest: Option<seq<byte>>): Option<seq<byte>> {
    if rest.None? then None else Some([c] + rest.value)
  }

  function Decoded(data: seq<byte>, i: nat): Option<seq<byte>>
    requires i <= |data|
    decreases |data| - i
  {
    if i == |data| then Some([])
    else if data[i] != AMP then Prepend(data[i], Decoded(data, i + 1))
    else
      var end := FindSemicolon(data, i + 1);
      if end == |data| || CodeMeaning(data[i + 1..end]).None? then None
      else Prepend(CodeMeaning(data[i + 1..end]).value, Decoded(data, end + 1))
  }

  function Joined(done: seq<byte>, rest: Option<seq<byte>>): Option<seq<byte>> {
    if rest.None? then None else Some(done + rest.value)
  }

  lemma JoinedStep(done: seq<byte>, c: byte, rest: Option<seq<byte>>)
    ensures Joined(done, Prepend(c, rest)) == Joined(done + [c], rest)
  {
    if rest.Some? {
      assert done + ([c] + rest.value) == done + [c] + rest.value;
    }
  }

  method DecodeXml(data: seq<byte>) returns (r: Option<seq<byte>>)
    ensures r == Decoded(data, 0)
  {
    hide CodeMeaning;
    var ret := [];
    var i := 0;
    JoinedStart(Decoded(data, 0));
    while i < |data|
      invariant i <= |data|
      invariant Decoded(data, 0) == Joined(ret, Decoded(data, i))
      decreases |data| - i
    {
      ghost var at, before := i, ret;
      if data[i] == AMP {
        i := i + 1;
        var begin := i;
        while i < |data| && data[i] != SEMICOLON
          invariant begin <= i <= |data|
          invariant FindSemicolon(data, begin) == FindSemicolon(data, i)
        {
          i := i + 1;
        }
        if i >= |data| {
          return None;
        }
        var meaning := CodeMeaning(data[begin..i]);
        if meaning.None? {
          return None;
        }
        ret := ret + [meaning.value];
        JoinedStep(before, meaning.value, Decoded(data, i + 1));
      } else {
        ret := ret + [data[i]];
        JoinedStep(before, data[i], Decoded(data, i + 1));
      }
      i := i + 1;
    }
    assert Joined(ret, Some([])) == Some(ret) by { assert ret + [] == ret; }
    return Some(ret);
  }

  lemma JoinedStart(rest: Option<seq<byte>>)
    ensures Joined([], rest) == rest
  {
    if rest.Some? {
      assert [] + rest.value == rest.value;
    }
  }

  lemma EntityMeans(c: byte)
    requires EntityOf(c) != []
    ensures CodeMeaning(EntityOf(c)) == Some(c) && SEMICOLON !in EntityOf(c)
  {
  }

  lemma {:induction false} SemicolonAt(data: seq<byte>, i: nat, j: nat)
    requires i <= j < |data| && data[j] == SEMICOLON && forall k :: i <= k < j ==> data[k] != SEMICOLON
    ensures FindSemicolon(data, i) == j
    decreases j - i
  {
  }

  lemma EntityDecodes(data: seq<byte>, i: nat, c: byte)
    requires EntityOf(c) != [] && At(data, i, EscapedByte(c))
    ensures Decoded(data, i) == Prepend(c, Decoded(data, i + |EscapedByte(c)|))
  {
    EntityMeans(c);
    hide CodeMeaning, EntityOf;
    var name := EntityOf(c);
    var end := i + 1 + |name|;
    AtSplit(data, i, [AMP] + name, [SEMICOLON]);
    AtSplit(data, i, [AMP], name);
    assert data[i] == data[i..i + 1][0] && data[end] == data[end..end + 1][0];
    assert data[i + 1..end] == name;
    NoneInside(data, i + 1, end, name);
    SemicolonAt(data, i + 1, end);
  }

  lemma NoneInside(data: seq<byte>, i: nat, j: nat, name: seq<byte>)
    requires i <= j <= |data| && data[i..j] == name && SEMICOLON !in name
    ensures forall k :: i <= k < j ==> data[k] != SEMICOLON
  {
  }

  lemma PlainDecodes(data: seq<byte>, i: nat, c: byte)
    requires EntityOf(c) == [] && At(data, i, EscapedByte(c))
    ensures Decoded(data, i) == Prepend(c, Decoded(data, i + |EscapedByte(c)|))
  {
  }

  lemma {:induction false} EscapedDecodes(data: seq<byte>, i: nat, x: seq<byte>)
    requires At(data, i, Escaped(x)) && i + |Escaped(x)| == |data|
    ensures Decoded(data, i) == Some(x)
    decreases |x|
  {
    hide EntityOf, Decoded, At, EscapedByte;
    if x == [] {
      NothingLeft(data);
    } else {
      var c := x[0];
      AtSplit(data, i, EscapedByte(c), Escaped(x[1..]));
      EscapedDecodes(data, i + |EscapedByte(c)|, x[1..]);
      assert [c] + x[1..] == x;
      if EntityOf(c) != [] {
        EntityDecodes(data, i, c);
      } else {
        PlainDecodes(data, i, c);
      }
    }
  }

  lemma NothingLeft(data: seq<byte>)
    ensures Decoded(data, |data|) == Some([])
  {
  }

  /** Decoding undoes encoding, up to the cleaning, for every byte string. */
  lemma {:induction false} RoundTrip(x: seq<byte>)
    ensures Decoded(Encoded(x), 0) == Some(Clean(x))
  {
    assert Encoded(x)[0..|Encoded(x)|] == Encoded(x);
    EscapedDecodes(Encoded(x), 0, Clean(x));
  }

  /** Encoded text holds no angle bracket, so it cannot be taken for a tag, and no quote or apostrophe. */
  lemma {:induction false} NoTags(x: seq<byte>)
    ensures forall c <- Escaped(x) :: c != 0x3C && c != 0x3E && c != 0x22 && c != 0x27
  {
    if x != [] {
      NoTags(x[1..]);
    }
  }
}
