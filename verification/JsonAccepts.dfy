/** What the JSON parser accepts: nothing but text of this grammar, which is a little wider than that of RFC 8259. */
module JsonAccepts {
  import opened Bytes
  import opened RequestMessage
  import opened JsonParser
  import opened JsonLayout
  import JsonStrings

  /**
   * The content of a string: escapes of any character, any four bytes behind a `u`, and no bare quote.
   */
  predicate IsContent(s: seq<byte>) {
    || s == []
    || (s[0] == BACKSLASH && |s| >= 2 && IsContent(s[2..]))
    || (s[0] == BACKSLASH && |s| >= 6 && s[1] == JsonStrings.LOWER_U && IsContent(s[6..]))
    || (s[0] != BACKSLASH && s[0] != QUOTE && IsContent(s[1..]))
  }

  /** A number: a digit or a minus sign, and anything but delimiters. */
  predicate IsNumeral(s: seq<byte>) {
    s != [] && (s[0] == 0x2D || IsDigit(s[0])) && forall c <- s[1..] :: !EndsNumber(c)
  }

  type Content = s: seq<byte> | IsContent(s)

  type Numeral = s: seq<byte> | IsNumeral(s) witness [0x30]

  type Word = s: seq<byte> | s in {TRUE_TEXT, FALSE_TEXT, NULL_TEXT} witness NULL_TEXT

  /** Members and items are separated by commas; the last one may have a comma too. */
  datatype Accepted =
    | ObjectOf(open: Space, members: AcceptedMembers)
    | ArrayOf(open: Space, items: AcceptedItems)
    | StringOf(content: Content)
    | NumberOf(digits: Numeral)
    | WordOf(word: Word)

  datatype AcceptedMembers =
    | NoMembers
    | LastMember(key: Content, s1: Space, s2: Space, value: Accepted, s3: Space)
    | MoreMembers(key: Content, s1: Space, s2: Space, value: Accepted, s3: Space, s4: Space, rest: AcceptedMembers)

  datatype AcceptedItems =
    | NoItems
    | LastItem(value: Accepted, s1: Space)
    | MoreItems(value: Accepted, s1: Space, s2: Space, rest: AcceptedItems)

  function TextOf(a: Accepted): seq<byte> {
    match a
    case ObjectOf(open, members) => [OPEN_BRACE] + open + TextOfMembers(members) + [CLOSE_BRACE]
    case ArrayOf(open, items) => [OPEN_BRACKET] + open + TextOfItems(items) + [CLOSE_BRACKET]
    case StringOf(content) => [QUOTE] + content + [QUOTE]
    case NumberOf(digits) => digits
    case WordOf(word) => word
  }

  function TextOfMembers(ms: AcceptedMembers): seq<byte> {
    match ms
    case NoMembers => []
    case LastMember(key, s1, s2, value, s3) =>
      [QUOTE] + key + [QUOTE] + s1 + [COLON] + s2 + TextOf(value) + s3
    case MoreMembers(key, s1, s2, value, s3, s4, rest) =>
      [QUOTE] + key + [QUOTE] + s1 + [COLON] + s2 + TextOf(value) + s3 + [COMMA] + s4 + TextOfMembers(rest)
  }

  function TextOfItems(vs: AcceptedItems): seq<byte> {
    match vs
    case NoItems => []
    case LastItem(value, s1) => TextOf(value) + s1
    case MoreItems(value, s1, s2, rest) => TextOf(value) + s1 + [COMMA] + s2 + TextOfItems(rest)
  }

  /** The white space that was skipped. */
  lemma {:induction false} SkippedSpace(raw: seq<byte>, at: nat) returns (s: Space)
    requires SkipSpace(raw, at).Some?
    ensures at + |s| == SkipSpace(raw, at).value && At(raw, at, s)
    decreases |raw| - at
  {
    if IsWhiteSpace(raw[at]) {
      var rest := SkippedSpace(raw, at + 1);
      s := [raw[at]] + rest;
      assert raw[at..at + |s|] == [raw[at]] + raw[at + 1..at + 1 + |rest|];
    } else {
      s := [];
    }
  }

  lemma {:induction false} ScannedContent(raw: seq<byte>, at: nat) returns (s: Content)
    requires ScanString(raw, at).Some?
    ensures at + |s| == ScanString(raw, at).value && At(raw, at, s) && raw[at + |s|] == QUOTE
    decreases |raw| - at
  {
    var end := ScanString(raw, at).value;
    if raw[at] == BACKSLASH {
      var n := if raw[at + 1] == JsonStrings.LOWER_U && at + 1 + 4 < |raw| then 6 else 2;
      var rest := ScannedContent(raw, at + n);
      s := raw[at..at + n] + rest;
      assert s[n..] == rest;
    } else if raw[at] == QUOTE {
      s := [];
    } else {
      var rest := ScannedContent(raw, at + 1);
      s := [raw[at]] + rest;
      assert s[1..] == rest;
    }
  }

  lemma {:induction false} ScannedNumber(raw: seq<byte>, at: nat)
    requires at <= |raw|
    ensures forall k :: at <= k < ScanNumber(raw, at) ==> !EndsNumber(raw[k])
    decreases |raw| - at
  {
    if at < |raw| && !EndsNumber(raw[at]) {
      ScannedNumber(raw, at + 1);
    }
  }

  lemma AtJoin(raw: seq<byte>, at: nat, s: seq<byte>, t: seq<byte>)
    requires At(raw, at, s) && At(raw, at + |s|, t)
    ensures At(raw, at, s + t)
  {
    AtSplit(raw, at, s, t);
  }

  lemma AtByte(raw: seq<byte>, at: nat)
    requires at < |raw|
    ensures At(raw, at, [raw[at]])
  {
  }

  /** A string: what its quotes enclose. */
  lemma AcceptedString(raw: seq<byte>, at: nat) returns (content: Content)
    requires at < |raw| && raw[at] == QUOTE && ParseString(raw, at).Some?
    ensures At(raw, at, [QUOTE] + content + [QUOTE]) && ParseString(raw, at).value.1 == at + |content| + 2
  {
    hide ScanString, IsContent;
    content := ScannedContent(raw, at + 1);
    AtByte(raw, at);
    AtByte(raw, at + 1 + |content|);
    AtJoin(raw, at, [QUOTE], content);
    AtJoin(raw, at, [QUOTE] + content, [QUOTE]);
  }

  lemma AcceptedNumber(raw: seq<byte>, at: nat) returns (digits: Numeral)
    requires at < |raw| && (raw[at] == 0x2D || IsDigit(raw[at]))
    ensures At(raw, at, digits) && at + |digits| == ScanNumber(raw, at + 1)
  {
    ScannedNumber(raw, at + 1);
    var end := ScanNumber(raw, at + 1);
    digits := raw[at..end];
    assert forall c <- digits[1..] :: !EndsNumber(c);
  }

  /** What kind of value stands here tells its first character. */
  lemma LeafKinds(raw: seq<byte>, at: nat)
    requires at < |raw| && ParseNode(raw, at).Some?
    requires raw[at] != OPEN_BRACE && raw[at] != OPEN_BRACKET && raw[at] != QUOTE
    requires raw[at] != 0x2D && !IsDigit(raw[at])
    ensures exists w: Word :: At(raw, at, w) && ParseNode(raw, at).value.1 == at + |w|
  {
    hide ParseObject, ParseArray, ParseString, ScanNumber;
    var w: Word := if At(raw, at, TRUE_TEXT) then TRUE_TEXT
                   else if At(raw, at, FALSE_TEXT) then FALSE_TEXT
                   else NULL_TEXT;
    assert At(raw, at, w);
  }

  lemma NumberStarts(raw: seq<byte>, at: nat)
    requires at < |raw| && (raw[at] == 0x2D || IsDigit(raw[at]))
    ensures ParseNode(raw, at).Some? && ParseNode(raw, at).value.1 == ScanNumber(raw, at + 1)
  {
    hide ParseObject, ParseArray, ParseString, ScanNumber;
  }

  /** Whatever the parser reads as a value is text of the grammar. */
  lemma {:induction false} AcceptsOnly(raw: seq<byte>, at: nat) returns (a: Accepted)
    requires at < |raw| && ParseNode(raw, at).Some?
    ensures At(raw, at, TextOf(a)) && ParseNode(raw, at).value.1 == at + |TextOf(a)|
    decreases |raw| - at, 0
  {
    hide ParseNode, ParseObject, ParseArray, ParseString, ScanNumber, At, IsContent, IsNumeral, IsSpace;
    var c := raw[at];
    if c == OPEN_BRACE {
      ObjectStarts(raw, at);
      var space, members := AcceptsMembers(raw, at, at + 1, []);
      AtByte(raw, at);
      AtJoin(raw, at, [c], space + TextOfMembers(members) + [CLOSE_BRACE]);
      a := ObjectOf(space, members);
      assert TextOf(a) == [c] + (space + TextOfMembers(members) + [CLOSE_BRACE]);
    } else if c == OPEN_BRACKET {
      ObjectStarts(raw, at);
      var space, items := AcceptsItems(raw, at, at + 1, []);
      AtByte(raw, at);
      AtJoin(raw, at, [c], space + TextOfItems(items) + [CLOSE_BRACKET]);
      a := ArrayOf(space, items);
      assert TextOf(a) == [c] + (space + TextOfItems(items) + [CLOSE_BRACKET]);
    } else if c == QUOTE {
      ObjectStarts(raw, at);
      var content := AcceptedString(raw, at);
      a := StringOf(content);
    } else if c == 0x2D || IsDigit(c) {
      NumberStarts(raw, at);
      var digits := AcceptedNumber(raw, at);
      a := NumberOf(digits);
    } else {
      LeafKinds(raw, at);
      var w: Word :| At(raw, at, w) && ParseNode(raw, at).value.1 == at + |w|;
      a := WordOf(w);
    }
  }

  /** A member whose value is text of the grammar: its text, and where it ends. */
  lemma {:induction false} AcceptsMember(raw: seq<byte>, at: nat)
    returns (key: Content, s1: Space, s2: Space, value: Accepted)
    requires at < |raw| && raw[at] == QUOTE && ParseMember(raw, at).Some?
    ensures At(raw, at, [QUOTE] + key + [QUOTE] + s1 + [COLON] + s2 + TextOf(value))
    ensures ParseMember(raw, at).value.1 == at + |[QUOTE] + key + [QUOTE] + s1 + [COLON] + s2 + TextOf(value)|
    decreases |raw| - at, 0
  {
    hide ParseNode, ParseString, SkipSpace, At, IsContent, IsSpace, TextOf, JsonStrings.Decoded;
    key := AcceptedString(raw, at);
    var name := [QUOTE] + key + [QUOTE];
    s1 := SkippedSpace(raw, at + |name|);
    AtJoin(raw, at, name, s1);
    var colon := at + |name| + |s1|;
    AtByte(raw, colon);
    AtJoin(raw, at, name + s1, [COLON]);
    s2 := SkippedSpace(raw, colon + 1);
    AtJoin(raw, at, name + s1 + [COLON], s2);
    var start := colon + 1 + |s2|;
    value := AcceptsOnly(raw, start);
    AtJoin(raw, at, name + s1 + [COLON] + s2, TextOf(value));
  }

  /** A turn of the object loop that goes well. */
  lemma ObjectTurns(raw: seq<byte>, start: nat, offset: nat, acc: seq<Node>)
    requires start < offset && ParseObject(raw, start, offset, acc).Some?
    ensures SkipSpace(raw, offset).Some?
    ensures
      var at := SkipSpace(raw, offset).value;
      var behind := ParseObject(raw, start, offset, acc).value.1;
      if raw[at] == CLOSE_BRACE then behind == at + 1
      else
        && raw[at] == QUOTE && ParseMember(raw, at).Some? && SkipSpace(raw, ParseMember(raw, at).value.1).Some?
        && var (child, end) := ParseMember(raw, at).value;
           var next := SkipSpace(raw, end).value;
           && (raw[next] == COMMA || raw[next] == CLOSE_BRACE)
           && (raw[next] == CLOSE_BRACE ==> behind == next + 1)
           && (raw[next] == COMMA ==> ParseObject(raw, start, next + 1, acc + [child]).Some?
                                      && ParseObject(raw, start, next + 1, acc + [child]).value.1 == behind)
  {
    hide ParseMember;
    if raw[SkipSpace(raw, offset).value] != CLOSE_BRACE {
      var (child, end) := ParseMember(raw, SkipSpace(raw, offset).value).value;
      var next := SkipSpace(raw, end).value;
      if raw[next] == CLOSE_BRACE {
        ObjectEnd(raw, start, next, acc + [child]);
      }
    }
  }

  lemma ArrayTurns(raw: seq<byte>, start: nat, offset: nat, acc: seq<Node>)
    requires start < offset && ParseArray(raw, start, offset, acc).Some?
    ensures SkipSpace(raw, offset).Some?
    ensures
      var at := SkipSpace(raw, offset).value;
      var behind := ParseArray(raw, start, offset, acc).value.1;
      if raw[at] == CLOSE_BRACKET then behind == at + 1
      else
        && ParseNode(raw, at).Some? && SkipSpace(raw, ParseNode(raw, at).value.1).Some?
        && var (child, end) := ParseNode(raw, at).value;
           var next := SkipSpace(raw, end).value;
           && (raw[next] == COMMA || raw[next] == CLOSE_BRACKET)
           && (raw[next] == CLOSE_BRACKET ==> behind == next + 1)
           && (raw[next] == COMMA ==> ParseArray(raw, start, next + 1, acc + [child]).Some?
                                      && ParseArray(raw, start, next + 1, acc + [child]).value.1 == behind)
  {
    hide ParseNode;
    if raw[SkipSpace(raw, offset).value] != CLOSE_BRACKET {
      var (child, end) := ParseNode(raw, SkipSpace(raw, offset).value).value;
      var next := SkipSpace(raw, end).value;
      if raw[next] == CLOSE_BRACKET {
        ArrayEnd(raw, start, next, acc + [child]);
      }
    }
  }

  /** One element of a list, a comma, space and the rest, behind space. */
  lemma ListJoins(raw: seq<byte>, offset: nat, space: seq<byte>, first: seq<byte>, more: seq<byte>, rest: seq<byte>,
                  close: seq<byte>)
    requires At(raw, offset, space) && At(raw, offset + |space|, first) && At(raw, offset + |space| + |first|, [COMMA])
    requires At(raw, offset + |space| + |first| + 1, more + rest + close)
    ensures At(raw, offset, space + (first + [COMMA] + more + rest) + close)
  {
    hide At;
    var tail := more + rest + close;
    AtJoin(raw, offset + |space| + |first|, [COMMA], tail);
    AtJoin(raw, offset + |space|, first, [COMMA] + tail);
    AtJoin(raw, offset, space, first + ([COMMA] + tail));
    assert space + (first + ([COMMA] + tail)) == space + (first + [COMMA] + more + rest) + close;
  }

  /** The last element of a list and the closing character, behind space. */
  lemma ListEnds(raw: seq<byte>, offset: nat, space: seq<byte>, first: seq<byte>, close: seq<byte>)
    requires At(raw, offset, space) && At(raw, offset + |space|, first) && At(raw, offset + |space| + |first|, close)
    ensures At(raw, offset, space + first + close)
  {
    AtJoin(raw, offset, space, first);
    AtJoin(raw, offset, space + first, close);
  }

  lemma {:induction false} AcceptsMembers(raw: seq<byte>, start: nat, offset: nat, acc: seq<Node>)
    returns (space: Space, ms: AcceptedMembers)
    requires start < offset && ParseObject(raw, start, offset, acc).Some?
    ensures At(raw, offset, space + TextOfMembers(ms) + [CLOSE_BRACE])
    ensures ParseObject(raw, start, offset, acc).value.1 == offset + |space + TextOfMembers(ms) + [CLOSE_BRACE]|
    decreases |raw| - offset, 1
  {
    hide ParseMember, ParseObject, SkipSpace, At, IsContent, IsSpace, TextOf;
    ObjectTurns(raw, start, offset, acc);
    space := SkippedSpace(raw, offset);
    var at := offset + |space|;
    AtByte(raw, at);
    if raw[at] == CLOSE_BRACE {
      ms := NoMembers;
      assert space + [] + [CLOSE_BRACE] == space + [CLOSE_BRACE];
      AtJoin(raw, offset, space, [CLOSE_BRACE]);
    } else {
      var key, s1, s2, value := AcceptsMember(raw, at);
      var (child, end) := ParseMember(raw, at).value;
      var member := [QUOTE] + key + [QUOTE] + s1 + [COLON] + s2 + TextOf(value);
      var s3 := SkippedSpace(raw, end);
      AtJoin(raw, at, member, s3);
      var next := end + |s3|;
      AtByte(raw, next);
      if raw[next] == COMMA {
        var s4, rest := AcceptsMembers(raw, start, next + 1, acc + [child]);
        ms := MoreMembers(key, s1, s2, value, s3, s4, rest);
        ListJoins(raw, offset, space, member + s3, s4, TextOfMembers(rest), [CLOSE_BRACE]);
      } else {
        ms := LastMember(key, s1, s2, value, s3);
        ListEnds(raw, offset, space, member + s3, [CLOSE_BRACE]);
      }
    }
  }

  lemma {:induction false} AcceptsItems(raw: seq<byte>, start: nat, offset: nat, acc: seq<Node>)
    returns (space: Space, vs: AcceptedItems)
    requires start < offset && ParseArray(raw, start, offset, acc).Some?
    ensures At(raw, offset, space + TextOfItems(vs) + [CLOSE_BRACKET])
    ensures ParseArray(raw, start, offset, acc).value.1 == offset + |space + TextOfItems(vs) + [CLOSE_BRACKET]|
    decreases |raw| - offset, 1
  {
    hide ParseNode, ParseArray, SkipSpace, At, IsContent, IsSpace, TextOf;
    ArrayTurns(raw, start, offset, acc);
    space := SkippedSpace(raw, offset);
    var at := offset + |space|;
    AtByte(raw, at);
    if raw[at] == CLOSE_BRACKET {
      vs := NoItems;
      assert space + [] + [CLOSE_BRACKET] == space + [CLOSE_BRACKET];
      AtJoin(raw, offset, space, [CLOSE_BRACKET]);
    } else {
      var value := AcceptsOnly(raw, at);
      var (child, end) := ParseNode(raw, at).value;
      var s1 := SkippedSpace(raw, end);
      AtJoin(raw, at, TextOf(value), s1);
      var next := end + |s1|;
      AtByte(raw, next);
      if raw[next] == COMMA {
        var s2, rest := AcceptsItems(raw, start, next + 1, acc + [child]);
        vs := MoreItems(value, s1, s2, rest);
        ListJoins(raw, offset, space, TextOf(value) + s1, s2, TextOfItems(rest), [CLOSE_BRACKET]);
      } else {
        vs := LastItem(value, s1);
        ListEnds(raw, offset, space, TextOf(value) + s1, [CLOSE_BRACKET]);
      }
    }
  }

  /** A message that is not refused starts with text of the grammar; what follows it is not looked at. */
  lemma MessageAccepted(raw: seq<byte>) returns (space: Space, a: Accepted)
    requires ParseRoot(raw).Some?
    ensures At(raw, 0, space + TextOf(a))
  {
    hide ParseNode, SkipSpace, TextOf, IsSpace;
    space := SkippedSpace(raw, 0);
    a := AcceptsOnly(raw, |space|);
    AtJoin(raw, 0, space, TextOf(a));
  }
}
