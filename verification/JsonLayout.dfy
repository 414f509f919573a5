/** JSON text as other programs write it: with white space between the tokens. */
module JsonLayout {
  import opened Bytes
  import opened Decimal
  import opened RequestMessage
  import opened JsonParser
  import JsonStrings

  // ---------------------------------------------------------------- text with white space

  /** Blank, line feed, carriage return and tab (RFC 8259, section 2). */
  predicate IsSpace(s: seq<byte>) {
    forall c <- s :: c == 0x20 || c == 0x0A || c == 0x0D || c == 0x09
  }

  type Space = s: seq<byte> | IsSpace(s)

  /** The text of a string, by the units it is written in. */
  type Units = us: seq<JsonStrings.Unit> | JsonStrings.AllWellFormed(us)

  predicate IsNumber(s: seq<byte>) {
    && s != [] && (s[0] == 0x2D || IsDigit(s[0]))
    && forall c <- s :: IsDigit(c) || c in {0x2B, 0x2D, 0x2E, 0x45, 0x65}
  }

  /** The text of a number: digits, signs, a point, an exponent. */
  type Digits = s: seq<byte> | IsNumber(s) witness [0x30]

  /** A value and the white space inside it. */
  datatype Text =
    | ObjText(open: Space, members: MemberTexts)
    | ArrText(open: Space, items: ItemTexts)
    | StrText(units: Units)
    | NumText(digits: Digits)
    | BoolText(b: bool)
    | NullText

  /**
   * Members with the space behind the name, behind the colon, behind the value and behind the comma that follows unless
   * the member is the last.
   */
  datatype MemberTexts =
    | NoMoreMembers
    | MemberText(key: Units, s1: Space, s2: Space, value: Text, s3: Space, s4: Space, rest: MemberTexts)

  datatype ItemTexts =
    | NoMoreItems
    | ItemText(value: Text, s1: Space, s2: Space, rest: ItemTexts)

  function StringText(units: Units): seq<byte> {
    [QUOTE] + JsonStrings.Text(units) + [QUOTE]
  }

  function Write(v: Text): seq<byte> {
    match v
    case ObjText(open, members) => [OPEN_BRACE] + open + WriteMembers(members) + [CLOSE_BRACE]
    case ArrText(open, items) => [OPEN_BRACKET] + open + WriteItems(items) + [CLOSE_BRACKET]
    case StrText(units) => StringText(units)
    case NumText(digits) => digits
    case BoolText(b) => if b then TRUE_TEXT else FALSE_TEXT
    case NullText => NULL_TEXT
  }

  function WriteMembers(ms: MemberTexts): seq<byte> {
    match ms
    case NoMoreMembers => []
    case MemberText(key, s1, s2, value, s3, s4, rest) =>
      StringText(key) + s1 + [COLON] + s2 + Write(value) + s3
      + (if rest.NoMoreMembers? then [] else [COMMA] + s4 + WriteMembers(rest))
  }

  function WriteItems(vs: ItemTexts): seq<byte> {
    match vs
    case NoMoreItems => []
    case ItemText(value, s1, s2, rest) =>
      Write(value) + s1 + (if rest.NoMoreItems? then [] else [COMMA] + s2 + WriteItems(rest))
  }

  function TagOf(v: Text): seq<byte> {
    match v
    case ObjText(_, _) => OBJECT
    case ArrText(_, _) => ARRAY
    case StrText(_) => STRING
    case NumText(_) => NUMBER
    case BoolText(_) => BOOLEAN
    case NullText => NULL
  }

  // ---------------------------------------------------------------- a tree that stands for a value

  /**
   * The node stands for the value: same shape, decoded names as tags, strings decoding to what they mean, words as they
   * are, and numbers with the white space up to the delimiter, which the parser takes into them.
   */
  ghost predicate StandsFor(raw: seq<byte>, node: Node, v: Text)
    decreases v
  {
    match v
    case ObjText(_, members) => StandForMembers(raw, node.children, members)
    case ArrText(_, items) => StandForItems(raw, node.children, items)
    case StrText(units) => node.children == [] && GetString(raw, node) == Some(JsonStrings.Meaning(units))
    case NumText(digits) =>
      node.children == [] && exists space: Space :: RawContent(raw, node) == Some(digits + space)
    case _ => node.children == [] && RawContent(raw, node) == Some(Write(v))
  }

  ghost predicate StandForMembers(raw: seq<byte>, children: seq<Node>, ms: MemberTexts)
    decreases ms
  {
    match ms
    case NoMoreMembers => children == []
    case MemberText(key, _, _, value, _, _, rest) =>
      && children != [] && children[0].tag == JsonStrings.Meaning(key) && StandsFor(raw, children[0], value)
      && StandForMembers(raw, children[1..], rest)
  }

  ghost predicate StandForItems(raw: seq<byte>, children: seq<Node>, vs: ItemTexts)
    decreases vs
  {
    match vs
    case NoMoreItems => children == []
    case ItemText(value, _, _, rest) =>
      && children != [] && children[0].tag == TagOf(value) && StandsFor(raw, children[0], value)
      && StandForItems(raw, children[1..], rest)
  }

  // ---------------------------------------------------------------- tokens

  lemma {:induction false} SpaceSkips(raw: seq<byte>, at: nat, s: Space)
    requires At(raw, at, s)
    ensures SkipSpace(raw, at) == SkipSpace(raw, at + |s|)
    decreases |s|
  {
    if s != [] {
      assert s == [s[0]] + s[1..] && s[0] in s;
      AtCons(raw, at, s[0], s[1..]);
      assert forall c <- s[1..] :: c in s;
      SpaceSkips(raw, at + 1, s[1..]);
    }
  }

  /** Behind white space the next token is found where it stands. */
  lemma TokenFound(raw: seq<byte>, at: nat, s: Space)
    requires At(raw, at, s) && at + |s| < |raw| && !IsWhiteSpace(raw[at + |s|])
    ensures SkipSpace(raw, at) == Some(at + |s|)
  {
    SpaceSkips(raw, at, s);
  }

  lemma UnitScans(raw: seq<byte>, i: nat, u: JsonStrings.Unit)
    requires JsonStrings.WellFormed(u) && At(raw, i, JsonStrings.UnitText(u))
    requires i + |JsonStrings.UnitText(u)| < |raw|
    ensures ScanString(raw, i) == ScanString(raw, i + |JsonStrings.UnitText(u)|)
  {
    var text := JsonStrings.UnitText(u);
    AtChar(raw, i, text, 0);
    if |text| > 1 {
      AtChar(raw, i, text, 1);
    }
    if |text| > 7 {
      AtChar(raw, i, text, 6);
      AtChar(raw, i, text, 7);
    }
    hide JsonStrings.AllHex, JsonStrings.HexValue;
  }

  lemma {:induction false} UnitsScan(raw: seq<byte>, i: nat, us: Units)
    requires At(raw, i, JsonStrings.Text(us) + [QUOTE])
    ensures ScanString(raw, i) == Some(i + |JsonStrings.Text(us)|)
    decreases |us|
  {
    hide JsonStrings.UnitText, ScanString, JsonStrings.WellFormed;
    AtSplit(raw, i, JsonStrings.Text(us), [QUOTE]);
    if us == [] {
      AtChar(raw, i, [QUOTE], 0);
      QuoteScans(raw, i);
    } else {
      var first, rest := JsonStrings.UnitText(us[0]), JsonStrings.Text(us[1..]);
      assert first + rest + [QUOTE] == first + (rest + [QUOTE]);
      AtSplit(raw, i, first, rest + [QUOTE]);
      UnitsScan(raw, i + |first|, us[1..]);
      UnitScans(raw, i, us[0]);
    }
  }

  lemma StringParses(raw: seq<byte>, at: nat, us: Units)
    requires At(raw, at, StringText(us))
    ensures
      var len := |JsonStrings.Text(us)|;
      && at < |raw| && raw[at] == QUOTE
      && ParseString(raw, at) == Some((Node(STRING, at + 1, len, []), at + |StringText(us)|))
      && JsonStrings.Decoded(raw, at + 1, JsonStrings.Limit(raw, at + 1, len)) == Some(JsonStrings.Meaning(us))
  {
    hide JsonStrings.Text, JsonStrings.Meaning, JsonStrings.Decoded, ScanString, At, JsonStrings.AllWellFormed;
    var inner := JsonStrings.Text(us) + [QUOTE];
    assert StringText(us) == [QUOTE] + inner;
    AtCons(raw, at, QUOTE, inner);
    UnitsScan(raw, at + 1, us);
    AtSplit(raw, at + 1, JsonStrings.Text(us), [QUOTE]);
    Inside(raw, at + 1, JsonStrings.Text(us));
    JsonStrings.DecodesMeaning(raw, at + 1, us);
  }

  lemma Inside(raw: seq<byte>, at: nat, s: seq<byte>)
    requires At(raw, at, s)
    ensures at + |s| <= |raw|
  {
  }

  /** The first character of a written value is no white space and no delimiter. */
  lemma WriteStarts(v: Text)
    ensures Write(v) != [] && !IsWhiteSpace(Write(v)[0]) && !EndsNumber(Write(v)[0])
  {
  }

  lemma DigitStands(digits: Digits, k: nat)
    requires k < |digits|
    ensures !EndsNumber(digits[k])
  {
    assert digits[k] in digits;
  }

  lemma SpaceStands(s: Space, k: nat)
    requires k < |s|
    ensures !EndsNumber(s[k])
  {
    assert s[k] in s;
  }

  /** A number is read up to its delimiter, with the white space in between. */
  lemma NumberStands(raw: seq<byte>, at: nat, digits: Digits, trail: Space)
    requires At(raw, at, digits + trail) && Terminated(raw, at + |digits| + |trail|)
    ensures at < |raw| && ParseNode(raw, at) == Leaf(NUMBER, at, |digits| + |trail|)
    ensures StandsFor(raw, Node(NUMBER, at, |digits| + |trail|, []), NumText(digits))
  {
    assert digits != [];
    hide ParseObject, ParseArray, ParseString, EndsNumber, IsNumber, IsSpace;
    var text := digits + trail;
    var end := at + |text|;
    forall k | at <= k < end
      ensures raw[k] == text[k - at] && !EndsNumber(raw[k])
    {
      AtChar(raw, at, text, k - at);
      if k - at >= |digits| {
        SpaceStands(trail, k - at - |digits|);
      } else {
        DigitStands(digits, k - at);
      }
    }
    DigitsScan(raw, at + 1, end);
    assert raw[at] == digits[0];
    FirstDigit(digits);
    assert RawContent(raw, Node(NUMBER, at, |text|, [])) == Some(digits + trail);
  }

  lemma FirstDigit(digits: Digits)
    ensures digits[0] == 0x2D || IsDigit(digits[0])
  {
  }

  // ---------------------------------------------------------------- turns of the loops

  lemma SameObject(raw: seq<byte>, start: nat, at: nat, to: nat, acc: seq<Node>)
    requires start < at && start < to && SkipSpace(raw, at) == SkipSpace(raw, to)
    ensures ParseObject(raw, start, at, acc) == ParseObject(raw, start, to, acc)
    ensures ParseArray(raw, start, at, acc) == ParseArray(raw, start, to, acc)
  {
    hide ParseMember, ParseNode;
  }

  /** A member that is read, the space behind it, then a comma or the closing brace. */
  lemma MemberRead(raw: seq<byte>, start: nat, at: nat, acc: seq<Node>, child: Node, end: nat, next: nat)
    requires start < at < |raw| && raw[at] == QUOTE && ParseMember(raw, at) == Some((child, end))
    requires SkipSpace(raw, end) == Some(next)
    ensures raw[next] == COMMA ==> ParseObject(raw, start, at, acc) == ParseObject(raw, start, next + 1, acc + [child])
    ensures raw[next] == CLOSE_BRACE ==>
              ParseObject(raw, start, at, acc) == ParseObject(raw, start, next, acc + [child])
  {
    hide ParseMember;
    NoSpace(raw, at);
  }

  lemma ItemRead(raw: seq<byte>, start: nat, at: nat, acc: seq<Node>, child: Node, end: nat, next: nat)
    requires start < at < |raw| && raw[at] != CLOSE_BRACKET && !IsWhiteSpace(raw[at])
    requires ParseNode(raw, at) == Some((child, end)) && SkipSpace(raw, end) == Some(next)
    ensures raw[next] == COMMA ==> ParseArray(raw, start, at, acc) == ParseArray(raw, start, next + 1, acc + [child])
    ensures raw[next] == CLOSE_BRACKET ==>
              ParseArray(raw, start, at, acc) == ParseArray(raw, start, next, acc + [child])
  {
    hide ParseNode;
    NoSpace(raw, at);
  }

  /** A member: its name, a colon and its value, with space around the colon. */
  lemma NamedValue(raw: seq<byte>, at: nat, key: Units, s1: Space, s2: Space, value: Node, end: nat)
    requires At(raw, at, StringText(key)) && At(raw, at + |StringText(key)|, s1)
    requires At(raw, at + |StringText(key)| + |s1|, [COLON]) && At(raw, at + |StringText(key)| + |s1| + 1, s2)
    requires
      var start := at + |StringText(key)| + |s1| + 1 + |s2|;
      start < |raw| && !IsWhiteSpace(raw[start]) && ParseNode(raw, start) == Some((value, end))
    ensures at < |raw| && raw[at] == QUOTE
    ensures ParseMember(raw, at) == Some((value.(tag := JsonStrings.Meaning(key)), end))
  {
    hide ParseNode, ParseMember, ParseString, StringText, JsonStrings.Decoded, IsSpace, SkipSpace, JsonStrings.Meaning,
         At, IsWhiteSpace, JsonStrings.Limit, JsonStrings.Text, JsonStrings.AllWellFormed;
    assert !IsWhiteSpace(COLON) by { Delimiters(); }
    StringParses(raw, at, key);
    var colon := at + |StringText(key)| + |s1|;
    AtChar(raw, colon, [COLON], 0);
    TokenFound(raw, at + |StringText(key)|, s1);
    TokenFound(raw, colon + 1, s2);
    var name := Node(STRING, at + 1, |JsonStrings.Text(key)|, []);
    NamedAt(raw, at, name, at + |StringText(key)|, colon, colon + 1 + |s2|, JsonStrings.Meaning(key), value, end);
  }

  lemma NamedAt(raw: seq<byte>, at: nat, name: Node, behind: nat, colon: nat, start: nat, key: seq<byte>, value: Node,
                end: nat)
    requires at < |raw| && ParseString(raw, at) == Some((name, behind)) && SkipSpace(raw, behind) == Some(colon)
    requires raw[colon] == COLON && SkipSpace(raw, colon + 1) == Some(start)
    requires ParseNode(raw, start) == Some((value, end))
    requires JsonStrings.Decoded(raw, name.offset, JsonStrings.Limit(raw, name.offset, name.len)) == Some(key)
    ensures ParseMember(raw, at) == Some((value.(tag := key), end))
  {
    hide ParseNode, ParseString, SkipSpace, JsonStrings.Decoded;
  }

  lemma Retagged(raw: seq<byte>, node: Node, v: Text, tag: seq<byte>)
    requires StandsFor(raw, node, v)
    ensures StandsFor(raw, node.(tag := tag), v)
  {
    assert RawContent(raw, node.(tag := tag)) == RawContent(raw, node);
    assert GetString(raw, node.(tag := tag)) == GetString(raw, node);
    hide RawContent, GetString, StandForMembers, StandForItems;
  }

  // ---------------------------------------------------------------- parsing what is written

  lemma WordStands(raw: seq<byte>, at: nat, v: Text)
    requires (v.BoolText? || v.NullText?) && At(raw, at, Write(v))
    ensures at < |raw| && ParseNode(raw, at) == Leaf(TagOf(v), at, |Write(v)|)
    ensures StandsFor(raw, Node(TagOf(v), at, |Write(v)|, []), v)
  {
    hide ParseObject, ParseArray, ParseString, ScanNumber, At;
    WordStarts(raw, at);
    match v
    case BoolText(b) =>
      assert Write(v) == if b then TRUE_TEXT else FALSE_TEXT;
      WordContent(raw, at, Write(v), BOOLEAN);
    case NullText =>
      assert Write(v) == NULL_TEXT;
      WordContent(raw, at, Write(v), NULL);
  }

  lemma WordContent(raw: seq<byte>, at: nat, word: seq<byte>, tag: seq<byte>)
    requires At(raw, at, word)
    ensures RawContent(raw, Node(tag, at, |word|, [])) == Some(word)
  {
  }

  /** Where the parser is behind a value: a number takes the space up to the delimiter with it. */
  function Behind(v: Text, at: nat, trail: Space): nat {
    at + |Write(v)| + if v.NumText? then |trail| else 0
  }

  /**
   * Wherever a value is written, with any white space between its tokens and behind it, the parser returns a tree that
   * stands for it and the offset behind it. A number must be followed, behind the space, by a delimiter or the end.
   */
  lemma {:induction false} ParseWritten(raw: seq<byte>, at: nat, v: Text, trail: Space) returns (node: Node)
    requires At(raw, at, Write(v) + trail)
    requires v.NumText? ==> Terminated(raw, at + |Write(v)| + |trail|)
    ensures at < |raw| && ParseNode(raw, at) == Some((node, Behind(v, at, trail)))
    ensures node.tag == TagOf(v) && StandsFor(raw, node, v)
    decreases v, 0
  {
    hide ParseNode, ParseObject, ParseArray, ParseString, IsSpace, IsNumber, At, StringText, StandsFor,
         JsonStrings.Meaning, JsonStrings.AllWellFormed, WriteMembers, WriteItems, Terminated;
    AtSplit(raw, at, Write(v), trail);
    match v
    case ObjText(open, members) =>
      Opened(raw, at, OPEN_BRACE, open, WriteMembers(members), CLOSE_BRACE);
      var kids := ParseWrittenMembers(raw, at, at + 1 + |open|, members, []);
      node := Node(OBJECT, at, |Write(v)| - 1, kids);
      ObjectStands(raw, at, open, members, kids);
    case ArrText(open, items) =>
      Opened(raw, at, OPEN_BRACKET, open, WriteItems(items), CLOSE_BRACKET);
      var kids := ParseWrittenItems(raw, at, at + 1 + |open|, items, []);
      node := Node(ARRAY, at, |Write(v)| - 1, kids);
      ArrayStands(raw, at, open, items, kids);
    case StrText(units) =>
      StringStands(raw, at, units);
      node := Node(STRING, at + 1, |JsonStrings.Text(units)|, []);
    case NumText(digits) =>
      NumberStands(raw, at, digits, trail);
      node := Node(NUMBER, at, |digits| + |trail|, []);
    case _ =>
      WordStands(raw, at, v);
      node := Node(TagOf(v), at, |Write(v)|, []);
  }

  lemma StringStands(raw: seq<byte>, at: nat, us: Units)
    requires At(raw, at, StringText(us))
    ensures
      var node := Node(STRING, at + 1, |JsonStrings.Text(us)|, []);
      && at < |raw| && ParseNode(raw, at) == Some((node, at + |StringText(us)|)) && StandsFor(raw, node, StrText(us))
  {
    hide StringText, JsonStrings.Text, JsonStrings.Meaning, JsonStrings.Decoded, ParseString, ParseNode;
    StringParses(raw, at, us);
    ObjectStarts(raw, at);
  }

  /** Behind an opening character stand space and the list. */
  lemma Opened(raw: seq<byte>, at: nat, open: byte, space: Space, list: seq<byte>, close: byte)
    requires At(raw, at, [open] + space + list + [close])
    ensures at < |raw| && raw[at] == open && At(raw, at + 1, space) && At(raw, at + 1 + |space|, list + [close])
  {
    assert [open] + space + list + [close] == [open] + (space + (list + [close]));
    AtCons(raw, at, open, space + (list + [close]));
    AtSplit(raw, at + 1, space, list + [close]);
  }

  lemma ObjectStands(raw: seq<byte>, at: nat, open: Space, members: MemberTexts, kids: seq<Node>)
    requires at < |raw| && raw[at] == OPEN_BRACE && At(raw, at + 1, open) && StandForMembers(raw, kids, members)
    requires
      var end := at + 1 + |open| + |WriteMembers(members)|;
      ParseObject(raw, at, at + 1 + |open|, []) == Some((Node(OBJECT, at, end - at, [] + kids), end + 1))
    ensures
      var v := ObjText(open, members);
      var node := Node(OBJECT, at, |Write(v)| - 1, kids);
      ParseNode(raw, at) == Some((node, at + |Write(v)|)) && StandsFor(raw, node, v)
  {
    hide ParseNode, ParseObject, IsSpace, SkipSpace, WriteMembers, StandForMembers, At;
    SpaceSkips(raw, at + 1, open);
    SameObject(raw, at, at + 1, at + 1 + |open|, []);
    ObjectStarts(raw, at);
    assert [] + kids == kids;
  }

  lemma ArrayStands(raw: seq<byte>, at: nat, open: Space, items: ItemTexts, kids: seq<Node>)
    requires at < |raw| && raw[at] == OPEN_BRACKET && At(raw, at + 1, open) && StandForItems(raw, kids, items)
    requires
      var end := at + 1 + |open| + |WriteItems(items)|;
      ParseArray(raw, at, at + 1 + |open|, []) == Some((Node(ARRAY, at, end - at, [] + kids), end + 1))
    ensures
      var v := ArrText(open, items);
      var node := Node(ARRAY, at, |Write(v)| - 1, kids);
      ParseNode(raw, at) == Some((node, at + |Write(v)|)) && StandsFor(raw, node, v)
  {
    hide ParseNode, ParseArray, IsSpace, SkipSpace, WriteItems, StandForItems, At;
    SpaceSkips(raw, at + 1, open);
    SameObject(raw, at, at + 1, at + 1 + |open|, []);
    ObjectStarts(raw, at);
    assert [] + kids == kids;
  }

  /** What follows a value in a list: space, then a comma with more, or the closing character. */
  lemma ListSplit(raw: seq<byte>, at: nat, value: seq<byte>, space: Space, tail: seq<byte>, close: byte)
    requires At(raw, at, value + space + tail + [close])
    ensures At(raw, at, value + space) && At(raw, at + |value| + |space|, tail + [close])
    ensures At(raw, at + |value|, space)
  {
    assert value + space + tail + [close] == (value + space) + (tail + [close]);
    AtSplit(raw, at, value + space, tail + [close]);
    AtSplit(raw, at, value, space);
  }

  /** A list goes on with a comma and space, or ends. */
  lemma ListGoesOn(raw: seq<byte>, at: nat, last: bool, space: Space, more: seq<byte>, close: byte)
    requires At(raw, at, (if last then [] else [COMMA] + space + more) + [close])
    ensures at < |raw| && raw[at] == if last then close else COMMA
    ensures !last ==> At(raw, at + 1, space) && At(raw, at + 1 + |space|, more + [close])
  {
    if last {
      assert [] + [close] == [close];
      AtChar(raw, at, [close], 0);
    } else {
      assert [COMMA] + space + more + [close] == [COMMA] + (space + (more + [close]));
      AtCons(raw, at, COMMA, space + (more + [close]));
      AtSplit(raw, at + 1, space, more + [close]);
    }
  }

  /** Behind a value and its space stands the next token. */
  lemma NextToken(raw: seq<byte>, at: nat, v: Text, space: Space)
    requires At(raw, at + |Write(v)|, space)
    requires at + |Write(v)| + |space| < |raw| && !IsWhiteSpace(raw[at + |Write(v)| + |space|])
    ensures SkipSpace(raw, Behind(v, at, space)) == Some(at + |Write(v)| + |space|)
  {
    hide Write, SkipSpace;
    TokenFound(raw, at + |Write(v)|, space);
    NoSpace(raw, at + |Write(v)| + |space|);
  }

  lemma {:induction false} ParseWrittenMembers(raw: seq<byte>, start: nat, at: nat, ms: MemberTexts, acc: seq<Node>)
    returns (kids: seq<Node>)
    requires start < at && At(raw, at, WriteMembers(ms) + [CLOSE_BRACE])
    ensures
      var end := at + |WriteMembers(ms)|;
      ParseObject(raw, start, at, acc) == Some((Node(OBJECT, start, end - start, acc + kids), end + 1))
    ensures StandForMembers(raw, kids, ms)
    decreases ms, 2
  {
    hide ParseMember, ParseObject, StringText, Write, StandsFor, At, IsSpace, JsonStrings.Meaning, SkipSpace,
         JsonStrings.AllWellFormed, IsWhiteSpace, MoreMembers;
    if ms.NoMoreMembers? {
      assert [] + [CLOSE_BRACE] == [CLOSE_BRACE];
      AtChar(raw, at, [CLOSE_BRACE], 0);
      ObjectEnd(raw, start, at, acc);
      kids := [];
      assert acc + [] == acc;
    } else {
      var child, end, next := ParseWrittenMember(raw, at, ms);
      var last, space := ms.rest.NoMoreMembers?, ms.s4;
      hide WriteMembers;
      MembersGoOn(raw, next, ms);
      MemberRead(raw, start, at, acc, child, end, next);
      if last {
        ObjectEnd(raw, start, next, acc + [child]);
        kids := [child];
      } else {
        SpaceSkips(raw, next + 1, space);
        SameObject(raw, start, next + 1, next + 1 + |space|, acc + [child]);
        var others := ParseWrittenMembers(raw, start, next + 1 + |space|, ms.rest, acc + [child]);
        kids := [child] + others;
        assert acc + [child] + others == acc + kids;
      }
    }
  }

  /** The text behind the value of a member. */
  function MoreMembers(ms: MemberTexts): seq<byte>
    requires ms.MemberText?
  {
    if ms.rest.NoMoreMembers? then [] else [COMMA] + ms.s4 + WriteMembers(ms.rest)
  }

  lemma MembersGoOn(raw: seq<byte>, at: nat, ms: MemberTexts)
    requires ms.MemberText? && At(raw, at, MoreMembers(ms) + [CLOSE_BRACE])
    ensures at < |raw| && raw[at] == if ms.rest.NoMoreMembers? then CLOSE_BRACE else COMMA
    ensures ms.rest.NoMoreMembers? ==> |MoreMembers(ms)| == 0
    ensures ms.rest.MemberText? ==>
              && At(raw, at + 1, ms.s4) && At(raw, at + 1 + |ms.s4|, WriteMembers(ms.rest) + [CLOSE_BRACE])
              && |MoreMembers(ms)| == 1 + |ms.s4| + |WriteMembers(ms.rest)|
  {
    hide WriteMembers, At;
    ListGoesOn(raw, at, ms.rest.NoMoreMembers?, ms.s4, WriteMembers(ms.rest), CLOSE_BRACE);
  }

  /** The parts of a member and the list behind it. */
  lemma MemberSplit(raw: seq<byte>, at: nat, ms: MemberTexts)
    requires ms.MemberText? && At(raw, at, WriteMembers(ms) + [CLOSE_BRACE])
    ensures
      var name := |StringText(ms.key)|;
      var start := at + name + |ms.s1| + 1 + |ms.s2|;
      var next := start + |Write(ms.value)| + |ms.s3|;
      && At(raw, at, StringText(ms.key)) && At(raw, at + name, ms.s1)
      && At(raw, at + name + |ms.s1|, [COLON]) && At(raw, at + name + |ms.s1| + 1, ms.s2)
      && At(raw, start, Write(ms.value) + ms.s3) && At(raw, start + |Write(ms.value)|, ms.s3)
      && At(raw, next, MoreMembers(ms) + [CLOSE_BRACE])
      && next + |MoreMembers(ms)| == at + |WriteMembers(ms)|
  {
    hide StringText, Write, At, IsSpace, JsonStrings.AllWellFormed;
    var name, value, more := StringText(ms.key), Write(ms.value), MoreMembers(ms);
    var part := value + ms.s3 + more + [CLOSE_BRACE];
    assert WriteMembers(ms) + [CLOSE_BRACE] == name + (ms.s1 + ([COLON] + (ms.s2 + part)));
    AtSplit(raw, at, name, ms.s1 + ([COLON] + (ms.s2 + part)));
    AtSplit(raw, at + |name|, ms.s1, [COLON] + (ms.s2 + part));
    AtSplit(raw, at + |name| + |ms.s1|, [COLON], ms.s2 + part);
    AtSplit(raw, at + |name| + |ms.s1| + 1, ms.s2, part);
    ListSplit(raw, at + |name| + |ms.s1| + 1 + |ms.s2|, value, ms.s3, more, CLOSE_BRACE);
  }

  lemma {:induction false} ParseWrittenMember(raw: seq<byte>, at: nat, ms: MemberTexts)
    returns (child: Node, end: nat, next: nat)
    requires ms.MemberText? && At(raw, at, WriteMembers(ms) + [CLOSE_BRACE])
    ensures at < |raw| && raw[at] == QUOTE
    ensures ParseMember(raw, at) == Some((child, end)) && SkipSpace(raw, end) == Some(next)
    ensures child.tag == JsonStrings.Meaning(ms.key) && StandsFor(raw, child, ms.value)
    ensures At(raw, next, MoreMembers(ms) + [CLOSE_BRACE]) && next + |MoreMembers(ms)| == at + |WriteMembers(ms)|
    decreases ms, 1
  {
    hide ParseMember, ParseNode, StringText, Write, WriteMembers, StandsFor, At, IsSpace, JsonStrings.Meaning,
         SkipSpace, JsonStrings.AllWellFormed, IsWhiteSpace, EndsNumber, MoreMembers;
    MemberSplit(raw, at, ms);
    var start := at + |StringText(ms.key)| + |ms.s1| + 1 + |ms.s2|;
    next := start + |Write(ms.value)| + |ms.s3|;
    MembersGoOn(raw, next, ms);
    Delimiters();
    end := Behind(ms.value, start, ms.s3);
    NextToken(raw, start, ms.value, ms.s3);
    var node := ParseWritten(raw, start, ms.value, ms.s3);
    child := node.(tag := JsonStrings.Meaning(ms.key));
    hide Behind;
    FirstOf(raw, start, ms.value, ms.s3);
    NamedValue(raw, at, ms.key, ms.s1, ms.s2, node, end);
    Retagged(raw, node, ms.value, child.tag);
  }

  lemma FirstOf(raw: seq<byte>, at: nat, v: Text, trail: Space)
    requires At(raw, at, Write(v) + trail)
    ensures at < |raw| && !IsWhiteSpace(raw[at]) && !EndsNumber(raw[at])
  {
    WriteStarts(v);
    hide Write, IsWhiteSpace, IsSpace, EndsNumber;
    AtChar(raw, at, Write(v) + trail, 0);
  }

  lemma {:induction false} ParseWrittenItems(raw: seq<byte>, start: nat, at: nat, vs: ItemTexts, acc: seq<Node>)
    returns (kids: seq<Node>)
    requires start < at && At(raw, at, WriteItems(vs) + [CLOSE_BRACKET])
    ensures
      var end := at + |WriteItems(vs)|;
      ParseArray(raw, start, at, acc) == Some((Node(ARRAY, start, end - start, acc + kids), end + 1))
    ensures StandForItems(raw, kids, vs)
    decreases vs, 2
  {
    hide ParseNode, ParseArray, Write, StandsFor, At, IsSpace, SkipSpace, IsWhiteSpace, EndsNumber, MoreItems;
    if vs.NoMoreItems? {
      assert [] + [CLOSE_BRACKET] == [CLOSE_BRACKET];
      AtChar(raw, at, [CLOSE_BRACKET], 0);
      ArrayEnd(raw, start, at, acc);
      kids := [];
      assert acc + [] == acc;
    } else {
      var next := at + |Write(vs.value)| + |vs.s1|;
      ItemSplit(raw, at, vs);
      ItemsGoOn(raw, next, vs);
      hide WriteItems;
      Delimiters();
      NextToken(raw, at, vs.value, vs.s1);
      var child := ParseWritten(raw, at, vs.value, vs.s1);
      FirstOf(raw, at, vs.value, vs.s1);
      ItemRead(raw, start, at, acc, child, Behind(vs.value, at, vs.s1), next);
      if vs.rest.NoMoreItems? {
        ArrayEnd(raw, start, next, acc + [child]);
        kids := [child];
      } else {
        SpaceSkips(raw, next + 1, vs.s2);
        SameObject(raw, start, next + 1, next + 1 + |vs.s2|, acc + [child]);
        var others := ParseWrittenItems(raw, start, next + 1 + |vs.s2|, vs.rest, acc + [child]);
        kids := [child] + others;
        assert acc + [child] + others == acc + kids;
      }
    }
  }

  /** The text behind an item. */
  function MoreItems(vs: ItemTexts): seq<byte>
    requires vs.ItemText?
  {
    if vs.rest.NoMoreItems? then [] else [COMMA] + vs.s2 + WriteItems(vs.rest)
  }

  lemma ItemSplit(raw: seq<byte>, at: nat, vs: ItemTexts)
    requires vs.ItemText? && At(raw, at, WriteItems(vs) + [CLOSE_BRACKET])
    ensures At(raw, at, Write(vs.value) + vs.s1) && At(raw, at + |Write(vs.value)|, vs.s1)
    ensures At(raw, at + |Write(vs.value)| + |vs.s1|, MoreItems(vs) + [CLOSE_BRACKET])
    ensures |WriteItems(vs)| == |Write(vs.value)| + |vs.s1| + |MoreItems(vs)|
  {
    hide Write, At, IsSpace;
    assert WriteItems(vs) + [CLOSE_BRACKET] == Write(vs.value) + vs.s1 + MoreItems(vs) + [CLOSE_BRACKET];
    ListSplit(raw, at, Write(vs.value), vs.s1, MoreItems(vs), CLOSE_BRACKET);
  }

  lemma ItemsGoOn(raw: seq<byte>, at: nat, vs: ItemTexts)
    requires vs.ItemText? && At(raw, at, MoreItems(vs) + [CLOSE_BRACKET])
    ensures at < |raw| && raw[at] == if vs.rest.NoMoreItems? then CLOSE_BRACKET else COMMA
    ensures vs.rest.NoMoreItems? ==> |MoreItems(vs)| == 0
    ensures vs.rest.ItemText? ==>
              && At(raw, at + 1, vs.s2) && At(raw, at + 1 + |vs.s2|, WriteItems(vs.rest) + [CLOSE_BRACKET])
              && |MoreItems(vs)| == 1 + |vs.s2| + |WriteItems(vs.rest)|
  {
    hide WriteItems, At;
    ListGoesOn(raw, at, vs.rest.NoMoreItems?, vs.s2, WriteItems(vs.rest), CLOSE_BRACKET);
  }

  lemma Delimiters()
    ensures !IsWhiteSpace(COMMA) && !IsWhiteSpace(CLOSE_BRACE) && !IsWhiteSpace(CLOSE_BRACKET) && !IsWhiteSpace(COLON)
    ensures EndsNumber(COMMA) && EndsNumber(CLOSE_BRACE) && EndsNumber(CLOSE_BRACKET)
  {
  }

  /** A message with white space around and inside it is read as the value it is meant to be. */
  lemma RootStandsFor(lead: Space, v: Text, trail: Space)
    ensures
      var raw := lead + Write(v) + trail;
      && ParseRoot(raw).Some?
      && ParseRoot(raw).value.tag == TagOf(v) && StandsFor(raw, ParseRoot(raw).value, v)
  {
    hide ParseNode, Write, StandsFor, SkipSpace, IsSpace, IsWhiteSpace, EndsNumber;
    var raw := lead + Write(v) + trail;
    var at := |lead|;
    assert At(raw, 0, lead) && At(raw, at, Write(v) + trail);
    FirstOf(raw, at, v, trail);
    TokenFound(raw, 0, lead);
    var node := ParseWritten(raw, at, v, trail);
  }

  /** An integer is read as it was, exactly when it is within 32 bits; a string is read as what it means. */
  lemma LeafMeans(raw: seq<byte>, node: Node, v: Text, n: int)
    requires StandsFor(raw, node, v)
    ensures v.StrText? ==> GetString(raw, node) == Some(JsonStrings.Meaning(v.units))
    ensures v.NumText? && v.digits == Itos(n) ==>
              && RawContent(raw, node).Some?
              && (IntOf(RawContent(raw, node).value) == n <==> -INT_MAX - 1 <= n <= INT_MAX)
  {
    hide JsonStrings.Meaning, GetString;
    if v.NumText? && v.digits == Itos(n) {
      var space: Space :| RawContent(raw, node) == Some(Itos(n) + space);
      SpaceIsNoDigit(space);
      AtollStops(n, space);
    }
  }

  lemma SpaceIsNoDigit(space: Space)
    ensures space == [] || !IsDigit(space[0])
  {
    assert space != [] ==> space[0] in space;
  }

  function Names(ms: MemberTexts): seq<seq<byte>> {
    match ms
    case NoMoreMembers => []
    case MemberText(key, _, _, _, _, _, rest) => [JsonStrings.Meaning(key)] + Names(rest)
  }

  function ValueAt(ms: MemberTexts, i: nat): Text
    requires i < |Names(ms)|
  {
    if i == 0 then ms.value else ValueAt(ms.rest, i - 1)
  }

  lemma {:induction false} MembersStand(raw: seq<byte>, children: seq<Node>, ms: MemberTexts)
    requires StandForMembers(raw, children, ms)
    ensures |children| == |Names(ms)|
    ensures forall i :: 0 <= i < |children| ==>
              children[i].tag == Names(ms)[i] && StandsFor(raw, children[i], ValueAt(ms, i))
    decreases ms
  {
    hide StandsFor, JsonStrings.Meaning;
    if ms.MemberText? {
      MembersStand(raw, children[1..], ms.rest);
      forall i | 0 <= i < |children|
        ensures children[i].tag == Names(ms)[i] && StandsFor(raw, children[i], ValueAt(ms, i))
      {
        if i > 0 {
          assert children[1..][i - 1] == children[i];
        }
      }
    }
  }

  /** Of an object whose names differ in what they mean every member is found by name, and stands for its value. */
  lemma MemberFound(raw: seq<byte>, node: Node, open: Space, ms: MemberTexts, i: nat)
    requires StandsFor(raw, node, ObjText(open, ms)) && i < |Names(ms)|
    requires forall j, k :: 0 <= j < k < |Names(ms)| ==> Names(ms)[j] != Names(ms)[k]
    ensures Names(ms)[i] in LastByTag(node.children) && ChildNamed(node.children, Names(ms)[i]).Some?
    ensures LastByTag(node.children)[Names(ms)[i]] == ChildNamed(node.children, Names(ms)[i]).value
    ensures StandsFor(raw, LastByTag(node.children)[Names(ms)[i]], ValueAt(ms, i))
  {
    assert StandForMembers(raw, node.children, ms);
    MembersStand(raw, node.children, ms);
    DistinctMembers(node.children);
    hide StandsFor, LastByTag, StandForMembers;
    assert node.children[i].tag == Names(ms)[i];
    var found := ChildNamed(node.children, Names(ms)[i]);
    var j :| 0 <= j < |node.children| && node.children[j] == found.value && found.value.tag == Names(ms)[i];
    assert j == i;
  }
}
