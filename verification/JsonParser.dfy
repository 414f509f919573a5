/** The recursive-descent JSON parser over offsets into one raw string, and its writer. */
module JsonParser {
  import opened Bytes
  import JsonStrings
  import opened Decimal
  import opened RequestMessage

  /** A node and the offset behind it; None is the bad request exception. */
  type Parsed = Option<(Node, nat)>

  const OBJECT := Ascii("object")
  const ARRAY := Ascii("array")
  const STRING := Ascii("string")
  const NUMBER := Ascii("number")
  const BOOLEAN := Ascii("boolean")
  const NULL := Ascii("null")

  const TRUE_TEXT: seq<byte> := [0x74, 0x72, 0x75, 0x65]
  const FALSE_TEXT: seq<byte> := [0x66, 0x61, 0x6C, 0x73, 0x65]
  const NULL_TEXT: seq<byte> := [0x6E, 0x75, 0x6C, 0x6C]

  const OPEN_BRACE: byte := 0x7B
  const CLOSE_BRACE: byte := 0x7D
  const OPEN_BRACKET: byte := 0x5B
  const CLOSE_BRACKET: byte := 0x5D
  const COLON: byte := 0x3A
  const COMMA: byte := 0x2C
  const QUOTE: byte := 0x22
  const BACKSLASH: byte := 0x5C

  // ---------------------------------------------------------------- the grammar the parser accepts

  predicate IsWhiteSpace(c: byte) { c == 0x20 || c == 0x0A || c == 0x0D || c == 0x09 }

  /** The next position that is not white space; None when the message ends first. */
  function SkipSpace(raw: seq<byte>, offset: nat): (r: Option<nat>)
    ensures r.Some? ==> offset <= r.value < |raw|
    decreases |raw| - offset
  {
    if offset >= |raw| then None
    else if IsWhiteSpace(raw[offset]) then SkipSpace(raw, offset + 1)
    else Some(offset)
  }

  /** Position of the closing quote of a string whose content starts at or before `offset`. */
  function ScanString(raw: seq<byte>, offset: nat): (r: Option<nat>)
    ensures r.Some? ==> offset <= r.value < |raw|
    decreases |raw| - offset
  {
    if offset >= |raw| then None
    else if raw[offset] == BACKSLASH then
      if offset + 1 >= |raw| then None
      else if raw[offset + 1] == JsonStrings.LOWER_U && offset + 1 + 4 < |raw| then ScanString(raw, offset + 6)
      else ScanString(raw, offset + 2)
    else if raw[offset] == QUOTE then Some(offset)
    else ScanString(raw, offset + 1)
  }

  function ParseString(raw: seq<byte>, start: nat): (r: Parsed)
    requires start < |raw|
    ensures r.Some? ==> start < r.value.1 <= |raw| && r.value.0.offset + r.value.0.len <= |raw|
  {
    match ScanString(raw, start + 1)
    case None => None
    case Some(end) => Some((Node(STRING, start + 1, end - (start + 1), []), end + 1))
  }

  predicate EndsNumber(c: byte) { c == COMMA || c == CLOSE_BRACE || c == CLOSE_BRACKET }

  function ScanNumber(raw: seq<byte>, offset: nat): (end: nat)
    requires offset <= |raw|
    ensures offset <= end <= |raw|
    decreases |raw| - offset
  {
    if offset == |raw| || EndsNumber(raw[offset]) then offset else ScanNumber(raw, offset + 1)
  }

  predicate IsDigit(c: byte) { 0x30 <= c <= 0x39 }

  function Leaf(tag: seq<byte>, start: nat, len: nat): Parsed { Some((Node(tag, start, len, []), start + len)) }

  function ParseNode(raw: seq<byte>, start: nat): (r: Parsed)
    requires start < |raw|
    ensures r.Some? ==> start < r.value.1 <= |raw|
    decreases |raw| - start, 0
  {
    var c := raw[start];
    if c == OPEN_BRACE then ParseObject(raw, start, start + 1, [])
    else if c == OPEN_BRACKET then ParseArray(raw, start, start + 1, [])
    else if c == QUOTE then ParseString(raw, start)
    else if c == 0x2D || IsDigit(c) then Leaf(NUMBER, start, ScanNumber(raw, start + 1) - start)
    else if At(raw, start, TRUE_TEXT) then Leaf(BOOLEAN, start, 4)
    else if At(raw, start, FALSE_TEXT) then Leaf(BOOLEAN, start, 5)
    else if At(raw, start, NULL_TEXT) then Leaf(NULL, start, 4)
    else None
  }

  /** The loop over the members of the object that starts at `start`. */
  function ParseObject(raw: seq<byte>, start: nat, offset: nat, children: seq<Node>): (r: Parsed)
    requires start < offset
    ensures r.Some? ==> start < r.value.1 <= |raw|
    decreases |raw| - offset, 1
  {
    if SkipSpace(raw, offset).None? then None
    else
      var at := SkipSpace(raw, offset).value;
      if raw[at] == CLOSE_BRACE then Some((Node(OBJECT, start, at - start, children), at + 1))
      else if raw[at] != QUOTE then None
      else match ParseMember(raw, at)
        case None => None
        case Some((child, end)) =>
          if SkipSpace(raw, end).None? then None
          else
            var next := SkipSpace(raw, end).value;
            if raw[next] == COMMA then ParseObject(raw, start, next + 1, children + [child])
            else if raw[next] == CLOSE_BRACE then ParseObject(raw, start, next, children + [child])
            else None
  }

  /** A member whose name starts at `at`: the value's node, tagged with the decoded name. */
  function ParseMember(raw: seq<byte>, at: nat): (r: Parsed)
    requires at < |raw|
    ensures r.Some? ==> at < r.value.1 <= |raw|
    decreases |raw| - at, 0
  {
    match ParseString(raw, at)
    case None => None
    case Some((name, end)) =>
      if SkipSpace(raw, end).None? then None
      else
        var colon := SkipSpace(raw, end).value;
        if raw[colon] != COLON || SkipSpace(raw, colon + 1).None? then None
        else
          var start := SkipSpace(raw, colon + 1).value;
          match ParseNode(raw, start)
          case None => None
          case Some((value, behind)) =>
            var key := JsonStrings.Decoded(raw, name.offset, JsonStrings.Limit(raw, name.offset, name.len));
            if key.None? then None else Some((value.(tag := key.value), behind))
  }

  function ParseArray(raw: seq<byte>, start: nat, offset: nat, children: seq<Node>): (r: Parsed)
    requires start < offset
    ensures r.Some? ==> start < r.value.1 <= |raw|
    decreases |raw| - offset, 1
  {
    if SkipSpace(raw, offset).None? then None
    else
      var at := SkipSpace(raw, offset).value;
      if raw[at] == CLOSE_BRACKET then Some((Node(ARRAY, start, at - start, children), at + 1))
      else match ParseNode(raw, at)
        case None => None
        case Some((child, end)) =>
          if SkipSpace(raw, end).None? then None
          else
            var next := SkipSpace(raw, end).value;
            if raw[next] == COMMA then ParseArray(raw, start, next + 1, children + [child])
            else if raw[next] == CLOSE_BRACKET then ParseArray(raw, start, next, children + [child])
            else None
  }

  /** The root node of a message. */
  function ParseRoot(raw: seq<byte>): Option<Node> {
    if SkipSpace(raw, 0).None? then None
    else match ParseNode(raw, SkipSpace(raw, 0).value)
      case None => None
      case Some((root, _)) => Some(root)
  }

  /** The text of a node, decoded; a node with children has a fixed text. */
  function GetString(raw: seq<byte>, node: Node): Option<seq<byte>> {
    if node.children != [] then Some(Ascii("Object/Array"))
    else JsonStrings.Decoded(raw, node.offset, JsonStrings.Limit(raw, node.offset, node.len))
  }

  // ---------------------------------------------------------------- values and the compact writer

  datatype Value =
    | Obj(members: Members)
    | Arr(items: Items)
    | Str(text: seq<byte>)
    | Num(n: int)
    | Bool(b: bool)
    | Null

  datatype Members = NoMember | Member(key: seq<byte>, value: Value, rest: Members)

  datatype Items = NoItem | Item(value: Value, rest: Items)

  function Quoted(text: seq<byte>): seq<byte> { [QUOTE] + JsonStrings.Encoded(text) + [QUOTE] }

  function Print(v: Value): seq<byte> {
    match v
    case Obj(members) => [OPEN_BRACE] + PrintMembers(members) + [CLOSE_BRACE]
    case Arr(items) => [OPEN_BRACKET] + PrintItems(items) + [CLOSE_BRACKET]
    case Str(text) => Quoted(text)
    case Num(n) => Itos(n)
    case Bool(b) => if b then TRUE_TEXT else FALSE_TEXT
    case Null => NULL_TEXT
  }

  function PrintMembers(ms: Members): seq<byte> {
    match ms
    case NoMember => []
    case Member(key, value, rest) =>
      (Quoted(key) + [COLON] + Print(value)) + (if rest.NoMember? then [] else [COMMA] + PrintMembers(rest))
  }

  function PrintItems(vs: Items): seq<byte> {
    match vs
    case NoItem => []
    case Item(value, rest) => Print(value) + (if rest.NoItem? then [] else [COMMA] + PrintItems(rest))
  }

  // ---------------------------------------------------------------- the tree a printed value must give

  function TypeTag(v: Value): seq<byte> {
    match v
    case Obj(_) => OBJECT
    case Arr(_) => ARRAY
    case Str(_) => STRING
    case Num(_) => NUMBER
    case Bool(_) => BOOLEAN
    case Null => NULL
  }

  /** The node of `v` printed at offset `at`, under the name `tag`. */
  function Tree(v: Value, at: nat, tag: seq<byte>): Node {
    match v
    case Obj(members) => Node(tag, at, 1 + |PrintMembers(members)|, MemberTrees(members, at + 1))
    case Arr(items) => Node(tag, at, 1 + |PrintItems(items)|, ItemTrees(items, at + 1))
    case Str(text) => Node(tag, at + 1, |JsonStrings.Encoded(text)|, [])
    case _ => Node(tag, at, |Print(v)|, [])
  }

  function MemberTrees(ms: Members, at: nat): seq<Node> {
    match ms
    case NoMember => []
    case Member(key, value, rest) =>
      var start := at + |Quoted(key)| + 1;
      [Tree(value, start, key)] + MemberTrees(rest, start + |Print(value)| + 1)
  }

  function ItemTrees(vs: Items, at: nat): seq<Node> {
    match vs
    case NoItem => []
    case Item(value, rest) => [Tree(value, at, TypeTag(value))] + ItemTrees(rest, at + |Print(value)| + 1)
  }

  // ---------------------------------------------------------------- parsing undoes printing

  lemma AtCons(raw: seq<byte>, at: nat, c: byte, s: seq<byte>)
    ensures At(raw, at, [c] + s) ==> at < |raw| && raw[at] == c && At(raw, at + 1, s)
  {
    if At(raw, at, [c] + s) {
      AtSplit(raw, at, [c], s);
      assert raw[at] == raw[at..at + 1][0];
    }
  }

  lemma AtChar(raw: seq<byte>, at: nat, s: seq<byte>, k: nat)
    requires At(raw, at, s) && k < |s|
    ensures at + k < |raw| && raw[at + k] == s[k]
  {
  }

  lemma EncodedByteScans(raw: seq<byte>, i: nat, c: byte)
    requires At(raw, i, JsonStrings.EncodedByte(c)) && i + |JsonStrings.EncodedByte(c)| < |raw|
    ensures ScanString(raw, i) == ScanString(raw, i + |JsonStrings.EncodedByte(c)|)
  {
    var text := JsonStrings.EncodedByte(c);
    AtChar(raw, i, text, 0);
    if |text| > 1 {
      AtChar(raw, i, text, 1);
    }
  }

  /** The quote that ends a written string is found, and no earlier one. */
  lemma {:induction false} EncodedScans(raw: seq<byte>, i: nat, x: seq<byte>)
    requires At(raw, i, JsonStrings.Encoded(x) + [QUOTE])
    ensures ScanString(raw, i) == Some(i + |JsonStrings.Encoded(x)|)
    decreases |x|
  {
    hide JsonStrings.EncodedByte, ScanString;
    AtSplit(raw, i, JsonStrings.Encoded(x), [QUOTE]);
    if x == [] {
      AtChar(raw, i, [QUOTE], 0);
      QuoteScans(raw, i);
    } else {
      var first, rest := JsonStrings.EncodedByte(x[0]), JsonStrings.Encoded(x[1..]);
      assert first + rest + [QUOTE] == first + (rest + [QUOTE]);
      AtSplit(raw, i, first, rest + [QUOTE]);
      EncodedScans(raw, i + |first|, x[1..]);
      EncodedByteScans(raw, i, x[0]);
    }
  }

  lemma QuoteScans(raw: seq<byte>, i: nat)
    requires i < |raw| && raw[i] == QUOTE
    ensures ScanString(raw, i) == Some(i)
  {
  }

  lemma {:induction false} QuotedParses(raw: seq<byte>, at: nat, text: seq<byte>)
    requires At(raw, at, Quoted(text))
    ensures
      var len := |JsonStrings.Encoded(text)|;
      && at < |raw| && raw[at] == QUOTE
      && ParseString(raw, at) == Some((Node(STRING, at + 1, len, []), at + |Quoted(text)|))
      && JsonStrings.Decoded(raw, at + 1, JsonStrings.Limit(raw, at + 1, len)) == Some(text)
  {
    hide JsonStrings.Encoded, JsonStrings.Decoded, ScanString;
    var inner := JsonStrings.Encoded(text) + [QUOTE];
    assert Quoted(text) == [QUOTE] + inner;
    AtCons(raw, at, QUOTE, inner);
    EncodedScans(raw, at + 1, text);
    AtSplit(raw, at + 1, JsonStrings.Encoded(text), [QUOTE]);
    JsonStrings.StringRoundTrip(raw, at + 1, text);
  }

  lemma {:induction false} DigitsScan(raw: seq<byte>, i: nat, end: nat)
    requires i <= end <= |raw|
    requires forall k :: i <= k < end ==> !EndsNumber(raw[k])
    requires end == |raw| || EndsNumber(raw[end])
    ensures ScanNumber(raw, i) == end
    decreases end - i
  {
    if i < end {
      DigitsScan(raw, i + 1, end);
    }
  }

  predicate Terminated(raw: seq<byte>, end: nat) { end >= |raw| || EndsNumber(raw[end]) }

  lemma {:induction false} NumberParses(raw: seq<byte>, at: nat, n: int)
    requires At(raw, at, Itos(n)) && Terminated(raw, at + |Itos(n)|)
    ensures at < |raw| && ParseNode(raw, at) == Leaf(NUMBER, at, |Itos(n)|)
  {
    hide Itos, ParseObject, ParseArray, ParseString;
    var text := Itos(n);
    var end := at + |text|;
    forall k | at <= k < end ensures raw[k] == text[k - at] {
      AtChar(raw, at, text, k - at);
    }
    DigitsScan(raw, at + 1, end);
    assert raw[at] == text[0];
  }

  /** The words start with different letters. */
  lemma WordStarts(raw: seq<byte>, at: nat)
    ensures At(raw, at, TRUE_TEXT) ==> at < |raw| && raw[at] == 0x74
    ensures At(raw, at, FALSE_TEXT) ==> at < |raw| && raw[at] == 0x66
    ensures At(raw, at, NULL_TEXT) ==> at < |raw| && raw[at] == 0x6E
  {
    if At(raw, at, TRUE_TEXT) {
      AtChar(raw, at, TRUE_TEXT, 0);
    }
    if At(raw, at, FALSE_TEXT) {
      AtChar(raw, at, FALSE_TEXT, 0);
    }
    if At(raw, at, NULL_TEXT) {
      AtChar(raw, at, NULL_TEXT, 0);
    }
  }

  lemma WordParses(raw: seq<byte>, at: nat, v: Value)
    requires (v.Bool? || v.Null?) && At(raw, at, Print(v))
    ensures at < |raw| && ParseNode(raw, at) == Leaf(TypeTag(v), at, |Print(v)|)
  {
    hide ParseObject, ParseArray, ParseString, ScanNumber, At;
    WordStarts(raw, at);
    match v
    case Bool(b) => assert Print(v) == if b then TRUE_TEXT else FALSE_TEXT;
    case Null => assert Print(v) == NULL_TEXT;
  }

  /** The first character of a printed value tells its kind; it is never white space nor a closing bracket. */
  lemma PrintStarts(v: Value)
    ensures Print(v) != [] && !IsWhiteSpace(Print(v)[0]) && !EndsNumber(Print(v)[0])
  {
  }

  lemma NoSpace(raw: seq<byte>, at: nat)
    requires at < |raw| && !IsWhiteSpace(raw[at])
    ensures SkipSpace(raw, at) == Some(at)
  {
  }

  /** One turn of the object loop, then either the next member or the end. */
  lemma ObjectTurn(raw: seq<byte>, start: nat, at: nat, acc: seq<Node>, child: Node, end: nat)
    requires start < at < end < |raw| && raw[at] == QUOTE && ParseMember(raw, at) == Some((child, end))
    ensures raw[end] == COMMA ==> ParseObject(raw, start, at, acc) == ParseObject(raw, start, end + 1, acc + [child])
    ensures raw[end] == CLOSE_BRACE ==> ParseObject(raw, start, at, acc) == ParseObject(raw, start, end, acc + [child])
  {
    hide ParseMember;
  }

  lemma ObjectEnd(raw: seq<byte>, start: nat, at: nat, acc: seq<Node>)
    requires start < at < |raw| && raw[at] == CLOSE_BRACE
    ensures ParseObject(raw, start, at, acc) == Some((Node(OBJECT, start, at - start, acc), at + 1))
  {
  }

  lemma ArrayTurn(raw: seq<byte>, start: nat, at: nat, acc: seq<Node>, child: Node, end: nat)
    requires start < at < end < |raw| && raw[at] != CLOSE_BRACKET && !IsWhiteSpace(raw[at])
    requires ParseNode(raw, at) == Some((child, end))
    ensures raw[end] == COMMA ==> ParseArray(raw, start, at, acc) == ParseArray(raw, start, end + 1, acc + [child])
    ensures raw[end] == CLOSE_BRACKET ==> ParseArray(raw, start, at, acc) == ParseArray(raw, start, end, acc + [child])
  {
    hide ParseNode;
  }

  lemma ArrayEnd(raw: seq<byte>, start: nat, at: nat, acc: seq<Node>)
    requires start < at < |raw| && raw[at] == CLOSE_BRACKET
    ensures ParseArray(raw, start, at, acc) == Some((Node(ARRAY, start, at - start, acc), at + 1))
  {
  }

  /** A piece of text, a comma, the rest and a closing character. */
  lemma CommaSplit(raw: seq<byte>, at: nat, first: seq<byte>, tail: seq<byte>, close: byte)
    requires At(raw, at, (first + ([COMMA] + tail)) + [close])
    ensures At(raw, at, first) && At(raw, at + |first| + 1, tail + [close])
    ensures at + |first| < |raw| && raw[at + |first|] == COMMA
  {
    assert (first + ([COMMA] + tail)) + [close] == first + ([COMMA] + (tail + [close]));
    AtSplit(raw, at, first, [COMMA] + (tail + [close]));
    AtCons(raw, at + |first|, COMMA, tail + [close]);
  }

  /** A member is a quoted name, a colon and a value. */
  lemma MemberParses(raw: seq<byte>, at: nat, key: seq<byte>, value: Node, end: nat)
    requires At(raw, at, Quoted(key) + [COLON])
    requires
      var start := at + |Quoted(key)| + 1;
      start < |raw| && !IsWhiteSpace(raw[start]) && ParseNode(raw, start) == Some((value, end))
    ensures at < |raw| && raw[at] == QUOTE
    ensures ParseMember(raw, at) == Some((value.(tag := key), end))
  {
    hide ParseNode, ParseString, Quoted, JsonStrings.Decoded;
    AtSplit(raw, at, Quoted(key), [COLON]);
    QuotedParses(raw, at, key);
    AtChar(raw, at + |Quoted(key)|, [COLON], 0);
    NoSpace(raw, at + |Quoted(key)|);
    NoSpace(raw, at + |Quoted(key)| + 1);
  }

  lemma TreeTag(v: Value, at: nat, tag: seq<byte>, other: seq<byte>)
    ensures Tree(v, at, tag).(tag := other) == Tree(v, at, other)
  {
  }

  lemma ObjectStarts(raw: seq<byte>, at: nat)
    requires at < |raw|
    ensures raw[at] == OPEN_BRACE ==> ParseNode(raw, at) == ParseObject(raw, at, at + 1, [])
    ensures raw[at] == OPEN_BRACKET ==> ParseNode(raw, at) == ParseArray(raw, at, at + 1, [])
    ensures raw[at] == QUOTE ==> ParseNode(raw, at) == ParseString(raw, at)
  {
  }

  /**
    * Wherever a printed value stands, followed by the end of the message or by a delimiter, the parser returns
    * its tree and exactly the offset behind it.
    */
  lemma {:induction false} ParsePrinted(raw: seq<byte>, at: nat, v: Value)
    requires At(raw, at, Print(v)) && Terminated(raw, at + |Print(v)|)
    ensures at < |raw| && ParseNode(raw, at) == Some((Tree(v, at, TypeTag(v)), at + |Print(v)|))
    decreases v, 0
  {
    hide ScanNumber, ScanString, ParseNode, ParseObject, ParseArray, ParseString, JsonStrings.Encoded, Itos,
         PrintMembers, PrintItems, MemberTrees, ItemTrees;
    match v
    case Obj(members) =>
      var inner := PrintMembers(members) + [CLOSE_BRACE];
      assert Print(v) == [OPEN_BRACE] + inner;
      AtCons(raw, at, OPEN_BRACE, inner);
      ParsePrintedMembers(raw, at, at + 1, members, []);
      ObjectStarts(raw, at);
      assert [] + MemberTrees(members, at + 1) == MemberTrees(members, at + 1);
    case Arr(items) =>
      var inner := PrintItems(items) + [CLOSE_BRACKET];
      assert Print(v) == [OPEN_BRACKET] + inner;
      AtCons(raw, at, OPEN_BRACKET, inner);
      ParsePrintedItems(raw, at, at + 1, items, []);
      ObjectStarts(raw, at);
      assert [] + ItemTrees(items, at + 1) == ItemTrees(items, at + 1);
    case Str(text) =>
      QuotedParses(raw, at, text);
      ObjectStarts(raw, at);
    case Num(n) => NumberParses(raw, at, n);
    case _ => WordParses(raw, at, v);
  }

  lemma {:induction false} ParsePrintedMember(raw: seq<byte>, at: nat, key: seq<byte>, value: Value)
    requires At(raw, at, Quoted(key) + [COLON] + Print(value))
    requires Terminated(raw, at + |Quoted(key) + [COLON] + Print(value)|)
    ensures at < |raw| && raw[at] == QUOTE
    ensures
      var start := at + |Quoted(key)| + 1;
      ParseMember(raw, at) == Some((Tree(value, start, key), start + |Print(value)|))
    decreases value, 1
  {
    hide ParseNode, ParseMember, Print, Quoted, Tree;
    var start := at + |Quoted(key)| + 1;
    AtSplit(raw, at, Quoted(key) + [COLON], Print(value));
    PrintStarts(value);
    AtChar(raw, start, Print(value), 0);
    ParsePrinted(raw, start, value);
    MemberParses(raw, at, key, Tree(value, start, TypeTag(value)), start + |Print(value)|);
    TreeTag(value, start, TypeTag(value), key);
  }

  /** One turn of the object loop over a printed member. */
  lemma PrintedTurn(raw: seq<byte>, start: nat, at: nat, key: seq<byte>, value: Value, acc: seq<Node>)
    requires start < at && at + |Quoted(key) + [COLON] + Print(value)| < |raw|
    requires at < |raw| && raw[at] == QUOTE
    requires ParseMember(raw, at)
          == Some((Tree(value, at + |Quoted(key)| + 1, key), at + |Quoted(key)| + 1 + |Print(value)|))
    ensures
      var end := at + |Quoted(key) + [COLON] + Print(value)|;
      var child := Tree(value, at + |Quoted(key)| + 1, key);
      && (raw[end] == COMMA ==> ParseObject(raw, start, at, acc) == ParseObject(raw, start, end + 1, acc + [child]))
      && (raw[end] == CLOSE_BRACE ==> ParseObject(raw, start, at, acc) == ParseObject(raw, start, end, acc + [child]))
  {
    hide ParseMember, ParseObject, Quoted, Print, Tree;
    ObjectTurn(raw, start, at, acc, Tree(value, at + |Quoted(key)| + 1, key), at + |Quoted(key)| + 1 + |Print(value)|);
  }

  lemma {:induction false} ParsePrintedMembers(raw: seq<byte>, start: nat, at: nat, ms: Members, acc: seq<Node>)
    requires start < at && At(raw, at, PrintMembers(ms) + [CLOSE_BRACE])
    ensures
      var end := at + |PrintMembers(ms)|;
      ParseObject(raw, start, at, acc) == Some((Node(OBJECT, start, end - start, acc + MemberTrees(ms, at)), end + 1))
    decreases ms, 2
  {
    hide ParseMember, ParseObject, Quoted, Print, Tree, At;
    var text := PrintMembers(ms);
    AtSplit(raw, at, text, [CLOSE_BRACE]);
    AtChar(raw, at + |text|, [CLOSE_BRACE], 0);
    match ms
    case NoMember =>
      ObjectEnd(raw, start, at, acc);
      assert acc + [] == acc;
    case Member(key, value, rest) =>
      var member := Quoted(key) + [COLON] + Print(value);
      var end := at + |member|;
      var child := Tree(value, at + |Quoted(key)| + 1, key);
      if rest.NoMember? {
        assert text == member;
        ParsePrintedMember(raw, at, key, value);
        PrintedTurn(raw, start, at, key, value, acc);
        ObjectEnd(raw, start, end, acc + [child]);
        assert MemberTrees(ms, at) == [child] + [] == [child];
      } else {
        CommaSplit(raw, at, member, PrintMembers(rest), CLOSE_BRACE);
        ParsePrintedMember(raw, at, key, value);
        PrintedTurn(raw, start, at, key, value, acc);
        ParsePrintedMembers(raw, start, end + 1, rest, acc + [child]);
        assert acc + [child] + MemberTrees(rest, end + 1) == acc + ([child] + MemberTrees(rest, end + 1));
      }
  }

  /** One turn of the array loop over a printed item. */
  lemma PrintedItem(raw: seq<byte>, start: nat, at: nat, value: Value, acc: seq<Node>)
    requires start < at && At(raw, at, Print(value)) && at + |Print(value)| < |raw|
    requires ParseNode(raw, at) == Some((Tree(value, at, TypeTag(value)), at + |Print(value)|))
    ensures
      var end := at + |Print(value)|;
      var child := Tree(value, at, TypeTag(value));
      && (raw[end] == COMMA ==> ParseArray(raw, start, at, acc) == ParseArray(raw, start, end + 1, acc + [child]))
      && (raw[end] == CLOSE_BRACKET ==> ParseArray(raw, start, at, acc) == ParseArray(raw, start, end, acc + [child]))
  {
    hide ParseNode, ParseArray, Print, Tree;
    PrintStarts(value);
    AtChar(raw, at, Print(value), 0);
    ArrayTurn(raw, start, at, acc, Tree(value, at, TypeTag(value)), at + |Print(value)|);
  }

  lemma {:induction false} ParsePrintedItems(raw: seq<byte>, start: nat, at: nat, vs: Items, acc: seq<Node>)
    requires start < at && At(raw, at, PrintItems(vs) + [CLOSE_BRACKET])
    ensures
      var end := at + |PrintItems(vs)|;
      ParseArray(raw, start, at, acc) == Some((Node(ARRAY, start, end - start, acc + ItemTrees(vs, at)), end + 1))
    decreases vs, 2
  {
    hide ParseNode, ParseArray, Print, Tree, TypeTag, At;
    var text := PrintItems(vs);
    AtSplit(raw, at, text, [CLOSE_BRACKET]);
    AtChar(raw, at + |text|, [CLOSE_BRACKET], 0);
    match vs
    case NoItem =>
      ArrayEnd(raw, start, at, acc);
      assert acc + [] == acc;
    case Item(value, rest) =>
      var item := Print(value);
      var end := at + |item|;
      var child := Tree(value, at, TypeTag(value));
      if rest.NoItem? {
        assert text == item;
        ParsePrinted(raw, at, value);
        PrintedItem(raw, start, at, value, acc);
        ArrayEnd(raw, start, end, acc + [child]);
        assert ItemTrees(vs, at) == [child] + [] == [child];
      } else {
        CommaSplit(raw, at, item, PrintItems(rest), CLOSE_BRACKET);
        ParsePrinted(raw, at, value);
        PrintedItem(raw, start, at, value, acc);
        ParsePrintedItems(raw, start, end + 1, rest, acc + [child]);
        assert acc + [child] + ItemTrees(rest, end + 1) == acc + ([child] + ItemTrees(rest, end + 1));
      }
  }
}
