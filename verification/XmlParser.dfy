/** The XML parser over offsets into one raw string, and the elements it reads back. */
module XmlParser {
  import opened Bytes
  import opened RequestMessage

  const LT: byte := 0x3C
  const GT: byte := 0x3E
  const SLASH: byte := 0x2F

  // ---------------------------------------------------------------- the grammar the parser accepts

  function Find(raw: seq<byte>, c: byte, i: nat): (j: nat)
    requires i <= |raw|
    ensures i <= j <= |raw| && (j < |raw| ==> raw[j] == c)
    ensures forall k :: i <= k < j ==> raw[k] != c
    decreases |raw| - i
  {
    if i == |raw| || raw[i] == c then i else Find(raw, c, i + 1)
  }

  /** A search for a tag: none left, the message ends within one, or its text and the offsets of its two brackets. */
  datatype Search = NoTag | CutTag | Tag(text: seq<byte>, start: nat, end: nat)

  function NextTag(raw: seq<byte>, offset: nat): (r: Search)
    requires offset <= |raw|
    ensures r.Tag? ==> offset <= r.start < r.end < |raw| && r.text == raw[r.start + 1..r.end]
  {
    var start := Find(raw, LT, offset);
    if start == |raw| then NoTag
    else
      var end := Find(raw, GT, start);
      if end == |raw| then CutTag else Tag(raw[start + 1..end], start, end)
  }

  /** A node and the offset behind its end tag; None is the bad request exception. */
  type Parsed = Option<(Node, nat)>

  /**
   * The content from `offset` on of the element `name` whose content starts at `start`, up to its end tag. A tag
   * without text, whose last character the source reads at an index out of range, counts as an error.
   */
  function ParseContent(raw: seq<byte>, name: seq<byte>, start: nat, offset: nat, children: seq<Node>): (r: Parsed)
    requires start <= offset <= |raw|
    ensures r.Some? ==> offset < r.value.1 <= |raw|
    decreases |raw| - offset
  {
    match NextTag(raw, offset)
    case NoTag => None
    case CutTag => None
    case Tag(text, on, end) =>
      if text == [] then None
      else if text[0] == SLASH then
        if text[1..] == name then Some((Node(name, start, on - start, children), end + 1)) else None
      else if text[|text| - 1] == SLASH then
        ParseContent(raw, name, start, end + 1, children + [Node(text[..|text| - 1], end + 1, 0, [])])
      else
        match ParseContent(raw, text, end + 1, end + 1, [])
        case None => None
        case Some((child, behind)) => ParseContent(raw, name, start, behind, children + [child])
  }

  /** The root is the element of the second tag: the first is the XML declaration. */
  function ParseRoot(raw: seq<byte>): Option<Node> {
    match NextTag(raw, 0)
    case NoTag => None
    case CutTag => None
    case Tag(_, _, first) =>
      match NextTag(raw, first + 1)
      case NoTag => None
      case CutTag => None
      case Tag(text, _, end) =>
        match ParseContent(raw, text, end + 1, end + 1, [])
        case None => None
        case Some((root, _)) => Some(root)
  }

  // ---------------------------------------------------------------- elements and their text

  datatype Element = Element(name: seq<byte>, content: Content) | Empty(name: seq<byte>)

  /** Elements with text before each and behind the last. */
  datatype Content = Text(text: seq<byte>) | Child(before: seq<byte>, element: Element, rest: Content)

  function StartTag(text: seq<byte>): (r: seq<byte>)
    ensures |r| == |text| + 2
  {
    [LT] + text + [GT]
  }

  function Print(e: Element): seq<byte> {
    match e
    case Element(name, content) => StartTag(name) + (PrintContent(content) + EndTag(name))
    case Empty(name) => StartTag(name + [SLASH])
  }

  function EndTag(name: seq<byte>): seq<byte> {
    StartTag([SLASH] + name)
  }

  function PrintContent(c: Content): seq<byte> {
    match c
    case Text(text) => text
    case Child(before, element, rest) => before + (Print(element) + PrintContent(rest))
  }

  predicate Free(s: seq<byte>, c: byte) {
    c !in s
  }

  predicate OpenName(name: seq<byte>) {
    name != [] && name[0] != SLASH && Free(name, GT)
  }

  predicate GoodName(name: seq<byte>) {
    OpenName(name) && name[|name| - 1] != SLASH
  }

  predicate Good(e: Element) {
    OpenName(e.name) && (e.Element? ==> GoodName(e.name) && GoodContent(e.content))
  }

  predicate GoodContent(c: Content) {
    match c
    case Text(text) => Free(text, LT)
    case Child(before, element, rest) => Free(before, LT) && Good(element) && GoodContent(rest)
  }

  /** The node of an element printed at offset `at`. */
  function Tree(e: Element, at: nat): Node {
    var start := at + |e.name| + 2;
    match e
    case Element(name, content) => Node(name, start, |PrintContent(content)|, Trees(content, start))
    case Empty(name) => Node(name, start + 1, 0, [])
  }

  function Trees(c: Content, at: nat): seq<Node> {
    match c
    case Text(_) => []
    case Child(before, element, rest) =>
      [Tree(element, at + |before|)] + Trees(rest, at + |before| + |Print(element)|)
  }

  // ---------------------------------------------------------------- parsing undoes printing

  lemma {:induction false} Found(raw: seq<byte>, c: byte, i: nat, j: nat)
    requires i <= j < |raw| && raw[j] == c && forall k :: i <= k < j ==> raw[k] != c
    ensures Find(raw, c, i) == j
    decreases j - i
  {
  }

  lemma NoneIn(raw: seq<byte>, i: nat, text: seq<byte>, c: byte)
    requires At(raw, i, text) && Free(text, c)
    ensures forall k :: i <= k < i + |text| ==> raw[k] != c
  {
  }

  /** A tag behind text without tags is the next one. */
  lemma TagFound(raw: seq<byte>, at: nat, before: seq<byte>, text: seq<byte>)
    requires At(raw, at, before + StartTag(text)) && Free(before, LT) && Free(text, GT)
    ensures NextTag(raw, at) == Tag(text, at + |before|, at + |before| + 1 + |text|)
  {
    var on := at + |before|;
    AtSplit(raw, at, before, StartTag(text));
    AtSplit(raw, on, [LT] + text, [GT]);
    AtSplit(raw, on, [LT], text);
    var end := on + 1 + |text|;
    assert raw[on] == raw[on..on + 1][0] && raw[end] == raw[end..end + 1][0];
    NoneIn(raw, at, before, LT);
    Found(raw, LT, at, on);
    NoneIn(raw, on + 1, text, GT);
    Found(raw, GT, on, end);
  }

  /** One turn of the content loop, for each kind of tag. */
  lemma Turn(raw: seq<byte>, name: seq<byte>, start: nat, at: nat, acc: seq<Node>, text: seq<byte>, on: nat, end: nat)
    requires start <= at <= |raw| && NextTag(raw, at) == Tag(text, on, end) && text != []
    ensures text[0] == SLASH && text[1..] == name ==>
              ParseContent(raw, name, start, at, acc) == Some((Node(name, start, on - start, acc), end + 1))
    ensures text[0] != SLASH && text[|text| - 1] == SLASH ==>
              ParseContent(raw, name, start, at, acc)
              == ParseContent(raw, name, start, end + 1, acc + [Node(text[..|text| - 1], end + 1, 0, [])])
    ensures text[0] != SLASH && text[|text| - 1] != SLASH && ParseContent(raw, text, end + 1, end + 1, []).Some? ==>
              var (child, behind) := ParseContent(raw, text, end + 1, end + 1, []).value;
              ParseContent(raw, name, start, at, acc) == ParseContent(raw, name, start, behind, acc + [child])
  {
    hide NextTag;
  }

  /** When the content loop gives up: no tag, an empty one, another end tag, a child that fails. */
  lemma BadTurn(raw: seq<byte>, name: seq<byte>, start: nat, at: nat, acc: seq<Node>)
    requires start <= at <= |raw|
    requires var r := NextTag(raw, at);
             || !r.Tag? || r.text == []
             || (r.text[0] == SLASH && r.text[1..] != name)
             || (&& r.text[0] != SLASH && r.text[|r.text| - 1] != SLASH
                 && ParseContent(raw, r.text, r.end + 1, r.end + 1, []).None?)
    ensures ParseContent(raw, name, start, at, acc) == None
  {
  }

  lemma EndTurn(raw: seq<byte>, name: seq<byte>, start: nat, at: nat, acc: seq<Node>, text: seq<byte>)
    requires start <= at && At(raw, at, text + EndTag(name)) && Free(text, LT) && Free(name, GT)
    ensures ParseContent(raw, name, start, at, acc)
         == Some((Node(name, start, at + |text| - start, acc), at + |text| + |EndTag(name)|))
  {
    hide ParseContent, NextTag, At, StartTag;
    var tag := [SLASH] + name;
    TagFound(raw, at, text, tag);
    assert tag[1..] == name;
    AtInside(raw, at, text + EndTag(name));
    Turn(raw, name, start, at, acc, tag, at + |text|, at + |text| + 1 + |tag|);
  }

  lemma AtInside(raw: seq<byte>, at: nat, text: seq<byte>)
    requires At(raw, at, text)
    ensures at + |text| <= |raw|
  {
  }

  lemma EmptyTurn(raw: seq<byte>, name: seq<byte>, start: nat, at: nat, acc: seq<Node>, before: seq<byte>,
                  tag: seq<byte>)
    requires start <= at && Free(before, LT) && OpenName(tag)
    requires At(raw, at, before + Print(Empty(tag)))
    ensures var end := at + |before| + |Print(Empty(tag))|;
            end <= |raw| && ParseContent(raw, name, start, at, acc)
                         == ParseContent(raw, name, start, end, acc + [Tree(Empty(tag), at + |before|)])
  {
    hide ParseContent, NextTag, At, StartTag;
    var text := tag + [SLASH];
    TagFound(raw, at, before, text);
    assert text[..|text| - 1] == tag;
    AtInside(raw, at, before + Print(Empty(tag)));
    Turn(raw, name, start, at, acc, text, at + |before|, at + |before| + 1 + |text|);
  }

  lemma ElementTurn(raw: seq<byte>, name: seq<byte>, start: nat, at: nat, acc: seq<Node>, before: seq<byte>,
                    tag: seq<byte>, inner: nat, child: Node, behind: nat)
    requires start <= at && Free(before, LT) && GoodName(tag)
    requires At(raw, at, before + StartTag(tag))
    requires inner == at + |before| + |tag| + 2 && inner <= |raw|
    requires ParseContent(raw, tag, inner, inner, []) == Some((child, behind))
    ensures behind <= |raw|
    ensures ParseContent(raw, name, start, at, acc) == ParseContent(raw, name, start, behind, acc + [child])
  {
    hide ParseContent, NextTag, At, Free;
    TagFound(raw, at, before, tag);
    Turn(raw, name, start, at, acc, tag, at + |before|, inner - 1);
  }

  /** Printed content followed by its end tag is read as its trees, up to exactly behind the end tag. */
  lemma {:induction false} ContentParses(raw: seq<byte>, name: seq<byte>, start: nat, at: nat, acc: seq<Node>,
                                         c: Content)
    requires start <= at && At(raw, at, PrintContent(c) + EndTag(name)) && GoodContent(c) && Free(name, GT)
    ensures
      var end := at + |PrintContent(c)|;
      ParseContent(raw, name, start, at, acc)
      == Some((Node(name, start, end - start, acc + Trees(c, at)), end + |EndTag(name)|))
    decreases c
  {
    hide ParseContent, EndTag, At, GoodName, Print, Tree, Free, StartTag;
    match c
    case Text(text) =>
      EndTurn(raw, name, start, at, acc, text);
      assert acc + [] == acc;
    case Child(before, element, rest) =>
      var tail := PrintContent(rest) + EndTag(name);
      var next := at + |before| + |Print(element)|;
      assert PrintContent(c) + EndTag(name) == before + Print(element) + tail;
      AtSplit(raw, at, before + Print(element), tail);
      ElementParses(raw, name, start, at, acc, before, element);
      ContentParses(raw, name, start, next, acc + [Tree(element, at + |before|)], rest);
      assert acc + [Tree(element, at + |before|)] + Trees(rest, next) == acc + Trees(c, at);
  }

  lemma {:induction false} ElementParses(raw: seq<byte>, name: seq<byte>, start: nat, at: nat, acc: seq<Node>,
                                         before: seq<byte>, e: Element)
    requires start <= at && At(raw, at, before + Print(e)) && Free(before, LT) && Good(e)
    ensures var end := at + |before| + |Print(e)|;
            end <= |raw| && ParseContent(raw, name, start, at, acc)
                         == ParseContent(raw, name, start, end, acc + [Tree(e, at + |before|)])
    decreases e
  {
    hide ParseContent, At, GoodName, OpenName, PrintContent, Trees, EndTag;
    match e
    case Empty(tag) => EmptyTurn(raw, name, start, at, acc, before, tag);
    case Element(tag, content) =>
      var head := StartTag(tag);
      var inner := at + |before| + |tag| + 2;
      var body := PrintContent(content) + EndTag(tag);
      assert before + (head + body) == before + head + body;
      AtSplit(raw, at, before + head, body);
      assert Free(tag, GT) by { GoodMeans(tag); }
      ContentParses(raw, tag, inner, inner, [], content);
      assert [] + Trees(content, inner) == Trees(content, inner);
      AtInside(raw, inner, body);
      ElementTurn(raw, name, start, at, acc, before, tag, inner, Tree(e, at + |before|), inner + |body|);
  }

  lemma GoodMeans(name: seq<byte>)
    requires GoodName(name)
    ensures Free(name, GT)
  {
  }

  /** A message: the declaration, text without tags, an element, and anything behind it. */
  function Message(declaration: seq<byte>, space: seq<byte>, e: Element, behind: seq<byte>): seq<byte> {
    StartTag(declaration) + (space + (Print(e) + behind))
  }

  /** Such a message is read as the tree of the element. */
  lemma {:induction false} MessageParses(declaration: seq<byte>, space: seq<byte>, e: Element, behind: seq<byte>)
    requires Free(declaration, GT) && Free(space, LT) && Good(e) && e.Element?
    ensures ParseRoot(Message(declaration, space, e, behind)) == Some(Tree(e, |declaration| + 2 + |space|))
  {
    hide ParseRoot, Good, GoodContent, GoodName, PrintContent, EndTag, Print, Tree, At, Message, Free, StartTag;
    GoodParts(e);
    var raw := Message(declaration, space, e, behind);
    MessageParts(raw, declaration, space, e, behind);
    PartsParse(raw, declaration, |declaration| + 2, space, e.name, e.content);
    assert Element(e.name, e.content) == e;
  }

  lemma GoodParts(e: Element)
    requires Good(e) && e.Element?
    ensures Free(e.name, GT) && GoodContent(e.content)
  {
  }

  lemma MessageParts(raw: seq<byte>, declaration: seq<byte>, space: seq<byte>, e: Element, behind: seq<byte>)
    requires raw == Message(declaration, space, e, behind) && e.Element?
    ensures At(raw, 0, StartTag(declaration))
    ensures At(raw, |declaration| + 2, space + StartTag(e.name))
    ensures At(raw, |declaration| + 2 + |space| + (|e.name| + 2), PrintContent(e.content) + EndTag(e.name))
    ensures At(raw, |declaration| + 2 + |space|, Print(e))
  {
  }

  lemma {:induction false} PartsParse(
      raw: seq<byte>, declaration: seq<byte>, second: nat, space: seq<byte>, name: seq<byte>, content: Content)
    requires Free(declaration, GT) && Free(space, LT) && Free(name, GT) && GoodContent(content)
    requires second == |declaration| + 2 && At(raw, 0, StartTag(declaration))
    requires At(raw, second, space + StartTag(name))
    requires At(raw, second + |space| + (|name| + 2), PrintContent(content) + EndTag(name))
    ensures ParseRoot(raw) == Some(Tree(Element(name, content), second + |space|))
  {
    hide ParseRoot, ParseContent, GoodContent, PrintContent, EndTag, NextTag, At, Tree, Find, Free, StartTag;
    var on := second + |space|;
    var behind := RootContent(raw, name, content, on, on + (|name| + 2));
    SecondTag(raw, declaration, second, space, name);
    RootFound(raw);
  }

  lemma SecondTag(raw: seq<byte>, declaration: seq<byte>, second: nat, space: seq<byte>, name: seq<byte>)
    requires Free(declaration, GT) && Free(space, LT) && Free(name, GT)
    requires second == |declaration| + 2 && At(raw, 0, StartTag(declaration))
    requires At(raw, second, space + StartTag(name))
    ensures NextTag(raw, 0) == Tag(declaration, 0, second - 1) && second <= |raw|
    ensures NextTag(raw, second) == Tag(name, second + |space|, second + |space| + |name| + 1)
  {
    hide NextTag, At, Find, Free, StartTag;
    FirstTag(raw, declaration);
    TagFound(raw, second, space, name);
    AtInside(raw, second, space + StartTag(name));
  }

  lemma RootContent(raw: seq<byte>, name: seq<byte>, content: Content, on: nat, inner: nat) returns (behind: nat)
    requires GoodContent(content) && Free(name, GT) && inner == on + (|name| + 2)
    requires At(raw, inner, PrintContent(content) + EndTag(name))
    ensures inner <= |raw|
    ensures ParseContent(raw, name, inner, inner, []) == Some((Tree(Element(name, content), on), behind))
  {
    hide ParseContent, Good, GoodContent, GoodName, PrintContent, EndTag, At, Trees;
    ContentParses(raw, name, inner, inner, [], content);
    assert [] + Trees(content, inner) == Trees(content, inner);
    AtInside(raw, inner, PrintContent(content) + EndTag(name));
    behind := inner + |PrintContent(content)| + |EndTag(name)|;
  }

  lemma FirstTag(raw: seq<byte>, declaration: seq<byte>)
    requires At(raw, 0, StartTag(declaration)) && Free(declaration, GT)
    ensures NextTag(raw, 0) == Tag(declaration, 0, |declaration| + 1)
  {
    assert [] + StartTag(declaration) == StartTag(declaration);
    TagFound(raw, 0, [], declaration);
  }

  lemma RootFound(raw: seq<byte>)
    ensures
      var first := NextTag(raw, 0);
      first.Tag? ==>
        var second := NextTag(raw, first.end + 1);
        second.Tag? ==>
          var p := ParseContent(raw, second.text, second.end + 1, second.end + 1, []);
          p.Some? ==> ParseRoot(raw) == Some(p.value.0)
  {
    hide NextTag, ParseContent;
  }

  // ---------------------------------------------------------------- a tree that shows an element

  /** Same name, the printed content as span, and children that show the elements of the content. */
  ghost predicate Shows(raw: seq<byte>, node: Node, e: Element)
    decreases e, 1
  {
    && node.tag == e.name
    && (e.Empty? ==> node.children == [] && RawContent(raw, node) == Some([]))
    && (e.Element? ==> RawContent(raw, node) == Some(PrintContent(e.content)) && ShowAll(raw, node.children, e.content))
  }

  ghost predicate ShowAll(raw: seq<byte>, children: seq<Node>, c: Content)
    decreases c
  {
    match c
    case Text(_) => children == []
    case Child(_, element, rest) =>
      children != [] && Shows(raw, children[0], element) && ShowAll(raw, children[1..], rest)
  }

  lemma SpanShows(raw: seq<byte>, at: nat, text: seq<byte>, tag: seq<byte>, children: seq<Node>)
    requires At(raw, at, text)
    ensures RawContent(raw, Node(tag, at, |text|, children)) == Some(text)
  {
  }

  lemma {:induction false} TreeShows(raw: seq<byte>, at: nat, e: Element)
    requires At(raw, at, Print(e))
    ensures Shows(raw, Tree(e, at), e)
    decreases e, 1
  {
    hide PrintContent, Trees, ShowAll, At, RawContent;
    match e
    case Empty(name) =>
      AtSplit(raw, at, Print(e), []);
      assert Print(e) + [] == Print(e);
      SpanShows(raw, at + |Print(e)|, [], name, []);
    case Element(name, content) =>
      var open := StartTag(name);
      var inner := at + |open|;
      AtSplit(raw, at, open, PrintContent(content) + EndTag(name));
      AtSplit(raw, inner, PrintContent(content), EndTag(name));
      SpanShows(raw, inner, PrintContent(content), name, Trees(content, inner));
      ContentShows(raw, inner, content);
  }

  lemma {:induction false} ContentShows(raw: seq<byte>, at: nat, c: Content)
    requires At(raw, at, PrintContent(c))
    ensures ShowAll(raw, Trees(c, at), c)
    decreases c
  {
    hide Print, Tree, Shows, At;
    match c
    case Text(_) =>
    case Child(before, element, rest) =>
      AtSplit(raw, at, before, Print(element) + PrintContent(rest));
      AtSplit(raw, at + |before|, Print(element), PrintContent(rest));
      TreeShows(raw, at + |before|, element);
      var next := at + |before| + |Print(element)|;
      ContentShows(raw, next, rest);
      assert ([Tree(element, at + |before|)] + Trees(rest, next))[1..] == Trees(rest, next);
  }

  /** Parsing a message gives a tree that shows its element. */
  lemma MessageShows(declaration: seq<byte>, space: seq<byte>, e: Element, behind: seq<byte>)
    requires Free(declaration, GT) && Free(space, LT) && Good(e) && e.Element?
    ensures
      var raw := Message(declaration, space, e, behind);
      ParseRoot(raw).Some? && Shows(raw, ParseRoot(raw).value, e)
  {
    hide ParseRoot, Print, Tree, Shows, Message, At;
    var raw := Message(declaration, space, e, behind);
    MessageParses(declaration, space, e, behind);
    MessageParts(raw, declaration, space, e, behind);
    TreeShows(raw, |declaration| + 2 + |space|, e);
  }
}
