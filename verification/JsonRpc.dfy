/** JSON-RPC messages: the responses written, and what a reader of them gets back. */
module JsonRpc {
  import opened Bytes
  import opened Decimal
  import opened RequestMessage
  import opened JsonParser
  import JsonStrings

  // ---------------------------------------------------------------- a tree that shows a value

  /**
   * The node shows the value: same shape, member names as tags, leaf spans as printed, strings decoding to the
   * originals.
   */
  ghost predicate Shows(raw: seq<byte>, node: Node, v: Value)
    decreases v
  {
    match v
    case Obj(ms) => ShowsMembers(raw, node.children, ms)
    case Arr(vs) => ShowsItems(raw, node.children, vs)
    case Str(text) =>
      && node.children == [] && RawContent(raw, node) == Some(JsonStrings.Encoded(text))
      && GetString(raw, node) == Some(text)
    case _ => node.children == [] && RawContent(raw, node) == Some(Print(v))
  }

  ghost predicate ShowsMembers(raw: seq<byte>, children: seq<Node>, ms: Members)
    decreases ms
  {
    match ms
    case NoMember => children == []
    case Member(key, value, rest) =>
      && children != [] && children[0].tag == key && Shows(raw, children[0], value)
      && ShowsMembers(raw, children[1..], rest)
  }

  ghost predicate ShowsItems(raw: seq<byte>, children: seq<Node>, vs: Items)
    decreases vs
  {
    match vs
    case NoItem => children == []
    case Item(value, rest) =>
      && children != [] && children[0].tag == TypeTag(value) && Shows(raw, children[0], value)
      && ShowsItems(raw, children[1..], rest)
  }

  lemma SpanShows(raw: seq<byte>, at: nat, text: seq<byte>, tag: seq<byte>)
    requires At(raw, at, text)
    ensures RawContent(raw, Node(tag, at, |text|, [])) == Some(text)
  {
  }

  /** The tree of a printed value shows the value. */
  lemma {:induction false} TreeShows(raw: seq<byte>, at: nat, v: Value, tag: seq<byte>)
    requires At(raw, at, Print(v))
    ensures Shows(raw, Tree(v, at, tag), v)
    decreases v
  {
    hide PrintMembers, PrintItems, MemberTrees, ItemTrees, JsonStrings.Encoded, JsonStrings.Decoded, Itos, At;
    match v
    case Obj(ms) =>
      AtSplit(raw, at, [OPEN_BRACE] + PrintMembers(ms), [CLOSE_BRACE]);
      AtSplit(raw, at, [OPEN_BRACE], PrintMembers(ms));
      MembersShow(raw, at + 1, ms);
    case Arr(vs) =>
      AtSplit(raw, at, [OPEN_BRACKET] + PrintItems(vs), [CLOSE_BRACKET]);
      AtSplit(raw, at, [OPEN_BRACKET], PrintItems(vs));
      ItemsShow(raw, at + 1, vs);
    case Str(text) =>
      QuotedParses(raw, at, text);
      AtSplit(raw, at, [QUOTE] + JsonStrings.Encoded(text), [QUOTE]);
      AtSplit(raw, at, [QUOTE], JsonStrings.Encoded(text));
      SpanShows(raw, at + 1, JsonStrings.Encoded(text), tag);
    case _ =>
      SpanShows(raw, at, Print(v), tag);
  }

  lemma {:induction false} MembersShow(raw: seq<byte>, at: nat, ms: Members)
    requires At(raw, at, PrintMembers(ms))
    ensures ShowsMembers(raw, MemberTrees(ms, at), ms)
    decreases ms
  {
    hide Print, Quoted, Tree, Shows, At;
    match ms
    case NoMember =>
    case Member(key, value, rest) =>
      var head := Quoted(key) + [COLON];
      var start := at + |Quoted(key)| + 1;
      var child := Tree(value, start, key);
      var tail := if rest.NoMember? then [] else [COMMA] + PrintMembers(rest);
      AtSplit(raw, at, head + Print(value), tail);
      AtSplit(raw, at, head, Print(value));
      TreeShows(raw, start, value, key);
      TreeHasTag(value, start, key);
      var next := start + |Print(value)| + 1;
      if rest.NoMember? {
        assert MemberTrees(rest, next) == [];
      } else {
        AtSplit(raw, next - 1, [COMMA], PrintMembers(rest));
        MembersShow(raw, next, rest);
      }
      assert ([child] + MemberTrees(rest, next))[1..] == MemberTrees(rest, next);
  }

  lemma {:induction false} ItemsShow(raw: seq<byte>, at: nat, vs: Items)
    requires At(raw, at, PrintItems(vs))
    ensures ShowsItems(raw, ItemTrees(vs, at), vs)
    decreases vs
  {
    hide Print, Tree, Shows, At, TypeTag;
    match vs
    case NoItem =>
    case Item(value, rest) =>
      var child := Tree(value, at, TypeTag(value));
      var tail := if rest.NoItem? then [] else [COMMA] + PrintItems(rest);
      AtSplit(raw, at, Print(value), tail);
      TreeShows(raw, at, value, TypeTag(value));
      TreeHasTag(value, at, TypeTag(value));
      var next := at + |Print(value)| + 1;
      if rest.NoItem? {
        assert ItemTrees(rest, next) == [];
      } else {
        AtSplit(raw, next - 1, [COMMA], PrintItems(rest));
        ItemsShow(raw, next, rest);
      }
      assert ([child] + ItemTrees(rest, next))[1..] == ItemTrees(rest, next);
  }

  lemma TreeHasTag(v: Value, at: nat, tag: seq<byte>)
    ensures Tree(v, at, tag).tag == tag
  {
  }

  /** Parsing a compactly printed value gives a tree that shows it. */
  lemma RootShows(v: Value)
    ensures ParseRoot(Print(v)).Some?
    ensures Shows(Print(v), ParseRoot(Print(v)).value, v) && ParseRoot(Print(v)).value.tag == TypeTag(v)
  {
    hide Print, ParseNode, Tree, Shows, SkipSpace;
    var raw := Print(v);
    PrintStarts(v);
    assert raw[0..|raw|] == raw;
    NoSpace(raw, 0);
    ParsePrinted(raw, 0, v);
    TreeShows(raw, 0, v, TypeTag(v));
    TreeHasTag(v, 0, TypeTag(v));
  }

  // ---------------------------------------------------------------- responses

  /** A text that needs no escape. */
  predicate Plain(x: seq<byte>) { JsonStrings.Encoded(x) == x }

  const RESULT := Ascii("result")
  const ID := Ascii("id")
  const VERSION := Ascii("jsonrpc")
  const TWO := Ascii("2.0")

  function Envelope(result: Value, id: seq<byte>): Value {
    Obj(Member(VERSION, Str(TWO), Member(RESULT, result, Member(ID, Str(id), NoMember))))
  }

  function ResponseWraper(response: seq<byte>, id: seq<byte>): seq<byte> {
    Ascii("{\"jsonrpc\":\"2.0\",\"result\":") + response + Ascii(",\"id\":\"") + id + Ascii("\"}")
  }

  function StringMember(name: seq<byte>, value: seq<byte>): seq<byte> {
    Ascii("\"") + name + Ascii("\":\"") + JsonStrings.Encoded(value) + Ascii("\"")
  }

  function NumberMember(name: seq<byte>, value: int): seq<byte> {
    Ascii("\"") + name + Ascii("\":") + Itos(value)
  }

  predicate NeedsNoEscape(c: byte) { JsonStrings.ShortLetter(c) == 0 && c != 127 && c > 31 }

  lemma {:induction false} PlainText(x: seq<byte>)
    requires forall c <- x :: NeedsNoEscape(c)
    ensures Plain(x)
  {
    if x != [] {
      PlainText(x[1..]);
      assert x[0] in x;
      assert x == [x[0]] + x[1..];
    }
  }

  /** The words that responses are made of need no escape. */
  lemma PlainWord(word: string)
    requires forall c <- word :: 'a' <= c <= 'z' || c == '.' || '0' <= c <= '9'
    ensures Plain(Ascii(word))
  {
    forall c <- Ascii(word)
      ensures NeedsNoEscape(c)
    {
      var i :| 0 <= i < |word| && Ascii(word)[i] == c;
      assert word[i] in word;
    }
    PlainText(Ascii(word));
  }

  lemma MemberTexts(name: seq<byte>, text: seq<byte>, n: int)
    requires Plain(name)
    ensures StringMember(name, text) == Quoted(name) + [COLON] + Print(Str(text))
    ensures NumberMember(name, n) == Quoted(name) + [COLON] + Print(Num(n))
  {
    hide JsonStrings.Encoded, Itos;
    assert Ascii("\"") == [QUOTE];
    assert Ascii("\":\"") == [QUOTE, COLON, QUOTE];
    assert Ascii("\":") == [QUOTE, COLON];
  }

  /** A member is written by name and value, and so are the ones before it. */
  lemma AddMember(key: seq<byte>, value: Value, rest: Members, text: seq<byte>)
    requires text == Quoted(key) + [COLON] + Print(value)
    ensures rest.NoMember? ==> PrintMembers(Member(key, value, rest)) == text
    ensures rest.Member? ==> PrintMembers(Member(key, value, rest)) == text + Ascii(",") + PrintMembers(rest)
  {
    hide Print, Quoted;
    assert Ascii(",") == [COMMA];
    if rest.NoMember? {
      assert text + [] == text;
    } else {
      assert text + ([COMMA] + PrintMembers(rest)) == text + [COMMA] + PrintMembers(rest);
    }
  }

  lemma WordsArePlain()
    ensures Plain(VERSION) && Plain(TWO) && Plain(RESULT) && Plain(ID)
  {
    hide Plain, Ascii;
    PlainWord("jsonrpc");
    PlainWord("2.0");
    PlainWord("result");
    PlainWord("id");
  }

  /** The text of an envelope is what the wrapper makes of the result and of the id with its escapes. */
  lemma EnvelopePrints(v: Value, id: seq<byte>)
    ensures Print(Envelope(v, id)) == ResponseWraper(Print(v), JsonStrings.Encoded(id))
  {
    WordsArePlain();
    hide JsonStrings.Encoded, Plain, Ascii;
    var third := Member(ID, Str(id), NoMember);
    var second := Member(RESULT, v, third);
    var idText := StringMember(ID, id);
    MemberTexts(ID, id, 0);
    AddMember(ID, Str(id), NoMember, idText);
    var resultText := Quoted(RESULT) + [COLON] + Print(v);
    AddMember(RESULT, v, third, resultText);
    var versionText := StringMember(VERSION, TWO);
    MemberTexts(VERSION, TWO, 0);
    AddMember(VERSION, Str(TWO), second, versionText);
    VersionText(id, Print(v));
    EnvelopeText(Print(v), JsonStrings.Encoded(id), idText, resultText, versionText);
  }

  lemma SameMiddle(before: seq<byte>, x: seq<byte>, y: seq<byte>, behind: seq<byte>)
    ensures before + x + behind == before + y + behind <==> x == y
  {
    var s, t := before + x + behind, before + y + behind;
    if s == t {
      assert |x| == |y|;
      assert x == s[|before|..|before| + |x|] && y == t[|before|..|before| + |x|];
    }
  }

  /** The response written is the printed envelope exactly when the id, which is inserted as it is, needs no escape. */
  lemma WraperPrintsEnvelope(v: Value, id: seq<byte>)
    ensures ResponseWraper(Print(v), id) == Print(Envelope(v, id)) <==> Plain(id)
  {
    EnvelopePrints(v, id);
    hide Print, JsonStrings.Encoded, Ascii;
    var before := Ascii("{\"jsonrpc\":\"2.0\",\"result\":") + Print(v) + Ascii(",\"id\":\"");
    SameMiddle(before, JsonStrings.Encoded(id), id, Ascii("\"}"));
  }

  lemma VersionText(id: seq<byte>, v: seq<byte>)
    requires Plain(TWO) && Plain(RESULT)
    ensures StringMember(VERSION, TWO) == Ascii("\"jsonrpc\":\"2.0\"")
    ensures Quoted(RESULT) + [COLON] + v == Ascii("\"result\":") + v
    ensures StringMember(ID, id) == Ascii("\"id\":\"") + JsonStrings.Encoded(id) + Ascii("\"")
  {
    hide JsonStrings.Encoded;
    assert JsonStrings.Encoded(TWO) == TWO && JsonStrings.Encoded(RESULT) == RESULT;
    assert StringMember(VERSION, TWO) == Ascii("\"jsonrpc\":\"2.0\"");
    assert Quoted(RESULT) + [COLON] == Ascii("\"result\":");
    assert Ascii("\"") + ID + Ascii("\":\"") == Ascii("\"id\":\"");
  }

  lemma WraperText()
    ensures Ascii("{\"jsonrpc\":\"2.0\",\"result\":")
         == [OPEN_BRACE] + Ascii("\"jsonrpc\":\"2.0\"") + Ascii(",") + Ascii("\"result\":")
    ensures Ascii(",\"id\":\"") == Ascii(",") + Ascii("\"id\":\"")
    ensures Ascii("\"}") == Ascii("\"") + [CLOSE_BRACE]
  {
  }

  /**
   * The wrapper around a result `v`, in terms of its three members; `x` is what stands between the quotes of the id.
   */
  lemma EnvelopeText(v: seq<byte>, x: seq<byte>, idText: seq<byte>, resultText: seq<byte>, versionText: seq<byte>)
    requires Plain(TWO) && Plain(RESULT)
    requires idText == Ascii("\"id\":\"") + x + Ascii("\"") && versionText == StringMember(VERSION, TWO)
    requires resultText == Quoted(RESULT) + [COLON] + v
    ensures [OPEN_BRACE] + (versionText + Ascii(",") + (resultText + Ascii(",") + idText)) + [CLOSE_BRACE]
         == ResponseWraper(v, x)
  {
    VersionText(x, v);
    WraperText();
    hide Ascii, JsonStrings.Encoded, StringMember, Quoted;
    var comma, quote := Ascii(","), Ascii("\"");
    Regroup([OPEN_BRACE], versionText, comma, Ascii("\"result\":"), v, idText, [CLOSE_BRACE]);
    RegroupEnd(Ascii("{\"jsonrpc\":\"2.0\",\"result\":") + v, comma, Ascii("\"id\":\""), x, quote, [CLOSE_BRACE]);
  }

  lemma Regroup(open: seq<byte>, version: seq<byte>, comma: seq<byte>, result: seq<byte>, v: seq<byte>,
                last: seq<byte>, close: seq<byte>)
    ensures open + (version + comma + (result + v + comma + last)) + close
         == (open + version + comma + result + v) + (comma + last + close)
  {
  }

  lemma RegroupEnd(before: seq<byte>, comma: seq<byte>, name: seq<byte>, id: seq<byte>, quote: seq<byte>,
                   close: seq<byte>)
    ensures before + (comma + (name + id + quote) + close) == before + (comma + name) + id + (quote + close)
  {
  }

  function RequestMembers(adminticket: seq<byte>, monitorticket: seq<byte>, executionticket: seq<byte>,
                          port: int, secuport: int): Members
  {
    Member(Ascii("adminticket"), Str(adminticket), Member(Ascii("monitorticket"), Str(monitorticket),
      Member(Ascii("executionticket"), Str(executionticket), Member(Ascii("port"), Num(port),
        Member(Ascii("secureport"), Num(secuport), NoMember)))))
  }

  function ResultMembers(compilation: seq<byte>, execution: seq<byte>, executed: bool, interactive: bool): Members {
    Member(Ascii("compilation"), Str(compilation), Member(Ascii("execution"), Str(execution),
      Member(Ascii("executed"), Num(if executed then 1 else 0),
        Member(Ascii("interactive"), Num(if interactive then 1 else 0), NoMember))))
  }

  /** A response begins with a brace, joins its members with commas and ends with a brace. */
  lemma Closed(text: seq<byte>, done: seq<byte>, ms: Members)
    requires text == Ascii("{") + done && done == PrintMembers(ms)
    ensures text + Ascii("}") == Print(Obj(ms))
  {
    hide PrintMembers;
    assert Ascii("{") == [OPEN_BRACE] && Ascii("}") == [CLOSE_BRACE];
  }

  class JsonRpc {
    const id: seq<byte>

    constructor (requestId: seq<byte>)
      ensures id == requestId
    {
      id := requestId;
    }

    /** The answer to a request: its tickets and ports. */
    method RequestResponse(adminticket: seq<byte>, monitorticket: seq<byte>, executionticket: seq<byte>,
                           port: int, secuport: int)
      returns (text: seq<byte>)
      ensures var ms := RequestMembers(adminticket, monitorticket, executionticket, port, secuport);
              text == ResponseWraper(Print(Obj(ms)), id)
    {
      PlainWord("adminticket");
      PlainWord("monitorticket");
      PlainWord("executionticket");
      PlainWord("port");
      PlainWord("secureport");
      hide Plain, Print, Quoted, Ascii, StringMember, NumberMember, ResponseWraper, PrintMembers;
      var response := Ascii("{");
      response := response + (StringMember(Ascii("adminticket"), adminticket) + Ascii(","));
      response := response + (StringMember(Ascii("monitorticket"), monitorticket) + Ascii(","));
      response := response + (StringMember(Ascii("executionticket"), executionticket) + Ascii(","));
      response := response + (NumberMember(Ascii("port"), port) + Ascii(","));
      response := response + NumberMember(Ascii("secureport"), secuport);
      ghost var m4 := Member(Ascii("secureport"), Num(secuport), NoMember);
      ghost var m3 := Member(Ascii("port"), Num(port), m4);
      ghost var m2 := Member(Ascii("executionticket"), Str(executionticket), m3);
      ghost var m1 := Member(Ascii("monitorticket"), Str(monitorticket), m2);
      ghost var m0 := Member(Ascii("adminticket"), Str(adminticket), m1);
      NumberAdded(Ascii("secureport"), secuport, NoMember);
      NumberAdded(Ascii("port"), port, m4);
      StringAdded(Ascii("executionticket"), executionticket, m3);
      StringAdded(Ascii("monitorticket"), monitorticket, m2);
      StringAdded(Ascii("adminticket"), adminticket, m1);
      Shift(Ascii("{"), StringMember(Ascii("adminticket"), adminticket), Ascii(","), PrintMembers(m1));
      JoinFour(Ascii("{") + (StringMember(Ascii("adminticket"), adminticket) + Ascii(",")), Ascii(","),
               StringMember(Ascii("monitorticket"), monitorticket),
               StringMember(Ascii("executionticket"), executionticket),
               NumberMember(Ascii("port"), port), NumberMember(Ascii("secureport"), secuport));
      response := response + Ascii("}");
      Closed(Ascii("{") + PrintMembers(m0), PrintMembers(m0), m0);
      text := ResponseWraper(response, id);
    }

    /** The answer to a question for the result of a task. */
    method GetResultResponse(compilation: seq<byte>, execution: seq<byte>, executed: bool, interactive: bool)
      returns (text: seq<byte>)
      ensures text == ResponseWraper(Print(Obj(ResultMembers(compilation, execution, executed, interactive))), id)
    {
      PlainWord("compilation");
      PlainWord("execution");
      PlainWord("executed");
      PlainWord("interactive");
      hide Plain, Print, Quoted, Ascii, StringMember, NumberMember, ResponseWraper, PrintMembers;
      var response := Ascii("{");
      response := response + (StringMember(Ascii("compilation"), compilation) + Ascii(","));
      response := response + (StringMember(Ascii("execution"), execution) + Ascii(","));
      response := response + (NumberMember(Ascii("executed"), if executed then 1 else 0) + Ascii(","));
      response := response + NumberMember(Ascii("interactive"), if interactive then 1 else 0);
      ghost var m3 := Member(Ascii("interactive"), Num(if interactive then 1 else 0), NoMember);
      ghost var m2 := Member(Ascii("executed"), Num(if executed then 1 else 0), m3);
      ghost var m1 := Member(Ascii("execution"), Str(execution), m2);
      ghost var m0 := Member(Ascii("compilation"), Str(compilation), m1);
      NumberAdded(Ascii("interactive"), if interactive then 1 else 0, NoMember);
      NumberAdded(Ascii("executed"), if executed then 1 else 0, m3);
      StringAdded(Ascii("execution"), execution, m2);
      StringAdded(Ascii("compilation"), compilation, m1);
      JoinFour(Ascii("{"), Ascii(","),
               StringMember(Ascii("compilation"), compilation), StringMember(Ascii("execution"), execution),
               NumberMember(Ascii("executed"), if executed then 1 else 0),
               NumberMember(Ascii("interactive"), if interactive then 1 else 0));
      response := response + Ascii("}");
      Closed(Ascii("{") + PrintMembers(m0), PrintMembers(m0), m0);
      text := ResponseWraper(response, id);
    }
  }

  lemma StringAdded(name: seq<byte>, text: seq<byte>, rest: Members)
    requires Plain(name)
    ensures rest.NoMember? ==> PrintMembers(Member(name, Str(text), rest)) == StringMember(name, text)
    ensures rest.Member? ==>
              PrintMembers(Member(name, Str(text), rest)) == StringMember(name, text) + Ascii(",") + PrintMembers(rest)
  {
    hide StringMember, PrintMembers, Ascii, Plain, Print, Quoted;
    MemberTexts(name, text, 0);
    AddMember(name, Str(text), rest, StringMember(name, text));
  }

  lemma NumberAdded(name: seq<byte>, n: int, rest: Members)
    requires Plain(name)
    ensures rest.NoMember? ==> PrintMembers(Member(name, Num(n), rest)) == NumberMember(name, n)
    ensures rest.Member? ==>
              PrintMembers(Member(name, Num(n), rest)) == NumberMember(name, n) + Ascii(",") + PrintMembers(rest)
  {
    hide NumberMember, PrintMembers, Ascii, Plain, Print, Quoted;
    MemberTexts(name, [], n);
    AddMember(name, Num(n), rest, NumberMember(name, n));
  }

  /** Adding a member and a comma, then the rest, is adding the member with the rest. */
  lemma Shift(before: seq<byte>, member: seq<byte>, comma: seq<byte>, rest: seq<byte>)
    ensures (before + (member + comma)) + rest == before + (member + comma + rest)
  {
  }

  /** Four members joined from the left are the members joined from the right. */
  lemma JoinFour(before: seq<byte>, comma: seq<byte>, t0: seq<byte>, t1: seq<byte>, t2: seq<byte>, t3: seq<byte>)
    ensures before + (t0 + comma) + (t1 + comma) + (t2 + comma) + t3
         == before + (t0 + comma + (t1 + comma + (t2 + comma + t3)))
  {
  }

  // ---------------------------------------------------------------- what a reader gets back

  function Keys(ms: Members): seq<seq<byte>> {
    match ms
    case NoMember => []
    case Member(key, _, rest) => [key] + Keys(rest)
  }

  function Nth(ms: Members, i: nat): Value
    requires i < |Keys(ms)|
  {
    match ms
    case Member(_, value, rest) => if i == 0 then value else Nth(rest, i - 1)
  }

  lemma {:induction false} ChildrenShow(raw: seq<byte>, children: seq<Node>, ms: Members)
    requires ShowsMembers(raw, children, ms)
    ensures |children| == |Keys(ms)|
    ensures forall i :: 0 <= i < |children| ==> children[i].tag == Keys(ms)[i] && Shows(raw, children[i], Nth(ms, i))
    decreases ms
  {
    hide Shows;
    match ms
    case NoMember =>
    case Member(key, value, rest) =>
      ChildrenShow(raw, children[1..], rest);
      forall i | 0 <= i < |children|
        ensures children[i].tag == Keys(ms)[i] && Shows(raw, children[i], Nth(ms, i))
      {
        if i > 0 {
          assert children[1..][i - 1] == children[i];
        }
      }
  }

  predicate Distinct(keys: seq<seq<byte>>) {
    forall i, j :: 0 <= i < j < |keys| ==> keys[i] != keys[j]
  }

  /** The members map of a node that shows an object holds each member of the object under its name. */
  lemma MembersRecovered(raw: seq<byte>, node: Node, ms: Members, i: nat)
    requires Shows(raw, node, Obj(ms)) && Distinct(Keys(ms)) && i < |Keys(ms)|
    ensures Keys(ms)[i] in LastByTag(node.children)
    ensures Shows(raw, LastByTag(node.children)[Keys(ms)[i]], Nth(ms, i))
  {
    ChildrenShow(raw, node.children, ms);
    DistinctMembers(node.children);
    hide Shows, LastByTag;
    assert node.children[i].tag == Keys(ms)[i];
  }

  /** What it means for a reader that a node shows a string or an integer. */
  lemma LeafRead(raw: seq<byte>, node: Node, v: Value)
    requires Shows(raw, node, v)
    ensures v.Str? ==> GetString(raw, node) == Some(v.text)
    ensures v.Num? ==> RawContent(raw, node).Some?
                       && (IntOf(RawContent(raw, node).value) == v.n <==> -INT_MAX - 1 <= v.n <= INT_MAX)
  {
    if v.Num? {
      IntRoundTrip(v.n);
    }
  }
}
