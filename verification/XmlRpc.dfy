/** XML-RPC messages: the responses written, and what getStructMembers reads of them. */
module XmlRpc {
  import opened Bytes
  import opened Decimal
  import opened RequestMessage
  import opened XmlParser
  import XmlText

  const NAME := Ascii("name")
  const VALUE := Ascii("value")
  const STRING := Ascii("string")
  const INT := Ascii("int")
  const MEMBER := Ascii("member")
  const STRUCT := Ascii("struct")
  const ARRAY := Ascii("array")
  const PARAM := Ascii("param")
  const PARAMS := Ascii("params")
  const METHOD_RESPONSE := Ascii("methodResponse")
  const NEWLINE: seq<byte> := [0x0A]

  // ---------------------------------------------------------------- what is written

  /** A member of a response: a string, or an integer not above the largest 32-bit one. */
  datatype Field = Words(name: seq<byte>, text: seq<byte>) | Number(name: seq<byte>, n: int)

  function ValueText(f: Field): seq<byte> {
    match f
    case Words(_, text) => XmlText.Encoded(text)
    case Number(_, n) => Itos(n)
  }

  function TypeName(f: Field): seq<byte> {
    if f.Words? then STRING else INT
  }

  /** The text of a member. */
  function ResponseMember(f: Field): seq<byte> {
    StartTag(MEMBER) + StartTag(NAME)
    + XmlText.Encoded(f.name) + EndTag(NAME) + NEWLINE
    + StartTag(VALUE) + StartTag(TypeName(f))
    + ValueText(f)
    + EndTag(TypeName(f)) + EndTag(VALUE) + NEWLINE
    + EndTag(MEMBER) + NEWLINE
  }

  function ResponseMembers(fields: seq<Field>): seq<byte> {
    if fields == [] then [] else ResponseMember(fields[0]) + ResponseMembers(fields[1..])
  }

  const DECLARATION := Ascii("?xml version=\"1.0\" encoding=\"UTF-8\"?")

  function ResponseWraper(response: seq<byte>): seq<byte> {
    StartTag(DECLARATION) + NEWLINE
    + StartTag(METHOD_RESPONSE) + NEWLINE + StartTag(PARAMS) + NEWLINE + StartTag(PARAM) + NEWLINE
    + StartTag(STRUCT) + NEWLINE
    + response
    + EndTag(STRUCT) + NEWLINE + EndTag(PARAM) + NEWLINE + EndTag(PARAMS) + NEWLINE + EndTag(METHOD_RESPONSE) + NEWLINE
  }

  lemma {:induction false} Appended(fields: seq<Field>, f: Field)
    ensures ResponseMembers(fields + [f]) == ResponseMembers(fields) + ResponseMember(f)
  {
    hide ResponseMember;
    if fields == [] {
      assert [f][1..] == [] && ResponseMember(f) + [] == ResponseMember(f);
      assert [] + [f] == [f];
      assert ResponseMembers([f]) == ResponseMember(f) + ResponseMembers([]);
    } else {
      Appended(fields[1..], f);
      assert (fields + [f])[1..] == fields[1..] + [f];
    }
  }

  /** The answer to a request: its tickets and ports. */
  method RequestResponse(adminticket: seq<byte>, monitorticket: seq<byte>, executionticket: seq<byte>,
                         port: int, secuport: int)
    returns (text: seq<byte>)
    requires port <= INT_MAX && secuport <= INT_MAX
    ensures text == ResponseWraper(ResponseMembers([
                      Words(Ascii("adminticket"), adminticket), Words(Ascii("monitorticket"), monitorticket),
                      Words(Ascii("executionticket"), executionticket), Number(Ascii("port"), port),
                      Number(Ascii("secureport"), secuport)]))
  {
    hide ResponseMember, ResponseWraper, Ascii;
    ghost var f0, f1 := Words(Ascii("adminticket"), adminticket), Words(Ascii("monitorticket"), monitorticket);
    ghost var f2 := Words(Ascii("executionticket"), executionticket);
    ghost var f3, f4 := Number(Ascii("port"), port), Number(Ascii("secureport"), secuport);
    var response := [];
    response := response + ResponseMember(Words(Ascii("adminticket"), adminticket));
    response := response + ResponseMember(Words(Ascii("monitorticket"), monitorticket));
    response := response + ResponseMember(Words(Ascii("executionticket"), executionticket));
    response := response + ResponseMember(Number(Ascii("port"), port));
    response := response + ResponseMember(Number(Ascii("secureport"), secuport));
    Appended([], f0);
    Appended([] + [f0], f1);
    Appended([] + [f0] + [f1], f2);
    Appended([] + [f0] + [f1] + [f2], f3);
    Appended([] + [f0] + [f1] + [f2] + [f3], f4);
    assert [] + [f0] + [f1] + [f2] + [f3] + [f4] == [f0, f1, f2, f3, f4];
    text := ResponseWraper(response);
  }

  // ---------------------------------------------------------------- the same as elements

  function Inner(f: Field): Element {
    Element(TypeName(f), Text(ValueText(f)))
  }

  function NameElement(f: Field): Element {
    Element(NAME, Text(XmlText.Encoded(f.name)))
  }

  function ValueElement(f: Field): Element {
    Element(VALUE, Child([], Inner(f), Text([])))
  }

  function MemberElement(f: Field): Element {
    Element(MEMBER, Child([], NameElement(f), Child(NEWLINE, ValueElement(f), Text(NEWLINE))))
  }

  function StructContent(fields: seq<Field>): Content {
    if fields == [] then Text(NEWLINE) else Child(NEWLINE, MemberElement(fields[0]), StructContent(fields[1..]))
  }

  /** An element around another on lines of their own. */
  function Wrapped(name: seq<byte>, e: Element): Element {
    Element(name, Child(NEWLINE, e, Text(NEWLINE)))
  }

  function Response(fields: seq<Field>): Element {
    Wrapped(METHOD_RESPONSE, Wrapped(PARAMS, Wrapped(PARAM, Element(STRUCT, StructContent(fields)))))
  }

  lemma LeafPrints(name: seq<byte>, text: seq<byte>)
    ensures Print(Element(name, Text(text))) == StartTag(name) + text + EndTag(name)
  {
  }

  lemma MemberPrints(f: Field)
    ensures Print(MemberElement(f)) + NEWLINE == ResponseMember(f)
  {
    LeafPrints(NAME, XmlText.Encoded(f.name));
    LeafPrints(TypeName(f), ValueText(f));
    hide StartTag, EndTag, XmlText.Encoded, ValueText, TypeName;
    ValuePrints(f);
    MemberContentPrints(f);
    JoinMember(StartTag(MEMBER), StartTag(NAME), XmlText.Encoded(f.name), EndTag(NAME), StartTag(VALUE),
               StartTag(TypeName(f)), ValueText(f), EndTag(TypeName(f)), EndTag(VALUE), EndTag(MEMBER), NEWLINE);
  }

  lemma ValuePrints(f: Field)
    ensures Print(ValueElement(f)) == StartTag(VALUE) + (Print(Inner(f)) + EndTag(VALUE))
  {
    hide StartTag, EndTag, ValueText, TypeName, Inner;
    var p := Print(Inner(f));
    assert PrintContent(Child([], Inner(f), Text([]))) == [] + (p + []) == p;
  }

  lemma MemberContentPrints(f: Field)
    ensures Print(MemberElement(f))
         == StartTag(MEMBER)
            + ((Print(NameElement(f)) + (NEWLINE + (Print(ValueElement(f)) + NEWLINE))) + EndTag(MEMBER))
  {
    hide StartTag, EndTag, NameElement, ValueElement;
    var p := Print(NameElement(f));
    var rest := Child(NEWLINE, ValueElement(f), Text(NEWLINE));
    assert PrintContent(rest) == NEWLINE + (Print(ValueElement(f)) + NEWLINE);
    assert PrintContent(Child([], NameElement(f), rest)) == [] + (p + PrintContent(rest)) == p + PrintContent(rest);
  }

  lemma JoinMember(m: seq<byte>, n: seq<byte>, name: seq<byte>, n': seq<byte>, v: seq<byte>, t: seq<byte>,
                   value: seq<byte>, t': seq<byte>, v': seq<byte>, m': seq<byte>, nl: seq<byte>)
    ensures (m + (((n + name + n') + (nl + ((v + ((t + value + t') + v')) + nl))) + m')) + nl
         == m + n + name + n' + nl + v + t + value + t' + v' + nl + m' + nl
  {
  }

  lemma {:induction false} StructPrints(fields: seq<Field>)
    ensures PrintContent(StructContent(fields)) == NEWLINE + ResponseMembers(fields)
  {
    hide ResponseMember, MemberElement, Print;
    if fields == [] {
      assert NEWLINE + [] == NEWLINE;
    } else {
      var m := Print(MemberElement(fields[0]));
      StructPrints(fields[1..]);
      MemberPrints(fields[0]);
      var others := ResponseMembers(fields[1..]);
      assert NEWLINE + (m + (NEWLINE + others)) == NEWLINE + ((m + NEWLINE) + others);
    }
  }

  lemma WrappedPrints(name: seq<byte>, e: Element)
    ensures Print(Wrapped(name, e)) == StartTag(name) + NEWLINE + Print(e) + NEWLINE + EndTag(name)
  {
    hide StartTag, EndTag;
    var p := Print(e);
    assert PrintContent(Child(NEWLINE, e, Text(NEWLINE))) == NEWLINE + (p + NEWLINE);
    assert StartTag(name) + ((NEWLINE + (p + NEWLINE)) + EndTag(name))
        == StartTag(name) + NEWLINE + p + NEWLINE + EndTag(name);
  }

  /** The response written is a message holding the response element. */
  lemma WraperIsMessage(fields: seq<Field>)
    ensures ResponseWraper(ResponseMembers(fields)) == Message(DECLARATION, NEWLINE, Response(fields), NEWLINE)
  {
    var inner := Element(STRUCT, StructContent(fields));
    var param := Wrapped(PARAM, inner);
    StructPrints(fields);
    assert Print(inner) == StartTag(STRUCT) + ((NEWLINE + ResponseMembers(fields)) + EndTag(STRUCT));
    WrappedPrints(PARAM, inner);
    WrappedPrints(PARAMS, param);
    WrappedPrints(METHOD_RESPONSE, Wrapped(PARAMS, param));
    hide StartTag, EndTag, ResponseMembers, Print, Wrapped, StructContent;
    JoinResponse(StartTag(DECLARATION), StartTag(METHOD_RESPONSE), StartTag(PARAMS), StartTag(PARAM), StartTag(STRUCT),
                 ResponseMembers(fields), EndTag(STRUCT), EndTag(PARAM), EndTag(PARAMS), EndTag(METHOD_RESPONSE),
                 NEWLINE);
  }

  lemma JoinResponse(d: seq<byte>, r: seq<byte>, ps: seq<byte>, p: seq<byte>, s: seq<byte>, x: seq<byte>,
                     s': seq<byte>, p': seq<byte>, ps': seq<byte>, r': seq<byte>, nl: seq<byte>)
    ensures d + (nl + ((r + nl + (ps + nl + (p + nl + (s + ((nl + x) + s')) + nl + p') + nl + ps') + nl + r') + nl))
         == d + nl + r + nl + ps + nl + p + nl + s + nl + x + s' + nl + p' + nl + ps' + nl + r' + nl
  {
    var one := s + ((nl + x) + s');
    var two := p + nl + one + nl + p';
    var three := ps + nl + two + nl + ps';
    var four := r + nl + three + nl + r';
    Open(d, nl, four);
    Around(d + nl, r, nl, three, r');
    Around(d + nl + r + nl, ps, nl, two, ps');
    Around(d + nl + r + nl + ps + nl, p, nl, one, p');
    Inside(d + nl + r + nl + ps + nl + p + nl, s, nl, x, s');
  }

  lemma Open(d: seq<byte>, nl: seq<byte>, x: seq<byte>)
    ensures d + (nl + (x + nl)) == (d + nl) + x + nl
  {
  }

  lemma Around(before: seq<byte>, a: seq<byte>, nl: seq<byte>, x: seq<byte>, b: seq<byte>)
    ensures before + (a + nl + x + nl + b) == (before + a + nl) + x + nl + b
  {
  }

  lemma Inside(before: seq<byte>, a: seq<byte>, nl: seq<byte>, x: seq<byte>, b: seq<byte>)
    ensures before + (a + ((nl + x) + b)) == before + a + nl + x + b
  {
  }

  // ---------------------------------------------------------------- what is read

  /** The text of a string or a name, decoded; None is the bad request exception. */
  function GetString(raw: seq<byte>, node: Node): Option<seq<byte>> {
    if node.tag != STRING && node.tag != NAME then None
    else if RawContent(raw, node).None? then None
    else XmlText.Decoded(RawContent(raw, node).value, 0)
  }

  /** The name and the typed value of a member. */
  function MemberOf(raw: seq<byte>, node: Node): Option<(seq<byte>, Node)> {
    var name := ChildNamed(node.children, NAME);
    var value := ChildNamed(node.children, VALUE);
    if name.None? || GetString(raw, name.value).None? || value.None? || value.value.children == [] then None
    else Some((GetString(raw, name.value).value, value.value.children[0]))
  }

  /** The members of a struct by name, later ones replacing earlier ones. */
  function MembersOf(raw: seq<byte>, children: seq<Node>): Option<map<seq<byte>, Node>> {
    if children == [] then Some(map[])
    else
      var before := MembersOf(raw, children[..|children| - 1]);
      var last := MemberOf(raw, children[|children| - 1]);
      if before.None? || last.None? then None else Some(before.value[last.value.0 := last.value.1])
  }

  function StructMembers(raw: seq<byte>, st: Node): Option<map<seq<byte>, Node>> {
    if st.tag == STRUCT then MembersOf(raw, st.children)
    else if st.tag == ARRAY && st.children == [] then Some(map[])
    else None
  }

  /** The text of a node as it is decoded at run time. */
  method ReadString(raw: seq<byte>, node: TreeNode) returns (r: Option<seq<byte>>)
    requires node.Valid()
    ensures r == GetString(raw, node.view)
  {
    if node.tag != STRING && node.tag != NAME {
      return None;
    }
    var content := RawContent(raw, Node(node.tag, node.offset, node.len, []));
    if content.None? {
      return None;
    }
    r := XmlText.DecodeXml(content.value);
  }

  /** The members of a struct, or of an empty array, by name. */
  method GetStructMembers(raw: seq<byte>, st: TreeNode) returns (ret: Option<map<seq<byte>, TreeNode>>)
    requires st.Valid()
    ensures ret.None? <==> StructMembers(raw, st.view).None?
    ensures ret.Some? ==>
              && ret.value.Keys == StructMembers(raw, st.view).value.Keys
              && forall k <- ret.value ::
                   ret.value[k].Valid() && ret.value[k].view == StructMembers(raw, st.view).value[k]
  {
    hide GetString, ChildNamed;
    if st.tag == STRUCT {
      var found: map<seq<byte>, TreeNode> := map[];
      for i := 0 to |st.children|
        invariant MembersOf(raw, st.view.children[..i]).Some?
        invariant found.Keys == MembersOf(raw, st.view.children[..i]).value.Keys
        invariant forall k <- found ::
                    found[k].Valid() && found[k].view == MembersOf(raw, st.view.children[..i]).value[k]
      {
        var child := st.children[i];
        assert st.view.children[..i + 1][..i] == st.view.children[..i];
        var key, value := ReadMember(raw, child);
        if key.None? {
          MembersFail(raw, st.view.children, i);
          return None;
        }
        found := found[key.value := value];
      }
      assert st.view.children[..|st.children|] == st.view.children;
      return Some(found);
    } else if st.tag == ARRAY && |st.children| == 0 {
      return Some(map[]);
    }
    return None;
  }

  method ReadMember(raw: seq<byte>, member: TreeNode) returns (key: Option<seq<byte>>, value: TreeNode)
    requires member.Valid()
    ensures key.None? <==> MemberOf(raw, member.view).None?
    ensures key.Some? ==> value.Valid() && MemberOf(raw, member.view) == Some((key.value, value.view))
  {
    key, value := None, member;
    var name := member.Child(NAME);
    if name.None? {
      return;
    }
    var text := ReadString(raw, name.value);
    var holder := member.Child(VALUE);
    if text.None? || holder.None? || |holder.value.children| == 0 {
      return;
    }
    return text, holder.value.children[0];
  }

  lemma {:induction false} MembersFail(raw: seq<byte>, children: seq<Node>, i: nat)
    requires i < |children| && MemberOf(raw, children[i]).None?
    ensures MembersOf(raw, children).None?
  {
    hide MemberOf;
    var n := |children| - 1;
    if i < n {
      assert children[..n][i] == children[i];
      MembersFail(raw, children[..n], i);
    }
  }

  // ---------------------------------------------------------------- reading what was written

  /** A field goes through when an integer is within 32 bits. */
  predicate Fits(f: Field) {
    f.Number? ==> -INT_MAX - 1 <= f.n <= INT_MAX
  }

  /** The node holds the value of a field: a string up to cleaning, an integer as it was. */
  predicate Holds(raw: seq<byte>, node: Node, f: Field) {
    match f
    case Words(_, text) => GetString(raw, node) == Some(XmlText.Clean(text))
    case Number(_, n) => node.tag == INT && RawContent(raw, node).Some? && IntOf(RawContent(raw, node).value) == n
  }

  lemma LeafShows(raw: seq<byte>, node: Node, name: seq<byte>, text: seq<byte>)
    requires Shows(raw, node, Element(name, Text(text)))
    ensures node.tag == name && RawContent(raw, node) == Some(text)
  {
  }

  lemma InnerHolds(raw: seq<byte>, node: Node, f: Field)
    requires Fits(f) && Shows(raw, node, Inner(f))
    ensures Holds(raw, node, f)
  {
    LeafShows(raw, node, TypeName(f), ValueText(f));
    hide Shows, XmlText.Decoded, XmlText.Encoded, Itos, IntOf;
    match f
    case Words(_, text) => XmlText.RoundTrip(text);
    case Number(_, n) => IntRoundTrip(n);
  }

  lemma ValueShows(raw: seq<byte>, node: Node, f: Field)
    requires Shows(raw, node, ValueElement(f))
    ensures node.tag == VALUE && node.children != [] && Shows(raw, node.children[0], Inner(f))
  {
  }

  lemma MemberShows(raw: seq<byte>, node: Node, f: Field)
    requires Shows(raw, node, MemberElement(f))
    ensures |node.children| == 2
    ensures Shows(raw, node.children[0], NameElement(f)) && Shows(raw, node.children[1], ValueElement(f))
  {
    hide NameElement, ValueElement, RawContent, Shows;
    var rest := Child(NEWLINE, ValueElement(f), Text(NEWLINE));
    assert ShowAll(raw, node.children, Child([], NameElement(f), rest)) by {
      ElementShows(raw, node, MemberElement(f));
    }
    assert ShowAll(raw, node.children[1..], rest);
    assert ShowAll(raw, node.children[1..][1..], Text(NEWLINE));
  }

  lemma ElementShows(raw: seq<byte>, node: Node, e: Element)
    requires Shows(raw, node, e) && e.Element?
    ensures node.tag == e.name && ShowAll(raw, node.children, e.content)
  {
  }

  /** A written member is read back: its name up to cleaning, and its value. */
  lemma MemberRead(raw: seq<byte>, node: Node, f: Field)
    requires Fits(f) && Shows(raw, node, MemberElement(f))
    ensures MemberOf(raw, node).Some?
    ensures MemberOf(raw, node).value.0 == XmlText.Clean(f.name) && Holds(raw, MemberOf(raw, node).value.1, f)
  {
    hide Shows, Holds, MemberElement, ValueElement, Inner, XmlText.Encoded, XmlText.Decoded, RawContent;
    MemberShows(raw, node, f);
    var first, second := node.children[0], node.children[1];
    LeafShows(raw, first, NAME, XmlText.Encoded(f.name));
    ValueShows(raw, second, f);
    InnerHolds(raw, second.children[0], f);
    XmlText.RoundTrip(f.name);
    TwoChildren(node.children);
  }

  lemma TwoChildren(children: seq<Node>)
    requires |children| == 2 && children[0].tag == NAME && children[1].tag == VALUE
    ensures ChildNamed(children, NAME) == Some(children[0]) && ChildNamed(children, VALUE) == Some(children[1])
  {
  }

  lemma {:induction false} StructShows(raw: seq<byte>, children: seq<Node>, fields: seq<Field>)
    requires ShowAll(raw, children, StructContent(fields))
    ensures |children| == |fields|
    ensures forall i :: 0 <= i < |fields| ==> Shows(raw, children[i], MemberElement(fields[i]))
    decreases |fields|
  {
    hide Shows, MemberElement;
    if fields != [] {
      StructShows(raw, children[1..], fields[1..]);
      forall i | 0 <= i < |fields|
        ensures Shows(raw, children[i], MemberElement(fields[i]))
      {
        if i > 0 {
          assert children[1..][i - 1] == children[i] && fields[1..][i - 1] == fields[i];
        }
      }
    }
  }

  /** The names, as they are read, differ. */
  predicate DistinctNames(fields: seq<Field>) {
    forall i, j :: 0 <= i < j < |fields| ==> XmlText.Clean(fields[i].name) != XmlText.Clean(fields[j].name)
  }

  lemma {:induction false} MembersRead(raw: seq<byte>, children: seq<Node>, fields: seq<Field>)
    requires |children| == |fields| && DistinctNames(fields)
    requires forall i :: 0 <= i < |fields| ==> Fits(fields[i]) && Shows(raw, children[i], MemberElement(fields[i]))
    ensures MembersOf(raw, children).Some?
    ensures forall i :: 0 <= i < |fields| ==>
              && XmlText.Clean(fields[i].name) in MembersOf(raw, children).value
              && Holds(raw, MembersOf(raw, children).value[XmlText.Clean(fields[i].name)], fields[i])
    decreases |fields|
  {
    hide Shows, MemberElement, Holds, MemberOf, XmlText.Clean, Fits;
    if fields != [] {
      var n := |fields| - 1;
      assert forall i :: 0 <= i < n ==> children[..n][i] == children[i] && fields[..n][i] == fields[i];
      MembersRead(raw, children[..n], fields[..n]);
      MemberRead(raw, children[n], fields[n]);
      forall i | 0 <= i < |fields|
        ensures && XmlText.Clean(fields[i].name) in MembersOf(raw, children).value
                && Holds(raw, MembersOf(raw, children).value[XmlText.Clean(fields[i].name)], fields[i])
      {
        if i < n {
          assert fields[..n][i] == fields[i];
          assert XmlText.Clean(fields[i].name) != XmlText.Clean(fields[n].name);
        }
      }
    }
  }

  lemma WrappedShows(raw: seq<byte>, node: Node, name: seq<byte>, e: Element)
    requires Shows(raw, node, Wrapped(name, e))
    ensures ChildNamed(node.children, e.name).Some? && Shows(raw, ChildNamed(node.children, e.name).value, e)
  {
    hide Shows;
    ElementShows(raw, node, Wrapped(name, e));
    assert ShowAll(raw, node.children, Child(NEWLINE, e, Text(NEWLINE)));
    assert node.children[0].tag == e.name by { ShowsName(raw, node.children[0], e); }
  }

  lemma ShowsName(raw: seq<byte>, node: Node, e: Element)
    requires Shows(raw, node, e)
    ensures node.tag == e.name
  {
  }

  lemma GoodNames()
    ensures GoodName(NAME) && GoodName(VALUE) && GoodName(STRING) && GoodName(INT)
    ensures GoodName(MEMBER) && GoodName(STRUCT)
    ensures GoodName(PARAM) && GoodName(PARAMS) && GoodName(METHOD_RESPONSE)
  {
  }

  lemma ValueTextFree(f: Field)
    ensures Free(XmlText.Encoded(f.name), LT) && Free(ValueText(f), LT)
  {
    XmlText.NoTags(XmlText.Clean(f.name));
    if f.Words? {
      XmlText.NoTags(XmlText.Clean(f.text));
    } else {
      assert forall k :: 0 <= k < |Itos(f.n)| ==> Itos(f.n)[k] != LT;
    }
  }

  lemma MemberGood(f: Field)
    ensures Good(MemberElement(f))
  {
    hide GoodName;
    GoodNames();
    ValueTextFree(f);
    assert Free([], LT) && Free(NEWLINE, LT);
    hide Free, XmlText.Encoded, ValueText;
    assert Good(Inner(f)) && Good(NameElement(f));
    assert GoodContent(Child([], Inner(f), Text([])));
    assert Good(ValueElement(f));
    assert GoodContent(Child(NEWLINE, ValueElement(f), Text(NEWLINE)));
  }

  lemma {:induction false} StructGood(fields: seq<Field>)
    ensures GoodContent(StructContent(fields))
    decreases |fields|
  {
    hide Good;
    if fields != [] {
      MemberGood(fields[0]);
      StructGood(fields[1..]);
    }
  }

  lemma ResponseGood(fields: seq<Field>)
    ensures Good(Response(fields))
  {
    hide GoodName, StructContent, Free;
    GoodNames();
    StructGood(fields);
    assert Free(NEWLINE, LT) by { NewlineFree(); }
    var inner := Element(STRUCT, StructContent(fields));
    assert Good(inner);
    WrappedGood(PARAM, inner);
    WrappedGood(PARAMS, Wrapped(PARAM, inner));
    WrappedGood(METHOD_RESPONSE, Wrapped(PARAMS, Wrapped(PARAM, inner)));
  }

  lemma NewlineFree()
    ensures Free(NEWLINE, LT)
  {
  }

  lemma WrappedGood(name: seq<byte>, e: Element)
    requires GoodName(name) && Good(e)
    ensures Good(Wrapped(name, e))
  {
  }

  /** The struct of a parsed response: the one child of the one child of the one child of the root. */
  function ResponseStruct(root: Node): Option<Node> {
    var params := ChildNamed(root.children, PARAMS);
    if params.None? then None
    else
      var param := ChildNamed(params.value.children, PARAM);
      if param.None? then None else ChildNamed(param.value.children, STRUCT)
  }

  /**
   * Parsing a response gives a struct from which getStructMembers reads every member under its name: strings up to
   * the cleaning of UTF-8, 32-bit integers exactly. The names must differ once cleaned.
   */
  lemma ResponseRecovered(fields: seq<Field>, i: nat)
    requires DistinctNames(fields) && (forall f <- fields :: Fits(f)) && i < |fields|
    ensures
      var raw := ResponseWraper(ResponseMembers(fields));
      && ParseRoot(raw).Some? && ResponseStruct(ParseRoot(raw).value).Some?
      && var members := StructMembers(raw, ResponseStruct(ParseRoot(raw).value).value);
         && members.Some? && XmlText.Clean(fields[i].name) in members.value
         && Holds(raw, members.value[XmlText.Clean(fields[i].name)], fields[i])
  {
    hide ParseRoot, Shows, ChildNamed, Holds, Fits, ResponseMembers, ResponseWraper, Good, Message, StructContent,
         MembersOf, DistinctNames, XmlText.Clean, Wrapped;
    var raw := ResponseWraper(ResponseMembers(fields));
    WraperIsMessage(fields);
    ResponseGood(fields);
    assert Free(DECLARATION, GT) by { DeclarationFree(); }
    assert Free(NEWLINE, LT) by { NewlineFree(); }
    assert Response(fields).Element? by { WrappedElement(fields); }
    MessageShows(DECLARATION, NEWLINE, Response(fields), NEWLINE);
    var st := ResponsePath(raw, ParseRoot(raw).value, fields);
    ElementShows(raw, st, Element(STRUCT, StructContent(fields)));
    StructShows(raw, st.children, fields);
    MembersRead(raw, st.children, fields);
  }

  lemma WrappedElement(fields: seq<Field>)
    ensures Response(fields).Element?
  {
  }

  lemma DeclarationFree()
    ensures Free(DECLARATION, GT)
  {
  }

  lemma ResponsePath(raw: seq<byte>, root: Node, fields: seq<Field>) returns (st: Node)
    requires Shows(raw, root, Response(fields))
    ensures ResponseStruct(root) == Some(st) && Shows(raw, st, Element(STRUCT, StructContent(fields)))
  {
    hide Shows, ChildNamed, StructContent;
    var inner := Element(STRUCT, StructContent(fields));
    var param := Wrapped(PARAM, inner);
    var params := Wrapped(PARAMS, param);
    WrappedShows(raw, root, METHOD_RESPONSE, params);
    var second := ChildNamed(root.children, PARAMS).value;
    WrappedShows(raw, second, PARAMS, param);
    var third := ChildNamed(second.children, PARAM).value;
    WrappedShows(raw, third, PARAM, inner);
    st := ChildNamed(third.children, STRUCT).value;
  }
}
