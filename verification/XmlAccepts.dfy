/** What the XML parser accepts: nothing but nested elements with text between them. */
module XmlAccepts {
  import opened Bytes
  import opened RequestMessage
  import opened XmlParser

  /** The text before a tag, and the tag, where they stand. */
  lemma TagStands(raw: seq<byte>, at: nat) returns (before: seq<byte>)
    requires at <= |raw| && NextTag(raw, at).Tag?
    ensures
      var t := NextTag(raw, at);
      && Free(before, LT) && Free(t.text, GT) && t.start == at + |before| && t.end == t.start + |t.text| + 1
      && At(raw, at, before + StartTag(t.text))
  {
    var t := NextTag(raw, at);
    before := raw[at..t.start];
    assert Find(raw, GT, t.start) == t.end;
    assert raw[at..t.end + 1] == before + ([LT] + t.text + [GT]);
  }

  lemma AtJoin(raw: seq<byte>, at: nat, s: seq<byte>, t: seq<byte>)
    requires At(raw, at, s) && At(raw, at + |s|, t)
    ensures At(raw, at, s + t)
  {
    AtSplit(raw, at, s, t);
  }

  /** What one turn of the content loop did when all went well. */
  lemma TurnTaken(raw: seq<byte>, name: seq<byte>, start: nat, at: nat, acc: seq<Node>)
    requires start <= at <= |raw| && ParseContent(raw, name, start, at, acc).Some?
    ensures NextTag(raw, at).Tag? && NextTag(raw, at).text != []
    ensures
      var Tag(text, on, end) := NextTag(raw, at);
      if text[0] == SLASH then text[1..] == name
      else if text[|text| - 1] == SLASH then
        ParseContent(raw, name, start, end + 1, acc + [Node(text[..|text| - 1], end + 1, 0, [])]).Some?
      else
        && ParseContent(raw, text, end + 1, end + 1, []).Some?
        && var (child, behind) := ParseContent(raw, text, end + 1, end + 1, []).value;
           ParseContent(raw, name, start, behind, acc + [child]).Some?
  {
    hide NextTag;
  }

  /** Content that is read is content of this grammar, followed by its end tag. */
  lemma {:induction false} ContentAccepted(raw: seq<byte>, name: seq<byte>, start: nat, at: nat, acc: seq<Node>)
    returns (c: Content)
    requires start <= at <= |raw| && Free(name, GT) && ParseContent(raw, name, start, at, acc).Some?
    ensures GoodContent(c) && At(raw, at, PrintContent(c) + EndTag(name))
    decreases |raw| - at
  {
    hide ParseContent, NextTag, At, Free, StartTag;
    TurnTaken(raw, name, start, at, acc);
    var before := TagStands(raw, at);
    var Tag(text, on, end) := NextTag(raw, at);
    if text[0] == SLASH {
      c := Text(before);
      assert text == [SLASH] + name;
    } else if text[|text| - 1] == SLASH {
      var e := Empty(text[..|text| - 1]);
      var rest := ContentAccepted(raw, name, start, end + 1, acc + [Node(text[..|text| - 1], end + 1, 0, [])]);
      c := Child(before, e, rest);
      EmptyAccepted(text);
      assert text == e.name + [SLASH];
      AtJoin(raw, at, before + Print(e), PrintContent(rest) + EndTag(name));
      ChildText(before, Print(e), PrintContent(rest), EndTag(name));
    } else {
      var (child, behind) := ParseContent(raw, text, end + 1, end + 1, []).value;
      var inner := ContentAccepted(raw, text, end + 1, end + 1, []);
      assert Free(text, GT);
      ContentParses(raw, text, end + 1, end + 1, [], inner);
      var rest := ContentAccepted(raw, name, start, behind, acc + [child]);
      var e := Element(text, inner);
      c := Child(before, e, rest);
      AtJoin(raw, at, before + StartTag(text), PrintContent(inner) + EndTag(text));
      ElementText(before, StartTag(text), PrintContent(inner) + EndTag(text));
      AtJoin(raw, at, before + Print(e), PrintContent(rest) + EndTag(name));
      ChildText(before, Print(e), PrintContent(rest), EndTag(name));
    }
  }

  lemma EmptyAccepted(text: seq<byte>)
    requires text != [] && text[0] != SLASH && text[|text| - 1] == SLASH && Free(text, GT)
    ensures OpenName(text[..|text| - 1])
  {
  }

  lemma ChildText(before: seq<byte>, e: seq<byte>, rest: seq<byte>, end: seq<byte>)
    ensures (before + e) + (rest + end) == (before + (e + rest)) + end
  {
  }

  lemma ElementText(before: seq<byte>, head: seq<byte>, body: seq<byte>)
    ensures (before + head) + body == before + (head + body)
  {
  }

  /** Content is read exactly when it is content of this grammar followed by its end tag. */
  lemma ContentReadIff(raw: seq<byte>, name: seq<byte>, start: nat, at: nat, acc: seq<Node>)
    requires start <= at <= |raw| && Free(name, GT)
    ensures ParseContent(raw, name, start, at, acc).Some?
       <==> exists c :: GoodContent(c) && At(raw, at, PrintContent(c) + EndTag(name))
  {
    hide ParseContent, GoodContent, PrintContent, EndTag, At;
    if ParseContent(raw, name, start, at, acc).Some? {
      var c := ContentAccepted(raw, name, start, at, acc);
    }
    if exists c :: GoodContent(c) && At(raw, at, PrintContent(c) + EndTag(name)) {
      var c :| GoodContent(c) && At(raw, at, PrintContent(c) + EndTag(name));
      ContentParses(raw, name, start, at, acc, c);
    }
  }

  /** A message that is not refused: a first tag, a second one, its content and its end tag, with text before each. */
  lemma MessageAccepted(raw: seq<byte>)
    returns (lead: seq<byte>, declaration: seq<byte>, space: seq<byte>, name: seq<byte>, c: Content)
    requires ParseRoot(raw).Some?
    ensures Free(lead, LT) && Free(declaration, GT) && Free(space, LT) && Free(name, GT) && GoodContent(c)
    ensures At(raw, 0, lead + StartTag(declaration) + (space + StartTag(name)) + (PrintContent(c) + EndTag(name)))
  {
    hide ParseContent, NextTag, GoodContent, PrintContent, EndTag, StartTag, At, Free;
    lead := TagStands(raw, 0);
    declaration := NextTag(raw, 0).text;
    var second := NextTag(raw, 0).end + 1;
    space := TagStands(raw, second);
    name := NextTag(raw, second).text;
    var inner := NextTag(raw, second).end + 1;
    c := ContentAccepted(raw, name, inner, inner, []);
    AtJoin(raw, 0, lead + StartTag(declaration), space + StartTag(name));
    AtJoin(raw, 0, lead + StartTag(declaration) + (space + StartTag(name)), PrintContent(c) + EndTag(name));
  }
}
