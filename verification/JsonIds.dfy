/** For which ids a JSON-RPC response, into which the id is inserted as it is, can be read back. */
module JsonIds {
  import opened Bytes
  import opened RequestMessage
  import opened JsonParser
  import opened JsonRpc
  import JsonStrings

  /** A text that may stand between quotes as it is. */
  predicate Bare(x: seq<byte>) {
    QUOTE !in x && BACKSLASH !in x
  }

  // ---------------------------------------------------------------- bare text reads as itself

  lemma {:induction false} BareScans(raw: seq<byte>, i: nat, x: seq<byte>)
    requires At(raw, i, x) && Bare(x)
    ensures ScanString(raw, i) == ScanString(raw, i + |x|)
    decreases |x|
  {
    if x != [] {
      assert x == [x[0]] + x[1..] && x[0] in x;
      AtCons(raw, i, x[0], x[1..]);
      BareScans(raw, i + 1, x[1..]);
    }
  }

  lemma PlainByteDecodes(raw: seq<byte>, i: nat, limit: nat)
    requires i < limit <= |raw| && raw[i] != QUOTE && raw[i] != BACKSLASH
    ensures JsonStrings.Decoded(raw, i, limit) == JsonStrings.Prepend([raw[i]], JsonStrings.Decoded(raw, i + 1, limit))
  {
  }

  lemma {:induction false} BareDecodes(raw: seq<byte>, i: nat, x: seq<byte>, limit: nat)
    requires At(raw, i, x) && Bare(x) && i + |x| <= limit <= |raw|
    ensures JsonStrings.Decoded(raw, i, limit)
         == JsonStrings.Prepend(x, JsonStrings.Decoded(raw, i + |x|, limit))
    decreases |x|
  {
    hide JsonStrings.Decoded, At;
    var rest := JsonStrings.Decoded(raw, i + |x|, limit);
    if x == [] {
      assert rest.Some? ==> [] + rest.value == rest.value;
    } else {
      assert x == [x[0]] + x[1..] && x[0] in x;
      AtCons(raw, i, x[0], x[1..]);
      PlainByteDecodes(raw, i, limit);
      BareDecodes(raw, i + 1, x[1..], limit);
      assert rest.Some? ==> [x[0]] + (x[1..] + rest.value) == x + rest.value;
    }
  }

  /** A bare text between quotes is a string node that decodes to it. */
  lemma BareParses(raw: seq<byte>, at: nat, x: seq<byte>)
    requires At(raw, at, [QUOTE] + x + [QUOTE]) && Bare(x)
    ensures at < |raw| && raw[at] == QUOTE
    ensures ParseString(raw, at) == Some((Node(STRING, at + 1, |x|, []), at + |x| + 2))
    ensures JsonStrings.Decoded(raw, at + 1, JsonStrings.Limit(raw, at + 1, |x|)) == Some(x)
  {
    hide JsonStrings.Decoded, JsonStrings.Prepend, ScanString, Bare, At;
    AtSplit(raw, at, [QUOTE] + x, [QUOTE]);
    AtSplit(raw, at, [QUOTE], x);
    AtChar(raw, at, [QUOTE], 0);
    var end := at + 1 + |x|;
    AtChar(raw, end, [QUOTE], 0);
    BareScans(raw, at + 1, x);
    QuoteScans(raw, end);
    BareDecodes(raw, at + 1, x, end);
    NothingDecodes(raw, end, x);
  }

  lemma NothingDecodes(raw: seq<byte>, limit: nat, x: seq<byte>)
    requires limit <= |raw|
    ensures JsonStrings.Prepend(x, JsonStrings.Decoded(raw, limit, limit)) == Some(x)
  {
    assert x + [] == x;
  }

  // ---------------------------------------------------------------- text with a quote or a backslash never does

  /** The bytes of an escape, and how far it reaches. */
  lemma ChunkFacts(data: seq<byte>, i: nat)
    requires i + 2 <= |data|
    ensures var (out, last) := JsonStrings.DecodeHexa(data, i + 2);
            && (|out| >= 2 ==> forall b <- out :: b >= 0x80)
            && if i + 6 > |data| then |out| == 3 && last == |data| - 1
               else
                 || (1 <= |out| <= 3 && last == i + 5)
                 || (|out| == 6 && last == i + 8 && i + 12 <= |data|)
                 || (|out| == 4 && last == i + 11 && i + 12 <= |data|)
  {
    hide JsonStrings.HexValue;
  }

  /** What decoding yields beyond the length of the text decoded are bytes of characters outside ASCII. */
  lemma {:induction false} Overhang(data: seq<byte>, i: nat, limit: nat, s: seq<byte>)
    requires i <= limit <= |data| && JsonStrings.Decoded(data, i, limit) == Some(s)
    ensures forall x :: limit - i <= x < |s| ==> s[x] >= 0x80
    decreases |data| - i
  {
    hide JsonStrings.DecodeHexa;
    if i < limit && data[i] == BACKSLASH && i + 1 < limit {
      if data[i + 1] == JsonStrings.LOWER_U {
        ChunkFacts(data, i);
        var (out, last) := JsonStrings.DecodeHexa(data, i + 2);
        var rest := JsonStrings.Decoded(data, last + 1, limit).value;
        if last + 1 <= limit {
          Overhang(data, last + 1, limit, rest);
        }
        OverhangStep(out, rest, limit - i, limit - (last + 1));
      } else {
        var rest := JsonStrings.Decoded(data, i + 2, limit).value;
        Overhang(data, i + 2, limit, rest);
      }
    } else if i < limit && data[i] != BACKSLASH && data[i] != QUOTE {
      Overhang(data, i + 1, limit, JsonStrings.Decoded(data, i + 1, limit).value);
    }
  }

  lemma OverhangStep(out: seq<byte>, rest: seq<byte>, before: int, behind: int)
    requires before >= 2 && (|out| >= 2 ==> forall b <- out :: b >= 0x80)
    requires rest == [] || (0 <= behind <= before - |out| && forall x :: behind <= x < |rest| ==> rest[x] >= 0x80)
    ensures forall x :: before <= x < |out + rest| ==> (out + rest)[x] >= 0x80
  {
    forall x | before <= x < |out + rest|
      ensures (out + rest)[x] >= 0x80
    {
      if x < |out| {
        assert (out + rest)[x] == out[x] && out[x] in out;
      } else {
        assert (out + rest)[x] == rest[x - |out|];
      }
    }
  }

  /**
   * With only a brace behind its closing quote a text never gains more than one byte, and that only for a final `\u`.
   */
  lemma {:induction false} Shrinks(data: seq<byte>, i: nat, limit: nat, s: seq<byte>)
    requires i <= limit && limit + 2 == |data| && JsonStrings.Decoded(data, i, limit) == Some(s)
    ensures |s| <= limit - i || (|s| == limit - i + 1 && limit > 0 && data[limit - 1] == JsonStrings.LOWER_U)
    decreases |data| - i
  {
    hide JsonStrings.DecodeHexa;
    if i < limit && data[i] == BACKSLASH && i + 1 < limit {
      if data[i + 1] == JsonStrings.LOWER_U {
        ChunkFacts(data, i);
        var (out, last) := JsonStrings.DecodeHexa(data, i + 2);
        var rest := JsonStrings.Decoded(data, last + 1, limit).value;
        if last + 1 <= limit {
          Shrinks(data, last + 1, limit, rest);
        }
      } else {
        Shrinks(data, i + 2, limit, JsonStrings.Decoded(data, i + 2, limit).value);
      }
    } else if i < limit && data[i] != BACKSLASH && data[i] != QUOTE {
      Shrinks(data, i + 1, limit, JsonStrings.Decoded(data, i + 1, limit).value);
    }
  }

  /** An escape yields something, and if it is more than one byte the first is outside ASCII. */
  lemma FirstOut(data: seq<byte>, i: nat, limit: nat) returns (out: seq<byte>, next: nat)
    requires i + 1 < limit <= |data| && data[i] == BACKSLASH
    requires data[i + 1] == JsonStrings.LOWER_U || JsonStrings.ShortMeaning(data[i + 1]).Some?
    ensures JsonStrings.Decoded(data, i, limit) == JsonStrings.Prepend(out, JsonStrings.Decoded(data, next, limit))
    ensures out != [] && (|out| >= 2 ==> out[0] >= 0x80) && next >= i + 2
  {
    hide JsonStrings.DecodeHexa;
    if data[i + 1] == JsonStrings.LOWER_U {
      ChunkFacts(data, i);
      var (chunk, last) := JsonStrings.DecodeHexa(data, i + 2);
      out, next := chunk, last + 1;
      assert out[0] in out;
    } else {
      out, next := [JsonStrings.ShortMeaning(data[i + 1]).value], i + 2;
    }
  }

  lemma OutThenRest(out: seq<byte>, rest: seq<byte>, t: seq<byte>)
    requires out != [] && t != [] && (|out| == 1 ==> rest != t[1..]) && (|out| >= 2 ==> out[0] != t[0])
    ensures out + rest != t
  {
    assert (out + rest)[0] == out[0];
    assert |out| == 1 ==> (out + rest)[1..] == rest;
  }

  /** Text that starts with a backslash never decodes to itself. */
  lemma EscapeIsNotItself(data: seq<byte>, i: nat, limit: nat, t: seq<byte>)
    requires i < limit && limit + 2 == |data| && data[i] == BACKSLASH && data[i..limit] == t
    ensures JsonStrings.Decoded(data, i, limit) != Some(t)
  {
    assert t[0] == data[i];
    if i + 1 < limit && (data[i + 1] == JsonStrings.LOWER_U || JsonStrings.ShortMeaning(data[i + 1]).Some?) {
      var out, next := FirstOut(data, i, limit);
      var rest := JsonStrings.Decoded(data, next, limit);
      hide JsonStrings.Decoded;
      if rest.Some? {
        NotWithoutOneByte(data, i, next, limit, t, rest.value);
        OutThenRest(out, rest.value, t);
      }
    }
  }

  lemma NotWithoutOneByte(data: seq<byte>, i: nat, next: nat, limit: nat, t: seq<byte>, rest: seq<byte>)
    requires i + 1 < limit && limit + 2 == |data| && data[i..limit] == t && i + 2 <= next
    requires JsonStrings.Decoded(data, next, limit) == Some(rest)
    ensures rest != t[1..]
  {
    if next <= limit {
      Shrinks(data, next, limit, rest);
      Overhang(data, next, limit, rest);
    }
    hide JsonStrings.Decoded;
    assert t[1..][|t| - 2] == data[limit - 1];
  }

  /** Up to its first quote or backslash a text is bare. */
  function BareSize(x: seq<byte>): (n: nat)
    ensures n <= |x| && Bare(x[..n])
    ensures n < |x| ==> x[n] == QUOTE || x[n] == BACKSLASH
    ensures n == |x| <==> Bare(x)
  {
    if x == [] || x[0] == QUOTE || x[0] == BACKSLASH then 0
    else
      var n := BareSize(x[1..]);
      assert x[..n + 1] == [x[0]] + x[1..][..n];
      assert x == [x[0]] + x[1..];
      n + 1
  }

  lemma AtAll(raw: seq<byte>, at: nat, s: seq<byte>)
    requires At(raw, at, s)
    ensures at + |s| <= |raw| && raw[at..at + |s|] == s && forall k :: 0 <= k < |s| ==> raw[at + k] == s[k]
  {
    forall k | 0 <= k < |s|
      ensures raw[at + k] == s[k]
    {
      assert raw[at + k] == raw[at..at + |s|][k];
    }
  }

  /** The closing quote found is the one written. */
  lemma LimitIsEnd(data: seq<byte>, i: nat, x: seq<byte>, limit: nat)
    requires At(data, i, x) && At(data, i + |x|, [QUOTE] + [CLOSE_BRACE]) && i + |x| + 2 == |data|
    requires ScanString(data, i) == Some(limit) && JsonStrings.Decoded(data, i, limit) == Some(x)
    ensures limit == i + |x|
  {
    ScanEnds(data, i);
    hide ScanString;
    AtAll(data, i, x);
    AtAll(data, i + |x|, [QUOTE] + [CLOSE_BRACE]);
    assert data[i + |x| + 1] == CLOSE_BRACE;
    Overhang(data, i, limit, x);
    hide JsonStrings.Decoded;
  }

  /** The first quote or backslash of a text ends it early or keeps it from decoding to itself. */
  lemma {:induction false} FirstSpecial(data: seq<byte>, i: nat, x: seq<byte>, limit: nat)
    requires At(data, i, x) && limit == i + |x| && limit + 2 == |data| && !Bare(x)
    ensures ScanString(data, i) == Some(limit) ==> JsonStrings.Decoded(data, i, limit) != Some(x)
  {
    hide ScanString, JsonStrings.Decoded, Bare, JsonStrings.Prepend;
    var n := BareSize(x);
    assert x == x[..n] + x[n..];
    AtSplit(data, i, x[..n], x[n..]);
    AtAll(data, i + n, x[n..]);
    assert data[i + n] == x[n];
    BareScans(data, i, x[..n]);
    if x[n] == QUOTE {
      QuoteScans(data, i + n);
    } else {
      BareDecodes(data, i, x[..n], limit);
      EscapeIsNotItself(data, i + n, limit, x[n..]);
      SameTail(x, n, JsonStrings.Decoded(data, i + n, limit));
    }
  }

  /** A text that reads back as itself between quotes, with only a brace behind them, is bare. */
  lemma {:induction false} ReadBackIsBare(data: seq<byte>, i: nat, x: seq<byte>, limit: nat)
    requires At(data, i, x) && At(data, i + |x|, [QUOTE] + [CLOSE_BRACE]) && i + |x| + 2 == |data|
    requires ScanString(data, i) == Some(limit) && JsonStrings.Decoded(data, i, limit) == Some(x)
    ensures Bare(x)
  {
    LimitIsEnd(data, i, x, limit);
    hide ScanString, JsonStrings.Decoded, Bare, At;
    if !Bare(x) {
      FirstSpecial(data, i, x, limit);
    }
  }

  lemma SameTail(x: seq<byte>, n: nat, rest: Option<seq<byte>>)
    requires n <= |x|
    ensures JsonStrings.Prepend(x[..n], rest) == Some(x) <==> rest == Some(x[n..])
  {
    if rest.Some? {
      assert x == x[..n] + x[n..];
      assert (x[..n] + rest.value)[n..] == rest.value;
    }
  }

  /** The end of a string is a quote. */
  lemma {:induction false} ScanEnds(raw: seq<byte>, i: nat)
    ensures ScanString(raw, i).Some? ==> raw[ScanString(raw, i).value] == QUOTE
    decreases |raw| - i
  {
    if i < |raw| && raw[i] == BACKSLASH && i + 1 < |raw| {
      ScanEnds(raw, i + 2);
      ScanEnds(raw, i + 6);
    } else if i < |raw| && raw[i] != QUOTE {
      ScanEnds(raw, i + 1);
    }
  }

  // ---------------------------------------------------------------- the response as it is written

  function VersionMember(): seq<byte> {
    Quoted(VERSION) + [COLON] + Print(Str(TWO))
  }

  function ResultMember(v: Value): seq<byte> {
    Quoted(RESULT) + [COLON] + Print(v)
  }

  /** The id member: the id between quotes as it is. */
  function IdMember(id: seq<byte>): seq<byte> {
    (Quoted(ID) + [COLON]) + ([QUOTE] + id + [QUOTE])
  }

  lemma IdMemberText(id: seq<byte>)
    ensures IdMember(id) == Ascii("\"id\":\"") + id + Ascii("\"")
  {
    WordsArePlain();
    hide JsonStrings.Encoded;
    assert Quoted(ID) == [QUOTE] + ID + [QUOTE];
    assert Quoted(ID) + [COLON] + [QUOTE] == Ascii("\"id\":\"");
    assert Ascii("\"") == [QUOTE];
  }

  lemma WraperMembers(v: Value, id: seq<byte>)
    ensures ResponseWraper(Print(v), id)
         == [OPEN_BRACE] + (VersionMember() + ([COMMA] + (ResultMember(v) + ([COMMA] + IdMember(id)))) + [CLOSE_BRACE])
  {
    WordsArePlain();
    IdMemberText(id);
    MemberTexts(VERSION, TWO, 0);
    assert Ascii(",") == [COMMA];
    hide Plain, Print, Quoted, Ascii, StringMember, ResponseWraper, IdMember;
    EnvelopeText(Print(v), id, IdMember(id), ResultMember(v), VersionMember());
    Grouped([OPEN_BRACE], VersionMember(), [COMMA], ResultMember(v), IdMember(id), [CLOSE_BRACE]);
  }

  lemma Grouped(open: seq<byte>, a: seq<byte>, comma: seq<byte>, b: seq<byte>, c: seq<byte>, close: seq<byte>)
    ensures open + (a + comma + (b + comma + c)) + close == open + (a + (comma + (b + (comma + c))) + close)
  {
  }

  /** Where the members of the response stand. */
  lemma MembersStand(raw: seq<byte>, v: Value, id: seq<byte>)
    requires raw == ResponseWraper(Print(v), id)
    ensures var second := 1 + |VersionMember()| + 1;
            var third := second + |ResultMember(v)| + 1;
            && raw != [] && raw[0] == OPEN_BRACE
            && At(raw, 1, VersionMember()) && second - 1 < |raw| && raw[second - 1] == COMMA
            && At(raw, second, ResultMember(v)) && third - 1 < |raw| && raw[third - 1] == COMMA
            && At(raw, third, IdMember(id) + [CLOSE_BRACE]) && |raw| == third + |IdMember(id)| + 1
  {
    WraperMembers(v, id);
    hide ResponseWraper, VersionMember, ResultMember, IdMember, Print;
    var all := VersionMember() + ([COMMA] + (ResultMember(v) + ([COMMA] + IdMember(id)))) + [CLOSE_BRACE];
    assert raw[0..|raw|] == raw;
    AtCons(raw, 0, OPEN_BRACE, all);
    CommaSplit(raw, 1, VersionMember(), ResultMember(v) + ([COMMA] + IdMember(id)), CLOSE_BRACE);
    CommaSplit(raw, 1 + |VersionMember()| + 1, ResultMember(v), IdMember(id), CLOSE_BRACE);
  }

  /** One member of the response, up to the comma behind it. */
  lemma MemberTurn(raw: seq<byte>, at: nat, key: seq<byte>, value: Value, acc: seq<Node>)
    requires at > 0 && At(raw, at, Quoted(key) + [COLON] + Print(value))
    requires var end := at + |Quoted(key) + [COLON] + Print(value)|; end < |raw| && raw[end] == COMMA
    ensures var end := at + |Quoted(key) + [COLON] + Print(value)|;
            ParseObject(raw, 0, at, acc)
            == ParseObject(raw, 0, end + 1, acc + [Tree(value, at + |Quoted(key)| + 1, key)])
  {
    hide ParseMember, ParseObject, Quoted, Print, Tree, At;
    ParsePrintedMember(raw, at, key, value);
    PrintedTurn(raw, 0, at, key, value, acc);
  }

  function VersionNode(): Node {
    Tree(Str(TWO), 1 + |Quoted(VERSION)| + 1, VERSION)
  }

  function ResultNode(v: Value): Node {
    Tree(v, 1 + |VersionMember()| + 1 + |Quoted(RESULT)| + 1, RESULT)
  }

  /** Where the id member starts. */
  function IdStart(v: Value): (n: nat)
    ensures n > 0
  {
    1 + |VersionMember()| + 1 + |ResultMember(v)| + 1
  }

  /** Whatever the id, the parser gets to the id member with the version and the result read. */
  lemma HeadParses(v: Value, id: seq<byte>)
    ensures var raw := ResponseWraper(Print(v), id);
            && At(raw, IdStart(v), IdMember(id) + [CLOSE_BRACE]) && |raw| == IdStart(v) + |IdMember(id)| + 1
            && raw != [] && ParseNode(raw, 0) == ParseObject(raw, 0, IdStart(v), [VersionNode(), ResultNode(v)])
            && SkipSpace(raw, 0) == Some(0) && Shows(raw, ResultNode(v), v)
  {
    hide ParseNode, ParseObject, ResponseWraper, Quoted, Print, Tree, At, Shows, IdMember;
    var raw := ResponseWraper(Print(v), id);
    MembersStand(raw, v, id);
    NoSpace(raw, 0);
    ObjectStarts(raw, 0);
    var second := 1 + |VersionMember()| + 1;
    MemberTurn(raw, 1, VERSION, Str(TWO), []);
    MemberTurn(raw, second, RESULT, v, [VersionNode()]);
    assert [] + [VersionNode()] == [VersionNode()];
    assert [VersionNode()] + [ResultNode(v)] == [VersionNode(), ResultNode(v)];
    AtSplit(raw, second, Quoted(RESULT) + [COLON], Print(v));
    TreeShows(raw, second + |Quoted(RESULT)| + 1, v, RESULT);
  }

  /** The id member is what the string in it parses to. */
  lemma {:induction false} IdParses(raw: seq<byte>, third: nat, id: seq<byte>)
    requires At(raw, third, IdMember(id) + [CLOSE_BRACE])
    ensures var start := third + |Quoted(ID)| + 1;
            && third < |raw| && raw[third] == QUOTE && start < |raw|
            && At(raw, start, [QUOTE] + id + [QUOTE])
            && ParseMember(raw, third) == match ParseString(raw, start)
                                          case None => None
                                          case Some((node, end)) => Some((node.(tag := ID), end))
  {
    hide ParseString, Quoted, JsonStrings.Decoded, At;
    var name := Quoted(ID) + [COLON];
    var start := third + |Quoted(ID)| + 1;
    AtSplit(raw, third, IdMember(id), [CLOSE_BRACE]);
    AtSplit(raw, third, name, [QUOTE] + id + [QUOTE]);
    AtSplit(raw, third, Quoted(ID), [COLON]);
    QuotedParses(raw, third, ID);
    AtChar(raw, third + |Quoted(ID)|, [COLON], 0);
    AtChar(raw, start, [QUOTE] + id + [QUOTE], 0);
    NoSpace(raw, third + |Quoted(ID)|);
    NoSpace(raw, start);
    ObjectStarts(raw, start);
    hide ParseNode;
  }

  /** Children once read stay. */
  lemma {:induction false} ChildrenStay(raw: seq<byte>, start: nat, offset: nat, acc: seq<Node>)
    requires start < offset
    ensures var r := ParseObject(raw, start, offset, acc);
            r.Some? ==> |acc| <= |r.value.0.children| && r.value.0.children[..|acc|] == acc
    decreases |raw| - offset
  {
    hide ParseMember;
    if SkipSpace(raw, offset).Some? {
      var at := SkipSpace(raw, offset).value;
      if raw[at] == QUOTE && ParseMember(raw, at).Some? {
        var (child, end) := ParseMember(raw, at).value;
        if SkipSpace(raw, end).Some? {
          var next := SkipSpace(raw, end).value;
          if raw[next] == COMMA {
            ChildrenStay(raw, start, next + 1, acc + [child]);
          } else if raw[next] == CLOSE_BRACE {
            ChildrenStay(raw, start, next, acc + [child]);
          }
          LongerPrefix(acc, child, ParseObject(raw, start, offset, acc));
        }
      }
    }
  }

  lemma LongerPrefix(acc: seq<Node>, child: Node, r: Parsed)
    ensures r.Some? && |acc| < |r.value.0.children| && r.value.0.children[..|acc| + 1] == acc + [child] ==>
              r.value.0.children[..|acc|] == acc
  {
    if r.Some? && |acc| < |r.value.0.children| {
      assert r.value.0.children[..|acc| + 1][..|acc|] == r.value.0.children[..|acc|];
    }
  }

  /** A member read ahead of the rest of an object. */
  lemma {:induction false} FirstMember(raw: seq<byte>, at: nat, acc: seq<Node>)
    requires 0 < at < |raw| && raw[at] == QUOTE
    ensures var r := ParseObject(raw, 0, at, acc);
            r.Some? ==> ParseMember(raw, at).Some? && |acc| < |r.value.0.children|
                        && r.value.0.children[..|acc| + 1] == acc + [ParseMember(raw, at).value.0]
  {
    hide ParseMember;
    NoSpace(raw, at);
    if ParseMember(raw, at).Some? {
      var (child, end) := ParseMember(raw, at).value;
      if SkipSpace(raw, end).Some? {
        ChildrenStay(raw, 0, SkipSpace(raw, end).value, acc + [child]);
        ChildrenStay(raw, 0, SkipSpace(raw, end).value + 1, acc + [child]);
      }
    }
  }

  lemma TagsDiffer()
    ensures VERSION != RESULT && VERSION != ID && RESULT != ID
  {
    assert VERSION[0] != RESULT[0] && RESULT[0] != ID[0] && VERSION[0] != ID[0];
  }

  lemma {:induction false} ThreeChildren(children: seq<Node>, a: Node, b: Node, c: Node)
    requires |children| >= 3 && children[..3] == [a, b, c] && a.tag == VERSION && b.tag == RESULT && c.tag == ID
    ensures ChildNamed(children, RESULT) == Some(b) && ChildNamed(children, ID) == Some(c)
  {
    TagsDiffer();
    assert children[0] == children[..3][0] && children[1] == children[..3][1] && children[2] == children[..3][2];
    assert children[1..][0] == children[1] && children[1..][1..][0] == children[2];
  }

  /** What a reader of a response wants: it parses, its result shows the value, its id is the one sent. */
  ghost predicate ReadsBack(raw: seq<byte>, v: Value, id: seq<byte>) {
    && ParseRoot(raw).Some?
    && var children := ParseRoot(raw).value.children;
       && ChildNamed(children, RESULT).Some? && Shows(raw, ChildNamed(children, RESULT).value, v)
       && ChildNamed(children, ID).Some? && GetString(raw, ChildNamed(children, ID).value) == Some(id)
  }

  lemma TreeHasNodeTag(v: Value)
    ensures VersionNode().tag == VERSION && ResultNode(v).tag == RESULT
  {
    TreeHasTag(Str(TWO), 1 + |Quoted(VERSION)| + 1, VERSION);
    TreeHasTag(v, 1 + |VersionMember()| + 1 + |Quoted(RESULT)| + 1, RESULT);
  }

  lemma RootOf(raw: seq<byte>)
    requires raw != [] && SkipSpace(raw, 0) == Some(0)
    ensures ParseRoot(raw) == match ParseNode(raw, 0) case None => None case Some((node, _)) => Some(node)
  {
    hide ParseNode;
  }

  /** With its third member read and a brace behind it the object is complete. */
  lemma {:induction false} LastMember(raw: seq<byte>, third: nat, a: Node, b: Node, node: Node, end: nat)
    requires raw != [] && third > 0
    requires ParseNode(raw, 0) == ParseObject(raw, 0, third, [a, b]) && SkipSpace(raw, 0) == Some(0)
    requires third < end < |raw| && raw[third] == QUOTE && raw[end] == CLOSE_BRACE
    requires ParseMember(raw, third) == Some((node, end))
    ensures ParseRoot(raw) == Some(Node(OBJECT, 0, end, [a, b, node]))
  {
    hide ParseNode, ParseObject, ParseMember, SkipSpace, ParseRoot;
    ObjectTurn(raw, 0, third, [a, b], node, end);
    ObjectEnd(raw, 0, end, [a, b] + [node]);
    RootOf(raw);
    assert [a, b] + [node] == [a, b, node];
  }

  /** Of an object that parses the third member was read as well. */
  lemma {:induction false} ThirdMember(raw: seq<byte>, third: nat, a: Node, b: Node)
    requires raw != [] && third > 0
    requires ParseNode(raw, 0) == ParseObject(raw, 0, third, [a, b]) && SkipSpace(raw, 0) == Some(0)
    requires third < |raw| && raw[third] == QUOTE && ParseRoot(raw).Some?
    ensures ParseMember(raw, third).Some? && |ParseRoot(raw).value.children| >= 3
    ensures ParseRoot(raw).value.children[..3] == [a, b, ParseMember(raw, third).value.0]
  {
    hide ParseNode, ParseObject, ParseMember, SkipSpace, ParseRoot;
    RootOf(raw);
    FirstMember(raw, third, [a, b]);
    assert forall n: Node :: [a, b] + [n] == [a, b, n];
  }

  lemma BareIdReadsBack(raw: seq<byte>, v: Value, id: seq<byte>)
    requires raw == ResponseWraper(Print(v), id) && Bare(id)
    ensures ReadsBack(raw, v, id)
  {
    hide ParseNode, ParseObject, ParseMember, ParseString, ParseRoot, ResponseWraper, Quoted, Print, At, Shows,
         SkipSpace, JsonStrings.Decoded, Bare, IdStart, VersionNode, ResultNode, IdMember,
             ChildNamed;
    var third := IdStart(v);
    var start := third + |Quoted(ID)| + 1;
    HeadParses(v, id);
    IdParses(raw, third, id);
    TreeHasNodeTag(v);
    BareParses(raw, start, id);
    IdMemberSize(raw, third, start, id);
    var node := Node(ID, start + 1, |id|, []);
    LastMember(raw, third, VersionNode(), ResultNode(v), node, start + |id| + 2);
    var children := [VersionNode(), ResultNode(v), node];
    assert children[..3] == children;
    ThreeChildren(children, VersionNode(), ResultNode(v), node);
  }

  /** The closing brace stands right behind the id member. */
  lemma IdMemberSize(raw: seq<byte>, third: nat, start: nat, id: seq<byte>)
    requires At(raw, third, IdMember(id) + [CLOSE_BRACE]) && |raw| == third + |IdMember(id)| + 1
    requires start == third + |Quoted(ID)| + 1
    ensures start + |id| + 3 == |raw| && raw[start + |id| + 2] == CLOSE_BRACE
    ensures At(raw, start + 1, id) && At(raw, start + 1 + |id|, [QUOTE] + [CLOSE_BRACE])
  {
    hide Quoted, At;
    AtChar(raw, third, IdMember(id) + [CLOSE_BRACE], |IdMember(id)|);
    var name := Quoted(ID) + [COLON];
    assert IdMember(id) + [CLOSE_BRACE] == (name + [QUOTE]) + (id + ([QUOTE] + [CLOSE_BRACE]));
    AtSplit(raw, third, name + [QUOTE], id + ([QUOTE] + [CLOSE_BRACE]));
    AtSplit(raw, start + 1, id, [QUOTE] + [CLOSE_BRACE]);
  }

  /** The node of the id, when the response parses, spans what the string of the id does. */
  lemma IdNode(raw: seq<byte>, third: nat, id: seq<byte>) returns (limit: nat)
    requires At(raw, third, IdMember(id) + [CLOSE_BRACE]) && ParseMember(raw, third).Some?
    ensures var start := third + |Quoted(ID)| + 1;
            && limit >= start + 1 && limit <= |raw| && ScanString(raw, start + 1) == Some(limit)
            && ParseMember(raw, third).value.0 == Node(ID, start + 1, limit - (start + 1), [])
            && GetString(raw, ParseMember(raw, third).value.0) == JsonStrings.Decoded(raw, start + 1, limit)
  {
    hide ParseMember, ScanString, Quoted, At, JsonStrings.Decoded, IdMember;
    IdParses(raw, third, id);
    limit := ScanString(raw, third + |Quoted(ID)| + 1 + 1).value;
  }

  lemma {:induction false} ReadBackIdIsBare(raw: seq<byte>, v: Value, id: seq<byte>)
    requires raw == ResponseWraper(Print(v), id) && ReadsBack(raw, v, id)
    ensures Bare(id)
  {
    hide ParseNode, ParseObject, ParseMember, ParseString, ParseRoot, ResponseWraper, Quoted, Print, At, Shows,
         SkipSpace, JsonStrings.Decoded, Bare, IdStart, VersionNode, ResultNode, IdMember,
         ChildNamed, ScanString, GetString;
    var third := IdStart(v);
    var start := third + |Quoted(ID)| + 1;
    HeadParses(v, id);
    IdParses(raw, third, id);
    TreeHasNodeTag(v);
    ThirdMember(raw, third, VersionNode(), ResultNode(v));
    var limit := IdNode(raw, third, id);
    ThreeChildren(ParseRoot(raw).value.children, VersionNode(), ResultNode(v), ParseMember(raw, third).value.0);
    IdMemberSize(raw, third, start, id);
    ReadBackIsBare(raw, start + 1, id, limit);
  }

  /**
   * Whatever the result, a response is read back, with its result and its id, exactly when the id holds neither a quote
   * nor a backslash. Other characters that the writer escapes elsewhere do no harm here.
   */
  lemma ResponseReadsBackIff(v: Value, id: seq<byte>)
    ensures ReadsBack(ResponseWraper(Print(v), id), v, id) <==> QUOTE !in id && BACKSLASH !in id
  {
    hide ReadsBack, ResponseWraper, Print;
    if Bare(id) {
      BareIdReadsBack(ResponseWraper(Print(v), id), v, id);
    }
    if ReadsBack(ResponseWraper(Print(v), id), v, id) {
      ReadBackIdIsBare(ResponseWraper(Print(v), id), v, id);
    }
  }

  /**
   * Whoever parses such a response finds the id and in the result every member by name: strings as they were,
   * integers exactly when they are within 32 bits.
   */
  lemma ResponseRecovered(ms: Members, id: seq<byte>, i: nat)
    requires Distinct(Keys(ms)) && i < |Keys(ms)| && QUOTE !in id && BACKSLASH !in id
    ensures
      var raw := ResponseWraper(Print(Obj(ms)), id);
      && ReadsBack(raw, Obj(ms), id)
      && var members := LastByTag(ChildNamed(ParseRoot(raw).value.children, RESULT).value.children);
         && Keys(ms)[i] in members
         && Shows(raw, members[Keys(ms)[i]], Nth(ms, i))
  {
    hide Print, ParseRoot, Shows, LastByTag, ChildNamed, ResponseWraper, Keys, Nth, Distinct;
    ResponseReadsBackIff(Obj(ms), id);
    var raw := ResponseWraper(Print(Obj(ms)), id);
    MembersRecovered(raw, ChildNamed(ParseRoot(raw).value.children, RESULT).value, ms, i);
  }
}
