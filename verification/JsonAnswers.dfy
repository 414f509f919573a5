/** What a reader of the JSON-RPC responses finds in them, by name. */
module JsonAnswers {
  import opened Bytes
  import opened RequestMessage
  import opened JsonParser
  import opened JsonRpc
  import opened JsonIds

  /** A member of the result of a response is the text, or the number within 32 bits, it is to say. */
  ghost predicate Says(raw: seq<byte>, name: seq<byte>, text: seq<byte>) {
    && ParseRoot(raw).Some? && ChildNamed(ParseRoot(raw).value.children, RESULT).Some?
    && var members := LastByTag(ChildNamed(ParseRoot(raw).value.children, RESULT).value.children);
       name in members && GetString(raw, members[name]) == Some(text)
  }

  ghost predicate Counts(raw: seq<byte>, name: seq<byte>, n: int) {
    && ParseRoot(raw).Some? && ChildNamed(ParseRoot(raw).value.children, RESULT).Some?
    && var members := LastByTag(ChildNamed(ParseRoot(raw).value.children, RESULT).value.children);
       && name in members && RawContent(raw, members[name]).Some?
       && (IntOf(RawContent(raw, members[name]).value) == n <==> -0x8000_0000 <= n < 0x8000_0000)
  }

  predicate Harmless(id: seq<byte>) {
    QUOTE !in id && BACKSLASH !in id
  }

  lemma MemberSaid(ms: Members, id: seq<byte>, i: nat)
    requires Distinct(Keys(ms)) && i < |Keys(ms)| && Harmless(id)
    ensures var raw := ResponseWraper(Print(Obj(ms)), id);
            && (Nth(ms, i).Str? ==> Says(raw, Keys(ms)[i], Nth(ms, i).text))
            && (Nth(ms, i).Num? ==> Counts(raw, Keys(ms)[i], Nth(ms, i).n))
  {
    hide Print, ParseRoot, Shows, LastByTag, ChildNamed, ResponseWraper, Keys, Nth, Distinct,
         GetString, RawContent, IntOf;
    var raw := ResponseWraper(Print(Obj(ms)), id);
    ResponseRecovered(ms, id, i);
    var node := LastByTag(ChildNamed(ParseRoot(raw).value.children, RESULT).value.children)[Keys(ms)[i]];
    LeafRead(raw, node, Nth(ms, i));
  }

  lemma RequestKeys(a: seq<byte>, m: seq<byte>, e: seq<byte>, port: int, secuport: int)
    ensures var ms := RequestMembers(a, m, e, port, secuport);
            && Keys(ms) == [Ascii("adminticket"), Ascii("monitorticket"), Ascii("executionticket"), Ascii("port"),
                            Ascii("secureport")]
            && Distinct(Keys(ms))
            && Nth(ms, 0) == Str(a) && Nth(ms, 1) == Str(m) && Nth(ms, 2) == Str(e)
            && Nth(ms, 3) == Num(port) && Nth(ms, 4) == Num(secuport)
  {
    hide Ascii;
    FirstLetters();
    var m4 := Member(Ascii("secureport"), Num(secuport), NoMember);
    var m3 := Member(Ascii("port"), Num(port), m4);
    var m2 := Member(Ascii("executionticket"), Str(e), m3);
    var m1 := Member(Ascii("monitorticket"), Str(m), m2);
    assert Keys(m4) == [Ascii("secureport")] && Nth(m4, 0) == Num(secuport);
    assert Keys(m3) == [Ascii("port"), Ascii("secureport")] && Nth(m3, 1) == Nth(m4, 0);
    assert Keys(m2) == [Ascii("executionticket")] + Keys(m3) && Nth(m2, 2) == Nth(m3, 1);
    assert Keys(m1) == [Ascii("monitorticket")] + Keys(m2) && Nth(m1, 3) == Nth(m2, 2);
    assert RequestMembers(a, m, e, port, secuport) == Member(Ascii("adminticket"), Str(a), m1);
    assert Nth(m1, 2) == Nth(m2, 1) == Nth(m3, 0) && Nth(m1, 1) == Nth(m2, 0);
  }

  /** The names begin with different letters. */
  lemma FirstLetters()
    ensures Ascii("adminticket") != [] && Ascii("adminticket")[0] == 0x61
    ensures Ascii("monitorticket") != [] && Ascii("monitorticket")[0] == 0x6D
    ensures Ascii("executionticket") != [] && Ascii("executionticket")[0] == 0x65
    ensures Ascii("port") != [] && Ascii("port")[0] == 0x70
    ensures Ascii("secureport") != [] && Ascii("secureport")[0] == 0x73
    ensures |Ascii("compilation")| == 11 && |Ascii("execution")| == 9 && |Ascii("executed")| == 8
    ensures Ascii("compilation")[0] == 0x63 && Ascii("interactive")[0] == 0x69 && |Ascii("interactive")| == 11
  {
  }

  /** The answer to a request says each ticket and each port under its name. */
  lemma RequestAnswered(adminticket: seq<byte>, monitorticket: seq<byte>, executionticket: seq<byte>, port: int,
                        secuport: int, id: seq<byte>)
    requires Harmless(id)
    ensures
      var ms := RequestMembers(adminticket, monitorticket, executionticket, port, secuport);
      var raw := ResponseWraper(Print(Obj(ms)), id);
      && Says(raw, Ascii("adminticket"), adminticket)
      && Says(raw, Ascii("monitorticket"), monitorticket)
      && Says(raw, Ascii("executionticket"), executionticket)
      && Counts(raw, Ascii("port"), port)
      && Counts(raw, Ascii("secureport"), secuport)
  {
    var ms := RequestMembers(adminticket, monitorticket, executionticket, port, secuport);
    RequestKeys(adminticket, monitorticket, executionticket, port, secuport);
    hide RequestMembers, Print, Says, Counts, ResponseWraper, Keys, Nth, Distinct, Ascii, Harmless;
    MemberSaid(ms, id, 0);
    MemberSaid(ms, id, 1);
    MemberSaid(ms, id, 2);
    MemberSaid(ms, id, 3);
    MemberSaid(ms, id, 4);
  }

  lemma ResultKeys(compilation: seq<byte>, execution: seq<byte>, executed: bool, interactive: bool)
    ensures var ms := ResultMembers(compilation, execution, executed, interactive);
            && Keys(ms) == [Ascii("compilation"), Ascii("execution"), Ascii("executed"), Ascii("interactive")]
            && Distinct(Keys(ms))
            && Nth(ms, 0) == Str(compilation) && Nth(ms, 1) == Str(execution)
            && Nth(ms, 2) == Num(if executed then 1 else 0) && Nth(ms, 3) == Num(if interactive then 1 else 0)
  {
    hide Ascii;
    FirstLetters();
    var m3 := Member(Ascii("interactive"), Num(if interactive then 1 else 0), NoMember);
    var m2 := Member(Ascii("executed"), Num(if executed then 1 else 0), m3);
    var m1 := Member(Ascii("execution"), Str(execution), m2);
    assert Keys(m3) == [Ascii("interactive")] && Nth(m3, 0).Num?;
    assert Keys(m2) == [Ascii("executed")] + Keys(m3) && Nth(m2, 1) == Nth(m3, 0);
    assert Keys(m1) == [Ascii("execution")] + Keys(m2) && Nth(m1, 2) == Nth(m2, 1) && Nth(m1, 1) == Nth(m2, 0);
    assert ResultMembers(compilation, execution, executed, interactive)
        == Member(Ascii("compilation"), Str(compilation), m1);
  }

  /** The answer about a result says both outputs, and the flags as 1 or 0, under their names. */
  lemma ResultAnswered(compilation: seq<byte>, execution: seq<byte>, executed: bool, interactive: bool, id: seq<byte>)
    requires Harmless(id)
    ensures
      var raw := ResponseWraper(Print(Obj(ResultMembers(compilation, execution, executed, interactive))), id);
      && Says(raw, Ascii("compilation"), compilation)
      && Says(raw, Ascii("execution"), execution)
      && Counts(raw, Ascii("executed"), if executed then 1 else 0)
      && Counts(raw, Ascii("interactive"), if interactive then 1 else 0)
  {
    var ms := ResultMembers(compilation, execution, executed, interactive);
    ResultKeys(compilation, execution, executed, interactive);
    hide ResultMembers, Print, Says, Counts, ResponseWraper, Keys, Nth, Distinct, Ascii, Harmless;
    MemberSaid(ms, id, 0);
    MemberSaid(ms, id, 1);
    MemberSaid(ms, id, 2);
    MemberSaid(ms, id, 3);
  }
}
