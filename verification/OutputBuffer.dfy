/** The output kept of a running program: everything while it is short, else its beginning and its end. */
module OutputBuffer {
  import opened Bytes
  import Decimal

  const LIMIT: nat := 10 * 1024 * 1024
  const HALF: nat := LIMIT / 2

  /** Conversion of an unsigned size to a 32-bit signed integer. */
  function AsInt32(size: nat): (r: int)
    ensures -0x8000_0000 <= r < 0x8000_0000 && r <= size
    ensures (r - size) % 0x1_0000_0000 == 0
  {
    (size + 0x8000_0000) % 0x1_0000_0000 - 0x8000_0000
  }

  /** A size in bytes for people: the largest unit of which there are at least sixteen. */
  function MemSize(bytes: nat): seq<byte> {
    var kb := 1024;
    var mb := 1024 * kb;
    var gb := 1024 * mb;
    if bytes >= 16 * gb then Decimal.Itos(bytes / gb) + Ascii("G")
    else if bytes >= 16 * mb then Decimal.Itos(bytes / mb) + Ascii("M")
    else if bytes >= 16 * kb then Decimal.Itos(bytes / kb) + Ascii("K")
    else Decimal.Itos(bytes) + Ascii("B")
  }

  /** The text that stands for the part cut away. */
  function Marker(): seq<byte> {
    Ascii("\n=============== output cut to ") + MemSize(LIMIT) + Ascii(" =============\n")
  }

  function CutNotice(): seq<byte> {
    Ascii("program output has been limited to ") + MemSize(LIMIT)
  }

  lemma MarkerSize()
    ensures |Marker()| < 100
  {
  }

  lemma LimitSize()
    ensures MemSize(LIMIT) == Ascii("10240") + Ascii("K")
  {
    hide Ascii;
    assert MemSize(LIMIT) == Decimal.Itos(10240) + Ascii("K");
    assert Decimal.Digits(10) == [0x31] + [0x30];
    assert Decimal.Digits(102) == [0x31, 0x30, 0x32];
    assert Decimal.Digits(1024) == [0x31, 0x30, 0x32, 0x34];
    assert Decimal.Itos(10240) == [0x31, 0x30, 0x32, 0x34, 0x30];
    assert Ascii("10240") == [0x31, 0x30, 0x32, 0x34, 0x30] by { Number10240(); }
  }

  lemma Number10240()
    ensures Ascii("10240") == [0x31, 0x30, 0x32, 0x34, 0x30]
  {
  }

  lemma AsciiJoins(s: string, t: string)
    ensures Ascii(s) + Ascii(t) == Ascii(s + t)
  {
  }

  /** The texts name the limit of 10 MiB in the unit of the source. */
  lemma CutTexts()
    ensures Marker() == Ascii("\n=============== output cut to 10240K =============\n")
    ensures CutNotice() == Ascii("program output has been limited to 10240K")
  {
    LimitSize();
    hide Ascii, MemSize;
    var before, behind := "\n=============== output cut to ", " =============\n";
    var notice := "program output has been limited to ";
    AsciiJoins("10240", "K");
    AsciiJoins(before, "10240K");
    AsciiJoins(before + "10240K", behind);
    AsciiJoins(notice, "10240K");
    assert "10240" + "K" == "10240K";
    assert before + "10240K" + behind == "\n=============== output cut to 10240K =============\n";
    assert notice + "10240K" == "program output has been limited to 10240K";
  }

  datatype Buffer = Buffer(netbuf: seq<byte>, messages: seq<byte>, cut: bool, noOutput: bool)

  const EMPTY := Buffer([], [], false, true)

  function WithMessage(messages: seq<byte>, text: seq<byte>): seq<byte> {
    (if messages == [] then Ascii("\r\n") else messages) + Ascii("Jail: ") + text + Ascii("\r\n")
  }

  /** Whether adding `extra` bytes to `have` bytes makes the buffer be cut. */
  predicate Cuts(have: nat, extra: nat) {
    AsInt32(have + extra) > 2 * LIMIT
  }

  function Shortened(s: seq<byte>): seq<byte>
    requires |s| >= HALF
  {
    s[..HALF] + Marker() + s[|s| - HALF..]
  }

  function Added(b: Buffer, toAdd: seq<byte>): Buffer {
    if toAdd == [] then b
    else if Cuts(|b.netbuf|, |toAdd|) then
      Buffer(Shortened(b.netbuf + toAdd),
             if b.cut then b.messages else WithMessage(b.messages, CutNotice()), true, false)
    else Buffer(b.netbuf + toAdd, b.messages, b.cut, false)
  }

  class Redirector {
    var netbuf: seq<byte>
    var messageBuf: seq<byte>
    var outputBufferCuted: bool
    var noOutput: bool

    constructor ()
      ensures State() == EMPTY
    {
      netbuf, messageBuf, outputBufferCuted, noOutput := [], [], false, true;
    }

    function State(): Buffer
      reads this
    {
      Buffer(netbuf, messageBuf, outputBufferCuted, noOutput)
    }

    method AddMessage(toAdd: seq<byte>)
      modifies this`messageBuf
      ensures messageBuf == WithMessage(old(messageBuf), toAdd)
    {
      if messageBuf == [] {
        messageBuf := Ascii("\r\n");
      }
      messageBuf := messageBuf + Ascii("Jail: ") + toAdd + Ascii("\r\n");
    }

    method AddOutput(toAdd: seq<byte>)
      modifies this
      ensures State() == Added(old(State()), toAdd)
    {
      if toAdd == [] {
        return;
      }
      noOutput := false;
      if AsInt32(|netbuf| + |toAdd|) > 2 * LIMIT {
        var text := Marker();
        var overflow := netbuf + toAdd;
        var ofsize := |overflow|;
        netbuf := overflow[..LIMIT / 2] + text + overflow[ofsize - LIMIT / 2..][..LIMIT / 2];
        assert overflow[ofsize - HALF..][..HALF] == overflow[ofsize - HALF..];
        if !outputBufferCuted {
          AddMessage(CutNotice());
          outputBufferCuted := true;
        }
      } else {
        netbuf := netbuf + toAdd;
      }
    }
  }

  /** What reaches the redirector: pieces of program output and messages of the system. */
  datatype Event = Output(data: seq<byte>) | Message(text: seq<byte>)

  function Handled(b: Buffer, e: Event): Buffer {
    match e
    case Output(data) => Added(b, data)
    case Message(text) => b.(messages := WithMessage(b.messages, text))
  }

  /** The buffer after the events, oldest first. */
  function After(events: seq<Event>): Buffer {
    if events == [] then EMPTY
    else Handled(After(events[..|events| - 1]), events[|events| - 1])
  }

  /** The whole output of the program. */
  function Total(events: seq<Event>): seq<byte> {
    if events == [] then []
    else
      var rest := Total(events[..|events| - 1]);
      match events[|events| - 1]
      case Output(data) => rest + data
      case Message(_) => rest
  }

  /** The messages written, in order, with the notice of the first cut at its place. */
  function Texts(events: seq<Event>): seq<seq<byte>> {
    if events == [] then []
    else
      var before := events[..|events| - 1];
      match events[|events| - 1]
      case Output(_) => if After(events).cut && !After(before).cut then Texts(before) + [CutNotice()] else Texts(before)
      case Message(text) => Texts(before) + [text]
  }

  /** One line for each text, each behind the name of the system. */
  function Lines(texts: seq<seq<byte>>): seq<byte> {
    if texts == [] then []
    else Lines(texts[..|texts| - 1]) + (Ascii("Jail: ") + texts[|texts| - 1] + Ascii("\r\n"))
  }

  /** Messages are lines behind an empty line; without messages there is nothing. */
  function Rendered(texts: seq<seq<byte>>): seq<byte> {
    if texts == [] then [] else Ascii("\r\n") + Lines(texts)
  }

  lemma OneMoreLine(texts: seq<seq<byte>>, text: seq<byte>)
    ensures WithMessage(Rendered(texts), text) == Rendered(texts + [text])
  {
    assert |Ascii("\r\n")| == 2;
    hide Ascii;
    assert (texts + [text])[..|texts|] == texts;
    var end, name := Ascii("\r\n"), Ascii("Jail: ");
    LineJoins(Lines(texts), end, name, text);
    assert Lines(texts + [text]) == Lines(texts) + (name + text + end);
    assert WithMessage(Rendered(texts), text) == (if texts == [] then end else end + Lines(texts)) + name + text + end;
  }

  lemma LineJoins(lines: seq<byte>, end: seq<byte>, name: seq<byte>, text: seq<byte>)
    ensures (end + lines) + name + text + end == end + (lines + (name + text + end))
    ensures end + name + text + end == end + (name + text + end) == end + ([] + (name + text + end))
  {
  }

  /** `kept` bytes of the end are left of an output that was cut. */
  predicate HeadAndTail(buffer: seq<byte>, total: seq<byte>, kept: nat) {
    && kept >= HALF
    && |total| > kept + HALF + LIMIT
    && buffer == total[..HALF] + Marker() + total[|total| - kept..]
  }

  function Kept(b: Buffer): int {
    |b.netbuf| - HALF - |Marker()|
  }

  /** What a buffer says about the output it was filled from. */
  predicate Represents(b: Buffer, total: seq<byte>) {
    && (b.noOutput <==> total == [])
    && (if b.cut then Kept(b) >= 0 && HeadAndTail(b.netbuf, total, Kept(b)) else b.netbuf == total)
  }

  lemma CutKeepsEnds(netbuf: seq<byte>, total: seq<byte>, kept: nat, data: seq<byte>)
    requires HeadAndTail(netbuf, total, kept)
    requires |netbuf| + |data| > 2 * LIMIT
    ensures HeadAndTail(Shortened(netbuf + data), total + data, HALF)
  {
    hide Marker;
    var all := netbuf + data;
    var whole := total + data;
    assert all[..HALF] == whole[..HALF];
    assert all == (total[..HALF] + Marker()) + (total[|total| - kept..] + data);
    assert all[|all| - HALF..] == whole[|whole| - HALF..];
  }

  lemma AppendKeepsEnds(netbuf: seq<byte>, total: seq<byte>, kept: nat, data: seq<byte>)
    requires HeadAndTail(netbuf, total, kept)
    ensures HeadAndTail(netbuf + data, total + data, kept + |data|)
  {
    hide Marker;
    var whole := total + data;
    assert whole[..HALF] == total[..HALF];
    assert whole[|whole| - (kept + |data|)..] == total[|total| - kept..] + data;
  }

  /** One piece of output keeps the buffer an account of the output so far. */
  lemma AddedRepresents(b: Buffer, total: seq<byte>, data: seq<byte>)
    requires Represents(b, total)
    ensures Represents(Added(b, data), total + data)
  {
    hide Marker, AsInt32, HeadAndTail, Shortened, Cuts, WithMessage, CutNotice;
    if data == [] {
      assert total + data == total;
    } else if Cuts(|b.netbuf|, |data|) {
      CutIsLong(|b.netbuf|, |data|);
      if b.cut {
        CutKeepsEnds(b.netbuf, total, Kept(b), data);
      } else {
        FirstCutKeepsEnds(total + data);
      }
      ShortenedSize(b.netbuf + data);
    } else if b.cut {
      AppendKeepsEnds(b.netbuf, total, Kept(b), data);
    }
  }

  lemma CutIsLong(have: nat, extra: nat)
    ensures Cuts(have, extra) ==> have + extra > 2 * LIMIT
  {
  }

  lemma FirstCutKeepsEnds(total: seq<byte>)
    requires |total| > 2 * LIMIT
    ensures HeadAndTail(Shortened(total), total, HALF)
  {
    hide Marker;
  }

  lemma ShortenedSize(s: seq<byte>)
    requires |s| >= HALF
    ensures |Shortened(s)| == 2 * HALF + |Marker()|
  {
    hide Marker;
  }

  /** After any events the buffer is the whole output, or its beginning, the marker and its end. */
  lemma {:induction false} HeadAndTailKept(events: seq<Event>)
    ensures Represents(After(events), Total(events))
  {
    hide Marker, Cuts, Added, Represents;
    if events == [] {
      assert Represents(EMPTY, []) by { EmptyRepresents(); }
    } else {
      var before := events[..|events| - 1];
      HeadAndTailKept(before);
      match events[|events| - 1]
      case Output(data) => AddedRepresents(After(before), Total(before), data);
      case Message(text) => MessageRepresents(After(before), Total(before), text);
    }
  }

  lemma EmptyRepresents()
    ensures Represents(EMPTY, [])
  {
  }

  lemma MessageRepresents(b: Buffer, total: seq<byte>, text: seq<byte>)
    requires Represents(b, total)
    ensures Represents(b.(messages := WithMessage(b.messages, text)), total)
  {
  }

  /** The notice of a cut is written once, where the first cut happens, among the other messages. */
  lemma {:induction false} MessagesAreTexts(events: seq<Event>)
    ensures After(events).messages == Rendered(Texts(events))
  {
    hide Marker, Cuts, CutNotice, Shortened, WithMessage, Rendered;
    if events == [] {
      assert Rendered([]) == [] by { NothingRendered(); }
    } else {
      var before := events[..|events| - 1];
      MessagesAreTexts(before);
      match events[|events| - 1]
      case Output(data) => OneMoreLine(Texts(before), CutNotice());
      case Message(text) => OneMoreLine(Texts(before), text);
    }
  }

  lemma NothingRendered()
    ensures Rendered([]) == []
  {
  }

  /** Messages of the system, without the notices of cuts. */
  function Spoken(events: seq<Event>): seq<seq<byte>> {
    if events == [] then []
    else
      var rest := Spoken(events[..|events| - 1]);
      match events[|events| - 1]
      case Output(_) => rest
      case Message(text) => rest + [text]
  }

  /** Position of the notice among the texts. */
  ghost predicate NoticeAt(events: seq<Event>, p: nat) {
    p <= |Spoken(events)| && Texts(events) == Spoken(events)[..p] + [CutNotice()] + Spoken(events)[p..]
  }

  /** Exactly one notice is added to the messages when anything was cut, and none otherwise. */
  lemma {:induction false} OneNotice(events: seq<Event>)
    ensures !After(events).cut ==> Texts(events) == Spoken(events)
    ensures After(events).cut ==> exists p :: NoticeAt(events, p)
  {
    hide Marker, Cuts, CutNotice, Shortened;
    if events != [] {
      var before := events[..|events| - 1];
      OneNotice(before);
      if After(before).cut {
        var p :| NoticeAt(before, p);
        assert NoticeAt(events, p);
      } else if After(events).cut {
        assert Spoken(before) == Spoken(events);
        assert Spoken(events)[..|Spoken(events)|] == Spoken(events);
        assert NoticeAt(events, |Spoken(events)|);
      }
    }
  }

  lemma CutsWhen(have: nat, extra: nat)
    ensures Cuts(have, extra) <==> 2 * LIMIT < (have + extra) % 0x1_0000_0000 < 0x8000_0000
  {
  }

  /**
   * One piece keeps the buffer within twice the limit exactly when the sizes fit, or their sum modulo 2^32 shows the
   * excess.
   */
  lemma SizeBound(b: Buffer, data: seq<byte>)
    requires |b.netbuf| <= 2 * LIMIT
    ensures |Added(b, data).netbuf| <= 2 * LIMIT <==>
            (|b.netbuf| + |data| <= 2 * LIMIT
             || 2 * LIMIT < (|b.netbuf| + |data|) % 0x1_0000_0000 < 0x8000_0000)
  {
    hide Marker, AsInt32;
    MarkerSize();
    CutsWhen(|b.netbuf|, |data|);
  }

  /** The pieces a batch run adds come from one read of the terminal each. */
  const MAX_READ: nat := 256 * 1024

  predicate FromReads(events: seq<Event>) {
    forall e <- events :: e.Output? ==> |e.data| <= MAX_READ
  }

  /** With pieces as large as one read of the terminal the bound always holds. */
  lemma {:induction false} BatchSizeBound(events: seq<Event>)
    requires FromReads(events)
    ensures |After(events).netbuf| <= 2 * LIMIT
  {
    hide Marker, Shortened, Cuts;
    if events != [] {
      var before := events[..|events| - 1];
      BatchSizeBound(before);
      match events[|events| - 1]
      case Output(data) =>
        assert events[|events| - 1] in events;
        ShortPieceCuts(|After(before).netbuf|, |data|);
        SizeBound(After(before), data);
      case Message(_) =>
    }
  }

  lemma ShortPieceCuts(have: nat, extra: nat)
    requires have <= 2 * LIMIT && extra <= MAX_READ
    ensures Cuts(have, extra) <==> have + extra > 2 * LIMIT
  {
  }

  /** A single piece of 2^31 bytes is kept whole: its size reads as a negative number. */
  lemma HugePieceKept(data: seq<byte>)
    requires |data| == 0x8000_0000
    ensures Added(EMPTY, data).netbuf == data && |Added(EMPTY, data).netbuf| > 2 * LIMIT
  {
    assert AsInt32(|data|) == -0x8000_0000;
  }
}
