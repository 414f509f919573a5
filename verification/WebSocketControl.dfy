/** What the endpoint answers: pings, close frames and protocol errors; what it sends, and base64 mode. */
module WebSocketControl {
  import opened Bytes
  import opened WebSocketFrames
  import opened WebSocketEndpoint
  import Base64
  import Utf8

  // ---------------------------------------------------------------- what is decoded

  /** A permitted client frame decodes in base64 mode as well; text is taken as the Base64 of binary data then. */
  lemma ClientFrameDecodes(st: State, fin: bool, opcode: nat, mask: seq<byte>, payload: seq<byte>, rest: seq<byte>)
    requires opcode < 16 && |mask| == 4 && Permitted(fin, opcode, |payload|)
    requires st.buffer == ClientFrame(fin, opcode, mask, payload) + rest
    ensures
      var t := if opcode == CONTINUATION_FRAME then st.lastType else opcode;
      && Complete(st.buffer)
      && DecodeFrame(st.base64, st.buffer, st.lastType)
         == if st.base64 && t == TEXT_FRAME then Decoding(Base64.Decoded(payload), rest, BINARY_FRAME, fin)
            else Decoding(Some(payload), rest, t, fin)
  {
    assert |ClientFrame(fin, opcode, mask, payload)| > 0;
    hide ClientFrame, FrameSize, Masked, Base64.Decoded, Permitted;
    ClientRoundTrip(fin, opcode, mask, payload, rest, st.lastType);
    assert FrameSize(st.buffer).Frame? by {
      IsFrame(st.buffer, st.lastType, payload, rest);
    }
  }

  /** What is decoded with its bytes taken off the buffer was a frame. */
  lemma IsFrame(data: seq<byte>, lastType: int, payload: seq<byte>, rest: seq<byte>)
    requires DecodeFrame(false, data, lastType).data == Some(payload) && DecodeFrame(false, data, lastType).rest == rest
    requires rest != data
    ensures FrameSize(data).Frame?
  {
  }

  // ---------------------------------------------------------------- answers to control frames

  /** The calls of receive() go on from here, after one that returned nothing. */
  ghost predicate GoesOnWith(st: State, next: State) {
    Drain(st) == (Drain(next).0, [Some([])] + Drain(next).1)
  }

  lemma OneStep(st: State, next: State)
    requires !Stopped(st) && Complete(st.buffer) && Step(st) == (next, Some([]))
    ensures !Stopped(next) ==> GoesOnWith(st, next)
    ensures Stopped(next) ==> Drain(st) == (next, [Some([])])
  {
    hide Step, Complete;
  }

  /** A masked ping is answered by a pong with the same data; the bytes behind it are next. */
  lemma PingAnswered(st: State, mask: seq<byte>, p: seq<byte>, rest: seq<byte>)
    requires !Stopped(st) && |mask| == 4 && |p| <= 125 && st.buffer == ClientFrame(true, PING_FRAME, mask, p) + rest
    ensures GoesOnWith(st, st.(buffer := rest, lastType := PING_FRAME, sent := st.sent + [ServerFrame(PONG_FRAME, p)]))
  {
    hide ClientFrame, Complete, DecodeFrame, Drain, ServerFrame, GoesOnWith;
    ClientFrameDecodes(st, true, PING_FRAME, mask, p, rest);
    OneStep(st, st.(buffer := rest, lastType := PING_FRAME, sent := st.sent + [ServerFrame(PONG_FRAME, p)]));
  }

  /** A masked pong is not answered. */
  lemma PongIgnored(st: State, mask: seq<byte>, p: seq<byte>, rest: seq<byte>)
    requires !Stopped(st) && |mask| == 4 && |p| <= 125 && st.buffer == ClientFrame(true, PONG_FRAME, mask, p) + rest
    ensures GoesOnWith(st, st.(buffer := rest, lastType := PONG_FRAME))
  {
    hide ClientFrame, Complete, DecodeFrame, Drain, ServerFrame, GoesOnWith;
    ClientFrameDecodes(st, true, PONG_FRAME, mask, p, rest);
    OneStep(st, st.(buffer := rest, lastType := PONG_FRAME));
  }

  /** The state after a close frame was sent, unless there was one, and the socket closed. */
  function ClosedWith(st: State, payload: seq<byte>): State {
    st.(sent := if st.closeSent then st.sent else st.sent + [ServerFrame(CONNECTION_CLOSE_FRAME, payload)],
        closeSent := true, closed := true)
  }

  /** Status 1000 and "Bye", status 1002 and "Error", status 1007 and its text (RFC 6455, section 7.4.1). */
  const BYE: seq<byte> := [3, 232] + Ascii("Bye")
  const ERROR: seq<byte> := [3, 234] + Ascii("Error")
  const INVALID: seq<byte> := [3, 239] + Ascii("Invalid UTF-8 data")

  lemma AbortSends(st: State)
    ensures Abort(st, BYE_TEXT) == ClosedWith(st, BYE)
    ensures Abort(st, ERROR_TEXT) == ClosedWith(st, ERROR)
    ensures SendCloseFrame(st, StatusBytes(1007) + INVALID_UTF8_TEXT).(closed := true) == ClosedWith(st, INVALID)
  {
    hide ServerFrame;
    assert BYE_TEXT != ERROR_TEXT by {
      assert |BYE_TEXT| != |ERROR_TEXT|;
    }
    assert StatusBytes(1000) == [3, 232] && StatusBytes(1002) == [3, 234] && StatusBytes(1007) == [3, 239];
  }

  /** A masked close frame is answered by one, unless one was sent, and ends the connection. */
  lemma CloseAnswered(st: State, mask: seq<byte>, p: seq<byte>, rest: seq<byte>)
    requires !Stopped(st) && |mask| == 4 && |p| <= 125 && |p| != 1
    requires st.buffer == ClientFrame(true, CONNECTION_CLOSE_FRAME, mask, p) + rest
    ensures Drain(st) == (ClosedWith(st.(buffer := rest, lastType := CONNECTION_CLOSE_FRAME), BYE), [Some([])])
  {
    hide ClientFrame, Complete, DecodeFrame, Drain, ServerFrame, Abort, Ascii;
    ClientFrameDecodes(st, true, CONNECTION_CLOSE_FRAME, mask, p, rest);
    var next := st.(buffer := rest, lastType := CONNECTION_CLOSE_FRAME);
    AbortSends(next);
    OneStep(st, ClosedWith(next, BYE));
  }

  /** Control frames as a client sends them. */
  datatype Control = Ping(mask: seq<byte>, data: seq<byte>) | Pong(mask: seq<byte>, data: seq<byte>)
                   | Close(mask: seq<byte>, data: seq<byte>)

  predicate Sendable(c: Control) {
    |c.mask| == 4 && |c.data| <= 125 && (c.Close? ==> |c.data| != 1)
  }

  function TypeOf(c: Control): (t: nat)
    ensures t < 16
  {
    match c
    case Ping(_, _) => PING_FRAME
    case Pong(_, _) => PONG_FRAME
    case Close(_, _) => CONNECTION_CLOSE_FRAME
  }

  function Written(cs: seq<Control>): seq<byte>
    requires forall k :: 0 <= k < |cs| ==> Sendable(cs[k])
  {
    if cs == [] then []
    else
      assert Sendable(cs[0]);
      ClientFrame(true, TypeOf(cs[0]), cs[0].mask, cs[0].data) + Written(cs[1..])
  }

  /** What must be sent back: a pong for each ping with its data, in order, up to a close frame, and one for that. */
  function Replies(cs: seq<Control>, closeSent: bool): seq<seq<byte>> {
    if cs == [] then []
    else
      match cs[0]
      case Ping(_, data) => [ServerFrame(PONG_FRAME, data)] + Replies(cs[1..], closeSent)
      case Pong(_, _) => Replies(cs[1..], closeSent)
      case Close(_, _) => if closeSent then [] else [ServerFrame(CONNECTION_CLOSE_FRAME, BYE)]
  }

  predicate Closes(cs: seq<Control>) {
    exists c <- cs :: c.Close?
  }

  function LastType(cs: seq<Control>, before: int): int {
    if cs == [] then before else TypeOf(cs[|cs| - 1])
  }

  /** The state once all frames of a stream are answered. */
  function AfterAll(st: State, cs: seq<Control>, rest: seq<byte>): State {
    st.(buffer := rest, lastType := LastType(cs, st.lastType), sent := st.sent + Replies(cs, st.closeSent))
  }

  /**
   * Over any stream of control frames, in base64 mode and outside it, the answers are sent in order; a close frame ends
   * the connection, without one the bytes behind the stream are next.
   */
  lemma {:induction false} ControlStream(st: State, cs: seq<Control>, rest: seq<byte>)
    requires !Stopped(st) && (forall k :: 0 <= k < |cs| ==> Sendable(cs[k])) && st.buffer == Written(cs) + rest
    ensures Closes(cs) ==> var end := Drain(st).0;
                           end.sent == st.sent + Replies(cs, st.closeSent) && end.closed && end.closeSent && !end.raised
    ensures !Closes(cs) ==> var next := AfterAll(st, cs, rest);
                            Drain(st) == (Drain(next).0, Nothing(|cs|) + Drain(next).1)
    decreases |cs|
  {
    hide ClientFrame, ServerFrame, Drain, Complete, Ascii;
    if cs == [] {
      assert st.sent + [] == st.sent && [] + rest == rest;
      assert Nothing(0) + Drain(st).1 == Drain(st).1;
    } else {
      var c, behind := cs[0], Written(cs[1..]) + rest;
      assert st.buffer == ClientFrame(true, TypeOf(c), c.mask, c.data) + behind;
      match c
      case Ping(mask, data) =>
        PingAnswered(st, mask, data, behind);
        var next := st.(buffer := behind, lastType := PING_FRAME, sent := st.sent + [ServerFrame(PONG_FRAME, data)]);
        ControlStream(next, cs[1..], rest);
        JoinReplies(st, next, cs, [ServerFrame(PONG_FRAME, data)]);
        OneMoreNothing(|cs|, Drain(AfterAll(st, cs, rest)).1);
      case Pong(mask, data) =>
        PongIgnored(st, mask, data, behind);
        var next := st.(buffer := behind, lastType := PONG_FRAME);
        ControlStream(next, cs[1..], rest);
        assert st.sent + [] == st.sent;
        JoinReplies(st, next, cs, []);
        OneMoreNothing(|cs|, Drain(AfterAll(st, cs, rest)).1);
      case Close(mask, data) =>
        CloseAnswered(st, mask, data, behind);
        assert st.sent + [] == st.sent;
    }
  }

  lemma JoinReplies(st: State, next: State, cs: seq<Control>, answer: seq<seq<byte>>)
    requires cs != [] && !cs[0].Close? && Replies(cs, st.closeSent) == answer + Replies(cs[1..], st.closeSent)
    requires next.sent == st.sent + answer && next.lastType == TypeOf(cs[0])
    ensures Closes(cs) <==> Closes(cs[1..])
    ensures next.sent + Replies(cs[1..], st.closeSent) == st.sent + Replies(cs, st.closeSent)
    ensures LastType(cs[1..], next.lastType) == LastType(cs, st.lastType)
  {
    hide ServerFrame, Replies, Closes;
    assert (st.sent + answer) + Replies(cs[1..], st.closeSent) == st.sent + (answer + Replies(cs[1..], st.closeSent));
    ClosesLater(cs);
    if |cs| > 1 {
      assert cs[1..][|cs| - 2] == cs[|cs| - 1];
    }
  }

  lemma ClosesLater(cs: seq<Control>)
    requires cs != [] && !cs[0].Close?
    ensures Closes(cs) <==> Closes(cs[1..])
  {
    assert cs == [cs[0]] + cs[1..];
    if Closes(cs) {
      var c :| c in cs && c.Close?;
      assert c in cs[1..];
    }
  }

  lemma OneMoreNothing(n: nat, outs: Outputs)
    requires n > 0
    ensures [Some([])] + (Nothing(n - 1) + outs) == Nothing(n) + outs
  {
    assert ([Some([])] + Nothing(n - 1)) + outs == [Some([])] + (Nothing(n - 1) + outs);
  }

  // ---------------------------------------------------------------- protocol errors

  /**
   * Which announced sizes are refused: more than 20 MiB; a control frame that is fragmented or longer than 125 bytes; a
   * close payload of one byte (RFC 6455, section 5.5).
   */
  lemma RefusedIff(first: byte, maskBit: byte, n: nat, tail: seq<byte>)
    requires (maskBit == 0 || maskBit == 128) && n < 0x8000_0000_0000_0000
    ensures FrameSize([first] + LengthField(maskBit, n) + tail).Bad? <==>
              || n > 20 * 1024 * 1024
              || (first % 16 >= 8 && (first < 128 || n > 125))
              || (first % 16 == 8 && n == 1)
  {
    assert ([first] + LengthField(maskBit, n) + tail)[0] == first;
    hide FrameSize, LengthField;
    AnySize(first, maskBit, n, tail);
  }

  lemma AnySize(first: byte, maskBit: byte, n: nat, tail: seq<byte>)
    requires (maskBit == 0 || maskBit == 128) && n < 0x8000_0000_0000_0000
    ensures
      var data := [first] + LengthField(maskBit, n) + tail;
      FrameSize(data) == Measured(data, 1 + |LengthField(maskBit, n)|, if maskBit == 128 then 4 else 0, n)
  {
    hide BigEndian, NetworkBytes, Fits, Measured, DropBytes;
    if n <= FRAME_SIZE_LIMIT {
      HeaderSize(first, maskBit, n, tail);
    } else {
      var field := LengthField(maskBit, n);
      var data := [first] + field + tail;
      assert data[1] == field[0] && data[2] == field[1];
      EightBytes(n);
      BigEndianOfBytes(n, 8);
      assert data[2..10] == NetworkBytes(n, 8);
      NetworkByteAt(n, 8, 0);
    }
  }

  lemma EightBytes(n: nat)
    requires n < 0x8000_0000_0000_0000
    ensures Fits(n, 8) && DropBytes(n, 7) < 128
  {
  }

  /** A size that does not use the shortest form, or has its top bit set, is refused (RFC 6455, section 5.2). */
  lemma LongFormRefused(first: byte, maskBit: byte, n: nat, tail: seq<byte>)
    requires maskBit == 0 || maskBit == 128
    ensures n < 126 ==> FrameSize([first, maskBit + 126] + NetworkBytes(n, 2) + tail).Bad?
    ensures n <= 0xFFFF ==> FrameSize([first, maskBit + 127] + NetworkBytes(n, 8) + tail).Bad?
    ensures 0x8000_0000_0000_0000 <= n < 0x1_0000_0000_0000_0000 ==>
              FrameSize([first, maskBit + 127] + NetworkBytes(n, 8) + tail).Bad?
  {
    hide BigEndian, NetworkBytes, Fits, DropBytes;
    var short := [first, maskBit + 126] + NetworkBytes(n, 2) + tail;
    var long := [first, maskBit + 127] + NetworkBytes(n, 8) + tail;
    assert short[2..4] == NetworkBytes(n, 2) && long[2..10] == NetworkBytes(n, 8);
    assert short[1] == maskBit + 126 && long[1] == maskBit + 127;
    if n <= 0xFFFF {
      FitsLength(n);
      BigEndianOfBytes(n, 2);
      BigEndianOfBytes(n, 8);
    }
    NetworkByteAt(n, 8, 0);
    assert long[2] == long[2..10][0];
    TopBit(n);
  }

  lemma TopBit(n: nat)
    ensures 0x8000_0000_0000_0000 <= n < 0x1_0000_0000_0000_0000 ==> 128 <= DropBytes(n, 7) < 256
  {
  }

  /** What is no frame for this endpoint: an announced size it refuses, no mask, a reserved bit, an unknown type. */
  predicate Malformed(st: State) {
    && Complete(st.buffer) && |st.buffer| >= 2
    && (FrameSize(st.buffer).Bad? || st.buffer[1] < 128 || st.buffer[0] / 16 % 8 != 0 || !KnownType(FrontType(st)))
  }

  function FrontType(st: State): int
    requires |st.buffer| >= 2
  {
    if st.buffer[0] % 16 == CONTINUATION_FRAME then st.lastType else st.buffer[0] % 16
  }

  predicate KnownType(t: int) {
    t in {1, 2, 8, 9, 10}
  }

  /** Any such bytes at the front of the buffer close the connection with status 1002. */
  lemma ErrorCloses(st: State)
    requires !Stopped(st) && Malformed(st)
    ensures exists buffer, t ::
              Drain(st) == (ClosedWith(st.(buffer := buffer, lastType := t), ERROR), [Some([])])
  {
    hide FrameSize, Drain, ServerFrame, Abort, Masked, Base64.Decoded, Ascii;
    var d := DecodeFrame(st.base64, st.buffer, st.lastType);
    var next := st.(buffer := d.rest, lastType := d.frameType);
    AbortSends(next);
    FrameIsMasked(st.buffer);
    OneStep(st, ClosedWith(next, ERROR));
  }

  lemma FrameIsMasked(data: seq<byte>)
    requires Complete(data)
    ensures |data| >= 2
    ensures FrameSize(data).Frame? ==> (FrameSize(data).mask == 0 <==> data[1] < 128)
  {
  }

  /** A fragment that would make the message longer than 20 MiB closes the connection with status 1002. */
  lemma LongMessageCloses(st: State, opcode: nat, mask: seq<byte>, piece: seq<byte>, rest: seq<byte>)
    requires !Stopped(st) && !st.base64 && opcode < 16 && |mask| == 4 && |piece| <= FRAME_SIZE_LIMIT
    requires IsDataType(opcode) || (opcode == CONTINUATION_FRAME && IsDataType(st.lastType))
    requires st.buffer == ClientFrame(false, opcode, mask, piece) + rest
    requires |st.previous| + |piece| > 20 * 1024 * 1024
    ensures
      var t := if opcode == CONTINUATION_FRAME then st.lastType else opcode;
      Drain(st) == (ClosedWith(st.(buffer := rest, lastType := t), ERROR), [Some([])])
  {
    hide ClientFrame, Complete, Step, Drain, ServerFrame, Abort, Ascii;
    DataStep(st, false, opcode, mask, piece, rest);
    var t := if opcode == CONTINUATION_FRAME then st.lastType else opcode;
    var next := st.(buffer := rest, lastType := t);
    AbortSends(next);
    OneStep(st, ClosedWith(next, ERROR));
  }

  /** A whole text message that is not UTF-8 closes the connection with status 1007 (RFC 6455, section 8.1). */
  lemma InvalidTextCloses(st: State, mask: seq<byte>, text: seq<byte>, rest: seq<byte>)
    requires !Stopped(st) && !st.base64 && |mask| == 4 && |text| <= FRAME_SIZE_LIMIT
    requires st.buffer == ClientFrame(true, TEXT_FRAME, mask, text) + rest && !Utf8.Valid(st.previous + text)
    ensures Drain(st) == (ClosedWith(st.(buffer := rest, previous := [], lastType := TEXT_FRAME), INVALID), [Some([])])
  {
    hide ClientFrame, Drain, ServerFrame, Ascii, SendCloseFrame, Utf8.Valid;
    FinalFragment(st, TEXT_FRAME, mask, text, rest);
    AbortSends(AfterMessage(st, TEXT_FRAME, rest));
    assert Nothing(1) == [Some([])];
  }

  /** Closing sends one close frame: without a reason an empty one, with "Error" status 1002, with others 1000. */
  lemma CloseSends(st: State, text: seq<byte>)
    ensures CloseWith(st, text).(closed := true)
         == ClosedWith(st, if text == [] then [] else if text == Ascii("Error") then ERROR else [3, 232] + text)
    ensures CloseWith(st, text).closed == st.closed
  {
    hide ServerFrame;
    assert StatusBytes(1000) == [3, 232] && StatusBytes(1002) == [3, 234];
  }

  // ---------------------------------------------------------------- data in both directions

  /**
   * What a peer reads of a frame that was sent: the type and the data as they were given, text made valid; in base64
   * mode binary data arrives as text that decodes to it.
   */
  lemma SentIsRead(st: State, s: seq<byte>, ft: nat)
    requires ft < 16 && Permitted(true, ft, |Outgoing(st.base64, ft, Payload(ft, s)).1|)
    requires st.base64 && ft == BINARY_FRAME ==> Permitted(true, TEXT_FRAME, |Base64.Encoded(s)|)
    ensures
      var sent := Sending(st, s, ft).sent;
      && |sent| == |st.sent| + 1 && sent[..|st.sent|] == st.sent
      && var frames := CutFrames(sent[|st.sent|]);
         && frames.Some? && |frames.value| == 1
         && var (t, data) := frames.value[0];
            && (st.base64 && ft == BINARY_FRAME ==> t == TEXT_FRAME && Base64.Decoded(data) == Some(s))
            && (ft == TEXT_FRAME ==> t == ft && Utf8.Valid(data) && |data| == |s| && (Utf8.Valid(s) ==> data == s))
            && (!(st.base64 && ft == BINARY_FRAME) && ft != TEXT_FRAME ==> t == ft && data == s)
  {
    hide ServerFrame, CutFrames, Utf8.Valid, Utf8.Sanitized, Base64.Encoded, Base64.Decoded, Permitted;
    var (t, data) := Outgoing(st.base64, ft, Payload(ft, s));
    var frame := ServerFrame(t, data);
    assert Sending(st, s, ft).sent == st.sent + [frame];
    assert frame + [] == frame;
    CutOne(t, data, []);
    assert CutFrames([]) == Some([]) by { NothingCut(); }
    assert [(t, data)] + [] == [(t, data)];
    Base64.RoundTrip(s);
    Utf8.SanitizedProperties(s);
    Utf8.SanitizedFixpoints(s);
  }

  lemma NothingCut()
    ensures CutFrames([]) == Some([])
  {
  }

  /** In base64 mode a text frame is the Base64 of binary data, which is returned as it is; anything else raises. */
  lemma Base64Received(st: State, mask: seq<byte>, text: seq<byte>, rest: seq<byte>)
    requires !Stopped(st) && st.base64 && st.previous == [] && |mask| == 4 && |text| <= FRAME_SIZE_LIMIT
    requires st.buffer == ClientFrame(true, TEXT_FRAME, mask, text) + rest
    ensures
      var next := st.(buffer := rest, lastType := BINARY_FRAME);
      Drain(st) == if Base64.Decoded(text).None? then (next.(raised := true), [None])
                   else (Drain(next).0, [Base64.Decoded(text)] + Drain(next).1)
  {
    hide ClientFrame, Complete, DecodeFrame, ServerFrame, Base64.Decoded, Step;
    ClientFrameDecodes(st, true, TEXT_FRAME, mask, text, rest);
    StepDecoded(st);
  }

  lemma StepDecoded(st: State)
    ensures
      var d := DecodeFrame(st.base64, st.buffer, st.lastType);
      var next := st.(buffer := d.rest, lastType := d.frameType);
      Step(st) == if d.data.None? then (next.(raised := true), None) else Dispatch(next, d.data.value, d.fin)
  {
  }

  /** Binary data that a client in base64 mode sends arrives as it was. */
  lemma Base64DataArrives(st: State, mask: seq<byte>, x: seq<byte>, rest: seq<byte>)
    requires !Stopped(st) && st.base64 && st.previous == [] && |mask| == 4 && |Base64.Encoded(x)| <= FRAME_SIZE_LIMIT
    requires st.buffer == ClientFrame(true, TEXT_FRAME, mask, Base64.Encoded(x)) + rest
    ensures
      var next := st.(buffer := rest, lastType := BINARY_FRAME);
      Drain(st) == (Drain(next).0, [Some(x)] + Drain(next).1)
  {
    hide ClientFrame, Drain, Base64.Decoded, Base64.Encoded;
    Base64.RoundTrip(x);
    Base64Received(st, mask, Base64.Encoded(x), rest);
  }
}
