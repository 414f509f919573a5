/** The websocket endpoint: receive buffer, fragment reassembly, close handshake and UTF-8 gate. */
module WebSocketEndpoint {
  import opened Bytes
  import opened WebSocketFrames
  import Base64
  import Utf8

  /** Everything the endpoint remembers. `sent` lists the frames handed to the socket, `raised` an escaped exception. */
  datatype State = State(
    base64: bool,
    closeSent: bool,
    previous: seq<byte>,
    buffer: seq<byte>,
    lastType: int,
    sent: seq<seq<byte>>,
    closed: bool,
    raised: bool)

  const ERROR_TEXT := Ascii("Error")
  const BYE_TEXT := Ascii("Bye")
  const INVALID_UTF8_TEXT := Ascii("Invalid UTF-8 data")

  function StatusBytes(code: nat): seq<byte>
    requires code < 0x10000
  {
    [code / 256, code % 256]
  }

  // ---------------------------------------------------------------- what each operation does

  function ClosePayload(text: seq<byte>): seq<byte> {
    if text == [] then [] else StatusBytes(if text == ERROR_TEXT then 1002 else 1000) + text
  }

  function SendCloseFrame(st: State, payload: seq<byte>): State {
    if st.closeSent then st
    else st.(sent := st.sent + [EncodeFrame(st.base64, CONNECTION_CLOSE_FRAME, payload)], closeSent := true)
  }

  function CloseWith(st: State, text: seq<byte>): State {
    SendCloseFrame(st, ClosePayload(text))
  }

  function Abort(st: State, text: seq<byte>): State { CloseWith(st, text).(closed := true) }

  /** A 64-bit unsigned difference. */
  function Unsigned(d: int): int { d % 0x1_0000_0000_0000_0000 }

  /** Effect of a decoded data frame. */
  function DataFrame(st: State, data: seq<byte>, fin: bool): (State, Option<seq<byte>>) {
    if fin then
      var whole := if st.previous != [] then st.previous + data else data;
      var st1 := st.(previous := []);
      if st.lastType == TEXT_FRAME && !Utf8.Valid(whole)
      then (SendCloseFrame(st1, StatusBytes(1007) + INVALID_UTF8_TEXT).(closed := true), Some([]))
      else (st1, Some(whole))
    else if |st.previous| > Unsigned(FRAME_SIZE_LIMIT - |data|) then (Abort(st, ERROR_TEXT), Some([]))
    else (st.(previous := st.previous + data), Some([]))
  }

  /** Effect of a decoded frame, once its type is the last frame type. */
  function Dispatch(st: State, data: seq<byte>, fin: bool): (State, Option<seq<byte>>) {
    if st.lastType == TEXT_FRAME || st.lastType == BINARY_FRAME then DataFrame(st, data, fin)
    else if st.lastType == CONNECTION_CLOSE_FRAME then (Abort(st, BYE_TEXT), Some([]))
    else if st.lastType == PING_FRAME
    then (st.(sent := st.sent + [EncodeFrame(st.base64, PONG_FRAME, data)]), Some([]))
    else if st.lastType == PONG_FRAME then (st, Some([]))
    else (Abort(st, ERROR_TEXT), Some([]))
  }

  /** Effect of one complete frame at the front of the buffer. */
  function Step(st: State): (State, Option<seq<byte>>) {
    var d := DecodeFrame(st.base64, st.buffer, st.lastType);
    var st1 := st.(buffer := d.rest, lastType := d.frameType);
    if d.data.None? then (st1.(raised := true), None) else Dispatch(st1, d.data.value, d.fin)
  }

  /** One call of receive() during which `chunk` arrives. */
  function Received(st: State, chunk: seq<byte>): (State, Option<seq<byte>>) {
    var st1 := st.(buffer := st.buffer + chunk);
    if Complete(st1.buffer) then Step(st1) else (st1, Some([]))
  }

  function Payload(ft: nat, s: seq<byte>): seq<byte> { if ft == TEXT_FRAME then Utf8.Sanitized(s) else s }

  function Sending(st: State, s: seq<byte>, ft: nat): State
    requires ft < 16
  {
    st.(sent := st.sent + [EncodeFrame(st.base64, ft, Payload(ft, s))])
  }

  /** The polls of closeAndWait: None when nothing arrives in time and nothing is buffered. */
  function Polling(st: State, polls: seq<Option<seq<byte>>>): State
    decreases |polls|
  {
    if polls == [] || st.closed then st
    else if st.buffer == [] && polls[0].None? then Polling(st, polls[1..])
    else
      var st1 := Received(st, if polls[0].Some? then polls[0].value else []).0;
      if st1.raised then st1 else Polling(st1, polls[1..])
  }

  function ClosedAfterWait(st: State, polls: seq<Option<seq<byte>>>): State {
    Polling(CloseWith(st, []), polls).(closed := true, raised := false)
  }

  // ---------------------------------------------------------------- the objects of the source

  class Socket {
    var sent: seq<seq<byte>>
    var closed: bool

    constructor ()
      ensures sent == [] && !closed
    {
      sent, closed := [], false;
    }

    method Send(frame: seq<byte>)
      modifies this
      ensures sent == old(sent) + [frame] && closed == old(closed)
    {
      sent := sent + [frame];
    }

    method Close()
      modifies this
      ensures closed && sent == old(sent)
    {
      closed := true;
    }
  }

  class WebSocket {
    const socket: Socket
    var base64: bool
    var closeSent: bool
    var previousData: seq<byte>
    var receiveBuffer: seq<byte>
    var lFrameType: int

    ghost function View(): State
      reads this, socket
    {
      State(base64, closeSent, previousData, receiveBuffer, lFrameType, socket.sent, socket.closed, false)
    }

    /** The subprotocol has been chosen during the handshake; the frame type is not initialised by the source. */
    constructor (s: Socket, base64: bool, anyType: int)
      ensures socket == s && View() == State(base64, false, [], [], anyType, s.sent, s.closed, false)
    {
      socket := s;
      this.base64, closeSent := base64, false;
      previousData, receiveBuffer, lFrameType := [], [], anyType;
    }

    method SendControl(payload: seq<byte>)
      modifies this, socket
      ensures View() == SendCloseFrame(old(View()), payload)
    {
      if !closeSent {
        var frame := EncodeFrameOf(base64, payload, CONNECTION_CLOSE_FRAME);
        socket.Send(frame);
        closeSent := true;
      }
    }

    method Close(t: seq<byte>)
      modifies this, socket
      ensures View() == CloseWith(old(View()), t)
    {
      var bye := [];
      if t != [] {
        var statusCode := if t == ERROR_TEXT then 1002 else 1000;
        bye := StatusBytes(statusCode) + t;
      }
      SendControl(bye);
    }

    method CloseAll(t: seq<byte>)
      modifies this, socket
      ensures View() == Abort(old(View()), t)
    {
      Close(t);
      socket.Close();
    }

    method ReceiveData(frameData: seq<byte>, fin: bool) returns (r: Option<seq<byte>>)
      modifies this, socket
      ensures (View(), r) == DataFrame(old(View()), frameData, fin) && r.Some?
    {
      var data := frameData;
      if fin {
        if |previousData| > 0 {
          data := previousData + data;
          previousData := [];
        }
        if lFrameType == TEXT_FRAME {
          var ok := Utf8.IsValidUtf8(data);
          if !ok {
            SendControl(StatusBytes(1007) + INVALID_UTF8_TEXT);
            socket.Close();
            return Some([]);
          }
        }
        return Some(data);
      } else {
        if |previousData| > Unsigned(FRAME_SIZE_LIMIT - |data|) {
          CloseAll(ERROR_TEXT);
          return Some([]);
        }
        previousData := previousData + data;
        return Some([]);
      }
    }

    /** The switch over the frame type. */
    method DispatchFrame(data: seq<byte>, fin: bool) returns (r: Option<seq<byte>>)
      modifies this, socket
      ensures (View(), r) == Dispatch(old(View()), data, fin) && r.Some?
    {
      hide EncodeFrame, DataFrame, Abort;
      if lFrameType == TEXT_FRAME || lFrameType == BINARY_FRAME {
        r := ReceiveData(data, fin);
        return r;
      } else if lFrameType == CONNECTION_CLOSE_FRAME {
        CloseAll(BYE_TEXT);
      } else if lFrameType == PING_FRAME {
        var pong := EncodeFrameOf(base64, data, PONG_FRAME);
        socket.Send(pong);
      } else if lFrameType == PONG_FRAME {
      } else {
        CloseAll(ERROR_TEXT);
      }
      return Some([]);
    }

    /** None when Base64 decoding raises; the exception leaves the object as it is then. */
    method Receive(chunk: seq<byte>) returns (r: Option<seq<byte>>)
      modifies this, socket
      ensures Received(old(View()), chunk) == (View().(raised := r.None?), r)
    {
      hide DecodeFrame, Dispatch, FrameSize;
      receiveBuffer := receiveBuffer + chunk;
      var complete := IsFrameComplete(receiveBuffer);
      if |receiveBuffer| > FRAME_SIZE_LIMIT + 14 && !complete {
        // Dead: an undecided buffer is always shorter, so the endpoint is never closed for an oversized one here.
        WaitingIsShort(receiveBuffer);
        assert false;
      }
      if complete {
        var d := DecodeFrameOf(base64, receiveBuffer, lFrameType);
        receiveBuffer := d.rest;
        lFrameType := d.frameType;
        if d.data.None? {
          return None;
        }
        r := DispatchFrame(d.data.value, d.fin);
        return r;
      }
      return Some([]);
    }

    /** `polls` lists what each of the timeout / 50 polls finds; an exception ends the wait. */
    method CloseAndWait(polls: seq<Option<seq<byte>>>)
      modifies this, socket
      ensures View() == ClosedAfterWait(old(View()), polls)
    {
      hide CloseWith, Received;
      Close([]);
      ghost var start := View();
      var i := 0;
      while i < |polls| && !socket.closed
        invariant 0 <= i <= |polls|
        invariant !View().raised && Polling(start, polls) == Polling(View(), polls[i..])
      {
        assert polls[i..][0] == polls[i] && polls[i..][1..] == polls[i + 1..];
        if |receiveBuffer| > 0 || polls[i].Some? {
          var data := Receive(if polls[i].Some? then polls[i].value else []);
          if data.None? {
            break;
          }
        }
        i := i + 1;
      }
      socket.Close();
    }

    method Send(s: seq<byte>, ft: nat)
      requires ft < 16
      modifies this, socket
      ensures View() == Sending(old(View()), s, ft)
    {
      Utf8.SanitizedFixpoints(s);
      var payload := s;
      if ft == TEXT_FRAME {
        var ok := Utf8.IsValidUtf8(s);
        if !ok {
          payload := Utf8.SanitizeUtf8(s);
        }
      }
      var frame := EncodeFrameOf(base64, payload, ft);
      socket.Send(frame);
    }
  }

  // ---------------------------------------------------------------- how the bytes arrive does not matter

  predicate Stopped(st: State) { st.closed || st.raised }

  type Outputs = seq<Option<seq<byte>>>

  function Flatten(chunks: seq<seq<byte>>): seq<byte> {
    if chunks == [] then [] else chunks[0] + Flatten(chunks[1..])
  }

  /** What a frame does after decoding has nothing to do with the bytes still buffered. */
  lemma DispatchKeepsBuffer(st: State, data: seq<byte>, fin: bool, buffer: seq<byte>)
    ensures Dispatch(st, data, fin).0.buffer == st.buffer
    ensures Dispatch(st.(buffer := buffer), data, fin)
         == (Dispatch(st, data, fin).0.(buffer := buffer), Dispatch(st, data, fin).1)
    ensures st.lastType == ERROR_FRAME ==> Stopped(Dispatch(st, data, fin).0)
  {
    hide EncodeFrame, DataFrame, Abort, Ascii;
    if st.lastType == TEXT_FRAME || st.lastType == BINARY_FRAME {
      DataFrameKeepsBuffer(st, data, fin, buffer);
    } else if st.lastType == CONNECTION_CLOSE_FRAME {
      AbortKeepsBuffer(st, BYE_TEXT, buffer);
    } else if st.lastType != PING_FRAME && st.lastType != PONG_FRAME {
      AbortKeepsBuffer(st, ERROR_TEXT, buffer);
    }
  }

  lemma AbortKeepsBuffer(st: State, text: seq<byte>, buffer: seq<byte>)
    ensures Abort(st, text).buffer == st.buffer && Abort(st, text).closed
    ensures Abort(st.(buffer := buffer), text) == Abort(st, text).(buffer := buffer)
  {
  }

  lemma DataFrameKeepsBuffer(st: State, data: seq<byte>, fin: bool, buffer: seq<byte>)
    ensures DataFrame(st, data, fin).0.buffer == st.buffer
    ensures DataFrame(st.(buffer := buffer), data, fin)
         == (DataFrame(st, data, fin).0.(buffer := buffer), DataFrame(st, data, fin).1)
  {
    hide EncodeFrame, Utf8.Valid, ClosePayload, Unsigned;
  }

  lemma DecodeShrinks(base64: bool, data: seq<byte>, lastType: int)
    requires Complete(data)
    ensures
      var d := DecodeFrame(base64, data, lastType);
      (d.frameType == ERROR_FRAME && d.rest == data && d.data.Some?) || |d.rest| < |data|
  {
    hide Base64.Decoded, Masked;
  }

  lemma StepShrinks(st: State)
    requires Complete(st.buffer)
    ensures Stopped(Step(st).0) || |Step(st).0.buffer| < |st.buffer|
  {
    hide FrameSize, DecodeFrame, Dispatch;
    DecodeShrinks(st.base64, st.buffer, st.lastType);
    var d := DecodeFrame(st.base64, st.buffer, st.lastType);
    if d.data.Some? {
      DispatchKeepsBuffer(st.(buffer := d.rest, lastType := d.frameType), d.data.value, d.fin, []);
    }
  }

  /** Calls of receive() until no complete frame is buffered; one output for each frame consumed. */
  function Drain(st: State): (State, Outputs)
    decreases Stopped(st), |st.buffer|
  {
    if Stopped(st) || !Complete(st.buffer) then (st, [])
    else
      StepShrinks(st);
      var (st1, out) := Step(st);
      if Stopped(st1) then (st1, [out])
      else var (st2, outs) := Drain(st1); (st2, [out] + outs)
  }

  /** One receive() for each arriving chunk, then draining. */
  function Deliver(st: State, chunks: seq<seq<byte>>): (State, Outputs)
    decreases |chunks|
  {
    if Stopped(st) then (st, [])
    else if chunks == [] then Drain(st)
    else
      var (st1, out) := Received(st, chunks[0]);
      var (st2, outs) := Deliver(st1, chunks[1..]);
      (st2, (if Complete(st.buffer + chunks[0]) then [out] else []) + outs)
  }

  function Feed(st: State, more: seq<byte>): State { st.(buffer := st.buffer + more) }

  /** Same outputs and same state; bytes that arrive after the end may be left unread. */
  predicate SameRun(a: (State, Outputs), b: (State, Outputs)) {
    && a.1 == b.1
    && a.0.(buffer := []) == b.0.(buffer := [])
    && (!Stopped(a.0) ==> a.0.buffer == b.0.buffer)
  }

  /** Bytes behind a complete frame do not affect how it is processed. */
  lemma StepFeed(st: State, more: seq<byte>)
    requires Complete(st.buffer)
    ensures Complete(Feed(st, more).buffer)
    ensures Step(Feed(st, more)) == (Feed(Step(st).0, more), Step(st).1)
  {
    hide FrameSize, DecodeFrame, Dispatch;
    DecisionStable(st.buffer, more);
    DecodeFeed(st.base64, st.buffer, more, st.lastType);
    var d := DecodeFrame(st.base64, st.buffer, st.lastType);
    if d.data.Some? {
      DispatchKeepsBuffer(st.(buffer := d.rest, lastType := d.frameType), d.data.value, d.fin, d.rest + more);
    }
  }

  lemma DecodeFeed(base64: bool, data: seq<byte>, more: seq<byte>, lastType: int)
    requires Complete(data)
    ensures
      var d := DecodeFrame(base64, data, lastType);
      DecodeFrame(base64, data + more, lastType) == d.(rest := d.rest + more)
  {
    hide FrameSize, Base64.Decoded, Masked;
    DecisionStable(data, more);
    match FrameSize(data)
    case Frame(control, mask, payload) =>
      if mask != 0 {
        FrameSizeMask(data);
        var total := control + mask + payload;
        assert (data + more)[0] == data[0];
        assert (data + more)[control + mask..total] == data[control + mask..total];
        assert (data + more)[control..control + 4] == data[control..control + 4];
        assert (data + more)[total..] == data[total..] + more;
      }
    case _ =>
  }

  lemma FrameSizeMask(data: seq<byte>)
    requires FrameSize(data).Frame?
    ensures FrameSize(data).mask == 0 || FrameSize(data).mask == 4
    ensures FrameSize(data).control >= 2 && FrameSize(data).Total() <= |data|
  {
  }

  lemma {:induction false} DeliverIsDrain(st: State, chunks: seq<seq<byte>>)
    requires !Stopped(st)
    ensures SameRun(Deliver(st, chunks), Drain(Feed(st, Flatten(chunks))))
    decreases |chunks|
  {
    hide Complete, Step;
    if chunks == [] {
      assert st.buffer + [] == st.buffer;
    } else {
      var rest := Flatten(chunks[1..]);
      var st1 := Received(st, chunks[0]).0;
      assert st.buffer + (chunks[0] + rest) == (st.buffer + chunks[0]) + rest;
      if Complete(st.buffer + chunks[0]) {
        StepFeed(Feed(st, chunks[0]), rest);
        if !Stopped(st1) {
          DeliverIsDrain(st1, chunks[1..]);
        }
      } else {
        DeliverIsDrain(st1, chunks[1..]);
      }
    }
  }

  /** Two ways of cutting the same bytes into socket reads are indistinguishable. */
  lemma {:induction false} CuttingIsIrrelevant(st: State, chunks: seq<seq<byte>>, others: seq<seq<byte>>)
    requires !Stopped(st) && Flatten(chunks) == Flatten(others)
    ensures SameRun(Deliver(st, chunks), Deliver(st, others))
  {
    hide Deliver, Drain;
    DeliverIsDrain(st, chunks);
    DeliverIsDrain(st, others);
  }

  // ---------------------------------------------------------------- what holds over any run

  predicate IsCloseFrame(frame: seq<byte>) { frame != [] && frame[0] % 16 == CONNECTION_CLOSE_FRAME }

  function CloseFrames(sent: seq<seq<byte>>): nat {
    if sent == [] then 0
    else CloseFrames(sent[..|sent| - 1]) + if IsCloseFrame(sent[|sent| - 1]) then 1 else 0
  }

  /** A frame is no text frame, or one of a valid payload. */
  ghost predicate TextIsFramedValid(frame: seq<byte>) {
    frame != [] && frame[0] % 16 == TEXT_FRAME ==> exists p :: Utf8.Valid(p) && frame == ServerFrame(TEXT_FRAME, p)
  }

  lemma SentOneMore(sent: seq<seq<byte>>, opcode: nat, data: seq<byte>)
    requires opcode < 16 && (opcode == TEXT_FRAME ==> Utf8.Valid(data))
    ensures CloseFrames(sent + [EncodeFrame(false, opcode, data)])
            == CloseFrames(sent) + if opcode == CONNECTION_CLOSE_FRAME then 1 else 0
    ensures TextIsFramedValid(EncodeFrame(false, opcode, data))
  {
    hide LengthField, Utf8.Valid;
    var frame := EncodeFrame(false, opcode, data);
    assert frame == ServerFrame(opcode, data) && frame[0] == 128 + opcode;
    assert (sent + [frame])[..|sent|] == sent;
  }

  ghost predicate RunInvariant(st: State) {
    && !st.base64 && !st.raised
    && |st.previous| <= FRAME_SIZE_LIMIT
    && CloseFrames(st.sent) == (if st.closeSent then 1 else 0)
    && forall frame <- st.sent :: TextIsFramedValid(frame)
  }

  datatype Operation =
    | ReceiveOp(chunk: seq<byte>)
    | SendOp(text: seq<byte>, frameType: nat)
    | CloseOp(reason: seq<byte>)
    | CloseAndWaitOp(polls: seq<Option<seq<byte>>>)

  /** Callers never send a close frame themselves. */
  predicate Legal(op: Operation) {
    op.SendOp? ==> op.frameType < 16 && op.frameType != CONNECTION_CLOSE_FRAME
  }

  function Apply(st: State, op: Operation): State
    requires Legal(op)
  {
    match op
    case ReceiveOp(chunk) => Received(st, chunk).0
    case SendOp(text, frameType) => Sending(st, text, frameType)
    case CloseOp(reason) => CloseWith(st, reason)
    case CloseAndWaitOp(polls) => ClosedAfterWait(st, polls)
  }

  function Run(st: State, ops: seq<Operation>): State
    requires forall k :: 0 <= k < |ops| ==> Legal(ops[k])
  {
    if ops == [] then st else Apply(Run(st, ops[..|ops| - 1]), ops[|ops| - 1])
  }

  lemma CloseKeepsInvariant(st: State, payload: seq<byte>)
    requires RunInvariant(st)
    ensures RunInvariant(SendCloseFrame(st, payload)) && SendCloseFrame(st, payload).closeSent
  {
    hide EncodeFrame, CloseFrames, Utf8.Valid, TextIsFramedValid;
    SentOneMore(st.sent, CONNECTION_CLOSE_FRAME, payload);
  }

  lemma DispatchKeepsInvariant(st: State, data: seq<byte>, fin: bool)
    requires RunInvariant(st) && |data| <= FRAME_SIZE_LIMIT
    ensures RunInvariant(Dispatch(st, data, fin).0)
  {
    hide EncodeFrame, CloseFrames, Utf8.Valid, SendCloseFrame, ClosePayload, TextIsFramedValid;
    SentOneMore(st.sent, PONG_FRAME, data);
    CloseKeepsInvariant(st, ClosePayload(BYE_TEXT));
    CloseKeepsInvariant(st, ClosePayload(ERROR_TEXT));
    CloseKeepsInvariant(st.(previous := []), StatusBytes(1007) + INVALID_UTF8_TEXT);
  }

  lemma SendingKeepsInvariant(st: State, text: seq<byte>, frameType: nat)
    requires RunInvariant(st) && frameType < 16 && frameType != CONNECTION_CLOSE_FRAME
    ensures RunInvariant(Sending(st, text, frameType))
  {
    hide EncodeFrame, CloseFrames, Utf8.Valid, Utf8.Sanitized, TextIsFramedValid;
    Utf8.SanitizedProperties(text);
    SentOneMore(st.sent, frameType, Payload(frameType, text));
  }

  lemma DecodeBounds(data: seq<byte>, lastType: int)
    requires Complete(data)
    ensures
      var d := DecodeFrame(false, data, lastType);
      d.data.Some? && |d.data.value| <= FRAME_SIZE_LIMIT
  {
  }

  lemma ReceiveKeepsInvariant(st: State, chunk: seq<byte>)
    requires RunInvariant(st)
    ensures RunInvariant(Received(st, chunk).0)
  {
    hide DecodeFrame, Dispatch, FrameSize, CloseFrames, TextIsFramedValid;
    var st1 := Feed(st, chunk);
    if Complete(st1.buffer) {
      DecodeBounds(st1.buffer, st1.lastType);
      var d := DecodeFrame(false, st1.buffer, st1.lastType);
      DispatchKeepsInvariant(st1.(buffer := d.rest, lastType := d.frameType), d.data.value, d.fin);
    }
  }

  lemma {:induction false} PollingKeepsInvariant(st: State, polls: seq<Option<seq<byte>>>)
    requires RunInvariant(st)
    ensures RunInvariant(Polling(st, polls))
    ensures st.closeSent ==> Polling(st, polls).closeSent
    decreases |polls|
  {
    hide Received, RunInvariant;
    if polls != [] && !st.closed {
      if st.buffer == [] && polls[0].None? {
        PollingKeepsInvariant(st, polls[1..]);
      } else {
        var chunk := if polls[0].Some? then polls[0].value else [];
        ReceiveKeepsInvariant(st, chunk);
        if st.closeSent {
          ReceiveKeepsCloseSent(st, chunk);
        }
        if !Received(st, chunk).0.raised {
          PollingKeepsInvariant(Received(st, chunk).0, polls[1..]);
        }
      }
    }
  }

  lemma ReceiveKeepsCloseSent(st: State, chunk: seq<byte>)
    requires st.closeSent
    ensures Received(st, chunk).0.closeSent
  {
    hide DecodeFrame, EncodeFrame, FrameSize, Utf8.Valid, ClosePayload;
  }

  /**
    * In every run outside base64 mode the reassembly buffer stays bounded, a buffer waiting for more bytes is short, at
    * most one close frame is sent, and every text frame sent has a valid payload.
    */
  lemma {:induction false} RunKeepsInvariant(st: State, ops: seq<Operation>)
    requires RunInvariant(st)
    requires forall k :: 0 <= k < |ops| ==> Legal(ops[k])
    ensures RunInvariant(Run(st, ops))
    ensures CloseFrames(Run(st, ops).sent) <= 1
    ensures !Complete(Run(st, ops).buffer) ==> |Run(st, ops).buffer| < FRAME_SIZE_LIMIT + 14
    ensures forall frame <- Run(st, ops).sent :: TextIsFramedValid(frame)
  {
    hide Received, CloseWith, Sending, Polling, TextIsFramedValid, CloseFrames, FrameSize, Complete;
    if !Complete(Run(st, ops).buffer) {
      WaitingIsShort(Run(st, ops).buffer);
    }
    if ops != [] {
      var before := Run(st, ops[..|ops| - 1]);
      RunKeepsInvariant(st, ops[..|ops| - 1]);
      OperationKeepsInvariant(before, ops[|ops| - 1]);
    }
  }

  lemma OperationKeepsInvariant(st: State, op: Operation)
    requires RunInvariant(st) && Legal(op)
    ensures RunInvariant(Apply(st, op))
    ensures op.CloseOp? || op.CloseAndWaitOp? ==> CloseFrames(Apply(st, op).sent) == 1
    ensures op.CloseAndWaitOp? ==> Apply(st, op).closed
  {
    hide Received, SendCloseFrame, Polling, EncodeFrame, CloseFrames, ClosePayload, TextIsFramedValid, Sending;
    match op
    case ReceiveOp(chunk) => ReceiveKeepsInvariant(st, chunk);
    case SendOp(text, frameType) => SendingKeepsInvariant(st, text, frameType);
    case CloseOp(reason) => CloseKeepsInvariant(st, ClosePayload(reason));
    case CloseAndWaitOp(polls) =>
      CloseKeepsInvariant(st, ClosePayload([]));
      PollingKeepsInvariant(CloseWith(st, []), polls);
  }

  /** A returned text message is valid UTF-8, and so is every text payload handed to the framing. */
  lemma {:induction false} TextIsValid(st: State, chunk: seq<byte>, s: seq<byte>)
    ensures
      var (st1, out) := Received(st, chunk);
      st1.lastType == TEXT_FRAME && out.Some? ==> Utf8.Valid(out.value)
    ensures Utf8.Valid(Payload(TEXT_FRAME, s))
    ensures Utf8.Valid(s) ==> Payload(TEXT_FRAME, s) == s
  {
    hide DecodeFrame, Dispatch, FrameSize, Utf8.Sanitized;
    Utf8.SanitizedProperties(s);
    Utf8.SanitizedFixpoints(s);
    var st1 := Feed(st, chunk);
    var d := DecodeFrame(st1.base64, st1.buffer, st1.lastType);
    if d.data.Some? {
      DispatchedTextIsValid(st1.(buffer := d.rest, lastType := d.frameType), d.data.value, d.fin);
    }
    assert Utf8.Valid([]);
  }

  lemma DispatchedTextIsValid(st: State, data: seq<byte>, fin: bool)
    ensures
      var (st1, out) := Dispatch(st, data, fin);
      st1.lastType == st.lastType && (st.lastType == TEXT_FRAME && out.Some? ==> Utf8.Valid(out.value))
  {
    hide EncodeFrame, ClosePayload;
    assert Utf8.Valid([]);
  }

  // ---------------------------------------------------------------- fragmented messages

  /** The frames of one message: the first carries the type, the others continue it, the last one has FIN set. */
  function Fragments(opcode: nat, masks: seq<seq<byte>>, pieces: seq<seq<byte>>): seq<byte>
    requires opcode < 16 && |masks| == |pieces| > 0
    requires forall k :: 0 <= k < |masks| ==> |masks[k]| == 4
  {
    if |pieces| == 1 then ClientFrame(true, opcode, masks[0], pieces[0])
    else ClientFrame(false, opcode, masks[0], pieces[0]) + Fragments(CONTINUATION_FRAME, masks[1..], pieces[1..])
  }

  function Nothing(n: nat): Outputs { if n == 0 then [] else [Some([])] + Nothing(n - 1) }

  predicate IsDataType(t: int) { t == TEXT_FRAME || t == BINARY_FRAME }

  lemma DataStep(st: State, fin: bool, opcode: nat, mask: seq<byte>, piece: seq<byte>, rest: seq<byte>)
    requires !Stopped(st) && !st.base64 && opcode < 16 && |mask| == 4 && |piece| <= FRAME_SIZE_LIMIT
    requires IsDataType(opcode) || (opcode == CONTINUATION_FRAME && IsDataType(st.lastType))
    requires st.buffer == ClientFrame(fin, opcode, mask, piece) + rest
    ensures
      var t := if opcode == CONTINUATION_FRAME then st.lastType else opcode;
      Complete(st.buffer) && Step(st) == DataFrame(st.(buffer := rest, lastType := t), piece, fin)
  {
    hide ClientFrame, DecodeFrame, DataFrame, FrameSize;
    ClientRoundTrip(fin, opcode, mask, piece, rest, st.lastType);
    CompleteWhenDecoded(st.buffer, st.lastType);
  }

  lemma CompleteWhenDecoded(data: seq<byte>, lastType: int)
    requires DecodeFrame(false, data, lastType).frameType != ERROR_FRAME
    ensures Complete(data)
  {
  }

  /** The state after the last fragment, before what it contains is judged. */
  function AfterMessage(st: State, opcode: nat, rest: seq<byte>): State {
    st.(buffer := rest, previous := [], lastType := if opcode == CONTINUATION_FRAME then st.lastType else opcode)
  }

  /** What the endpoint does with a whole message: return it, or close with status 1007 when the text is not UTF-8. */
  function Judged(done: State, whole: seq<byte>, pieces: nat): (State, Outputs)
    requires pieces > 0
  {
    if done.lastType == TEXT_FRAME && !Utf8.Valid(whole)
    then (SendCloseFrame(done, StatusBytes(1007) + INVALID_UTF8_TEXT).(closed := true), Nothing(pieces))
    else (Drain(done).0, Nothing(pieces - 1) + ([Some(whole)] + Drain(done).1))
  }

  lemma {:induction false} FinalFragment(st: State, opcode: nat, mask: seq<byte>, piece: seq<byte>, rest: seq<byte>)
    requires !Stopped(st) && !st.base64 && opcode < 16 && |mask| == 4 && |piece| <= FRAME_SIZE_LIMIT
    requires IsDataType(opcode) || (opcode == CONTINUATION_FRAME && IsDataType(st.lastType))
    requires st.buffer == ClientFrame(true, opcode, mask, piece) + rest
    ensures Drain(st) == Judged(AfterMessage(st, opcode, rest), st.previous + piece, 1)
  {
    hide ClientFrame, FrameSize, Utf8.Valid, EncodeFrame, Step;
    DataStep(st, true, opcode, mask, piece, rest);
    assert st.previous == [] ==> st.previous + piece == piece;
    assert Nothing(1) == [Some([])] && Nothing(0) == [];
    var out := [Some(st.previous + piece)] + Drain(AfterMessage(st, opcode, rest)).1;
    assert [] + out == out;
  }

  lemma {:induction false} InnerFragment(st: State, opcode: nat, mask: seq<byte>, piece: seq<byte>, rest: seq<byte>)
    requires !Stopped(st) && !st.base64 && opcode < 16 && |mask| == 4
    requires IsDataType(opcode) || (opcode == CONTINUATION_FRAME && IsDataType(st.lastType))
    requires |st.previous| + |piece| <= FRAME_SIZE_LIMIT
    requires st.buffer == ClientFrame(false, opcode, mask, piece) + rest
    ensures
      var next := AfterMessage(st, opcode, rest).(previous := st.previous + piece);
      Drain(st) == (Drain(next).0, [Some([])] + Drain(next).1)
  {
    hide ClientFrame, FrameSize, EncodeFrame, Step;
    DataStep(st, false, opcode, mask, piece, rest);
  }

  /**
    * A message split into fragments, with no control frame in between, is judged as the concatenation of its pieces;
    * the calls that consume the earlier fragments return nothing.
    */
  lemma {:induction false} MessageReassembled(st: State, opcode: nat, masks: seq<seq<byte>>, pieces: seq<seq<byte>>,
                                              rest: seq<byte>)
    requires !Stopped(st) && !st.base64 && opcode < 16 && |masks| == |pieces| > 0
    requires forall k :: 0 <= k < |masks| ==> |masks[k]| == 4
    requires IsDataType(opcode) || (opcode == CONTINUATION_FRAME && IsDataType(st.lastType))
    requires |pieces[|pieces| - 1]| <= FRAME_SIZE_LIMIT
    requires |st.previous| + |Flatten(pieces[..|pieces| - 1])| <= FRAME_SIZE_LIMIT
    requires st.buffer == Fragments(opcode, masks, pieces) + rest
    ensures Drain(st) == Judged(AfterMessage(st, opcode, rest), st.previous + Flatten(pieces), |pieces|)
    decreases |pieces|
  {
    hide ClientFrame, Drain, EncodeFrame, Utf8.Valid, SendCloseFrame;
    if |pieces| == 1 {
      FinalFragment(st, opcode, masks[0], pieces[0], rest);
      assert Flatten(pieces[1..]) == [] && pieces[0] + [] == pieces[0];
    } else {
      var tail := Fragments(CONTINUATION_FRAME, masks[1..], pieces[1..]) + rest;
      var inner := pieces[..|pieces| - 1];
      assert inner[0] == pieces[0] && inner[1..] == pieces[1..][..|pieces| - 2];
      assert st.buffer == ClientFrame(false, opcode, masks[0], pieces[0]) + tail;
      InnerFragment(st, opcode, masks[0], pieces[0], tail);
      var next := AfterMessage(st, opcode, tail).(previous := st.previous + pieces[0]);
      MessageReassembled(next, CONTINUATION_FRAME, masks[1..], pieces[1..], rest);
      assert next.previous + Flatten(pieces[1..]) == st.previous + Flatten(pieces);
      JudgedEarlier(AfterMessage(st, opcode, rest), st.previous + Flatten(pieces), |pieces| - 1);
    }
  }

  lemma JudgedEarlier(done: State, whole: seq<byte>, pieces: nat)
    requires pieces > 0
    ensures
      var (st1, outs) := Judged(done, whole, pieces);
      Judged(done, whole, pieces + 1) == (st1, [Some([])] + outs)
  {
    hide Drain, EncodeFrame, Utf8.Valid, SendCloseFrame;
    var outs := [Some(whole)] + Drain(done).1;
    assert ([Some([])] + Nothing(pieces - 1)) + outs == [Some([])] + (Nothing(pieces - 1) + outs);
  }
}
