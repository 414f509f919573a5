/** RFC 6455 framing: size detection, decoding and encoding of single frames. */
module WebSocketFrames {
  import opened Bytes
  import Base64

  const FRAME_SIZE_LIMIT: nat := 20 * 1024 * 1024

  const CONTINUATION_FRAME := 0x00
  const TEXT_FRAME := 0x01
  const BINARY_FRAME := 0x02
  const CONNECTION_CLOSE_FRAME := 0x08
  const PING_FRAME := 0x09
  const PONG_FRAME := 0x0A
  const ERROR_FRAME := 0xFF

  // ---------------------------------------------------------------- numbers in network order

  function BigEndian(s: seq<byte>): nat {
    if s == [] then 0 else BigEndian(s[..|s| - 1]) * 256 + s[|s| - 1]
  }

  function NetworkBytes(n: nat, k: nat): (s: seq<byte>)
    ensures |s| == k
  {
    if k == 0 then [] else NetworkBytes(n / 256, k - 1) + [n % 256]
  }

  predicate Fits(n: nat, k: nat)
    decreases k
  {
    if k == 0 then n == 0 else Fits(n / 256, k - 1)
  }

  lemma {:induction false} BigEndianOfBytes(n: nat, k: nat)
    requires Fits(n, k)
    ensures BigEndian(NetworkBytes(n, k)) == n
    decreases k
  {
    if k > 0 {
      BigEndianOfBytes(n / 256, k - 1);
      assert NetworkBytes(n, k)[..k - 1] == NetworkBytes(n / 256, k - 1);
    }
  }

  /** `n` shifted right by `k` bytes. */
  function DropBytes(n: nat, k: nat): nat
    decreases k
  {
    if k == 0 then n else DropBytes(n / 256, k - 1)
  }

  lemma {:induction false} NetworkByteAt(n: nat, k: nat, j: nat)
    requires j < k
    ensures NetworkBytes(n, k)[j] == DropBytes(n, k - 1 - j) % 256
    decreases k
  {
    if j < k - 1 {
      NetworkByteAt(n / 256, k - 1, j);
    }
  }

  // ---------------------------------------------------------------- frame size

  /** What the buffered bytes already tell: -1 and -2 of the source are NeedMore and Bad. */
  datatype Decision = NeedMore | Bad | Frame(control: nat, mask: nat, payload: nat)
  {
    function Total(): nat
      requires Frame?
    {
      control + mask + payload
    }
  }

  function Opcode(first: byte): nat { first % 16 }

  predicate Fin(first: byte) { first >= 128 }

  /** Control frames are never fragmented nor long, and a close payload is empty or starts with two status bytes. */
  predicate Permitted(fin: bool, opcode: nat, size: nat) {
    && size <= FRAME_SIZE_LIMIT
    && (opcode >= 8 ==> fin && size <= 125)
    && (opcode == CONNECTION_CLOSE_FRAME ==> size != 1)
  }

  function Measured(data: seq<byte>, control: nat, mask: nat, size: nat): Decision
    requires |data| >= 2
  {
    if !Permitted(Fin(data[0]), Opcode(data[0]), size) then Bad
    else if |data| < control + mask + size then NeedMore
    else Frame(control, mask, size)
  }

  function MaskSize(data: seq<byte>): nat
    requires |data| >= 2
  {
    if data[1] >= 128 then 4 else 0
  }

  function FrameSize(data: seq<byte>): (d: Decision)
    ensures d.Frame? ==> 2 <= d.control <= 10 && d.mask <= 4 && d.payload <= FRAME_SIZE_LIMIT && d.Total() <= |data|
  {
    if |data| < 2 then NeedMore
    else if data[1] % 128 < 126 then Measured(data, 2, MaskSize(data), data[1] % 128)
    else if data[1] % 128 == 126 then
      if |data| < 4 then NeedMore
      else if BigEndian(data[2..4]) < 126 then Bad
      else Measured(data, 4, MaskSize(data), BigEndian(data[2..4]))
    else
      if |data| < 10 then NeedMore
      else if data[2] >= 128 then Bad
      else if BigEndian(data[2..10]) <= 0xFFFF then Bad
      else Measured(data, 10, MaskSize(data), BigEndian(data[2..10]))
  }

  predicate Complete(data: seq<byte>) { !FrameSize(data).NeedMore? }

  lemma PrefixSlice(d: seq<byte>, e: seq<byte>, lo: nat, hi: nat)
    requires lo <= hi <= |d|
    ensures (d + e)[lo..hi] == d[lo..hi]
  {
  }

  /** More bytes never change a decision already taken. */
  lemma DecisionStable(d: seq<byte>, e: seq<byte>)
    requires Complete(d)
    ensures FrameSize(d + e) == FrameSize(d)
  {
    assert (d + e)[0] == d[0] && (d + e)[1] == d[1];
    if |d| >= 4 {
      PrefixSlice(d, e, 2, 4);
    }
    if |d| >= 10 {
      PrefixSlice(d, e, 2, 10);
    }
  }

  /** No proper prefix of a well-formed frame is taken for a frame or for an error. */
  lemma ProperPrefixNeedsMore(frame: seq<byte>, k: nat)
    requires FrameSize(frame).Frame? && FrameSize(frame).Total() == |frame| && k < |frame|
    ensures FrameSize(frame[..k]) == NeedMore
  {
    assert frame == frame[..k] + frame[k..];
    if Complete(frame[..k]) {
      DecisionStable(frame[..k], frame[k..]);
    }
  }

  /** A buffer still waiting for bytes is shorter than the longest frame. */
  lemma WaitingIsShort(data: seq<byte>)
    requires !Complete(data)
    ensures |data| < FRAME_SIZE_LIMIT + 14
  {
  }

  method FrameSizeOf(data: seq<byte>) returns (size: int, controlSize: nat, maskSize: nat, payloadSize: nat)
    ensures size == match FrameSize(data) { case NeedMore => -1 case Bad => -2 case Frame(c, m, p) => c + m + p }
    ensures FrameSize(data).Frame? ==> FrameSize(data) == Frame(controlSize, maskSize, payloadSize)
  {
    controlSize, maskSize, payloadSize := 2, 0, 0;
    if |data| < controlSize {
      return -1, controlSize, maskSize, payloadSize;
    }
    maskSize := if data[1] >= 128 then 4 else 0;
    var lengthCode := data[1] % 128;
    var decodedSize: nat;
    if lengthCode < 126 {
      decodedSize := lengthCode;
    } else if lengthCode == 126 {
      controlSize := 4;
      if |data| < controlSize {
        return -1, controlSize, maskSize, payloadSize;
      }
      decodedSize := BigEndian(data[2..4]);
      if decodedSize < 126 {
        return -2, controlSize, maskSize, payloadSize;
      }
    } else {
      controlSize := 10;
      if |data| < controlSize {
        return -1, controlSize, maskSize, payloadSize;
      }
      if data[2] >= 128 {
        return -2, controlSize, maskSize, payloadSize;
      }
      decodedSize := BigEndian(data[2..10]);
      if decodedSize <= 0xFFFF {
        return -2, controlSize, maskSize, payloadSize;
      }
    }
    if decodedSize > FRAME_SIZE_LIMIT {
      return -2, controlSize, maskSize, payloadSize;
    }
    if data[0] % 16 >= 8 && data[0] < 128 {
      return -2, controlSize, maskSize, payloadSize;
    }
    if data[0] % 16 >= 8 && decodedSize > 125 {
      return -2, controlSize, maskSize, payloadSize;
    }
    if data[0] % 16 == CONNECTION_CLOSE_FRAME && decodedSize == 1 {
      return -2, controlSize, maskSize, payloadSize;
    }
    payloadSize := decodedSize;
    if |data| < controlSize + maskSize + payloadSize {
      return -1, controlSize, maskSize, payloadSize;
    }
    return controlSize + maskSize + payloadSize, controlSize, maskSize, payloadSize;
  }

  method IsFrameComplete(data: seq<byte>) returns (complete: bool)
    ensures complete == Complete(data)
  {
    var size, c, m, p := FrameSizeOf(data);
    if size == -1 {
      return false;
    }
    if size == -2 {
      return true;
    }
    return |data| >= size;
  }

  // ---------------------------------------------------------------- decoding

  function Masked(payload: seq<byte>, mask: seq<byte>): (s: seq<byte>)
    requires |mask| == 4
    ensures |s| == |payload|
  {
    seq(|payload|, i requires 0 <= i < |payload| => Xor(payload[i], mask[i % 4]))
  }

  /** Result of decoding: the returned data (None when Base64 raises), what stays buffered, frame type and FIN. */
  datatype Decoding = Decoding(data: Option<seq<byte>>, rest: seq<byte>, frameType: int, fin: bool)

  const TOO_LARGE := Ascii("Frame size too large")
  const BAD_LENGTH := Ascii("Invalid frame length")
  const NOT_MASKED := Ascii("Frame must be masked")
  const EXTENDED := Ascii("Websocket extensions unsupported")

  function DecodeFrame(base64: bool, data: seq<byte>, lastType: int): Decoding {
    match FrameSize(data)
    case NeedMore => Decoding(Some(TOO_LARGE), data, ERROR_FRAME, false)
    case Bad => Decoding(Some(BAD_LENGTH), data, ERROR_FRAME, false)
    case Frame(control, mask, payload) =>
      if mask == 0 then Decoding(Some(NOT_MASKED), data, ERROR_FRAME, false)
      else if data[0] / 16 % 8 != 0 then Decoding(Some(EXTENDED), data, ERROR_FRAME, false)
      else
        var frameType := if Opcode(data[0]) != CONTINUATION_FRAME then Opcode(data[0]) else lastType;
        var text := Masked(data[control + mask..control + mask + payload], data[control..control + 4]);
        var rest := data[control + mask + payload..];
        if base64 && frameType == TEXT_FRAME
        then Decoding(Base64.Decoded(text), rest, BINARY_FRAME, Fin(data[0]))
        else Decoding(Some(text), rest, frameType, Fin(data[0]))
  }

  method DecodeFrameOf(base64: bool, data: seq<byte>, lastType: int) returns (d: Decoding)
    ensures d == DecodeFrame(base64, data, lastType)
  {
    var fSize, controlSize, maskSize, payloadSize := FrameSizeOf(data);
    if fSize == -1 || |data| < fSize {
      return Decoding(Some(TOO_LARGE), data, ERROR_FRAME, false);
    }
    if fSize == -2 {
      return Decoding(Some(BAD_LENGTH), data, ERROR_FRAME, false);
    }
    if maskSize == 0 {
      return Decoding(Some(NOT_MASKED), data, ERROR_FRAME, false);
    }
    if data[0] / 16 % 8 != 0 {
      return Decoding(Some(EXTENDED), data, ERROR_FRAME, false);
    }
    var fin := data[0] >= 128;
    var ft := lastType;
    if data[0] % 16 != CONTINUATION_FRAME {
      ft := data[0] % 16;
    }
    var ret := Unmask(data[controlSize + maskSize..fSize], data[controlSize..controlSize + 4]);
    var rest := data[fSize..];
    if base64 && ft == TEXT_FRAME {
      var ret64 := Base64.Decode(ret);
      return Decoding(ret64, rest, BINARY_FRAME, fin);
    }
    return Decoding(Some(ret), rest, ft, fin);
  }

  method Unmask(payload: seq<byte>, mask: seq<byte>) returns (text: seq<byte>)
    requires |mask| == 4
    ensures text == Masked(payload, mask)
  {
    var ret := new byte[|payload|](_ => 0);
    var i := 0;
    while i < |payload|
      invariant 0 <= i <= |payload|
      invariant ret[..i] == Masked(payload, mask)[..i]
    {
      ret[i] := Xor(payload[i], mask[i % 4]);
      i := i + 1;
    }
    return ret[..];
  }

  // ---------------------------------------------------------------- encoding

  function LengthField(maskBit: byte, n: nat): (s: seq<byte>)
    requires maskBit == 0 || maskBit == 128
  {
    if n <= 125 then [maskBit + n]
    else if n <= 0xFFFF then [maskBit + 126] + NetworkBytes(n, 2)
    else [maskBit + 127] + NetworkBytes(n, 8)
  }

  /** A frame as a server sends it (RFC 6455, section 5.2). */
  function ServerFrame(opcode: nat, payload: seq<byte>): seq<byte>
    requires opcode < 16
  {
    [128 + opcode] + LengthField(0, |payload|) + payload
  }

  /** A frame as a client sends it: masked (RFC 6455, section 5.3). */
  function ClientFrame(fin: bool, opcode: nat, mask: seq<byte>, payload: seq<byte>): seq<byte>
    requires opcode < 16 && |mask| == 4
  {
    [(if fin then 128 else 0) + opcode] + LengthField(128, |payload|) + mask + Masked(payload, mask)
  }

  /** In base64 mode binary data travels as text. */
  function Outgoing(base64: bool, opcode: nat, data: seq<byte>): (nat, seq<byte>) {
    if base64 && opcode == BINARY_FRAME then (TEXT_FRAME, Base64.Encoded(data)) else (opcode, data)
  }

  function EncodeFrame(base64: bool, opcode: nat, data: seq<byte>): seq<byte>
    requires opcode < 16
  {
    ServerFrame(Outgoing(base64, opcode, data).0, Outgoing(base64, opcode, data).1)
  }

  method WriteHeader(ret: array<byte>, payloadSize: nat, opcode: nat) returns (controlSize: nat)
    requires opcode < 16 && ret.Length == 1 + |LengthField(0, payloadSize)| + payloadSize
    modifies ret
    ensures controlSize == 1 + |LengthField(0, payloadSize)|
    ensures ret[..controlSize] == [128 + opcode] + LengthField(0, payloadSize)
  {
    ret[0] := 128 + opcode;
    if payloadSize <= 125 {
      ret[1] := payloadSize;
      return 2;
    } else if payloadSize <= 0xFFFF {
      ret[1] := 126;
      ret[2] := payloadSize / 256 % 256;
      ret[3] := payloadSize % 256;
      NetworkByteAt(payloadSize, 2, 0);
      NetworkByteAt(payloadSize, 2, 1);
      assert ret[2..4] == NetworkBytes(payloadSize, 2);
      return 4;
    } else {
      ret[1] := 127;
      var i := 2;
      while i < 10
        invariant 2 <= i <= 10
        invariant ret[0] == 128 + opcode && ret[1] == 127
        invariant forall j :: 2 <= j < i ==> ret[j] == NetworkBytes(payloadSize, 8)[j - 2]
      {
        NetworkByteAt(payloadSize, 8, i - 2);
        ret[i] := DropBytes(payloadSize, 9 - i) % 256;
        i := i + 1;
      }
      assert ret[2..10] == NetworkBytes(payloadSize, 8);
      return 10;
    }
  }

  method EncodeFrameOf(base64: bool, rdata: seq<byte>, opcode: nat) returns (frame: seq<byte>)
    requires opcode < 16
    ensures frame == EncodeFrame(base64, opcode, rdata)
  {
    hide NetworkBytes;
    var data, ft := rdata, opcode;
    if base64 && ft == BINARY_FRAME {
      data := Base64.Encode(data);
      ft := TEXT_FRAME;
    }
    var controlSize := 2;
    if |data| > 125 {
      controlSize := controlSize + 2;
    }
    if |data| > 0xFFFF {
      controlSize := controlSize + 6;
    }
    var ret := new byte[controlSize + |data|](_ => 0);
    controlSize := WriteHeader(ret, |data|, ft);
    CopyTo(ret, controlSize, data);
    return ret[..];
  }

  method CopyTo(ret: array<byte>, controlSize: nat, data: seq<byte>)
    requires ret.Length == controlSize + |data|
    modifies ret
    ensures ret[..] == old(ret[..controlSize]) + data
  {
    var i := 0;
    while i < |data|
      invariant 0 <= i <= |data|
      invariant ret[..controlSize] == old(ret[..controlSize])
      invariant ret[controlSize..controlSize + i] == data[..i]
    {
      ret[i + controlSize] := data[i];
      i := i + 1;
    }
    assert ret[..] == ret[..controlSize] + ret[controlSize..controlSize + i];
  }

  // ---------------------------------------------------------------- round trips

  lemma FitsLength(n: nat)
    ensures n <= 0xFFFF ==> Fits(n, 2)
    ensures n <= FRAME_SIZE_LIMIT ==> Fits(n, 8)
  {
  }

  /** The size announced by a length field of either kind is the one that was written. */
  lemma HeaderSize(first: byte, maskBit: byte, n: nat, tail: seq<byte>)
    requires maskBit == 0 || maskBit == 128
    requires n <= FRAME_SIZE_LIMIT
    ensures
      var data := [first] + LengthField(maskBit, n) + tail;
      FrameSize(data) == Measured(data, 1 + |LengthField(maskBit, n)|, if maskBit == 128 then 4 else 0, n)
  {
    hide BigEndian, NetworkBytes, Fits, Measured, DropBytes;
    var field := LengthField(maskBit, n);
    var data := [first] + field + tail;
    FitsLength(n);
    assert data[1] == field[0];
    if 125 < n <= 0xFFFF {
      BigEndianOfBytes(n, 2);
      assert data[2..4] == NetworkBytes(n, 2);
    } else if n > 0xFFFF {
      BigEndianOfBytes(n, 8);
      assert data[2..10] == NetworkBytes(n, 8);
      NetworkByteAt(n, 8, 0);
      SmallTopByte(n);
    }
  }

  lemma SmallTopByte(n: nat)
    requires n <= FRAME_SIZE_LIMIT
    ensures DropBytes(n, 7) == 0
  {
  }

  /** Unmasking undoes masking, whatever the mask. */
  lemma MaskedTwice(payload: seq<byte>, mask: seq<byte>)
    requires |mask| == 4
    ensures Masked(Masked(payload, mask), mask) == payload
  {
    forall i | 0 <= i < |payload| ensures Masked(Masked(payload, mask), mask)[i] == payload[i] {
      XorTwice(payload[i], mask[i % 4]);
    }
  }

  lemma Slices(header: seq<byte>, mask: seq<byte>, text: seq<byte>, rest: seq<byte>)
    ensures
      var data := header + mask + text + rest;
      var control := |header|;
      && data[control..control + |mask|] == mask
      && data[control + |mask|..control + |mask| + |text|] == text
      && data[control + |mask| + |text|..] == rest
  {
  }

  lemma ClientFrameSize(first: byte, mask: seq<byte>, payload: seq<byte>, rest: seq<byte>)
    requires |mask| == 4 && |payload| <= FRAME_SIZE_LIMIT
    ensures
      var header := [first] + LengthField(128, |payload|);
      var data := header + mask + Masked(payload, mask) + rest;
      FrameSize(data) == Measured(data, |header|, 4, |payload|) && data[0] == first
  {
    hide FrameSize, Measured, LengthField, Masked;
    var header := [first] + LengthField(128, |payload|);
    var text := Masked(payload, mask);
    assert header + mask + text + rest == header + (mask + text + rest);
    HeaderSize(first, 128, |payload|, mask + text + rest);
  }

  lemma MeasuredClient(fin: bool, opcode: nat, data: seq<byte>, control: nat, n: nat)
    requires opcode < 16 && Permitted(fin, opcode, n)
    requires control + 4 + n <= |data| && data[0] == (if fin then 128 else 0) + opcode
    ensures Measured(data, control, 4, n) == Frame(control, 4, n)
    ensures Opcode(data[0]) == opcode && Fin(data[0]) == fin && data[0] / 16 % 8 == 0
  {
  }

  /** A permitted client frame followed by any bytes decodes to its payload and leaves exactly those bytes. */
  lemma ClientRoundTrip(fin: bool, opcode: nat, mask: seq<byte>, payload: seq<byte>, rest: seq<byte>, lastType: int)
    requires opcode < 16 && |mask| == 4 && Permitted(fin, opcode, |payload|)
    ensures
      DecodeFrame(false, ClientFrame(fin, opcode, mask, payload) + rest, lastType)
      == Decoding(Some(payload), rest, if opcode == CONTINUATION_FRAME then lastType else opcode, fin)
  {
    hide FrameSize, Measured, LengthField, Masked, Opcode, Fin;
    var first: byte := (if fin then 128 else 0) + opcode;
    var header := [first] + LengthField(128, |payload|);
    var text := Masked(payload, mask);
    var data := header + mask + text + rest;
    ClientFrameSize(first, mask, payload, rest);
    MeasuredClient(fin, opcode, data, |header|, |payload|);
    Slices(header, mask, text, rest);
    MaskedTwice(payload, mask);
  }

  /**
   * What a peer reads from a stream of server frames: opcode and payload of each, None when the stream is cut badly.
   */
  function CutFrames(data: seq<byte>): Option<seq<(nat, seq<byte>)>>
    decreases |data|
  {
    if data == [] then Some([])
    else match FrameSize(data)
      case NeedMore => None
      case Bad => None
      case Frame(control, mask, payload) =>
        if mask != 0 then None
        else match CutFrames(data[control + payload..])
          case None => None
          case Some(frames) => Some([(Opcode(data[0]), data[control..control + payload])] + frames)
  }

  function Stream(frames: seq<(nat, seq<byte>)>): seq<byte>
    requires forall k :: 0 <= k < |frames| ==> Permitted(true, frames[k].0, |frames[k].1|) && frames[k].0 < 16
  {
    if frames == [] then [] else ServerFrame(frames[0].0, frames[0].1) + Stream(frames[1..])
  }

  lemma ServerFrameSize(opcode: nat, payload: seq<byte>, rest: seq<byte>)
    requires opcode < 16 && Permitted(true, opcode, |payload|)
    ensures
      var data := ServerFrame(opcode, payload) + rest;
      var control := |ServerFrame(opcode, payload)| - |payload|;
      && FrameSize(data) == Frame(control, 0, |payload|)
      && Opcode(data[0]) == opcode
      && data[control..control + |payload|] == payload
      && data[control + |payload|..] == rest
  {
    hide BigEndian, NetworkBytes;
    var first: byte := 128 + opcode;
    var data := ServerFrame(opcode, payload) + rest;
    assert data == [first] + LengthField(0, |payload|) + (payload + rest);
    HeaderSize(first, 0, |payload|, payload + rest);
  }

  lemma CutOne(opcode: nat, payload: seq<byte>, rest: seq<byte>)
    requires opcode < 16 && Permitted(true, opcode, |payload|)
    ensures CutFrames(ServerFrame(opcode, payload) + rest)
         == match CutFrames(rest) case None => None case Some(frames) => Some([(opcode, payload)] + frames)
  {
    hide ServerFrame, FrameSize, Permitted, Opcode;
    ServerFrameSize(opcode, payload, rest);
  }

  /** Any concatenation of in-limit server frames is cut back into the same opcodes and payloads. */
  lemma {:induction false} StreamRoundTrip(frames: seq<(nat, seq<byte>)>)
    requires forall k :: 0 <= k < |frames| ==> Permitted(true, frames[k].0, |frames[k].1|) && frames[k].0 < 16
    ensures CutFrames(Stream(frames)) == Some(frames)
  {
    hide ServerFrame, FrameSize, Permitted;
    if frames != [] {
      StreamRoundTrip(frames[1..]);
      CutOne(frames[0].0, frames[0].1, Stream(frames[1..]));
      assert [frames[0]] + frames[1..] == frames;
    }
  }
}
