/** The UTF-8 gate of the websocket endpoint, and the encoding of RFC 3629 it is measured against. */
module Utf8 {
  import opened Bytes

  type scalar = v: int | 0 <= v < 0xD800 || 0xE000 <= v <= 0x10FFFF witness 0

  // ---------------------------------------------------------------- the encoding (RFC 3629, section 3)

  function EncodeScalar(v: scalar): (s: seq<byte>)
    ensures 1 <= |s| <= 4
  {
    if v < 0x80 then [v]
    else if v < 0x800 then [0xC0 + v / 64, 0x80 + v % 64]
    else if v < 0x10000 then [0xE0 + v / 64 / 64, 0x80 + v / 64 % 64, 0x80 + v % 64]
    else [0xF0 + v / 64 / 64 / 64, 0x80 + v / 64 / 64 % 64, 0x80 + v / 64 % 64, 0x80 + v % 64]
  }

  function Encode(vs: seq<scalar>): seq<byte> {
    if vs == [] then [] else EncodeScalar(vs[0]) + Encode(vs[1..])
  }

  // ---------------------------------------------------------------- what one pass of the loops looks at

  /** Continuation bytes announced by a leading byte; -1 for a byte that cannot lead. */
  function Extra(b: byte): int {
    if b < 0x80 then 0
    else if b / 32 == 6 then 1
    else if b / 16 == 14 then 2
    else if b / 8 == 30 then 3
    else -1
  }

  function LeadBits(b: byte): nat {
    if b < 0x80 then b
    else if b / 32 == 6 then b % 32
    else if b / 16 == 14 then b % 16
    else b % 8
  }

  predicate IsContinuation(b: byte) { b / 64 == 2 }

  /** The code point accumulated from the leading byte and the next `n` bytes. */
  function Accumulated(t: seq<byte>, n: nat): nat
    requires n < |t|
  {
    if n == 0 then LeadBits(t[0]) else Accumulated(t, n - 1) * 64 + t[n] % 64
  }

  predicate Continued(t: seq<byte>, n: nat)
    requires n < |t|
  {
    forall j :: 1 <= j <= n ==> IsContinuation(t[j])
  }

  predicate Acceptable(extra: int, cp: int) {
    && !(extra == 1 && cp < 0x80)
    && !(extra == 2 && cp < 0x800)
    && !(extra == 3 && cp < 0x10000)
    && cp <= 0x10FFFF
    && !(0xD800 <= cp <= 0xDFFF)
  }

  /** Length of the well-formed character that starts `t`, or 0 when there is none. */
  function CharLen(t: seq<byte>): (n: nat)
    requires t != []
    ensures n <= |t| && n <= 4
  {
    var extra := Extra(t[0]);
    if extra < 0 || extra >= |t| then 0
    else if !Continued(t, extra) then 0
    else if !Acceptable(extra, Accumulated(t, extra)) then 0
    else 1 + extra
  }

  predicate Valid(t: seq<byte>)
    decreases |t|
  {
    t == [] || (CharLen(t) > 0 && Valid(t[CharLen(t)..]))
  }

  function Sanitized(t: seq<byte>): (s: seq<byte>)
    decreases |t|
  {
    if t == [] then []
    else if CharLen(t) > 0 then t[..CharLen(t)] + Sanitized(t[CharLen(t)..])
    else [0x3F] + Sanitized(t[1..])
  }

  // ---------------------------------------------------------------- the loops of the source

  /** The inner loop over the continuation bytes after position `i`. */
  method ReadTail(s: seq<byte>, i: nat, extra: nat, lead: nat) returns (valid: bool, codepoint: nat)
    requires i + extra < |s| && lead == LeadBits(s[i])
    ensures valid <==> Continued(s[i..], extra)
    ensures valid ==> codepoint == Accumulated(s[i..], extra)
  {
    ghost var t := s[i..];
    codepoint := lead;
    var j := 1;
    while j <= extra
      invariant 1 <= j <= extra + 1
      invariant forall k :: 1 <= k < j ==> IsContinuation(t[k])
      invariant codepoint == Accumulated(t, j - 1)
    {
      var cb := s[i + j];
      assert t[j] == cb;
      if cb / 64 != 2 {
        assert !IsContinuation(t[j]);
        return false, codepoint;
      }
      codepoint := codepoint * 64 + cb % 64;
      j := j + 1;
    }
    return true, codepoint;
  }

  /** The body of both outer loops: the length of the well-formed character at position `i`, 0 when there is none. */
  method ScanChar(s: seq<byte>, i: nat) returns (n: nat)
    requires i < |s|
    ensures n == CharLen(s[i..])
  {
    var b := s[i];
    var extra: nat, codepoint: nat;
    if b < 0x80 {
      return 1;
    } else if b / 32 == 6 {
      extra, codepoint := 1, b % 32;
    } else if b / 16 == 14 {
      extra, codepoint := 2, b % 16;
    } else if b / 8 == 30 {
      extra, codepoint := 3, b % 8;
    } else {
      return 0;
    }
    if i + extra >= |s| {
      return 0;
    }
    var continued;
    continued, codepoint := ReadTail(s, i, extra, codepoint);
    if !continued {
      return 0;
    }
    if extra == 1 && codepoint < 0x80 {
      return 0;
    }
    if extra == 2 && codepoint < 0x800 {
      return 0;
    }
    if extra == 3 && codepoint < 0x10000 {
      return 0;
    }
    if codepoint > 0x10FFFF {
      return 0;
    }
    if 0xD800 <= codepoint <= 0xDFFF {
      return 0;
    }
    return 1 + extra;
  }

  method IsValidUtf8(s: seq<byte>) returns (ok: bool)
    ensures ok <==> Valid(s)
  {
    hide CharLen, Valid;
    var i := 0;
    assert s[0..] == s;
    while i < |s|
      invariant i <= |s|
      invariant Valid(s) <==> Valid(s[i..])
    {
      var n := ScanChar(s, i);
      ValidStep(s, i, n);
      if n == 0 {
        return false;
      }
      i := i + n;
    }
    NothingIsValid();
    assert s[i..] == [];
    return true;
  }

  lemma ValidStep(s: seq<byte>, i: nat, n: nat)
    requires i < |s| && n == CharLen(s[i..])
    ensures Valid(s[i..]) <==> n > 0 && Valid(s[i + n..])
  {
    hide CharLen;
    assert s[i..][n..] == s[i + n..];
  }

  lemma NothingIsValid()
    ensures Valid([]) && Sanitized([]) == []
  {
  }

  lemma SanitizeStep(s: seq<byte>, i: nat, n: nat, piece: seq<byte>, out: seq<byte>)
    requires i < |s| && n > 0 && (if CharLen(s[i..]) > 0 then n == CharLen(s[i..]) else n == 1)
    requires piece == if CharLen(s[i..]) > 0 then s[i..i + n] else [0x3F]
    ensures out + Sanitized(s[i..]) == (out + piece) + Sanitized(s[i + n..])
  {
    hide CharLen;
    assert s[i..][n..] == s[i + n..] && s[i..][..n] == s[i..i + n];
  }

  method SanitizeUtf8(s: seq<byte>) returns (out: seq<byte>)
    ensures out == Sanitized(s)
  {
    hide CharLen, Sanitized;
    out := [];
    var i := 0;
    assert s[0..] == s && [] + Sanitized(s) == Sanitized(s);
    while i < |s|
      invariant i <= |s|
      invariant Sanitized(s) == out + Sanitized(s[i..])
    {
      var n := ScanChar(s, i);
      var piece := [0x3F];
      if n > 0 {
        piece := s[i..i + n];
      } else {
        n := 1;
      }
      SanitizeStep(s, i, n, piece, out);
      out := out + piece;
      i := i + n;
    }
    NothingIsValid();
    assert s[i..] == [] && out + [] == out;
  }

  // ---------------------------------------------------------------- validity is exactly "is an encoding"

  /** The scalar value of the character that starts `t`. */
  function FirstScalar(t: seq<byte>): (v: scalar)
    requires t != [] && CharLen(t) > 0
  {
    Accumulated(t, CharLen(t) - 1)
  }

  lemma FirstScalarEncodes(t: seq<byte>)
    requires t != [] && CharLen(t) > 0
    ensures EncodeScalar(FirstScalar(t)) == t[..CharLen(t)]
  {
    var n := CharLen(t);
    assert Continued(t, n - 1);
    if n == 1 { assert t[..1] == [t[0]]; }
    else if n == 2 { FirstScalarEncodes2(t); }
    else if n == 3 { FirstScalarEncodes3(t); }
    else { FirstScalarEncodes4(t); }
  }

  lemma FirstScalarEncodes2(t: seq<byte>)
    requires t != [] && CharLen(t) == 2
    ensures EncodeScalar(FirstScalar(t)) == [t[0], t[1]] == t[..2]
  {
    assert IsContinuation(t[1]);
    Shift6(t[0] % 32, t[1]);
    assert Accumulated(t, 1) == Accumulated(t, 0) * 64 + t[1] % 64;
  }

  lemma FirstScalarEncodes3(t: seq<byte>)
    requires t != [] && CharLen(t) == 3
    ensures EncodeScalar(FirstScalar(t)) == [t[0], t[1], t[2]] == t[..3]
  {
    assert IsContinuation(t[1]) && IsContinuation(t[2]);
    var h := Accumulated(t, 1);
    Shift6(t[0] % 16, t[1]);
    Shift6(h, t[2]);
    assert Accumulated(t, 1) == Accumulated(t, 0) * 64 + t[1] % 64 == h;
    assert Accumulated(t, 2) == Accumulated(t, 1) * 64 + t[2] % 64;
  }

  lemma FirstScalarEncodes4(t: seq<byte>)
    requires t != [] && CharLen(t) == 4
    ensures EncodeScalar(FirstScalar(t)) == [t[0], t[1], t[2], t[3]] == t[..4]
  {
    assert IsContinuation(t[1]) && IsContinuation(t[2]) && IsContinuation(t[3]);
    var g := Accumulated(t, 1);
    var h := Accumulated(t, 2);
    Shift6(t[0] % 8, t[1]);
    Shift6(g, t[2]);
    Shift6(h, t[3]);
    assert Accumulated(t, 1) == Accumulated(t, 0) * 64 + t[1] % 64 == g;
    assert Accumulated(t, 2) == Accumulated(t, 1) * 64 + t[2] % 64 == h;
    assert Accumulated(t, 3) == Accumulated(t, 2) * 64 + t[3] % 64;
  }

  lemma Shift6(a: nat, b: byte)
    ensures (a * 64 + b % 64) / 64 == a && (a * 64 + b % 64) % 64 == b % 64
    ensures IsContinuation(b) ==> 0x80 + b % 64 == b
  {
  }

  lemma EncodedCharLen(v: scalar, rest: seq<byte>)
    ensures CharLen(EncodeScalar(v) + rest) == |EncodeScalar(v)|
    ensures FirstScalar(EncodeScalar(v) + rest) == v
  {
    if v >= 0x10000 { EncodedCharLen4(v, rest); }
    else if v >= 0x800 { EncodedCharLen3(v, rest); }
    else if v >= 0x80 { EncodedCharLen2(v, rest); }
  }

  lemma EncodedCharLen2(v: scalar, rest: seq<byte>)
    requires 0x80 <= v < 0x800
    ensures CharLen(EncodeScalar(v) + rest) == 2
    ensures Accumulated(EncodeScalar(v) + rest, 1) == v
  {
  }

  lemma EncodedCharLen3(v: scalar, rest: seq<byte>)
    requires 0x800 <= v < 0x10000
    ensures CharLen(EncodeScalar(v) + rest) == 3
    ensures Accumulated(EncodeScalar(v) + rest, 2) == v
  {
    var t := EncodeScalar(v) + rest;
    var h := v / 64;
    assert t[0] == 0xE0 + h / 64 && t[1] == 0x80 + h % 64 && t[2] == 0x80 + v % 64;
    assert Extra(t[0]) == 2 && LeadBits(t[0]) == h / 64;
    assert Accumulated(t, 1) == Accumulated(t, 0) * 64 + t[1] % 64 == h;
    assert Accumulated(t, 2) == Accumulated(t, 1) * 64 + t[2] % 64;
  }

  lemma EncodedCharLen4(v: scalar, rest: seq<byte>)
    requires 0x10000 <= v
    ensures CharLen(EncodeScalar(v) + rest) == 4
    ensures Accumulated(EncodeScalar(v) + rest, 3) == v
  {
    var t := EncodeScalar(v) + rest;
    var h := v / 64;
    var g := h / 64;
    assert t[0] == 0xF0 + g / 64 && t[1] == 0x80 + g % 64 && t[2] == 0x80 + h % 64 && t[3] == 0x80 + v % 64;
    assert Extra(t[0]) == 3 && LeadBits(t[0]) == g / 64;
    assert Accumulated(t, 0) == g / 64 && t[1] % 64 == g % 64;
    assert Accumulated(t, 1) == Accumulated(t, 0) * 64 + t[1] % 64 == g;
    assert Accumulated(t, 2) == Accumulated(t, 1) * 64 + t[2] % 64 == h;
    assert Accumulated(t, 3) == Accumulated(t, 2) * 64 + t[3] % 64 == v;
    hide Accumulated;
  }

  /** The scalar values a valid string encodes. */
  function Scalars(t: seq<byte>): (vs: seq<scalar>)
    requires Valid(t)
    decreases |t|
  {
    if t == [] then [] else [FirstScalar(t)] + Scalars(t[CharLen(t)..])
  }

  lemma {:induction false} ScalarsEncode(t: seq<byte>)
    requires Valid(t)
    ensures Encode(Scalars(t)) == t
    decreases |t|
  {
    hide CharLen, EncodeScalar, FirstScalar;
    if t != [] {
      ScalarsEncode(t[CharLen(t)..]);
      FirstScalarEncodes(t);
      assert Scalars(t)[1..] == Scalars(t[CharLen(t)..]);
    }
  }

  lemma {:induction false} EncodeValid(vs: seq<scalar>)
    ensures Valid(Encode(vs)) && Scalars(Encode(vs)) == vs
  {
    if vs != [] {
      var head, tail := EncodeScalar(vs[0]), Encode(vs[1..]);
      EncodeValid(vs[1..]);
      EncodedCharLen(vs[0], tail);
      assert (head + tail)[|head|..] == tail;
    }
  }

  /** A string passes the gate exactly when it is the encoding of some scalar values. */
  lemma ValidIffEncoding(s: seq<byte>)
    ensures Valid(s) <==> exists vs: seq<scalar> :: Encode(vs) == s
  {
    if Valid(s) {
      ScalarsEncode(s);
    }
    forall vs: seq<scalar> | Encode(vs) == s ensures Valid(s) {
      EncodeValid(vs);
    }
  }

  /** The scalar values behind a valid string are unique. */
  lemma EncodingUnique(vs: seq<scalar>, ws: seq<scalar>)
    requires Encode(vs) == Encode(ws)
    ensures vs == ws
  {
    EncodeValid(vs);
    EncodeValid(ws);
  }

  // ---------------------------------------------------------------- sanitising

  /** A character depends on its own bytes only. */
  lemma CharLenPrefix(t: seq<byte>, rest: seq<byte>)
    requires t != [] && CharLen(t) > 0
    ensures CharLen(t[..CharLen(t)] + rest) == CharLen(t)
  {
    FirstScalarEncodes(t);
    EncodedCharLen(FirstScalar(t), rest);
  }

  lemma {:induction false} SanitizedProperties(t: seq<byte>)
    ensures |Sanitized(t)| == |t| && Valid(Sanitized(t))
    ensures forall k :: 0 <= k < |t| ==> Sanitized(t)[k] == t[k] || Sanitized(t)[k] == 0x3F
    decreases |t|
  {
    if t != [] {
      var n := CharLen(t);
      if n > 0 {
        var rest := Sanitized(t[n..]);
        SanitizedProperties(t[n..]);
        CharLenPrefix(t, rest);
        assert (t[..n] + rest)[n..] == rest;
      } else {
        var rest := Sanitized(t[1..]);
        SanitizedProperties(t[1..]);
        assert CharLen([0x3F] + rest) == 1 && ([0x3F] + rest)[1..] == rest;
      }
    }
  }

  lemma {:induction false} SanitizedIdentity(t: seq<byte>)
    requires Valid(t)
    ensures Sanitized(t) == t
    decreases |t|
  {
    if t != [] {
      SanitizedIdentity(t[CharLen(t)..]);
    }
  }

  /** Only an already valid string is left alone, and sanitising twice changes nothing more. */
  lemma {:induction false} SanitizedFixpoints(t: seq<byte>)
    ensures Sanitized(t) == t <==> Valid(t)
    ensures Sanitized(Sanitized(t)) == Sanitized(t)
  {
    SanitizedProperties(t);
    SanitizedIdentity(Sanitized(t));
    if Valid(t) {
      SanitizedIdentity(t);
    }
  }

  /**
   * A character at the front is kept, and where none is, one byte is replaced: with nothing for the empty string this
   * says what sanitising gives for every string.
   */
  lemma SanitizedDetermined(v: scalar, t: seq<byte>)
    ensures Sanitized([]) == []
    ensures Sanitized(EncodeScalar(v) + t) == EncodeScalar(v) + Sanitized(t)
    ensures t != [] && (forall w: scalar :: !(EncodeScalar(w) <= t)) ==> Sanitized(t) == [0x3F] + Sanitized(t[1..])
  {
    EncodedCharLen(v, t);
    var s := EncodeScalar(v) + t;
    assert s[..|EncodeScalar(v)|] == EncodeScalar(v) && s[|EncodeScalar(v)|..] == t;
    if t != [] && CharLen(t) > 0 {
      FirstScalarEncodes(t);
      assert EncodeScalar(FirstScalar(t)) <= t;
    }
    hide EncodeScalar, CharLen;
  }
}
