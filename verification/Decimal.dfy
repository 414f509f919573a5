/** Decimal text of integers: what itos writes and atoll reads. */
module Decimal {
  import opened Bytes

  const MINUS: byte := 0x2D

  function Digits(n: nat): (s: seq<byte>)
    ensures s != [] && forall k :: 0 <= k < |s| ==> 0x30 <= s[k] <= 0x39
  {
    if n < 10 then [0x30 + n] else Digits(n / 10) + [0x30 + n % 10]
  }

  function Itos(n: int): (s: seq<byte>)
    ensures s != [] && (s[0] == MINUS || 0x30 <= s[0] <= 0x39)
    ensures forall k :: 0 <= k < |s| ==> s[k] == MINUS || 0x30 <= s[k] <= 0x39
  {
    if n < 0 then [MINUS] + Digits(-n) else Digits(n)
  }

  /** The number in the leading digits. */
  function LeadingNumber(s: seq<byte>, acc: nat): nat
    decreases |s|
  {
    if s == [] || !(0x30 <= s[0] <= 0x39) then acc else LeadingNumber(s[1..], acc * 10 + (s[0] as int - 0x30))
  }

  predicate IsBlank(c: byte) { c == 0x20 || 0x09 <= c <= 0x0D }

  /** Reading a decimal number as atoll does: blanks, one sign, digits. */
  function Atoll(s: seq<byte>): int
    decreases |s|
  {
    if s == [] then 0
    else if IsBlank(s[0]) then Atoll(s[1..])
    else if s[0] == MINUS then
      var magnitude: int := LeadingNumber(s[1..], 0);
      -magnitude
    else if s[0] == 0x2B then LeadingNumber(s[1..], 0)
    else LeadingNumber(s, 0)
  }

  lemma {:induction false} LeadingDigits(n: nat, t: seq<byte>, acc: nat)
    ensures LeadingNumber(Digits(n) + t, acc) == LeadingNumber(t, Shifted(n, acc))
  {
    if n < 10 {
      assert (Digits(n) + t)[1..] == t;
    } else {
      var last: seq<byte> := [0x30 + n % 10];
      assert Digits(n) + t == Digits(n / 10) + (last + t);
      LeadingDigits(n / 10, last + t, acc);
      assert (last + t)[1..] == t;
    }
  }

  /** `acc` followed by the digits of `n`. */
  function Shifted(n: nat, acc: nat): nat {
    if n < 10 then acc * 10 + n else Shifted(n / 10, acc) * 10 + n % 10
  }

  lemma {:induction false} ShiftedZero(n: nat)
    ensures Shifted(n, 0) == n
  {
    if n >= 10 {
      ShiftedZero(n / 10);
    }
  }

  lemma DigitsStop(n: nat, t: seq<byte>)
    requires t == [] || !(0x30 <= t[0] <= 0x39)
    ensures LeadingNumber(Digits(n) + t, 0) == n
  {
    LeadingDigits(n, t, 0);
    ShiftedZero(n);
  }

  /** A text that starts with a minus sign or a digit has nothing to skip. */
  lemma NothingSkipped(s: seq<byte>)
    requires s != [] && (s[0] == MINUS || 0x30 <= s[0] <= 0x39)
    ensures s[0] != MINUS ==> Atoll(s) == LeadingNumber(s, 0)
    ensures s[0] == MINUS ==> Atoll(s) == 0 - LeadingNumber(s[1..], 0)
  {
  }

  lemma SignedStops(m: nat, t: seq<byte>)
    requires t == [] || !(0x30 <= t[0] <= 0x39)
    ensures Atoll(Digits(m) + t) == m
    ensures Atoll([MINUS] + Digits(m) + t) == 0 - m
  {
    hide Digits, LeadingNumber, Atoll;
    var digits := Digits(m);
    var signed := [MINUS] + digits + t;
    assert (digits + t)[0] == digits[0] && signed[0] == MINUS && signed[1..] == digits + t;
    NothingSkipped(digits + t);
    NothingSkipped(signed);
    DigitsStop(m, t);
  }

  /** Reading stops behind a written integer. */
  lemma AtollStops(n: int, t: seq<byte>)
    requires t == [] || !(0x30 <= t[0] <= 0x39)
    ensures Atoll(Itos(n) + t) == n
  {
    hide Digits, LeadingNumber, Atoll;
    SignedStops(if n < 0 then -n else n, t);
  }

  /** Reading back a written integer. */
  lemma ItosRoundTrip(n: int)
    ensures Atoll(Itos(n)) == n
  {
    AtollStops(n, []);
    assert Itos(n) + [] == Itos(n);
  }
}
