/** Bytes, and the fixed-width and decimal notations the protocols use for numbers. */
module Bytes {

  type byte = b: int | 0 <= b < 256
  type bytes = seq<byte>

  const LF: byte := 10
  const CR: byte := 13
  const SP: byte := 32
  const PLUS: byte := 43
  const MINUS: byte := 45
  const COLON: byte := 58
  const CRLF: bytes := [CR, LF]

  /** Equality of byte strings that agree piecewise. */
  lemma SplitAppend(a: bytes, b: bytes)
    ensures (a + b)[..|a|] == a && (a + b)[|a|..] == b
  {
  }

  /** Quotient and remainder are the only pair with their property. */
  lemma DivUnique(x: int, k: nat, q: int, r: nat)
    requires 0 < k && x == k * q + r && r < k
    ensures x / k == q && x % k == r
  {
    var q', r' := x / k, x % k;
    assert x == k * q' + r';
    assert k * (q - q') == k * q - k * q' && k * (q' - q) == k * q' - k * q;
    if q > q' {
      AtLeast(k, q - q');
    } else if q < q' {
      AtLeast(k, q' - q);
    }
  }

  lemma AtLeast(k: nat, d: nat)
    requires d >= 1
    ensures k * d >= k
  {
  }

  // ---- Big-endian integers (what hton and htonl put on the wire) ----

  function Pow256(k: nat): (p: nat)
    ensures p > 0
  {
    if k == 0 then 1 else 256 * Pow256(k - 1)
  }

  function BigEndian(width: nat, n: nat): (r: bytes)
    ensures |r| == width
  {
    if width == 0 then [] else BigEndian(width - 1, n / 256) + [n % 256]
  }

  function FromBigEndian(s: bytes): nat {
    if s == [] then 0 else FromBigEndian(s[..|s| - 1]) * 256 + s[|s| - 1]
  }

  lemma {:induction false} BigEndianRoundTrip(width: nat, n: nat)
    requires n < Pow256(width)
    ensures FromBigEndian(BigEndian(width, n)) == n
  {
    if width > 0 {
      BigEndianRoundTrip(width - 1, n / 256);
      var r := BigEndian(width, n);
      assert r[..|r| - 1] == BigEndian(width - 1, n / 256);
    }
  }

  // ---- Decimal text (std::to_string, and atoi / atol reading it back) ----

  predicate IsDigit(b: byte) { 48 <= b <= 57 }

  /** isspace in the C locale. */
  predicate IsSpace(b: byte) { 9 <= b <= 13 || b == SP }

  predicate AllDigits(s: bytes) { forall i :: 0 <= i < |s| ==> IsDigit(s[i]) }

  function Decimal(n: nat): (r: bytes)
    ensures r != [] && AllDigits(r)
  {
    if n < 10 then [48 + n] else Decimal(n / 10) + [48 + n % 10]
  }

  function DecimalInt(n: int): bytes {
    if n < 0 then [MINUS] + Decimal(-n) else Decimal(n)
  }

  /** The value of the leading digits of `s`, continuing from `acc`. */
  function DigitsValue(s: bytes, acc: nat): nat {
    if s == [] || !IsDigit(s[0]) then acc else DigitsValue(s[1..], acc * 10 + (s[0] - 48))
  }

  function SkipSpace(s: bytes): bytes {
    if s != [] && IsSpace(s[0]) then SkipSpace(s[1..]) else s
  }

  /** atoi and atol over mathematical integers: white space, a sign, leading digits. */
  function Atoi(s: bytes): int {
    var t := SkipSpace(s);
    if t != [] && t[0] == MINUS then -(DigitsValue(t[1..], 0) as int)
    else if t != [] && t[0] == PLUS then DigitsValue(t[1..], 0)
    else DigitsValue(t, 0)
  }

  lemma {:induction false} DigitsValueAppend(a: bytes, b: bytes, acc: nat)
    requires AllDigits(a)
    ensures DigitsValue(a + b, acc) == DigitsValue(b, DigitsValue(a, acc))
  {
    if a == [] {
      assert a + b == b;
    } else {
      assert (a + b)[1..] == a[1..] + b;
      DigitsValueAppend(a[1..], b, acc * 10 + (a[0] - 48));
    }
  }

  lemma {:induction false} DecimalValue(n: nat)
    ensures DigitsValue(Decimal(n), 0) == n
  {
    if n >= 10 {
      DecimalValue(n / 10);
      DigitsValueAppend(Decimal(n / 10), [48 + n % 10], 0);
      assert [48 + n % 10][1..] == [];
    }
  }

  /** atoi undoes std::to_string. */
  lemma AtoiDecimal(n: int)
    ensures Atoi(DecimalInt(n)) == n
  {
    if n < 0 {
      assert DecimalInt(n)[1..] == Decimal(-n);
      DecimalValue(-n);
    } else {
      DecimalValue(n);
    }
  }
}
