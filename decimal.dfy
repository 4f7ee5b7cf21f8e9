/** Decimal text on both sides of the wire: the controller formats its fields with
    `%d`, and both light generations read them back with `acc * 10 + (c - '0')` into a
    `uint32_t`, without checking that `c` is a digit. */
module Decimal {
  import opened Shared

  predicate IsDigit(c: char)
  {
    '0' <= c <= '9'
  }

  predicate AllDigits(s: seq<char>)
  {
    forall i :: 0 <= i < |s| ==> IsDigit(s[i])
  }

  function DigitChar(d: nat): (c: char)
    requires d < 10
    ensures IsDigit(c) && c as int - '0' as int == d
  {
    ('0' as int + d) as char
  }

  /** `%d` of a non-negative value: its digits, most significant first, with no
      leading zero. */
  function Dec(v: nat): (s: seq<char>)
    ensures |s| >= 1 && AllDigits(s)
    ensures |s| == 1 <==> v < 10
  {
    if v < 10 then [DigitChar(v)] else Dec(v / 10) + [DigitChar(v % 10)]
  }

  /** The payload `"[%d|%d|%d]"` the xiao controller writes. */
  function Triple(a: nat, b: nat, c: nat): seq<char>
  {
    "[" + Dec(a) + "|" + Dec(b) + "|" + Dec(c) + "]"
  }

  /** The number a string of digits denotes. */
  function Value(s: seq<char>): nat
    requires AllDigits(s)
  {
    if s == [] then 0 else Value(s[..|s| - 1]) * 10 + (s[|s| - 1] as int - '0' as int)
  }

  /** One accumulation step `acc * 10 + (c - '0')` in `uint32_t`: the character's code
      is taken as is, so a non-digit (and a character below `'0'`, through the wrap)
      is folded in like a digit. */
  function Acc(acc: u32, c: char): u32
  {
    (acc * 10 + (c as int - '0' as int)) % U32_MODULUS
  }

  /** `Acc` over a string, first character first. */
  function AccAll(acc: u32, s: seq<char>): u32
    decreases |s|
  {
    if s == [] then acc else Acc(AccAll(acc, s[..|s| - 1]), s[|s| - 1])
  }

  /** Reading back what `%d` wrote gives the value. */
  lemma {:induction false} ValueOfDec(v: nat)
    ensures Value(Dec(v)) == v
    decreases v
  {
    if v >= 10 {
      ValueOfDec(v / 10);
      var s := Dec(v);
      assert s[..|s| - 1] == Dec(v / 10);
    }
  }

  /** A `uint32_t` has at most ten decimal digits. */
  lemma {:induction false} DecLength(v: nat, k: nat)
    requires v < Pow10(k) && k >= 1
    ensures |Dec(v)| <= k
    decreases k
  {
    if v >= 10 {
      DecLength(v / 10, k - 1);
    }
  }

  function Pow10(k: nat): (p: nat)
    ensures p >= 1
  {
    if k == 0 then 1 else 10 * Pow10(k - 1)
  }

  lemma DecLengthU32(v: u32)
    ensures |Dec(v)| <= 10
  {
    assert Pow10(10) == 10_000_000_000;
    DecLength(v, 10);
  }

  /** The wrapping accumulator computes the digits' value modulo 2^32. */
  lemma {:induction false} AccAllValue(s: seq<char>)
    requires AllDigits(s)
    ensures AccAll(0, s) == Value(s) % U32_MODULUS
    decreases |s|
  {
    if s != [] {
      var init := s[..|s| - 1];
      AccAllValue(init);
      var d := s[|s| - 1] as int - '0' as int;
      WrapThenStep(Value(init), d);
    }
  }

  /** Wrapping before a decimal step gives the same result as wrapping after it. */
  lemma WrapThenStep(x: nat, d: int)
    ensures ((x % U32_MODULUS) * 10 + d) % U32_MODULUS == (x * 10 + d) % U32_MODULUS
  {
    var q := x / U32_MODULUS;
    var r := x % U32_MODULUS;
    assert x * 10 + d == (r * 10 + d) + (q * 10) * U32_MODULUS;
  }

  /** Hence a `uint32_t` printed with `%d` is read back exactly. */
  lemma RoundTrip(v: u32)
    ensures AccAll(0, Dec(v)) == v
  {
    AccAllValue(Dec(v));
    ValueOfDec(v);
  }
}
