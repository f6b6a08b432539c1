/**
 * Decimal printing and parsing as the Go `strconv` package does it for the
 * calls the services make: `Itoa` for the message key of an order event,
 * `Atoi` to read such a key back, and `ParseUint(s, 10, 32)` for the
 * feedback id taken from the request path.
 */
module Strconv {
  import opened Wrappers

  const MaxUint32: nat := 0x1_0000_0000 - 1

  predicate IsDigit(c: char) { '0' <= c <= '9' }

  predicate AllDigits(s: string) { forall i :: 0 <= i < |s| ==> IsDigit(s[i]) }

  function DigitChar(d: nat): (c: char)
    requires d < 10
    ensures IsDigit(c)
    ensures c == '0' <==> d == 0
  {
    ['0', '1', '2', '3', '4', '5', '6', '7', '8', '9'][d]
  }

  function DigitValue(c: char): (d: nat)
    requires IsDigit(c)
    ensures d < 10 && DigitChar(d) == c
  {
    (c as int - '0' as int) as nat
  }

  /** The shortest decimal spelling of `n`, most significant digit first: no leading zero unless `n` is 0. */
  function Digits(n: nat): (s: string)
    ensures |s| > 0 && AllDigits(s)
    ensures s[0] == '0' <==> n == 0
  {
    if n < 10 then [DigitChar(n)] else Digits(n / 10) + [DigitChar(n % 10)]
  }

  /** The value of a string of decimal digits (leading zeros allowed). */
  function Value(s: string): nat
    requires AllDigits(s)
  {
    if s == [] then 0 else Value(s[..|s| - 1]) * 10 + DigitValue(s[|s| - 1])
  }

  /** strconv.Itoa: optional minus sign, then the digits of the magnitude. */
  function Itoa(n: int): string
  {
    if n < 0 then "-" + Digits(-n) else Digits(n)
  }

  /** strconv.Atoi on an unbounded int: an optional sign, then at least one digit. */
  function Atoi(s: string): Option<int>
  {
    if |s| > 0 && (s[0] == '-' || s[0] == '+') then
      var body := s[1..];
      if body == [] || !AllDigits(body) then None
      else
        var v: int := Value(body);
        Some(if s[0] == '-' then -v else v)
    else if s == [] || !AllDigits(s) then None
    else Some(Value(s))
  }

  /**
   * strconv.ParseUint(s, 10, 32): no sign, at least one digit, nothing but
   * digits, and a value that fits in 32 bits.
   */
  function ParseUint32(s: string): (r: Option<nat>)
    ensures r.Some? ==> r.value <= MaxUint32 && |s| > 0 && AllDigits(s) && r.value == Value(s)
    ensures r.None? <==> (s == [] || !AllDigits(s) || Value(s) > MaxUint32)
  {
    if s == [] || !AllDigits(s) then None
    else if Value(s) > MaxUint32 then None
    else Some(Value(s))
  }

  lemma {:induction false} ValueOfDigits(n: nat)
    ensures Value(Digits(n)) == n
  {
    if n >= 10 {
      var s := Digits(n);
      assert s[..|s| - 1] == Digits(n / 10);
      ValueOfDigits(n / 10);
    }
  }

  /** Reading back what Itoa printed yields the original integer. */
  lemma ItoaRoundTrip(n: int)
    ensures Atoi(Itoa(n)) == Some(n)
  {
    var s := Itoa(n);
    if n < 0 {
      var d := Digits(-n);
      assert s == "-" + d && s[0] == '-' && s[1..] == d;
      ValueOfDigits(-n);
    } else {
      var d := Digits(n);
      assert s == d && IsDigit(s[0]);
      ValueOfDigits(n);
    }
  }

  /** Distinct integers print as distinct keys. */
  lemma ItoaInjective(m: int, n: int)
    requires Itoa(m) == Itoa(n)
    ensures m == n
  {
    ItoaRoundTrip(m);
    ItoaRoundTrip(n);
  }

  /** Every id that fits in 32 bits is accepted in its decimal spelling. */
  lemma ParseUint32Digits(n: nat)
    requires n <= MaxUint32
    ensures ParseUint32(Digits(n)) == Some(n)
  {
    ValueOfDigits(n);
  }

  /** A signed spelling is refused even when its magnitude is in range. */
  lemma ParseUint32RejectsSign(s: string)
    requires |s| > 0 && (s[0] == '-' || s[0] == '+')
    ensures ParseUint32(s) == None
  {
    assert !IsDigit(s[0]);
  }
}
