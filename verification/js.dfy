/** JavaScript value conventions the services and pages rely on: optional
    fields, the `||` default idiom, and rendering numbers and missing values
    inside template literals. */
module Js {

  /** A JSON field that may be missing. `undefined` and `null` are both None. */
  datatype Option<+T> = None | Some(value: T) {
    function GetOr(default: T): T {
      match this
      case Some(v) => v
      case None => default
    }
  }

  /** JavaScript truthiness of an optional string: missing and "" are falsy. */
  predicate Truthy(s: Option<string>) {
    s.Some? && |s.value| > 0
  }

  /** `${v}` for a string that may be undefined. */
  function Render(s: Option<string>): (r: string)
    ensures s.Some? ==> r == s.value
    ensures s.None? ==> r == "undefined"
  {
    match s
    case Some(v) => v
    case None => "undefined"
  }

  /** `s || default` for a string field. */
  function StringOr(s: Option<string>, default: string): (r: string)
    ensures Truthy(s) ==> r == s.value
    ensures !Truthy(s) ==> r == default
  {
    if Truthy(s) then s.value else default
  }

  /** `s || null` for a string field: the empty string becomes null. */
  function StringOrNull(s: Option<string>): (r: Option<string>)
    ensures r.None? || |r.value| > 0
    ensures Truthy(s) ==> r == s
  {
    if Truthy(s) then s else None
  }

  /** `n || default` for an integer field: 0 is falsy. */
  function IntOr(n: Option<int>, default: int): (r: int)
    ensures n.Some? && n.value != 0 ==> r == n.value
    ensures n.None? || n.value == 0 ==> r == default
  {
    if n.Some? && n.value != 0 then n.value else default
  }

  /** `x || default` for a fractional number field: 0 is falsy. */
  function RealOr(x: Option<real>, default: real): (r: real)
    ensures x.Some? && x.value != 0.0 ==> r == x.value
    ensures x.None? || x.value == 0.0 ==> r == default
  {
    if x.Some? && x.value != 0.0 then x.value else default
  }

  /** With a default of 0, `n || 0` is simply "0 when missing". */
  lemma IntOrZeroIsGetOr(n: Option<int>)
    ensures IntOr(n, 0) == n.GetOr(0)
  {
  }

  // ---------------------------------------------------------------------
  // Decimal rendering of integers (`${n}` for a whole number)
  // ---------------------------------------------------------------------

  predicate IsDigit(c: char) {
    '0' <= c <= '9'
  }

  predicate AllDigits(s: string) {
    forall i :: 0 <= i < |s| ==> IsDigit(s[i])
  }

  function DigitChar(d: nat): (c: char)
    requires d < 10
    ensures IsDigit(c)
  {
    ['0', '1', '2', '3', '4', '5', '6', '7', '8', '9'][d]
  }

  function DigitValue(c: char): (d: nat)
    requires IsDigit(c)
    ensures d < 10
  {
    (c as int - '0' as int) as nat
  }

  lemma DigitRoundTrip(d: nat)
    requires d < 10
    ensures DigitValue(DigitChar(d)) == d
  {
  }

  /** Value of a string of decimal digits (the empty string is 0). */
  function DigitsValue(s: string): nat
    requires AllDigits(s)
  {
    if |s| == 0 then 0 else 10 * DigitsValue(s[..|s| - 1]) + DigitValue(s[|s| - 1])
  }

  /** Shortest decimal form of a natural number, as JavaScript prints it. */
  function NatToString(n: nat): (s: string)
    ensures |s| > 0 && AllDigits(s)
    ensures |s| > 1 ==> s[0] != '0'
    decreases n
  {
    if n < 10 then [DigitChar(n)] else NatToString(n / 10) + [DigitChar(n % 10)]
  }

  /** `${n}` for an integer (JavaScript prints a leading '-' for negatives). */
  function IntToString(n: int): (s: string)
    ensures |s| > 0
    ensures n >= 0 ==> AllDigits(s)
    ensures n < 0 ==> s[0] == '-' && AllDigits(s[1..])
  {
    if n < 0 then "-" + NatToString(-n) else NatToString(n)
  }

  /** Reading the printed digits back gives the number again. */
  lemma {:induction false} NatToStringRoundTrip(n: nat)
    ensures DigitsValue(NatToString(n)) == n
    decreases n
  {
    var s := NatToString(n);
    if n < 10 {
      DigitRoundTrip(n);
    } else {
      NatToStringRoundTrip(n / 10);
      DigitRoundTrip(n % 10);
      assert s[..|s| - 1] == NatToString(n / 10);
    }
  }

  lemma SignShows(n: int)
    ensures IntToString(n)[0] == '-' <==> n < 0
  {
    if n >= 0 {
      assert IsDigit(IntToString(n)[0]);
    }
  }

  lemma NatToStringInjective(a: nat, b: nat)
    requires NatToString(a) == NatToString(b)
    ensures a == b
  {
    NatToStringRoundTrip(a);
    NatToStringRoundTrip(b);
  }

  /** Value of an optionally signed string of digits. */
  function ReadInt(s: string): int
    requires |s| > 0 && (if s[0] == '-' then AllDigits(s[1..]) else AllDigits(s))
  {
    if s[0] == '-' then -(DigitsValue(s[1..]) as int) else DigitsValue(s)
  }

  /** Reading a printed integer back gives the integer. */
  lemma IntToStringRoundTrip(n: int)
    ensures ReadInt(IntToString(n)) == n
  {
    if n < 0 {
      ReadNegative(-n);
      assert IntToString(n) == "-" + NatToString(-n);
    } else {
      SignShows(n);
      NatToStringRoundTrip(n);
    }
  }

  lemma ReadNegative(m: nat)
    requires m > 0
    ensures var s := "-" + NatToString(m);
      s[0] == '-' && AllDigits(s[1..]) && ReadInt(s) == -(m as int)
  {
    var s := "-" + NatToString(m);
    assert s[1..] == NatToString(m);
    NatToStringRoundTrip(m);
  }

  /** Printing is injective: distinct numbers render differently. */
  lemma IntToStringInjective(a: int, b: int)
    requires IntToString(a) == IntToString(b)
    ensures a == b
  {
    IntToStringRoundTrip(a);
    IntToStringRoundTrip(b);
  }
}
