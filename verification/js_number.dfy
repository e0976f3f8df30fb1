/** JavaScript's `Number(string)` conversion (the StringNumericLiteral
    grammar of ECMAScript) and the two tests the client code applies to its
    result: `isNaN(x)` and truthiness. Values are exact reals: rounding to
    a 64-bit double (overflow to Infinity, underflow to 0) is not modelled. */
module JsNumber {
  import opened Wrappers
  import opened JsText

  datatype JsNum = NaN | Infinity(negative: bool) | Finite(value: real)

  /** `!!n`: 0 and NaN are the falsy numbers. */
  predicate Truthy(n: JsNum) {
    !(n.NaN? || n == Finite(0.0))
  }

  /** The value of a digit in radix up to 36; 36 for a non-digit. */
  function DigitValue(c: char): (d: nat)
    ensures d <= 36
  {
    if '0' <= c <= '9' then c as int - '0' as int
    else if 'a' <= c <= 'z' then c as int - 'a' as int + 10
    else if 'A' <= c <= 'Z' then c as int - 'A' as int + 10
    else 36
  }

  predicate AllDigitsOf(s: string, radix: nat) {
    forall i :: 0 <= i < |s| ==> DigitValue(s[i]) < radix
  }

  /** The value of a digit string read most significant digit first. */
  function DigitsValue(s: string, radix: nat): nat
    decreases |s|
  {
    if s == [] then 0 else DigitsValue(s[..|s| - 1], radix) * radix + DigitValue(s[|s| - 1])
  }

  function Pow10(e: nat): (r: nat)
    ensures r >= 1
  {
    if e == 0 then 1 else 10 * Pow10(e - 1)
  }

  /** 10 to the power `e`, for a possibly negative exponent. */
  function Scale(e: int): real {
    if e >= 0 then Pow10(e) as real else 1.0 / Pow10(-e) as real
  }

  /** Index of the first `c` in `s`, or `|s|` if there is none. */
  function IndexOf(s: string, c: char): (i: nat)
    ensures i <= |s| && c !in s[..i]
    ensures i < |s| ==> s[i] == c
  {
    if s == [] || s[0] == c then 0 else 1 + IndexOf(s[1..], c)
  }

  /** In a text that starts with `k` decimal digits followed by `c`, a
      character that is not a digit, the first `c` is at `k`. */
  lemma IndexOfAfterDigits(t: string, k: nat, c: char)
    requires k < |t| && t[k] == c && !IsDecimalDigit(c)
    requires forall i :: 0 <= i < k ==> IsDecimalDigit(t[i])
    ensures IndexOf(t, c) == k
  {
  }

  /** Index of the first exponent marker `e` or `E`, or `|s|`. */
  function IndexOfExponent(s: string): (i: nat)
    ensures i <= |s| && 'e' !in s[..i] && 'E' !in s[..i]
    ensures i < |s| ==> s[i] == 'e' || s[i] == 'E'
  {
    if s == [] || s[0] == 'e' || s[0] == 'E' then 0 else 1 + IndexOfExponent(s[1..])
  }

  /** An exponent: an optional sign and at least one decimal digit. */
  function SignedInteger(s: string): Option<int> {
    if s != [] && (s[0] == '+' || s[0] == '-') then
      var ds := s[1..];
      var v: int := DigitsValue(ds, 10);
      if ds != [] && AllDigitsOf(ds, 10) then Some(if s[0] == '-' then -v else v)
      else None
    else if s != [] && AllDigitsOf(s, 10) then Some(DigitsValue(s, 10))
    else None
  }

  /** The parts of an unsigned decimal literal `digits[.digits][e exponent]`
      or `.digits[e exponent]`, with at least one digit in the mantissa: the
      whole digits, the fraction digits and the exponent. */
  function DecimalParts(u: string): Option<(string, string, int)> {
    var e := IndexOfExponent(u);
    var mantissa := u[..e];
    var exponent := if e == |u| then Some(0) else SignedInteger(u[e + 1..]);
    var dot := IndexOf(mantissa, '.');
    var whole := mantissa[..dot];
    var fraction := if dot < |mantissa| then mantissa[dot + 1..] else "";
    if exponent.None? || !AllDigitsOf(whole, 10) || !AllDigitsOf(fraction, 10)
       || (whole == [] && fraction == [])
    then None
    else
      Some((whole, fraction, exponent.value))
  }

  /** The value of an unsigned decimal literal, if it is one. */
  function UnsignedDecimal(u: string): Option<real> {
    match DecimalParts(u)
    case None => None
    case Some((whole, fraction, exponent)) => Some(DecimalValue(whole, fraction, exponent))
  }

  /** The value of `whole.fraction e exponent`. */
  function DecimalValue(whole: string, fraction: string, exponent: int): real {
    (DigitsValue(whole, 10) as real + DigitsValue(fraction, 10) as real / Pow10(|fraction|) as real)
    * Scale(exponent)
  }

  lemma IntegerDecimalValue(whole: string)
    ensures DecimalValue(whole, "", 0) == DigitsValue(whole, 10) as real
  {
    assert Scale(0) == 1.0;
  }

  /** A signed decimal literal or `Infinity`. */
  function DecimalLiteral(t: string): JsNum {
    var negative := t != [] && t[0] == '-';
    var u := if t != [] && (t[0] == '+' || t[0] == '-') then t[1..] else t;
    if u == "Infinity" then Infinity(negative)
    else match UnsignedDecimal(u)
      case None => NaN
      case Some(v) => Finite(if negative then -v else v)
  }

  /** `0x`, `0o` or `0b` digits: unsigned, at least one digit. */
  function NonDecimal(digits: string, radix: nat): JsNum {
    if digits != [] && AllDigitsOf(digits, radix) then Finite(DigitsValue(digits, radix) as real)
    else NaN
  }

  /** `Number(s)`. */
  function ToNumber(s: string): JsNum {
    var t := Trim(s);
    if t == [] then Finite(0.0)
    else if |t| >= 2 && t[0] == '0' && (t[1] == 'x' || t[1] == 'X') then NonDecimal(t[2..], 16)
    else if |t| >= 2 && t[0] == '0' && (t[1] == 'o' || t[1] == 'O') then NonDecimal(t[2..], 8)
    else if |t| >= 2 && t[0] == '0' && (t[1] == 'b' || t[1] == 'B') then NonDecimal(t[2..], 2)
    else DecimalLiteral(t)
  }

  /** The trimmed texts `Number` reads as a number: the empty text, a
      radix-prefixed run of digits, a signed `Infinity` or a signed decimal
      literal. The same branches as `ToNumber`, without the values. */
  predicate NumericText(t: string) {
    if t == [] then true
    else if |t| >= 2 && t[0] == '0' && (t[1] == 'x' || t[1] == 'X') then t[2..] != [] && AllDigitsOf(t[2..], 16)
    else if |t| >= 2 && t[0] == '0' && (t[1] == 'o' || t[1] == 'O') then t[2..] != [] && AllDigitsOf(t[2..], 8)
    else if |t| >= 2 && t[0] == '0' && (t[1] == 'b' || t[1] == 'B') then t[2..] != [] && AllDigitsOf(t[2..], 2)
    else
      var u := if t[0] == '+' || t[0] == '-' then t[1..] else t;
      u == "Infinity" || DecimalParts(u).Some?
  }

  /** `isNaN(s)` for a string argument. */
  predicate IsNaN(s: string) {
    !NumericText(Trim(s))
  }

  /** `isNaN(s)` holds exactly when `Number(s)` is NaN. */
  lemma IsNaNIsNumberNaN(s: string)
    ensures IsNaN(s) <==> ToNumber(s).NaN?
  {
  }

  /** A whitespace-only string, the empty string included, converts to 0. */
  lemma BlankIsZero(s: string)
    requires AllWhitespace(s)
    ensures ToNumber(s) == Finite(0.0)
  {
    TrimSpec(s);
  }

  /** A string with no surrounding whitespace is its own trim. */
  lemma TrimmedIsTrim(s: string)
    requires s != [] && !IsWhitespace(s[0]) && !IsWhitespace(s[|s| - 1])
    ensures Trim(s) == s
  {
  }

  /** A non-empty digit string is an unsigned decimal literal worth its digits. */
  lemma DigitsAreDecimal(s: string)
    requires s != [] && forall i :: 0 <= i < |s| ==> IsDecimalDigit(s[i])
    ensures DecimalParts(s) == Some((s, "", 0))
    ensures UnsignedDecimal(s) == Some(DigitsValue(s, 10) as real)
  {
    NoMarkersInDigits(s);
    assert s[..|s|] == s;
    IntegerDecimalValue(s);
  }

  /** One character that is not a digit is not an unsigned decimal literal. */
  lemma NonDigitIsNotDecimal(c: char)
    requires !IsDecimalDigit(c)
    ensures DecimalParts([c]) == None
  {
    var u := [c];
    var e := IndexOfExponent(u);
    if e == 0 {
      assert u[..e] == [];
    } else {
      assert u[..e] == u;
      var dot := IndexOf(u, '.');
      if dot == 0 {
        assert u[..dot] == [] && u[dot + 1..] == [];
      } else {
        assert u[..dot] == u;
        assert !AllDigitsOf(u, 10);
      }
    }
  }

  /** A one-character string is a number exactly when the character is a
      decimal digit or whitespace. */
  lemma SingleCharIsNaN(c: char)
    ensures IsNaN([c]) <==> !IsDecimalDigit(c) && !IsWhitespace(c)
  {
    if IsWhitespace(c) {
      TrimSpec([c]);
    } else {
      TrimmedIsTrim([c]);
      if c == '+' || c == '-' {
        assert [c][1..] == [];
        assert DecimalParts([]) == None;
      } else if IsDecimalDigit(c) {
        DigitsAreDecimal([c]);
      } else {
        NonDigitIsNotDecimal(c);
      }
    }
  }

  lemma {:induction false} NatToStringValue(n: nat)
    ensures DigitsValue(NatToString(n), 10) == n
  {
    var s := NatToString(n);
    if n < 10 {
      assert s[..0] == [];
    } else {
      NatToStringValue(n / 10);
      assert s[..|s| - 1] == NatToString(n / 10);
    }
  }

  /** Converting the decimal rendering of a non-negative integer gives that
      integer back. */
  lemma DecimalRoundTrip(n: nat)
    ensures ToNumber(NatToString(n)) == Finite(n as real)
  {
    var s := NatToString(n);
    TrimmedIsTrim(s);
    assert !(|s| >= 2 && s[0] == '0');
    DigitsAreDecimal(s);
    NatToStringValue(n);
    UnsignedLiteral(s);
  }

  /** A literal that starts with neither a sign nor `Infinity` is read as an
      unsigned decimal. */
  lemma UnsignedLiteral(t: string)
    requires t != [] && IsDecimalDigit(t[0])
    ensures DecimalLiteral(t) == match UnsignedDecimal(t) case None => NaN case Some(v) => Finite(v)
  {
    assert t != "Infinity" by { assert "Infinity"[0] == 'I'; }
  }

  lemma {:induction false} NoMarkersInDigits(s: string)
    requires forall i :: 0 <= i < |s| ==> IsDecimalDigit(s[i])
    ensures IndexOfExponent(s) == |s| && IndexOf(s, '.') == |s|
    ensures AllDigitsOf(s, 10)
  {
    if s != [] {
      NoMarkersInDigits(s[1..]);
    }
  }
}
