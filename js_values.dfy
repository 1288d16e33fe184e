/**
 * The JavaScript values that the two handlers read out of a parsed JSON
 * request body, and the two operations they apply to them: the truthiness
 * test `!x` and the string conversion `String(x)`.
 */
module JsValues {

  /** Number.MAX_SAFE_INTEGER: every integer up to it is an exact IEEE double. */
  const MaxSafeInteger: int := 9007199254740991

  /** An integer that a JSON number literal parses to exactly. */
  type SafeInteger = n: int | -MaxSafeInteger <= n <= MaxSafeInteger

  /** A property of `req.body`. `Undefined` is an absent property. */
  datatype Field =
    | Undefined
    | Null
    | Text(s: string)
    | Number(n: SafeInteger)
    | Flag(b: bool)

  /** The value of `!!x`: undefined, null, "", 0 and false are falsy. */
  predicate Truthy(f: Field)
    ensures Truthy(f) <==> f != Undefined && f != Null && f != Text("") && f != Number(0) && f != Flag(false)
  {
    match f
    case Undefined => false
    case Null => false
    case Text(s) => s != ""
    case Number(n) => n != 0
    case Flag(b) => b
  }

  predicate IsDigit(c: char) {
    '0' <= c <= '9'
  }

  predicate AllDigits(s: string) {
    forall i :: 0 <= i < |s| ==> IsDigit(s[i])
  }

  /** A decimal numeral as `String(n)` writes one: no leading zero except "0". */
  predicate Canonical(s: string) {
    |s| >= 1 && AllDigits(s) && (s[0] == '0' ==> |s| == 1)
  }

  function DigitChar(d: nat): (c: char)
    requires d < 10
    ensures IsDigit(c) && c as int - '0' as int == d
  {
    ('0' as int + d) as char
  }

  /** `String(n)` for a non-negative integer below 10^21. */
  function NatToString(n: nat): (s: string)
    ensures Canonical(s)
    ensures s[0] == '0' <==> n == 0
    decreases n
  {
    if n < 10 then [DigitChar(n)] else NatToString(n / 10) + [DigitChar(n % 10)]
  }

  /** `String(i)` for a safe integer. */
  function IntToString(i: int): (s: string)
    // a non-negative integer prints as the canonical numeral of its value
    ensures i >= 0 ==> Canonical(s) && DecimalValue(s) == i
    // a negative one as a minus sign followed by the canonical numeral of its magnitude
    ensures i < 0 ==> |s| >= 2 && s[0] == '-' && Canonical(s[1..]) && DecimalValue(s[1..]) == -i
  {
    if i < 0 then
      var m := NatToString(-i);
      DecimalValueOfNatToString(-i);
      assert ("-" + m)[1..] == m;
      "-" + m
    else
      DecimalValueOfNatToString(i);
      NatToString(i)
  }

  /** `String(x)` for a body property. */
  function ToJsString(f: Field): (s: string)
    // a string is kept as it is
    ensures f.Text? ==> s == f.s
    // a non-negative number prints as the canonical numeral of its value
    ensures f.Number? && f.n >= 0 ==> Canonical(s) && DecimalValue(s) == f.n
    // a negative number prints as a minus sign followed by the numeral of its magnitude
    ensures f.Number? && f.n < 0 ==> |s| >= 2 && s[0] == '-' && Canonical(s[1..]) && DecimalValue(s[1..]) == -f.n
    // undefined, null and the booleans print as words that never start with a digit
    ensures !f.Text? && !f.Number? ==> |s| >= 4 && !IsDigit(s[0])
  {
    match f
    case Undefined => "undefined"
    case Null => "null"
    case Text(s) => s
    case Number(n) => IntToString(n)
    case Flag(b) => if b then "true" else "false"
  }

  /** The value of a string of decimal digits (the reading direction of NatToString). */
  function DecimalValue(s: string): (v: nat)
    requires AllDigits(s)
    ensures v < Pow10(|s|)
    decreases |s|
  {
    if s == [] then 0
    else
      10 * DecimalValue(s[..|s| - 1]) + (s[|s| - 1] as int - '0' as int)
  }

  function Pow10(k: nat): (p: nat)
    ensures p >= 1
    ensures k >= 1 ==> p >= 10
  {
    if k == 0 then 1 else 10 * Pow10(k - 1)
  }

  /** Reading back what NatToString writes gives the number again. */
  lemma {:induction false} DecimalValueOfNatToString(n: nat)
    ensures DecimalValue(NatToString(n)) == n
  {
    if n >= 10 {
      var s := NatToString(n);
      assert s[..|s| - 1] == NatToString(n / 10);
      DecimalValueOfNatToString(n / 10);
    }
  }

  /** Every canonical numeral is what NatToString writes for its value. */
  lemma {:induction false} NatToStringOfDecimalValue(s: string)
    requires Canonical(s)
    ensures NatToString(DecimalValue(s)) == s
    decreases |s|
  {
    if |s| > 1 {
      var p := s[..|s| - 1];
      assert p[0] == s[0];
      assert Canonical(p) by {
        forall i | 0 <= i < |p| ensures IsDigit(p[i]) {
          assert p[i] == s[i];
        }
      }
      NatToStringOfDecimalValue(p);
      var v := DecimalValue(p);
      var d := s[|s| - 1] as int - '0' as int;
      assert v != 0;
      assert DecimalValue(s) == 10 * v + d;
      assert (10 * v + d) / 10 == v && (10 * v + d) % 10 == d;
      assert DigitChar(d) == s[|s| - 1];
      assert s == p + [s[|s| - 1]];
    } else {
      assert s == [DigitChar(s[0] as int - '0' as int)];
    }
  }

  /** Two numbers print the same if and only if they are equal. */
  lemma NatToStringInjective(a: nat, b: nat)
    ensures NatToString(a) == NatToString(b) <==> a == b
  {
    DecimalValueOfNatToString(a);
    DecimalValueOfNatToString(b);
  }

  /** `String(n)` has at most k digits exactly when n < 10^k. */
  lemma {:induction false} NatToStringLength(n: nat, k: nat)
    requires k >= 1
    ensures |NatToString(n)| <= k <==> n < Pow10(k)
  {
    if n >= 10 && k > 1 {
      NatToStringLength(n / 10, k - 1);
      assert n / 10 < Pow10(k - 1) <==> n < 10 * Pow10(k - 1);
    }
  }

  /** A code from [100000, 999999] is written with exactly six digits. */
  lemma SixDigitCode(c: nat)
    requires 100000 <= c <= 999999
    ensures |NatToString(c)| == 6
  {
    assert Pow10(5) == 100000 && Pow10(6) == 1000000;
    NatToStringLength(c, 5);
    NatToStringLength(c, 6);
  }

  /**
   * `String(x) === String(c)` for a stored code c holds exactly when the
   * client sent c's decimal numeral as a string or c itself as a number.
   */
  lemma MatchesDecimal(f: Field, c: nat)
    ensures ToJsString(f) == NatToString(c) <==> f == Text(NatToString(c)) || (f.Number? && f.n == c)
  {
    var s := NatToString(c);
    match f
    case Undefined => assert !IsDigit(ToJsString(f)[0]);
    case Null => assert !IsDigit(ToJsString(f)[0]);
    case Flag(b) => assert !IsDigit(ToJsString(f)[0]);
    case Text(t) =>
    case Number(n) =>
      if n < 0 {
        assert !IsDigit(ToJsString(f)[0]);
      } else {
        NatToStringInjective(n, c);
      }
  }
}
