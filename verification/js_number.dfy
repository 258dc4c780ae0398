/**
 * JavaScript number semantics the service depends on: NaN, truthiness,
 * comparisons that are false for NaN, `parseInt(s, 10)`, `parseFloat(s)`
 * and `Math.ceil` of a quotient.
 */
module JsNumber {
  import opened Wrappers
  import opened Text

  /** A JavaScript number: NaN or a finite value (infinities are not modelled). */
  datatype Num = NaN | Fin(v: real)

  predicate IsInteger(x: real) {
    x == x.Floor as real
  }

  /** `Boolean(n)`: zero and NaN are falsy. */
  predicate Truthy(n: Num) {
    n.Fin? && n.v != 0.0
  }

  /** `Boolean(s)` for an optional string: undefined and the empty string are falsy. */
  predicate TruthyText(s: Option<string>) {
    s.Some? && s.value != ""
  }

  /** `n < x`, which is false when `n` is NaN. */
  predicate Below(n: Num, x: real) {
    n.Fin? && n.v < x
  }

  /** `n > x`, which is false when `n` is NaN. */
  predicate Above(n: Num, x: real) {
    n.Fin? && n.v > x
  }

  /** Length of the longest prefix made of decimal digits. */
  function DigitPrefixLen(s: string): (k: nat)
    ensures k <= |s| && AllDigits(s[..k])
    ensures k < |s| ==> !IsDigit(s[k])
    decreases |s|
  {
    if |s| > 0 && IsDigit(s[0]) then
      var k := 1 + DigitPrefixLen(s[1..]);
      assert s[..k] == [s[0]] + s[1..][..k - 1];
      k
    else 0
  }

  /** -1 when the text starts with a minus sign, 1 otherwise. */
  function SignOf(t: string): int {
    if |t| > 0 && t[0] == '-' then -1 else 1
  }

  /** The text after an optional leading `+` or `-`. */
  function Unsigned(t: string): string {
    if |t| > 0 && (t[0] == '-' || t[0] == '+') then t[1..] else t
  }

  /**
   * `parseInt(s, 10)`: skip leading whitespace, take an optional sign, then the
   * longest run of digits; NaN when there is no digit.
   */
  function ParseInt(s: string): (r: Num)
    ensures r.Fin? <==> (var u := Unsigned(TrimStart(s)); |u| > 0 && IsDigit(u[0]))
    ensures r.Fin? ==> IsInteger(r.v)
  {
    var t := TrimStart(s);
    var u := Unsigned(t);
    var k := DigitPrefixLen(u);
    if k == 0 then NaN
    else Fin((SignOf(t) * DigitsValue(u[..k])) as real)
  }

  function Pow10(j: nat): (p: nat)
    ensures p >= 1
  {
    if j == 0 then 1 else 10 * Pow10(j - 1)
  }

  /**
   * `parseFloat(s)` for decimal text: skip leading whitespace, optional sign,
   * digits, then an optional fraction; NaN when no digit is found on either
   * side of the point. Exponents and `Infinity` are not modelled.
   */
  function ParseFloat(s: string): (r: Num)
    ensures r.Fin? <==> (var u := Unsigned(TrimStart(s));
                          var k := DigitPrefixLen(u);
                          k > 0 || (k < |u| && u[k] == '.' && DigitPrefixLen(u[k + 1..]) > 0))
  {
    var t := TrimStart(s);
    var u := Unsigned(t);
    var k := DigitPrefixLen(u);
    var j := if k < |u| && u[k] == '.' then DigitPrefixLen(u[k + 1..]) else 0;
    if k == 0 && j == 0 then NaN
    else
      var whole := DigitsValue(u[..k]) as real;
      var frac := if j == 0 then 0.0 else DigitsValue(u[k + 1..][..j]) as real / Pow10(j) as real;
      Fin(SignOf(t) as real * (whole + frac))
  }

  /** The digit prefix of `d + rest` is exactly `d` when `rest` does not continue with a digit. */
  lemma {:induction false} DigitPrefixOfDigits(d: string, rest: string)
    requires AllDigits(d)
    requires |rest| == 0 || !IsDigit(rest[0])
    ensures DigitPrefixLen(d + rest) == |d|
    decreases |d|
  {
    if |d| > 0 {
      assert (d + rest)[1..] == d[1..] + rest;
      DigitPrefixOfDigits(d[1..], rest);
    }
  }

  /** The text of an integer: no leading whitespace, its sign, then all digits of its magnitude. */
  lemma RenderedInteger(n: int)
    ensures var s := IntToString(n);
      var u := Unsigned(s);
      var m: nat := if n < 0 then -n else n;
      && TrimStart(s) == s
      && SignOf(s) == (if n < 0 then -1 else 1)
      && DigitPrefixLen(u) == |u| && u[..|u|] == u
      && AllDigits(u) && DigitsValue(u) == m
  {
    var s := IntToString(n);
    assert TrimStart(s) == s;
    var u := Unsigned(s);
    var m: nat := if n < 0 then -n else n;
    assert u == NatToString(m);
    DigitPrefixOfDigits(u, "");
    assert u + "" == u;
    NatToStringRoundTrip(m);
  }

  /** Rendering an integer and parsing it back with `parseInt` gives the integer. */
  lemma ParseIntRoundTrip(n: int)
    ensures ParseInt(IntToString(n)) == Fin(n as real)
  {
    RenderedInteger(n);
  }

  /** Rendering an integer and parsing it back with `parseFloat` gives the integer. */
  lemma ParseFloatRoundTrip(n: int)
    ensures ParseFloat(IntToString(n)) == Fin(n as real)
  {
    RenderedInteger(n);
    var s := IntToString(n);
    var u := Unsigned(s);
    var k := DigitPrefixLen(u);
    assert !(k < |u|);
    var whole := DigitsValue(u[..k]) as real;
    assert SignOf(s) as real * (whole + 0.0) == n as real;
  }

  /** `parseFloat` keeps a fractional part: "3.5" parses to 3.5, which is no integer. */
  lemma ParseFloatKeepsFraction()
    ensures ParseFloat("3.5") == Fin(3.5)
    ensures !IsInteger(3.5)
  {
    var u := "3.5";
    assert !IsWhitespace(u[0]);
    assert TrimStart(u) == u;
    assert Unsigned(u) == u;
    assert SignOf(u) == 1;
    var tail := u[2..];
    assert tail == "5";
    assert DigitPrefixLen(tail[1..]) == 0;
    assert DigitPrefixLen(tail) == 1;
    assert DigitPrefixLen(u[1..]) == 0;
    assert DigitPrefixLen(u) == 1;
    assert u[..1] == "3";
    assert DigitsValue("3") == 3 by { assert "3"[..0] == ""; }
    assert tail[..1] == "5";
    assert DigitsValue("5") == 5 by { assert "5"[..0] == ""; }
    assert Pow10(1) == 10;
    assert 1.0 * (3.0 + 5.0 / 10.0) == 3.5;
  }

  /**
   * `Math.ceil(a / b)` for a positive divisor, computed exactly on integers:
   * the least `c` with `a <= c * b`.
   */
  function CeilDiv(a: int, b: int): (c: int)
    requires b > 0
    ensures (c - 1) * b < a <= c * b
  {
    -((-a) / b)
  }

  /** The ceiling of a quotient is unique: any `c` bounded like `CeilDiv` equals it. */
  lemma CeilDivUnique(a: int, b: int, c: int)
    requires b > 0
    requires (c - 1) * b < a <= c * b
    ensures CeilDiv(a, b) == c
  {
  }
}
