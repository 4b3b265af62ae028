/** JavaScript numbers as the components use them: prices and targets that may
    be NaN, `parseFloat`, and the relative-target syntax /^[+-]\d+(\.\d+)?$/. */
module Numbers {
  import opened Strings
  import opened Seqs

  /** A JavaScript number: NaN or a finite value (infinities are not modelled). */
  datatype Num = NaN | Real(v: real)

  /** `x >= n` in JavaScript: false whenever n is NaN. */
  predicate AtLeast(x: real, n: Num) { n.Real? && x >= n.v }

  /** `x <= n` in JavaScript: false whenever n is NaN. */
  predicate AtMost(x: real, n: Num) { n.Real? && x <= n.v }

  /** `x + n`: NaN is absorbing. */
  function Plus(x: real, n: Num): (r: Num)
    ensures r.Real? <==> n.Real?
    ensures r.Real? ==> r.v - x == n.v
  {
    if n.NaN? then NaN else Real(x + n.v)
  }

  predicate IsDigit(c: char) { '0' <= c <= '9' }

  /** Length of the leading run of decimal digits. */
  function DigitRun(s: string): (k: nat)
    ensures k <= |s|
    ensures forall i :: 0 <= i < k ==> IsDigit(s[i])
    ensures k == |s| || !IsDigit(s[k])
  {
    if |s| > 0 && IsDigit(s[0]) then 1 + DigitRun(s[1..]) else 0
  }

  /** The value of a string of decimal digits (0 for the empty string). */
  function DigitsValue(ds: string): nat
    requires forall i :: 0 <= i < |ds| ==> IsDigit(ds[i])
  {
    if |ds| == 0 then 0
    else
      assert IsDigit(ds[|ds| - 1]);
      DigitsValue(ds[..|ds| - 1]) * 10 + (ds[|ds| - 1] as int - '0' as int)
  }

  function Pow10(n: nat): (p: real)
    ensures p >= 1.0
  {
    if n == 0 then 1.0 else 10.0 * Pow10(n - 1)
  }

  /** The scale an optional exponent part ([eE][+-]?digits) at the start of `s`
      applies; 1 when there is no well-formed exponent part. */
  function ExponentScale(s: string): (m: real)
    ensures m > 0.0
  {
    if |s| >= 2 && (s[0] == 'e' || s[0] == 'E') then
      var signed := s[1..];
      var ds := if signed[0] == '+' || signed[0] == '-' then signed[1..] else signed;
      var e := DigitRun(ds);
      if e == 0 then 1.0
      else if signed[0] == '-' then 1.0 / Pow10(DigitsValue(ds[..e]))
      else Pow10(DigitsValue(ds[..e]))
    else 1.0
  }

  /** The longest prefix of `b` that is an unsigned decimal literal
      (digits, an optional fraction, an optional exponent), or None when `b`
      starts with neither a digit nor a '.' followed by a digit. */
  function ParseUnsigned(b: string): (r: Option<real>)
    ensures r.Some? <==> DigitRun(b) > 0 || (|b| > 1 && b[0] == '.' && IsDigit(b[1]))
  {
    var k := DigitRun(b);
    var rest := b[k..];
    var dot := |rest| > 0 && rest[0] == '.';
    var f := if dot then DigitRun(rest[1..]) else 0;
    var fraction := if dot then rest[1..1 + f] else "";
    var after := if dot then rest[1 + f..] else rest;
    if k == 0 && f == 0 then None
    else
      Some(Scaled(Mantissa(b[..k], fraction), after))
  }

  /** A mantissa times the scale of the exponent part that follows it. */
  function Scaled(m: real, after: string): (r: real)
    ensures after == "" ==> r == m
  {
    m * ExponentScale(after)
  }

  /** The value of `whole.fraction`, both strings of digits. */
  function Mantissa(whole: string, fraction: string): real
    requires forall i :: 0 <= i < |whole| ==> IsDigit(whole[i])
    requires forall i :: 0 <= i < |fraction| ==> IsDigit(fraction[i])
  {
    DigitsValue(whole) as real + DigitsValue(fraction) as real / Pow10(|fraction|)
  }

  /** `parseFloat(s)`: leading white space is skipped, an optional sign is read,
      then the longest decimal prefix; NaN when there is none. */
  function ParseFloat(s: string): (n: Num)
  {
    ParseSigned(TrimStart(s))
  }

  /** An optional sign, then the longest decimal prefix; NaN when there is none. */
  function ParseSigned(t: string): (n: Num)
  {
    var negative := |t| > 0 && t[0] == '-';
    var body := if |t| > 0 && (t[0] == '-' || t[0] == '+') then t[1..] else t;
    match ParseUnsigned(body)
    case None => NaN
    case Some(v) => Real(if negative then -v else v)
  }

  /** The input matches /^([+-]\d+(\.\d+)?)$/: a relative target such as "+5" or "-2.50". */
  predicate IsRelative(s: string)
  {
    && |s| >= 2
    && (s[0] == '+' || s[0] == '-')
    && IsUnsignedDecimal(s[1..])
  }

  /** The value a relative target denotes: its sign, its integer digits and its fraction. */
  function RelativeValue(s: string): real
    requires IsRelative(s)
  {
    var magnitude := UnsignedRelative(s[1..]);
    if s[0] == '-' then -magnitude else magnitude
  }

  /** `\d+(\.\d+)?` in full. */
  predicate IsUnsignedDecimal(b: string)
  {
    var k := DigitRun(b);
    && k >= 1
    && (k == |b| || (b[k] == '.' && DigitRun(b[k + 1..]) >= 1 && k + 1 + DigitRun(b[k + 1..]) == |b|))
  }

  function UnsignedRelative(b: string): real
    requires IsUnsignedDecimal(b)
  {
    var k := DigitRun(b);
    if k == |b| then Mantissa(b, "") else Mantissa(b[..k], b[k + 1..])
  }

  /** A run of digits with a fraction parses to the value it spells. */
  lemma FractionParses(b: string, k: nat)
    requires IsUnsignedDecimal(b) && k == DigitRun(b) && k < |b|
    ensures ParseUnsigned(b) == Some(Mantissa(b[..k], b[k + 1..]))
  {
    var rest := b[k..];
    assert rest[0] == '.' && rest[1..] == b[k + 1..];
    var f := DigitRun(rest[1..]);
    assert rest[1..1 + f] == b[k + 1..] && rest[1 + f..] == "";
  }

  /** A run of digits alone parses to the value it spells. */
  lemma WholeParses(b: string, k: nat)
    requires IsUnsignedDecimal(b) && k == DigitRun(b) && k == |b|
    ensures ParseUnsigned(b) == Some(Mantissa(b, ""))
  {
    assert b[k..] == "" && b[..k] == b;
  }

  lemma UnsignedDecimalParses(b: string)
    requires IsUnsignedDecimal(b)
    ensures ParseUnsigned(b) == Some(UnsignedRelative(b))
  {
    var k := DigitRun(b);
    if k < |b| {
      FractionParses(b, k);
    } else {
      WholeParses(b, k);
    }
  }

  /** Every relative target parses to a number (never NaN), namely the signed
      decimal it spells, so base + delta is a number whenever the base is. */
  lemma RelativeParses(s: string)
    requires IsRelative(s)
    ensures ParseFloat(s) == Real(RelativeValue(s))
  {
    assert TrimStart(s) == s;
    SignedParses(s);
  }

  lemma SignedParses(s: string)
    requires IsRelative(s)
    ensures ParseSigned(s) == Real(RelativeValue(s))
  {
    UnsignedDecimalParses(s[1..]);
  }
}
