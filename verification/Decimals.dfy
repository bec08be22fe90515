/** Exact decimal numbers: a digit string scaled by a power of ten, as a document's literal spells it. */
module Decimals {
  import opened Common
  import opened Strings

  const MaxText := 4096

  const TextPadding := 3

  /** 2 to the power 63: machine integers run from its negation up to one less. */
  const Limit := 0x8000_0000_0000_0000

  /** 64-bit two's complement wrap-around. */
  function Wrap(x: int): (w: int)
    ensures -Limit <= w < Limit
    ensures -Limit <= x < Limit ==> w == x
  {
    (x + Limit) % (2 * Limit) - Limit
  }

  /** sign * digits * 10^exp; leading zeros are stripped, and no digits means zero. */
  datatype Decimal = Decimal(digits: string, exp: int, neg: bool, floatForm: bool)

  predicate IsDigit(c: char) {
    '0' <= c <= '9'
  }

  predicate DigitsOnly(s: string) {
    forall i :: 0 <= i < |s| ==> IsDigit(s[i])
  }

  function WithSign(neg: bool, n: int): int {
    if neg then -n else n
  }

  // ---- parsing ----

  datatype Signed = Signed(body: string, neg: bool)

  function DecimalSign(text: string): Option<Signed> {
    if text == "" then None
    else if text[0] == '-' then Some(Signed(text[1..], true))
    else if text[0] == '+' then Some(Signed(text[1..], false))
    else Some(Signed(text, false))
  }

  /** A decimal integer with an optional sign, within 64 bits. */
  function Atoi(s: string): Option<int> {
    match DecimalSign(s)
    case None => None
    case Some(signed) =>
      if signed.body == "" || !DigitsOnly(signed.body) then None
      else
        var v := WithSign(signed.neg, NatOf(signed.body));
        if -Limit <= v < Limit then Some(v) else None
  }

  datatype Scaled = Scaled(mantissa: string, exp: int)

  function DecimalExponent(body: string): Option<Scaled> {
    var lower := Cut(body, 'e');
    var cut := if lower.found then lower else Cut(body, 'E');
    if !cut.found then Some(Scaled(body, 0))
    else match Atoi(cut.after)
      case None => None
      case Some(exp) => Some(Scaled(cut.before, exp))
  }

  function TrimZeros(s: string): string {
    if s != "" && s[0] == '0' then TrimZeros(s[1..]) else s
  }

  function Abs(v: int): int {
    if v < 0 then Wrap(-v) else v
  }

  /** The length the guard compares, in machine arithmetic. */
  function Size(d: Decimal): int {
    Wrap(|d.digits| + Abs(d.exp))
  }

  function ParseDecimal(text: string): Option<Decimal> {
    match DecimalSign(text)
    case None => None
    case Some(signed) =>
      match DecimalExponent(signed.body)
      case None => None
      case Some(scaled) =>
        var pointed := Cut(scaled.mantissa, '.');
        if !DigitsOnly(pointed.before) || !DigitsOnly(pointed.after) then None
        else if pointed.before == "" && pointed.after == "" then None
        else
          var value := Decimal(TrimZeros(pointed.before + pointed.after), Wrap(scaled.exp - |pointed.after|),
                               signed.neg, pointed.found || 'e' in signed.body || 'E' in signed.body);
          if Size(value) > MaxText then None else Some(value)
  }

  // ---- printing ----

  function Zeros(n: nat): (s: string)
    ensures |s| == n && forall i :: 0 <= i < n ==> s[i] == '0'
  {
    seq(n, _ => '0')
  }

  function Coefficient(d: Decimal): string {
    if d.digits == "" then "0" else d.digits
  }

  function FixedPoint(digits: string, exp: int): string {
    if exp >= 0 then digits + Zeros(exp)
    else if -exp < |digits| then digits[..|digits| + exp] + "." + digits[|digits| + exp..]
    else "0." + Zeros(-exp - |digits|) + digits
  }

  function ToString(d: Decimal): string {
    (if d.neg then "-" else "") + FixedPoint(Coefficient(d), d.exp)
  }

  // ---- integers ----

  predicate AllZeros(s: string) {
    forall i :: 0 <= i < |s| ==> s[i] == '0'
  }

  function IntegralDigits(d: Decimal): Option<string> {
    var digits := Coefficient(d);
    if d.exp >= 0 then Some(digits + Zeros(d.exp))
    else if -d.exp >= |digits| then (if AllZeros(digits) then Some("0") else None)
    else if AllZeros(digits[|digits| + d.exp..]) then Some(digits[..|digits| + d.exp])
    else None
  }

  function BigInt(d: Decimal): Option<int>
    requires DigitsOnly(d.digits)
  {
    match IntegralDigits(d)
    case None => None
    case Some(digits) => Some(WithSign(d.neg, NatOf(digits)))
  }

  function Int64(d: Decimal): Option<int>
    requires DigitsOnly(d.digits)
  {
    match BigInt(d)
    case None => None
    case Some(v) => if -Limit <= v < Limit then Some(v) else None
  }

  // ---- what a digit string is worth ----

  /** The number a digit string spells; anything else counts as the digit its code gives. */
  function NatOf(s: string): nat {
    if s == "" then 0
    else NatOf(s[..|s| - 1]) * 10 + (if IsDigit(s[|s| - 1]) then (s[|s| - 1] as int) - ('0' as int) else 0)
  }

  function Pow10(n: nat): (p: nat)
    ensures p > 0
  {
    if n == 0 then 1 else 10 * Pow10(n - 1)
  }

  lemma ScaleOnce(x: int, p: int, y: int, z: int)
    ensures (x * p + y) * 10 + z == x * (10 * p) + (y * 10 + z)
  {}

  lemma {:induction false} NatOfJoined(a: string, b: string)
    ensures NatOf(a + b) == NatOf(a) * Pow10(|b|) + NatOf(b)
    decreases |b|
  {
    if b == "" {
      assert a + b == a;
    } else {
      var n := |b| - 1;
      assert (a + b)[..|a + b| - 1] == a + b[..n];
      NatOfJoined(a, b[..n]);
      ScaleOnce(NatOf(a), Pow10(n), NatOf(b[..n]), NatOf(b) - NatOf(b[..n]) * 10);
    }
  }

  lemma {:induction false} NatOfBounded(s: string)
    ensures NatOf(s) < Pow10(|s|)
  {
    if s != "" {
      NatOfBounded(s[..|s| - 1]);
    }
  }

  lemma {:induction false} NatOfZeros(s: string)
    requires DigitsOnly(s)
    ensures NatOf(s) == 0 <==> AllZeros(s)
  {
    if s != "" {
      NatOfZeros(s[..|s| - 1]);
      assert forall i :: 0 <= i < |s| - 1 ==> s[..|s| - 1][i] == s[i];
    }
  }

  lemma {:induction false} TrimKeeps(s: string)
    requires DigitsOnly(s)
    ensures DigitsOnly(TrimZeros(s)) && NatOf(TrimZeros(s)) == NatOf(s)
    ensures TrimZeros(s) == "" || TrimZeros(s)[0] != '0'
    ensures |TrimZeros(s)| <= |s|
  {
    if s != "" && s[0] == '0' {
      TrimKeeps(s[1..]);
      assert s == "0" + s[1..];
      NatOfJoined("0", s[1..]);
      assert NatOf("0") == 0;
    }
  }

  lemma {:induction false} TrimAfterZeros(n: nat, digits: string)
    requires digits == "" || digits[0] != '0'
    ensures TrimZeros(Zeros(n) + digits) == digits
  {
    if n > 0 {
      assert (Zeros(n) + digits)[1..] == Zeros(n - 1) + digits;
      TrimAfterZeros(n - 1, digits);
    } else {
      assert Zeros(n) + digits == digits;
    }
  }

  /** Numerator and denominator of the magnitude. */
  function Num(d: Decimal): nat {
    NatOf(d.digits) * Pow10(if d.exp > 0 then d.exp else 0)
  }

  function Den(d: Decimal): nat {
    Pow10(if d.exp < 0 then -d.exp else 0)
  }

  // ---- what parsing guarantees ----

  predicate Canonical(d: Decimal) {
    DigitsOnly(d.digits) && (d.digits == "" || d.digits[0] != '0')
  }

  /** Within the bound the parser promises. */
  predicate Small(d: Decimal) {
    |d.digits| + (if d.exp < 0 then -d.exp else d.exp) <= MaxText
  }

  /** A literal's parts, as the grammar `[+-] whole [. fraction] [e exp]` reads them. */
  ghost predicate Spells(text: string, neg: bool, whole: string, fraction: string, exp: int) {
    && DecimalSign(text).Some? && DecimalSign(text).value.neg == neg
    && DecimalExponent(DecimalSign(text).value.body).Some?
    && var scaled := DecimalExponent(DecimalSign(text).value.body).value;
    && scaled.exp == exp && Cut(scaled.mantissa, '.').before == whole && Cut(scaled.mantissa, '.').after == fraction
  }

  /** How far the scaled exponent of a literal is from zero. */
  function Distance(fraction: string, exp: int): nat {
    if exp < |fraction| then |fraction| - exp else exp - |fraction|
  }

  /** The length of a literal's expansion, in mathematical arithmetic. */
  function Total(whole: string, fraction: string, exp: int): nat {
    |TrimZeros(whole + fraction)| + Distance(fraction, exp)
  }

  /**
   * An accepted literal is worth its digits scaled by its exponent. It is within the promised bound exactly
   * when its expansion is short of 2 to the power 63, so that the guard's machine arithmetic did not wrap.
   */
  lemma ParsedIs(text: string, neg: bool, whole: string, fraction: string, exp: int)
    requires ParseDecimal(text).Some? && |text| < Limit / 2 && Spells(text, neg, whole, fraction, exp)
    ensures var d := ParseDecimal(text).value;
            && Canonical(d) && d.neg == neg
            && NatOf(d.digits) == NatOf(whole + fraction)
            && (Small(d) <==> Total(whole, fraction, exp) < Limit)
            && (Small(d) ==> d.exp == exp - |fraction|)
  {
    hide NatOf, TrimZeros, DecimalExponent, DecimalSign, Wrap;
    TrimKeeps(whole + fraction);
    Fits(text);
    SizeTells(TrimZeros(whole + fraction), exp, fraction, ParseDecimal(text).value);
  }

  /**
   * A literal of the right form is accepted exactly when its expansion is within the bound, or so long that
   * the guard's machine arithmetic comes out negative.
   */
  lemma ParsesExactly(text: string, neg: bool, whole: string, fraction: string, exp: int)
    requires |text| < Limit / 2 && Spells(text, neg, whole, fraction, exp)
    ensures ParseDecimal(text).Some? <==>
              && DigitsOnly(whole) && DigitsOnly(fraction) && (whole != "" || fraction != "")
              && (|| Total(whole, fraction, exp) <= MaxText
                  || (Limit <= Total(whole, fraction, exp) &&
                      Distance(fraction, exp) <= Limit + |TrimZeros(whole + fraction)|))
  {
    hide NatOf, TrimZeros, DecimalExponent, DecimalSign, Wrap, Size;
    Fits(text);
    if DigitsOnly(whole) && DigitsOnly(fraction) {
      TrimKeeps(whole + fraction);
      var d := Decimal(TrimZeros(whole + fraction), Wrap(exp - |fraction|), neg, false);
      SizeIs(d, exp, fraction);
      SizeIgnoresForm(d, d.(floatForm := true));
    }
  }

  lemma SizeIgnoresForm(a: Decimal, b: Decimal)
    requires b == a.(floatForm := b.floatForm)
    ensures Size(a) == Size(b)
  {}

  /** What the guard's machine arithmetic computes. */
  lemma SizeIs(d: Decimal, exp: int, fraction: string)
    requires -Limit <= exp < Limit && |fraction| < Limit / 2 && |d.digits| < Limit / 2
    requires d.exp == Wrap(exp - |fraction|)
    ensures |d.digits| + Distance(fraction, exp) < Limit ==> Size(d) == |d.digits| + Distance(fraction, exp)
    ensures Limit <= |d.digits| + Distance(fraction, exp) && Distance(fraction, exp) <= Limit + |d.digits| ==>
        Size(d) < 0
    ensures Limit + |d.digits| < Distance(fraction, exp) ==> Size(d) == |d.digits| + 2 * Limit - Distance(fraction, exp)
  {
    hide Wrap;
    WrapsFar(exp - |fraction|);
    WrapsHigh(|d.digits| + Abs(d.exp));
    if d.exp == -Limit {
      WrapsHigh(Limit);
    }
  }

  lemma Fits(text: string)
    requires DecimalSign(text).Some? && DecimalExponent(DecimalSign(text).value.body).Some?
    ensures var scaled := DecimalExponent(DecimalSign(text).value.body).value;
            && -Limit <= scaled.exp < Limit
            && |Cut(scaled.mantissa, '.').before| + |Cut(scaled.mantissa, '.').after| <= |scaled.mantissa| <= |text|
  {
    ExponentFits(DecimalSign(text).value.body);
  }

  lemma SizeTells(digits: string, exp: int, fraction: string, d: Decimal)
    requires -Limit <= exp < Limit && |fraction| < Limit / 2 && |digits| < Limit / 2
    requires d.digits == digits && d.exp == Wrap(exp - |fraction|) && Size(d) <= MaxText
    ensures Small(d) <==> |digits| + Distance(fraction, exp) < Limit
    ensures Small(d) ==> d.exp == exp - |fraction|
  {
    hide Wrap, Size;
    WrapsFar(exp - |fraction|);
    SizeIs(d, exp, fraction);
  }

  lemma WrapsHigh(x: int)
    requires -Limit <= x < 2 * Limit
    ensures Wrap(x) == if x >= Limit then x - 2 * Limit else x
  {
    if x >= Limit {
      assert x + Limit == (x - Limit) + 2 * Limit;
    }
  }

  lemma ExponentFits(body: string)
    requires DecimalExponent(body).Some?
    ensures -Limit <= DecimalExponent(body).value.exp < Limit && |DecimalExponent(body).value.mantissa| <= |body|
  {
    hide NatOf;
  }

  /** A value that wraps comes out far from zero. */
  lemma WrapsFar(x: int)
    requires -2 * Limit + MaxText < x < Limit
    ensures Wrap(x) == if x < -Limit then x + 2 * Limit else x
  {
    if x < -Limit {
      assert x + Limit == (x + 3 * Limit) - 2 * Limit;
    }
  }

  // ---- printing and parsing again ----

  lemma DigitsHaveNo(s: string, c: char)
    requires DigitsOnly(s) && !IsDigit(c)
    ensures c !in s
  {}

  lemma ZerosAreDigits(n: nat)
    ensures DigitsOnly(Zeros(n)) && AllZeros(Zeros(n))
  {}

  /** Parsing a plain fixed-point text. */
  lemma ParsePlain(neg: bool, whole: string, fraction: string, point: bool)
    requires DigitsOnly(whole) && DigitsOnly(fraction) && whole != "" && (point || fraction == "")
    requires |TrimZeros(whole + fraction)| + |fraction| <= MaxText
    ensures ParseDecimal((if neg then "-" else "") + whole + (if point then "." + fraction else ""))
         == Some(Decimal(TrimZeros(whole + fraction), -|fraction|, neg, point))
  {
    hide TrimZeros, NatOf, DecimalSign, DecimalExponent, Cut, Wrap;
    var body := whole + (if point then "." + fraction else "");
    var text := (if neg then "-" else "") + body;
    assert text == (if neg then "-" else "") + whole + (if point then "." + fraction else "");
    PlainSign(neg, whole[0], body);
    PlainBody(whole, fraction, point);
  }

  lemma PlainSign(neg: bool, first: char, body: string)
    requires body != "" && body[0] == first && IsDigit(first)
    ensures DecimalSign((if neg then "-" else "") + body) == Some(Signed(body, neg))
  {
    assert ("-" + body)[1..] == body && "" + body == body;
  }

  lemma PlainBody(whole: string, fraction: string, point: bool)
    requires DigitsOnly(whole) && DigitsOnly(fraction) && (point || fraction == "")
    ensures var body := whole + (if point then "." + fraction else "");
            && 'e' !in body && 'E' !in body
            && DecimalExponent(body) == Some(Scaled(body, 0)) && Cut(body, '.') == Halves(whole, fraction, point)
  {
    hide Cut, Atoi;
    var body := whole + (if point then "." + fraction else "");
    DigitsHaveNo(whole, 'e');
    DigitsHaveNo(fraction, 'e');
    DigitsHaveNo(whole, 'E');
    DigitsHaveNo(fraction, 'E');
    DigitsHaveNo(whole, '.');
    if point {
      assert body == whole + ['.'] + fraction;
      CutAt(whole, '.', fraction);
    } else {
      assert body == whole;
    }
  }

  /** What reparsing a printed number gives. */
  function Reparsed(d: Decimal): Decimal {
    if d.exp < 0 then d.(floatForm := true)
    else Decimal(if d.digits == "" then "" else d.digits + Zeros(d.exp), 0, d.neg, false)
  }

  lemma ReparseWhole(d: Decimal)
    requires Canonical(d) && Small(d) && d.exp >= 0
    ensures ParseDecimal(ToString(d)) == Some(Reparsed(d))
  {
    hide TrimZeros, ParseDecimal;
    var whole := Coefficient(d) + Zeros(d.exp);
    ZerosAreDigits(d.exp);
    assert IsDigit('0');
    if d.digits == "" {
      assert whole == Zeros(d.exp + 1) + "";
      TrimAfterZeros(d.exp + 1, "");
    } else {
      assert whole == Zeros(0) + whole;
      TrimAfterZeros(0, whole);
    }
    assert whole + "" == whole;
    ParsePlain(d.neg, whole, "", false);
    assert ToString(d) == (if d.neg then "-" else "") + whole + "";
  }

  lemma ReparseFraction(d: Decimal)
    requires Canonical(d) && Small(d) && d.exp < 0
    ensures ParseDecimal(ToString(d)) == Some(Reparsed(d))
  {
    if -d.exp < |Coefficient(d)| {
      ReparseSplit(d);
    } else {
      ReparsePadded(d);
    }
  }

  lemma ReparseSplit(d: Decimal)
    requires Canonical(d) && Small(d) && d.exp < 0 && -d.exp < |Coefficient(d)|
    ensures ParseDecimal(ToString(d)) == Some(Reparsed(d))
  {
    hide TrimZeros, ParseDecimal, Zeros, FixedPoint;
    var c := d.digits;
    var whole, fraction := c[..|c| + d.exp], c[|c| + d.exp..];
    assert whole + fraction == c;
    Untrimmed(c);
    ParsePlain(d.neg, whole, fraction, true);
    SplitText(c, d.exp);
    assert ToString(d) == (if d.neg then "-" else "") + whole + ("." + fraction);
  }

  lemma Untrimmed(digits: string)
    requires digits == "" || digits[0] != '0'
    ensures TrimZeros(digits) == digits
  {}

  lemma SplitText(c: string, exp: int)
    requires exp < 0 && -exp < |c|
    ensures FixedPoint(c, exp) == c[..|c| + exp] + ("." + c[|c| + exp..])
  {}

  lemma ReparsePadded(d: Decimal)
    requires Canonical(d) && Small(d) && d.exp < 0 && -d.exp >= |Coefficient(d)|
    ensures ParseDecimal(ToString(d)) == Some(Reparsed(d))
  {
    hide TrimZeros, ParseDecimal, Zeros;
    var c := Coefficient(d);
    var k := -d.exp - |c|;
    var fraction := Zeros(k) + c;
    ZerosAreDigits(k);
    assert IsDigit('0');
    TrimmedFraction(d, k);
    ParsePlain(d.neg, "0", fraction, true);
    assert ToString(d) == (if d.neg then "-" else "") + "0" + ("." + fraction);
  }

  lemma TrimmedFraction(d: Decimal, k: nat)
    requires Canonical(d)
    ensures TrimZeros("0" + (Zeros(k) + Coefficient(d))) == d.digits
  {
    hide TrimZeros;
    if d.digits == "" {
      assert "0" + (Zeros(k) + "0") == Zeros(k + 2) + "";
      TrimAfterZeros(k + 2, "");
    } else {
      assert "0" + (Zeros(k) + d.digits) == Zeros(k + 1) + d.digits;
      TrimAfterZeros(k + 1, d.digits);
    }
  }

  /** Reparsing a printed number gives the same signed value. */
  lemma ReparseKeepsValue(d: Decimal)
    requires Canonical(d) && Small(d)
    ensures ParseDecimal(ToString(d)) == Some(Reparsed(d))
    ensures Reparsed(d).neg == d.neg && Num(Reparsed(d)) == Num(d) && Den(Reparsed(d)) == Den(d)
  {
    hide ParseDecimal, ToString;
    if d.exp < 0 {
      ReparseFraction(d);
    } else {
      ReparseWhole(d);
      NatOfJoined(d.digits, Zeros(d.exp));
      ZerosAreDigits(d.exp);
      NatOfZeros(Zeros(d.exp));
    }
  }

  /** It prints identically, except that a zero with a positive exponent loses its padding. */
  lemma ReparsePrints(d: Decimal)
    requires Canonical(d) && Small(d)
    ensures ToString(Reparsed(d)) == ToString(d) <==> !(d.digits == "" && d.exp > 0)
  {
    if d.exp >= 0 {
      var r := Reparsed(d);
      var sign := if d.neg then "-" else "";
      assert Zeros(0) == "";
      assert ToString(r) == sign + Coefficient(r);
      assert ToString(d) == sign + (Coefficient(d) + Zeros(d.exp));
      assert d.digits == "" && d.exp > 0 ==> |ToString(d)| > |ToString(r)|;
    }
  }

  /** A printed number is never longer than the bound and its padding. */
  lemma PrintedIsShort(d: Decimal)
    requires Small(d)
    ensures |ToString(d)| <= MaxText + TextPadding
  {}

  /** What a number prints: digits, a point exactly if there is a fraction, and as many places as the exponent says. */
  ghost predicate Prints(d: Decimal, whole: string, fraction: string) {
    && ToString(d) == (if d.neg then "-" else "") + whole + (if d.exp < 0 then "." + fraction else "")
    && DigitsOnly(whole) && DigitsOnly(fraction) && whole != ""
    && |fraction| == (if d.exp < 0 then -d.exp else 0)
    && NatOf(whole + fraction) == Num(d)
    && (d.digits != "" || d.exp <= 0 ==> whole == "0" || whole[0] != '0')
  }

  /** A printed number spells its value digit by digit, without a leading zero unless it is a padded zero. */
  lemma PrintedIs(d: Decimal) returns (whole: string, fraction: string)
    requires Canonical(d)
    ensures Prints(d, whole, fraction)
  {
    hide NatOf, Pow10, Prints;
    if d.exp >= 0 {
      whole, fraction := Coefficient(d) + Zeros(d.exp), "";
      PrintsWhole(d);
    } else if -d.exp < |Coefficient(d)| {
      var c := Coefficient(d);
      whole, fraction := c[..|c| + d.exp], c[|c| + d.exp..];
      PrintsSplit(d);
    } else {
      whole, fraction := "0", Zeros(-d.exp - |Coefficient(d)|) + Coefficient(d);
      PrintsPadded(d);
    }
  }

  lemma PrintsWhole(d: Decimal)
    requires Canonical(d) && d.exp >= 0
    ensures Prints(d, Coefficient(d) + Zeros(d.exp), "")
  {
    hide NatOf, Pow10;
    var c := Coefficient(d);
    assert IsDigit('0');
    CoefficientWorth(d);
    NatOfJoined(c, Zeros(d.exp));
    ZerosAreDigits(d.exp);
    NatOfZeros(Zeros(d.exp));
    PowZero();
    assert c + Zeros(d.exp) + "" == c + Zeros(d.exp);
    assert d.exp == 0 ==> c + Zeros(d.exp) == c;
  }

  lemma PrintsSplit(d: Decimal)
    requires Canonical(d) && d.exp < 0 && -d.exp < |Coefficient(d)|
    ensures var c := Coefficient(d); Prints(d, c[..|c| + d.exp], c[|c| + d.exp..])
  {
    hide NatOf, Pow10, FixedPoint;
    var c := Coefficient(d);
    assert IsDigit('0');
    CoefficientWorth(d);
    PowZero();
    SplitText(c, d.exp);
    assert c[..|c| + d.exp] + c[|c| + d.exp..] == c;
  }

  lemma PrintsPadded(d: Decimal)
    requires Canonical(d) && d.exp < 0 && -d.exp >= |Coefficient(d)|
    ensures Prints(d, "0", Zeros(-d.exp - |Coefficient(d)|) + Coefficient(d))
  {
    hide NatOf, Pow10;
    var c, k := Coefficient(d), -d.exp - |Coefficient(d)|;
    assert IsDigit('0');
    CoefficientWorth(d);
    PowZero();
    ZerosAreDigits(k);
    NatOfJoined("0" + Zeros(k), c);
    NatOfZeros("0" + Zeros(k));
    assert "0" + (Zeros(k) + c) == "0" + Zeros(k) + c;
  }

  // ---- the grammar of a literal ----

  datatype Exponent = NoExponent | Exponent(mark: char, sign: string, digits: string)

  predicate IsSign(sign: string) {
    sign in {"", "+", "-"}
  }

  function ExponentText(e: Exponent): string {
    match e case NoExponent => "" case Exponent(mark, sign, digits) => [mark] + (sign + digits)
  }

  function MantissaText(whole: string, point: bool, fraction: string): string {
    whole + (if point then "." + fraction else "")
  }

  predicate MantissaOk(whole: string, point: bool, fraction: string) {
    DigitsOnly(whole) && DigitsOnly(fraction) && (whole != "" || fraction != "") && (point || fraction == "")
  }

  predicate ExponentOk(e: Exponent) {
    e.NoExponent? || (e.mark in {'e', 'E'} && IsSign(e.sign) && e.digits != "" && DigitsOnly(e.digits))
  }

  function ScaleOf(e: Exponent): int {
    match e
    case NoExponent => 0
    case Exponent(_, sign, digits) =>
      var n: int := NatOf(digits);
      if sign == "-" then -n else n
  }

  /** A literal written by the grammar is read as its parts, and is of float form if it has a point or an exponent. */
  lemma LiteralSpells(sign: string, whole: string, point: bool, fraction: string, e: Exponent)
    requires IsSign(sign) && MantissaOk(whole, point, fraction) && ExponentOk(e) && -Limit <= ScaleOf(e) < Limit
    ensures var text := sign + (MantissaText(whole, point, fraction) + ExponentText(e));
            && Spells(text, sign == "-", whole, fraction, ScaleOf(e))
            && (ParseDecimal(text).Some? ==> ParseDecimal(text).value.floatForm == (point || e.Exponent?))
  {
    hide NatOf, TrimZeros, Atoi, Cut, Wrap, DecimalSign, DecimalExponent;
    var mantissa := MantissaText(whole, point, fraction);
    var body := mantissa + ExponentText(e);
    MantissaHasNo(whole, point, fraction);
    SignTaken(sign, body);
    PlainBody(whole, fraction, point);
    if e.Exponent? {
      ExponentTaken(mantissa, e);
      assert e.mark in body;
    } else {
      assert body == mantissa;
    }
    assert ('e' in body || 'E' in body) <==> e.Exponent?;
  }

  lemma MantissaHasNo(whole: string, point: bool, fraction: string)
    requires MantissaOk(whole, point, fraction)
    ensures var mantissa := MantissaText(whole, point, fraction);
            && 'e' !in mantissa && 'E' !in mantissa && mantissa != "" && mantissa[0] != '-' && mantissa[0] != '+'
  {
    DigitsHaveNo(whole, 'e');
    DigitsHaveNo(fraction, 'e');
    DigitsHaveNo(whole, 'E');
    DigitsHaveNo(fraction, 'E');
  }

  lemma SignTaken(sign: string, body: string)
    requires IsSign(sign) && body != "" && body[0] != '-' && body[0] != '+'
    ensures DecimalSign(sign + body) == Some(Signed(body, sign == "-"))
  {
    if sign == "" {
      assert sign + body == body;
    } else {
      assert (sign + body)[0] == sign[0] && (sign + body)[1..] == body;
    }
  }

  lemma ExponentTaken(mantissa: string, e: Exponent)
    requires e.Exponent? && ExponentOk(e) && -Limit <= ScaleOf(e) < Limit
    requires 'e' !in mantissa && 'E' !in mantissa
    ensures DecimalExponent(mantissa + ExponentText(e)) == Some(Scaled(mantissa, ScaleOf(e)))
  {
    hide NatOf, Cut, DecimalSign;
    var body, after := mantissa + ExponentText(e), e.sign + e.digits;
    assert body == mantissa + [e.mark] + after;
    CutAt(mantissa, e.mark, after);
    DigitsHaveNo(e.digits, 'e');
    if e.mark == 'E' {
      assert 'e' !in body;
      NotCut(body, 'e');
    }
    SignTaken(e.sign, e.digits);
  }

  lemma NotCut(s: string, c: char)
    requires c !in s
    ensures !Cut(s, c).found
  {}

  // ---- integers are exact ----

  /** `v` times the denominator is the signed numerator. */
  predicate Equals(d: Decimal, v: int) {
    v * Den(d) == WithSign(d.neg, Num(d))
  }

  lemma CoefficientWorth(d: Decimal)
    ensures NatOf(Coefficient(d)) == NatOf(d.digits)
  {
    assert NatOf("0") == 0;
  }

  /** The integral digits spell the magnitude exactly when the denominator divides it. */
  lemma IntegralDigitsExact(d: Decimal, m: nat)
    requires DigitsOnly(d.digits)
    ensures (IntegralDigits(d).Some? && NatOf(IntegralDigits(d).value) == m) <==> m * Den(d) == Num(d)
  {
    hide NatOf, Pow10;
    var c := Coefficient(d);
    assert IsDigit('0');
    CoefficientWorth(d);
    if d.exp >= 0 {
      NatOfJoined(c, Zeros(d.exp));
      ZerosAreDigits(d.exp);
      NatOfZeros(Zeros(d.exp));
      PowZero();
    } else if -d.exp < |c| {
      var a, b := c[..|c| + d.exp], c[|c| + d.exp..];
      assert c == a + b;
      NatOfJoined(a, b);
      NatOfBounded(b);
      NatOfZeros(b);
      PowZero();
      Divides(m, NatOf(a), NatOf(b), Pow10(-d.exp));
    } else {
      NatOfBounded(c);
      NatOfZeros(c);
      PowGrows(|c|, -d.exp);
      PowZero();
      assert NatOf("0") == 0 by { NatOfZeros("0"); }
      Divides(m, 0, NatOf(c), Pow10(-d.exp));
    }
  }

  lemma PowZero()
    ensures Pow10(0) == 1
  {}

  lemma {:induction false} PowGrows(a: nat, b: nat)
    requires a <= b
    ensures Pow10(a) <= Pow10(b)
  {
    if a < b {
      PowGrows(a, b - 1);
    }
  }

  lemma OneMore(k: nat, q: nat, p: nat)
    ensures (q + k + 1) * p >= q * p + p
  {
    assert (q + k + 1) * p == q * p + k * p + p;
  }

  lemma Divides(m: nat, q: nat, r: nat, p: nat)
    requires r < p
    ensures m * p == q * p + r <==> m == q && r == 0
  {
    if m > q {
      OneMore(m - q - 1, q, p);
    } else if m < q {
      OneMore(q - m - 1, m, p);
    }
  }

  /** BigInt returns v exactly when the number is the integer v; nothing else is returned, and no integer is missed. */
  lemma BigIntExact(d: Decimal, v: int)
    requires DigitsOnly(d.digits)
    ensures BigInt(d) == Some(v) <==> Equals(d, v)
  {
    hide IntegralDigits, NatOf, Pow10;
    if d.neg {
      if v <= 0 {
        IntegralDigitsExact(d, -v);
        Negated(v, Den(d), Num(d));
      } else {
        Positive(v, Den(d));
      }
    } else {
      if v >= 0 {
        IntegralDigitsExact(d, v);
      } else {
        Positive(-v, Den(d));
        Negated(v, Den(d), 0);
      }
    }
  }

  lemma Negated(v: int, p: int, n: int)
    ensures v * p == -n <==> -v * p == n
    ensures v * p == -(-v * p)
  {}

  lemma Positive(v: int, p: nat)
    requires v > 0 && p > 0
    ensures v * p > 0
  {}

  lemma Int64Exact(d: Decimal, v: int)
    requires DigitsOnly(d.digits)
    ensures Int64(d) == Some(v) <==> Equals(d, v) && -Limit <= v < Limit
  {
    hide BigInt, Equals;
    BigIntExact(d, v);
    if BigInt(d).Some? {
      BigIntExact(d, BigInt(d).value);
    }
  }

  // ---- the guard's sum can wrap ----

  function DigitsOf(n: nat): string {
    if n == 0 then "" else DigitsOf(n / 10) + [('0' as int + n % 10) as char]
  }

  lemma {:induction false} DigitsOfIs(n: nat)
    ensures DigitsOnly(DigitsOf(n)) && NatOf(DigitsOf(n)) == n && (n > 0 ==> DigitsOf(n) != "")
  {
    if n > 0 {
      DigitsOfIs(n / 10);
      var s := DigitsOf(n);
      assert s[..|s| - 1] == DigitsOf(n / 10);
    }
  }

  /**
   * Three literals whose expansions are far beyond the bound, all accepted: one with the least exponent, one
   * with the greatest, and one whose scaled exponent itself falls below the least and comes out huge.
   */
  lemma GuardWraps()
    ensures ParseDecimal("1e-" + DigitsOf(Limit)) == Some(Decimal("1", -Limit, false, true))
    ensures ParseDecimal("1e" + DigitsOf(Limit - 1)) == Some(Decimal("1", Limit - 1, false, true))
    ensures ParseDecimal("0.1e-" + DigitsOf(Limit)) == Some(Decimal("1", Limit - 1, false, true))
    ensures !Small(Decimal("1", -Limit, false, true)) && !Small(Decimal("1", Limit - 1, false, true))
  {
    hide DigitsOf, ParseDecimal, Wrap;
    WholeOne();
    OnePoint();
    ScientificParses("1", "1", "", true, Limit);
    ScientificParses("1", "1", "", false, Limit - 1);
    ScientificParses("0.1", "0", "1", true, Limit);
    WrapsHigh(Limit);
    WrapsFar(-Limit - 1);
    assert "1" + "e-" == "1e-" && "1" + "e" == "1e" && "0.1" + "e-" == "0.1e-";
  }

  lemma WholeOne()
    ensures Cut("1", '.') == Halves("1", "", false) && 'e' !in "1" && DigitsOnly("1") && TrimZeros("1" + "") == "1"
  {
    assert '.' !in "1" && "1" + "" == "1";
  }

  lemma OnePoint()
    ensures Cut("0.1", '.') == Halves("0", "1", true) && 'e' !in "0.1" && DigitsOnly("0") && TrimZeros("0" + "1") == "1"
  {
    hide Cut;
    CutAt("0", '.', "1");
    assert "0" + ['.'] + "1" == "0.1";
    TrimAfterZeros(1, "1");
    assert Zeros(1) + "1" == "0" + "1";
  }

  /** A literal in scientific form is read as its parts. */
  lemma ScientificParses(mantissa: string, whole: string, fraction: string, neg: bool, n: nat)
    requires mantissa != "" && mantissa[0] != '-' && mantissa[0] != '+' && 'e' !in mantissa
    requires Cut(mantissa, '.').before == whole && Cut(mantissa, '.').after == fraction && whole != ""
    requires DigitsOnly(whole) && DigitsOnly(fraction) && 0 < n && -Limit <= WithSign(neg, n) < Limit
    ensures var text := mantissa + (if neg then "e-" else "e") + DigitsOf(n);
            var d := Decimal(TrimZeros(whole + fraction), Wrap(WithSign(neg, n) - |fraction|), false, true);
            ParseDecimal(text) == if Size(d) > MaxText then None else Some(d)
  {
    hide DigitsOf, NatOf, Wrap, Cut, TrimZeros, DecimalSign, DecimalExponent, Size;
    var text := mantissa + (if neg then "e-" else "e") + DigitsOf(n);
    assert text[0] == mantissa[0] && text[|mantissa|] == 'e';
    assert DecimalSign(text) == Some(Signed(text, false)) by { Unsigned(text); }
    SignedExponent(mantissa, neg, n);
  }

  lemma Unsigned(text: string)
    requires text != "" && text[0] != '-' && text[0] != '+'
    ensures DecimalSign(text) == Some(Signed(text, false))
  {}

  lemma SignedExponent(mantissa: string, neg: bool, n: nat)
    requires 'e' !in mantissa && 0 < n && -Limit <= WithSign(neg, n) < Limit
    ensures DecimalExponent(mantissa + (if neg then "e-" else "e") + DigitsOf(n)) ==
        Some(Scaled(mantissa, WithSign(neg, n)))
  {
    hide DigitsOf, NatOf, Cut;
    var digits := DigitsOf(n);
    DigitsOfIs(n);
    var exponent := if neg then "-" + digits else digits;
    assert mantissa + (if neg then "e-" else "e") + digits == mantissa + ['e'] + exponent;
    CutAt(mantissa, 'e', exponent);
    assert neg ==> exponent[1..] == digits;
    assert !neg ==> IsDigit(exponent[0]);
    assert DecimalSign(exponent) == Some(Signed(digits, neg));
    assert Atoi(exponent) == Some(WithSign(neg, n));
  }

  /** The literal 0e5 prints as six zeros, and that text parsed again prints as one. */
  lemma PaddedZero()
    ensures ParseDecimal("0e5") == Some(Decimal("", 5, false, true))
    ensures ToString(Decimal("", 5, false, true)) == "000000" && ToString(Reparsed(Decimal("", 5, false, true))) == "0"
  {
    hide ParseDecimal, Wrap;
    assert Cut("0", '.') == Halves("0", "", false) by { assert '.' !in "0"; }
    assert DigitsOf(5) == "5";
    assert "0" + "e" + "5" == "0e5";
    assert TrimZeros("0" + "") == "" by { TrimAfterZeros(1, ""); assert Zeros(1) + "" == "0" + ""; }
    ScientificParses("0", "0", "", false, 5);
    assert Wrap(5) == 5;
  }
}
