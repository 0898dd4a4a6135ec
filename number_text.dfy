/** How the calculator writes a result back to its display: the number is
    rounded to seven decimals (`toFixed(7)`), read back (`parseFloat`) and
    printed (`String`), which drops the trailing zeros. */
module NumberText {
  import opened JsString
  import opened JsNumber

  /** Ten-millionths: the unit `toFixed(7)` rounds to. */
  const Scale: nat := 10_000_000

  /** The number of ten-millionths nearest to `x`; halves round away from
      zero, as `toFixed` rounds the magnitude and then restores the sign. */
  function ScaledRound(x: real): int {
    if x >= 0.0 then (x * 10_000_000.0 + 0.5).Floor
    else -((-x) * 10_000_000.0 + 0.5).Floor
  }

  /** `x` rounded to seven decimals. */
  function Round7(x: real): real {
    ScaledRound(x) as real / 10_000_000.0
  }

  /** Rounding to seven decimals moves a number by at most half a
      ten-millionth and never across zero. */
  lemma Round7IsNearest(x: real)
    ensures x - 0.00000005 <= Round7(x) <= x + 0.00000005
    ensures (x >= 0.0 ==> Round7(x) >= 0.0) && (x <= 0.0 ==> Round7(x) <= 0.0)
  {
    var n := ScaledRound(x);
    var y := x * 10_000_000.0;
    if x >= 0.0 {
      assert y >= 0.0;
      assert y - 0.5 <= n as real <= y + 0.5;
    } else {
      assert (-x) * 10_000_000.0 == -y;
      assert -y - 0.5 <= (-n) as real <= -y + 0.5;
    }
    assert y / 10_000_000.0 == x;
  }

  function DigitChar(d: nat): (c: char)
    requires d <= 9
    ensures IsDigit(c) && DigitOf(c) == d
  {
    ('0' as int + d) as char
  }

  /** Appending a digit multiplies the value by ten and adds the digit. */
  lemma DigitsValueSnoc(s: string, c: char)
    requires AllDigits(s) && IsDigit(c)
    ensures AllDigits(s + [c])
    ensures DigitsValue(s + [c]) == DigitsValue(s) * 10 + DigitOf(c)
  {
    assert (s + [c])[..|s|] == s;
  }

  /** The decimal digits of `k`, without leading zeros. */
  function IntText(k: nat): (s: string)
    ensures s != [] && AllDigits(s)
    ensures DigitsValue(s) == k
    decreases k
  {
    if k < 10 then
      assert [DigitChar(k)][..0] == [];
      [DigitChar(k)]
    else
      var c := DigitChar(k % 10);
      DigitsValueSnoc(IntText(k / 10), c);
      IntText(k / 10) + [c]
  }

  /** `f` modulo 10^w, written with exactly `w` digits. */
  function FixedText(f: nat, w: nat): (s: string)
    ensures |s| == w && AllDigits(s)
    ensures DigitsValue(s) == f % Pow10(w)
  {
    if w == 0 then []
    else
      var c := DigitChar(f % 10);
      DigitsValueSnoc(FixedText(f / 10, w - 1), c);
      ModTen(f, Pow10(w - 1));
      FixedText(f / 10, w - 1) + [c]
  }

  lemma ModTen(f: nat, p: nat)
    requires p >= 1
    ensures (f / 10) % p * 10 + f % 10 == f % (10 * p)
  {
    var q, r := f / 10, f % 10;
    var a, b := q / p, q % p;
    assert f == 10 * p * a + (10 * b + r);
    assert 0 <= 10 * b + r < 10 * p;
    DivModUnique(f, 10 * p, a, 10 * b + r);
  }

  lemma DivModUnique(f: int, d: int, a: int, b: int)
    requires d > 0 && f == d * a + b && 0 <= b < d
    ensures f % d == b
  {
    var q, r := f / d, f % d;
    assert f == d * q + r && 0 <= r < d;
    var k := a - q;
    assert d * k == r - b;
    if k >= 1 {
      MulAtLeast(d, k);
    } else if k <= -1 {
      MulAtLeast(d, -k);
    }
  }

  lemma MulAtLeast(d: int, k: int)
    requires d > 0 && k >= 1
    ensures d * k >= d
  {
  }

  /** `s` without its trailing zeros. */
  function DropTrailingZeros(s: string): (r: string)
    ensures |r| <= |s| && r == s[..|r|]
    ensures r == [] || r[|r| - 1] != '0'
    ensures forall i :: |r| <= i < |s| ==> s[i] == '0'
  {
    if s != [] && s[|s| - 1] == '0' then DropTrailingZeros(s[..|s| - 1]) else s
  }

  /** Dropping trailing zeros of a fraction keeps its value. */
  lemma {:induction false} DropTrailingZerosValue(s: string)
    requires AllDigits(s)
    ensures AllDigits(DropTrailingZeros(s))
    ensures DigitsValue(DropTrailingZeros(s)) as real / Pow10(|DropTrailingZeros(s)|) as real
         == DigitsValue(s) as real / Pow10(|s|) as real
    decreases |s|
  {
    if s != [] && s[|s| - 1] == '0' {
      var t := s[..|s| - 1];
      assert AllDigits(t);
      assert DropTrailingZeros(s) == DropTrailingZeros(t);
      DropTrailingZerosValue(t);
      var v, p := DigitsValue(t) as real, Pow10(|t|) as real;
      assert DigitsValue(s) as real == v * 10.0;
      assert Pow10(|s|) as real == p * 10.0;
      ScaleFraction(v, p);
    }
  }

  lemma ScaleFraction(v: real, p: real)
    requires p > 0.0
    ensures (v * 10.0) / (p * 10.0) == v / p
  {
  }

  /** A fraction drops to nothing exactly when all its digits are zero. */
  lemma DropTrailingZerosEmpty(s: string)
    requires AllDigits(s)
    ensures DropTrailingZeros(s) == [] <==> DigitsValue(s) == 0
    decreases |s|
  {
    if s != [] {
      DropTrailingZerosEmpty(s[..|s| - 1]);
    }
  }

  /** `String(parseFloat(x.toFixed(7)))` for a finite `x`: an optional minus
      sign, then the magnitude, in exponent form below one millionth and in
      decimal notation otherwise. */
  function FixedText7(x: real): string {
    SignedText(ScaledRound(x))
  }

  /** n ten-millionths written out, with a minus sign when n is negative. */
  function SignedText(n: int): string {
    (if n < 0 then "-" else "") + UnsignedText(if n < 0 then -n else n)
  }

  /** m ten-millionths as `String` prints them: one to nine of them, which
      are below one millionth, as the digit followed by "e-7"; otherwise in
      decimal notation. */
  function UnsignedText(m: nat): (s: string)
    ensures s != [] && IsDigit(s[0])
  {
    if 0 < m < 10 then [DigitChar(m)] + "e-7" else MagnitudeText(m)
  }

  /** The text holds an "e" exactly for one to nine ten-millionths. */
  lemma UnsignedExponent(m: nat)
    ensures 0 < m < 10 <==> (exists i :: 0 <= i < |UnsignedText(m)| && UnsignedText(m)[i] == 'e')
  {
    if 0 < m < 10 {
      assert UnsignedText(m)[1] == 'e';
    } else {
      MagnitudeHasNoExponent(m);
    }
  }

  lemma MagnitudeHasNoExponent(m: nat)
    ensures forall i :: 0 <= i < |MagnitudeText(m)| ==> MagnitudeText(m)[i] == '.' || IsDigit(MagnitudeText(m)[i])
  {
    var frac := DropTrailingZeros(FixedText(m % Scale, 7));
    var whole := IntText(m / Scale);
    if frac == [] {
      assert MagnitudeText(m) == whole + "";
    } else {
      assert MagnitudeText(m) == whole + ("." + frac);
    }
  }

  /** m ten-millionths written out: the whole part, then a point and the
      fraction without its trailing zeros when the fraction is not zero. */
  function MagnitudeText(m: nat): (s: string)
    ensures s != [] && IsDigit(s[0])
  {
    var frac := DropTrailingZeros(FixedText(m % Scale, 7));
    var whole := IntText(m / Scale);
    assert (whole + (if frac == [] then "" else "." + frac))[0] == whole[0];
    whole + (if frac == [] then "" else "." + frac)
  }

  /** The display text of a calculation result. */
  function ResultText(n: Num): string {
    match n
    case NaN => "NaN"
    case Infinite(p) => if p then "Infinity" else "-Infinity"
    case Finite(x) => FixedText7(x)
  }

  /** The text has at most one decimal point. */
  predicate AtMostOnePoint(s: string) {
    forall i, j :: 0 <= i < j < |s| && s[i] == '.' ==> s[j] != '.'
  }

  // ---------------------------------------------------------------------
  // Properties

  /** A result's text never holds a second decimal point and is never empty. */
  lemma ResultTextShape(n: Num)
    ensures ResultText(n) != [] && AtMostOnePoint(ResultText(n))
  {
    if n.Finite? {
      var r := ScaledRound(n.v);
      var m: nat := if r < 0 then -r else r;
      UnsignedShape(m);
      if r < 0 {
        assert ResultText(n) == "-" + UnsignedText(m);
        OnePointAfterSign(UnsignedText(m));
      } else {
        assert ResultText(n) == "" + UnsignedText(m) == UnsignedText(m);
      }
    }
  }

  lemma OnePointAfterSign(s: string)
    requires AtMostOnePoint(s)
    ensures AtMostOnePoint("-" + s)
  {
    var t := "-" + s;
    forall i, j | 0 <= i < j < |t| && t[i] == '.' ensures t[j] != '.' {
      assert t[i] == s[i - 1] && t[j] == s[j - 1];
    }
  }

  lemma UnsignedShape(m: nat)
    ensures AtMostOnePoint(UnsignedText(m))
  {
    if 0 < m < 10 {
      var s := UnsignedText(m);
      assert s == [DigitChar(m)] + "e-7";
      OnePointAt(s, 0);
    } else {
      MagnitudeShape(m);
    }
  }

  lemma MagnitudeShape(m: nat)
    ensures AtMostOnePoint(MagnitudeText(m))
  {
    var frac := DropTrailingZeros(FixedText(m % Scale, 7));
    var whole := IntText(m / Scale);
    if frac == [] {
      assert MagnitudeText(m) == whole + "";
      OnePointAt(whole + "", |whole|);
    } else {
      var tail := "." + frac;
      assert forall i :: 0 < i < |tail| ==> tail[i] != '.';
      assert MagnitudeText(m) == whole + tail;
      OnePointAt(whole + tail, |whole|);
    }
  }

  /** A text with no point except perhaps at index k has at most one. */
  lemma OnePointAt(s: string, k: nat)
    requires forall i :: 0 <= i < |s| && i != k ==> s[i] != '.'
    ensures AtMostOnePoint(s)
  {
  }

  /** A finite result is printed in exponent form exactly when it rounds to
      a non-zero number of ten-millionths below ten, that is when its
      rounding is non-zero and below one millionth in magnitude. */
  lemma ExponentFormBelowMillionth(x: real)
    ensures (exists i :: 0 <= i < |FixedText7(x)| && FixedText7(x)[i] == 'e') <==>
      (Round7(x) != 0.0 && -0.000001 < Round7(x) < 0.000001)
  {
    var n := ScaledRound(x);
    var m: nat := if n < 0 then -n else n;
    var body := UnsignedText(m);
    UnsignedExponent(m);
    if n < 0 {
      assert FixedText7(x) == "-" + body;
      forall i | 0 <= i < |body| ensures ("-" + body)[i + 1] == body[i] {}
    } else {
      assert FixedText7(x) == "" + body == body;
    }
  }

  /** A third of a millionth is printed as "3e-7". */
  lemma ThirdOfMillionthText()
    ensures ResultText(Finite(1.0 / 3000000.0)) == "3e-7"
  {
    var x := 1.0 / 3000000.0;
    assert x * Scale as real + 0.5 == 10.0 / 3.0 + 0.5;
    assert ScaledRound(x) == 3;
    assert SignedText(3) == "" + UnsignedText(3);
    assert DigitChar(3) == '3';
  }

  /** What a result's text stands for: the result rounded to seven decimals;
      NaN and the infinities stand for themselves. */
  function Shown(n: Num): Num {
    if n.Finite? then Finite(Round7(n.v)) else n
  }

  /** Reading a result's text back gives the number it stands for. */
  lemma ResultTextReadsBack(n: Num)
    ensures ParseFloat(ResultText(n)) == Shown(n)
  {
    match n
    case NaN =>
      ReadsNaN();
    case Infinite(p) =>
      ReadsInfinity(p);
    case Finite(x) =>
      FixedTextReadsBack(x);
  }

  lemma ReadsNaN()
    ensures ParseFloat("NaN") == NaN
  {
    var s := "NaN";
    assert !IsSpace(s[0]) && TrimStart(s) == s;
    assert Unsigned(s) == s && !Negative(s);
    assert !IsPrefix("Infinity", s) by { assert s[..|s|][1] != "Infinity"[1]; }
    assert LeadingDigits(s) == 0;
  }

  lemma ReadsInfinity(p: bool)
    ensures ParseFloat(if p then "Infinity" else "-Infinity") == Infinite(p)
  {
    var inf := "Infinity";
    assert !IsSpace(inf[0]) && TrimStart(inf) == inf;
    assert IsPrefix(inf, inf);
    var neg := "-Infinity";
    assert !IsSpace(neg[0]) && TrimStart(neg) == neg;
    assert neg[1..] == inf;
    assert Unsigned(neg) == inf;
  }

  lemma FixedTextReadsBack(x: real)
    ensures ParseFloat(FixedText7(x)) == Finite(Round7(x))
  {
    SignedTextReadsBack(ScaledRound(x));
  }

  lemma SignedTextReadsBack(n: int)
    ensures ParseFloat(SignedText(n)) == Finite(n as real / Scale as real)
  {
    if n < 0 {
      NegativeTextReadsBack(n);
    } else {
      var body := UnsignedText(n);
      assert SignedText(n) == "" + body == body;
      UnsignedReadsBack(n);
      ReadsSigned(body);
    }
  }

  lemma NegativeTextReadsBack(n: int)
    requires n < 0
    ensures ParseFloat(SignedText(n)) == Finite(n as real / Scale as real)
  {
    var m: nat := -n;
    var body := UnsignedText(m);
    assert SignedText(n) == "-" + body;
    UnsignedReadsBack(m);
    ReadsSigned(body);
    NegatedScale(n, m);
  }

  lemma NegatedScale(n: int, m: nat)
    requires m == -n
    ensures -(m as real / Scale as real) == n as real / Scale as real
  {
  }

  /** A literal that starts with a digit reads the same with or without
      parseFloat's sign handling, and a minus sign in front negates it. */
  lemma ReadsSigned(body: string)
    requires body != [] && IsDigit(body[0])
    ensures ParseFloat(body) == ParseUnsigned(body)
    ensures ParseFloat("-" + body) == Neg(ParseUnsigned(body))
  {
    assert !IsSpace(body[0]) && TrimStart(body) == body;
    assert body[0] != '-' && body[0] != '+';
    assert Unsigned(body) == body && !Negative(body);
    var s := "-" + body;
    assert !IsSpace(s[0]) && TrimStart(s) == s;
    assert s[1..] == body;
    assert Unsigned(s) == body && Negative(s);
  }

  /** The unsigned text reads as m ten-millionths, in either form. */
  lemma UnsignedReadsBack(m: nat)
    ensures ParseUnsigned(UnsignedText(m)) == Finite(m as real / Scale as real)
  {
    if 0 < m < 10 {
      ExponentReadsBack(m);
    } else {
      MagnitudeReadsBack(m);
    }
  }

  /** "me-7" reads as m ten-millionths. */
  lemma ExponentReadsBack(m: nat)
    requires 0 < m < 10
    ensures ParseUnsigned([DigitChar(m)] + "e-7") == Finite(m as real / Scale as real)
  {
    var body := [DigitChar(m)] + "e-7";
    NotInfinity(body);
    assert LeadingDigits(body[1..]) == 0;
    assert LeadingDigits(body) == 1;
    assert body[..1] == [DigitChar(m)];
    assert [DigitChar(m)][..0] == [];
    assert DigitsValue(body[..1]) == m;
    var e := body[1..];
    assert e == "e-7";
    var ds := e[1..][1..];
    assert ds == "7";
    assert LeadingDigits(ds[1..]) == 0;
    assert LeadingDigits(ds) == 1 && ds[..1] == ds;
    assert DigitsValue("7"[..0]) == 0;
    assert DigitsValue(ds) == 7;
    assert Pow10(7) == Scale;
    assert ExponentOf(e) == -7;
    TimesPow10Negative(m as real, 7);
  }

  /** The magnitude's text reads as m ten-millionths. */
  lemma MagnitudeReadsBack(m: nat)
    ensures ParseUnsigned(MagnitudeText(m)) == Finite(m as real / Scale as real)
  {
    if DropTrailingZeros(FixedText(m % Scale, 7)) == [] {
      WholeReadsBack(m);
    } else {
      PointedReadsBack(m);
    }
  }

  /** Without a fraction, the text is the whole part alone. */
  lemma WholeReadsBack(m: nat)
    requires DropTrailingZeros(FixedText(m % Scale, 7)) == []
    ensures ParseUnsigned(MagnitudeText(m)) == Finite(m as real / Scale as real)
  {
    var whole := IntText(m / Scale);
    MagnitudeParts(m);
    FractionZero(m);
    ParseUnsignedDigits(whole);
    WholeAndFraction(m);
  }

  /** The magnitude's text is the whole part, followed by a point and the
      fraction when there is one. */
  lemma MagnitudeParts(m: nat)
    ensures var frac := DropTrailingZeros(FixedText(m % Scale, 7));
      MagnitudeText(m) == if frac == [] then IntText(m / Scale) else IntText(m / Scale) + "." + frac
  {
    var frac := DropTrailingZeros(FixedText(m % Scale, 7));
    if frac == [] {
      assert IntText(m / Scale) + "" == IntText(m / Scale);
    } else {
      assert IntText(m / Scale) + ("." + frac) == IntText(m / Scale) + "." + frac;
    }
  }

  /** The fraction drops to nothing exactly when m is a whole number of units. */
  lemma FractionZero(m: nat)
    ensures DropTrailingZeros(FixedText(m % Scale, 7)) == [] <==> m % Scale == 0
  {
    FixedRemainder(m);
    DropTrailingZerosEmpty(FixedText(m % Scale, 7));
  }

  /** The seven fraction digits stand for the remainder in ten-millionths. */
  lemma FixedRemainder(m: nat)
    ensures AllDigits(FixedText(m % Scale, 7))
    ensures DigitsValue(FixedText(m % Scale, 7)) == m % Scale
  {
    var r := m % Scale;
    assert 0 <= r < 10_000_000;
    assert Pow10(7) == 10_000_000;
    assert r % 10_000_000 == r;
  }

  /** With a fraction, the text is the whole part, a point and the fraction. */
  lemma PointedReadsBack(m: nat)
    requires DropTrailingZeros(FixedText(m % Scale, 7)) != []
    ensures ParseUnsigned(MagnitudeText(m)) == Finite(m as real / Scale as real)
  {
    var whole := IntText(m / Scale);
    var frac := DropTrailingZeros(FixedText(m % Scale, 7));
    MagnitudeParts(m);
    ReadsPointed(whole, frac);
    FractionValue(m);
    WholeAndFraction(m);
  }

  /** The fraction without its trailing zeros still stands for the remainder
      in ten-millionths. */
  lemma FractionValue(m: nat)
    ensures var frac := DropTrailingZeros(FixedText(m % Scale, 7));
      AllDigits(frac) &&
      DigitsValue(frac) as real / Pow10(|frac|) as real == (m % Scale) as real / Scale as real
  {
    var fixed := FixedText(m % Scale, 7);
    FixedRemainder(m);
    assert Pow10(7) == 10_000_000;
    DropTrailingZerosValue(fixed);
  }

  /** Digits, a point and digits read as the whole part plus the fraction. */
  lemma ReadsPointed(whole: string, frac: string)
    requires whole != [] && AllDigits(whole) && frac != [] && AllDigits(frac)
    ensures ParseUnsigned(whole + "." + frac) == Finite(DecimalValue(whole, frac))
  {
    var tail := "." + frac;
    var body := whole + tail;
    assert whole + "." + frac == body;
    assert body[0] == whole[0];
    NotInfinity(body);
    LeadingDigitsPrefix(whole, tail);
    var k := LeadingDigits(body);
    assert k == |whole|;
    assert body[..k] == whole;
    assert k < |body| && body[k] == '.';
    var rest := body[k + 1..];
    assert rest == frac;
    LeadingDigitsAll(frac);
    var f := LeadingDigits(rest);
    assert rest[..f] == frac;
    assert !(k == 0 && f == 0);
  }

  /** The whole part and the scaled remainder make up m ten-millionths. */
  lemma WholeAndFraction(m: nat)
    ensures (m / Scale) as real + (m % Scale) as real / Scale as real == m as real / Scale as real
  {
    var q, r := m / Scale, m % Scale;
    assert m == q * Scale + r;
    assert (q * Scale) as real == q as real * Scale as real;
  }

  /** Digits followed by a non-digit: the leading run is exactly the digits. */
  lemma {:induction false} LeadingDigitsPrefix(ds: string, rest: string)
    requires AllDigits(ds) && rest != [] && !IsDigit(rest[0])
    ensures LeadingDigits(ds + rest) == |ds|
    decreases |ds|
  {
    if ds == [] {
      assert ds + rest == rest;
    } else {
      assert (ds + rest)[1..] == ds[1..] + rest;
      LeadingDigitsPrefix(ds[1..], rest);
    }
  }
}
