/** JavaScript numbers as the components use them: exact arithmetic over the
    extended reals, with NaN, and `parseFloat` for plain decimal text. */
module JsNumber {
  import opened JsString

  /** A JavaScript number. Finite values are exact reals: IEEE 754 rounding
      and the sign of zero are not modelled. */
  datatype Num = Finite(v: real) | NaN | Infinite(positive: bool)

  /** `Boolean(n)`: false exactly for NaN and zero. */
  predicate Truthy(n: Num) {
    n.Infinite? || (n.Finite? && n.v != 0.0)
  }

  /** `n || 0`: never NaN, and `n` itself whenever `n` is truthy. */
  function OrZero(n: Num): (r: Num)
    ensures !r.NaN?
    ensures Truthy(n) ==> r == n
    ensures r.Finite? && r.v == 0.0 <==> !Truthy(n)
  {
    if Truthy(n) then n else Finite(0.0)
  }

  function Neg(a: Num): Num {
    match a
    case Finite(x) => Finite(-x)
    case NaN => NaN
    case Infinite(p) => Infinite(!p)
  }

  /** `a + b`. */
  function Add(a: Num, b: Num): Num {
    match (a, b)
    case (Finite(x), Finite(y)) => Finite(x + y)
    case (NaN, _) => NaN
    case (_, NaN) => NaN
    case (Infinite(p), Infinite(q)) => if p == q then a else NaN
    case (Infinite(_), Finite(_)) => a
    case (Finite(_), Infinite(_)) => b
  }

  /** `a - b`. */
  function Sub(a: Num, b: Num): Num {
    Add(a, Neg(b))
  }

  /** `a * b`. */
  function Mul(a: Num, b: Num): Num {
    match (a, b)
    case (Finite(x), Finite(y)) => Finite(x * y)
    case (NaN, _) => NaN
    case (_, NaN) => NaN
    case (Infinite(p), Infinite(q)) => Infinite(p == q)
    case (Infinite(p), Finite(y)) => if y == 0.0 then NaN else Infinite(p == (y > 0.0))
    case (Finite(x), Infinite(q)) => if x == 0.0 then NaN else Infinite(q == (x > 0.0))
  }

  /** `a / b`; a zero divisor counts as +0. */
  function Div(a: Num, b: Num): Num {
    match (a, b)
    case (Finite(x), Finite(y)) =>
      if y != 0.0 then Finite(x / y)
      else if x == 0.0 then NaN
      else Infinite(x > 0.0)
    case (NaN, _) => NaN
    case (_, NaN) => NaN
    case (Infinite(_), Infinite(_)) => NaN
    case (Infinite(p), Finite(y)) => Infinite(p == (y >= 0.0))
    case (Finite(_), Infinite(_)) => Finite(0.0)
  }

  /** `a > b`; every comparison with NaN is false. */
  predicate Gt(a: Num, b: Num) {
    match (a, b)
    case (Finite(x), Finite(y)) => x > y
    case (NaN, _) => false
    case (_, NaN) => false
    case (Infinite(p), Infinite(q)) => p && !q
    case (Infinite(p), Finite(_)) => p
    case (Finite(_), Infinite(q)) => !q
  }

  /** `a < b`. */
  predicate Lt(a: Num, b: Num) {
    Gt(b, a)
  }

  /** `a <= b`: false when either side is NaN. */
  predicate Le(a: Num, b: Num) {
    !a.NaN? && !b.NaN? && !Gt(a, b)
  }

  /** `Math.min(a, b)`. */
  function Min(a: Num, b: Num): (r: Num)
    ensures r.NaN? <==> a.NaN? || b.NaN?
    ensures !r.NaN? ==> Le(r, a) && Le(r, b) && (r == a || r == b)
  {
    if a.NaN? || b.NaN? then NaN else if Lt(b, a) then b else a
  }

  /** `Math.abs(a)`. */
  function Abs(a: Num): (r: Num)
    ensures r.NaN? <==> a.NaN?
    ensures r.Finite? ==> a.Finite? && r.v >= 0.0 && (r.v == a.v || r.v == -a.v)
    ensures r.Infinite? ==> r.positive
  {
    match a
    case Finite(x) => Finite(if x < 0.0 then -x else x)
    case NaN => NaN
    case Infinite(_) => Infinite(true)
  }

  /** Dividing finite numbers gives a finite number exactly when the divisor
      is not zero. */
  lemma DivFinite(x: real, y: real)
    ensures Div(Finite(x), Finite(y)).Finite? <==> y != 0.0
    ensures y != 0.0 ==> Div(Finite(x), Finite(y)).v * y == x
  {
  }

  // ---------------------------------------------------------------------
  // parseFloat

  predicate IsDigit(c: char) {
    '0' <= c <= '9'
  }

  predicate AllDigits(s: string) {
    forall i :: 0 <= i < |s| ==> IsDigit(s[i])
  }

  /** The number of decimal digits at the start of `s`. */
  function LeadingDigits(s: string): (k: nat)
    ensures k <= |s|
    ensures forall i :: 0 <= i < k ==> IsDigit(s[i])
    ensures k == |s| || !IsDigit(s[k])
  {
    if s != [] && IsDigit(s[0]) then 1 + LeadingDigits(s[1..]) else 0
  }

  /** The value of a run of decimal digits. */
  function DigitsValue(ds: string): nat
    requires AllDigits(ds)
  {
    if ds == [] then 0 else DigitsValue(ds[..|ds| - 1]) * 10 + DigitOf(ds[|ds| - 1])
  }

  function DigitOf(c: char): (d: nat)
    requires IsDigit(c)
    ensures d <= 9
  {
    c as int - '0' as int
  }

  /** The value of the digits `ds`, a point, and the digits `fs`. */
  function DecimalValue(ds: string, fs: string): (v: real)
    requires AllDigits(ds) && AllDigits(fs)
    ensures v >= 0.0
  {
    DigitsValue(ds) as real + DigitsValue(fs) as real / Pow10(|fs|) as real
  }

  function Pow10(n: nat): (p: nat)
    ensures p >= 1
  {
    if n == 0 then 1 else 10 * Pow10(n - 1)
  }

  /** The power of ten an exponent part at the start of `s` stands for:
      "e" or "E", an optional sign and at least one digit. Text that does not
      start with a complete exponent part stands for 0. */
  function ExponentOf(s: string): (e: int)
    ensures s == [] ==> e == 0
  {
    if s != [] && (s[0] == 'e' || s[0] == 'E') then
      var t := s[1..];
      var ds := if t != [] && (t[0] == '-' || t[0] == '+') then t[1..] else t;
      var d := LeadingDigits(ds);
      if d == 0 then 0
      else if t[0] == '-' then -(DigitsValue(ds[..d]) as int)
      else DigitsValue(ds[..d])
    else 0
  }

  /** `m` times ten to the power `e`, one factor of ten at a time. */
  function TimesPow10(m: real, e: int): (r: real)
    ensures m >= 0.0 ==> r >= 0.0
    ensures e == 0 ==> r == m
    decreases if e < 0 then -e else e
  {
    if e == 0 then m
    else if e > 0 then TimesPow10(10.0 * m, e - 1)
    else TimesPow10(m / 10.0, e + 1)
  }

  /** A negative power of ten divides by the matching positive power. */
  lemma {:induction false} TimesPow10Negative(m: real, k: nat)
    ensures TimesPow10(m, -(k as int)) == m / Pow10(k) as real
    decreases k
  {
    if k > 0 {
      assert TimesPow10(m, -(k as int)) == TimesPow10(m / 10.0, -((k - 1) as int));
      TimesPow10Negative(m / 10.0, k - 1);
      var p := Pow10(k - 1) as real;
      assert Pow10(k) as real == 10.0 * p;
      DivideTwice(m, 10.0, p);
    }
  }

  /** A non-negative power of ten multiplies by the matching power. */
  lemma {:induction false} TimesPow10NonNegative(m: real, k: nat)
    ensures TimesPow10(m, k) == m * Pow10(k) as real
    decreases k
  {
    if k > 0 {
      assert TimesPow10(m, k) == TimesPow10(10.0 * m, k - 1);
      TimesPow10NonNegative(10.0 * m, k - 1);
      var p := Pow10(k - 1) as real;
      assert Pow10(k) as real == 10.0 * p;
      assert (10.0 * m) * p == m * (10.0 * p);
    }
  }

  /** The scale an exponent part `e` gives: the mantissa times 10^e, a
      multiplication for e >= 0 and a division below, so a positive mantissa
      stays positive and e = 0 (no exponent part) leaves it as it is. */
  lemma ExponentScales(m: real, e: int)
    ensures e >= 0 ==> TimesPow10(m, e) == m * Pow10(e) as real
    ensures e < 0 ==> TimesPow10(m, e) == m / Pow10(-e) as real
    ensures m > 0.0 ==> TimesPow10(m, e) > 0.0
    ensures e == 0 ==> TimesPow10(m, e) == m
  {
    if e >= 0 {
      TimesPow10NonNegative(m, e);
      if m > 0.0 {
        assert Pow10(e) as real >= 1.0;
        assert m * Pow10(e) as real >= m * 1.0;
      }
    } else {
      var k: nat := -e;
      assert -(k as int) == e;
      TimesPow10Negative(m, k);
      if m > 0.0 {
        QuotientPositive(m, Pow10(k) as real);
      }
    }
  }

  lemma QuotientPositive(m: real, p: real)
    requires m > 0.0 && p > 0.0
    ensures m / p > 0.0
  {
    var q := m / p;
    assert q * p == m;
  }

  lemma DivideTwice(m: real, a: real, b: real)
    requires a > 0.0 && b > 0.0
    ensures (m / a) / b == m / (a * b)
  {
    var q := m / a;
    var r := q / b;
    assert q * a == m;
    assert r * b == q;
    assert r * (a * b) == (r * b) * a;
  }

  /** The value of the unsigned literal at the start of `body`: "Infinity",
      or digits optionally followed by a point and more digits (with at
      least one digit in all), then an optional exponent part; NaN when it
      holds neither. */
  function ParseUnsigned(body: string): (n: Num)
    ensures n.Infinite? <==> IsPrefix("Infinity", body)
    ensures n.Infinite? ==> n.positive
    ensures n.Finite? ==> n.v >= 0.0
  {
    if IsPrefix("Infinity", body) then Infinite(true)
    else
      var k := LeadingDigits(body);
      var pointed := k < |body| && body[k] == '.';
      var f := if pointed then LeadingDigits(body[k + 1..]) else 0;
      if k == 0 && f == 0 then NaN
      else
        var ds := DigitRun(body);
        var mantissa := if pointed then DecimalValue(ds, DigitRun(body[k + 1..]))
                        else DigitsValue(ds) as real;
        var end := if pointed then k + 1 + f else k;
        Finite(TimesPow10(mantissa, ExponentOf(body[end..])))
  }

  /** The run of decimal digits at the start of `s`. */
  function DigitRun(s: string): (r: string)
    ensures AllDigits(r)
    ensures r == s[..LeadingDigits(s)]
  {
    s[..LeadingDigits(s)]
  }


  /** The text `parseFloat` reads the literal from: after leading white space
      and at most one sign. */
  function Unsigned(s: string): string {
    var t := TrimStart(s);
    if t != [] && (t[0] == '-' || t[0] == '+') then t[1..] else t
  }

  /** The input carries a minus sign before its literal. */
  predicate Negative(s: string) {
    var t := TrimStart(s);
    t != [] && t[0] == '-'
  }

  /** `parseFloat(s)` for decimal text: leading white space is skipped, a sign
      is read, then "Infinity" or the longest decimal prefix; NaN when there
      is neither. */
  function ParseFloat(s: string): (n: Num)
    ensures n.Infinite? <==> IsPrefix("Infinity", Unsigned(s))
    ensures n.Infinite? ==> (n.positive <==> !Negative(s))
  {
    var u := ParseUnsigned(Unsigned(s));
    if Negative(s) then Neg(u) else u
  }

  /** The empty string and white space parse as NaN. */
  lemma ParseFloatBlank(s: string)
    requires forall i :: 0 <= i < |s| ==> IsSpace(s[i])
    ensures ParseFloat(s).NaN?
  {
    assert TrimStart(s) == [];
    assert !IsPrefix("Infinity", []);
  }

  /** A string of digits parses as its decimal value. */
  lemma ParseFloatDigits(s: string)
    requires s != [] && AllDigits(s)
    ensures ParseFloat(s) == Finite(DigitsValue(s) as real)
  {
    assert !IsSpace(s[0]);
    assert TrimStart(s) == s;
    assert s[0] != '-' && s[0] != '+';
    assert Unsigned(s) == s;
    ParseUnsignedDigits(s);
  }

  lemma ParseUnsignedDigits(s: string)
    requires s != [] && AllDigits(s)
    ensures ParseUnsigned(s) == Finite(DigitsValue(s) as real)
  {
    NotInfinity(s);
    LeadingDigitsAll(s);
    assert s[..|s|] == s;
    assert s[|s|..] == [];
  }

  /** Text that starts with a digit or a point does not read as Infinity. */
  lemma NotInfinity(s: string)
    requires s != [] && (IsDigit(s[0]) || s[0] == '.')
    ensures !IsPrefix("Infinity", s)
  {
    var inf := "Infinity";
    assert inf[0] == 'I';
    if |inf| <= |s| {
      assert s[..|inf|][0] == s[0];
    }
  }

  lemma {:induction false} LeadingDigitsAll(s: string)
    requires AllDigits(s)
    ensures LeadingDigits(s) == |s|
  {
    if s != [] {
      LeadingDigitsAll(s[1..]);
    }
  }

  /** Without a leading minus sign, `parseFloat` gives NaN or a number that
      is not negative. */
  lemma ParseFloatUnsigned(s: string)
    requires !Negative(s)
    ensures ParseFloat(s).NaN? || ParseFloat(s) == Infinite(true) || ParseFloat(s).v >= 0.0
  {
  }
}
