/**
 * The exact decimals of revalue.go: a mantissa and a scale, standing for
 * m * 10^-s. Parsing, printing and the ring operations, related to the
 * rational number each decimal stands for.
 */
module Decimals {
  import opened Text

  function Pow10(n: nat): (p: nat)
    ensures p > 0
  {
    if n == 0 then 1 else 10 * Pow10(n - 1)
  }

  /** m * 10^-s */
  ghost function Fraction(m: int, s: nat): real {
    if s == 0 then m as real else Fraction(m, s - 1) / 10.0
  }

  datatype Dec = Dec(m: int, s: nat) {

    /** The rational number this decimal stands for. */
    ghost function Value(): real { Fraction(m, s) }

    function Scaled(to: nat): int
      requires s <= to
    {
      if to == s then m else Pow10(to - s) * m
    }

    function Add(b: Dec): Dec {
      var t := if s < b.s then b.s else s;
      Dec(Scaled(t) + b.Scaled(t), t)
    }

    function Sub(b: Dec): Dec { Add(Dec(-b.m, b.s)) }

    function Mul(b: Dec): Dec { Dec(m * b.m, s + b.s) }

    function Neg(): Dec { Dec(-m, s) }

    function Magnitude(): Dec { Dec(Abs(m), s) }

    /** The printed form: no exponent, no trailing fractional zero, no "-0". */
    function String(): string {
      var body := Body(Abs(m), s);
      if body == "0" then "0" else WithSign(m < 0, body)
    }
  }

  /** The unsigned digits of n * 10^-s, point included. */
  function Body(n: nat, s: nat): string {
    if s == 0 then Numeral(n) else Pointed(Padded(Numeral(n), s), s)
  }

  /** Enough leading zeros for at least one digit before a point `s` digits from the end. */
  function Padded(digits: string, s: nat): (p: string)
    ensures |p| > s
  {
    if |digits| <= s then Zeros(s - |digits| + 1) + digits else digits
  }

  function TrimZeros(s: string): (t: string)
    ensures t <= s
  {
    if s != "" && s[|s| - 1] == '0' then TrimZeros(s[..|s| - 1]) else s
  }

  function Pointed(digits: string, s: nat): string
    requires |digits| > s
  {
    var whole, frac := digits[..|digits| - s], TrimZeros(digits[|digits| - s..]);
    if frac != "" then whole + "." + frac else whole
  }

  /** strings.Cut at the first point: what precedes it and what follows it. */
  function CutPoint(t: string): (r: (string, string)) {
    if t == "" then ("", "")
    else if t[0] == '.' then ("", t[1..])
    else var (a, b) := CutPoint(t[1..]); ([t[0]] + a, b)
  }

  function Signed(neg: bool, n: nat): int {
    var v: int := n;
    if neg then -v else v
  }

  function ParseDec(raw: string): Option<Dec> {
    var t := TrimSpace(raw);
    if t == "" then None
    else ParseUnsigned(t[0] == '-', if t[0] == '-' || t[0] == '+' then t[1..] else t)
  }

  function ParseUnsigned(neg: bool, u: string): Option<Dec> {
    var (intPart, frac) := CutPoint(u);
    if intPart == "" && frac == "" then None
    else if !AllDigits(intPart + frac) then None
    else Some(Dec(Signed(neg, ToNat(intPart + frac)), |frac|))
  }

  /** The digit check of parseDec, as its loop over the characters. */
  method CheckDigits(digits: string) returns (ok: bool)
    ensures ok <==> AllDigits(digits)
  {
    for i := 0 to |digits|
      invariant forall j :: 0 <= j < i ==> IsDigit(digits[j])
    {
      if digits[i] < '0' || digits[i] > '9' {
        return false;
      }
    }
    return true;
  }

  // ---------------------------------------------------------------- ring

  lemma CastProduct(x: int, y: int)
    ensures (x * y) as real == x as real * y as real
  {
  }

  /** The fraction is the mantissa over the power of ten. */
  lemma {:induction false} FractionIsQuotient(m: int, s: nat)
    ensures Fraction(m, s) * Pow10(s) as real == m as real
  {
    if s > 0 {
      FractionIsQuotient(m, s - 1);
      var f, p := Fraction(m, s - 1), Pow10(s - 1) as real;
      assert (f / 10.0) * (10.0 * p) == f * p;
    }
  }

  /** What a decimal stands for: its mantissa over ten to its scale. */
  lemma ValueIsQuotient(a: Dec)
    ensures a.Value() == a.m as real / Pow10(a.s) as real
  {
    FractionIsQuotient(a.m, a.s);
  }

  /** A decimal has the sign of its mantissa. */
  lemma {:induction false} FractionSign(m: int, s: nat)
    ensures Fraction(m, s) > 0.0 <==> m > 0
    ensures Fraction(m, s) == 0.0 <==> m == 0
  {
    if s > 0 { FractionSign(m, s - 1); }
  }

  lemma {:induction false} FractionScales(m: int, s: nat, k: nat)
    ensures Fraction(Pow10(k) * m, s + k) == Fraction(m, s)
  {
    if k > 0 {
      var n := Pow10(k - 1) * m;
      assert Pow10(k) * m == 10 * n;
      FractionTimesTen(n, s + k - 1);
      FractionScales(m, s, k - 1);
    }
  }

  lemma {:induction false} FractionTimesTen(m: int, s: nat)
    ensures Fraction(10 * m, s + 1) == Fraction(m, s)
  {
    if s > 0 {
      FractionTimesTen(m, s - 1);
    } else {
      assert Fraction(10 * m, 1) == Fraction(10 * m, 0) / 10.0;
    }
  }

  lemma {:induction false} FractionSum(a: int, b: int, s: nat)
    ensures Fraction(a + b, s) == Fraction(a, s) + Fraction(b, s)
  {
    if s > 0 { FractionSum(a, b, s - 1); }
  }

  lemma {:induction false} FractionProduct(a: int, s: nat, b: int, t: nat)
    ensures Fraction(a * b, s + t) == Fraction(a, s) * Fraction(b, t)
    decreases s + t
  {
    if t > 0 {
      FractionProduct(a, s, b, t - 1);
    } else if s > 0 {
      FractionProduct(a, s - 1, b, 0);
    } else {
      CastProduct(a, b);
    }
  }

  lemma ScaledValue(a: Dec, to: nat)
    requires a.s <= to
    ensures Fraction(a.Scaled(to), to) == a.Value()
  {
    if to != a.s { FractionScales(a.m, a.s, to - a.s); }
  }

  lemma ScaledEndsInZero(a: Dec, to: nat)
    requires a.s <= to
    ensures a.s < to ==> a.Scaled(to) % 10 == 0
  {
    if a.s < to {
      assert a.Scaled(to) == 10 * (Pow10(to - a.s - 1) * a.m);
    }
  }

  lemma AddValue(a: Dec, b: Dec)
    ensures a.Add(b).Value() == a.Value() + b.Value()
  {
    var t := if a.s < b.s then b.s else a.s;
    ScaledValue(a, t);
    ScaledValue(b, t);
    FractionSum(a.Scaled(t), b.Scaled(t), t);
  }

  lemma NegValue(a: Dec)
    ensures a.Neg().Value() == -a.Value()
  {
    FractionSum(a.m, -a.m, a.s);
    FractionOfZero(a.s);
  }

  /** The magnitude of a decimal is the magnitude of its number. */
  lemma MagnitudeValue(a: Dec)
    ensures a.Magnitude().Value() == if a.Value() < 0.0 then -a.Value() else a.Value()
  {
    FractionSign(a.m, a.s);
    NegValue(a);
  }

  lemma {:induction false} FractionOfZero(s: nat)
    ensures Fraction(0, s) == 0.0
  {
    if s > 0 { FractionOfZero(s - 1); }
  }

  lemma SubValue(a: Dec, b: Dec)
    ensures a.Sub(b).Value() == a.Value() - b.Value()
  {
    AddValue(a, Dec(-b.m, b.s));
    NegValue(b);
  }

  lemma MulValue(a: Dec, b: Dec)
    ensures a.Mul(b).Value() == a.Value() * b.Value()
  {
    FractionProduct(a.m, a.s, b.m, b.s);
  }

  // ------------------------------------------------- canonical form

  /** The same value with every trailing zero of the fraction removed. */
  function Normal(a: Dec): (n: Dec)
    ensures n.s <= a.s
    ensures n.s == 0 || n.m % 10 != 0
    decreases a.s
  {
    if a.s > 0 && a.m % 10 == 0 then Normal(Dec(a.m / 10, a.s - 1)) else a
  }

  lemma {:induction false} NormalValue(a: Dec)
    ensures Normal(a).Value() == a.Value()
    decreases a.s
  {
    if a.s > 0 && a.m % 10 == 0 {
      var m := a.m / 10;
      NormalValue(Dec(m, a.s - 1));
      assert a.m == 10 * m;
      FractionTimesTen(m, a.s - 1);
    }
  }

  lemma {:induction false} FractionInjective(a: int, b: int, s: nat)
    requires Fraction(a, s) == Fraction(b, s)
    ensures a == b
  {
    if s > 0 { FractionInjective(a, b, s - 1); }
  }

  /** Two decimals without trailing fractional zeros and with one value are one decimal. */
  lemma NormalUnique(a: Dec, b: Dec)
    requires a.s == 0 || a.m % 10 != 0
    requires b.s == 0 || b.m % 10 != 0
    requires a.s <= b.s
    requires a.Value() == b.Value()
    ensures a == b
  {
    ScaledValue(a, b.s);
    FractionInjective(a.Scaled(b.s), b.m, b.s);
    ScaledEndsInZero(a, b.s);
  }

  /** Equal values have one normal form, and only equal values do. */
  lemma NormalDecides(a: Dec, b: Dec)
    ensures a.Value() == b.Value() <==> Normal(a) == Normal(b)
  {
    NormalValue(a);
    NormalValue(b);
    if a.Value() == b.Value() {
      if Normal(a).s <= Normal(b).s {
        NormalUnique(Normal(a), Normal(b));
      } else {
        NormalUnique(Normal(b), Normal(a));
      }
    }
  }

  // ------------------------------------------------- printing

  lemma {:induction false} TrimZerosStep(t: string)
    ensures TrimZeros(t + "0") == TrimZeros(t)
  {
    assert (t + "0")[..|t|] == t;
  }

  lemma PaddedTimesTen(n: nat, s: nat)
    requires n > 0
    ensures Padded(Numeral(10 * n), s + 1) == Padded(Numeral(n), s) + "0"
  {
  }

  lemma PointedDropsZero(p: string, s: nat)
    requires |p| > s
    ensures Pointed(p + "0", s + 1) == Pointed(p, s)
  {
    hide TrimZeros;
    var q, k := p + "0", |p| - s;
    assert q[..k] == p[..k];
    assert q[k..] == p[k..] + "0";
    TrimZerosStep(p[k..]);
  }

  /** A trailing zero of the mantissa under one more digit of scale does not print. */
  lemma BodyDropsZero(n: nat, s: nat)
    requires n > 0
    ensures Body(10 * n, s + 1) == Body(n, s)
  {
    var p := Padded(Numeral(n), s);
    PaddedTimesTen(n, s);
    PointedDropsZero(p, s);
    if s == 0 {
      assert p[..|p|] == p && p[|p|..] == "";
    }
  }

  lemma SameBodyPrints(a: Dec, b: Dec)
    requires Body(Abs(a.m), a.s) == Body(Abs(b.m), b.s) && (a.m < 0 <==> b.m < 0)
    ensures a.String() == b.String()
  {
    hide Body, WithSign;
  }

  lemma PrintDropsZero(m: int, s: nat)
    ensures Dec(10 * m, s + 1).String() == Dec(m, s).String()
  {
    hide Dec.String, Body;
    if m == 0 {
      ZeroPrints(s);
      ZeroPrints(s + 1);
    } else {
      BodyDropsZero(Abs(m), s);
      SameBodyPrints(Dec(10 * m, s + 1), Dec(m, s));
    }
  }

  lemma {:induction false} AllZerosTrim(n: nat)
    ensures TrimZeros(Zeros(n)) == ""
  {
    if n > 0 {
      assert Zeros(n)[..n - 1] == Zeros(n - 1);
      AllZerosTrim(n - 1);
    }
  }

  lemma ZeroPrints(s: nat)
    ensures Dec(0, s).String() == "0"
  {
    assert Numeral(0) == "0";
    if s > 0 {
      var p := Padded("0", s);
      assert p == Zeros(s) + "0" == Zeros(s + 1);
      assert p[1..] == Zeros(s) && p[..1] == "0";
      AllZerosTrim(s);
    }
  }

  lemma {:induction false} PrintsNormal(a: Dec)
    ensures a.String() == Normal(a).String()
    decreases a.s
  {
    hide Dec.String;
    if a.s > 0 && a.m % 10 == 0 {
      var m := a.m / 10;
      assert a == Dec(10 * m, (a.s - 1) + 1);
      PrintsNormal(Dec(m, a.s - 1));
      PrintDropsZero(m, a.s - 1);
    }
  }

  // ------------------------------------------------- parsing what was printed

  lemma {:induction false} CutAtPoint(a: string, b: string)
    requires AllDigits(a)
    ensures CutPoint(a + "." + b) == (a, b)
  {
    var t := a + "." + b;
    if a == "" {
      assert t == "." + b && t[0] == '.' && t[1..] == b;
    } else {
      assert t[1..] == a[1..] + "." + b;
      CutAtPoint(a[1..], b);
      assert [t[0]] + a[1..] == a;
    }
  }

  lemma {:induction false} CutNoPoint(a: string)
    requires AllDigits(a)
    ensures CutPoint(a) == (a, "")
  {
    if a != "" {
      CutNoPoint(a[1..]);
      assert [a[0]] + a[1..] == a;
    }
  }

  /** `digits` with a point before its last s digits, every digit kept: big.Rat.FloatString. */
  function Fixed(digits: string, s: nat): string
    requires |digits| > s
  {
    if s == 0 then digits else digits[..|digits| - s] + "." + digits[|digits| - s..]
  }

  lemma FixedCuts(digits: string, s: nat)
    requires AllDigits(digits) && |digits| > s
    ensures var (a, b) := CutPoint(Fixed(digits, s)); a != "" && a + b == digits && |b| == s
    ensures IsDigit(Fixed(digits, s)[0]) && IsDigit(Fixed(digits, s)[|Fixed(digits, s)| - 1])
  {
    if s == 0 {
      CutNoPoint(digits);
      assert digits + "" == digits;
    } else {
      var whole, frac := digits[..|digits| - s], digits[|digits| - s..];
      CutAtPoint(whole, frac);
      assert whole + frac == digits;
    }
  }

  /** The sign in front of an unsigned text. */
  function WithSign(neg: bool, body: string): string { if neg then "-" + body else body }

  lemma ParseFixed(digits: string, s: nat, neg: bool)
    requires AllDigits(digits) && |digits| > s
    ensures ParseDec(WithSign(neg, Fixed(digits, s))) == Some(Dec(Signed(neg, ToNat(digits)), s))
  {
    var body := Fixed(digits, s);
    FixedCuts(digits, s);
    TrimmedNumeral(WithSign(neg, body));
    assert ("-" + body)[1..] == body;
    assert ParseUnsigned(neg, body) == Some(Dec(Signed(neg, ToNat(digits)), s));
  }

  lemma PaddedNumeral(n: nat, s: nat)
    ensures AllDigits(Padded(Numeral(n), s)) && ToNat(Padded(Numeral(n), s)) == n
    ensures Padded(Numeral(n), s)[|Padded(Numeral(n), s)| - 1] == DigitChar(n % 10)
  {
    var d := Numeral(n);
    NumeralDenotes(n);
    if |d| <= s {
      LeadingZeros(s - |d| + 1, d);
    }
  }

  /** Without a trailing fractional zero the printed digits are all kept. */
  lemma BodyOfNormal(n: nat, s: nat)
    requires s == 0 || n % 10 != 0
    ensures Body(n, s) == Fixed(Padded(Numeral(n), s), s)
    ensures Body(n, s) == "0" <==> n == 0
  {
    PaddedNumeral(n, s);
    NumeralDenotes(n);
    if s > 0 {
      hide Padded, Numeral, ToNat;
      var p := Padded(Numeral(n), s);
      var frac := p[|p| - s..];
      assert frac[|frac| - 1] == p[|p| - 1] != '0';
      assert |Pointed(p, s)| > 1;
    } else if n == 0 {
      assert Numeral(0) == "0";
    } else {
      hide ToNat;
      assert Numeral(n)[0] != '0';
    }
  }

  lemma NormalPrints(b: Dec)
    requires b.s == 0 || b.m % 10 != 0
    ensures b.String() == WithSign(b.m < 0, Fixed(Padded(Numeral(Abs(b.m)), b.s), b.s))
  {
    BodyOfNormal(Abs(b.m), b.s);
  }

  /** Parsing a printed decimal gives its normal form exactly. */
  lemma ParsePrinted(a: Dec)
    ensures ParseDec(a.String()) == Some(Normal(a))
  {
    hide Dec.String, Normal, Padded, Numeral, Fixed, ParseDec, ToNat, WithSign;
    var b := Normal(a);
    var p := Padded(Numeral(Abs(b.m)), b.s);
    assert a.String() == WithSign(b.m < 0, Fixed(p, b.s)) by {
      PrintsNormal(a);
      NormalPrints(b);
    }
    assert AllDigits(p) && ToNat(p) == Abs(b.m) by { PaddedNumeral(Abs(b.m), b.s); }
    ParseFixed(p, b.s, b.m < 0);
  }

  lemma ParsePrintedValue(a: Dec)
    ensures ParseDec(a.String()).Some? && ParseDec(a.String()).value.Value() == a.Value()
  {
    ParsePrinted(a);
    NormalValue(a);
  }

  /** Printing is canonical: one text per value, one value per text. */
  lemma PrintDecidesValue(a: Dec, b: Dec)
    ensures a.String() == b.String() <==> a.Value() == b.Value()
  {
    ParsePrinted(a);
    ParsePrinted(b);
    NormalDecides(a, b);
    PrintsNormal(a);
    PrintsNormal(b);
  }

  // ------------------------------------------------- spelled out

  /** Plain digits read as the number they denote, with no scale. */
  lemma DigitsRead(s: string)
    requires s != "" && AllDigits(s)
    ensures ParseDec(s) == Some(Dec(ToNat(s), 0))
  {
    ParseFixed(s, 0, false);
    hide ParseDec;
  }

  /** A sign and a point read as they should: -1.50 is minus 150 hundredths. */
  lemma WorkedParse()
    ensures ParseDec("-1.50") == Some(Dec(-150, 2)) && ParseDec("110") == Some(Dec(110, 0))
    ensures ParseDec("") == None && ParseDec("-") == None
  {
    ToNatOf('1', '5', '0');
    ToNatOf('1', '1', '0');
    hide ToNat;
    ParseFixed("150", 2, true);
    assert "150"[..1] == "1" && "150"[1..] == "50";
    assert WithSign(true, Fixed("150", 2)) == "-1.50";
    DigitsRead("110");
  }

  lemma ToNatOf(a: char, b: char, c: char)
    requires IsDigit(a) && IsDigit(b) && IsDigit(c)
    ensures AllDigits([a, b, c]) && ToNat([a, b, c]) == 100 * DigitValue(a) + 10 * DigitValue(b) + DigitValue(c)
  {
    assert ToNat("") == 0;
    hide ToNat;
    ToNatAppend("", a);
    ToNatAppend([a], b);
    ToNatAppend([a, b], c);
    assert "" + [a] == [a] && [a] + [b] == [a, b] && [a, b] + [c] == [a, b, c];
  }

  lemma ToNatAppend(s: string, c: char)
    requires AllDigits(s) && IsDigit(c)
    ensures AllDigits(s + [c]) && ToNat(s + [c]) == 10 * ToNat(s) + DigitValue(c)
  {
    assert (s + [c])[..|s|] == s;
  }

  /** And print: minus 15 tenths, and five hundredths. */
  lemma WorkedPrint()
    ensures Dec(-15, 1).String() == "-1.5" && Dec(5, 2).String() == "0.05" && Dec(0, 3).String() == "0"
  {
    assert Numeral(15) == "15" by { assert Numeral(1) == "1"; }
    assert Numeral(5) == "5";
    NormalPrints(Dec(-15, 1));
    NormalPrints(Dec(5, 2));
    ZeroPrints(3);
    hide Dec.String, Numeral;
    assert "15"[..1] == "1" && "15"[1..] == "5";
    assert Padded("5", 2) == "005" by { assert Zeros(2) == "00"; }
    assert "005"[..1] == "0" && "005"[1..] == "05";
  }
}
