/** Number literals: which texts they are (RFC 8259, section 6), and the ints they are read as. */
module JsonNumbers {
  import opened Wrappers
  import opened Json

  /** A literal in its parts: sign, digits before the point, digits after it, and an exponent. */
  datatype Number = Number(negative: bool, whole: string, fraction: string, exponent: string)

  predicate Digits(s: string) { s != "" && forall k :: 0 <= k < |s| ==> '0' <= s[k] <= '9' }

  predicate IsExponent(s: string) {
    |s| >= 2 && (s[0] == 'e' || s[0] == 'E')
    && (Digits(s[1..]) || ((s[1] == '+' || s[1] == '-') && Digits(s[2..])))
  }

  predicate WellFormed(n: Number) {
    && Digits(n.whole) && (n.whole[0] == '0' ==> n.whole == "0")
    && (n.fraction == "" || (n.fraction[0] == '.' && Digits(n.fraction[1..])))
    && (n.exponent == "" || IsExponent(n.exponent))
  }

  function Literal(n: Number): string { (if n.negative then "-" else "") + n.whole + n.fraction + n.exponent }

  lemma {:induction false} RunEnds(s: string, i: nat, e: nat)
    requires i <= e <= |s| && (forall k :: i <= k < e ==> '0' <= s[k] <= '9') && (e < |s| ==> !('0' <= s[e] <= '9'))
    ensures DigitsEnd(s, i) == e
    decreases e - i
  {
    if i < e {
      RunEnds(s, i + 1, e);
    }
  }

  function WholeAt(n: Number): nat { if n.negative then 1 else 0 }

  function FractionAt(n: Number): nat { WholeAt(n) + |n.whole| }

  function ExponentAt(n: Number): nat { FractionAt(n) + |n.fraction| }

  /** Where the parts are. */
  lemma PartsAt(n: Number)
    ensures var s, i, a, f := Literal(n), WholeAt(n), FractionAt(n), ExponentAt(n);
            && i <= a <= f <= |s| && s[i..a] == n.whole && s[a..f] == n.fraction && s[f..] == n.exponent
            && (n.negative ==> s[0] == '-')
  {
    var sign := if n.negative then "-" else "";
    var s, a := Literal(n), FractionAt(n);
    assert s[..a] == sign + n.whole;
  }

  lemma CharAt(s: string, i: nat, e: nat, part: string, k: nat)
    requires i <= k < e <= |s| && s[i..e] == part
    ensures s[k] == part[k - i]
  {
  }

  lemma PartIsRun(s: string, i: nat, e: nat, part: string)
    requires i <= e <= |s| && s[i..e] == part && Digits(part) && (e < |s| ==> !('0' <= s[e] <= '9'))
    ensures DigitsEnd(s, i) == e && i < e && '0' <= s[i] <= '9' && s[i] == part[0]
  {
    forall k | i <= k < e
      ensures '0' <= s[k] <= '9'
    {
      CharAt(s, i, e, part, k);
    }
    RunEnds(s, i, e);
    CharAt(s, i, e, part, i);
  }

  lemma WholeEnds(n: Number)
    requires WellFormed(n)
    ensures IntegerEnd(Literal(n)) == Some(FractionAt(n)) && NegativeSign(Literal(n)) == n.negative
  {
    var s, i, a, f := Literal(n), WholeAt(n), FractionAt(n), ExponentAt(n);
    PartsAt(n);
    if n.fraction != "" {
      CharAt(s, a, f, n.fraction, a);
    } else if n.exponent != "" {
      CharAt(s, f, |s|, n.exponent, f);
    }
    hide Literal;
    PartIsRun(s, i, a, n.whole);
  }

  lemma FractionEnds(n: Number)
    requires WellFormed(n)
    ensures FractionAt(n) <= |Literal(n)| && FractionEnd(Literal(n), FractionAt(n)) == Some(ExponentAt(n))
  {
    var s, a, f := Literal(n), FractionAt(n), ExponentAt(n);
    PartsAt(n);
    hide Literal;
    if n.exponent != "" {
      CharAt(s, f, |s|, n.exponent, f);
    }
    if n.fraction != "" {
      CharAt(s, a, f, n.fraction, a);
      assert s[a + 1..f] == n.fraction[1..];
      PartIsRun(s, a + 1, f, n.fraction[1..]);
    }
  }

  lemma ExponentEnds(n: Number)
    requires WellFormed(n)
    ensures ExponentAt(n) <= |Literal(n)| && ExponentEnd(Literal(n), ExponentAt(n)) == Some(|Literal(n)|)
  {
    var s, f := Literal(n), ExponentAt(n);
    PartsAt(n);
    hide Literal;
    if n.exponent != "" {
      var e := n.exponent;
      CharAt(s, f, |s|, e, f);
      CharAt(s, f, |s|, e, f + 1);
      var k := if Digits(e[1..]) then 1 else 2;
      assert Digits(e[1..]) ==> e[1..][0] == e[1];
      assert s[f + k..] == e[k..];
      assert s[f + k..|s|] == s[f + k..];
      PartIsRun(s, f + k, |s|, e[k..]);
      assert ExponentStart(s, f) == f + k;
    }
  }

  lemma LiteralIsNumber(n: Number)
    requires WellFormed(n)
    ensures IsNumber(Literal(n))
  {
    WholeEnds(n);
    FractionEnds(n);
    ExponentEnds(n);
    hide WellFormed, IntegerEnd, FractionEnd, ExponentEnd, Literal;
  }

  lemma NumberEnds(s: string) returns (i: nat, a: nat, f: nat)
    requires IsNumber(s)
    ensures i == (if s != "" && s[0] == '-' then 1 else 0) && IntegerEnd(s) == Some(a)
    ensures a <= |s| && FractionEnd(s, a) == Some(f) && f <= |s| && ExponentEnd(s, f) == Some(|s|)
  {
    hide IntegerEnd, FractionEnd, ExponentEnd;
    i := if s != "" && s[0] == '-' then 1 else 0;
    a := IntegerEnd(s).value;
    f := FractionEnd(s, a).value;
  }

  lemma NumberHasParts(s: string) returns (n: Number)
    requires IsNumber(s)
    ensures WellFormed(n) && s == Literal(n)
  {
    hide *;
    var i, a, f := NumberEnds(s);
    WholePart(s, i, a);
    FractionPart(s, a, f);
    ExponentPart(s, f);
    n := Number(i == 1, s[i..a], s[a..f], s[f..]);
    PartsAreWellFormed(n);
    PartsAreAll(s, i, a, f);
  }

  lemma PartsAreWellFormed(n: Number)
    requires Digits(n.whole) && (n.whole[0] == '0' ==> n.whole == "0")
    requires n.fraction == "" || (n.fraction[0] == '.' && Digits(n.fraction[1..]))
    requires n.exponent == "" || IsExponent(n.exponent)
    ensures WellFormed(n)
  {
    hide Digits, IsExponent;
  }

  lemma PartsAreAll(s: string, i: nat, a: nat, f: nat)
    requires i <= a <= f <= |s| && i == if s != "" && s[0] == '-' then 1 else 0
    ensures s == Literal(Number(i == 1, s[i..a], s[a..f], s[f..]))
  {
    Joined(s, i, a, f);
    assert s[..i] == if i == 1 then "-" else "";
  }

  lemma Joined(s: string, i: nat, a: nat, f: nat)
    requires i <= a <= f <= |s|
    ensures s == s[..i] + s[i..a] + s[a..f] + s[f..]
  {
  }

  lemma WholePart(s: string, i: nat, a: nat)
    requires i == (if s != "" && s[0] == '-' then 1 else 0) && IntegerEnd(s) == Some(a)
    ensures i < a <= |s| && Digits(s[i..a]) && (s[i..a][0] == '0' ==> s[i..a] == "0")
  {
  }

  lemma FractionPart(s: string, a: nat, f: nat)
    requires a <= |s| && FractionEnd(s, a) == Some(f)
    ensures a <= f <= |s| && (s[a..f] == "" || (s[a..f][0] == '.' && Digits(s[a..f][1..])))
  {
    if f > a {
      assert s[a..f][1..] == s[a + 1..f];
    }
  }

  lemma ExponentPart(s: string, f: nat)
    requires f <= |s| && ExponentEnd(s, f) == Some(|s|)
    ensures s[f..] == "" || IsExponent(s[f..])
  {
    if f < |s| {
      var g := ExponentStart(s, f);
      assert s[f..][g - f..] == s[g..];
      assert g == f + 2 ==> s[f..][1] == s[f + 1];
    }
  }

  /** The literals are exactly the texts of this form. */
  lemma NumbersExactly(s: string)
    ensures IsNumber(s) <==> exists n :: WellFormed(n) && s == Literal(n)
  {
    if IsNumber(s) {
      var n := NumberHasParts(s);
    }
    forall n | WellFormed(n) && s == Literal(n)
      ensures IsNumber(s)
    {
      LiteralIsNumber(n);
    }
  }

  /** More digits behind the point change nothing in front of it. */
  lemma {:induction false} AppendedDigits(s: string, t: string)
    requires AllDigits(s) && AllDigits(t)
    ensures AllDigits(s + t) && DigitsValue(s + t) / Pow10(|t|) == DigitsValue(s)
    ensures DigitsValue(s) * Pow10(|t|) <= DigitsValue(s + t) < (DigitsValue(s) + 1) * Pow10(|t|)
  {
    if t == "" {
      assert s + t == s;
    } else {
      var init, d := t[..|t| - 1], DigitValue(t[|t| - 1]);
      AppendedDigits(s, init);
      assert (s + t)[..|s + t| - 1] == s + init && (s + t)[|s + t| - 1] == t[|t| - 1];
      var v, p, w := DigitsValue(s), Pow10(|init|), DigitsValue(s + init);
      assert DigitsValue(s + t) == w * 10 + d && Pow10(|t|) == 10 * p;
      hide *;
      Shifted(v, p, w, d);
    }
  }

  lemma Shifted(v: nat, p: nat, w: nat, d: nat)
    requires p > 0 && d < 10 && v * p <= w < (v + 1) * p
    ensures v * (10 * p) <= w * 10 + d < (v + 1) * (10 * p) && (w * 10 + d) / (10 * p) == v
  {
    assert v * (10 * p) == 10 * (v * p) && (v + 1) * (10 * p) == 10 * ((v + 1) * p);
    var q := 10 * p;
    Quotient(w * 10 + d, q, v);
  }

  lemma Quotient(x: nat, q: nat, v: nat)
    requires q > 0 && v * q <= x < (v + 1) * q
    ensures x / q == v
  {
    var r := x - v * q;
    assert x == v * q + r && r < q;
    QuotientOf(x, q, v, r);
  }

  lemma QuotientOf(x: nat, q: nat, v: nat, r: nat)
    requires r < q && x == v * q + r
    ensures x / q == v
  {
    var w, m := x / q, x % q;
    assert x == w * q + m;
    hide *;
    assert (v - w) * q == m - r;
    Multiples(v - w, q);
  }

  lemma Multiples(d: int, q: nat)
    requires -(q as int) < d * q < q
    ensures d == 0
  {
    assert d * q == (d - 1) * q + q && d * q == -((-d - 1) * q) - q;
    assert d >= 1 ==> (d - 1) * q >= 0;
    assert d <= -1 ==> (-d - 1) * q >= 0;
  }

  /** The digits behind the point. */
  function AfterPoint(n: Number): string { if n.fraction == "" then "" else n.fraction[1..] }

  /** The power of ten an exponent stands for. */
  function Power(e: string): int
    requires e == "" || IsExponent(e)
  {
    if e == "" then 0
    else if e[1] == '-' then 0 - DigitsValue(e[2..])
    else if e[1] == '+' then DigitsValue(e[2..])
    else DigitsValue(e[1..])
  }

  lemma LiteralEnds(n: Number)
    requires WellFormed(n)
    ensures IsNumber(Literal(n)) && IntegerEnd(Literal(n)) == Some(FractionAt(n))
    ensures FractionAt(n) <= ExponentAt(n) <= |Literal(n)| && FractionEnd(Literal(n), FractionAt(n)) == Some(ExponentAt(n))
  {
    LiteralIsNumber(n);
    PartsAt(n);
    WholeEnds(n);
    FractionEnds(n);
    hide IsNumber, WellFormed, Literal, IntegerEnd, FractionEnd;
  }

  lemma TailOf(s: string, f: nat, e: string, k: nat)
    requires k <= |e| && f <= |s| && s[f..] == e
    ensures s[f + k..] == e[k..]
  {
  }

  lemma PowerIsRead(s: NumberLiteral, f: nat, e: string)
    requires f <= |s| && s[f..] == e && (e == "" || IsExponent(e))
    requires IntegerEnd(s).Some? && FractionEnd(s, IntegerEnd(s).value) == Some(f)
    ensures ExponentValue(s, f) == Power(e)
  {
    hide IntegerEnd, FractionEnd, DigitsValue;
    if e != "" {
      TailOf(s, f, e, 1);
      TailOf(s, f, e, 2);
      assert s[f + 1] == e[1];
      assert Digits(e[1..]) ==> '0' <= e[1..][0] <= '9';
    }
  }

  lemma CutOff(m: nat, p: nat)
    requires p > 0
    ensures m / p * p <= m < (m / p + 1) * p
  {
    assert m == m / p * p + m % p;
  }

  lemma TruncOfParts(s: NumberLiteral, i: nat, a: nat, f: nat, fraction: string, e: int)
    requires i == (if NegativeSign(s) then 1 else 0) && IntegerEnd(s) == Some(a) && FractionEnd(s, a) == Some(f)
    requires fraction == (if f == a then "" else s[a + 1..f]) && e == ExponentValue(s, f) - |fraction|
    ensures i <= a <= f <= |s| && AllDigits(s[i..a] + fraction)
    ensures var mantissa := DigitsValue(s[i..a] + fraction);
            var magnitude: int := if e >= 0 then mantissa * Pow10(e) else mantissa / Pow10(-e);
            Trunc(s) == if NegativeSign(s) then -magnitude else magnitude
  {
    hide DigitsValue, Pow10, ExponentValue;
  }

  lemma FractionIsBehind(n: Number)
    requires WellFormed(n)
    ensures FractionAt(n) <= ExponentAt(n) <= |Literal(n)|
    ensures AfterPoint(n)
         == if ExponentAt(n) == FractionAt(n) then "" else Literal(n)[FractionAt(n) + 1..ExponentAt(n)]
  {
    PartsAt(n);
    hide Literal;
    if n.fraction != "" {
      assert Literal(n)[FractionAt(n)..ExponentAt(n)][1..] == Literal(n)[FractionAt(n) + 1..ExponentAt(n)];
    }
  }

  lemma ExponentForm(n: Number)
    requires WellFormed(n)
    ensures n.exponent == "" || IsExponent(n.exponent)
  {
  }

  lemma TruncOf(n: Number)
    requires WellFormed(n)
    ensures IsNumber(Literal(n)) && AllDigits(n.whole + AfterPoint(n))
    ensures var mantissa, e := DigitsValue(n.whole + AfterPoint(n)), Power(n.exponent) - |AfterPoint(n)|;
            var magnitude: int := if e >= 0 then mantissa * Pow10(e) else mantissa / Pow10(-e);
            Trunc(Literal(n)) == if n.negative then -magnitude else magnitude
  {
    hide IsNumber, WellFormed, DigitsValue, Pow10, Literal, IntegerEnd, FractionEnd, Trunc, ExponentValue, Power, IsExponent, Digits;
    hide FractionAt, ExponentAt, AfterPoint, NegativeSign;
    var s, a, f := Literal(n), FractionAt(n), ExponentAt(n);
    LiteralEnds(n);
    WholeEnds(n);
    PartsAt(n);
    FractionIsBehind(n);
    assert n.exponent == "" || IsExponent(n.exponent) by { ExponentForm(n); }
    PowerIsRead(s, f, n.exponent);
    TruncOfParts(s, WholeAt(n), a, f, AfterPoint(n), Power(n.exponent) - |AfterPoint(n)|);
  }

  /** Digits, point and exponent say a number in the ordinary way, and it is cut off towards zero. */
  lemma TruncExactly(n: Number)
    requires WellFormed(n)
    ensures IsNumber(Literal(n)) && AllDigits(n.whole + AfterPoint(n))
    ensures var mantissa: int, places := DigitsValue(n.whole + AfterPoint(n)), |AfterPoint(n)| - Power(n.exponent);
            var magnitude := if n.negative then -Trunc(Literal(n)) else Trunc(Literal(n));
            if places <= 0 then magnitude == mantissa * Pow10(-places)
            else magnitude * Pow10(places) <= mantissa < (magnitude + 1) * Pow10(places)
  {
    hide IsNumber, DigitsValue, Pow10, Literal, Trunc, Power, AfterPoint;
    TruncOf(n);
    var e := Power(n.exponent) - |AfterPoint(n)|;
    if e < 0 {
      CutOff(DigitsValue(n.whole + AfterPoint(n)), Pow10(-e));
    }
  }

  /** Without an exponent, what follows the point is dropped, towards zero. */
  lemma TruncDropsFraction(n: Number)
    requires WellFormed(n) && n.exponent == ""
    ensures IsNumber(Literal(n)) && AllDigits(n.whole)
    ensures var value: int := DigitsValue(n.whole); Trunc(Literal(n)) == if n.negative then -value else value
  {
    TruncOf(n);
    AppendedDigits(n.whole, AfterPoint(n));
    assert AfterPoint(n) == "" ==> n.whole + AfterPoint(n) == n.whole && Pow10(0) == 1;
    hide IsNumber, DigitsValue, Pow10, Literal, Trunc;
  }
}
