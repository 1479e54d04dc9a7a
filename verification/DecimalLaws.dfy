/** What decimal texts such as `-1.25e-7` are worth. */
module DecimalLaws {
  import opened JsText
  import opened TextLaws

  /** `v`, `k` times multiplied by ten. */
  function Shift(v: real, k: nat): real {
    if k == 0 then v else 10.0 * Shift(v, k - 1)
  }

  lemma {:induction false} PositionIs(m: string, c: char, rest: string)
    requires c !in m
    ensures PositionOf(m, c) == |m| && PositionOf(m + [c] + rest, c) == |m|
  {
    if m != "" {
      assert (m + [c] + rest)[1..] == m[1..] + [c] + rest;
      PositionIs(m[1..], c, rest);
    }
  }

  /** Moving the point by `k` places. */
  lemma {:induction false} ScaledBy(n: int, e: int, k: nat)
    ensures Scaled(n, e + k) == Shift(Scaled(n, e), k)
  {
    if k > 0 {
      ScaledBy(n, e, k - 1);
      assert Scaled(n, e + k) == 10.0 * Scaled(n, e + k - 1);
    }
  }

  // ----- the parts of a text -----

  lemma PointParts(a: string, b: string)
    requires '.' !in a
    ensures BeforePoint(a + "." + b) == a && AfterPoint(a + "." + b) == b
  {
    PositionIs(a, '.', b);
    assert (a + "." + b)[|a| + 1..] == b;
  }

  lemma NoExponent(m: string)
    requires 'e' !in m
    ensures Mantissa(m) == m && Exponent(m) == 0
  {
    PositionIs(m, 'e', "");
  }

  lemma ExponentParts(m: string, x: string)
    requires 'e' !in m
    ensures Mantissa(m + "e" + x) == m && Exponent(m + "e" + x) == SignedValue(x)
  {
    PositionIs(m, 'e', x);
    assert (m + "e" + x)[|m| + 1..] == x;
  }

  lemma UnsignedAs(text: string, m: string, e: int)
    requires Mantissa(text) == m && Exponent(text) == e
    ensures Unsigned(text) == Scaled(DigitsValue(BeforePoint(m) + AfterPoint(m)), e - |AfterPoint(m)|)
  {
  }

  lemma NoSign(t: string)
    requires t != "" && t[0] != '-'
    ensures DecimalValue(t) == Unsigned(t)
  {
  }

  // ----- what a text is worth -----

  lemma PlainPoint(a: string, b: string)
    requires AllDigits(a) && AllDigits(b) && a != ""
    ensures '.' !in a && 'e' !in a + "." + b && (a + "." + b)[0] != '-'
  {
    assert forall c | c in a + "." + b :: c in a || c == '.' || c in b;
    assert (a + "." + b)[0] == a[0] && a[0] in a;
  }

  lemma PointValue(a: string, b: string)
    requires '.' !in a && 'e' !in a + "." + b && (a + "." + b)[0] != '-'
    ensures DecimalValue(a + "." + b) == Scaled(DigitsValue(a + b), -|b|)
  {
    var t := a + "." + b;
    NoExponent(t);
    PointParts(a, b);
    NoSign(t);
    UnsignedAs(t, t, 0);
  }

  /** A text without sign and exponent: the digits as one number, over ten for each digit after the point. */
  lemma PointExactly(a: string, b: string)
    requires AllDigits(a) && AllDigits(b) && a != ""
    ensures Shift(DecimalValue(a + "." + b), |b|) == DigitsValue(a + b) as real
  {
    PlainPoint(a, b);
    PointValue(a, b);
    ScaledBy(DigitsValue(a + b), -|b|, |b|);
  }

  /** A minus sign negates. */
  lemma SignExactly(t: string)
    requires t != "" && t[0] != '-'
    ensures DecimalValue("-" + t) == -DecimalValue(t)
  {
    assert ("-" + t)[1..] == t;
  }

  /** A mantissa and an exponent, with the same digits and places as the mantissa alone. */
  lemma ExponentValue(t: string, m: string, e: int) returns (n: nat, places: int)
    requires t != "" && t[0] != '-' && Mantissa(t) == m && Exponent(t) == e
    requires m != "" && m[0] != '-' && Mantissa(m) == m && Exponent(m) == 0
    ensures DecimalValue(m) == Scaled(n, 0 - places) && DecimalValue(t) == Scaled(n, e - places)
  {
    NoSign(m);
    NoSign(t);
    UnsignedAs(m, m, 0);
    UnsignedAs(t, m, e);
    n, places := DigitsValue(BeforePoint(m) + AfterPoint(m)), |AfterPoint(m)|;
  }

  lemma Apart(v: real, w: real, n: nat, places: int, e: int)
    requires v == Scaled(n, 0 - places) && w == Scaled(n, e - places)
    ensures e >= 0 ==> w == Shift(v, e)
    ensures e < 0 ==> Shift(w, -e) == v
  {
    if e >= 0 { ScaledBy(n, 0 - places, e); } else { ScaledBy(n, e - places, -e); }
  }

  lemma MantissaShifts(t: string, m: string, e: int)
    requires t != "" && t[0] != '-' && Mantissa(t) == m && Exponent(t) == e
    requires m != "" && m[0] != '-' && Mantissa(m) == m && Exponent(m) == 0
    ensures e >= 0 ==> DecimalValue(t) == Shift(DecimalValue(m), e)
    ensures e < 0 ==> Shift(DecimalValue(t), -e) == DecimalValue(m)
  {
    var n, places := ExponentValue(t, m, e);
    Apart(DecimalValue(m), DecimalValue(t), n, places, e);
  }

  /** An exponent multiplies by that power of ten; a negative one divides. */
  lemma ExponentExactly(m: string, x: string)
    requires 'e' !in m && m != "" && m[0] != '-'
    ensures SignedValue(x) >= 0 ==> DecimalValue(m + "e" + x) == Shift(DecimalValue(m), SignedValue(x))
    ensures SignedValue(x) < 0 ==> Shift(DecimalValue(m + "e" + x), -SignedValue(x)) == DecimalValue(m)
  {
    assert (m + "e" + x)[0] == m[0];
    NoExponent(m);
    ExponentParts(m, x);
    MantissaShifts(m + "e" + x, m, SignedValue(x));
  }
}
