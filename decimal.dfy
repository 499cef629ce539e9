/**
 * The amount parser: Python's `float(text)` restricted to plain decimal
 * literals, an optional sign, digits and at most one decimal point, with the
 * value kept exact as a `real`.
 */
module Decimal {
  import opened Wrappers
  import opened Text

  predicate IsDigit(c: char)
  {
    '0' <= c <= '9'
  }

  predicate AllDigits(s: string)
  {
    forall k :: 0 <= k < |s| ==> IsDigit(s[k])
  }

  function DigitValue(c: char): nat
    requires IsDigit(c)
  {
    c as int - '0' as int
  }

  /** The number a run of decimal digits denotes, most significant digit first. */
  function DigitsValue(s: string): nat
    requires AllDigits(s)
  {
    if s == [] then 0 else DigitsValue(s[..|s| - 1]) * 10 + DigitValue(s[|s| - 1])
  }

  function Pow10(k: nat): (p: nat)
    ensures p >= 1
  {
    if k == 0 then 1 else 10 * Pow10(k - 1)
  }

  /** Position of the first `c` in `s`. */
  function IndexOf(s: string, c: char): (i: nat)
    requires c in s
    ensures i < |s| && s[i] == c && c !in s[..i]
  {
    if s[0] == c then 0 else 1 + IndexOf(s[1..], c)
  }

  /** `digits`, `digits.`, `.digits` or `digits.digits`, with at least one digit. */
  function ParseUnsigned(u: string): Option<real>
  {
    if '.' in u then
      var k := IndexOf(u, '.');
      var whole, frac := u[..k], u[k + 1..];
      if AllDigits(whole) && AllDigits(frac) && |whole| + |frac| > 0
      then Some(DigitsValue(whole) as real + DigitsValue(frac) as real / Pow10(|frac|) as real)
      else None
    else if u != [] && AllDigits(u) then Some(DigitsValue(u) as real)
    else None
  }

  predicate HasSign(s: string)
  {
    s != [] && (s[0] == '+' || s[0] == '-')
  }

  /** The decimal number `s` denotes, or None when `float` would raise on it. */
  function ParseDecimal(s: string): Option<real>
  {
    if HasSign(s) then
      match ParseUnsigned(s[1..])
      case Some(v) => Some(if s[0] == '-' then -v else v)
      case None => None
    else ParseUnsigned(s)
  }

  /** Only digits and points, at most one point, and at least one digit. */
  predicate IsUnsignedLiteral(u: string)
  {
    && (forall k :: 0 <= k < |u| ==> IsDigit(u[k]) || u[k] == '.')
    && Count(u, '.') <= 1
    && Count(u, '.') < |u|
  }

  /** The accepted texts, described by counting rather than by splitting at the point. */
  predicate IsDecimalLiteral(s: string)
  {
    IsUnsignedLiteral(if HasSign(s) then s[1..] else s)
  }

  /** Cutting an unsigned literal at its first point: digits on both sides. */
  lemma CutAtPoint(u: string, k: nat)
    requires k < |u| && u[k] == '.' && '.' !in u[..k]
    ensures IsUnsignedLiteral(u) <==> AllDigits(u[..k]) && AllDigits(u[k + 1..]) && |u| > 1
  {
    var whole, frac := u[..k], u[k + 1..];
    assert u == whole + (['.'] + frac);
    CountAppend(whole, ['.'] + frac, '.');
    CountAppend(['.'], frac, '.');
    CountZero(whole, '.');
    CountZero(frac, '.');
    assert Count(u, '.') == 1 + Count(frac, '.');
    assert forall j :: 0 <= j < |whole| ==> whole[j] == u[j];
    assert forall j :: 0 <= j < |frac| ==> frac[j] == u[k + 1 + j];
    if AllDigits(whole) && AllDigits(frac) {
      assert forall j :: 0 <= j < |u| ==> IsDigit(u[j]) || u[j] == '.' by {
        forall j | 0 <= j < |u| ensures IsDigit(u[j]) || u[j] == '.' {
          if j < k {
            assert u[j] == whole[j];
          } else if j > k {
            assert u[j] == frac[j - k - 1];
          }
        }
      }
    }
  }

  lemma UnsignedAccepts(u: string)
    ensures ParseUnsigned(u).Some? <==> IsUnsignedLiteral(u)
  {
    CountZero(u, '.');
    if '.' in u {
      CutAtPoint(u, IndexOf(u, '.'));
    }
  }

  /** `ParseDecimal` accepts exactly the decimal literals. */
  lemma ParseDecimalAccepts(s: string)
    ensures ParseDecimal(s).Some? <==> IsDecimalLiteral(s)
  {
    if HasSign(s) {
      UnsignedAccepts(s[1..]);
    } else {
      UnsignedAccepts(s);
    }
  }

  lemma Distribute(x: int, p: int, y: int, d: int)
    ensures (x * p + y) * 10 + d == x * (p * 10) + (y * 10 + d)
  {
  }

  lemma {:induction false} DigitsValueAppend(a: string, b: string)
    requires AllDigits(a) && AllDigits(b)
    ensures AllDigits(a + b)
    ensures DigitsValue(a + b) == DigitsValue(a) * Pow10(|b|) + DigitsValue(b)
  {
    if b == [] {
      assert a + b == a;
    } else {
      var b' := b[..|b| - 1];
      var d := DigitValue(b[|b| - 1]);
      assert (a + b)[..|a + b| - 1] == a + b';
      assert (a + b)[|a + b| - 1] == b[|b| - 1];
      DigitsValueAppend(a, b');
      assert DigitsValue(a + b) == DigitsValue(a + b') * 10 + d;
      assert DigitsValue(b) == DigitsValue(b') * 10 + d;
      assert Pow10(|b|) == Pow10(|b'|) * 10;
      Distribute(DigitsValue(a), Pow10(|b'|), DigitsValue(b'), d);
    }
  }

  lemma ScaledSum(w: nat, f: nat, p: nat)
    requires p >= 1
    ensures (w * p + f) as real / p as real == w as real + f as real / p as real
  {
    assert (w * p) as real == w as real * p as real;
  }

  lemma {:induction false} IndexOfFirst(s: string, c: char, k: nat)
    requires k < |s| && s[k] == c && c !in s[..k]
    ensures IndexOf(s, c) == k
  {
    if k > 0 {
      assert s[0] == s[..k][0];
      assert s[1..][..k - 1] == s[..k][1..];
      IndexOfFirst(s[1..], c, k - 1);
    }
  }

  lemma UnsignedText(s: string)
    requires !HasSign(s)
    ensures ParseDecimal(s) == ParseUnsigned(s)
  {
  }

  lemma CutValue(u: string, k: nat, whole: string, frac: string)
    requires k < |u| && u[k] == '.' && '.' !in u[..k] && !HasSign(u)
    requires u[..k] == whole && u[k + 1..] == frac
    requires AllDigits(whole) && AllDigits(frac) && |u| > 1
    ensures ParseDecimal(u)
         == Some(DigitsValue(whole) as real + DigitsValue(frac) as real / Pow10(|frac|) as real)
  {
    IndexOfFirst(u, '.', k);
    UnsignedText(u);
  }

  lemma PointLiteralParts(whole: string, frac: string)
    requires AllDigits(whole) && AllDigits(frac) && |whole| + |frac| > 0
    ensures ParseDecimal(whole + "." + frac)
         == Some(DigitsValue(whole) as real + DigitsValue(frac) as real / Pow10(|frac|) as real)
  {
    var u := whole + "." + frac;
    var k := |whole|;
    assert u[k] == '.';
    assert u[..k] == whole;
    assert u[k + 1..] == frac;
    assert '.' !in whole;
    assert !HasSign(u) by {
      if whole != [] { assert u[0] == whole[0]; }
    }
    CutValue(u, k, whole, frac);
  }

  lemma ScaledDigits(whole: string, frac: string)
    requires AllDigits(whole) && AllDigits(frac)
    ensures AllDigits(whole + frac)
    ensures DigitsValue(whole + frac) as real / Pow10(|frac|) as real
         == DigitsValue(whole) as real + DigitsValue(frac) as real / Pow10(|frac|) as real
  {
    DigitsValueAppend(whole, frac);
    ScaledSum(DigitsValue(whole), DigitsValue(frac), Pow10(|frac|));
  }

  /**
   * A literal with a point denotes its digits read as one integer, scaled down
   * by ten for every digit after the point: "45.90" is 4590 / 100.
   */
  lemma PointLiteralValue(whole: string, frac: string)
    requires AllDigits(whole) && AllDigits(frac) && |whole| + |frac| > 0
    ensures AllDigits(whole + frac)
    ensures ParseDecimal(whole + "." + frac)
         == Some(DigitsValue(whole + frac) as real / Pow10(|frac|) as real)
  {
    PointLiteralParts(whole, frac);
    ScaledDigits(whole, frac);
  }

  /** A literal without a point denotes the integer its digits spell. */
  lemma IntegerLiteralValue(digits: string)
    requires AllDigits(digits) && digits != []
    ensures ParseDecimal(digits) == Some(DigitsValue(digits) as real)
  {
    assert !HasSign(digits) && '.' !in digits;
  }

  /** A leading minus sign negates the value; a leading plus sign keeps it. */
  lemma SignedValue(u: string)
    requires !HasSign(u)
    ensures ParseDecimal("-" + u) == (match ParseDecimal(u) case Some(v) => Some(-v) case None => None)
    ensures ParseDecimal("+" + u) == ParseDecimal(u)
  {
    assert ("-" + u)[1..] == u && ("+" + u)[1..] == u;
  }

  /** Two or more points can never form an amount. */
  lemma SeveralPointsRejected(s: string)
    requires Count(s, '.') >= 2
    ensures ParseDecimal(s) == None
  {
    ParseDecimalAccepts(s);
    if HasSign(s) {
      assert s == [s[0]] + s[1..];
      CountAppend([s[0]], s[1..], '.');
    }
  }

  lemma TwoDigitsValue(hi: char, lo: char)
    requires IsDigit(hi) && IsDigit(lo)
    ensures DigitsValue([hi, lo]) == 10 * DigitValue(hi) + DigitValue(lo)
  {
    assert [hi, lo][..1] == [hi] && [hi][..0] == [];
    assert DigitsValue([hi]) == DigitValue(hi);
  }

  lemma ExampleAmount()
    ensures ParseDecimal("45.90") == Some(45.9)
  {
    assert "45.90" == "45" + "." + "90";
    PointLiteralParts("45", "90");
    TwoDigitsValue('4', '5');
    TwoDigitsValue('9', '0');
    assert Pow10(2) == 100;
  }
}
