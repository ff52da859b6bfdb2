/** Python's `int()` on a string of digits, `float()` on a decimal literal,
    and powers of ten, all as exact integers and reals. */
module Numbers {
  import opened Wrappers
  import opened Text

  function Pow10(n: nat): (r: nat)
    ensures r >= 1
  {
    if n == 0 then 1 else 10 * Pow10(n - 1)
  }

  function DigitValue(c: char): (d: nat)
    requires IsDigit(c)
    ensures d <= 9
  {
    c as int - '0' as int
  }

  /** The value of a string of digits, as `int(s)` computes it; leading
      zeros are allowed. The empty string is worth 0: `int()` never sees
      one, but `float()` does, on the empty side of a point. An n-digit
      string is below 10^n. */
  function DigitsValue(s: string): (v: nat)
    requires AllDigits(s)
    ensures v < Pow10(|s|)
  {
    if s == [] then 0
    else
      var init := DigitsValue(s[..|s| - 1]);
      assert init * 10 <= (Pow10(|s| - 1) - 1) * 10;
      init * 10 + DigitValue(s[|s| - 1])
  }

  /** The value of the digits after a decimal point: `0.frac`. */
  function FractionValue(frac: string): real
    requires AllDigits(frac)
  {
    DigitsValue(frac) as real / Pow10(|frac|) as real
  }

  /** The value of the decimal literal `whole.frac`. */
  function DecimalValue(whole: string, frac: string): real
    requires AllDigits(whole) && AllDigits(frac)
  {
    DigitsValue(whole) as real + FractionValue(frac)
  }

  /** The strings made of digits and points that `float()` accepts: at most
      one point and at least one digit ("1", "1.", ".5", "1.5", but not ".",
      "" or "1.2.3"). */
  predicate IsDecimalLiteral(s: string) {
    && (forall i | 0 <= i < |s| :: IsDigit(s[i]) || s[i] == '.')
    && Count(s, '.') <= 1
    && exists i | 0 <= i < |s| :: IsDigit(s[i])
  }

  const FloatError := "could not convert string to float"

  /** `float(s)` on a string of digits and points: the exact value, which
      is never negative. */
  function ParseFloat(s: string): (r: Result<real>)
    ensures r.Success? ==> r.value >= 0.0
  {
    if '.' !in s then
      if IsDigitString(s) then Success(DigitsValue(s) as real) else Failure(FloatError)
    else
      var k := IndexOf(s, '.');
      if AllDigits(s[..k]) && AllDigits(s[k + 1..]) && |s| > 1 then
        Success(DecimalValue(s[..k], s[k + 1..]))
      else
        Failure(FloatError)
  }

  /** `float` succeeds on exactly the decimal literals. */
  lemma ParseFloatAcceptsLiterals(s: string)
    ensures ParseFloat(s).Success? <==> IsDecimalLiteral(s)
  {
    if '.' in s {
      var k := IndexOf(s, '.');
      assert s == s[..k] + [s[k]] + s[k + 1..];
      assert multiset(s) == multiset(s[..k]) + multiset{'.'} + multiset(s[k + 1..]);
      if AllDigits(s[..k]) && AllDigits(s[k + 1..]) && |s| > 1 {
        assert '.' !in s[k + 1..];
        assert IsDigit(s[if k == 0 then 1 else 0]);
      }
    }
  }

  /** `float` of a literal `whole.frac` is its decimal value. */
  lemma ParseFloatOfPointed(whole: string, frac: string)
    requires AllDigits(whole) && AllDigits(frac) && |whole| + |frac| > 0
    ensures ParseFloat(whole + "." + frac) == Success(DecimalValue(whole, frac))
  {
    var s := whole + "." + frac;
    assert s[|whole|] == '.';
    assert '.' !in whole;
    assert s[..|whole|] == whole && s[|whole| + 1..] == frac;
  }

  /** `float("0." + frac)` is the fraction the digits spell. */
  lemma ParseFloatOfFraction(frac: string)
    requires IsDigitString(frac)
    ensures ParseFloat("0." + frac) == Success(FractionValue(frac))
  {
    assert "0." + frac == "0" + "." + frac;
    ParseFloatOfPointed("0", frac);
    assert DigitsValue("0") == 0;
  }

  /** No digits after the point and a single zero after it are both worth
      nothing. */
  lemma ZeroFractions()
    ensures FractionValue("") == 0.0 && FractionValue("0") == 0.0
  {
    assert DigitsValue("0") == 0;
  }

  /** A literal with one digit on each side of the point. */
  lemma OneDigitEachSide(a: char, b: char)
    requires IsDigit(a) && IsDigit(b)
    ensures DecimalValue([a], [b]) == DigitValue(a) as real + DigitValue(b) as real / 10.0
  {
    assert [a][..0] == [] && [b][..0] == [];
    assert DigitsValue([a]) == DigitValue(a) && DigitsValue([b]) == DigitValue(b);
    assert Pow10(1) == 10;
  }
}
