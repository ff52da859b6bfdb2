/** `CapacitorValueMatcher.calculate_values`: the candidate capacitances a
    token may stand for, in the order the source lists them. `R` is read as
    a decimal point; a three- or four-digit code is read twice, once with
    its last digit and once with its first digit as the power of ten. The
    values are exact reals. */
module ValueDecoding {
  import opened Wrappers
  import opened Text
  import opened Numbers
  import opened PatternExtraction

  /** `int(t[:-1])`: every digit but the last. */
  function Mantissa(t: string): nat
    requires IsDigitToken(t)
  {
    DigitsValue(t[..|t| - 1])
  }

  /** `int(t[-1])`: the last digit. */
  function Exponent(t: string): nat
    requires IsDigitToken(t)
  {
    DigitValue(t[|t| - 1])
  }

  /** The code read with its last digit as the power of ten. */
  function ExponentReading(t: string): real
    requires IsDigitToken(t)
  {
    (Mantissa(t) * Pow10(Exponent(t))) as real
  }

  /** The extra readings for a last digit of 7, 8 or 9: the mantissa times
      10^-1 and 10^-3 (for 7 and 9) or times 10^-2 (for 8). */
  function FractionalReadings(t: string): seq<real>
    requires IsDigitToken(t)
  {
    var m := Mantissa(t) as real;
    if Exponent(t) == 7 || Exponent(t) == 9 then [m / 10.0, m / 1000.0]
    else if Exponent(t) == 8 then [m / 100.0]
    else []
  }

  /** The code read with its first digit as the power of ten:
      `int(t[1:]) * 10 ** int(t[0])`. */
  function ReversedReading(t: string): real
    requires IsDigitToken(t)
  {
    (DigitsValue(t[1..]) * Pow10(DigitValue(t[0]))) as real
  }

  /** One reading from a `float()` call, or the error it raises. */
  function Single(r: Result<real>): Result<seq<real>> {
    match r
    case Success(v) => Success([v])
    case Failure(e) => Failure(e)
  }

  /** The reading of a token holding `R`: a leading `R` is the point of
      `0.<rest>` (no reading when there is no rest); a single inner `R` is
      the point between the digits around it, an empty side counting as
      `0`; a token with more than one inner `R` has no reading. `float()`
      raises when the pieces are not digits. */
  function DecimalPointReading(t: string): Result<seq<real>>
    requires 'R' in t
  {
    if t[0] == 'R' then
      if |t| == 1 then Success([]) else Single(ParseFloat("0." + t[1..]))
    else if Count(t, 'R') == 1 then
      var k := IndexOf(t, 'R');
      Single(ParseFloat(t[..k] + "." + (if k + 1 == |t| then "0" else t[k + 1..])))
    else
      Success([])
  }

  /** What `calculate_values` gives for a token, in order. */
  function Readings(t: string): Result<seq<real>> {
    if 'R' in t then DecimalPointReading(t)
    else if IsDigitToken(t) then Success([ExponentReading(t)] + FractionalReadings(t) + [ReversedReading(t)])
    else Success([])
  }

  /** With a leading `R`, the reading is `float` of `0.` and the rest, or
      nothing when there is no rest. */
  lemma LeadingRReading(t: string)
    requires |t| > 0 && t[0] == 'R'
    ensures Readings(t) == if |t| == 1 then Success([]) else Single(ParseFloat("0." + t[1..]))
  {
  }

  /** With a single `R` after the first character, the reading is
      `float` of the text around it joined by a point. */
  lemma InnerRReading(t: string, k: nat)
    requires k < |t| && t[k] == 'R' && Count(t, 'R') == 1 && t[0] != 'R'
    ensures Readings(t) == Single(ParseFloat(t[..k] + "." + (if k + 1 == |t| then "0" else t[k + 1..])))
  {
    TwoIndicesCountTwice(t, 'R', k, IndexOf(t, 'R'));
  }

  /** The same, for a token written as the text before the `R`, the `R`
      and the text after it. */
  lemma InnerRPieces(before: string, after: string)
    requires before != [] && 'R' !in before && 'R' !in after
    ensures Readings(before + "R" + after) ==
            Single(ParseFloat(before + "." + (if after == [] then "0" else after)))
  {
    var t := before + "R" + after;
    PlacedOnce(before, 'R', after);
    assert t[..|before|] == before && t[|before| + 1..] == after;
    InnerRReading(t, |before|);
  }

  /** `calculate_values`, building its list step by step as the source
      does. It agrees with `Readings` on every string. */
  method CalculateValues(pattern: string) returns (values: Result<seq<real>>)
    ensures values == Readings(pattern)
  {
    var calculated: seq<real> := [];
    if 'R' in pattern {
      if pattern[0] == 'R' {
        LeadingRReading(pattern);
        var numericPart := pattern[1..];
        if numericPart != [] {
          var decimal := ParseFloat("0." + numericPart);
          assert Readings(pattern) == Single(decimal);
          if decimal.Failure? {
            return Failure(decimal.error);
          }
          calculated := calculated + [decimal.value];
          assert calculated == [decimal.value];
          assert Single(decimal) == Success(calculated);
        }
      } else {
        var parts := Split(pattern, 'R');
        if |parts| == 2 {
          var k := IndexOf(pattern, 'R');
          SplitAtOnlySeparator(pattern, 'R', k);
          var beforeR := if parts[0] != [] then parts[0] else "0";
          var afterR := if parts[1] != [] then parts[1] else "0";
          var decimal := ParseFloat(beforeR + "." + afterR);
          InnerRReading(pattern, k);
          assert beforeR + "." + afterR == pattern[..k] + "." + (if k + 1 == |pattern| then "0" else pattern[k + 1..]);
          assert Readings(pattern) == Single(decimal);
          if decimal.Failure? {
            return Failure(decimal.error);
          }
          calculated := calculated + [decimal.value];
          assert calculated == [decimal.value];
          assert Single(decimal) == Success(calculated);
        }
      }
    } else if IsDigitString(pattern) && (|pattern| == 3 || |pattern| == 4) {
      var digits := pattern;
      if |digits| >= 2 {
        var firstDigits := DigitsValue(digits[..|digits| - 1]);
        var lastDigit := DigitValue(digits[|digits| - 1]);
        calculated := calculated + [(firstDigits * Pow10(lastDigit)) as real];
        if lastDigit == 7 {
          calculated := calculated + [firstDigits as real * 0.1];
          calculated := calculated + [firstDigits as real * 0.001];
        } else if lastDigit == 8 {
          calculated := calculated + [firstDigits as real * 0.01];
        } else if lastDigit == 9 {
          calculated := calculated + [firstDigits as real * 0.1];
          calculated := calculated + [firstDigits as real * 0.001];
        }
        assert calculated == [ExponentReading(pattern)] + FractionalReadings(pattern);
        var firstDigit := DigitValue(digits[0]);
        var remainingDigits := DigitsValue(digits[1..]);
        calculated := calculated + [(remainingDigits * Pow10(firstDigit)) as real];
      }
    }
    return Success(calculated);
  }
}

/** What `calculate_values` promises, token shape by token shape, and for
    every token `extract_patterns` can produce. */
module DecodingProperties {
  import opened Wrappers
  import opened Text
  import opened Numbers
  import opened PatternExtraction
  import opened ExtractionProperties
  import opened ValueDecoding

  /** A token that starts with `R` reads as `0.<rest>`, and as nothing when
      it is `R` alone. */
  lemma LeadingRToken(digits: string)
    requires AllDigits(digits)
    ensures Readings("R" + digits) ==
            Success(if digits == [] then [] else [FractionValue(digits)])
  {
    var t := "R" + digits;
    assert t[0] == 'R' && t[1..] == digits;
    LeadingRReading(t);
    if digits != [] {
      ParseFloatOfFraction(digits);
    }
  }

  /** A token `<before>R` with digits before the `R` and none after it
      reads as `before.0`. */
  lemma TrailingRToken(before: string)
    requires IsDigitString(before)
    ensures Readings(before + "R") == Success([DigitsValue(before) as real])
  {
    InnerRPieces(before, []);
    assert before + "R" + [] == before + "R";
    assert Readings(before + "R") == Single(ParseFloat(before + "." + "0"));
    ParseFloatOfPointed(before, "0");
    ZeroFractions();
    assert DecimalValue(before, "0") == DigitsValue(before) as real;
  }

  /** A token `<before>R<after>` with digits before the `R` reads as
      `before.after`; no digits after the `R` reads as `before.0`. */
  lemma InnerRToken(before: string, after: string)
    requires IsDigitString(before) && AllDigits(after)
    ensures Readings(before + "R" + after) == Success([DecimalValue(before, after)])
  {
    if after == [] {
      TrailingRToken(before);
      assert before + "R" + after == before + "R";
      ZeroFractions();
    } else {
      assert 'R' !in before && 'R' !in after;
      InnerRPieces(before, after);
      ParseFloatOfPointed(before, after);
    }
  }

  /** Every R-notation token other than a bare `R` has exactly one reading. */
  lemma RTokenHasOneReading(t: string)
    requires IsRToken(t) && t != "R"
    ensures Readings(t).Success? && |Readings(t).value| == 1
  {
    assert 'R' in multiset(t);
    var k := IndexOf(t, 'R');
    forall j | k < j < |t|
      ensures IsDigit(t[j])
    {
      TwoIndicesCountTwice(t, 'R', k, j);
    }
    assert AllDigits(t[k + 1..]);
    if k == 0 {
      assert t == "R" + t[1..];
      LeadingRToken(t[1..]);
    } else {
      assert t == t[..k] + "R" + t[k + 1..];
      InnerRToken(t[..k], t[k + 1..]);
    }
  }

  /** A three- or four-digit code: first the last-digit-as-exponent reading,
      last the first-digit-as-exponent reading, and in between the extra
      readings for a last digit of 7, 8 or 9 — four candidates for 7 or 9,
      three for 8, two otherwise. */
  lemma ExponentCodeReadings(t: string)
    requires IsDigitToken(t)
    ensures Readings(t).Success?
    ensures var v, m, x := Readings(t).value, DigitsValue(t[..|t| - 1]), DigitValue(t[|t| - 1]);
            && |v| == (if x == 7 || x == 9 then 4 else if x == 8 then 3 else 2)
            && v[0] == (m * Pow10(x)) as real
            && v[|v| - 1] == (DigitsValue(t[1..]) * Pow10(DigitValue(t[0]))) as real
            && (x == 7 || x == 9 ==> v[1] == m as real / 10.0 && v[2] == m as real / 1000.0)
            && (x == 8 ==> v[1] == m as real / 100.0)
  {
    assert 'R' !in t by {
      assert forall k | 0 <= k < |t| :: t[k] != 'R';
    }
  }

  /** Any other token without an `R` (too short, too long, not all digits)
      has no reading. */
  lemma OtherShapesHaveNoReadings(t: string)
    requires 'R' !in t && !IsDigitToken(t)
    ensures Readings(t) == Success([])
  {
  }

  /** Worked reading: "R47" is 0.47. */
  lemma LeadingRExample()
    ensures Readings("R47") == Success([0.47])
  {
    assert DigitsValue("47") == 47 by { assert "47"[..1] == "4"; }
    LeadingRToken("47");
    assert "R" + "47" == "R47";
  }

  /** Worked reading: "4R7" is 4.7. */
  lemma InnerRExample()
    ensures Readings("4R7") == Success([4.7])
  {
    InnerRToken("4", "7");
    OneDigitEachSide('4', '7');
    assert "4" + "R" + "7" == "4R7";
  }

  /** Worked reading: "4R", with nothing after the `R`, is 4.0. */
  lemma TrailingRExample()
    ensures Readings("4R") == Success([4.0])
  {
    InnerRToken("4", "");
    assert "4" + "R" + "" == "4R";
  }

  /** Worked reading: a bare "R" gives nothing. */
  lemma BareRExample()
    ensures Readings("R") == Success([])
  {
    LeadingRToken("");
    assert "R" + "" == "R";
  }

  /** Worked readings of codes: "104" gives 10·10^4 and 4·10^1; "12" and
      "12345" give nothing. */
  lemma ExponentCodeExamples()
    ensures Readings("104") == Success([100000.0, 40.0])
    ensures Readings("12") == Success([])
    ensures Readings("12345") == Success([])
  {
    ExponentCodeReadings("104");
    assert "104"[..2] == "10" && "104"[1..] == "04";
    assert DigitsValue("10") == 10 by { assert "10"[..1] == "1"; }
    assert DigitsValue("04") == 4 by { assert "04"[..1] == "0"; }
    assert Pow10(4) == 10000 && Pow10(1) == 10;
    var v := Readings("104").value;
    assert v == [v[0], v[1]];
    assert 'R' !in "12345";
  }

  /** Decoding never fails on an extracted token: each R-notation token
      other than a bare `R` gives exactly one candidate, and each digit token
      two to four. */
  lemma ExtractedTokensDecode(p: string, t: string)
    requires t in Tokens(p)
    ensures Readings(t).Success?
    ensures 'R' in t && t != "R" ==> |Readings(t).value| == 1
    ensures 'R' !in t ==> 2 <= |Readings(t).value| <= 4
  {
    TokensShape(p, t);
    if IsDigitToken(t) {
      ExponentCodeReadings(t);
    } else {
      assert 'R' in multiset(t);
      if t == "R" {
        LeadingRToken("");
        assert "R" + "" == t;
      } else {
        RTokenHasOneReading(t);
      }
    }
  }
}
