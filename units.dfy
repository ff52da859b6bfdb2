/** `CapacitorValueMatcher.convert_to_pf`: a magnitude and a unit symbol
    brought to picofarads. */
module UnitNormalization {
  import opened Wrappers
  import opened Text

  /** The scale of each unit symbol the matcher knows, in picofarads. Both
      the ASCII `u` and the micro sign spell micro. */
  const ConversionFactors: map<string, nat> := map[
    "pf" := 1,
    "nf" := 1000,
    "uf" := 1000000,
    "µf" := 1000000,
    "mf" := 1000000000,
    "f" := 1000000000000
  ]

  /** `conversion_factors.get(unit, 1)`: an unknown symbol scales by 1. */
  function Factor(key: string): (f: nat)
    ensures f >= 1
    ensures key !in ConversionFactors ==> f == 1
  {
    if key in ConversionFactors then ConversionFactors[key] else 1
  }

  /** The lookup key of a unit symbol: lower-cased, then stripped. */
  function UnitKey(unit: string): string {
    Strip(Lower(unit))
  }

  /** `convert_to_pf`: a missing magnitude or a zero magnitude is 0 pF;
      otherwise the magnitude times the table's factor for the unit's key,
      or the magnitude itself when the table does not know the key. */
  function ConvertToPf(value: Option<real>, unit: string): (r: real)
    ensures value.None? || value.value == 0.0 ==> r == 0.0
    ensures value.Some? && UnitKey(unit) in ConversionFactors ==>
              r == value.value * ConversionFactors[UnitKey(unit)] as real
    ensures value.Some? && UnitKey(unit) !in ConversionFactors ==> r == value.value
  {
    ScaleByKey(value, UnitKey(unit))
  }

  /** The conversion once the lookup key is known. */
  function ScaleByKey(value: Option<real>, key: string): real {
    if value.None? || value.value == 0.0 then 0.0
    else value.value * Factor(key) as real
  }

  /** As every factor is positive, the result is zero exactly when the
      magnitude is missing or zero, and otherwise has the magnitude's
      sign. */
  lemma ConvertToPfSign(value: Option<real>, unit: string)
    ensures ConvertToPf(value, unit) == 0.0 <==> value.None? || value.value == 0.0
    ensures value.Some? ==> (ConvertToPf(value, unit) > 0.0 <==> value.value > 0.0)
  {
    var key := UnitKey(unit);
    if value.Some? {
      ScaleKeepsSign(value.value, Factor(key));
    }
    assert ConvertToPf(value, unit) == ScaleByKey(value, key);
  }

  /** Two spellings with the same lookup key convert alike. */
  lemma SameKeySameValue(value: Option<real>, unit: string, other: string)
    requires UnitKey(unit) == UnitKey(other)
    ensures ConvertToPf(value, unit) == ConvertToPf(value, other)
  {
  }

  /** The conversion of a symbol whose lookup key is known. */
  lemma ConvertByKey(value: Option<real>, unit: string, key: string)
    requires UnitKey(unit) == key
    ensures ConvertToPf(value, unit) == ScaleByKey(value, key)
  {
  }

  /** A key of the table scales by its factor. */
  lemma ScaleByTableKey(v: real, key: string)
    requires key in ConversionFactors
    ensures ScaleByKey(Some(v), key) == v * ConversionFactors[key] as real
  {
  }

  /** Scaling by a factor of at least 1 keeps the sign. */
  lemma ScaleKeepsSign(v: real, f: nat)
    requires f >= 1
    ensures v * f as real == 0.0 <==> v == 0.0
    ensures v * f as real > 0.0 <==> v > 0.0
    ensures f == 1 ==> v * f as real == v
  {
  }
}

/** The visible part of `parse_value_column`: a raw value field split into
    its first number and its first run of letters. */
module ValueParsing {
  import opened Wrappers
  import opened Text
  import opened Numbers

  /** The two character classes `parse_value_column` searches for:
      `[\d.]` and `[a-zA-Zµ]`. */
  datatype CharClass = DigitsAndDots | Letters

  predicate InClass(cls: CharClass, c: char) {
    match cls
    case DigitsAndDots => IsDigit(c) || c == '.'
    case Letters => 'a' <= c <= 'z' || 'A' <= c <= 'Z' || c == 'µ'
  }

  /** No white space character belongs to either class. */
  lemma SpaceInNoClass(cls: CharClass, c: char)
    requires IsSpace(c)
    ensures !InClass(cls, c)
  {
  }

  /** Where the run of class characters that starts at `i` ends. */
  function ClassRunEnd(cls: CharClass, s: string, i: nat): (e: nat)
    requires i <= |s|
    ensures i <= e <= |s|
    ensures forall j | i <= j < e :: InClass(cls, s[j])
    ensures e == |s| || !InClass(cls, s[e])
    decreases |s| - i
  {
    if i < |s| && InClass(cls, s[i]) then ClassRunEnd(cls, s, i + 1) else i
  }

  /** The first index at or after `from` holding a class character. */
  function FirstInClass(cls: CharClass, s: string, from: nat): (r: Option<nat>)
    requires from <= |s|
    ensures r.Some? ==> from <= r.value < |s| && InClass(cls, s[r.value])
    ensures r.Some? ==> forall j | from <= j < r.value :: !InClass(cls, s[j])
    ensures r.None? ==> forall j | from <= j < |s| :: !InClass(cls, s[j])
    decreases |s| - from
  {
    if from == |s| then None
    else if InClass(cls, s[from]) then Some(from)
    else FirstInClass(cls, s, from + 1)
  }

  /** `re.search(cls + '+', s)`: the leftmost, longest run of class
      characters, if there is any. */
  function Search(cls: CharClass, s: string): (r: Option<string>)
    ensures r.None? <==> forall j | 0 <= j < |s| :: !InClass(cls, s[j])
    ensures r.Some? ==> |r.value| > 0 && forall j | 0 <= j < |r.value| :: InClass(cls, r.value[j])
  {
    match FirstInClass(cls, s, 0)
    case None => None
    case Some(i) => Some(s[i..ClassRunEnd(cls, s, i)])
  }

  /** `s[i..e]` is the leftmost maximal run of class characters in `s`. */
  predicate IsFirstRun(cls: CharClass, s: string, i: nat, e: nat) {
    && i < e <= |s|
    && (forall j | 0 <= j < i :: !InClass(cls, s[j]))
    && (forall j | i <= j < e :: InClass(cls, s[j]))
    && (e == |s| || !InClass(cls, s[e]))
  }

  /** The search finds the leftmost maximal run, and nothing else. */
  lemma SearchFindsFirstRun(cls: CharClass, s: string, i: nat, e: nat)
    requires IsFirstRun(cls, s, i, e)
    ensures Search(cls, s) == Some(s[i..e])
  {
    var start := FirstInClass(cls, s, 0);
    assert InClass(cls, s[i]);
    assert start.Some?;
    assert start.value == i;
    var end := ClassRunEnd(cls, s, i);
  }

  /** What `parse_value_column` has worked out by the end of the visible
      code: either one of its early `(0, 'pf')` answers, or the magnitude
      read from the first number together with the first run of letters
      (if any), from which the unit is then taken. */
  datatype ValueColumn =
    | Returned(magnitude: real, unit: string)
    | Searched(magnitude: real, unitRun: Option<string>)

  /** `parse_value_column` up to the unit search: a missing field or one
      with no digit-or-point run is `(0, 'pf')`; otherwise `float()` of
      that run, which raises when the run is not a decimal literal (".",
      "1.2.3"). */
  function ParseValueColumn(raw: Option<string>): (r: Result<ValueColumn>)
    ensures raw.None? ==> r == Success(Returned(0.0, "pf"))
    ensures r.Success? && r.value.Searched? ==> r.value.magnitude >= 0.0
  {
    if raw.None? then Success(Returned(0.0, "pf"))
    else
      var s := Strip(raw.value);
      match Search(DigitsAndDots, s)
      case None => Success(Returned(0.0, "pf"))
      case Some(number) =>
        match ParseFloat(number)
        case Failure(e) => Failure(e)
        case Success(v) => Success(Searched(v, Search(Letters, s)))
  }
}

/** What unit normalisation promises: the unit table, case and white
    space insensitivity, and the outcomes of parsing a value field. */
module UnitProperties {
  import opened Wrappers
  import opened Text
  import opened Numbers
  import opened UnitNormalization
  import opened ValueParsing

  /** A symbol with no white space at its ends is looked up by its lower
      case. */
  lemma SymbolKey(unit: string)
    requires unit != [] && !IsSpace(unit[0]) && !IsSpace(unit[|unit| - 1])
    ensures UnitKey(unit) == Lower(unit)
  {
    LowerKeepsSpace(unit[0]);
    LowerKeepsSpace(unit[|unit| - 1]);
    StripUnchanged(Lower(unit));
  }

  /** Every key of the table is already lower case with no white space,
      so it is looked up as it is written. */
  lemma TableKeysReadAsWritten(key: string)
    requires key in ConversionFactors
    ensures UnitKey(key) == key
  {
    assert key == "pf" || key == "nf" || key == "uf" || key == "µf" || key == "mf" || key == "f";
    assert key != [] && !IsSpace(key[0]) && !IsSpace(key[|key| - 1]);
    LowerNoUpper(key);
    SymbolKey(key);
  }

  /** A symbol whose lookup key is in the table scales by that key's
      factor. */
  lemma UnitTable(v: real, unit: string)
    requires UnitKey(unit) in ConversionFactors
    ensures ConvertToPf(Some(v), unit) == v * ConversionFactors[UnitKey(unit)] as real
  {
    ConvertByKey(Some(v), unit, UnitKey(unit));
    ScaleByTableKey(v, UnitKey(unit));
  }

  /** Each key of the table, written in any letter case, is looked up as
      that key: "nF" as "nf", "uF" and "µF" as micro, "F" as farad. */
  lemma AnyCaseTableKey(unit: string)
    requires Lower(unit) in ConversionFactors
    ensures UnitKey(unit) == Lower(unit)
  {
    TableKeysReadAsWritten(Lower(unit));
    LowerTwice(unit);
  }

  /** A symbol the table does not know leaves the magnitude as it is. */
  lemma UnknownUnitKeepsValue(v: real, unit: string)
    requires UnitKey(unit) !in ConversionFactors
    ensures ConvertToPf(Some(v), unit) == v
  {
    assert ConvertToPf(Some(v), unit) == ScaleByKey(Some(v), UnitKey(unit));
  }

  /** The worked conversion: 10 nF is 10000 pF. */
  lemma NanofaradExample()
    ensures ConvertToPf(Some(10.0), "nF") == 10000.0
  {
    assert Lower("nF") == "nf";
    AnyCaseTableKey("nF");
    UnitTable(10.0, "nF");
  }

  /** The worked conversions: 0 uF is 0 pF, and an unknown unit leaves 5
      as 5. */
  lemma ZeroAndUnknownExamples()
    ensures ConvertToPf(Some(0.0), "uF") == 0.0
    ensures ConvertToPf(Some(5.0), "xyz") == 5.0
  {
    LowerNoUpper("xyz");
    SymbolKey("xyz");
    UnknownUnitKeepsValue(5.0, "xyz");
  }

  /** `lower` leaves white space alone and never makes white space. */
  lemma LowerKeepsSpace(c: char)
    ensures IsSpace(LowerChar(c)) <==> IsSpace(c)
  {
  }

  lemma {:induction false} LowerTrimStart(s: string)
    ensures Lower(TrimStart(s)) == TrimStart(Lower(s))
  {
    if |s| > 0 {
      LowerKeepsSpace(s[0]);
      assert Lower(s)[1..] == Lower(s[1..]);
      if IsSpace(s[0]) {
        LowerTrimStart(s[1..]);
      }
    }
  }

  lemma {:induction false} LowerTrimEnd(s: string)
    ensures Lower(TrimEnd(s)) == TrimEnd(Lower(s))
  {
    if |s| > 0 {
      LowerKeepsSpace(s[|s| - 1]);
      assert Lower(s)[..|s| - 1] == Lower(s[..|s| - 1]);
      if IsSpace(s[|s| - 1]) {
        LowerTrimEnd(s[..|s| - 1]);
      }
    }
  }

  /** Lower-casing and stripping may be done in either order. */
  lemma LowerStrip(s: string)
    ensures Lower(Strip(s)) == Strip(Lower(s))
  {
    LowerTrimEnd(s);
    LowerTrimStart(TrimEnd(s));
  }

  lemma {:induction false} TrimStartTwice(s: string)
    ensures TrimStart(TrimStart(s)) == TrimStart(s)
  {
    if |s| > 0 && IsSpace(s[0]) {
      TrimStartTwice(s[1..]);
    }
  }

  lemma {:induction false} TrimEndTwice(s: string)
    ensures TrimEnd(TrimEnd(s)) == TrimEnd(s)
  {
    if |s| > 0 && IsSpace(s[|s| - 1]) {
      TrimEndTwice(s[..|s| - 1]);
    }
  }

  /** A string with no white space at its back keeps that after its
      front is trimmed. */
  lemma TrimStartKeepsEnd(s: string)
    requires TrimEnd(s) == s
    ensures TrimEnd(TrimStart(s)) == TrimStart(s)
  {
    var r := TrimStart(s);
    TrimStartShape(s);
    TrimEndShape(s);
    if r != [] {
      assert r[|r| - 1] == s[|s| - 1];
    }
  }

  /** Stripping twice is stripping once. */
  lemma StripTwice(s: string)
    ensures Strip(Strip(s)) == Strip(s)
  {
    var t := TrimEnd(s);
    TrimEndTwice(s);
    TrimStartKeepsEnd(t);
    TrimStartTwice(t);
  }

  /** The unit symbol is read regardless of letter case. */
  lemma CaseInsensitive(value: Option<real>, unit: string)
    ensures ConvertToPf(value, Lower(unit)) == ConvertToPf(value, unit)
  {
    LowerTwice(unit);
    SameKeySameValue(value, Lower(unit), unit);
  }

  /** White space around the unit symbol does not matter. */
  lemma SpaceInsensitive(value: Option<real>, unit: string)
    ensures ConvertToPf(value, Strip(unit)) == ConvertToPf(value, unit)
  {
    LowerStrip(unit);
    StripTwice(Lower(unit));
    SameKeySameValue(value, Strip(unit), unit);
  }

  /** A first run inside a slice whose surroundings hold no class
      character is the first run of the slice too. */
  lemma FirstRunInSlice(cls: CharClass, s: string, a: nat, b: nat, i: nat, e: nat)
    requires a <= b <= |s| && IsFirstRun(cls, s, i, e)
    requires forall j | 0 <= j < a :: !InClass(cls, s[j])
    requires forall j | b <= j < |s| :: !InClass(cls, s[j])
    ensures a <= i && e <= b && IsFirstRun(cls, s[a..b], i - a, e - a)
    ensures s[a..b][i - a..e - a] == s[i..e]
  {
    assert InClass(cls, s[i]);
    assert a <= i < b;
    assert b < |s| ==> !InClass(cls, s[b]);
    assert e <= b;
    var r := s[a..b];
    forall j | 0 <= j < i - a
      ensures !InClass(cls, r[j])
    {
      assert r[j] == s[a + j];
    }
    forall j | i - a <= j < e - a
      ensures InClass(cls, r[j])
    {
      assert r[j] == s[a + j];
    }
    if e < b {
      assert r[e - a] == s[e];
    }
    forall j | 0 <= j < e - i
      ensures r[i - a..e - a][j] == s[i..e][j]
    {
      assert r[i - a + j] == s[i + j];
    }
    assert r[i - a..e - a] == s[i..e];
  }

  /** The search result depends only on the slice outside of which no
      class character lies. */
  lemma SearchInSlice(cls: CharClass, s: string, a: nat, b: nat)
    requires a <= b <= |s|
    requires forall j | 0 <= j < a :: !InClass(cls, s[j])
    requires forall j | b <= j < |s| :: !InClass(cls, s[j])
    ensures Search(cls, s[a..b]) == Search(cls, s)
  {
    var r := s[a..b];
    match FirstInClass(cls, s, 0)
    case None =>
      forall j | 0 <= j < |r|
        ensures !InClass(cls, r[j])
      {
        assert r[j] == s[a + j];
      }
    case Some(i) =>
      var e := ClassRunEnd(cls, s, i);
      assert IsFirstRun(cls, s, i, e);
      FirstRunInSlice(cls, s, a, b, i, e);
      SearchFindsFirstRun(cls, r, i - a, e - a);
  }

  /** Stripping the field first does not change what either search finds,
      since white space belongs to neither class. */
  lemma SearchIgnoresStrip(cls: CharClass, s: string)
    ensures Search(cls, Strip(s)) == Search(cls, s)
  {
    var r := Strip(s);
    var a :| SpaceAround(s, r, a);
    forall j | 0 <= j < a || a + |r| <= j < |s|
      ensures !InClass(cls, s[j])
    {
      SpaceInNoClass(cls, s[j]);
    }
    SearchInSlice(cls, s, a, a + |r|);
  }

  /** `parse_value_column` raises exactly when the first digit-or-point
      run is not a decimal literal (".", "1.2.3"); otherwise its magnitude
      is that literal's value. */
  lemma ParseFailsOnMalformedNumber(raw: string)
    ensures ParseValueColumn(Some(raw)).Failure? <==>
            Search(DigitsAndDots, raw).Some? && !IsDecimalLiteral(Search(DigitsAndDots, raw).value)
    ensures Search(DigitsAndDots, raw).None? ==> ParseValueColumn(Some(raw)) == Success(Returned(0.0, "pf"))
  {
    SearchIgnoresStrip(DigitsAndDots, raw);
    match Search(DigitsAndDots, raw)
    case None =>
    case Some(number) => ParseFloatAcceptsLiterals(number);
  }

  /** A field whose first digit-or-point run reads as `v` parses to `v`,
      together with the field's first run of letters, white space around
      the field notwithstanding. */
  lemma ReadsFirstNumber(raw: string, number: string, v: real)
    requires Search(DigitsAndDots, raw) == Some(number) && ParseFloat(number) == Success(v)
    ensures ParseValueColumn(Some(raw)) == Success(Searched(v, Search(Letters, raw)))
  {
    SearchIgnoresStrip(DigitsAndDots, raw);
    SearchIgnoresStrip(Letters, raw);
  }

  /** In a run of digits and points followed by a run of letters, the
      two searches find exactly those two runs. */
  lemma NumberThenLetters(number: string, unit: string)
    requires |number| > 0 && forall j | 0 <= j < |number| :: InClass(DigitsAndDots, number[j])
    requires |unit| > 0 && forall j | 0 <= j < |unit| :: InClass(Letters, unit[j])
    ensures Search(DigitsAndDots, number + unit) == Some(number)
    ensures Search(Letters, number + unit) == Some(unit)
  {
    var s := number + unit;
    assert forall j | 0 <= j < |number| :: s[j] == number[j] && InClass(DigitsAndDots, s[j]);
    assert forall j | 0 <= j < |number| :: !InClass(Letters, s[j]);
    assert IsFirstRun(DigitsAndDots, s, 0, |number|) by {
      assert !InClass(DigitsAndDots, s[|number|]);
    }
    SearchFindsFirstRun(DigitsAndDots, s, 0, |number|);
    assert IsFirstRun(Letters, s, |number|, |s|);
    SearchFindsFirstRun(Letters, s, |number|, |s|);
    assert s[0..|number|] == number && s[|number|..|s|] == unit;
  }

  /** A field that is a decimal number followed by letters reads as that
      number, with those letters as the unit run: "0.1uF" is 0.1 with
      "uF". */
  lemma NumberThenUnit(whole: string, frac: string, unit: string)
    requires IsDigitString(whole) && IsDigitString(frac)
    requires |unit| > 0 && forall j | 0 <= j < |unit| :: InClass(Letters, unit[j])
    ensures ParseValueColumn(Some(whole + "." + frac + unit)) ==
            Success(Searched(DecimalValue(whole, frac), Some(unit)))
  {
    var number := whole + "." + frac;
    assert forall j | 0 <= j < |number| :: InClass(DigitsAndDots, number[j]);
    NumberThenLetters(number, unit);
    ParseFloatOfPointed(whole, frac);
    ReadsFirstNumber(number + unit, number, DecimalValue(whole, frac));
  }

  /** A field that is a whole number followed by letters reads as that
      number, with those letters as the unit run. */
  lemma WholeNumberThenUnit(whole: string, unit: string)
    requires IsDigitString(whole)
    requires |unit| > 0 && forall j | 0 <= j < |unit| :: InClass(Letters, unit[j])
    ensures ParseValueColumn(Some(whole + unit)) == Success(Searched(DigitsValue(whole) as real, Some(unit)))
  {
    assert forall j | 0 <= j < |whole| :: InClass(DigitsAndDots, whole[j]);
    NumberThenLetters(whole, unit);
    assert '.' !in whole;
    ReadsFirstNumber(whole + unit, whole, DigitsValue(whole) as real);
  }

  /** The worked parse: "100nF" is 100 with the unit run "nF". */
  lemma HundredNanofaradExample()
    ensures ParseValueColumn(Some("100nF")) == Success(Searched(100.0, Some("nF")))
  {
    assert "100nF" == "100" + "nF";
    assert DigitsValue("100") == 100 by {
      assert "100"[..2] == "10" && "10"[..1] == "1";
    }
    WholeNumberThenUnit("100", "nF");
  }
}
