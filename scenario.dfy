/** One row followed through the whole pipeline: the part number
    "CL10B104KB8NNNC" with the value field "0.1uF". */
module RowScenario {
  import opened Wrappers
  import opened Text
  import opened Numbers
  import opened PatternExtraction
  import opened ValueDecoding
  import opened UnitNormalization
  import opened ValueParsing
  import opened UnitProperties
  import opened DecodingProperties

  const PartNumber := "CL10B104KB8NNNC"

  /** The exponent code "104" sits at index 5 of the part number and is
      extracted. */
  lemma ScenarioToken()
    ensures "104" in Tokens(PartNumber)
  {
    assert Window(PartNumber, 5, 3) == "104";
    assert IsDigitString(Window(PartNumber, 5, 3));
    assert "104" in DigitWindows(PartNumber, 3);
  }

  /** The value field reads as 0.1 with the unit run "uF". */
  lemma ScenarioValueField()
    ensures ParseValueColumn(Some("0.1uF")) == Success(Searched(0.1, Some("uF")))
  {
    assert "0.1" == "0" + "." + "1";
    assert "0.1uF" == "0.1" + "uF";
    assert forall j | 0 <= j < |"uF"| :: InClass(Letters, "uF"[j]);
    NumberThenUnit("0", "1", "uF");
    PointOne();
  }

  /** The decimal literal "0.1" is one tenth. */
  lemma PointOne()
    ensures DecimalValue("0", "1") == 0.1
  {
    OneDigitEachSide('0', '1');
  }

  /** 0.1 uF is 100000 pF. */
  lemma ScenarioTarget()
    ensures ConvertToPf(Some(0.1), "uF") == 100000.0
  {
    assert Lower("uF") == "uf";
    AnyCaseTableKey("uF");
    UnitTable(0.1, "uF");
  }

  /** The row's part number yields a candidate equal to its target: the
      token "104" reads as 100000 pF, exactly the value field's 0.1 uF. */
  lemma ScenarioCandidateMeetsTarget()
    ensures "104" in Tokens(PartNumber)
    ensures Readings("104").Success? && ConvertToPf(Some(0.1), "uF") in Readings("104").value
  {
    ScenarioToken();
    ScenarioValueField();
    ScenarioTarget();
    ExponentCodeExamples();
  }
}
