/**
 Concrete runs of the model: the number coercion on typical inputs and an
 editing session on a small chart.
 */
module Scenarios {
  import opened Wrappers
  import opened JsText
  import opened Types
  import opened Renderer

  lemma SplitAtComma()
    ensures "1,234.5" == "1" + ("," + "234.5")
    ensures "1" + "234.5" == "1234.5"
    ensures StripCommas("1") == "1" && StripCommas("234.5") == "234.5"
    ensures StripCommas(",") == []
  {
    StripCommasOfNoComma("1");
    StripCommasOfNoComma("234.5");
  }

  lemma StripExample()
    ensures StripCommas("1,234.5") == "1234.5"
  {
    SplitAtComma();
    StripCommasAppend(",", "234.5");
    StripCommasAppend("1", "," + "234.5");
  }

  lemma DigitsExample()
    ensures DigitsValue("1234") == 1234 && DigitsValue("5") == 5
  {
    assert "1234"[..3] == "123" && "123"[..2] == "12" && "12"[..1] == "1" && "1"[..0] == "";
    assert "5"[..0] == "";
  }

  lemma MantissaExample()
    ensures Mantissa("1234", "5") == 1234.5
  {
    DigitsExample();
  }

  lemma UnsignedExample()
    ensures ParseUnsignedPrefix("1234.5") == Some(1234.5)
  {
    assert AllDigits("1234") && AllDigits("5");
    assert "1234" + "." + "5" == "1234.5";
    ParsePlainDecimal("1234", "5");
    MantissaExample();
  }

  lemma ParseExample()
    ensures ParseFloat("1234.5") == Some(1234.5)
  {
    assert IsDigit("1234.5"[0]);
    ParseFloatUnsigned("1234.5");
    UnsignedExample();
  }

  /** Thousands separators are dropped before parsing. */
  lemma ValueInputWithSeparator()
    ensures ValueFromInput("1,234.5") == 1234.5
  {
    StripExample();
    ParseExample();
  }

  /** Text that is not a number becomes 0. */
  lemma ValueInputNotANumber()
    ensures ValueFromInput("abc") == 0.0
  {
    ValueWithoutDigitsIsZero("abc");
  }

  /** A one-section document with a four-point BAR chart. */
  const Sample: Document := Document(
    "t", "st", "#000000", "#ffffff",
    [Section("b1", Bar, "Bars", None, None,
      [DataPoint("a", 1.0, None), DataPoint("b", 2.0, None),
       DataPoint("c", 3.0, None), DataPoint("d", 4.0, None)], None)],
    None, None)

  /** Adding a point gives five points ending with the placeholder; pressing
      the type button then turns the BAR chart into a PIE chart and leaves
      the data alone. */
  lemma AddPointThenCycle()
    ensures var d1 := SetSectionData(Sample, 0, AddPoint(Sample.sections[0].data));
      && |d1.sections[0].data| == 5
      && d1.sections[0].data[4] == NewPoint
      && var d2 := CycleChartType(d1, 0);
      && d2.sections[0].chartType == Pie
      && d2.sections[0].data == d1.sections[0].data
  {
  }
}
