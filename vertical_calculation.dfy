/// src/vertical_calculation.rs: the older revision's vertical-curve helpers,
/// which read the PVI, grades and length straight from the input text.
/// Every `unwrap` and `expect` there is a panic; here it is `None`.
module VerticalCalculation {
  import opened Results
  import opened Text
  import opened RealMath
  import opened DataTypes
  import VerticalCalculate

  /// `calc_incoming_grade`: the text as an `f64`, with no trimming and no
  /// `%` handling.
  function CalcIncomingGrade(g1: string): Option<real>
  {
    ParseF64(g1)
  }

  /// `calc_outgoing_grade`.
  function CalcOutgoingGrade(g2: string): Option<real>
  {
    ParseF64(g2)
  }

  /// `calc_curve_length_vertical`.
  function CalcCurveLengthVertical(curveLength: string): Option<real>
  {
    ParseF64(curveLength)
  }

  /// `calc_external_vertical`: a·(L/2)² with a = (g2 - g1)/(2L).
  function CalcExternalVertical(g1: string, g2: string, curveLength: string): Option<real>
  {
    var incoming :- CalcIncomingGrade(g1);
    var outgoing :- CalcOutgoingGrade(g2);
    var length :- CalcCurveLengthVertical(curveLength);
    var a := Div(outgoing - incoming, 2.0 * length);
    Some(a * ((length / 2.0) * (length / 2.0)))
  }

  /// The PVI station text as these helpers read it: split at every `+`
  /// (a trailing empty piece kept), every piece parsed untrimmed, and the
  /// first two combined as first·100 + second.
  function PviValue(pviStation: string): Option<real>
  {
    var pieces :- Pieces(Split(pviStation, '+'), ParseF64);
    if |pieces| < 2 then None else Some(pieces[0] * 100.0 + pieces[1])
  }

  /// `calc_pvi`: the PVI as given.
  function CalcPvi(pviStation: string, pviElevation: string): (r: Option<Station>)
    ensures r.Some? <==> PviValue(pviStation).Some? && ParseF64(pviElevation).Some?
    ensures r.Some? ==> r.value == Station(PviValue(pviStation).value, ParseF64(pviElevation).value)
  {
    var value :- PviValue(pviStation);
    var elevation :- ParseF64(pviElevation);
    Some(Station(value, elevation))
  }

  /// `calc_pvc`: half a length back from the PVI, down the incoming grade.
  function CalcPvc(pviStation: string, pviElevation: string, curveLength: string, g1: real): Option<Station>
  {
    var value :- PviValue(pviStation);
    var elevation :- ParseF64(pviElevation);
    var length :- CalcCurveLengthVertical(curveLength);
    Some(Station(value - length / 2.0, elevation - g1 * length / 2.0))
  }

  /// `calc_pvt`: half a length on from the PVI, along the outgoing grade.
  function CalcPvt(pviStation: string, pviElevation: string, curveLength: string, g2: real): Option<Station>
  {
    var value :- PviValue(pviStation);
    var elevation :- ParseF64(pviElevation);
    var length :- CalcCurveLengthVertical(curveLength);
    Some(Station(value + length / 2.0, elevation + g2 * length / 2.0))
  }

  // ---------------------------------------------------------------------
  // Properties

  /// Grades and lengths are plain numbers: a `%` anywhere, or whitespace,
  /// makes them fail.
  lemma GradesArePlain(s: string, j: nat)
    requires j < |s| && (s[j] == '%' || IsWhitespace(s[j]))
    ensures CalcIncomingGrade(s) == None && CalcOutgoingGrade(s) == None && CalcCurveLengthVertical(s) == None
  {
    ParseRejects(s, j);
  }

  /// Where the text has no whitespace and no trailing `%`, these helpers
  /// read a grade as the later `coerce_grade` does.
  lemma GradeAgreesWithCoerceGrade(s: string)
    requires forall j :: 0 <= j < |s| ==> !IsWhitespace(s[j])
    requires !EndsWith(s, '%')
    ensures CalcIncomingGrade(s).Some? <==> Grade(s).Ok?
    ensures CalcIncomingGrade(s).Some? ==> CalcIncomingGrade(s).value == Grade(s).value
  {
    TrimNoWhitespace(s);
  }

  /// The grade above with its `%` is a failure here but a fraction there.
  lemma PercentGradeDisagrees()
    ensures CalcIncomingGrade("2%") == None
    ensures Grade("2%") == Ok(0.02)
  {
    GradesArePlain("2%", 1);
    assert Grade("2%") == Ok(0.02) by {
      assert Trim("2%") == "2%";
      assert TrimEndMatches("2%", '%') == "2";
    }
  }

  /// For a nonzero length the external is (g2 - g1)·L/8, as in the later
  /// revision.
  lemma ExternalClosedForm(g1: string, g2: string, curveLength: string)
    requires CalcExternalVertical(g1, g2, curveLength).Some?
    requires ParseF64(curveLength).value != 0.0
    ensures CalcIncomingGrade(g1).Some? && CalcOutgoingGrade(g2).Some? && CalcCurveLengthVertical(curveLength).Some?
    ensures CalcExternalVertical(g1, g2, curveLength).value
      == (ParseF64(g2).value - ParseF64(g1).value) * ParseF64(curveLength).value / 8.0
  {
    VerticalCalculate.ExternalClosedForm(ParseF64(g1).value, ParseF64(g2).value, ParseF64(curveLength).value);
  }

  /// The three helpers fail together, and when they succeed the PVC and
  /// PVT lie one length apart, either side of the PVI, climbing g1·L/2
  /// and g2·L/2 to and from it.
  lemma PvcPviPvt(pviStation: string, pviElevation: string, curveLength: string, g1: real, g2: real)
    ensures CalcPvc(pviStation, pviElevation, curveLength, g1).Some?
      <==> CalcPvi(pviStation, pviElevation).Some? && CalcCurveLengthVertical(curveLength).Some?
    ensures CalcPvt(pviStation, pviElevation, curveLength, g2).Some?
      <==> CalcPvc(pviStation, pviElevation, curveLength, g1).Some?
    ensures CalcPvc(pviStation, pviElevation, curveLength, g1).Some? ==>
      var pvc := CalcPvc(pviStation, pviElevation, curveLength, g1).value;
      var pvi := CalcPvi(pviStation, pviElevation).value;
      var pvt := CalcPvt(pviStation, pviElevation, curveLength, g2).value;
      var length := ParseF64(curveLength).value;
      && pvt.value - pvc.value == length
      && pvi.value - pvc.value == length / 2.0
      && pvi.elevation - pvc.elevation == g1 * length / 2.0
      && pvt.elevation - pvi.elevation == g2 * length / 2.0
  {
  }

  /// These helpers agree with the later revision's conversions from the
  /// PVI.
  lemma AgreesWithConversions(pviStation: string, pviElevation: string, curveLength: string, dim: VerticalCalculate.VerticalDimensions)
    requires CalcPvi(pviStation, pviElevation).Some? && CalcCurveLengthVertical(curveLength) == Some(dim.curveLength)
    ensures CalcPvc(pviStation, pviElevation, curveLength, dim.incomingGrade)
      == Some(VerticalCalculate.PviToPvc(CalcPvi(pviStation, pviElevation).value, dim))
    ensures CalcPvt(pviStation, pviElevation, curveLength, dim.outgoingGrade)
      == Some(VerticalCalculate.PviToPvt(CalcPvi(pviStation, pviElevation).value, dim))
  {
    var pvi := CalcPvi(pviStation, pviElevation).value;
    var pvc := CalcPvc(pviStation, pviElevation, curveLength, dim.incomingGrade);
    assert pvc.Some? && pvc.value.value == pvi.value - dim.curveLength / 2.0;
    assert pvc.value.elevation == pvi.elevation - dim.incomingGrade * dim.curveLength / 2.0;
    var expected := VerticalCalculate.PviToPvc(pvi, dim);
    assert expected.value == pvi.value - dim.curveLength / 2.0;
    assert pvc.value == expected;
    var pvt := CalcPvt(pviStation, pviElevation, curveLength, dim.outgoingGrade);
    assert pvt.Some? && pvt.value.value == pvi.value + dim.curveLength / 2.0;
    assert pvt.value.elevation == pvi.elevation + dim.outgoingGrade * dim.curveLength / 2.0;
    var expectedPvt := VerticalCalculate.PviToPvt(pvi, dim);
    assert expectedPvt.value == pvi.value + dim.curveLength / 2.0;
    assert pvt.value == expectedPvt;
  }

  /// Two pieces joined by one `+` are the first times 100 plus the
  /// second, and fail if either fails.
  lemma PviOfTwo(a: string, b: string)
    requires '+' !in a && '+' !in b
    ensures PviValue(a + "+" + b).Some? <==> ParseF64(a).Some? && ParseF64(b).Some?
    ensures PviValue(a + "+" + b).Some? ==> PviValue(a + "+" + b).value == ParseF64(a).value * 100.0 + ParseF64(b).value
  {
    SplitAt(a, '+', b);
    assert a + ['+'] + b == a + "+" + b;
    SplitNone(b, '+');
    var parts := Split(a + "+" + b, '+');
    assert parts == [a, b];
    PiecesAll(parts, ParseF64);
  }

  /// A station without `+` has one piece, and is a failure.
  lemma PviOfOne(a: string)
    requires '+' !in a
    ensures PviValue(a) == None
  {
    SplitNone(a, '+');
    PiecesAll([a], ParseF64);
  }

  /// `10284+50` is 1028450.
  lemma PviValueExample()
    ensures PviValue("10284+50") == Some(1028450.0)
  {
    assert ParseF64("10284") == Some(10284.0) && ParseF64("50") == Some(50.0);
    PviOfTwo("10284", "50");
    assert "10284" + "+" + "50" == "10284+50";
  }

  /// A trailing `+` leaves an empty piece, which does not parse; a space
  /// is not trimmed; one piece is not enough.
  lemma PviValueFailures()
    ensures PviValue("12+") == None
    ensures PviValue("12+ 34") == None
    ensures PviValue("12") == None
  {
    PviOfTwo("12", "");
    assert "12" + "+" + "" == "12+";
    ParseEmpty();
    PviOfTwo("12", " 34");
    assert "12" + "+" + " 34" == "12+ 34";
    ParseRejectsWhitespace(" 34", 0);
    PviOfOne("12");
  }
}
