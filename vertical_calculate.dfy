/// src/vertical/calculate.rs: a parabolic vertical curve solved from the
/// form's text and one known reference point.
module VerticalCalculate {
  import opened Results
  import opened RealMath
  import opened DataTypes
  import opened Vertical
  import opened Text

  datatype VerticalStations = VerticalStations(pvc: Station, pvi: Station, pvt: Station)

  datatype VerticalDimensions = VerticalDimensions(
    incomingGrade: real,
    outgoingGrade: real,
    curveLength: real,
    external: real,
    sightDistance: Option<real>)

  datatype VerticalCurve = VerticalCurve(dimensions: VerticalDimensions, stations: VerticalStations)

  /// The parabola's coefficient a = (g2 - g1) / (2L): the elevation at
  /// distance x past the PVC is elev + g1·x + a·x².
  function Coefficient(g1: real, g2: real, curveLength: real): real
  {
    Div(g2 - g1, 2.0 * curveLength)
  }

  /// `to_dimensions`: both grades and the length are parsed, in that order,
  /// and the external is a·(L/2)².
  function ToDimensions(data: VerticalData): Result<VerticalDimensions, ParseError>
  {
    var incomingGrade :- Grade(data.inputIncomingGrade);
    var outgoingGrade :- Grade(data.inputOutgoingGrade);
    var curveLength :- CoerceElevation(data.inputLength);
    var a := Coefficient(incomingGrade, outgoingGrade, curveLength);
    var external := a * ((curveLength / 2.0) * (curveLength / 2.0));
    Ok(VerticalDimensions(incomingGrade, outgoingGrade, curveLength, external, None))
  }

  // The six conversions between reference points.

  function PvcToPvi(sts: Station, dim: VerticalDimensions): Station
  {
    Station(sts.value + dim.curveLength / 2.0,
            sts.elevation + dim.incomingGrade * dim.curveLength / 2.0)
  }

  function PvcToPvt(sts: Station, dim: VerticalDimensions): Station
  {
    Station(sts.value + dim.curveLength,
            sts.elevation + dim.incomingGrade * dim.curveLength / 2.0 + dim.outgoingGrade * dim.curveLength / 2.0)
  }

  function PviToPvc(sts: Station, dim: VerticalDimensions): Station
  {
    Station(sts.value - dim.curveLength / 2.0,
            sts.elevation - dim.incomingGrade * dim.curveLength / 2.0)
  }

  function PviToPvt(sts: Station, dim: VerticalDimensions): Station
  {
    Station(sts.value + dim.curveLength / 2.0,
            sts.elevation + dim.outgoingGrade * dim.curveLength / 2.0)
  }

  function PvtToPvc(sts: Station, dim: VerticalDimensions): Station
  {
    Station(sts.value - dim.curveLength,
            sts.elevation - dim.incomingGrade * dim.curveLength / 2.0 - dim.outgoingGrade * dim.curveLength / 2.0)
  }

  function PvtToPvi(sts: Station, dim: VerticalDimensions): Station
  {
    Station(sts.value - dim.curveLength / 2.0,
            sts.elevation - dim.outgoingGrade * dim.curveLength / 2.0)
  }

  /// The three stations, given the one named by `from`.
  function StationsFrom(start: Station, from: VerticalDefinition, dim: VerticalDimensions): VerticalStations
  {
    match from
    case PVC => VerticalStations(start, PvcToPvi(start, dim), PvcToPvt(start, dim))
    case PVI => VerticalStations(PviToPvc(start, dim), start, PviToPvt(start, dim))
    case PVT => VerticalStations(PvtToPvc(start, dim), PvtToPvi(start, dim), start)
  }

  /// The station held in the slot that `from` names.
  function Slot(st: VerticalStations, from: VerticalDefinition): Station
  {
    match from
    case PVC => st.pvc
    case PVI => st.pvi
    case PVT => st.pvt
  }

  /// `to_stations`: the start station's value, then its elevation, is
  /// parsed, and the other two stations are derived from it.
  function ToStations(data: VerticalData, dim: VerticalDimensions): Result<VerticalStations, ParseError>
  {
    var value :- StationValue(data.inputStation);
    var elevation :- CoerceElevation(data.inputElevation);
    Ok(StationsFrom(Station(value, elevation), data.inputMethod, dim))
  }

  /// `to_vertical_curve`.
  function ToVerticalCurve(data: VerticalData): Result<VerticalCurve, ParseError>
  {
    var dimensions :- ToDimensions(data);
    var stations :- ToStations(data, dimensions);
    Ok(VerticalCurve(dimensions, stations))
  }

  // ---------------------------------------------------------------------
  // Properties

  /// The dimensions exist exactly when the three fields parse; they hold
  /// the parsed numbers and no sight distance. The first field to fail
  /// gives the error.
  lemma ToDimensionsParses(data: VerticalData)
    ensures ToDimensions(data).Ok? <==>
      Grade(data.inputIncomingGrade).Ok? && Grade(data.inputOutgoingGrade).Ok? && CoerceElevation(data.inputLength).Ok?
    ensures ToDimensions(data).Ok? ==>
      var d := ToDimensions(data).value;
      && d.incomingGrade == Grade(data.inputIncomingGrade).value
      && d.outgoingGrade == Grade(data.inputOutgoingGrade).value
      && d.curveLength == CoerceElevation(data.inputLength).value
      && d.sightDistance == None
    ensures Grade(data.inputIncomingGrade).Err? ==> ToDimensions(data) == Err(GradeMisconfigured)
    ensures Grade(data.inputIncomingGrade).Ok? && Grade(data.inputOutgoingGrade).Err? ==> ToDimensions(data) == Err(GradeMisconfigured)
    ensures Grade(data.inputIncomingGrade).Ok? && Grade(data.inputOutgoingGrade).Ok? && CoerceElevation(data.inputLength).Err? ==>
      ToDimensions(data) == Err(ElevationMisconfigured)
  {
    GradeErrors(data.inputIncomingGrade);
    GradeErrors(data.inputOutgoingGrade);
  }

  lemma GradeErrors(s: string)
    ensures Grade(s).Err? ==> Grade(s).error == GradeMisconfigured
  {
  }

  /// For a curve of nonzero length the external is (g2 - g1)·L/8.
  lemma ExternalClosedForm(g1: real, g2: real, curveLength: real)
    requires curveLength != 0.0
    ensures Coefficient(g1, g2, curveLength) * ((curveLength / 2.0) * (curveLength / 2.0)) == (g2 - g1) * curveLength / 8.0
  {
    var a := Coefficient(g1, g2, curveLength);
    assert a * (2.0 * curveLength) == g2 - g1;
    calc {
      a * ((curveLength / 2.0) * (curveLength / 2.0));
      (a * (2.0 * curveLength)) * curveLength / 8.0;
      (g2 - g1) * curveLength / 8.0;
    }
  }

  lemma ToDimensionsExternal(data: VerticalData)
    requires ToDimensions(data).Ok? && ToDimensions(data).value.curveLength != 0.0
    ensures var d := ToDimensions(data).value;
      d.external == (d.outgoingGrade - d.incomingGrade) * d.curveLength / 8.0
  {
    var d := ToDimensions(data).value;
    ExternalClosedForm(d.incomingGrade, d.outgoingGrade, d.curveLength);
  }

  /// Each conversion is undone by the one in the opposite direction.
  lemma PvcPviInverse(sts: Station, dim: VerticalDimensions)
    ensures PviToPvc(PvcToPvi(sts, dim), dim) == sts
    ensures PvcToPvi(PviToPvc(sts, dim), dim) == sts
  {
  }

  lemma PviPvtInverse(sts: Station, dim: VerticalDimensions)
    ensures PvtToPvi(PviToPvt(sts, dim), dim) == sts
    ensures PviToPvt(PvtToPvi(sts, dim), dim) == sts
  {
  }

  lemma PvcPvtInverse(sts: Station, dim: VerticalDimensions)
    ensures PvtToPvc(PvcToPvt(sts, dim), dim) == sts
    ensures PvcToPvt(PvtToPvc(sts, dim), dim) == sts
  {
  }

  /// Going from PVC to PVT directly is going through the PVI, and the same
  /// the other way.
  lemma ConversionsCompose(sts: Station, dim: VerticalDimensions)
    ensures PvcToPvt(sts, dim) == PviToPvt(PvcToPvi(sts, dim), dim)
    ensures PvtToPvc(sts, dim) == PviToPvc(PvtToPvi(sts, dim), dim)
  {
  }

  /// Whatever the reference point, the stations lie L/2 apart and climb
  /// g1·L/2 on the incoming half and g2·L/2 on the outgoing half.
  lemma StationOffsets(start: Station, from: VerticalDefinition, dim: VerticalDimensions)
    ensures var st := StationsFrom(start, from, dim);
      && st.pvt.value - st.pvc.value == dim.curveLength
      && st.pvi.value - st.pvc.value == dim.curveLength / 2.0
      && st.pvt.value - st.pvi.value == dim.curveLength / 2.0
      && st.pvi.elevation - st.pvc.elevation == dim.incomingGrade * dim.curveLength / 2.0
      && st.pvt.elevation - st.pvi.elevation == dim.outgoingGrade * dim.curveLength / 2.0
  {
  }

  /// The given station sits unchanged in its own slot.
  lemma StartInItsSlot(start: Station, from: VerticalDefinition, dim: VerticalDimensions)
    ensures Slot(StationsFrom(start, from, dim), from) == start
  {
  }

  /// Solving again from any of the three derived stations gives back the
  /// same curve.
  lemma Rebuild(start: Station, from: VerticalDefinition, other: VerticalDefinition, dim: VerticalDimensions)
    ensures var st := StationsFrom(start, from, dim);
      StationsFrom(Slot(st, other), other, dim) == st
  {
  }

  /// `to_stations` succeeds exactly when the station and the elevation
  /// parse, and then puts the parsed station in the slot of `input_method`;
  /// otherwise it fails with the station's error first, then the
  /// elevation's.
  lemma ToStationsSlot(data: VerticalData, dim: VerticalDimensions)
    ensures ToStations(data, dim).Ok? <==> StationValue(data.inputStation).Ok? && CoerceElevation(data.inputElevation).Ok?
    ensures ToStations(data, dim).Ok? ==>
      Slot(ToStations(data, dim).value, data.inputMethod)
        == Station(StationValue(data.inputStation).value, CoerceElevation(data.inputElevation).value)
    ensures StationValue(data.inputStation).Err? ==> ToStations(data, dim) == Err(StationMisconfigured)
    ensures StationValue(data.inputStation).Ok? && CoerceElevation(data.inputElevation).Err? ==>
      ToStations(data, dim) == Err(ElevationMisconfigured)
  {
    StationErrors(data.inputStation);
  }

  lemma StationErrors(s: string)
    ensures StationValue(s).Err? ==> StationValue(s).error == StationMisconfigured
  {
  }

  /// The curve exists exactly when the dimensions and the stations do.
  lemma ToVerticalCurveParts(data: VerticalData)
    ensures ToVerticalCurve(data).Ok? <==>
      ToDimensions(data).Ok? && ToStations(data, ToDimensions(data).value).Ok?
    ensures ToVerticalCurve(data).Ok? ==>
      ToVerticalCurve(data).value == VerticalCurve(ToDimensions(data).value, ToStations(data, ToDimensions(data).value).value)
  {
  }

  // ---------------------------------------------------------------------
  // Worked example: a PVI at 10284+50, elevation 1001.38, grades 0.44%
  // and -0.57%, length 500.

  const ExampleData := VerticalData(PVI, "10284+50", "1001.38", "0.44%", "-0.57%", "500", "100")

  /// The dimensions of three fields that parse to the given numbers.
  lemma ToDimensionsOf(data: VerticalData, g1: real, g2: real, curveLength: real)
    requires Grade(data.inputIncomingGrade) == Ok(g1) && Grade(data.inputOutgoingGrade) == Ok(g2)
    requires CoerceElevation(data.inputLength) == Ok(curveLength) && curveLength != 0.0
    ensures ToDimensions(data) == Ok(VerticalDimensions(g1, g2, curveLength, (g2 - g1) * curveLength / 8.0, None))
  {
    var d := ToDimensions(data).value;
    assert d.incomingGrade == g1 && d.outgoingGrade == g2 && d.curveLength == curveLength && d.sightDistance == None;
    assert d.external == Coefficient(g1, g2, curveLength) * ((curveLength / 2.0) * (curveLength / 2.0));
    ExternalClosedForm(g1, g2, curveLength);
    assert d.external == (g2 - g1) * curveLength / 8.0;
  }

  /// The stations of a start station and elevation that parse to the given
  /// numbers.
  lemma ToStationsOf(data: VerticalData, dim: VerticalDimensions, value: real, elevation: real)
    requires StationValue(data.inputStation) == Ok(value) && CoerceElevation(data.inputElevation) == Ok(elevation)
    ensures ToStations(data, dim) == Ok(StationsFrom(Station(value, elevation), data.inputMethod, dim))
  {
  }

  lemma ExampleFields()
    ensures Grade(ExampleData.inputIncomingGrade) == Ok(0.0044)
    ensures Grade(ExampleData.inputOutgoingGrade) == Ok(-0.0057)
  {
    GradeSmallPercent();
  }

  lemma ExampleLength()
    ensures CoerceElevation(ExampleData.inputLength) == Ok(500.0)
  {
  }

  lemma ExampleElevation()
    ensures CoerceElevation(ExampleData.inputElevation) == Ok(1001.38)
  {
    assert ParseF64("1001.38") == Some(Scale(100138.0, -2));
  }

  lemma ExampleDimensions()
    ensures ToDimensions(ExampleData) == Ok(VerticalDimensions(0.0044, -0.0057, 500.0, -0.63125, None))
  {
    ExampleFields();
    ExampleLength();
    ToDimensionsOf(ExampleData, 0.0044, -0.0057, 500.0);
  }

  lemma ExampleStations()
    ensures ToStations(ExampleData, VerticalDimensions(0.0044, -0.0057, 500.0, -0.63125, None))
      == Ok(VerticalStations(Station(1028200.0, 1000.28), Station(1028450.0, 1001.38), Station(1028700.0, 999.955)))
  {
    Station10284();
    ExampleElevation();
    ToStationsOf(ExampleData, VerticalDimensions(0.0044, -0.0057, 500.0, -0.63125, None), 1028450.0, 1001.38);
  }

  lemma Station10284()
    ensures StationValue("10284+50") == Ok(1028450.0)
  {
    assert PieceValue("10284") == Some(10284.0) && PieceValue("50") == Some(50.0);
    StationOfTwo("10284", "50", 10284.0, 50.0);
    assert "10284" + "+" + "50" == "10284+50";
  }
}
