/// src/horizontal/mod.rs: the reference point a horizontal curve is given
/// by, the raw text of its form, and the steps that solve the curve. The
/// source leaves the geometry itself unwritten (`todo!`), so the model takes
/// it as parameters.
module Horizontal {
  import opened Results
  import opened DataTypes
  import opened HorizontalCalculate

  /// The point of curvature, of intersection, or of tangency.
  datatype HorizontalDefinition = PI | PC | PT {
    /// The next choice in the form's toggle order.
    function Next(): HorizontalDefinition
    {
      match this
      case PC => PI
      case PI => PT
      case PT => PC
    }
  }

  /// The text fields of the horizontal curve form, as typed.
  datatype HorizontalData = HorizontalData(
    inputMethod: HorizontalDefinition,
    inputStation: string,
    inputElevation: string,
    inputIncomingGrade: string,
    inputOutgoingGrade: string,
    inputLength: string,
    inputStationInterval: string,
    inputSightType: SightType,
    inputDesignSpeed: string,
    inputDesignStandard: DesignStandard)

  /// The six station conversions, which the source has not written yet.
  datatype Conversions = Conversions(
    pcToPi: (Station, HorizontalDimensions) -> Station,
    pcToPt: (Station, HorizontalDimensions) -> Station,
    piToPc: (Station, HorizontalDimensions) -> Station,
    piToPt: (Station, HorizontalDimensions) -> Station,
    ptToPc: (Station, HorizontalDimensions) -> Station,
    ptToPi: (Station, HorizontalDimensions) -> Station)

  /// The dimensions the unwritten rest of `to_dimensions` builds from the
  /// curve length and the design speed.
  type Completion = (real, int) -> HorizontalDimensions

  /// `unwrap_or_default` on the parsed design speed.
  function SpeedOrZero(s: string): int
  {
    match CoerceSpeed(s)
    case Ok(v) => v
    case Err(_) => 0
  }

  /// `to_dimensions`: the length must parse; the design speed falls back
  /// to 0 when it does not.
  function ToDimensions(data: HorizontalData, complete: Completion): Result<HorizontalDimensions, ParseError>
  {
    var curveLength :- CoerceElevation(data.inputLength);
    var designSpeed := SpeedOrZero(data.inputDesignSpeed);
    Ok(complete(curveLength, designSpeed))
  }

  /// `to_stations`: the start station's value, then its elevation, is
  /// parsed, and the other two stations are converted from it.
  function ToStations(data: HorizontalData, dim: HorizontalDimensions, conv: Conversions): Result<HorizontalStations, ParseError>
  {
    var value :- StationValue(data.inputStation);
    var elevation :- CoerceElevation(data.inputElevation);
    var start := Station(value, elevation);
    match data.inputMethod
    case PC => Ok(HorizontalStations(start, conv.pcToPi(start, dim), conv.pcToPt(start, dim)))
    case PI => Ok(HorizontalStations(conv.piToPc(start, dim), start, conv.piToPt(start, dim)))
    case PT => Ok(HorizontalStations(conv.ptToPc(start, dim), conv.ptToPi(start, dim), start))
  }

  /// `to_horizontal_curve`.
  function ToHorizontalCurve(data: HorizontalData, complete: Completion, conv: Conversions): Result<HorizontalCurve, ParseError>
  {
    var dimensions :- ToDimensions(data, complete);
    var stations :- ToStations(data, dimensions, conv);
    Ok(HorizontalCurve(dimensions, stations))
  }

  /// The station held in the slot that `from` names.
  function Slot(st: HorizontalStations, from: HorizontalDefinition): Station
  {
    match from
    case PC => st.pc
    case PI => st.pi
    case PT => st.pt
  }

  // ---------------------------------------------------------------------
  // Properties

  lemma NextCycle(d: HorizontalDefinition)
    ensures d.Next() != d
    ensures d.Next().Next().Next() == d
    ensures PC.Next() == PI && PI.Next() == PT && PT.Next() == PC
  {
  }

  /// A length that does not parse fails; a design speed that does not
  /// parse is taken as 0.
  lemma ToDimensionsParses(data: HorizontalData, complete: Completion)
    ensures ToDimensions(data, complete).Ok? <==> CoerceElevation(data.inputLength).Ok?
    ensures CoerceElevation(data.inputLength).Err? ==> ToDimensions(data, complete) == Err(ElevationMisconfigured)
    ensures ToDimensions(data, complete).Ok? ==>
      ToDimensions(data, complete).value
        == complete(CoerceElevation(data.inputLength).value,
                    if CoerceSpeed(data.inputDesignSpeed).Ok? then CoerceSpeed(data.inputDesignSpeed).value else 0)
  {
  }

  /// The stations exist exactly when the start station and its elevation
  /// parse, and the start station then sits in the slot of `input_method`.
  lemma ToStationsSlot(data: HorizontalData, dim: HorizontalDimensions, conv: Conversions)
    ensures ToStations(data, dim, conv).Ok? <==> StationValue(data.inputStation).Ok? && CoerceElevation(data.inputElevation).Ok?
    ensures ToStations(data, dim, conv).Ok? ==>
      Slot(ToStations(data, dim, conv).value, data.inputMethod)
        == Station(StationValue(data.inputStation).value, CoerceElevation(data.inputElevation).value)
  {
  }

  /// A parse failure is reported before any conversion runs: the result is
  /// the same error whatever the conversions are.
  lemma ToStationsErrorFirst(data: HorizontalData, dim: HorizontalDimensions, c1: Conversions, c2: Conversions)
    requires StationValue(data.inputStation).Err? || CoerceElevation(data.inputElevation).Err?
    ensures ToStations(data, dim, c1).Err?
    ensures ToStations(data, dim, c1) == ToStations(data, dim, c2)
  {
  }

  /// The curve exists exactly when the dimensions and the stations do.
  lemma ToHorizontalCurveParts(data: HorizontalData, complete: Completion, conv: Conversions)
    ensures ToHorizontalCurve(data, complete, conv).Ok? <==>
      ToDimensions(data, complete).Ok? && ToStations(data, ToDimensions(data, complete).value, conv).Ok?
    ensures ToHorizontalCurve(data, complete, conv).Ok? ==>
      ToHorizontalCurve(data, complete, conv).value
        == HorizontalCurve(ToDimensions(data, complete).value, ToStations(data, ToDimensions(data, complete).value, conv).value)
  {
  }
}
