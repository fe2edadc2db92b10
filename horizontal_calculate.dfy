/// src/horizontal/calculate.rs: the solved horizontal (circular) curve and
/// its sight distance compliance check.
module HorizontalCalculate {
  import opened Results
  import opened DataTypes
  import opened Tables
  import Intervals

  datatype HorizontalStations = HorizontalStations(pc: Station, pi: Station, pt: Station)

  /// `curve_length_100` is Da, the angle that 100 feet of arc subtends;
  /// `curve_angle` is the total deflection Δ.
  datatype HorizontalDimensions = HorizontalDimensions(
    radius: real,
    curveLength: real,
    tangent: real,
    longChord: real,
    middleOrdinate: real,
    external: real,
    curveLength100: Intervals.Angle,
    curveAngle: Intervals.Angle,
    designSpeed: int,
    sightDistance: real)

  datatype HorizontalCurve = HorizontalCurve(dimensions: HorizontalDimensions, stations: HorizontalStations)

  datatype Error =
    | DesignSpeedLUTError  // "Design speed isn't specified in the manual."

  /// `is_compliant`: the table's minimum sight distance for the curve's
  /// design speed, scaled by `adjustment`, and whether the curve's sight
  /// distance reaches it.
  function IsCompliant(curve: HorizontalCurve, designStandard: DesignStandard, sightType: SightType, adjustment: real)
    : Result<(bool, real), Error>
  {
    Compliance(GetMinSight(curve.dimensions.designSpeed, designStandard, sightType), curve.dimensions.sightDistance, adjustment)
  }

  /// The verdict for a table lookup's outcome.
  function Compliance(minSight: Option<real>, sightDistance: real, adjustment: real): Result<(bool, real), Error>
  {
    match minSight
    case None => Err(DesignSpeedLUTError)
    case Some(w) => Ok((sightDistance >= w * adjustment, w * adjustment))
  }

  /// The check fails exactly when the table has no entry: an unlisted
  /// speed, or AASHTO's decision sight distance. Otherwise the required
  /// distance is the table's times the adjustment, and the curve complies
  /// exactly when its sight distance is at least that.
  lemma IsCompliantResult(curve: HorizontalCurve, designStandard: DesignStandard, sightType: SightType, adjustment: real)
    ensures var r := IsCompliant(curve, designStandard, sightType, adjustment);
      && (r == Err(DesignSpeedLUTError) <==>
          !ListedSpeed(designStandard, curve.dimensions.designSpeed) || (designStandard == AASHTO && sightType == Decision))
      && (r.Ok? ==> r.value.1 == GetMinSight(curve.dimensions.designSpeed, designStandard, sightType).value * adjustment)
      && (r.Ok? ==> (r.value.0 <==> curve.dimensions.sightDistance >= r.value.1))
  {
    MinSightDefined(curve.dimensions.designSpeed, designStandard, sightType);
  }

  /// With a positive adjustment the required distance is positive.
  lemma RequiredPositive(curve: HorizontalCurve, designStandard: DesignStandard, sightType: SightType, adjustment: real)
    requires adjustment > 0.0
    requires IsCompliant(curve, designStandard, sightType, adjustment).Ok?
    ensures IsCompliant(curve, designStandard, sightType, adjustment).value.1 > 0.0
  {
    MinSightPositive(curve.dimensions.designSpeed, designStandard, sightType);
  }

  /// Only the design speed and the sight distance matter, never the
  /// stations or the other dimensions.
  lemma IsCompliantDependsOn(c1: HorizontalCurve, c2: HorizontalCurve, designStandard: DesignStandard, sightType: SightType, adjustment: real)
    requires c1.dimensions.designSpeed == c2.dimensions.designSpeed
    requires c1.dimensions.sightDistance == c2.dimensions.sightDistance
    ensures IsCompliant(c1, designStandard, sightType, adjustment) == IsCompliant(c2, designStandard, sightType, adjustment)
  {
  }

  /// A longer sight distance never turns a compliant curve non-compliant.
  lemma CompliantMonotone(curve: HorizontalCurve, longer: real, designStandard: DesignStandard, sightType: SightType, adjustment: real)
    requires IsCompliant(curve, designStandard, sightType, adjustment).Ok?
    requires IsCompliant(curve, designStandard, sightType, adjustment).value.0
    requires longer >= curve.dimensions.sightDistance
    ensures var c2 := curve.(dimensions := curve.dimensions.(sightDistance := longer));
      IsCompliant(c2, designStandard, sightType, adjustment).Ok? && IsCompliant(c2, designStandard, sightType, adjustment).value.0
  {
  }

  /// A curve whose sight distance equals the requirement complies: the
  /// comparison is not strict.
  lemma CompliantAtRequirement(curve: HorizontalCurve, designStandard: DesignStandard, sightType: SightType, adjustment: real)
    requires IsCompliant(curve, designStandard, sightType, adjustment).Ok?
    requires curve.dimensions.sightDistance == IsCompliant(curve, designStandard, sightType, adjustment).value.1
    ensures IsCompliant(curve, designStandard, sightType, adjustment).value.0
  {
  }
}
