/// src/angle_system.rs: an angle held in decimal degrees, in degrees,
/// minutes and seconds, or in radians, and the conversions between them.
/// The `dms_coordinates` crate's conversions are not part of this model:
/// they come in as a `DmsCodec` of two functions.
module AngleSystem {
  import opened Results
  import opened Text
  import opened RealMath

  datatype Bearing = North | NorthEast | East | SouthEast | South | SouthWest | West | NorthWest

  /// `dms_coordinates::DMS`.
  datatype DMS = DMS(degrees: int, minutes: int, seconds: real, bearing: Bearing)

  datatype Angle = DecimalDegrees(degrees: real) | Dms(dms: DMS) | Radians(radians: real)

  /// `DMS::from_decimal_degrees(_, false)` and `DMS::to_decimal_degrees`.
  datatype DmsCodec = DmsCodec(fromDecimalDegrees: real -> DMS, toDecimalDegrees: DMS -> real)

  /// The characters `create_dms` splits at.
  const DmsDelims: Delims := Chars({'\'', '"', 'd'})

  /// `Angle::create_dms`: split at every `d`, `'` and `"`; the first piece
  /// is the degrees and the second the minutes, each an `i32`, the third
  /// the seconds, an `f64`; the bearing is always East. Fewer than three
  /// pieces, or a piece that does not parse, is the source's panic.
  function CreateDms(line: string): (r: Option<Angle>)
    ensures r.Some? ==> r.value.Dms? && r.value.dms.bearing == East
    ensures r.Some? ==> I32Min <= r.value.dms.degrees <= I32Max && I32Min <= r.value.dms.minutes <= I32Max
  {
    var parts := SplitAny(line, DmsDelims);
    if |parts| < 3 then None
    else
      match (ParseI32(parts[0]), ParseI32(parts[1]), ParseF64(parts[2]))
      case (Some(d), Some(m), Some(s)) => Some(Dms(DMS(d, m, s, East)))
      case _ => None
  }

  /// `Angle::value`: the number held by a decimal-degree or radian angle;
  /// a DMS angle has none (the source panics).
  function Value(a: Angle): (r: Option<real>)
    ensures r.None? <==> a.Dms?
    ensures a.DecimalDegrees? ==> r == Some(a.degrees)
    ensures a.Radians? ==> r == Some(a.radians)
  {
    match a
    case DecimalDegrees(n) => Some(n)
    case Radians(n) => Some(n)
    case Dms(_) => None
  }

  /// `Angle::to_dms`: a DMS angle is kept; any other is first measured
  /// in decimal degrees and then handed to the codec.
  function ToDms(a: Angle, codec: DmsCodec): (r: Angle)
    ensures r.Dms?
    ensures a.Dms? ==> r == a
    ensures !a.Dms? ==> r.dms == codec.fromDecimalDegrees(ToDecimalDegrees(a, codec).degrees)
  {
    match a
    case DecimalDegrees(d) => Dms(codec.fromDecimalDegrees(d))
    case Radians(rad) => Dms(codec.fromDecimalDegrees(rad * 180.0 / PI))
    case Dms(_) => a
  }

  /// `Angle::to_decimal_degrees`: a decimal-degree angle is kept, a DMS
  /// angle is read by the codec, and a radian angle is scaled so that
  /// pi radians are 180 degrees.
  function ToDecimalDegrees(a: Angle, codec: DmsCodec): (r: Angle)
    ensures r.DecimalDegrees?
    ensures a.DecimalDegrees? ==> r == a
    ensures a.Dms? ==> r.degrees == codec.toDecimalDegrees(a.dms)
    ensures a.Radians? ==> r.degrees * PI == a.radians * 180.0
  {
    match a
    case Dms(m) => DecimalDegrees(codec.toDecimalDegrees(m))
    case Radians(rad) => DecimalDegrees(rad * 180.0 / PI)
    case DecimalDegrees(_) => a
  }

  /// `Angle::to_radians`: a radian angle is kept; any other is first
  /// measured in decimal degrees and then scaled so that 180 degrees are
  /// pi radians.
  function ToRadians(a: Angle, codec: DmsCodec): (r: Angle)
    ensures r.Radians?
    ensures a.Radians? ==> r == a
    ensures !a.Radians? ==> r.radians * 180.0 == ToDecimalDegrees(a, codec).degrees * PI
  {
    match a
    case Dms(m) => Radians(codec.toDecimalDegrees(m) * PI / 180.0)
    case DecimalDegrees(d) => Radians(d * PI / 180.0)
    case Radians(_) => a
  }

  // ---------------------------------------------------------------------
  // Properties

  /// Fixed points of the scale: 180 degrees are pi radians, 90 degrees
  /// half of that, and 0 is 0 in every measure.
  lemma AngleAnchors(codec: DmsCodec)
    ensures ToRadians(DecimalDegrees(180.0), codec) == Radians(PI)
    ensures ToDecimalDegrees(Radians(PI), codec) == DecimalDegrees(180.0)
    ensures ToRadians(DecimalDegrees(90.0), codec) == Radians(PI / 2.0)
    ensures ToDecimalDegrees(Radians(PI / 2.0), codec) == DecimalDegrees(90.0)
    ensures ToRadians(DecimalDegrees(0.0), codec) == Radians(0.0)
    ensures ToDecimalDegrees(Radians(0.0), codec) == DecimalDegrees(0.0)
  {
    assert 180.0 * PI / 180.0 == PI;
    assert PI * 180.0 / PI == 180.0;
    assert 90.0 * PI / 180.0 == PI / 2.0;
    assert PI / 2.0 * 180.0 / PI == 90.0;
  }

  /// When the codec reads back what it writes, decimal degrees to DMS and
  /// back, and radians to DMS and back to radians, give the angle it
  /// started from.
  lemma DmsRoundTrip(d: real, rad: real, codec: DmsCodec)
    requires forall x :: codec.toDecimalDegrees(codec.fromDecimalDegrees(x)) == x
    ensures ToDecimalDegrees(ToDms(DecimalDegrees(d), codec), codec) == DecimalDegrees(d)
    ensures ToRadians(ToDms(Radians(rad), codec), codec) == Radians(rad)
  {
    var deg := rad * 180.0 / PI;
    assert codec.toDecimalDegrees(codec.fromDecimalDegrees(deg)) == deg;
    assert deg * PI / 180.0 == rad;
  }

  /// Degrees to radians and back, and radians to degrees and back, give
  /// the angle it started from.
  lemma DegreesRadiansRoundTrip(d: real, rad: real, codec: DmsCodec)
    ensures ToDecimalDegrees(ToRadians(DecimalDegrees(d), codec), codec) == DecimalDegrees(d)
    ensures ToRadians(ToDecimalDegrees(Radians(rad), codec), codec) == Radians(rad)
  {
    assert d * PI / 180.0 * 180.0 / PI == d;
    assert rad * 180.0 / PI * PI / 180.0 == rad;
  }

  /// Every conversion leaves an angle already in its form as it is, so
  /// converting twice is converting once.
  lemma ConversionsIdempotent(a: Angle, codec: DmsCodec)
    ensures ToDms(ToDms(a, codec), codec) == ToDms(a, codec)
    ensures ToDecimalDegrees(ToDecimalDegrees(a, codec), codec) == ToDecimalDegrees(a, codec)
    ensures ToRadians(ToRadians(a, codec), codec) == ToRadians(a, codec)
    ensures a.Dms? ==> ToDms(a, codec) == a
    ensures a.DecimalDegrees? ==> ToDecimalDegrees(a, codec) == a
    ensures a.Radians? ==> ToRadians(a, codec) == a
  {
  }

  /// Converting DMS to radians goes through decimal degrees, and radians
  /// to DMS does too.
  lemma ConversionsCompose(a: Angle, codec: DmsCodec)
    ensures a.Dms? ==> ToRadians(a, codec) == ToRadians(ToDecimalDegrees(a, codec), codec)
    ensures a.Radians? ==> ToDms(a, codec) == ToDms(ToDecimalDegrees(a, codec), codec)
  {
  }

  /// Degrees up to the delimiter, minutes up to the next one, seconds up
  /// to a third: any of `d`, `'` and `"` serves at each place, and what
  /// follows the third delimiter is ignored.
  lemma CreateDmsOfParts(deg: string, x: char, min: string, y: char, sec: string, z: char, rest: string)
    requires forall j :: 0 <= j < |deg| ==> !DmsDelims.Has(deg[j])
    requires forall j :: 0 <= j < |min| ==> !DmsDelims.Has(min[j])
    requires forall j :: 0 <= j < |sec| ==> !DmsDelims.Has(sec[j])
    requires DmsDelims.Has(x) && DmsDelims.Has(y) && DmsDelims.Has(z)
    ensures var r := CreateDms(deg + [x] + min + [y] + sec + [z] + rest);
      && (r.Some? <==> ParseI32(deg).Some? && ParseI32(min).Some? && ParseF64(sec).Some?)
      && (r.Some? ==> r.value.dms == DMS(ParseI32(deg).value, ParseI32(min).value, ParseF64(sec).value, East))
  {
    DmsPieces(deg, x, min, y, sec, z, rest);
  }

  /// The first three pieces of such a line are the degrees, minutes and
  /// seconds texts.
  lemma DmsPieces(deg: string, x: char, min: string, y: char, sec: string, z: char, rest: string)
    requires forall j :: 0 <= j < |deg| ==> !DmsDelims.Has(deg[j])
    requires forall j :: 0 <= j < |min| ==> !DmsDelims.Has(min[j])
    requires forall j :: 0 <= j < |sec| ==> !DmsDelims.Has(sec[j])
    requires DmsDelims.Has(x) && DmsDelims.Has(y) && DmsDelims.Has(z)
    ensures var parts := SplitAny(deg + [x] + min + [y] + sec + [z] + rest, DmsDelims);
      |parts| >= 3 && parts[0] == deg && parts[1] == min && parts[2] == sec
  {
    var tail := sec + [z] + rest;
    var middle := min + [y] + tail;
    SplitAnyAt(sec, z, rest, DmsDelims);
    SplitAnyAt(min, y, tail, DmsDelims);
    SplitAnyAt(deg, x, middle, DmsDelims);
    assert deg + [x] + middle == deg + [x] + min + [y] + sec + [z] + rest;
  }

  /// With fewer than two delimiters there are fewer than three pieces, and
  /// no angle.
  lemma CreateDmsNeedsThreePieces(deg: string, x: char, min: string)
    requires forall j :: 0 <= j < |deg| ==> !DmsDelims.Has(deg[j])
    requires forall j :: 0 <= j < |min| ==> !DmsDelims.Has(min[j])
    requires DmsDelims.Has(x)
    ensures CreateDms(deg) == None
    ensures CreateDms(deg + [x] + min) == None
  {
    IndexOfNone(deg, DmsDelims);
    IndexOfNone(min, DmsDelims);
    SplitAnyAt(deg, x, min, DmsDelims);
  }

  /// The source's own example: `60d13'42"` is 60 degrees, 13 minutes and
  /// 42 seconds, bearing East.
  lemma CreateDmsExample()
    ensures CreateDms("60d13'42\"") == Some(Dms(DMS(60, 13, 42.0, East)))
  {
    assert ParseI32("60") == Some(60) && ParseI32("13") == Some(13);
    assert ParseF64("42") == Some(42.0);
    assert "60" + ['d'] + "13" + ['\''] + "42" + ['"'] + "" == "60d13'42\"";
    CreateDmsOfParts("60", 'd', "13", '\'', "42", '"', "");
  }
}
