/// src/horizontal_create.rs: the older revision's horizontal curve, built
/// from a map of `key=value` inputs that `nudge_create` first completes.
/// The `horizontal_calculation` module it draws its formulas from is not
/// part of this model: its functions come in as `HorizontalHelpers`, and
/// `acos` comes in as a parameter.
module HorizontalCreate {
  import opened Results
  import opened RealMath
  import opened AngleSystem

  datatype HorizontalStations = HorizontalStations(pc: real, pi: real, pt: real)

  datatype HorizontalDimensions = HorizontalDimensions(
    radius: real,
    curveLength: real,
    tangentDistance: real,
    longChord: real,
    middleOrdinate: real,
    external: real,
    curveLength100: Angle,
    curveAngle: Angle,
    sightDistance: Option<real>)

  datatype HorizontalCurve = HorizontalCurve(dimensions: HorizontalDimensions, stations: HorizontalStations)

  /// The functions of `horizontal_calculation` this file calls.
  datatype HorizontalHelpers = HorizontalHelpers(
    radiusToDa: string -> string,
    piFromPc: (string, string, string) -> string,
    piFromPt: (string, string, string) -> string,
    radius: string -> real,
    curveLength: (string, string) -> real,
    tangentDistance: (string, string) -> real,
    longChord: (string, string) -> real,
    middleOrdinate: (string, string) -> real,
    external: (string, string) -> real,
    curveLength100: string -> Angle,
    curveAngle: string -> Angle,
    pc: (string, real) -> real,
    pi: string -> real,
    pt: (string, real, real) -> real)

  const Da := "Da"
  const R := "R"
  const I := "I"
  const Pi := "PI"
  const Pc := "PC"
  const Pt := "PT"

  // ---------------------------------------------------------------------
  // nudge_create

  /// The degree-of-curve step: kept if given, else derived from the
  /// radius, which must then be given.
  function NudgeDa(given: map<string, string>, h: HorizontalHelpers): Option<map<string, string>>
  {
    if Da in given then Some(given)
    else if R in given then Some(given[Da := h.radiusToDa(given[R])])
    else None
  }

  /// The PI step: kept if given, else derived from the PC if there is one,
  /// else from the PT, either way from the curve angle and the radius too.
  function NudgePi(given: map<string, string>, h: HorizontalHelpers): Option<map<string, string>>
  {
    if Pi in given then Some(given)
    else if Pc in given then
      if I in given && R in given then Some(given[Pi := h.piFromPc(given[I], given[R], given[Pc])]) else None
    else if Pt in given then
      if I in given && R in given then Some(given[Pi := h.piFromPt(given[I], given[R], given[Pt])]) else None
    else None
  }

  /// What `nudge_create` leaves in the map.
  function Nudged(given: map<string, string>, h: HorizontalHelpers): Option<map<string, string>>
  {
    var withDa :- NudgeDa(given, h);
    NudgePi(withDa, h)
  }

  /// The inputs as the mutable map `create` hands to `nudge_create`.
  class Given {
    var entries: map<string, string>

    constructor (entries: map<string, string>)
      ensures this.entries == entries
    {
      this.entries := entries;
    }

    /// `nudge_create`: fills in `Da` and `PI` in place. It fails where the
    /// source panics, and the map is then of no further use.
    method NudgeCreate(h: HorizontalHelpers) returns (ok: bool)
      modifies this
      ensures ok <==> Nudged(old(entries), h).Some?
      ensures ok ==> entries == Nudged(old(entries), h).value
    {
      if Da !in entries {
        if R !in entries {
          return false;
        }
        entries := entries[Da := h.radiusToDa(entries[R])];
      }
      assert NudgeDa(old(entries), h) == Some(entries);
      if Pi !in entries {
        if Pc in entries {
          if I !in entries || R !in entries {
            return false;
          }
          var value := h.piFromPc(entries[I], entries[R], entries[Pc]);
          entries := entries[Pi := value];
        } else if Pt in entries {
          if I !in entries || R !in entries {
            return false;
          }
          var value := h.piFromPt(entries[I], entries[R], entries[Pt]);
          entries := entries[Pi := value];
        } else {
          return false;
        }
      }
      return true;
    }
  }

  /// The inputs from which the PI can be had once `Da` is settled.
  predicate PiSource(given: map<string, string>)
  {
    Pi in given || ((Pc in given || Pt in given) && I in given && R in given)
  }

  /// The nudge succeeds exactly when `Da` or the radius is given and the
  /// PI has a source.
  lemma NudgedSucceeds(given: map<string, string>, h: HorizontalHelpers)
    ensures Nudged(given, h).Some? <==> (Da in given || R in given) && PiSource(given)
  {
    if NudgeDa(given, h).Some? {
      var m := NudgeDa(given, h).value;
      assert forall k :: k != Da ==> (k in m <==> k in given);
    }
  }

  /// After a successful nudge `Da` and the PI are in the map, every given
  /// entry is as it was, and nothing else was added.
  lemma NudgedKeepsEntries(given: map<string, string>, h: HorizontalHelpers)
    requires Nudged(given, h).Some?
    ensures var r := Nudged(given, h).value;
      && Da in r && Pi in r
      && (forall k :: k in given ==> k in r && r[k] == given[k])
      && (forall k :: k in r ==> k in given || k == Da || k == Pi)
  {
  }

  /// A missing `Da` comes from the radius; a missing PI from the PC when
  /// there is one, and from the PT only when there is none.
  lemma NudgedDerivations(given: map<string, string>, h: HorizontalHelpers)
    requires Nudged(given, h).Some?
    ensures var r := Nudged(given, h).value;
      && (Da !in given ==> r[Da] == h.radiusToDa(given[R]))
      && (Pi !in given && Pc in given ==> r[Pi] == h.piFromPc(given[I], given[R], given[Pc]))
      && (Pi !in given && Pc !in given ==> r[Pi] == h.piFromPt(given[I], given[R], given[Pt]))
  {
  }

  /// Nudging a nudged map changes nothing.
  lemma NudgedIdempotent(given: map<string, string>, h: HorizontalHelpers)
    requires Nudged(given, h).Some?
    ensures Nudged(Nudged(given, h).value, h) == Nudged(given, h)
  {
    NudgedKeepsEntries(given, h);
  }

  // ---------------------------------------------------------------------
  // calc_sight_distance

  /// The Caltrans sight distance around a curve of radius R whose inside
  /// has a clear middle ordinate M: S = R / 28.65 * acos((R - M) / R) in
  /// degrees.
  function SightDistance(radius: real, middleOrdinate: real, acos: real -> real): real
  {
    Div(radius, 28.65) * ToDegrees(acos(Div(radius - middleOrdinate, radius)))
  }

  /// Where `acos` inverts `cos`, the sight distance solves the design
  /// relation M = R (1 - cos(28.65 S / R)), the angle in degrees.
  lemma SightDistanceSolves(radius: real, middleOrdinate: real, acos: real -> real, cos: real -> real)
    requires radius != 0.0
    requires cos(acos((radius - middleOrdinate) / radius)) == (radius - middleOrdinate) / radius
    ensures var s := SightDistance(radius, middleOrdinate, acos);
      middleOrdinate == radius * (1.0 - cos(28.65 * s / radius * PI / 180.0))
  {
    var x := (radius - middleOrdinate) / radius;
    var a := acos(x);
    var s := SightDistance(radius, middleOrdinate, acos);
    assert s == radius / 28.65 * (a * 180.0 / PI);
    assert 28.65 * s / radius == a * 180.0 / PI;
    assert 28.65 * s / radius * PI / 180.0 == a;
    assert radius * x == radius - middleOrdinate;
  }

  /// With `acos` in its range [0, pi] and a positive radius the sight
  /// distance lies between 0 and 180 R / 28.65, about the circumference.
  lemma SightDistanceBounds(radius: real, middleOrdinate: real, acos: real -> real)
    requires radius > 0.0
    requires 0.0 <= acos(Div(radius - middleOrdinate, radius)) <= PI
    ensures 0.0 <= SightDistance(radius, middleOrdinate, acos) <= radius / 28.65 * 180.0
  {
    var a := acos(Div(radius - middleOrdinate, radius));
    var d := ToDegrees(a);
    assert 0.0 <= d <= 180.0;
    var k := radius / 28.65;
    assert k > 0.0;
    assert k * d <= k * 180.0;
  }

  /// With no obstruction inside the curve (M = 0) the cosine argument is 1
  /// and the sight distance is what `acos(1)` makes it: 0 for a true
  /// arccosine.
  lemma NoObstruction(radius: real, acos: real -> real)
    requires radius != 0.0 && acos(1.0) == 0.0
    ensures SightDistance(radius, 0.0, acos) == 0.0
  {
    assert Div(radius - 0.0, radius) == 1.0;
  }

  // ---------------------------------------------------------------------
  // create

  datatype CreateError = InputError | Panicked

  /// The dimensions `create` computes from `Da` and `I`, the sight
  /// distance not yet set.
  function DimensionsOf(da: string, i: string, h: HorizontalHelpers): (d: HorizontalDimensions)
    ensures d.sightDistance.None?
    ensures d.radius == h.radius(da) && d.middleOrdinate == h.middleOrdinate(da, i)
    ensures d.tangentDistance == h.tangentDistance(da, i) && d.curveLength == h.curveLength(da, i)
  {
    HorizontalDimensions(
      h.radius(da), h.curveLength(da, i), h.tangentDistance(da, i), h.longChord(da, i),
      h.middleOrdinate(da, i), h.external(da, i), h.curveLength100(da), h.curveAngle(i), None)
  }

  /// `create`: an input error passes through; a failed nudge or a missing
  /// `I` is the source's panic. Otherwise the stations are laid out from
  /// the PI by the tangent distance and the curve length, and the sight
  /// distance is always set.
  function Create(preGiven: Result<map<string, string>, ()>, h: HorizontalHelpers, acos: real -> real)
    : (r: Result<HorizontalCurve, CreateError>)
    ensures r == Err(InputError) <==> preGiven.Err?
    ensures r.Ok? <==> preGiven.Ok? && Nudged(preGiven.value, h).Some? && I in Nudged(preGiven.value, h).value
    ensures r.Ok? ==>
      var given := Nudged(preGiven.value, h).value;
      var d := r.value.dimensions;
      && d.radius == h.radius(given[Da])
      && d.middleOrdinate == h.middleOrdinate(given[Da], given[I])
      && d.sightDistance == Some(SightDistance(d.radius, d.middleOrdinate, acos))
      && r.value.stations.pi == h.pi(given[Pi])
      && r.value.stations.pc == h.pc(given[Pi], d.tangentDistance)
      && r.value.stations.pt == h.pt(given[Pi], d.tangentDistance, d.curveLength)
    ensures r.Ok? ==>
      var given := Nudged(preGiven.value, h).value;
      var d := r.value.dimensions;
      d == DimensionsOf(given[Da], given[I], h).(sightDistance := Some(SightDistance(d.radius, d.middleOrdinate, acos)))
  {
    match preGiven
    case Err(_) => Err(InputError)
    case Ok(entries) =>
      match Nudged(entries, h)
      case None => Err(Panicked)
      case Some(given) =>
        NudgedKeepsEntries(entries, h);
        if I !in given then Err(Panicked)
        else
          var da := given[Da];
          var i := given[I];
          var pi := given[Pi];
          var dimensions := DimensionsOf(da, i, h);
          var stations := HorizontalStations(
            h.pc(pi, dimensions.tangentDistance),
            h.pi(pi),
            h.pt(pi, dimensions.tangentDistance, dimensions.curveLength));
          var curve := HorizontalCurve(dimensions, stations);
          Ok(curve.(dimensions := curve.dimensions.(sightDistance := Some(SightDistance(dimensions.radius, dimensions.middleOrdinate, acos)))))
  }

  /// `create` succeeds exactly on well-formed inputs that give `Da` or the
  /// radius, a source for the PI, and the curve angle.
  lemma CreateSucceeds(entries: map<string, string>, h: HorizontalHelpers, acos: real -> real)
    ensures Create(Ok(entries), h, acos).Ok? <==> (Da in entries || R in entries) && PiSource(entries) && I in entries
  {
    NudgedSucceeds(entries, h);
    if Nudged(entries, h).Some? {
      NudgedKeepsEntries(entries, h);
    }
  }

  /// A created curve's sight distance is the one its radius and middle
  /// ordinate allow, wherever `acos` inverts `cos`.
  lemma CreatedSightDistance(entries: map<string, string>, h: HorizontalHelpers, acos: real -> real, cos: real -> real)
    requires Create(Ok(entries), h, acos).Ok?
    requires var d := Create(Ok(entries), h, acos).value.dimensions;
      && d.radius != 0.0
      && cos(acos((d.radius - d.middleOrdinate) / d.radius)) == (d.radius - d.middleOrdinate) / d.radius
    ensures var d := Create(Ok(entries), h, acos).value.dimensions;
      && d.sightDistance.Some?
      && d.middleOrdinate == d.radius * (1.0 - cos(28.65 * d.sightDistance.value / d.radius * PI / 180.0))
  {
    var d := Create(Ok(entries), h, acos).value.dimensions;
    SightDistanceSolves(d.radius, d.middleOrdinate, acos, cos);
  }
}
