/// src/vertical_create.rs: the older revision's vertical curve, built from
/// a map of `key=value` inputs that `nudge_create` first completes. The
/// `calc_station_pvi_from_*` and `calc_elevation_pvi_from_*` helpers it
/// calls are not part of this model and come in as `PviHelpers`; `sqrt`
/// comes in as a parameter.
module VerticalCreate {
  import opened Results
  import opened Text
  import opened RealMath
  import opened DataTypes
  import opened VerticalCalculation

  datatype VerticalStations = VerticalStations(pvc: Station, pvi: Station, pvt: Station)

  datatype VerticalDimensions = VerticalDimensions(
    incomingGrade: real,
    outgoingGrade: real,
    curveLength: real,
    external: real,
    sightDistance: Option<real>)

  datatype VerticalCurve = VerticalCurve(dimensions: VerticalDimensions, stations: VerticalStations)

  /// The unseen helpers that derive the PVI from the PVC or the PVT.
  datatype PviHelpers = PviHelpers(
    stationFromPvc: (string, string) -> string,
    stationFromPvt: (string, string) -> string,
    elevationFromPvc: (string, string, string) -> string,
    elevationFromPvt: (string, string, string) -> string)

  const PviSt := "PVI-st"
  const PvcSt := "PVC-st"
  const PvtSt := "PVT-st"
  const PviElev := "PVI-elev"
  const PvcElev := "PVC-elev"
  const PvtElev := "PVT-elev"
  const Length := "length"
  const Inc := "inc"
  const Out := "out"

  // ---------------------------------------------------------------------
  // nudge_create

  /// The PVI station step: kept if given, else derived from the PVC
  /// station if there is one, else from the PVT station; the length must
  /// be given to derive it. Anything else is the source's panic.
  function NudgeStation(given: map<string, string>, h: PviHelpers): Option<map<string, string>>
  {
    if PviSt in given then Some(given)
    else if PvcSt in given then
      if Length in given then Some(given[PviSt := h.stationFromPvc(given[PvcSt], given[Length])]) else None
    else if PvtSt in given then
      if Length in given then Some(given[PviSt := h.stationFromPvt(given[PvtSt], given[Length])]) else None
    else None
  }

  /// The PVI elevation step, the same way; from the PVC it also needs the
  /// incoming grade, from the PVT the outgoing one.
  function NudgeElevation(given: map<string, string>, h: PviHelpers): Option<map<string, string>>
  {
    if PviElev in given then Some(given)
    else if PvcElev in given then
      if Length in given && Inc in given then Some(given[PviElev := h.elevationFromPvc(given[PvcElev], given[Length], given[Inc])])
      else None
    else if PvtElev in given then
      if Length in given && Out in given then Some(given[PviElev := h.elevationFromPvt(given[PvtElev], given[Length], given[Out])])
      else None
    else None
  }

  /// What `nudge_create` leaves in the map: the station step, then the
  /// elevation step.
  function Nudged(given: map<string, string>, h: PviHelpers): Option<map<string, string>>
  {
    var withStation :- NudgeStation(given, h);
    NudgeElevation(withStation, h)
  }

  /// The inputs as the mutable map `create` hands to `nudge_create`.
  class Given {
    var entries: map<string, string>

    constructor (entries: map<string, string>)
      ensures this.entries == entries
    {
      this.entries := entries;
    }

    /// `nudge_create`: fills in `PVI-st` and `PVI-elev` in place. It fails
    /// where the source panics, and the map is then of no further use.
    method NudgeCreate(h: PviHelpers) returns (ok: bool)
      modifies this
      ensures ok <==> Nudged(old(entries), h).Some?
      ensures ok ==> entries == Nudged(old(entries), h).value
    {
      if PviSt !in entries {
        if PvcSt in entries {
          if Length !in entries {
            return false;
          }
          var value := h.stationFromPvc(entries[PvcSt], entries[Length]);
          entries := entries[PviSt := value];
        } else if PvtSt in entries {
          if Length !in entries {
            return false;
          }
          var value := h.stationFromPvt(entries[PvtSt], entries[Length]);
          entries := entries[PviSt := value];
        } else {
          return false;
        }
      }
      assert NudgeStation(old(entries), h) == Some(entries);
      if PviElev !in entries {
        if PvcElev in entries {
          if Length !in entries || Inc !in entries {
            return false;
          }
          var value := h.elevationFromPvc(entries[PvcElev], entries[Length], entries[Inc]);
          entries := entries[PviElev := value];
        } else if PvtElev in entries {
          if Length !in entries || Out !in entries {
            return false;
          }
          var value := h.elevationFromPvt(entries[PvtElev], entries[Length], entries[Out]);
          entries := entries[PviElev := value];
        } else {
          return false;
        }
      }
      return true;
    }
  }

  /// The inputs from which the PVI station can be had.
  predicate StationSource(given: map<string, string>)
  {
    PviSt in given || ((PvcSt in given || PvtSt in given) && Length in given)
  }

  /// The inputs from which the PVI elevation can be had.
  predicate ElevationSource(given: map<string, string>)
  {
    || PviElev in given
    || (PvcElev in given && Length in given && Inc in given)
    || (PvcElev !in given && PvtElev in given && Length in given && Out in given)
  }

  /// The nudge succeeds exactly when both the station and the elevation
  /// have a source.
  lemma NudgedSucceeds(given: map<string, string>, h: PviHelpers)
    ensures Nudged(given, h).Some? <==> StationSource(given) && ElevationSource(given)
  {
    if NudgeStation(given, h).Some? {
      var m := NudgeStation(given, h).value;
      assert forall k :: k != PviSt ==> (k in m <==> k in given);
    }
  }

  /// After a successful nudge the PVI station and elevation are in the
  /// map, every given entry is as it was, and nothing else was added.
  lemma NudgedKeepsEntries(given: map<string, string>, h: PviHelpers)
    requires Nudged(given, h).Some?
    ensures var r := Nudged(given, h).value;
      && PviSt in r && PviElev in r
      && (forall k :: k in given ==> k in r && r[k] == given[k])
      && (forall k :: k in r ==> k in given || k == PviSt || k == PviElev)
  {
  }

  /// A missing PVI station comes from the PVC station when there is one,
  /// and from the PVT station only when there is none; the elevation the
  /// same way.
  lemma NudgedPrefersPvc(given: map<string, string>, h: PviHelpers)
    requires Nudged(given, h).Some?
    ensures var r := Nudged(given, h).value;
      && (PviSt !in given && PvcSt in given ==> r[PviSt] == h.stationFromPvc(given[PvcSt], given[Length]))
      && (PviSt !in given && PvcSt !in given ==> r[PviSt] == h.stationFromPvt(given[PvtSt], given[Length]))
      && (PviElev !in given && PvcElev in given ==> r[PviElev] == h.elevationFromPvc(given[PvcElev], given[Length], given[Inc]))
      && (PviElev !in given && PvcElev !in given ==> r[PviElev] == h.elevationFromPvt(given[PvtElev], given[Length], given[Out]))
  {
  }

  /// Nudging a nudged map changes nothing.
  lemma NudgedIdempotent(given: map<string, string>, h: PviHelpers)
    requires Nudged(given, h).Some?
    ensures Nudged(Nudged(given, h).value, h) == Nudged(given, h)
  {
    NudgedKeepsEntries(given, h);
  }

  // ---------------------------------------------------------------------
  // calc_sight_distance

  /// Crest curve, sight distance longer than the curve: from L = 2S - 1329/A.
  function CrestLong(gradeDiff: real, curveLength: real): real
  {
    Div(gradeDiff * curveLength + 1329.0, 2.0 * gradeDiff)
  }

  /// Crest curve, sight distance shorter than the curve: from L = AS²/1329.
  function CrestShort(gradeDiff: real, curveLength: real, sqrt: real -> real): real
  {
    Div(sqrt(1329.0) * sqrt(curveLength), sqrt(gradeDiff))
  }

  /// Sag curve, sight distance longer than the curve: from
  /// L = 2S - (400 + 3.5S)/A.
  function SagLong(gradeDiff: real, curveLength: real): real
  {
    Div(2.0 * (gradeDiff * curveLength + 400.0), 4.0 * gradeDiff - 7.0)
  }

  /// Sag curve, sight distance shorter than the curve, as the source
  /// writes it.
  function SagShort(gradeDiff: real, curveLength: real, sqrt: real -> real): real
  {
    Div(1600.0 * sqrt(curveLength), sqrt(6400.0 * gradeDiff + 49.0 * curveLength) + 7.0 * sqrt(curveLength))
  }

  /// `VerticalCurve::calc_sight_distance`: with A = |g2 - g1|, a crest
  /// (g1 > g2) or sag (g1 < g2) curve takes its long-sight formula when
  /// that exceeds L, else its short-sight formula when that falls below
  /// L, else the source panics; equal grades panic too.
  function CalcSightDistance(dim: VerticalDimensions, sqrt: real -> real): (r: Option<real>)
    ensures r.Some? ==> r.value >= 0.0 && r.value != dim.curveLength
    ensures dim.incomingGrade == dim.outgoingGrade ==> r.None?
  {
    var gradeDiff := Abs(dim.outgoingGrade - dim.incomingGrade);
    var curveLength := dim.curveLength;
    if dim.incomingGrade > dim.outgoingGrade then
      var eq1 := Abs(CrestLong(gradeDiff, curveLength));
      var eq2 := Abs(CrestShort(gradeDiff, curveLength, sqrt));
      if eq1 > curveLength then Some(eq1) else if eq2 < curveLength then Some(eq2) else None
    else if dim.incomingGrade < dim.outgoingGrade then
      var eq1 := Abs(SagLong(gradeDiff, curveLength));
      var eq2 := Abs(SagShort(gradeDiff, curveLength, sqrt));
      if eq1 > curveLength then Some(eq1) else if eq2 < curveLength then Some(eq2) else None
    else None
  }

  /// Which formula the sight distance comes from, for each kind of curve:
  /// the long-sight one of that kind whenever it exceeds L; otherwise the
  /// short-sight one of that kind when it falls below L; otherwise none.
  /// Equal grades give none.
  lemma SightDistanceChoice(dim: VerticalDimensions, sqrt: real -> real)
    ensures var a := Abs(dim.outgoingGrade - dim.incomingGrade);
      var len := dim.curveLength;
      var eq1 := Abs(CrestLong(a, len));
      var eq2 := Abs(CrestShort(a, len, sqrt));
      var r := CalcSightDistance(dim, sqrt);
      dim.incomingGrade > dim.outgoingGrade ==>
        && (eq1 > len ==> r == Some(eq1))
        && (eq1 <= len && eq2 < len ==> r == Some(eq2))
        && (eq1 <= len && eq2 >= len ==> r.None?)
    ensures var a := Abs(dim.outgoingGrade - dim.incomingGrade);
      var len := dim.curveLength;
      var eq1 := Abs(SagLong(a, len));
      var eq2 := Abs(SagShort(a, len, sqrt));
      var r := CalcSightDistance(dim, sqrt);
      dim.incomingGrade < dim.outgoingGrade ==>
        && (eq1 > len ==> r == Some(eq1))
        && (eq1 <= len && eq2 < len ==> r == Some(eq2))
        && (eq1 <= len && eq2 >= len ==> r.None?)
    ensures dim.incomingGrade == dim.outgoingGrade ==> CalcSightDistance(dim, sqrt).None?
  {
  }

  /// The design relations between the grade difference A, the sight
  /// distance S and the curve length L: a crest curve with S > L...
  predicate CrestLongRelation(a: real, s: real, len: real)
  {
    a != 0.0 && len == 2.0 * s - 1329.0 / a
  }

  /// ... a crest curve with S < L ...
  predicate CrestShortRelation(a: real, s: real, len: real)
  {
    a * s * s == 1329.0 * len
  }

  /// ... a sag curve with S > L ...
  predicate SagLongRelation(a: real, s: real, len: real)
  {
    a != 0.0 && len == 2.0 * s - (400.0 + 3.5 * s) / a
  }

  /// ... and a sag curve with S < L, L = AS²/(400 + 3.5S).
  predicate SagShortRelation(a: real, s: real, len: real)
  {
    a * s * s == len * (400.0 + 3.5 * s)
  }

  /// The relation the sag short-sight formula as written keeps instead:
  /// A·S² = L·(400 - 3.5S).
  predicate SagShortWrittenRelation(a: real, s: real, len: real)
  {
    a * s * s == len * (400.0 - 3.5 * s)
  }

  /// What the chosen sight distance S of a crest curve of positive length
  /// satisfies, for a `sqrt` that is exact on the non-negative reals: an S
  /// above L solves L = 2S - 1329/A, and one below L solves L = AS²/1329.
  lemma CrestSightDistanceSolves(dim: VerticalDimensions, sqrt: real -> real)
    requires dim.incomingGrade > dim.outgoingGrade && dim.curveLength > 0.0
    requires forall x :: x >= 0.0 ==> sqrt(x) >= 0.0 && sqrt(x) * sqrt(x) == x
    ensures var a := Abs(dim.outgoingGrade - dim.incomingGrade);
      var r := CalcSightDistance(dim, sqrt);
      r.Some? && r.value > dim.curveLength ==> CrestLongRelation(a, r.value, dim.curveLength)
    ensures var a := Abs(dim.outgoingGrade - dim.incomingGrade);
      var r := CalcSightDistance(dim, sqrt);
      r.Some? && r.value < dim.curveLength ==> CrestShortRelation(a, r.value, dim.curveLength)
  {
    var a := Abs(dim.outgoingGrade - dim.incomingGrade);
    var len := dim.curveLength;
    var eq1 := Abs(CrestLong(a, len));
    var eq2 := Abs(CrestShort(a, len, sqrt));
    assert CalcSightDistance(dim, sqrt) == if eq1 > len then Some(eq1) else if eq2 < len then Some(eq2) else None;
    if eq1 > len {
      assert CalcSightDistance(dim, sqrt) == Some(eq1);
      CrestLongCase(a, len, eq1);
    } else if eq2 < len {
      assert CalcSightDistance(dim, sqrt) == Some(eq2);
      CrestShortCase(a, len, sqrt, eq2);
    } else {
      assert CalcSightDistance(dim, sqrt).None?;
    }
  }

  /// What the chosen sight distance S of a sag curve of positive length
  /// satisfies, for a `sqrt` that is exact on the non-negative reals: an S
  /// above L solves L = 2S - (400 + 3.5S)/A when 4A exceeds 7, and one
  /// below L solves A·S² = L·(400 - 3.5S), the relation the sag
  /// short-sight formula as written keeps.
  lemma SagSightDistanceSolves(dim: VerticalDimensions, sqrt: real -> real)
    requires dim.incomingGrade < dim.outgoingGrade && dim.curveLength > 0.0
    requires forall x :: x >= 0.0 ==> sqrt(x) >= 0.0 && sqrt(x) * sqrt(x) == x
    ensures var a := Abs(dim.outgoingGrade - dim.incomingGrade);
      var r := CalcSightDistance(dim, sqrt);
      r.Some? && r.value > dim.curveLength && 4.0 * a - 7.0 > 0.0 ==>
        SagLongRelation(a, r.value, dim.curveLength)
    ensures var a := Abs(dim.outgoingGrade - dim.incomingGrade);
      var r := CalcSightDistance(dim, sqrt);
      r.Some? && r.value < dim.curveLength ==>
        SagShortWrittenRelation(a, r.value, dim.curveLength)
  {
    var a := Abs(dim.outgoingGrade - dim.incomingGrade);
    var len := dim.curveLength;
    var eq1 := Abs(SagLong(a, len));
    var eq2 := Abs(SagShort(a, len, sqrt));
    assert CalcSightDistance(dim, sqrt) == if eq1 > len then Some(eq1) else if eq2 < len then Some(eq2) else None;
    if eq1 > len {
      assert CalcSightDistance(dim, sqrt) == Some(eq1);
      if 4.0 * a - 7.0 > 0.0 {
        SagLongCase(a, len, eq1);
      }
    } else if eq2 < len {
      assert CalcSightDistance(dim, sqrt) == Some(eq2);
      SagShortCase(a, len, sqrt, eq2);
    } else {
      assert CalcSightDistance(dim, sqrt).None?;
    }
  }

  /// A crest long-sight value, for positive A and L, is positive and
  /// solves L = 2S - 1329/A.
  lemma CrestLongCase(a: real, len: real, s: real)
    requires a > 0.0 && len > 0.0
    requires s == Abs(CrestLong(a, len))
    ensures CrestLongRelation(a, s, len)
  {
    var x := CrestLong(a, len);
    assert x * (2.0 * a) == a * len + 1329.0;
    assert x > 0.0;
    CrestLongSolves(a, len);
  }

  /// A crest short-sight value, with an exact `sqrt`, solves L = AS²/1329.
  lemma CrestShortCase(a: real, len: real, sqrt: real -> real, s: real)
    requires a > 0.0 && len > 0.0
    requires forall x :: x >= 0.0 ==> sqrt(x) >= 0.0 && sqrt(x) * sqrt(x) == x
    requires s == Abs(CrestShort(a, len, sqrt))
    ensures CrestShortRelation(a, s, len)
  {
    assert sqrt(a) * sqrt(a) == a && sqrt(a) > 0.0;
    assert sqrt(len) * sqrt(len) == len;
    assert sqrt(1329.0) * sqrt(1329.0) == 1329.0;
    var y := CrestShort(a, len, sqrt);
    CrestShortSolves(a, len, sqrt);
    assert a * Abs(y) * Abs(y) == a * y * y;
  }

  /// A sag long-sight value, for positive L and 4A above 7, is positive
  /// and solves L = 2S - (400 + 3.5S)/A.
  lemma SagLongCase(a: real, len: real, s: real)
    requires a > 0.0 && 4.0 * a - 7.0 > 0.0 && len > 0.0
    requires s == Abs(SagLong(a, len))
    ensures SagLongRelation(a, s, len)
  {
    var x := SagLong(a, len);
    assert x * (4.0 * a - 7.0) == 2.0 * (a * len + 400.0);
    assert x > 0.0;
    SagLongSolves(a, len);
  }

  /// A sag short-sight value as written, with an exact `sqrt`, is positive
  /// and solves A·S² = L·(400 - 3.5S).
  lemma SagShortCase(a: real, len: real, sqrt: real -> real, s: real)
    requires a > 0.0 && len > 0.0
    requires forall x :: x >= 0.0 ==> sqrt(x) >= 0.0 && sqrt(x) * sqrt(x) == x
    requires s == Abs(SagShort(a, len, sqrt))
    ensures SagShortWrittenRelation(a, s, len)
  {
    assert sqrt(len) * sqrt(len) == len && sqrt(len) > 0.0;
    var d := 6400.0 * a + 49.0 * len;
    assert sqrt(d) >= 0.0 && sqrt(d) * sqrt(d) == d;
    var y := SagShort(a, len, sqrt);
    var w := sqrt(d) + 7.0 * sqrt(len);
    assert w > 0.0;
    assert y * w == 1600.0 * sqrt(len);
    assert y > 0.0;
    SagShortAsWritten(a, len, sqrt);
  }

  /// The crest long-sight value solves L = 2S - 1329/A.
  lemma CrestLongSolves(gradeDiff: real, curveLength: real)
    requires gradeDiff != 0.0
    ensures curveLength == 2.0 * CrestLong(gradeDiff, curveLength) - 1329.0 / gradeDiff
  {
    var s := CrestLong(gradeDiff, curveLength);
    assert s * (2.0 * gradeDiff) == gradeDiff * curveLength + 1329.0;
  }

  /// Where `sqrt` is exact, the crest short-sight value solves L = AS²/1329.
  lemma CrestShortSolves(gradeDiff: real, curveLength: real, sqrt: real -> real)
    requires gradeDiff > 0.0 && sqrt(gradeDiff) > 0.0 && sqrt(gradeDiff) * sqrt(gradeDiff) == gradeDiff
    requires sqrt(1329.0) * sqrt(1329.0) == 1329.0 && sqrt(curveLength) * sqrt(curveLength) == curveLength
    ensures gradeDiff * CrestShort(gradeDiff, curveLength, sqrt) * CrestShort(gradeDiff, curveLength, sqrt) == 1329.0 * curveLength
  {
    var s := CrestShort(gradeDiff, curveLength, sqrt);
    var p := sqrt(1329.0) * sqrt(curveLength);
    assert s * sqrt(gradeDiff) == p;
    assert p * p == 1329.0 * curveLength;
    calc {
      gradeDiff * s * s;
      (s * sqrt(gradeDiff)) * (s * sqrt(gradeDiff));
      p * p;
    }
  }

  /// The sag long-sight value solves L = 2S - (400 + 3.5S)/A.
  lemma SagLongSolves(gradeDiff: real, curveLength: real)
    requires gradeDiff != 0.0 && 4.0 * gradeDiff - 7.0 != 0.0
    ensures var s := SagLong(gradeDiff, curveLength);
      curveLength == 2.0 * s - (400.0 + 3.5 * s) / gradeDiff
  {
    var s := SagLong(gradeDiff, curveLength);
    assert s * (4.0 * gradeDiff - 7.0) == 2.0 * (gradeDiff * curveLength + 400.0);
    var t := 400.0 + 3.5 * s;
    assert gradeDiff * curveLength == 2.0 * gradeDiff * s - t;
    assert (2.0 * s - curveLength) * gradeDiff == t;
    DivideBack(t, gradeDiff, 2.0 * s - curveLength);
  }

  lemma DivideBack(x: real, y: real, q: real)
    requires y != 0.0 && q * y == x
    ensures x / y == q
  {
  }

  // ---------------------------------------------------------------------
  // The sag short-sight formula

  /// The sag short-sight formula as written solves A·S² = L·(400 - 3.5S),
  /// not the design relation L = AS²/(400 + 3.5S): the sign before 7√L
  /// in its denominator is the other root's.
  lemma SagShortAsWritten(gradeDiff: real, curveLength: real, sqrt: real -> real)
    requires gradeDiff > 0.0 && curveLength > 0.0
    requires sqrt(curveLength) > 0.0 && sqrt(curveLength) * sqrt(curveLength) == curveLength
    requires var d := 6400.0 * gradeDiff + 49.0 * curveLength; sqrt(d) >= 0.0 && sqrt(d) * sqrt(d) == d
    ensures var s := SagShort(gradeDiff, curveLength, sqrt);
      gradeDiff * s * s == curveLength * (400.0 - 3.5 * s)
  {
    var u := sqrt(curveLength);
    var v := sqrt(6400.0 * gradeDiff + 49.0 * curveLength);
    var w := v + 7.0 * u;
    assert w > 0.0;
    var s := SagShort(gradeDiff, curveLength, sqrt);
    assert s * w == 1600.0 * u;
    SagAlgebra(gradeDiff, u, v, s, -7.0);
  }

  /// The sag short-sight formula with the sign corrected:
  /// S = 1600√L / (√(6400A + 49L) - 7√L).
  function CorrectedSagShort(gradeDiff: real, curveLength: real, sqrt: real -> real): real
  {
    Div(1600.0 * sqrt(curveLength), sqrt(6400.0 * gradeDiff + 49.0 * curveLength) - 7.0 * sqrt(curveLength))
  }

  /// The corrected value solves the design relation A·S² = L·(400 + 3.5S).
  lemma CorrectedSagShortSolves(gradeDiff: real, curveLength: real, sqrt: real -> real)
    requires gradeDiff > 0.0 && curveLength > 0.0
    requires sqrt(curveLength) > 0.0 && sqrt(curveLength) * sqrt(curveLength) == curveLength
    requires var d := 6400.0 * gradeDiff + 49.0 * curveLength; sqrt(d) >= 0.0 && sqrt(d) * sqrt(d) == d
    ensures var s := CorrectedSagShort(gradeDiff, curveLength, sqrt);
      s > 0.0 && gradeDiff * s * s == curveLength * (400.0 + 3.5 * s)
    ensures SagShortRelation(gradeDiff, CorrectedSagShort(gradeDiff, curveLength, sqrt), curveLength)
  {
    var u := sqrt(curveLength);
    var v := sqrt(6400.0 * gradeDiff + 49.0 * curveLength);
    assert v * v > (7.0 * u) * (7.0 * u);
    var w := v - 7.0 * u;
    assert w > 0.0;
    var s := CorrectedSagShort(gradeDiff, curveLength, sqrt);
    assert s * w == 1600.0 * u;
    SagAlgebra(gradeDiff, u, v, s, 7.0);
  }

  /// With S·(v + c·u) = 1600u and v² = 6400A + 49u², c = ±7 gives
  /// A·S² = u²·(400 - (c/2)·S)... written out for both signs.
  lemma SagAlgebra(a: real, u: real, v: real, s: real, c: real)
    requires c == 7.0 || c == -7.0
    requires u > 0.0 && v * v == 6400.0 * a + 49.0 * (u * u)
    requires s * (v - c * u) == 1600.0 * u
    ensures a * s * s == (u * u) * (400.0 + (c / 2.0) * s)
  {
    // s·v = 1600u + c·u·s, so (s·v)² = s²·v² gives a relation in u and s alone.
    assert s * v == 1600.0 * u + c * u * s;
    assert (s * v) * (s * v) == (s * s) * (v * v);
    assert (s * s) * (v * v) == 6400.0 * a * s * s + 49.0 * (u * u) * (s * s);
    assert (1600.0 * u + c * u * s) * (1600.0 * u + c * u * s)
      == (u * u) * (2560000.0 + 3200.0 * c * s + 49.0 * s * s);
    assert 6400.0 * a * s * s == (u * u) * (2560000.0 + 3200.0 * c * s);
  }

  /// A worked sag curve: grades -4.5 and 4.5 (A = 9) over L = 100, where
  /// √100 = 10 and √62500 = 250. The source returns 50, which breaks the
  /// design relation; the corrected formula gives 800/9, which keeps it.
  lemma SagExample(sqrt: real -> real)
    requires sqrt(100.0) == 10.0 && sqrt(62500.0) == 250.0
    ensures CalcSightDistance(VerticalDimensions(-4.5, 4.5, 100.0, 0.0, None), sqrt) == Some(50.0)
    ensures 9.0 * 50.0 * 50.0 != 100.0 * (400.0 + 3.5 * 50.0)
    ensures CorrectedSagShort(9.0, 100.0, sqrt) == 800.0 / 9.0
    ensures 9.0 * (800.0 / 9.0) * (800.0 / 9.0) == 100.0 * (400.0 + 3.5 * (800.0 / 9.0))
  {
    assert Abs(4.5 - -4.5) == 9.0;
    assert 6400.0 * 9.0 + 49.0 * 100.0 == 62500.0;
    assert SagLong(9.0, 100.0) == 2600.0 / 29.0;
  }

  // ---------------------------------------------------------------------
  // create

  datatype CreateError = InputError | Panicked

  /// The dimensions `create` reads from the nudged map: both grades and
  /// the length parsed, and the external from them; the sight distance is
  /// not yet set.
  function DimensionsOf(given: map<string, string>): (r: Option<VerticalDimensions>)
    ensures r.Some? ==> Inc in given && Out in given && Length in given
    ensures r.Some? ==>
      && CalcIncomingGrade(given[Inc]) == Some(r.value.incomingGrade)
      && CalcOutgoingGrade(given[Out]) == Some(r.value.outgoingGrade)
      && CalcCurveLengthVertical(given[Length]) == Some(r.value.curveLength)
      && CalcExternalVertical(given[Inc], given[Out], given[Length]) == Some(r.value.external)
      && r.value.sightDistance.None?
  {
    if Inc !in given || Out !in given || Length !in given then None
    else
      var g1 :- CalcIncomingGrade(given[Inc]);
      var g2 :- CalcOutgoingGrade(given[Out]);
      var length :- CalcCurveLengthVertical(given[Length]);
      Some(VerticalDimensions(g1, g2, length, CalcExternalVertical(given[Inc], given[Out], given[Length]).value, None))
  }

  /// The stations `create` computes from the PVI with the parsed grades.
  function StationsOf(given: map<string, string>, g1: real, g2: real): (r: Option<VerticalStations>)
    requires PviSt in given && PviElev in given && Length in given
    ensures r.Some? <==> CalcPvi(given[PviSt], given[PviElev]).Some? && CalcCurveLengthVertical(given[Length]).Some?
    ensures r.Some? ==>
      var length := CalcCurveLengthVertical(given[Length]).value;
      && Some(r.value.pvi) == CalcPvi(given[PviSt], given[PviElev])
      && r.value.pvt.value - r.value.pvc.value == length
      && r.value.pvi.value - r.value.pvc.value == length / 2.0
      && r.value.pvi.elevation - r.value.pvc.elevation == g1 * length / 2.0
      && r.value.pvt.elevation - r.value.pvi.elevation == g2 * length / 2.0
  {
    PvcPviPvt(given[PviSt], given[PviElev], given[Length], g1, g2);
    var pvc :- CalcPvc(given[PviSt], given[PviElev], given[Length], g1);
    Some(VerticalStations(pvc, CalcPvi(given[PviSt], given[PviElev]).value,
                          CalcPvt(given[PviSt], given[PviElev], given[Length], g2).value))
  }

  /// `VerticalCurve::create` without its inspection printout: a failed
  /// input read is passed on; after the nudge the PVI, grades and length
  /// are read, the dimensions and the three stations computed, and the
  /// sight distance set last. Every `unwrap` or `expect` that fails, and
  /// every panic below them, is `Panicked`.
  function Create(preGiven: Result<map<string, string>, ()>, h: PviHelpers, sqrt: real -> real): (r: Result<VerticalCurve, CreateError>)
    ensures r.Err? && r.error == InputError <==> preGiven.Err?
    ensures r.Ok? ==> Nudged(preGiven.value, h).Some? && DimensionsOf(Nudged(preGiven.value, h).value).Some?
    ensures r.Ok? ==> r.value.dimensions.sightDistance.Some? && r.value.dimensions.sightDistance.value >= 0.0
    ensures r.Ok? ==>
      var given := Nudged(preGiven.value, h).value;
      var dimensions := DimensionsOf(given).value;
      && PviSt in given && PviElev in given
      && StationsOf(given, dimensions.incomingGrade, dimensions.outgoingGrade) == Some(r.value.stations)
      && r.value.dimensions == dimensions.(sightDistance := CalcSightDistance(dimensions, sqrt))
  {
    if preGiven.Err? then Err(InputError)
    else
      match Nudged(preGiven.value, h)
      case None => Err(Panicked)
      case Some(given) =>
        NudgedKeepsEntries(preGiven.value, h);
        match DimensionsOf(given)
        case None => Err(Panicked)
        case Some(dimensions) =>
          match StationsOf(given, dimensions.incomingGrade, dimensions.outgoingGrade)
          case None => Err(Panicked)
          case Some(stations) =>
            var curve := VerticalCurve(dimensions, stations);
            match CalcSightDistance(curve.dimensions, sqrt)
            case Some(s) => Ok(curve.(dimensions := curve.dimensions.(sightDistance := Some(s))))
            case None => Err(Panicked)
  }

  /// `create` succeeds exactly when the nudge does, the grades, length
  /// and PVI parse, and the sight distance is found.
  lemma CreateSucceeds(entries: map<string, string>, h: PviHelpers, sqrt: real -> real)
    ensures Create(Ok(entries), h, sqrt).Ok? <==>
      && StationSource(entries) && ElevationSource(entries)
      && var given := Nudged(entries, h).value;
      && DimensionsOf(given).Some?
      && CalcPvi(given[PviSt], given[PviElev]).Some?
      && CalcSightDistance(DimensionsOf(given).value, sqrt).Some?
  {
    NudgedSucceeds(entries, h);
    if Nudged(entries, h).Some? {
      NudgedKeepsEntries(entries, h);
    }
  }

  /// A created curve's stations are those `StationsOf` gives for its
  /// grades, so the PVC and PVT lie one length apart either side of the
  /// PVI; and its sight distance is the one computed from its own
  /// dimensions.
  lemma CreatedGeometry(preGiven: Result<map<string, string>, ()>, h: PviHelpers, sqrt: real -> real)
    requires Create(preGiven, h, sqrt).Ok?
    ensures var c := Create(preGiven, h, sqrt).value;
      && c.stations.pvt.value - c.stations.pvc.value == c.dimensions.curveLength
      && c.stations.pvi.value - c.stations.pvc.value == c.dimensions.curveLength / 2.0
      && c.dimensions.sightDistance == CalcSightDistance(c.dimensions.(sightDistance := None), sqrt)
  {
    var given := Nudged(preGiven.value, h).value;
    var dimensions := DimensionsOf(given).value;
    var c := Create(preGiven, h, sqrt).value;
    assert c.dimensions.(sightDistance := None) == dimensions;
    StationsOfOffsets(given, dimensions.incomingGrade, dimensions.outgoingGrade, c.stations, dimensions.curveLength);
  }

  /// The dimensions exist exactly when the grades and the length are all
  /// given and parse as plain numbers; then they hold those numbers, and
  /// for a non-zero length the external is (g2 - g1)·L/8.
  lemma DimensionsOfParsed(given: map<string, string>)
    ensures DimensionsOf(given).Some? <==>
      && Inc in given && Out in given && Length in given
      && ParseF64(given[Inc]).Some? && ParseF64(given[Out]).Some? && ParseF64(given[Length]).Some?
    ensures DimensionsOf(given).Some? ==>
      var d := DimensionsOf(given).value;
      && d.incomingGrade == ParseF64(given[Inc]).value
      && d.outgoingGrade == ParseF64(given[Out]).value
      && d.curveLength == ParseF64(given[Length]).value
    ensures DimensionsOf(given).Some? && DimensionsOf(given).value.curveLength != 0.0 ==>
      var d := DimensionsOf(given).value;
      d.external == (d.outgoingGrade - d.incomingGrade) * d.curveLength / 8.0
  {
    if DimensionsOf(given).Some? && DimensionsOf(given).value.curveLength != 0.0 {
      ExternalClosedForm(given[Inc], given[Out], given[Length]);
    }
  }

  lemma StationsOfOffsets(given: map<string, string>, g1: real, g2: real, st: VerticalStations, length: real)
    requires PviSt in given && PviElev in given && Length in given
    requires StationsOf(given, g1, g2) == Some(st) && CalcCurveLengthVertical(given[Length]) == Some(length)
    ensures st.pvt.value - st.pvc.value == length && st.pvi.value - st.pvc.value == length / 2.0
    ensures st.pvi.elevation - st.pvc.elevation == g1 * length / 2.0
    ensures st.pvt.elevation - st.pvi.elevation == g2 * length / 2.0
  {
  }
}
