/// src/vertical/interval.rs: the high or low point of a vertical curve, and
/// the stations listed along it at a fixed interval.
module VerticalInterval {
  import opened Results
  import opened RealMath
  import opened Intervals
  import VerticalCalculate
  import DataTypes

  datatype VerticalStations = VerticalStations(pvc: Station, pvi: Station, pvt: Station)

  /// The curve as this file sees it: the dimensions of
  /// src/vertical/calculate.rs and stations of the later revision.
  datatype VerticalCurve = VerticalCurve(dimensions: VerticalCalculate.VerticalDimensions, stations: VerticalStations)

  function Coefficient(curve: VerticalCurve): real
  {
    VerticalCalculate.Coefficient(curve.dimensions.incomingGrade, curve.dimensions.outgoingGrade, curve.dimensions.curveLength)
  }

  /// The elevation x past the PVC as the source writes it, e + g1·x + a·x².
  function ElevationAt(pvcElevation: real, g1: real, a: real, x: real): real
  {
    pvcElevation + g1 * x + a * (x * x)
  }

  /// `get_extreme`: where the slope g1 + 2a·x vanishes. `None` stands for
  /// the panic of unwrapping an absent PVC elevation.
  function GetExtreme(curve: VerticalCurve): Option<Station>
  {
    var g1 := curve.dimensions.incomingGrade;
    var a := Coefficient(curve);
    var x := Div(-g1, 2.0 * a);
    match curve.stations.pvc.elevation
    case None => None
    case Some(e) => Some(Station(curve.stations.pvc.value + x, Some(ElevationAt(e, g1, a, x)), None, None))
  }

  /// Entry k of `interval_stations` in closed form. The first entry's
  /// elevation is taken x = first - pvc past the PVC; every later one
  /// x = value - first past it.
  function VerticalEntry(curve: VerticalCurve, stationInterval: real, k: nat): Station
    requires curve.stations.pvc.elevation.Some?
  {
    var pvc := curve.stations.pvc;
    var first := FirstStation(pvc.value, stationInterval);
    var value := StepValue(first, stationInterval, k);
    var x := if k == 0 then first - pvc.value else value - first;
    Station(value, Some(ElevationAt(pvc.elevation.value, curve.dimensions.incomingGrade, Coefficient(curve), x)), None, None)
  }

  /// How many entries `interval_stations` lists.
  function VerticalEntryCount(curve: VerticalCurve, stationInterval: real): nat
  {
    StepCount(FirstStation(curve.stations.pvc.value, stationInterval), stationInterval, curve.stations.pvt.value, 1)
  }

  /// The first n entries, in order.
  function VerticalEntries(curve: VerticalCurve, stationInterval: real, n: nat): (r: seq<Station>)
    requires curve.stations.pvc.elevation.Some?
    ensures |r| == n
  {
    if n == 0 then [] else VerticalEntries(curve, stationInterval, n - 1) + [VerticalEntry(curve, stationInterval, n - 1)]
  }

  /// `interval_stations`: push the running station, step it by the
  /// interval and recompute its elevation, until it reaches the PVT or 100
  /// stations are listed. `None` stands for the panic of unwrapping an
  /// absent PVC elevation.
  method IntervalStations(curve: VerticalCurve, stationInterval: real) returns (r: Option<CurveDetail>)
    ensures r.None? <==> curve.stations.pvc.elevation.None?
    ensures r.Some? ==>
      r.value.interval == VerticalEntries(curve, stationInterval, VerticalEntryCount(curve, stationInterval))
  {
    var pvcElevation := curve.stations.pvc.elevation;
    if pvcElevation.None? {
      return None;
    }
    var interval: seq<Station> := [];
    var g1 := curve.dimensions.incomingGrade;
    var a := Coefficient(curve);
    var firstStation := FirstStation(curve.stations.pvc.value, stationInterval);
    var end := curve.stations.pvt.value;
    var count: nat := 0;
    var x := firstStation - curve.stations.pvc.value;
    var running := Station(firstStation, Some(ElevationAt(pvcElevation.value, g1, a, x)), None, None);
    var done := false;
    while !done
      invariant count <= MaxSteps && (!done ==> count < MaxSteps)
      invariant interval == VerticalEntries(curve, stationInterval, count)
      invariant running == VerticalEntry(curve, stationInterval, count)
      invariant !done ==> StepCount(firstStation, stationInterval, end, 1) == StepCount(firstStation, stationInterval, end, count + 1)
      invariant done ==> count == VerticalEntryCount(curve, stationInterval)
      decreases MaxSteps - count
    {
      interval := interval + [running];
      VerticalEntryStep(curve, stationInterval, count);
      running := running.(value := running.value + stationInterval);
      x := running.value - firstStation;
      running := running.(elevation := Some(ElevationAt(pvcElevation.value, g1, a, x)));
      count := count + 1;
      done := running.value >= end || count >= MaxSteps;
    }
    return Some(CurveDetail(interval));
  }

  /// Entry k + 1 is entry k moved on by the interval, with the elevation
  /// recomputed at its distance from the first station.
  lemma VerticalEntryStep(curve: VerticalCurve, stationInterval: real, k: nat)
    requires curve.stations.pvc.elevation.Some?
    ensures var pvc := curve.stations.pvc;
      var v := VerticalEntry(curve, stationInterval, k).value + stationInterval;
      VerticalEntry(curve, stationInterval, k + 1)
        == Station(v, Some(ElevationAt(pvc.elevation.value, curve.dimensions.incomingGrade, Coefficient(curve),
                                       v - FirstStation(pvc.value, stationInterval))), None, None)
  {
  }

  // ---------------------------------------------------------------------
  // Properties

  /// Entry k of the list is the closed-form entry k.
  lemma {:induction false} VerticalEntriesIndex(curve: VerticalCurve, stationInterval: real, n: nat, k: nat)
    requires curve.stations.pvc.elevation.Some? && k < n
    ensures VerticalEntries(curve, stationInterval, n)[k] == VerticalEntry(curve, stationInterval, k)
  {
    if k < n - 1 {
      VerticalEntriesIndex(curve, stationInterval, n - 1, k);
    }
  }

  /// For distinct grades on a curve of nonzero length, the extreme is
  /// where the slope g1 + 2a·x is zero.
  lemma ExtremeIsStationary(curve: VerticalCurve)
    requires curve.stations.pvc.elevation.Some?
    requires curve.dimensions.incomingGrade != curve.dimensions.outgoingGrade
    requires curve.dimensions.curveLength != 0.0
    ensures GetExtreme(curve).Some?
    ensures var x := GetExtreme(curve).value.value - curve.stations.pvc.value;
      curve.dimensions.incomingGrade + 2.0 * Coefficient(curve) * x == 0.0
  {
    CoefficientNonZero(curve);
  }

  lemma CoefficientNonZero(curve: VerticalCurve)
    requires curve.dimensions.incomingGrade != curve.dimensions.outgoingGrade
    requires curve.dimensions.curveLength != 0.0
    ensures Coefficient(curve) != 0.0
  {
    var d := curve.dimensions;
    assert Coefficient(curve) * (2.0 * d.curveLength) == d.outgoingGrade - d.incomingGrade;
  }

  /// The extreme is the vertex of the parabola: at any distance t past the
  /// PVC the elevation is the extreme's plus a·(t - x)², so it is the
  /// lowest point when a > 0 (a sag) and the highest when a < 0 (a crest).
  lemma ExtremeIsVertex(curve: VerticalCurve, t: real)
    requires curve.stations.pvc.elevation.Some?
    requires curve.dimensions.incomingGrade != curve.dimensions.outgoingGrade
    requires curve.dimensions.curveLength != 0.0
    ensures GetExtreme(curve).Some? && GetExtreme(curve).value.elevation.Some?
    ensures var ext := GetExtreme(curve).value;
      var x := ext.value - curve.stations.pvc.value;
      ElevationAt(curve.stations.pvc.elevation.value, curve.dimensions.incomingGrade, Coefficient(curve), t)
        == ext.elevation.value + Coefficient(curve) * ((t - x) * (t - x))
  {
    ExtremeIsStationary(curve);
    var ext := GetExtreme(curve).value;
    var x := ext.value - curve.stations.pvc.value;
    Vertex(curve.stations.pvc.elevation.value, curve.dimensions.incomingGrade, Coefficient(curve), x, t);
  }

  lemma Vertex(e: real, g1: real, a: real, x: real, t: real)
    requires g1 + 2.0 * a * x == 0.0
    ensures ElevationAt(e, g1, a, t) == ElevationAt(e, g1, a, x) + a * ((t - x) * (t - x))
  {
    assert g1 == -2.0 * a * x;
    calc {
      ElevationAt(e, g1, a, t) - ElevationAt(e, g1, a, x) - a * ((t - x) * (t - x));
      g1 * t + a * (t * t) - g1 * x - a * (x * x) - a * (t * t) + 2.0 * a * (t * x) - a * (x * x);
      (t - x) * (g1 + 2.0 * a * x);
      0.0;
    }
  }

  /// Between 1 and 100 entries; every entry after the first lies before
  /// the PVT, so the PVT itself is only ever listed as the first entry;
  /// and the list stops at the first stepped value to reach the PVT,
  /// unless the cap comes first.
  lemma VerticalEntriesBounded(curve: VerticalCurve, stationInterval: real)
    ensures 1 <= VerticalEntryCount(curve, stationInterval) <= MaxSteps
    ensures var first := FirstStation(curve.stations.pvc.value, stationInterval);
      var n := VerticalEntryCount(curve, stationInterval);
      && (forall k :: 1 <= k < n ==> StepValue(first, stationInterval, k) < curve.stations.pvt.value)
      && (n == MaxSteps || StepValue(first, stationInterval, n) >= curve.stations.pvt.value)
  {
    StepCountStops(FirstStation(curve.stations.pvc.value, stationInterval), stationInterval, curve.stations.pvt.value, 1);
  }

  /// Entry k lies k intervals past the first, and for a positive interval
  /// the first is the least multiple of the interval at or after the PVC.
  lemma VerticalEntryValue(curve: VerticalCurve, stationInterval: real, k: nat)
    requires curve.stations.pvc.elevation.Some? && stationInterval > 0.0
    ensures var pvc := curve.stations.pvc.value;
      var first := VerticalEntry(curve, stationInterval, 0).value;
      && first == Ceil(pvc / stationInterval) as real * stationInterval
      && pvc <= first < pvc + stationInterval
      && VerticalEntry(curve, stationInterval, k).value == first + k as real * stationInterval
  {
    FirstStationMultiple(curve.stations.pvc.value, stationInterval);
    StepValueClosed(FirstStation(curve.stations.pvc.value, stationInterval), stationInterval, k);
  }

  // ---------------------------------------------------------------------
  // The elevations of the later entries

  /// The elevation of the curve at station v: the parabola through the
  /// PVC with grade g1 there.
  function CurveElevation(curve: VerticalCurve, v: real): real
    requires curve.stations.pvc.elevation.Some?
  {
    var pvc := curve.stations.pvc;
    ElevationAt(pvc.elevation.value, curve.dimensions.incomingGrade, Coefficient(curve), v - pvc.value)
  }

  /// The parabola starts at the PVC's elevation, reaches L past it the PVT
  /// elevation that src/vertical/calculate.rs derives, and its slope runs
  /// from g1 at the PVC to g2 at the PVT.
  lemma CurveElevationEnds(curve: VerticalCurve)
    requires curve.stations.pvc.elevation.Some? && curve.dimensions.curveLength != 0.0
    ensures var d := curve.dimensions;
      var pvc := curve.stations.pvc;
      && CurveElevation(curve, pvc.value) == pvc.elevation.value
      && CurveElevation(curve, pvc.value + d.curveLength)
        == VerticalCalculate.PvcToPvt(DataTypesStation(pvc), d).elevation
      && d.incomingGrade + 2.0 * Coefficient(curve) * d.curveLength == d.outgoingGrade
  {
    var d := curve.dimensions;
    var a := Coefficient(curve);
    var len := d.curveLength;
    assert a * (2.0 * len) == d.outgoingGrade - d.incomingGrade;
    assert a * (len * len) == (d.outgoingGrade - d.incomingGrade) * len / 2.0 by {
      assert a * (len * len) == (a * (2.0 * len)) * len / 2.0;
    }
  }

  /// The station of src/datatypes.rs with the same value and elevation.
  function DataTypesStation(s: Station): DataTypes.Station
    requires s.elevation.Some?
  {
    DataTypes.Station(s.value, s.elevation.value)
  }

  /// As written, an entry after the first is placed x = value - first past
  /// the PVC, so unless the PVC falls on a multiple of the interval it
  /// lies off the curve: a PVC at 50 and elevation 0 with grades 1% and
  /// -1% over 200, listed every 100, puts the entry at 200 at 0.5 where
  /// the curve is at 0.375.
  lemma LaterEntryOffCurve()
    ensures var curve := ExampleCurve;
      && VerticalEntry(curve, 100.0, 1) == Station(200.0, Some(0.5), None, None)
      && CurveElevation(curve, 200.0) == 0.375
  {
    var curve := ExampleCurve;
    assert Coefficient(curve) == -0.00005;
    FirstStationMultiple(50.0, 100.0);
    assert Ceil(0.5) == 1;
  }

  const ExampleCurve := VerticalCurve(
    VerticalCalculate.VerticalDimensions(0.01, -0.01, 200.0, -0.5, None),
    VerticalStations(Station(50.0, Some(0.0), None, None), Station(150.0, Some(1.0), None, None), Station(250.0, Some(0.0), None, None)))

  /// Entry k with its elevation taken at its own distance past the PVC.
  function CorrectedVerticalEntry(curve: VerticalCurve, stationInterval: real, k: nat): (r: Station)
    requires curve.stations.pvc.elevation.Some?
    ensures r.value == VerticalEntry(curve, stationInterval, k).value
    ensures r.elevation == Some(CurveElevation(curve, r.value))
  {
    var value := StepValue(FirstStation(curve.stations.pvc.value, stationInterval), stationInterval, k);
    Station(value, Some(CurveElevation(curve, value)), None, None)
  }

  /// The corrected entries agree with the source's wherever the source
  /// places them on the curve: always for the first entry, and for every
  /// entry when the PVC is on a multiple of the interval.
  lemma CorrectedAgrees(curve: VerticalCurve, stationInterval: real, k: nat)
    requires curve.stations.pvc.elevation.Some?
    requires k == 0 || FirstStation(curve.stations.pvc.value, stationInterval) == curve.stations.pvc.value
    ensures CorrectedVerticalEntry(curve, stationInterval, k) == VerticalEntry(curve, stationInterval, k)
  {
  }
}
