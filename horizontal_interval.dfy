/// src/horizontal/interval.rs: the stations listed along a circular curve
/// at a fixed interval, each with its deflection angle from the PC and its
/// chord, and the PT listed last.
module HorizontalInterval {
  import opened Results
  import opened RealMath
  import opened Intervals
  import HorizontalCalculate

  datatype HorizontalStations = HorizontalStations(pc: Station, pi: Station, pt: Station)

  /// The curve as this file sees it: the dimensions of
  /// src/horizontal/calculate.rs and stations of the later revision.
  datatype HorizontalCurve = HorizontalCurve(dimensions: HorizontalCalculate.HorizontalDimensions, stations: HorizontalStations)

  /// The deflection from the PC of a point `length` along the arc, as the
  /// source writes it: length / L · Δ, halved.
  function DeflectionOver(curve: HorizontalCurve, length: real): real
  {
    Div(length, curve.dimensions.curveLength) * curve.dimensions.curveAngle.radians / 2.0
  }

  /// The chord 2R·sin(θ) of a deflection θ.
  function Chord(curve: HorizontalCurve, sin: real -> real, deflection: real): real
  {
    2.0 * curve.dimensions.radius * sin(deflection)
  }

  function First(curve: HorizontalCurve, stationInterval: real): real
  {
    FirstStation(curve.stations.pc.value, stationInterval)
  }

  /// The deflection of the first listed station.
  function FirstDeflection(curve: HorizontalCurve, stationInterval: real): real
  {
    DeflectionOver(curve, First(curve, stationInterval) - curve.stations.pc.value)
  }

  /// Half of Da, the deflection that 100 feet of arc adds.
  function HalfDa(curve: HorizontalCurve): real
  {
    curve.dimensions.curveLength100.radians / 2.0
  }

  /// Entry k of a run stepped from the station `first` with deflection
  /// `deflection1` and chord `chordFirst`: k intervals on, k half-Da's
  /// more deflection, and the chord `chordStep` once it has moved.
  function SteppedEntry(first: real, stationInterval: real, deflection1: real, halfDa: real, chordFirst: real, chordStep: real, k: nat): Station
  {
    Station(StepValue(first, stationInterval, k), None, Some(Angle(StepValue(deflection1, halfDa, k))),
            Some(if k == 0 then chordFirst else chordStep))
  }

  /// The first n entries of such a run, in order.
  function SteppedEntries(first: real, stationInterval: real, deflection1: real, halfDa: real, chordFirst: real, chordStep: real, n: nat): (r: seq<Station>)
    ensures |r| == n
  {
    if n == 0 then
      []
    else
      SteppedEntries(first, stationInterval, deflection1, halfDa, chordFirst, chordStep, n - 1)
        + [SteppedEntry(first, stationInterval, deflection1, halfDa, chordFirst, chordStep, n - 1)]
  }

  /// Stepped entry k of the curve in closed form: from the first station,
  /// its deflection and `chordFirst`, stepping by the interval and Da/2,
  /// with chord `chordHalfDa` after the first.
  function HorizontalEntry(curve: HorizontalCurve, stationInterval: real, chordFirst: real, chordHalfDa: real, k: nat): Station
  {
    SteppedEntry(First(curve, stationInterval), stationInterval, FirstDeflection(curve, stationInterval), HalfDa(curve), chordFirst, chordHalfDa, k)
  }

  /// The first n stepped entries of the curve.
  function HorizontalEntries(curve: HorizontalCurve, stationInterval: real, chordFirst: real, chordHalfDa: real, n: nat): seq<Station>
  {
    SteppedEntries(First(curve, stationInterval), stationInterval, FirstDeflection(curve, stationInterval), HalfDa(curve), chordFirst, chordHalfDa, n)
  }

  /// How many stepped entries are listed before the PT.
  function SteppedCount(curve: HorizontalCurve, stationInterval: real): nat
  {
    StepCount(First(curve, stationInterval), stationInterval, curve.stations.pt.value, 1)
  }

  /// The deflection over what is left from the last stepped station to the
  /// PT.
  function LastDeflection(curve: HorizontalCurve, stationInterval: real): real
  {
    var lastValue := StepValue(First(curve, stationInterval), stationInterval, SteppedCount(curve, stationInterval)) - stationInterval;
    DeflectionOver(curve, curve.stations.pt.value - lastValue)
  }

  /// The PT entry: the running deflection after n steps plus the last
  /// deflection, with chord `chordLast`.
  function PtEntry(curve: HorizontalCurve, stationInterval: real, chordLast: real): Station
  {
    var running := StepValue(FirstDeflection(curve, stationInterval), HalfDa(curve), SteppedCount(curve, stationInterval));
    Station(curve.stations.pt.value, None, Some(Angle(LastDeflection(curve, stationInterval) + running)), Some(chordLast))
  }

  /// `interval_stations`.
  method IntervalStations(curve: HorizontalCurve, stationInterval: real, sin: real -> real) returns (r: CurveDetail)
    ensures r.interval
      == HorizontalEntries(curve, stationInterval, Chord(curve, sin, FirstDeflection(curve, stationInterval)), Chord(curve, sin, HalfDa(curve)),
                           SteppedCount(curve, stationInterval))
         + [PtEntry(curve, stationInterval, Chord(curve, sin, LastDeflection(curve, stationInterval)))]
  {
    var interval: seq<Station>;
    var firstStation := FirstStation(curve.stations.pc.value, stationInterval);
    var length1 := firstStation - curve.stations.pc.value;
    var deflection1 := DeflectionOver(curve, length1);
    var chord1 := Chord(curve, sin, deflection1);
    var halfDa := HalfDa(curve);
    var chord := Chord(curve, sin, halfDa);
    assert firstStation == First(curve, stationInterval);
    assert deflection1 == FirstDeflection(curve, stationInterval);
    var running, count;
    interval, running, count := StepStations(firstStation, stationInterval, deflection1, halfDa, chord1, chord, curve.stations.pt.value);
    assert count == SteppedCount(curve, stationInterval);
    var length2 := curve.stations.pt.value - (running.value - stationInterval);
    var deflection2 := DeflectionOver(curve, length2);
    var chord2 := Chord(curve, sin, deflection2);
    assert chord1 == Chord(curve, sin, FirstDeflection(curve, stationInterval));
    assert interval
      == HorizontalEntries(curve, stationInterval, Chord(curve, sin, FirstDeflection(curve, stationInterval)), chord, SteppedCount(curve, stationInterval));
    PtStep(curve, stationInterval, sin, chord1, chord, running);
    var pt := Station(curve.stations.pt.value, None, Some(Angle(deflection2 + running.deflection.value.radians)), Some(chord2));
    assert pt == PtEntry(curve, stationInterval, Chord(curve, sin, LastDeflection(curve, stationInterval)));
    interval := interval + [pt];
    return CurveDetail(interval);
  }

  /// The loop of `interval_stations`: from the first station, push the
  /// running station and step it on by the interval, adding Da/2 to its
  /// deflection and switching to the later chord, until its value reaches
  /// `end` or `MaxSteps` stations are pushed.
  method StepStations(first: real, stationInterval: real, deflection1: real, halfDa: real, chordFirst: real, chordStep: real, end: real)
    returns (interval: seq<Station>, running: Station, count: nat)
    ensures count == StepCount(first, stationInterval, end, 1)
    ensures interval == SteppedEntries(first, stationInterval, deflection1, halfDa, chordFirst, chordStep, count)
    ensures running == SteppedEntry(first, stationInterval, deflection1, halfDa, chordFirst, chordStep, count)
  {
    interval := [];
    count := 0;
    running := Station(first, None, Some(Angle(deflection1)), Some(chordFirst));
    var done := false;
    while !done
      invariant count <= MaxSteps && (!done ==> count < MaxSteps)
      invariant interval == SteppedEntries(first, stationInterval, deflection1, halfDa, chordFirst, chordStep, count)
      invariant running == SteppedEntry(first, stationInterval, deflection1, halfDa, chordFirst, chordStep, count)
      invariant !done ==> StepCount(first, stationInterval, end, 1) == StepCount(first, stationInterval, end, count + 1)
      invariant done ==> count == StepCount(first, stationInterval, end, 1)
      decreases MaxSteps - count
    {
      SteppedPush(first, stationInterval, deflection1, halfDa, chordFirst, chordStep, count);
      interval := interval + [running];
      var runningDeflection := running.deflection.value.radians;
      running := running.(deflection := Some(Angle(runningDeflection + halfDa)));
      running := running.(chord := Some(chordStep));
      running := running.(value := running.value + stationInterval);
      SteppedStep(first, stationInterval, deflection1, halfDa, chordFirst, chordStep, count);
      count := count + 1;
      done := running.value >= end || count >= MaxSteps;
    }
  }

  lemma SteppedPush(first: real, stationInterval: real, deflection1: real, halfDa: real, chordFirst: real, chordStep: real, n: nat)
    ensures SteppedEntries(first, stationInterval, deflection1, halfDa, chordFirst, chordStep, n + 1)
      == SteppedEntries(first, stationInterval, deflection1, halfDa, chordFirst, chordStep, n)
         + [SteppedEntry(first, stationInterval, deflection1, halfDa, chordFirst, chordStep, n)]
  {
  }

  /// Entry k + 1 is entry k with Da/2 added to its deflection, the
  /// later chord, and its value moved on by the interval.
  lemma SteppedStep(first: real, stationInterval: real, deflection1: real, halfDa: real, chordFirst: real, chordStep: real, k: nat)
    ensures var e := SteppedEntry(first, stationInterval, deflection1, halfDa, chordFirst, chordStep, k);
      SteppedEntry(first, stationInterval, deflection1, halfDa, chordFirst, chordStep, k + 1)
        == e.(deflection := Some(Angle(e.deflection.value.radians + halfDa)))
            .(chord := Some(chordStep))
            .(value := e.value + stationInterval)
  {
  }

  /// The station appended after the loop, built from the last running
  /// entry as the loop leaves it, is the PT entry.
  lemma PtStep(curve: HorizontalCurve, stationInterval: real, sin: real -> real, chordFirst: real, chordHalfDa: real, e: Station)
    requires e == HorizontalEntry(curve, stationInterval, chordFirst, chordHalfDa, SteppedCount(curve, stationInterval))
    ensures var deflection2 := DeflectionOver(curve, curve.stations.pt.value - (e.value - stationInterval));
      Station(curve.stations.pt.value, None, Some(Angle(deflection2 + e.deflection.value.radians)), Some(Chord(curve, sin, deflection2)))
        == PtEntry(curve, stationInterval, Chord(curve, sin, LastDeflection(curve, stationInterval)))
  {
  }

  // ---------------------------------------------------------------------
  // Properties

  /// Entry k of the stepped list is the closed-form entry k.
  lemma {:induction false} HorizontalEntriesIndex(curve: HorizontalCurve, stationInterval: real, chordFirst: real, chordHalfDa: real, n: nat, k: nat)
    requires k < n
    ensures HorizontalEntries(curve, stationInterval, chordFirst, chordHalfDa, n)[k] == HorizontalEntry(curve, stationInterval, chordFirst, chordHalfDa, k)
  {
    if k < n - 1 {
      HorizontalEntriesIndex(curve, stationInterval, chordFirst, chordHalfDa, n - 1, k);
    }
  }

  /// Between 2 and 101 entries; the stepped entries after the first lie
  /// before the PT, and the stepping stops at the first value to reach the
  /// PT unless the cap comes first; the last entry is the PT itself.
  lemma HorizontalEntriesBounded(curve: HorizontalCurve, stationInterval: real, chordFirst: real, chordHalfDa: real, chordLast: real)
    ensures 2 <= SteppedCount(curve, stationInterval) + 1 <= MaxSteps + 1
    ensures var n := SteppedCount(curve, stationInterval);
      && (forall k :: 1 <= k < n ==> HorizontalEntry(curve, stationInterval, chordFirst, chordHalfDa, k).value < curve.stations.pt.value)
      && (n == MaxSteps || StepValue(First(curve, stationInterval), stationInterval, n) >= curve.stations.pt.value)
    ensures PtEntry(curve, stationInterval, chordLast).value == curve.stations.pt.value
  {
    StepCountStops(First(curve, stationInterval), stationInterval, curve.stations.pt.value, 1);
  }

  /// The first entry sits at the least multiple of a positive interval at
  /// or after the PC, with deflection (first - pc)/L·Δ/2 and chord 2R times
  /// the sine of that.
  lemma FirstEntry(curve: HorizontalCurve, stationInterval: real, chordFirst: real, chordHalfDa: real)
    requires stationInterval > 0.0
    ensures var e := HorizontalEntry(curve, stationInterval, chordFirst, chordHalfDa, 0);
      var pc := curve.stations.pc.value;
      && pc <= e.value < pc + stationInterval
      && e.value == Ceil(pc / stationInterval) as real * stationInterval
      && e.deflection.Some?
      && e.deflection.value.radians == Div(e.value - pc, curve.dimensions.curveLength) * curve.dimensions.curveAngle.radians / 2.0
      && e.chord == Some(chordFirst)
  {
    FirstStationMultiple(curve.stations.pc.value, stationInterval);
  }

  /// Each later stepped entry is one interval on, its deflection half of
  /// Da more, and its chord the constant 2R·sin(Da/2).
  lemma NextEntry(curve: HorizontalCurve, stationInterval: real, chordFirst: real, chordHalfDa: real, k: nat)
    ensures var e := HorizontalEntry(curve, stationInterval, chordFirst, chordHalfDa, k);
      var e1 := HorizontalEntry(curve, stationInterval, chordFirst, chordHalfDa, k + 1);
      && e1.value == e.value + stationInterval
      && e1.deflection.value.radians == e.deflection.value.radians + curve.dimensions.curveLength100.radians / 2.0
      && e1.chord == Some(chordHalfDa)
  {
    StepNext(First(curve, stationInterval), stationInterval, k);
    StepNext(FirstDeflection(curve, stationInterval), HalfDa(curve), k);
  }

  /// The PT's deflection is that of the last stepped entry plus Da/2, plus
  /// the deflection over the distance from that entry to the PT, whose sine
  /// gives the PT's chord.
  lemma PtAfterLast(curve: HorizontalCurve, stationInterval: real, chordFirst: real, chordHalfDa: real, chordLast: real)
    ensures var n := SteppedCount(curve, stationInterval);
      n >= 1 &&
      var last := HorizontalEntry(curve, stationInterval, chordFirst, chordHalfDa, n - 1);
      var pt := PtEntry(curve, stationInterval, chordLast);
      && LastDeflection(curve, stationInterval)
        == Div(curve.stations.pt.value - last.value, curve.dimensions.curveLength) * curve.dimensions.curveAngle.radians / 2.0
      && pt.deflection.value.radians
        == (last.deflection.value.radians + curve.dimensions.curveLength100.radians / 2.0) + LastDeflection(curve, stationInterval)
      && pt.chord == Some(chordLast)
  {
    var n := SteppedCount(curve, stationInterval);
    StepNext(First(curve, stationInterval), stationInterval, n - 1);
    StepNext(FirstDeflection(curve, stationInterval), HalfDa(curve), n - 1);
  }

  // ---------------------------------------------------------------------
  // The deflection at the PT

  /// Deflections add along the arc: for a nonzero length L the deflection
  /// over a + b is the sum of those over a and over b.
  lemma DeflectionAdds(curve: HorizontalCurve, a: real, b: real)
    requires curve.dimensions.curveLength != 0.0
    ensures DeflectionOver(curve, a) + DeflectionOver(curve, b) == DeflectionOver(curve, a + b)
  {
    var len := curve.dimensions.curveLength;
    var delta := curve.dimensions.curveAngle.radians;
    assert (a + b) / len == a / len + b / len;
    assert ((a + b) / len) * delta == (a / len) * delta + (b / len) * delta;
  }

  /// Da is the central angle of 100 feet of arc when Da·L = 100·Δ; then the
  /// deflection over 100 feet is Da/2.
  predicate HundredFootDa(curve: HorizontalCurve)
  {
    curve.dimensions.curveLength != 0.0
    && curve.dimensions.curveLength100.radians * curve.dimensions.curveLength == 100.0 * curve.dimensions.curveAngle.radians
  }

  lemma DeflectionOverHundred(curve: HorizontalCurve)
    requires HundredFootDa(curve)
    ensures DeflectionOver(curve, 100.0) == HalfDa(curve)
  {
    var len := curve.dimensions.curveLength;
    var da := curve.dimensions.curveLength100.radians;
    assert 100.0 / len * curve.dimensions.curveAngle.radians == da by {
      assert da * len == 100.0 * curve.dimensions.curveAngle.radians;
      assert (100.0 / len) * curve.dimensions.curveAngle.radians == (100.0 * curve.dimensions.curveAngle.radians) / len;
    }
  }

  /// With 100-foot stations and a consistent Da, the stepped deflection of
  /// entry k is the deflection over its distance from the PC.
  lemma {:induction false} SteppedDeflectionAtHundred(curve: HorizontalCurve, k: nat)
    requires HundredFootDa(curve)
    ensures StepValue(FirstDeflection(curve, 100.0), HalfDa(curve), k)
      == DeflectionOver(curve, StepValue(First(curve, 100.0), 100.0, k) - curve.stations.pc.value)
  {
    if k > 0 {
      SteppedDeflectionAtHundred(curve, k - 1);
      var before := StepValue(First(curve, 100.0), 100.0, k - 1) - curve.stations.pc.value;
      DeflectionOverHundred(curve);
      DeflectionAdds(curve, before, 100.0);
      assert StepValue(First(curve, 100.0), 100.0, k) - curve.stations.pc.value == before + 100.0;
    }
  }

  /// The PT entry with its deflection taken over the whole distance from
  /// the PC to the PT.
  function CorrectedPtEntry(curve: HorizontalCurve, stationInterval: real, chordLast: real): (r: Station)
    ensures r.value == PtEntry(curve, stationInterval, chordLast).value
    ensures r.chord == PtEntry(curve, stationInterval, chordLast).chord
    ensures r.deflection.Some? && r.deflection.value.radians == DeflectionOver(curve, r.value - curve.stations.pc.value)
  {
    Station(curve.stations.pt.value, None, Some(Angle(DeflectionOver(curve, curve.stations.pt.value - curve.stations.pc.value))),
            Some(chordLast))
  }

  /// On a curve whose PT lies L past its PC, the corrected PT deflection is
  /// half the central angle, as the deflection to the end of a circular
  /// arc is.
  lemma CorrectedPtHalfAngle(curve: HorizontalCurve, stationInterval: real, chordLast: real)
    requires curve.dimensions.curveLength != 0.0
    requires curve.stations.pt.value - curve.stations.pc.value == curve.dimensions.curveLength
    ensures CorrectedPtEntry(curve, stationInterval, chordLast).deflection.value.radians == curve.dimensions.curveAngle.radians / 2.0
  {
  }

  /// As written, the PT's deflection adds the stretch after the last listed
  /// station to the running deflection, which the loop had already moved
  /// Da/2 past that station: with 100-foot stations and a consistent Da the
  /// PT's deflection overshoots the corrected one by exactly Da/2.
  lemma PtDeflectionOvershoots(curve: HorizontalCurve, chordLast: real)
    requires HundredFootDa(curve)
    ensures PtEntry(curve, 100.0, chordLast).deflection.value.radians
      == CorrectedPtEntry(curve, 100.0, chordLast).deflection.value.radians + HalfDa(curve)
  {
    var n := SteppedCount(curve, 100.0);
    var pc := curve.stations.pc.value;
    var pt := curve.stations.pt.value;
    var reached := StepValue(First(curve, 100.0), 100.0, n);
    SteppedDeflectionAtHundred(curve, n);
    DeflectionAdds(curve, pt - (reached - 100.0), reached - pc);
    DeflectionAdds(curve, pt - pc, 100.0);
    DeflectionOverHundred(curve);
    assert (pt - (reached - 100.0)) + (reached - pc) == (pt - pc) + 100.0;
  }

  /// A PC at 0 and a PT at 200 on an arc of 200 feet turning 0.4 rad, so
  /// Da = 0.2 rad; the fields the generator does not read are 0.
  const ExampleCurve := HorizontalCurve(
    HorizontalCalculate.HorizontalDimensions(500.0, 200.0, 0.0, 0.0, 0.0, 0.0, Angle(0.2), Angle(0.4), 0, 0.0),
    HorizontalStations(Station(0.0, None, None, None), Station(100.0, None, None, None), Station(200.0, None, None, None)))

  /// Listed every 100 feet, the example's PT gets a deflection of 0.3 rad
  /// where half its central angle is 0.2 rad.
  lemma ExamplePtDeflection(chordLast: real)
    ensures PtEntry(ExampleCurve, 100.0, chordLast).deflection.value.radians == 0.3
    ensures CorrectedPtEntry(ExampleCurve, 100.0, chordLast).deflection.value.radians == 0.2
  {
    PtDeflectionOvershoots(ExampleCurve, chordLast);
    CorrectedPtHalfAngle(ExampleCurve, 100.0, chordLast);
  }
}
