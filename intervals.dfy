/// What src/vertical/interval.rs and src/horizontal/interval.rs share: the
/// later revision of the station record they are written against, where
/// every field but the station value is optional and defaults to absent and
/// an angle is a record holding radians; the first listed station; and the
/// capped count of stepped stations.
module Intervals {
  import opened Results
  import opened RealMath

  datatype Angle = Angle(radians: real)

  datatype Station = Station(value: real, elevation: Option<real>, deflection: Option<Angle>, chord: Option<real>)

  /// The stations listed along a curve, in order.
  datatype CurveDetail = CurveDetail(interval: seq<Station>)

  /// The most stations either generator steps through.
  const MaxSteps := 100

  /// The first listed station: the start rounded up to the interval,
  /// computed as ceil(start·(100/i)/100) / (100/i) · 100.
  function FirstStation(start: real, stationInterval: real): real
  {
    var perHundred := Div(100.0, stationInterval);
    Div(Ceil(start * perHundred / 100.0) as real, perHundred) * 100.0
  }

  /// Entry k of the stepped stations: the first, moved on by the interval
  /// k times, as the loop adds it.
  function StepValue(first: real, stationInterval: real, k: nat): real
  {
    if k == 0 then first else StepValue(first, stationInterval, k - 1) + stationInterval
  }

  /// How many stepped stations the loop pushes, counting from `n` pushed:
  /// it stops once the next value reaches `end` or `MaxSteps` are pushed.
  function StepCount(first: real, stationInterval: real, end: real, n: nat): (r: nat)
    requires 1 <= n <= MaxSteps
    ensures n <= r <= MaxSteps
    decreases MaxSteps - n
  {
    if StepValue(first, stationInterval, n) >= end || n >= MaxSteps then n
    else StepCount(first, stationInterval, end, n + 1)
  }

  /// For a positive interval the first station is the least multiple of
  /// the interval that is not below the start.
  lemma FirstStationMultiple(start: real, stationInterval: real)
    requires stationInterval > 0.0
    ensures FirstStation(start, stationInterval) == Ceil(start / stationInterval) as real * stationInterval
    ensures start <= FirstStation(start, stationInterval) < start + stationInterval
  {
    var i := stationInterval;
    var q := start / i;
    PerHundred(start, i);
    var c := Ceil(q) as real;
    PerHundredBack(c, i);
    assert FirstStation(start, i) == c * i;
    Scaled(q, c, i);
    assert q * i == start;
    assert start <= c * i;
    assert c * i < start + i;
  }

  lemma PerHundred(x: real, i: real)
    requires i > 0.0
    ensures x * Div(100.0, i) / 100.0 == x / i
  {
    var p := 100.0 / i;
    assert p * i == 100.0;
  }

  lemma PerHundredBack(c: real, i: real)
    requires i > 0.0
    ensures Div(c, Div(100.0, i)) * 100.0 == c * i
  {
    var p := 100.0 / i;
    assert p * i == 100.0;
    var d := c / p;
    assert d * p == c;
    assert d * 100.0 == d * p * i;
  }

  lemma Scaled(q: real, c: real, i: real)
    requires i > 0.0 && q <= c < q + 1.0
    ensures q * i <= c * i < q * i + i
  {
  }

  /// The loop stops exactly at the count: no earlier stepped value reached
  /// the end, and the count is the cap or its own value reached the end.
  lemma {:induction false} StepCountStops(first: real, stationInterval: real, end: real, n: nat)
    requires 1 <= n <= MaxSteps
    ensures var c := StepCount(first, stationInterval, end, n);
      && (c == MaxSteps || StepValue(first, stationInterval, c) >= end)
      && forall k :: n <= k < c ==> StepValue(first, stationInterval, k) < end
    decreases MaxSteps - n
  {
    if !(StepValue(first, stationInterval, n) >= end || n >= MaxSteps) {
      StepCountStops(first, stationInterval, end, n + 1);
    }
  }

  /// Stepping by the interval from entry k gives entry k + 1.
  lemma StepNext(first: real, stationInterval: real, k: nat)
    ensures StepValue(first, stationInterval, k) + stationInterval == StepValue(first, stationInterval, k + 1)
  {
  }

  lemma StepZero(first: real, stationInterval: real)
    ensures StepValue(first, stationInterval, 0) == first
  {
  }

  /// Entry k in closed form: k intervals past the first.
  lemma {:induction false} StepValueClosed(first: real, stationInterval: real, k: nat)
    ensures StepValue(first, stationInterval, k) == first + k as real * stationInterval
  {
    if k > 0 {
      StepValueClosed(first, stationInterval, k - 1);
    }
  }
}
