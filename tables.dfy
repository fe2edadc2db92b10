/// src/tables.rs: the minimum sight distances of AASHTO Green Book Table
/// 3-35 and of Caltrans Highway Design Manual Tables 201.1 and 201.7 (7th
/// edition, 2020), keyed by design speed in miles per hour, in feet.
module Tables {
  import opened Results
  import opened DataTypes

  /// AASHTO: speed to (stopping, passing).
  const AashtoSightTable: map<int, (real, real)> := map[
    15 := (80.0, 400.0),
    20 := (115.0, 400.0),
    25 := (155.0, 450.0),
    30 := (200.0, 500.0),
    35 := (250.0, 550.0),
    40 := (305.0, 600.0),
    45 := (360.0, 700.0),
    50 := (425.0, 800.0),
    55 := (495.0, 900.0),
    60 := (570.0, 1000.0),
    65 := (645.0, 1100.0),
    70 := (730.0, 1200.0),
    75 := (820.0, 1300.0),
    80 := (910.0, 1400.0)
  ]

  /// Caltrans HDM: speed to (stopping, passing, decision).
  const HdmSightTable: map<int, (real, real, real)> := map[
    10 := (50.0, 800.0, 450.0),
    15 := (100.0, 800.0, 450.0),
    20 := (125.0, 800.0, 450.0),
    25 := (150.0, 950.0, 450.0),
    30 := (200.0, 1100.0, 450.0),
    35 := (250.0, 1300.0, 525.0),
    40 := (300.0, 1500.0, 600.0),
    45 := (360.0, 1650.0, 675.0),
    50 := (430.0, 1800.0, 750.0),
    55 := (500.0, 1950.0, 865.0),
    60 := (580.0, 2100.0, 990.0),
    65 := (660.0, 2300.0, 1050.0),
    70 := (750.0, 2500.0, 1105.0),
    75 := (840.0, 2600.0, 1180.0),
    80 := (930.0, 2700.0, 1260.0)
  ]

  /// `get_min_sight`: the table row of the speed, then the column of the
  /// sight type; AASHTO has no decision sight distance.
  function GetMinSight(designSpeed: int, standard: DesignStandard, sightType: SightType): Option<real>
  {
    match standard
    case AASHTO =>
      if designSpeed !in AashtoSightTable then None
      else
        var row := AashtoSightTable[designSpeed];
        (match sightType
         case Stopping => Some(row.0)
         case Passing => Some(row.1)
         case Decision => None)
    case CALTRANS =>
      if designSpeed !in HdmSightTable then None
      else
        var row := HdmSightTable[designSpeed];
        match sightType
        case Stopping => Some(row.0)
        case Passing => Some(row.1)
        case Decision => Some(row.2)
  }

  /// The speeds each table lists: every multiple of 5 from 15 (AASHTO) or
  /// 10 (Caltrans) up to 80.
  predicate ListedSpeed(standard: DesignStandard, speed: int)
  {
    (if standard == AASHTO then 15 else 10) <= speed <= 80 && speed % 5 == 0
  }

  lemma AashtoKeys(speed: int)
    ensures speed in AashtoSightTable <==> ListedSpeed(AASHTO, speed)
  {
  }

  lemma HdmKeys(speed: int)
    ensures speed in HdmSightTable <==> ListedSpeed(CALTRANS, speed)
  {
  }

  /// A lookup succeeds exactly at a listed speed, for any sight type but
  /// AASHTO's decision distance, which never exists.
  lemma MinSightDefined(speed: int, standard: DesignStandard, sightType: SightType)
    ensures GetMinSight(speed, standard, sightType).Some?
      <==> ListedSpeed(standard, speed) && !(standard == AASHTO && sightType == Decision)
  {
    AashtoKeys(speed);
    HdmKeys(speed);
  }

  /// Every distance the tables give is positive.
  lemma MinSightPositive(speed: int, standard: DesignStandard, sightType: SightType)
    requires GetMinSight(speed, standard, sightType).Some?
    ensures GetMinSight(speed, standard, sightType).value > 0.0
  {
  }

  /// The stopping distance strictly increases with the design speed.
  lemma {:induction false} StoppingIncreases(standard: DesignStandard, a: int, b: int)
    requires ListedSpeed(standard, a) && ListedSpeed(standard, b) && a < b
    ensures GetMinSight(a, standard, Stopping).Some? && GetMinSight(b, standard, Stopping).Some?
    ensures GetMinSight(a, standard, Stopping).value < GetMinSight(b, standard, Stopping).value
    decreases b - a
  {
    StoppingStep(standard, a);
    if b > a + 5 {
      StoppingIncreases(standard, a + 5, b);
    }
  }

  /// One step of 5 miles per hour raises the stopping distance.
  lemma StoppingStep(standard: DesignStandard, a: int)
    requires ListedSpeed(standard, a) && a < 80
    ensures GetMinSight(a, standard, Stopping).Some? && GetMinSight(a + 5, standard, Stopping).Some?
    ensures GetMinSight(a, standard, Stopping).value < GetMinSight(a + 5, standard, Stopping).value
  {
    MinSightDefined(a, standard, Stopping);
    MinSightDefined(a + 5, standard, Stopping);
  }

  /// Passing and decision distances never fall as the speed rises by a step.
  lemma PassingStep(standard: DesignStandard, a: int)
    requires ListedSpeed(standard, a) && a < 80
    ensures GetMinSight(a, standard, Passing).Some? && GetMinSight(a + 5, standard, Passing).Some?
    ensures GetMinSight(a, standard, Passing).value <= GetMinSight(a + 5, standard, Passing).value
  {
    MinSightDefined(a, standard, Passing);
    MinSightDefined(a + 5, standard, Passing);
  }

  lemma DecisionStep(a: int)
    requires ListedSpeed(CALTRANS, a) && a < 80
    ensures GetMinSight(a, CALTRANS, Decision).Some? && GetMinSight(a + 5, CALTRANS, Decision).Some?
    ensures GetMinSight(a, CALTRANS, Decision).value <= GetMinSight(a + 5, CALTRANS, Decision).value
  {
    MinSightDefined(a, CALTRANS, Decision);
    MinSightDefined(a + 5, CALTRANS, Decision);
  }

  /// At every listed speed the passing distance exceeds the stopping one.
  lemma PassingExceedsStopping(speed: int, standard: DesignStandard)
    requires ListedSpeed(standard, speed)
    ensures GetMinSight(speed, standard, Stopping).Some? && GetMinSight(speed, standard, Passing).Some?
    ensures GetMinSight(speed, standard, Stopping).value < GetMinSight(speed, standard, Passing).value
  {
    MinSightDefined(speed, standard, Stopping);
    MinSightDefined(speed, standard, Passing);
  }

  /// The Caltrans values the repository's own test cases expect.
  lemma HdmExamples()
    ensures GetMinSight(65, CALTRANS, Stopping) == Some(660.0)
    ensures GetMinSight(30, CALTRANS, Passing) == Some(1100.0)
    ensures GetMinSight(80, CALTRANS, Decision) == Some(1260.0)
  {
  }
}
