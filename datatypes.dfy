/// src/datatypes.rs: the station record, the sight type cycle and the
/// parsers that turn the user's text into numbers.
module DataTypes {
  import opened Results
  import opened Text

  /// A point along the centre line: its station (`12+34` read as 1234)
  /// and its elevation.
  datatype Station = Station(value: real, elevation: real)

  datatype SightType = Stopping | Passing | Decision {
    /// The next sight type in the input form's toggle order.
    function Next(): SightType
    {
      match this
      case Stopping => Passing
      case Passing => Decision
      case Decision => Stopping
    }
  }

  /// The two design manuals whose tables the compliance checks consult.
  datatype DesignStandard = AASHTO | CALTRANS

  /// The `anyhow` messages the parsers fail with.
  datatype ParseError =
    | StationMisconfigured      // "Station is misconfigured."
    | ElevationMisconfigured    // "Elevation/Length is misconfigured."
    | SpeedMisconfigured        // "Speed is misconfigured."
    | GradeMisconfigured        // "Grade is misconfigured."

  /// One piece of a station, trimmed and read as a number.
  function PieceValue(p: string): Option<real>
  {
    ParseF64(Trim(p))
  }

  /// The pieces read one by one with `read`, or `None` as soon as one of
  /// them fails.
  function Pieces(parts: seq<string>, read: string -> Option<real>): Option<seq<real>>
  {
    if parts == [] then Some([])
    else
      var init :- Pieces(parts[..|parts| - 1], read);
      var v :- read(parts[|parts| - 1]);
      Some(init + [v])
  }

  /// What `coerce_station_value` computes: every `+`-terminated piece must
  /// parse as a number once trimmed, and there must be at least two; the
  /// station is the first piece times 100 plus the second.
  function StationValue(s: string): Result<real, ParseError>
  {
    match Pieces(SplitTerminator(s, '+'), PieceValue)
    case None => Err(StationMisconfigured)
    case Some(v) => if |v| < 2 then Err(StationMisconfigured) else Ok(v[0] * 100.0 + v[1])
  }

  /// `coerce_station_value`: parse the pieces one by one into a vector,
  /// stopping at the first that fails, then combine the first two.
  method CoerceStationValue(s: string) returns (r: Result<real, ParseError>)
    ensures r == StationValue(s)
  {
    var slices := SplitTerminator(s, '+');
    var stationVec: seq<real> := [];
    for i := 0 to |slices|
      invariant Pieces(slices[..i], PieceValue) == Some(stationVec)
    {
      var parsed := ParseF64(Trim(slices[i]));
      assert slices[..i + 1][..i] == slices[..i];
      if parsed.None? {
        PiecesPrefixFails(slices, PieceValue, i + 1);
        assert Pieces(slices, PieceValue).None?;
        return Err(StationMisconfigured);
      }
      stationVec := stationVec + [parsed.value];
    }
    assert slices[..|slices|] == slices;
    r := Combine(stationVec);
    StationOfVector(s, stationVec);
  }

  /// The station made of the vector of parsed pieces.
  function Combine(v: seq<real>): (r: Result<real, ParseError>)
  {
    if |v| < 2 then Err(StationMisconfigured) else Ok(v[0] * 100.0 + v[1])
  }

  lemma CombineFirstTwo(v: seq<real>, a: real, b: real)
    requires |v| >= 2 && v[0] == a && v[1] == b
    ensures Combine(v) == Ok(a * 100.0 + b)
  {
  }

  lemma StationOfVector(s: string, v: seq<real>)
    requires Pieces(SplitTerminator(s, '+'), PieceValue) == Some(v)
    ensures StationValue(s) == Combine(v)
  {
  }

  /// Once a prefix of the pieces fails, so do all of them.
  lemma {:induction false} PiecesPrefixFails(parts: seq<string>, read: string -> Option<real>, n: nat)
    requires n <= |parts|
    requires Pieces(parts[..n], read).None?
    ensures Pieces(parts, read).None?
    decreases |parts| - n
  {
    if n < |parts| {
      assert parts[..n + 1][..n] == parts[..n];
      PiecesPrefixFails(parts, read, n + 1);
    } else {
      assert parts[..n] == parts;
    }
  }

  /// `Pieces` succeeds exactly when every piece parses, and then holds
  /// every piece's value in order.
  lemma {:induction false} PiecesAll(parts: seq<string>, read: string -> Option<real>)
    ensures Pieces(parts, read).Some? <==> forall k {:trigger read(parts[k])} :: 0 <= k < |parts| ==> read(parts[k]).Some?
    ensures Pieces(parts, read).Some? ==>
      |Pieces(parts, read).value| == |parts|
      && forall k {:trigger read(parts[k])} :: 0 <= k < |parts| ==> Pieces(parts, read).value[k] == read(parts[k]).value
    decreases |parts|
  {
    if parts != [] {
      var init := parts[..|parts| - 1];
      PiecesAll(init, read);
      assert forall k :: 0 <= k < |init| ==> init[k] == parts[k];
    }
  }

  /// `coerce_elevation`, also used for lengths.
  function CoerceElevation(s: string): (r: Result<real, ParseError>)
    ensures r.Ok? <==> ParseF64(Trim(s)).Some?
    ensures r.Ok? ==> r.value == ParseF64(Trim(s)).value
    ensures r.Err? ==> r.error == ElevationMisconfigured
  {
    match ParseF64(Trim(s))
    case None => Err(ElevationMisconfigured)
    case Some(v) => Ok(v)
  }

  /// `coerce_speed`: a trimmed 32-bit integer.
  function CoerceSpeed(s: string): (r: Result<int, ParseError>)
    ensures r.Ok? <==> ParseI32(Trim(s)).Some?
    ensures r.Ok? ==> r.value == ParseI32(Trim(s)).value && I32Min <= r.value <= I32Max
    ensures r.Err? ==> r.error == SpeedMisconfigured
  {
    match ParseI32(Trim(s))
    case None => Err(SpeedMisconfigured)
    case Some(v) => Ok(v)
  }

  /// What `coerce_grade` computes: the trimmed text with every trailing `%`
  /// removed must parse; if the trimmed text ended in `%` the number is a
  /// percentage and is divided by 100.
  function Grade(s: string): Result<real, ParseError>
  {
    var t := Trim(s);
    match ParseF64(TrimEndMatches(t, '%'))
    case None => Err(GradeMisconfigured)
    case Some(g) => Ok(if EndsWith(t, '%') then g / 100.0 else g)
  }

  /// `coerce_grade`, which scales the parsed number in place.
  method CoerceGrade(s: string) returns (r: Result<real, ParseError>)
    ensures r == Grade(s)
  {
    var parsed := ParseF64(TrimEndMatches(Trim(s), '%'));
    if parsed.None? {
      return Err(GradeMisconfigured);
    }
    var grade := parsed.value;
    if EndsWith(Trim(s), '%') {
      grade := grade / 100.0;
    }
    return Ok(grade);
  }

  // ---------------------------------------------------------------------
  // Properties

  lemma SightTypeCycle(t: SightType)
    ensures t.Next() != t
    ensures t.Next().Next().Next() == t
  {
  }

  /// The station is read from the first two pieces, first times 100 plus
  /// second, and every piece parses.
  lemma StationValueOk(s: string)
    requires StationValue(s).Ok?
    ensures var parts := SplitTerminator(s, '+');
      && |parts| >= 2
      && (forall k {:trigger PieceValue(parts[k])} :: 0 <= k < |parts| ==> PieceValue(parts[k]).Some?)
      && StationValue(s).value == PieceValue(parts[0]).value * 100.0 + PieceValue(parts[1]).value
  {
    PiecesAll(SplitTerminator(s, '+'), PieceValue);
  }

  /// Conversely, two or more pieces that all parse make a station.
  lemma StationValueOfPieces(s: string)
    requires var parts := SplitTerminator(s, '+');
      |parts| >= 2 && forall k {:trigger PieceValue(parts[k])} :: 0 <= k < |parts| ==> PieceValue(parts[k]).Some?
    ensures var parts := SplitTerminator(s, '+');
      StationValue(s) == Ok(PieceValue(parts[0]).value * 100.0 + PieceValue(parts[1]).value)
  {
    var parts := SplitTerminator(s, '+');
    PiecesAll(parts, PieceValue);
    var v := Pieces(parts, PieceValue).value;
    var a, b := PieceValue(parts[0]).value, PieceValue(parts[1]).value;
    assert v[0] == a && v[1] == b;
    StationOfVector(s, v);
    CombineFirstTwo(v, a, b);
  }

  /// Fewer than two pieces is an error, whatever they hold.
  lemma StationNeedsTwoParts(s: string)
    requires |SplitTerminator(s, '+')| < 2
    ensures StationValue(s) == Err(StationMisconfigured)
  {
    PiecesAll(SplitTerminator(s, '+'), PieceValue);
  }

  /// Any piece that does not parse, the third or a later one included,
  /// makes the whole station an error.
  lemma StationEveryPartParses(s: string, k: nat)
    requires k < |SplitTerminator(s, '+')|
    requires PieceValue(SplitTerminator(s, '+')[k]).None?
    ensures StationValue(s) == Err(StationMisconfigured)
  {
    PiecesAll(SplitTerminator(s, '+'), PieceValue);
  }

  lemma {:induction false} SplitAppendLast(s: string, t: string)
    requires '+' !in t
    ensures Split(s + "+" + t, '+') == Split(s, '+') + [t]
    decreases |s|
  {
    var i := IndexOf(s, Chars({'+'}));
    IndexOfFirst(s, Chars({'+'}));
    var u := s + "+" + t;
    assert forall j :: 0 <= j < |s| ==> u[j] == s[j];
    if i < |s| {
      IndexOfAt(u, Chars({'+'}), i);
      assert u[..i] == s[..i];
      assert u[i + 1..] == s[i + 1..] + "+" + t;
      SplitAppendLast(s[i + 1..], t);
    } else {
      IndexOfAt(u, Chars({'+'}), |s|);
      assert u[..|s|] == s && u[|s| + 1..] == t;
      SplitNone(t, '+');
    }
  }

  /// A further well-formed piece after a valid station changes nothing:
  /// only the first two pieces contribute to the value.
  lemma StationExtraPartIgnored(s: string, t: string)
    requires StationValue(s).Ok? && !EndsWith(s, '+')
    requires t != "" && '+' !in t && PieceValue(t).Some?
    ensures StationValue(s + "+" + t) == StationValue(s)
  {
    var whole := Split(s, '+');
    SplitAppendLast(s, t);
    SplitLastEmpty(s, Chars({'+'}));
    assert SplitTerminator(s, '+') == whole;
    assert SplitTerminator(s + "+" + t, '+') == whole + [t];
    assert (whole + [t])[..|whole|] == whole;
  }

  /// Surrounding whitespace does not matter to elevations and speeds.
  lemma CoercePadded(w1: string, s: string, w2: string)
    requires Blank(w1) && Blank(w2)
    ensures CoerceElevation(w1 + s + w2) == CoerceElevation(s)
    ensures CoerceSpeed(w1 + s + w2) == CoerceSpeed(s)
  {
    TrimPadded(w1, s, w2);
  }

  /// Empty or blank text is an error for elevations and speeds.
  lemma CoerceBlank(w: string)
    requires Blank(w)
    ensures CoerceElevation(w) == Err(ElevationMisconfigured)
    ensures CoerceSpeed(w) == Err(SpeedMisconfigured)
  {
    TrimPadded(w, "", "");
    assert w + "" + "" == w;
  }

  /// Without a trailing `%` a grade is the plain number.
  lemma GradePlain(s: string)
    requires !EndsWith(Trim(s), '%')
    ensures Grade(s) == (match ParseF64(Trim(s)) case None => Err(GradeMisconfigured) case Some(g) => Ok(g))
  {
  }

  /// A trailing `%` divides by 100.
  lemma GradePercent(s: string)
    requires s == Trim(s) && !EndsWith(s, '%')
    requires Trim(s + "%") == s + "%"
    ensures Grade(s + "%") == (match ParseF64(s) case None => Err(GradeMisconfigured) case Some(g) => Ok(g / 100.0))
  {
    var t := s + "%";
    assert EndsWith(t, '%');
    assert t[..|t| - 1] == s;
    assert TrimEndMatches(t, '%') == s;
  }

  // ---------------------------------------------------------------------
  // Worked examples

  lemma SplitOfTrailing()
    ensures SplitTerminator("12+", '+') == ["12"]
  {
    SplitAt("12", '+', "");
    assert "12" + ['+'] + "" == "12+";
    SplitNone("", '+');
  }

  /// Two pieces without `+` in them, joined by one `+`, are read as the
  /// first times 100 plus the second.
  lemma StationOfTwo(a: string, b: string, x: real, y: real)
    requires '+' !in a && '+' !in b && b != ""
    requires PieceValue(a) == Some(x) && PieceValue(b) == Some(y)
    ensures StationValue(a + "+" + b) == Ok(x * 100.0 + y)
  {
    SplitAppendLast(a, b);
    SplitNone(a, '+');
    assert SplitTerminator(a + "+" + b, '+') == [a, b];
    StationValueOfPieces(a + "+" + b);
  }

  /// `12+34` is station 1234.
  lemma Station1234()
    ensures StationValue("12+34") == Ok(1234.0)
  {
    assert PieceValue("12") == Some(12.0) && PieceValue("34") == Some(34.0);
    StationOfTwo("12", "34", 12.0, 34.0);
    assert "12" + "+" + "34" == "12+34";
  }

  /// A minus sign applies to the hundreds only, as the pieces are added.
  lemma StationNegative()
    ensures StationValue("-10284+50") == Ok(-1028350.0)
  {
    assert PieceValue("-10284") == Some(-10284.0) && PieceValue("50") == Some(50.0);
    StationOfTwo("-10284", "50", -10284.0, 50.0);
    assert "-10284" + "+" + "50" == "-10284+50";
  }

  /// One piece, or one piece and a trailing `+`, is not a station.
  lemma StationOnePiece()
    ensures StationValue("12") == Err(StationMisconfigured)
    ensures StationValue("12+") == Err(StationMisconfigured)
  {
    SplitNone("12", '+');
    StationNeedsTwoParts("12");
    SplitOfTrailing();
    StationNeedsTwoParts("12+");
  }

  /// A grade may be written as a percentage or as a ratio.
  lemma GradeTwoPercent()
    ensures Grade("2%") == Ok(0.02)
  {
  }

  lemma GradeRatio()
    ensures Grade(" 0.02 ") == Ok(0.02)
  {
    assert Trim(" 0.02 ") == "0.02";
    assert ParseF64("0.02") == Some(Scale(2.0, -2));
  }

  lemma GradeSmallPercent()
    ensures Grade("0.44%") == Ok(0.0044)
    ensures Grade("-0.57%") == Ok(-0.0057)
  {
    assert ParseF64("0.44") == Some(Scale(44.0, -2));
    assert ParseF64("-0.57") == Some(-Scale(57.0, -2));
  }

  lemma GradeOnlyPercent()
    ensures Grade("%") == Err(GradeMisconfigured)
  {
  }

  /// Elevations are numbers of any sign; speeds are whole numbers.
  lemma ElevationPadded()
    ensures CoerceElevation(" 1001.38 ") == Ok(1001.38)
  {
    assert Trim(" 1001.38 ") == "1001.38";
    assert ParseF64("1001.38") == Some(Scale(100138.0, -2));
  }

  lemma ElevationInnerSpace()
    ensures CoerceElevation("12 34") == Err(ElevationMisconfigured)
  {
    assert Trim("12 34") == "12 34";
    ParseRejectsWhitespace("12 34", 2);
  }

  lemma SpeedExamples()
    ensures CoerceSpeed("45") == Ok(45)
    ensures CoerceSpeed("45.5") == Err(SpeedMisconfigured)
  {
  }
}
