/// src/sight_distance.rs: the older revision's reading of the Caltrans
/// sight-distance tables from text, the minimum sight distance taken from
/// such a table, and the crest-curve sight distance of a vertical curve.
/// Opening the table files is not part of this model: `ParseTable` gets
/// their lines. The file defines its own `SightType` with the same three
/// variants as `DataTypes.SightType`, which is used here.
module SightDistance {
  import opened Results
  import opened Text
  import opened RealMath
  import opened DataTypes
  import VerticalCreate

  /// The two table files the source reads.
  datatype TableFile = Table201_1 | Table201_7

  /// Stopping and passing sight distances come from Table 201.1, decision
  /// sight distance from Table 201.7.
  function TableFor(sightType: SightType): (r: TableFile)
    ensures r == Table201_7 <==> sightType == Decision
  {
    match sightType
    case Stopping => Table201_1
    case Passing => Table201_1
    case Decision => Table201_7
  }

  /// What one line of a table file contributes.
  datatype LineRow = Skip | Row(speed: int, values: seq<real>) | Misconfigured

  /// A line whose first whitespace-separated token is an `i32` is a row:
  /// that number, then the other tokens as `f64`s, every one of which must
  /// parse (the source panics otherwise). Any other line is skipped.
  function RowOf(line: string): (r: LineRow)
    ensures r.Skip? <==> |SplitWhitespace(line)| == 0 || ParseI32(SplitWhitespace(line)[0]).None?
    ensures r.Misconfigured? <==>
      && |SplitWhitespace(line)| >= 1 && ParseI32(SplitWhitespace(line)[0]).Some?
      && exists j :: 1 <= j < |SplitWhitespace(line)| && ParseF64(SplitWhitespace(line)[j]).None?
    ensures r.Row? ==> |SplitWhitespace(line)| >= 1 && ParseI32(SplitWhitespace(line)[0]) == Some(r.speed)
    ensures r.Row? ==> |r.values| == |SplitWhitespace(line)| - 1
    ensures r.Row? ==> forall j :: 0 <= j < |r.values| ==> ParseF64(SplitWhitespace(line)[j + 1]) == Some(r.values[j])
  {
    var tokens := SplitWhitespace(line);
    if |tokens| == 0 then Skip
    else
      match ParseI32(tokens[0])
      case None => Skip
      case Some(speed) =>
        PiecesAll(tokens[1..], ParseF64);
        assert forall j :: 1 <= j < |tokens| ==> tokens[1..][j - 1] == tokens[j];
        match Pieces(tokens[1..], ParseF64)
        case None => Misconfigured
        case Some(values) => Row(speed, values)
  }

  /// The table the lines make, read in order: each row is inserted under
  /// its speed, a later row replacing an earlier one; a misconfigured row
  /// anywhere fails the whole table.
  function TableOf(lines: seq<string>): Option<map<int, seq<real>>>
  {
    if lines == [] then Some(map[])
    else
      var table :- TableOf(lines[..|lines| - 1]);
      match RowOf(lines[|lines| - 1])
      case Skip => Some(table)
      case Row(speed, values) => Some(table[speed := values])
      case Misconfigured => None
  }

  /// `parse_table` on the lines of the chosen file.
  method ParseTable(lines: seq<string>) returns (r: Option<map<int, seq<real>>>)
    ensures r == TableOf(lines)
  {
    var arguments: map<int, seq<real>> := map[];
    for i := 0 to |lines|
      invariant TableOf(lines[..i]) == Some(arguments)
    {
      assert lines[..i + 1][..i] == lines[..i];
      var row := RowOf(lines[i]);
      match row
      case Skip =>
      case Row(speed, values) =>
        arguments := arguments[speed := values];
      case Misconfigured =>
        PrefixFails(lines, i + 1);
        return None;
    }
    assert lines[..|lines|] == lines;
    return Some(arguments);
  }

  /// Once the lines read so far fail, the whole table fails.
  lemma {:induction false} PrefixFails(lines: seq<string>, n: nat)
    requires n <= |lines| && TableOf(lines[..n]).None?
    ensures TableOf(lines).None?
    decreases |lines| - n
  {
    if n < |lines| {
      assert lines[..n + 1][..n] == lines[..n];
      PrefixFails(lines, n + 1);
    } else {
      assert lines[..n] == lines;
    }
  }

  /// Whether a line is a table row for the speed.
  predicate RowFor(line: string, speed: int)
  {
    RowOf(line).Row? && RowOf(line).speed == speed
  }

  /// A misconfigured row anywhere in the file fails the whole table.
  lemma MisconfiguredFails(lines: seq<string>, i: nat)
    requires i < |lines| && RowOf(lines[i]).Misconfigured?
    ensures TableOf(lines).None?
  {
    assert lines[..i + 1][..i] == lines[..i];
    PrefixFails(lines, i + 1);
  }

  /// A speed is in the table exactly when some line is a row for it.
  lemma {:induction false} TableKeys(lines: seq<string>, speed: int)
    requires TableOf(lines).Some?
    ensures speed in TableOf(lines).value <==> exists i :: 0 <= i < |lines| && RowFor(lines[i], speed)
    decreases |lines|
  {
    if lines != [] {
      var init := lines[..|lines| - 1];
      var last := lines[|lines| - 1];
      assert lines == init + [last];
      TableStep(init, last);
      TableKeys(init, speed);
      assert speed in TableOf(lines).value <==> speed in TableOf(init).value || RowFor(last, speed) by {
        match RowOf(last)
        case Skip =>
        case Row(_, _) =>
      }
      assert forall i :: 0 <= i < |init| ==> init[i] == lines[i];
    }
  }

  /// The speed's values are those of the last line that is a row for it.
  lemma {:induction false} TableHoldsLastRow(lines: seq<string>, speed: int, i: nat)
    requires TableOf(lines).Some?
    requires i < |lines| && RowFor(lines[i], speed)
    requires forall j :: i < j < |lines| ==> !RowFor(lines[j], speed)
    ensures speed in TableOf(lines).value && TableOf(lines).value[speed] == RowOf(lines[i]).values
    decreases |lines|
  {
    var init := lines[..|lines| - 1];
    if i < |lines| - 1 {
      assert forall j :: i < j < |init| ==> init[j] == lines[j];
      assert !RowFor(lines[|lines| - 1], speed);
      TableHoldsLastRow(init, speed, i);
    }
  }

  /// A line that is not a row leaves the table as it was; a row sets its
  /// speed and leaves every other speed as it was.
  lemma TableStep(lines: seq<string>, line: string)
    requires TableOf(lines + [line]).Some?
    ensures TableOf(lines).Some? && !RowOf(line).Misconfigured?
    ensures RowOf(line).Skip? ==> TableOf(lines + [line]) == TableOf(lines)
    ensures RowOf(line).Row? ==>
      var t := TableOf(lines + [line]).value;
      && t[RowOf(line).speed] == RowOf(line).values
      && forall s :: s in TableOf(lines).value && s != RowOf(line).speed ==> s in t && t[s] == TableOf(lines).value[s]
  {
    assert (lines + [line])[..|lines|] == lines;
  }

  /// Which value of a row each sight type reads: stopping and decision the
  /// first, passing the second.
  function Column(sightType: SightType): (c: nat)
    ensures c == 1 <==> sightType == Passing
    ensures c <= 1
  {
    match sightType
    case Stopping => 0
    case Passing => 1
    case Decision => 0
  }

  /// `calc_min_sight_distance`: the row of the design speed, the column of
  /// the sight type, raised by 20% on a sustained downgrade. A missing
  /// speed, or a row too short for the column, is the source's panic.
  method CalcMinSightDistance(table: map<int, seq<real>>, designSpeed: int, sightType: SightType, sustainedDowngrade: bool)
    returns (r: Option<real>)
    ensures r.Some? <==> designSpeed in table && Column(sightType) < |table[designSpeed]|
    ensures r.Some? && !sustainedDowngrade ==> r.value == table[designSpeed][Column(sightType)]
    ensures r.Some? && sustainedDowngrade ==> r.value == table[designSpeed][Column(sightType)] * 1.2
  {
    if designSpeed !in table {
      return None;
    }
    var row := table[designSpeed];
    var column := Column(sightType);
    if column >= |row| {
      return None;
    }
    var minimumSightDistance := row[column];
    if sustainedDowngrade {
      minimumSightDistance := minimumSightDistance * 1.2;
    }
    return Some(minimumSightDistance);
  }

  /// `calc_va_sight_distance`: for a crest curve (g1 > g2) the long-sight
  /// formula when it exceeds L, else the short-sight one when it falls
  /// below L, else the source panics; a sag curve gets the placeholder 2
  /// and equal grades 1. Unlike `VerticalCreate.CalcSightDistance` no
  /// absolute value is taken of the formulas.
  function CalcVaSightDistance(curve: VerticalCreate.VerticalCurve, sqrt: real -> real): (r: Option<real>)
    ensures curve.dimensions.incomingGrade < curve.dimensions.outgoingGrade ==> r == Some(2.0)
    ensures curve.dimensions.incomingGrade == curve.dimensions.outgoingGrade ==> r == Some(1.0)
    ensures r.Some? ==> r.value != curve.dimensions.curveLength || r.value == 1.0 || r.value == 2.0
  {
    var d := curve.dimensions;
    var gradeDiff := d.outgoingGrade - d.incomingGrade;
    var curveLength := d.curveLength;
    if d.incomingGrade > d.outgoingGrade then
      var eq1 := VerticalCreate.CrestLong(Abs(gradeDiff), curveLength);
      var eq2 := VerticalCreate.CrestShort(Abs(gradeDiff), curveLength, sqrt);
      if eq1 > curveLength then Some(eq1) else if eq2 < curveLength then Some(eq2) else None
    else if d.incomingGrade < d.outgoingGrade then Some(2.0)
    else Some(1.0)
  }

  /// On a crest the two revisions agree whenever square roots are never
  /// negative: the absolute values the newer one takes change nothing
  /// there.
  lemma CrestAgrees(curve: VerticalCreate.VerticalCurve, sqrt: real -> real)
    requires curve.dimensions.incomingGrade > curve.dimensions.outgoingGrade
    requires curve.dimensions.curveLength >= 0.0
    requires forall x :: sqrt(x) >= 0.0
    ensures CalcVaSightDistance(curve, sqrt) == VerticalCreate.CalcSightDistance(curve.dimensions, sqrt)
  {
    var d := curve.dimensions;
    var a := Abs(d.outgoingGrade - d.incomingGrade);
    assert a > 0.0;
    assert d.incomingGrade - d.outgoingGrade == a;
    var num := sqrt(1329.0) * sqrt(d.curveLength);
    assert num >= 0.0;
    assert VerticalCreate.CrestLong(a, d.curveLength) > 0.0;
    assert VerticalCreate.CrestShort(a, d.curveLength, sqrt) >= 0.0;
  }
}
