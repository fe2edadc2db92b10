/// src/lib.rs: `parse_input`, which reads the older revision's `input.md`
/// as `key=value` lines. Opening the file is not part of this model:
/// `ParseInput` gets its lines.
module Lib {
  import opened Results
  import opened Text

  /// The map the lines make, read in order: a line is cut at its first
  /// `=` into key and value, untrimmed, a later key replacing an earlier
  /// one; a line without `=` is skipped.
  function InputOf(lines: seq<string>): map<string, string>
  {
    if lines == [] then map[]
    else
      var arguments := InputOf(lines[..|lines| - 1]);
      match SplitOnce(lines[|lines| - 1], '=')
      case None => arguments
      case Some((key, value)) => arguments[key := value]
  }

  /// `parse_input` on the lines of the file.
  method ParseInput(lines: seq<string>) returns (arguments: map<string, string>)
    ensures arguments == InputOf(lines)
  {
    arguments := map[];
    for i := 0 to |lines|
      invariant arguments == InputOf(lines[..i])
    {
      assert lines[..i + 1][..i] == lines[..i];
      var split := SplitOnce(lines[i], '=');
      match split
      case None =>
      case Some(args) =>
        arguments := arguments[args.0 := args.1];
    }
    assert lines[..|lines|] == lines;
  }

  /// Whether a line sets the key.
  predicate Sets(line: string, key: string)
  {
    SplitOnce(line, '=').Some? && SplitOnce(line, '=').value.0 == key
  }

  /// One more line: without `=` it changes nothing; with one it sets its
  /// key to the text after the first `=` and leaves every other key alone.
  lemma InputStep(lines: seq<string>, line: string)
    ensures '=' !in line ==> InputOf(lines + [line]) == InputOf(lines)
    ensures SplitOnce(line, '=').Some? <==> '=' in line
    ensures SplitOnce(line, '=').Some? ==>
      var key := SplitOnce(line, '=').value.0;
      var t := InputOf(lines + [line]);
      && line == key + "=" + SplitOnce(line, '=').value.1
      && key in t && t[key] == SplitOnce(line, '=').value.1
      && forall k :: k != key ==> (k in t <==> k in InputOf(lines)) && (k in t ==> t[k] == InputOf(lines)[k])
  {
    assert (lines + [line])[..|lines|] == lines;
    SplitOnceParts(line, '=');
  }

  /// A key is in the map exactly when some line sets it.
  lemma {:induction false} InputKeys(lines: seq<string>, key: string)
    ensures key in InputOf(lines) <==> exists i :: 0 <= i < |lines| && Sets(lines[i], key)
    decreases |lines|
  {
    if lines != [] {
      var init := lines[..|lines| - 1];
      var last := lines[|lines| - 1];
      InputKeys(init, key);
      assert key in InputOf(lines) <==> key in InputOf(init) || Sets(last, key);
      assert forall i :: 0 <= i < |init| ==> init[i] == lines[i];
    }
  }

  /// The key's value comes from the last line that sets it.
  lemma {:induction false} InputHoldsLastLine(lines: seq<string>, key: string, i: nat)
    requires i < |lines| && Sets(lines[i], key)
    requires forall j :: i < j < |lines| ==> !Sets(lines[j], key)
    ensures key in InputOf(lines) && InputOf(lines)[key] == SplitOnce(lines[i], '=').value.1
    decreases |lines|
  {
    var init := lines[..|lines| - 1];
    if i < |lines| - 1 {
      assert forall j :: i < j < |init| ==> init[j] == lines[j];
      assert !Sets(lines[|lines| - 1], key);
      InputHoldsLastLine(init, key, i);
    }
  }

  /// No key holds `=`: every key is the text before a line's first `=`.
  lemma {:induction false} KeysHoldNoEquals(lines: seq<string>)
    ensures forall k :: k in InputOf(lines) ==> '=' !in k
    decreases |lines|
  {
    if lines != [] {
      var last := lines[|lines| - 1];
      KeysHoldNoEquals(lines[..|lines| - 1]);
      SplitOnceParts(last, '=');
    }
  }

  /// A single line that sets `key` to `value`.
  lemma InputOfOne(key: string, value: string)
    requires '=' !in key
    ensures InputOf([key + "=" + value]) == map[key := value]
  {
    SplitOnceAt(key, '=', value);
    assert [key + "=" + value][..0] == [];
  }

  /// Nothing is trimmed: `R = 500` sets the key `R `.
  lemma InputUntrimmed()
    ensures InputOf(["R = 500"]) == map["R " := " 500"]
  {
    assert "R " + "=" + " 500" == "R = 500";
    InputOfOne("R ", " 500");
  }

  /// Only the first `=` cuts, and a line without one is skipped: after
  /// `a=b=c` and `no separator` the map holds just `a` set to `b=c`.
  lemma InputFirstSeparator(key: string, value: string, other: string)
    requires '=' !in key && '=' !in other
    ensures InputOf([key + "=" + value, other]) == map[key := value]
  {
    var first := key + "=" + value;
    InputOfOne(key, value);
    InputSkips([first], other);
    assert [first] + [other] == [first, other];
  }

  /// A line without `=` adds nothing.
  lemma InputSkips(lines: seq<string>, line: string)
    requires '=' !in line
    ensures InputOf(lines + [line]) == InputOf(lines)
  {
    assert (lines + [line])[..|lines|] == lines;
    SplitOnceNone(line, '=');
  }
}
