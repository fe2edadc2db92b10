/// The pieces of Rust's `str` API the source uses to read its text inputs:
/// `trim`, `split`, `split_terminator`, `split_once`, `split_whitespace`,
/// `ends_with`, `trim_end_matches`, and `parse` into `f64` and `i32`.
module Text {
  import opened Results

  /// Unicode's White_Space property, which is what `str::trim` and
  /// `str::split_whitespace` go by.
  predicate IsWhitespace(c: char)
  {
    var n := c as int;
    (9 <= n <= 13) || n == 32 || n == 0x85 || n == 0xA0 || n == 0x1680
    || (0x2000 <= n <= 0x200A) || n == 0x2028 || n == 0x2029 || n == 0x202F
    || n == 0x205F || n == 0x3000
  }

  /// What a split cuts at: a set of characters, or any whitespace.
  datatype Delims = Chars(chars: set<char>) | AnyWhitespace {
    predicate Has(c: char)
    {
      match this
      case Chars(cs) => c in cs
      case AnyWhitespace => IsWhitespace(c)
    }
  }

  function TrimStart(s: string): string
    decreases |s|
  {
    if |s| > 0 && IsWhitespace(s[0]) then TrimStart(s[1..]) else s
  }

  function TrimEnd(s: string): string
    decreases |s|
  {
    if |s| > 0 && IsWhitespace(s[|s| - 1]) then TrimEnd(s[..|s| - 1]) else s
  }

  /// `str::trim`.
  function Trim(s: string): string
  {
    TrimEnd(TrimStart(s))
  }

  /// The first index of `s` holding one of `delims`, or `|s|` when none does.
  function IndexOf(s: string, delims: Delims): (i: nat)
    ensures i <= |s|
    decreases |s|
  {
    if |s| == 0 then 0
    else if delims.Has(s[0]) then 0
    else 1 + IndexOf(s[1..], delims)
  }

  /// `IndexOf` finds the first delimiter: none comes before it, and it is
  /// one unless the text has none at all.
  lemma {:induction false} IndexOfFirst(s: string, delims: Delims)
    ensures var i := IndexOf(s, delims);
      && (i < |s| ==> delims.Has(s[i]))
      && (forall j :: 0 <= j < i ==> !delims.Has(s[j]))
    decreases |s|
  {
    if |s| > 0 && !delims.Has(s[0]) {
      IndexOfFirst(s[1..], delims);
      var i := IndexOf(s, delims);
      forall j | 0 <= j < i ensures !delims.Has(s[j]) {
        if j > 0 { assert s[j] == s[1..][j - 1]; }
      }
    }
  }

  /// `str::split` on any character of `delims`: the pieces between the
  /// delimiters, empty ones included; there is always at least one piece.
  function SplitAny(s: string, delims: Delims): (r: seq<string>)
    ensures |r| >= 1
    decreases |s|
  {
    var i := IndexOf(s, delims);
    if i == |s| then [s] else [s[..i]] + SplitAny(s[i + 1..], delims)
  }

  /// `str::split` on one character.
  function Split(s: string, c: char): seq<string>
  {
    SplitAny(s, Chars({c}))
  }

  /// `str::split_terminator`: like `split`, but a trailing empty piece is
  /// dropped (so the empty string has no pieces at all).
  function SplitTerminator(s: string, c: char): seq<string>
  {
    var parts := Split(s, c);
    if parts[|parts| - 1] == "" then parts[..|parts| - 1] else parts
  }

  /// `str::split_once`: the text before and after the first `c`.
  function SplitOnce(s: string, c: char): Option<(string, string)>
  {
    var i := IndexOf(s, Chars({c}));
    if i == |s| then None else Some((s[..i], s[i + 1..]))
  }

  function NonEmpty(parts: seq<string>): (r: seq<string>)
    ensures forall k :: 0 <= k < |r| ==> r[k] != ""
  {
    if parts == [] then []
    else if parts[0] == "" then NonEmpty(parts[1..])
    else [parts[0]] + NonEmpty(parts[1..])
  }

  /// `str::split_whitespace`: the non-empty runs of non-whitespace.
  function SplitWhitespace(s: string): seq<string>
  {
    NonEmpty(SplitAny(s, AnyWhitespace))
  }

  /// Re-joins pieces with one separator between each two: the inverse of `Split`.
  function Join(parts: seq<string>, c: char): string
    requires |parts| >= 1
  {
    if |parts| == 1 then parts[0] else parts[0] + [c] + Join(parts[1..], c)
  }

  predicate EndsWith(s: string, c: char)
  {
    |s| > 0 && s[|s| - 1] == c
  }

  /// `str::trim_end_matches` with a character pattern: every trailing
  /// copy of `c` is removed.
  function TrimEndMatches(s: string, c: char): (r: string)
    ensures |r| <= |s| && r == s[..|r|]
    ensures !EndsWith(r, c)
    ensures forall i :: |r| <= i < |s| ==> s[i] == c
    decreases |s|
  {
    if EndsWith(s, c) then TrimEndMatches(s[..|s| - 1], c) else s
  }

  // ---------------------------------------------------------------------
  // Number parsing

  predicate IsDigit(c: char)
  {
    '0' <= c <= '9'
  }

  predicate AllDigits(s: string)
  {
    forall i :: 0 <= i < |s| ==> IsDigit(s[i])
  }

  /// The value of a decimal digit character.
  function Digit(c: char): int
  {
    c as int - '0' as int
  }

  /// The number `n` with the digits `d` written after it.
  function Push(n: int, d: string): int
    decreases |d|
  {
    if d == [] then n else Push(n, d[..|d| - 1]) * 10 + Digit(d[|d| - 1])
  }

  /// The positional value of a digit string, most significant digit first.
  function DigitsValue(s: string): int
  {
    Push(0, s)
  }

  function Pow10(n: nat): (r: nat)
    ensures r >= 1
  {
    if n == 0 then 1 else 10 * Pow10(n - 1)
  }

  function Pow10Real(e: int): (r: real)
    ensures r > 0.0
  {
    if e >= 0 then Pow10(e) as real else 1.0 / Pow10(-e) as real
  }

  /// `m` times ten to the power `e`, one factor of ten at a time.
  function Scale(m: real, e: int): real
    decreases if e < 0 then -e else e
  {
    if e == 0 then m else if e > 0 then Scale(m, e - 1) * 10.0 else Scale(m, e + 1) / 10.0
  }

  /// Reads the digits of `s` from index `i` to the end onto `acc`; `any`
  /// says whether a digit has been read already. Anything but a digit is
  /// an error, and so is an empty run.
  function ScanDigits(s: string, i: nat, acc: int, any: bool): Option<int>
    decreases |s| - i
  {
    if i >= |s| then (if any then Some(acc) else None)
    else if IsDigit(s[i]) then ScanDigits(s, i + 1, acc * 10 + Digit(s[i]), true)
    else None
  }

  /// An optionally signed run of at least one decimal digit, from index `i`
  /// to the end of `s`.
  function ParseIntFrom(s: string, i: nat): Option<int>
  {
    if i < |s| && s[i] == '-' then
      match ScanDigits(s, i + 1, 0, false)
      case None => None
      case Some(n) => Some(-n)
    else if i < |s| && s[i] == '+' then ScanDigits(s, i + 1, 0, false)
    else ScanDigits(s, i, 0, false)
  }

  /// An optionally signed run of at least one decimal digit.
  function ParseInt(s: string): Option<int>
  {
    ParseIntFrom(s, 0)
  }

  const I32Min: int := -0x8000_0000
  const I32Max: int := 0x7FFF_FFFF

  /// `str::parse::<i32>`: no whitespace is allowed, and a value outside the
  /// 32-bit range is an error.
  function ParseI32(s: string): (r: Option<int>)
    ensures r.Some? ==> I32Min <= r.value <= I32Max
  {
    match ParseInt(s)
    case None => None
    case Some(n) => if I32Min <= n <= I32Max then Some(n) else None
  }

  /// Reads a decimal number from index `i` to the end of `s`: `n` holds the
  /// digits read so far as one integer, `k` how many of them came after the
  /// point, `point` whether the point has been read and `any` whether a
  /// digit has. After the digits may come `e` or `E` and a signed exponent.
  function ScanMantissa(s: string, i: nat, n: int, k: nat, point: bool, any: bool): Option<real>
    decreases |s| - i
  {
    if i >= |s| then (if any then Some(Scale(n as real, -(k as int))) else None)
    else if IsDigit(s[i]) then ScanMantissa(s, i + 1, n * 10 + Digit(s[i]), if point then k + 1 else k, point, true)
    else if s[i] == '.' && !point then ScanMantissa(s, i + 1, n, k, true, any)
    else if (s[i] == 'e' || s[i] == 'E') && any then
      match ParseIntFrom(s, i + 1)
      case None => None
      case Some(x) => Some(Scale(n as real, x - k))
    else None
  }

  /// `str::parse::<f64>` on decimal text: an optional sign, then digits with
  /// at most one point and at least one digit, then an optional exponent; no
  /// whitespace. The value is kept exact.
  function ParseF64(s: string): Option<real>
  {
    if |s| > 0 && s[0] == '-' then
      match ScanMantissa(s, 1, 0, 0, false, false)
      case None => None
      case Some(v) => Some(-v)
    else if |s| > 0 && s[0] == '+' then ScanMantissa(s, 1, 0, 0, false, false)
    else ScanMantissa(s, 0, 0, 0, false, false)
  }

  // ---------------------------------------------------------------------
  // The scanners agree with the positional reading of the digits

  /// `Scale` multiplies by a power of ten.
  lemma {:induction false} ScaleIsPower(m: real, e: int)
    ensures Scale(m, e) == m * Pow10Real(e)
    decreases if e < 0 then -e else e
  {
    if e > 0 {
      ScaleIsPower(m, e - 1);
      Pow10RealUp(e);
      Associate(m, Pow10Real(e - 1), 10.0);
    } else if e < 0 {
      ScaleIsPower(m, e + 1);
      Pow10RealDown(e);
      Associate(m, Pow10Real(e + 1), 0.1);
    }
  }

  lemma Pow10RealUp(e: int)
    requires e > 0
    ensures Pow10Real(e) == Pow10Real(e - 1) * 10.0
  {
  }

  lemma Pow10RealDown(e: int)
    requires e < 0
    ensures Pow10Real(e) == Pow10Real(e + 1) * 0.1
  {
    var n := -e;
    assert Pow10(n) == 10 * Pow10(n - 1);
  }

  lemma Associate(a: real, b: real, c: real)
    ensures a * b * c == a * (b * c)
  {
  }

  /// Writing `a` and then `b` after a number is writing `a + b`.
  lemma {:induction false} PushConcat(n: int, a: string, b: string)
    ensures Push(n, a + b) == Push(Push(n, a), b)
    decreases |b|
  {
    if b == [] {
      assert a + b == a;
    } else {
      var b' := b[..|b| - 1];
      assert (a + b)[..|a + b| - 1] == a + b';
      PushConcat(n, a, b');
    }
  }

  /// One digit written after `n`.
  lemma PushOne(n: int, c: char)
    ensures Push(n, [c]) == n * 10 + Digit(c)
  {
    assert [c][..0] == [];
  }

  /// Reading a run of digits: the scanner moves past it, having written
  /// its digits onto `acc`.
  lemma {:induction false} ScanDigitsRun(s: string, i: nat, j: nat, acc: int, any: bool)
    requires i <= j <= |s|
    requires forall m :: i <= m < j ==> IsDigit(s[m])
    ensures ScanDigits(s, i, acc, any) == ScanDigits(s, j, Push(acc, s[i..j]), any || i < j)
    decreases j - i
  {
    if i < j {
      ScanDigitsRun(s, i + 1, j, acc * 10 + Digit(s[i]), true);
      PushConcat(acc, [s[i]], s[i + 1..j]);
      PushOne(acc, s[i]);
      assert [s[i]] + s[i + 1..j] == s[i..j];
    } else {
      assert s[i..j] == [];
    }
  }

  /// The same for the digits of a mantissa, before or after the point.
  lemma {:induction false} ScanMantissaRun(s: string, i: nat, j: nat, n: int, k: nat, point: bool, any: bool)
    requires i <= j <= |s|
    requires forall m :: i <= m < j ==> IsDigit(s[m])
    ensures ScanMantissa(s, i, n, k, point, any)
      == ScanMantissa(s, j, Push(n, s[i..j]), if point then k + (j - i) else k, point, any || i < j)
    decreases j - i
  {
    if i < j {
      ScanMantissaRun(s, i + 1, j, n * 10 + Digit(s[i]), if point then k + 1 else k, point, true);
      PushConcat(n, [s[i]], s[i + 1..j]);
      PushOne(n, s[i]);
      assert [s[i]] + s[i + 1..j] == s[i..j];
    } else {
      assert s[i..j] == [];
    }
  }

  /// A non-empty digit string parses as its positional value, as an
  /// integer and as a number.
  lemma ParseDigits(s: string)
    requires |s| > 0 && AllDigits(s)
    ensures ParseInt(s) == Some(DigitsValue(s))
    ensures ParseF64(s) == Some(DigitsValue(s) as real)
  {
    ScanDigitsRun(s, 0, |s|, 0, false);
    ScanMantissaRun(s, 0, |s|, 0, 0, false, false);
    assert s[0..|s|] == s;
  }

  /// A leading minus sign negates the digits after it, and a plus sign is
  /// allowed.
  lemma ParseSignedDigits(s: string)
    requires |s| > 0 && AllDigits(s)
    ensures ParseInt("-" + s) == Some(-DigitsValue(s))
    ensures ParseInt("+" + s) == Some(DigitsValue(s))
    ensures ParseF64("-" + s) == Some(-(DigitsValue(s) as real))
    ensures ParseF64("+" + s) == Some(DigitsValue(s) as real)
  {
    var m, p := "-" + s, "+" + s;
    assert m[1..|m|] == s && p[1..|p|] == s;
    ScanDigitsRun(m, 1, |m|, 0, false);
    ScanDigitsRun(p, 1, |p|, 0, false);
    ScanMantissaRun(m, 1, |m|, 0, 0, false, false);
    ScanMantissaRun(p, 1, |p|, 0, 0, false, false);
  }

  /// Digits, a point and digits parse as the integer of all the digits
  /// scaled down by the number of digits after the point.
  lemma ParseDecimal(w: string, f: string)
    requires AllDigits(w) && AllDigits(f) && |w| + |f| > 0
    ensures ParseF64(w + "." + f) == Some(Scale(DigitsValue(w + f) as real, -|f|))
  {
    var s := w + "." + f;
    DecimalLayout(w, f);
    Unsigned(s);
    WholeRun(w, f);
    FracRun(w, f, DigitsValue(w), |w| > 0);
    PushConcat(0, w, f);
  }

  /// Past the digits before the point and the point itself.
  lemma WholeRun(w: string, f: string)
    requires AllDigits(w) && AllDigits(f)
    ensures var s := w + "." + f;
      ScanMantissa(s, 0, 0, 0, false, false) == ScanMantissa(s, |w| + 1, DigitsValue(w), 0, true, |w| > 0)
  {
    var s := w + "." + f;
    DecimalLayout(w, f);
    ScanMantissaRun(s, 0, |w|, 0, 0, false, false);
    PointStep(s, |w|, DigitsValue(w), |w| > 0);
  }

  /// Past the digits after the point, to the end.
  lemma FracRun(w: string, f: string, n: int, any: bool)
    requires AllDigits(w) && AllDigits(f)
    ensures var s := w + "." + f;
      ScanMantissa(s, |w| + 1, n, 0, true, any) == Some(Scale(Push(n, f) as real, -|f|)) || !(any || |f| > 0)
  {
    var s := w + "." + f;
    DecimalLayout(w, f);
    ScanMantissaRun(s, |w| + 1, |s|, n, 0, true, any);
  }

  lemma PointStep(s: string, i: nat, n: int, any: bool)
    requires i < |s| && s[i] == '.'
    ensures ScanMantissa(s, i, n, 0, false, any) == ScanMantissa(s, i + 1, n, 0, true, any)
  {
  }

  /// Where the digits and the point of `w + "." + f` are.
  lemma DecimalLayout(w: string, f: string)
    requires AllDigits(w) && AllDigits(f)
    ensures var s := w + "." + f;
      && s[0..|w|] == w && s[|w| + 1..|s|] == f && s[|w|] == '.'
      && (forall m :: 0 <= m < |w| ==> IsDigit(s[m]))
      && (forall m :: |w| + 1 <= m < |s| ==> IsDigit(s[m]))
      && s[0] != '-' && s[0] != '+'
  {
    var s := w + "." + f;
    assert forall m :: 0 <= m < |w| ==> s[m] == w[m];
    assert forall m :: |w| + 1 <= m < |s| ==> s[m] == f[m - |w| - 1];
    if |w| > 0 { assert s[0] == w[0]; }
  }

  /// Text that does not start with a sign is read from its first character.
  lemma Unsigned(s: string)
    requires |s| > 0 && s[0] != '-' && s[0] != '+'
    ensures ParseF64(s) == ScanMantissa(s, 0, 0, 0, false, false)
    ensures ParseInt(s) == ScanDigits(s, 0, 0, false)
  {
  }

  /// The characters a number's text may hold.
  predicate NumberChar(c: char)
  {
    IsDigit(c) || c == '.' || c == 'e' || c == 'E' || c == '+' || c == '-'
  }

  /// Any other character, wherever it stands, makes the parse fail.
  lemma {:induction false} ScanDigitsRejects(s: string, i: nat, acc: int, any: bool, j: nat)
    requires i <= j < |s| && !IsDigit(s[j])
    ensures ScanDigits(s, i, acc, any).None?
    decreases j - i
  {
    if i < j && IsDigit(s[i]) {
      ScanDigitsRejects(s, i + 1, acc * 10 + Digit(s[i]), true, j);
    }
  }

  lemma ParseIntFromRejects(s: string, i: nat, j: nat)
    requires i <= j < |s| && !NumberChar(s[j])
    ensures ParseIntFrom(s, i).None?
  {
    if i < |s| && (s[i] == '-' || s[i] == '+') {
      if i < j {
        ScanDigitsRejects(s, i + 1, 0, false, j);
      }
    } else {
      ScanDigitsRejects(s, i, 0, false, j);
    }
  }

  lemma {:induction false} ScanMantissaRejects(s: string, i: nat, n: int, k: nat, point: bool, any: bool, j: nat)
    requires i <= j < |s| && !NumberChar(s[j])
    ensures ScanMantissa(s, i, n, k, point, any).None?
    decreases j - i
  {
    if i < j {
      if IsDigit(s[i]) {
        ScanMantissaRejects(s, i + 1, n * 10 + Digit(s[i]), if point then k + 1 else k, point, true, j);
      } else if s[i] == '.' && !point {
        ScanMantissaRejects(s, i + 1, n, k, true, any, j);
      } else if (s[i] == 'e' || s[i] == 'E') && any {
        ParseIntFromRejects(s, i + 1, j);
      }
    }
  }

  lemma ParseRejects(s: string, j: nat)
    requires j < |s| && !NumberChar(s[j])
    ensures ParseF64(s).None? && ParseInt(s).None?
  {
    ParseIntFromRejects(s, 0, j);
    if |s| > 0 && (s[0] == '-' || s[0] == '+') {
      ScanMantissaRejects(s, 1, 0, 0, false, false, j);
    } else {
      ScanMantissaRejects(s, 0, 0, 0, false, false, j);
    }
  }

  /// The number text never holds whitespace, which is why the callers trim
  /// first.
  lemma ParseRejectsWhitespace(s: string, j: nat)
    requires j < |s| && IsWhitespace(s[j])
    ensures ParseF64(s).None? && ParseInt(s).None?
  {
    ParseRejects(s, j);
  }

  /// Empty text is not a number.
  lemma ParseEmpty()
    ensures ParseF64("") == None && ParseInt("") == None
  {
  }

  // ---------------------------------------------------------------------
  // Properties of the splitting functions

  lemma {:induction false} JoinSplit(s: string, c: char)
    ensures Join(Split(s, c), c) == s
    decreases |s|
  {
    var i := IndexOf(s, Chars({c}));
    IndexOfFirst(s, Chars({c}));
    if i < |s| {
      JoinSplit(s[i + 1..], c);
      assert Split(s, c) == [s[..i]] + Split(s[i + 1..], c);
      assert s == s[..i] + [c] + s[i + 1..];
    }
  }

  /// `split_once` cuts at the first separator: the key holds none of it,
  /// and key, separator and value put back together give the line.
  lemma SplitOnceParts(s: string, c: char)
    ensures SplitOnce(s, c).None? <==> c !in s
    ensures SplitOnce(s, c).Some? ==>
      var (k, v) := SplitOnce(s, c).value; c !in k && s == k + [c] + v
  {
    var i := IndexOf(s, Chars({c}));
    IndexOfFirst(s, Chars({c}));
    if i < |s| {
      assert c in s;
      var k := s[..i];
      assert forall j :: 0 <= j < |k| ==> k[j] == s[j];
      assert s == s[..i] + [c] + s[i + 1..];
    } else {
      assert forall j :: 0 <= j < |s| ==> s[j] != c;
    }
  }

  // ---------------------------------------------------------------------
  // Evaluation facts used by the worked examples of the other modules

  /// A split ends in an empty piece only when the text is empty or ends in
  /// a delimiter.
  lemma {:induction false} SplitLastEmpty(s: string, delims: Delims)
    ensures var r := SplitAny(s, delims);
      r[|r| - 1] == "" ==> s == "" || delims.Has(s[|s| - 1])
    decreases |s|
  {
    var i := IndexOf(s, delims);
    IndexOfFirst(s, delims);
    if i < |s| {
      SplitLastEmpty(s[i + 1..], delims);
      var rest := s[i + 1..];
      if rest != "" {
        assert rest[|rest| - 1] == s[|s| - 1];
      }
    }
  }

  lemma SplitNone(s: string, c: char)
    requires c !in s
    ensures Split(s, c) == [s]
  {
    assert forall j :: 0 <= j < |s| ==> !Chars({c}).Has(s[j]);
    IndexOfNone(s, Chars({c}));
  }

  lemma SplitAt(a: string, c: char, b: string)
    requires c !in a
    ensures Split(a + [c] + b, c) == [a] + Split(b, c)
  {
    var s := a + [c] + b;
    assert forall j :: 0 <= j < |a| ==> s[j] == a[j];
    assert s[|a|] == c;
    IndexOfAt(s, Chars({c}), |a|);
    assert s[..|a|] == a && s[|a| + 1..] == b;
  }

  /// Text with no delimiter in `a` splits into `a` and the pieces after
  /// the delimiter `x`, whichever of the delimiters `x` is.
  lemma SplitAnyAt(a: string, x: char, b: string, delims: Delims)
    requires forall j :: 0 <= j < |a| ==> !delims.Has(a[j])
    requires delims.Has(x)
    ensures SplitAny(a + [x] + b, delims) == [a] + SplitAny(b, delims)
  {
    var s := a + [x] + b;
    assert forall j :: 0 <= j < |a| ==> s[j] == a[j];
    assert s[|a|] == x;
    IndexOfAt(s, delims, |a|);
    assert s[..|a|] == a && s[|a| + 1..] == b;
  }

  /// `split_once` at a separator no earlier character matches.
  lemma SplitOnceAt(a: string, c: char, b: string)
    requires c !in a
    ensures SplitOnce(a + [c] + b, c) == Some((a, b))
  {
    var s := a + [c] + b;
    assert forall j :: 0 <= j < |a| ==> s[j] == a[j];
    assert s[|a|] == c;
    IndexOfAt(s, Chars({c}), |a|);
    assert s[..|a|] == a && s[|a| + 1..] == b;
  }

  /// `split_once` of a text without the separator.
  lemma SplitOnceNone(s: string, c: char)
    requires c !in s
    ensures SplitOnce(s, c).None?
  {
    IndexOfNone(s, Chars({c}));
  }

  lemma IndexOfNone(s: string, delims: Delims)
    requires forall i :: 0 <= i < |s| ==> !delims.Has(s[i])
    ensures IndexOf(s, delims) == |s|
  {
    IndexOfFirst(s, delims);
  }
  lemma IndexOfAt(s: string, delims: Delims, k: nat)
    requires k < |s| && delims.Has(s[k])
    requires forall j :: 0 <= j < k ==> !delims.Has(s[j])
    ensures IndexOf(s, delims) == k
  {
    IndexOfFirst(s, delims);
  }


  // ---------------------------------------------------------------------
  // Properties of trimming

  predicate Blank(w: string)
  {
    forall i :: 0 <= i < |w| ==> IsWhitespace(w[i])
  }

  lemma TrimNoWhitespace(s: string)
    requires forall i :: 0 <= i < |s| ==> !IsWhitespace(s[i])
    ensures Trim(s) == s
  {
  }

  /// Trimming ignores leading and trailing whitespace.
  lemma TrimPadded(w1: string, s: string, w2: string)
    requires Blank(w1) && Blank(w2)
    ensures Trim(w1 + s + w2) == Trim(s)
  {
    TrimStartPadded(w1, s + w2);
    assert w1 + s + w2 == w1 + (s + w2);
    TrimEndPadded(TrimStart(s), w2);
    TrimStartAppend(s, w2);
  }

  lemma {:induction false} TrimStartPadded(w: string, s: string)
    requires Blank(w)
    ensures TrimStart(w + s) == TrimStart(s)
    decreases |w|
  {
    if |w| > 0 {
      assert (w + s)[1..] == w[1..] + s;
      TrimStartPadded(w[1..], s);
    } else {
      assert w + s == s;
    }
  }

  lemma {:induction false} TrimEndPadded(s: string, w: string)
    requires Blank(w)
    ensures TrimEnd(s + w) == TrimEnd(s)
    decreases |w|
  {
    if |w| > 0 {
      assert (s + w)[..|s + w| - 1] == s + w[..|w| - 1];
      TrimEndPadded(s, w[..|w| - 1]);
    } else {
      assert s + w == s;
    }
  }

  /// Trailing whitespace does not change where the leading trim stops,
  /// unless the text is whitespace throughout.
  lemma {:induction false} TrimStartAppend(s: string, w: string)
    requires Blank(w)
    ensures TrimEnd(TrimStart(s + w)) == TrimEnd(TrimStart(s))
    decreases |s|
  {
    if |s| > 0 && IsWhitespace(s[0]) {
      assert (s + w)[1..] == s[1..] + w;
      TrimStartAppend(s[1..], w);
    } else if |s| > 0 {
      assert TrimStart(s + w) == s + w;
      TrimEndPadded(s, w);
    } else {
      assert s + w == w;
      TrimStartPadded(w, "");
      assert w + "" == w;
    }
  }
}
