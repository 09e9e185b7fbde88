/** `Follow.to_frame` and `Follow.pprint`: the recorded calls as an indented tree,
    one line per call that survives the render-time masks. */
module Render {
  import opened Wrappers
  import opened Text
  import opened Tracer

  /** `to_frame`: the records with each filename reduced to its basename. */
  function ToFrame(timings: seq<Record>): (rows: seq<Record>)
    ensures |rows| == |timings|
    ensures forall i :: 0 <= i < |timings| ==>
              rows[i] == timings[i].(filename := Basename(timings[i].filename))
  {
    seq(|timings|, i requires 0 <= i < |timings| => timings[i].(filename := Basename(timings[i].filename)))
  }

  /** `name.startswith('__')`. */
  predicate IsDunder(name: string) {
    "__" <= name
  }

  /** The `pprint` mask: native calls (empty basename), lambdas, generator
      expressions, double-underscore names and, when `depth` is truthy, calls
      nested deeper than `depth`. `None` and `0` both mean no depth limit. */
  predicate Masked(row: Record, depth: Option<int>) {
    || row.filename == ""
    || row.funcName == "<lambda>"
    || row.funcName == "<genexpr>"
    || IsDunder(row.funcName)
    || (depth.Some? && depth.value != 0 && row.indent > depth.value)
  }

  /** `"{indent}{func_name} {filename}:{lineno}"` with `indent = " " * indent * 4`. */
  function FormatLine(row: Record): string {
    Spaces(4 * row.indent) + row.funcName + " " + row.filename + ":" + NatToString(row.lineno)
  }

  /** The formatted lines of the unmasked rows, in order. */
  function KeptLines(rows: seq<Record>, depth: Option<int>): (lines: seq<string>)
    ensures |lines| <= |rows|
    decreases |rows|
  {
    if |rows| == 0 then []
    else
      var last := rows[|rows| - 1];
      KeptLines(rows[..|rows| - 1], depth) + (if Masked(last, depth) then [] else [FormatLine(last)])
  }

  /** The positions of the unmasked rows, in increasing order. */
  function KeptIndices(rows: seq<Record>, depth: Option<int>): (idx: seq<nat>)
    ensures |idx| == |KeptLines(rows, depth)|
    ensures forall k :: 0 <= k < |idx| ==> idx[k] < |rows|
    ensures forall k, l :: 0 <= k < l < |idx| ==> idx[k] < idx[l]
    ensures forall i :: 0 <= i < |rows| ==> (i in idx <==> !Masked(rows[i], depth))
    decreases |rows|
  {
    if |rows| == 0 then []
    else
      var n := |rows| - 1;
      var init := rows[..n];
      var prev := KeptIndices(init, depth);
      assert forall i :: 0 <= i < n ==> init[i] == rows[i];
      prev + (if Masked(rows[n], depth) then [] else [n])
  }

  /** The k-th printed line is the formatted k-th kept row. */
  lemma {:induction false} KeptLinesAtKeptIndices(rows: seq<Record>, depth: Option<int>)
    ensures var idx := KeptIndices(rows, depth);
            forall k :: 0 <= k < |idx| ==> KeptLines(rows, depth)[k] == FormatLine(rows[idx[k]])
    decreases |rows|
  {
    if |rows| > 0 {
      var n := |rows| - 1;
      var init := rows[..n];
      KeptLinesAtKeptIndices(init, depth);
      var prev := KeptIndices(init, depth);
      var prevLines := KeptLines(init, depth);
      if Masked(rows[n], depth) {
        MatchedSnoc(rows, n, prev, prevLines, [], []);
      } else {
        MatchedSnoc(rows, n, prev, prevLines, [n], [FormatLine(rows[n])]);
      }
    }
  }

  /** Appending the last row's index and line keeps indices and lines in step. */
  lemma MatchedSnoc(rows: seq<Record>, n: nat, prev: seq<nat>, prevLines: seq<string>,
                    tailIdx: seq<nat>, tailLines: seq<string>)
    requires n < |rows| && |prev| == |prevLines|
    requires forall k :: 0 <= k < |prev| ==> prev[k] < n && prevLines[k] == FormatLine(rows[..n][prev[k]])
    requires (tailIdx == [] && tailLines == []) || (tailIdx == [n] && tailLines == [FormatLine(rows[n])])
    ensures forall k :: 0 <= k < |prev + tailIdx| ==>
              (prevLines + tailLines)[k] == FormatLine(rows[(prev + tailIdx)[k]])
  {
    forall k | 0 <= k < |prev + tailIdx|
      ensures (prevLines + tailLines)[k] == FormatLine(rows[(prev + tailIdx)[k]])
    {
      if k < |prev| {
        assert rows[..n][prev[k]] == rows[prev[k]];
      }
    }
  }

  /** `pprint(depth)`: the lines it prints, in order. */
  function Pprint(timings: seq<Record>, depth: Option<int>): (lines: seq<string>)
    ensures |lines| <= |timings|
    ensures |timings| == 0 ==> lines == []
  {
    KeptLines(ToFrame(timings), depth)
  }

  /** The output is exactly the order-preserving subsequence of the records that no
      mask hides, each formatted: there is a strictly increasing choice of
      positions, containing exactly the unmasked ones, whose lines are the output. */
  lemma PprintIsOrderedSubsequence(timings: seq<Record>, depth: Option<int>)
    ensures var rows := ToFrame(timings);
            var idx := KeptIndices(rows, depth);
            && |idx| == |Pprint(timings, depth)|
            && (forall k, l :: 0 <= k < l < |idx| ==> idx[k] < idx[l])
            && (forall i :: 0 <= i < |timings| ==> (i in idx <==> !Masked(rows[i], depth)))
            && (forall k :: 0 <= k < |idx| ==> idx[k] < |timings| && Pprint(timings, depth)[k] == FormatLine(rows[idx[k]]))
  {
    KeptLinesAtKeptIndices(ToFrame(timings), depth);
  }

  /** Rendering a log that grew by appending renders the old log, then the new records. */
  lemma {:induction false} KeptLinesAppend(a: seq<Record>, b: seq<Record>, depth: Option<int>)
    ensures KeptLines(a + b, depth) == KeptLines(a, depth) + KeptLines(b, depth)
    decreases |b|
  {
    if |b| == 0 {
      assert a + b == a;
    } else {
      var n := |b| - 1;
      KeptLinesAppend(a, b[..n], depth);
      var ab := a + b;
      assert ab[..|ab| - 1] == a + b[..n];
      assert ab[|ab| - 1] == b[n];
      var line := if Masked(b[n], depth) then [] else [FormatLine(b[n])];
      ConcatAssoc(KeptLines(a, depth), KeptLines(b[..n], depth), line);
    }
  }

  lemma ConcatAssoc<T>(x: seq<T>, y: seq<T>, z: seq<T>)
    ensures (x + y) + z == x + (y + z)
  {
  }

  lemma PprintAppend(a: seq<Record>, b: seq<Record>, depth: Option<int>)
    ensures Pprint(a + b, depth) == Pprint(a, depth) + Pprint(b, depth)
  {
    assert ToFrame(a + b) == ToFrame(a) + ToFrame(b);
    KeptLinesAppend(ToFrame(a), ToFrame(b), depth);
  }

  /** Records of native calls carry an empty filename and never reach the output. */
  lemma NativeCallsNeverRendered(r: Record, depth: Option<int>)
    requires r.filename == ""
    ensures Pprint([r], depth) == []
  {
    var rows := ToFrame([r]);
    assert rows[0].filename == "";
    assert Masked(rows[0], depth);
    assert rows[..0] == [];
    assert KeptLines(rows, depth) == KeptLines([], depth);
  }

  /** A depth of 0 is falsy and so behaves as no limit at all. */
  lemma {:induction false} ZeroDepthIsUnlimited(rows: seq<Record>)
    ensures KeptLines(rows, Some(0)) == KeptLines(rows, None)
    decreases |rows|
  {
    if |rows| > 0 {
      ZeroDepthIsUnlimited(rows[..|rows| - 1]);
    }
  }

  /** With a non-zero depth limit every printed call is nested at most that deep. */
  lemma DepthLimitBoundsIndent(timings: seq<Record>, d: int)
    requires d != 0
    ensures var rows := ToFrame(timings);
            var idx := KeptIndices(rows, Some(d));
            forall k :: 0 <= k < |idx| ==> rows[idx[k]].indent <= d
  {
  }

  /** The fields read back from one printed line. */
  datatype Parsed = Parsed(indent: nat, funcName: string, filename: string, lineno: nat)

  /** Read a printed line back: leading blanks in fours give the indent, the name
      runs to the first blank, and the line number follows the last colon. */
  function ParseLine(line: string): Option<Parsed> {
    var k := LeadingSpaces(line);
    if k % 4 != 0 then None
    else
      match ParseEntry(line[k..])
      case None => None
      case Some(e) => Some(Parsed(k / 4, e.0, e.1, e.2))
  }

  /** `name file:lineno` read back into its three parts. */
  function ParseEntry(rest: string): Option<(string, string, nat)> {
    match IndexOf(rest, ' ')
    case None => None
    case Some(sp) =>
      match ParseLocation(rest[sp + 1..])
      case None => None
      case Some(loc) => Some((rest[..sp], loc.0, loc.1))
  }

  /** `file:lineno` read back: the line number is the digits after the last colon. */
  function ParseLocation(tail: string): Option<(string, nat)> {
    match LastIndexOf(tail, ':')
    case None => None
    case Some(colon) =>
      var digits := tail[colon + 1..];
      if |digits| > 0 && AllDigits(digits) then Some((tail[..colon], DigitsValue(digits))) else None
  }

  /** Reading a printed line recovers the record's indent, name, file and line, so
      the indentation of the output reconstructs the nesting of the calls. Python
      identifiers are non-empty and hold no blank; the filename may be anything. */
  lemma FormatLineRoundTrip(row: Record)
    requires row.funcName != [] && ' ' !in row.funcName
    ensures ParseLine(FormatLine(row)) == Some(Parsed(row.indent, row.funcName, row.filename, row.lineno))
  {
    var digits := NatToString(row.lineno);
    NatToStringRoundTrip(row.lineno);
    var tail := row.filename + ":" + digits;
    var rest := row.funcName + " " + tail;
    assert FormatLine(row) == Spaces(4 * row.indent) + rest;
    ParseLocationOf(row.filename, digits);
    ParseEntryOf(row.funcName, tail);
    ParsePadded(row.indent, rest);
  }

  lemma ParsePadded(indent: nat, rest: string)
    requires rest != [] && rest[0] != ' '
    ensures ParseEntry(rest).Some? ==>
              ParseLine(Spaces(4 * indent) + rest)
              == Some(Parsed(indent, ParseEntry(rest).value.0, ParseEntry(rest).value.1, ParseEntry(rest).value.2))
  {
    var k := 4 * indent;
    var line := Spaces(k) + rest;
    LeadingSpacesOfPadded(k, rest);
    assert line[k..] == rest;
    assert k % 4 == 0 && k / 4 == indent;
  }

  lemma ParseEntryOf(name: string, tail: string)
    requires name != [] && ' ' !in name
    ensures ParseLocation(tail).Some? ==>
              ParseEntry(name + " " + tail)
              == Some((name, ParseLocation(tail).value.0, ParseLocation(tail).value.1))
  {
    var rest := name + " " + tail;
    IndexOfAfterWord(name, tail);
    assert rest[..|name|] == name;
    assert rest[|name| + 1..] == tail;
  }

  lemma ParseLocationOf(file: string, digits: string)
    requires |digits| > 0 && AllDigits(digits)
    ensures ParseLocation(file + ":" + digits) == Some((file, DigitsValue(digits)))
  {
    var tail := file + ":" + digits;
    assert ':' !in digits;
    LastIndexOfBeforeSuffix(file, digits);
    assert tail[..|file|] == file;
    assert tail[|file| + 1..] == digits;
  }

  lemma LeadingSpacesOfPadded(m: nat, rest: string)
    requires rest != [] && rest[0] != ' '
    ensures LeadingSpaces(Spaces(m) + rest) == m
  {
    assert (Spaces(m) + rest)[m] == rest[0];
  }

  lemma IndexOfAfterWord(word: string, tail: string)
    requires ' ' !in word
    ensures IndexOf(word + " " + tail, ' ') == Some(|word|)
  {
    assert (word + " " + tail)[|word|] == ' ';
  }

  lemma {:induction false} LastIndexOfBeforeSuffix(prefix: string, suffix: string)
    requires ':' !in suffix
    ensures LastIndexOf(prefix + ":" + suffix, ':') == Some(|prefix|)
    decreases |suffix|
  {
    var s := prefix + ":" + suffix;
    if |suffix| == 0 {
      assert s == prefix + ":";
    } else {
      var init := suffix[..|suffix| - 1];
      assert s[|s| - 1] == suffix[|suffix| - 1];
      assert s[..|s| - 1] == prefix + ":" + init;
      LastIndexOfBeforeSuffix(prefix, init);
    }
  }
}
