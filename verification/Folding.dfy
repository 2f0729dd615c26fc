/**
 * Content lines on the wire: folding long lines, joining with CRLF, and the
 * reader's unfolding (RFC 5545 section 3.1).
 */
module Folding {
  import opened Text

  const CRLF: string := [CR, LF]
  const MAXIMUM_LENGTH: nat := 73

  /** No line break of its own. */
  predicate OneLine(s: string) {
    CR !in s && LF !in s
  }

  predicate Continues(s: string) {
    s != "" && (s[0] == ' ' || s[0] == '\t')
  }

  // ----- folding

  function Min(a: nat, b: nat): nat {
    if a < b then a else b
  }

  /** The continuation lines of what is left. */
  function FoldRest(remaining: string): seq<string> {
    if remaining == "" then []
    else
      var width := Min(MAXIMUM_LENGTH - 1, |remaining|);
      [" " + remaining[..width]] + FoldRest(remaining[width..])
  }

  function Fold(line: string): (folded: seq<string>)
    ensures folded != []
  {
    if |line| <= MAXIMUM_LENGTH then [line] else [line[..MAXIMUM_LENGTH]] + FoldRest(line[MAXIMUM_LENGTH..])
  }

  /** `foldLine`: a first chunk of 73, then chunks of 72 behind a space. */
  method FoldLine(line: string) returns (folded: seq<string>)
    ensures folded == Fold(line)
  {
    if |line| <= MAXIMUM_LENGTH {
      return [line];
    }
    folded := [];
    var remaining, first := line, true;
    while |remaining| > 0
      invariant if first then folded == [] && remaining == line else folded + FoldRest(remaining) == Fold(line)
      decreases |remaining|
    {
      var width := Min(if first then MAXIMUM_LENGTH else MAXIMUM_LENGTH - 1, |remaining|);
      var chunk := remaining[..width];
      remaining := remaining[width..];
      folded := folded + [if first then chunk else " " + chunk];
      first := false;
    }
  }

  function FoldAll(lines: seq<string>): seq<string> {
    if lines == [] then [] else Fold(lines[0]) + FoldAll(lines[1..])
  }

  lemma {:induction false} FoldRestWidth(remaining: string)
    requires OneLine(remaining)
    ensures forall p | p in FoldRest(remaining) :: |p| <= MAXIMUM_LENGTH && OneLine(p)
  {
    if remaining != "" {
      var width := Min(MAXIMUM_LENGTH - 1, |remaining|);
      FoldRestWidth(remaining[width..]);
      assert OneLine(" " + remaining[..width]);
    }
  }

  /** Every physical line is at most 73 characters long and holds no line break. */
  lemma {:induction false} PhysicalLinesFit(lines: seq<string>)
    requires forall l | l in lines :: OneLine(l)
    ensures forall p | p in FoldAll(lines) :: |p| <= MAXIMUM_LENGTH && OneLine(p)
  {
    if lines != [] {
      assert lines[0] in lines && forall l | l in lines[1..] :: l in lines;
      PhysicalLinesFit(lines[1..]);
      if |lines[0]| > MAXIMUM_LENGTH {
        FoldRestWidth(lines[0][MAXIMUM_LENGTH..]);
      }
    }
  }

  // ----- UTF-16 code units

  /** The length a string has in the source, where a character outside the basic plane counts twice. */
  function CodeUnits(s: string): nat {
    if s == "" then 0 else (if s[0] < '\U{10000}' then 1 else 2) + CodeUnits(s[1..])
  }

  predicate InBasicPlane(s: string) {
    forall i | 0 <= i < |s| :: s[i] < '\U{10000}'
  }

  /** Characters are code units exactly in the basic plane. */
  lemma {:induction false} BasicPlaneIff(s: string)
    ensures CodeUnits(s) >= |s|
    ensures CodeUnits(s) == |s| <==> InBasicPlane(s)
  {
    if s != "" {
      BasicPlaneIff(s[1..]);
      assert forall i | 1 <= i < |s| :: s[i] == s[1..][i - 1];
    }
  }

  lemma {:induction false} FoldRestPlane(remaining: string)
    requires InBasicPlane(remaining)
    ensures forall p | p in FoldRest(remaining) :: InBasicPlane(p)
  {
    if remaining != "" {
      var width := Min(MAXIMUM_LENGTH - 1, |remaining|);
      FoldRestPlane(remaining[width..]);
      assert InBasicPlane(" " + remaining[..width]);
    }
  }

  lemma FoldPlane(line: string)
    requires InBasicPlane(line)
    ensures forall p | p in Fold(line) :: CodeUnits(p) == |p|
  {
    if |line| > MAXIMUM_LENGTH {
      FoldRestPlane(line[MAXIMUM_LENGTH..]);
    }
    forall p | p in Fold(line) ensures CodeUnits(p) == |p| {
      BasicPlaneIff(p);
    }
  }

  /** Lines of the basic plane are cut where the source cuts them, and never exceed 73 code units. */
  lemma {:induction false} PhysicalUnitsFit(lines: seq<string>)
    requires forall l | l in lines :: OneLine(l) && InBasicPlane(l)
    ensures forall p | p in FoldAll(lines) :: CodeUnits(p) == |p| <= MAXIMUM_LENGTH
  {
    PhysicalLinesFit(lines);
    hide OneLine, InBasicPlane, CodeUnits, Fold;
    if lines != [] {
      assert lines[0] in lines && forall l | l in lines[1..] :: l in lines;
      PhysicalUnitsFit(lines[1..]);
      FoldPlane(lines[0]);
    }
  }

  // ----- the text on the wire

  /** `lines.flatMap(foldLine).join("\r\n") + "\r\n"`. */
  function Wire(lines: seq<string>): string {
    Join(FoldAll(lines), CRLF) + CRLF
  }

  /** The same text with every line followed by its own break. */
  function Terminated(lines: seq<string>): string {
    if lines == [] then "" else lines[0] + CRLF + Terminated(lines[1..])
  }

  lemma {:induction false} JoinIsTerminated(lines: seq<string>)
    requires lines != []
    ensures Join(lines, CRLF) + CRLF == Terminated(lines)
  {
    if |lines| > 1 {
      JoinIsTerminated(lines[1..]);
      assert lines[0] + CRLF + Join(lines[1..], CRLF) + CRLF == lines[0] + CRLF + (Join(lines[1..], CRLF) + CRLF);
    }
  }

  // ----- unfolding

  /** Both replacements: CRLF to LF, then every remaining CR to LF. */
  function NormalizeBreaks(source: string): string {
    ReplaceChars(ReplacePairs(source, CR, {LF}, [LF]), CR, [LF])
  }

  function SplitLines(s: string): (lines: seq<string>)
    ensures lines != []
  {
    if s == "" then [""]
    else
      var rest := SplitLines(s[1..]);
      if s[0] == LF then [""] + rest else [[s[0]] + rest[0]] + rest[1..]
  }

  function PhysicalLines(source: string): seq<string> {
    SplitLines(NormalizeBreaks(source))
  }

  /** `before` with `more` at the end of its last line. */
  function Extended(before: seq<string>, more: string): seq<string>
    requires before != []
  {
    before[|before| - 1 := before[|before| - 1] + more]
  }

  function Appended(before: seq<string>, line: string): seq<string> {
    if Continues(line) && before != [] then Extended(before, line[1..]) else before + [line]
  }

  /** Each continuation line is appended, without its first character, to the line before it. */
  function AppendAll(before: seq<string>, physical: seq<string>): seq<string>
    decreases |physical|
  {
    if physical == [] then before else AppendAll(Appended(before, physical[0]), physical[1..])
  }

  function Unfold(source: string): seq<string> {
    AppendAll([], PhysicalLines(source))
  }

  /** `unfoldLines`. */
  method UnfoldLines(source: string) returns (unfolded: seq<string>)
    ensures unfolded == Unfold(source)
  {
    var physicalLines := PhysicalLines(source);
    unfolded := [];
    for i := 0 to |physicalLines|
      invariant AppendAll(unfolded, physicalLines[i..]) == AppendAll([], physicalLines)
    {
      var line := physicalLines[i];
      assert physicalLines[i..][1..] == physicalLines[i + 1..];
      if Continues(line) && |unfolded| > 0 {
        unfolded := unfolded[|unfolded| - 1 := unfolded[|unfolded| - 1] + line[1..]];
      } else {
        unfolded := unfolded + [line];
      }
    }
  }

  // ----- the round trip

  lemma {:induction false} NormalizeLine(line: string, rest: string)
    requires OneLine(line)
    ensures NormalizeBreaks(line + CRLF + rest) == line + [LF] + NormalizeBreaks(rest)
  {
    var s := line + CRLF + rest;
    if line == "" {
      assert s[2..] == rest;
      assert ReplacePairs(s, CR, {LF}, [LF]) == [LF] + ReplacePairs(rest, CR, {LF}, [LF]);
      assert ([LF] + ReplacePairs(rest, CR, {LF}, [LF]))[1..] == ReplacePairs(rest, CR, {LF}, [LF]);
    } else {
      var tail := line[1..] + CRLF + rest;
      NormalizeLine(line[1..], rest);
      assert s[0] == line[0] && line[0] in line && s[1..] == tail;
      assert ReplacePairs(s, CR, {LF}, [LF]) == [line[0]] + ReplacePairs(tail, CR, {LF}, [LF]);
      assert ([line[0]] + ReplacePairs(tail, CR, {LF}, [LF]))[1..] == ReplacePairs(tail, CR, {LF}, [LF]);
      assert line + [LF] + NormalizeBreaks(rest) == [line[0]] + (line[1..] + [LF] + NormalizeBreaks(rest));
    }
  }

  lemma {:induction false} SplitLine(line: string, rest: string)
    requires LF !in line
    ensures SplitLines(line + [LF] + rest) == [line] + SplitLines(rest)
  {
    var s := line + [LF] + rest;
    if line == "" {
      assert s[1..] == rest;
    } else {
      SplitLine(line[1..], rest);
      assert s[0] == line[0] && line[0] in line && s[1..] == line[1..] + [LF] + rest;
      assert line == [line[0]] + line[1..];
    }
  }

  /** Reading terminated lines back gives the lines and one empty line after the last break. */
  lemma {:induction false} PhysicalLinesOfTerminated(lines: seq<string>)
    requires forall l | l in lines :: OneLine(l)
    ensures PhysicalLines(Terminated(lines)) == lines + [""]
  {
    if lines != [] {
      assert lines[0] in lines && forall l | l in lines[1..] :: l in lines;
      PhysicalLinesOfTerminated(lines[1..]);
      NormalizeLine(lines[0], Terminated(lines[1..]));
      SplitLine(lines[0], NormalizeBreaks(Terminated(lines[1..])));
      assert lines + [""] == [lines[0]] + (lines[1..] + [""]);
    }
  }

  lemma {:induction false} AppendAllConcat(before: seq<string>, a: seq<string>, b: seq<string>)
    ensures AppendAll(before, a + b) == AppendAll(AppendAll(before, a), b)
    decreases |a|
  {
    if a == [] {
      assert a + b == b;
    } else {
      assert (a + b)[1..] == a[1..] + b;
      AppendAllConcat(Appended(before, a[0]), a[1..], b);
    }
  }

  lemma ExtendedTwice(before: seq<string>, a: string, b: string)
    requires before != []
    ensures Extended(Extended(before, a), b) == Extended(before, a + b)
  {
    assert before[|before| - 1] + a + b == before[|before| - 1] + (a + b);
  }

  /** Continuation lines put back exactly what was cut off. */
  lemma {:induction false} UnfoldRest(before: seq<string>, remaining: string)
    requires before != []
    ensures AppendAll(before, FoldRest(remaining)) == Extended(before, remaining)
    decreases |remaining|
  {
    if remaining == "" {
      assert before[|before| - 1] + remaining == before[|before| - 1];
    } else {
      var width := Min(MAXIMUM_LENGTH - 1, |remaining|);
      var chunk, rest := remaining[..width], remaining[width..];
      assert (" " + chunk)[1..] == chunk;
      UnfoldRest(Extended(before, chunk), rest);
      ExtendedTwice(before, chunk, rest);
      assert chunk + rest == remaining;
      assert FoldRest(remaining)[1..] == FoldRest(rest);
    }
  }

  lemma AppendedInTwo(before: seq<string>, first: string, rest: string)
    requires first != ""
    ensures Extended(Appended(before, first), rest) == Appended(before, first + rest)
  {
    assert (first + rest)[0] == first[0] && (first + rest)[1..] == first[1..] + rest;
    if Continues(first) && before != [] {
      ExtendedTwice(before, first[1..], rest);
    }
  }

  /** A folded line unfolds to itself, appended as its own line or to the line it continues. */
  lemma UnfoldFolded(before: seq<string>, line: string)
    ensures AppendAll(before, Fold(line)) == Appended(before, line)
  {
    if |line| > MAXIMUM_LENGTH {
      var first, rest := line[..MAXIMUM_LENGTH], line[MAXIMUM_LENGTH..];
      assert Fold(line)[1..] == FoldRest(rest);
      UnfoldRest(Appended(before, first), rest);
      AppendedInTwo(before, first, rest);
      assert first + rest == line;
    } else {
      assert Fold(line)[1..] == [];
    }
  }

  /** Unfolding undoes folding, whatever the lines are: long lines behave as if never folded. */
  lemma {:induction false} UnfoldFoldAll(before: seq<string>, lines: seq<string>)
    ensures AppendAll(before, FoldAll(lines)) == AppendAll(before, lines)
    decreases |lines|
  {
    if lines != [] {
      AppendAllConcat(before, Fold(lines[0]), FoldAll(lines[1..]));
      UnfoldFolded(before, lines[0]);
      UnfoldFoldAll(Appended(before, lines[0]), lines[1..]);
    }
  }

  lemma UnfoldWire(lines: seq<string>)
    requires lines != [] && forall l | l in lines :: OneLine(l)
    ensures Unfold(Wire(lines)) == AppendAll([], lines + [""])
  {
    PhysicalLinesFit(lines);
    JoinIsTerminated(FoldAll(lines));
    PhysicalLinesOfTerminated(FoldAll(lines));
    UnfoldFoldAll([], lines);
    AppendAllConcat([], FoldAll(lines), [""]);
    AppendAllConcat([], lines, [""]);
  }

  lemma {:induction false} PlainLinesStay(before: seq<string>, lines: seq<string>)
    requires forall i | 0 <= i < |lines| :: Continues(lines[i]) ==> i == 0 && before == []
    ensures AppendAll(before, lines) == before + lines
    decreases |lines|
  {
    if lines == [] {
      assert before + lines == before;
    } else {
      forall i | 0 <= i < |lines[1..]| ensures !Continues(lines[1..][i]) {
        assert lines[1..][i] == lines[i + 1];
      }
      PlainLinesStay(before + [lines[0]], lines[1..]);
      assert before + lines == before + [lines[0]] + lines[1..];
    }
  }

  lemma {:induction false} ContinuationsShrink(before: seq<string>, lines: seq<string>)
    ensures |AppendAll(before, lines)| <= |before| + |lines|
    ensures (exists i | 0 <= i < |lines| :: Continues(lines[i]) && (i > 0 || before != [])) ==>
      |AppendAll(before, lines)| < |before| + |lines|
    decreases |lines|
  {
    if lines != [] {
      var after := Appended(before, lines[0]);
      ContinuationsShrink(after, lines[1..]);
      if i :| 0 <= i < |lines| && Continues(lines[i]) && (i > 0 || before != []) {
        if i > 0 {
          assert lines[1..][i - 1] == lines[i];
        }
      }
    }
  }

  /**
   * For nonempty lists of lines without line breaks, reading the wire text gives the lines back,
   * plus the empty line after the last break, exactly when no line but the first starts with a
   * space or a tab.
   */
  lemma FoldUnfoldRoundTrip(lines: seq<string>)
    requires lines != [] && forall l | l in lines :: OneLine(l)
    ensures Unfold(Wire(lines)) == lines + [""] <==> forall i | 1 <= i < |lines| :: !Continues(lines[i])
  {
    UnfoldWire(lines);
    var all := lines + [""];
    if forall i | 1 <= i < |lines| :: !Continues(lines[i]) {
      forall i | 0 <= i < |all| ensures Continues(all[i]) ==> i == 0 {
        assert i < |lines| ==> all[i] == lines[i];
      }
      PlainLinesStay([], all);
    } else {
      var i :| 1 <= i < |lines| && Continues(lines[i]);
      assert all[i] == lines[i];
      ContinuationsShrink([], all);
    }
  }

  /** The empty list is the one exception: its wire text reads back as two empty lines. */
  lemma NoLinesReadAsTwo()
    ensures Unfold(Wire([])) == ["", ""]
  {
    var none: string := "";
    assert Wire([]) == none + CRLF + none;
    NormalizeLine(none, none);
    SplitLine(none, none);
    assert [] + [LF] + none == none + [LF] + NormalizeBreaks(none);
    PlainLinesStay([], ["", ""]);
  }

  // ----- lines that others have folded

  /** Continuation lines: each piece behind a blank or a tab of its own. */
  function Continuations(pieces: seq<string>, tabs: seq<bool>): seq<string>
    requires |tabs| == |pieces|
  {
    if pieces == [] then [] else [[if tabs[0] then '\t' else ' '] + pieces[0]] + Continuations(pieces[1..], tabs[1..])
  }

  function Flat(pieces: seq<string>): string {
    if pieces == [] then "" else pieces[0] + Flat(pieces[1..])
  }

  /** However a writer cuts a line, and whether it goes on behind blanks or tabs, the reader has it back. */
  lemma {:induction false} AnyFoldIsUndone(before: seq<string>, line: string, pieces: seq<string>, tabs: seq<bool>)
    requires |tabs| == |pieces|
    ensures AppendAll(before + [line], Continuations(pieces, tabs)) == before + [line + Flat(pieces)]
    decreases |pieces|
  {
    if pieces == [] {
      assert line + "" == line;
    } else {
      var next := [if tabs[0] then '\t' else ' '] + pieces[0];
      assert next[1..] == pieces[0];
      assert Extended(before + [line], pieces[0]) == before + [line + pieces[0]];
      AnyFoldIsUndone(before, line + pieces[0], pieces[1..], tabs[1..]);
      assert line + pieces[0] + Flat(pieces[1..]) == line + Flat(pieces);
    }
  }
}
