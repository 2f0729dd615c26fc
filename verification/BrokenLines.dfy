/**
 * Reading lines that hold carriage returns of their own: the reader takes each of them for a line
 * break, and what stands between them is unfolded like any other line.
 */
module BrokenLines {
  import opened Text
  import opened Folding

  lemma {:induction false} NoChars(s: string, c: char, with: string)
    requires c !in s
    ensures ReplaceChars(s, c, with) == s
  {
    if s != "" {
      NoChars(s[1..], c, with);
    }
  }

  /** The lines of a text without line feeds, cut at its carriage returns. */
  function Cut(s: string): (lines: seq<string>)
    ensures lines != []
  {
    SplitLines(ReplaceChars(s, CR, [LF]))
  }

  function CutAll(texts: seq<string>): seq<string> {
    if texts == [] then [] else Cut(texts[0]) + CutAll(texts[1..])
  }

  lemma {:induction false} CutAllConcat(a: seq<string>, b: seq<string>)
    ensures CutAll(a + b) == CutAll(a) + CutAll(b)
  {
    hide Cut;
    if a == [] {
      assert a + b == b;
    } else {
      assert (a + b)[1..] == a[1..] + b;
      CutAllConcat(a[1..], b);
    }
  }

  lemma CutOneLine(s: string)
    requires OneLine(s)
    ensures Cut(s) == [s]
  {
    NoChars(s, CR, [LF]);
    SplitNoBreak(s);
  }

  lemma {:induction false} SplitNoBreak(s: string)
    requires LF !in s
    ensures SplitLines(s) == [s]
  {
    if s != "" {
      SplitNoBreak(s[1..]);
      assert s == [s[0]] + s[1..];
    }
  }

  lemma {:induction false} CutAllOneLines(texts: seq<string>)
    requires forall t | t in texts :: OneLine(t)
    ensures CutAll(texts) == texts
  {
    hide Cut, OneLine;
    if texts != [] {
      assert texts[0] in texts && forall t | t in texts[1..] :: t in texts;
      CutOneLine(texts[0]);
      CutAllOneLines(texts[1..]);
      assert texts == [texts[0]] + texts[1..];
    }
  }

  // ----- line breaks

  lemma {:induction false} NormalizeText(text: string, rest: string)
    requires LF !in text
    ensures NormalizeBreaks(text + CRLF + rest) == ReplaceChars(text, CR, [LF]) + [LF] + NormalizeBreaks(rest)
  {
    var s := text + CRLF + rest;
    if text == "" {
      NormalizeLine("", rest);
    } else {
      var tail := text[1..] + CRLF + rest;
      NormalizeText(text[1..], rest);
      assert s[0] == text[0] && s[1..] == tail && text[0] in text;
      assert s[1] == if |text| > 1 then text[1] else CR;
      assert ReplacePairs(s, CR, {LF}, [LF]) == [s[0]] + ReplacePairs(tail, CR, {LF}, [LF]);
      OneMore(s[0], ReplacePairs(tail, CR, {LF}, [LF]));
      OneMore(text[0], text[1..]);
      assert text == [text[0]] + text[1..];
      var first := if text[0] == CR then LF else text[0];
      assert [first] + (ReplaceChars(text[1..], CR, [LF]) + [LF] + NormalizeBreaks(rest)) ==
             [first] + ReplaceChars(text[1..], CR, [LF]) + [LF] + NormalizeBreaks(rest);
    }
  }

  lemma OneMore(c: char, s: string)
    ensures ReplaceChars([c] + s, CR, [LF]) == [if c == CR then LF else c] + ReplaceChars(s, CR, [LF])
  {
    assert ([c] + s)[1..] == s;
  }

  lemma SplitCons(c: char, s: string)
    ensures var rest := SplitLines(s);
            SplitLines([c] + s) == if c == LF then [""] + rest else [[c] + rest[0]] + rest[1..]
  {
    assert ([c] + s)[1..] == s;
  }

  lemma FirstLonger(c: char, x: seq<string>, y: seq<string>)
    requires x != []
    ensures [[c] + (x + y)[0]] + (x + y)[1..] == [[c] + x[0]] + x[1..] + y
    ensures [""] + (x + y) == [""] + x + y
  {
    assert (x + y)[1..] == x[1..] + y;
  }

  lemma {:induction false} SplitConcat(a: string, b: string)
    ensures SplitLines(a + [LF] + b) == SplitLines(a) + SplitLines(b)
  {
    if a == "" {
      SplitCons(LF, b);
      assert a + [LF] + b == [LF] + b;
    } else {
      var rest := a[1..] + [LF] + b;
      SplitConcat(a[1..], b);
      SplitCons(a[0], rest);
      SplitCons(a[0], a[1..]);
      hide SplitLines;
      FirstLonger(a[0], SplitLines(a[1..]), SplitLines(b));
      assert a + [LF] + b == [a[0]] + rest && a == [a[0]] + a[1..];
    }
  }

  lemma {:induction false} PhysicalTexts(texts: seq<string>)
    requires forall t | t in texts :: LF !in t
    ensures PhysicalLines(Terminated(texts)) == CutAll(texts) + [""]
  {
    if texts != [] {
      assert texts[0] in texts && forall t | t in texts[1..] :: t in texts;
      PhysicalTexts(texts[1..]);
      NormalizeText(texts[0], Terminated(texts[1..]));
      hide NormalizeBreaks, SplitLines, ReplaceChars;
      SplitConcat(ReplaceChars(texts[0], CR, [LF]), NormalizeBreaks(Terminated(texts[1..])));
      assert CutAll(texts) + [""] == Cut(texts[0]) + (CutAll(texts[1..]) + [""]);
    }
  }

  // ----- unfolding

  lemma {:induction false} AppendBehind(before: seq<string>, lines: seq<string>, more: seq<string>)
    requires lines != []
    ensures AppendAll(before + lines, more) == before + AppendAll(lines, more)
    decreases |more|
  {
    if more != [] {
      var all := before + lines;
      assert all[|all| - 1] == lines[|lines| - 1];
      assert Appended(all, more[0]) == before + Appended(lines, more[0]);
      AppendBehind(before, Appended(lines, more[0]), more[1..]);
    }
  }

  /** A line that continues nothing starts over. */
  lemma StartsOver(before: seq<string>, physical: seq<string>)
    requires physical != [] && !Continues(physical[0])
    ensures AppendAll(before, physical) == before + AppendAll([], physical)
  {
    AppendBehind(before, [physical[0]], physical[1..]);
    assert [] + [physical[0]] == [physical[0]];
  }

  lemma {:induction false} FoldAllConcat(a: seq<string>, b: seq<string>)
    ensures FoldAll(a + b) == FoldAll(a) + FoldAll(b)
  {
    hide Fold;
    if a == [] {
      assert a + b == b;
    } else {
      assert (a + b)[1..] == a[1..] + b;
      FoldAllConcat(a[1..], b);
    }
  }

  lemma {:induction false} FoldRestKeepsOut(remaining: string, c: char)
    requires c !in remaining && c != ' '
    ensures forall p | p in FoldRest(remaining) :: c !in p
  {
    if remaining != "" {
      FoldRestKeepsOut(remaining[Min(MAXIMUM_LENGTH - 1, |remaining|)..], c);
    }
  }

  lemma FoldKeepsOut(line: string, c: char)
    requires c !in line && c != ' '
    ensures forall p | p in Fold(line) :: c !in p
  {
    if |line| > MAXIMUM_LENGTH {
      FoldRestKeepsOut(line[MAXIMUM_LENGTH..], c);
    }
  }

  /** The lines that the reader sees for one folded line. */
  function ReadLine(line: string): seq<string> {
    AppendAll([], CutAll(Fold(line)))
  }

  predicate PlainStart(line: string) {
    line != "" && line[0] != ' ' && line[0] != '\t' && line[0] != CR && line[0] != LF
  }

  lemma CutStart(s: string)
    requires PlainStart(s)
    ensures Cut(s)[0] != "" && Cut(s)[0][0] == s[0] && !Continues(Cut(s)[0])
  {}

  lemma FoldedStart(line: string)
    requires PlainStart(line)
    ensures CutAll(Fold(line)) != [] && !Continues(CutAll(Fold(line))[0])
  {
    CutStart(Fold(line)[0]);
    hide Cut;
  }

  predicate AllPlain(lines: seq<string>) {
    forall l | l in lines :: OneLine(l) && !Continues(l)
  }

  lemma PhysicalOfWire(lines: seq<string>)
    requires lines != [] && forall t | t in FoldAll(lines) :: LF !in t
    ensures Unfold(Wire(lines)) == AppendAll([], CutAll(FoldAll(lines)) + [""])
  {
    FoldAllNotEmpty(lines);
    JoinIsTerminated(FoldAll(lines));
    PhysicalTexts(FoldAll(lines));
    hide CutAll, FoldAll, NormalizeBreaks, SplitLines;
  }

  lemma FoldAllNotEmpty(lines: seq<string>)
    requires lines != []
    ensures FoldAll(lines) != []
  {}

  /** Plain lines stay lines of their own behind whatever was read before. */
  lemma PlainBehind(before: seq<string>, lines: seq<string>)
    requires AllPlain(lines)
    ensures AppendAll(before, CutAll(FoldAll(lines))) == before + lines
  {
    PhysicalLinesFit(lines);
    CutAllOneLines(FoldAll(lines));
    UnfoldFoldAll(before, lines);
    assert forall i | 0 <= i < |lines| :: lines[i] in lines;
    PlainLinesStay(before, lines);
  }

  lemma FoldedWithoutLF(lines: seq<string>)
    requires forall l | l in lines :: LF !in l
    ensures forall p | p in FoldAll(lines) :: LF !in p
  {
    if lines != [] {
      assert lines[0] in lines && forall l | l in lines[1..] :: l in lines;
      FoldKeepsOut(lines[0], LF);
      FoldedWithoutLF(lines[1..]);
    }
  }

  /**
   * Among plain lines, one line that may hold carriage returns reads as what it reads as alone, and
   * the others as themselves.
   */
  lemma OneBrokenLine(a: seq<string>, line: string, b: seq<string>)
    requires AllPlain(a) && AllPlain(b) && PlainStart(line) && LF !in line
    ensures Unfold(Wire(a + [line] + b)) == a + ReadLine(line) + b + [""]
  {
    var lines := a + [line] + b;
    forall l | l in lines ensures LF !in l {
      assert l in a || l == line || l in b;
    }
    FoldedWithoutLF(lines);
    FoldAllConcat(a + [line], b);
    FoldAllConcat(a, [line]);
    assert FoldAll([line]) == Fold(line) by {
      assert [line][1..] == [] && Fold(line) + [] == Fold(line);
    }
    CutAllConcat(FoldAll(a) + Fold(line), FoldAll(b));
    CutAllConcat(FoldAll(a), Fold(line));
    PhysicalOfWire(lines);
    hide Fold, FoldAll, CutAll, Unfold, Wire, OneLine, PlainStart;
    var x, y, z := CutAll(FoldAll(a)), CutAll(Fold(line)), CutAll(FoldAll(b));
    assert CutAll(FoldAll(lines)) + [""] == x + y + z + [""];
    AppendAllConcat([], x + y + z, [""]);
    AppendAllConcat([], x + y, z);
    AppendAllConcat([], x, y);
    PlainBehind([], a);
    FoldedStart(line);
    StartsOver(a, y);
    PlainBehind(a + ReadLine(line), b);
    assert [] + a == a;
    EmptyLast(a + ReadLine(line) + b);
  }

  lemma EmptyLast(before: seq<string>)
    ensures AppendAll(before, [""]) == before + [""]
  {
    assert [""][1..] == [];
  }
}
