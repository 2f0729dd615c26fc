/** Text values: what the printer's four replacements escape, and what the reader's four give back. */
module ICalText {
  import opened Text
  import opened ICalParser
  import opened CalendarExport

  predicate BreakPair(s: string) {
    |s| >= 2 && s[0] == CR && s[1] == LF
  }

  // ----- escaping in one pass

  /** The escape of one character, as section 3.3.11 of RFC 5545 has it. */
  function Coded(c: char): (code: string)
    ensures code != ""
  {
    if c == '\\' then "\\\\"
    else if c == LF then "\\n"
    else if c == ',' then "\\,"
    else if c == ';' then "\\;"
    else [c]
  }

  /** Character by character, a carriage return with its line feed being one. */
  function Escaped(s: string): string {
    if s == "" then ""
    else if BreakPair(s) then "\\n" + Escaped(s[2..])
    else Coded(s[0]) + Escaped(s[1..])
  }

  lemma ReplaceCharsStep(s: string, c: char, with: string)
    requires s != ""
    ensures ReplaceChars(s, c, with) == (if s[0] == c then with else [s[0]]) + ReplaceChars(s[1..], c, with)
  {}

  lemma ConcatTail(a: string, b: string)
    requires a != ""
    ensures a + b != "" && (a + b)[0] == a[0] && (a + b)[1..] == a[1..] + b
  {}

  lemma Regrouped(a: string, b: string, c: string)
    ensures a + (b + c) == a + b + c
  {}

  lemma {:induction false} ReplaceCharsConcat(a: string, b: string, c: char, with: string)
    ensures ReplaceChars(a + b, c, with) == ReplaceChars(a, c, with) + ReplaceChars(b, c, with)
  {
    if a == "" {
      assert a + b == b && ReplaceChars(a, c, with) == "";
    } else {
      hide ReplaceChars;
      ReplaceCharsStep(a, c, with);
      ConcatTail(a, b);
      ReplaceCharsStep(a + b, c, with);
      ReplaceCharsConcat(a[1..], b, c, with);
      Regrouped(if a[0] == c then with else [a[0]], ReplaceChars(a[1..], c, with), ReplaceChars(b, c, with));
    }
  }

  lemma ReplaceOne(x: char, c: char, with: string)
    ensures ReplaceChars([x], c, with) == if x == c then with else [x]
  {
    assert [x][1..] == "";
  }

  lemma ReplaceNeither(x: char, y: char, c: char, with: string)
    requires x != c && y != c
    ensures ReplaceChars([x, y], c, with) == [x, y]
  {
    ReplaceOne(y, c, with);
    assert [x, y][1..] == [y] && [x] + [y] == [x, y];
  }

  /** The three replacements after the first two. */
  function Later(s: string): string {
    ReplaceChars(ReplaceChars(ReplaceChars(s, LF, "\\n"), ',', "\\,"), ';', "\\;")
  }

  lemma LaterConcat(a: string, b: string)
    ensures Later(a + b) == Later(a) + Later(b)
  {
    ReplaceCharsConcat(a, b, LF, "\\n");
    var a1, b1 := ReplaceChars(a, LF, "\\n"), ReplaceChars(b, LF, "\\n");
    ReplaceCharsConcat(a1, b1, ',', "\\,");
    ReplaceCharsConcat(ReplaceChars(a1, ',', "\\,"), ReplaceChars(b1, ',', "\\,"), ';', "\\;");
    hide ReplaceChars;
  }

  lemma LaterOfPair(x: char)
    requires x != LF && x != ',' && x != ';'
    ensures Later(['\\', x]) == ['\\', x]
  {
    ReplaceNeither('\\', x, LF, "\\n");
    ReplaceNeither('\\', x, ',', "\\,");
    ReplaceNeither('\\', x, ';', "\\;");
    hide ReplaceChars;
  }

  lemma LaterOfOne(c: char)
    requires c != '\\'
    ensures Later([c]) == Coded(c)
  {
    ReplaceOne(c, LF, "\\n");
    ReplaceOne(c, ',', "\\,");
    ReplaceOne(c, ';', "\\;");
    assert "\\n" == ['\\', 'n'] && "\\," == ['\\', ','];
    ReplaceNeither('\\', 'n', ',', "\\,");
    ReplaceNeither('\\', 'n', ';', "\\;");
    ReplaceNeither('\\', ',', ';', "\\;");
    hide ReplaceChars;
  }

  function Backslashes(s: string): string {
    ReplaceChars(s, '\\', "\\\\")
  }

  function Breaks(s: string): string {
    ReplacePairs(s, CR, {LF}, "\\n")
  }

  lemma EscapeInSteps(s: string)
    ensures EscapeIcalText(s) == Later(Breaks(Backslashes(s)))
  {}

  lemma BackslashesFirst(s: string)
    requires s != ""
    ensures var rest := Backslashes(s[1..]);
            Backslashes(s) == (if s[0] == '\\' then ['\\', '\\'] else [s[0]]) + rest
    ensures var rest := Backslashes(s[1..]);
            (rest != "" <==> s[1..] != "") && (rest != "" ==> (rest[0] == LF <==> s[1] == LF))
  {}

  lemma BreaksStep(s: string, rest: string)
    ensures Breaks(['\\', '\\'] + rest) == ['\\', '\\'] + Breaks(rest)
    ensures Breaks([CR, LF] + rest) == "\\n" + Breaks(rest)
    ensures s != "" && !(s[0] == CR && |s| >= 2 && s[1] == LF) ==> Breaks(s) == [s[0]] + Breaks(s[1..])
  {
    var one, two := ['\\'] + rest, ['\\', '\\'] + rest;
    assert one[1..] == rest && Breaks(one) == ['\\'] + Breaks(rest);
    assert two[1..] == one && Breaks(two) == ['\\'] + Breaks(one);
    assert ['\\', '\\'] + Breaks(rest) == ['\\'] + (['\\'] + Breaks(rest));
    assert ([CR, LF] + rest)[2..] == rest;
  }

  lemma EscapeStep(s: string)
    requires s != ""
    ensures EscapeIcalText(s) ==
            if BreakPair(s) then "\\n" + EscapeIcalText(s[2..]) else Coded(s[0]) + EscapeIcalText(s[1..])
  {
    EscapeInSteps(s);
    EscapeInSteps(s[1..]);
    BackslashesFirst(s);
    var rest := Backslashes(s[1..]);
    hide EscapeIcalText, Backslashes, Breaks, Later;
    if BreakPair(s) {
      BackslashesFirst(s[1..]);
      EscapeInSteps(s[2..]);
      assert s[1..][1..] == s[2..];
      var behind := Backslashes(s[2..]);
      assert Backslashes(s) == [CR, LF] + behind;
      BreaksStep(s, behind);
      LaterConcat(['\\', 'n'], Breaks(behind));
      LaterOfPair('n');
      assert "\\n" == ['\\', 'n'];
    } else if s[0] == '\\' {
      BreaksStep(s, rest);
      LaterConcat(['\\', '\\'], Breaks(rest));
      LaterOfPair('\\');
      assert Coded(s[0]) == ['\\', '\\'];
    } else {
      BreaksStep(Backslashes(s), rest);
      assert Backslashes(s) == [s[0]] + rest && Backslashes(s)[1..] == rest;
      LaterConcat([s[0]], Breaks(rest));
      LaterOfOne(s[0]);
    }
  }

  /** The four replacements, one after the other, are the one pass. */
  lemma {:induction false} EscapeIsOnePass(s: string)
    ensures EscapeIcalText(s) == Escaped(s)
    decreases |s|
  {
    hide EscapeIcalText;
    if s == "" {
      NothingToEscape();
    } else {
      EscapeStep(s);
      EscapeIsOnePass(if BreakPair(s) then s[2..] else s[1..]);
    }
  }

  lemma NothingToEscape()
    ensures EscapeIcalText("") == ""
  {}

  // ----- reading back

  /** A backslash and a letter n, which an escaped text does not tell from an escaped line break. */
  predicate HidesBreak(s: string) {
    |s| >= 2 && s[0] == '\\' && (s[1] == 'n' || s[1] == 'N')
  }

  /** The escaped text after so many of the reader's four replacements. */
  function Stage(s: string, k: nat): string {
    if s == "" then ""
    else if k >= 1 && HidesBreak(s) then "\\ " + Stage(s[2..], k)
    else if BreakPair(s) then (if k >= 1 then " " else "\\n") + Stage(s[2..], k)
    else (if k >= 1 && s[0] == LF then " "
          else if k >= 2 && s[0] == ',' then ","
          else if k >= 3 && s[0] == ';' then ";"
          else if k >= 4 && s[0] == '\\' then "\\"
          else Coded(s[0])) + Stage(s[1..], k)
  }

  /** The characters that the k-th replacement takes with a backslash in front, and what it puts for them. */
  function Seconds(k: nat): set<char> {
    if k == 1 then {'n', 'N'} else if k == 2 then {','} else if k == 3 then {';'} else {'\\'}
  }

  function Replacement(k: nat): string {
    if k == 1 then " " else if k == 2 then "," else if k == 3 then ";" else "\\"
  }

  lemma PairTaken(x: char, rest: string, seconds: set<char>, with: string)
    requires x in seconds
    ensures ReplacePairs(['\\', x] + rest, '\\', seconds, with) == with + ReplacePairs(rest, '\\', seconds, with)
  {
    assert (['\\', x] + rest)[2..] == rest;
  }

  lemma PlainKept(c: char, rest: string, seconds: set<char>, with: string)
    requires c != '\\'
    ensures ReplacePairs([c] + rest, '\\', seconds, with) == [c] + ReplacePairs(rest, '\\', seconds, with)
  {
    assert ([c] + rest)[1..] == rest;
  }

  lemma BackslashKept(rest: string, seconds: set<char>, with: string)
    requires rest == "" || rest[0] !in seconds
    ensures ReplacePairs(['\\'] + rest, '\\', seconds, with) == ['\\'] + ReplacePairs(rest, '\\', seconds, with)
  {
    assert (['\\'] + rest)[1..] == rest;
  }

  /** What the k-th replacement makes of the text. */
  function Pass(s: string, k: nat): string {
    ReplacePairs(s, '\\', Seconds(k), Replacement(k))
  }

  lemma PassTakes(code: string, rest: string, k: nat)
    requires |code| == 2 && code[0] == '\\' && code[1] in Seconds(k)
    ensures Pass(code + rest, k) == Replacement(k) + Pass(rest, k)
  {
    PairTaken(code[1], rest, Seconds(k), Replacement(k));
    assert code == ['\\', code[1]];
  }

  lemma PassKeeps(code: string, rest: string, k: nat)
    requires (|code| == 1 && code[0] != '\\') || (|code| == 2 && code[0] == '\\' && code[1] !in Seconds(k))
    requires code == "\\\\" && rest != "" ==> rest[0] !in Seconds(k)
    ensures Pass(code + rest, k) == code + Pass(rest, k)
  {
    var seconds, with := Seconds(k), Replacement(k);
    hide ReplacePairs, Seconds, Replacement;
    if |code| == 1 {
      PlainKept(code[0], rest, seconds, with);
      assert code == [code[0]];
    } else {
      var behind := [code[1]] + rest;
      BackslashKept(behind, seconds, with);
      if code[1] == '\\' {
        BackslashKept(rest, seconds, with);
      } else {
        PlainKept(code[1], rest, seconds, with);
      }
      assert code + rest == ['\\'] + behind && code + Pass(rest, k) == ['\\'] + ([code[1]] + Pass(rest, k));
    }
  }

  lemma StageFirst(s: string, k: nat)
    requires s != "" && 1 <= k <= 3
    ensures Stage(s, k - 1) != "" && (Stage(s, k - 1)[0] in Seconds(k) ==> k == 1 && s[0] in {'n', 'N'})
  {}

  lemma HiddenAtFirst(s: string, rest: string)
    requires HidesBreak(s) && rest == Stage(s[2..], 0)
    ensures Stage(s, 0) == ['\\'] + (['\\', s[1]] + rest)
  {
    assert s[1..][1..] == s[2..] && Stage(s[1..], 0) == [s[1]] + rest;
  }

  lemma HiddenStep(s: string, k: nat)
    requires HidesBreak(s) && 1 <= k <= 4 && Pass(Stage(s[2..], k - 1), k) == Stage(s[2..], k)
    ensures Pass(Stage(s, k - 1), k) == Stage(s, k)
  {
    var rest := Stage(s[2..], k - 1);
    assert Stage(s, k) == "\\ " + Stage(s[2..], k);
    if k == 1 {
      HiddenAtFirst(s, rest);
      var behind := ['\\', s[1]] + rest;
      hide Stage, ReplacePairs;
      PassTakes(['\\', s[1]], rest, k);
      BackslashKept(behind, Seconds(k), Replacement(k));
      assert "\\ " + Pass(rest, k) == ['\\'] + (" " + Pass(rest, k));
    } else {
      assert Stage(s, k - 1) == "\\ " + rest;
      hide ReplacePairs, Stage;
      PassKeeps("\\ ", rest, k);
    }
  }

  lemma {:induction false} StageStep(s: string, k: nat)
    requires 1 <= k <= 4
    ensures Pass(Stage(s, k - 1), k) == Stage(s, k)
    decreases |s|
  {
    if s == "" {
    } else if HidesBreak(s) {
      StageStep(s[2..], k);
      HiddenStep(s, k);
    } else {
      var tail := if BreakPair(s) then s[2..] else s[1..];
      var rest := Stage(tail, k - 1);
      StageStep(tail, k);
      var code := if BreakPair(s) || s[0] == LF then (if k >= 2 then " " else "\\n")
                  else if k >= 3 && s[0] == ',' then "," else if k >= 4 && s[0] == ';' then ";" else Coded(s[0]);
      assert Stage(s, k - 1) == code + rest;
      if s[0] == '\\' && k <= 3 && tail != "" {
        StageFirst(tail, k);
      }
      hide Pass;
      if |code| == 2 && code[1] in Seconds(k) {
        PassTakes(code, rest, k);
      } else {
        PassKeeps(code, rest, k);
      }
    }
  }

  lemma {:induction false} StageOfNone(s: string)
    ensures Stage(s, 0) == Escaped(s)
    decreases |s|
  {
    if s != "" {
      StageOfNone(if BreakPair(s) then s[2..] else s[1..]);
    }
  }

  /** Every line break, of one character or two, as one blank. */
  function OnOneLine(s: string): string {
    if s == "" then ""
    else if BreakPair(s) then " " + OnOneLine(s[2..])
    else (if s[0] == LF then " " else [s[0]]) + OnOneLine(s[1..])
  }

  /** What is read back: in addition, every n behind a backslash has become a blank. */
  function ReadBack(s: string): string {
    if s == "" then ""
    else if HidesBreak(s) then "\\ " + ReadBack(s[2..])
    else if BreakPair(s) then " " + ReadBack(s[2..])
    else (if s[0] == LF then " " else [s[0]]) + ReadBack(s[1..])
  }

  lemma {:induction false} StageOfAll(s: string)
    ensures Stage(s, 4) == ReadBack(s)
    decreases |s|
  {
    if s != "" {
      StageOfAll(if HidesBreak(s) || BreakPair(s) then s[2..] else s[1..]);
    }
  }

  lemma UnescapeInSteps(s: string)
    ensures UnescapeText(s) == Trim(Pass(Pass(Pass(Pass(s, 1), 2), 3), 4))
  {
    assert Seconds(1) == {'n', 'N'} && Seconds(2) == {','} && Seconds(3) == {';'} && Seconds(4) == {'\\'};
    assert Replacement(1) == " " && Replacement(2) == "," && Replacement(3) == ";" && Replacement(4) == "\\";
  }

  /** For every text: what the reader makes of what the printer wrote. */
  lemma EscapedIsReadBack(s: string)
    ensures UnescapeText(EscapeIcalText(s)) == Trim(ReadBack(s))
  {
    EscapeIsOnePass(s);
    StageOfNone(s);
    StageStep(s, 1);
    StageStep(s, 2);
    StageStep(s, 3);
    StageStep(s, 4);
    StageOfAll(s);
    UnescapeInSteps(Escaped(s));
    hide Pass, Stage, Escaped, UnescapeText, EscapeIcalText, ReadBack;
  }

  // ----- when it is the text itself

  /** No backslash stands before a letter n. */
  predicate NothingHidden(s: string) {
    forall i | 0 <= i < |s| - 1 && s[i] == '\\' :: s[i + 1] != 'n' && s[i + 1] != 'N'
  }

  lemma NothingHiddenTail(s: string)
    requires s != ""
    ensures NothingHidden(s) <==> !HidesBreak(s) && NothingHidden(s[1..])
  {
    var tail := s[1..];
    assert forall i | 0 <= i < |tail| :: tail[i] == s[i + 1];
    if !HidesBreak(s) && NothingHidden(tail) {
      forall i | 0 <= i < |s| - 1 && s[i] == '\\' ensures s[i + 1] != 'n' && s[i + 1] != 'N' {
        if i > 0 {
          assert tail[i - 1] == s[i];
        }
      }
    } else if NothingHidden(s) {
      forall i | 0 <= i < |tail| - 1 && tail[i] == '\\' ensures tail[i + 1] != 'n' && tail[i + 1] != 'N' {
        assert s[i + 1] == '\\';
      }
    }
  }

  /** Where the two texts differ, a blank stands for an n, and a backslash before it. */
  predicate BlanksForN(a: string, b: string) {
    && |a| == |b|
    && forall i | 0 <= i < |a| && a[i] != b[i] :: a[i] == ' ' && !IsSpace(b[i]) && i > 0 && a[i - 1] == '\\'
  }

  lemma BlanksForNCons(head: string, other: string, a: string, b: string)
    requires BlanksForN(a, b) && BlanksForN(head, other)
    ensures BlanksForN(head + a, other + b)
  {
    var x, y := head + a, other + b;
    forall i | 0 <= i < |x| && x[i] != y[i] ensures x[i] == ' ' && !IsSpace(y[i]) && i > 0 && x[i - 1] == '\\' {
      if i >= |head| {
        assert a[i - |head|] != b[i - |head|] && x[i - 1] == a[i - |head| - 1];
      }
    }
  }

  lemma HiddenIsLost(s: string)
    requires HidesBreak(s)
    ensures ReadBack(s) == "\\ " + ReadBack(s[2..]) && OnOneLine(s) == ['\\', s[1]] + OnOneLine(s[2..])
  {
    assert s[1..][1..] == s[2..] && OnOneLine(s[1..]) == [s[1]] + OnOneLine(s[2..]);
    assert ['\\'] + ([s[1]] + OnOneLine(s[2..])) == ['\\', s[1]] + OnOneLine(s[2..]);
  }

  /** What is in front of the rest, where nothing is hidden. */
  function Front(s: string): string
    requires s != ""
  {
    if BreakPair(s) || s[0] == LF then " " else [s[0]]
  }

  function Rest(s: string): string
    requires s != ""
  {
    if BreakPair(s) then s[2..] else s[1..]
  }

  lemma FrontIsKept(s: string)
    requires s != "" && !HidesBreak(s)
    ensures ReadBack(s) == Front(s) + ReadBack(Rest(s)) && OnOneLine(s) == Front(s) + OnOneLine(Rest(s))
    ensures NothingHidden(s) <==> NothingHidden(Rest(s))
  {
    NothingHiddenTail(s);
    if BreakPair(s) {
      NothingHiddenTail(s[1..]);
      assert s[1..][1..] == s[2..];
    }
    hide NothingHidden;
  }

  lemma {:induction false} OnlyNsAreLost(s: string)
    ensures BlanksForN(ReadBack(s), OnOneLine(s)) && (ReadBack(s) == OnOneLine(s) <==> NothingHidden(s))
    decreases |s|
  {
    if s == "" {
    } else if HidesBreak(s) {
      OnlyNsAreLost(s[2..]);
      HiddenIsLost(s);
      NothingHiddenTail(s);
      var a, b := ReadBack(s[2..]), OnOneLine(s[2..]);
      hide ReadBack, OnOneLine, NothingHidden;
      BlanksForNCons("\\ ", ['\\', s[1]], a, b);
      assert ("\\ " + a)[1] == ' ' && (['\\', s[1]] + b)[1] == s[1];
    } else {
      FrontIsKept(s);
      OnlyNsAreLost(Rest(s));
      var a, b, front := ReadBack(Rest(s)), OnOneLine(Rest(s)), Front(s);
      hide ReadBack, OnOneLine, NothingHidden, BlanksForN, Front, Rest, HidesBreak, BreakPair;
      SameFront(front, a, b);
    }
  }

  lemma SameFront(front: string, a: string, b: string)
    requires BlanksForN(a, b)
    ensures BlanksForN(front + a, front + b) && (front + a == front + b <==> a == b)
  {
    BlanksForNCons(front, front, a, b);
    assert (front + a)[|front|..] == a && (front + b)[|front|..] == b;
  }

  lemma {:induction false} TrimEndStops(s: string, i: nat)
    requires i < |s| && !IsSpace(s[i])
    ensures i < |TrimEnd(s)| && TrimEnd(s) <= s
  {
    if IsSpace(s[|s| - 1]) {
      TrimEndStops(s[..|s| - 1], i);
    }
  }

  lemma {:induction false} TrimEndIsPrefix(s: string)
    ensures TrimEnd(s) <= s
  {
    if s != "" && IsSpace(s[|s| - 1]) {
      TrimEndIsPrefix(s[..|s| - 1]);
    }
  }

  lemma {:induction false} TrimKeepsDifferences(a: string, b: string)
    requires BlanksForN(a, b)
    ensures Trim(a) == Trim(b) <==> a == b
  {
    if a != "" && IsSpace(a[0]) {
      assert a[0] == b[0];
      forall i | 0 <= i < |a| - 1 && a[1..][i] != b[1..][i]
        ensures a[1..][i] == ' ' && !IsSpace(b[1..][i]) && i > 0 && a[1..][i - 1] == '\\'
      {
        assert a[i + 1] != b[i + 1];
      }
      TrimKeepsDifferences(a[1..], b[1..]);
      assert a == [a[0]] + a[1..] && b == [b[0]] + b[1..];
    } else if a != b {
      assert a != "" && !IsSpace(b[0]) by {
        if a[0] != b[0] {
          assert false;
        }
      }
      var i :| 0 <= i < |a| && a[i] != b[i];
      TrimEndStops(b, i);
      TrimEndIsPrefix(a);
      if i < |TrimEnd(a)| {
        assert TrimEnd(a)[i] == a[i] && TrimEnd(b)[i] == b[i];
      }
    }
  }

  /**
   * A text comes back as itself, line breaks as blanks and without blanks at its ends, exactly if no
   * backslash in it stands before an n. The printer's other escapes are always undone.
   */
  lemma EscapedComesBackIff(s: string)
    ensures UnescapeText(EscapeIcalText(s)) == Trim(OnOneLine(s)) <==> NothingHidden(s)
  {
    EscapedIsReadBack(s);
    OnlyNsAreLost(s);
    TrimKeepsDifferences(ReadBack(s), OnOneLine(s));
  }

  /** A summary that loses a letter. */
  lemma LostLetter()
    ensures UnescapeText(EscapeIcalText("C:\\new")) != Trim(OnOneLine("C:\\new"))
  {
    EscapedComesBackIff("C:\\new");
    assert "C:\\new"[2] == '\\' && "C:\\new"[3] == 'n';
  }
}
