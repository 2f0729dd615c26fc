/** What splitting a SQL text promises: nothing lost, cuts in the right places, and a stable result. */
module SqlSplitting {
  import opened Text
  import opened SqlSplitter

  // ----- the shape of tokens

  predicate OccursAt(s: string, mark: string, i: nat) {
    i + |mark| <= |s| && s[i..i + |mark|] == mark
  }

  lemma OccursInTail(s: string, mark: string, i: nat)
    requires s != ""
    ensures OccursAt(s[1..], mark, i) <==> OccursAt(s, mark, i + 1)
  {}

  lemma OccursFirst(s: string, mark: string)
    ensures OccursAt(s, mark, 0) <==> mark <= s
  {}

  lemma {:induction false} NeverOccursInEmpty(mark: string, i: nat)
    requires mark != ""
    ensures !OccursAt("", mark, i)
  {}

  /** Up to the end of the first occurrence of the mark, or all of it where the mark does not occur. */
  lemma {:induction false} ThroughShape(s: string, mark: string)
    requires mark != ""
    ensures var n := Through(s, mark);
            && (forall i: nat :: OccursAt(s, mark, i) ==> n <= i + |mark|)
            && ((n >= |mark| && OccursAt(s, mark, n - |mark|)) || (n == |s| && forall i: nat :: !OccursAt(s, mark, i)))
  {
    hide OccursAt;
    OccursFirst(s, mark);
    if s == "" {
      forall i: nat ensures !OccursAt(s, mark, i) {
        NeverOccursInEmpty(mark, i);
      }
    } else if !(mark <= s) {
      var m := Through(s[1..], mark);
      ThroughShape(s[1..], mark);
      forall i: nat | OccursAt(s, mark, i) ensures 1 + m <= i + |mark| && OccursAt(s[1..], mark, i - 1) {
        OccursInTail(s, mark, i - 1);
      }
      if m >= |mark| && OccursAt(s[1..], mark, m - |mark|) {
        OccursInTail(s, mark, m - |mark|);
      }
    }
  }

  /** The text of a string literal after its opening quote: quotes in pairs only. */
  predicate PairedQuotes(s: string) {
    if s == "" then true
    else if s[0] != '\'' then PairedQuotes(s[1..])
    else |s| > 1 && s[1] == '\'' && PairedQuotes(s[2..])
  }

  lemma {:induction false} QuoteShape(s: string)
    ensures var n := QuoteRest(s);
            || (n > 0 && s[n - 1] == '\'' && PairedQuotes(s[..n - 1]) && (n < |s| ==> s[n] != '\''))
            || (n == |s| && PairedQuotes(s))
  {
    hide PairedQuotes;
    var n := QuoteRest(s);
    if s == "" {
      NoQuotes();
    } else if s[0] != '\'' {
      QuoteShape(s[1..]);
      if n > 1 {
        assert s[1..][..n - 2] == s[..n - 1][1..];
        PlainFirst(s[..n - 1]);
      }
      PlainFirst(s);
    } else if |s| > 1 && s[1] == '\'' {
      QuoteShape(s[2..]);
      if n > 2 {
        assert s[2..][..n - 3] == s[..n - 1][2..];
        PairFirst(s[..n - 1]);
      }
      PairFirst(s);
    } else {
      NoQuotes();
      assert s[..0] == "";
    }
  }

  lemma NoQuotes()
    ensures PairedQuotes("")
  {}

  lemma PlainFirst(s: string)
    requires s != "" && s[0] != '\''
    ensures PairedQuotes(s) <==> PairedQuotes(s[1..])
  {}

  lemma PairFirst(s: string)
    requires |s| > 1 && s[0] == s[1] == '\''
    ensures PairedQuotes(s) <==> PairedQuotes(s[2..])
  {}

  /** A line comment: up to the next line feed or the end. */
  predicate IsLineComment(s: string, n: nat)
    requires n <= |s|
  {
    StartsWith(s, '-', '-') && LF !in s[..n] && (n < |s| ==> s[n] == LF)
  }

  /** A text between an opening of `open` characters and the first `mark` after it, or the end where it is not closed. */
  ghost predicate IsBracketed(s: string, n: nat, opening: nat, mark: string)
    requires n <= |s|
  {
    && opening <= n && opening <= |s|
    && (forall i: nat :: OccursAt(s[opening..], mark, i) ==> n <= opening + i + |mark|)
    && ((n >= opening + |mark| && OccursAt(s[opening..], mark, n - opening - |mark|))
        || (n == |s| && forall i: nat :: !OccursAt(s[opening..], mark, i)))
  }

  /** A string: quotes in pairs between the outer two, or up to the end where it is not closed. */
  predicate IsString(s: string, n: nat)
    requires n <= |s|
  {
    && n >= 1 && s[0] == '\''
    && (|| (n >= 2 && s[n - 1] == '\'' && PairedQuotes(s[1..n - 1]) && (n < |s| ==> s[n] != '\''))
        || (n == |s| && PairedQuotes(s[1..])))
  }

  /** What the token at the front is, by the rules of comments, strings and dollar quotes. */
  lemma TokenShape(s: string)
    requires s != ""
    ensures var n := TokenLength(s);
            if StartsWith(s, '-', '-') then IsLineComment(s, n)
            else if StartsWith(s, '/', '*') then IsBracketed(s, n, 2, "*/")
            else if s[0] == '\'' then IsString(s, n)
            else if DollarTag(s).Some? then IsBracketed(s, n, |DollarTag(s).value|, DollarTag(s).value)
            else n == 1
  {
    if StartsWith(s, '-', '-') {
      LineCommentShape(s);
    } else if StartsWith(s, '/', '*') {
      ThroughShape(s[2..], "*/");
    } else if s[0] == '\'' {
      StringShape(s);
    } else if DollarTag(s).Some? {
      var tag := DollarTag(s).value;
      ThroughShape(s[|tag|..], tag);
    }
    hide Through, LineRest, QuoteRest, DollarTag, OccursAt, PairedQuotes;
  }

  lemma LineCommentShape(s: string)
    requires StartsWith(s, '-', '-')
    ensures IsLineComment(s, LineRest(s))
  {}

  lemma StringShape(s: string)
    requires s != "" && s[0] == '\''
    ensures IsString(s, 1 + QuoteRest(s[1..]))
  {
    QuoteShape(s[1..]);
    var n := 1 + QuoteRest(s[1..]);
    if n >= 2 {
      assert s[1..][..n - 2] == s[1..n - 1];
    }
    hide PairedQuotes, QuoteRest;
  }

  // ----- nothing is lost

  function Concat(segments: seq<string>): string {
    if segments == [] then "" else segments[0] + Concat(segments[1..])
  }

  lemma {:induction false} SplittingIsLossless(sql: string)
    ensures Concat(Raw(sql)) == sql
    decreases |sql|
  {
    var cut := FirstCut(sql);
    if cut == 0 {
      assert Concat([sql]) == sql + Concat([]);
    } else {
      SplittingIsLossless(sql[cut..]);
      assert sql == sql[..cut] + sql[cut..];
    }
  }

  // ----- the cuts are the semicolons in code

  /** A token starts at offset `k`. */
  predicate TokenStart(s: string, k: nat)
    requires k <= |s|
    decreases |s|
  {
    k == 0 || (s != "" && TokenLength(s) <= k && TokenStart(s[TokenLength(s)..], k - TokenLength(s)))
  }

  /** One of the segments but the last ends at offset `k`. */
  predicate SegmentEnd(segments: seq<string>, k: nat) {
    |segments| > 1 && (k == |segments[0]| || (k > |segments[0]| && SegmentEnd(segments[1..], k - |segments[0]|)))
  }

  lemma SemicolonToken(s: string)
    requires s != ""
    ensures s[0] == ';' ==> TokenLength(s) == 1
  {}

  lemma {:induction false} FirstCutIsFirst(s: string, k: nat)
    requires k < |s|
    ensures var cut := FirstCut(s);
            && (cut == 0 || k + 1 < cut ==> !(s[k] == ';' && TokenStart(s, k)))
            && (k + 1 == cut ==> s[k] == ';' && TokenStart(s, k))
            && (0 < cut <= k ==> TokenStart(s, k) == TokenStart(s[cut..], k - cut))
    decreases |s|
  {
    hide TokenLength, TokenStart, FirstCut;
    var n := TokenLength(s);
    FirstCutStep(s);
    SemicolonToken(s);
    TokenStartStep(s, k);
    if s[0] != ';' && n <= k {
      FirstCutIsFirst(s[n..], k - n);
      var cut := FirstCut(s[n..]);
      if 0 < cut <= k - n {
        assert s[n..][cut..] == s[n + cut..];
        TokenStartStep(s[n..], k - n);
      }
    } else if s[0] == ';' && k > 0 {
      assert s[1..] == s[FirstCut(s)..];
    }
  }

  lemma FirstCutStep(s: string)
    requires s != ""
    ensures var cut := FirstCut(s[TokenLength(s)..]);
            FirstCut(s) == if s[0] == ';' then 1 else if cut == 0 then 0 else TokenLength(s) + cut
  {}

  lemma TokenStartStep(s: string, k: nat)
    requires s != "" && k <= |s|
    ensures TokenStart(s, k) <==> k == 0 || (TokenLength(s) <= k && TokenStart(s[TokenLength(s)..], k - TokenLength(s)))
  {}

  /**
   * Segments end exactly behind the semicolons that are tokens of their own, that is, outside
   * quotes, dollar quotes and comments.
   */
  lemma {:induction false} CutsAreCodeSemicolons(sql: string, k: nat)
    requires k < |sql|
    ensures SegmentEnd(Raw(sql), k + 1) <==> sql[k] == ';' && TokenStart(sql, k)
    decreases |sql|
  {
    hide FirstCut, TokenStart, SegmentEnd, Raw;
    var cut := FirstCut(sql);
    FirstCutIsFirst(sql, k);
    RawStep(sql);
    if cut == 0 {
      OneSegment(sql, k + 1);
    } else {
      SegmentEndCons(sql[..cut], Raw(sql[cut..]), k + 1);
      if cut <= k {
        CutsAreCodeSemicolons(sql[cut..], k - cut);
      }
    }
  }

  lemma RawStep(s: string)
    ensures var cut := FirstCut(s);
            Raw(s) == if cut == 0 then [s] else [s[..cut]] + Raw(s[cut..])
  {}

  lemma OneSegment(s: string, k: nat)
    ensures !SegmentEnd([s], k)
  {}

  lemma SegmentEndCons(first: string, rest: seq<string>, k: nat)
    requires rest != []
    ensures SegmentEnd([first] + rest, k) <==> k == |first| || (k > |first| && SegmentEnd(rest, k - |first|))
  {}

  // ----- a cut does not depend on what follows it

  predicate EndsInSemicolon(p: string) {
    p != "" && p[|p| - 1] == ';'
  }

  lemma TailEndsInSemicolon(p: string, n: nat)
    requires EndsInSemicolon(p) && n < |p|
    ensures EndsInSemicolon(p[n..])
  {}

  lemma MarkFits(p: string, x: string, mark: string)
    requires EndsInSemicolon(p) && ';' !in mark
    ensures mark <= p <==> mark <= p + x
  {
    assert forall i | 0 <= i < |mark| :: mark[i] != ';';
    assert (p + x)[|p| - 1] == ';';
  }

  lemma {:induction false} ThroughStable(p: string, x: string, mark: string)
    requires EndsInSemicolon(p) && mark != "" && ';' !in mark
    ensures Through(p, mark) < |p| || Through(p + x, mark) < |p| ==> Through(p, mark) == Through(p + x, mark)
    ensures Through(p, mark) < |p| || Through(p + x, mark) >= |p|
  {
    var s := p + x;
    MarkFits(p, x, mark);
    if !(mark <= p) {
      assert s[1..] == p[1..] + x;
      if |p| > 1 {
        TailEndsInSemicolon(p, 1);
        ThroughStable(p[1..], x, mark);
      }
    }
  }

  lemma {:induction false} QuoteRestStable(p: string, x: string)
    requires EndsInSemicolon(p)
    ensures QuoteRest(p) < |p| || QuoteRest(p + x) < |p| ==> QuoteRest(p) == QuoteRest(p + x)
  {
    var s := p + x;
    assert s[0] == p[0] && (|p| > 1 ==> s[1] == p[1]);
    if p[0] != '\'' {
      assert s[1..] == p[1..] + x;
      if |p| > 1 {
        QuoteRestStable(p[1..], x);
      }
    } else if p[1] == '\'' {
      assert s[2..] == p[2..] + x;
      QuoteRestStable(p[2..], x);
    }
  }

  lemma {:induction false} LineRestStable(p: string, x: string)
    requires EndsInSemicolon(p)
    ensures LineRest(p) < |p| || LineRest(p + x) < |p| ==> LineRest(p) == LineRest(p + x)
  {
    if LF in p {
      var i := IndexOf(p, LF);
      assert p + x == p[..i] + [LF] + (p[i + 1..] + x);
      IndexAfterPrefix(p[..i], LF, p[i + 1..] + x);
    } else {
      assert forall i | 0 <= i < |p| :: (p + x)[i] == p[i] && p[i] in p;
    }
  }

  lemma {:induction false} TagCharsStable(p: string, x: string)
    requires EndsInSemicolon(p)
    ensures TagChars(p) == TagChars(p + x) < |p|
  {
    assert (p + x)[0] == p[0];
    if IsTagChar(p[0]) {
      assert (p + x)[1..] == p[1..] + x;
      TagCharsStable(p[1..], x);
    }
  }

  lemma DollarTagStable(p: string, x: string)
    requires EndsInSemicolon(p)
    ensures DollarTag(p) == DollarTag(p + x)
  {
    assert (p + x)[0] == p[0];
    if p[0] == '$' {
      TagCharsStable(p[1..], x);
      assert (p + x)[1..] == p[1..] + x;
      var n := TagChars(p[1..]);
      assert (p + x)[n + 1] == p[n + 1];
      if p[n + 1] == '$' {
        assert n + 2 <= |p|;
        assert (p + x)[..n + 2] == p[..n + 2];
      }
    }
  }

  /** A token that ends before the semicolon is the same token whatever follows the semicolon. */
  lemma TokenStable(p: string, x: string)
    requires EndsInSemicolon(p)
    ensures TokenLength(p) < |p| || TokenLength(p + x) < |p| ==> TokenLength(p) == TokenLength(p + x)
  {
    var s := p + x;
    assert s[0] == p[0] && (|p| > 1 ==> s[1] == p[1]);
    if StartsWith(p, '-', '-') {
      LineRestStable(p, x);
    } else if StartsWith(p, '/', '*') {
      BlockStable(p, x);
    } else if p[0] == '\'' {
      QuoteRestStable(p[1..], x);
      assert s[1..] == p[1..] + x;
    } else {
      DollarStable(p, x);
    }
  }

  lemma DollarStable(p: string, x: string)
    requires EndsInSemicolon(p) && p[0] != '\'' && !StartsWith(p, '-', '-') && !StartsWith(p, '/', '*')
    ensures TokenLength(p) < |p| || TokenLength(p + x) < |p| ==> TokenLength(p) == TokenLength(p + x)
  {
    var s := p + x;
    assert s[0] == p[0] && (|p| > 1 ==> s[1] == p[1]);
    DollarTagStable(p, x);
    if DollarTag(p).Some? {
      var tag := DollarTag(p).value;
      TagIsShorter(p, tag);
      ThroughStable(p[|tag|..], x, tag);
      assert s[|tag|..] == p[|tag|..] + x;
    }
    hide Through, DollarTag, LineRest, QuoteRest;
  }

  lemma TagIsShorter(p: string, tag: string)
    requires EndsInSemicolon(p) && tag <= p && ';' !in tag
    ensures |tag| < |p|
  {}

  lemma BlockStable(p: string, x: string)
    requires EndsInSemicolon(p) && StartsWith(p, '/', '*')
    ensures TokenLength(p) < |p| || TokenLength(p + x) < |p| ==> TokenLength(p) == TokenLength(p + x)
  {
    assert |p| > 2;
    assert StartsWith(p + x, '/', '*') && (p + x)[2..] == p[2..] + x;
    ThroughStable(p[2..], x, "*/");
  }

  /** One statement with its semicolon, and nothing else. */
  predicate Complete(s: string) {
    s != "" && FirstCut(s) == |s|
  }

  /** No statement ends in it. */
  predicate Open(s: string) {
    FirstCut(s) == 0
  }

  /** The first cut depends only on the text before it. */
  lemma {:induction false} CutStable(p: string, x: string)
    requires EndsInSemicolon(p)
    ensures FirstCut(p) == |p| <==> FirstCut(p + x) == |p|
    decreases |p|
  {
    var s := p + x;
    assert s[0] == p[0];
    if p[0] != ';' {
      TokenStable(p, x);
      hide TokenLength;
      var n, m := TokenLength(p), TokenLength(s);
      if n < |p| || m < |p| {
        TailEndsInSemicolon(p, n);
        assert s[n..] == p[n..] + x;
        CutStable(p[n..], x);
      } else {
        assert FirstCut(p[n..]) == 0;
      }
    }
  }

  /** A complete statement is cut off whatever follows it. */
  lemma CompleteIsCutOff(a: string, y: string)
    requires Complete(a)
    ensures Raw(a + y) == [a] + Raw(y)
  {
    CutStable(a, y);
    assert (a + y)[..|a|] == a && (a + y)[|a|..] == y;
  }

  lemma CutIsComplete(s: string)
    requires FirstCut(s) > 0
    ensures Complete(s[..FirstCut(s)])
  {
    var cut := FirstCut(s);
    assert s == s[..cut] + s[cut..];
    CutStable(s[..cut], s[cut..]);
  }

  /** Every segment but the last is one complete statement, and in the last no statement ends. */
  lemma {:induction false} SegmentsAreComplete(sql: string)
    ensures var segments := Raw(sql);
            && (forall i | 0 <= i < |segments| - 1 :: Complete(segments[i]))
            && Open(segments[|segments| - 1])
    decreases |sql|
  {
    var cut := FirstCut(sql);
    if cut > 0 {
      CutIsComplete(sql);
      SegmentsAreComplete(sql[cut..]);
    }
  }

  /** Segments of this kind are what their concatenation is cut into: there is one way to split a text. */
  lemma {:induction false} SplitIsUnique(segments: seq<string>)
    requires segments != [] && Open(segments[|segments| - 1])
    requires forall i | 0 <= i < |segments| - 1 :: Complete(segments[i])
    ensures Raw(Concat(segments)) == segments
  {
    if |segments| == 1 {
      assert Concat(segments) == segments[0] + Concat([]) == segments[0];
    } else {
      SplitIsUnique(segments[1..]);
      CompleteIsCutOff(segments[0], Concat(segments[1..]));
      assert segments == [segments[0]] + segments[1..];
    }
  }

  // ----- the comment filter keeps every terminated statement

  predicate Blank(s: string) {
    forall i | 0 <= i < |s| :: IsSpace(s[i])
  }

  lemma {:induction false} TrimOfBlank(s: string)
    ensures Trim(s) == "" <==> Blank(s)
  {
    if Blank(s) {
      TrimStartOfBlank(s);
    } else {
      NotBlankStart(s);
      TrimEndKeepsFirst(TrimStart(s));
    }
  }

  lemma {:induction false} TrimStartOfBlank(s: string)
    requires Blank(s)
    ensures TrimStart(s) == ""
  {
    if s != "" {
      TrimStartOfBlank(s[1..]);
    }
  }

  lemma {:induction false} NotBlankStart(s: string)
    requires !Blank(s)
    ensures TrimStart(s) != "" && !IsSpace(TrimStart(s)[0])
  {
    if IsSpace(s[0]) {
      assert s == [s[0]] + s[1..];
      BlankCons(s[0], s[1..]);
      NotBlankStart(s[1..]);
    }
  }

  lemma BlankCons(c: char, s: string)
    ensures Blank([c] + s) <==> IsSpace(c) && Blank(s)
  {
    var t := [c] + s;
    if Blank(t) {
      assert t[0] == c && forall i | 0 <= i < |s| :: s[i] == t[i + 1];
    }
  }

  lemma {:induction false} ToLineEndStopsEarly(s: string)
    ensures ToLineEnd(s) <= LineRest(s)
  {
    if s != "" && !EndsLine(s[0]) {
      ToLineEndStopsEarly(s[1..]);
    }
  }

  lemma LineRestTail(s: string, n: nat)
    requires n <= LineRest(s)
    ensures LineRest(s[n..]) == LineRest(s) - n
    ensures s[n..][LineRest(s) - n..] == s[LineRest(s)..]
  {}

  /** What is blank without comments stays so from the next line feed on. */
  lemma {:induction false} BlankAfterLine(s: string)
    requires Blank(StripComments(s))
    ensures Blank(StripComments(s[LineRest(s)..]))
    decreases |s|
  {
    if s != "" && s[0] != LF {
      if StartsWith(s, '-', '-') {
        var n := 2 + ToLineEnd(s[2..]);
        CommentIsLong(s);
        ToLineEndStopsEarly(s[2..]);
        LineRestTail(s, 2);
        LineRestTail(s, n);
        BlankAfterLine(s[n..]);
      } else {
        BlankCons(s[0], StripComments(s[1..]));
        assert LineRest(s) >= 1;
        LineRestTail(s, 1);
        BlankAfterLine(s[1..]);
      }
    } else if s != "" {
      assert LineRest(s) == 0 && s[0..] == s;
    }
  }

  /** A text that is blank without its comments holds no semicolon in code. */
  lemma {:induction false} BlankIsOpen(s: string)
    requires Blank(StripComments(s))
    ensures Open(s)
    decreases |s|
  {
    if s != "" {
      FirstCutStep(s);
      if StartsWith(s, '-', '-') {
        BlankBehindComment(s);
        assert TokenLength(s) == LineRest(s);
        CommentIsLong(s);
        hide LineRest, StripComments, FirstCut;
        BlankIsOpen(s[LineRest(s)..]);
      } else {
        BlankCons(s[0], StripComments(s[1..]));
        SpaceToken(s);
        hide FirstCut, TokenLength;
        BlankIsOpen(s[1..]);
      }
    }
  }

  lemma BlankBehindComment(s: string)
    requires StartsWith(s, '-', '-') && Blank(StripComments(s))
    ensures Blank(StripComments(s[LineRest(s)..]))
  {
    var n := 2 + ToLineEnd(s[2..]);
    CommentIsLong(s);
    ToLineEndStopsEarly(s[2..]);
    LineRestTail(s, 2);
    LineRestTail(s, n);
    BlankAfterLine(s[n..]);
    hide Blank, LineRest;
  }

  lemma SpaceToken(s: string)
    requires s != "" && IsSpace(s[0])
    ensures s[0] != ';' && TokenLength(s) == 1
  {}

  lemma TerminatedHasCode(s: string)
    requires Complete(s)
    ensures HasCode(s)
  {
    TrimOfBlank(StripComments(s));
    if Blank(StripComments(s)) {
      BlankIsOpen(s);
    }
  }

  // ----- trimming segments

  lemma SpaceFirst(s: string)
    requires s != "" && IsSpace(s[0])
    ensures FirstCut(s) == if FirstCut(s[1..]) == 0 then 0 else 1 + FirstCut(s[1..])
  {}

  lemma {:induction false} TrimStartKeeps(s: string)
    ensures Complete(s) ==> Complete(TrimStart(s))
    ensures Open(s) ==> Open(TrimStart(s))
  {
    if s != "" && IsSpace(s[0]) {
      SpaceFirst(s);
      TrimStartKeeps(s[1..]);
    }
  }

  /** No statement ends in a part of a text in which none ends. */
  lemma OpenPrefix(s: string, n: nat)
    requires Open(s) && n <= |s|
    ensures Open(s[..n])
  {
    hide FirstCut;
    var cut := FirstCut(s[..n]);
    if cut > 0 {
      CutIsComplete(s[..n]);
      assert s == s[..n][..cut] + s[cut..];
      CutStable(s[..n][..cut], s[cut..]);
    }
  }

  lemma {:induction false} TrimEndKeepsOpen(s: string)
    requires Open(s)
    ensures Open(TrimEnd(s))
  {
    if s != "" && IsSpace(s[|s| - 1]) {
      OpenPrefix(s, |s| - 1);
      TrimEndKeepsOpen(s[..|s| - 1]);
    }
  }

  lemma TrimKeeps(s: string)
    ensures Complete(s) ==> Complete(Trim(s))
    ensures Open(s) ==> Open(Trim(s))
  {
    TrimStartKeeps(s);
    if Open(s) {
      TrimEndKeepsOpen(TrimStart(s));
    }
    if Complete(s) {
      assert TrimEnd(TrimStart(s)) == TrimStart(s);
    }
  }

  lemma {:induction false} TrimEndTwice(s: string)
    ensures TrimEnd(TrimEnd(s)) == TrimEnd(s)
  {
    if s != "" && IsSpace(s[|s| - 1]) {
      TrimEndTwice(s[..|s| - 1]);
    }
  }

  lemma {:induction false} TrimStartIsSolid(s: string)
    ensures TrimStart(s) == "" || !IsSpace(TrimStart(s)[0])
  {
    if s != "" && IsSpace(s[0]) {
      TrimStartIsSolid(s[1..]);
    }
  }

  lemma TrimTwice(s: string)
    ensures Trim(Trim(s)) == Trim(s)
  {
    TrimStartIsSolid(s);
    TrimEndTwice(TrimStart(s));
    if TrimStart(s) != "" {
      TrimEndKeepsFirst(TrimStart(s));
    }
  }

  // ----- splitting the joined statements again

  /** A trimmed statement with its semicolon. */
  predicate IsStatement(s: string) {
    Complete(s) && Trim(s) == s
  }

  /** A trimmed remainder that is kept. */
  predicate IsRemainder(s: string) {
    Open(s) && Trim(s) == s && s != "" && HasCode(s)
  }

  /** Statements, and possibly a remainder at the end. */
  predicate IsSplit(statements: seq<string>) {
    forall i | 0 <= i < |statements| :: IsStatement(statements[i]) || (i == |statements| - 1 && IsRemainder(statements[i]))
  }

  lemma PushedCons(first: string, rest: seq<string>)
    requires rest != []
    ensures Pushed([first] + rest) == [Trim(first)] + Pushed(rest)
  {}

  lemma SplitCons(a: string, y: string)
    requires IsStatement(a)
    ensures Split(a + y) == [a] + Split(y)
  {
    CompleteIsCutOff(a, y);
    PushedCons(a, Raw(y));
    TerminatedHasCode(a);
    hide HasCode, Pushed, Raw, Trim;
    assert ([a] + Pushed(Raw(y)))[1..] == Pushed(Raw(y));
  }

  lemma TrimSpaceFirst(s: string)
    requires s != "" && IsSpace(s[0])
    ensures Trim(s) == Trim(s[1..])
  {}

  /** A blank in front changes no statement. */
  lemma SplitBlankFirst(c: char, y: string)
    requires IsSpace(c)
    ensures Split([c] + y) == Split(y)
  {
    var s := [c] + y;
    assert s[1..] == y;
    SpaceFirst(s);
    TrimSpaceFirst(s);
    var cut := FirstCut(y);
    if cut == 0 {
      assert Raw(s) == [s] && Raw(y) == [y];
      assert Pushed([s]) == Pushed([y]) by {
        hide Trim;
        assert [s][..0] == [] && [y][..0] == [];
      }
    } else {
      assert s[..1 + cut] == [c] + y[..cut] && s[1 + cut..] == y[cut..];
      assert s[..1 + cut][1..] == y[..cut];
      TrimSpaceFirst(s[..1 + cut]);
      PushedCons(s[..1 + cut], Raw(y[cut..]));
      PushedCons(y[..cut], Raw(y[cut..]));
    }
  }

  lemma SplitRemainder(s: string)
    requires IsRemainder(s)
    ensures Split(s) == [s]
  {
    assert Raw(s) == [s];
    assert [s][..0] == [];
    assert Pushed([s]) == [s];
    WithCodeKeeps([s]);
  }

  lemma SplitNothing()
    ensures Split("") == []
  {}

  lemma {:induction false} SplitJoined(statements: seq<string>)
    requires IsSplit(statements)
    ensures Split(Join(statements, [LF])) == statements
  {
    hide Split, IsRemainder, IsStatement;
    if statements == [] {
      SplitNothing();
    } else {
      var first, rest := statements[0], statements[1..];
      assert IsSplit(rest) by {
        assert forall i | 0 <= i < |rest| :: rest[i] == statements[i + 1];
      }
      if rest == [] {
        assert statements == [first];
        if IsStatement(first) {
          SplitCons(first, "");
          SplitNothing();
          assert first + "" == first && [first] + [] == [first];
        } else {
          SplitRemainder(first);
        }
      } else {
        SplitCons(first, [LF] + Join(rest, [LF]));
        SplitBlankFirst(LF, Join(rest, [LF]));
        SplitJoined(rest);
        assert first + [LF] + Join(rest, [LF]) == first + ([LF] + Join(rest, [LF]));
        assert statements == [first] + rest;
      }
    }
  }

  lemma {:induction false} WithCodeKeeps(statements: seq<string>)
    requires forall i | 0 <= i < |statements| :: HasCode(statements[i])
    ensures WithCode(statements) == statements
  {
    hide HasCode;
    if statements != [] {
      WithCodeKeeps(statements[1..]);
      assert statements == [statements[0]] + statements[1..];
    }
  }

  lemma {:induction false} WithCodeSnoc(statements: seq<string>, last: string)
    ensures WithCode(statements + [last]) == WithCode(statements) + if HasCode(last) then [last] else []
  {
    hide HasCode;
    if statements == [] {
      assert (statements + [last])[1..] == [];
    } else {
      WithCodeSnoc(statements[1..], last);
      assert (statements + [last])[1..] == statements[1..] + [last];
    }
  }

  lemma EmptyHasNoCode()
    ensures !HasCode("")
  {}

  lemma TrimmedStatements(segments: seq<string>)
    requires forall i | 0 <= i < |segments| :: Complete(segments[i])
    ensures var statements := TrimAll(segments);
            forall i | 0 <= i < |statements| :: IsStatement(statements[i]) && HasCode(statements[i])
  {
    hide HasCode, Complete, Trim;
    var statements := TrimAll(segments);
    forall i | 0 <= i < |statements| ensures IsStatement(statements[i]) && HasCode(statements[i]) {
      TrimKeeps(segments[i]);
      TrimTwice(segments[i]);
      TerminatedHasCode(statements[i]);
    }
  }

  lemma FilterOf(statements: seq<string>, last: string)
    requires forall i | 0 <= i < |statements| :: HasCode(statements[i])
    ensures WithCode(statements + if |last| > 0 then [last] else []) == statements + if HasCode(last) then [last] else []
  {
    EmptyHasNoCode();
    WithCodeKeeps(statements);
    WithCodeSnoc(statements, last);
    hide WithCode, HasCode;
    if |last| == 0 {
      assert statements + [] == statements;
    }
  }

  /** What a split returns: complete statements in order, then the trimmed remainder if it holds code. */
  lemma SplitIsSplit(sql: string)
    ensures IsSplit(Split(sql))
    ensures var segments := Raw(sql);
            var n := |segments| - 1;
            Split(sql) == TrimAll(segments[..n]) + if HasCode(Trim(segments[n])) then [Trim(segments[n])] else []
  {
    var segments := Raw(sql);
    var n := |segments| - 1;
    var statements, last := TrimAll(segments[..n]), Trim(segments[n]);
    SegmentsAreComplete(sql);
    TrimmedStatements(segments[..n]);
    TrimKeeps(segments[n]);
    TrimTwice(segments[n]);
    EmptyHasNoCode();
    hide *;
    FilterOf(statements, last);
    SplitFormula(sql);
    AllOfSplit(statements, last);
  }

  lemma SplitFormula(sql: string)
    ensures var segments := Raw(sql);
            var n := |segments| - 1;
            Split(sql) == WithCode(TrimAll(segments[..n]) + if |Trim(segments[n])| > 0 then [Trim(segments[n])] else [])
  {}

  lemma AllOfSplit(statements: seq<string>, last: string)
    requires forall i | 0 <= i < |statements| :: IsStatement(statements[i])
    requires Open(last) && Trim(last) == last && (HasCode(last) ==> last != "")
    ensures IsSplit(statements + if HasCode(last) then [last] else [])
  {}

  /**
   * The filter drops no terminated statement: what a split returns are all segments that end in a
   * semicolon, and the remainder exactly when something is left of it without comments and blanks.
   */
  lemma FilterKeepsTerminated(sql: string)
    ensures var segments := Raw(sql);
            var n := |segments| - 1;
            |Split(sql)| == n + (if HasCode(Trim(segments[n])) then 1 else 0) && forall i | 0 <= i < n :: Split(sql)[i] == Trim(segments[i])
  {
    SplitIsSplit(sql);
    hide Split, HasCode, Trim;
  }

  /** Splitting is stable: the statements, joined by line feeds, split into the same statements. */
  lemma SplittingIsStable(sql: string)
    ensures Split(Join(Split(sql), [LF])) == Split(sql)
  {
    SplitIsSplit(sql);
    SplitJoined(Split(sql));
  }
}
