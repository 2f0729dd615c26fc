/** Splitting a SQL file into statements: tokens, raw segments, and the character loop that finds them. */
module SqlSplitter {
  import opened Wrappers
  import opened Text

  // ----- tokens

  predicate IsTagChar(c: char) {
    'A' <= c <= 'Z' || 'a' <= c <= 'z' || c == '_'
  }

  /** How many tag characters are at the front. */
  function TagChars(s: string): (n: nat)
    ensures n <= |s| && (forall i | 0 <= i < n :: IsTagChar(s[i])) && (n < |s| ==> !IsTagChar(s[n]))
  {
    if s == "" || !IsTagChar(s[0]) then 0 else 1 + TagChars(s[1..])
  }

  /** The dollar tag at the front, `$` letters `$`, if there is one. */
  function DollarTag(s: string): (tag: Option<string>)
    ensures tag.Some? ==> |tag.value| >= 2 && tag.value <= s && ';' !in tag.value && LF !in tag.value
  {
    if s == "" || s[0] != '$' then None
    else
      var n := TagChars(s[1..]);
      if n + 1 < |s| && s[n + 1] == '$' then
        assert forall i | 1 <= i <= n :: s[i] == s[1..][i - 1];
        Some(s[..n + 2])
      else None
  }

  /** Up to and including the next occurrence of `mark`, or all of it. */
  function Through(s: string, mark: string): (n: nat)
    requires mark != ""
    ensures n <= |s| && (s != "" ==> n > 0)
  {
    if s == "" then 0 else if mark <= s then |mark| else 1 + Through(s[1..], mark)
  }

  /** The rest of a string literal, its closing quote included; a doubled quote does not close it. */
  function QuoteRest(s: string): (n: nat)
    ensures n <= |s| && (s != "" ==> n > 0)
  {
    if s == "" then 0
    else if s[0] != '\'' then 1 + QuoteRest(s[1..])
    else if |s| > 1 && s[1] == '\'' then 2 + QuoteRest(s[2..])
    else 1
  }

  function LineRest(s: string): (n: nat)
    ensures n <= |s|
  {
    var end := IndexOf(s, LF);
    if end == -1 then |s| else end
  }

  predicate StartsWith(s: string, a: char, b: char) {
    |s| >= 2 && s[0] == a && s[1] == b
  }

  /** The length of the token at the front: a comment, a string, a dollar-quoted text, or one character. */
  function TokenLength(s: string): (n: nat)
    requires s != ""
    ensures 1 <= n <= |s|
  {
    if StartsWith(s, '-', '-') then
      CommentIsLong(s);
      LineRest(s)
    else if StartsWith(s, '/', '*') then 2 + Through(s[2..], "*/")
    else if s[0] == '\'' then 1 + QuoteRest(s[1..])
    else if DollarTag(s).Some? then
      var tag := DollarTag(s).value;
      |tag| + Through(s[|tag|..], tag)
    else 1
  }

  lemma CommentIsLong(s: string)
    requires StartsWith(s, '-', '-')
    ensures LineRest(s) >= 2
  {}

  // ----- segments

  /** Just past the first semicolon that is a token; 0 if there is none. */
  function FirstCut(s: string): (cut: nat)
    ensures cut <= |s| && (cut > 0 ==> s[cut - 1] == ';')
    decreases |s|
  {
    if s == "" then 0
    else if s[0] == ';' then 1
    else
      var n := TokenLength(s);
      var cut := FirstCut(s[n..]);
      if cut == 0 then 0 else n + cut
  }

  /** The text cut after each of these semicolons; the last segment is what follows them. */
  function Raw(s: string): (segments: seq<string>)
    ensures segments != []
    decreases |s|
  {
    var cut := FirstCut(s);
    if cut == 0 then [s] else [s[..cut]] + Raw(s[cut..])
  }

  // ----- statements

  predicate EndsLine(c: char) {
    c == LF || c == CR || c == '\U{2028}' || c == '\U{2029}'
  }

  function ToLineEnd(s: string): (n: nat)
    ensures n <= |s|
  {
    if s == "" || EndsLine(s[0]) then 0 else 1 + ToLineEnd(s[1..])
  }

  /** Without everything from a double dash to the end of its line. */
  function StripComments(s: string): string
    decreases |s|
  {
    if s == "" then ""
    else if StartsWith(s, '-', '-') then StripComments(s[2 + ToLineEnd(s[2..])..])
    else [s[0]] + StripComments(s[1..])
  }

  predicate HasCode(s: string) {
    |Trim(StripComments(s))| > 0
  }

  function TrimAll(segments: seq<string>): (trimmed: seq<string>)
    ensures |trimmed| == |segments|
    ensures forall i | 0 <= i < |segments| :: trimmed[i] == Trim(segments[i])
  {
    seq(|segments|, i requires 0 <= i < |segments| => Trim(segments[i]))
  }

  function WithCode(statements: seq<string>): seq<string> {
    if statements == [] then []
    else (if HasCode(statements[0]) then [statements[0]] else []) + WithCode(statements[1..])
  }

  /** The pushed statements: every cut segment, and the last one unless it is blank. */
  function Pushed(segments: seq<string>): seq<string>
    requires segments != []
  {
    var n := |segments| - 1;
    TrimAll(segments[..n]) + if |Trim(segments[n])| > 0 then [Trim(segments[n])] else []
  }

  function Split(sql: string): seq<string> {
    WithCode(Pushed(Raw(sql)))
  }

  // ----- the loop

  /** The segments still to come, with `current` read already and the next `skip` characters inside a token. */
  function RawFrom(current: string, s: string, skip: nat): (segments: seq<string>)
    requires skip <= |s|
    ensures segments != []
  {
    var cut := FirstCut(s[skip..]);
    if cut == 0 then [current + s] else [current + s[..skip + cut]] + Raw(s[skip + cut..])
  }

  lemma FromStart(s: string)
    ensures RawFrom("", s, 0) == Raw(s)
  {
    assert s[0..] == s && "" + s == s && "" + s[..FirstCut(s)] == s[..FirstCut(s)];
  }

  lemma Advance(current: string, s: string, n: nat, skip: nat)
    requires n <= skip <= |s|
    ensures RawFrom(current, s, skip) == RawFrom(current + s[..n], s[n..], skip - n)
  {
    hide FirstCut, Raw;
    var cut := FirstCut(s[skip..]);
    assert s[n..][skip - n..] == s[skip..];
    if cut == 0 {
      assert current + s[..n] + s[n..] == current + s;
    } else {
      assert current + s[..n] + s[n..][..skip - n + cut] == current + s[..skip + cut];
      assert s[n..][skip - n + cut..] == s[skip + cut..];
    }
  }

  lemma NextToken(current: string, s: string)
    requires s != "" && s[0] != ';'
    ensures RawFrom(current, s, 0) == RawFrom(current, s, TokenLength(s))
  {
    hide TokenLength, Raw;
    assert s[0..] == s;
    var n := TokenLength(s);
    var cut := FirstCut(s[n..]);
    assert FirstCut(s) == if cut == 0 then 0 else n + cut;
    hide FirstCut;
  }

  lemma NextCut(current: string, s: string)
    requires s != "" && s[0] == ';'
    ensures RawFrom(current, s, 0) == [current + ";"] + RawFrom("", s[1..], 0)
  {
    assert s[0..] == s && s[..1] == ";";
    FromStart(s[1..]);
  }

  /** What is left of the token that the loop is inside. */
  function Inside(s: string, inSingleQuote: bool, dollarTag: Option<string>): (skip: nat)
    requires dollarTag.Some? ==> dollarTag.value != ""
    ensures skip <= |s|
  {
    if dollarTag.Some? then Through(s, dollarTag.value) else if inSingleQuote then QuoteRest(s) else 0
  }

  lemma InsideCode(s: string)
    ensures Inside(s, false, None) == 0
  {}

  /** One turn of the loop inside a quote or a dollar quote. */
  method InsideStep(s: string, inSingleQuote: bool, dollarTag: Option<string>) returns (n: nat, quote: bool, tag: Option<string>)
    requires s != "" && (inSingleQuote || dollarTag.Some?) && !(inSingleQuote && dollarTag.Some?)
    requires dollarTag.Some? ==> dollarTag.value != ""
    ensures 1 <= n <= |s| && (tag.Some? ==> tag == dollarTag) && !(quote && tag.Some?)
    ensures n + Inside(s[n..], quote, tag) == Inside(s, inSingleQuote, dollarTag)
  {
    if dollarTag.Some? {
      if dollarTag.value <= s {
        return |dollarTag.value|, false, None;
      }
      return 1, false, dollarTag;
    }
    if s[0] == '\'' && |s| > 1 && s[1] == '\'' {
      return 2, true, None;
    }
    return 1, s[0] != '\'', None;
  }

  /** One turn of the loop in code, at anything but a semicolon. */
  method OutsideStep(s: string) returns (n: nat, quote: bool, tag: Option<string>)
    requires s != "" && s[0] != ';'
    ensures 1 <= n <= TokenLength(s) && !(quote && tag.Some?) && (tag.Some? ==> tag.value != "")
    ensures n + Inside(s[n..], quote, tag) == TokenLength(s)
  {
    if StartsWith(s, '-', '-') {
      var end := IndexOf(s, LF);
      CommentIsLong(s);
      return if end == -1 then |s| else end, false, None;
    }
    if StartsWith(s, '/', '*') {
      return 2 + Through(s[2..], "*/"), false, None;
    }
    if s[0] == '\'' {
      return 1, true, None;
    }
    var opening := DollarTag(s);
    if opening.Some? {
      return |opening.value|, false, opening;
    }
    return 1, false, None;
  }

  /** One turn of the loop that pushes no statement: the next characters go to `current`. */
  method Turn(sql: string, current: string, i: nat, inSingleQuote: bool, dollarTag: Option<string>)
    returns (current': string, i': nat, quote: bool, tag: Option<string>)
    requires i < |sql| && !(inSingleQuote && dollarTag.Some?) && (dollarTag.Some? ==> dollarTag.value != "")
    requires dollarTag.None? && !inSingleQuote ==> sql[i] != ';'
    ensures i < i' <= |sql| && !(quote && tag.Some?) && (tag.Some? ==> tag.value != "")
    ensures RawFrom(current', sql[i'..], Inside(sql[i'..], quote, tag)) ==
            RawFrom(current, sql[i..], Inside(sql[i..], inSingleQuote, dollarTag))
  {
    hide RawFrom, TokenLength;
    var s, n := sql[i..], 0;
    if dollarTag.Some? || inSingleQuote {
      n, quote, tag := InsideStep(s, inSingleQuote, dollarTag);
    } else {
      n, quote, tag := OutsideStep(s);
      NextToken(current, s);
    }
    Advance(current, s, n, n + Inside(s[n..], quote, tag));
    assert s[n..] == sql[i + n..];
    current', i' := current + s[..n], i + n;
  }

  lemma CutTurn(sql: string, raw: seq<string>, current: string, s: string)
    requires s != "" && s[0] == ';' && raw + RawFrom(current, s, Inside(s, false, None)) == Raw(sql)
    ensures raw + [current + ";"] + RawFrom("", s[1..], Inside(s[1..], false, None)) == Raw(sql)
  {
    hide RawFrom, Raw;
    NextCut(current, s);
  }

  lemma TrimAllSnoc(segments: seq<string>, last: string)
    ensures TrimAll(segments + [last]) == TrimAll(segments) + [Trim(last)]
  {}

  lemma InsideNothing(s: string, inSingleQuote: bool, dollarTag: Option<string>)
    requires s == "" && (dollarTag.Some? ==> dollarTag.value != "")
    ensures Inside(s, inSingleQuote, dollarTag) == 0
  {}

  /** `splitSqlStatements`. */
  method SplitSqlStatements(sql: string) returns (result: seq<string>)
    ensures result == Split(sql)
  {
    var statements: seq<string> := [];
    var current := "";
    var i := 0;
    var inSingleQuote := false;
    var dollarTag: Option<string> := None;
    ghost var raw: seq<string> := [];
    FromStart(sql);
    assert sql[0..] == sql && TrimAll(raw) == [];
    InsideCode(sql);
    hide *;
    while i < |sql|
      invariant i <= |sql| && !(inSingleQuote && dollarTag.Some?) && (dollarTag.Some? ==> dollarTag.value != "")
      invariant statements == TrimAll(raw)
      invariant raw + RawFrom(current, sql[i..], Inside(sql[i..], inSingleQuote, dollarTag)) == Raw(sql)
    {
      var s := sql[i..];
      if dollarTag.None? && !inSingleQuote && s[0] == ';' {
        CutTurn(sql, raw, current, s);
        current := current + ";";
        TrimAllSnoc(raw, current);
        raw := raw + [current];
        statements := statements + [Trim(current)];
        current, i := "", i + 1;
        assert s[1..] == sql[i..];
      } else {
        current, i, inSingleQuote, dollarTag := Turn(sql, current, i, inSingleQuote, dollarTag);
      }
    }
    InsideNothing(sql[i..], inSingleQuote, dollarTag);
    LoopEnds(sql, raw, current, sql[i..]);
    if |Trim(current)| > 0 {
      statements := statements + [Trim(current)];
    }
    result := WithCode(statements);
  }

  lemma LoopEnds(sql: string, raw: seq<string>, current: string, rest: string)
    requires rest == "" && raw + RawFrom(current, rest, 0) == Raw(sql)
    ensures Split(sql) == WithCode(if |Trim(current)| > 0 then TrimAll(raw) + [Trim(current)] else TrimAll(raw))
  {
    assert current + rest == current;
    assert (raw + [current])[..|raw|] == raw;
    assert TrimAll(raw) + [] == TrimAll(raw);
  }
}
