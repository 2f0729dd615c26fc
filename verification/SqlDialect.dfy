/**
 * The tokens of the splitter's loop beside those of PostgreSQL (section 4.1, "Lexical Structure", of
 * its documentation), which knows quoted identifiers, nested comments, escape strings, dollar tags
 * with digits, names that contain dollar signs, and line comments that end at a carriage return.
 */
module SqlDialect {
  import opened Wrappers
  import opened Text
  import opened SqlSplitter
  import opened SqlSplitting

  // ----- PostgreSQL's tokens, names taken character by character

  predicate IsNameStart(c: char) {
    IsTagChar(c) || c >= '\U{0080}'
  }

  predicate IsTagTail(c: char) {
    IsNameStart(c) || '0' <= c <= '9'
  }

  predicate IsNameChar(c: char) {
    IsTagTail(c) || c == '$'
  }

  function TagTail(s: string): (n: nat)
    ensures n <= |s|
  {
    if s == "" || !IsTagTail(s[0]) then 0 else 1 + TagTail(s[1..])
  }

  /** A dollar tag: empty, or a name without dollar signs that does not start with a digit. */
  function PostgresTag(s: string): (tag: Option<string>)
    ensures tag.Some? ==> |tag.value| >= 2 && tag.value <= s
  {
    if s == "" || s[0] != '$' || (|s| > 1 && !IsNameStart(s[1]) && s[1] != '$') then None
    else
      var n := TagTail(s[1..]);
      if n + 1 < |s| && s[n + 1] == '$' then Some(s[..n + 2]) else None
  }

  function LineCommentRest(s: string): (n: nat)
    ensures n <= |s|
  {
    if s == "" || s[0] == LF || s[0] == CR then 0 else 1 + LineCommentRest(s[1..])
  }

  /** The rest of a block comment in which `depth` comments are open. */
  function NestedRest(s: string, depth: nat): (n: nat)
    ensures n <= |s|
  {
    if s == "" then 0
    else if StartsWith(s, '*', '/') then 2 + if depth <= 1 then 0 else NestedRest(s[2..], depth - 1)
    else if StartsWith(s, '/', '*') then 2 + NestedRest(s[2..], depth + 1)
    else 1 + NestedRest(s[1..], depth)
  }

  /** The rest of a quoted identifier; a doubled quote does not close it. */
  function IdentifierRest(s: string): (n: nat)
    ensures n <= |s| && (s != "" ==> n > 0)
  {
    if s == "" then 0
    else if s[0] != '\"' then 1 + IdentifierRest(s[1..])
    else if |s| > 1 && s[1] == '\"' then 2 + IdentifierRest(s[2..])
    else 1
  }

  /** The rest of an escape string, in which a backslash takes the next character along. */
  function EscapeRest(s: string): (n: nat)
    ensures n <= |s|
  {
    if s == "" then 0
    else if |s| > 1 && (s[0] == '\\' || (s[0] == '\'' && s[1] == '\'')) then 2 + EscapeRest(s[2..])
    else if s[0] == '\'' then 1
    else 1 + EscapeRest(s[1..])
  }

  predicate StartsEscapeString(s: string) {
    StartsWith(s, 'E', '\'') || StartsWith(s, 'e', '\'')
  }

  /** The length of the token at the front, behind a name or not. */
  function PostgresLength(s: string, inName: bool): (n: nat)
    requires s != ""
    ensures 1 <= n <= |s|
  {
    if inName && IsNameChar(s[0]) then 1
    else if StartsWith(s, '-', '-') then 2 + LineCommentRest(s[2..])
    else if StartsWith(s, '/', '*') then 2 + NestedRest(s[2..], 1)
    else if s[0] == '\'' then 1 + QuoteRest(s[1..])
    else if s[0] == '\"' then 1 + IdentifierRest(s[1..])
    else if StartsEscapeString(s) then 2 + EscapeRest(s[2..])
    else if PostgresTag(s).Some? then
      var tag := PostgresTag(s).value;
      |tag| + Through(s[|tag|..], tag)
    else 1
  }

  /** Whether the next character continues a name, once a token of `n` characters is read. */
  predicate NameGoesOn(s: string, inName: bool, n: nat)
    requires s != ""
  {
    n == 1 && (IsNameStart(s[0]) || (inName && IsNameChar(s[0])))
  }

  /** A token of PostgreSQL, or a further character of a name, starts at offset `k`. */
  predicate PostgresStart(s: string, inName: bool, k: nat)
    requires k <= |s|
    decreases |s|
  {
    k == 0 || (s != "" && var n := PostgresLength(s, inName);
                          n <= k && PostgresStart(s[n..], NameGoesOn(s, inName, n), k - n))
  }

  // ----- where the two differ

  /** A comment is opened before the first end of a comment. */
  predicate Nests(s: string) {
    s != "" && !StartsWith(s, '*', '/') && (StartsWith(s, '/', '*') || Nests(s[1..]))
  }

  /** The text at the front is one that the loop and PostgreSQL read differently. */
  predicate Odd(s: string, inName: bool)
    requires s != ""
  {
    if inName && IsNameChar(s[0]) then DollarTag(s).Some?
    else if StartsWith(s, '-', '-') then CR in s[..LineRest(s)]
    else if StartsWith(s, '/', '*') then Nests(s[2..]) && TokenLength(s) < |s|
    else if s[0] == '\"' then |s| > 1
    else StartsEscapeString(s) || (s[0] == '$' && DollarTag(s).None? && PostgresTag(s).Some?)
  }

  lemma {:induction false} LineRestOf(s: string)
    ensures var n := LineCommentRest(s);
            (n == LineRest(s) <==> CR !in s[..LineRest(s)]) && n <= LineRest(s)
  {
    if s != "" && s[0] != LF {
      LineRestOf(s[1..]);
      var n := LineRest(s[1..]);
      assert LineRest(s) == 1 + n;
      assert s[..1 + n] == [s[0]] + s[1..][..n];
    }
  }

  lemma LineCommentsIff(s: string)
    requires StartsWith(s, '-', '-')
    ensures LineRest(s) == 2 + LineCommentRest(s[2..]) <==> CR !in s[..LineRest(s)]
  {
    LineRestOf(s);
    assert s[1..][1..] == s[2..];
    assert LineCommentRest(s) == 1 + LineCommentRest(s[1..]) && LineCommentRest(s[1..]) == 1 + LineCommentRest(s[1..][1..]);
  }

  /** A deeper comment ends later, unless the text ends first. */
  lemma {:induction false} DeeperEndsLater(s: string, depth: nat)
    requires depth >= 1
    ensures var n, m := Through(s, "*/"), NestedRest(s, depth);
            n <= m && (depth > 1 && n < |s| ==> n < m)
    decreases |s|
  {
    EndMark(s);
    if s == "" || StartsWith(s, '*', '/') {
    } else if StartsWith(s, '/', '*') {
      EndMark(s[1..]);
      assert s[1..][1..] == s[2..];
      DeeperEndsLater(s[2..], depth + 1);
      if StartsWith(s[1..], '*', '/') && |s| > 3 {
        assert NestedRest(s[2..], depth + 1) >= 1;
      }
    } else {
      DeeperEndsLater(s[1..], depth);
    }
  }

  lemma EndMark(s: string)
    ensures "*/" <= s <==> StartsWith(s, '*', '/')
  {}

  /** Block comments end together exactly when no other comment is opened inside, or at the end of the text. */
  lemma {:induction false} NestingIff(s: string)
    ensures var n := Through(s, "*/");
            NestedRest(s, 1) == n <==> !(Nests(s) && n < |s|)
    decreases |s|
  {
    EndMark(s);
    if s == "" || StartsWith(s, '*', '/') {
    } else if StartsWith(s, '/', '*') {
      EndMark(s[1..]);
      assert s[1..][1..] == s[2..];
      DeeperEndsLater(s, 1);
      DeeperEndsLater(s[2..], 2);
    } else {
      NestingIff(s[1..]);
    }
  }

  /** A tag of the loop is one of PostgreSQL's. */
  lemma TagsAgree(s: string)
    requires DollarTag(s).Some?
    ensures PostgresTag(s) == DollarTag(s)
  {
    var n := TagChars(s[1..]);
    TailOfTag(s[1..]);
    assert n > 0 ==> s[1..][0] == s[1] && IsTagChar(s[1]);
    assert n == 0 ==> s[1] == '$';
  }

  lemma {:induction false} TailOfTag(s: string)
    requires TagChars(s) < |s| && s[TagChars(s)] == '$'
    ensures TagTail(s) == TagChars(s)
  {
    if TagChars(s) > 0 {
      TailOfTag(s[1..]);
    }
  }

  /** The loop and PostgreSQL take the same text as one token exactly when it is not odd. */
  lemma SameTokenIff(s: string, inName: bool)
    requires s != ""
    ensures TokenLength(s) == PostgresLength(s, inName) <==> !Odd(s, inName)
  {
    if inName && IsNameChar(s[0]) {
    } else if StartsWith(s, '-', '-') {
      LineCommentsIff(s);
    } else if StartsWith(s, '/', '*') {
      NestingIff(s[2..]);
    } else if DollarTag(s).Some? {
      TagsAgree(s);
    }
    hide Through, LineRest, LineCommentRest, NestedRest, QuoteRest, EscapeRest, Nests, DollarTag, PostgresTag;
  }

  // ----- whole texts

  /** No token of the loop is odd. */
  predicate NothingOdd(s: string, inName: bool)
    decreases |s|
  {
    s == "" || (!Odd(s, inName) && var n := TokenLength(s); NothingOdd(s[n..], NameGoesOn(s, inName, n)))
  }

  lemma PostgresStartStep(s: string, inName: bool, k: nat)
    requires s != "" && k <= |s|
    ensures var n := PostgresLength(s, inName);
            PostgresStart(s, inName, k) <==> k == 0 || (n <= k && PostgresStart(s[n..], NameGoesOn(s, inName, n), k - n))
  {}

  lemma NothingOddStep(s: string, inName: bool)
    requires s != ""
    ensures var n := TokenLength(s);
            NothingOdd(s, inName) <==> !Odd(s, inName) && NothingOdd(s[n..], NameGoesOn(s, inName, n))
  {}

  lemma EveryTextStarts(s: string, inName: bool)
    ensures TokenStart(s, 0) && PostgresStart(s, inName, 0) && NothingOdd("", inName)
  {}

  lemma {:induction false} StartsAgree(s: string, inName: bool, k: nat)
    requires NothingOdd(s, inName) && k <= |s|
    ensures TokenStart(s, k) <==> PostgresStart(s, inName, k)
    decreases |s|
  {
    hide TokenLength, PostgresLength, Odd, NameGoesOn, TokenStart, PostgresStart, NothingOdd;
    EveryTextStarts(s, inName);
    if s != "" {
      SameTokenIff(s, inName);
      NothingOddStep(s, inName);
      TokenStartStep(s, k);
      PostgresStartStep(s, inName, k);
      var n := TokenLength(s);
      if n <= k {
        StartsAgree(s[n..], NameGoesOn(s, inName, n), k - n);
      }
    }
  }

  /** Behind the first odd token, the shorter of its two readings ends where only one of them has a start. */
  lemma {:induction false} OddIsSeen(s: string, inName: bool) returns (k: nat)
    requires !NothingOdd(s, inName)
    ensures k <= |s| && TokenStart(s, k) != PostgresStart(s, inName, k)
    decreases |s|
  {
    hide TokenLength, PostgresLength, Odd, NameGoesOn, TokenStart, PostgresStart, NothingOdd;
    EveryTextStarts(s, inName);
    SameTokenIff(s, inName);
    NothingOddStep(s, inName);
    var n, m := TokenLength(s), PostgresLength(s, inName);
    if n == m {
      var rest := OddIsSeen(s[n..], NameGoesOn(s, inName, n));
      k := n + rest;
    } else {
      k := if n < m then n else m;
      EveryTextStarts(s[n..], false);
      EveryTextStarts(s[m..], NameGoesOn(s, inName, m));
    }
    TokenStartStep(s, k);
    PostgresStartStep(s, inName, k);
  }

  /**
   * For every text, exactly: the loop's tokens start where PostgreSQL's do, names taken character by
   * character, if and only if nothing in it is odd.
   */
  lemma SameTokensIff(sql: string)
    ensures (forall k: nat | k <= |sql| :: TokenStart(sql, k) <==> PostgresStart(sql, false, k)) <==> NothingOdd(sql, false)
  {
    if NothingOdd(sql, false) {
      forall k: nat | k <= |sql| ensures TokenStart(sql, k) <==> PostgresStart(sql, false, k) {
        StartsAgree(sql, false, k);
      }
    } else {
      var k := OddIsSeen(sql, false);
    }
    hide TokenStart, PostgresStart, NothingOdd;
  }

  /** A text with nothing odd is cut exactly behind the semicolons that PostgreSQL reads as such. */
  lemma CutsArePostgresSemicolons(sql: string, k: nat)
    requires k < |sql| && NothingOdd(sql, false)
    ensures SegmentEnd(Raw(sql), k + 1) <==> sql[k] == ';' && PostgresStart(sql, false, k)
  {
    CutsAreCodeSemicolons(sql, k);
    StartsAgree(sql, false, k);
    hide SegmentEnd, Raw, TokenStart, PostgresStart, NothingOdd;
  }

  /** A text of characters that are tokens of their own, and not semicolons or double quotes. */
  predicate Plain(s: string) {
    forall i | 0 <= i < |s| :: s[i] !in {'-', '/', '\'', '$', ';', '\"'}
  }

  lemma OneCharacter(s: string)
    requires s != "" && s[0] !in {'-', '/', '\'', '$'}
    ensures FirstCut(s) == if s[0] == ';' then 1 else if FirstCut(s[1..]) == 0 then 0 else 1 + FirstCut(s[1..])
  {
    FirstCutStep(s);
    assert TokenLength(s) == 1;
    hide FirstCut, TokenLength;
  }

  lemma {:induction false} PlainFirstCut(a: string, rest: string)
    requires Plain(a)
    ensures FirstCut(a + rest) == if FirstCut(rest) == 0 then 0 else |a| + FirstCut(rest)
  {
    hide FirstCut;
    if a == "" {
      assert a + rest == rest;
    } else {
      OneCharacter(a + rest);
      assert (a + rest)[1..] == a[1..] + rest;
      PlainFirstCut(a[1..], rest);
    }
  }

  lemma {:induction false} IdentifierCloses(a: string)
    requires '\"' !in a
    ensures IdentifierRest(a + "\"") == |a| + 1
  {
    if a == "" {
      assert a + "\"" == "\"";
    } else {
      assert (a + "\"")[1..] == a[1..] + "\"";
      IdentifierCloses(a[1..]);
    }
  }

  lemma QuoteFirstCut(rest: string)
    ensures FirstCut("\"" + rest) == if FirstCut(rest) == 0 then 0 else 1 + FirstCut(rest)
  {
    OneCharacter("\"" + rest);
    assert ("\"" + rest)[1..] == rest;
    hide FirstCut;
  }

  lemma NothingCut()
    ensures FirstCut("") == 0
  {}

  lemma RawOf(s: string)
    ensures var cut := FirstCut(s); Raw(s) == if cut == 0 then [s] else [s[..cut]] + Raw(s[cut..])
  {}

  lemma OneToken(x: string)
    requires '\"' !in x
    ensures PostgresLength("\"" + x + "\"", false) == |x| + 2
  {
    IdentifierCloses(x);
    assert ("\"" + x + "\"")[1..] == x + "\"";
    hide IdentifierRest;
  }

  lemma CutBehindOpening(a: string, rest: string)
    requires Plain(a)
    ensures FirstCut("\"" + a + (";" + rest)) == |a| + 2
  {
    hide FirstCut, Plain;
    OneCharacter(";" + rest);
    PlainFirstCut(a, ";" + rest);
    QuoteFirstCut(a + (";" + rest));
    assert "\"" + (a + (";" + rest)) == "\"" + a + (";" + rest);
  }

  lemma NoCutBeforeClosing(b: string)
    requires Plain(b)
    ensures FirstCut(b + "\"") == 0
  {
    hide FirstCut, Plain;
    NothingCut();
    QuoteFirstCut("");
    assert "\"" + "" == "\"";
    PlainFirstCut(b, "\"");
  }

  lemma TwoSegments(first: string, rest: string)
    requires FirstCut(first + rest) == |first| > 0 && FirstCut(rest) == 0
    ensures Raw(first + rest) == [first, rest]
  {
    RawOf(first + rest);
    RawOf(rest);
    hide FirstCut, Raw;
    assert (first + rest)[..|first|] == first && (first + rest)[|first|..] == rest;
  }

  function Quoted(x: string): string {
    "\"" + x + "\""
  }

  lemma Regrouped(quote: string, a: string, semicolon: string, b: string)
    ensures quote + (a + semicolon + b) + quote == (quote + a + semicolon) + (b + quote)
    ensures quote + a + (semicolon + (b + quote)) == (quote + a + semicolon) + (b + quote)
  {}

  lemma CutInTwo(a: string, b: string)
    requires Plain(a) && Plain(b)
    ensures Raw(("\"" + a + ";") + (b + "\"")) == ["\"" + a + ";", b + "\""]
  {
    hide FirstCut, Raw, Plain;
    Regrouped("\"", a, ";", b);
    CutBehindOpening(a, b + "\"");
    NoCutBeforeClosing(b);
    TwoSegments("\"" + a + ";", b + "\"");
  }

  /** Every quoted identifier with a semicolon is cut in two, though it is one token of PostgreSQL. */
  lemma QuotedIdentifierIsCut(a: string, b: string)
    requires Plain(a) && Plain(b)
    ensures Raw(Quoted(a + ";" + b)) == ["\"" + a + ";", b + "\""]
    ensures PostgresLength(Quoted(a + ";" + b), false) == |a + ";" + b| + 2
  {
    OneToken(a + ";" + b);
    hide FirstCut, Raw, PostgresLength, Plain;
    Regrouped("\"", a, ";", b);
    CutInTwo(a, b);
  }
}
