/** What the patterns of the splitter match: dollar tags, and statements with code. */
module SqlTexts {
  import opened Wrappers
  import opened Text
  import opened TextFacts
  import opened SqlSplitter
  import opened SqlSplitting

  /** Letters and underscores. */
  predicate TagCharacter(c: char) {
    c in CAPITAL || c in SMALL || c == '_'
  }

  lemma TagCharacters(c: char)
    ensures IsTagChar(c) <==> TagCharacter(c)
  {
    LettersAre(c);
  }

  lemma TagCharsAre(s: string, k: nat)
    requires k <= |s| && (forall i | 0 <= i < k :: IsTagChar(s[i])) && (k < |s| ==> !IsTagChar(s[k]))
    ensures TagChars(s) == k
  {
    var n := TagChars(s);
    hide IsTagChar, TagChars;
  }

  lemma DollarTagOf(s: string, n: nat)
    requires 2 <= n <= |s| && s[0] == '$' && s[n - 1] == '$' && forall i | 0 < i < n - 1 :: IsTagChar(s[i])
    ensures DollarTag(s) == Some(s[..n])
  {
    assert forall i | 0 < i < |s| :: s[1..][i - 1] == s[i];
    TagCharsAre(s[1..], n - 2);
  }

  lemma TagOfDollar(s: string)
    requires DollarTag(s).Some?
    ensures var n := |DollarTag(s).value|;
            2 <= n <= |s| && s[0] == '$' && s[n - 1] == '$' && forall i | 0 < i < n - 1 :: IsTagChar(s[i])
  {
    var k := TagChars(s[1..]);
    assert forall i | 0 < i < |s| :: s[1..][i - 1] == s[i];
    hide IsTagChar, TagChars;
  }

  /** A dollar tag is two dollar signs with nothing but letters and underscores between them, or nothing at all. */
  lemma DollarTagIff(s: string, n: nat)
    requires n <= |s|
    ensures DollarTag(s) == Some(s[..n]) <==>
            n >= 2 && s[0] == '$' && s[n - 1] == '$' && forall i | 0 < i < n - 1 :: TagCharacter(s[i])
  {
    forall i | 0 <= i < |s| ensures IsTagChar(s[i]) <==> TagCharacter(s[i]) {
      TagCharacters(s[i]);
    }
    hide IsTagChar, TagCharacter, DollarTag;
    if DollarTag(s) == Some(s[..n]) {
      TagOfDollar(s);
    } else if n >= 2 && s[0] == '$' && s[n - 1] == '$' && forall i | 0 < i < n - 1 :: TagCharacter(s[i]) {
      DollarTagOf(s, n);
    }
  }

  // ----- code outside comments

  /** The line terminators of the pattern language: a dot matches none of them. */
  predicate IsLineEnd(c: char) {
    c as int in {10, 13, 8232, 8233}
  }

  /** A double dash begins at or before this character, and the line has not ended since. */
  predicate Commented(s: string, i: nat)
    requires i < |s|
  {
    exists j | 0 <= j <= i :: DashesAt(s, j) && forall k | j + 2 <= k <= i :: !IsLineEnd(s[k])
  }

  predicate DashesAt(s: string, j: nat) {
    j + 1 < |s| && s[j] == '-' && s[j + 1] == '-'
  }

  predicate Visible(s: string, i: nat) {
    i < |s| && !IsSpace(s[i]) && !Commented(s, i)
  }

  lemma {:induction false} LineEndAt(s: string)
    ensures ToLineEnd(s) < |s| ==> IsLineEnd(s[ToLineEnd(s)])
    ensures forall k | 0 <= k < ToLineEnd(s) :: !IsLineEnd(s[k])
  {
    if s != "" && !EndsLine(s[0]) {
      LineEndAt(s[1..]);
    }
  }

  lemma CommentIsFront(s: string)
    requires StartsWith(s, '-', '-')
    ensures var n := 2 + ToLineEnd(s[2..]);
            && n <= |s| && DashesAt(s, 0) && (forall k | 2 <= k < n :: !IsLineEnd(s[k])) && (n < |s| ==> IsLineEnd(s[n]))
  {
    LineEndAt(s[2..]);
    assert forall k | 2 <= k < |s| :: s[2..][k - 2] == s[k];
  }

  lemma CommentGoesOn(s: string, n: nat, i: nat)
    requires n <= i < |s| && IsLineEnd(s[n]) && Commented(s, i)
    ensures Commented(s[n..], i - n)
  {
    var j :| 0 <= j <= i && DashesAt(s, j) && forall k | j + 2 <= k <= i :: !IsLineEnd(s[k]);
    assert j >= n;
    assert DashesAt(s[n..], j - n);
    assert forall k | j - n + 2 <= k <= i - n :: s[n..][k] == s[k + n];
  }

  lemma CommentWentOn(s: string, n: nat, i: nat)
    requires n <= i < |s| && Commented(s[n..], i - n)
    ensures Commented(s, i)
  {
    var j :| 0 <= j <= i - n && DashesAt(s[n..], j) && forall k | j + 2 <= k <= i - n :: !IsLineEnd(s[n..][k]);
    assert DashesAt(s, j + n);
    assert forall k | j + n + 2 <= k <= i :: s[k] == s[n..][k - n];
  }

  lemma CommentAtFront(s: string, i: nat)
    requires StartsWith(s, '-', '-') && i < |s|
    ensures var n := 2 + ToLineEnd(s[2..]);
            Commented(s, i) <==> i < n || Commented(s[n..], i - n)
  {
    var n := 2 + ToLineEnd(s[2..]);
    CommentIsFront(s);
    if i >= n {
      hide Commented;
      if Commented(s, i) {
        CommentGoesOn(s, n, i);
      }
      if Commented(s[n..], i - n) {
        CommentWentOn(s, n, i);
      }
    }
  }

  lemma CodeAtFront(s: string, i: nat)
    requires s != "" && !StartsWith(s, '-', '-') && i < |s|
    ensures Commented(s, i) <==> i > 0 && Commented(s[1..], i - 1)
  {
    if j :| 0 <= j <= i && DashesAt(s, j) && forall k | j + 2 <= k <= i :: !IsLineEnd(s[k]) {
      assert j > 0 && DashesAt(s[1..], j - 1);
      assert forall k | j - 1 + 2 <= k <= i - 1 :: s[1..][k] == s[k + 1];
    }
    if i > 0 && Commented(s[1..], i - 1) {
      var j :| 0 <= j <= i - 1 && DashesAt(s[1..], j) && forall k | j + 2 <= k <= i - 1 :: !IsLineEnd(s[1..][k]);
      assert DashesAt(s, j + 1) && forall k | j + 1 + 2 <= k <= i :: s[k] == s[1..][k - 1];
    }
  }

  lemma VisibleTail(s: string, n: nat)
    requires n <= |s|
    requires forall i | 0 <= i < |s| :: Commented(s, i) <==> i < n || Commented(s[n..], i - n)
    ensures (exists i: nat :: Visible(s, i)) <==> exists i: nat :: Visible(s[n..], i)
  {
    hide Commented, IsSpace;
    if i: nat :| Visible(s, i) {
      assert Visible(s[n..], i - n);
    }
    if i: nat :| Visible(s[n..], i) {
      assert Visible(s, i + n);
    }
  }

  lemma {:induction false} StrippedIsVisible(s: string)
    ensures Blank(StripComments(s)) <==> forall i: nat :: !Visible(s, i)
    decreases |s|
  {
    hide IsSpace;
    if s == "" {
    } else if StartsWith(s, '-', '-') {
      var n := 2 + ToLineEnd(s[2..]);
      StrippedIsVisible(s[n..]);
      forall i | 0 <= i < |s| ensures Commented(s, i) <==> i < n || Commented(s[n..], i - n) {
        CommentAtFront(s, i);
      }
      VisibleTail(s, n);
    } else {
      StrippedIsVisible(s[1..]);
      BlankCons(s[0], StripComments(s[1..]));
      forall i | 0 <= i < |s| ensures Commented(s, i) <==> i > 0 && Commented(s[1..], i - 1) {
        CodeAtFront(s, i);
      }
      if i: nat :| Visible(s, i) {
        assert i == 0 || Visible(s[1..], i - 1);
      }
      if i: nat :| Visible(s[1..], i) {
        assert Visible(s, i + 1);
      }
      if !IsSpace(s[0]) {
        assert Visible(s, 0);
      }
    }
  }

  /** A statement is kept exactly if some character that is no blank stands outside its line comments. */
  lemma HasCodeIff(s: string)
    ensures HasCode(s) <==> exists i: nat :: Visible(s, i)
  {
    TrimOfBlank(StripComments(s));
    StrippedIsVisible(s);
  }
}
