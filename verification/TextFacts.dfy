/** What the string operations mean, character by character. */
module TextFacts {
  import opened Text

  /** WhiteSpace and LineTerminator of ECMA-262 (sections 12.2 and 12.3). */
  lemma SpacesAre(c: char)
    ensures IsSpace(c) <==>
            c as int in {9, 10, 11, 12, 13, 32, 160, 5760, 8192, 8193, 8194, 8195, 8196, 8197, 8198, 8199, 8200, 8201, 8202,
                         8232, 8233, 8239, 8287, 12288, 65279}
  {}

  predicate AllSpace(s: string) {
    forall i | 0 <= i < |s| :: IsSpace(s[i])
  }

  lemma {:induction false} TrimEndCuts(s: string)
    ensures TrimEnd(s) <= s && AllSpace(s[|TrimEnd(s)|..])
    ensures TrimEnd(s) == "" || !IsSpace(TrimEnd(s)[|TrimEnd(s)| - 1])
  {
    hide IsSpace;
    if s != "" && IsSpace(s[|s| - 1]) {
      TrimEndCuts(s[..|s| - 1]);
      var n := |TrimEnd(s)|;
      assert s[n..] == s[..|s| - 1][n..] + [s[|s| - 1]];
    }
  }

  lemma OneFurther(s: string, m: nat)
    requires m < |s|
    ensures s[m + 1..] == s[1..][m..]
    ensures IsSpace(s[0]) && AllSpace(s[1..][..m]) ==> AllSpace(s[..m + 1])
  {
    hide IsSpace;
    assert s[..m + 1] == [s[0]] + s[1..][..m];
  }

  lemma {:induction false} TrimStartCuts(s: string) returns (n: nat)
    ensures n <= |s| && s[n..] == TrimStart(s) && AllSpace(s[..n])
    ensures TrimStart(s) == "" || !IsSpace(TrimStart(s)[0])
  {
    hide IsSpace, AllSpace;
    if s != "" && IsSpace(s[0]) {
      var m := TrimStartCuts(s[1..]);
      OneFurther(s, m);
      n := m + 1;
    } else {
      n := 0;
      assert s[0..] == s && AllSpace(s[..0]) by {
        NoSpace();
      }
    }
  }

  lemma NoSpace()
    ensures AllSpace("")
  {}

  /** `m` with blanks around it. */
  ghost predicate Surrounded(s: string, m: string) {
    exists i | 0 <= i <= |s| - |m| :: AllSpace(s[..i]) && s[i..i + |m|] == m && AllSpace(s[i + |m|..])
  }

  lemma TrimLeaves(s: string)
    ensures Solid(Trim(s)) && Surrounded(s, Trim(s))
  {
    hide IsSpace;
    var i := TrimStartCuts(s);
    var t := TrimStart(s);
    TrimEndCuts(t);
    var m := Trim(s);
    assert s[i..i + |m|] == t[..|m|] == m;
    assert s[i + |m|..] == t[|m|..];
  }

  lemma SpaceOutside(s: string, j: nat, e: nat, k: nat)
    requires j <= e <= |s| && AllSpace(s[..j]) && AllSpace(s[e..]) && k < |s|
    ensures k < j || e <= k ==> IsSpace(s[k])
  {
    if k < j {
      assert s[..j][k] == s[k];
    } else if e <= k {
      assert s[e..][k - e] == s[k];
    }
  }

  lemma OnlyOne(s: string, i: nat, a: string, j: nat, b: string)
    requires i + |a| <= |s| && AllSpace(s[..i]) && s[i..i + |a|] == a && AllSpace(s[i + |a|..]) && Solid(a)
    requires j + |b| <= |s| && AllSpace(s[..j]) && s[j..j + |b|] == b && AllSpace(s[j + |b|..]) && Solid(b)
    requires a != ""
    ensures i >= j && i + |a| <= j + |b| && b != ""
  {
    hide IsSpace;
    var first, last := s[i], s[i + |a| - 1];
    assert first == a[0] && last == a[|a| - 1];
    SpaceOutside(s, j, j + |b|, i);
    SpaceOutside(s, j, j + |b|, i + |a| - 1);
  }

  lemma SameCore(s: string, m: string, t: string)
    requires Solid(m) && Surrounded(s, m) && Solid(t) && Surrounded(s, t)
    ensures m == t
  {
    var i :| 0 <= i <= |s| - |m| && AllSpace(s[..i]) && s[i..i + |m|] == m && AllSpace(s[i + |m|..]);
    var j :| 0 <= j <= |s| - |t| && AllSpace(s[..j]) && s[j..j + |t|] == t && AllSpace(s[j + |t|..]);
    hide IsSpace, AllSpace, Solid;
    if m != "" {
      OnlyOne(s, i, m, j, t);
    }
    if t != "" {
      OnlyOne(s, j, t, i, m);
    }
  }

  /** Trimming gives the one text without blanks at its ends that the original surrounds with blanks. */
  lemma TrimIff(s: string, m: string)
    ensures Trim(s) == m <==> Solid(m) && Surrounded(s, m)
  {
    TrimLeaves(s);
    hide *;
    if Solid(m) && Surrounded(s, m) {
      SameCore(s, m, Trim(s));
    }
  }

  const SMALL: string := "abcdefghijklmnopqrstuvwxyz"
  const CAPITAL: string := "ABCDEFGHIJKLMNOPQRSTUVWXYZ"

  lemma LetterCodes(i: nat)
    requires i < 26
    ensures SMALL[i] as int == 'a' as int + i && CAPITAL[i] as int == 'A' as int + i
  {}

  lemma LettersAre(c: char)
    ensures c in SMALL <==> 'a' <= c <= 'z'
    ensures c in CAPITAL <==> 'A' <= c <= 'Z'
  {
    forall i: nat | i < 26 ensures SMALL[i] as int == 'a' as int + i && CAPITAL[i] as int == 'A' as int + i {
      LetterCodes(i);
    }
    assert |SMALL| == 26 && |CAPITAL| == 26;
    hide SMALL, CAPITAL;
    if 'a' <= c <= 'z' {
      assert SMALL[c as int - 'a' as int] == c;
    }
    if 'A' <= c <= 'Z' {
      assert CAPITAL[c as int - 'A' as int] == c;
    }
  }

  /** Each of the 26 letters has its capital; other characters stay as they are. */
  lemma LettersHaveCapitals(c: char, i: nat)
    ensures i < 26 ==> UpperChar(SMALL[i]) == CAPITAL[i] && LowerChar(CAPITAL[i]) == SMALL[i]
    ensures c !in SMALL ==> UpperChar(c) == c
    ensures c !in CAPITAL ==> LowerChar(c) == c
  {
    LettersAre(c);
    if i < 26 {
      LetterCodes(i);
    }
    hide SMALL, CAPITAL;
  }

  function Power(bits: nat): nat {
    if bits == 0 then 1 else 2 * Power(bits - 1)
  }

  /** How many characters fit into so many bytes of UTF-8 (section 3 of RFC 3629). */
  function Capacity(bytes: nat): nat {
    if bytes == 0 then 0 else if bytes == 1 then Power(7) else Power(5 * bytes + 1)
  }

  /** A character takes the fewest bytes that can hold it. */
  lemma Utf8SizeIsLeast(c: char)
    ensures 1 <= Utf8Size(c) <= 4 && Capacity(Utf8Size(c) - 1) <= c as int < Capacity(Utf8Size(c))
  {
    assert Power(7) == 128 && Power(11) == 2048 && Power(16) == 65_536 && Power(21) == 2_097_152;
  }

  lemma {:induction false} ByteLengthConcat(a: string, b: string)
    ensures ByteLength(a + b) == ByteLength(a) + ByteLength(b)
    decreases |b|
  {
    if b == "" {
      assert a + b == a;
    } else {
      var init, last := b[..|b| - 1], b[|b| - 1];
      ByteLengthConcat(a, init);
      assert (a + b)[..|a + b| - 1] == a + init && (a + b)[|a + b| - 1] == last;
    }
  }
}
