/** The string operations the calendar code uses, on sequences of characters. */
module Text {

  const CR: char := '\r'
  const LF: char := '\n'

  predicate IsSpace(c: char) {
    || c == ' ' || c == '\t' || c == LF || c == CR
    || c == '\U{000B}' || c == '\U{000C}' || c == '\U{00A0}' || c == '\U{1680}'
    || '\U{2000}' <= c <= '\U{200A}' || c == '\U{2028}' || c == '\U{2029}'
    || c == '\U{202F}' || c == '\U{205F}' || c == '\U{3000}' || c == '\U{FEFF}'
  }

  predicate IsDigit(c: char) {
    '0' <= c <= '9'
  }

  // ----- trimming

  function TrimStart(s: string): string {
    if s != "" && IsSpace(s[0]) then TrimStart(s[1..]) else s
  }

  function TrimEnd(s: string): string {
    if s != "" && IsSpace(s[|s| - 1]) then TrimEnd(s[..|s| - 1]) else s
  }

  function Trim(s: string): string {
    TrimEnd(TrimStart(s))
  }

  /** Nothing to trim: empty, or no whitespace at either end. */
  predicate Solid(s: string) {
    s == "" || (!IsSpace(s[0]) && !IsSpace(s[|s| - 1]))
  }

  lemma TrimSolid(s: string)
    requires Solid(s)
    ensures Trim(s) == s && TrimEnd(s) == s
  {}

  lemma {:induction false} TrimEndKeepsFirst(s: string)
    requires s != "" && !IsSpace(s[0])
    ensures TrimEnd(s) != "" && TrimEnd(s)[0] == s[0] && TrimEnd(s) <= s
  {
    if IsSpace(s[|s| - 1]) {
      TrimEndKeepsFirst(s[..|s| - 1]);
    }
  }

  // ----- letter case, for ASCII letters

  function UpperChar(c: char): char {
    if 'a' <= c <= 'z' then (c as int - 32) as char else c
  }

  function LowerChar(c: char): char {
    if 'A' <= c <= 'Z' then (c as int + 32) as char else c
  }

  function Upper(s: string): (r: string)
    ensures |r| == |s|
    ensures forall i | 0 <= i < |s| :: r[i] == UpperChar(s[i])
  {
    seq(|s|, i requires 0 <= i < |s| => UpperChar(s[i]))
  }

  function Lower(s: string): (r: string)
    ensures |r| == |s|
    ensures forall i | 0 <= i < |s| :: r[i] == LowerChar(s[i])
  {
    seq(|s|, i requires 0 <= i < |s| => LowerChar(s[i]))
  }

  lemma UpperOfUpper(s: string)
    requires forall c | c in s :: UpperChar(c) == c
    ensures Upper(s) == s
  {}

  lemma LowerOfLower(s: string)
    requires forall c | c in s :: LowerChar(c) == c
    ensures Lower(s) == s
  {}

  predicate EndsWith(s: string, suffix: string) {
    |suffix| <= |s| && s[|s| - |suffix|..] == suffix
  }

  // ----- searching and replacing

  function IndexOf(s: string, c: char): (i: int)
    ensures -1 <= i < |s|
    ensures i >= 0 ==> s[i] == c && c !in s[..i]
    ensures i < 0 ==> c !in s
  {
    if s == "" then -1
    else if s[0] == c then 0
    else
      var j := IndexOf(s[1..], c);
      if j < 0 then -1
      else
        assert s[..j + 1] == [s[0]] + s[1..][..j];
        j + 1
  }

  lemma {:induction false} IndexAfterPrefix(prefix: string, c: char, rest: string)
    requires c !in prefix
    ensures IndexOf(prefix + [c] + rest, c) == |prefix|
  {
    var s := prefix + [c] + rest;
    if prefix != "" {
      assert s[0] == prefix[0];
      IndexAfterPrefix(prefix[1..], c, rest);
      assert s[1..] == prefix[1..] + [c] + rest;
    }
  }

  /** Replaces every two-character match, left to right. */
  function ReplacePairs(s: string, first: char, seconds: set<char>, with: string): string {
    if |s| >= 2 && s[0] == first && s[1] in seconds then with + ReplacePairs(s[2..], first, seconds, with)
    else if s == "" then ""
    else [s[0]] + ReplacePairs(s[1..], first, seconds, with)
  }

  lemma {:induction false} NoPairs(s: string, first: char, seconds: set<char>, with: string)
    requires first !in s
    ensures ReplacePairs(s, first, seconds, with) == s
  {
    if s != "" {
      NoPairs(s[1..], first, seconds, with);
    }
  }

  function ReplaceChars(s: string, c: char, with: string): string {
    if s == "" then "" else (if s[0] == c then with else [s[0]]) + ReplaceChars(s[1..], c, with)
  }

  /** The characters of `s` other than `c`, and those of `with`, are all that a replacement leaves. */
  lemma {:induction false} ReplaceCharsMembers(s: string, c: char, with: string, x: char)
    requires x in ReplaceChars(s, c, with)
    ensures (x in s && x != c) || x in with
  {
    if s != "" && x in ReplaceChars(s[1..], c, with) {
      ReplaceCharsMembers(s[1..], c, with, x);
    }
  }

  // ----- order and size

  /** The order that comparing two ISO dates gives. */
  predicate Less(a: string, b: string) {
    if b == "" then false
    else if a == "" then true
    else a[0] < b[0] || (a[0] == b[0] && Less(a[1..], b[1..]))
  }

  lemma {:induction false} LessPrefix(p: string, a: string, b: string)
    ensures Less(p + a, p + b) <==> Less(a, b)
  {
    if p == "" {
      assert p + a == a && p + b == b;
    } else {
      LessPrefix(p[1..], a, b);
      assert (p + a)[1..] == p[1..] + a && (p + b)[1..] == p[1..] + b;
    }
  }

  lemma {:induction false} LessIrreflexive(a: string)
    ensures !Less(a, a)
  {
    if a != "" {
      LessIrreflexive(a[1..]);
    }
  }

  function Utf8Size(c: char): nat {
    if c < '\U{0080}' then 1 else if c < '\U{0800}' then 2 else if c < '\U{10000}' then 3 else 4
  }

  function ByteLength(s: string): nat {
    if s == "" then 0 else ByteLength(s[..|s| - 1]) + Utf8Size(s[|s| - 1])
  }

  /** `join(separator)`. */
  function Join(lines: seq<string>, separator: string): string {
    if lines == [] then "" else if |lines| == 1 then lines[0] else lines[0] + separator + Join(lines[1..], separator)
  }
}
