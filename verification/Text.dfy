/** Character classes and small string functions shared by the scanners. */
module Text {

  /** White space as `\s` and `trim()` see it. */
  predicate IsSpace(c: char) {
    || '\t' <= c <= '\r' || c == ' '
    || c == '\U{A0}' || c == '\U{1680}' || '\U{2000}' <= c <= '\U{200A}'
    || c == '\U{2028}' || c == '\U{2029}' || c == '\U{202F}' || c == '\U{205F}'
    || c == '\U{3000}' || c == '\U{FEFF}'
  }

  predicate IsDigit(c: char) { '0' <= c <= '9' }

  predicate IsIdentStart(c: char) { 'a' <= c <= 'z' || 'A' <= c <= 'Z' || c == '_' }

  predicate IsIdentPart(c: char) { IsIdentStart(c) || IsDigit(c) }

  function Lower(c: char): char {
    if 'A' <= c <= 'Z' then (c as int + 32) as char else c
  }

  /** The same classes by code point. */
  lemma CodePoints(c: char)
    ensures var n := c as int;
      && (IsDigit(c) <==> 48 <= n <= 57)
      && (IsIdentStart(c) <==> 65 <= n <= 90 || 97 <= n <= 122 || n == 95)
      && (IsIdentPart(c) <==> 48 <= n <= 57 || 65 <= n <= 90 || 97 <= n <= 122 || n == 95)
      && (IsSpace(c) <==> n in {9, 10, 11, 12, 13, 32, 160, 5760, 8192, 8193, 8194, 8195, 8196, 8197, 8198, 8199, 8200, 8201, 8202,
                               8232, 8233, 8239, 8287, 12288, 65279})
      && Lower(c) as int == if 65 <= n <= 90 then n + 32 else n
  {
  }

  /** `word`, in any case, stands at `p`. */
  predicate WordAt(s: string, p: nat, word: string) {
    p + |word| <= |s| && forall k :: 0 <= k < |word| ==> Lower(s[p + k]) == word[k]
  }

  /** Length of the longest prefix made of identifier characters. */
  function IdentRun(s: string): (n: nat)
    ensures n <= |s|
    ensures forall i :: 0 <= i < n ==> IsIdentPart(s[i])
    ensures n < |s| ==> !IsIdentPart(s[n])
  {
    if s == "" || !IsIdentPart(s[0]) then 0 else 1 + IdentRun(s[1..])
  }

  /** Length of the longest prefix made of white space. */
  function SpaceRun(s: string): (n: nat)
    ensures n <= |s|
    ensures forall i :: 0 <= i < n ==> IsSpace(s[i])
    ensures n < |s| ==> !IsSpace(s[n])
  {
    if s == "" || !IsSpace(s[0]) then 0 else 1 + SpaceRun(s[1..])
  }

  /** `s` is `word` in any letter case. */
  predicate IsWord(s: string, word: string) {
    |s| == |word| && forall k :: 0 <= k < |s| ==> Lower(s[k]) == word[k]
  }

  predicate Blank(s: string) { forall i :: 0 <= i < |s| ==> IsSpace(s[i]) }

  lemma {:induction false} BlankRun(b: string, t: string)
    requires Blank(b) && (t != "" ==> !IsSpace(t[0]))
    ensures SpaceRun(b + t) == |b|
  {
    if b == "" {
      assert b + t == t;
    } else {
      assert (b + t)[1..] == b[1..] + t;
      BlankRun(b[1..], t);
    }
  }

  lemma WordSlice(s: string, p: nat, word: string)
    requires WordAt(s, p, word)
    ensures p + |word| <= |s| && IsWord(s[p..p + |word|], word)
  {
  }

  /** A number in decimal. */
  function Digits(n: nat): string {
    if n < 10 then [('0' as int + n) as char] else Digits(n / 10) + [('0' as int + n % 10) as char]
  }

  lemma {:induction false} DigitsAreDigits(n: nat)
    ensures Digits(n) != "" && forall i :: 0 <= i < |Digits(n)| ==> IsDigit(Digits(n)[i])
  {
    if n >= 10 {
      DigitsAreDigits(n / 10);
    }
  }

  /** Concatenation of a list of strings. */
  function Concat(ss: seq<string>): string {
    if ss == [] then "" else ss[0] + Concat(ss[1..])
  }

  lemma {:induction false} ConcatAppend(a: seq<string>, b: seq<string>)
    ensures Concat(a + b) == Concat(a) + Concat(b)
  {
    if a == [] {
      assert a + b == b;
    } else {
      assert (a + b)[1..] == a[1..] + b;
      ConcatAppend(a[1..], b);
    }
  }
}
