/** The pattern of a file-level lock_timeout directive. */
module LockDirective {
  import opened Text
  import opened SqlLexer

  /** No semicolon stands between `p` and `q`. */
  predicate NoSemicolon(s: string, p: nat, q: nat) {
    q <= |s| && forall k :: p <= k < q ==> s[k] != ';'
  }

  lemma JoinNoSemicolon(s: string, p: nat, q: nat, r: nat)
    requires p <= q <= r && NoSemicolon(s, p, q) && NoSemicolon(s, q, r)
    ensures NoSemicolon(s, p, r)
  {
  }

  lemma WordHasNoSemicolon(s: string, p: nat, word: string)
    requires WordAt(s, p, word) && ';' !in word
    ensures NoSemicolon(s, p, p + |word|)
  {
    forall k | p <= k < p + |word| ensures s[k] != ';' {
      assert Lower(s[p + (k - p)]) == word[k - p];
    }
  }

  lemma NotWord(s: string, p: nat, word: string, k: nat)
    requires k < |word| && (p + k < |s| ==> Lower(s[p + k]) != word[k])
    ensures !WordAt(s, p, word)
  {
  }

  function SkipSpace(s: string, p: nat): (q: nat)
    requires p <= |s|
    ensures p <= q <= |s|
    ensures NoSemicolon(s, p, q)
  {
    p + SpaceRun(s[p..])
  }

  /** The end of the run at `p` that holds neither a newline nor a semicolon. */
  function ValueEnd(s: string, p: nat): (q: nat)
    requires p <= |s|
    ensures p <= q <= |s|
    ensures NoSemicolon(s, p, q)
    decreases |s| - p
  {
    if p == |s| || s[p] == '\n' || s[p] == ';' then p else ValueEnd(s, p + 1)
  }

  function SkipSemicolon(s: string, p: nat): (q: nat)
    requires p <= |s|
    ensures p <= q <= |s| && q <= p + 1
  {
    if p < |s| && s[p] == ';' then p + 1 else p
  }

  /** Where `word`, after at least one space, at `p` ends; or zero. */
  function AfterSpacedWord(s: string, p: nat, word: string): (q: nat)
    requires p <= |s| && ';' !in word
    ensures q > 0 ==> q > p && NoSemicolon(s, p, q)
  {
    var n := SkipSpace(s, p);
    if n > p && WordAt(s, n, word) then
      WordHasNoSemicolon(s, n, word);
      JoinNoSemicolon(s, p, n, n + |word|);
      n + |word|
    else 0
  }

  /** Where an optional ` session` or ` local` at `p` ends. */
  function AfterScope(s: string, p: nat): (q: nat)
    requires p <= |s|
    ensures p <= q && NoSemicolon(s, p, q)
  {
    if AfterSpacedWord(s, p, "session") > 0 then AfterSpacedWord(s, p, "session")
    else if AfterSpacedWord(s, p, "local") > 0 then AfterSpacedWord(s, p, "local")
    else p
  }

  /** Where `=` or a whole word `to` at `p` ends, or zero. */
  function AfterAssign(s: string, p: nat): (q: nat)
    requires p <= |s|
    ensures q > 0 ==> q > p && NoSemicolon(s, p, q)
  {
    if p < |s| && s[p] == '=' then p + 1
    else if WordAt(s, p, "to") && (p + 2 == |s| || !IsIdentPart(s[p + 2])) then
      WordHasNoSemicolon(s, p, "to");
      p + 2
    else 0
  }

  /** Where the value after the `=` or `TO` that ends at `p` stops. */
  function AfterValue(s: string, p: nat): (q: nat)
    requires p <= |s|
    ensures p <= q && NoSemicolon(s, p, q)
  {
    var v := SkipSpace(s, p);
    JoinNoSemicolon(s, p, v, ValueEnd(s, v));
    ValueEnd(s, v)
  }

  /** Where `SET [SESSION|LOCAL] lock_timeout (=|TO) value` stops, or zero. */
  function SetEnd(s: string): (q: nat)
    ensures q > 0 ==> NoSemicolon(s, 0, q) && Lower(s[0]) == 's'
  {
    if !WordAt(s, 0, "set") then 0
    else
      WordHasNoSemicolon(s, 0, "set");
      var scope := AfterScope(s, 3);
      var name := AfterSpacedWord(s, scope, "lock_timeout");
      if name == 0 then 0
      else
        var assign := SkipSpace(s, name);
        var value := AfterAssign(s, assign);
        if value == 0 then 0
        else
          JoinNoSemicolon(s, 0, 3, scope);
          JoinNoSemicolon(s, 0, scope, name);
          JoinNoSemicolon(s, 0, name, assign);
          JoinNoSemicolon(s, 0, assign, value);
          JoinNoSemicolon(s, 0, value, AfterValue(s, value));
          assert Lower(s[0 + 0]) == "set"[0];
          AfterValue(s, value)
  }

  /** Where `RESET lock_timeout` and the white space after it stop, or zero. */
  function ResetEnd(s: string): (q: nat)
    ensures q > 0 ==> NoSemicolon(s, 0, q) && Lower(s[0]) == 'r'
  {
    if !WordAt(s, 0, "reset") then 0
    else
      WordHasNoSemicolon(s, 0, "reset");
      var name := AfterSpacedWord(s, 5, "lock_timeout");
      if name == 0 then 0
      else
        JoinNoSemicolon(s, 0, 5, name);
        JoinNoSemicolon(s, 0, name, SkipSpace(s, name));
        assert Lower(s[0 + 0]) == "reset"[0];
        SkipSpace(s, name)
  }

  /** Length of the directive that the pattern matches at the start of `s`, or zero. */
  function DirectiveLen(s: string): (n: nat)
    ensures n <= |s|
    ensures n > 0 ==> NoSemicolon(s, 0, n - 1) && Lower(s[0]) in "sr"
  {
    if SetEnd(s) > 0 then SkipSemicolon(s, SetEnd(s))
    else if ResetEnd(s) > 0 then SkipSemicolon(s, ResetEnd(s))
    else 0
  }

  // No match looks past a semicolon.

  lemma {:induction false} SpaceRunAppend(x: string, b: string)
    requires SpaceRun(x) < |x|
    ensures SpaceRun(x + b) == SpaceRun(x)
  {
    if IsSpace(x[0]) {
      assert (x + b)[1..] == x[1..] + b;
      SpaceRunAppend(x[1..], b);
    }
  }

  lemma SkipSpaceAppend(x: string, b: string, p: nat)
    requires EndsInSemicolon(x) && p < |x|
    ensures SkipSpace(x + b, p) == SkipSpace(x, p) < |x|
  {
    assert (x + b)[p..] == x[p..] + b;
    assert x[p..][|x| - 1 - p] == ';';
    SpaceRunAppend(x[p..], b);
  }

  lemma WordAtAppend(x: string, b: string, p: nat, word: string)
    requires EndsInSemicolon(x) && p < |x| && ';' !in word
    ensures WordAt(x + b, p, word) == WordAt(x, p, word)
    ensures WordAt(x, p, word) ==> p + |word| < |x|
  {
    if WordAt(x + b, p, word) {
      WordHasNoSemicolon(x + b, p, word);
      assert (x + b)[|x| - 1] == ';';
    }
  }

  lemma {:induction false} ValueEndAppend(x: string, b: string, p: nat)
    requires EndsInSemicolon(x) && p < |x|
    ensures ValueEnd(x + b, p) == ValueEnd(x, p) < |x|
    decreases |x| - p
  {
    if x[p] != '\n' && x[p] != ';' {
      ValueEndAppend(x, b, p + 1);
    }
  }

  lemma AfterSpacedWordAppend(x: string, b: string, p: nat, word: string)
    requires EndsInSemicolon(x) && p < |x| && ';' !in word
    ensures AfterSpacedWord(x + b, p, word) == AfterSpacedWord(x, p, word) < |x|
  {
    SkipSpaceAppend(x, b, p);
    WordAtAppend(x, b, SkipSpace(x, p), word);
  }

  lemma AfterScopeAppend(x: string, b: string, p: nat)
    requires EndsInSemicolon(x) && p < |x|
    ensures AfterScope(x + b, p) == AfterScope(x, p) < |x|
  {
    AfterSpacedWordAppend(x, b, p, "session");
    AfterSpacedWordAppend(x, b, p, "local");
  }

  lemma AfterAssignAppend(x: string, b: string, p: nat)
    requires EndsInSemicolon(x) && p < |x|
    ensures AfterAssign(x + b, p) == AfterAssign(x, p) < |x|
  {
    WordAtAppend(x, b, p, "to");
  }

  lemma AfterValueAppend(x: string, b: string, p: nat)
    requires EndsInSemicolon(x) && p < |x|
    ensures AfterValue(x + b, p) == AfterValue(x, p) < |x|
  {
    SkipSpaceAppend(x, b, p);
    ValueEndAppend(x, b, SkipSpace(x, p));
  }

  lemma SetEndAppend(x: string, b: string)
    requires EndsInSemicolon(x)
    ensures SetEnd(x + b) == SetEnd(x) < |x|
  {
    hide AfterScope, AfterSpacedWord, AfterAssign, AfterValue, WordAt, SkipSpace;
    WordAtAppend(x, b, 0, "set");
    if WordAt(x, 0, "set") {
      AfterScopeAppend(x, b, 3);
      var scope := AfterScope(x, 3);
      AfterSpacedWordAppend(x, b, scope, "lock_timeout");
      var name := AfterSpacedWord(x, scope, "lock_timeout");
      if name > 0 {
        SkipSpaceAppend(x, b, name);
        AfterAssignAppend(x, b, SkipSpace(x, name));
        var value := AfterAssign(x, SkipSpace(x, name));
        if value > 0 {
          AfterValueAppend(x, b, value);
        }
      }
    }
  }

  lemma ResetEndAppend(x: string, b: string)
    requires EndsInSemicolon(x)
    ensures ResetEnd(x + b) == ResetEnd(x) < |x|
  {
    hide AfterSpacedWord, WordAt, SkipSpace;
    WordAtAppend(x, b, 0, "reset");
    if WordAt(x, 0, "reset") {
      AfterSpacedWordAppend(x, b, 5, "lock_timeout");
      var name := AfterSpacedWord(x, 5, "lock_timeout");
      if name > 0 {
        SkipSpaceAppend(x, b, name);
      }
    }
  }

  /** The pattern is decided by the text up to the first semicolon. */
  lemma DirectiveLenAppend(x: string, b: string)
    requires EndsInSemicolon(x)
    ensures DirectiveLen(x + b) == DirectiveLen(x)
  {
    hide SetEnd, ResetEnd;
    SetEndAppend(x, b);
    ResetEndAppend(x, b);
  }
}
