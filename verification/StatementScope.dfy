/** What a whole body does not hold, none of its statements holds. */
module StatementScope {
  import opened Text
  import opened SqlLexer
  import opened StatementSplitter
  import opened LockDirective
  import opened Sanitizer
  import opened SanitizeMeaning
  import opened PgSession

  /** A text without directives, cut at a semicolon, falls into two such texts. */
  lemma {:induction false} FreeAppend(m: Mode, a: string, b: string)
    requires EndsInSemicolon(a) && DirectiveFree(m, a + b)
    ensures DirectiveFree(m, a) && DirectiveFree(End(m, a), b)
    decreases |a|
  {
    hide Step, DirectiveLen, Local;
    SemicolonIsClean(m, a);
    assert Local(m, a);
    StepLocal(m, a, b);
    DirectiveLenAppend(a, b);
    var v := Step(m, a);
    assert (a + b)[v.len..] == a[v.len..] + b;
    if v.len < |a| {
      FreeAppend(v.to, a[v.len..], b);
    } else {
      assert a[v.len..] == "" && "" + b == b;
    }
  }

  /** The first statement, and the statements of what follows it. */
  lemma FirstOfSplit(s: string) returns (a: string, b: string)
    ensures s == a + b && |b| <= |s| && (s != "" ==> |b| < |s|)
    ensures forall st :: st in Split(s) ==> st == a || (b != "" && st in Split(b))
    ensures b != "" ==> EndsInSemicolon(a) && End(Code, a) == Code
  {
    hide Lex, Fragments, End, HasCode;
    a, b := FirstFragment(Code, s);
    var fs := Fragments(Lex(Code, s));
    LexLossless(Code, a);
    if s != "" && a == "" {
      FirstIsNotEmpty(s, b);
    }
    assert Split(s) == Kept(fs);
    assert TextOf(fs[0]) == a;
    if |fs| > 1 {
      assert Kept(fs[1..]) == Split(b);
      if b == "" {
        SplitNothing();
      }
    } else {
      assert fs[1..] == [];
    }
  }

  lemma FirstIsNotEmpty(s: string, b: string)
    requires s != ""
    ensures !(s == "" + b && IsFirstFragment(Fragments(Lex(Code, s)), Code, "", b))
  {
    UnfoldLex(Code, s);
    assert Fragments(Lex(Code, s))[0] != [];
  }

  /** In a text without directives, no statement holds one. */
  lemma {:induction false} StatementsAreFree(s: string)
    requires DirectiveFree(Code, s)
    ensures forall st :: st in Split(s) ==> DirectiveFree(Code, st)
    decreases |s|
  {
    hide DirectiveFree, Split, End;
    var a, b := FirstOfSplit(s);
    if b != "" {
      FreeAppend(Code, a, b);
      StatementsAreFree(b);
    } else {
      assert a == s;
    }
  }

  lemma MentionsAppend(a: string, b: string, word: string)
    ensures Mentions(a, word) || Mentions(b, word) ==> Mentions(a + b, word)
  {
    if Mentions(a, word) {
      var i :| 0 <= i <= |a| && WordAt(a, i, word);
      assert WordAt(a + b, i, word);
    } else if Mentions(b, word) {
      var i :| 0 <= i <= |b| && WordAt(b, i, word);
      forall k | 0 <= k < |word| ensures Lower((a + b)[|a| + i + k]) == word[k] {
        assert (a + b)[|a| + i + k] == b[i + k];
      }
      assert WordAt(a + b, |a| + i, word);
    }
  }

  /** In a text that names no role, no statement names one. */
  lemma {:induction false} StatementsAreRoleFree(s: string)
    requires RoleFree(s)
    ensures forall st :: st in Split(s) ==> RoleFree(st)
    decreases |s|
  {
    hide Split, End, Mentions;
    var a, b := FirstOfSplit(s);
    MentionsAppend(a, b, "role");
    MentionsAppend(a, b, "authorization");
    MentionsAppend(a, b, "discard");
    if b != "" {
      StatementsAreRoleFree(b);
    } else {
      assert a == s;
    }
  }
}
