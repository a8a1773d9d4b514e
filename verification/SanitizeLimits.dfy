/** Inputs on which sanitizing does not do what it does on disciplined bodies. */
module SanitizeLimits {
  import opened Text
  import opened SqlLexer
  import opened StatementSplitter
  import opened LockDirective
  import opened Sanitizer

  const PREFIX := "set lock_timeout = "
  const SET_ZERO := PREFIX + "0;"
  const TAIL := "t lock_timeout = 0;"

  lemma OneSpace(s: string, p: nat)
    requires p + 1 < |s| && IsSpace(s[p]) && !IsSpace(s[p + 1])
    ensures SkipSpace(s, p) == p + 1
  {
    assert s[p..][1..] == s[p + 1..];
  }

  lemma SpacedWord(s: string, p: nat, word: string)
    requires p + 1 < |s| && IsSpace(s[p]) && !IsSpace(s[p + 1]) && ';' !in word
    ensures AfterSpacedWord(s, p, word) == if WordAt(s, p + 1, word) then p + 1 + |word| else 0
  {
    OneSpace(s, p);
  }

  lemma PrefixWords(s: string)
    requires PREFIX <= s
    ensures WordAt(s, 0, "set") && WordAt(s, 4, "lock_timeout")
    ensures !WordAt(s, 4, "session") && !WordAt(s, 4, "local")
    ensures IsSpace(s[3]) && s[4] == 'l' && IsSpace(s[16]) && s[17] == '=' && IsSpace(s[18])
  {
    hide PREFIX;
    PrefixChars(s);
    SetAndName(s);
    NotWord(s, 4, "session", 0);
    NotWord(s, 4, "local", 3);
  }

  lemma PrefixChars(s: string)
    requires PREFIX <= s
    ensures |s| >= 19 && s[..4] == "set " && s[4..16] == "lock_timeout" && s[16..19] == " = "
    ensures s[3] == ' ' && s[4] == 'l' && s[7] == 'k' && s[16] == ' ' && s[17] == '=' && s[18] == ' '
  {
    hide PREFIX;
    PrefixParts();
    assert s[..19] == PREFIX;
    assert s[..4] == PREFIX[..4] && s[4..16] == PREFIX[4..16] && s[16..19] == PREFIX[16..19];
    assert s[3] == s[..4][3] && s[4] == s[4..16][0] && s[7] == s[4..16][3];
    assert s[16] == s[16..19][0] && s[17] == s[16..19][1] && s[18] == s[16..19][2];
  }

  lemma PrefixParts()
    ensures |PREFIX| == 19 && PREFIX[..4] == "set " && PREFIX[4..16] == "lock_timeout" && PREFIX[16..19] == " = "
  {
  }

  lemma SetAndName(s: string)
    requires |s| >= 19 && s[..4] == "set " && s[4..16] == "lock_timeout"
    ensures WordAt(s, 0, "set") && WordAt(s, 4, "lock_timeout")
  {
    forall k | 0 <= k < 3 ensures Lower(s[0 + k]) == "set"[k] {
      assert s[..4][k] == s[k];
    }
    forall k | 0 <= k < 12 ensures Lower(s[4 + k]) == "lock_timeout"[k] {
      assert s[4..16][k] == s[4 + k];
    }
  }

  /** `set lock_timeout = ` and a value that does not start with white space. */
  lemma PrefixIsDirective(s: string)
    requires PREFIX <= s && |s| > 19 && !IsSpace(s[19])
    ensures DirectiveLen(s) == SkipSemicolon(s, ValueEnd(s, 19)) >= 19
  {
    hide PREFIX, WordAt, AfterSpacedWord, SkipSpace, ValueEnd, SkipSemicolon;
    PrefixWords(s);
    SpacedWord(s, 3, "session");
    SpacedWord(s, 3, "local");
    SpacedWord(s, 3, "lock_timeout");
    OneSpace(s, 16);
    OneSpace(s, 18);
    assert AfterScope(s, 3) == 3 && AfterAssign(s, 17) == 18 && AfterValue(s, 18) == ValueEnd(s, 19);
    assert SetEnd(s) == ValueEnd(s, 19);
  }

  lemma SetZeroIsDirective(after: string)
    ensures DirectiveLen(SET_ZERO + after) == |SET_ZERO| == 21
  {
    hide DirectiveLen;
    var s := SET_ZERO + after;
    assert s[19] == '0' && s[20] == ';';
    PrefixIsDirective(s);
    assert ValueEnd(s, 20) == 20;
    assert ValueEnd(s, 19) == ValueEnd(s, 20);
  }

  /** No character of `y` opens a quote, a comment or a directive. */
  predicate Inert(y: string) {
    forall i :: 0 <= i < |y| ==> y[i] !in "-/'\"$" && Lower(y[i]) !in "sr"
  }

  lemma {:induction false} InertIsKept(y: string)
    requires Inert(y)
    ensures KeptText(Code, y) == y
  {
    hide DirectiveLen;
    KeptTextStep(Code, y);
    if y != "" {
      InertIsKept(y[1..]);
      assert y[..1] + y[1..] == y;
    }
  }

  lemma KeepOne(c: char, rest: string)
    requires c !in "-/'\"$"
    requires DirectiveLen([c] + rest) == 0
    ensures KeptText(Code, [c] + rest) == [c] + KeptText(Code, rest)
  {
    hide DirectiveLen;
    KeptTextStep(Code, [c] + rest);
    assert ([c] + rest)[1..] == rest && ([c] + rest)[..1] == [c];
  }

  /**
   * The pattern has no leading word boundary, so removing a directive from the
   * middle of a word can assemble another one, which the pass leaves in place.
   */
  lemma OnePassCanLeaveADirective()
    ensures Sanitize("se" + (SET_ZERO + TAIL)) == SET_ZERO
    ensures Sanitize(SET_ZERO) == ""
  {
    hide DirectiveLen, KeptText, TAIL, SET_ZERO;
    var s2 := SET_ZERO + TAIL;
    RemoveSetZero(TAIL);
    TailIsKept();
    NoDirective('e', s2);
    KeepOne('e', s2);
    NoSet(s2);
    KeepOne('s', ['e'] + s2);
    assert "se" + s2 == ['s'] + (['e'] + s2);
    assert ['s'] + (['e'] + TAIL) == "se" + TAIL;
    Assembled();
    RemoveSetZero("");
    assert SET_ZERO + "" == SET_ZERO;
    KeptTextStep(Code, "");
  }

  lemma RemoveSetZero(after: string)
    ensures KeptText(Code, SET_ZERO + after) == KeptText(Code, after)
  {
    hide DirectiveLen;
    SetZeroIsDirective(after);
    KeptTextStep(Code, SET_ZERO + after);
    assert (SET_ZERO + after)[21..] == after;
  }

  lemma TailIsKept()
    ensures KeptText(Code, TAIL) == TAIL
  {
    hide KeptText, DirectiveLen;
    assert Inert(TAIL);
    InertIsKept(TAIL);
  }

  lemma Assembled()
    ensures "se" + TAIL == SET_ZERO
  {
  }

  lemma NoDirective(c: char, rest: string)
    requires Lower(c) !in "sr"
    ensures DirectiveLen([c] + rest) == 0
  {
  }

  lemma NoSet(after: string)
    requires after == SET_ZERO + TAIL
    ensures DirectiveLen(['s'] + (['e'] + after)) == 0
  {
    var s := ['s'] + (['e'] + after);
    NotWord(s, 0, "set", 2);
    NotWord(s, 0, "reset", 0);
  }

  const QUOTED := PREFIX + "';';"

  /**
   * The pattern stops at the first semicolon, even one inside a quoted value.
   * What is left of the value then opens a quote that nothing closes.
   */
  lemma QuotedValueLeavesAnOpenQuote()
    ensures Sanitize(QUOTED) == "';"
    ensures Split(Sanitize(QUOTED)) == ["';"]
    ensures End(Code, Sanitize(QUOTED)) == SQuote && End(Code, QUOTED) == Code
  {
    hide DirectiveLen, PREFIX;
    QuotedIsDirective();
    assert QUOTED[21..] == "';";
    KeptTextStep(Code, QUOTED);
    KeepQuote();
    QuotedEnds();
  }

  lemma QuotedIsDirective()
    ensures DirectiveLen(QUOTED) == 21 < |QUOTED| == 23
  {
    hide DirectiveLen;
    var s := QUOTED;
    assert s[19] == '\'' && s[20] == ';';
    PrefixIsDirective(s);
    assert ValueEnd(s, 20) == 20;
    assert ValueEnd(s, 19) == ValueEnd(s, 20);
  }

  const OPEN_QUOTE := "';"

  lemma OpenQuoteLexes()
    ensures Lex(Code, OPEN_QUOTE) == [Lexeme(Code, "'"), Lexeme(SQuote, ";")]
    ensures End(Code, OPEN_QUOTE) == SQuote
  {
    var s := OPEN_QUOTE;
    assert s[1..] == ";" && s[..1] == "'" && ";"[1..] == "" && ";"[..1] == ";";
    assert Lex(SQuote, ";") == [Lexeme(SQuote, ";")];
  }

  lemma OpenQuoteSplits()
    ensures Split(OPEN_QUOTE) == [OPEN_QUOTE]
  {
    hide Lex;
    OpenQuoteLexes();
    var ls := Lex(Code, OPEN_QUOTE);
    assert IsCode(ls[0]);
    NoCutIsOneFragment(ls);
    LexLossless(Code, OPEN_QUOTE);
    var fs := [ls];
    assert fs[1..] == [];
  }

  lemma KeepQuote()
    ensures KeptText(Code, "';") == "';" && Split("';") == ["';"] && End(Code, "';") == SQuote
  {
    hide Split, Lex, KeptText;
    var s := OPEN_QUOTE;
    assert s[1..] == ";" && ";"[1..] == "";
    assert DirectiveFree(Code, s);
    UnchangedIffDirectiveFree(s);
    OpenQuoteSplits();
    OpenQuoteLexes();
  }

  lemma QuotedEnds()
    ensures End(Code, QUOTED) == Code
  {
    hide DirectiveLen, End, Clean, PREFIX;
    PrefixIsClean();
    assert QUOTED == PREFIX + "';';";
    EndAppend(Code, PREFIX, "';';");
    ValueEndsInCode();
  }

  lemma ValueEndsInCode()
    ensures End(Code, "';';") == Code
  {
    hide Lex, End, Step;
    var v := "';';";
    assert v[1..] == ";';" && ";';"[1..] == "';" && "';"[1..] == ";" && ";"[1..] == "";
    OneStep(Code, v, SQuote);
    OneStep(SQuote, ";';", SQuote);
    OneStep(SQuote, "';", Code);
    OneStep(Code, ";", Code);
    NothingLexes(Code);
  }

  /** A step of one character, from code at an opening quote or an ordinary one, or inside the quote. */
  lemma OneStep(m: Mode, s: string, to: Mode)
    requires s != "" && (m == Code || m == SQuote) && s[0] in "';" && (|s| > 1 ==> s[1] in "';" && s[1] != s[0])
    requires to == if s[0] == ';' then m else if m == Code then SQuote else Code
    ensures Step(m, s) == Move(to, 1) && End(m, s) == End(to, s[1..])
  {
    hide Lex, End;
    UnfoldLex(m, s);
  }

  /** No character of `y` opens a quote or a comment. */
  predicate Calm(y: string) {
    forall i :: 0 <= i < |y| ==> y[i] !in "-/'\"$"
  }

  lemma {:induction false} CalmIsClean(y: string)
    requires Calm(y)
    ensures Clean(Code, y) && End(Code, y) == Code
  {
    if y != "" {
      CalmIsClean(y[1..]);
    }
  }

  lemma PrefixIsClean()
    ensures Clean(Code, PREFIX) && End(Code, PREFIX) == Code
  {
    hide Clean, End;
    assert Calm(PREFIX);
    CalmIsClean(PREFIX);
  }
}
