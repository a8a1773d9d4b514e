/** Bodies that the sanitizer leaves alone: some set lock_timeout all the same, some only seem to. */
module LockLimits {
  import opened Options
  import opened Text
  import opened SqlLexer
  import opened StatementSplitter
  import opened LockDirective
  import opened Sanitizer
  import opened SanitizeMeaning
  import opened SanitizeLimits
  import opened LockEffects

  /** The sanitizer does not change the text, which is one statement with this effect. */
  predicate PassesAs(text: string, e: LockEffect) {
    && Disciplined(Code, false, text, true) && Sanitize(text) == text
    && Split(text) == [text] && LockEffectOf(text) == e
  }

  // ---------------------------------------------------------------------
  // Reading a text
  // ---------------------------------------------------------------------

  /** The text ends with its one top-level semicolon, holds no directive, and is seen like this. */
  predicate Reads(m: Mode, s: string, seen: string, inner: string) {
    var ls := Lex(m, s);
    && ls != [] && IsCut(ls[|ls| - 1]) && NoCut(ls[..|ls| - 1])
    && EndsInSemicolon(s) && End(m, s) == Code && DirectiveFree(m, s)
    && SeenText(ls, false) == seen && InnerText(ls) == inner
  }

  lemma SeenCons(l: Lexeme, ls: seq<Lexeme>, masked: bool)
    ensures SeenText([l] + ls, masked) == Seen(l, masked) + SeenText(ls, masked)
    ensures InnerText([l] + ls) == Inner(l) + InnerText(ls)
  {
    assert ([l] + ls)[1..] == ls;
  }

  /** One more lexeme in front. */
  lemma ReadsStep(m: Mode, s: string, head: string, to: Mode, rest: string, seen: string, inner: string)
    requires s == head + rest && head != "" && Step(m, s) == Move(to, |head|) && !MatchesHere(m, s)
    requires !IsCut(Lexeme(m, head)) && Reads(to, rest, seen, inner)
    ensures Reads(m, s, Seen(Lexeme(m, head), false) + seen, Inner(Lexeme(m, head)) + inner)
  {
    hide Step, IsCut, MatchesHere, Lex, End, SeenText, InnerText, Seen, Inner;
    var l := Lexeme(m, head);
    assert s[..|head|] == head && s[|head|..] == rest;
    UnfoldLex(m, s);
    var ls := Lex(to, rest);
    SeenCons(l, ls, false);
    NoCutCons(l, ls[..|ls| - 1]);
    assert ([l] + ls)[..|ls|] == [l] + ls[..|ls| - 1];
  }

  lemma CodeIsSeen(head: string, inner: string)
    requires head != "--" && head != "/*"
    ensures Seen(Lexeme(Code, head), false) == head && Inner(Lexeme(Code, head)) + inner == inner
  {
  }

  lemma InsideIsSeen(m: Mode, head: string, inner: string)
    requires m == DQuote || m == Dollar("$$")
    ensures var l := Lexeme(m, head);
      && Seen(l, false) == head
      && Inner(l) + inner == if m == DQuote then inner else if head == "$$" then " " + inner else head + inner
  {
  }

  lemma SemicolonReads()
    ensures Reads(Code, ";", ";", "")
  {
    hide DirectiveLen;
    var l := Lexeme(Code, ";");
    NoDirectiveAt(";");
    assert ";"[1..] == "" && ";"[..1] == ";";
    UnfoldLex(Code, ";");
    assert Lex(Code, "") == [] && Lex(Code, ";") == [l];
    SeenCons(l, [], false);
    assert [l] + [] == [l] && SeenText([], false) == "" && InnerText([]) == "";
  }

  lemma NoDirectiveAt(s: string)
    requires s != "" && Lower(s[0]) !in "sr"
    ensures DirectiveLen(s) == 0
  {
    NoDirective(s[0], s[1..]);
    assert [s[0]] + s[1..] == s;
  }

  /** One more character of code in front. */
  lemma CharReads(c: char, rest: string, seen: string)
    requires c !in "-/'\"$;" && DirectiveLen([c] + rest) == 0 && Reads(Code, rest, seen, "")
    ensures Reads(Code, [c] + rest, [c] + seen, "")
  {
    hide DirectiveLen, Reads;
    CodeIsSeen([c], "");
    ReadsStep(Code, [c] + rest, [c], Code, rest, seen, "");
  }

  /** Code that holds nothing to read specially, in front of anything. */
  lemma {:induction false} PlainReads(y: string, rest: string, seen: string, inner: string)
    requires Inert(y) && ';' !in y && Reads(Code, rest, seen, inner)
    ensures Reads(Code, y + rest, y + seen, inner)
  {
    hide DirectiveLen, Reads;
    if y == "" {
      assert y + rest == rest && y + seen == seen;
    } else {
      var s := y + rest;
      PlainReads(y[1..], rest, seen, inner);
      NoDirectiveAt(s);
      assert s == [y[0]] + (y[1..] + rest);
      CodeIsSeen([y[0]], inner);
      ReadsStep(Code, s, [y[0]], Code, y[1..] + rest, y[1..] + seen, inner);
      assert [y[0]] + (y[1..] + seen) == y + seen;
    }
  }

  /** A quoted name or a dollar body, from the inside, and the semicolon after it. */
  lemma {:induction false} QuotedReads(m: Mode, y: string, close: string)
    requires (m == DQuote && close == "\"") || (m == Dollar("$$") && close == "$$")
    requires close[0] !in y
    ensures Reads(m, y + (close + ";"), y + (close + ";"), if m == DQuote then "" else y + " ")
  {
    hide Reads;
    var end := close + ";";
    if y == "" {
      SemicolonReads();
      assert y + end == end;
      InsideIsSeen(m, close, "");
      ReadsStep(m, end, close, Code, ";", ";", "");
      assert " " + "" == " " && "" + " " == " ";
    } else {
      var s := y + end;
      QuotedReads(m, y[1..], close);
      assert s == [y[0]] + (y[1..] + end);
      InsideIsSeen(m, [y[0]], if m == DQuote then "" else y[1..] + " ");
      ReadsStep(m, s, [y[0]], m, y[1..] + end, y[1..] + end, if m == DQuote then "" else y[1..] + " ");
      assert [y[0]] + (y[1..] + " ") == y + " ";
    }
  }

  lemma OneStatement(text: string, seen: string, inner: string)
    requires Reads(Code, text, seen, inner) && IsCode(Lex(Code, text)[0])
    ensures PassesAs(text, CoreEffect(text))
  {
    hide Lex, End, DirectiveFree, Disciplined, CoreEffect, Fragments, IsCode, Sanitize;
    var f := Lex(Code, text);
    LexLossless(Code, text);
    SplitFragment(f);
    FreeIsDisciplined(Code, false, text, true);
    UnchangedIffDirectiveFree(text);
  }

  // ---------------------------------------------------------------------
  // The words of a SET
  // ---------------------------------------------------------------------

  const LOCK_TO := "lock_timeout = "

  lemma SkipOne(s: string)
    requires s != "" && !IsServerSpace(s[0])
    ensures Skip(" " + s) == s && Skip(s) == s
  {
    assert (" " + s)[1..] == s;
  }

  lemma WordIs(word: string, rest: string)
    requires forall k :: 0 <= k < |word| ==> Lower(word[k]) == word[k]
    requires rest == "" || !IsNamePart(rest[0])
    ensures AfterWord(word + rest, word) == Some(Skip(rest))
  {
    hide Skip;
    assert (word + rest)[|word|..] == rest;
  }

  lemma WordIsNot(s: string, word: string, k: nat)
    requires k < |word| && (k < |s| ==> Lower(s[k]) != word[k])
    ensures AfterWord(s, word) == None && !WordAt(s, 0, word)
  {
    hide Skip;
    NotWord(s, 0, word, k);
  }

  lemma SetStates(v: string)
    requires v != "" && !IsServerSpace(v[0])
    ensures SettingAt("set " + (LOCK_TO + v)) == Sets(Stated(v), false)
  {
    hide AfterWord, Skip, LOCK_TO;
    var t := LOCK_TO + v;
    LockToSpells(v);
    WordIs("set", " " + t);
    SkipOne(t);
    assert "set " + t == "set" + (" " + t);
    WordIsNot(t, "session", 0);
    WordIsNot(t, "local", 3);
    WordIsNot(t, "\"lock_timeout\"", 0);
    var to := "= " + v;
    SkipOne(to);
    WordIs("lock_timeout", " " + to);
    SkipOne(v);
    assert to[1..] == " " + v;
  }

  lemma LockToSpells(v: string)
    ensures var t := LOCK_TO + v; t[0] == 'l' && t[3] == 'k' && t == "lock_timeout" + (" " + ("= " + v))
  {
  }

  // ---------------------------------------------------------------------
  // A comment between the words
  // ---------------------------------------------------------------------

  const COMMENTED := "set/**/lock_timeout = 0;"

  /** The pattern wants white space after `set`, and finds a comment. */
  lemma CommentStopsPattern(rest: string)
    ensures DirectiveLen("set/**/" + rest) == 0
  {
    var s := "set/**/" + rest;
    assert s[3] == '/' && s[0] == 's' && s[1] == 'e' && s[2] == 't';
    assert SpaceRun(s[3..]) == 0 && SkipSpace(s, 3) == 3;
    NotWord(s, 0, "reset", 0);
  }

  /** A comment that closes at once is a space. */
  lemma CommentReads(rest: string, seen: string)
    requires Reads(Code, rest, seen, "")
    ensures Reads(Code, "/**/" + rest, " " + seen, "")
  {
    hide Reads, DirectiveLen;
    var inside := "*/" + rest;
    assert "/**/" + rest == "/*" + inside;
    ReadsStep(Block(1), inside, "*/", Code, rest, seen, "");
    assert Seen(Lexeme(Block(1), "*/"), false) == " " && Inner(Lexeme(Block(1), "*/")) == "" && "" + "" == "";
    NoDirectiveAt("/*" + inside);
    ReadsStep(Code, "/*" + inside, "/*", Block(1), inside, " " + seen, "");
    assert Seen(Lexeme(Code, "/*"), false) == "" && "" + (" " + seen) == " " + seen;
  }

  lemma ZeroReads()
    ensures Reads(Code, LOCK_TO + "0;", LOCK_TO + "0;", "")
  {
    hide Reads;
    SemicolonReads();
    PlainReads(LOCK_TO + "0", ";", ";", "");
    assert (LOCK_TO + "0") + ";" == LOCK_TO + "0;";
  }

  lemma CommentedReads()
    ensures Reads(Code, COMMENTED, "set " + (LOCK_TO + "0;"), "")
  {
    hide Reads, DirectiveLen, LOCK_TO;
    var zero := LOCK_TO + "0;";
    ZeroReads();
    CommentReads(zero, zero);
    var block := "/**/" + zero;
    var seen := " " + zero;
    NoDirectiveAt(['t'] + block);
    CharReads('t', block, seen);
    NoDirectiveAt(['e'] + (['t'] + block));
    CharReads('e', ['t'] + block, ['t'] + seen);
    CommentedSpells();
    CommentStopsPattern(zero);
    CharReads('s', ['e'] + (['t'] + block), ['e'] + (['t'] + seen));
    assert ['s'] + (['e'] + (['t'] + seen)) == "set " + zero;
  }

  lemma CommentedSpells()
    ensures var zero := LOCK_TO + "0;";
      COMMENTED == ['s'] + (['e'] + (['t'] + ("/**/" + zero))) == "set/**/" + zero
  {
  }

  /** To the server a comment is white space, to the pattern it is not. */
  lemma CommentedSets()
    ensures PassesAs(COMMENTED, Sets("0", false))
  {
    hide Reads, DirectiveLen, Skip, AfterWord, SettingAt, PassesAs, Lex, SeenText;
    CommentedReads();
    var seen := "set " + (LOCK_TO + "0;");
    FirstIsCode(COMMENTED, seen, "");
    OneStatement(COMMENTED, seen, "");
    SkipOne(seen);
    SetStates("0;");
    assert Stated("0;") == "0";
    WordIsNot(seen, "do", 0);
    SeenOf(COMMENTED, seen, "");
  }

  lemma SeenOf(s: string, seen: string, inner: string)
    requires Reads(Code, s, seen, inner)
    ensures SeenText(Lex(Code, s), false) == seen && InnerText(Lex(Code, s)) == inner
  {
  }

  lemma FirstIsCode(s: string, seen: string, inner: string)
    requires Reads(Code, s, seen, inner) && s[0] !in "-/;" && !IsSpace(s[0])
    ensures IsCode(Lex(Code, s)[0])
  {
    hide DirectiveFree, SeenText, InnerText, End, Lex, IsCode, Step;
    UnfoldLex(Code, s);
    FirstStepIsCode(s);
  }

  lemma FirstStepIsCode(s: string)
    requires s != "" && s[0] !in "-/;" && !IsSpace(s[0])
    ensures IsCode(Lexeme(Code, s[..Step(Code, s).len]))
  {
    var n := Step(Code, s).len;
    assert s[..n][0] == s[0];
  }

  // ---------------------------------------------------------------------
  // A DO block
  // ---------------------------------------------------------------------

  const BLOCK_SET := "0; end"
  const BLOCK_BODY := "begin " + ("set " + (LOCK_TO + BLOCK_SET))
  const DO_BLOCK := "do $$" + (BLOCK_BODY + "$$;")

  lemma DoBlockReads()
    ensures Reads(Code, DO_BLOCK, DO_BLOCK, BLOCK_BODY + " ")
  {
    hide Reads, DirectiveLen, BLOCK_BODY, DO_BLOCK;
    BodyHasNoDollar();
    QuotedReads(Dollar("$$"), BLOCK_BODY, "$$");
    var tail := BLOCK_BODY + ("$$" + ";");
    var tagged := "$$" + tail;
    NoDirectiveAt(tagged);
    assert tagged[..2] == "$$";
    CodeIsSeen("$$", BLOCK_BODY + " ");
    ReadsStep(Code, tagged, "$$", Dollar("$$"), tail, tail, BLOCK_BODY + " ");
    PlainReads("do ", tagged, tagged, BLOCK_BODY + " ");
    DoBlockSpells();
  }

  lemma BodyHasNoDollar()
    ensures Calm(BLOCK_BODY) && '$' !in BLOCK_BODY
  {
    hide LOCK_TO, BLOCK_SET;
    LockToIsCalm();
    CalmAppend(LOCK_TO, BLOCK_SET);
    CalmAppend("set ", LOCK_TO + BLOCK_SET);
    CalmAppend("begin ", "set " + (LOCK_TO + BLOCK_SET));
  }

  lemma LockToIsCalm()
    ensures Calm(LOCK_TO) && Calm(BLOCK_SET)
  {
  }

  lemma CalmAppend(a: string, b: string)
    requires Calm(a) && Calm(b)
    ensures Calm(a + b)
  {
  }

  lemma DoBlockSpells()
    ensures DO_BLOCK == "do " + ("$$" + (BLOCK_BODY + ("$$" + ";"))) == "do" + (" $$" + (BLOCK_BODY + "$$;"))
  {
    hide BLOCK_BODY;
  }

  /** Text that opens no quote and no comment is seen as it stands. */
  lemma {:induction false} CalmIsSeen(y: string)
    requires Calm(y)
    ensures SeenText(Lex(Code, y), true) == y
  {
    hide SeenText, Lex, Step;
    if y == "" {
      NothingLexes(Code);
      NothingSeen();
    } else {
      CalmIsSeen(y[1..]);
      CalmStep(y);
      UnfoldLex(Code, y);
      SeenCons(Lexeme(Code, [y[0]]), Lex(Code, y[1..]), true);
      assert [y[0]] + y[1..] == y;
    }
  }

  lemma NothingSeen()
    ensures SeenText([], true) == ""
  {
  }

  lemma CalmStep(y: string)
    requires y != "" && Calm(y)
    ensures Step(Code, y) == Move(Code, 1) && y[..1] == [y[0]] && Seen(Lexeme(Code, [y[0]]), true) == [y[0]] && Calm(y[1..])
  {
  }

  lemma BlockSets()
    ensures HoldsSetting(SeenText(Lex(Code, BLOCK_BODY + " "), true))
  {
    hide SettingAt, SeenText, Lex, BLOCK_BODY;
    var y := BLOCK_BODY + " ";
    BodyHasNoDollar();
    CalmAppend(BLOCK_BODY, " ");
    CalmIsSeen(y);
    SetStates(BLOCK_SET + " ");
    BlockSpells();
    assert SettingFrom(y, 6);
  }

  lemma BlockSpells()
    ensures var y := BLOCK_BODY + " "; |y| > 6 && y[5] == ' ' && y[6..] == "set " + (LOCK_TO + (BLOCK_SET + " "))
  {
    hide LOCK_TO, BLOCK_SET;
    var setting := "set " + (LOCK_TO + (BLOCK_SET + " "));
    assert BLOCK_BODY + " " == "begin " + setting;
  }

  /** The sanitizer leaves dollar bodies alone, and the server runs this one. */
  lemma DoBlockMaySet()
    ensures PassesAs(DO_BLOCK, May)
  {
    hide Reads, DirectiveLen, Skip, AfterWord, SettingAt, PassesAs, Lex, SeenText, InnerText, HoldsSetting, BLOCK_BODY, DO_BLOCK;
    DoBlockReads();
    DoBlockSpells();
    var inner := BLOCK_BODY + " ";
    FirstIsCode(DO_BLOCK, DO_BLOCK, inner);
    OneStatement(DO_BLOCK, DO_BLOCK, inner);
    SkipOne(DO_BLOCK);
    WordIs("do", " $$" + (BLOCK_BODY + "$$;"));
    SeenOf(DO_BLOCK, DO_BLOCK, inner);
    BlockSets();
  }

  // ---------------------------------------------------------------------
  // RESET ALL
  // ---------------------------------------------------------------------

  const RESET_ALL := "reset all;"

  /** Neither `set all` nor `reset all` is a directive. */
  lemma AllIsNoDirective()
    ensures DirectiveLen("set all;") == 0 && DirectiveLen(RESET_ALL) == 0
  {
    hide WordAt, SkipSpace, AfterSpacedWord;
    var s, r := "set all;", RESET_ALL;
    NotWord(s, 4, "session", 0);
    NotWord(s, 4, "local", 0);
    NotWord(s, 4, "lock_timeout", 0);
    NotWord(r, 6, "lock_timeout", 0);
    NotWord(s, 0, "reset", 0);
    NotWord(r, 0, "set", 0);
    SpacedWord(s, 3, "session");
    SpacedWord(s, 3, "local");
    SpacedWord(s, 3, "lock_timeout");
    SpacedWord(r, 5, "lock_timeout");
  }

  lemma ResetAllReads()
    ensures Reads(Code, RESET_ALL, RESET_ALL, "")
  {
    hide Reads, DirectiveLen;
    AllIsNoDirective();
    SemicolonReads();
    PlainReads("et all", ";", ";", "");
    var tail := "et all" + ";";
    assert ['s'] + tail == "set all;";
    CharReads('s', tail, tail);
    var whole := ['e'] + ("set all;");
    NoDirectiveAt(whole);
    CharReads('e', "set all;", "set all;");
    assert ['r'] + whole == RESET_ALL;
    CharReads('r', whole, whole);
  }

  /** The pattern names lock_timeout; a reset of everything does not. */
  lemma ResetAllResets()
    ensures PassesAs(RESET_ALL, Resets)
  {
    hide Reads, DirectiveLen, Skip, AfterWord, PassesAs, Lex, SeenText, AfterName;
    ResetAllReads();
    FirstIsCode(RESET_ALL, RESET_ALL, "");
    OneStatement(RESET_ALL, RESET_ALL, "");
    SkipOne(RESET_ALL);
    WordIsNot(RESET_ALL, "do", 0);
    WordIsNot(RESET_ALL, "set", 0);
    WordIs("reset", " all;");
    assert RESET_ALL == "reset" + " all;" && " all;" == " " + "all;";
    SkipOne("all;");
    WordIs("all", ";");
    assert "all;" == "all" + ";";
    SeenOf(RESET_ALL, RESET_ALL, "");
  }

  // ---------------------------------------------------------------------
  // A quoted name
  // ---------------------------------------------------------------------

  const NAME := "set lock_timeout = 0"
  const NAMED := "table " + ("\"" + (NAME + ("\"" + ";")))

  lemma NamedReads()
    ensures Reads(Code, NAMED, NAMED, "")
  {
    hide Reads, DirectiveLen, NAME;
    NameIsPlain();
    QuotedReads(DQuote, NAME, "\"");
    var tail := NAME + ("\"" + ";");
    var quoted := "\"" + tail;
    NoDirectiveAt(quoted);
    CodeIsSeen("\"", "");
    ReadsStep(Code, quoted, "\"", DQuote, tail, tail, "");
    PlainReads("table ", quoted, quoted, "");
  }

  lemma NameIsPlain()
    ensures '"' !in NAME
  {
  }

  /** A name that reads like a directive is a name: to the sanitizer and to the server. */
  lemma NamedLeaves()
    ensures PassesAs(NAMED, Leaves)
  {
    hide Reads, DirectiveLen, Skip, AfterWord, PassesAs, Lex, SeenText;
    NamedReads();
    FirstIsCode(NAMED, NAMED, "");
    OneStatement(NAMED, NAMED, "");
    SkipOne(NAMED);
    WordIsNot(NAMED, "do", 0);
    WordIsNot(NAMED, "set", 0);
    WordIsNot(NAMED, "reset", 0);
    WordIsNot(NAMED, "discard", 0);
    SeenOf(NAMED, NAMED, "");
  }
}
