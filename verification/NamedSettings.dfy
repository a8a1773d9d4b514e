/** Statements that set lock_timeout by its plain name, and that the sanitizer therefore removes. */
module NamedSettings {
  import opened Options
  import opened Text
  import opened SqlLexer
  import opened StatementSplitter
  import opened LockDirective
  import opened DirectiveSpelling
  import opened Sanitizer
  import opened SanitizeMeaning
  import LockEffects

  /** The server reads `word` and the blanks behind it, up to `t`. */
  lemma WordReads(s: string, word: string) returns (w: string, b: string, t: string)
    requires LockEffects.AfterWord(s, word).Some?
    ensures t == LockEffects.AfterWord(s, word).value && s == w + (b + t) && IsWord(w, word) && Blank(b)
    ensures b == "" && t != "" ==> !LockEffects.IsNamePart(t[0])
  {
    hide IsSpace, LockEffects.IsNamePart;
    w := s[..|word|];
    b, t := BlanksRead(s[|word|..]);
    forall k | 0 <= k < |w| ensures Lower(w[k]) == word[k] {
      assert Lower(s[0 + k]) == word[k];
    }
    assert s == w + s[|word|..];
    if b == "" && t != "" {
      assert s[|word|..][0] == s[|word|];
    }
  }

  lemma {:induction false} BlanksRead(s: string) returns (b: string, t: string)
    ensures t == LockEffects.Skip(s) && s == b + t && Blank(b)
    ensures b == "" ==> t == s
  {
    if s != "" && LockEffects.IsServerSpace(s[0]) {
      var b';
      b', t := BlanksRead(s[1..]);
      b := [s[0]] + b';
    } else {
      b, t := "", s;
    }
  }

  /** A word starts with a letter, so blanks stand in front of it. */
  lemma WordStarts(s: string, word: string)
    requires WordAt(s, 0, word) && word != "" && IsLetter(word[0])
    ensures s != "" && LockEffects.IsNamePart(s[0]) && !IsSpace(s[0])
  {
    assert Lower(s[0 + 0]) == word[0];
  }

  lemma WordIsThere(s: string, word: string)
    requires LockEffects.AfterWord(s, word).Some?
    ensures WordAt(s, 0, word)
  {
  }

  /** A word behind a word: there are blanks in between. */
  lemma NextWord(s: string, word: string, next: string) returns (w: string, b: string, t: string)
    requires LockEffects.AfterWord(s, word).Some?
    requires LockEffects.AfterWord(LockEffects.AfterWord(s, word).value, next).Some? && next != "" && IsLetter(next[0])
    ensures t == LockEffects.AfterWord(s, word).value && s == w + (b + t) && IsWord(w, word) && Blank(b) && b != ""
  {
    hide IsSpace, LockEffects.IsNamePart, LockEffects.AfterWord, Blank, IsWord, WordAt;
    w, b, t := WordReads(s, word);
    WordIsThere(t, next);
    WordStarts(t, next);
  }

  /** The scope that the server reads behind SET, and the blanks around it. */
  lemma ScopeReads(s: string) returns (w: string, scope: Scope, gap: string, u: string)
    requires LockEffects.AfterWord(s, "set").Some?
    requires LockEffects.AfterWord(LockEffects.AfterScope(LockEffects.AfterWord(s, "set").value), "lock_timeout").Some?
    ensures u == LockEffects.AfterScope(LockEffects.AfterWord(s, "set").value)
    ensures s == w + (SpellScope(scope) + (gap + u)) && IsWord(w, "set")
    ensures IsScope(scope) && Blank(gap) && gap != ""
  {
    hide IsSpace, LockEffects.AfterWord, Blank, IsWord, WordAt;
    var t := LockEffects.AfterWord(s, "set").value;
    u := LockEffects.AfterScope(t);
    if LockEffects.AfterWord(t, "session").Some? || LockEffects.AfterWord(t, "local").Some? {
      var word := if LockEffects.AfterWord(t, "session").Some? then "session" else "local";
      var b0, t0, w1;
      w, b0, t0 := NextWord(s, "set", word);
      w1, gap, t0 := NextWord(t, word, "lock_timeout");
      scope := Scoped(b0, w1);
      SeqAssoc(b0, w1, gap + u);
    } else {
      var t0;
      w, gap, t0 := NextWord(s, "set", "lock_timeout");
      scope := Unscoped;
      assert "" + (gap + u) == gap + u;
    }
  }

  /** What the server reads behind SET as scope and name, the pattern finds. */
  lemma NameIsFound(s: string) returns (q: nat, pad: string, x: string)
    requires LockEffects.AfterWord(s, "set").Some?
    requires LockEffects.AfterWord(LockEffects.AfterScope(LockEffects.AfterWord(s, "set").value), "lock_timeout").Some?
    ensures Some(x) == LockEffects.AfterWord(LockEffects.AfterScope(LockEffects.AfterWord(s, "set").value), "lock_timeout")
    ensures WordAt(s, 0, "set") && AfterScope(s, 3) <= |s|
    ensures q > 0 && q == AfterSpacedWord(s, AfterScope(s, 3), "lock_timeout") && At(s, q, pad + x) && Blank(pad)
  {
    hide IsWord, LockEffects.AfterWord, LockEffects.AfterScope, AfterScope, AfterSpacedWord, Blank, WordAt, IsScope, SpellScope, At;
    var w, scope, gap, u := ScopeReads(s);
    var name;
    name, pad, x := WordReads(u, "lock_timeout");
    var t := SpellScope(scope) + (gap + (name + (pad + x)));
    StartsHere(s);
    FindsWord(s, 0, w, "set", t);
    WordLength(w, "set");
    ScopeFound(s, 3, scope, gap, name, pad + x);
    SpacedWordFound(s, 3 + |SpellScope(scope)|, gap, name, "lock_timeout", pad + x);
    q := 3 + |SpellScope(scope)| + |gap| + |name|;
  }

  lemma StartsHere(s: string)
    ensures At(s, 0, s)
  {
    assert s[0..] == s;
  }

  /** ... and so is the `=` or TO behind them. */
  lemma AssignIsFound(s: string, q: nat, pad: string, x: string)
    requires At(s, q, pad + x) && Blank(pad) && LockEffects.AfterTo(x).Some?
    ensures q <= |s| && AfterAssign(s, SkipSpace(s, q)) > 0
  {
    hide IsWord, LockEffects.AfterWord, Blank, WordAt, IsSpace, SkipSpace, AfterAssign;
    if x != "" && x[0] == '=' {
      EqualsIsNoSpace();
      SkipsBlank(s, q, pad, x);
      assert x == "=" + x[1..];
      AssignFound(s, q + |pad|, "=", x[1..]);
    } else {
      var w, b, y := WordReads(x, "to");
      WordLength(w, "to");
      WordIsThere(x, "to");
      WordStarts(x, "to");
      SkipsBlank(s, q, pad, x);
      BoundaryBehind(b, y);
      AssignFound(s, q + |pad|, w, b + y);
    }
  }

  lemma EqualsIsNoSpace()
    ensures !IsSpace('=')
  {
  }

  lemma BoundaryBehind(b: string, y: string)
    requires Blank(b) && (b == "" && y != "" ==> !LockEffects.IsNamePart(y[0]))
    ensures b + y != "" ==> !IsIdentPart((b + y)[0])
  {
    if b != "" {
      assert (b + y)[0] == b[0];
    } else {
      assert b + y == y;
    }
  }

  /** A SET or RESET of lock_timeout by its plain name is matched by the pattern. */
  lemma NamedIsMatched(s: string)
    requires NamesLock(s)
    ensures DirectiveLen(s) > 0
  {
    hide LockEffects.AfterWord, LockEffects.AfterTo, LockEffects.AfterScope, WordAt, SkipSpace, AfterScope, AfterSpacedWord, AfterAssign,
         AfterValue, Blank, At, SkipSemicolon, IsWord;
    if LockEffects.AfterWord(s, "set").Some? {
      var q, pad, x := NameIsFound(s);
      AssignIsFound(s, q, pad, x);
      assert SetEnd(s) > 0;
    } else {
      var w, b, t := NextWord(s, "reset", "lock_timeout");
      var name, pad, x := WordReads(t, "lock_timeout");
      StartsHere(s);
      FindsWord(s, 0, w, "reset", b + (name + (pad + x)));
      WordLength(w, "reset");
      SpacedWordFound(s, 5, b, name, "lock_timeout", pad + x);
      assert ResetEnd(s) > 0;
    }
  }

  /** The text starts with SET [SESSION|LOCAL] lock_timeout (=|TO), or with RESET lock_timeout. */
  predicate NamesLock(s: string) {
    if LockEffects.AfterWord(s, "set").Some? then
      var u := LockEffects.AfterScope(LockEffects.AfterWord(s, "set").value);
      && LockEffects.AfterWord(u, "lock_timeout").Some?
      && LockEffects.AfterTo(LockEffects.AfterWord(u, "lock_timeout").value).Some?
    else
      var reset := LockEffects.AfterWord(s, "reset");
      reset.Some? && LockEffects.AfterWord(reset.value, "lock_timeout").Some?
  }

  // ---------------------------------------------------------------------
  // Plain statements
  // ---------------------------------------------------------------------

  /** RESET ALL, DISCARD ALL and DO are the other ways. */
  predicate OtherWays(core: string) {
    || LockEffects.AfterWord(core, "do").Some?
    || (LockEffects.AfterWord(core, "discard").Some? && LockEffects.AfterWord(LockEffects.AfterWord(core, "discard").value, "all").Some?)
    || (LockEffects.AfterWord(core, "reset").Some? && LockEffects.AfterWord(LockEffects.AfterWord(core, "reset").value, "all").Some?)
  }

  /** No comment behind its first word, no double quote, and none of the other ways. */
  predicate Plain(core: string) {
    && core != "" && !LockEffects.IsServerSpace(core[0]) && '"' !in core && !OtherWays(core)
    && forall i :: 0 <= i < |Lex(Code, core)| ==> !IsComment(Lex(Code, core)[i])
  }

  lemma {:induction false} SeenAsIs(ls: seq<Lexeme>)
    requires forall i :: 0 <= i < |ls| ==> !IsComment(ls[i])
    ensures LockEffects.SeenText(ls, false) == TextOf(ls)
  {
    if ls != [] {
      SeenAsIs(ls[1..]);
    }
  }

  lemma PlainIsSeen(core: string)
    requires Plain(core)
    ensures LockEffects.Skip(LockEffects.SeenText(Lex(Code, core), false)) == core
    ensures LockEffects.CoreEffect(core) == LockEffects.SettingAt(core)
  {
    hide Lex, IsComment, LockEffects.SeenText, LockEffects.AfterWord, LockEffects.SettingAt, LockEffects.BodySets;
    SeenAsIs(Lex(Code, core));
    LexLossless(Code, core);
  }

  /** What a text without double quotes names, it names plainly. */
  lemma NameIsPlain(s: string)
    requires '"' !in s && LockEffects.AfterName(s).Some?
    ensures LockEffects.AfterName(s) == LockEffects.AfterWord(s, "lock_timeout")
  {
    assert s != "" ==> s[0] in s;
    NotWord(s, 0, "\"lock_timeout\"", 0);
  }

  lemma BehindWord(s: string, word: string)
    requires LockEffects.AfterWord(s, word).Some? && '"' !in s
    ensures '"' !in LockEffects.AfterWord(s, word).value
  {
    hide LockEffects.AfterWord, Blank, IsWord;
    var w, b, t := WordReads(s, word);
  }

  lemma BehindScope(s: string)
    requires '"' !in s
    ensures '"' !in LockEffects.AfterScope(s)
  {
    hide LockEffects.AfterWord;
    if LockEffects.AfterWord(s, "session").Some? {
      BehindWord(s, "session");
    } else if LockEffects.AfterWord(s, "local").Some? {
      BehindWord(s, "local");
    }
  }

  /** A plain statement that sets lock_timeout does it by a directive. */
  lemma PlainSettingIsDirective(core: string)
    requires Plain(core) && !LockEffects.CoreEffect(core).Leaves?
    ensures DirectiveLen(core) > 0
  {
    hide LockEffects.AfterWord, LockEffects.AfterName, LockEffects.AfterTo, LockEffects.AfterScope, LockEffects.CoreEffect, Lex, IsComment,
         DirectiveLen;
    PlainIsSeen(core);
    if LockEffects.AfterWord(core, "set").Some? {
      var t := LockEffects.AfterWord(core, "set").value;
      BehindWord(core, "set");
      BehindScope(t);
      NameIsPlain(LockEffects.AfterScope(t));
    } else {
      BehindWord(core, "reset");
      NameIsPlain(LockEffects.AfterWord(core, "reset").value);
    }
    NamedIsMatched(core);
  }

  /** In a file of plain statements, nothing but the directives that are removed sets lock_timeout. */
  lemma PlainFileIsQuietBesides(s: string, locals: bool)
    requires forall st :: st in Split(s) ==> Plain(Core(st))
    ensures LockEffects.QuietBesides(s, locals)
  {
    hide Split, Core, Plain, LockEffects.CoreEffect, DirectiveLen;
    forall i | 0 <= i < |Split(s)| ensures LockEffects.SparesLock(Split(s)[i], locals) {
      var st := Split(s)[i];
      assert st in Split(s);
      if !LockEffects.LockEffectOf(st).Leaves? {
        PlainSettingIsDirective(Core(st));
      }
    }
  }
}
