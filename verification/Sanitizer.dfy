/** Removing file-level lock_timeout directives from a migration body. */
module Sanitizer {
  import opened Text
  import opened SqlLexer
  import opened StatementSplitter
  import opened LockDirective

  /** A directive is matched where the scan stands. */
  predicate MatchesHere(m: Mode, s: string) { m.Code? && DirectiveLen(s) > 0 }

  /** The lexemes that the scan keeps. */
  function KeptLexemes(m: Mode, s: string): seq<Lexeme>
    decreases |s|
  {
    if s == "" then []
    else if MatchesHere(m, s) then KeptLexemes(Code, s[DirectiveLen(s)..])
    else var v := Step(m, s); [Lexeme(m, s[..v.len])] + KeptLexemes(v.to, s[v.len..])
  }

  function KeptText(m: Mode, s: string): string { TextOf(KeptLexemes(m, s)) }

  /** A migration body without its lock_timeout directives. */
  function Sanitize(content: string): string { KeptText(Code, content) }

  // ---------------------------------------------------------------------
  // The scanning loop
  // ---------------------------------------------------------------------

  /** What is out already, and what the scan of the rest keeps, is the whole result. */
  predicate OnTrack(out: string, state: ScanState, depth: nat, tag: OptTag, content: string, i: nat)
    requires ValidScan(state, depth, tag) && i <= |content|
  {
    Sanitize(content) == out + KeptText(ModeOf(state, depth, tag), content[i..])
  }

  /** Length of the directive that the loop finds at `i`, or zero. */
  function MatchLenAt(state: ScanState, tag: OptTag, content: string, i: nat): (n: nat)
    requires i <= |content|
    ensures i + n <= |content|
  {
    if state == InCode && tag == NoTag then DirectiveLen(content[i..]) else 0
  }

  lemma OutStart(content: string)
    ensures ValidScan(InCode, 0, NoTag)
    ensures OnTrack("", InCode, 0, NoTag, content, 0)
  {
    assert content[0..] == content;
  }

  lemma SkipStep(out: string, state: ScanState, depth: nat, tag: OptTag, content: string, i: nat, width: nat)
    requires ValidScan(state, depth, tag) && i < |content|
    requires width == MatchLenAt(state, tag, content, i) > 0
    requires OnTrack(out, state, depth, tag, content, i)
    ensures i + width <= |content|
    ensures OnTrack(out, state, depth, tag, content, i + width)
  {
    hide DirectiveLen, Step;
    var s := content[i..];
    assert s[DirectiveLen(s)..] == content[i + DirectiveLen(s)..];
  }

  lemma CopyStep(out: string, state: ScanState, depth: nat, tag: OptTag, content: string, i: nat,
                 state': ScanState, depth': nat, tag': OptTag, width: nat)
    requires ValidScan(state, depth, tag) && i < |content| && ValidScan(state', depth', tag')
    requires StepAt(state, depth, tag, content, i) == Move(ModeOf(state', depth', tag'), width)
    requires MatchLenAt(state, tag, content, i) == 0
    requires OnTrack(out, state, depth, tag, content, i)
    ensures i + width <= |content|
    ensures OnTrack(Take(out, content, i, width), state', depth', tag', content, i + width)
  {
    hide DirectiveLen, Step;
    var s := content[i..];
    var m := ModeOf(state, depth, tag);
    KeptTextStep(m, s);
    TextAt(content, i, width);
    SeqAssoc(out, s[..width], KeptText(ModeOf(state', depth', tag'), s[width..]));
  }

  lemma OutEnd(out: string, state: ScanState, depth: nat, tag: OptTag, content: string)
    requires ValidScan(state, depth, tag)
    requires OnTrack(out, state, depth, tag, content, |content|)
    ensures out == Sanitize(content)
  {
    assert content[|content|..] == "";
  }

  method SanitizeMigrationContent(content: string) returns (out: string)
    ensures out == Sanitize(content)
  {
    hide *;
    out := "";
    var i := 0;
    var state := InCode;
    var blockDepth: nat := 0;
    var dollarTag := NoTag;
    var n := |content|;
    OutStart(content);
    while i < n
      invariant 0 <= i <= n
      invariant ValidScan(state, blockDepth, dollarTag)
      invariant OnTrack(out, state, blockDepth, dollarTag, content, i)
    {
      var matched := MatchLenAt(state, dollarTag, content, i);
      if matched > 0 {
        SkipStep(out, state, blockDepth, dollarTag, content, i, matched);
        i := i + matched;
      } else {
        var state', blockDepth', dollarTag', width := Advance(content, i, state, blockDepth, dollarTag);
        CopyStep(out, state, blockDepth, dollarTag, content, i, state', blockDepth', dollarTag', width);
        state, blockDepth, dollarTag := state', blockDepth', dollarTag';
        out := Take(out, content, i, width);
        i := i + width;
      }
    }
    OutEnd(out, state, blockDepth, dollarTag, content);
  }

  // ---------------------------------------------------------------------
  // Text without directives
  // ---------------------------------------------------------------------

  /** No directive is matched anywhere the scan of `s` stands in code. */
  predicate DirectiveFree(m: Mode, s: string)
    decreases |s|
  {
    s == "" || (!MatchesHere(m, s) && var v := Step(m, s); DirectiveFree(v.to, s[v.len..]))
  }

  lemma {:induction false} KeptNoLonger(m: Mode, s: string)
    ensures |KeptText(m, s)| <= |s|
    ensures |KeptText(m, s)| == |s| <==> DirectiveFree(m, s)
    decreases |s|
  {
    hide Step, DirectiveLen;
    if s != "" {
      if MatchesHere(m, s) {
        KeptNoLonger(Code, s[DirectiveLen(s)..]);
      } else {
        var v := Step(m, s);
        KeptNoLonger(v.to, s[v.len..]);
        assert KeptLexemes(m, s)[1..] == KeptLexemes(v.to, s[v.len..]);
      }
    }
  }

  /**
   * On text without directives the sanitizer and the splitter go through the
   * same lexemes, in the same modes.
   */
  lemma {:induction false} ScannersAgree(m: Mode, s: string)
    requires DirectiveFree(m, s)
    ensures KeptLexemes(m, s) == Lex(m, s)
    decreases |s|
  {
    hide Step, DirectiveLen;
    if s != "" {
      var v := Step(m, s);
      ScannersAgree(v.to, s[v.len..]);
    }
  }

  /** The sanitizer leaves a text alone exactly when no directive is matched in it. */
  lemma UnchangedIffDirectiveFree(s: string)
    ensures Sanitize(s) == s <==> DirectiveFree(Code, s)
  {
    KeptNoLonger(Code, s);
    if DirectiveFree(Code, s) {
      ScannersAgree(Code, s);
      LexLossless(Code, s);
    }
  }

  // ---------------------------------------------------------------------
  // Directives that start statements
  // ---------------------------------------------------------------------

  /**
   * Every directive that is matched starts a statement: only white space and
   * comments stand between the previous top-level semicolon and it. Under
   * `strict`, it also ends in a top-level semicolon. `has` says whether the
   * current statement already holds code.
   */
  predicate Disciplined(m: Mode, has: bool, s: string, strict: bool)
    decreases |s|
  {
    if s == "" then true
    else if MatchesHere(m, s) then
      var n := DirectiveLen(s);
      !has && (strict ==> StopsAtCut(s[..n])) && Disciplined(Code, false, s[n..], strict)
    else
      var v := Step(m, s);
      var l := Lexeme(m, s[..v.len]);
      Disciplined(v.to, !IsCut(l) && (has || IsCode(l)), s[v.len..], strict)
  }

  lemma {:induction false} FreeIsDisciplined(m: Mode, has: bool, s: string, strict: bool)
    requires DirectiveFree(m, s)
    ensures Disciplined(m, has, s, strict)
    decreases |s|
  {
    hide Step, DirectiveLen, IsCut, IsCode;
    if s != "" {
      var v := Step(m, s);
      var l := Lexeme(m, s[..v.len]);
      FreeIsDisciplined(v.to, !IsCut(l) && (has || IsCode(l)), s[v.len..], strict);
    }
  }

  /** Modes in which a statement that holds no code yet can be. */
  predicate BeforeCode(m: Mode) { m.Code? || m.Line? || m.Block? }

  /** Inside a statement that holds code, nothing is removed before its end. */
  lemma {:induction false} KeptFirst(m: Mode, s: string, strict: bool) returns (a: string, b: string)
    requires Disciplined(m, true, s, strict)
    ensures s == a + b && (s != "" ==> a != "")
    ensures IsFirstFragment(Fragments(Lex(m, s)), m, a, b)
    ensures b == "" || EndsInSemicolon(a)
    ensures KeptText(m, s) == a + KeptText(Code, b)
    ensures Disciplined(Code, false, b, strict)
    decreases |s|
  {
    hide Step, DirectiveLen, IsFirstFragment, Fragments, Lex, IsCut, IsCode, KeptText, EndsInSemicolon;
    if s == "" {
      a, b := "", "";
      NothingFirst(m);
      KeptTextStep(m, s);
      KeptTextStep(Code, "");
    } else {
      var v := Step(m, s);
      var l := Lexeme(m, s[..v.len]);
      KeptTextStep(m, s);
      if IsCut(l) {
        a, b := ";", s[1..];
        CutStep(m, s);
        CutFirst(s);
      } else {
        var a', b' := KeptFirst(v.to, s[v.len..], strict);
        a, b := l.text + a', b';
        ExtendFirst(m, s, a', b');
        if b != "" {
          EndsInSemicolonAppend(l.text, a');
        }
        SeqAssoc(l.text, a', KeptText(Code, b));
      }
    }
  }

  /** One iteration of the scan, on the text it keeps. */
  lemma KeptTextStep(m: Mode, s: string)
    ensures s == "" ==> KeptText(m, s) == ""
    ensures s != "" && MatchesHere(m, s) ==> KeptText(m, s) == KeptText(Code, s[DirectiveLen(s)..])
    ensures s != "" && !MatchesHere(m, s) ==>
              var v := Step(m, s); KeptText(m, s) == s[..v.len] + KeptText(v.to, s[v.len..])
  {
    hide Step, DirectiveLen;
    if s != "" && !MatchesHere(m, s) {
      var v := Step(m, s);
      assert KeptLexemes(m, s)[1..] == KeptLexemes(v.to, s[v.len..]);
    }
  }

  lemma CutStep(m: Mode, s: string)
    requires s != "" && IsCut(Lexeme(m, s[..Step(m, s).len]))
    ensures m == Code && s[0] == ';' && Step(m, s) == Move(Code, 1) && s[..1] == ";"
    ensures EndsInSemicolon(";")
  {
  }
}
