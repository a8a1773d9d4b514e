/**
 * What sanitizing does to a body: when a second pass changes nothing, and
 * which statements the splitter sees afterwards.
 */
module SanitizeMeaning {
  import opened Text
  import opened SqlLexer
  import opened StatementSplitter
  import opened LockDirective
  import opened Sanitizer

  // ---------------------------------------------------------------------
  // A second pass
  // ---------------------------------------------------------------------

  /** The output of the scan, scanned again. */
  predicate Settled(m: Mode, s: string) {
    var t := KeptText(m, s);
    Lex(m, t) == KeptLexemes(m, s) && DirectiveFree(m, t)
  }

  /** The step at `t` is the step at `s`, and no directive is matched at `t`. */
  predicate SameStep(m: Mode, s: string, t: string) {
    s != "" && t != "" && Step(m, t) == Step(m, s) && !MatchesHere(m, t)
  }

  lemma SettledStep(m: Mode, s: string)
    requires s != "" && !MatchesHere(m, s)
    requires var v := Step(m, s); Settled(v.to, s[v.len..])
    requires SameStep(m, s, KeptText(m, s))
    ensures Settled(m, s)
  {
    hide Step, DirectiveLen;
    var v := Step(m, s);
    var t := KeptText(m, s);
    KeptTextStep(m, s);
    assert t[..v.len] == s[..v.len] && t[v.len..] == KeptText(v.to, s[v.len..]);
    assert Lex(m, t) == [Lexeme(m, s[..v.len])] + Lex(v.to, t[v.len..]);
  }

  /** Text that ends in a semicolon decides both the step and the match. */
  lemma SameUpToSemicolon(m: Mode, x: string, b: string, c: string)
    requires EndsInSemicolon(x) && !MatchesHere(m, x + b)
    ensures SameStep(m, x + b, x + c)
  {
    hide Step, DirectiveLen, Clean;
    SemicolonIsLocal(m, x);
    StepLocal(m, x, b);
    StepLocal(m, x, c);
    DirectiveLenAppend(x, b);
    DirectiveLenAppend(x, c);
  }

  lemma SemicolonIsLocal(m: Mode, x: string)
    requires EndsInSemicolon(x)
    ensures Local(m, x)
  {
    hide Step, Local;
    SemicolonIsClean(m, x);
  }

  /** Comments and white space are read the same whatever has been removed after them. */
  lemma SameLead(m: Mode, s: string, t': string)
    requires s != "" && !MatchesHere(m, s) && BeforeCode(m)
    requires var v := Step(m, s);
      && !IsCode(Lexeme(m, s[..v.len]))
      && (v.to.Block? ==> FirstMatches(s[v.len..], t'))
    ensures var v := Step(m, s);
      SameStep(m, s, s[..v.len] + t') && BeforeCode(v.to)
  {
    var v := Step(m, s);
    var t := s[..v.len] + t';
    assert t[0] == s[0];
    assert v.len == 2 ==> t[1] == s[1];
  }

  /** Both texts start with the same character, or both are empty. */
  predicate FirstMatches(s: string, t: string) {
    if s == "" then t == "" else t != "" && t[0] == s[0]
  }

  lemma KeptFirstMatches(m: Mode, s: string)
    requires s == "" || !MatchesHere(m, s)
    ensures FirstMatches(s, KeptText(m, s))
  {
    hide Step, DirectiveLen;
    KeptTextStep(m, s);
  }

  /** No match straddles a removed span, and no look-ahead crosses one. */
  lemma {:induction false} OutputSettles(m: Mode, has: bool, s: string, strict: bool)
    requires Disciplined(m, has, s, strict)
    requires has || BeforeCode(m)
    ensures Settled(m, s)
    decreases |s|
  {
    hide Step, DirectiveLen, Settled, SameStep, IsCode, IsCut, FirstMatches;
    if s == "" {
      NothingSettles(m);
    } else if MatchesHere(m, s) {
      var n := DirectiveLen(s);
      OutputSettles(Code, false, s[n..], strict);
      SettledSkip(m, s);
    } else {
      var v := Step(m, s);
      var l := Lexeme(m, s[..v.len]);
      var rest := s[v.len..];
      var has' := !IsCut(l) && (has || IsCode(l));
      KeptTextStep(m, s);
      if has' {
        OutputSettles(v.to, true, rest, strict);
        SettleCode(m, s, strict);
      } else if IsCut(l) {
        CutStep(m, s);
        OutputSettles(Code, false, rest, strict);
        SettleCut(s);
      } else {
        if v.to.Block? {
          KeptFirstMatches(v.to, rest);
        }
        SameLead(m, s, KeptText(v.to, rest));
        OutputSettles(v.to, false, rest, strict);
      }
      SettledStep(m, s);
    }
  }

  lemma NothingSettles(m: Mode)
    ensures Settled(m, "")
  {
  }

  lemma SettledSkip(m: Mode, s: string)
    requires s != "" && MatchesHere(m, s) && Settled(Code, s[DirectiveLen(s)..])
    ensures Settled(m, s)
  {
    hide Step, DirectiveLen, Lex, DirectiveFree;
    KeptTextStep(m, s);
  }

  lemma SettleCut(s: string)
    requires s != "" && s[0] == ';'
    ensures SameStep(Code, s, KeptText(Code, s))
  {
    hide SameStep, KeptText, Step, DirectiveLen;
    var rest := s[1..];
    CutIsStep(s);
    assert s == ";" + rest;
    CutMatchesNothing(s);
    KeptTextStep(Code, s);
    SameUpToSemicolon(Code, ";", rest, KeptText(Code, rest));
  }

  lemma CutMatchesNothing(s: string)
    requires s != "" && s[0] == ';'
    ensures !MatchesHere(Code, s) && EndsInSemicolon(";")
  {
    hide SetEnd, ResetEnd;
  }

  lemma SameStepSelf(m: Mode, s: string)
    requires s != "" && !MatchesHere(m, s)
    ensures SameStep(m, s, s)
  {
  }

  lemma SettleCode(m: Mode, s: string, strict: bool)
    requires s != "" && !MatchesHere(m, s)
    requires var v := Step(m, s); Disciplined(v.to, true, s[v.len..], strict)
    ensures SameStep(m, s, KeptText(m, s))
  {
    hide Step, DirectiveLen, IsFirstFragment, Disciplined, EndsInSemicolon, Lex, KeptText, SameStep, MatchesHere, Fragments;
    var v := Step(m, s);
    KeptTextStep(m, s);
    var a, b := KeptFirst(v.to, s[v.len..], strict);
    var x := s[..v.len] + a;
    assert s == x + b;
    SeqAssoc(s[..v.len], a, KeptText(Code, b));
    if b == "" {
      KeptTextStep(Code, "");
      assert x + "" == x;
      SameStepSelf(m, s);
    } else {
      EndsInSemicolonAppend(s[..v.len], a);
      SameUpToSemicolon(m, x, b, KeptText(Code, b));
    }
  }

  /**
   * If every matched directive starts a statement, one pass removes them all:
   * a second pass matches nothing and returns its input.
   */
  lemma SanitizeReachesFixpoint(s: string)
    requires Disciplined(Code, false, s, false)
    ensures DirectiveFree(Code, Sanitize(s))
    ensures Sanitize(Sanitize(s)) == Sanitize(s)
    ensures Lex(Code, Sanitize(s)) == KeptLexemes(Code, s)
  {
    hide Step, DirectiveLen, Lex, KeptLexemes, DirectiveFree, Disciplined;
    OutputSettles(Code, false, s, false);
    UnchangedIffDirectiveFree(Sanitize(s));
  }

  // ---------------------------------------------------------------------
  // The statements that remain
  // ---------------------------------------------------------------------

  function DropLead(ls: seq<Lexeme>): seq<Lexeme> {
    if ls == [] || IsCode(ls[0]) then ls else DropLead(ls[1..])
  }

  /** A statement without the white space and comments before its first code. */
  function Core(st: string): string { TextOf(DropLead(Lex(Code, st))) }

  function Cores(ss: seq<string>): (cs: seq<string>) {
    if ss == [] then [] else [Core(ss[0])] + Cores(ss[1..])
  }

  /** The cores that no directive pattern matches. */
  function Ordinary(cs: seq<string>): seq<string> {
    if cs == [] then []
    else (if DirectiveLen(cs[0]) == 0 then [cs[0]] else []) + Ordinary(cs[1..])
  }

  lemma {:induction false} CoresAppend(a: seq<string>, b: seq<string>)
    ensures Cores(a + b) == Cores(a) + Cores(b)
  {
    hide Core;
    if a == [] {
      assert a + b == b;
    } else {
      assert (a + b)[1..] == a[1..] + b;
      CoresAppend(a[1..], b);
    }
  }

  lemma {:induction false} OrdinaryAppend(a: seq<string>, b: seq<string>)
    ensures Ordinary(a + b) == Ordinary(a) + Ordinary(b)
  {
    hide DirectiveLen;
    if a == [] {
      assert a + b == b;
    } else {
      assert (a + b)[1..] == a[1..] + b;
      OrdinaryAppend(a[1..], b);
      SeqAssoc(if DirectiveLen(a[0]) == 0 then [a[0]] else [], Ordinary(a[1..]), Ordinary(b));
    }
  }

  /** Only white space and comments. */
  predicate AllLead(ls: seq<Lexeme>) {
    forall i :: 0 <= i < |ls| ==> !IsCode(ls[i]) && !IsCut(ls[i])
  }

  lemma {:induction false} LeadFragments(lead: seq<Lexeme>, xs: seq<Lexeme>)
    requires AllLead(lead)
    ensures var fs := Fragments(xs); Fragments(lead + xs) == [lead + fs[0]] + fs[1..]
    ensures DropLead(lead + xs) == DropLead(xs)
  {
    hide IsCode, IsCut;
    if lead == [] {
      assert lead + xs == xs && lead + Fragments(xs)[0] == Fragments(xs)[0];
    } else {
      assert (lead + xs)[1..] == lead[1..] + xs;
      LeadFragments(lead[1..], xs);
      assert [lead[0]] + (lead[1..] + Fragments(xs)[0]) == lead + Fragments(xs)[0];
    }
  }

  /** White space and comments in front of a text do not change its cores. */
  lemma LeadIgnored(lead: string, t: string)
    requires Clean(Code, lead) && End(Code, lead) == Code && AllLead(Lex(Code, lead))
    ensures Cores(Split(lead + t)) == Cores(Split(t))
  {
    hide Step, Lex, End, Clean, Fragments, DropLead, AllLead, HasCode;
    var ls, xs := Lex(Code, lead), Lex(Code, t);
    LexAppend(Code, lead, t);
    LeadFragments(ls, xs);
    var fs := Fragments(xs);
    LeadFragments(ls, fs[0]);
    var fs' := Fragments(ls + xs);
    LosslessPartition(lead + t);
    LosslessPartition(t);
    assert SelfLexing(fs'[0]) && SelfLexing(fs[0]);
    assert Core(TextOf(fs'[0])) == Core(TextOf(fs[0]));
    LeadHasNoCode(ls, fs[0]);
    assert fs'[1..] == fs[1..];
    var rest := Kept(fs[1..]);
    if HasCode(fs[0]) {
      assert Split(lead + t) == [TextOf(fs'[0])] + rest && Split(t) == [TextOf(fs[0])] + rest;
      assert Split(lead + t)[1..] == rest && Split(t)[1..] == rest;
    } else {
      assert Split(lead + t) == rest && Split(t) == rest;
    }
  }

  lemma LeadHasNoCode(lead: seq<Lexeme>, xs: seq<Lexeme>)
    requires AllLead(lead)
    ensures HasCode(lead + xs) <==> HasCode(xs)
  {
    hide IsCode, IsCut;
    if HasCode(xs) {
      var i :| 0 <= i < |xs| && IsCode(xs[i]);
      assert (lead + xs)[|lead| + i] == xs[i];
    }
  }

  /** What stands at the front of `s`: a lead, then a removed or an ordinary core. */
  predicate Opening(m: Mode, s: string, lead: string, c: string, rest: string, removed: bool) {
    && s == lead + (c + rest)
    && AllLead(Lex(m, lead))
    && Disciplined(Code, false, rest, true)
    && (c != "" ==> Clean(m, lead) && End(m, lead) == Code)
    && KeptText(m, s) == lead + KeptAfterLead(c, rest, removed)
    && OpeningCore(c, rest, removed)
  }

  /** What the sanitizer keeps of a text behind its lead. */
  function KeptAfterLead(c: string, rest: string, removed: bool): string {
    if c == "" then "" else if removed then KeptText(Code, rest) else c + KeptText(Code, rest)
  }

  predicate OpeningCore(c: string, rest: string, removed: bool) {
    if c == "" then rest == ""
    else if removed then DirectiveLen(c + rest) == |c| && StopsAtCut(c)
    else
      && DirectiveLen(c + rest) == 0
      && IsFirstFragment(Fragments(Lex(Code, c + rest)), Code, c, rest)
      && !AllLead(Lex(Code, c)[..1])
  }

  lemma {:induction false} FindOpening(m: Mode, s: string)
    returns (lead: string, c: string, rest: string, removed: bool)
    requires Disciplined(m, false, s, true) && BeforeCode(m)
    ensures Opening(m, s, lead, c, rest, removed)
    ensures Disciplined(Code, false, rest, true) && (rest == "" || |rest| < |s|)
    ensures s == "" ==> c == ""
    decreases |s|
  {
    hide Step, DirectiveLen, Opening, IsCode, IsCut, BeforeCode, MatchesHere, Lex;
    if s == "" {
      lead, c, rest, removed := "", "", "", false;
      NoOpening(m);
    } else if MatchesHere(m, s) {
      var n := DirectiveLen(s);
      lead, c, rest, removed := "", s[..n], s[n..], true;
      RemovedOpening(m, s);
    } else {
      var v := Step(m, s);
      var l := Lexeme(m, s[..v.len]);
      if IsCode(l) || IsCut(l) {
        lead, removed := "", false;
        c, rest := OrdinaryOpening(m, s);
      } else {
        LeadMode(m, s);
        var lead';
        lead', c, rest, removed := FindOpening(v.to, s[v.len..]);
        lead := l.text + lead';
        ExtendOpening(m, s, lead', c, rest, removed);
      }
    }
    OpeningDisciplined(m, s, lead, c, rest, removed);
  }

  lemma OpeningDisciplined(m: Mode, s: string, lead: string, c: string, rest: string, removed: bool)
    requires Opening(m, s, lead, c, rest, removed)
    ensures Disciplined(Code, false, rest, true)
    ensures s == "" ==> c == ""
  {
    hide Step, DirectiveLen, Disciplined, Lex;
  }

  lemma NoOpening(m: Mode)
    ensures Opening(m, "", "", "", "", false)
  {
  }

  /** An empty lead is a lead. */
  lemma NoLead(m: Mode, s: string)
    ensures Lex(m, "") == [] && AllLead(Lex(m, "")) && Clean(m, "") && End(m, "") == m
    ensures "" + s == s
  {
    NothingLexes(m);
  }

  lemma RemovedOpening(m: Mode, s: string)
    requires s != "" && MatchesHere(m, s) && Disciplined(m, false, s, true)
    ensures Opening(m, s, "", s[..DirectiveLen(s)], s[DirectiveLen(s)..], true)
    ensures |s[DirectiveLen(s)..]| < |s|
  {
    hide DirectiveLen, Lex, End, Clean, AllLead, KeptText, Disciplined, StopsAtCut;
    var n := DirectiveLen(s);
    assert s[..n] + s[n..] == s;
    MatchIsDisciplined(m, s);
    KeptTextStep(m, s);
    NoLead(m, s);
    NoLead(Code, KeptText(Code, s[n..]));
  }

  lemma MatchIsDisciplined(m: Mode, s: string)
    requires s != "" && MatchesHere(m, s) && Disciplined(m, false, s, true)
    ensures StopsAtCut(s[..DirectiveLen(s)]) && Disciplined(Code, false, s[DirectiveLen(s)..], true)
  {
    hide DirectiveLen, Step, StopsAtCut, IsCut, IsCode;
  }

  lemma OrdinaryOpening(m: Mode, s: string) returns (c: string, rest: string)
    requires s != "" && !MatchesHere(m, s) && Disciplined(m, false, s, true) && BeforeCode(m)
    requires var l := Lexeme(m, s[..Step(m, s).len]); IsCode(l) || IsCut(l)
    ensures Opening(m, s, "", c, rest, false)
    ensures |rest| < |s|
  {
    hide Step, DirectiveLen, IsFirstFragment, Fragments, Lex, End, Clean, KeptText;
    assert m == Code;
    c, rest := KeptFirst(m, s, true);
    UnfoldLex(Code, s);
    FirstLexemeOf(c, rest);
    NoLead(Code, c + rest);
    NoLead(Code, c + KeptText(Code, rest));
    var first := Lex(Code, c)[..1];
    assert first[0] == Lexeme(m, s[..Step(m, s).len]);
  }

  lemma FirstLexemeOf(c: string, rest: string)
    requires c != "" && (rest == "" || EndsInSemicolon(c))
    ensures Lex(Code, c)[..1] == Lex(Code, c + rest)[..1] && |Lex(Code, c)| >= 1
    ensures Lex(Code, c)[..1] == [Lexeme(Code, (c + rest)[..Step(Code, c + rest).len])]
  {
    hide Step, Lex, EndsInSemicolon;
    SameFirstStep(Code, c + rest, c, rest);
    UnfoldLex(Code, c);
    UnfoldLex(Code, c + rest);
    var n := Step(Code, c).len;
    assert c[..n] == (c + rest)[..n];
  }

  lemma LeadMode(m: Mode, s: string)
    requires s != "" && !MatchesHere(m, s) && Disciplined(m, false, s, true) && BeforeCode(m)
    requires var l := Lexeme(m, s[..Step(m, s).len]); !IsCode(l) && !IsCut(l)
    ensures var v := Step(m, s); BeforeCode(v.to) && Disciplined(v.to, false, s[v.len..], true)
  {
  }

  lemma ExtendOpening(m: Mode, s: string, lead': string, c: string, rest: string, removed: bool)
    requires s != "" && !MatchesHere(m, s) && BeforeCode(m)
    requires var v := Step(m, s);
      && Opening(v.to, s[v.len..], lead', c, rest, removed)
      && var l := Lexeme(m, s[..v.len]); !IsCode(l) && !IsCut(l)
    ensures Opening(m, s, s[..Step(m, s).len] + lead', c, rest, removed)
  {
    hide Step, DirectiveLen, Lex, Disciplined, KeptText, Clean, End, IsCode, IsCut, OpeningCore, KeptAfterLead, AllLead, MatchesHere,
         BeforeCode;
    var v := Step(m, s);
    var head := s[..v.len];
    KeptTextStep(m, s);
    SeqAssoc(head, lead', c + rest);
    SeqAssoc(head, lead', KeptAfterLead(c, rest, removed));
    CoreIsThere(c, rest, removed);
    ExtendLead(m, s, lead', c + rest);
  }

  lemma CoreIsThere(c: string, rest: string, removed: bool)
    requires OpeningCore(c, rest, removed)
    ensures c == "" ==> c + rest == ""
  {
  }

  /** One more lexeme of lead in front. */
  lemma ExtendLead(m: Mode, s: string, lead': string, after: string)
    requires s != "" && BeforeCode(m)
    requires var v := Step(m, s);
      && s == (s[..v.len] + lead') + after && AllLead(Lex(v.to, lead'))
      && (after != "" ==> Clean(v.to, lead') && End(v.to, lead') == Code)
      && var l := Lexeme(m, s[..v.len]); !IsCode(l) && !IsCut(l)
    ensures var lead := s[..Step(m, s).len] + lead';
      && AllLead(Lex(m, lead)) && (after != "" ==> Clean(m, lead) && End(m, lead) == Code)
  {
    hide Step, Lex, Clean, End, IsCode, IsCut, BeforeCode;
    var v := Step(m, s);
    var head := s[..v.len];
    var lead := head + lead';
    if after == "" {
      assert lead == s;
    } else {
      LeadIsLocal(m, s, lead', after);
    }
    UnfoldLex(m, lead);
    assert lead[..v.len] == head && lead[v.len..] == lead';
  }

  lemma LeadIsLocal(m: Mode, s: string, lead': string, after: string)
    requires s != "" && BeforeCode(m)
    requires var v := Step(m, s);
      && s == (s[..v.len] + lead') + after
      && Clean(v.to, lead') && End(v.to, lead') == Code
      && var l := Lexeme(m, s[..v.len]); !IsCode(l) && !IsCut(l)
    ensures var v := Step(m, s);
      var lead := s[..v.len] + lead';
      Step(m, lead) == v && Clean(m, lead) && End(m, lead) == Code
  {
    hide Clean, End, Lex;
    var v := Step(m, s);
    var lead := s[..v.len] + lead';
    assert lead[0] == s[0];
    assert v.to.Block? && lead' == "" ==> false by {
      assert End(v.to, "") == v.to by { EndNothing(v.to); }
    }
    assert Local(m, lead);
    StepLocal(m, lead, after);
    assert lead[v.len..] == lead';
    CleanStep(m, lead);
  }

  lemma EndNothing(m: Mode)
    ensures End(m, "") == m
  {
  }

  lemma CleanStep(m: Mode, a: string)
    requires a != "" && Local(m, a)
    requires var v := Step(m, a); Clean(v.to, a[v.len..])
    ensures Clean(m, a) && End(m, a) == var v := Step(m, a); End(v.to, a[v.len..])
  {
  }

  // ---------------------------------------------------------------------
  // Statement by statement
  // ---------------------------------------------------------------------

  /** Before its last character, text without a semicolon has no cut. */
  lemma {:induction false} NoEarlyCut(m: Mode, s: string)
    requires s != "" && NoSemicolon(s, 0, |s| - 1)
    ensures var ls := Lex(m, s); ls != [] && NoCut(ls[..|ls| - 1])
    decreases |s|
  {
    hide Step, IsTag;
    var v := Step(m, s);
    var rest := s[v.len..];
    UnfoldLex(m, s);
    if rest != "" {
      NoEarlyCut(v.to, rest);
      var ls := Lex(v.to, rest);
      assert s[..v.len][0] == s[0];
      assert Lex(m, s)[..|ls|] == [Lexeme(m, s[..v.len])] + ls[..|ls| - 1];
    } else {
      assert |Lex(m, s)| == 1;
    }
  }

  /** A removed directive would have been a statement, and its own core. */
  lemma RemovedIsStatement(c: string, rest: string)
    requires c != "" && DirectiveLen(c + rest) == |c| && StopsAtCut(c)
    ensures Split(c) == [c] && Core(c) == c && DirectiveLen(c) == |c|
  {
    hide Step, DirectiveLen, Lex, End, Fragments;
    DirectiveLenAppend(c, rest);
    NoEarlyCut(Code, c);
    LastIsCut(Code, c);
    LexLossless(Code, c);
    DirectiveIsCode(c);
    var f := Lex(Code, c);
    SplitFragment(f);
    assert HasCode(f);
  }

  lemma DirectiveIsCode(c: string)
    requires c != "" && DirectiveLen(c) > 0
    ensures var ls := Lex(Code, c); ls != [] && IsCode(ls[0])
    ensures DropLead(Lex(Code, c)) == Lex(Code, c)
  {
    hide DirectiveLen, Lex, Step, IsCode;
    SOrR(c[0]);
    LetterStep(c);
    UnfoldLex(Code, c);
  }

  lemma SOrR(c: char)
    requires Lower(c) in "sr"
    ensures c in "sSrR"
  {
    assert Lower(c) == 's' || Lower(c) == 'r';
  }

  lemma LetterStep(c: string)
    requires c != "" && c[0] in "sSrR"
    ensures Step(Code, c) == Move(Code, 1) && IsCode(Lexeme(Code, c[..1]))
  {
    assert c[0] == 's' || c[0] == 'S' || c[0] == 'r' || c[0] == 'R';
    assert c[..1] == [c[0]];
  }

  /** An ordinary core stays: it is a statement, or a lone semicolon. */
  lemma OrdinaryStays(c: string, rest: string)
    requires c != "" && DirectiveLen(c + rest) == 0 && (rest == "" || EndsInSemicolon(c))
    requires IsFirstFragment(Fragments(Lex(Code, c + rest)), Code, c, rest)
    requires !AllLead(Lex(Code, c)[..1])
    ensures Ordinary(Cores(Split(c))) == Cores(Split(c))
    ensures forall t :: (rest != "" || t == "") ==> Split(c + t) == Split(c) + Split(t)
  {
    hide Step, DirectiveLen, Lex, End, Fragments;
    if rest == "" {
      assert c + rest == c;
    } else {
      DirectiveLenAppend(c, rest);
    }
    LexLossless(Code, c);
    var f := Lex(Code, c);
    SplitFragment(f);
    CoreOfOrdinary(c);
    if HasCode(f) {
      assert Cores([c])[1..] == [] && Cores([c]) == [c];
      assert Ordinary([c]) == [c];
    }
    forall t | rest != "" || t == "" ensures Split(c + t) == Split(c) + Split(t) {
      if rest != "" {
        SplitAppend(c, t);
      } else {
        assert c + t == c;
        SplitNothing();
      }
    }
  }

  lemma SplitNothing()
    ensures Split("") == []
  {
    NothingKept();
  }

  lemma CoreOfOrdinary(c: string)
    requires c != "" && Lex(Code, c) != [] && !AllLead(Lex(Code, c)[..1])
    requires var f := Lex(Code, c); NoCut(f) || Closed(f)
    ensures HasCode(Lex(Code, c)) ==> Core(c) == c
  {
    hide Step, End, IsCode, Lex, IsCut;
    var f := Lex(Code, c);
    LexLossless(Code, c);
    FirstIsNoLead(f);
    if !IsCode(f[0]) {
      LoneCutIsAll(f);
    }
  }

  lemma FirstIsNoLead(f: seq<Lexeme>)
    requires f != [] && !AllLead(f[..1])
    ensures IsCode(f[0]) || IsCut(f[0])
  {
    hide IsCode, IsCut;
  }

  lemma LoneCutIsAll(f: seq<Lexeme>)
    requires f != [] && IsCut(f[0]) && (NoCut(f) || Closed(f))
    ensures !HasCode(f)
  {
    hide IsCut, IsCode, End;
    NoCutFirst(f);
    if Closed(f) {
      NoCutFirst(f[..|f| - 1]);
      assert f == [f[0]];
      CutIsNotCode(f[0]);
    }
  }

  lemma NoCutFirst(ls: seq<Lexeme>)
    ensures NoCut(ls) && ls != [] ==> !IsCut(ls[0])
  {
    hide IsCut;
  }

  lemma CutIsNotCode(l: Lexeme)
    requires IsCut(l)
    ensures !HasCode([l])
  {
  }

  /**
   * If every matched directive starts a statement and ends in a top-level
   * semicolon, the splitter sees the same statements as before, in order,
   * without exactly those that are directives; white space and comments that
   * stood in front of a directive move to the next statement.
   */
  lemma {:induction false} SanitizePreservesMeaning(s: string)
    requires Disciplined(Code, false, s, true)
    ensures Cores(Split(Sanitize(s))) == Ordinary(Cores(Split(s)))
    decreases |s|
  {
    hide Step, DirectiveLen, Opening, Disciplined, Lex, Split, Sanitize, Cores, Ordinary;
    var lead, c, rest, removed := FindOpening(Code, s);
    if c == "" {
      AllLeadMeaning(s, lead, rest, removed);
    } else {
      SanitizePreservesMeaning(rest);
      if removed {
        RemovedMeaning(s, lead, c, rest);
      } else {
        OrdinaryMeaning(s, lead, c, rest);
      }
    }
  }

  lemma AllLeadMeaning(s: string, lead: string, rest: string, removed: bool)
    requires Opening(Code, s, lead, "", rest, removed)
    ensures Cores(Split(Sanitize(s))) == Ordinary(Cores(Split(s)))
  {
    hide Step, DirectiveLen, Fragments, Lex, IsCode, IsCut, Core, KeptText;
    assert lead + ("" + "") == lead;
    var ls := Lex(Code, s);
    NoCutIsOneFragment(ls);
    var fs := [ls];
    assert fs[1..] == [] && !HasCode(fs[0]);
    assert Kept(fs) == [];
  }

  lemma RemovedMeaning(s: string, lead: string, c: string, rest: string)
    requires c != "" && Opening(Code, s, lead, c, rest, true)
    requires Cores(Split(Sanitize(rest))) == Ordinary(Cores(Split(rest)))
    ensures Cores(Split(Sanitize(s))) == Ordinary(Cores(Split(s)))
  {
    hide Step, DirectiveLen, Fragments, Lex, AllLead, Core, KeptText, Split, StopsAtCut, Clean, End, Disciplined, Cores, Ordinary;
    RemovedIsStatement(c, rest);
    LeadIgnored(lead, c + rest);
    LeadIgnored(lead, Sanitize(rest));
    SplitAppend(c, rest);
    CoresAppend([c], Split(rest));
    OneDirective(c);
    OrdinaryAppend([c], Cores(Split(rest)));
    assert [] + Ordinary(Cores(Split(rest))) == Ordinary(Cores(Split(rest)));
  }

  lemma OneDirective(c: string)
    requires Core(c) == c && DirectiveLen(c) > 0
    ensures Cores([c]) == [c] && Ordinary([c]) == []
  {
    hide Core, DirectiveLen;
    assert [c][1..] == [];
  }

  lemma OrdinaryMeaning(s: string, lead: string, c: string, rest: string)
    requires c != "" && Opening(Code, s, lead, c, rest, false)
    requires Cores(Split(Sanitize(rest))) == Ordinary(Cores(Split(rest)))
    ensures Cores(Split(Sanitize(s))) == Ordinary(Cores(Split(s)))
  {
    hide Step, DirectiveLen, Lex, AllLead, Core, KeptText, Split, Clean, End, Disciplined, Cores, Ordinary;
    OpeningStops(s, lead, c, rest);
    OrdinaryStays(c, rest);
    LeadIgnored(lead, c + rest);
    LeadIgnored(lead, c + Sanitize(rest));
    CoresAppend(Split(c), Split(rest));
    CoresAppend(Split(c), Split(Sanitize(rest)));
    OrdinaryAppend(Cores(Split(c)), Cores(Split(rest)));
  }

  lemma OpeningStops(s: string, lead: string, c: string, rest: string)
    requires c != "" && Opening(Code, s, lead, c, rest, false)
    ensures rest == "" || EndsInSemicolon(c)
    ensures rest == "" ==> Sanitize(rest) == ""
  {
    hide Step, DirectiveLen, Lex, AllLead, KeptText, Clean, End, Disciplined;
    KeptTextStep(Code, "");
    assert |Fragments(Lex(Code, c + rest))| >= 1;
  }
}
