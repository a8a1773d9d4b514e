/** What the sanitizer drops from a body: every directive that is spelled where the scan stands in code, and nothing else. */
module Dissection {
  import opened Text
  import opened SqlLexer
  import opened StatementSplitter
  import opened LockDirective
  import opened DirectiveSpelling
  import opened Sanitizer

  /** A lexeme that is kept, or a directive that is dropped. */
  datatype Part = Kept(text: string) | Dropped(directive: Directive)

  function WholeText(parts: seq<Part>): string {
    if parts == [] then ""
    else (if parts[0].Kept? then parts[0].text else Spell(parts[0].directive)) + WholeText(parts[1..])
  }

  function RemainingText(parts: seq<Part>): string {
    if parts == [] then "" else (if parts[0].Kept? then parts[0].text else "") + RemainingText(parts[1..])
  }

  /** A directive is spelled at the front of `s`. */
  ghost predicate StartsSpelled(s: string) { exists d: Directive, rest: string :: Splits(s, d, rest) }

  predicate Splits(s: string, d: Directive, rest: string) {
    WellSpelled(d) && Ends(d, rest) && s == Spell(d) + rest
  }

  /**
   * The scan from `m` on: where it stands in code and a directive is spelled,
   * that directive is dropped; everywhere else the next lexeme is kept.
   */
  ghost predicate IsDissection(m: Mode, s: string, parts: seq<Part>)
    decreases |parts|
  {
    if parts == [] then s == ""
    else
      && s != ""
      && match parts[0]
         case Dropped(d) =>
           && m.Code? && |Spell(d)| <= |s| && Splits(s, d, s[|Spell(d)|..])
           && IsDissection(Code, s[|Spell(d)|..], parts[1..])
         case Kept(text) =>
           && (m.Code? ==> !StartsSpelled(s))
           && var v := Step(m, s); text == s[..v.len] && IsDissection(v.to, s[v.len..], parts[1..])
  }

  /** The pattern matches exactly where a directive is spelled. */
  lemma MatchesIffSpelled(s: string)
    ensures DirectiveLen(s) > 0 <==> StartsSpelled(s)
  {
    hide DirectiveLen, WellSpelled, Ends, Spell;
    if DirectiveLen(s) > 0 {
      var d := MatchedIsSpelled(s);
      assert s == s[..DirectiveLen(s)] + s[DirectiveLen(s)..];
      assert Splits(s, d, s[DirectiveLen(s)..]);
    }
    if StartsSpelled(s) {
      var d: Directive, rest: string :| Splits(s, d, rest);
      SpelledIsMatched(d, rest);
    }
  }

  /** The body falls into what is dropped and what is kept; what is kept is the result. */
  lemma {:induction false} Dissect(m: Mode, s: string) returns (parts: seq<Part>)
    ensures IsDissection(m, s, parts)
    ensures WholeText(parts) == s && RemainingText(parts) == KeptText(m, s)
    decreases |s|
  {
    hide Step, DirectiveLen, WellSpelled, Ends, Spell, StartsSpelled, KeptText, IsDissection, WholeText, RemainingText;
    KeptTextStep(m, s);
    if s == "" {
      parts := [];
      NoParts(m);
    } else {
      MatchesIffSpelled(s);
      var head, rest, to;
      if MatchesHere(m, s) {
        var n := DirectiveLen(s);
        var d := MatchedIsSpelled(s);
        head, to, rest := Dropped(d), Code, s[n..];
        assert s == Spell(d) + rest;
      } else {
        var v := Step(m, s);
        head, to, rest := Kept(s[..v.len]), v.to, s[v.len..];
      }
      var tail := Dissect(to, rest);
      parts := [head] + tail;
      OnePart(m, s, head, to, rest, tail);
    }
  }

  lemma NoParts(m: Mode)
    ensures IsDissection(m, "", []) && WholeText([]) == "" && RemainingText([]) == ""
  {
  }

  lemma OnePart(m: Mode, s: string, head: Part, to: Mode, rest: string, tail: seq<Part>)
    requires s != "" && IsDissection(to, rest, tail)
    requires head.Dropped? ==> m.Code? && to.Code? && Splits(s, head.directive, rest)
    requires head.Kept? ==> Step(m, s) == Move(to, |head.text|) && s == head.text + rest && (m.Code? ==> !StartsSpelled(s))
    ensures IsDissection(m, s, [head] + tail)
    ensures WholeText([head] + tail) == (if head.Kept? then head.text else Spell(head.directive)) + WholeText(tail)
    ensures RemainingText([head] + tail) == (if head.Kept? then head.text else "") + RemainingText(tail)
  {
    hide Step, WellSpelled, Ends, Spell, StartsSpelled;
    assert ([head] + tail)[1..] == tail;
    if head.Dropped? {
      assert s[|Spell(head.directive)|..] == rest;
    } else {
      assert s[|head.text|..] == rest && s[..|head.text|] == head.text;
    }
  }

  /** What a dissection leaves is the result: the sanitizer is determined by how directives are spelled. */
  lemma {:induction false} DissectionIsKept(m: Mode, s: string, parts: seq<Part>)
    requires IsDissection(m, s, parts)
    ensures KeptText(m, s) == RemainingText(parts)
    decreases |parts|
  {
    hide Step, DirectiveLen, WellSpelled, Ends, Spell, StartsSpelled, KeptText;
    KeptTextStep(m, s);
    if parts != [] {
      MatchesIffSpelled(s);
      match parts[0]
      case Dropped(d) =>
        var rest := s[|Spell(d)|..];
        DroppedLength(s, d, rest);
        DissectionIsKept(Code, rest, parts[1..]);
      case Kept(text) =>
        var v := Step(m, s);
        DissectionIsKept(v.to, s[v.len..], parts[1..]);
    }
  }

  lemma DroppedLength(s: string, d: Directive, rest: string)
    requires Splits(s, d, rest)
    ensures DirectiveLen(s) == |Spell(d)| > 0
  {
    hide DirectiveLen, WellSpelled, Ends, Spell;
    SpelledIsMatched(d, rest);
  }

  /** For any text: the result is what is left when the spelled directives are dropped, and nothing else. */
  lemma SanitizedIff(s: string, out: string)
    ensures out == Sanitize(s) <==> exists parts :: IsDissection(Code, s, parts) && out == RemainingText(parts)
  {
    hide IsDissection, KeptText, RemainingText;
    var parts := Dissect(Code, s);
    forall parts' | IsDissection(Code, s, parts') ensures RemainingText(parts') == Sanitize(s) {
      DissectionIsKept(Code, s, parts');
    }
  }

  // ---------------------------------------------------------------------
  // A directive between statements
  // ---------------------------------------------------------------------

  /** What stands in front, up to a top-level semicolon and without directives, stays as it is. */
  lemma {:induction false} FrontStays(m: Mode, a: string, b: string)
    requires EndsInSemicolon(a) && DirectiveFree(m, a) && End(m, a) == Code
    ensures KeptText(m, a + b) == a + KeptText(Code, b)
    decreases |a|
  {
    hide Step, DirectiveLen, Clean, KeptText, Lex;
    SemicolonIsClean(m, a);
    assert Local(m, a) by { CleanIsLocal(m, a); }
    StepLocal(m, a, b);
    DirectiveLenAppend(a, b);
    KeptTextStep(m, a + b);
    var v := Step(m, a);
    var rest := a[v.len..];
    assert (a + b)[..v.len] == a[..v.len] && (a + b)[v.len..] == rest + b;
    if rest == "" {
      assert rest + b == b && a[..v.len] == a;
    } else {
      FrontStays(v.to, rest, b);
      SeqAssoc(a[..v.len], rest, KeptText(Code, b));
      assert a[..v.len] + rest == a;
    }
  }

  lemma CleanIsLocal(m: Mode, a: string)
    requires a != "" && Clean(m, a)
    ensures Local(m, a)
  {
    hide Step, Local;
  }

  /**
   * In any letter case, with any blanks, with or without SESSION or LOCAL,
   * with `=` or TO, any value and an optional semicolon: a directive between
   * statements is dropped, and nothing beside it.
   */
  lemma SpelledIsDropped(before: string, d: Directive, after: string)
    requires before == "" || (StopsAtCut(before) && DirectiveFree(Code, before))
    requires WellSpelled(d) && Ends(d, after)
    ensures Sanitize(before + (Spell(d) + after)) == before + Sanitize(after)
  {
    hide DirectiveLen, WellSpelled, Ends, Spell, KeptText, DirectiveFree, End;
    var s := Spell(d) + after;
    SpelledIsMatched(d, after);
    KeptTextStep(Code, s);
    assert s[|Spell(d)|..] == after;
    if before == "" {
      assert before + s == s;
    } else {
      FrontStays(Code, before, s);
    }
  }
}
