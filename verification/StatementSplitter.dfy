/** Splitting a migration body at its top-level semicolons. */
module StatementSplitter {
  import opened Text
  import opened SqlLexer

  /** A semicolon that ends a statement. */
  predicate IsCut(l: Lexeme) { l.mode.Code? && l.text == ";" }

  predicate IsComment(l: Lexeme) {
    l.mode.Line? || l.mode.Block? || (l.mode.Code? && (l.text == "--" || l.text == "/*"))
  }

  predicate IsBlank(l: Lexeme) {
    l.mode.Code? && |l.text| == 1 && IsSpace(l.text[0])
  }

  predicate IsCode(l: Lexeme) { !IsCut(l) && !IsComment(l) && !IsBlank(l) }

  predicate HasCode(ls: seq<Lexeme>) { exists i :: 0 <= i < |ls| && IsCode(ls[i]) }

  predicate NoCut(ls: seq<Lexeme>) { forall i :: 0 <= i < |ls| ==> !IsCut(ls[i]) }

  /** The fragments after reading `x` in front of fragments `fs`. */
  function Extend(x: Lexeme, fs: seq<seq<Lexeme>>): seq<seq<Lexeme>>
    requires |fs| >= 1
  {
    if IsCut(x) then [[x]] + fs else [[x] + fs[0]] + fs[1..]
  }

  /** The pieces between top-level semicolons; each keeps the semicolon that ends it. */
  function Fragments(ls: seq<Lexeme>): (fs: seq<seq<Lexeme>>)
    ensures |fs| >= 1
  {
    if ls == [] then [[]]
    else
      var rest := Fragments(ls[1..]);
      Extend(ls[0], rest)
  }

  /** The texts of the fragments that hold code. */
  function Kept(fs: seq<seq<Lexeme>>): (ss: seq<string>) {
    if fs == [] then []
    else (if HasCode(fs[0]) then [TextOf(fs[0])] else []) + Kept(fs[1..])
  }

  /** The statements of a migration body. */
  function Split(content: string): seq<string> {
    Kept(Fragments(Lex(Code, content)))
  }

  // ---------------------------------------------------------------------
  // The scanning loop
  // ---------------------------------------------------------------------

  /** The statements still to come once `cur` has been read and `ls` remains. */
  function Pending(cur: string, has: bool, ls: seq<Lexeme>): seq<string> {
    var fs := Fragments(ls);
    (if has || HasCode(fs[0]) then [cur + TextOf(fs[0])] else []) + Kept(fs[1..])
  }

  lemma PendingStep(cur: string, has: bool, m: Mode, s: string)
    requires s != ""
    ensures var v := Step(m, s);
            var l := Lexeme(m, s[..v.len]);
            var rest := Lex(v.to, s[v.len..]);
            Pending(cur, has, Lex(m, s)) ==
              if IsCut(l) then (if has then [cur + ";"] else []) + Pending("", false, rest)
              else Pending(cur + l.text, has || IsCode(l), rest)
  {
    var v := Step(m, s);
    var l := Lexeme(m, s[..v.len]);
    var rest := Lex(v.to, s[v.len..]);
    var ls := Lex(m, s);
    assert ls[0] == l && ls[1..] == rest;
    var fs := Fragments(rest);
    if IsCut(l) {
      assert Fragments(ls)[1..] == fs;
      assert !HasCode([l]);
      assert TextOf([l]) == ";";
      assert "" + TextOf(fs[0]) == TextOf(fs[0]);
    } else {
      assert Fragments(ls)[1..] == fs[1..];
      var f := [l] + fs[0];
      assert Fragments(ls)[0] == f;
      assert f[0] == l && f[1..] == fs[0];
      assert HasCode(f) <==> IsCode(l) || HasCode(fs[0]) by {
        if HasCode(fs[0]) {
          var i :| 0 <= i < |fs[0]| && IsCode(fs[0][i]);
          assert f[i + 1] == fs[0][i];
        }
      }
      assert cur + (l.text + TextOf(fs[0])) == (cur + l.text) + TextOf(fs[0]);
    }
  }

  /** Emit the current fragment if it holds code. */
  function Flush(done: seq<string>, cur: string, has: bool): seq<string> {
    if has then done + [cur] else done
  }

  /** The final list when `done` has been emitted, `cur` read, and `s` remains. */
  function Outcome(done: seq<string>, cur: string, has: bool, m: Mode, s: string): seq<string> {
    done + Pending(cur, has, Lex(m, s))
  }

  lemma OutcomeStep(done: seq<string>, cur: string, has: bool, m: Mode, s: string)
    requires s != ""
    ensures var v := Step(m, s);
            var l := Lexeme(m, s[..v.len]);
            var rest := s[v.len..];
            Outcome(done, cur, has, m, s) ==
              if IsCut(l) then Outcome(Flush(done, cur + l.text, has), "", false, v.to, rest)
              else Outcome(done, cur + l.text, has || IsCode(l), v.to, rest)
  {
    hide Step, Pending, Lex;
    PendingStep(cur, has, m, s);
    var v := Step(m, s);
    var after := Pending("", false, Lex(v.to, s[v.len..]));
    SeqAssoc(done, [cur + ";"], after);
    assert [] + after == after;
  }

  lemma OutcomeStart(content: string)
    ensures ValidScan(InCode, 0, NoTag)
    ensures OnTrack([], "", false, InCode, 0, NoTag, content, 0)
  {
    var f := Fragments(Lex(Code, content))[0];
    assert content[0..] == content;
    assert "" + TextOf(f) == TextOf(f);
  }

  /** What kind of lexeme starts at `i`, read off the next two characters. */
  lemma FirstLexemeKind(m: Mode, content: string, i: nat)
    requires i < |content|
    ensures var s := content[i..];
            var l := Lexeme(m, s[..Step(m, s).len]);
            && IsCut(l) == (m.Code? && content[i] == ';')
            && IsCode(l) ==
                 (m.SQuote? || m.DQuote? || m.Dollar?
                  || (m.Code? && !IsPair(content, i, '-', '-') && !IsPair(content, i, '/', '*')
                      && content[i] != ';' && !IsSpace(content[i])))
            && (var to := Step(m, s).to; to.SQuote? || to.DQuote? || to.Dollar? ==> IsCode(l) && !IsCut(l))
  {
    var s := content[i..];
    assert s[..1] == [s[0]];
  }

  /** Inside quotes and dollar bodies, the statement already holds code. */
  predicate FlagFits(has: bool, state: ScanState, tag: OptTag) {
    (state == InSQuote || state == InDQuote || tag.Tag?) ==> has
  }

  /** What is emitted already, and what the rest yields, is the whole result. */
  predicate OnTrack(done: seq<string>, cur: string, has: bool, state: ScanState, depth: nat, tag: OptTag,
                    content: string, i: nat)
    requires ValidScan(state, depth, tag) && i <= |content|
  {
    && FlagFits(has, state, tag)
    && Split(content) == Outcome(done, cur, has, ModeOf(state, depth, tag), content[i..])
  }

  /** One iteration stays on track. */
  lemma LoopStep(done: seq<string>, cur: string, has: bool, state: ScanState, depth: nat, tag: OptTag,
                 content: string, i: nat, state': ScanState, depth': nat, tag': OptTag, width: nat)
    requires ValidScan(state, depth, tag) && i < |content| && ValidScan(state', depth', tag')
    requires StepAt(state, depth, tag, content, i) == Move(ModeOf(state', depth', tag'), width)
    requires OnTrack(done, cur, has, state, depth, tag, content, i)
    ensures i + width <= |content|
    ensures ReadsCut(state, tag, content, i) ==>
              OnTrack(Flush(done, Take(cur, content, i, width), has), "", false,
                      state', depth', tag', content, i + width)
    ensures !ReadsCut(state, tag, content, i) ==>
              OnTrack(done, Take(cur, content, i, width), has || ReadsCode(state, tag, content, i),
                      state', depth', tag', content, i + width)
  {
    hide Step, Outcome, IsCut, IsCode, IsPair, Flush, Split;
    var m := ModeOf(state, depth, tag);
    OutcomeStep(done, cur, has, m, content[i..]);
    FirstLexemeKind(m, content, i);
    TextAt(content, i, width);
  }

  lemma LoopEnd(done: seq<string>, cur: string, has: bool, state: ScanState, depth: nat, tag: OptTag, content: string)
    requires ValidScan(state, depth, tag)
    requires OnTrack(done, cur, has, state, depth, tag, content, |content|)
    ensures Flush(done, cur, has) == Split(content)
  {
    assert content[|content|..] == "";
    assert cur + "" == cur;
  }

  /** The iteration at `i` is one of those that set the flag `hasCode`. */
  predicate ReadsCode(state: ScanState, tag: OptTag, content: string, i: nat)
    requires i < |content|
  {
    || tag.Tag?
    || (&& state == InCode && content[i] != ';' && !IsSpace(content[i])
        && !IsPair(content, i, '-', '-') && !IsPair(content, i, '/', '*'))
  }

  /** The iteration at `i` ends a statement. */
  predicate ReadsCut(state: ScanState, tag: OptTag, content: string, i: nat)
    requires i < |content|
  {
    !tag.Tag? && state == InCode && content[i] == ';'
  }

  method SplitSqlStatements(content: string) returns (statements: seq<string>)
    ensures statements == Split(content)
  {
    hide *;
    statements := [];
    var current := "";
    var hasCode := false;
    var i := 0;
    var state := InCode;
    var blockDepth: nat := 0;
    var dollarTag := NoTag;
    var n := |content|;
    OutcomeStart(content);
    while i < n
      invariant 0 <= i <= n
      invariant ValidScan(state, blockDepth, dollarTag)
      invariant OnTrack(statements, current, hasCode, state, blockDepth, dollarTag, content, i)
    {
      var cut := ReadsCut(state, dollarTag, content, i);
      var code := ReadsCode(state, dollarTag, content, i);
      var state', blockDepth', dollarTag', width := Advance(content, i, state, blockDepth, dollarTag);
      LoopStep(statements, current, hasCode, state, blockDepth, dollarTag, content, i,
               state', blockDepth', dollarTag', width);
      state, blockDepth, dollarTag := state', blockDepth', dollarTag';
      current := Take(current, content, i, width);
      i := i + width;
      if cut {
        statements := Flush(statements, current, hasCode);
        current := "";
        hasCode := false;
      } else if code {
        hasCode := true;
      }
    }
    LoopEnd(statements, current, hasCode, state, blockDepth, dollarTag, content);
    statements := Flush(statements, current, hasCode);
  }

  // ---------------------------------------------------------------------
  // What the pieces are
  // ---------------------------------------------------------------------

  /** `a` holds the first of the fragments `fs` and `b` the text of the others. */
  predicate IsFirstFragment(fs: seq<seq<Lexeme>>, m: Mode, a: string, b: string)
    requires |fs| >= 1
  {
    && fs[0] == Lex(m, a)
    && (|fs| == 1 ==> b == "" && NoCut(fs[0]))
    && (|fs| > 1 ==>
          && EndsInSemicolon(a) && End(m, a) == Code && fs[0] != []
          && IsCut(fs[0][|fs[0]| - 1]) && NoCut(fs[0][..|fs[0]| - 1])
          && fs[1..] == Fragments(Lex(Code, b)))
  }

  /** The first fragment is a prefix of the text that lexes alone to itself. */
  lemma {:induction false} FirstFragment(m: Mode, s: string) returns (a: string, b: string)
    ensures s == a + b
    ensures IsFirstFragment(Fragments(Lex(m, s)), m, a, b)
    decreases |s|
  {
    hide Step, Lex, Fragments, IsFirstFragment, End;
    if s == "" {
      a, b := "", "";
      NothingFirst(m);
    } else {
      var v := Step(m, s);
      var l := Lexeme(m, s[..v.len]);
      if IsCut(l) {
        a, b := ";", s[1..];
        CutFirst(s);
      } else {
        var a', b' := FirstFragment(v.to, s[v.len..]);
        a, b := l.text + a', b';
        ExtendFirst(m, s, a', b');
      }
    }
  }

  lemma NothingFirst(m: Mode)
    ensures IsFirstFragment(Fragments(Lex(m, "")), m, "", "")
  {
  }

  lemma CutFirst(s: string)
    requires s != "" && s[0] == ';'
    ensures IsFirstFragment(Fragments(Lex(Code, s)), Code, ";", s[1..])
  {
    hide Step, Lex, End, Fragments;
    var l := Lexeme(Code, ";");
    CutIsStep(s);
    UnfoldLex(Code, s);
    LoneCut();
    CutFragments(l, Lex(Code, s[1..]));
    assert [l][..0] == [];
  }

  lemma CutIsStep(s: string)
    requires s != "" && s[0] == ';'
    ensures Step(Code, s) == Move(Code, 1) && s[..1] == ";"
  {
  }

  lemma LoneCut()
    ensures Lex(Code, ";") == [Lexeme(Code, ";")] && End(Code, ";") == Code
  {
    hide Step, Lex, End;
    CutIsStep(";");
    UnfoldLex(Code, ";");
    assert ";"[1..] == "";
    NothingLexes(Code);
  }

  lemma CutFragments(l: Lexeme, rest: seq<Lexeme>)
    requires IsCut(l)
    ensures Fragments([l] + rest) == [[l]] + Fragments(rest) && Fragments([l] + rest)[1..] == Fragments(rest)
  {
    assert ([l] + rest)[1..] == rest;
  }

  lemma ExtendFirst(m: Mode, s: string, a': string, b: string)
    requires s != ""
    requires var v := Step(m, s);
      && s[v.len..] == a' + b
      && !IsCut(Lexeme(m, s[..v.len]))
      && IsFirstFragment(Fragments(Lex(v.to, a' + b)), v.to, a', b)
    ensures IsFirstFragment(Fragments(Lex(m, s)), m, s[..Step(m, s).len] + a', b)
  {
    hide Step, Lex, End, IsCut, NoCut, Fragments, IsFirstFragment;
    var v := Step(m, s);
    var l := Lexeme(m, s[..v.len]);
    var a := l.text + a';
    var rest := Fragments(Lex(v.to, a' + b));
    FirstStops(rest, v.to, a', b);
    if b != "" {
      EndsInSemicolonAppend(l.text, a');
    }
    SeqAssoc(l.text, a', b);
    SameFirstStep(m, s, a, b);
    UnfoldLex(m, s);
    UnfoldLex(m, a);
    assert a[..v.len] == l.text && a[v.len..] == a';
    LongerFirst(l, Lex(v.to, a' + b), m, a, v.to, a', b);
  }

  lemma FirstStops(fs: seq<seq<Lexeme>>, m: Mode, a: string, b: string)
    requires |fs| >= 1 && IsFirstFragment(fs, m, a, b)
    ensures b == "" || EndsInSemicolon(a)
  {
    hide Lex, End, IsCut, NoCut, Fragments;
  }

  lemma EndsInSemicolonAppend(x: string, a: string)
    requires EndsInSemicolon(a)
    ensures EndsInSemicolon(x + a)
  {
  }

  /** One more lexeme in front of a first fragment. */
  lemma LongerFirst(l: Lexeme, ls: seq<Lexeme>, m: Mode, a: string, m': Mode, a': string, b: string)
    requires !IsCut(l) && IsFirstFragment(Fragments(ls), m', a', b)
    requires Lex(m, a) == [l] + Lex(m', a') && End(m, a) == End(m', a') && (EndsInSemicolon(a') ==> EndsInSemicolon(a))
    ensures IsFirstFragment(Fragments([l] + ls), m, a, b)
  {
    hide Lex, End, IsCut, NoCut, Fragments, EndsInSemicolon;
    var rest := Fragments(ls);
    var fs := Fragments([l] + ls);
    FragmentsCons(l, ls);
    if |rest| > 1 {
      assert fs[0][..|fs[0]| - 1] == [l] + rest[0][..|rest[0]| - 1];
      NoCutCons(l, rest[0][..|rest[0]| - 1]);
    } else {
      NoCutCons(l, rest[0]);
    }
  }

  lemma FragmentsCons(l: Lexeme, ls: seq<Lexeme>)
    requires !IsCut(l)
    ensures var rest := Fragments(ls);
      Fragments([l] + ls) == [[l] + rest[0]] + rest[1..] && Fragments([l] + ls)[1..] == rest[1..]
  {
    hide IsCut;
    assert ([l] + ls)[1..] == ls;
  }

  lemma NoCutCons(l: Lexeme, ls: seq<Lexeme>)
    requires !IsCut(l) && NoCut(ls)
    ensures NoCut([l] + ls)
  {
  }

  lemma SameFirstStep(m: Mode, s: string, a: string, b: string)
    requires a != "" && s == a + b && (b == "" || EndsInSemicolon(a))
    ensures Step(m, a) == Step(m, s)
  {
    if b == "" {
      assert a == s;
    } else {
      SemicolonIsClean(m, a);
      StepLocal(m, a, b);
    }
  }

  /** Every fragment lexes alone, from code, to itself. */
  predicate SelfLexing(f: seq<Lexeme>) { Lex(Code, TextOf(f)) == f }

  /**
   * The fragments cut the text without loss. Each lexes alone to itself. Each
   * but the last has exactly one top-level semicolon, at its end, where no
   * quote, comment or dollar body is open; the last has none.
   */
  lemma {:induction false} LosslessPartition(s: string)
    ensures var fs := Fragments(Lex(Code, s));
            && TextOf(Lex(Code, s)) == s
            && Concat(Texts(fs)) == s
            && (forall i :: 0 <= i < |fs| ==> SelfLexing(fs[i]))
            && (forall i :: 0 <= i < |fs| - 1 ==> Closed(fs[i]))
            && NoCut(fs[|fs| - 1])
    decreases |s|
  {
    hide Step, Lex, End, Fragments;
    LexLossless(Code, s);
    var a, b := FirstFragment(Code, s);
    LexLossless(Code, a);
    var fs := Fragments(Lex(Code, s));
    assert TextOf(fs[0]) == a;
    if |fs| == 1 {
      assert Texts(fs) == [a];
      assert Texts(fs)[1..] == [];
    } else {
      LosslessPartition(b);
      assert Texts(fs) == [a] + Texts(fs[1..]);
      assert forall i :: 1 <= i < |fs| ==> fs[i] == fs[1..][i - 1];
    }
  }

  /** One top-level semicolon, at the end, read in code. */
  predicate Closed(f: seq<Lexeme>) {
    && f != [] && IsCut(f[|f| - 1]) && NoCut(f[..|f| - 1])
    && End(Code, TextOf(f)) == Code && EndsInSemicolon(TextOf(f))
  }

  function Texts(fs: seq<seq<Lexeme>>): (ts: seq<string>)
    ensures |ts| == |fs|
    ensures forall i :: 0 <= i < |fs| ==> ts[i] == TextOf(fs[i])
  {
    if fs == [] then [] else [TextOf(fs[0])] + Texts(fs[1..])
  }

  // ---------------------------------------------------------------------
  // Splitting and concatenation
  // ---------------------------------------------------------------------

  /** `a` stops just after a top-level semicolon. */
  predicate StopsAtCut(a: string) { EndsInSemicolon(a) && End(Code, a) == Code }

  lemma {:induction false} LastIsCut(m: Mode, a: string)
    requires EndsInSemicolon(a) && End(m, a) == Code
    ensures var ls := Lex(m, a); ls != [] && IsCut(ls[|ls| - 1])
    decreases |a|
  {
    hide Step, Lex, End, IsCut;
    var v := Step(m, a);
    var rest := a[v.len..];
    UnfoldLex(m, a);
    if rest == "" {
      NothingLexes(v.to);
      assert a[..v.len] == a;
      LastStepCuts(m, a);
    } else {
      LastIsCut(v.to, rest);
    }
  }

  /** Only from code does a step over a semicolon at the very end lead to code. */
  lemma LastStepCuts(m: Mode, a: string)
    requires EndsInSemicolon(a) && Step(m, a) == Move(Code, |a|)
    ensures IsCut(Lexeme(m, a))
  {
    match m
    case Code => assert a[..1] == [a[0]];
    case _ =>
  }

  /** Lexemes that end in a cut leave an empty fragment for what follows. */
  lemma {:induction false} FragmentsAppend(xs: seq<Lexeme>, ys: seq<Lexeme>) returns (init: seq<seq<Lexeme>>)
    requires xs != [] && IsCut(xs[|xs| - 1])
    ensures |init| >= 1
    ensures Fragments(xs) == init + [[]]
    ensures Fragments(xs + ys) == init + Fragments(ys)
  {
    hide IsCut;
    var x, tail := xs[0], xs[1..];
    assert (xs + ys)[1..] == tail + ys && (xs + ys)[0] == x;
    if tail == [] {
      assert tail + ys == ys;
      init := [[x]];
    } else {
      var init' := FragmentsAppend(tail, ys);
      ExtendHead(x, init', Fragments(ys));
      ExtendHead(x, init', [[]]);
      init := Extend(x, init');
    }
  }

  lemma ExtendHead(x: Lexeme, a: seq<seq<Lexeme>>, b: seq<seq<Lexeme>>)
    requires |a| >= 1
    ensures Extend(x, a + b) == Extend(x, a) + b
    ensures |Extend(x, a)| >= 1
  {
    assert (a + b)[0] == a[0] && (a + b)[1..] == a[1..] + b;
  }

  lemma {:induction false} KeptAppend(a: seq<seq<Lexeme>>, b: seq<seq<Lexeme>>)
    ensures Kept(a + b) == Kept(a) + Kept(b)
  {
    hide HasCode, TextOf;
    if a == [] {
      assert a + b == b;
    } else {
      assert (a + b)[1..] == a[1..] + b;
      KeptAppend(a[1..], b);
      SeqAssoc(if HasCode(a[0]) then [TextOf(a[0])] else [], Kept(a[1..]), Kept(b));
    }
  }

  /** After a top-level semicolon, splitting starts afresh. */
  lemma SplitAppend(a: string, b: string)
    requires StopsAtCut(a)
    ensures Split(a + b) == Split(a) + Split(b)
  {
    hide Lex, End, Step, Fragments, Clean, IsCut;
    SemicolonIsClean(Code, a);
    LexAppend(Code, a, b);
    LastIsCut(Code, a);
    var init := FragmentsAppend(Lex(Code, a), Lex(Code, b));
    KeptAppend(init, Fragments(Lex(Code, b)));
    KeptAppend(init, [[]]);
    NothingKept();
  }

  lemma NothingKept()
    ensures Kept([[]]) == []
  {
    var one: seq<seq<Lexeme>> := [[]];
    assert one[1..] == [];
  }

  /** A text that is a single fragment is a single statement, or none. */
  lemma SplitFragment(f: seq<Lexeme>)
    requires SelfLexing(f) && (NoCut(f) || Closed(f))
    ensures Split(TextOf(f)) == if HasCode(f) then [TextOf(f)] else []
  {
    hide Lex, End, Fragments, HasCode, IsCut, Kept;
    if NoCut(f) {
      NoCutIsOneFragment(f);
      KeptOne(f, []);
    } else {
      var init, c := f[..|f| - 1], f[|f| - 1];
      NoCutFragments(init, c);
      assert init + [c] == f;
      assert [f, []] == [f] + [[]];
      KeptOne(f, [[]]);
      NothingKept();
    }
  }

  lemma KeptOne(f: seq<Lexeme>, fs: seq<seq<Lexeme>>)
    ensures Kept([f] + fs) == (if HasCode(f) then [TextOf(f)] else []) + Kept(fs)
    ensures Kept([f]) == if HasCode(f) then [TextOf(f)] else []
  {
    hide HasCode;
    assert ([f] + fs)[1..] == fs && [f][1..] == [];
  }

  lemma {:induction false} NoCutIsOneFragment(ls: seq<Lexeme>)
    requires NoCut(ls)
    ensures Fragments(ls) == [ls]
  {
    if ls != [] {
      NoCutIsOneFragment(ls[1..]);
      assert [ls[0]] + ls[1..] == ls;
    }
  }

  lemma {:induction false} NoCutFragments(ls: seq<Lexeme>, c: Lexeme)
    requires NoCut(ls) && IsCut(c)
    ensures Fragments(ls + [c]) == [ls + [c], []]
  {
    if ls == [] {
      assert ls + [c] == [c];
      assert Fragments([c]) == [[c]] + Fragments([]);
    } else {
      assert (ls + [c])[1..] == ls[1..] + [c];
      NoCutFragments(ls[1..], c);
      assert [ls[0]] + (ls[1..] + [c]) == ls + [c];
    }
  }

  /** The kept statements are texts of fragments that hold code. */
  lemma {:induction false} KeptOrigin(fs: seq<seq<Lexeme>>, st: string)
    requires st in Kept(fs)
    ensures exists i :: 0 <= i < |fs| && HasCode(fs[i]) && TextOf(fs[i]) == st
  {
    if HasCode(fs[0]) && st == TextOf(fs[0]) {
    } else {
      KeptOrigin(fs[1..], st);
      var i :| 0 <= i < |fs[1..]| && HasCode(fs[1..][i]) && TextOf(fs[1..][i]) == st;
      assert fs[i + 1] == fs[1..][i];
    }
  }

  /** Splitting an emitted statement gives that statement back. */
  lemma SelfDelimiting(s: string, st: string)
    requires st in Split(s)
    ensures Split(st) == [st]
    ensures HasCode(Lex(Code, st))
  {
    var fs := Fragments(Lex(Code, s));
    KeptOrigin(fs, st);
    LosslessPartition(s);
    var i :| 0 <= i < |fs| && HasCode(fs[i]) && TextOf(fs[i]) == st;
    SplitFragment(fs[i]);
  }

  /** Splitting the emitted statements put end to end gives them back. */
  lemma {:induction false} ResplitEmitted(s: string)
    ensures Split(Concat(Split(s))) == Split(s)
    decreases |s|
  {
    var a, b := FirstFragment(Code, s);
    var fs := Fragments(Lex(Code, s));
    LexLossless(Code, a);
    var head := if HasCode(fs[0]) then [a] else [];
    assert Split(s) == head + Kept(fs[1..]);
    if |fs| == 1 {
      assert Split(s) == head && Concat(head) == Concat([a][..|head|]);
      SplitFragment(fs[0]);
      if head == [] {
        assert Split("") == [] by { assert Kept([[]]) == []; }
      } else {
        assert [a][1..] == [] && a + "" == a;
      }
    } else {
      ResplitEmitted(b);
      ConcatAppend(head, Split(b));
      if head == [] {
        assert Concat(head) + Concat(Split(b)) == Concat(Split(b));
      } else {
        SplitFragment(fs[0]);
        SplitAppend(a, Concat(Split(b)));
        assert [a][1..] == [] && Concat(head) == a;
      }
    }
  }
}
