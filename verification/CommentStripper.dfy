/** Erasing comments from SQL text, as the preflight checks do. */
module CommentStripper {
  import opened Text
  import opened SqlLexer
  import opened StatementSplitter

  /** The modes of this scanner: it knows neither quoted identifiers nor dollar quotes. */
  predicate StripMode(m: Mode) { !m.DQuote? && !m.Dollar? }

  /** One iteration of the loop: double quotes and dollars are ordinary characters. */
  function StripStep(m: Mode, s: string): (v: Move)
    requires s != "" && StripMode(m)
    ensures 1 <= v.len <= |s| && StripMode(v.to)
  {
    if m.Code? && (s[0] == '"' || s[0] == '$') then Move(Code, 1) else Step(m, s)
  }

  /** The output of that iteration. */
  function Emit(m: Mode, s: string): (e: string)
    requires s != "" && StripMode(m)
  {
    match m
    case Code => if Starts(s, '-', '-') || Starts(s, '/', '*') then "" else [s[0]]
    case Line => if s[0] == '\n' then "\n" else ""
    case Block(_) => ""
    case _ => s[..StripStep(m, s).len]
  }

  function StripFrom(m: Mode, s: string): string
    requires StripMode(m)
    decreases |s|
  {
    if s == "" then ""
    else var v := StripStep(m, s); Emit(m, s) + StripFrom(v.to, s[v.len..])
  }

  /** SQL text without its comments; the newline that ends a line comment stays. */
  function Strip(source: string): string { StripFrom(Code, source) }

  // ---------------------------------------------------------------------
  // The scanning loop
  // ---------------------------------------------------------------------

  predicate ValidStrip(state: ScanState, depth: nat) {
    ValidScan(state, depth, NoTag) && state != InDQuote
  }

  predicate OnTrack(out: string, state: ScanState, depth: nat, source: string, i: nat)
    requires ValidStrip(state, depth) && i <= |source|
  {
    Strip(source) == out + StripFrom(ModeOf(state, depth, NoTag), source[i..])
  }

  function EmitAt(state: ScanState, depth: nat, source: string, i: nat): string
    requires ValidStrip(state, depth) && i < |source|
  {
    Emit(ModeOf(state, depth, NoTag), source[i..])
  }

  function StripStepAt(state: ScanState, depth: nat, source: string, i: nat): (v: Move)
    requires ValidStrip(state, depth) && i < |source|
    ensures 1 <= v.len && i + v.len <= |source|
  {
    StripStep(ModeOf(state, depth, NoTag), source[i..])
  }

  /** One iteration: the new state, how far it moves, and what it puts out. */
  method StripAdvance(source: string, i: nat, state: ScanState, depth: nat)
    returns (state': ScanState, depth': nat, width: nat, emitted: string)
    requires ValidStrip(state, depth) && i < |source|
    ensures ValidStrip(state', depth')
    ensures StripStepAt(state, depth, source, i) == Move(ModeOf(state', depth', NoTag), width)
    ensures emitted == EmitAt(state, depth, source, i)
  {
    state', depth', width, emitted := state, depth, 1, "";
    var ch := source[i];
    assert source[i..][..1] == [ch];
    assert i + 1 < |source| ==> source[i..][..2] == [ch, source[i + 1]];
    if state == InCode {
      if IsPair(source, i, '-', '-') {
        state', width := InLine, 2;
      } else if IsPair(source, i, '/', '*') {
        state', depth', width := InBlock, 1, 2;
      } else if ch == '\'' {
        state', emitted := InSQuote, [ch];
      } else {
        emitted := [ch];
      }
    } else if state == InLine {
      if ch == '\n' {
        state', emitted := InCode, [ch];
      }
    } else if state == InBlock {
      if IsPair(source, i, '/', '*') {
        depth', width := depth + 1, 2;
      } else if IsPair(source, i, '*', '/') {
        depth', width := depth - 1, 2;
        if depth' == 0 {
          state' := InCode;
        }
      }
    } else if IsPair(source, i, '\'', '\'') {
      emitted, width := [ch, ch], 2;
    } else {
      emitted := [ch];
      if ch == '\'' {
        state' := InCode;
      }
    }
  }

  lemma TrackStart(source: string)
    ensures ValidStrip(InCode, 0) && OnTrack("", InCode, 0, source, 0)
  {
    assert source[0..] == source;
  }

  lemma TrackStep(out: string, state: ScanState, depth: nat, source: string, i: nat,
                  state': ScanState, depth': nat, width: nat, emitted: string)
    requires ValidStrip(state, depth) && ValidStrip(state', depth') && i < |source|
    requires OnTrack(out, state, depth, source, i)
    requires StripStepAt(state, depth, source, i) == Move(ModeOf(state', depth', NoTag), width)
    requires emitted == EmitAt(state, depth, source, i)
    ensures i + width <= |source| && OnTrack(out + emitted, state', depth', source, i + width)
  {
    hide StripStep, Emit, ModeOf;
    var s := source[i..];
    TextAt(source, i, width);
    SeqAssoc(out, emitted, StripFrom(ModeOf(state', depth', NoTag), s[width..]));
  }

  lemma TrackEnd(out: string, state: ScanState, depth: nat, source: string)
    requires ValidStrip(state, depth) && OnTrack(out, state, depth, source, |source|)
    ensures out == Strip(source)
  {
    assert source[|source|..] == "";
  }

  method StripSqlComments(source: string) returns (out: string)
    ensures out == Strip(source)
  {
    hide *;
    out := "";
    var i := 0;
    var state := InCode;
    var blockDepth: nat := 0;
    var n := |source|;
    TrackStart(source);
    while i < n
      invariant 0 <= i <= n
      invariant ValidStrip(state, blockDepth)
      invariant OnTrack(out, state, blockDepth, source, i)
    {
      var state', depth', width, emitted := StripAdvance(source, i, state, blockDepth);
      TrackStep(out, state, blockDepth, source, i, state', depth', width, emitted);
      state, blockDepth := state', depth';
      out := out + emitted;
      i := i + width;
    }
    TrackEnd(out, state, blockDepth, source);
  }

  // ---------------------------------------------------------------------
  // Agreement with the splitter's scan
  // ---------------------------------------------------------------------

  /** What is left of a lexeme when comments are erased. */
  function Residue(l: Lexeme): string {
    if IsComment(l) then (if l.text == "\n" && l.mode.Line? then "\n" else "") else l.text
  }

  function Erase(ls: seq<Lexeme>): string {
    if ls == [] then "" else Residue(ls[0]) + Erase(ls[1..])
  }

  /**
   * On text without double quotes and dollars, stripping is the splitter's
   * scan with the comments erased: only the newlines of line comments remain.
   */
  lemma {:induction false} StripErasesComments(m: Mode, s: string)
    requires StripMode(m)
    requires '"' !in s && '$' !in s
    ensures StripFrom(m, s) == Erase(Lex(m, s))
    decreases |s|
  {
    if s != "" {
      StripStepAgrees(m, s);
      StripRest(m, s);
      UnfoldLex(m, s);
    }
  }

  lemma StripRest(m: Mode, s: string)
    requires StripMode(m) && s != "" && '"' !in s && '$' !in s
    ensures var v := StripStep(m, s); StripFrom(v.to, s[v.len..]) == Erase(Lex(v.to, s[v.len..]))
    decreases |s|, 0
  {
    hide StripStep, StripFrom, Lex, Step;
    var v := StripStep(m, s);
    var rest := s[v.len..];
    forall c | c in rest ensures c in s {
    }
    StripErasesComments(v.to, rest);
  }

  lemma StripStepAgrees(m: Mode, s: string)
    requires StripMode(m) && s != "" && '"' !in s && '$' !in s
    ensures StripStep(m, s) == Step(m, s)
    ensures Emit(m, s) == Residue(Lexeme(m, s[..Step(m, s).len]))
  {
    assert s[0] in s;
    var l := Lexeme(m, s[..Step(m, s).len]);
    assert s[..1] == [s[0]];
    assert |s| >= 2 ==> s[..2] == [s[0], s[1]];
  }

  /** A character that means nothing to either scan. */
  predicate IsNeutral(c: char) { c !in "-/*'\"$\n" }

  /** `s` with its double quotes and dollars renamed. */
  function Renamed(s: string, quote: char, dollar: char): (r: string)
    ensures |r| == |s|
    ensures forall i :: 0 <= i < |s| ==> r[i] == if s[i] == '"' then quote else if s[i] == '$' then dollar else s[i]
  {
    seq(|s|, i requires 0 <= i < |s| => if s[i] == '"' then quote else if s[i] == '$' then dollar else s[i])
  }

  lemma RenamedApart(a: string, b: string, quote: char, dollar: char)
    ensures Renamed(a + b, quote, dollar) == Renamed(a, quote, dollar) + Renamed(b, quote, dollar)
  {
  }

  lemma RenamedStep(m: Mode, s: string, quote: char, dollar: char)
    requires StripMode(m) && s != "" && IsNeutral(quote) && IsNeutral(dollar)
    ensures var r, v := Renamed(s, quote, dollar), StripStep(m, s);
      && r != "" && StripStep(m, r) == v && Emit(m, r) == Renamed(Emit(m, s), quote, dollar)
      && r[v.len..] == Renamed(s[v.len..], quote, dollar)
  {
    var r := Renamed(s, quote, dollar);
    var n := StripStep(m, s).len;
    assert r[n..] == Renamed(s[n..], quote, dollar);
    assert r[0] == s[0] || s[0] == '"' || s[0] == '$';
    assert |s| >= 2 ==> r[1] == s[1] || s[1] == '"' || s[1] == '$';
  }

  lemma {:induction false} StripRenames(m: Mode, s: string, quote: char, dollar: char)
    requires StripMode(m) && IsNeutral(quote) && IsNeutral(dollar)
    ensures Renamed(StripFrom(m, s), quote, dollar) == StripFrom(m, Renamed(s, quote, dollar))
    decreases |s|
  {
    hide StripStep, Emit;
    if s == "" {
      assert Renamed(s, quote, dollar) == "";
    } else {
      var v := StripStep(m, s);
      RenamedStep(m, s, quote, dollar);
      StripRenames(v.to, s[v.len..], quote, dollar);
      RenamedApart(Emit(m, s), StripFrom(v.to, s[v.len..]), quote, dollar);
    }
  }

  /** On every text, stripping erases the comments that the splitter would see if quotes and dollars meant nothing. */
  lemma StripIsErasing(source: string, quote: char, dollar: char)
    requires IsNeutral(quote) && IsNeutral(dollar)
    ensures Renamed(Strip(source), quote, dollar) == Erase(Lex(Code, Renamed(source, quote, dollar)))
  {
    hide StripFrom, Lex, Erase;
    var renamed := Renamed(source, quote, dollar);
    StripRenames(Code, source, quote, dollar);
    assert '"' !in renamed && '$' !in renamed;
    StripErasesComments(Code, renamed);
  }

  // ---------------------------------------------------------------------
  // A second pass
  // ---------------------------------------------------------------------

  /** What remains once the block comments at the front of `s` are skipped. */
  function Resume(m: Mode, s: string): string
    requires m.Code? || m.Block?
    decreases |s|
  {
    if s == "" then ""
    else if m.Block? || Starts(s, '/', '*') then var v := Step(m, s); Resume(v.to, s[v.len..])
    else s
  }

  /**
   * The code character that starts `s` is `-` or `/`, and only block comments
   * separate it from a kept `-`, or from a `*`.
   */
  predicate Glues(s: string)
    requires s != ""
  {
    var r := Resume(Code, s[1..]);
    && !Starts(s, '-', '-') && !Starts(s, '/', '*') && r != ""
    && ((s[0] == '-' && r[0] == '-' && !Starts(r, '-', '-')) || (s[0] == '/' && r[0] == '*'))
  }

  predicate GlueFree(m: Mode, s: string)
    requires StripMode(m)
    decreases |s|
  {
    s == "" || (!(m.Code? && Glues(s)) && var v := StripStep(m, s); GlueFree(v.to, s[v.len..]))
  }

  /** The mode in which a second pass reads what the first kept from `m` on. */
  function Again(m: Mode): Mode
    requires StripMode(m)
  {
    if m.SQuote? then SQuote else Code
  }

  lemma {:induction false} StripNoLonger(m: Mode, s: string)
    requires StripMode(m)
    ensures |StripFrom(m, s)| <= |s|
    decreases |s|
  {
    if s != "" {
      var v := StripStep(m, s);
      EmitNoLonger(m, s);
      StripNoLonger(v.to, s[v.len..]);
    }
  }

  lemma EmitNoLonger(m: Mode, s: string)
    requires StripMode(m) && s != ""
    ensures |Emit(m, s)| <= StripStep(m, s).len
  {
  }

  /** Stripping `s` starts with what stands after its leading block comments. */
  lemma {:induction false} StripResumes(m: Mode, s: string)
    requires m.Code? || m.Block?
    ensures var r := Resume(m, s);
      && StripFrom(m, s) == StripFrom(Code, r)
      && (r != "" ==> !Starts(r, '/', '*'))
    decreases |s|
  {
    if s != "" && (m.Block? || Starts(s, '/', '*')) {
      var v := Step(m, s);
      assert StripStep(m, s) == v && Emit(m, s) == "";
      StripResumes(v.to, s[v.len..]);
    }
  }

  /** The first character that stripping a text in code puts out. */
  lemma FirstOut(r: string)
    requires r != "" ==> !Starts(r, '/', '*')
    ensures var t := StripFrom(Code, r);
      if r == "" then t == ""
      else if Starts(r, '-', '-') then t == "" || t[0] == '\n'
      else t != "" && t[0] == r[0]
  {
    if r != "" && Starts(r, '-', '-') {
      LineFirstOut(r[2..]);
    }
  }

  lemma {:induction false} LineFirstOut(s: string)
    ensures var t := StripFrom(Line, s); t == "" || t[0] == '\n'
    decreases |s|
  {
    if s != "" && s[0] != '\n' {
      LineFirstOut(s[1..]);
    }
  }

  /** Whether the second pass returns `t` unchanged (`same`) or shorter. */
  predicate SecondPass(m: Mode, t: string, same: bool)
    requires StripMode(m)
  {
    if same then StripFrom(m, t) == t else |StripFrom(m, t)| < |t|
  }

  lemma SecondStep(m: Mode, e: string, to: Mode, t: string, same: bool)
    requires StripMode(m) && StripMode(to) && e != ""
    requires StripStep(m, e + t) == Move(to, |e|) && Emit(m, e + t) == e
    requires SecondPass(to, t, same)
    ensures SecondPass(m, e + t, same)
  {
    hide StripStep, Emit;
    assert (e + t)[|e|..] == t;
  }

  /** A kept character of code: the second pass keeps it, or fuses it. */
  lemma SecondCode(s: string, same: bool)
    requires s != "" && !Starts(s, '-', '-') && !Starts(s, '/', '*') && s[0] != '\''
    requires Glues(s) ==> !same
    requires !Glues(s) ==> SecondPass(Code, StripFrom(Code, s[1..]), same)
    ensures SecondPass(Code, [s[0]] + StripFrom(Code, s[1..]), same)
  {
    hide StripFrom;
    var t := StripFrom(Code, s[1..]);
    StripResumes(Code, s[1..]);
    FirstOut(Resume(Code, s[1..]));
    if Glues(s) {
      FuseShortens([s[0]] + t);
    } else {
      assert !Starts([s[0]] + t, '-', '-') && !Starts([s[0]] + t, '/', '*');
      SecondStep(Code, [s[0]], Code, t, same);
    }
  }

  lemma FuseShortens(t: string)
    requires Starts(t, '-', '-') || Starts(t, '/', '*')
    ensures |StripFrom(Code, t)| < |t|
  {
    var v := StripStep(Code, t);
    assert v.len == 2 && Emit(Code, t) == "";
    StripNoLonger(v.to, t[2..]);
  }

  /** A closing quote: the second pass may read it and a quote after it as one escape. */
  lemma SecondClose(t: string, same: bool)
    requires SecondPass(Code, t, same)
    ensures SecondPass(SQuote, "'" + t, same)
  {
    if t != "" && t[0] == '\'' {
      var t' := t[1..];
      assert t == "'" + t';
      assert StripFrom(Code, t) == "'" + StripFrom(SQuote, t');
      assert SecondPass(SQuote, t', same) by {
        if same {
          assert StripFrom(SQuote, t') == ("'" + StripFrom(SQuote, t'))[1..] == t[1..];
        }
      }
      assert "'" + t == "''" + t';
      SecondStep(SQuote, "''", SQuote, t', same);
    } else {
      SecondStep(SQuote, "'", Code, t, same);
    }
  }

  lemma {:induction false} SecondPassFrom(m: Mode, s: string)
    requires StripMode(m)
    ensures SecondPass(Again(m), StripFrom(m, s), GlueFree(m, s))
    decreases |s|
  {
    if s != "" {
      var v := StripStep(m, s);
      SecondPassFrom(v.to, s[v.len..]);
      SecondPassStep(m, s);
    } else {
      assert SecondPass(Again(m), "", true);
    }
  }

  lemma UnfoldStrip(m: Mode, s: string)
    requires StripMode(m) && s != ""
    ensures var v := StripStep(m, s);
      && StripFrom(m, s) == Emit(m, s) + StripFrom(v.to, s[v.len..])
      && (GlueFree(m, s) <==> !(m.Code? && Glues(s)) && GlueFree(v.to, s[v.len..]))
  {
    hide StripStep, Emit, Glues;
  }

  lemma SecondPassStep(m: Mode, s: string)
    requires StripMode(m) && s != ""
    requires var v := StripStep(m, s);
      SecondPass(Again(v.to), StripFrom(v.to, s[v.len..]), GlueFree(v.to, s[v.len..]))
    ensures SecondPass(Again(m), StripFrom(m, s), GlueFree(m, s))
  {
    hide SecondPass, Glues, StripFrom, GlueFree, Emit, StripStep;
    var v := StripStep(m, s);
    UnfoldStrip(m, s);
    if m.SQuote? {
      SecondQuoted(s, StripFrom(v.to, s[v.len..]), GlueFree(v.to, s[v.len..]));
    } else if m.Code? && Emit(m, s) != "" {
      SecondKept(s, GlueFree(m, s));
    } else {
      SecondErased(m, s, StripFrom(v.to, s[v.len..]), GlueFree(v.to, s[v.len..]));
    }
  }

  /** Comments: nothing is put out, or the newline that ends a line comment. */
  lemma SecondErased(m: Mode, s: string, t: string, same: bool)
    requires StripMode(m) && s != "" && !m.SQuote? && (m.Code? ==> Emit(m, s) == "")
    requires SecondPass(Again(StripStep(m, s).to), t, same)
    ensures SecondPass(Again(m), Emit(m, s) + t, same)
    ensures m.Code? ==> !Glues(s)
  {
    hide SecondPass, StripFrom, GlueFree;
    if m.Line? && s[0] == '\n' {
      SecondStep(Code, "\n", Code, t, same);
    } else {
      assert Emit(m, s) + t == t;
    }
  }

  lemma SecondQuoted(s: string, t: string, same: bool)
    requires s != "" && SecondPass(Again(StripStep(SQuote, s).to), t, same)
    ensures SecondPass(SQuote, Emit(SQuote, s) + t, same)
  {
    hide SecondPass, StripFrom, GlueFree, Glues;
    if StripStep(SQuote, s).to.Code? {
      assert Emit(SQuote, s) == "'";
      SecondClose(t, same);
    } else {
      QuotedStep(s, t);
      SecondStep(SQuote, Emit(SQuote, s), SQuote, t, same);
    }
  }

  lemma SecondKept(s: string, same: bool)
    requires s != "" && Emit(Code, s) != ""
    requires Glues(s) ==> !same
    requires var v := StripStep(Code, s);
      !Glues(s) ==> SecondPass(Again(v.to), StripFrom(v.to, s[v.len..]), same)
    ensures var v := StripStep(Code, s);
      SecondPass(Code, Emit(Code, s) + StripFrom(v.to, s[v.len..]), same)
  {
    hide SecondPass, StripFrom, GlueFree, Glues;
    if s[0] == '\'' {
      QuoteIsNoGlue(s);
      SecondStep(Code, "'", SQuote, StripFrom(SQuote, s[1..]), same);
    } else {
      SecondCode(s, same);
    }
  }

  lemma QuoteIsNoGlue(s: string)
    requires s != "" && s[0] == '\''
    ensures !Glues(s)
  {
  }

  lemma QuotedStep(s: string, t: string)
    requires s != "" && StripStep(SQuote, s).to.SQuote?
    ensures var e := Emit(SQuote, s);
      e != "" && StripStep(SQuote, e + t) == Move(SQuote, |e|) && Emit(SQuote, e + t) == e
  {
    var e := Emit(SQuote, s);
    assert e[0] == s[0];
    assert (e + t)[..|e|] == e;
  }

  /**
   * Stripping twice is stripping once exactly when no block comments alone
   * separate a `-` from a `-`, or a `/` from a `*`; otherwise the second pass
   * sees a comment that the first assembled, and removes more.
   */
  lemma StripIdempotentIff(source: string)
    ensures Strip(Strip(source)) == Strip(source) <==> GlueFree(Code, source)
  {
    hide StripFrom, GlueFree;
    SecondPassFrom(Code, source);
  }

  lemma LoneDash()
    ensures StripFrom(Code, "-") == "-"
  {
    hide Glues, GlueFree;
    assert "-"[1..] == "";
  }

  lemma BlockOpens(s: string)
    requires Starts(s, '/', '*')
    ensures StripStep(Code, s) == Move(Block(1), 2) && Emit(Code, s) == ""
  {
  }

  lemma BlockCloses(s: string)
    requires Starts(s, '*', '/')
    ensures StripStep(Block(1), s) == Move(Code, 2) && Emit(Block(1), s) == ""
  {
  }

  /** A comment that closes at once leaves nothing. */
  lemma CommentErased(rest: string)
    ensures StripFrom(Code, "/*" + ("*/" + rest)) == StripFrom(Code, rest)
  {
    hide StripFrom, StripStep, Emit, GlueFree, Glues;
    var inside := "*/" + rest;
    var s := "/*" + inside;
    assert s[2..] == inside && inside[2..] == rest;
    BlockOpens(s);
    UnfoldStrip(Code, s);
    BlockCloses(inside);
    UnfoldStrip(Block(1), inside);
    assert "" + StripFrom(Code, rest) == StripFrom(Code, rest);
  }

  lemma LineOpens()
    ensures StripStep(Code, "--") == Move(Line, 2) && Emit(Code, "--") == "" && "--"[2..] == ""
  {
  }

  lemma TwoDashes()
    ensures StripFrom(Code, "--") == ""
  {
    hide StripFrom, StripStep, Emit, GlueFree, Glues;
    LineOpens();
    UnfoldStrip(Code, "--");
    StripNoLonger(Line, "");
    assert StripFrom(Line, "") == "";
  }

  lemma DashBeforeSlash(rest: string)
    requires rest != "" && rest[0] == '/'
    ensures var s := "-" + rest; StripStep(Code, s) == Move(Code, 1) && Emit(Code, s) == "-" && s[1..] == rest
  {
  }

  /** Two dashes apart but for a comment: the first pass joins them, and the second takes them for a comment. */
  lemma GluedDashes()
    ensures Strip("-/**/-") == "--" && Strip("--") == ""
    ensures !GlueFree(Code, "-/**/-")
  {
    hide StripFrom, StripStep, Emit, GlueFree, Glues;
    var rest := "/*" + ("*/" + "-");
    var s := "-" + rest;
    assert s == "-/**/-" && rest[0] == '/';
    LoneDash();
    CommentErased("-");
    TwoDashes();
    DashBeforeSlash(rest);
    UnfoldStrip(Code, s);
    StripIdempotentIff(s);
  }
}
