/**
 * The automaton that the migration scanners share: code, line comments, nested
 * block comments, quoted strings, quoted identifiers and dollar-quoted bodies.
 */
module SqlLexer {
  import opened Text

  datatype RawMode =
    | Code
    | Line
    | Block(depth: nat)
    | SQuote
    | DQuote
    | Dollar(tag: string)

  /** A dollar-quote delimiter: `$$` or `$name$`. */
  predicate IsTag(t: string) {
    && |t| >= 2 && t[0] == '$' && t[|t| - 1] == '$'
    && forall i :: 0 < i < |t| - 1 ==> IsIdentPart(t[i])
  }

  predicate Reachable(m: RawMode) {
    && (m.Block? ==> m.depth >= 1)
    && (m.Dollar? ==> IsTag(m.tag))
  }

  type Mode = m: RawMode | Reachable(m) witness Code

  /** Length of the dollar-quote opener that starts `s`, or zero. */
  function TagLen(s: string): (n: nat)
    ensures n <= |s|
    ensures n > 0 ==> IsTag(s[..n])
  {
    if |s| < 2 || s[0] != '$' then 0
    else if s[1] == '$' then 2
    else if IsIdentStart(s[1]) then
      var k := IdentRun(s[1..]);
      if 1 + k < |s| && s[1 + k] == '$' then k + 2 else 0
    else 0
  }

  datatype Move = Move(to: Mode, len: nat)

  predicate Starts(s: string, c: char, d: char) {
    |s| >= 2 && s[0] == c && s[1] == d
  }

  /** One iteration of the scanning loop on the remaining text `s`. */
  function Step(m: Mode, s: string): (v: Move)
    requires s != ""
    ensures 1 <= v.len <= |s|
  {
    match m
    case Code =>
      if Starts(s, '-', '-') then Move(Line, 2)
      else if Starts(s, '/', '*') then Move(Block(1), 2)
      else if s[0] == '\'' then Move(SQuote, 1)
      else if s[0] == '"' then Move(DQuote, 1)
      else if TagLen(s) > 0 then Move(Dollar(s[..TagLen(s)]), TagLen(s))
      else Move(Code, 1)
    case Line => Move(if s[0] == '\n' then Code else Line, 1)
    case Block(d) =>
      if Starts(s, '/', '*') then Move(Block(d + 1), 2)
      else if Starts(s, '*', '/') then Move(if d == 1 then Code else Block(d - 1), 2)
      else Move(m, 1)
    case SQuote =>
      if Starts(s, '\'', '\'') then Move(m, 2)
      else Move(if s[0] == '\'' then Code else m, 1)
    case DQuote =>
      if Starts(s, '"', '"') then Move(m, 2)
      else Move(if s[0] == '"' then Code else m, 1)
    case Dollar(tag) =>
      if tag <= s then Move(Code, |tag|) else Move(m, 1)
  }

  /** A piece of text together with the mode in which it was read. */
  datatype Lexeme = Lexeme(mode: Mode, text: string)

  function Lex(m: Mode, s: string): (ls: seq<Lexeme>)
    decreases |s|
  {
    if s == "" then []
    else var v := Step(m, s); [Lexeme(m, s[..v.len])] + Lex(v.to, s[v.len..])
  }

  /** The mode in which scanning `s` from `m` stops. */
  function End(m: Mode, s: string): Mode
    decreases |s|
  {
    if s == "" then m else var v := Step(m, s); End(v.to, s[v.len..])
  }

  /** The text that a run of lexemes covers. */
  function TextOf(ls: seq<Lexeme>): string {
    if ls == [] then "" else ls[0].text + TextOf(ls[1..])
  }

  lemma {:induction false} TextOfAppend(a: seq<Lexeme>, b: seq<Lexeme>)
    ensures TextOf(a + b) == TextOf(a) + TextOf(b)
  {
    if a == [] {
      assert a + b == b;
    } else {
      assert (a + b)[1..] == a[1..] + b;
      TextOfAppend(a[1..], b);
    }
  }

  /** One step of the scan. */
  lemma UnfoldLex(m: Mode, s: string)
    requires s != ""
    ensures var v := Step(m, s);
            && Lex(m, s) == [Lexeme(m, s[..v.len])] + Lex(v.to, s[v.len..])
            && Lex(m, s)[1..] == Lex(v.to, s[v.len..])
            && End(m, s) == End(v.to, s[v.len..])
  {
    hide Step;
  }

  lemma NothingLexes(m: Mode)
    ensures Lex(m, "") == [] && End(m, "") == m && Clean(m, "")
  {
  }

  lemma TextOfCons(l: Lexeme, ls: seq<Lexeme>)
    ensures TextOf([l] + ls) == l.text + TextOf(ls)
  {
    assert ([l] + ls)[1..] == ls;
  }

  /** Scanning loses nothing. */
  lemma {:induction false} LexLossless(m: Mode, s: string)
    ensures TextOf(Lex(m, s)) == s
    decreases |s|
  {
    hide Step, Lex, TextOf;
    if s == "" {
      NothingLexes(m);
      NoText();
    } else {
      var v := Step(m, s);
      var rest := s[v.len..];
      UnfoldLex(m, s);
      LexLossless(v.to, rest);
      TextOfCons(Lexeme(m, s[..v.len]), Lex(v.to, rest));
    }
  }

  lemma NoText()
    ensures TextOf([]) == ""
  {
  }

  // ---------------------------------------------------------------------
  // Look-ahead
  // ---------------------------------------------------------------------

  /** The next step on `x` is decided by `x` alone, whatever follows it. */
  predicate Local(m: Mode, x: string)
    requires x != ""
  {
    match m
    case Code =>
      && (x[0] in "-/" ==> |x| >= 2)
      && (x[0] == '$' ==> TagLen(x) > 0 || 1 + IdentRun(x[1..]) < |x|)
    case Line => true
    case Block(_) => x[0] in "/*" ==> |x| >= 2
    case SQuote => x[0] == '\'' ==> |x| >= 2
    case DQuote => x[0] == '"' ==> |x| >= 2
    case Dollar(tag) => |x| >= |tag| || !(x <= tag)
  }

  /** Every step on `a` is decided inside `a`. */
  predicate Clean(m: Mode, a: string)
    decreases |a|
  {
    a == "" || (Local(m, a) && var v := Step(m, a); Clean(v.to, a[v.len..]))
  }

  lemma {:induction false} IdentRunAppend(x: string, b: string)
    requires IdentRun(x) < |x|
    ensures IdentRun(x + b) == IdentRun(x)
  {
    if IsIdentPart(x[0]) {
      assert (x + b)[1..] == x[1..] + b;
      IdentRunAppend(x[1..], b);
    }
  }

  lemma TagLenAppend(x: string, b: string)
    requires x != "" && x[0] == '$'
    requires TagLen(x) > 0 || 1 + IdentRun(x[1..]) < |x|
    ensures TagLen(x + b) == TagLen(x)
  {
    if |x| >= 2 && x[1] != '$' {
      assert (x + b)[1..] == x[1..] + b;
      IdentRunAppend(x[1..], b);
    }
  }

  lemma StepLocal(m: Mode, x: string, b: string)
    requires x != "" && Local(m, x)
    ensures Step(m, x + b) == Step(m, x)
  {
    if m.Code? && x[0] == '$' {
      TagLenAppend(x, b);
      assert (x + b)[..TagLen(x)] == x[..TagLen(x)];
    }
  }

  /** Text whose look-ahead stays inside it lexes the same before anything. */
  lemma {:induction false} LexAppend(m: Mode, a: string, b: string)
    requires Clean(m, a)
    ensures Lex(m, a + b) == Lex(m, a) + Lex(End(m, a), b)
    decreases |a|
  {
    if a == "" {
      assert a + b == b;
    } else {
      var v, rest := FirstStep(m, a, b);
      LexAppend(v.to, rest, b);
      SeqAssoc([Lexeme(m, a[..v.len])], Lex(v.to, rest), Lex(End(v.to, rest), b));
    }
  }

  lemma {:induction false} EndAppend(m: Mode, a: string, b: string)
    requires Clean(m, a)
    ensures End(m, a + b) == End(End(m, a), b)
    decreases |a|
  {
    if a == "" {
      assert a + b == b;
    } else {
      var v, rest := FirstStep(m, a, b);
      EndAppend(v.to, rest, b);
    }
  }

  lemma SeqAssoc<T>(a: seq<T>, b: seq<T>, c: seq<T>)
    ensures a + (b + c) == (a + b) + c
  {
  }

  lemma FirstStep(m: Mode, a: string, b: string) returns (v: Move, rest: string)
    requires a != "" && Clean(m, a)
    ensures v.len <= |a| && v == Step(m, a) && rest == a[v.len..] && |rest| < |a|
    ensures Clean(v.to, rest)
    ensures End(m, a) == End(v.to, rest) && End(m, a + b) == End(v.to, rest + b)
    ensures Lex(m, a) == [Lexeme(m, a[..v.len])] + Lex(v.to, rest)
    ensures Lex(m, a + b) == [Lexeme(m, a[..v.len])] + Lex(v.to, rest + b)
  {
    v := Step(m, a);
    rest := a[v.len..];
    StepLocal(m, a, b);
    assert (a + b)[v.len..] == rest + b;
    assert (a + b)[..v.len] == a[..v.len];
  }

  lemma {:induction false} CleanAppend(m: Mode, a: string, b: string)
    requires Clean(m, a) && Clean(End(m, a), b)
    ensures Clean(m, a + b)
    decreases |a|
  {
    if a == "" {
      assert a + b == b;
    } else {
      var v := Step(m, a);
      StepLocal(m, a, b);
      LocalAppend(m, a, b);
      assert (a + b)[v.len..] == a[v.len..] + b;
      CleanAppend(v.to, a[v.len..], b);
    }
  }

  lemma LocalAppend(m: Mode, x: string, b: string)
    requires x != "" && Local(m, x)
    ensures Local(m, x + b)
  {
    if m.Code? && x[0] == '$' {
      TagLenAppend(x, b);
      if TagLen(x) == 0 {
        assert (x + b)[1..] == x[1..] + b;
        IdentRunAppend(x[1..], b);
      }
    }
  }

  predicate EndsInSemicolon(a: string) {
    a != "" && a[|a| - 1] == ';'
  }

  /** No look-ahead crosses a semicolon. */
  lemma {:induction false} SemicolonIsClean(m: Mode, a: string)
    requires EndsInSemicolon(a)
    ensures Clean(m, a)
    decreases |a|
  {
    if m.Code? && a[0] == '$' && TagLen(a) == 0 {
      assert a[1..][|a| - 2] == ';';
    }
    if m.Dollar? && a <= m.tag {
      assert m.tag[|a| - 1] == ';';
    }
    assert Local(m, a);
    var v := Step(m, a);
    if v.len < |a| {
      SemicolonIsClean(v.to, a[v.len..]);
    }
  }

  // ---------------------------------------------------------------------
  // The state the loops keep
  // ---------------------------------------------------------------------

  datatype ScanState = InCode | InLine | InBlock | InSQuote | InDQuote
  datatype OptTag = NoTag | Tag(text: string)

  /** The values that `state`, `blockDepth` and `dollarTag` take together. */
  predicate ValidScan(state: ScanState, depth: nat, tag: OptTag) {
    && (tag.Tag? ==> state == InCode && IsTag(tag.text))
    && (state == InBlock ==> depth >= 1)
  }

  /** The mode that those loop variables stand for. */
  function ModeOf(state: ScanState, depth: nat, tag: OptTag): Mode
    requires ValidScan(state, depth, tag)
  {
    if tag.Tag? then Dollar(tag.text) else
    match state
    case InCode => Code
    case InLine => Line
    case InBlock => Block(depth)
    case InSQuote => SQuote
    case InDQuote => DQuote
  }

  /** The characters at `i` and `i + 1` are `c` and `d`. */
  predicate IsPair(content: string, i: nat, c: char, d: char)
    requires i < |content|
  {
    i + 1 < |content| && content[i] == c && content[i + 1] == d
  }

  /** `cur` with the `k` characters at `i` appended. */
  function Take(cur: string, content: string, i: nat, k: nat): string
    requires i + k <= |content|
  {
    cur + content[i..i + k]
  }

  /** The step that the loop takes at `i`. */
  function StepAt(state: ScanState, depth: nat, tag: OptTag, content: string, i: nat): (v: Move)
    requires ValidScan(state, depth, tag) && i < |content|
    ensures 1 <= v.len && i + v.len <= |content|
  {
    Step(ModeOf(state, depth, tag), content[i..])
  }

  /** How one iteration at `i` changes the state, and how far it moves. */
  method Advance(content: string, i: nat, state: ScanState, blockDepth: nat, dollarTag: OptTag)
    returns (state': ScanState, blockDepth': nat, dollarTag': OptTag, width: nat)
    requires i < |content|
    requires ValidScan(state, blockDepth, dollarTag)
    ensures ValidScan(state', blockDepth', dollarTag')
    ensures var v := StepAt(state, blockDepth, dollarTag, content, i);
            width == v.len && ModeOf(state', blockDepth', dollarTag') == v.to
  {
    state', blockDepth', dollarTag', width := state, blockDepth, dollarTag, 1;
    var ch := content[i];
    if dollarTag != NoTag {
      if dollarTag.text <= content[i..] {
        width := |dollarTag.text|;
        dollarTag' := NoTag;
      }
    } else if state == InCode {
      if IsPair(content, i, '-', '-') {
        state' := InLine;
        width := 2;
      } else if IsPair(content, i, '/', '*') {
        state' := InBlock;
        blockDepth' := 1;
        width := 2;
      } else if ch == '\'' {
        state' := InSQuote;
      } else if ch == '"' {
        state' := InDQuote;
      } else if ch == '$' {
        var k := TagLen(content[i..]);
        if k > 0 {
          dollarTag' := Tag(content[i..][..k]);
          width := k;
        }
      }
    } else if state == InLine {
      if ch == '\n' {
        state' := InCode;
      }
    } else if state == InBlock {
      if IsPair(content, i, '/', '*') {
        blockDepth' := blockDepth + 1;
        width := 2;
      } else if IsPair(content, i, '*', '/') {
        blockDepth' := blockDepth - 1;
        width := 2;
        if blockDepth' == 0 {
          state' := InCode;
        }
      }
    } else if state == InSQuote {
      if IsPair(content, i, '\'', '\'') {
        width := 2;
      } else if ch == '\'' {
        state' := InCode;
      }
    } else if IsPair(content, i, '"', '"') {
      width := 2;
    } else if ch == '"' {
      state' := InCode;
    }
  }

  lemma TextAt(content: string, i: nat, width: nat)
    requires i + width <= |content|
    ensures content[i..][..width] == content[i..i + width]
    ensures content[i..][width..] == content[i + width..]
  {
  }
}
