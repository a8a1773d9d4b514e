/**
 * A grammar of SQL text, its printer, and the proof that the splitter reads
 * back exactly the statements that were printed.
 */
module PrintScan {
  import opened Text
  import opened SqlLexer
  import opened StatementSplitter

  /** The inside of a block comment: characters and nested comments. */
  datatype Comment =
    | Blank
    | Mark(c: char, rest: Comment)
    | Nest(inner: Comment, rest: Comment)

  datatype Piece =
    | Ch(c: char)
    | Str(body: string)
    | Ident(body: string)
    | DollarBody(name: string, body: string)
    | LineComment(body: string)
    | BlockComment(k: Comment)

  function PrintComment(k: Comment): string {
    match k
    case Blank => ""
    case Mark(c, rest) => [c] + PrintComment(rest)
    case Nest(inner, rest) => "/*" + (PrintComment(inner) + ("*/" + PrintComment(rest)))
  }

  /** `body` with every `q` doubled. */
  function Escape(body: string, q: char): string {
    if body == "" then ""
    else (if body[0] == q then [q, q] else [body[0]]) + Escape(body[1..], q)
  }

  function TagOf(name: string): string { "$" + name + "$" }

  function Print(p: Piece): (s: string)
    ensures s != ""
  {
    match p
    case Ch(c) => [c]
    case Str(body) => "'" + (Escape(body, '\'') + "'")
    case Ident(body) => "\"" + (Escape(body, '"') + "\"")
    case DollarBody(name, body) => TagOf(name) + (body + TagOf(name))
    case LineComment(body) => "--" + (body + "\n")
    case BlockComment(k) => "/*" + (PrintComment(k) + "*/")
  }

  function PrintAll(ps: seq<Piece>): string {
    if ps == [] then "" else Print(ps[0]) + PrintAll(ps[1..])
  }

  /** Neither a comment opener nor a closer arises by accident inside `k`. */
  predicate WellNested(k: Comment) {
    match k
    case Blank => true
    case Mark(c, rest) =>
      var t := [c] + (PrintComment(rest) + "*/");
      !Starts(t, '/', '*') && !Starts(t, '*', '/') && WellNested(rest)
    case Nest(inner, rest) => WellNested(inner) && WellNested(rest)
  }

  predicate IsTagName(name: string) {
    && (name != "" ==> IsIdentStart(name[0]))
    && forall i :: 0 <= i < |name| ==> IsIdentPart(name[i])
  }

  /** A letter or an underscore, then letters, digits and underscores; or nothing. */
  predicate NamesTag(name: string) {
    && (name != "" ==> !('0' <= name[0] <= '9'))
    && forall c :: c in name ==> 'a' <= c <= 'z' || 'A' <= c <= 'Z' || '0' <= c <= '9' || c == '_'
  }

  lemma TagNameIff(name: string)
    ensures IsTagName(name) <==> NamesTag(name)
  {
    if NamesTag(name) {
      assert forall i :: 0 <= i < |name| ==> name[i] in name;
    }
  }

  /** A dollar quote opens exactly where a dollar, such a name and another dollar stand. */
  lemma TagLenIff(s: string, n: nat)
    ensures TagLen(s) == n > 0 <==> exists name, rest :: NamesTag(name) && s == TagOf(name) + rest && n == |TagOf(name)|
  {
    if TagLen(s) == n > 0 {
      var name := s[1..n - 1];
      assert s == TagOf(name) + s[n..];
      TagNameIff(name);
    }
    forall name, rest | NamesTag(name) && s == TagOf(name) + rest && n == |TagOf(name)| ensures TagLen(s) == n {
      TagNameIff(name);
      TagLenOfName(name, rest);
    }
  }

  /** `p` is well formed and does not fuse with the text that follows it. */
  predicate Fits(p: Piece, after: string) {
    match p
    case Ch(c) =>
      && c !in "'\";"
      && !Starts([c] + after, '-', '-') && !Starts([c] + after, '/', '*')
      && TagLen([c] + after) == 0
    case Str(_) => after != "" ==> after[0] != '\''
    case Ident(_) => after != "" ==> after[0] != '"'
    case DollarBody(name, body) =>
      IsTagName(name) && TagFree(TagOf(name), body)
    case LineComment(body) => '\n' !in body
    case BlockComment(k) => WellNested(k)
  }

  predicate WellPrinted(ps: seq<Piece>, after: string) {
    ps == [] || (Fits(ps[0], PrintAll(ps[1..]) + after) && WellPrinted(ps[1..], after))
  }

  predicate IsCodePiece(p: Piece) {
    match p
    case Ch(c) => !IsSpace(c)
    case LineComment(_) => false
    case BlockComment(_) => false
    case _ => true
  }

  predicate HoldsCode(ps: seq<Piece>) { exists p :: p in ps && IsCodePiece(p) }

  // ---------------------------------------------------------------------
  // Reading one piece back
  // ---------------------------------------------------------------------

  predicate AllIn(ls: seq<Lexeme>, m: Mode) { forall l :: l in ls ==> l.mode == m }

  predicate AllBlock(ls: seq<Lexeme>) { forall l :: l in ls ==> l.mode.Block? }

  /** Scanning `s` from `m` reads `ls` and then `after` from `to`. */
  predicate Reads(m: Mode, s: string, ls: seq<Lexeme>, to: Mode, after: string) {
    && Lex(m, s) == ls + Lex(to, after)
    && End(m, s) == End(to, after)
    && TextOf(ls) + after == s
  }

  lemma ReadOne(m: Mode, s: string)
    requires s != ""
    ensures var v := Step(m, s); Reads(m, s, [Lexeme(m, s[..v.len])], v.to, s[v.len..])
  {
    UnfoldLex(m, s);
    var l := Lexeme(m, s[..Step(m, s).len]);
    assert [l][1..] == [];
    assert l.text + "" == l.text;
  }

  lemma ReadTwo(m: Mode, s: string, a: seq<Lexeme>, m1: Mode, s1: string, b: seq<Lexeme>, m2: Mode, s2: string)
    requires Reads(m, s, a, m1, s1) && Reads(m1, s1, b, m2, s2)
    ensures Reads(m, s, a + b, m2, s2)
  {
    hide Lex, End, TextOf;
    SeqAssoc(a, b, Lex(m2, s2));
    TextOfAppend(a, b);
    SeqAssoc(TextOf(a), TextOf(b), s2);
  }

  /** One step over `head`, and then the rest. */
  lemma StepReads(m: Mode, head: string, m1: Mode, tail: string, rest: seq<Lexeme>, to: Mode, after: string)
    returns (ls: seq<Lexeme>)
    requires head != "" && Step(m, head + tail) == Move(m1, |head|)
    requires Reads(m1, tail, rest, to, after)
    ensures ls == [Lexeme(m, head)] + rest
    ensures Reads(m, head + tail, ls, to, after)
  {
    hide Lex, End, TextOf, Reads, Step;
    var s := head + tail;
    ReadOne(m, s);
    assert s[..|head|] == head && s[|head|..] == tail;
    ReadTwo(m, s, [Lexeme(m, head)], m1, tail, rest, to, after);
    ls := [Lexeme(m, head)] + rest;
  }

  lemma ReadNothing(m: Mode, after: string)
    ensures Reads(m, after, [], m, after)
  {
    assert [] + Lex(m, after) == Lex(m, after) && "" + after == after;
  }

  function QuoteChar(m: Mode): char { if m.SQuote? then '\'' else '"' }

  lemma {:induction false} QuotedReads(m: Mode, body: string, after: string) returns (ls: seq<Lexeme>)
    requires m.SQuote? || m.DQuote?
    requires after != "" ==> after[0] != QuoteChar(m)
    ensures Reads(m, Escape(body, QuoteChar(m)) + ([QuoteChar(m)] + after), ls, Code, after)
    ensures AllIn(ls, m)
  {
    hide Lex, End, TextOf, Reads;
    var q := QuoteChar(m);
    var s := Escape(body, q) + ([q] + after);
    if body == "" {
      ReadNothing(Code, after);
      ls := StepReads(m, [q], Code, after, [], Code, after);
      assert s == [q] + after;
    } else {
      var tail := Escape(body[1..], q) + ([q] + after);
      var head := if body[0] == q then [q, q] else [body[0]];
      var rest := QuotedReads(m, body[1..], after);
      ls := StepReads(m, head, m, tail, rest, Code, after);
      assert s == head + tail;
    }
  }

  lemma {:induction false} LineReads(body: string, after: string) returns (ls: seq<Lexeme>)
    requires '\n' !in body
    ensures Reads(Line, body + ("\n" + after), ls, Code, after)
    ensures AllIn(ls, Line)
  {
    hide Lex, End, TextOf, Reads;
    var s := body + ("\n" + after);
    if body == "" {
      ReadNothing(Code, after);
      ls := StepReads(Line, "\n", Code, after, [], Code, after);
      assert s == "\n" + after;
    } else {
      var tail := body[1..] + ("\n" + after);
      var rest := LineReads(body[1..], after);
      ls := StepReads(Line, [body[0]], Line, tail, rest, Code, after);
      assert s == [body[0]] + tail;
    }
  }

  /** No occurrence of the tag starts inside `body`, even across its end. */
  predicate TagFree(tag: string, body: string) {
    forall k :: 0 <= k < |body| ==> !(tag <= (body + tag)[k..])
  }

  lemma TagFreeTail(tag: string, body: string, after: string)
    requires body != "" && TagFree(tag, body)
    ensures TagFree(tag, body[1..])
    ensures !(tag <= [body[0]] + (body[1..] + (tag + after)))
  {
    assert (body + tag)[0..] == body + tag;
    assert [body[0]] + (body[1..] + (tag + after)) == (body + tag) + after;
    assert ((body + tag) + after)[..|tag|] == (body + tag)[..|tag|];
    forall k | 0 <= k < |body[1..]| ensures !(tag <= (body[1..] + tag)[k..]) {
      assert (body[1..] + tag)[k..] == (body + tag)[k + 1..];
    }
  }

  lemma DollarStep(tag: string, s: string)
    requires IsTag(tag)
    ensures |tag| >= 2
    ensures s != "" ==> Step(Dollar(tag), s) == if tag <= s then Move(Code, |tag|) else Move(Dollar(tag), 1)
  {
  }

  lemma {:induction false} DollarReads(tag: string, body: string, after: string) returns (ls: seq<Lexeme>)
    requires IsTag(tag) && TagFree(tag, body)
    ensures Reads(Dollar(tag), body + (tag + after), ls, Code, after)
    ensures AllIn(ls, Dollar(tag))
  {
    hide Lex, End, TextOf, Reads, TagFree, IsTag, Step;
    var m: Mode := Dollar(tag);
    if body == "" {
      DollarStep(tag, tag + after);
      ReadNothing(Code, after);
      ls := StepReads(m, tag, Code, after, [], Code, after);
      assert body + (tag + after) == tag + after;
    } else {
      var tail := body[1..] + (tag + after);
      TagFreeTail(tag, body, after);
      DollarStep(tag, [body[0]] + tail);
      var rest := DollarReads(tag, body[1..], after);
      ls := StepReads(m, [body[0]], m, tail, rest, Code, after);
      assert body + (tag + after) == [body[0]] + tail;
    }
  }

  /** The mode that closing a block comment of depth `d` returns to. */
  function Outer(d: nat): Mode
    requires d >= 1
  {
    if d == 1 then Code else Block(d - 1)
  }

  lemma {:induction false} CommentReads(k: Comment, d: nat, after: string) returns (ls: seq<Lexeme>)
    requires d >= 1 && WellNested(k)
    ensures Reads(Block(d), PrintComment(k) + ("*/" + after), ls, Outer(d), after)
    ensures AllBlock(ls)
    decreases k
  {
    match k
    case Blank => ls := CloserReads(d, after);
    case Mark(c, rest) =>
      var ls' := CommentReads(rest, d, after);
      ls := MarkReads(c, rest, d, after, ls');
    case Nest(inner, rest) =>
      var tail := PrintComment(rest) + ("*/" + after);
      var ls1 := CommentReads(inner, d + 1, tail);
      var ls2 := CommentReads(rest, d, after);
      ls := NestReads(inner, rest, d, after, ls1, ls2);
  }

  lemma CloserReads(d: nat, after: string) returns (ls: seq<Lexeme>)
    requires d >= 1
    ensures Reads(Block(d), "" + ("*/" + after), ls, Outer(d), after)
    ensures AllBlock(ls)
  {
    hide Lex, End, TextOf, Reads;
    ReadNothing(Outer(d), after);
    ls := StepReads(Block(d), "*/", Outer(d), after, [], Outer(d), after);
    assert "" + ("*/" + after) == "*/" + after;
  }

  lemma MarkReads(c: char, rest: Comment, d: nat, after: string, ls': seq<Lexeme>) returns (ls: seq<Lexeme>)
    requires d >= 1 && WellNested(Mark(c, rest))
    requires Reads(Block(d), PrintComment(rest) + ("*/" + after), ls', Outer(d), after) && AllBlock(ls')
    ensures Reads(Block(d), ([c] + PrintComment(rest)) + ("*/" + after), ls, Outer(d), after)
    ensures AllBlock(ls)
  {
    hide Lex, End, TextOf, Reads;
    var tail := PrintComment(rest) + ("*/" + after);
    var t := [c] + (PrintComment(rest) + "*/");
    assert [c] + tail == t + after;
    assert ([c] + tail)[..2] == t[..2];
    ls := StepReads(Block(d), [c], Block(d), tail, ls', Outer(d), after);
    assert ([c] + PrintComment(rest)) + ("*/" + after) == [c] + tail;
  }

  lemma NestReads(inner: Comment, rest: Comment, d: nat, after: string, ls1: seq<Lexeme>, ls2: seq<Lexeme>)
    returns (ls: seq<Lexeme>)
    requires d >= 1
    requires var tail := PrintComment(rest) + ("*/" + after);
      && Reads(Block(d + 1), PrintComment(inner) + ("*/" + tail), ls1, Block(d), tail) && AllBlock(ls1)
      && Reads(Block(d), tail, ls2, Outer(d), after) && AllBlock(ls2)
    ensures Reads(Block(d), PrintComment(Nest(inner, rest)) + ("*/" + after), ls, Outer(d), after)
    ensures AllBlock(ls)
  {
    hide Lex, End, TextOf, Reads;
    var tail2 := PrintComment(rest) + ("*/" + after);
    var tail1 := PrintComment(inner) + ("*/" + tail2);
    ReadTwo(Block(d + 1), tail1, ls1, Block(d), tail2, ls2, Outer(d), after);
    ls := StepReads(Block(d), "/*", Block(d + 1), tail1, ls1 + ls2, Outer(d), after);
    assert PrintComment(Nest(inner, rest)) + ("*/" + after) == "/*" + tail1;
  }

  lemma TagLenOfName(name: string, after: string)
    requires IsTagName(name)
    ensures TagLen(TagOf(name) + after) == |TagOf(name)|
    ensures IsTag(TagOf(name))
  {
    var s := TagOf(name) + after;
    if name != "" {
      assert s[1..] == name + ("$" + after);
      RunOfName(name, "$" + after);
    }
  }

  lemma {:induction false} RunOfName(name: string, after: string)
    requires forall i :: 0 <= i < |name| ==> IsIdentPart(name[i])
    requires after != "" && !IsIdentPart(after[0])
    ensures IdentRun(name + after) == |name|
  {
    if name == "" {
      assert name + after == after;
    } else {
      assert (name + after)[1..] == name[1..] + after;
      RunOfName(name[1..], after);
    }
  }

  /** Lexemes of one mode are code, or comment, according to the mode. */
  lemma OpenedKind(open: string, rest: seq<Lexeme>, code: bool)
    requires open != "" && open != ";" && (open == "--" || open == "/*" <==> !code)
    requires |open| == 1 ==> !IsSpace(open[0])
    requires forall l :: l in rest ==> if code then !l.mode.Code? else l.mode.Line? || l.mode.Block?
    ensures var ls := [Lexeme(Code, open)] + rest; NoCut(ls) && (HasCode(ls) <==> code)
  {
    var ls := [Lexeme(Code, open)] + rest;
    assert IsCode(ls[0]) <==> code;
    forall i | 0 <= i < |ls| ensures !IsCut(ls[i]) && (!code ==> !IsCode(ls[i])) {
      if i > 0 {
        assert ls[i] == rest[i - 1] && ls[i] in rest;
      }
    }
  }

  lemma ChReads(c: char, after: string) returns (ls: seq<Lexeme>)
    requires Fits(Ch(c), after)
    ensures Reads(Code, [c] + after, ls, Code, after)
    ensures NoCut(ls) && (HasCode(ls) <==> !IsSpace(c))
  {
    var s := [c] + after;
    ReadOne(Code, s);
    assert s[1..] == after && s[..1] == [c];
    ls := [Lexeme(Code, [c])];
    assert IsCode(ls[0]) <==> !IsSpace(c);
  }

  lemma DollarPieceReads(name: string, body: string, after: string) returns (ls: seq<Lexeme>)
    requires Fits(DollarBody(name, body), after)
    ensures Reads(Code, TagOf(name) + (body + (TagOf(name) + after)), ls, Code, after)
    ensures NoCut(ls) && HasCode(ls)
  {
    hide Lex, End, TextOf, Reads;
    var tag := TagOf(name);
    var tail := body + (tag + after);
    TagLenOfName(name, tail);
    assert (tag + tail)[..|tag|] == tag;
    var rest := DollarReads(tag, body, after);
    ls := StepReads(Code, tag, Dollar(tag), tail, rest, Code, after);
    OpenedKind(tag, rest, true);
  }

  lemma LinePieceReads(body: string, after: string) returns (ls: seq<Lexeme>)
    requires '\n' !in body
    ensures Reads(Code, "--" + (body + ("\n" + after)), ls, Code, after)
    ensures NoCut(ls) && !HasCode(ls)
  {
    hide Lex, End, TextOf, Reads;
    var rest := LineReads(body, after);
    ls := StepReads(Code, "--", Line, body + ("\n" + after), rest, Code, after);
    OpenedKind("--", rest, false);
  }

  lemma BlockPieceReads(k: Comment, after: string) returns (ls: seq<Lexeme>)
    requires WellNested(k)
    ensures Reads(Code, "/*" + (PrintComment(k) + ("*/" + after)), ls, Code, after)
    ensures NoCut(ls) && !HasCode(ls)
  {
    hide Lex, End, TextOf, Reads;
    var rest := CommentReads(k, 1, after);
    ls := StepReads(Code, "/*", Block(1), PrintComment(k) + ("*/" + after), rest, Code, after);
    OpenedKind("/*", rest, false);
  }

  lemma QuotedPieceReads(m: Mode, body: string, after: string) returns (ls: seq<Lexeme>)
    requires m.SQuote? || m.DQuote?
    requires after != "" ==> after[0] != QuoteChar(m)
    ensures var q := [QuoteChar(m)]; Reads(Code, q + (Escape(body, QuoteChar(m)) + (q + after)), ls, Code, after)
    ensures NoCut(ls) && HasCode(ls)
  {
    hide Lex, End, TextOf, Reads;
    var q := [QuoteChar(m)];
    var rest := QuotedReads(m, body, after);
    ls := StepReads(Code, q, m, Escape(body, QuoteChar(m)) + (q + after), rest, Code, after);
    OpenedKind(q, rest, true);
  }

  lemma Regroup(a: string, b: string, c: string, d: string)
    ensures (a + (b + c)) + d == a + (b + (c + d))
  {
  }

  /** A printed piece is read back as lexemes of its own kind. */
  lemma PieceReads(p: Piece, after: string) returns (ls: seq<Lexeme>)
    requires Fits(p, after)
    ensures Reads(Code, Print(p) + after, ls, Code, after)
    ensures NoCut(ls) && (HasCode(ls) <==> IsCodePiece(p))
  {
    hide Lex, End, TextOf, Reads, NoCut, HasCode, Step, PrintComment, WellNested, TagOf, Escape, Starts, TagLen;
    match p
    case Ch(c) =>
      ls := ChReads(c, after);
    case Str(body) =>
      Regroup("'", Escape(body, '\''), "'", after);
      ls := QuotedPieceReads(SQuote, body, after);
    case Ident(body) =>
      Regroup("\"", Escape(body, '"'), "\"", after);
      ls := QuotedPieceReads(DQuote, body, after);
    case DollarBody(name, body) =>
      Regroup(TagOf(name), body, TagOf(name), after);
      ls := DollarPieceReads(name, body, after);
    case LineComment(body) =>
      Regroup("--", body, "\n", after);
      ls := LinePieceReads(body, after);
    case BlockComment(k) =>
      Regroup("/*", PrintComment(k), "*/", after);
      ls := BlockPieceReads(k, after);
  }

  /** A printed run of pieces is read back without a cut. */
  lemma {:induction false} PiecesRead(ps: seq<Piece>, after: string) returns (ls: seq<Lexeme>)
    requires WellPrinted(ps, after)
    ensures Reads(Code, PrintAll(ps) + after, ls, Code, after)
    ensures NoCut(ls) && (HasCode(ls) <==> HoldsCode(ps))
  {
    if ps == [] {
      ls := [];
      ReadNothing(Code, after);
      assert "" + after == after;
    } else {
      var tail := PrintAll(ps[1..]) + after;
      var a := PieceReads(ps[0], tail);
      var b := PiecesRead(ps[1..], after);
      PiecesReadStep(ps, after, a, b);
      ls := a + b;
    }
  }

  lemma PiecesReadStep(ps: seq<Piece>, after: string, a: seq<Lexeme>, b: seq<Lexeme>)
    requires ps != []
    requires var tail := PrintAll(ps[1..]) + after;
      && Reads(Code, Print(ps[0]) + tail, a, Code, tail) && NoCut(a) && (HasCode(a) <==> IsCodePiece(ps[0]))
      && Reads(Code, tail, b, Code, after) && NoCut(b) && (HasCode(b) <==> HoldsCode(ps[1..]))
    ensures Reads(Code, PrintAll(ps) + after, a + b, Code, after)
    ensures NoCut(a + b) && (HasCode(a + b) <==> HoldsCode(ps))
  {
    hide Lex, End, TextOf, Reads, Print, IsCode, IsCut, IsCodePiece;
    var tail := PrintAll(ps[1..]) + after;
    SeqAssoc(Print(ps[0]), PrintAll(ps[1..]), after);
    ReadTwo(Code, Print(ps[0]) + tail, a, Code, tail, b, Code, after);
    HasCodeAppend(a, b);
    assert ps == [ps[0]] + ps[1..];
  }

  lemma HasCodeAppend(a: seq<Lexeme>, b: seq<Lexeme>)
    ensures HasCode(a + b) <==> HasCode(a) || HasCode(b)
  {
    hide IsCode;
    if HasCode(a) {
      var i :| 0 <= i < |a| && IsCode(a[i]);
      assert (a + b)[i] == a[i];
    }
    if HasCode(b) {
      var i :| 0 <= i < |b| && IsCode(b[i]);
      assert (a + b)[|a| + i] == b[i];
    }
  }

  // ---------------------------------------------------------------------
  // Scripts
  // ---------------------------------------------------------------------

  function PrintStatement(ps: seq<Piece>): string { PrintAll(ps) + ";" }

  /** Terminated statements, then a last one without its semicolon. */
  function PrintScript(stmts: seq<seq<Piece>>, last: seq<Piece>): string {
    if stmts == [] then PrintAll(last)
    else PrintStatement(stmts[0]) + PrintScript(stmts[1..], last)
  }

  /** The printed statements, without those that hold no code. */
  function Expected(stmts: seq<seq<Piece>>, last: seq<Piece>): seq<string> {
    if stmts == [] then if HoldsCode(last) then [PrintAll(last)] else []
    else (if HoldsCode(stmts[0]) then [PrintStatement(stmts[0])] else []) + Expected(stmts[1..], last)
  }

  lemma StatementSplits(ps: seq<Piece>)
    requires WellPrinted(ps, ";")
    ensures StopsAtCut(PrintStatement(ps))
    ensures Split(PrintStatement(ps)) == if HoldsCode(ps) then [PrintStatement(ps)] else []
  {
    var a := PrintStatement(ps);
    var ls := PiecesRead(ps, ";");
    var cut := Lexeme(Code, ";");
    assert Lex(Code, ";") == [cut] && End(Code, ";") == Code by {
      UnfoldLex(Code, ";");
      assert Lex(Code, "") == [];
      assert ";"[..1] == ";";
    }
    LexLossless(Code, a);
    HasCodeAppend(ls, [cut]);
    SplitClosedFragment(a, ls, cut);
  }

  lemma SplitClosedFragment(a: string, ls: seq<Lexeme>, cut: Lexeme)
    requires Lex(Code, a) == ls + [cut] && NoCut(ls) && IsCut(cut) && TextOf(ls + [cut]) == a
    requires StopsAtCut(a)
    ensures Split(a) == if HasCode(ls + [cut]) then [a] else []
  {
    var f := ls + [cut];
    assert f[..|f| - 1] == ls;
    SplitFragment(f);
  }

  lemma LastSplits(ps: seq<Piece>)
    requires WellPrinted(ps, "")
    ensures Split(PrintAll(ps)) == if HoldsCode(ps) then [PrintAll(ps)] else []
  {
    var a := PrintAll(ps);
    var ls := PiecesRead(ps, "");
    assert a + "" == a;
    assert Lex(Code, "") == [];
    assert ls + [] == ls && TextOf(ls) + "" == TextOf(ls);
    SplitFragment(ls);
  }

  /** The splitter returns exactly the printed statements, in order. */
  lemma {:induction false} PrintScanRoundTrip(stmts: seq<seq<Piece>>, last: seq<Piece>)
    requires forall i :: 0 <= i < |stmts| ==> WellPrinted(stmts[i], ";")
    requires WellPrinted(last, "")
    ensures Split(PrintScript(stmts, last)) == Expected(stmts, last)
  {
    if stmts == [] {
      LastSplits(last);
    } else {
      StatementSplits(stmts[0]);
      SplitAppend(PrintStatement(stmts[0]), PrintScript(stmts[1..], last));
      PrintScanRoundTrip(stmts[1..], last);
    }
  }
}
