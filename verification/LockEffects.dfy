/** What the server does to its own lock_timeout when it runs a statement. */
module LockEffects {
  import opened Options
  import opened Text
  import opened SqlLexer
  import opened StatementSplitter
  import opened LockDirective
  import opened Sanitizer
  import opened SanitizeMeaning

  /** The effect of one statement on lock_timeout; `May` is a DO block that can set it. */
  datatype LockEffect = Leaves | Sets(value: string, local: bool) | Resets | May

  // ---------------------------------------------------------------------
  // The words of a statement
  // ---------------------------------------------------------------------

  predicate IsServerSpace(c: char) { '\t' <= c <= '\r' || c == ' ' }

  predicate IsNamePart(c: char) { IsIdentPart(c) || c == '$' || c >= '\U{80}' }

  /**
   * A lexeme as the server's parser meets it: a comment is white space. With
   * `masked`, what stands in strings and dollar bodies does not count.
   */
  function Seen(l: Lexeme, masked: bool): string {
    match l.mode
    case Code => if l.text == "--" || l.text == "/*" then "" else l.text
    case Line => " "
    case Block(_) => " "
    case SQuote => if masked then "'" else l.text
    case DQuote => l.text
    case Dollar(_) => if masked then "'" else l.text
  }

  function SeenText(ls: seq<Lexeme>, masked: bool): string {
    if ls == [] then "" else Seen(ls[0], masked) + SeenText(ls[1..], masked)
  }

  /** What the strings and dollar bodies of a statement hold. */
  function Inner(l: Lexeme): string {
    match l.mode
    case SQuote => if l.text == "'" then " " else if l.text == "''" then "'" else l.text
    case Dollar(tag) => if l.text == tag then " " else l.text
    case _ => ""
  }

  function InnerText(ls: seq<Lexeme>): string {
    if ls == [] then "" else Inner(ls[0]) + InnerText(ls[1..])
  }

  function Skip(s: string): string {
    if s != "" && IsServerSpace(s[0]) then Skip(s[1..]) else s
  }

  /** What follows the word that starts `s`, if it is this one, in any case. */
  function AfterWord(s: string, word: string): Option<string> {
    if WordAt(s, 0, word) && (|s| == |word| || !IsNamePart(s[|word|])) then Some(Skip(s[|word|..])) else None
  }

  /** What follows the name lock_timeout, quoted or not. */
  function AfterName(s: string): Option<string> {
    if WordAt(s, 0, "\"lock_timeout\"") then Some(Skip(s[14..])) else AfterWord(s, "lock_timeout")
  }

  function AfterTo(s: string): Option<string> {
    if s != "" && s[0] == '=' then Some(Skip(s[1..])) else AfterWord(s, "to")
  }

  function AfterScope(s: string): string {
    if AfterWord(s, "session").Some? then AfterWord(s, "session").value
    else if AfterWord(s, "local").Some? then AfterWord(s, "local").value
    else s
  }

  /** The value stated, without the semicolon that ends the statement. */
  function Stated(s: string): string { if EndsInSemicolon(s) then s[..|s| - 1] else s }

  /** `[SESSION|LOCAL] lock_timeout (=|TO) value`, after SET. */
  function Assigned(s: string): LockEffect {
    var name := AfterName(AfterScope(s));
    var to := if name.Some? then AfterTo(name.value) else None;
    if to.Some? then Sets(Stated(to.value), AfterWord(s, "local").Some?) else Leaves
  }

  /** RESET of lock_timeout or of everything, and DISCARD ALL. */
  predicate IsReset(s: string) {
    var reset, discard := AfterWord(s, "reset"), AfterWord(s, "discard");
    || (reset.Some? && (AfterName(reset.value).Some? || AfterWord(reset.value, "all").Some?))
    || (discard.Some? && AfterWord(discard.value, "all").Some?)
  }

  /** What the command that starts `s` does. */
  function SettingAt(s: string): LockEffect {
    if AfterWord(s, "set").Some? then Assigned(AfterWord(s, "set").value)
    else if IsReset(s) then Resets
    else Leaves
  }

  /** Somewhere in the text stand the words of a command that sets lock_timeout. */
  predicate HoldsSetting(s: string) { exists i :: 0 <= i <= |s| && SettingFrom(s, i) }

  predicate SettingFrom(s: string, i: nat)
    requires i <= |s|
  {
    (i == 0 || !IsNamePart(s[i - 1])) && !SettingAt(s[i..]).Leaves?
  }

  // ---------------------------------------------------------------------
  // Statements and texts
  // ---------------------------------------------------------------------

  /** The body of a DO block holds such a command, outside its own strings and comments. */
  predicate BodySets(ls: seq<Lexeme>) { HoldsSetting(SeenText(Lex(Code, InnerText(ls)), true)) }

  /** A statement without its lead: SET and RESET take effect, a DO block runs its body. */
  function CoreEffect(core: string): LockEffect {
    var ls := Lex(Code, core);
    var seen := Skip(SeenText(ls, false));
    if AfterWord(seen, "do").Some? then (if BodySets(ls) then May else Leaves) else SettingAt(seen)
  }

  function LockEffectOf(statement: string): LockEffect { CoreEffect(Core(statement)) }

  function LockEffectsOf(text: string): (es: seq<LockEffect>)
    ensures |es| == |Split(text)| && forall i :: 0 <= i < |es| ==> es[i] == LockEffectOf(Split(text)[i])
  {
    seq(|Split(text)|, i requires 0 <= i < |Split(text)| => LockEffectOf(Split(text)[i]))
  }

  /** The effect reaches lock_timeout; SET LOCAL does only inside a transaction. */
  predicate Touches(e: LockEffect, locals: bool) {
    e.Resets? || e.May? || (e.Sets? && (e.local ==> locals))
  }

  /** No statement of the text reaches lock_timeout. */
  predicate Quiet(text: string, locals: bool) {
    forall i :: 0 <= i < |Split(text)| ==> !Touches(LockEffectOf(Split(text)[i]), locals)
  }

  /** A statement that the splitter emits is quiet exactly if its one effect does not reach it. */
  lemma StatementIsQuietIff(s: string, st: string, locals: bool)
    requires st in Split(s)
    ensures Quiet(st, locals) <==> !Touches(LockEffectOf(st), locals)
  {
    hide LockEffectOf, Split;
    SelfDelimiting(s, st);
    assert Split(st)[0] == st;
  }

  /** Sent whole or statement by statement, a text is as quiet. */
  lemma QuietIffStatements(s: string, locals: bool)
    ensures Quiet(s, locals) <==> forall st :: st in Split(s) ==> Quiet(st, locals)
  {
    hide LockEffectOf, Split;
    forall st | st in Split(s) ensures Quiet(st, locals) <==> !Touches(LockEffectOf(st), locals) {
      StatementIsQuietIff(s, st, locals);
    }
    forall i | 0 <= i < |Split(s)| ensures Split(s)[i] in Split(s) {}
  }

  // ---------------------------------------------------------------------
  // Sanitized texts
  // ---------------------------------------------------------------------

  predicate QuietCores(cs: seq<string>, locals: bool) {
    forall c :: c in cs ==> !Touches(CoreEffect(c), locals)
  }

  lemma {:induction false} CoresAt(ss: seq<string>)
    ensures |Cores(ss)| == |ss| && forall i :: 0 <= i < |ss| ==> Cores(ss)[i] == Core(ss[i])
  {
    hide Core;
    if ss != [] {
      CoresAt(ss[1..]);
    }
  }

  lemma QuietIffCores(text: string, locals: bool)
    ensures Quiet(text, locals) <==> QuietCores(Cores(Split(text)), locals)
  {
    hide Core, Split, CoreEffect, Cores;
    var ss := Split(text);
    var cs := Cores(ss);
    CoresAt(ss);
    if Quiet(text, locals) {
      forall c | c in cs ensures !Touches(CoreEffect(c), locals) {
        var i :| 0 <= i < |cs| && cs[i] == c;
        assert !Touches(LockEffectOf(ss[i]), locals);
      }
    }
    if QuietCores(cs, locals) {
      forall i | 0 <= i < |ss| ensures !Touches(LockEffectOf(ss[i]), locals) {
        assert cs[i] in cs;
      }
    }
  }

  lemma {:induction false} OrdinaryIff(cs: seq<string>, c: string)
    ensures c in Ordinary(cs) <==> c in cs && DirectiveLen(c) == 0
  {
    hide DirectiveLen;
    if cs != [] {
      OrdinaryIff(cs[1..], c);
    }
  }

  /** Every statement is a directive that the sanitizer removes, or does not reach lock_timeout. */
  predicate QuietBesides(s: string, locals: bool) {
    forall i :: 0 <= i < |Split(s)| ==> SparesLock(Split(s)[i], locals)
  }

  predicate SparesLock(st: string, locals: bool) {
    DirectiveLen(Core(st)) > 0 || !Touches(LockEffectOf(st), locals)
  }

  /** What is left of the body is quiet exactly if, but for the directives, the body was. */
  lemma SanitizedIsQuietIff(s: string, locals: bool)
    requires Disciplined(Code, false, s, true)
    ensures Quiet(Sanitize(s), locals) <==> QuietBesides(s, locals)
  {
    hide Core, Split, CoreEffect, Cores, Ordinary, Sanitize, Quiet, DirectiveLen, Disciplined;
    SanitizePreservesMeaning(s);
    QuietIffCores(Sanitize(s), locals);
    var ss := Split(s);
    var cs := Cores(ss);
    CoresAt(ss);
    forall c ensures c in Ordinary(cs) <==> c in cs && DirectiveLen(c) == 0 {
      OrdinaryIff(cs, c);
    }
    if QuietBesides(s, locals) {
      forall c | c in Ordinary(cs) ensures !Touches(CoreEffect(c), locals) {
        var i :| 0 <= i < |cs| && cs[i] == c;
        assert SparesLock(ss[i], locals);
      }
    }
    if QuietCores(Ordinary(cs), locals) {
      forall i | 0 <= i < |ss| ensures SparesLock(ss[i], locals) {
        assert cs[i] in cs;
      }
    }
  }
}
