/** Whether the runner's lock bound stays in force while a body runs. */
module BodyBound {
  import opened Options
  import opened StatementSplitter
  import opened LockEffects
  import opened PgSession
  import opened MigrationRunner

  /** What the runner sends for a body: the whole text, or one statement after another. */
  function TextsOf(body: string, transactional: bool): seq<string> {
    if transactional then [body] else Split(body)
  }

  /** From `s` to `after`, the texts were sent one after another, and each took effect. */
  predicate IsDoneRun(log: seq<Exchange>, texts: seq<string>, s: State, after: State)
    decreases |texts|
  {
    if texts == [] then log == [] && after == s
    else
      && log != []
      && var e := log[0];
         && e.cmd == Sql(texts[0]) && e.before == s && e.reply.Done? && Legal(s, e.cmd, e.reply)
         && IsDoneRun(log[1..], texts[1..], Next(s, e.cmd, e.reply), after)
  }

  /** The runner's own bound was in force before every exchange, and is after the last. */
  predicate Bounded(log: seq<Exchange>, after: State, ms: int) {
    HasBound(after, ms) && forall i :: 0 <= i < |log| ==> HasBound(log[i].before, ms)
  }

  /** However the server answers, as long as the body goes through. */
  ghost predicate AlwaysBounded(body: string, transactional: bool, s: State, ms: int) {
    forall log, after :: IsDoneRun(log, TextsOf(body, transactional), s, after) ==> Bounded(log, after, ms)
  }

  ghost predicate NeverBounded(body: string, transactional: bool, s: State, ms: int) {
    forall log, after :: IsDoneRun(log, TextsOf(body, transactional), s, after) ==> !Bounded(log, after, ms)
  }

  /** The session stands where a body is sent in this mode, under the bound. */
  predicate Ready(s: State, transactional: bool, ms: int) {
    (if transactional then s.tx.Open? else s.tx.Idle?) && HasBound(s, ms)
  }

  predicate AllQuiet(texts: seq<string>, locals: bool) { forall text :: text in texts ==> Quiet(text, locals) }

  // ---------------------------------------------------------------------
  // One statement, one query
  // ---------------------------------------------------------------------

  /** Once a statement has reached lock_timeout, it is not as the runner set it. */
  lemma {:induction false} TouchedIsNotKnown(es: seq<LockEffect>, locals: bool, known: Knowledge, i: nat, ms: int)
    requires i < |es| && Touches(es[i], locals)
    ensures AfterEffects(es, locals, known) != Exactly(Some(Millis(ms)))
    decreases |es|
  {
    if i < |es| - 1 {
      TouchedIsNotKnown(es[..|es| - 1], locals, known, i, ms);
    }
  }

  lemma {:induction false} StaysKnown(es: seq<LockEffect>, locals: bool, known: Knowledge)
    requires known.Exactly? && forall i :: 0 <= i < |es| ==> !es[i].May?
    ensures AfterEffects(es, locals, known).Exactly?
    decreases |es|
  {
    if es != [] {
      StaysKnown(es[..|es| - 1], locals, known);
    }
  }

  /** No statement of the text is a DO block that can set lock_timeout. */
  predicate Certain(text: string) {
    forall i :: 0 <= i < |Split(text)| ==> !LockEffectOf(Split(text)[i]).May?
  }

  lemma QuietStep(s: State, text: string, r: Reply, transactional: bool, ms: int)
    requires Ready(s, transactional, ms) && Quiet(text, transactional)
    requires Legal(s, Sql(text), r) && r.Done?
    ensures Ready(Next(s, Sql(text), r), transactional, ms)
  {
    hide Quiet, SetsLock, RoleFree;
    QuietKeepsLock(text, transactional, transactional, InForce(s), r.now);
  }

  lemma LoudStep(s: State, text: string, r: Reply, transactional: bool, ms: int)
    requires Ready(s, transactional, ms) && !Quiet(text, transactional) && Certain(text)
    requires Legal(s, Sql(text), r) && r.Done?
    ensures !HasBound(Next(s, Sql(text), r), ms)
  {
    hide LockEffectOf, Split, RoleFree;
    var es, known := LockEffectsOf(text), Exactly(Read(InForce(s), LockTimeout));
    var i :| 0 <= i < |Split(text)| && Touches(LockEffectOf(Split(text)[i]), transactional);
    TouchedIsNotKnown(es, transactional, known, i, ms);
    StaysKnown(es, transactional, known);
  }

  /** The settings after a text, when the server gives up any lock_timeout that is in doubt. */
  function Obeyed(text: string, locals: bool, before: Settings): Settings {
    var known := AfterEffects(LockEffectsOf(text), locals, Exactly(Read(before, LockTimeout)));
    if known.Exactly? && known.value.Some? then before[LockTimeout := known.value.value] else before - {LockTimeout}
  }

  function Obey(s: State, text: string): Reply {
    Done([], Obeyed(text, s.tx.Open?, InForce(s)), Obeyed(text, false, Lasting(s)))
  }

  lemma ObeyedRespects(text: string, locals: bool, before: Settings)
    ensures Respects(text, locals, before, Obeyed(text, locals, before))
  {
    hide LockEffectsOf, AfterEffects, RoleFree;
  }

  lemma ObeyIsLegal(s: State, text: string, transactional: bool)
    requires if transactional then s.tx.Open? else s.tx.Idle?
    ensures Legal(s, Sql(text), Obey(s, text))
    ensures var s' := Next(s, Sql(text), Obey(s, text)); if transactional then s'.tx.Open? else s'.tx.Idle?
  {
    hide Respects, Obeyed;
    ObeyedRespects(text, transactional, InForce(s));
    ObeyedRespects(text, false, Lasting(s));
  }

  lemma ObeyLoses(s: State, text: string, transactional: bool, ms: int)
    requires Ready(s, transactional, ms) && !Quiet(text, transactional)
    requires Legal(s, Sql(text), Obey(s, text))
    ensures !HasBound(Next(s, Sql(text), Obey(s, text)), ms)
  {
    hide LockEffectOf, Split, Respects;
    var i :| 0 <= i < |Split(text)| && Touches(LockEffectOf(Split(text)[i]), transactional);
    TouchedIsNotKnown(LockEffectsOf(text), transactional, Exactly(Read(InForce(s), LockTimeout)), i, ms);
  }

  // ---------------------------------------------------------------------
  // Runs
  // ---------------------------------------------------------------------

  lemma {:induction false} QuietRun(log: seq<Exchange>, texts: seq<string>, s: State, after: State,
                                    transactional: bool, ms: int)
    requires IsDoneRun(log, texts, s, after) && AllQuiet(texts, transactional) && Ready(s, transactional, ms)
    ensures Bounded(log, after, ms)
    decreases |texts|
  {
    hide Legal, Next, Quiet, HasBound;
    if texts != [] {
      var e := log[0];
      QuietStep(s, texts[0], e.reply, transactional, ms);
      QuietRun(log[1..], texts[1..], Next(s, e.cmd, e.reply), after, transactional, ms);
      assert forall i :: 1 <= i < |log| ==> log[i] == log[1..][i - 1];
    }
  }

  lemma {:induction false} LoudRun(log: seq<Exchange>, texts: seq<string>, s: State, after: State,
                                   transactional: bool, ms: int)
    requires IsDoneRun(log, texts, s, after) && Ready(s, transactional, ms)
    requires !AllQuiet(texts, transactional) && forall text :: text in texts ==> Certain(text)
    ensures !Bounded(log, after, ms)
    decreases |texts|
  {
    hide Legal, Next, Quiet, HasBound, Certain;
    var e := log[0];
    var next := Next(s, e.cmd, e.reply);
    if Quiet(texts[0], transactional) {
      QuietStep(s, texts[0], e.reply, transactional, ms);
      LoudRun(log[1..], texts[1..], next, after, transactional, ms);
    } else {
      LoudStep(s, texts[0], e.reply, transactional, ms);
      RunStarts(log[1..], texts[1..], next, after);
    }
    assert forall i :: 1 <= i < |log| ==> log[i] == log[1..][i - 1];
  }

  lemma RunStarts(log: seq<Exchange>, texts: seq<string>, s: State, after: State)
    requires IsDoneRun(log, texts, s, after)
    ensures if log == [] then after == s else log[0].before == s
  {
    hide Legal, Next;
  }

  /** Every text goes through, with the server giving up what is in doubt. */
  lemma {:induction false} ObeyedRun(texts: seq<string>, s: State, transactional: bool)
    returns (log: seq<Exchange>, after: State)
    requires if transactional then s.tx.Open? else s.tx.Idle?
    ensures IsDoneRun(log, texts, s, after)
    decreases |texts|
  {
    hide Legal, Next, Obeyed;
    log, after := [], s;
    if texts != [] {
      var r := Obey(s, texts[0]);
      ObeyIsLegal(s, texts[0], transactional);
      var rest;
      rest, after := ObeyedRun(texts[1..], Next(s, Sql(texts[0]), r), transactional);
      log := [Exchange(Sql(texts[0]), s, r)] + rest;
      assert log[1..] == rest;
    }
  }

  lemma {:induction false} LosingRun(texts: seq<string>, s: State, transactional: bool, ms: int)
    returns (log: seq<Exchange>, after: State)
    requires !AllQuiet(texts, transactional) && Ready(s, transactional, ms)
    ensures IsDoneRun(log, texts, s, after) && !Bounded(log, after, ms)
    decreases |texts|
  {
    hide Legal, Next, Quiet, HasBound, Obeyed;
    var r := Obey(s, texts[0]);
    ObeyIsLegal(s, texts[0], transactional);
    var next := Next(s, Sql(texts[0]), r);
    var rest;
    if Quiet(texts[0], transactional) {
      QuietStep(s, texts[0], r, transactional, ms);
      rest, after := LosingRun(texts[1..], next, transactional, ms);
    } else {
      ObeyLoses(s, texts[0], transactional, ms);
      rest, after := ObeyedRun(texts[1..], next, transactional);
      RunStarts(rest, texts[1..], next, after);
    }
    log := [Exchange(Sql(texts[0]), s, r)] + rest;
    assert log[1..] == rest;
    assert forall i :: 1 <= i < |log| ==> log[i] == rest[i - 1];
  }

  /** In either mode, the queries are quiet exactly if the body is. */
  lemma TextsAreQuietIff(body: string, transactional: bool)
    ensures AllQuiet(TextsOf(body, transactional), transactional) <==> Quiet(body, transactional)
  {
    hide Quiet, Split;
    QuietIffStatements(body, transactional);
    assert body in [body];
  }

  /**
   * The runner's bound stays in force throughout, whatever the server answers,
   * exactly if no statement of the body reaches lock_timeout.
   */
  lemma AlwaysBoundedIff(body: string, transactional: bool, s: State, ms: int)
    requires Ready(s, transactional, ms)
    ensures AlwaysBounded(body, transactional, s, ms) <==> Quiet(body, transactional)
  {
    hide Quiet, IsDoneRun, Bounded, Ready, TextsOf, AllQuiet;
    var texts := TextsOf(body, transactional);
    TextsAreQuietIff(body, transactional);
    if Quiet(body, transactional) {
      forall log, after | IsDoneRun(log, texts, s, after) ensures Bounded(log, after, ms) {
        QuietRun(log, texts, s, after, transactional, ms);
      }
    } else {
      var log, after := LosingRun(texts, s, transactional, ms);
      assert !Bounded(log, after, ms);
    }
  }

  /** The same inside one query: before every statement of the text and after the last, lock_timeout is as the runner set it. */
  predicate AtEveryStatement(text: string, locals: bool, ms: int) {
    forall k :: 0 <= k <= |Split(text)| ==> HoldsAfter(text, k, locals, ms)
  }

  predicate HoldsAfter(text: string, k: nat, locals: bool, ms: int)
    requires k <= |Split(text)|
  {
    var bound := Exactly(Some(Millis(ms)));
    AfterEffects(LockEffectsOf(text)[..k], locals, bound) == bound
  }

  lemma AtEveryStatementIff(text: string, locals: bool, ms: int)
    ensures AtEveryStatement(text, locals, ms) <==> Quiet(text, locals)
  {
    hide LockEffectOf, Split, AfterEffects;
    var es, bound := LockEffectsOf(text), Exactly(Some(Millis(ms)));
    if Quiet(text, locals) {
      forall k | 0 <= k <= |es| ensures HoldsAfter(text, k, locals, ms) {
        NoEffect(es[..k], locals, bound);
      }
    } else {
      var i :| 0 <= i < |es| && Touches(LockEffectOf(Split(text)[i]), locals);
      assert es[..|es|] == es;
      TouchedIsNotKnown(es, locals, bound, i, ms);
      assert !HoldsAfter(text, |es|, locals, ms);
    }
  }

  /** Without DO blocks that can set it, a statement that reaches lock_timeout lifts the bound in every run. */
  lemma LiftedInEveryRun(body: string, transactional: bool, s: State, ms: int)
    requires Ready(s, transactional, ms)
    requires !Quiet(body, transactional) && Certain(body)
    ensures NeverBounded(body, transactional, s, ms)
    ensures exists log, after :: IsDoneRun(log, TextsOf(body, transactional), s, after)
  {
    hide Quiet, IsDoneRun, Bounded, AllQuiet, Certain;
    var texts := TextsOf(body, transactional);
    var one, end := ObeyedRun(texts, s, transactional);
    TextsAreQuietIff(body, transactional);
    CertainStatements(body);
    forall log, after | IsDoneRun(log, texts, s, after) ensures !Bounded(log, after, ms) {
      LoudRun(log, texts, s, after, transactional, ms);
    }
  }

  lemma CertainStatements(body: string)
    requires Certain(body)
    ensures forall st :: st in Split(body) ==> Certain(st)
  {
    hide LockEffectOf, Split;
    forall st | st in Split(body) ensures Certain(st) {
      SelfDelimiting(body, st);
    }
  }
}
