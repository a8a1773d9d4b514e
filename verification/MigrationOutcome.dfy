/** What a migration leaves behind, however often it was retried. */
module MigrationOutcome {
  import opened Options
  import opened SqlLexer
  import opened StatementSplitter
  import opened Sanitizer
  import opened SanitizeMeaning
  import opened StatementScope
  import opened LockEffects
  import opened LockLimits
  import opened NamedSettings
  import opened OptOut
  import opened PgSession
  import opened MigrationRunner
  import opened BodyBound
  import opened MigrationAttempt
  import opened MigrationRetry

  // ---------------------------------------------------------------------
  // The bound and the role
  // ---------------------------------------------------------------------

  /**
   * A file whose directives all start statements and end in a top-level
   * semicolon: once sanitized, its body keeps the runner's bound in force
   * throughout, in its mode and whatever the server answers, exactly if the
   * file sets lock_timeout in no way but by such directives. A whole attempt
   * is then guarded.
   */
  lemma SanitizedBodyIsBoundedIff(m: Migration, owner: Option<string>, s: State, ready: State)
    requires Disciplined(Code, false, m.content, true)
    requires var a := AttemptOf(m, Sanitize(m.content), owner); Ready(ready, a.transactional, a.lockTimeoutMs)
    ensures var a := AttemptOf(m, Sanitize(m.content), owner);
      && (AlwaysBounded(a.body, a.transactional, ready, a.lockTimeoutMs) <==> QuietBesides(m.content, a.transactional))
      && (AtEveryStatement(a.body, a.transactional, a.lockTimeoutMs) <==> QuietBesides(m.content, a.transactional))
      && (QuietBesides(m.content, a.transactional) && (a.deferred.Some? ==> Quiet(a.deferred.value.sql, a.transactional)) ==>
            Free(PlanOf(a, s), LockTimeout))
  {
    hide Disciplined, Sanitize, RunsWithoutTransaction, Script, Quiet, QuietBesides, AlwaysBounded, AtEveryStatement, Ready, Free;
    var a := AttemptOf(m, Sanitize(m.content), owner);
    SanitizedIsQuietIff(m.content, a.transactional);
    AlwaysBoundedIff(a.body, a.transactional, ready, a.lockTimeoutMs);
    AtEveryStatementIff(a.body, a.transactional, a.lockTimeoutMs);
    if Quiet(a.body, a.transactional) && (a.deferred.Some? ==> Quiet(a.deferred.value.sql, a.transactional)) {
      BodyIsFree(a, s, LockTimeout);
    }
  }

  /**
   * A file of plain statements (no comment behind the first word, no double
   * quote, no DO, RESET ALL or DISCARD ALL), whose directives are whole
   * statements: its sanitized body never loses the bound.
   */
  lemma PlainFileIsBounded(m: Migration, owner: Option<string>, ready: State)
    requires Disciplined(Code, false, m.content, true) && forall st :: st in Split(m.content) ==> Plain(Core(st))
    requires var a := AttemptOf(m, Sanitize(m.content), owner); Ready(ready, a.transactional, a.lockTimeoutMs)
    ensures var a := AttemptOf(m, Sanitize(m.content), owner); AlwaysBounded(a.body, a.transactional, ready, a.lockTimeoutMs)
  {
    hide Disciplined, Sanitize, RunsWithoutTransaction, Script, Quiet, QuietBesides, AlwaysBounded, AtEveryStatement, Ready, Free, Plain,
         Core, Split;
    var a := AttemptOf(m, Sanitize(m.content), owner);
    PlainFileIsQuietBesides(m.content, a.transactional);
    SanitizedBodyIsBoundedIff(m, owner, ready, ready);
  }

  /** A body of one statement with a known effect: its own words tell whether it is quiet. */
  lemma PassedIsQuietIff(text: string, e: LockEffect, locals: bool)
    requires PassesAs(text, e)
    ensures Quiet(text, locals) <==> !Touches(e, locals)
    ensures !e.May? ==> Certain(text)
  {
    hide LockEffectOf, Disciplined, Sanitize;
    assert Split(text)[0] == text;
  }

  /** A comment between the words: the body is not changed, and lifts the bound in every run, in both modes. */
  lemma CommentedBodyEscapes(s: State, transactional: bool, ms: int)
    requires Ready(s, transactional, ms)
    ensures Disciplined(Code, false, COMMENTED, true) && Sanitize(COMMENTED) == COMMENTED
    ensures NeverBounded(COMMENTED, transactional, s, ms)
  {
    hide Disciplined, Sanitize, Split, LockEffectOf, Quiet, Certain, NeverBounded, Ready, COMMENTED;
    CommentedSets();
    PassedIsQuietIff(COMMENTED, Sets("0", false), transactional);
    LiftedInEveryRun(COMMENTED, transactional, s, ms);
  }

  /** A reset of everything does the same. */
  lemma ResetAllEscapes(s: State, transactional: bool, ms: int)
    requires Ready(s, transactional, ms)
    ensures Disciplined(Code, false, RESET_ALL, true) && Sanitize(RESET_ALL) == RESET_ALL
    ensures NeverBounded(RESET_ALL, transactional, s, ms)
  {
    hide Disciplined, Sanitize, Split, LockEffectOf, Quiet, Certain, NeverBounded, Ready, RESET_ALL;
    ResetAllResets();
    PassedIsQuietIff(RESET_ALL, Resets, transactional);
    LiftedInEveryRun(RESET_ALL, transactional, s, ms);
  }

  /** A DO block that sets it: the body is not changed, and there are runs in which the bound is lifted. */
  lemma DoBlockEscapes(s: State, transactional: bool, ms: int)
    requires Ready(s, transactional, ms)
    ensures Disciplined(Code, false, DO_BLOCK, true) && Sanitize(DO_BLOCK) == DO_BLOCK
    ensures !AlwaysBounded(DO_BLOCK, transactional, s, ms)
  {
    hide Disciplined, Sanitize, Split, LockEffectOf, Quiet, AlwaysBounded, Ready, DO_BLOCK;
    DoBlockMaySet();
    PassedIsQuietIff(DO_BLOCK, May, transactional);
    AlwaysBoundedIff(DO_BLOCK, transactional, s, ms);
  }

  /** A quoted name that reads like a directive lifts nothing. */
  lemma NamedBodyStays(s: State, transactional: bool, ms: int)
    requires Ready(s, transactional, ms)
    ensures Disciplined(Code, false, NAMED, true) && Sanitize(NAMED) == NAMED
    ensures AlwaysBounded(NAMED, transactional, s, ms)
  {
    hide Disciplined, Sanitize, Split, LockEffectOf, Quiet, AlwaysBounded, Ready, NAMED;
    NamedLeaves();
    PassedIsQuietIff(NAMED, Leaves, transactional);
    AlwaysBoundedIff(NAMED, transactional, s, ms);
  }

  // ---------------------------------------------------------------------
  // Ledger rows
  // ---------------------------------------------------------------------

  /** The number of ledger rows among the effects. */
  function LedgerRows(es: seq<Effect>): nat {
    if es == [] then 0
    else LedgerRows(es[..|es| - 1]) + if es[|es| - 1].Recorded? then 1 else 0
  }

  lemma {:induction false} LedgerRowsAppend(a: seq<Effect>, b: seq<Effect>)
    ensures LedgerRows(a + b) == LedgerRows(a) + LedgerRows(b)
    decreases |b|
  {
    if b == [] {
      assert a + b == a;
    } else {
      assert (a + b)[..|a + b| - 1] == a + b[..|b| - 1];
      LedgerRowsAppend(a, b[..|b| - 1]);
    }
  }

  lemma {:induction false} NoLedgerRows(es: seq<Effect>)
    requires forall i :: 0 <= i < |es| ==> !es[i].Recorded?
    ensures LedgerRows(es) == 0
    decreases |es|
  {
    if es != [] {
      NoLedgerRows(es[..|es| - 1]);
    }
  }

  /** One run writes a ledger row exactly when it is complete. */
  lemma RunWritesRow(m: Migration, run: Run)
    requires IsRunOf(ScriptOf(m), run)
    ensures LedgerRows(Reached(ScriptOf(m), run.at, run.partial)) == if run.at == |ScriptOf(m)| then 1 else 0
  {
    hide Split, Sanitize, RunsWithoutTransaction, LedgerRows;
    var script := ScriptOf(m);
    var n := |script| - 1;
    if run.at == |script| {
      assert script[..|script|] == script[..n] + [script[n]];
      assert Reached(script, run.at, run.partial) == script[..n] + [script[n]];
      NoLedgerRows(script[..n]);
      OneRow(script[n]);
      LedgerRowsAppend(script[..n], [script[n]]);
    } else {
      NoLedgerRows(Reached(script, run.at, run.partial));
    }
  }

  lemma OneRow(e: Effect)
    ensures LedgerRows([e]) == if e.Recorded? then 1 else 0
  {
    assert [e][..0] == [];
    assert LedgerRows([e][..0]) == 0;
  }

  lemma {:induction false} RetriesWriteNoRow(m: Migration, runs: seq<Run>)
    requires AreRunsOf(ScriptOf(m), runs) && OnlyRetries(ScriptOf(m), false, runs)
    ensures LedgerRows(Trail(ScriptOf(m), runs)) == 0
    decreases |runs|
  {
    hide Script, Sanitize, Reached;
    if runs != [] {
      var init, last := runs[..|runs| - 1], runs[|runs| - 1];
      RetriesWriteNoRow(m, init);
      RunWritesRow(m, last);
      LedgerRowsAppend(Trail(ScriptOf(m), init), Reached(ScriptOf(m), last.at, last.partial));
    }
  }

  /**
   * In both modes, the row of attempts writes exactly one ledger row if it
   * succeeds, none if it reports a failure, and never two.
   */
  lemma OneLedgerRow(m: Migration, r: Result, start: seq<Effect>, durable: seq<Effect>, runs: seq<Run>)
    requires Attempted(m, r, start, durable, runs)
    ensures r.Ok? ==> LedgerRows(durable) == LedgerRows(start) + 1
    ensures r.Thrown? && r.error != ConnectionLost ==> LedgerRows(durable) == LedgerRows(start)
    ensures LedgerRows(start) <= LedgerRows(durable) <= LedgerRows(start) + 1
  {
    hide Script, Sanitize, Reached, RunsWithoutTransaction, LedgerRows;
    var script := ScriptOf(m);
    var init, last := runs[..|runs| - 1], runs[|runs| - 1];
    RetriesWriteNoRow(m, init);
    RunWritesRow(m, last);
    LedgerRowsAppend(Trail(script, init), Reached(script, last.at, last.partial));
    LedgerRowsAppend(start, Trail(script, runs));
  }
}
