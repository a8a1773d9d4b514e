/** Applying a tracked migration: attempts on fresh connections, retried only when the lock bound fires. */
module MigrationRetry {
  import opened Options
  import opened Text
  import opened SqlLexer
  import opened StatementSplitter
  import opened Sanitizer
  import opened LockEffects
  import opened OptOut
  import opened PgSession
  import opened MigrationRunner
  import opened MigrationAttempt

  /** How far one attempt got: the effects it completed, and whether the next left debris. */
  datatype Run = Run(at: nat, partial: bool)

  predicate IsRunOf(script: seq<Effect>, run: Run) {
    run.at <= |script| && (run.partial ==> run.at < |script| && script[run.at].Ran?)
  }

  predicate AreRunsOf(script: seq<Effect>, runs: seq<Run>) {
    forall i :: 0 <= i < |runs| ==> IsRunOf(script, runs[i])
  }

  /** What a row of attempts has made durable. */
  function Trail(script: seq<Effect>, runs: seq<Run>): seq<Effect>
    requires AreRunsOf(script, runs)
  {
    if runs == [] then []
    else
      var last := runs[|runs| - 1];
      Trail(script, runs[..|runs| - 1]) + Reached(script, last.at, last.partial)
  }

  /** What the catalog's answer says about the role that is to own what the migration creates. */
  datatype Lookup = Unsafe | Owner(role: Option<string>)

  /** A migration; `ownerOf` reads the catalog's answer. */
  datatype Migration = Migration(
    filename: string,
    content: string,
    digest: string,
    deferred: Option<DeferredPreflight>,
    ownerOf: seq<Row> -> Lookup,
    lockTimeoutMs: int,
    maxAttempts: nat)

  predicate Transactional(m: Migration) { !RunsWithoutTransaction(m.content) }

  function AttemptOf(m: Migration, body: string, owner: Option<string>): Attempt {
    Attempt(m.filename, body, Transactional(m), m.lockTimeoutMs, m.digest, m.deferred, owner)
  }

  /** What a complete run makes durable: the texts, as they are sent, and the ledger row. */
  function ScriptOf(m: Migration): seq<Effect> {
    (if RunsWithoutTransaction(m.content) then RanAll(Split(Sanitize(m.content)))
     else if m.deferred.Some? then [Ran(m.deferred.value.sql), Ran(Sanitize(m.content))]
     else [Ran(Sanitize(m.content))])
    + [Recorded(m.filename, m.digest)]
  }

  /** No text of the migration sets lock_timeout. */
  predicate LeavesBound(m: Migration) {
    var locals := !RunsWithoutTransaction(m.content);
    Quiet(Sanitize(m.content), locals) && (m.deferred.Some? ==> Quiet(m.deferred.value.sql, locals))
  }

  /** No text of the migration can change the role. */
  predicate LeavesRole(m: Migration) {
    RoleFree(Sanitize(m.content)) && (m.deferred.Some? ==> RoleFree(m.deferred.value.sql))
  }

  /** The round at `a` asked the catalog first, and this is the role its answer names. */
  predicate LookedUp(log: seq<Exchange>, a: nat, m: Migration, owner: Option<string>) {
    && a + 2 < |log| && log[a + 2].cmd.Probe? && log[a + 2].reply.Done?
    && m.ownerOf(log[a + 2].reply.rows) == Owner(owner)
  }

  /**
   * The work at `i` is one of the migration's own texts or its ledger row,
   * under its lock bound and the role that was looked up, and, but for the
   * preflight itself, behind a preflight that cleared it.
   */
  ghost predicate WorkFits(log: seq<Exchange>, a: nat, i: nat, m: Migration)
    requires i < |log| && IsWork(log[i].cmd)
  {
    && EffectOf(log[i].cmd) in ScriptOf(m)
    && (LeavesBound(m) ==> HasBound(log[i].before, m.lockTimeoutMs))
    && (exists owner :: LookedUp(log, a, m, owner) && (LeavesRole(m) ==> AsOwner(log[i].before, owner)))
    && (m.deferred.Some? && log[i].cmd != Sql(m.deferred.value.sql) ==> ClearedBefore(log, a, i, m.deferred.value))
  }

  /** All that was sent as work in the round at `a`, to the end of the log. */
  ghost predicate RoundFits(log: seq<Exchange>, a: nat, m: Migration) {
    forall i :: a <= i < |log| && IsWork(log[i].cmd) ==> WorkFits(log, a, i, m)
  }

  lemma NoWorkFits(log: seq<Exchange>, a: nat, m: Migration)
    requires NoWork(log, a, |log|)
    ensures RoundFits(log, a, m)
  {
  }

  /** All attempts but the last hit the lock bound: none of them was complete. */
  predicate OnlyRetries(script: seq<Effect>, transactional: bool, runs: seq<Run>) {
    forall i :: 0 <= i < |runs| ==> runs[i].at < |script| && (transactional ==> runs[i] == Run(0, false))
  }

  lemma TrailGrows(script: seq<Effect>, runs: seq<Run>, run: Run)
    requires AreRunsOf(script, runs) && IsRunOf(script, run)
    ensures AreRunsOf(script, runs + [run])
    ensures Trail(script, runs + [run]) == Trail(script, runs) + Reached(script, run.at, run.partial)
  {
    hide Reached;
    assert (runs + [run])[..|runs|] == runs;
  }

  /** What is known of one run: an error other than a lost connection means that it was not complete. */
  predicate RunFits(script: seq<Effect>, transactional: bool, r: Result, run: Run) {
    && IsRunOf(script, run)
    && (r.Ok? ==> run == Run(|script|, false))
    && (r.Thrown? && r.error != ConnectionLost ==> run.at < |script|)
    && (transactional ==> run == Run(0, false) || run == Run(|script|, false))
  }

  /** The run that a finished attempt stands for. */
  lemma RunOf(p: Plan, s: State, r: Result, at: nat, partial: bool) returns (run: Run)
    requires p.script != []
    requires if r.Ok? then Complete(s, p) else FailedAt(s, p, r.error, at, partial)
    ensures RunFits(p.script, p.transactional, r, run)
    ensures s.durable == p.durable + Reached(p.script, run.at, run.partial)
  {
    hide Finished, Restored;
    assert p.script[..|p.script|] == p.script && p.script[..0] == [];
    assert p.script + [] == p.script && p.durable + [] == p.durable;
    if r.Ok? {
      run := Run(|p.script|, false);
    } else if !p.transactional {
      run := Run(at, partial);
    } else if s.durable == p.durable {
      run := Run(0, false);
    } else {
      run := Run(|p.script|, false);
    }
  }

  /** The attempts so far, and what they have made durable. */
  predicate Tracked(m: Migration, start: seq<Effect>, durable: seq<Effect>, runs: seq<Run>) {
    AreRunsOf(ScriptOf(m), runs) && durable == start + Trail(ScriptOf(m), runs)
  }

  /** Commands that are not body text make nothing durable outside a transaction, and none of these commits one. */
  lemma KeepsDurable(s: State, c: Command, r: Reply)
    requires Legal(s, c, r) && (c.Probe? || c.Rollback? || c.Set? || c.Connect?)
    ensures Next(s, c, r).durable == s.durable
    ensures (s.tx.Idle? || c.Connect?) && r.Done? ==> Next(s, c, r).tx.Idle?
  {
  }

  // ---------------------------------------------------------------------
  // Rounds
  // ---------------------------------------------------------------------

  /** The connection that the round at `a` opened stood, and is set up. */
  predicate Stood(log: seq<Exchange>, a: nat) {
    a + 1 < |log| && log[a].reply.Done? && log[a + 1].reply.Done?
  }

  /** The first thing to fail in the round at `a`, cleaning up aside, got this error. */
  predicate RoundThrew(log: seq<Exchange>, a: nat, error: Error) {
    || (|log| == a + 1 && Answer(log[a].reply) == PgSession.Thrown(error))
    || (a < |log| && log[a].reply.Done? && FailsFirst(log, a + 1, error))
  }

  predicate OneConnection(log: seq<Exchange>, a: nat) {
    a < |log| && log[a].cmd.Connect? && forall i :: a < i < |log| ==> !log[i].cmd.Connect?
  }

  /** From `a` on, the log is one round that ended with `r`; `caught` says whether its connection stood. */
  predicate IsRound(log: seq<Exchange>, a: nat, r: Result, caught: bool) {
    && OneConnection(log, a) && (caught <==> Stood(log, a))
    && if r.Thrown? && r.error != Refused then
         RoundThrew(log, a, Root(r.error)) && (IsLockTimeout(r.error) <==> IsLockTimeout(Root(r.error)))
       else
         log[a].reply.Done? && Smooth(log, a + 1)
  }

  /** A log has one first failure, or none. */
  lemma FirstFailureIsOne(log: seq<Exchange>, n: nat, e: Error, f: Error)
    requires FailsFirst(log, n, e)
    ensures !Smooth(log, n)
    ensures FailsFirst(log, n, f) ==> e == f
  {
    var j :| n < j <= |log| && FailsBy(log, n, j, e);
    assert !log[j - 1].reply.Done?;
    if FailsFirst(log, n, f) {
      var k :| n < k <= |log| && FailsBy(log, n, k, f);
      SameFailure(log, n, j, k, e, f);
    }
  }

  lemma FailureStands(log: seq<Exchange>, n: nat, j: nat, e: Error)
    requires n < j <= |log| && FailsBy(log, n, j, e)
    ensures Answer(log[j - 1].reply) == PgSession.Thrown(e) && !log[j - 1].reply.Done? && !IsCleanup(log[j - 1].cmd)
    ensures forall i :: n <= i < j - 1 ==> IsCleanup(log[i].cmd) || log[i].reply.Done?
    ensures forall i :: j <= i < |log| ==> IsCleanup(log[i].cmd)
  {
    forall i | n <= i < j - 1 ensures IsCleanup(log[i].cmd) || log[i].reply.Done? {
      assert log[..j][..j - 1][i] == log[i];
    }
  }

  lemma SameFailure(log: seq<Exchange>, n: nat, j: nat, k: nat, e: Error, f: Error)
    requires n < j <= |log| && n < k <= |log| && FailsBy(log, n, j, e) && FailsBy(log, n, k, f)
    ensures j == k && e == f
  {
    hide FailsBy;
    FailureStands(log, n, j, e);
    FailureStands(log, n, k, f);
  }

  /** The role that will own what the migration creates, looked up in the catalog. */
  method ProvisionedSchemaOwnerRole(client: Client, m: Migration, ghost a: nat) returns (r: Result, owner: Option<string>)
    requires client.st.tx.Idle? && a <= |client.log| && Smooth(client.log, a)
    requires client.Valid()
    modifies client
    ensures client.Valid()
    ensures client.st.durable == old(client.st.durable)
    ensures |client.log| == |old(client.log)| + 1 && old(client.log) <= client.log
    ensures client.log[|old(client.log)|].cmd.Probe?
    ensures r.Ok? ==> client.st.tx.Idle?
    ensures r.Ok? ==> var e := client.log[|old(client.log)|]; e.reply.Done? && m.ownerOf(e.reply.rows) == Owner(owner)
    ensures if r.Thrown? && r.error != Refused then EndsIn(client.log, a, r.error) && Root(r.error) == r.error
            else Smooth(client.log, a)
  {
    hide Legal, Next, IsLog, Smooth, EndsIn;
    owner := None;
    r := client.Query(Probe);
    KeepsDurable(old(client.st), Probe, client.log[|old(client.log)|].reply);
    SmoothMore(old(client.log), client.log, a);
    if r.Thrown? {
      EndsInServerError(client.log, a, r.error);
    } else {
      match m.ownerOf(r.rows)
      case Unsafe => r := PgSession.Thrown(Refused);
      case Owner(role) => owner := role;
    }
  }

  /** Ends a round: rolls back after a failure, and hands the connection back. */
  method Release(client: Client, failed: bool)
    requires client.Valid()
    modifies client
    ensures client.Valid()
    ensures client.st.durable == old(client.st.durable)
    ensures old(client.log) <= client.log
    ensures var cmds := (if failed then [Rollback] else []) + [Set(BypassRls, Name("off"))];
      |client.log| == |old(client.log)| + |cmds| && Sent(client.log, |old(client.log)|, cmds)
  {
    hide Legal, Next, IsLog;
    var n := |client.log|;
    if failed {
      var r := client.Query(Rollback);
      KeepsDurable(client.log[n].before, Rollback, client.log[n].reply);
      n := n + 1;
    }
    var c := Set(BypassRls, Name("off"));
    var r := client.Query(c);
    KeepsDurable(client.log[n].before, c, client.log[n].reply);
  }

  /** Cleaning up after a round does not change how it ended. */
  lemma RoundStays(done: seq<Exchange>, log: seq<Exchange>, a: nat, r: Result)
    requires a < |done| && done <= log && OnlyCleanup(log, |done|) && OneConnection(done, a) && Stood(done, a)
    requires if r.Thrown? && r.error != Refused then Answered(done, a + 1, r.error) else Smooth(done, a + 1)
    ensures IsRound(log, a, r, true)
  {
    assert forall i :: 0 <= i < |done| ==> log[i] == done[i];
    if r.Thrown? && r.error != Refused {
      var j :| a + 1 < j <= |done| && FailsBy(done, a + 1, j, Root(r.error));
      assert log[..j] == done[..j];
      assert FailsBy(log, a + 1, j, Root(r.error));
    }
  }

  /** What failed first in a part of the log failed first in all of it, if nothing failed before. */
  lemma EarlierSmooth(mid: seq<Exchange>, log: seq<Exchange>, a: nat, n: nat, r: Result)
    requires a <= n == |mid| && mid <= log && Smooth(mid, a)
    requires if r.Thrown? && r.error != Refused then Answered(log, n, r.error) else Smooth(log, n)
    ensures if r.Thrown? && r.error != Refused then Answered(log, a, r.error) else Smooth(log, a)
  {
    assert forall i :: 0 <= i < |mid| ==> log[i] == mid[i];
    if r.Thrown? && r.error != Refused {
      var j :| n < j <= |log| && FailsBy(log, n, j, Root(r.error));
      var error := Root(r.error);
      assert EndsIn(log[..j], a, error);
      assert FailsBy(log, a, j, error);
    }
  }

  lemma RawIsAnswered(log: seq<Exchange>, n: nat, error: Error)
    requires EndsIn(log, n, error) && Root(error) == error
    ensures Answered(log, n, error)
  {
    assert log[..|log|] == log;
    assert FailsBy(log, n, |log|, error);
  }

  /** No reconnection hides in an attempt. */
  lemma NoReconnect(log: seq<Exchange>, a: nat, r: Result)
    requires a < |log| && log[a].cmd.Connect?
    requires if r.Thrown? && r.error != Refused then Answered(log, a + 1, r.error) else Smooth(log, a + 1)
    ensures OneConnection(log, a)
  {
    if r.Thrown? && r.error != Refused {
      var j :| a + 1 < j <= |log| && FailsBy(log, a + 1, j, Root(r.error));
      forall i | a < i < |log| ensures !log[i].cmd.Connect? {
        if i < j - 1 {
          assert log[..j][..j - 1][i] == log[i];
        } else if i == j - 1 {
          assert log[..j][j - 1] == log[j - 1];
        }
      }
    }
  }

  lemma StoodStays(before: seq<Exchange>, log: seq<Exchange>, a: nat)
    requires before <= log
    ensures Stood(before, a) ==> Stood(log, a)
  {
  }

  lemma ReleaseCleans(done: seq<Exchange>, log: seq<Exchange>, failed: bool)
    requires var cmds := (if failed then [Rollback] else []) + [Set(BypassRls, Name("off"))];
      |log| == |done| + |cmds| && Sent(log, |done|, cmds)
    ensures OnlyCleanup(log, |done|)
  {
  }

  /** Opens a connection and makes it see every row. */
  method ConnectMigrationClient(client: Client) returns (r: Result)
    requires client.Valid()
    modifies client
    ensures client.Valid()
    ensures old(client.log) <= client.log && client.st.durable == old(client.st.durable)
    ensures var a := |old(client.log)|;
      && a < |client.log| && client.log[a].cmd.Connect?
      && (|client.log| > a + 1 ==> |client.log| == a + 2 && client.log[a + 1].cmd == Set(BypassRls, On))
      && (r.Ok? ==> client.st.tx.Idle? && |client.log| == a + 2 && Stood(client.log, a) && Smooth(client.log, a + 1))
      && (r.Thrown? ==> IsRound(client.log, a, r, false))
      && NoWork(client.log, a, |client.log|)
  {
    hide Legal, Next, IsLog;
    var a := |client.log|;
    r := client.Query(Connect);
    KeepsDurable(client.log[a].before, Connect, client.log[a].reply);
    if r.Thrown? {
      return;
    }
    ghost var log := client.log;
    SmoothNothing(log);
    r := client.Query(Set(BypassRls, On));
    KeepsDurable(client.log[a + 1].before, Set(BypassRls, On), client.log[a + 1].reply);
    SmoothMore(log, client.log, a + 1);
    if r.Thrown? {
      RawIsAnswered(client.log, a + 1, r.error);
      EndsInServerError(client.log, a + 1, r.error);
    }
  }

  /**
   * One round of the loop: connect, attempt, roll back on failure, release.
   * `caught` is false when the connection itself failed.
   */
  method OneTry(client: Client, m: Migration, body: string)
    returns (r: Result, caught: bool, ghost run: Run)
    requires body == Sanitize(m.content)
    requires client.Valid()
    modifies client
    ensures client.Valid()
    ensures old(client.log) <= client.log && IsRound(client.log, |old(client.log)|, r, caught)
    ensures RunFits(ScriptOf(m), Transactional(m), r, run)
    ensures client.st.durable == old(client.st.durable) + Reached(ScriptOf(m), run.at, run.partial)
    ensures old(client.st.durable) <= client.st.durable
    ensures r.Ok? ==> client.st.durable == old(client.st.durable) + ScriptOf(m)
    ensures RoundFits(client.log, |old(client.log)|, m)
    ensures r.Ok? ==> ClearedIn(client.log, |old(client.log)|, m)
  {
    hide Reached, Script, ScriptOf, Sanitize, Complete, FailedAt, AllGuarded, Located, Answered, EndsWithResets, NoResets,
         SetupComplete, ResetIfTaken, ClearedBy, RunsWithoutTransaction, RunFits, Legal, Next, SetupOf, HasBound,
         IsLog, Smooth, EndsIn, Stood, IsRound, OneConnection, RoundFits, NoWork, PreflightFirst, ClearedIn;
    NoRun(m, client.st.durable);
    run, caught := Run(0, false), false;
    ghost var a := |client.log|;
    r := ConnectMigrationClient(client);
    NoWorkFits(client.log, a, m);
    if r.Thrown? {
      return;
    }
    caught := true;
    ghost var atOpen := client.log;
    var owner;
    r, owner := ProvisionedSchemaOwnerRole(client, m, a + 1);
    LookupIsNoWork(atOpen, client.log, a, m);
    if r.Ok? {
      ghost var mid, s := client.log, client.st;
      var attempt := AttemptOf(m, body, owner);
      ghost var p := PlanOf(attempt, client.st);
      ScriptIsOf(m, owner);
      ghost var at, partial;
      r, at, partial := ExecuteMigrationAttempt(client, attempt);
      run := RunOf(p, client.st, r, at, partial);
      EarlierSmooth(mid, client.log, a + 1, |mid|, r);
      AttemptFits(mid, client.log, a, m, owner, s);
      if r.Ok? {
        AttemptClears(client.log, a, m, owner);
      }
    } else if r.error != Refused {
      RawIsAnswered(client.log, a + 1, r.error);
    }
    ghost var done := client.log;
    StoodStays(atOpen, done, a);
    NoReconnect(done, a, r);
    Release(client, r.Thrown?);
    ReleaseCleans(done, client.log, r.Thrown?);
    RoundStays(done, client.log, a, r);
    FitsStay(done, client.log, a, m);
    WholeRun(m, r, run);
  }

  /** With a preflight put off until now, the round holds its clearance. */
  ghost predicate ClearedIn(log: seq<Exchange>, a: nat, m: Migration) {
    m.deferred.Some? ==> exists q :: a <= q && ClearedBy(log, q, m.deferred.value)
  }

  lemma LookupIsNoWork(before: seq<Exchange>, log: seq<Exchange>, a: nat, m: Migration)
    requires |before| == a + 2 && |log| == a + 3 && before <= log && NoWork(before, a, a + 2) && log[a + 2].cmd.Probe?
    ensures NoWork(log, a, a + 3) && RoundFits(log, a, m)
  {
    forall i | a <= i < a + 3 ensures !IsWork(log[i].cmd) {
      assert i < a + 2 ==> log[i] == before[i];
    }
  }

  lemma AttemptClears(log: seq<Exchange>, a: nat, m: Migration, owner: Option<string>)
    requires var attempt := AttemptOf(m, Sanitize(m.content), owner);
      attempt.deferred.Some? ==> ClearedBy(log, a + 3 + |SetupOf(attempt)|, attempt.deferred.value)
    ensures ClearedIn(log, a, m)
  {
    hide ClearedBy, SetupOf, Sanitize, RunsWithoutTransaction;
  }

  /** The attempt keeps to the migration's own texts, bound, role and preflight. */
  lemma AttemptFits(mid: seq<Exchange>, log: seq<Exchange>, a: nat, m: Migration, owner: Option<string>, s: State)
    requires |mid| == a + 3 && mid <= log && NoWork(mid, a, a + 3) && LookedUp(mid, a, m, owner)
    requires var attempt := AttemptOf(m, Sanitize(m.content), owner);
      AllGuarded(log, a + 3, PlanOf(attempt, s)) && PreflightFirst(log, a + 3, attempt)
    ensures RoundFits(log, a, m)
  {
    hide Script, ScriptOf, Sanitize, RunsWithoutTransaction, HasBound, AsOwner, ClearedBefore, Quiet, RoleFree, Free;
    var attempt := AttemptOf(m, Sanitize(m.content), owner);
    var p := PlanOf(attempt, s);
    ScriptIsOf(m, owner);
    if LeavesBound(m) {
      BodyIsFree(attempt, s, LockTimeout);
    }
    if LeavesRole(m) {
      BodyIsFree(attempt, s, Role);
    }
    LookupStays(mid, log, a, m, owner);
    forall i | a <= i < a + 3 ensures !IsWork(log[i].cmd) {
      assert log[i] == mid[i];
    }
    forall i | a <= i < |log| && IsWork(log[i].cmd) ensures WorkFits(log, a, i, m) {
      assert Guarded(log[i].before, p) && EffectOf(log[i].cmd) in p.script;
      if m.deferred.Some? && log[i].cmd != Sql(m.deferred.value.sql) {
        EarlierClearance(log, a, a + 3, i, m.deferred.value);
      }
    }
  }

  lemma LookupStays(mid: seq<Exchange>, log: seq<Exchange>, a: nat, m: Migration, owner: Option<string>)
    requires mid <= log && LookedUp(mid, a, m, owner)
    ensures LookedUp(log, a, m, owner)
  {
    assert log[a + 2] == mid[a + 2];
  }

  lemma EarlierClearance(log: seq<Exchange>, a: nat, n: nat, i: nat, d: DeferredPreflight)
    requires a <= n && ClearedBefore(log, n, i, d)
    ensures ClearedBefore(log, a, i, d)
  {
    hide ClearedBy;
  }

  /** Cleaning up sends no work. */
  lemma FitsStay(done: seq<Exchange>, log: seq<Exchange>, a: nat, m: Migration)
    requires a <= |done| && done <= log && OnlyCleanup(log, |done|)
    ensures RoundFits(done, a, m) ==> RoundFits(log, a, m)
    ensures ClearedIn(done, a, m) ==> ClearedIn(log, a, m)
  {
    hide ScriptOf, Quiet, RoleFree, HasBound, AsOwner, ClearedBy, LeavesBound, LeavesRole, LookedUp;
    if RoundFits(done, a, m) {
      forall i | a <= i < |log| && IsWork(log[i].cmd) ensures WorkFits(log, a, i, m) {
        WorkStays(done, log, a, i, m);
      }
    }
    if ClearedIn(done, a, m) && m.deferred.Some? {
      var q :| a <= q && ClearedBy(done, q, m.deferred.value);
      ClearanceKept(done, log, q, m.deferred.value);
    }
  }

  lemma ClearanceKept(done: seq<Exchange>, log: seq<Exchange>, q: nat, d: DeferredPreflight)
    requires done <= log && ClearedBy(done, q, d)
    ensures ClearedBy(log, q, d)
  {
    hide Clears;
  }

  lemma WorkStays(done: seq<Exchange>, log: seq<Exchange>, a: nat, i: nat, m: Migration)
    requires a <= i < |done| && done <= log && IsWork(done[i].cmd) && WorkFits(done, a, i, m)
    ensures WorkFits(log, a, i, m)
  {
    hide ScriptOf, Quiet, RoleFree, HasBound, AsOwner, ClearedBy, LeavesBound, LeavesRole, LookedUp;
    assert log[i] == done[i];
    var owner :| LookedUp(done, a, m, owner) && (LeavesRole(m) ==> AsOwner(done[i].before, owner));
    LookupStays(done, log, a, m, owner);
    if m.deferred.Some? && log[i].cmd != Sql(m.deferred.value.sql) {
      var q :| a <= q && q + 2 < i && ClearedBy(done, q, m.deferred.value);
      ClearanceKept(done, log, q, m.deferred.value);
    }
  }

  /** A complete run makes the whole script durable. */
  lemma WholeRun(m: Migration, r: Result, run: Run)
    requires RunFits(ScriptOf(m), Transactional(m), r, run)
    ensures r.Ok? ==> Reached(ScriptOf(m), run.at, run.partial) == ScriptOf(m)
  {
    hide ScriptOf, Transactional;
    assert ScriptOf(m)[..|ScriptOf(m)|] == ScriptOf(m);
  }

  lemma NoRun(m: Migration, before: seq<Effect>)
    ensures before + Reached(ScriptOf(m), 0, false) == before
    ensures forall r: Result :: r.Thrown? ==> RunFits(ScriptOf(m), Transactional(m), r, Run(0, false))
  {
    hide ScriptOf, Transactional;
    ScriptIsOf(m, None);
    assert ScriptOf(m)[..0] == [];
    assert before + [] == before;
  }

  /** The role makes no difference to what becomes durable. */
  lemma ScriptIsOf(m: Migration, owner: Option<string>)
    ensures Script(AttemptOf(m, Sanitize(m.content), owner)) == ScriptOf(m) != []
  {
  }

  /** What the row of attempts amounts to. */
  predicate Attempted(m: Migration, r: Result, start: seq<Effect>, durable: seq<Effect>, runs: seq<Run>) {
    && runs != []
    && Tracked(m, start, durable, runs)
    && OnlyRetries(ScriptOf(m), Transactional(m), runs[..|runs| - 1])
    && RunFits(ScriptOf(m), Transactional(m), r, runs[|runs| - 1])
  }

  // ---------------------------------------------------------------------
  // Atomicity over all attempts
  // ---------------------------------------------------------------------

  lemma {:induction false} EmptyRunsLeaveNothing(script: seq<Effect>, runs: seq<Run>)
    requires AreRunsOf(script, runs) && OnlyRetries(script, true, runs)
    ensures Trail(script, runs) == []
    decreases |runs|
  {
    if runs != [] {
      var init := runs[..|runs| - 1];
      EmptyRunsLeaveNothing(script, init);
      assert runs[|runs| - 1] == Run(0, false);
    }
  }

  /**
   * With a transaction, however many attempts it took: body and ledger row
   * are durable together, once, or not at all. Only a lost connection can
   * leave a success unreported.
   */
  lemma TransactionIsAtomic(m: Migration, r: Result, start: seq<Effect>, durable: seq<Effect>, runs: seq<Run>)
    requires Attempted(m, r, start, durable, runs) && Transactional(m)
    ensures durable == start || durable == start + ScriptOf(m)
    ensures r.Ok? ==> durable == start + ScriptOf(m)
    ensures r.Thrown? && r.error != ConnectionLost ==> durable == start
  {
    hide ScriptOf, Transactional, Trail, Reached, OnlyRetries;
    var script := ScriptOf(m);
    var init, last := runs[..|runs| - 1], runs[|runs| - 1];
    EmptyRunsLeaveNothing(script, init);
    assert runs == init + [last];
    TrailGrows(script, init, last);
    ReachedEnds(script);
    assert [] + Reached(script, last.at, last.partial) == Reached(script, last.at, last.partial);
    assert start + [] == start;
    ScriptIsOf(m, None);
  }

  lemma ReachedEnds(script: seq<Effect>)
    ensures Reached(script, 0, false) == [] && Reached(script, |script|, false) == script
  {
  }

  // ---------------------------------------------------------------------
  // The retry loop
  // ---------------------------------------------------------------------

  /**
   * A further round follows this one, which ends the log: its connection
   * stood, the first thing to fail was a lock wait, and attempts are left.
   */
  predicate RetriesAfter(log: seq<Exchange>, a: nat, attempt: nat, maxAttempts: nat) {
    Stood(log, a) && RoundThrew(log, a, ServerError("55P03")) && attempt < maxAttempts
  }

  /** Since the first `n` exchanges, the log is cut into rounds, each on a connection of its own. */
  predicate AreRounds(log: seq<Exchange>, n: nat, cuts: seq<nat>) {
    && cuts != [] && cuts[0] == n && cuts[|cuts| - 1] == |log|
    && forall i :: 0 <= i < |cuts| - 1 ==> RoundAt(log, cuts, i)
  }

  predicate RoundAt(log: seq<Exchange>, cuts: seq<nat>, i: nat)
    requires i + 1 < |cuts|
  {
    cuts[i + 1] <= |log| && OneConnection(log[..cuts[i + 1]], cuts[i])
  }

  /** Every round but the last was followed by another because of a lock timeout. */
  predicate RetriedOnly(log: seq<Exchange>, cuts: seq<nat>, rounds: nat, maxAttempts: nat) {
    rounds < |cuts| && forall i :: 0 <= i < rounds ==> RetriedAt(log, cuts, i, maxAttempts)
  }

  predicate RetriedAt(log: seq<Exchange>, cuts: seq<nat>, i: nat, maxAttempts: nat)
    requires i + 1 < |cuts|
  {
    cuts[i + 1] <= |log| && RetriesAfter(log[..cuts[i + 1]], cuts[i], i + 1, maxAttempts)
  }

  /** In every round, all work is the migration's own, and under its guards. */
  ghost predicate AllRoundsFit(log: seq<Exchange>, cuts: seq<nat>, m: Migration) {
    forall i :: 0 <= i < |cuts| - 1 ==> RoundFitsAt(log, cuts, i, m)
  }

  ghost predicate RoundFitsAt(log: seq<Exchange>, cuts: seq<nat>, i: nat, m: Migration)
    requires i + 1 < |cuts|
  {
    cuts[i + 1] <= |log| && RoundFits(log[..cuts[i + 1]], cuts[i], m)
  }

  lemma FitMore(before: seq<Exchange>, log: seq<Exchange>, cuts: seq<nat>, m: Migration)
    requires cuts != [] && cuts[|cuts| - 1] == |before| && before <= log
    requires AllRoundsFit(before, cuts, m) && RoundFits(log, |before|, m)
    ensures AllRoundsFit(log, cuts + [|log|], m)
  {
    hide RoundFits;
    var more := cuts + [|log|];
    assert log[..|log|] == log;
    forall i | 0 <= i < |more| - 1 ensures RoundFitsAt(log, more, i, m) {
      if i < |cuts| - 1 {
        assert RoundFitsAt(before, cuts, i, m);
        assert log[..more[i + 1]] == before[..cuts[i + 1]] && more[i] == cuts[i];
      }
    }
  }

  lemma CutMore(before: seq<Exchange>, log: seq<Exchange>, n: nat, cuts: seq<nat>, maxAttempts: nat)
    requires AreRounds(before, n, cuts) && RetriedOnly(before, cuts, |cuts| - 1, maxAttempts)
    requires before <= log && OneConnection(log, |before|)
    ensures AreRounds(log, n, cuts + [|log|]) && RetriedOnly(log, cuts + [|log|], |cuts| - 1, maxAttempts)
    ensures RetriesAfter(log, |before|, |cuts|, maxAttempts) ==> RetriedOnly(log, cuts + [|log|], |cuts|, maxAttempts)
  {
    hide OneConnection, RetriesAfter;
    var more := cuts + [|log|];
    assert log[..|log|] == log;
    forall i | 0 <= i < |cuts| - 1
      ensures RoundAt(log, more, i) && RetriedAt(log, more, i, maxAttempts)
    {
      assert RoundAt(before, cuts, i) && RetriedAt(before, cuts, i, maxAttempts);
      assert log[..more[i + 1]] == before[..cuts[i + 1]] && more[i] == cuts[i];
    }
    assert RoundAt(log, more, |cuts| - 1);
  }

  /** The round asks for another exactly if it threw a lock timeout, its connection stood, and attempts are left. */
  lemma RoundAsks(log: seq<Exchange>, a: nat, r: Result, caught: bool, attempt: nat, maxAttempts: nat)
    requires IsRound(log, a, r, caught)
    ensures RetriesAfter(log, a, attempt, maxAttempts) <==>
      r.Thrown? && caught && IsLockNotAvailable(r.error) && attempt < maxAttempts
  {
    hide FailsFirst, Smooth, OneConnection;
    if r.Thrown? && r.error != Refused {
      if log[a].reply.Done? && FailsFirst(log, a + 1, ServerError("55P03")) && FailsFirst(log, a + 1, Root(r.error)) {
        FirstFailureIsOne(log, a + 1, ServerError("55P03"), Root(r.error));
      }
    } else if FailsFirst(log, a + 1, ServerError("55P03")) {
      FirstFailureIsOne(log, a + 1, ServerError("55P03"), Refused);
    }
  }

  predicate EndsWith(es: seq<Effect>, script: seq<Effect>) {
    |es| >= |script| && es[|es| - |script|..] == script
  }

  /**
   * Rounds on fresh connections until one succeeds, fails otherwise than by a
   * lock timeout, or the attempts are used up.
   */
  method ExecuteTrackedMigration(client: Client, m: Migration)
    returns (r: Result, ghost runs: seq<Run>, ghost cuts: seq<nat>)
    requires client.Valid()
    modifies client
    ensures client.Valid()
    ensures runs != [] && |cuts| == |runs| + 1
    ensures old(client.log) <= client.log && AreRounds(client.log, |old(client.log)|, cuts)
    ensures RetriedOnly(client.log, cuts, |runs| - 1, m.maxAttempts)
    ensures !RetriesAfter(client.log, cuts[|runs| - 1], |runs|, m.maxAttempts)
    ensures IsRound(client.log, cuts[|runs| - 1], r, Stood(client.log, cuts[|runs| - 1]))
    ensures AllRoundsFit(client.log, cuts, m)
    ensures r.Ok? ==> ClearedIn(client.log, cuts[|runs| - 1], m)
    ensures Attempted(m, r, old(client.st.durable), client.st.durable, runs)
    ensures old(client.st.durable) <= client.st.durable && (r.Ok? ==> EndsWith(client.st.durable, ScriptOf(m)))
    ensures Transactional(m) ==>
      var was, now := old(client.st.durable), client.st.durable;
      && (now == was || now == was + ScriptOf(m))
      && (r.Ok? ==> now == was + ScriptOf(m))
      && (r.Thrown? && r.error != ConnectionLost ==> now == was)
  {
    hide Tracked, OnlyRetries, Reached, RunFits, RunsWithoutTransaction, Sanitize, Script, ScriptOf, Attempted, EndsWith,
         IsLog, IsRound, RetriesAfter, OneConnection, AreRounds, RetriedOnly, AllRoundsFit, RoundFits, ClearedIn;
    ghost var start := client.st.durable;
    runs, cuts := [], [|client.log|];
    NothingTracked(m, start);
    NoRounds(client.log, m.maxAttempts);
    NoRoundsFit(client.log, m);
    var body := SanitizeMigrationContent(m.content);
    var attempt := 0;
    while true
      invariant client.Valid() && old(client.log) <= client.log
      invariant Tracked(m, start, client.st.durable, runs) && start <= client.st.durable
      invariant |runs| == attempt && |cuts| == attempt + 1 && (attempt == 0 || attempt < m.maxAttempts)
      invariant AllRoundsFit(client.log, cuts, m)
      invariant AreRounds(client.log, |old(client.log)|, cuts) && RetriedOnly(client.log, cuts, attempt, m.maxAttempts)
      invariant OnlyRetries(ScriptOf(m), Transactional(m), runs)
      decreases m.maxAttempts - attempt
    {
      attempt := attempt + 1;
      ghost var before, log, tried := client.st.durable, client.log, runs;
      var caught;
      ghost var run;
      r, caught, run := OneTry(client, m, body);
      runs := tried + [run];
      TrackRun(m, r, start, before, client.st.durable, tried, run);
      RoundIsOne(client.log, |log|, r, caught);
      CutMore(log, client.log, |old(client.log)|, cuts, m.maxAttempts);
      RoundAsks(client.log, |log|, r, caught, attempt, m.maxAttempts);
      LastCut(log, |old(client.log)|, cuts);
      FitMore(log, client.log, cuts, m);
      cuts := cuts + [|client.log|];
      if r.Ok? || !caught || !IsLockNotAvailable(r.error) || attempt >= m.maxAttempts {
        WholeAtEnd(before, client.st.durable, ScriptOf(m));
        if Transactional(m) {
          TransactionIsAtomic(m, r, start, client.st.durable, runs);
        }
        return;
      }
    }
  }

  lemma NoRounds(log: seq<Exchange>, maxAttempts: nat)
    ensures AreRounds(log, |log|, [|log|]) && RetriedOnly(log, [|log|], 0, maxAttempts)
  {
  }

  lemma NoRoundsFit(log: seq<Exchange>, m: Migration)
    ensures AllRoundsFit(log, [|log|], m)
  {
  }

  lemma RoundIsOne(log: seq<Exchange>, a: nat, r: Result, caught: bool)
    requires IsRound(log, a, r, caught)
    ensures OneConnection(log, a) && IsRound(log, a, r, Stood(log, a))
  {
  }

  lemma LastCut(log: seq<Exchange>, n: nat, cuts: seq<nat>)
    requires AreRounds(log, n, cuts)
    ensures cuts != [] && cuts[|cuts| - 1] == |log|
  {
  }

  lemma WholeAtEnd(before: seq<Effect>, durable: seq<Effect>, script: seq<Effect>)
    ensures durable == before + script ==> EndsWith(durable, script)
  {
  }

  lemma NothingTracked(m: Migration, start: seq<Effect>)
    ensures Tracked(m, start, start, []) && OnlyRetries(ScriptOf(m), Transactional(m), [])
  {
    assert start + [] == start;
  }

  lemma TrackRun(m: Migration, r: Result, start: seq<Effect>, before: seq<Effect>, durable: seq<Effect>,
                 tried: seq<Run>, run: Run)
    requires Tracked(m, start, before, tried) && OnlyRetries(ScriptOf(m), Transactional(m), tried)
    requires RunFits(ScriptOf(m), Transactional(m), r, run)
    requires durable == before + Reached(ScriptOf(m), run.at, run.partial)
    ensures Attempted(m, r, start, durable, tried + [run])
    ensures Tracked(m, start, durable, tried + [run])
    ensures r.Thrown? && IsLockNotAvailable(r.error) ==> OnlyRetries(ScriptOf(m), Transactional(m), tried + [run])
  {
    hide Reached, RunsWithoutTransaction, Sanitize, Script;
    var script := ScriptOf(m);
    TrailGrows(script, tried, run);
    SeqAssoc(start, Trail(script, tried), Reached(script, run.at, run.partial));
    assert (tried + [run])[..|tried|] == tried;
  }
}
