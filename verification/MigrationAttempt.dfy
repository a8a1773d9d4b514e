/** One attempt at a migration: setup, body, ledger row, and the resets that follow. */
module MigrationAttempt {
  import opened Options
  import opened SqlLexer
  import opened StatementSplitter
  import opened Sanitizer
  import opened LockEffects
  import opened StatementScope
  import opened PgSession
  import opened MigrationRunner

  /** What an attempt on a session in state `s` sets out to do. */
  function PlanOf(a: Attempt, s: State): Plan {
    Plan(a.transactional, Script(a), a.lockTimeoutMs, a.owner, s.base, s.durable)
  }

  /** The commands sent before the guarded part. */
  function SetupOf(a: Attempt): seq<Command> {
    (if a.transactional then [Begin(false), SetLocal(LockTimeout, Millis(a.lockTimeoutMs))]
     else [Set(LockTimeout, Millis(a.lockTimeoutMs))])
    + (if a.owner.None? then []
       else if a.transactional then [SetLocal(Role, Name(a.owner.value))]
       else [Set(Role, Name(a.owner.value))])
  }

  /** The commands sent on every exit from the guarded part. */
  function ResetsOf(a: Attempt): seq<Command> {
    if a.transactional then [] else [Reset(LockTimeout)] + if a.owner.Some? then [Reset(Role)] else []
  }

  /** `cmds` were sent from the `n`-th exchange on. */
  predicate Sent(log: seq<Exchange>, n: nat, cmds: seq<Command>) {
    n + |cmds| <= |log| && forall i :: n <= i < n + |cmds| ==> log[i].cmd == cmds[i - n]
  }

  /** The `k` exchanges from the `n`-th on took effect. */
  predicate AllDone(log: seq<Exchange>, n: nat, k: nat) {
    n + k <= |log| && forall i :: n <= i < n + k ==> log[i].reply.Done?
  }

  /** After the first `k` setup commands: what each mode has put in force. */
  predicate SettingUp(s: State, a: Attempt, p: Plan, k: nat) {
    && s.durable == p.durable
    && (if a.transactional then
          && (k == 0 ==> s.tx.Idle? && s.base == p.base)
          && (k > 0 ==> s.tx.Open? && s.base == p.base && s.tx.work.pending == [] && s.tx.work.kept == p.base)
        else s.tx.Idle?)
    && (k >= (if a.transactional then 2 else 1) ==> HasBound(s, a.lockTimeoutMs))
    && (k == |SetupOf(a)| ==> AsOwner(s, a.owner))
  }

  /** The state in which a failed setup leaves the session. */
  predicate SetupFailed(s: State, a: Attempt, p: Plan, k: nat) {
    && s.durable == p.durable
    && (a.transactional ==> s.base == p.base)
    && (!a.transactional && !s.tx.Dead? ==> s.tx.Idle? && (k == 1 ==> HasBound(s, a.lockTimeoutMs)))
    && (!a.transactional ==> s.tx.Idle? || s.tx.Dead?)
  }

  lemma SetupStep(s: State, c: Command, r: Reply, a: Attempt, p: Plan, k: nat)
    requires k < |SetupOf(a)| && c == SetupOf(a)[k] && Legal(s, c, r)
    requires SettingUp(s, a, p, k)
    ensures r.Done? ==> SettingUp(Next(s, c, r), a, p, k + 1)
    ensures !r.Done? ==> SetupFailed(Next(s, c, r), a, p, k)
  {
    hide Respects;
  }

  lemma SetupDone(s: State, a: Attempt, p: Plan)
    requires SettingUp(s, a, p, |SetupOf(a)|)
    requires p.transactional == a.transactional && p.script == Script(a)
    requires p.lockTimeoutMs == a.lockTimeoutMs && p.owner == a.owner
    ensures OnPlan(s, p, 0)
  {
    hide Free;
    assert p.script[..0] == [];
    assert p.durable + [] == p.durable;
  }

  /** The log since `n` holds the first `k` setup commands, all of which took effect. */
  predicate SetupLog(log: seq<Exchange>, n: nat, a: Attempt, k: nat) {
    && k <= |SetupOf(a)| && |log| == n + k
    && Sent(log, n, SetupOf(a)[..k]) && AllDone(log, n, k)
  }

  method SetupQuery(client: Client, c: Command, a: Attempt, ghost p: Plan, ghost k: nat, ghost n: nat)
    returns (r: Result)
    requires k < |SetupOf(a)| && c == SetupOf(a)[k]
    requires SettingUp(client.st, a, p, k) && SetupLog(client.log, n, a, k)
    requires client.Valid()
    modifies client
    ensures client.Valid()
    ensures old(client.log) <= client.log
    ensures r.Ok? ==> SettingUp(client.st, a, p, k + 1) && SetupLog(client.log, n, a, k + 1)
    ensures r.Thrown? ==>
      && SetupFailed(client.st, a, p, k) && EndsIn(client.log, n, r.error) && Root(r.error) == r.error
      && |client.log| == n + k + 1 && SetupLog(client.log[..n + k], n, a, k) && client.log[n + k].cmd == c
  {
    hide Respects, HasBound, AsOwner, SetupFailed, SettingUp, Legal, Next, SetupOf, IsLog, Smooth, EndsIn;
    SetupSends(a);
    SetupSmooth(client.log, n, a, k);
    r := client.Query(c);
    SmoothMore(old(client.log), client.log, n);
    ghost var e := client.log[n + k];
    assert client.log[..n + k] == old(client.log);
    SetupStep(e.before, c, e.reply, a, p, k);
  }

  method Setup(client: Client, a: Attempt) returns (r: Result, ghost k: nat)
    requires client.st.tx.Idle?
    requires client.Valid()
    modifies client
    ensures client.Valid()
    ensures old(client.log) <= client.log
    ensures r.Ok? ==>
      && OnPlan(client.st, PlanOf(a, old(client.st)), 0)
      && SetupLog(client.log, |old(client.log)|, a, |SetupOf(a)|)
    ensures r.Thrown? ==>
      && EndsIn(client.log, |old(client.log)|, r.error) && Root(r.error) == r.error
      && SetupFailed(client.st, a, PlanOf(a, old(client.st)), k)
      && k < |SetupOf(a)| && |client.log| == |old(client.log)| + k + 1
      && SetupLog(client.log[..|client.log| - 1], |old(client.log)|, a, k)
      && client.log[|client.log| - 1].cmd == SetupOf(a)[k]
  {
    hide OnPlan, Script, Respects, HasBound, AsOwner, SetupFailed, SettingUp, SetupLog, EndsIn, IsLog;
    ghost var p, n := PlanOf(a, client.st), |client.log|;
    SetupBegins(client.st, client.log, a);
    k := 0;
    if a.transactional {
      r := SetupQuery(client, Begin(false), a, p, 0, n);
      if r.Thrown? { return; }
      k := 1;
      r := SetupQuery(client, SetLocal(LockTimeout, Millis(a.lockTimeoutMs)), a, p, 1, n);
      if r.Thrown? { return; }
      k := 2;
      if a.owner.Some? {
        r := SetupQuery(client, SetLocal(Role, Name(a.owner.value)), a, p, 2, n);
        if r.Thrown? { return; }
      }
    } else {
      r := SetupQuery(client, Set(LockTimeout, Millis(a.lockTimeoutMs)), a, p, 0, n);
      if r.Thrown? { return; }
      k := 1;
      if a.owner.Some? {
        r := SetupQuery(client, Set(Role, Name(a.owner.value)), a, p, 1, n);
        if r.Thrown? { return; }
      }
    }
    SetupDone(client.st, a, p);
  }

  lemma SetupBegins(s: State, log: seq<Exchange>, a: Attempt)
    requires s.tx.Idle?
    ensures SettingUp(s, a, PlanOf(a, s), 0) && SetupLog(log, |log|, a, 0)
  {
  }

  // ---------------------------------------------------------------------
  // Body and ledger row
  // ---------------------------------------------------------------------

  const APPLICATION_PATH := Name("public, pg_catalog")

  /** The application's own search path and row security, for the session's next user. */
  predicate Restored(s: Settings) {
    Read(s, SearchPath) == Some(Name("public, pg_catalog")) && Read(s, RowSecurity) == Some(On)
  }

  /** The script is durable as a whole, and the lock bound and the role have not leaked into the session. */
  predicate Finished(s: State, p: Plan) {
    && s.tx.Idle? && s.durable == p.durable + p.script
    && Restored(s.base)
    && (p.transactional ==>
          forall g | g == LockTimeout || g == Role :: Free(p, g) ==> Read(s.base, g) == Read(p.base, g))
  }

  /**
   * The attempt failed. In a transaction nothing is durable, except that the
   * commit may have been carried out when its reply was lost. Outside one,
   * the ledger row is durable only if the reply to it was lost.
   */
  predicate Broken(s: State, p: Plan, error: Error, at: nat, partial: bool) {
    || (Stopped(s, p, at, partial) && (!p.transactional && at == |p.script| ==> error == ConnectionLost))
    || (p.transactional && s.tx.Dead? && s.durable == p.durable + p.script && error == ConnectionLost)
  }

  lemma CommitStep(s: State, r: Reply, p: Plan)
    requires p.transactional && OnPlan(s, p, |p.script|) && Legal(s, Commit, r)
    requires Restored(Lasting(s))
    ensures r.Done? ==> Finished(Next(s, Commit, r), p)
    ensures r.Failed? ==> Stopped(Next(s, Commit, r), p, 0, false)
    ensures r.Lost? ==> Broken(Next(s, Commit, r), p, ConnectionLost, 0, false)
  {
    hide Free, Guarded, Restored;
    assert p.script[..|p.script|] == p.script;
  }

  lemma FinishedWithoutTransaction(s: State, p: Plan)
    requires !p.transactional && OnPlan(s, p, |p.script|) && Restored(Lasting(s))
    ensures Finished(s, p)
  {
    assert p.script[..|p.script|] == p.script;
  }

  lemma BodyStands(a: Attempt, s: State)
    ensures var p := PlanOf(a, s);
      && (a.transactional && a.deferred.Some? ==> p.script[0] == Ran(a.deferred.value.sql) && BodyAt(p, a.body, 1))
      && (a.transactional && a.deferred.None? ==> BodyAt(p, a.body, 0))
      && (!a.transactional ==> BodyAt(p, a.body, 0) && |p.script| == |Split(a.body)| + 1)
      && |p.script| >= 1 && p.script[|p.script| - 1] == Recorded(a.filename, a.digest)
      && (a.transactional ==> |p.script| == (if a.deferred.Some? then 3 else 2))
  {
    hide Split;
  }

  /** The body, behind a preflight that was put off until now. */
  method ApplyBody(client: Client, a: Attempt, ghost s: State, ghost n: nat)
    returns (r: Result, ghost at: nat, ghost partial: bool)
    requires a.deferred.Some? ==> a.transactional
    requires OnPlan(client.st, PlanOf(a, s), 0)
    requires n <= |client.log| && AllGuarded(client.log, n, PlanOf(a, s)) && Smooth(client.log, n)
    requires client.Valid()
    modifies client
    ensures client.Valid()
    ensures old(client.log) <= client.log && AllGuarded(client.log, n, PlanOf(a, s))
    ensures r.Ok? ==> at == |PlanOf(a, s).script| - 1 && OnPlan(client.st, PlanOf(a, s), at)
    ensures r.Ok? && a.deferred.Some? ==> ClearedBy(client.log, |old(client.log)|, a.deferred.value)
    ensures a.deferred.Some? ==> OnlyIfCleared(client.log, |old(client.log)|, a.deferred.value)
    ensures r.Thrown? ==> Stopped(client.st, PlanOf(a, s), at, partial)
    ensures r.Ok? ==> Smooth(client.log, n)
    ensures r.Thrown? ==> if r.error == Refused then Smooth(client.log, n) else Honest(client.log, n, r.error)
    ensures r.Thrown? && !a.transactional ==> NamesStep(r.error, at, |Split(a.body)|) && at <= |Split(a.body)|
  {
    hide OnPlan, AllGuarded, Stopped, Honest, Split, Script, BodyAt, Clears, NamesStep, EndsIn, IsLog, Smooth, ClearedBy, OnlyIfCleared;
    ghost var p := PlanOf(a, s);
    BodyStands(a, s);
    at, partial := 0, false;
    if a.deferred.Some? {
      r := BeforeBody(client, a.deferred.value, p, n);
      if r.Thrown? {
        at :| Stopped(client.st, p, at, false);
        RawIsHonest(client.log, n, r.error);
        return;
      }
      at := 1;
    }
    ghost var log := client.log;
    r, at, partial := ExecuteMigrationBody(client, a.body, a.transactional, p, at, n);
    if a.deferred.Some? {
      ClearedForGood(log, client.log, |old(client.log)|, |old(client.log)|, a.deferred.value);
    }
  }

  method ApplyAndRecord(client: Client, a: Attempt, ghost s: State, ghost n: nat)
    returns (r: Result, ghost at: nat, ghost partial: bool)
    requires a.deferred.Some? ==> a.transactional
    requires OnPlan(client.st, PlanOf(a, s), 0)
    requires n <= |client.log| && AllGuarded(client.log, n, PlanOf(a, s)) && Smooth(client.log, n)
    requires client.Valid()
    modifies client
    ensures client.Valid()
    ensures old(client.log) <= client.log && AllGuarded(client.log, n, PlanOf(a, s))
    ensures r.Ok? ==> Finished(client.st, PlanOf(a, s))
    ensures r.Ok? && a.deferred.Some? ==> ClearedBy(client.log, |old(client.log)|, a.deferred.value)
    ensures a.deferred.Some? ==> OnlyIfCleared(client.log, |old(client.log)|, a.deferred.value)
    ensures r.Thrown? ==> Broken(client.st, PlanOf(a, s), r.error, at, partial)
    ensures r.Ok? ==> Smooth(client.log, n)
    ensures r.Thrown? ==> if r.error == Refused then Smooth(client.log, n) else Honest(client.log, n, r.error)
    ensures r.Thrown? && !a.transactional ==> NamesStep(r.error, at, |Split(a.body)|) || at >= |Split(a.body)|
  {
    hide OnPlan, AllGuarded, Stopped, Honest, Split, Script, Finished, BodyAt, ClearedBy, NamesStep, Restored, Lasting, EndsIn,
         IsLog, Smooth, OnlyIfCleared;
    ghost var p := PlanOf(a, s);
    BodyStands(a, s);
    r, at, partial := ApplyBody(client, a, s, n);
    if r.Thrown? { return; }
    ghost var log := client.log;
    r, at, partial := Issue(client, Set(SearchPath, APPLICATION_PATH), p, at, n);
    ClearedStays(log, client.log, |old(client.log)|, a);
    if r.Thrown? { RawIsHonest(client.log, n, r.error); return; }
    r, at, partial := Issue(client, Set(RowSecurity, On), p, at, n);
    ClearedStays(log, client.log, |old(client.log)|, a);
    if r.Thrown? { RawIsHonest(client.log, n, r.error); return; }
    r, at, partial := Issue(client, Record(a.filename, a.digest), p, at, n);
    ClearedStays(log, client.log, |old(client.log)|, a);
    if r.Thrown? { RawIsHonest(client.log, n, r.error); return; }
    RestoredNow(Lasting(client.st));
    if a.transactional {
      at, partial := 0, false;
      r := CommitQuery(client, p, n);
    } else {
      FinishedWithoutTransaction(client.st, p);
    }
    ClearedStays(log, client.log, |old(client.log)|, a);
  }

  lemma ClearedStays(log: seq<Exchange>, log': seq<Exchange>, n: nat, a: Attempt)
    requires log <= log'
    ensures a.deferred.Some? && ClearedBy(log, n, a.deferred.value) ==>
      ClearedBy(log', n, a.deferred.value) && (OnlyIfCleared(log, n, a.deferred.value) ==> OnlyIfCleared(log', n, a.deferred.value))
  {
    hide Clears;
    if a.deferred.Some? && ClearedBy(log, n, a.deferred.value) && OnlyIfCleared(log, n, a.deferred.value) {
      BehindClearance(log, log', n, a.deferred.value);
    }
  }

  lemma BehindClearance(log: seq<Exchange>, log': seq<Exchange>, n: nat, d: DeferredPreflight)
    requires log <= log' && ClearedBy(log, n, d) && OnlyIfCleared(log, n, d)
    ensures OnlyIfCleared(log', n, d)
  {
    hide Clears;
    var first := log[..n + 3];
    forall i | n <= i < |first| && IsWork(first[i].cmd) ensures first[i].cmd == Sql(d.sql) {
      assert first[i] == log[i];
    }
    OnlyPreflight(first, n, d);
    ClearedForGood(first, log', n, n, d);
  }

  lemma RestoredNow(s: Settings)
    requires Read(s, SearchPath) == Some(APPLICATION_PATH) && Read(s, RowSecurity) == Some(On)
    ensures Restored(s)
  {
  }

  lemma RawIsHonest(log: seq<Exchange>, n: nat, error: Error)
    requires error == Refused || (EndsIn(log, n, error) && Root(error) == error)
    ensures error == Refused || Honest(log, n, error)
  {
  }

  method CommitQuery(client: Client, ghost p: Plan, ghost n: nat) returns (r: Result)
    requires p.transactional && OnPlan(client.st, p, |p.script|) && Restored(Lasting(client.st))
    requires n <= |client.log| && AllGuarded(client.log, n, p) && Smooth(client.log, n)
    requires client.Valid()
    modifies client
    ensures client.Valid()
    ensures old(client.log) <= client.log && AllGuarded(client.log, n, p)
    ensures r.Ok? ==> Finished(client.st, p)
    ensures r.Ok? ==> Smooth(client.log, n)
    ensures r.Thrown? ==> Broken(client.st, p, r.error, 0, false) && Honest(client.log, n, r.error) && r.error != Refused
  {
    hide OnPlan, Stopped, Finished, Legal, Next, Guarded, IsLog, Smooth, EndsIn, Broken;
    r := client.Query(Commit);
    ghost var e := client.log[|client.log| - 1];
    SmoothMore(old(client.log), client.log, n);
    CommitStep(e.before, e.reply, p);
    if e.reply.Failed? {
      NothingCommitted(client.st, p);
    }
    assert r.Thrown? ==> Root(r.error) == r.error;
  }

  lemma NothingCommitted(s: State, p: Plan)
    requires Stopped(s, p, 0, false) && p.transactional
    ensures forall error: Error :: Broken(s, p, error, 0, false)
  {
  }

  // ---------------------------------------------------------------------
  // The whole attempt
  // ---------------------------------------------------------------------

  /** Resetting neither loses nor adds durable work, nor touches other settings. */
  predicate Resetting(s: State, s': State, gs: set<Guc>) {
    && s'.durable == s.durable
    && (s.tx.Dead? ==> s'.tx.Dead?) && (s.tx.Idle? ==> s'.tx.Idle? || s'.tx.Dead?)
    && (forall g :: g !in gs ==> Read(s'.base, g) == Read(s.base, g))
  }

  lemma ResetStep(s: State, g: Guc, r: Reply)
    requires (s.tx.Idle? || s.tx.Dead?) && Legal(s, Reset(g), r)
    ensures Resetting(s, Next(s, Reset(g), r), {g})
    ensures r.Done? ==> g !in Next(s, Reset(g), r).base
  {
  }

  /** Takes the session-level bound and role back; a refusal is swallowed. */
  method RestoreSession(client: Client, a: Attempt)
    requires !a.transactional && (client.st.tx.Idle? || client.st.tx.Dead?)
    requires client.Valid()
    modifies client
    ensures client.Valid()
    ensures old(client.log) <= client.log
    ensures |client.log| == |old(client.log)| + |ResetsOf(a)|
    ensures Sent(client.log, |old(client.log)|, ResetsOf(a))
    ensures Resetting(old(client.st), client.st, {LockTimeout, Role})
    ensures AllDone(client.log, |old(client.log)|, |ResetsOf(a)|) ==>
      LockTimeout !in client.st.base && (a.owner.Some? ==> Role !in client.st.base)
  {
    hide Legal, Next, IsLog;
    var n := |client.log|;
    var r := client.Query(Reset(LockTimeout));
    ResetStep(client.log[n].before, LockTimeout, client.log[n].reply);
    if a.owner.Some? {
      r := client.Query(Reset(Role));
      ResetStep(client.log[n + 1].before, Role, client.log[n + 1].reply);
      assert LockTimeout in client.st.base ==> Read(client.st.base, LockTimeout).Some?;
    }
  }

  /** A complete attempt: body and ledger row are durable, in order, and the session's defaults are back. */
  predicate Complete(s: State, p: Plan) {
    && s.durable == p.durable + p.script
    && Restored(s.base)
    && (p.transactional ==> Finished(s, p))
  }

  /**
   * A failed attempt. In a transaction, body and ledger row are durable
   * together or not at all; outside one, exactly the first `at` effects are,
   * with perhaps the debris of the next. Only a lost reply hides a success.
   */
  predicate FailedAt(s: State, p: Plan, error: Error, at: nat, partial: bool) {
    if p.transactional then
      || (s.durable == p.durable && s.base == p.base)
      || (s.durable == p.durable + p.script && s.tx.Dead? && error == ConnectionLost)
    else
      && at <= |p.script| && (partial ==> at < |p.script| && p.script[at].Ran?)
      && s.durable == p.durable + Reached(p.script, at, partial)
      && (s.tx.Idle? || s.tx.Dead?)
      && (at == |p.script| ==> error == ConnectionLost)
  }

  /** A failure outside a transaction names the step, unless the body is through or was never reached. */
  predicate Located(error: Error, at: nat, a: Attempt, inBody: bool) {
    !a.transactional && inBody ==> NamesStep(error, at, |Split(a.body)|) || at >= |Split(a.body)|
  }

  /** The whole setup took effect. */
  predicate SetupComplete(log: seq<Exchange>, n: nat, a: Attempt) { AllDone(log, n, |SetupOf(a)|) }

  /** The log ends with the resets. */
  predicate EndsWithResets(log: seq<Exchange>, n: nat, a: Attempt) {
    |log| - |ResetsOf(a)| >= n && Sent(log, |log| - |ResetsOf(a)|, ResetsOf(a))
  }

  /** The bound and the role are gone from the session, if the server took the resets. */
  predicate ResetIfTaken(s: State, log: seq<Exchange>, a: Attempt) {
    |log| >= |ResetsOf(a)| && AllDone(log, |log| - |ResetsOf(a)|, |ResetsOf(a)|) && !a.transactional ==>
      LockTimeout !in s.base && (a.owner.Some? ==> Role !in s.base)
  }

  predicate NoResets(log: seq<Exchange>, n: nat) {
    forall i :: n <= i < |log| ==> !log[i].cmd.Reset?
  }

  /** Since the first `n` exchanges the first to fail got this error, and only cleaning up came after it. */
  predicate FailsFirst(log: seq<Exchange>, n: nat, error: Error) {
    exists j :: n < j <= |log| && FailsBy(log, n, j, error)
  }

  predicate FailsBy(log: seq<Exchange>, n: nat, j: nat, error: Error)
    requires j <= |log|
  {
    EndsIn(log[..j], n, error) && OnlyCleanup(log, j)
  }

  predicate OnlyCleanup(log: seq<Exchange>, n: nat) {
    forall i :: n <= i < |log| ==> IsCleanup(log[i].cmd)
  }

  /** What was thrown is what the server answered to the first exchange that failed, and a lock timeout shows as one. */
  predicate Answered(log: seq<Exchange>, n: nat, error: Error) {
    && (IsLockTimeout(error) <==> IsLockTimeout(Root(error)))
    && FailsFirst(log, n, Root(error))
  }

  /** With a preflight put off until now, nothing else is sent as work before it has cleared the migration. */
  ghost predicate PreflightFirst(log: seq<Exchange>, n: nat, a: Attempt) {
    a.deferred.Some? ==> OnlyIfCleared(log, n, a.deferred.value)
  }

  predicate NoWork(log: seq<Exchange>, n: nat, m: nat)
    requires m <= |log|
  {
    forall i :: n <= i < m ==> !IsWork(log[i].cmd)
  }

  lemma NoWorkNeedsNoClearance(log: seq<Exchange>, n: nat, a: Attempt)
    requires NoWork(log, n, |log|)
    ensures PreflightFirst(log, n, a)
  {
    if a.deferred.Some? {
      OnlyPreflight(log, n, a.deferred.value);
    }
  }

  /** Setting up before and resetting after do not matter to that. */
  lemma ClearanceStays(done: seq<Exchange>, log: seq<Exchange>, n: nat, m: nat, d: DeferredPreflight)
    requires n <= m <= |done| && done <= log && NoWork(done, n, m) && NoWork(log, |done|, |log|)
    requires OnlyIfCleared(done, m, d)
    ensures OnlyIfCleared(log, n, d)
  {
    hide Clears;
    forall i | n <= i < |log| && IsWork(log[i].cmd) && log[i].cmd != Sql(d.sql) ensures ClearedBefore(log, n, i, d) {
      assert log[i] == done[i];
      var q :| m <= q && q + 2 < i && ClearedBy(done, q, d);
      assert ClearedBy(log, q, d);
    }
  }

  lemma ResetsAreNoWork(done: seq<Exchange>, log: seq<Exchange>, a: Attempt)
    requires done <= log && |log| == |done| + |ResetsOf(a)| && Sent(log, |done|, ResetsOf(a))
    ensures NoWork(log, |done|, |log|)
  {
    forall i | |done| <= i < |log| ensures !IsWork(log[i].cmd) {
      assert log[i].cmd == ResetsOf(a)[i - |done|];
    }
  }

  lemma WholeClearance(done: seq<Exchange>, log: seq<Exchange>, a: Attempt, n: nat, m: nat)
    requires n <= m <= |done| && done <= log && |log| == |done| + |ResetsOf(a)| && Sent(log, |done|, ResetsOf(a))
    requires NoWork(done, n, m) && PreflightFirst(done, m, a)
    ensures PreflightFirst(log, n, a)
  {
    hide OnlyIfCleared, Sent, ResetsOf, NoWork;
    ResetsAreNoWork(done, log, a);
    if a.deferred.Some? {
      ClearanceStays(done, log, n, m, a.deferred.value);
    }
  }

  lemma ReadyIsNoWork(ready: seq<Exchange>, log: seq<Exchange>, n: nat, a: Attempt)
    requires SetupLog(ready, n, a, |SetupOf(a)|) && ready <= log
    ensures n <= |ready| <= |log| && NoWork(log, n, |ready|)
  {
    hide SetupOf;
    SetupSends(a);
    forall i | n <= i < |ready| ensures !IsWork(log[i].cmd) {
      assert ready[i].cmd == SetupOf(a)[..|SetupOf(a)|][i - n];
      assert log[i] == ready[i];
    }
  }

  lemma Misused(s: State, log: seq<Exchange>, a: Attempt)
    requires s.tx.Idle? && !a.transactional
    ensures var n, p := |log|, PlanOf(a, s);
      && FailedAt(s, p, Refused, 0, false) && AllGuarded(log, n, p) && PreflightFirst(log, n, a)
      && !SetupComplete(log, n, a) && NoResets(log, n) && Located(Refused, 0, a, false)
  {
    hide Split;
    assert s.durable + [] == s.durable;
    NoWorkNeedsNoClearance(log, |log|, a);
  }

  lemma SetupSends(a: Attempt)
    ensures forall i :: 0 <= i < |SetupOf(a)| ==>
      var c := SetupOf(a)[i]; !c.Sql? && !c.Record? && !IsCleanup(c) && !c.Connect?
    ensures 1 <= |SetupOf(a)| <= 3
  {
  }

  lemma AfterSetup(s': State, log: seq<Exchange>, a: Attempt, s: State, n: nat, k: nat, error: Error)
    requires k < |SetupOf(a)| && |log| == n + k + 1
    requires SetupFailed(s', a, PlanOf(a, s), k)
    requires SetupLog(log[..n + k], n, a, k) && log[n + k].cmd == SetupOf(a)[k]
    requires EndsIn(log, n, error) && Root(error) == error && error != Refused
    ensures FailedAt(s', PlanOf(a, s), error, 0, false)
    ensures Answered(log, n, error) && Located(error, 0, a, false)
    ensures AllGuarded(log, n, PlanOf(a, s)) && NoResets(log, n) && !SetupComplete(log, n, a) && PreflightFirst(log, n, a)
    ensures !a.transactional && |log| == n + 2 ==> s'.tx.Dead? || HasBound(s', a.lockTimeoutMs)
  {
    hide SetupOf, HasBound, Guarded, Split, Smooth, EndsIn, Answered, AllGuarded, NoResets, SetupComplete, SetupLog, Script, PreflightFirst;
    assert s.durable + [] == s.durable;
    ScriptStarts(a);
    FailureIsAnswered(log, n, error);
    SetupCommands(log, a, n, k);
    SetupIsNotComplete(log, a, n, k, error);
    SetupSendsNoText(log, a, n, k, PlanOf(a, s));
    NoWorkNeedsNoClearance(log, n, a);
  }

  lemma ScriptStarts(a: Attempt)
    ensures Script(a) != [] && Reached(Script(a), 0, false) == []
  {
    hide Split;
  }

  lemma FailureIsAnswered(log: seq<Exchange>, n: nat, error: Error)
    requires EndsIn(log, n, error) && Root(error) == error
    ensures Answered(log, n, error)
  {
    hide Smooth;
    assert log[..|log|] == log;
    assert FailsBy(log, n, |log|, error);
  }

  lemma SetupCommands(log: seq<Exchange>, a: Attempt, n: nat, k: nat)
    requires k < |SetupOf(a)| && |log| == n + k + 1
    requires SetupLog(log[..n + k], n, a, k) && log[n + k].cmd == SetupOf(a)[k]
    ensures forall i :: n <= i <= n + k ==> log[i].cmd == SetupOf(a)[i - n]
  {
    hide SetupOf;
    forall i | n <= i < n + k ensures log[i].cmd == SetupOf(a)[i - n] {
      assert log[..n + k][i] == log[i];
    }
  }

  lemma SetupIsNotComplete(log: seq<Exchange>, a: Attempt, n: nat, k: nat, error: Error)
    requires k < |SetupOf(a)| && |log| == n + k + 1 && EndsIn(log, n, error)
    ensures !SetupComplete(log, n, a)
  {
    hide SetupOf, Smooth;
    assert !log[n + k].reply.Done?;
  }

  lemma SetupSendsNoText(log: seq<Exchange>, a: Attempt, n: nat, k: nat, p: Plan)
    requires k < |SetupOf(a)| && |log| == n + k + 1
    requires forall i :: n <= i <= n + k ==> log[i].cmd == SetupOf(a)[i - n]
    ensures AllGuarded(log, n, p) && NoResets(log, n) && NoWork(log, n, |log|)
  {
    hide SetupOf, Guarded;
    SetupSends(a);
    forall i | n <= i < |log| ensures !log[i].cmd.Sql? && !log[i].cmd.Record? && !log[i].cmd.Reset? {
      assert log[i].cmd == SetupOf(a)[i - n];
    }
  }

  lemma SetupSmooth(log: seq<Exchange>, n: nat, a: Attempt, k: nat)
    requires SetupLog(log, n, a, k)
    ensures n <= |log| && Smooth(log, n)
  {
    hide SetupOf, IsCleanup;
    SetupSends(a);
  }

  lemma SetupIsGuarded(log: seq<Exchange>, n: nat, a: Attempt, p: Plan)
    requires SetupLog(log, n, a, |SetupOf(a)|)
    ensures n <= |log| && AllGuarded(log, n, p)
  {
    hide SetupOf, Guarded;
    SetupSends(a);
  }

  lemma EitherWay(s: State, p: Plan, r: Result, at: nat, partial: bool)
    requires !p.transactional
    requires if r.Ok? then Finished(s, p) else Broken(s, p, r.error, at, partial)
    ensures s.tx.Idle? || s.tx.Dead?
  {
  }

  /** The outcome of the guarded part, seen after the resets. */
  lemma OutcomeStays(s: State, s': State, p: Plan, r: Result, at: nat, partial: bool)
    requires if r.Ok? then Finished(s, p) else Broken(s, p, r.error, at, partial)
    requires if p.transactional then s' == s else Resetting(s, s', {LockTimeout, Role})
    ensures r.Ok? ==> Complete(s', p)
    ensures r.Thrown? ==> FailedAt(s', p, r.error, at, partial)
  {
    hide Free;
    if !p.transactional && r.Ok? {
      assert Read(s'.base, SearchPath) == Read(s.base, SearchPath);
      assert Read(s'.base, RowSecurity) == Read(s.base, RowSecurity);
    }
  }

  /** The log of the guarded part, seen after the resets. */
  lemma LogStays(done: seq<Exchange>, log: seq<Exchange>, a: Attempt, n: nat, m: nat, p: Plan)
    requires n <= m <= |done| && done <= log && |log| == |done| + |ResetsOf(a)| && Sent(log, |done|, ResetsOf(a))
    requires AllGuarded(done, n, p)
    ensures AllGuarded(log, n, p) && EndsWithResets(log, n, a)
    ensures a.deferred.Some? && ClearedBy(done, m, a.deferred.value) ==> ClearedBy(log, m, a.deferred.value)
  {
    hide Guarded;
    forall i | |done| <= i < |log| ensures log[i].cmd.Reset? {
      assert log[i].cmd == ResetsOf(a)[i - |done|];
    }
  }

  /** The resets may fail: the first failure stays the first. */
  lemma AnswerStays(done: seq<Exchange>, log: seq<Exchange>, a: Attempt, n: nat, r: Result)
    requires n <= |done| && done <= log && |log| == |done| + |ResetsOf(a)| && Sent(log, |done|, ResetsOf(a))
    requires r.Ok? ==> Smooth(done, n)
    requires r.Thrown? ==> if r.error == Refused then Smooth(done, n) else Honest(done, n, r.error)
    ensures r.Ok? ==> Smooth(log, n)
    ensures r.Thrown? ==> if r.error == Refused then Smooth(log, n) else Answered(log, n, r.error)
  {
    forall i | |done| <= i < |log| ensures IsCleanup(log[i].cmd) {
      assert log[i].cmd == ResetsOf(a)[i - |done|];
    }
    if r.Thrown? && r.error != Refused {
      assert log[..|done|] == done;
      assert FailsBy(log, n, |done|, Root(r.error));
    } else {
      assert forall i :: n <= i < |done| ==> log[i] == done[i];
    }
  }

  method ExecuteMigrationAttempt(client: Client, a: Attempt)
    returns (r: Result, ghost at: nat, ghost partial: bool)
    requires client.st.tx.Idle?
    requires client.Valid()
    modifies client
    ensures client.Valid()
    ensures old(client.log) <= client.log
    ensures a.deferred.Some? && !a.transactional ==>
      r == PgSession.Thrown(Refused) && client.st == old(client.st) && client.log == old(client.log) && at == 0 && !partial
    ensures r.Ok? ==> Complete(client.st, PlanOf(a, old(client.st)))
    ensures r.Ok? && a.deferred.Some? ==>
      ClearedBy(client.log, |old(client.log)| + |SetupOf(a)|, a.deferred.value)
    ensures r.Thrown? ==> FailedAt(client.st, PlanOf(a, old(client.st)), r.error, at, partial)
    ensures r.Ok? ==> Smooth(client.log, |old(client.log)|)
    ensures r.Thrown? ==>
      if r.error == Refused then Smooth(client.log, |old(client.log)|) else Answered(client.log, |old(client.log)|, r.error)
    ensures r.Thrown? ==> Located(r.error, at, a, SetupComplete(client.log, |old(client.log)|, a))
    ensures AllGuarded(client.log, |old(client.log)|, PlanOf(a, old(client.st)))
    ensures PreflightFirst(client.log, |old(client.log)|, a)
    ensures SetupComplete(client.log, |old(client.log)|, a) ==>
      EndsWithResets(client.log, |old(client.log)|, a) && ResetIfTaken(client.st, client.log, a)
    ensures !SetupComplete(client.log, |old(client.log)|, a) ==> NoResets(client.log, |old(client.log)|)
    ensures !a.transactional && !SetupComplete(client.log, |old(client.log)|, a) && |client.log| == |old(client.log)| + 2 ==>
      client.st.tx.Dead? || HasBound(client.st, a.lockTimeoutMs)
  {
    hide OnPlan, AllGuarded, SetupLog, SetupOf, ResetsOf, Script, SetupFailed, EndsIn, Finished, Complete, Broken,
         FailedAt, Honest, Answered, NamesStep, Located, SetupComplete, EndsWithResets, NoResets, ClearedBy, Sent,
         AllDone, Resetting, HasBound, Split, ResetIfTaken, IsLog, Smooth, OnlyIfCleared, NoWork;
    at, partial := 0, false;
    ghost var s, n := client.st, |client.log|;
    ghost var p := PlanOf(a, s);
    if a.deferred.Some? && !a.transactional {
      r := PgSession.Thrown(Refused);
      Misused(s, client.log, a);
      SmoothNothing(client.log);
      return;
    }
    ghost var k;
    r, k := Setup(client, a);
    if r.Thrown? {
      EndsInServerError(client.log, n, r.error);
      AfterSetup(client.st, client.log, a, s, n, k, r.error);
      return;
    }
    ghost var ready := client.log;
    SetupIsGuarded(ready, n, a, p);
    SetupSmooth(ready, n, a, |SetupOf(a)|);
    SetupStays(ready, ready, n, a);
    r, at, partial := ApplyAndRecord(client, a, s, n);
    ghost var applied, done := client.st, client.log;
    if a.transactional {
      NothingToReset(done, a);
    } else {
      EitherWay(applied, p, r, at, partial);
      RestoreSession(client, a);
    }
    OutcomeStays(applied, client.st, p, r, at, partial);
    LogStays(done, client.log, a, n, |ready|, p);
    ReadyIsNoWork(ready, done, n, a);
    WholeClearance(done, client.log, a, n, |ready|);
    SetupStays(ready, client.log, n, a);
    LocatedInBody(r, at, a);
    ResetsTaken(client.st, done, client.log, a);
    AnswerStays(done, client.log, a, n, r);
  }

  lemma NothingToReset(log: seq<Exchange>, a: Attempt)
    requires a.transactional
    ensures |ResetsOf(a)| == 0 && Sent(log, |log|, ResetsOf(a))
  {
  }

  lemma SetupStays(ready: seq<Exchange>, log: seq<Exchange>, n: nat, a: Attempt)
    requires SetupLog(ready, n, a, |SetupOf(a)|) && ready <= log
    ensures |ready| == n + |SetupOf(a)| > n && SetupComplete(log, n, a)
  {
    hide SetupOf;
    SetupSends(a);
  }

  lemma ResetsTaken(s: State, done: seq<Exchange>, log: seq<Exchange>, a: Attempt)
    requires |log| == |done| + |ResetsOf(a)|
    requires !a.transactional && AllDone(log, |done|, |ResetsOf(a)|) ==>
               LockTimeout !in s.base && (a.owner.Some? ==> Role !in s.base)
    ensures ResetIfTaken(s, log, a)
  {
    hide AllDone, ResetsOf;
  }

  lemma LocatedInBody(r: Result, at: nat, a: Attempt)
    requires r.Thrown? && !a.transactional ==> NamesStep(r.error, at, |Split(a.body)|) || at >= |Split(a.body)|
    ensures r.Thrown? ==> Located(r.error, at, a, true)
  {
    hide Split;
  }

  // ---------------------------------------------------------------------
  // What the texts of an attempt leave alone
  // ---------------------------------------------------------------------

  predicate SqlFree(a: Attempt, g: Guc) {
    && FreeOf(Ran(a.body), g, a.transactional)
    && (a.deferred.Some? ==> FreeOf(Ran(a.deferred.value.sql), g, a.transactional))
  }

  /** What the body as a whole does not set, no query of the attempt sets. */
  lemma BodyIsFree(a: Attempt, s: State, g: Guc)
    requires SqlFree(a, g) && (g == LockTimeout || g == Role)
    ensures Free(PlanOf(a, s), g)
  {
    hide Split, Quiet, Mentions;
    var script := Script(a);
    if !a.transactional {
      if g == LockTimeout {
        QuietIffStatements(a.body, false);
      } else {
        StatementsAreRoleFree(a.body);
      }
      forall i | 0 <= i < |script| ensures FreeOf(script[i], g, false) {
        if i < |script| - 1 {
          assert script[i] == Ran(Split(a.body)[i]);
          assert Split(a.body)[i] in Split(a.body);
        }
      }
    }
  }

  // ---------------------------------------------------------------------
  // A setup that fails half-way
  // ---------------------------------------------------------------------

  /** The server takes the session's lock bound, and then refuses the role. */
  function RoleRefused(base: Settings, durable: seq<Effect>, ms: int, role: string): seq<Exchange> {
    var idle := State(Idle, base, durable);
    [ Exchange(Set(LockTimeout, Millis(ms)), idle, Done([], map[], map[])),
      Exchange(Set(Role, Name(role)), idle.(base := base[LockTimeout := Millis(ms)]), Failed("42501", false)) ]
  }

  /**
   * Outside a transaction that is the whole log of an attempt: its setup is
   * not complete, so no reset was sent, and the bound outlives it.
   */
  lemma RefusedRoleLeavesBound(base: Settings, durable: seq<Effect>, ms: int, role: string, a: Attempt)
    requires !a.transactional && a.owner == Some(role) && a.lockTimeoutMs == ms
    ensures var log := RoleRefused(base, durable, ms, role);
      && Legal(log[0].before, log[0].cmd, log[0].reply) && Legal(log[1].before, log[1].cmd, log[1].reply)
      && log[1].before == Next(log[0].before, log[0].cmd, log[0].reply)
      && Sent(log, 0, SetupOf(a)) && !SetupComplete(log, 0, a) && NoResets(log, 0)
      && var after := Next(log[1].before, log[1].cmd, log[1].reply);
         after.tx.Idle? && Read(after.base, LockTimeout) == Some(Millis(ms))
  {
    var log := RoleRefused(base, durable, ms, role);
    assert !log[1].reply.Done?;
  }
}
