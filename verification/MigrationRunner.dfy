/** Applying one migration: the body, and one attempt on one connection. */
module MigrationRunner {
  import opened Options
  import opened SqlLexer
  import opened StatementSplitter
  import opened LockEffects
  import opened PgSession
  import opened Findings

  const LOCK_NOT_AVAILABLE := "55P03"

  /** Only an error that the server sent carries the code. */
  predicate IsLockNotAvailable(e: Error) { e == ServerError(LOCK_NOT_AVAILABLE) }

  /** The error of a lock wait that ran out. */
  predicate IsLockTimeout(e: Error) { e.ServerError? && e.code == "55P03" }

  /** The failure under the wrapping that names a step. */
  function Root(e: Error): Error {
    if e.StepFailed? then Root(e.cause) else e
  }

  datatype DeferredPreflight = DeferredPreflight(filename: string, ordinal: string, sql: string, timeoutMs: int)

  datatype Attempt = Attempt(
    filename: string,
    body: string,
    transactional: bool,
    lockTimeoutMs: int,
    digest: string,
    deferred: Option<DeferredPreflight>,
    owner: Option<string>)

  // ---------------------------------------------------------------------
  // The effects of an attempt, in order
  // ---------------------------------------------------------------------

  function RanAll(statements: seq<string>): (es: seq<Effect>)
    ensures |es| == |statements| && forall i :: 0 <= i < |es| ==> es[i] == Ran(statements[i])
  {
    seq(|statements|, i requires 0 <= i < |statements| => Ran(statements[i]))
  }

  /** What the body makes durable; a deferred preflight runs in front of it. */
  function BodyScript(a: Attempt): seq<Effect> {
    if !a.transactional then RanAll(Split(a.body))
    else if a.deferred.Some? then [Ran(a.deferred.value.sql), Ran(a.body)]
    else [Ran(a.body)]
  }

  /** Everything a complete attempt makes durable; the ledger row comes last. */
  function Script(a: Attempt): seq<Effect> { BodyScript(a) + [Recorded(a.filename, a.digest)] }

  /** The first `at` effects, and perhaps the debris of the one after them. */
  function Reached(script: seq<Effect>, at: nat, partial: bool): seq<Effect>
    requires at <= |script| && (partial ==> at < |script| && script[at].Ran?)
  {
    script[..at] + if partial then [Debris(script[at].text)] else []
  }

  // ---------------------------------------------------------------------
  // One attempt, step by step
  // ---------------------------------------------------------------------

  /** What one attempt started from, and what it is to make durable. */
  datatype Plan = Plan(
    transactional: bool,
    script: seq<Effect>,
    lockTimeoutMs: int,
    owner: Option<string>,
    base: Settings,
    durable: seq<Effect>)

  predicate FreeOf(e: Effect, g: Guc, transactional: bool) {
    e.Ran? ==> match g case LockTimeout => Quiet(e.text, transactional) case Role => RoleFree(e.text) case _ => true
  }

  /** No text of the script changes the lock bound (or can change the role). */
  predicate Free(p: Plan, g: Guc) {
    forall i :: 0 <= i < |p.script| ==> FreeOf(p.script[i], g, p.transactional)
  }

  predicate HasBound(s: State, ms: int) {
    (s.tx.Idle? || s.tx.Open?) && Read(InForce(s), LockTimeout) == Some(Millis(ms))
  }

  predicate AsOwner(s: State, owner: Option<string>) {
    owner.Some? ==> (s.tx.Idle? || s.tx.Open?) && Read(InForce(s), Role) == Some(Name(owner.value))
  }

  /** The lock bound is in force, and so is the owner's role. */
  predicate Guarded(s: State, p: Plan) {
    && (Free(p, LockTimeout) ==> HasBound(s, p.lockTimeoutMs))
    && (Free(p, Role) ==> AsOwner(s, p.owner))
  }

  /** The first `at` effects are done, and the attempt can go on. */
  predicate OnPlan(s: State, p: Plan, at: nat) {
    && at <= |p.script|
    && (if p.transactional then
          && s.tx.Open? && s.base == p.base && s.durable == p.durable
          && s.tx.work.pending == p.script[..at]
          && (forall g | g == LockTimeout || g == Role :: Free(p, g) ==> Read(s.tx.work.kept, g) == Read(p.base, g))
        else
          s.tx.Idle? && s.durable == p.durable + p.script[..at])
    && Guarded(s, p)
  }

  /** The attempt has failed after `at` effects, and this is what is durable. */
  predicate Stopped(s: State, p: Plan, at: nat, partial: bool) {
    && at <= |p.script| && (partial ==> at < |p.script| && p.script[at].Ran? && !p.transactional)
    && (if p.transactional then s.base == p.base && s.durable == p.durable
        else (s.tx.Idle? || s.tx.Dead?) && s.durable == p.durable + Reached(p.script, at, partial))
  }

  /** Body text, or the ledger row. */
  predicate IsWork(c: Command) { c.Sql? || c.Record? }

  /** Since the first `n` exchanges, only body and ledger row were sent as work, and only under guard. */
  predicate AllGuarded(log: seq<Exchange>, n: nat, p: Plan) {
    forall i :: n <= i < |log| && IsWork(log[i].cmd) ==> Guarded(log[i].before, p) && EffectOf(log[i].cmd) in p.script
  }

  /** What is sent to clean up, and may fail without notice. */
  predicate IsCleanup(c: Command) { c.Reset? || c.Rollback? || c == Set(BypassRls, Name("off")) }

  /** Since the first `n` exchanges, on one connection, nothing has failed but cleaning up. */
  predicate Smooth(log: seq<Exchange>, n: nat) {
    forall i :: n <= i < |log| ==> !log[i].cmd.Connect? && (IsCleanup(log[i].cmd) || log[i].reply.Done?)
  }

  /** The last exchange was the first to fail since the first `n`, with this error. */
  predicate EndsIn(log: seq<Exchange>, n: nat, error: Error) {
    && n < |log| && Smooth(log[..|log| - 1], n)
    && var last := log[|log| - 1];
       !last.cmd.Connect? && !IsCleanup(last.cmd) && Answer(last.reply) == PgSession.Thrown(error)
  }

  /** Only the server's own errors end a log. */
  lemma EndsInServerError(log: seq<Exchange>, n: nat, error: Error)
    requires EndsIn(log, n, error)
    ensures error.ServerError? || error == ConnectionLost
  {
    hide Smooth;
  }

  lemma SmoothNothing(log: seq<Exchange>)
    ensures Smooth(log, |log|)
  {
  }

  /** `c` is the next effect of the script, or a setting that holds no lock bound and no role. */
  predicate Fits(c: Command, p: Plan, at: nat) {
    if c.Sql? || c.Record? then at < |p.script| && p.script[at] == EffectOf(c)
    else (c.Set? || (c.SetLocal? && p.transactional)) && c.guc != LockTimeout && c.guc != Role
  }

  function After(c: Command, at: nat): nat { if c.Sql? || c.Record? then at + 1 else at }

  lemma GoOn(s: State, c: Command, r: Reply, p: Plan, at: nat)
    requires OnPlan(s, p, at) && Fits(c, p, at) && Legal(s, c, r) && r.Done?
    ensures OnPlan(Next(s, c, r), p, After(c, at))
  {
    hide Quiet, SetsLock, RoleFree, Free, Guarded;
    if at < |p.script| {
      assert p.script[..at] + [p.script[at]] == p.script[..at + 1];
      assert p.durable + p.script[..at] + [p.script[at]] == p.durable + p.script[..at + 1];
    }
    if c.Sql? {
      TextKeeps(s, c, r, p, at);
    }
    StaysGuarded(s, c, r, p, at);
  }

  /** A statement of the body leaves alone what the whole script does. */
  lemma TextKeeps(s: State, c: Command, r: Reply, p: Plan, at: nat)
    requires OnPlan(s, p, at) && Fits(c, p, at) && Legal(s, c, r) && r.Done? && c.Sql?
    ensures Free(p, LockTimeout) ==> Read(r.now, LockTimeout) == Read(InForce(s), LockTimeout)
    ensures Free(p, LockTimeout) && s.tx.Open? ==> Read(r.kept, LockTimeout) == Read(s.tx.work.kept, LockTimeout)
    ensures Free(p, Role) ==> RoleFree(c.text)
  {
    hide Quiet, SetsLock, RoleFree, Guarded;
    assert Free(p, LockTimeout) ==> FreeOf(p.script[at], LockTimeout, p.transactional);
    assert Free(p, Role) ==> FreeOf(p.script[at], Role, p.transactional);
    if Free(p, LockTimeout) {
      QuietKeepsLock(c.text, p.transactional, p.transactional, InForce(s), r.now);
      if s.tx.Open? {
        QuietKeepsLock(c.text, p.transactional, false, s.tx.work.kept, r.kept);
      }
    }
  }

  lemma StaysGuarded(s: State, c: Command, r: Reply, p: Plan, at: nat)
    requires OnPlan(s, p, at) && Fits(c, p, at) && Legal(s, c, r) && r.Done?
    ensures Guarded(Next(s, c, r), p)
  {
    hide Quiet, SetsLock, RoleFree, Free;
    if c.Sql? {
      TextKeeps(s, c, r, p, at);
    }
  }

  lemma GiveUp(s: State, c: Command, r: Reply, p: Plan, at: nat) returns (at': nat, partial: bool)
    requires OnPlan(s, p, at) && Fits(c, p, at) && Legal(s, c, r) && !r.Done?
    ensures at <= at' && Stopped(Next(s, c, r), p, at', partial)
    ensures r.Failed? ==> at' == at
    ensures at' <= After(c, at)
  {
    hide Quiet, SetsLock, RoleFree, Mentions;
    at', partial := at, false;
    if s.tx.Idle? && (c.Sql? || c.Record?) {
      assert p.script[..at] + [p.script[at]] == p.script[..at + 1];
      if r == Lost(Applied) {
        at' := at + 1;
      } else if r == Lost(Partial) || (r.Failed? && r.partial) {
        partial := true;
      }
    }
  }

  /** Sends a command that the plan foresees. */
  method Issue(client: Client, c: Command, ghost p: Plan, ghost at: nat, ghost n: nat)
    returns (r: Result, ghost at': nat, ghost partial: bool)
    requires OnPlan(client.st, p, at) && Fits(c, p, at) && !IsCleanup(c)
    requires n <= |client.log| && Smooth(client.log, n)
    requires AllGuarded(client.log, n, p)
    requires client.Valid()
    modifies client
    ensures client.Valid()
    ensures |client.log| == |old(client.log)| + 1 && old(client.log) <= client.log
    ensures var e := client.log[|old(client.log)|]; e.cmd == c && r == Answer(e.reply)
    ensures AllGuarded(client.log, n, p)
    ensures r.Ok? ==> at' == After(c, at) && OnPlan(client.st, p, at') && Smooth(client.log, n)
    ensures r.Ok? && !c.Sql? ==>
      Lasting(client.st) == if c.Set? then Lasting(old(client.st))[c.guc := c.value] else Lasting(old(client.st))
    ensures r.Thrown? ==> EndsIn(client.log, n, r.error) && at <= at' <= After(c, at)
    ensures r.Thrown? ==> Stopped(client.st, p, at', partial)
    ensures r.Thrown? ==> r.error == ConnectionLost || (r.error.ServerError? && at' == at)
  {
    hide OnPlan, Fits, Legal, Next, Guarded, Lasting, Stopped, Taken, IsLog, Smooth;
    at', partial := After(c, at), false;
    r := client.Query(c);
    ghost var e := client.log[|client.log| - 1];
    OnPlanIsGuarded(e.before, p, at);
    FitsIsNoConnect(c, p, at);
    FitsTheScript(c, p, at);
    SmoothMore(old(client.log), client.log, n);
    if r.Ok? {
      GoOn(e.before, c, e.reply, p, at);
      if !c.Sql? {
        LastingStep(e.before, c, e.reply, p, at);
      }
    } else {
      at', partial := GiveUp(e.before, c, e.reply, p, at);
    }
  }

  lemma FitsTheScript(c: Command, p: Plan, at: nat)
    requires Fits(c, p, at)
    ensures IsWork(c) ==> EffectOf(c) in p.script
  {
  }

  lemma FitsIsNoConnect(c: Command, p: Plan, at: nat)
    requires Fits(c, p, at)
    ensures !c.Connect?
  {
  }

  /** One more exchange: all is smooth still, or it was the first to fail. */
  lemma SmoothMore(log: seq<Exchange>, log': seq<Exchange>, n: nat)
    requires n <= |log| && |log'| == |log| + 1 && log <= log' && Smooth(log, n)
    requires !log'[|log|].cmd.Connect? && !IsCleanup(log'[|log|].cmd)
    ensures log'[..|log|] == log
    ensures log'[|log|].reply.Done? ==> Smooth(log', n)
    ensures !log'[|log|].reply.Done? ==> exists e :: Answer(log'[|log|].reply) == PgSession.Thrown(e) && EndsIn(log', n, e)
  {
    assert forall i :: 0 <= i < |log| ==> log'[i] == log[i];
    if !log'[|log|].reply.Done? {
      assert Answer(log'[|log|].reply).Thrown?;
      assert EndsIn(log', n, Answer(log'[|log|].reply).error);
    }
  }

  lemma OnPlanIsGuarded(s: State, p: Plan, at: nat)
    requires OnPlan(s, p, at)
    ensures Guarded(s, p)
  {
  }

  /** Commands other than body text change no lasting setting but the one they set. */
  lemma LastingStep(s: State, c: Command, r: Reply, p: Plan, at: nat)
    requires OnPlan(s, p, at) && Fits(c, p, at) && Legal(s, c, r) && r.Done? && !c.Sql?
    ensures Lasting(Next(s, c, r)) == if c.Set? then Lasting(s)[c.guc := c.value] else Lasting(s)
  {
    hide Guarded;
  }

  // ---------------------------------------------------------------------
  // The body
  // ---------------------------------------------------------------------

  /** The server's answer to the last exchange is what was thrown, and a lock timeout still shows as one. */
  predicate Honest(log: seq<Exchange>, n: nat, error: Error) {
    error != Refused && EndsIn(log, n, Root(error)) && (IsLockTimeout(error) <==> IsLockTimeout(Root(error)))
  }

  /** How a failure names the step that failed. */
  predicate NamesStep(error: Error, at: nat, total: nat) {
    IsLockTimeout(error)
    || (error.StepFailed? && error.total == total && 1 <= error.step <= total
        && (error.cause == ConnectionLost || (error.cause.ServerError? && at == error.step - 1))
        && error.step - 1 <= at <= error.step)
  }

  /** The body stands in the script at `at`. */
  predicate BodyAt(p: Plan, body: string, at: nat) {
    if p.transactional then at < |p.script| && p.script[at] == Ran(body)
    else at == 0 && RanAll(Split(body)) <= p.script
  }

  method ExecuteMigrationBody(client: Client, body: string, transactional: bool,
                              ghost p: Plan, ghost start: nat, ghost n: nat)
    returns (r: Result, ghost at: nat, ghost partial: bool)
    requires p.transactional == transactional
    requires OnPlan(client.st, p, start) && BodyAt(p, body, start)
    requires n <= |client.log| && Smooth(client.log, n)
    requires AllGuarded(client.log, n, p)
    requires client.Valid()
    modifies client
    ensures client.Valid()
    ensures old(client.log) <= client.log
    ensures AllGuarded(client.log, n, p)
    ensures r.Ok? ==> at == (if transactional then start + 1 else |Split(body)|) && OnPlan(client.st, p, at) && Smooth(client.log, n)
    ensures r.Thrown? ==> Stopped(client.st, p, at, partial) && Honest(client.log, n, r.error) && r.error != Refused
    ensures r.Thrown? && !transactional ==> at <= |Split(body)| && NamesStep(r.error, at, |Split(body)|)
    ensures r.Thrown? && transactional ==> !r.error.StepFailed?
  {
    hide OnPlan, AllGuarded, Stopped, EndsIn, Split, IsLog, Smooth;
    at, partial := start, false;
    if transactional {
      r, at, partial := Issue(client, Sql(body), p, at, n);
      assert r.Thrown? ==> Root(r.error) == r.error && r.error != Refused;
      return;
    }
    r := Ok([]);
    var statements := SplitSqlStatements(body);
    var index := 0;
    while index < |statements|
      invariant index <= |statements| && at == index
      invariant old(client.log) <= client.log
      invariant OnPlan(client.st, p, at)
      invariant client.Valid() && AllGuarded(client.log, n, p) && Smooth(client.log, n)
    {
      assert RanAll(statements)[index] == Ran(statements[index]);
      var one;
      one, at, partial := Issue(client, Sql(statements[index]), p, at, n);
      if one.Thrown? {
        assert Root(one.error) == one.error;
        r := if IsLockNotAvailable(one.error) then one
             else PgSession.Thrown(StepFailed(index + 1, |statements|, one.error));
        return;
      }
      index := index + 1;
    }
  }

  /** The rows let the migration go on: every one is well formed, and a notice. */
  ghost predicate Clears(d: DeferredPreflight, rows: seq<Row>) {
    forall i :: 0 <= i < |rows| ==> GoodRow(d.ordinal, rows[i]) && Holds(rows[i], "severity", "notice")
  }

  lemma ClearsIff(d: DeferredPreflight, rows: seq<Row>)
    ensures var checked := ValidateFindingRows(d.filename, d.ordinal, rows);
      Clears(d, rows) <==> checked.Accepted? && !Refuses(checked.findings)
  {
    hide ValidateFindingRows, WellFormed, HasColumn, IsOrdinal, IsSnake;
    forall i | 0 <= i < |rows| ensures WellFormed(d.ordinal, rows[i]) <==> GoodRow(d.ordinal, rows[i]) {
      WellFormedIff(d.ordinal, rows[i]);
    }
    if ValidateFindingRows(d.filename, d.ordinal, rows).Accepted? {
      RefusalsAreFaithful(d.filename, d.ordinal, rows);
    }
  }

  /** From the `n`-th exchange on, the preflight ran under its own timeout and cleared the migration. */
  ghost predicate ClearedBy(log: seq<Exchange>, n: nat, d: DeferredPreflight) {
    && n + 3 <= |log|
    && log[n].cmd == SetLocal(StatementTimeout, Millis(d.timeoutMs))
    && log[n + 1].cmd == Sql(d.sql) && log[n + 1].reply.Done? && Clears(d, log[n + 1].reply.rows)
    && log[n + 2].cmd == SetLocal(StatementTimeout, Millis(0)) && log[n + 2].reply.Done?
  }

  /** Work other than the preflight itself is sent only after the preflight has cleared the migration. */
  ghost predicate OnlyIfCleared(log: seq<Exchange>, n: nat, d: DeferredPreflight) {
    forall i :: n <= i < |log| && IsWork(log[i].cmd) && log[i].cmd != Sql(d.sql) ==> ClearedBefore(log, n, i, d)
  }

  ghost predicate ClearedBefore(log: seq<Exchange>, n: nat, i: nat, d: DeferredPreflight) {
    exists q :: n <= q && q + 2 < i && ClearedBy(log, q, d)
  }

  /** Once cleared, whatever follows is behind the clearance. */
  lemma ClearedForGood(log: seq<Exchange>, log': seq<Exchange>, n: nat, q: nat, d: DeferredPreflight)
    requires n <= q && |log| == q + 3 && log <= log' && ClearedBy(log, q, d)
    requires OnlyIfCleared(log, n, d)
    ensures ClearedBy(log', q, d) && OnlyIfCleared(log', n, d)
  {
    hide Clears;
    assert ClearedBy(log', q, d);
    forall i | n <= i < |log'| && IsWork(log'[i].cmd) && log'[i].cmd != Sql(d.sql) ensures ClearedBefore(log', n, i, d) {
      if i < |log| {
        assert log[i] == log'[i];
        var q' :| n <= q' && q' + 2 < i && ClearedBy(log, q', d);
        assert ClearedBy(log', q', d);
      }
    }
  }

  /** As long as only the preflight is sent, nothing has to be cleared. */
  lemma OnlyPreflight(log: seq<Exchange>, n: nat, d: DeferredPreflight)
    requires forall i :: n <= i < |log| && IsWork(log[i].cmd) ==> log[i].cmd == Sql(d.sql)
    ensures OnlyIfCleared(log, n, d)
  {
  }

  /** The preflight that was put off until now, inside the applying transaction. */
  method BeforeBody(client: Client, d: DeferredPreflight, ghost p: Plan, ghost n: nat)
    returns (r: Result)
    requires p.transactional && OnPlan(client.st, p, 0) && |p.script| > 0 && p.script[0] == Ran(d.sql)
    requires n <= |client.log| && Smooth(client.log, n)
    requires AllGuarded(client.log, n, p)
    requires client.Valid()
    modifies client
    ensures client.Valid()
    ensures old(client.log) <= client.log
    ensures AllGuarded(client.log, n, p)
    ensures r.Ok? ==>
      && OnPlan(client.st, p, 1) && IsReadQuery(d.sql) && Smooth(client.log, n)
      && ClearedBy(client.log, |old(client.log)|, d) && |client.log| == |old(client.log)| + 3
    ensures OnlyIfCleared(client.log, |old(client.log)|, d)
    ensures r.Thrown? ==> exists at :: Stopped(client.st, p, at, false)
    ensures r.Thrown? ==>
      if r.error == Refused then Smooth(client.log, n) else Root(r.error) == r.error && EndsIn(client.log, n, r.error)
  {
    hide OnPlan, AllGuarded, Stopped, EndsIn, IsLog, Smooth, IsReadQuery, Clears, ValidateFindingRows, Refuses, OnlyIfCleared;
    ghost var at, partial;
    ghost var m := |client.log|;
    OnlyPreflight(client.log, m, d);
    if !IsReadQuery(d.sql) {
      StopsAnyway(client.st, p, 0);
      return PgSession.Thrown(Refused);
    }
    r, at, partial := Issue(client, SetLocal(StatementTimeout, Millis(d.timeoutMs)), p, 0, n);
    OnlyPreflight(client.log, m, d);
    if r.Thrown? { StoppedWhole(client.st, p, at, partial); return; }
    r, at, partial := Issue(client, Sql(d.sql), p, 0, n);
    OnlyPreflight(client.log, m, d);
    if r.Thrown? { StoppedWhole(client.st, p, at, partial); return; }
    ClearsIff(d, r.rows);
    var checked := ValidateFindingRows(d.filename, d.ordinal, r.rows);
    if checked.Malformed? || Refuses(checked.findings) {
      StopsAnyway(client.st, p, 1);
      return PgSession.Thrown(Refused);
    }
    ghost var e := client.log[m + 1];
    assert r == Answer(e.reply) && e.reply.Done?;
    r, at, partial := Issue(client, SetLocal(StatementTimeout, Millis(0)), p, 1, n);
    OnlyPreflight(client.log, m, d);
    if r.Thrown? { StoppedWhole(client.st, p, at, partial); return; }
    assert r == Answer(client.log[m + 2].reply);
  }

  lemma StopsAnyway(s: State, p: Plan, at: nat)
    requires OnPlan(s, p, at) && p.transactional
    ensures Stopped(s, p, at, false)
  {
  }

  lemma StoppedWhole(s: State, p: Plan, at: nat, partial: bool)
    requires Stopped(s, p, at, partial) && p.transactional
    ensures !partial
  {
  }
}
