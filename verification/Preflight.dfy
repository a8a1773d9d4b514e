/** Evaluating one preflight: read only, under a savepoint, always rolled back. */
module Preflight {
  import opened Options
  import opened Text
  import opened PgSession
  import opened Findings

  const DEFERRED_SQLSTATES: seq<string> := ["42P01", "42703", "42883"]

  /** A missing schema object: the preflight can be put off. */
  predicate IsDeferredError(e: Error) { e.ServerError? && e.code in DEFERRED_SQLSTATES }

  /** The role is not granted, or does not exist. */
  predicate IsRoleRefusal(e: Error) { e.ServerError? && e.code in ["42501", "22023", "42704"] }

  predicate IsDenied(e: Error) { e == ServerError("42501") }

  predicate IsRoleName(s: string) {
    && 1 <= |s| <= 63 && (IsLower(s[0]) || s[0] == '_')
    && forall i :: 0 < i < |s| ==> IsLower(s[i]) || IsDigit(s[i]) || s[i] == '_'
  }

  /** The server does not know the role, or does not grant it. */
  predicate RefusesRole(e: Error) { e.ServerError? && e.code in {"42501", "22023", "42704"} }

  /** The server denies the access. */
  predicate Denies(e: Error) { e.ServerError? && e.code == "42501" }

  /** A name that needs no quotes: small letters, digits and underscores, no digit in front, and not too long. */
  predicate NeedsNoQuotes(name: string) {
    && name != "" && |name| < 64 && !('0' <= name[0] <= '9')
    && forall c :: c in name ==> 'a' <= c <= 'z' || '0' <= c <= '9' || c == '_'
  }

  lemma RoleNameIff(name: string)
    ensures IsRoleName(name) <==> NeedsNoQuotes(name)
  {
    if NeedsNoQuotes(name) {
      assert forall i :: 0 <= i < |name| ==> name[i] in name;
    }
  }

  datatype Job = Job(migration: string, ordinal: string, sql: string, timeoutMs: int, role: string)

  /** The role to run under; the empty name asks for none. */
  predicate WantsRole(j: Job) { j.role != "" }

  datatype Evaluation =
    | Ready(findings: seq<Finding>, leastPrivilege: bool)
    | Deferred(reason: Error, leastPrivilege: bool)
    | Threw(error: Error)

  // ---------------------------------------------------------------------
  // What holds inside the transaction
  // ---------------------------------------------------------------------

  /** Read only, timed out, and past row security. */
  predicate Guard(now: Settings, j: Job) {
    && Read(now, ReadOnly) == Some(On)
    && Read(now, StatementTimeout) == Some(Millis(j.timeoutMs))
    && Read(now, BypassRls) == Some(On)
  }

  /** The transaction has begun, and neither the session nor the database has changed. */
  predicate Inside(s: State, start: State) {
    !s.tx.Idle? && s.base == start.base && s.durable == start.durable
  }

  /** The preflight can run now, with `role` in force. */
  predicate Prepared(s: State, start: State, j: Job, role: Option<Value>) {
    Inside(s, start) && s.tx.Open? && Guard(s.tx.work.now, j) && Read(s.tx.work.now, Role) == role
  }

  /** Going back to the savepoint restores the guard and the session's own role. */
  predicate Saved(s: State, start: State, j: Job) {
    && (s.tx.Open? || s.tx.Aborted?) && s.tx.save.Some?
    && Guard(s.tx.save.value.now, j) && Read(s.tx.save.value.now, Role) == Read(start.base, Role)
  }

  /** Unless the connection is gone, the savepoint is still there. */
  predicate Recoverable(s: State, start: State, j: Job) {
    Inside(s, start) && (s.tx.Dead? || Saved(s, start, j))
  }

  /** One exchange keeps the rules: no commit, nothing but a rollback while aborted, the text only under guard. */
  predicate Obeys(e: Exchange, j: Job) {
    && !e.cmd.Commit?
    && (e.before.tx.Aborted? ==> e.cmd.Rollback? || e.cmd.RollbackTo?)
    && (e.cmd.Sql? ==> e.cmd.text == j.sql && e.before.tx.Open? && Guard(e.before.tx.work.now, j))
    && (e.cmd.SetLocal? && e.cmd.guc == Role ==> e.cmd.value == Name(j.role) && NeedsNoQuotes(j.role))
  }

  predicate AllObey(log: seq<Exchange>, n: nat, j: Job) {
    forall i :: n <= i < |log| ==> Obeys(log[i], j)
  }

  /** How often the preflight's text was sent since the first `n` exchanges. */
  function Sends(log: seq<Exchange>, n: nat): nat {
    if |log| <= n then 0 else Sends(log[..|log| - 1], n) + if log[|log| - 1].cmd.Sql? then 1 else 0
  }

  /** One command inside the transaction. */
  method Ask(client: Client, c: Command, j: Job, ghost start: State, ghost n: nat) returns (r: Result)
    requires Inside(client.st, start) && n <= |client.log| && AllObey(client.log, n, j)
    requires c.SetLocal? || c.Savepoint? || c.RollbackTo? || c.Sql?
    requires client.st.tx.Aborted? ==> c.RollbackTo?
    requires c.Sql? ==> c.text == j.sql && client.st.tx.Open? && Guard(client.st.tx.work.now, j)
    requires c.SetLocal? && c.guc == Role ==> c.value == Name(j.role) && NeedsNoQuotes(j.role)
    requires client.Valid()
    modifies client
    ensures client.Valid()
    ensures |client.log| == |old(client.log)| + 1 && old(client.log) <= client.log
    ensures var e := client.log[|old(client.log)|];
      e.cmd == c && e.before == old(client.st) && Legal(e.before, c, e.reply)
      && client.st == Next(e.before, c, e.reply) && r == Answer(e.reply)
    ensures Inside(client.st, start) && AllObey(client.log, n, j)
    ensures Sends(client.log, n) == Sends(old(client.log), n) + if c.Sql? then 1 else 0
  {
    hide IsLog, Legal, Guard, Next, Inside;
    r := client.Query(c);
    ghost var m := |client.log| - 1;
    assert client.log[..m] == old(client.log);
    StaysInside(client.log[m].before, c, client.log[m].reply, start);
  }

  lemma StaysInside(s: State, c: Command, r: Reply, start: State)
    requires Inside(s, start) && Legal(s, c, r)
    requires c.SetLocal? || c.Savepoint? || c.RollbackTo? || c.Sql?
    ensures Inside(Next(s, c, r), start)
  {
  }

  // ---------------------------------------------------------------------
  // The role
  // ---------------------------------------------------------------------

  lemma RoleStep(s: State, c: Command, r: Reply, start: State, j: Job)
    requires Prepared(s, start, j, Read(start.base, Role)) && Legal(s, c, r)
    ensures c.Savepoint? && r.Done? ==>
      Prepared(Next(s, c, r), start, j, Read(start.base, Role)) && Saved(Next(s, c, r), start, j)
    ensures c == SetLocal(Role, Name(j.role)) && Saved(s, start, j) ==>
      var s' := Next(s, c, r);
      && (r.Done? ==> Prepared(s', start, j, Some(Name(j.role))) && Saved(s', start, j))
      && (!r.Done? ==> Recoverable(s', start, j))
  {
  }

  lemma BackToSavepoint(s: State, r: Reply, start: State, j: Job)
    requires Recoverable(s, start, j) && Legal(s, RollbackTo, r)
    ensures r.Done? ==> Prepared(Next(s, RollbackTo, r), start, j, Read(start.base, Role))
    ensures r.Done? ==> Saved(Next(s, RollbackTo, r), start, j)
  {
  }

  /** The server refused the role, or denied the text under it. */
  predicate IsGivenUp(e: Exchange, j: Job) {
    match Answer(e.reply)
    case Ok(_) => false
    case Thrown(error) =>
      (e.cmd == SetLocal(Role, Name(j.role)) && RefusesRole(error)) || (e.cmd.Sql? && Denies(error))
  }

  predicate GivenUp(log: seq<Exchange>, n: nat, j: Job) {
    exists i :: n <= i < |log| && IsGivenUp(log[i], j)
  }

  /** The exchange at `i` got this error. */
  predicate Got(log: seq<Exchange>, i: int, error: Error) {
    0 <= i < |log| && Answer(log[i].reply) == Thrown(error)
  }

  /** Why taking the role on failed: its name, the savepoint, or an error that is no refusal. */
  predicate BlamesRole(log: seq<Exchange>, n: nat, j: Job, error: Error) {
    var last := |log| - 1;
    || (|log| == n && !NeedsNoQuotes(j.role) && error == Refused)
    || (last >= n && (log[last].cmd.Savepoint? || log[last].cmd.RollbackTo?) && Got(log, last, error))
    || (last > n && log[last].cmd.RollbackTo? && log[last].reply.Done?
        && log[last - 1].cmd == SetLocal(Role, Name(j.role)) && Got(log, last - 1, error) && !RefusesRole(error))
  }

  /** Takes the role on under a savepoint; a refusal falls back to the session's own role. */
  method AssumeRole(client: Client, j: Job, ghost start: State, ghost n: nat)
    returns (r: Result, leastPrivilege: bool)
    requires WantsRole(j) && Prepared(client.st, start, j, Read(start.base, Role))
    requires n <= |client.log| && AllObey(client.log, n, j)
    requires client.Valid()
    modifies client
    ensures client.Valid()
    ensures old(client.log) <= client.log && AllObey(client.log, n, j) && Inside(client.st, start)
    ensures Sends(client.log, n) == Sends(old(client.log), n)
    ensures r.Ok? ==>
      && Saved(client.st, start, j)
      && Prepared(client.st, start, j, if leastPrivilege then Some(Name(j.role)) else Read(start.base, Role))
      && (!leastPrivilege ==> GivenUp(client.log, n, j))
    ensures r.Thrown? ==> BlamesRole(client.log, |old(client.log)|, j, r.error)
  {
    hide IsLog, Legal, Next, Guard, AllObey, Prepared, Saved, Sends, Inside, Recoverable, IsRoleName, NeedsNoQuotes;
    PreparedMeans(client.st, start, j, Read(start.base, Role));
    leastPrivilege := false;
    RoleNameIff(j.role);
    if !IsRoleName(j.role) {
      return Thrown(Refused), false;
    }
    r := Ask(client, Savepoint, j, start, n);
    if r.Thrown? { return; }
    RoleStep(old(client.st), Savepoint, client.log[|old(client.log)|].reply, start, j);
    PreparedMeans(client.st, start, j, Read(start.base, Role));
    ghost var s, m := client.st, |client.log|;
    r := Ask(client, SetLocal(Role, Name(j.role)), j, start, n);
    RoleStep(s, SetLocal(Role, Name(j.role)), client.log[m].reply, start, j);
    if r.Ok? {
      leastPrivilege := true;
    } else {
      var error := r.error;
      s, m := client.st, |client.log|;
      r := Ask(client, RollbackTo, j, start, n);
      BackToSavepoint(s, client.log[m].reply, start, j);
      assert IsRoleRefusal(error) ==> IsGivenUp(client.log[m - 1], j);
      if r.Ok? && !IsRoleRefusal(error) {
        r := Thrown(error);
      }
    }
  }

  lemma PreparedMeans(s: State, start: State, j: Job, role: Option<Value>)
    requires Prepared(s, start, j, role)
    ensures Inside(s, start) && s.tx.Open? && Guard(s.tx.work.now, j)
  {
  }

  // ---------------------------------------------------------------------
  // The run and its fallback
  // ---------------------------------------------------------------------

  /** What one answer to the preflight's text amounts to. */
  function Judge(j: Job, answer: Result, leastPrivilege: bool): Evaluation {
    match answer
    case Ok(rows) =>
      (match ValidateFindingRows(j.migration, j.ordinal, rows)
       case Accepted(findings) => Ready(findings, leastPrivilege)
       case Malformed(_) => Threw(Refused))
    case Thrown(error) => if IsDeferredError(error) then Deferred(error, leastPrivilege) else Threw(error)
  }

  /** The server lacks a table, a column or a function. */
  predicate MissesObject(e: Error) { e.ServerError? && e.code in {"42P01", "42703", "42883"} }

  /** The findings are those of the rows, one by one, all of which are well formed. */
  ghost predicate AreFindingsOf(findings: seq<Finding>, j: Job, rows: seq<Row>) {
    && |findings| == |rows|
    && forall i :: 0 <= i < |rows| ==> GoodRow(j.ordinal, rows[i]) && Says(findings[i], j.migration, rows[i])
  }

  /**
   * What an evaluation says of the answer to its text: all of its rows as
   * findings; that an object is missing; that a row is malformed; or the
   * server's error.
   */
  ghost predicate Tells(e: Evaluation, j: Job, answer: Result, leastPrivilege: bool) {
    match e
    case Ready(findings, proven) => proven == leastPrivilege && answer.Ok? && AreFindingsOf(findings, j, answer.rows)
    case Deferred(reason, proven) => proven == leastPrivilege && answer == Thrown(reason) && MissesObject(reason)
    case Threw(error) =>
      if answer.Ok? then error == Refused && exists i :: 0 <= i < |answer.rows| && !GoodRow(j.ordinal, answer.rows[i])
      else answer == Thrown(error) && !MissesObject(error)
  }

  lemma JudgeTells(j: Job, answer: Result, leastPrivilege: bool)
    ensures Tells(Judge(j, answer, leastPrivilege), j, answer, leastPrivilege)
  {
    hide ValidateFindingRows, WellFormed, GoodRow, Says;
    if answer.Ok? {
      forall i | 0 <= i < |answer.rows| ensures WellFormed(j.ordinal, answer.rows[i]) <==> GoodRow(j.ordinal, answer.rows[i]) {
        WellFormedIff(j.ordinal, answer.rows[i]);
      }
    }
  }

  /** An answer can be told in one way only. */
  lemma ToldOnce(e: Evaluation, e': Evaluation, j: Job, answer: Result, leastPrivilege: bool)
    requires Tells(e, j, answer, leastPrivilege) && Tells(e', j, answer, leastPrivilege)
    ensures e == e'
  {
    hide GoodRow;
    if e.Ready? && e'.Ready? {
      forall i | 0 <= i < |e.findings| ensures e.findings[i] == e'.findings[i] {
        assert Says(e.findings[i], j.migration, answer.rows[i]) && Says(e'.findings[i], j.migration, answer.rows[i]);
      }
    }
  }

  /** An evaluation that is ready refuses exactly if some row does. */
  lemma ReadyRefusesIff(e: Evaluation, j: Job, answer: Result, leastPrivilege: bool)
    requires Tells(e, j, answer, leastPrivilege) && e.Ready?
    ensures Refuses(e.findings) <==> exists i :: 0 <= i < |answer.rows| && Holds(answer.rows[i], "severity", "refuse")
  {
    hide GoodRow;
    forall i | 0 <= i < |answer.rows|
      ensures e.findings[i].severity.Refuse? <==> Holds(answer.rows[i], "severity", "refuse")
    {
      assert Says(e.findings[i], j.migration, answer.rows[i]);
    }
    if Refuses(e.findings) {
      var i :| 0 <= i < |e.findings| && e.findings[i].severity.Refuse?;
      assert Holds(answer.rows[i], "severity", "refuse");
    }
  }

  /** The role in force when the text was sent: the one asked for, or the session's own. */
  predicate Truthful(e: Exchange, start: State, j: Job, leastPrivilege: bool) {
    && e.cmd.Sql? && e.before.tx.Open?
    && (leastPrivilege ==> WantsRole(j))
    && Read(e.before.tx.work.now, Role) == if leastPrivilege then Some(Name(j.role)) else Read(start.base, Role)
  }

  /** The evaluation reports the last time the text was sent, and truthfully. */
  ghost predicate Reports(log: seq<Exchange>, n: nat, start: State, j: Job, e: Evaluation, leastPrivilege: bool) {
    exists i :: n <= i < |log| && Truthful(log[i], start, j, leastPrivilege)
      && Tells(e, j, Answer(log[i].reply), leastPrivilege)
      && forall k :: i < k < |log| ==> !log[k].cmd.Sql?
  }

  /**
   * Why the evaluation threw: a setting or a savepoint failed, the role could
   * not be taken on, or the text itself failed, other than by a denial under
   * the role.
   */
  ghost predicate Blames(log: seq<Exchange>, n: nat, start: State, j: Job, error: Error) {
    var last := |log| - 1;
    || (last >= n && log[last].cmd.SetLocal? && log[last].cmd.guc != Role && Got(log, last, error))
    || (last >= n && log[last].cmd.RollbackTo? && Got(log, last, error))
    || (WantsRole(j) && |log| >= n + 3 && BlamesRole(log, n + 3, j, error))
    || Reports(log, n, start, j, Threw(error), false)
    || (Reports(log, n, start, j, Threw(error), true) && !Denies(error))
  }

  method Run(client: Client, j: Job, leastPrivilege: bool, ghost start: State, ghost n: nat)
    returns (e: Evaluation)
    requires leastPrivilege ==> WantsRole(j)
    requires Prepared(client.st, start, j, if leastPrivilege then Some(Name(j.role)) else Read(start.base, Role))
    requires n <= |client.log| && AllObey(client.log, n, j)
    requires client.Valid()
    modifies client
    ensures client.Valid()
    ensures old(client.log) <= client.log && AllObey(client.log, n, j) && Inside(client.st, start)
    ensures Sends(client.log, n) == Sends(old(client.log), n) + 1
    ensures Reports(client.log, n, start, j, e, leastPrivilege)
    ensures e.Ready? ==> e.leastPrivilege == leastPrivilege
    ensures e.Deferred? ==> e.leastPrivilege == leastPrivilege
    ensures e.Threw? && Denies(e.error) && Saved(old(client.st), start, j) ==> Recoverable(client.st, start, j)
    ensures e.Threw? && Denies(e.error) ==> GivenUp(client.log, n, j)
  {
    hide IsLog, Legal, Next, Guard, AllObey, Prepared, Saved, Sends, Inside, Recoverable, Judge, Tells;
    PreparedMeans(client.st, start, j, if leastPrivilege then Some(Name(j.role)) else Read(start.base, Role));
    RoleInForce(client.st, start, j, if leastPrivilege then Some(Name(j.role)) else Read(start.base, Role));
    var r := Ask(client, Sql(j.sql), j, start, n);
    e := Judge(j, r, leastPrivilege);
    ghost var x := client.log[|client.log| - 1];
    assert Truthful(x, start, j, leastPrivilege);
    JudgeTells(j, r, leastPrivilege);
    TellsKeeps(e, j, r, leastPrivilege);
    assert e.Threw? && Denies(e.error) ==> IsGivenUp(x, j);
    if r.Thrown? && Saved(x.before, start, j) {
      FailureKeepsSavepoint(x.before, x.cmd, x.reply, start, j);
    }
  }

  lemma RoleInForce(s: State, start: State, j: Job, role: Option<Value>)
    requires Prepared(s, start, j, role)
    ensures s.tx.Open? && Read(s.tx.work.now, Role) == role
  {
  }

  lemma TellsKeeps(e: Evaluation, j: Job, answer: Result, leastPrivilege: bool)
    requires Tells(e, j, answer, leastPrivilege)
    ensures e.Ready? ==> e.leastPrivilege == leastPrivilege
    ensures e.Deferred? ==> e.leastPrivilege == leastPrivilege
    ensures e.Threw? && Denies(e.error) ==> answer == Thrown(e.error)
  {
    hide GoodRow, Says;
  }

  lemma FailureKeepsSavepoint(s: State, c: Command, r: Reply, start: State, j: Job)
    requires Inside(s, start) && Saved(s, start, j) && Legal(s, c, r) && c.Sql? && !r.Done?
    ensures Recoverable(Next(s, c, r), start, j)
  {
    hide Guard;
  }

  /** The part between BEGIN and ROLLBACK. */
  method EvaluateInside(client: Client, j: Job, ghost start: State, ghost n: nat)
    returns (e: Evaluation)
    requires Started(client.st, start) && |client.log| == n + 1 && AllObey(client.log, n, j) && Sends(client.log, n) == 0
    requires client.Valid()
    modifies client
    ensures client.Valid()
    ensures old(client.log) <= client.log && AllObey(client.log, n, j) && Inside(client.st, start)
    ensures Sends(client.log, n) <= 2
    ensures e.Ready? ==> Reports(client.log, n, start, j, e, e.leastPrivilege)
    ensures e.Deferred? ==> Reports(client.log, n, start, j, e, e.leastPrivilege)
    ensures !e.Threw? && WantsRole(j) && !e.leastPrivilege ==> GivenUp(client.log, n, j)
    ensures e.Threw? ==> Blames(client.log, n, start, j, e.error)
  {
    hide IsLog, Legal, Next, Guard, AllObey, Prepared, Saved, Sends, Inside, Recoverable, Judge, Tells, Reports, Started,
         GivenUp, BlamesRole;
    StartedMeans(client.st, start);
    var r := Ask(client, SetLocal(StatementTimeout, Millis(j.timeoutMs)), j, start, n);
    if r.Thrown? { return Threw(r.error); }
    ghost var m := |old(client.log)|;
    SettingStaysOpen(old(client.st), SetLocal(StatementTimeout, Millis(j.timeoutMs)), client.log[m].reply);
    r := Ask(client, SetLocal(BypassRls, On), j, start, n);
    if r.Thrown? { return Threw(r.error); }
    GuardSet(old(client.st), client.log[m].reply, client.log[m + 1].reply, start, j);
    var leastPrivilege := false;
    if WantsRole(j) {
      r, leastPrivilege := AssumeRole(client, j, start, n);
      if r.Thrown? { return Threw(r.error); }
    }
    ghost var s, log := client.st, client.log;
    e := Run(client, j, leastPrivilege, start, n);
    GivenUpStays(log, client.log, n, j);
    if e.Threw? && leastPrivilege && IsDenied(e.error) {
      RecoverableMeans(client.st, start, j);
      s, m, log := client.st, |client.log|, client.log;
      r := Ask(client, RollbackTo, j, start, n);
      if r.Thrown? { return Threw(r.error); }
      BackToSavepoint(s, client.log[m].reply, start, j);
      leastPrivilege := false;
      e := Run(client, j, leastPrivilege, start, n);
      GivenUpStays(log, client.log, n, j);
    }
  }

  lemma GivenUpStays(log: seq<Exchange>, log': seq<Exchange>, n: nat, j: Job)
    requires log <= log'
    ensures GivenUp(log, n, j) ==> GivenUp(log', n, j)
  {
    hide IsGivenUp;
    if GivenUp(log, n, j) {
      var i :| n <= i < |log| && IsGivenUp(log[i], j);
      assert IsGivenUp(log'[i], j);
    }
  }

  /** BEGIN READ ONLY has taken effect on an idle session. */
  predicate Started(s: State, start: State) {
    start.tx.Idle? && Inside(s, start) && s.tx == Open(Work([], start.base[ReadOnly := On], start.base), None)
  }

  lemma StartedMeans(s: State, start: State)
    requires Started(s, start)
    ensures Inside(s, start) && s.tx.Open?
  {
  }

  lemma SettingStaysOpen(s: State, c: Command, r: Reply)
    requires s.tx.Open? && c.SetLocal? && Legal(s, c, r) && r.Done?
    ensures Next(s, c, r).tx.Open?
  {
  }

  lemma RecoverableMeans(s: State, start: State, j: Job)
    requires Recoverable(s, start, j)
    ensures Inside(s, start)
  {
  }

  lemma GuardSet(s: State, r: Reply, r': Reply, start: State, j: Job)
    requires Started(s, start)
    requires Legal(s, SetLocal(StatementTimeout, Millis(j.timeoutMs)), r) && r.Done?
    requires var s' := Next(s, SetLocal(StatementTimeout, Millis(j.timeoutMs)), r);
      Legal(s', SetLocal(BypassRls, On), r') && r'.Done?
    ensures var s' := Next(s, SetLocal(StatementTimeout, Millis(j.timeoutMs)), r);
      Prepared(Next(s', SetLocal(BypassRls, On), r'), start, j, Read(start.base, Role))
  {
  }

  /** Whether the transaction ever began. */
  predicate Began(log: seq<Exchange>, n: nat) { n < |log| && log[n].cmd == Begin(true) && log[n].reply.Done? }

  method EvaluatePreflight(client: Client, j: Job) returns (e: Evaluation)
    requires client.st.tx.Idle?
    requires client.Valid()
    modifies client
    ensures client.Valid()
    ensures old(client.log) <= client.log
    ensures !IsReadQuery(j.sql) ==> e == Threw(Refused) && client.log == old(client.log)
    ensures client.st.durable == old(client.st.durable)
    ensures AllObey(client.log, |old(client.log)|, j)
    ensures Sends(client.log, |old(client.log)|) <= 2
    ensures e.Ready? ==> Reports(client.log, |old(client.log)|, old(client.st), j, e, e.leastPrivilege)
    ensures e.Deferred? ==> Reports(client.log, |old(client.log)|, old(client.st), j, e, e.leastPrivilege)
    ensures Began(client.log, |old(client.log)|) ==>
      && client.log[|client.log| - 1].cmd.Rollback?
      && (e.Threw? ==>
            Blames(client.log[..|client.log| - 1], |old(client.log)|, old(client.st), j, e.error))
      && (!e.Threw? && WantsRole(j) && !e.leastPrivilege ==> GivenUp(client.log, |old(client.log)|, j))
      && (client.log[|client.log| - 1].reply.Done? ==> client.st == old(client.st))
    ensures !Began(client.log, |old(client.log)|) && IsReadQuery(j.sql) ==>
      |client.log| == |old(client.log)| + 1 && e.Threw? && Got(client.log, |old(client.log)|, e.error)
  {
    hide IsLog, Legal, Next, Guard, AllObey, Prepared, Saved, Sends, Inside, Recoverable, Judge, Tells, Reports, Started, IsReadQuery,
         GivenUp, Blames;
    ghost var start, n := client.st, |client.log|;
    if !IsReadQuery(j.sql) {
      NothingSent(client.log, j);
      return Threw(Refused);
    }
    var r := client.Query(Begin(true));
    BeginStep(start, client.log[n].reply, client.log, n, j);
    if r.Thrown? { return Threw(r.error); }
    e := EvaluateInside(client, j, start, n);
    ghost var before := client.log;
    r := client.Query(Rollback);
    assert client.log[..|client.log| - 1] == before;
    GivenUpStays(before, client.log, n, j);
    RollbackStep(client.log[|before|], start, before, client.log, n, j, e);
  }

  lemma NothingSent(log: seq<Exchange>, j: Job)
    ensures AllObey(log, |log|, j) && Sends(log, |log|) == 0
  {
  }

  lemma BeginStep(s: State, r: Reply, log: seq<Exchange>, n: nat, j: Job)
    requires s.tx.Idle? && Legal(s, Begin(true), r)
    requires |log| == n + 1 && log[n] == Exchange(Begin(true), s, r)
    ensures Next(s, Begin(true), r).durable == s.durable
    ensures r.Done? ==> Started(Next(s, Begin(true), r), s)
    ensures AllObey(log, n, j) && Sends(log, n) == 0
  {
    assert Sends(log[..n], n) == 0;
  }

  lemma RollbackStep(x: Exchange, start: State, before: seq<Exchange>, log: seq<Exchange>, n: nat, j: Job, e: Evaluation)
    requires x.cmd.Rollback? && Inside(x.before, start) && Legal(x.before, x.cmd, x.reply) && start.tx.Idle?
    requires n <= |before| && log == before + [x] && AllObey(before, n, j)
    ensures AllObey(log, n, j) && Sends(log, n) == Sends(before, n)
    ensures Next(x.before, x.cmd, x.reply).durable == start.durable
    ensures x.reply.Done? ==> Next(x.before, x.cmd, x.reply) == start
    ensures e.Ready? && Reports(before, n, start, j, e, e.leastPrivilege) ==>
      Reports(log, n, start, j, e, e.leastPrivilege)
    ensures e.Deferred? && Reports(before, n, start, j, e, e.leastPrivilege) ==>
      Reports(log, n, start, j, e, e.leastPrivilege)
  {
    hide Guard, Tells, Truthful;
    assert log[..|log| - 1] == before;
    if !e.Threw? && Reports(before, n, start, j, e, e.leastPrivilege) {
      ReportStays(before, log, n, start, j, e, e.leastPrivilege);
    }
  }

  lemma ReportStays(before: seq<Exchange>, log: seq<Exchange>, n: nat, start: State, j: Job, e: Evaluation, lp: bool)
    requires Reports(before, n, start, j, e, lp) && before <= log && |log| == |before| + 1
    requires !log[|before|].cmd.Sql?
    ensures Reports(log, n, start, j, e, lp)
  {
    hide Tells, Truthful;
    var i :| n <= i < |before| && Truthful(before[i], start, j, lp) && Tells(e, j, Answer(before[i].reply), lp)
      && forall k :: i < k < |before| ==> !before[k].cmd.Sql?;
    assert log[i] == before[i];
  }
}
