/**
 * A PostgreSQL session as the migration scripts see it: one connection, its
 * transaction, its settings, and what it has made durable. Every query may
 * succeed, fail with any SQLSTATE, or lose the connection.
 */
module PgSession {
  import opened Options
  import opened Text
  import opened StatementSplitter
  import opened LockEffects

  /** The settings the scripts rely on. */
  datatype Guc = LockTimeout | StatementTimeout | Role | BypassRls | SearchPath | RowSecurity | ReadOnly

  /** `AsStated` is a lock_timeout that a body has set, in its own words. */
  datatype Value = Millis(n: int) | Name(text: string) | On | AsStated(text: string)

  /** A setting that is absent has the server's default. */
  type Settings = map<Guc, Value>

  function Read(s: Settings, g: Guc): Option<Value> { if g in s then Some(s[g]) else None }

  datatype Command =
    | Connect
    | Begin(readOnly: bool)
    | Commit
    | Rollback
    | Savepoint
    | RollbackTo
    | SetLocal(guc: Guc, value: Value)
    | Set(guc: Guc, value: Value)
    | Reset(guc: Guc)
    | Sql(text: string)
    | Record(filename: string, digest: string)
    | Probe

  /** One durable effect; `Debris` is what a failed statement leaves outside a transaction. */
  datatype Effect = Ran(text: string) | Debris(text: string) | Recorded(filename: string, digest: string)

  /** What a transaction has done, and the settings it sees now and keeps on commit. */
  datatype Work = Work(pending: seq<Effect>, now: Settings, kept: Settings)

  datatype Tx =
    | Idle
    | Open(work: Work, save: Option<Work>)
    | Aborted(save: Option<Work>)
    | Dead

  datatype State = State(tx: Tx, base: Settings, durable: seq<Effect>)

  /** A result row: its columns, where a column that is not a string is absent. */
  type Row = map<string, string>

  datatype Fate = Untouched | Partial | Applied

  datatype Reply =
    | Done(rows: seq<Row>, now: Settings, kept: Settings)
    | Failed(code: string, partial: bool)
    | Lost(fate: Fate)

  datatype Error =
    | ServerError(code: string)
    | ConnectionLost
    | Refused
    | StepFailed(step: nat, total: nat, cause: Error)

  /** What the caller of a query gets: rows, or a thrown error. */
  datatype Result = Ok(rows: seq<Row>) | Thrown(error: Error)

  function Answer(r: Reply): Result {
    match r
    case Done(rows, _, _) => Ok(rows)
    case Failed(code, _) => Thrown(ServerError(code))
    case Lost(_) => Thrown(ConnectionLost)
  }

  /** The settings in force. */
  function InForce(s: State): Settings {
    match s.tx
    case Idle => s.base
    case Open(w, _) => w.now
    case _ => map[]
  }

  /** The settings that stay when the transaction ends. */
  function Lasting(s: State): Settings {
    match s.tx
    case Open(w, _) => w.kept
    case _ => s.base
  }

  predicate Mentions(text: string, word: string) {
    exists i :: 0 <= i <= |text| && WordAt(text, i, word)
  }

  /** A text that does not name roles or authorizations, nor discards, cannot change the role. */
  predicate RoleFree(text: string) {
    !Mentions(text, "role") && !Mentions(text, "authorization") && !Mentions(text, "discard")
  }

  /** What is known of lock_timeout: its value, if any is set, or nothing. */
  datatype Knowledge = Exactly(value: Option<Value>) | Anything

  function AfterEffect(e: LockEffect, locals: bool, known: Knowledge): Knowledge {
    if !Touches(e, locals) then known else
    match e
    case Sets(value, _) => Exactly(Some(AsStated(value)))
    case Resets => Exactly(None)
    case _ => Anything
  }

  /** The statements of a text take effect one after another. */
  function AfterEffects(es: seq<LockEffect>, locals: bool, known: Knowledge): Knowledge {
    if es == [] then known
    else AfterEffect(es[|es| - 1], locals, AfterEffects(es[..|es| - 1], locals, known))
  }

  /** The text sets lock_timeout as its statements do, and the role only by naming it. */
  predicate Respects(text: string, locals: bool, before: Settings, after: Settings) {
    && Read(after, ReadOnly) == Read(before, ReadOnly)
    && SetsLock(text, locals, before, after)
    && (RoleFree(text) ==> Read(after, Role) == Read(before, Role))
  }

  predicate SetsLock(text: string, locals: bool, before: Settings, after: Settings) {
    var known := AfterEffects(LockEffectsOf(text), locals, Exactly(Read(before, LockTimeout)));
    known.Exactly? ==> Read(after, LockTimeout) == known.value
  }

  lemma {:induction false} NoEffect(es: seq<LockEffect>, locals: bool, known: Knowledge)
    requires forall i :: 0 <= i < |es| ==> !Touches(es[i], locals)
    ensures AfterEffects(es, locals, known) == known
    decreases |es|
  {
    if es != [] {
      NoEffect(es[..|es| - 1], locals, known);
    }
  }

  /** A quiet text leaves lock_timeout alone; what does not reach it in a transaction does not outside one. */
  lemma QuietKeepsLock(text: string, inTransaction: bool, locals: bool, before: Settings, after: Settings)
    requires Quiet(text, inTransaction) && (locals ==> inTransaction) && SetsLock(text, locals, before, after)
    ensures Read(after, LockTimeout) == Read(before, LockTimeout)
  {
    hide LockEffectOf, Split;
    NoEffect(LockEffectsOf(text), locals, Exactly(Read(before, LockTimeout)));
  }

  /** The replies the server may give. A statement may change other settings at will. */
  predicate Legal(s: State, c: Command, r: Reply) {
    if c.Connect? then r.Done? || r == Lost(Untouched) || (r.Failed? && !r.partial)
    else if s.tx.Dead? then r == Lost(Untouched) else
    match r
    case Done(_, now, kept) =>
      && (s.tx.Aborted? ==> c.Rollback? || c.Commit? || c.RollbackTo?)
      && (c.Savepoint? ==> s.tx.Open?)
      && (c.RollbackTo? ==> !s.tx.Idle? && s.tx.save.Some?)
      && (c.Sql? && s.tx.Idle? ==> Respects(c.text, false, s.base, now))
      && (c.Sql? && s.tx.Open? ==>
            Respects(c.text, true, s.tx.work.now, now) && Respects(c.text, false, s.tx.work.kept, kept))
    case Failed(_, partial) => partial ==> s.tx.Idle? && c.Sql?
    case Lost(fate) =>
      || fate.Untouched?
      || (fate.Partial? && s.tx.Idle? && c.Sql?)
      || (fate.Applied? && s.tx.Idle? && (c.Sql? || c.Record?))
      || (fate.Applied? && s.tx.Open? && c.Commit?)
  }

  function EffectOf(c: Command): Effect
    requires c.Sql? || c.Record?
  {
    if c.Sql? then Ran(c.text) else Recorded(c.filename, c.digest)
  }

  function Committed(s: State): State
    requires s.tx.Open?
  {
    State(Idle, s.tx.work.kept, s.durable + s.tx.work.pending)
  }

  /** The state after a command that took effect. */
  function Taken(s: State, c: Command, r: Reply): State
    requires Legal(s, c, r) && r.Done?
  {
    match c
    case Connect => State(Idle, r.now, s.durable)
    case Begin(ro) =>
      if s.tx.Idle? then s.(tx := Open(Work([], if ro then s.base[ReadOnly := On] else s.base, s.base), None)) else s
    case Commit => if s.tx.Open? then Committed(s) else s.(tx := Idle)
    case Rollback => s.(tx := Idle)
    case Savepoint => s.(tx := Open(s.tx.work, Some(s.tx.work)))
    case RollbackTo => s.(tx := Open(s.tx.save.value, s.tx.save))
    case SetLocal(g, v) =>
      if s.tx.Open? then s.(tx := s.tx.(work := s.tx.work.(now := s.tx.work.now[g := v]))) else s
    case Set(g, v) =>
      if s.tx.Open? then
        s.(tx := s.tx.(work := s.tx.work.(now := s.tx.work.now[g := v], kept := s.tx.work.kept[g := v])))
      else s.(base := s.base[g := v])
    case Reset(g) =>
      if s.tx.Open? then
        s.(tx := s.tx.(work := s.tx.work.(now := s.tx.work.now - {g}, kept := s.tx.work.kept - {g})))
      else s.(base := s.base - {g})
    case Sql(_) =>
      if s.tx.Open? then
        s.(tx := s.tx.(work := Work(s.tx.work.pending + [EffectOf(c)], r.now, r.kept)))
      else s.(base := r.now, durable := s.durable + [EffectOf(c)])
    case Record(_, _) =>
      if s.tx.Open? then
        s.(tx := s.tx.(work := s.tx.work.(pending := s.tx.work.pending + [EffectOf(c)])))
      else s.(durable := s.durable + [EffectOf(c)])
    case Probe => s
  }

  /** What a statement outside a transaction left behind when it did not succeed. */
  function Remains(s: State, c: Command, fate: Fate): seq<Effect>
    requires fate.Partial? ==> c.Sql?
    requires fate.Applied? ==> c.Sql? || c.Record?
  {
    match fate
    case Untouched => []
    case Partial => [Debris(c.text)]
    case Applied => [EffectOf(c)]
  }

  /** A connection from the pool has settings of its own; a COMMIT ends the transaction even if it fails. */
  function Next(s: State, c: Command, r: Reply): State
    requires Legal(s, c, r)
  {
    if c.Connect? && !r.Done? then s.(tx := Dead) else
    match r
    case Done(_, _, _) => Taken(s, c, r)
    case Failed(_, partial) =>
      if s.tx.Idle? then s.(durable := s.durable + Remains(s, c, if partial then Partial else Untouched))
      else if c.Commit? then s.(tx := Idle)
      else s.(tx := Aborted(s.tx.save))
    case Lost(fate) =>
      if s.tx.Open? && fate.Applied? then Committed(s).(tx := Dead)
      else if s.tx.Idle? then s.(tx := Dead, durable := s.durable + Remains(s, c, fate))
      else s.(tx := Dead)
  }

  /** One query: the command, the state it met, and the reply. */
  datatype Exchange = Exchange(cmd: Command, before: State, reply: Reply)

  /** What the server answers, when `r` is what it would like to. */
  function Given(s: State, c: Command, r: Reply): (g: Reply)
    ensures Legal(s, c, g)
  {
    if Legal(s, c, r) then r
    else if s.tx.Dead? && !c.Connect? then Lost(Untouched)
    else Failed("XX000", false)
  }

  /** The server's answers, one per query: arbitrary, but not up to the caller. */
  type Server = nat -> Reply

  /** The log is what happened between the caller and this server, from `start` to `st`. */
  predicate IsLog(server: Server, log: seq<Exchange>, start: State, st: State) {
    if log == [] then st == start
    else
      var init, last := log[..|log| - 1], log[|log| - 1];
      && IsLog(server, init, start, last.before)
      && last.reply == Given(last.before, last.cmd, server(|init|))
      && st == Next(last.before, last.cmd, last.reply)
  }

  /** A driver client: one connection at a time, to one server. */
  class Client {
    const server: Server
    const start: State
    var st: State
    var log: seq<Exchange>

    predicate Valid()
      reads this
    {
      IsLog(server, log, start, st)
    }

    /** Not connected yet, to a database that holds `durable`. */
    constructor (server: Server, durable: seq<Effect>)
      ensures Valid() && st == State(Dead, map[], durable) && log == []
    {
      this.server := server;
      start := State(Dead, map[], durable);
      st := State(Dead, map[], durable);
      log := [];
    }

    /** Sends one command. */
    method Query(c: Command) returns (r: Result)
      requires Valid()
      modifies this
      ensures Valid()
      ensures |log| == |old(log)| + 1 && log[..|old(log)|] == old(log)
      ensures var e := log[|old(log)|];
        e.cmd == c && e.before == old(st) && Legal(old(st), c, e.reply)
        && st == Next(old(st), c, e.reply) && r == Answer(e.reply)
    {
      var reply := Given(st, c, server(|log|));
      log := log + [Exchange(c, st, reply)];
      r := Answer(reply);
      st := Next(st, c, reply);
      assert log[..|old(log)|] == old(log);
    }
  }
}
