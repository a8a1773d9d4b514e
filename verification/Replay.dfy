/** Replaying a migration without a transaction: when do interrupted runs converge? */
module Replay {
  import opened SqlLexer
  import StatementSplitter
  import Sanitizer
  import OptOut
  import opened PgSession
  import opened MigrationRunner
  import opened MigrationRetry

  /** A catalog object or seed row: valid with a definition, or what a failed concurrent build left. */
  datatype Entry = Valid(definition: string) | Invalid

  type Db = map<string, Entry>

  /**
   * Statements that keep the contract of such files. `Ensure` creates what is
   * absent (its definition may depend on the data it finds); `DropInvalid`
   * removes failed builds; `Neutral` touches no object.
   */
  datatype Stmt =
    | Neutral
    | Ensure(key: string, define: Db -> string, concurrent: bool)
    | DropInvalid(keys: set<string>)

  function Apply(db: Db, st: Stmt): Db {
    match st
    case Neutral => db
    case Ensure(key, define, _) => if key in db then db else db[key := Valid(define(db))]
    case DropInvalid(keys) => map k | k in db && !(k in keys && db[k].Invalid?) :: db[k]
  }

  /** What a failed statement leaves: a concurrent build of an absent object leaves it invalid. */
  function Spoil(db: Db, st: Stmt): Db {
    if st.Ensure? && st.concurrent && st.key !in db then db[st.key := Invalid] else db
  }

  /** What each statement text does. */
  type Meaning = string -> Stmt

  function StmtOf(meaning: Meaning, e: Effect): Stmt {
    if e.Recorded? then Neutral else meaning(e.text)
  }

  function Enact(db: Db, meaning: Meaning, e: Effect): Db {
    if e.Debris? then Spoil(db, meaning(e.text)) else Apply(db, StmtOf(meaning, e))
  }

  function Play(db: Db, meaning: Meaning, es: seq<Effect>): Db {
    if es == [] then db else Enact(Play(db, meaning, es[..|es| - 1]), meaning, es[|es| - 1])
  }

  lemma {:induction false} PlayAppend(db: Db, meaning: Meaning, a: seq<Effect>, b: seq<Effect>)
    ensures Play(db, meaning, a + b) == Play(Play(db, meaning, a), meaning, b)
    decreases |b|
  {
    hide Enact;
    if b == [] {
      assert a + b == a;
    } else {
      assert (a + b)[..|a + b| - 1] == a + b[..|b| - 1];
      PlayAppend(db, meaning, a, b[..|b| - 1]);
    }
  }

  // ---------------------------------------------------------------------
  // The contract
  // ---------------------------------------------------------------------

  predicate Makes(meaning: Meaning, e: Effect, key: string) {
    var st := StmtOf(meaning, e); st.Ensure? && st.key == key
  }

  predicate Drops(meaning: Meaning, e: Effect, key: string) {
    var st := StmtOf(meaning, e); st.DropInvalid? && key in st.keys
  }

  /** One of the first `n` statements drops failed builds of `key`. */
  predicate DroppedBefore(meaning: Meaning, es: seq<Effect>, n: nat, key: string) {
    exists h :: 0 <= h < n <= |es| && Drops(meaning, es[h], key)
  }

  predicate MadeBefore(meaning: Meaning, es: seq<Effect>, n: nat, key: string) {
    exists h :: 0 <= h < n <= |es| && Makes(meaning, es[h], key)
  }

  /** What a file drops after making it, it has dropped before making it too. */
  ghost predicate NoLateDrop(meaning: Meaning, es: seq<Effect>) {
    forall i, j, key :: 0 <= i < j < |es| && Makes(meaning, es[i], key) && Drops(meaning, es[j], key) ==>
      DroppedBefore(meaning, es, i, key)
  }

  /** Every concurrent build that comes first for its object has its failed builds dropped up front. */
  predicate UpFront(meaning: Meaning, es: seq<Effect>) {
    forall i :: 0 <= i < |es| ==>
      var st := StmtOf(meaning, es[i]);
      st.Ensure? && st.concurrent ==> MadeBefore(meaning, es, i, st.key) || DroppedBefore(meaning, es, i, st.key)
  }

  /** A migration script: statements and ledger rows, no debris. */
  predicate IsScript(es: seq<Effect>) { forall i :: 0 <= i < |es| ==> !es[i].Debris? }

  // ---------------------------------------------------------------------
  // Clean prefixes
  // ---------------------------------------------------------------------

  /** The database after the first `k` statements of a clean run. */
  function Clean(db: Db, meaning: Meaning, es: seq<Effect>, k: nat): Db
    requires k <= |es|
  {
    Play(db, meaning, es[..k])
  }

  lemma CleanStep(db: Db, meaning: Meaning, es: seq<Effect>, k: nat)
    requires k < |es| && IsScript(es)
    ensures Clean(db, meaning, es, k + 1) == Apply(Clean(db, meaning, es, k), StmtOf(meaning, es[k]))
  {
    hide Apply, StmtOf;
    assert es[..k + 1][..k] == es[..k];
  }

  predicate IsInvalid(db: Db, key: string) { key in db && db[key].Invalid? }

  /** What was dropped while invalid does not become invalid again. */
  lemma {:induction false} DroppedStaysValid(db: Db, meaning: Meaning, es: seq<Effect>, k: nat, key: string)
    requires k <= |es| && IsScript(es) && DroppedBefore(meaning, es, k, key)
    ensures !IsInvalid(Clean(db, meaning, es, k), key)
  {
    hide Clean;
    var h :| 0 <= h < k && Drops(meaning, es[h], key);
    CleanStep(db, meaning, es, k - 1);
    if h < k - 1 {
      assert DroppedBefore(meaning, es, k - 1, key);
      DroppedStaysValid(db, meaning, es, k - 1, key);
    }
  }

  /** What was made is there from then on. */
  lemma {:induction false} MadeStays(db: Db, meaning: Meaning, es: seq<Effect>, k: nat, key: string)
    requires k <= |es| && IsScript(es) && NoLateDrop(meaning, es) && MadeBefore(meaning, es, k, key)
    ensures key in Clean(db, meaning, es, k)
  {
    hide Clean;
    var h :| 0 <= h < k && Makes(meaning, es[h], key);
    CleanStep(db, meaning, es, k - 1);
    if h < k - 1 {
      assert MadeBefore(meaning, es, k - 1, key);
      MadeStays(db, meaning, es, k - 1, key);
      if Drops(meaning, es[k - 1], key) {
        assert DroppedBefore(meaning, es, h, key);
        assert DroppedBefore(meaning, es, k - 1, key);
        DroppedStaysValid(db, meaning, es, k - 1, key);
      }
    }
  }

  // ---------------------------------------------------------------------
  // Interrupted runs
  // ---------------------------------------------------------------------

  /** A clean prefix, where the build after it may have failed. */
  function Front(db: Db, meaning: Meaning, es: seq<Effect>, k: nat, dirty: bool): Db
    requires k <= |es| && (dirty ==> k < |es|)
  {
    var clean := Clean(db, meaning, es, k);
    if dirty then Spoil(clean, StmtOf(meaning, es[k])) else clean
  }

  /** Redoing a statement before the front changes nothing, except to drop the failed build. */
  lemma RedoOne(db: Db, meaning: Meaning, es: seq<Effect>, k: nat, dirty: bool, i: nat)
    requires IsScript(es) && NoLateDrop(meaning, es)
    requires i < k <= |es| && (dirty ==> k < |es|)
    ensures var after := Apply(Front(db, meaning, es, k, dirty), StmtOf(meaning, es[i]));
      && (after == Front(db, meaning, es, k, dirty) || after == Front(db, meaning, es, k, false))
      && (dirty && StmtOf(meaning, es[k]).Ensure? && Drops(meaning, es[i], StmtOf(meaning, es[k]).key) ==>
            after == Front(db, meaning, es, k, false))
  {
    hide Clean, NoLateDrop;
    var clean := Clean(db, meaning, es, k);
    var front := Front(db, meaning, es, k, dirty);
    var st := StmtOf(meaning, es[i]);
    if st.Ensure? {
      assert Makes(meaning, es[i], st.key);
      assert MadeBefore(meaning, es, k, st.key);
      MadeStays(db, meaning, es, k, st.key);
    } else if st.DropInvalid? {
      forall key | key in st.keys ensures !IsInvalid(clean, key) {
        assert Drops(meaning, es[i], key);
        assert DroppedBefore(meaning, es, k, key);
        DroppedStaysValid(db, meaning, es, k, key);
      }
      assert Apply(clean, st) == clean;
      if front != clean {
        var key := StmtOf(meaning, es[k]).key;
        if key in st.keys {
          assert Apply(front, st) == clean;
        } else {
          assert Apply(front, st) == front;
        }
      }
    }
  }

  /** Redoing the first `i` statements before the front. */
  lemma {:induction false} Redo(db: Db, meaning: Meaning, es: seq<Effect>, k: nat, dirty: bool, i: nat)
    requires IsScript(es) && NoLateDrop(meaning, es)
    requires i <= k <= |es| && (dirty ==> k < |es|)
    ensures var after := Play(Front(db, meaning, es, k, dirty), meaning, es[..i]);
      && (after == Front(db, meaning, es, k, dirty) || after == Front(db, meaning, es, k, false))
      && (dirty && StmtOf(meaning, es[k]).Ensure? && DroppedBefore(meaning, es, i, StmtOf(meaning, es[k]).key) ==>
            after == Front(db, meaning, es, k, false))
    decreases i
  {
    hide Front, NoLateDrop, Apply, StmtOf;
    if i > 0 {
      Redo(db, meaning, es, k, dirty, i - 1);
      RedoOne(db, meaning, es, k, dirty, i - 1);
      RedoOne(db, meaning, es, k, false, i - 1);
      assert es[..i][..i - 1] == es[..i - 1];
    } else {
      assert es[..0] == [];
    }
  }

  /** A replay that reaches the front finds it clean. */
  lemma RedoToFront(db: Db, meaning: Meaning, es: seq<Effect>, k: nat, dirty: bool)
    requires IsScript(es) && NoLateDrop(meaning, es) && UpFront(meaning, es)
    requires k <= |es| && (dirty ==> k < |es|)
    ensures Play(Front(db, meaning, es, k, dirty), meaning, es[..k]) == Clean(db, meaning, es, k)
  {
    hide Clean, NoLateDrop, Play;
    Redo(db, meaning, es, k, dirty, k);
    if dirty && Front(db, meaning, es, k, true) != Clean(db, meaning, es, k) {
      var st := StmtOf(meaning, es[k]);
      if MadeBefore(meaning, es, k, st.key) {
        MadeStays(db, meaning, es, k, st.key);
      }
    }
  }

  /** A front that a run which got to `at` leaves behind: further on, or where it was. */
  lemma RunFromFront(db: Db, meaning: Meaning, es: seq<Effect>, k: nat, dirty: bool, run: Run)
      returns (k': nat, dirty': bool)
    requires IsScript(es) && NoLateDrop(meaning, es) && UpFront(meaning, es)
    requires k <= |es| && (dirty ==> k < |es|) && IsRunOf(es, run)
    ensures k' == (if run.at > k then run.at else k) && (dirty' ==> k' < |es|)
    ensures Play(Front(db, meaning, es, k, dirty), meaning, Reached(es, run.at, run.partial))
      == Front(db, meaning, es, k', dirty')
  {
    hide NoLateDrop, UpFront, Clean, Spoil, Apply, IsScript, Play;
    var front := Front(db, meaning, es, k, dirty);
    var redone := Play(front, meaning, es[..run.at]);
    PlayTail(front, meaning, es, run);
    if run.at >= k {
      k' := run.at;
      dirty' := run.partial;
      RedoToFront(db, meaning, es, k, dirty);
      Onwards(db, meaning, es, k, run.at, front);
    } else {
      k' := k;
      Redo(db, meaning, es, k, dirty, run.at);
      dirty' := redone == front && dirty;
      if run.partial {
        SpoilBehind(db, meaning, es, k, dirty', run.at);
      }
    }
  }

  lemma PlayTail(front: Db, meaning: Meaning, es: seq<Effect>, run: Run)
    requires IsRunOf(es, run)
    ensures Play(front, meaning, Reached(es, run.at, run.partial)) ==
      (var redone := Play(front, meaning, es[..run.at]);
       if run.partial then Spoil(redone, StmtOf(meaning, es[run.at])) else redone)
  {
    if run.partial {
      var r := Reached(es, run.at, run.partial);
      assert r[..|r| - 1] == es[..run.at];
    } else {
      assert es[..run.at] + [] == es[..run.at];
    }
  }

  lemma Onwards(db: Db, meaning: Meaning, es: seq<Effect>, k: nat, at: nat, front: Db)
    requires k <= at <= |es|
    requires Play(front, meaning, es[..k]) == Clean(db, meaning, es, k)
    ensures Play(front, meaning, es[..at]) == Clean(db, meaning, es, at)
  {
    assert es[..at] == es[..k] + es[k..at];
    PlayAppend(front, meaning, es[..k], es[k..at]);
    PlayAppend(db, meaning, es[..k], es[k..at]);
  }

  /** Before the front every object is there, so a failing build leaves nothing. */
  lemma SpoilBehind(db: Db, meaning: Meaning, es: seq<Effect>, k: nat, dirty: bool, i: nat)
    requires IsScript(es) && NoLateDrop(meaning, es)
    requires i < k <= |es| && (dirty ==> k < |es|)
    ensures Spoil(Front(db, meaning, es, k, dirty), StmtOf(meaning, es[i])) == Front(db, meaning, es, k, dirty)
  {
    hide Clean, NoLateDrop;
    var st := StmtOf(meaning, es[i]);
    if st.Ensure? {
      assert Makes(meaning, es[i], st.key);
      assert MadeBefore(meaning, es, k, st.key);
      MadeStays(db, meaning, es, k, st.key);
    }
  }

  lemma {:induction false} RunsReachFront(db: Db, meaning: Meaning, es: seq<Effect>, runs: seq<Run>)
      returns (k: nat, dirty: bool)
    requires IsScript(es) && NoLateDrop(meaning, es) && UpFront(meaning, es) && AreRunsOf(es, runs)
    ensures k <= |es| && (dirty ==> k < |es|)
    ensures forall i :: 0 <= i < |runs| ==> runs[i].at <= k
    ensures Play(db, meaning, Trail(es, runs)) == Front(db, meaning, es, k, dirty)
    decreases |runs|
  {
    hide NoLateDrop, UpFront, Front, IsScript, Reached;
    if runs == [] {
      k, dirty := 0, false;
      FrontOfNothing(db, meaning, es);
    } else {
      var init, last := runs[..|runs| - 1], runs[|runs| - 1];
      var k0, dirty0 := RunsReachFront(db, meaning, es, init);
      k, dirty := RunFromFront(db, meaning, es, k0, dirty0, last);
      PlayAppend(db, meaning, Trail(es, init), Reached(es, last.at, last.partial));
      forall i | 0 <= i < |runs| ensures runs[i].at <= k {
        assert i < |init| ==> runs[i] == init[i];
      }
    }
  }

  lemma FrontOfNothing(db: Db, meaning: Meaning, es: seq<Effect>)
    ensures Front(db, meaning, es, 0, false) == db
  {
    assert es[..0] == [];
  }

  /**
   * Any number of attempts that stopped anywhere, with or without debris,
   * followed by one that completes, leave the database of one clean run.
   */
  lemma ReplayConverges(db: Db, meaning: Meaning, es: seq<Effect>, runs: seq<Run>)
    requires IsScript(es) && NoLateDrop(meaning, es) && UpFront(meaning, es) && AreRunsOf(es, runs)
    requires runs != [] && runs[|runs| - 1].at == |es|
    ensures Play(db, meaning, Trail(es, runs)) == Play(db, meaning, es)
  {
    hide NoLateDrop, UpFront, IsScript;
    var k, dirty := RunsReachFront(db, meaning, es, runs);
    assert k == |es|;
    assert es[..k] == es;
  }

  // ---------------------------------------------------------------------
  // The contract is needed
  // ---------------------------------------------------------------------

  /** However its attempts were interrupted, the script ends in the database of a clean run. */
  ghost predicate Converges(meaning: Meaning, es: seq<Effect>) {
    forall db: Db, runs: seq<Run> ::
      AreRunsOf(es, runs) && runs != [] && runs[|runs| - 1].at == |es| ==>
        Play(db, meaning, Trail(es, runs)) == Play(db, meaning, es)
  }

  lemma {:induction false} NothingMadeIt(meaning: Meaning, es: seq<Effect>, k: nat, key: string)
    requires k <= |es| && IsScript(es) && !MadeBefore(meaning, es, k, key)
    ensures key !in Clean(map[], meaning, es, k)
  {
    hide Clean;
    if k == 0 {
      FrontOfNothing(map[], meaning, es);
    } else {
      assert !Makes(meaning, es[k - 1], key);
      CleanStep(map[], meaning, es, k - 1);
      NothingMadeIt(meaning, es, k - 1, key);
    }
  }

  /** A clean run leaves no failed build of an object that was absent. */
  lemma {:induction false} CleanIsValid(meaning: Meaning, es: seq<Effect>, k: nat, key: string)
    requires k <= |es| && IsScript(es)
    ensures !IsInvalid(Clean(map[], meaning, es, k), key)
  {
    hide Clean;
    if k == 0 {
      FrontOfNothing(map[], meaning, es);
    } else {
      CleanStep(map[], meaning, es, k - 1);
      CleanIsValid(meaning, es, k - 1, key);
    }
  }

  /** Nobody drops it: a failed build is skipped for ever. */
  lemma {:induction false} InvalidStays(db: Db, meaning: Meaning, es: seq<Effect>, k: nat, key: string)
    requires k <= |es| && IsScript(es) && IsInvalid(db, key) && !DroppedBefore(meaning, es, |es|, key)
    ensures IsInvalid(Clean(db, meaning, es, k), key)
  {
    hide Clean;
    if k == 0 {
      FrontOfNothing(db, meaning, es);
    } else {
      assert !Drops(meaning, es[k - 1], key);
      CleanStep(db, meaning, es, k - 1);
      InvalidStays(db, meaning, es, k - 1, key);
    }
  }

  /** An attempt whose statement `i` fails and leaves debris, then a complete one. */
  function FailThenComplete(es: seq<Effect>, i: nat): (runs: seq<Run>)
    ensures runs != [] && runs[|runs| - 1].at == |es|
  {
    [Run(i, true), Run(|es|, false)]
  }

  /** One failed build that is never dropped: a failed attempt and a complete one do not converge. */
  lemma UnpreparedDiverges(meaning: Meaning, es: seq<Effect>, i: nat)
    requires IsScript(es) && NoLateDrop(meaning, es) && i < |es|
    requires var st := StmtOf(meaning, es[i]);
      st.Ensure? && st.concurrent && !MadeBefore(meaning, es, i, st.key) && !DroppedBefore(meaning, es, i, st.key)
    ensures AreRunsOf(es, FailThenComplete(es, i))
    ensures Play(map[], meaning, Trail(es, FailThenComplete(es, i))) != Play(map[], meaning, es)
  {
    hide Play, Trail;
    var key := StmtOf(meaning, es[i]).key;
    var failed := [Run(i, true)];
    assert FailThenComplete(es, i) == failed + [Run(|es|, false)];
    NothingMadeIt(meaning, es, i, key);
    assert Makes(meaning, es[i], key);
    assert MadeBefore(meaning, es, |es|, key);
    MadeStays(map[], meaning, es, |es|, key);
    CleanIsValid(meaning, es, |es|, key);
    assert !DroppedBefore(meaning, es, |es|, key);
    AfterOneFailure(meaning, es, i);
    var db := Play(map[], meaning, Trail(es, failed));
    InvalidStays(db, meaning, es, |es|, key);
    TrailGrows(es, failed, Run(|es|, false));
    assert es[..|es|] == es && es + [] == es;
    PlayAppend(map[], meaning, Trail(es, failed), es);
  }

  lemma AfterOneFailure(meaning: Meaning, es: seq<Effect>, i: nat)
    requires i < |es| && es[i].Ran?
    ensures AreRunsOf(es, [Run(i, true)])
    ensures Play(map[], meaning, Trail(es, [Run(i, true)])) == Spoil(Clean(map[], meaning, es, i), StmtOf(meaning, es[i]))
  {
    hide Spoil, StmtOf;
    var one := [Run(i, true)];
    assert one[..0] == [];
    assert Trail(es, one) == [] + Reached(es, i, true) == Reached(es, i, true);
    PlayTail(map[], meaning, es, Run(i, true));
  }

  /** Among files that never drop late, exactly those converge that drop failed builds up front. */
  lemma ConvergesIffUpFront(meaning: Meaning, es: seq<Effect>)
    requires IsScript(es) && NoLateDrop(meaning, es)
    ensures Converges(meaning, es) <==> UpFront(meaning, es)
  {
    hide Play, Trail, NoLateDrop;
    if UpFront(meaning, es) {
      forall db: Db, runs: seq<Run> | AreRunsOf(es, runs) && runs != [] && runs[|runs| - 1].at == |es|
        ensures Play(db, meaning, Trail(es, runs)) == Play(db, meaning, es)
      {
        ReplayConverges(db, meaning, es, runs);
      }
    } else {
      var i :| 0 <= i < |es| && var st := StmtOf(meaning, es[i]);
        st.Ensure? && st.concurrent && !MadeBefore(meaning, es, i, st.key) && !DroppedBefore(meaning, es, i, st.key);
      UnpreparedDiverges(meaning, es, i);
    }
  }

  /** A migration that succeeds in the end, after any number of lock timeouts, has done what one clean run does. */
  lemma TrackedMigrationConverges(m: Migration, r: Result, start: seq<Effect>, durable: seq<Effect>, runs: seq<Run>,
                                  db: Db, meaning: Meaning)
    requires Attempted(m, r, start, durable, runs) && r.Ok?
    requires NoLateDrop(meaning, ScriptOf(m)) && UpFront(meaning, ScriptOf(m))
    ensures Play(db, meaning, durable) == Play(Play(db, meaning, start), meaning, ScriptOf(m))
  {
    hide NoLateDrop, UpFront, Play, Trail, ScriptOf, OnlyRetries;
    ScriptIsScript(m);
    ReplayConverges(Play(db, meaning, start), meaning, ScriptOf(m), runs);
    PlayAppend(db, meaning, start, Trail(ScriptOf(m), runs));
  }

  lemma {:induction false} TrailAppend(es: seq<Effect>, a: seq<Run>, b: seq<Run>)
    requires AreRunsOf(es, a) && AreRunsOf(es, b)
    ensures AreRunsOf(es, a + b) && Trail(es, a + b) == Trail(es, a) + Trail(es, b)
    decreases |b|
  {
    hide Reached;
    if b == [] {
      assert a + b == a;
    } else {
      assert (a + b)[..|a + b| - 1] == a + b[..|b| - 1];
      TrailAppend(es, a, b[..|b| - 1]);
    }
  }

  /** One call for the same file after another: what each found and left durable, and how it ended. */
  predicate AreCalls(m: Migration, durables: seq<seq<Effect>>, results: seq<Result>, rows: seq<seq<Run>>) {
    && |durables| == |results| + 1 && |rows| == |results|
    && forall i :: 0 <= i < |results| ==> Attempted(m, results[i], durables[i], durables[i + 1], rows[i])
  }

  /** All attempts of all calls, put end to end. */
  lemma {:induction false} CallsAreRuns(m: Migration, durables: seq<seq<Effect>>, results: seq<Result>, rows: seq<seq<Run>>, n: nat)
    returns (runs: seq<Run>)
    requires AreCalls(m, durables, results, rows) && n <= |results|
    ensures AreRunsOf(ScriptOf(m), runs) && durables[n] == durables[0] + Trail(ScriptOf(m), runs)
    ensures n > 0 ==> runs != [] && runs[|runs| - 1] == rows[n - 1][|rows[n - 1]| - 1]
    decreases n
  {
    hide ScriptOf, Attempted, IsRunOf, Trail;
    if n == 0 {
      runs := [];
      assert durables[0] + [] == durables[0];
      NoTrail(ScriptOf(m));
    } else {
      var before := CallsAreRuns(m, durables, results, rows, n - 1);
      var last := rows[n - 1];
      assert Attempted(m, results[n - 1], durables[n - 1], durables[n - 1 + 1], last);
      AttemptedParts(m, results[n - 1], durables[n - 1], durables[n], last);
      TrailAppend(ScriptOf(m), before, last);
      SeqAssoc(durables[0], Trail(ScriptOf(m), before), Trail(ScriptOf(m), last));
      runs := before + last;
    }
  }

  lemma AttemptedParts(m: Migration, r: Result, start: seq<Effect>, durable: seq<Effect>, runs: seq<Run>)
    requires Attempted(m, r, start, durable, runs)
    ensures runs != [] && AreRunsOf(ScriptOf(m), runs) && durable == start + Trail(ScriptOf(m), runs)
    ensures r.Ok? ==> runs[|runs| - 1].at == |ScriptOf(m)|
  {
    hide ScriptOf, Trail;
  }

  lemma NoTrail(es: seq<Effect>)
    ensures Trail(es, []) == []
  {
  }

  /**
   * Calls for one file that failed, with whatever debris, and one that
   * succeeds in the end leave the database of one clean run from before the first.
   */
  lemma RepeatedCallsConverge(m: Migration, durables: seq<seq<Effect>>, results: seq<Result>, rows: seq<seq<Run>>,
                              db: Db, meaning: Meaning)
    requires AreCalls(m, durables, results, rows) && results != [] && results[|results| - 1].Ok?
    requires NoLateDrop(meaning, ScriptOf(m)) && UpFront(meaning, ScriptOf(m))
    ensures Play(db, meaning, durables[|results|]) == Play(Play(db, meaning, durables[0]), meaning, ScriptOf(m))
  {
    hide NoLateDrop, UpFront, Play, Trail, ScriptOf, Attempted;
    var n := |results|;
    var runs := CallsAreRuns(m, durables, results, rows, n);
    assert Attempted(m, results[n - 1], durables[n - 1], durables[n - 1 + 1], rows[n - 1]);
    AttemptedParts(m, results[n - 1], durables[n - 1], durables[n], rows[n - 1]);
    ScriptIsScript(m);
    ReplayConverges(Play(db, meaning, durables[0]), meaning, ScriptOf(m), runs);
    PlayAppend(db, meaning, durables[0], Trail(ScriptOf(m), runs));
  }

  lemma ScriptIsScript(m: Migration)
    ensures IsScript(ScriptOf(m))
  {
    hide Sanitizer.Sanitize, StatementSplitter.Split, OptOut.RunsWithoutTransaction;
  }
}
