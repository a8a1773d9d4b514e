/** What a whole rotation leaves behind: after one finished run, and through any number of runs among editors. */
module RotationOutcome {
  import opened SealedBlobs
  import opened OrgSettings
  import opened KeyRotation
  import opened RotationRun
  import opened KeyRetirement
  import opened DataKeyRun

  /** A table whose leg holds sealed values and writes them back by id. */
  predicate Sealing(leg: Leg) { !leg.byParty && !leg.kind.Snapshot? }

  /**
   * After a finished applied run that nobody disturbed, the other keys can be
   * retired: in every such table each row of the tenant opens under the active key
   * alone to what it opened to before, so does the feedback token, and the
   * next run has nothing to seal again there.
   */
  lemma FinishedRunRetires(from: seq<Rows>, to: seq<Rows>, r: RunResult, k: Keys, again: Keys, legs: seq<Leg>, org: string)
    requires CalmRun(from, to, r, k, legs, org, true) && r.Finished? && SameKeys(k, again)
    requires forall t :: 0 <= t < |legs| && Sealing(legs[t]) ==> NoneLost(k, legs[t], from[t])
    ensures forall t :: 0 <= t < |legs| && Sealing(legs[t]) ==> Retired(from[t], to[t], k, again, legs[t], org)
    ensures org == "" ==> PlatformRetired(from[|legs|], to[|legs|], k, again)
  {
    hide PlanPlatform, PlatformFields, PlatformPatch, ReportOf, Hindered, AllMeet, RotatedTable, NoneLost, Retired, PlatformRetired;
    forall t | 0 <= t < |legs| && Sealing(legs[t]) ensures Retired(from[t], to[t], k, again, legs[t], org) {
      assert Clear(k, legs[t], from[t], org, true) && to[t] == AfterLeg(k, legs[t], from[t], org, true);
      LegRetires(from[t], k, again, legs[t], org);
    }
    if org == "" {
      TokenRetires(from[|legs|], k, again);
    }
  }

  ghost predicate Retired(was: Rows, now: Rows, k: Keys, again: Keys, leg: Leg, org: string) {
    && now.Keys == was.Keys
    && (forall id :: id in was && InScope(was[id], org) ==>
          Secrets(OnlyActive(k.ring), k, leg, now[id]) == Secrets(k.ring, k, leg, was[id]))
    && !Hindered(again, leg, now, org) && ReportOf(again, leg, now, org).resealed == 0
  }

  lemma LegRetires(rows: Rows, k: Keys, again: Keys, leg: Leg, org: string)
    requires !Hindered(k, leg, rows, org) && NoneLost(k, leg, rows) && SameKeys(k, again) && Sealing(leg)
    ensures Retired(rows, RotatedTable(k, leg, rows, org), k, again, leg, org)
  {
    hide Hindered, Secrets, Selected, Writes, RotatedTable;
    RetiringIsSafe(k, leg, rows, org, again);
    SelectedExist(rows, leg, org);
    NothingToWrite(again, leg, RotatedTable(k, leg, rows, org), Selected(rows, leg, org), org);
    SelectionStays(k, leg, rows, org);
  }

  lemma NothingToWrite(k: Keys, leg: Leg, rows: Rows, ids: set<Id>, org: string)
    requires Writes(k, leg, rows, ids) == {}
    ensures Selected(rows, leg, org) <= ids ==> ReportOf(k, leg, rows, org).resealed == 0
  {
    hide PlanRow, Selected;
    if Selected(rows, leg, org) <= ids {
      assert Writes(k, leg, rows, Selected(rows, leg, org)) <= Writes(k, leg, rows, ids);
    }
  }

  predicate PlatformRetired(was: Rows, now: Rows, k: Keys, again: Keys) {
    var doc := PlatformFields(was);
    && Secret(OnlyActive(k.ring), Feedback(PlatformFields(now)), "token", Scope("system", "feedback.token"))
         == Secret(k.ring, Feedback(doc), "token", Scope("system", "feedback.token"))
    && (PlanPlatform(again, PlatformFields(now)).Current? || PlanPlatform(again, PlatformFields(now)).Nothing?)
  }

  lemma TokenRetires(rows: Rows, k: Keys, again: Keys)
    requires SameKeys(k, again) && !PlanPlatform(k, PlatformFields(rows)).Unopened?
    ensures PlatformRetired(rows, PlatformPatch(k, PlatformFields(rows), rows), k, again)
  {
    hide PlatformFields, Unseal, Seal;
    if PlanPlatform(k, PlatformFields(rows)).Nothing? {
      NothingOpensNothing(k.ring, OnlyActive(k.ring), TokenScope());
    } else {
      PlatformKept(k, again, rows);
    }
  }

  // ---------------------------------------------------------------------
  // Many runs among editors
  // ---------------------------------------------------------------------

  /** One call of the rotation: the commits from `start` up to `stop`, the keys and the tenant it was for. */
  datatype Call = Call(start: nat, stop: nat, k: Keys, org: string)

  /** What is known of a call that has returned. */
  ghost predicate IsCall(journal: seq<Commit>, n: nat, from: seq<Rows>, call: Call, legs: seq<Leg>) {
    && n <= call.start <= call.stop <= |journal|
    && ExplainedRun(journal[..call.stop], call.start, StateAt(journal, n, from, call.start), call.k, legs, call.org)
  }

  /** Every commit of the rotation was made in one of the calls, all with the keys of `k`. */
  ghost predicate AreCalls(journal: seq<Commit>, n: nat, from: seq<Rows>, calls: seq<Call>, legs: seq<Leg>, k: Keys) {
    && (forall i :: 0 <= i < |calls| ==> IsCall(journal, n, from, calls[i], legs) && SameKeys(k, calls[i].k))
    && (forall j :: n <= j < |journal| && journal[j].Ours? ==> InACall(calls, j))
  }

  predicate InACall(calls: seq<Call>, j: nat) { exists i :: 0 <= i < |calls| && calls[i].start <= j < calls[i].stop }

  /** Commit `j` is that of a leg of one of the calls, or touches the platform settings only. */
  ghost predicate Ordained(journal: seq<Commit>, n: nat, from: seq<Rows>, j: nat, calls: seq<Call>, legs: seq<Leg>)
    requires n <= j < |journal|
  {
    || (exists i :: 0 <= i < |calls| && IsLegCommit(journal, n, from, j, calls[i].k, legs, calls[i].org))
    || OnlyPlatform(journal[j], |legs|)
  }

  predicate OnlyPlatform(c: Commit, t: nat) {
    t < |c.before| && t < |c.after| && c.after == c.before[t := c.after[t]]
  }

  /** The other sessions leave the row alone. */
  predicate LeftAlone(journal: seq<Commit>, n: nat, t: nat, id: Id) {
    forall j :: n <= j < |journal| && journal[j].Theirs? ==>
      t < |journal[j].before| && t < |journal[j].after| && SameRow(journal[j].before[t], journal[j].after[t], id)
  }

  lemma LeftAloneAt(journal: seq<Commit>, n: nat, t: nat, id: Id, j: nat)
    requires LeftAlone(journal, n, t, id) && n <= j < |journal| && journal[j].Theirs?
    ensures t < |journal[j].before| && t < |journal[j].after| && SameRow(journal[j].before[t], journal[j].after[t], id)
  {
    hide SameRow;
  }

  /** What was `rec` is `s[t][id]` now: the same tenant, owner and secrets, and no text has become null. */
  ghost predicate KeptAs(s: seq<Rows>, t: nat, id: Id, rec: Record, k: Keys, leg: Leg) {
    && t < |s| && id in s[t] && s[t][id].owner == rec.owner && s[t][id].tenant == rec.tenant
    && (leg.kind.Sealed? && s[t][id].value.Null? ==> rec.value.Null?)
    && Secrets(k.ring, k, leg, s[t][id]) == Secrets(k.ring, k, leg, rec)
    && !Loses(k, leg, s[t][id])
  }

  /** What a call commits is ordained. */
  lemma CallIsOrdained(journal: seq<Commit>, n: nat, from: seq<Rows>, calls: seq<Call>, legs: seq<Leg>, i: nat, j: nat)
    requires i < |calls| && IsCall(journal, n, from, calls[i], legs)
    requires calls[i].start <= j < calls[i].stop && journal[j].Ours?
    ensures Ordained(journal, n, from, j, calls, legs)
  {
    hide LegCommit, PlanPlatform, PlatformFields, PlatformPatch, HoldsDoc;
    var call := calls[i];
    var first, now := journal[..call.stop], StateAt(journal, n, from, call.start);
    assert first[j] == journal[j];
    if IsLegCommit(first, call.start, now, j, call.k, legs, call.org) {
      var t, m := LegRead(first, call.start, now, j, call.k, legs, call.org);
      assert StateAt(first, call.start, now, m) == StateAt(journal, n, from, m);
      assert ReadAt(journal, n, from, j, call.k, legs, call.org, t, m);
      assert IsLegCommit(journal, n, from, j, calls[i].k, legs, calls[i].org);
    }
  }

  /** In any number of calls, every commit of the rotation is ordained. */
  lemma CallsAreOrdained(journal: seq<Commit>, n: nat, from: seq<Rows>, calls: seq<Call>, legs: seq<Leg>, k: Keys)
    requires AreCalls(journal, n, from, calls, legs, k)
    ensures forall j :: n <= j < |journal| && journal[j].Ours? ==> Ordained(journal, n, from, j, calls, legs)
  {
    hide IsCall, Ordained;
    forall j | n <= j < |journal| && journal[j].Ours? ensures Ordained(journal, n, from, j, calls, legs) {
      assert InACall(calls, j);
      var i :| 0 <= i < |calls| && calls[i].start <= j < calls[i].stop;
      assert IsCall(journal, n, from, calls[i], legs);
      CallIsOrdained(journal, n, from, calls, legs, i, j);
    }
  }

  lemma CallKeys(journal: seq<Commit>, n: nat, from: seq<Rows>, calls: seq<Call>, legs: seq<Leg>, k: Keys, i: nat)
    requires AreCalls(journal, n, from, calls, legs, k) && i < |calls|
    ensures SameKeys(k, calls[i].k) && IsCall(journal, n, from, calls[i], legs)
  {
    hide IsCall;
  }

  lemma {:induction false} ChainedAt(edits: Edits, journal: seq<Commit>, n: nat, from: seq<Rows>, to: seq<Rows>, j: nat)
    requires Chained(edits, journal, n, from, to) && n <= j < |journal|
    ensures journal[j].before == StateAt(journal, n, from, j)
    decreases |journal|
  {
    hide Linked;
    var m := |journal| - 1;
    if j < m {
      ChainedAt(edits, journal[..m], n, from, journal[m].before, j);
      assert StateAt(journal[..m], n, from, j) == StateAt(journal, n, from, j);
    } else {
      assert StateAt(journal[..m], n, from, m) == StateAt(journal, n, from, m);
    }
  }

  /** A row through one commit of a run. */
  lemma RowThroughCommit(c: Commit, read: seq<Rows>, t: nat, t': nat, id: Id, rec: Record, k: Keys, k': Keys, legs: seq<Leg>, org: string)
    requires t < |legs| && t' < |legs| && t' < |read| && !legs[t].byParty && SameKeys(k, k')
    requires LegCommit(c, t', k', legs[t'], read[t'], org)
    requires KeptAs(c.before, t, id, rec, k, legs[t]) && KeptAs(read, t, id, rec, k, legs[t])
    ensures KeptAs(c.after, t, id, rec, k, legs[t])
  {
    hide Secrets, Loses, LegCommit;
    CommitParts(c, t', k', legs[t'], read[t'], org);
    if t' == t {
      SameLoss(k, k', legs[t], read[t][id]);
      SameLoss(k, k', legs[t], c.before[t][id]);
      CommitKeepsRow(c, t, k', legs[t], read[t], org, id);
      SameLoss(k, k', legs[t], c.after[t][id]);
    }
  }

  /**
   * Through any number of calls, finished or stopped, among any editors: a row
   * that nobody else edits keeps its tenant, its owner and every secret.
   */
  lemma {:induction false} RowThroughJournal(edits: Edits, journal: seq<Commit>, n: nat, from: seq<Rows>, to: seq<Rows>,
                                             calls: seq<Call>, legs: seq<Leg>, k: Keys, t: nat, id: Id, j: nat)
    requires Chained(edits, journal, n, from, to) && n <= j <= |journal|
    requires AreCalls(journal, n, from, calls, legs, k)
    requires LeftAlone(journal, n, t, id)
    requires t < |legs| && !legs[t].byParty && t < |from| && id in from[t] && !Loses(k, legs[t], from[t][id])
    ensures KeptAs(StateAt(journal, n, from, j), t, id, from[t][id], k, legs[t])
    decreases j
  {
    hide Secrets, Loses, LegCommit, Chained, KeptAs, IsLegCommit, AreCalls;
    var rec := from[t][id];
    if j == n {
      KeptByItself(from, t, id, k, legs[t]);
    } else {
      var c := journal[j - 1];
      RowThroughJournal(edits, journal, n, from, to, calls, legs, k, t, id, j - 1);
      ChainedAt(edits, journal, n, from, to, j - 1);
      CallsAreOrdained(journal, n, from, calls, legs, k);
      if c.Theirs? || OnlyPlatform(c, |legs|) {
        KeptAlike(c.before, c.after, t, id, rec, k, legs[t]);
      } else {
        assert Ordained(journal, n, from, j - 1, calls, legs);
        var i :| 0 <= i < |calls| && IsLegCommit(journal, n, from, j - 1, calls[i].k, legs, calls[i].org);
        var t', m := LegRead(journal, n, from, j - 1, calls[i].k, legs, calls[i].org);
        RowThroughJournal(edits, journal, n, from, to, calls, legs, k, t, id, m);
        CallKeys(journal, n, from, calls, legs, k, i);
        RowThroughCommit(c, StateAt(journal, n, from, m), t, t', id, rec, k, calls[i].k, legs, calls[i].org);
      }
    }
  }

  lemma LegRead(journal: seq<Commit>, n: nat, from: seq<Rows>, j: nat, k: Keys, legs: seq<Leg>, org: string)
      returns (t: nat, m: nat)
    requires n <= j < |journal| && IsLegCommit(journal, n, from, j, k, legs, org)
    ensures t < |legs| && n <= m <= j && t < |StateAt(journal, n, from, m)|
    ensures LegCommit(journal[j], t, k, legs[t], StateAt(journal, n, from, m)[t], org)
  {
    hide LegCommit;
    t, m :| 0 <= t < |legs| && n <= m <= j && ReadAt(journal, n, from, j, k, legs, org, t, m);
  }

  lemma KeptByItself(s: seq<Rows>, t: nat, id: Id, k: Keys, leg: Leg)
    requires t < |s| && id in s[t] && !Loses(k, leg, s[t][id])
    ensures KeptAs(s, t, id, s[t][id], k, leg)
  {
  }

  lemma KeptAlike(s: seq<Rows>, s': seq<Rows>, t: nat, id: Id, rec: Record, k: Keys, leg: Leg)
    requires KeptAs(s, t, id, rec, k, leg) && t < |s'| && SameRow(s[t], s'[t], id)
    ensures KeptAs(s', t, id, rec, k, leg)
  {
    hide Secrets, Loses;
  }

  // ---------------------------------------------------------------------
  // Retiring keys among editors
  // ---------------------------------------------------------------------

  predicate SettledAt(s: seq<Rows>, t: nat, id: Id, k: Keys, leg: Leg) {
    t < |s| && id in s[t] && Settled(k, leg, id, s[t][id])
  }

  /** A commit of a run does not touch a settled row. */
  lemma SettledThroughCommit(c: Commit, read: seq<Rows>, t: nat, t': nat, id: Id, rec: Record, k: Keys, k': Keys, legs: seq<Leg>, org: string)
    requires t < |legs| && t' < |legs| && t' < |read| && Sealing(legs[t]) && SameKeys(k, k')
    requires LegCommit(c, t', k', legs[t'], read[t'], org)
    requires KeptAs(c.before, t, id, rec, k, legs[t]) && KeptAs(read, t, id, rec, k, legs[t])
    requires SettledAt(c.before, t, id, k, legs[t])
    ensures SettledAt(c.after, t, id, k, legs[t])
  {
    hide Secrets, Loses, PlanRow, Selected, HitsSome, HitsOne, Settled;
    if t' == t && c.after[t][id] != c.before[t][id] {
      var leg, was := legs[t], c.before[t][id];
      assert IsPlanned(k', leg, read[t], org, id) && Hit(c.after[t], c.before[t], leg, WriteOf(k', leg, read[t], org, id), id);
      PlannedOverRead(k', leg, id, read[t][id]);
      PlanIgnoresNonces(k, k', leg, id, was, read[t][id]);
      PlannedIsNotSettled(k', leg, id, read[t][id]);
    }
  }

  lemma PlannedIsNotSettled(k: Keys, leg: Leg, id: Id, rec: Record)
    requires PlanRow(k, leg, id, rec).Write?
    ensures !Settled(k, leg, id, rec)
  {
    hide PlanRow;
  }

  /** Once settled, a row that nobody else edits stays settled. */
  lemma {:induction false} SettledStays(edits: Edits, journal: seq<Commit>, n: nat, from: seq<Rows>, to: seq<Rows>,
                                        calls: seq<Call>, legs: seq<Leg>, k: Keys, t: nat, id: Id, m: nat, j: nat)
    requires Chained(edits, journal, n, from, to) && n <= m <= j <= |journal|
    requires AreCalls(journal, n, from, calls, legs, k) && LeftAlone(journal, n, t, id)
    requires t < |legs| && Sealing(legs[t]) && t < |from| && id in from[t] && !Loses(k, legs[t], from[t][id])
    requires SettledAt(StateAt(journal, n, from, m), t, id, k, legs[t])
    ensures SettledAt(StateAt(journal, n, from, j), t, id, k, legs[t])
    decreases j
  {
    hide Secrets, Loses, Chained, AreCalls, SettledAt, LeftAlone, StateAt;
    if m < j {
      SettledStays(edits, journal, n, from, to, calls, legs, k, t, id, m, j - 1);
      SettledStep(edits, journal, n, from, to, calls, legs, k, t, id, j - 1);
    }
  }

  /** ... through one commit. */
  lemma SettledStep(edits: Edits, journal: seq<Commit>, n: nat, from: seq<Rows>, to: seq<Rows>,
                    calls: seq<Call>, legs: seq<Leg>, k: Keys, t: nat, id: Id, j: nat)
    requires Chained(edits, journal, n, from, to) && n <= j < |journal|
    requires AreCalls(journal, n, from, calls, legs, k) && LeftAlone(journal, n, t, id)
    requires t < |legs| && Sealing(legs[t]) && t < |from| && id in from[t] && !Loses(k, legs[t], from[t][id])
    requires SettledAt(StateAt(journal, n, from, j), t, id, k, legs[t])
    ensures SettledAt(StateAt(journal, n, from, j + 1), t, id, k, legs[t])
  {
    hide Secrets, Loses, LegCommit, Chained, KeptAs, IsLegCommit, AreCalls, IsCall, Settled, LeftAlone, Selected;
    var c := journal[j];
    ChainedAt(edits, journal, n, from, to, j);
    if c.Theirs? {
      LeftAloneAt(journal, n, t, id, j);
    } else if !OnlyPlatform(c, |legs|) {
      CallsAreOrdained(journal, n, from, calls, legs, k);
      assert Ordained(journal, n, from, j, calls, legs);
      var i :| 0 <= i < |calls| && IsLegCommit(journal, n, from, j, calls[i].k, legs, calls[i].org);
      var t', r := LegRead(journal, n, from, j, calls[i].k, legs, calls[i].org);
      RowThroughJournal(edits, journal, n, from, to, calls, legs, k, t, id, j);
      RowThroughJournal(edits, journal, n, from, to, calls, legs, k, t, id, r);
      CallKeys(journal, n, from, calls, legs, k, i);
      SettledThroughCommit(c, StateAt(journal, n, from, r), t, t', id, from[t][id], k, calls[i].k, legs, calls[i].org);
    }
  }

  /** What the commit of a leg wrote over a row is settled. */
  lemma WrittenIsSettled(c: Commit, read: Rows, t: nat, id: Id, k: Keys, leg: Leg, org: string)
    requires LegCommit(c, t, k, leg, read, org) && Sealing(leg)
    requires IsPlanned(k, leg, read, org, id) && id in c.before[t] && c.before[t][id].owner == read[id].owner
    requires !Loses(k, leg, read[id])
    ensures SettledAt(c.after, t, id, k, leg)
  {
    hide Secrets, Loses, PlanRow, Selected, HitsOne, Settled;
    var w := WriteOf(k, leg, read, org, id);
    assert HitsSome(c.after[t], c.before[t], leg, w);
    var b: Id :| Hit(c.after[t], c.before[t], leg, w, b);
    assert b == id;
    SelectedExist(read, leg, org);
    RotatedIsSettled(k, leg, id, read[id]);
    PlanIgnoresNonces(k, k, leg, id, RotatedRow(k, leg, id, read[id]), c.after[t][id]);
  }

  lemma RotatedIsSettled(k: Keys, leg: Leg, id: Id, rec: Record)
    requires !PlanRow(k, leg, id, rec).Fail? && !Loses(k, leg, rec) && Sealing(leg)
    ensures Settled(k, leg, id, RotatedRow(k, leg, id, rec))
  {
    hide Secrets, Loses, PlanRow;
    RowKept(k, leg, id, rec, k.ring, k);
  }

  /** Selected once, a row that is kept is selected at any time. */
  lemma KeptIsSelected(s: seq<Rows>, from: Rows, t: nat, id: Id, k: Keys, leg: Leg, org: string)
    requires id in Selected(from, leg, org) && KeptAs(s, t, id, from[id], k, leg)
    ensures t < |s| && id in Selected(s[t], leg, org)
  {
    hide Secrets, Loses;
  }

  /** The call ran every leg to its end, and applied it. */
  ghost predicate RanThrough(journal: seq<Commit>, n: nat, from: seq<Rows>, call: Call, legs: seq<Leg>)
    requires n <= call.start <= call.stop <= |journal|
  {
    AllServed(journal[..call.stop], call.start, StateAt(journal, n, from, call.start), call.k, legs, call.org, |legs|)
  }

  lemma RanThroughServes(journal: seq<Commit>, n: nat, from: seq<Rows>, call: Call, legs: seq<Leg>, t: nat) returns (m: nat)
    requires n <= call.start <= call.stop <= |journal| && t < |legs| && RanThrough(journal, n, from, call, legs)
    ensures n <= m <= |journal| && ServedFrom(journal, n, from, call.k, legs[t], call.org, t, m)
  {
    hide ServedFrom;
    ServedStays(journal[..call.stop], journal, call.start, StateAt(journal, n, from, call.start), call.start, n, from,
                call.k, legs[t], call.org, t);
    m :| call.start <= m <= |journal| && ServedFrom(journal, n, from, call.k, legs[t], call.org, t, m);
  }

  /** A call that ran through has settled every row that it selects and nobody else edits. */
  lemma ServedSettles(edits: Edits, journal: seq<Commit>, n: nat, from: seq<Rows>, to: seq<Rows>,
                      calls: seq<Call>, legs: seq<Leg>, k: Keys, t: nat, id: Id, i: nat) returns (m: nat)
    requires Chained(edits, journal, n, from, to) && AreCalls(journal, n, from, calls, legs, k) && LeftAlone(journal, n, t, id)
    requires t < |legs| && Sealing(legs[t]) && t < |from| && id in from[t] && !Loses(k, legs[t], from[t][id])
    requires i < |calls| && n <= calls[i].start <= calls[i].stop <= |journal| && RanThrough(journal, n, from, calls[i], legs)
    requires id in Selected(from[t], legs[t], calls[i].org)
    ensures n <= m <= |journal| && SettledAt(StateAt(journal, n, from, m), t, id, k, legs[t])
  {
    hide Secrets, Loses, LegCommit, Chained, AreCalls, IsCall, Settled, PlanRow, Selected, RanThrough, LeftAlone, KeptAs, ServedFrom;
    var k', org, leg := calls[i].k, calls[i].org, legs[t];
    m := RanThroughServes(journal, n, from, calls[i], legs, t);
    CallKeys(journal, n, from, calls, legs, k, i);
    var s := StateAt(journal, n, from, m);
    RowThroughJournal(edits, journal, n, from, to, calls, legs, k, t, id, m);
    KeptIsSelected(s, from[t], t, id, k, leg, org);
    var j := ReadIsSettledOrWritten(journal, n, from, k', leg, org, t, id, m);
    if j < |journal| {
      ChainedAt(edits, journal, n, from, to, j);
      RowThroughJournal(edits, journal, n, from, to, calls, legs, k, t, id, j);
      WrittenKeptRow(journal[j], s, t, id, from[t][id], k, k', leg, org);
      m := j + 1;
    }
    var now := StateAt(journal, n, from, m)[t][id];
    PlanIgnoresNonces(k', k, leg, id, now, now);
  }

  /** A selected row that a served leg read: nothing was to be done about it, or commit `j` wrote it. */
  lemma ReadIsSettledOrWritten(journal: seq<Commit>, n: nat, from: seq<Rows>, k: Keys, leg: Leg, org: string, t: nat, id: Id, m: nat)
    returns (j: nat)
    requires n <= m <= |journal| && ServedFrom(journal, n, from, k, leg, org, t, m) && Sealing(leg)
    requires id in Selected(StateAt(journal, n, from, m)[t], leg, org)
    ensures m <= j <= |journal|
    ensures var read := StateAt(journal, n, from, m)[t];
      if j == |journal| then id in read && Settled(k, leg, id, read[id])
      else IsPlanned(k, leg, read, org, id) && LegCommit(journal[j], t, k, leg, read, org)
  {
    hide LegCommit, Settled, PlanRow, ReportOf;
    var read := StateAt(journal, n, from, m)[t];
    j := |journal|;
    if PlanRow(k, leg, id, read[id]).Write? {
      PlannedIsCounted(k, leg, read, org, id);
      j :| m <= j < |journal| && CommitAt(journal, j, t, k, leg, read, org);
    } else {
      NotWrittenIsSettled(k, leg, id, read[id]);
    }
  }

  /** The commit that wrote a kept row has settled it. */
  lemma WrittenKeptRow(c: Commit, s: seq<Rows>, t: nat, id: Id, rec: Record, k: Keys, k': Keys, leg: Leg, org: string)
    requires t < |s| && LegCommit(c, t, k', leg, s[t], org) && Sealing(leg) && SameKeys(k, k')
    requires IsPlanned(k', leg, s[t], org, id) && KeptAs(s, t, id, rec, k, leg) && KeptAs(c.before, t, id, rec, k, leg)
    ensures SettledAt(c.after, t, id, k', leg)
  {
    hide Secrets, Loses, LegCommit, Settled, IsPlanned;
    SameLoss(k, k', leg, s[t][id]);
    WrittenIsSettled(c, s[t], t, id, k', leg, org);
  }

  lemma PlannedIsCounted(k: Keys, leg: Leg, read: Rows, org: string, id: Id)
    requires IsPlanned(k, leg, read, org, id)
    ensures ReportOf(k, leg, read, org).resealed > 0
  {
    hide PlanRow, Keeps, Asides;
    assert id in Writes(k, leg, read, Selected(read, leg, org));
  }

  lemma NotWrittenIsSettled(k: Keys, leg: Leg, id: Id, rec: Record)
    requires Sealing(leg) && !PlanRow(k, leg, id, rec).Fail? && !PlanRow(k, leg, id, rec).Write?
    ensures Settled(k, leg, id, rec)
  {
    hide Rotate, Unseal, Seal;
  }

  /**
   * Among any editors and any number of calls, one of which ran through: each
   * row of its tenant (or any row, if it ran for all) that nobody else edits
   * opens, in the end, under the active key alone to what it opened to in the
   * beginning.
   */
  lemma RetiresAmongEditors(edits: Edits, journal: seq<Commit>, n: nat, from: seq<Rows>, to: seq<Rows>,
                            calls: seq<Call>, legs: seq<Leg>, k: Keys, t: nat, id: Id, i: nat)
    requires n <= |journal| && Chained(edits, journal, n, from, to)
    requires AreCalls(journal, n, from, calls, legs, k) && LeftAlone(journal, n, t, id)
    requires t < |legs| && Sealing(legs[t]) && t < |from| && id in from[t] && !Loses(k, legs[t], from[t][id])
    requires i < |calls| && n <= calls[i].start <= calls[i].stop <= |journal| && RanThrough(journal, n, from, calls[i], legs)
    requires InScope(from[t][id], calls[i].org)
    ensures t < |to| && id in to[t] && (!from[t][id].value.Null? ==> Settled(k, legs[t], id, to[t][id]))
    ensures Secrets(OnlyActive(k.ring), k, legs[t], to[t][id]) == Secrets(k.ring, k, legs[t], from[t][id])
  {
    hide Secrets, Loses, LegCommit, Chained, AreCalls, Settled, Selected, RanThrough;
    StateIsNow(edits, journal, n, from, to);
    RowThroughJournal(edits, journal, n, from, to, calls, legs, k, t, id, |journal|);
    SelectedIff(from[t], legs[t], calls[i].org, id);
    if id in Selected(from[t], legs[t], calls[i].org) {
      var m := ServedSettles(edits, journal, n, from, to, calls, legs, k, t, id, i);
      SettledStays(edits, journal, n, from, to, calls, legs, k, t, id, m, |journal|);
      SettledOpensAlone(k, legs[t], id, to[t][id]);
    } else {
      NullBlocksNothing(k, legs[t], from[t][id]);
      AloneOpensNoMore(k, legs[t], to[t][id]);
    }
  }

  /** In calls for one tenant, the rotation changes a row by id only if some call read it as a row of that tenant. */
  lemma CallsSpareOthers(journal: seq<Commit>, n: nat, from: seq<Rows>, calls: seq<Call>, legs: seq<Leg>, k: Keys,
                         org: string, j: nat, t: nat, id: Id)
    requires AreCalls(journal, n, from, calls, legs, k) && org != "" && forall i :: 0 <= i < |calls| ==> calls[i].org == org
    requires n <= j < |journal| && journal[j].Ours? && t < |legs| && !legs[t].byParty
    requires t < |journal[j].before| && id in journal[j].before[t]
    ensures t < |journal[j].after| && id in journal[j].after[t]
    ensures journal[j].after[t][id] == journal[j].before[t][id]
      || exists m :: n <= m <= j && IsTenants(StateAt(journal, n, from, m), t, id, org)
  {
    hide LegCommit, AreCalls, IsLegCommit, Selected;
    var c := journal[j];
    CallsAreOrdained(journal, n, from, calls, legs, k);
    assert Ordained(journal, n, from, j, calls, legs);
    if !OnlyPlatform(c, |legs|) {
      var i :| 0 <= i < |calls| && IsLegCommit(journal, n, from, j, calls[i].k, legs, calls[i].org);
      var t', m := LegRead(journal, n, from, j, calls[i].k, legs, calls[i].org);
      var read := StateAt(journal, n, from, m);
      CommitParts(c, t', calls[i].k, legs[t'], read[t'], org);
      if t' == t {
        OthersAreSpared(c, t, calls[i].k, legs[t], read[t], org, id);
        assert c.after[t][id] != c.before[t][id] ==> IsTenants(read, t, id, org);
      }
    }
  }

  predicate IsTenants(s: seq<Rows>, t: nat, id: Id, org: string) { t < |s| && id in s[t] && s[t][id].tenant == org }
}
