/** The whole rotation run: table after table, then the platform settings. */
module DataKeyRun {
  import opened SealedBlobs
  import opened OrgSettings
  import opened KeyRotation
  import opened RotationRun
  import opened KeyRetirement

  // ---------------------------------------------------------------------
  // The platform settings
  // ---------------------------------------------------------------------

  /** The single row of platform settings. */
  const PLATFORM: Id := 0

  function PlatformFields(rows: Rows): Fields {
    if PLATFORM in rows then FieldsOf(rows[PLATFORM].value) else map[]
  }

  function Feedback(doc: Fields): Fields { Inside(doc, "feedback") }

  function TokenScope(): Scope { Scope("system", "feedback.token") }

  function PlanPlatform(k: Keys, doc: Fields): Decision {
    PlanReseal(k.ring, OrgSettings.Sealed(Feedback(doc), "token"), TokenScope(), k.nonces(PLATFORM).ai)
  }

  function WithToken(doc: Fields, token: Stored): Fields {
    doc["feedback" := Obj(Feedback(doc)["token" := Str(token)])]
  }

  /** What the run reports; a dry run counts nothing to seal again. */
  function PlatformReport(d: Decision, apply: bool): Report {
    Report(if d.Nothing? then 0 else 1, if d.Current? then 1 else 0, if apply && d.Reseal? then 1 else 0, 0)
  }

  predicate HoldsDoc(rows: Rows, doc: Fields) { PLATFORM in rows && rows[PLATFORM].value == Obj(doc) }

  /** The platform table with the planned token in it. */
  function PlatformPatch(k: Keys, doc: Fields, rows: Rows): Rows {
    var d := PlanPlatform(k, doc);
    if d.Reseal? && PLATFORM in rows then
      rows[PLATFORM := rows[PLATFORM].(value := Obj(WithToken(doc, d.sealed)))]
    else rows
  }

  /** The commit writes the token, over settings that are still those read. */
  predicate PlatformCommit(c: Commit, t: nat, k: Keys, doc: Fields) {
    t < |c.before| && HoldsDoc(c.before[t], doc) && c.after == c.before[t := PlatformPatch(k, doc, c.before[t])]
  }

  predicate PlatformDone(edits: Edits, journal: seq<Commit>, n: nat, from: seq<Rows>, to: seq<Rows>, t: nat,
                         r: LegResult, k: Keys, apply: bool)
  {
    && t < |from| && t < |to| && n <= |journal| && Chained(edits, journal, n, from, to)
    && var doc := PlatformFields(from[t]);
       var d := PlanPlatform(k, doc);
       && (r.Reported? ==> r.report == PlatformReport(d, apply) && !d.Unopened?)
       && (r.RefusedLeg? ==> AllTheirs(journal, n) && (d.Unopened? || (apply && d.Reseal? && !HoldsDoc(to[t], doc))))
       && (r.Reported? && !(apply && d.Reseal?) ==> AllTheirs(journal, n))
       && (r.Reported? && apply && d.Reseal? ==>
             OursLast(journal, n) && PlatformCommit(journal[|journal| - 1], t, k, doc))
  }

  method RotatePlatform(db: Database, t: nat, k: Keys, apply: bool) returns (r: LegResult)
    requires t < |db.tables|
    modifies db
    ensures old(db.journal) <= db.journal
    ensures PlatformDone(db.edits, db.journal, |old(db.journal)|, old(db.tables), db.tables, t, r, k, apply)
  {
    hide Unseal, Seal, Chained, AllTheirs, IsEdit, Linked;
    var settings := PlatformFields(db.tables[t]);
    var feedback := Feedback(settings);
    var stored := OrgSettings.Sealed(feedback, "token");
    ghost var n := |db.journal|;
    ChainedNothing(db.edits, db.journal, db.tables);
    var planned := PlanReseal(k.ring, stored, TokenScope(), k.nonces(PLATFORM).ai);
    if planned.Unopened? {
      return RefusedLeg;
    }
    var resealed := 0;
    if planned.Reseal? && apply {
      ghost var before, journal := db.tables, db.journal;
      db.Editors(t, {});
      TheirTurn(db.edits, journal, n, before, before, db.tables);
      var rows := db.tables[t];
      if !HoldsDoc(rows, settings) {
        return RefusedLeg;
      }
      var next := settings["feedback" := Obj(feedback["token" := Str(planned.sealed)])];
      ghost var mid := db.tables;
      journal := db.journal;
      db.Commit(t, rows[PLATFORM := rows[PLATFORM].(value := Obj(next))]);
      OurTurn(db.edits, journal, n, before, mid, db.tables);
      resealed := 1;
    } else if planned.Reseal? {
      resealed := 1;
    }
    r := Reported(Report(if stored == Other("") then 0 else 1,
                         if stored != Other("") && !planned.Reseal? then 1 else 0,
                         if apply then resealed else 0, 0));
  }

  /** Only a document can hold a token, so what is to be sealed again is still what was read. */
  lemma ResealIsHeld(k: Keys, rows: Rows)
    requires PlanPlatform(k, PlatformFields(rows)).Reseal?
    ensures HoldsDoc(rows, PlatformFields(rows))
  {
    hide Unseal, Seal;
    if PLATFORM in rows && rows[PLATFORM].value.Arr? {
      SpreadHasDigits(rows[PLATFORM].value.items, "feedback");
    }
  }

  /** When nobody else edits, the leg completes exactly if the token opens or there is none. */
  lemma CalmPlatform(edits: Edits, journal: seq<Commit>, n: nat, from: seq<Rows>, to: seq<Rows>, t: nat,
                     r: LegResult, k: Keys, apply: bool)
    requires Calm(edits) && PlatformDone(edits, journal, n, from, to, t, r, k, apply)
    ensures r.Reported? <==> !PlanPlatform(k, PlatformFields(from[t])).Unopened?
    ensures to == if r.Reported? && apply then from[t := PlatformPatch(k, PlatformFields(from[t]), from[t])] else from
  {
    hide PlanPlatform, PlatformFields, Calm;
    var d := PlanPlatform(k, PlatformFields(from[t]));
    if d.Reseal? {
      ResealIsHeld(k, from[t]);
    }
    if r.Reported? && apply && d.Reseal? {
      var m := |journal| - 1;
      CalmChain(edits, journal[..m], n, from, journal[m].before);
    } else {
      CalmChain(edits, journal, n, from, to);
    }
  }

  /** On this leg alone a dry run reports other counts than an applied one: exactly when there is work to do. */
  lemma DryRunCountsIff(k: Keys, rows: Rows)
    ensures var d := PlanPlatform(k, PlatformFields(rows));
      PlatformReport(d, false) == PlatformReport(d, true) <==> !d.Reseal?
  {
  }

  /** The feedback token keeps its plaintext, opens under the active key alone, and is current afterwards. */
  lemma PlatformKept(k: Keys, again: Keys, rows: Rows)
    requires var d := PlanPlatform(k, PlatformFields(rows)); !d.Unopened? && !d.Nothing?
    requires k.ring == again.ring
    ensures var after := PlatformPatch(k, PlatformFields(rows), rows);
      && PLATFORM in after
      && Secret(OnlyActive(k.ring), Feedback(PlatformFields(after)), "token", Scope("system", "feedback.token"))
           == Secret(k.ring, Feedback(PlatformFields(rows)), "token", Scope("system", "feedback.token"))
      && PlanPlatform(again, PlatformFields(after)) == Current
      && SameExcept(PlatformFields(rows), PlatformFields(after), {"feedback"})
      && SameExcept(Feedback(PlatformFields(rows)), Feedback(PlatformFields(after)), {"token"})
  {
    hide Unseal, Seal;
    var doc := PlatformFields(rows);
    var stored := OrgSettings.Sealed(Feedback(doc), "token");
    ResealKeepsPlaintext(k.ring, stored, TokenScope(), k.nonces(PLATFORM).ai, again.nonces(PLATFORM).ai);
    var d := PlanPlatform(k, doc);
    if d.Reseal? {
      ResealIsHeld(k, rows);
      var next := WithToken(doc, d.sealed);
      assert Feedback(next) == Feedback(doc)["token" := Str(d.sealed)];
    }
  }

  // ---------------------------------------------------------------------
  // The run
  // ---------------------------------------------------------------------

  datatype RunResult = Finished(reports: seq<Report>) | Stopped

  /** Every commit of the rotation is that of a leg. */
  ghost predicate Explained(journal: seq<Commit>, n: nat, from: seq<Rows>, k: Keys, legs: seq<Leg>, org: string) {
    forall j :: n <= j < |journal| && journal[j].Ours? ==> IsLegCommit(journal, n, from, j, k, legs, org)
  }

  /** ... or the last one, and that of the platform settings. */
  ghost predicate ExplainedRun(journal: seq<Commit>, n: nat, from: seq<Rows>, k: Keys, legs: seq<Leg>, org: string) {
    forall j :: n <= j < |journal| && journal[j].Ours? ==>
      || IsLegCommit(journal, n, from, j, k, legs, org)
      || (j == |journal| - 1 && org == "" && exists doc :: PlatformCommit(journal[j], |legs|, k, doc))
  }

  lemma StateIsNow(edits: Edits, journal: seq<Commit>, n: nat, from: seq<Rows>, now: seq<Rows>)
    requires n <= |journal| && Chained(edits, journal, n, from, now)
    ensures StateAt(journal, n, from, |journal|) == now
  {
  }

  lemma LegCommitStays(first: seq<Commit>, journal: seq<Commit>, n: nat, from: seq<Rows>, j: nat, k: Keys, legs: seq<Leg>, org: string)
    requires first <= journal && n <= j < |first| && IsLegCommit(first, n, from, j, k, legs, org)
    ensures IsLegCommit(journal, n, from, j, k, legs, org)
  {
    hide LegCommit;
    var t, m :| 0 <= t < |legs| && n <= m <= j && ReadAt(first, n, from, j, k, legs, org, t, m);
    assert StateAt(first, n, from, m) == StateAt(journal, n, from, m) && first[j] == journal[j];
    assert ReadAt(journal, n, from, j, k, legs, org, t, m);
  }

  /** One more leg, or none, and all commits are still explained. */
  lemma LegExplained(edits: Edits, first: seq<Commit>, journal: seq<Commit>, n: nat, from: seq<Rows>, now: seq<Rows>, to: seq<Rows>,
                     t: nat, r: LegResult, k: Keys, legs: seq<Leg>, org: string, apply: bool)
    requires n <= |first| && Chained(edits, first, n, from, now) && first <= journal && t < |legs|
    requires LegDone(edits, journal, |first|, now, to, t, r, k, legs[t], org, apply)
    requires Explained(first, n, from, k, legs, org)
    ensures Chained(edits, journal, n, from, to)
    ensures Explained(journal, n, from, k, legs, org)
    ensures !apply && AllTheirs(first, n) ==> AllTheirs(journal, n)
  {
    hide LegCommit, Hindered, AllMeet, ReportOf, IsLegCommit, Chained, Calm;
    ChainedJoin(edits, first, journal, n, from, now, to);
    StateIsNow(edits, first, n, from, now);
    forall j | n <= j < |journal| && journal[j].Ours? ensures IsLegCommit(journal, n, from, j, k, legs, org) {
      if j < |first| {
        assert first[j] == journal[j];
        LegCommitStays(first, journal, n, from, j, k, legs, org);
      } else {
        NewLegCommit(first, journal, n, from, now, t, k, legs, org, j);
      }
    }
    if !apply && AllTheirs(first, n) {
      forall j | n <= j < |journal| ensures journal[j].Theirs? {
        assert j < |first| ==> first[j] == journal[j];
      }
    }
  }

  lemma NewLegCommit(first: seq<Commit>, journal: seq<Commit>, n: nat, from: seq<Rows>, now: seq<Rows>,
                     t: nat, k: Keys, legs: seq<Leg>, org: string, j: nat)
    requires n <= |first| <= j < |journal| && first <= journal && journal[j].Ours? && t < |legs| && t < |now|
    requires StateAt(first, n, from, |first|) == now
    requires AllTheirs(journal, |first|)
      || (OursLast(journal, |first|) && LegCommit(journal[|journal| - 1], t, k, legs[t], now[t], org))
    ensures IsLegCommit(journal, n, from, j, k, legs, org)
  {
    hide LegCommit;
    OneCommit(journal, |first|, j);
    assert StateAt(journal, n, from, |first|) == now;
    assert ReadAt(journal, n, from, j, k, legs, org, t, |first|);
  }

  // Applied legs that completed, among editors.

  /** All rows that the leg read at time `m` open, and what it planned on them, if anything, was committed. */
  ghost predicate ServedFrom(journal: seq<Commit>, n: nat, from: seq<Rows>, k: Keys, leg: Leg, org: string, t: nat, m: nat)
    requires n <= m <= |journal|
  {
    && t < |StateAt(journal, n, from, m)|
    && var read := StateAt(journal, n, from, m)[t];
       && !Hindered(k, leg, read, org)
       && (ReportOf(k, leg, read, org).resealed > 0 ==> exists j :: m <= j < |journal| && CommitAt(journal, j, t, k, leg, read, org))
  }

  ghost predicate CommitAt(journal: seq<Commit>, j: nat, t: nat, k: Keys, leg: Leg, read: Rows, org: string)
    requires j < |journal|
  {
    journal[j].Ours? && LegCommit(journal[j], t, k, leg, read, org)
  }

  /** Leg `t` read its table at some time from `start` on, and was served. */
  ghost predicate Served(journal: seq<Commit>, n: nat, from: seq<Rows>, start: nat, k: Keys, leg: Leg, org: string, t: nat)
    requires n <= start
  {
    exists m :: start <= m <= |journal| && ServedFrom(journal, n, from, k, leg, org, t, m)
  }

  ghost predicate AllServed(journal: seq<Commit>, n: nat, from: seq<Rows>, k: Keys, legs: seq<Leg>, org: string, done: nat) {
    done <= |legs| && forall t :: 0 <= t < done ==> Served(journal, n, from, n, k, legs[t], org, t)
  }

  /** Served once, served for good; and seen from any earlier time. */
  lemma ServedStays(first: seq<Commit>, journal: seq<Commit>, n: nat, from: seq<Rows>, start: nat, n': nat, from': seq<Rows>,
                    k: Keys, leg: Leg, org: string, t: nat)
    requires n' <= n <= start <= |first| && first <= journal && StateAt(journal, n', from', n) == from
    requires Served(first, n, from, start, k, leg, org, t)
    ensures Served(journal, n', from', start, k, leg, org, t)
  {
    hide LegCommit, Hindered, ReportOf;
    var m :| start <= m <= |first| && ServedFrom(first, n, from, k, leg, org, t, m);
    assert StateAt(journal, n', from', m) == StateAt(first, n, from, m);
    var read := StateAt(first, n, from, m)[t];
    if ReportOf(k, leg, read, org).resealed > 0 {
      var j :| m <= j < |first| && CommitAt(first, j, t, k, leg, read, org);
      assert CommitAt(journal, j, t, k, leg, read, org);
    }
    assert ServedFrom(journal, n', from', k, leg, org, t, m);
  }

  lemma NewServed(edits: Edits, first: seq<Commit>, journal: seq<Commit>, n: nat, from: seq<Rows>, now: seq<Rows>, to: seq<Rows>,
                  t: nat, r: LegResult, k: Keys, leg: Leg, org: string)
    requires n <= |first| && first <= journal && StateAt(first, n, from, |first|) == now
    requires LegDone(edits, journal, |first|, now, to, t, r, k, leg, org, true) && r.Reported?
    ensures Served(journal, n, from, n, k, leg, org, t)
  {
    hide LegCommit, Hindered, ReportOf, AllMeet, Chained, Calm;
    assert StateAt(journal, n, from, |first|) == now;
    if r.report.resealed > 0 {
      assert CommitAt(journal, |journal| - 1, t, k, leg, now[t], org);
    }
    assert ServedFrom(journal, n, from, k, leg, org, t, |first|);
  }

  lemma MoreServed(edits: Edits, first: seq<Commit>, journal: seq<Commit>, n: nat, from: seq<Rows>, now: seq<Rows>, to: seq<Rows>,
                   t: nat, r: LegResult, k: Keys, legs: seq<Leg>, org: string)
    requires n <= |first| && Chained(edits, first, n, from, now) && first <= journal && t < |legs|
    requires LegDone(edits, journal, |first|, now, to, t, r, k, legs[t], org, true) && r.Reported?
    requires AllServed(first, n, from, k, legs, org, t)
    ensures AllServed(journal, n, from, k, legs, org, t + 1)
  {
    hide LegDone, Served, Chained;
    StateIsNow(edits, first, n, from, now);
    NewServed(edits, first, journal, n, from, now, to, t, r, k, legs[t], org);
    AllServedStay(first, journal, n, from, k, legs, org, t);
  }

  lemma AllServedStay(first: seq<Commit>, journal: seq<Commit>, n: nat, from: seq<Rows>, k: Keys, legs: seq<Leg>, org: string, done: nat)
    requires n <= |first| && first <= journal && AllServed(first, n, from, k, legs, org, done)
    ensures AllServed(journal, n, from, k, legs, org, done)
  {
    hide Served;
    forall t | 0 <= t < done ensures Served(journal, n, from, n, k, legs[t], org, t) {
      ServedStays(first, journal, n, from, n, n, from, k, legs[t], org, t);
    }
  }

  // What the run amounts to when nobody else edits.

  /** A leg that completes on these rows. */
  predicate Clear(k: Keys, leg: Leg, rows: Rows, org: string, apply: bool) {
    !Hindered(k, leg, rows, org) && (apply ==> AllMeet(rows, k, leg, rows, org))
  }

  function AfterLeg(k: Keys, leg: Leg, rows: Rows, org: string, apply: bool): Rows {
    if apply then RotatedTable(k, leg, rows, org) else rows
  }

  /** The first `done` legs were clear: their tables are rotated, all others are as they were. */
  predicate Progress(now: seq<Rows>, from: seq<Rows>, k: Keys, legs: seq<Leg>, org: string, apply: bool, done: nat) {
    && |now| == |from| == |legs| + 1 && done <= |legs|
    && (forall t :: 0 <= t < done ==>
          Clear(k, legs[t], from[t], org, apply) && now[t] == AfterLeg(k, legs[t], from[t], org, apply))
    && (forall t :: done <= t < |now| ==> now[t] == from[t])
  }

  predicate ReportsOf(reports: seq<Report>, from: seq<Rows>, k: Keys, legs: seq<Leg>, org: string, done: nat) {
    && done <= |legs| && done <= |from| && done <= |reports|
    && forall t :: 0 <= t < done ==> reports[t] == ReportOf(k, legs[t], from[t], org)
  }

  /** The run finishes if every leg is clear and the token is in order, and stops at the first leg that is not. */
  ghost predicate CalmRun(from: seq<Rows>, to: seq<Rows>, r: RunResult, k: Keys, legs: seq<Leg>, org: string, apply: bool) {
    && |from| == |to| == |legs| + 1
    && var d := PlanPlatform(k, PlatformFields(from[|legs|]));
       match r
       case Stopped =>
         exists done :: 0 <= done <= |legs| && Progress(to, from, k, legs, org, apply, done)
           && if done < |legs| then !Clear(k, legs[done], from[done], org, apply) else org == "" && d.Unopened?
       case Finished(reports) =>
         && Progress(to[|legs| := from[|legs|]], from, k, legs, org, apply, |legs|)
         && |reports| == |legs| + (if org == "" then 1 else 0) && ReportsOf(reports, from, k, legs, org, |legs|)
         && (org != "" ==> to[|legs|] == from[|legs|])
         && (org == "" ==>
               && !d.Unopened? && reports[|legs|] == PlatformReport(d, apply)
               && to[|legs|] == if apply then PlatformPatch(k, PlatformFields(from[|legs|]), from[|legs|]) else from[|legs|])
  }

  /** One more leg of a run that nobody disturbs. */
  lemma CalmStep(edits: Edits, journal: seq<Commit>, n: nat, from: seq<Rows>, now: seq<Rows>, to: seq<Rows>, t: nat,
                 r: LegResult, k: Keys, legs: seq<Leg>, org: string, apply: bool)
    requires Calm(edits) && t < |legs| && Progress(now, from, k, legs, org, apply, t)
    requires LegDone(edits, journal, n, now, to, t, r, k, legs[t], org, apply)
    ensures r.Reported? ==> Progress(to, from, k, legs, org, apply, t + 1) && r.report == ReportOf(k, legs[t], from[t], org)
    ensures r.RefusedLeg? ==> Progress(to, from, k, legs, org, apply, t) && !Clear(k, legs[t], from[t], org, apply)
  {
    hide LegCommit, Hindered, AllMeet, ReportOf, Chained, Calm, RotatedTable;
    CalmLeg(edits, journal, n, now, to, t, r, k, legs[t], org, apply);
  }

  /**
   * Rotates one table per leg, in order, then the platform settings (the last
   * table) unless the run is for one tenant. The first refusal ends the run;
   * the tables before it stay rotated.
   */
  method RotateDataKey(db: Database, k: Keys, legs: seq<Leg>, org: string, apply: bool) returns (r: RunResult)
    requires |db.tables| == |legs| + 1
    modifies db
    ensures old(db.journal) <= db.journal
    ensures Chained(db.edits, db.journal, |old(db.journal)|, old(db.tables), db.tables)
    ensures ExplainedRun(db.journal, |old(db.journal)|, old(db.tables), k, legs, org)
    ensures !apply ==> AllTheirs(db.journal, |old(db.journal)|)
    ensures apply && r.Finished? ==> AllServed(db.journal, |old(db.journal)|, old(db.tables), k, legs, org, |legs|)
    ensures Calm(db.edits) ==> CalmRun(old(db.tables), db.tables, r, k, legs, org, apply)
  {
    hide AllServed, Progress, LegDone, PlatformDone, ReportsOf, ReportOf, Chained, Explained, ExplainedRun, AllTheirs, Calm, CalmRun;
    var reports: seq<Report> := [];
    var t := 0;
    ghost var from, n := db.tables, |db.journal|;
    RunStarts(db.edits, db.journal, from, k, legs, org, apply);
    while t < |legs|
      invariant t <= |legs| && |reports| == t && |db.tables| == |legs| + 1
      invariant old(db.journal) <= db.journal && Chained(db.edits, db.journal, n, from, db.tables)
      invariant Explained(db.journal, n, from, k, legs, org)
      invariant !apply ==> AllTheirs(db.journal, n)
      invariant apply ==> AllServed(db.journal, n, from, k, legs, org, t)
      invariant Calm(db.edits) ==> Progress(db.tables, from, k, legs, org, apply, t) && ReportsOf(reports, from, k, legs, org, t)
    {
      ghost var now, journal := db.tables, db.journal;
      var leg := RotateLeg(db, t, k, legs[t], org, apply);
      LegExplained(db.edits, journal, db.journal, n, from, now, db.tables, t, leg, k, legs, org, apply);
      ChainedLength(db.edits, db.journal, n, from, db.tables);
      if Calm(db.edits) {
        CalmStep(db.edits, db.journal, |journal|, from, now, db.tables, t, leg, k, legs, org, apply);
      }
      if leg.RefusedLeg? {
        RunStops(db.edits, db.journal, n, from, db.tables, k, legs, org, apply, t);
        return Stopped;
      }
      if apply {
        MoreServed(db.edits, journal, db.journal, n, from, now, db.tables, t, leg, k, legs, org);
      }
      MoreReports(reports, leg.report, from, k, legs, org, t);
      reports := reports + [leg.report];
      t := t + 1;
    }
    if org == "" {
      ghost var now, journal := db.tables, db.journal;
      var leg := RotatePlatform(db, |legs|, k, apply);
      if apply {
        AllServedStay(journal, db.journal, n, from, k, legs, org, |legs|);
      }
      PlatformExplained(db.edits, journal, db.journal, n, from, now, db.tables, leg, k, legs, org, apply);
      if Calm(db.edits) {
        CalmEnd(db.edits, db.journal, |journal|, from, now, db.tables, leg, k, legs, org, apply, reports);
      }
      if leg.RefusedLeg? {
        return Stopped;
      }
      reports := reports + [leg.report];
    } else {
      TenantEnd(db.journal, n, from, db.tables, k, legs, org, apply, reports);
    }
    r := Finished(reports);
  }

  lemma RunStarts(edits: Edits, journal: seq<Commit>, from: seq<Rows>, k: Keys, legs: seq<Leg>, org: string, apply: bool)
    requires |from| == |legs| + 1
    ensures Chained(edits, journal, |journal|, from, from) && AllTheirs(journal, |journal|)
    ensures Explained(journal, |journal|, from, k, legs, org) && AllServed(journal, |journal|, from, k, legs, org, 0)
    ensures Progress(from, from, k, legs, org, apply, 0) && ReportsOf([], from, k, legs, org, 0)
  {
  }

  lemma MoreReports(reports: seq<Report>, report: Report, from: seq<Rows>, k: Keys, legs: seq<Leg>, org: string, t: nat)
    requires |reports| == t < |legs| && t < |from|
    ensures ReportsOf(reports, from, k, legs, org, t) && report == ReportOf(k, legs[t], from[t], org) ==>
      ReportsOf(reports + [report], from, k, legs, org, t + 1)
  {
    hide ReportOf;
  }

  lemma RunStops(edits: Edits, journal: seq<Commit>, n: nat, from: seq<Rows>, to: seq<Rows>,
                 k: Keys, legs: seq<Leg>, org: string, apply: bool, t: nat)
    requires Explained(journal, n, from, k, legs, org) && t < |legs| && |from| == |legs| + 1
    ensures ExplainedRun(journal, n, from, k, legs, org)
    ensures Progress(to, from, k, legs, org, apply, t) && !Clear(k, legs[t], from[t], org, apply) ==>
      CalmRun(from, to, Stopped, k, legs, org, apply)
  {
    hide IsLegCommit, Clear, PlanPlatform, PlatformFields;
  }

  lemma PlatformExplained(edits: Edits, first: seq<Commit>, journal: seq<Commit>, n: nat, from: seq<Rows>, now: seq<Rows>,
                          to: seq<Rows>, r: LegResult, k: Keys, legs: seq<Leg>, org: string, apply: bool)
    requires n <= |first| && Chained(edits, first, n, from, now) && first <= journal && org == ""
    requires PlatformDone(edits, journal, |first|, now, to, |legs|, r, k, apply)
    requires Explained(first, n, from, k, legs, org)
    ensures Chained(edits, journal, n, from, to) && ExplainedRun(journal, n, from, k, legs, org)
    ensures !apply && AllTheirs(first, n) ==> AllTheirs(journal, n)
  {
    hide IsLegCommit, Chained, PlanPlatform, PlatformCommit, PlatformFields, HoldsDoc;
    ChainedJoin(edits, first, journal, n, from, now, to);
    forall j | n <= j < |journal| && journal[j].Ours?
      ensures || IsLegCommit(journal, n, from, j, k, legs, org)
              || (j == |journal| - 1 && exists doc :: PlatformCommit(journal[j], |legs|, k, doc))
    {
      if j < |first| {
        assert first[j] == journal[j];
        LegCommitStays(first, journal, n, from, j, k, legs, org);
      } else {
        OneCommit(journal, |first|, j);
      }
    }
    if !apply && AllTheirs(first, n) {
      forall j | n <= j < |journal| ensures journal[j].Theirs? {
        assert j < |first| ==> first[j] == journal[j];
      }
    }
  }

  lemma CalmEnd(edits: Edits, journal: seq<Commit>, n: nat, from: seq<Rows>, now: seq<Rows>, to: seq<Rows>,
                leg: LegResult, k: Keys, legs: seq<Leg>, org: string, apply: bool, reports: seq<Report>)
    requires Calm(edits) && org == "" && |reports| == |legs|
    requires Progress(now, from, k, legs, org, apply, |legs|) && ReportsOf(reports, from, k, legs, org, |legs|)
    requires PlatformDone(edits, journal, n, now, to, |legs|, leg, k, apply)
    ensures CalmRun(from, to, if leg.RefusedLeg? then Stopped else Finished(reports + [leg.report]), k, legs, org, apply)
  {
    hide Clear, AfterLeg, PlanPlatform, PlatformFields, Calm, PlatformPatch, ReportOf;
    CalmPlatform(edits, journal, n, now, to, |legs|, leg, k, apply);
    assert now[|legs|] == from[|legs|];
    if leg.Reported? {
      assert to[|legs| := from[|legs|]] == now;
    }
  }

  lemma TenantEnd(journal: seq<Commit>, n: nat, from: seq<Rows>, to: seq<Rows>,
                  k: Keys, legs: seq<Leg>, org: string, apply: bool, reports: seq<Report>)
    requires Explained(journal, n, from, k, legs, org) && org != "" && |reports| == |legs|
    ensures ExplainedRun(journal, n, from, k, legs, org)
    ensures Progress(to, from, k, legs, org, apply, |legs|) && ReportsOf(reports, from, k, legs, org, |legs|) ==>
      CalmRun(from, to, Finished(reports), k, legs, org, apply)
  {
    hide IsLegCommit, Clear, AfterLeg, PlanPlatform, PlatformFields, PlatformPatch, ReportOf;
    if Progress(to, from, k, legs, org, apply, |legs|) {
      assert to[|legs| := from[|legs|]] == to;
    }
  }
}
