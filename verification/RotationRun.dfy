/** Rotating one table: planning it, reporting it, and writing it back among the editors. */
module RotationRun {
  import opened SealedBlobs
  import opened OrgSettings
  import opened KeyRotation

  datatype Report = Report(rows: nat, alreadyCurrent: nat, resealed: nat, skipped: nat)

  function Keeps(k: Keys, leg: Leg, rows: Rows, ids: set<Id>): set<Id> {
    set id | id in ids && id in rows && PlanRow(k, leg, id, rows[id]).Keep?
  }

  function Writes(k: Keys, leg: Leg, rows: Rows, ids: set<Id>): set<Id> {
    set id | id in ids && id in rows && PlanRow(k, leg, id, rows[id]).Write?
  }

  function Asides(k: Keys, leg: Leg, rows: Rows, ids: set<Id>): set<Id> {
    set id | id in ids && id in rows && PlanRow(k, leg, id, rows[id]).Aside?
  }

  /** What the run reports about a table, applied or not. */
  function ReportOf(k: Keys, leg: Leg, rows: Rows, org: string): Report {
    var ids := Selected(rows, leg, org);
    Report(|ids|, |Keeps(k, leg, rows, ids)|, |Writes(k, leg, rows, ids)|, |Asides(k, leg, rows, ids)|)
  }

  /** Some selected row does not open. */
  predicate Hindered(k: Keys, leg: Leg, rows: Rows, org: string) {
    exists id :: id in Selected(rows, leg, org) && PlanRow(k, leg, id, rows[id]).Fail?
  }

  /** Every planned write for `ids` is among `ws`. */
  predicate Covers(ws: seq<WriteBack>, k: Keys, leg: Leg, rows: Rows, ids: set<Id>) {
    forall id :: id in Writes(k, leg, rows, ids) ==> exists i :: 0 <= i < |ws| && ws[i].key == id
  }

  /** The writes are those planned for `ids`, each once. */
  predicate PlannedFor(ws: seq<WriteBack>, k: Keys, leg: Leg, rows: Rows, ids: set<Id>) {
    && DistinctKeys(ws)
    && (forall i :: 0 <= i < |ws| ==> ws[i].key in ids && ws[i].key in rows
                                      && PlanRow(k, leg, ws[i].key, rows[ws[i].key]) == Write(ws[i].was, ws[i].now))
    && Covers(ws, k, leg, rows, ids)
    && |ws| == |Writes(k, leg, rows, ids)|
  }

  /** The counters after planning `done`. */
  predicate Counted(report: Report, ws: seq<WriteBack>, k: Keys, leg: Leg, rows: Rows, done: set<Id>) {
    && PlannedFor(ws, k, leg, rows, done)
    && report == Report(|done|, |Keeps(k, leg, rows, done)|, |Writes(k, leg, rows, done)|, |Asides(k, leg, rows, done)|)
  }

  /** The counters and writes after one more row. */
  function Count(report: Report, p: Planned): Report {
    Report(report.rows + 1,
           report.alreadyCurrent + (if p.Keep? then 1 else 0),
           report.resealed + (if p.Write? then 1 else 0),
           report.skipped + (if p.Aside? then 1 else 0))
  }

  /** One more row joins one of the three sets, or none. */
  lemma OneMore(k: Keys, leg: Leg, rows: Rows, done: set<Id>, id: Id)
    requires id !in done && id in rows
    ensures var p := PlanRow(k, leg, id, rows[id]);
      && Keeps(k, leg, rows, done + {id}) == Keeps(k, leg, rows, done) + (if p.Keep? then {id} else {})
      && Writes(k, leg, rows, done + {id}) == Writes(k, leg, rows, done) + (if p.Write? then {id} else {})
      && Asides(k, leg, rows, done + {id}) == Asides(k, leg, rows, done) + (if p.Aside? then {id} else {})
      && id !in Keeps(k, leg, rows, done) && id !in Writes(k, leg, rows, done) && id !in Asides(k, leg, rows, done)
  {
    hide PlanRow;
  }

  lemma DistinctMore(ws: seq<WriteBack>, w: WriteBack)
    requires DistinctKeys(ws) && forall i :: 0 <= i < |ws| ==> ws[i].key != w.key
    ensures DistinctKeys(ws + [w])
  {
  }

  lemma CoverMore(ws: seq<WriteBack>, k: Keys, leg: Leg, rows: Rows, done: set<Id>, w: WriteBack)
    requires Covers(ws, k, leg, rows, done)
    requires Writes(k, leg, rows, done + {w.key}) == Writes(k, leg, rows, done) + {w.key}
    ensures Covers(ws + [w], k, leg, rows, done + {w.key})
  {
    hide Writes;
    var next := ws + [w];
    forall id | id in Writes(k, leg, rows, done + {w.key}) ensures exists i :: 0 <= i < |next| && next[i].key == id {
      if id == w.key {
        assert next[|ws|].key == id;
      } else {
        var i :| 0 <= i < |ws| && ws[i].key == id;
        assert next[i].key == id;
      }
    }
  }

  lemma PlanAppend(ws: seq<WriteBack>, k: Keys, leg: Leg, rows: Rows, done: set<Id>, id: Id)
    requires id !in done && id in rows && PlannedFor(ws, k, leg, rows, done) && PlanRow(k, leg, id, rows[id]).Write?
    ensures var p := PlanRow(k, leg, id, rows[id]);
      PlannedFor(ws + [WriteBack(id, p.was, p.now)], k, leg, rows, done + {id})
  {
    hide PlanRow, Keeps, Writes, Asides, DistinctKeys, Covers;
    OneMore(k, leg, rows, done, id);
    var p := PlanRow(k, leg, id, rows[id]);
    var w := WriteBack(id, p.was, p.now);
    DistinctMore(ws, w);
    CoverMore(ws, k, leg, rows, done, w);
  }

  lemma PlanSame(ws: seq<WriteBack>, k: Keys, leg: Leg, rows: Rows, done: set<Id>, id: Id)
    requires id !in done && id in rows && PlannedFor(ws, k, leg, rows, done) && !PlanRow(k, leg, id, rows[id]).Write?
    ensures PlannedFor(ws, k, leg, rows, done + {id})
  {
    hide PlanRow, Writes, DistinctKeys, Covers;
    OneMore(k, leg, rows, done, id);
    assert Writes(k, leg, rows, done) + {} == Writes(k, leg, rows, done);
    CoverSame(ws, k, leg, rows, done, done + {id});
  }

  lemma CoverSame(ws: seq<WriteBack>, k: Keys, leg: Leg, rows: Rows, ids: set<Id>, ids': set<Id>)
    requires Covers(ws, k, leg, rows, ids) && Writes(k, leg, rows, ids') == Writes(k, leg, rows, ids)
    ensures Covers(ws, k, leg, rows, ids')
  {
    hide Writes;
  }

  lemma CountOne(report: Report, ws: seq<WriteBack>, k: Keys, leg: Leg, rows: Rows, done: set<Id>, id: Id)
    requires id !in done && id in rows && Counted(report, ws, k, leg, rows, done)
    ensures var p := PlanRow(k, leg, id, rows[id]);
      Counted(Count(report, p), if p.Write? then ws + [WriteBack(id, p.was, p.now)] else ws, k, leg, rows, done + {id})
  {
    hide PlanRow, PlannedFor, Keeps, Writes, Asides;
    OneMore(k, leg, rows, done, id);
    if PlanRow(k, leg, id, rows[id]).Write? {
      PlanAppend(ws, k, leg, rows, done, id);
    } else {
      PlanSame(ws, k, leg, rows, done, id);
    }
  }

  /** Plans every selected row; a row that does not open stops the plan. */
  method PlanLeg(k: Keys, leg: Leg, rows: Rows, org: string)
    returns (ok: bool, ws: seq<WriteBack>, report: Report)
    ensures ok <==> !Hindered(k, leg, rows, org)
    ensures ok ==> PlannedFor(ws, k, leg, rows, Selected(rows, leg, org))
    ensures ok ==> report == ReportOf(k, leg, rows, org)
  {
    hide PlanRow, PlannedFor, Keeps, Writes, Asides;
    var todo := Selected(rows, leg, org);
    ghost var done: set<Id> := {};
    ws, report := [], Report(0, 0, 0, 0);
    NothingCounted(k, leg, rows);
    while todo != {}
      invariant todo + done == Selected(rows, leg, org) && todo !! done
      invariant Counted(report, ws, k, leg, rows, done)
      invariant forall id :: id in done ==> !PlanRow(k, leg, id, rows[id]).Fail?
      decreases |todo|
    {
      var id :| id in todo;
      var p := PlanRow(k, leg, id, rows[id]);
      if p.Fail? {
        return false, [], report;
      }
      CountOne(report, ws, k, leg, rows, done, id);
      report := Count(report, p);
      if p.Write? {
        ws := ws + [WriteBack(id, p.was, p.now)];
      }
      todo, done := todo - {id}, done + {id};
    }
    assert done == Selected(rows, leg, org);
    ok := true;
  }

  lemma NothingCounted(k: Keys, leg: Leg, rows: Rows)
    ensures Counted(Report(0, 0, 0, 0), [], k, leg, rows, {})
  {
    assert Keeps(k, leg, rows, {}) == {} && Writes(k, leg, rows, {}) == {} && Asides(k, leg, rows, {}) == {};
  }

  lemma SelectedExist(rows: Rows, leg: Leg, org: string)
    ensures forall id :: id in Selected(rows, leg, org) ==> id in rows
  {
  }

  // ---------------------------------------------------------------------
  // One tenant, or all
  // ---------------------------------------------------------------------

  /** The run is over all tenants, or over the one that the row belongs to. */
  predicate InScope(rec: Record, org: string) { org == "" || rec.tenant == org }

  function TenantRows(rows: Rows, org: string): Rows { map id | id in rows && rows[id].tenant == org :: rows[id] }

  /** A row of this tenant is read, unless it is a null in a column whose nulls are passed over. */
  lemma SelectedIff(rows: Rows, leg: Leg, org: string, id: Id)
    ensures id in Selected(rows, leg, org) <==>
      id in rows && InScope(rows[id], org) && (rows[id].value.Null? && leg.kind.Sealed? ==> leg.kind.nullsToo)
  {
  }

  /** What is to be sealed again: rows of this tenant, whatever is passed over. */
  lemma PlannedIff(k: Keys, leg: Leg, rows: Rows, org: string, q: Id)
    ensures IsPlanned(k, leg, rows, org, q) <==> q in rows && InScope(rows[q], org) && PlanRow(k, leg, q, rows[q]).Write?
  {
    if q in rows && leg.kind.Sealed? && rows[q].value.Null? {
      assert PlanRow(k, leg, q, rows[q]).Skip?;
    }
  }

  /** A run for one tenant counts, refuses and plans as if the rows of the others were not there. */
  lemma TenantRunIsAlone(k: Keys, leg: Leg, rows: Rows, org: string)
    requires org != ""
    ensures ReportOf(k, leg, rows, org) == ReportOf(k, leg, TenantRows(rows, org), "")
    ensures Hindered(k, leg, rows, org) <==> Hindered(k, leg, TenantRows(rows, org), "")
    ensures forall q :: IsPlanned(k, leg, rows, org, q) <==> IsPlanned(k, leg, TenantRows(rows, org), "", q)
  {
    hide PlanRow;
    var alone := TenantRows(rows, org);
    var ids := Selected(rows, leg, org);
    assert Selected(alone, leg, "") == ids;
    assert forall id :: id in ids ==> id in rows && id in alone && alone[id] == rows[id];
    assert Keeps(k, leg, alone, ids) == Keeps(k, leg, rows, ids);
    assert Writes(k, leg, alone, ids) == Writes(k, leg, rows, ids);
    assert Asides(k, leg, alone, ids) == Asides(k, leg, rows, ids);
  }

  /** A text under the active key. */
  predicate IsCurrent(k: Keys, rec: Record) {
    rec.value.Str? && rec.value.text.V2? && rec.value.text.keyId == k.ring.activeId
  }

  /** A text that is there, and not under the active key. */
  predicate IsStale(k: Keys, rec: Record) { rec.value.Str? && rec.value.text != Other("") && !IsCurrent(k, rec) }

  /** The report of a column of sealed texts, from what the rows hold. */
  lemma SealedReport(k: Keys, leg: Leg, rows: Rows, org: string)
    requires leg.kind.Sealed? && !Hindered(k, leg, rows, org)
    ensures var r := ReportOf(k, leg, rows, org);
      && r.rows == |set id | id in rows && InScope(rows[id], org) && (rows[id].value.Null? ==> leg.kind.nullsToo)|
      && r.alreadyCurrent == |set id | id in rows && InScope(rows[id], org) && IsCurrent(k, rows[id])|
      && r.resealed == |set id | id in rows && InScope(rows[id], org) && IsStale(k, rows[id])|
      && r.skipped == 0
  {
    hide PlanRow, IsCurrent, IsStale;
    var ids := Selected(rows, leg, org);
    assert ids == set id | id in rows && InScope(rows[id], org) && (rows[id].value.Null? ==> leg.kind.nullsToo);
    forall id | id in rows
      ensures var p := PlanRow(k, leg, id, rows[id]);
        id in ids ==> (p.Keep? <==> IsCurrent(k, rows[id])) && (p.Write? <==> IsStale(k, rows[id])) && !p.Aside?
      ensures rows[id].value.Null? ==> !IsCurrent(k, rows[id]) && !IsStale(k, rows[id])
    {
      if id in ids {
        SealedPlan(k, leg, id, rows[id]);
      }
      NullIsNothing(k, rows[id]);
    }
    assert Keeps(k, leg, rows, ids) == set id | id in rows && InScope(rows[id], org) && IsCurrent(k, rows[id]);
    assert Writes(k, leg, rows, ids) == set id | id in rows && InScope(rows[id], org) && IsStale(k, rows[id]);
    assert Asides(k, leg, rows, ids) == {};
  }

  lemma NullIsNothing(k: Keys, rec: Record)
    ensures rec.value.Null? ==> !IsCurrent(k, rec) && !IsStale(k, rec)
  {
  }

  lemma SealedPlan(k: Keys, leg: Leg, id: Id, rec: Record)
    requires leg.kind.Sealed? && !PlanRow(k, leg, id, rec).Fail?
    ensures var p := PlanRow(k, leg, id, rec);
      (p.Keep? <==> IsCurrent(k, rec)) && (p.Write? <==> IsStale(k, rec)) && !p.Aside?
  {
  }

  /** A snapshot is written back as its oracle says, or not at all. */
  lemma SnapshotRow(k: Keys, leg: Leg, id: Id, rec: Record)
    requires leg.kind.Snapshot?
    ensures RotatedRow(k, leg, id, rec) ==
      match k.fingerprint(rec.value) case Rewritten(reported) => rec.(value := reported) case _ => rec
    ensures PlanRow(k, leg, id, rec).Write? ==> PlanRow(k, leg, id, rec).was == rec.value
    ensures PlanRow(k, leg, id, rec).Fail? <==> k.fingerprint(rec.value).Unprovable?
  {
  }

  /** The report of a table of documents or snapshots: every row of the tenant is counted once. */
  lemma OtherReport(k: Keys, leg: Leg, rows: Rows, org: string)
    requires !leg.kind.Sealed? && !Hindered(k, leg, rows, org)
    ensures var r := ReportOf(k, leg, rows, org);
      && r.rows == |set id | id in rows && InScope(rows[id], org)|
      && r.rows == r.alreadyCurrent + r.resealed + r.skipped
      && r.skipped == |set id | id in rows && InScope(rows[id], org) && leg.kind.Snapshot? && k.fingerprint(rows[id].value).Drifted?|
  {
    hide PlanRow;
    var ids := Selected(rows, leg, org);
    assert ids == set id | id in rows && InScope(rows[id], org);
    forall id | id in ids
      ensures var p := PlanRow(k, leg, id, rows[id]);
        && (p.Aside? <==> leg.kind.Snapshot? && k.fingerprint(rows[id].value).Drifted?) && (p.Keep? || p.Write? || p.Aside?)
    {
      OtherPlan(k, leg, id, rows[id]);
    }
    var keeps, writes, asides := Keeps(k, leg, rows, ids), Writes(k, leg, rows, ids), Asides(k, leg, rows, ids);
    assert asides == set id | id in rows && InScope(rows[id], org) && leg.kind.Snapshot? && k.fingerprint(rows[id].value).Drifted?;
    assert keeps + writes + asides == ids;
    assert |keeps + writes + asides| == |keeps| + |writes| + |asides|;
  }

  lemma OtherPlan(k: Keys, leg: Leg, id: Id, rec: Record)
    requires !leg.kind.Sealed? && !PlanRow(k, leg, id, rec).Fail?
    ensures var p := PlanRow(k, leg, id, rec);
      (p.Aside? <==> leg.kind.Snapshot? && k.fingerprint(rec.value).Drifted?) && (p.Keep? || p.Write? || p.Aside?)
  {
    hide Rotate;
  }

  // ---------------------------------------------------------------------
  // One table
  // ---------------------------------------------------------------------

  /** The run over `read` plans to seal the row `q` again. */
  predicate IsPlanned(k: Keys, leg: Leg, read: Rows, org: string, q: Id) {
    q in Selected(read, leg, org) && PlanRow(k, leg, q, read[q]).Write?
  }

  function WriteOf(k: Keys, leg: Leg, read: Rows, org: string, q: Id): WriteBack
    requires IsPlanned(k, leg, read, org, q)
  {
    var p := PlanRow(k, leg, q, read[q]); WriteBack(q, p.was, p.now)
  }

  /** The row after the planned write that finds it, if one does. */
  function PatchRow(k: Keys, leg: Leg, read: Rows, org: string, id: Id, rec: Record): Record {
    var q := KeyOf(leg, id, rec);
    if IsPlanned(k, leg, read, org, q) && rec.value == WriteOf(k, leg, read, org, q).was
    then rec.(value := WriteOf(k, leg, read, org, q).now)
    else rec
  }

  /** The writes planned on `read`, carried out on `rows`. */
  function Patch(rows: Rows, k: Keys, leg: Leg, read: Rows, org: string): Rows {
    map id | id in rows :: PatchRow(k, leg, read, org, id, rows[id])
  }

  /** The table after a leg that nobody disturbed. */
  function RotatedTable(k: Keys, leg: Leg, rows: Rows, org: string): Rows { Patch(rows, k, leg, rows, org) }

  /** Every planned write finds exactly one row that holds what was read. */
  predicate AllMeet(rows: Rows, k: Keys, leg: Leg, read: Rows, org: string) {
    forall q :: q in Selected(read, leg, org) && IsPlanned(k, leg, read, org, q) ==>
      MeetsOne(rows, leg, WriteOf(k, leg, read, org, q))
  }

  /** From `rows` to `after`, each planned write changed one row that held what was read, and nothing else changed. */
  ghost predicate LandedPlan(after: Rows, rows: Rows, k: Keys, leg: Leg, read: Rows, org: string) {
    && after.Keys == rows.Keys
    && (forall q :: IsPlanned(k, leg, read, org, q) ==>
          var w := WriteOf(k, leg, read, org, q); HitsSome(after, rows, leg, w) && (w.was != w.now ==> HitsOne(after, rows, leg, w)))
    && (forall id :: id in rows && after[id] != rows[id] ==>
          var q := KeyOf(leg, id, rows[id]);
          IsPlanned(k, leg, read, org, q) && Hit(after, rows, leg, WriteOf(k, leg, read, org, q), id))
  }

  /** The commit changes table `t` alone, by the writes planned on `read`. */
  ghost predicate LegCommit(c: Commit, t: nat, k: Keys, leg: Leg, read: Rows, org: string) {
    && t < |c.before| && t < |c.after| && c.after == c.before[t := c.after[t]]
    && LandedPlan(c.after[t], c.before[t], k, leg, read, org)
  }

  /** A run for one tenant changes no row but for a row of that tenant: itself, or the one it stands for. */
  lemma OthersAreSpared(c: Commit, t: nat, k: Keys, leg: Leg, read: Rows, org: string, id: Id)
    requires LegCommit(c, t, k, leg, read, org) && id in c.before[t]
    ensures id in c.after[t]
    ensures c.after[t][id] != c.before[t][id] ==>
      var q := if leg.byParty then c.before[t][id].party else id; q in read && InScope(read[q], org)
  {
    hide PlanRow, HitsSome, HitsOne, Selected, Hit;
    if c.after[t][id] != c.before[t][id] {
      PlannedIff(k, leg, read, org, KeyOf(leg, id, c.before[t][id]));
    }
  }

  /** What is planned is written. */
  lemma PlannedWrite(ws: seq<WriteBack>, k: Keys, leg: Leg, read: Rows, org: string, q: Id) returns (i: nat)
    requires PlannedFor(ws, k, leg, read, Selected(read, leg, org)) && IsPlanned(k, leg, read, org, q)
    ensures i < |ws| && ws[i] == WriteOf(k, leg, read, org, q)
  {
    hide PlanRow, DistinctKeys;
    assert q in Writes(k, leg, read, Selected(read, leg, org));
    i :| 0 <= i < |ws| && ws[i].key == q;
  }

  /** What is written is planned. */
  lemma WrittenPlan(ws: seq<WriteBack>, k: Keys, leg: Leg, read: Rows, org: string, i: nat)
    requires PlannedFor(ws, k, leg, read, Selected(read, leg, org)) && i < |ws|
    ensures IsPlanned(k, leg, read, org, ws[i].key) && WriteOf(k, leg, read, org, ws[i].key) == ws[i]
  {
    hide PlanRow, DistinctKeys, Selected, Covers;
  }

  lemma LandedIsPlan(after: Rows, rows: Rows, ws: seq<WriteBack>, k: Keys, leg: Leg, read: Rows, org: string)
    requires PlannedFor(ws, k, leg, read, Selected(read, leg, org)) && Landed(after, rows, leg, ws)
    ensures LandedPlan(after, rows, k, leg, read, org)
  {
    hide IsPlanned, WriteOf, PlannedFor, HitsSome, HitsOne;
    forall q | IsPlanned(k, leg, read, org, q)
      ensures var w := WriteOf(k, leg, read, org, q); HitsSome(after, rows, leg, w) && (w.was != w.now ==> HitsOne(after, rows, leg, w))
    {
      var i := PlannedWrite(ws, k, leg, read, org, q);
    }
    forall id | id in rows && after[id] != rows[id]
      ensures var q := KeyOf(leg, id, rows[id]);
        IsPlanned(k, leg, read, org, q) && Hit(after, rows, leg, WriteOf(k, leg, read, org, q), id)
    {
      var i :| 0 <= i < |ws| && Hit(after, rows, leg, ws[i], id);
      WrittenPlan(ws, k, leg, read, org, i);
    }
  }

  lemma MeetIsPlan(rows: Rows, ws: seq<WriteBack>, k: Keys, leg: Leg, read: Rows, org: string)
    requires PlannedFor(ws, k, leg, read, Selected(read, leg, org))
    ensures AllMeet(rows, k, leg, read, org) <==> forall i :: 0 <= i < |ws| ==> MeetsOne(rows, leg, ws[i])
  {
    hide IsPlanned, WriteOf, PlannedFor, MeetsOne, Selected;
    forall i | 0 <= i < |ws| && AllMeet(rows, k, leg, read, org) ensures MeetsOne(rows, leg, ws[i]) {
      WrittenPlan(ws, k, leg, read, org, i);
      PlannedIsSelected(k, leg, read, org, ws[i].key);
    }
    if forall i :: 0 <= i < |ws| ==> MeetsOne(rows, leg, ws[i]) {
      forall q | q in Selected(read, leg, org) && IsPlanned(k, leg, read, org, q)
        ensures MeetsOne(rows, leg, WriteOf(k, leg, read, org, q))
      {
        var i := PlannedWrite(ws, k, leg, read, org, q);
      }
    }
  }

  lemma PlannedIsSelected(k: Keys, leg: Leg, read: Rows, org: string, q: Id)
    requires IsPlanned(k, leg, read, org, q)
    ensures q in Selected(read, leg, org)
  {
  }

  datatype LegResult = Reported(report: Report) | RefusedLeg

  /**
   * What one leg did: `from` and `to` are all tables before and after it,
   * `journal` holds the commits meanwhile, from the `n`-th on.
   */
  ghost predicate LegDone(edits: Edits, journal: seq<Commit>, n: nat, from: seq<Rows>, to: seq<Rows>, t: nat,
                          r: LegResult, k: Keys, leg: Leg, org: string, apply: bool)
  {
    && t < |from| && t < |to| && n <= |journal| && Chained(edits, journal, n, from, to)
    && (r.Reported? ==> !Hindered(k, leg, from[t], org) && r.report == ReportOf(k, leg, from[t], org))
    && (r.RefusedLeg? ==>
          && AllTheirs(journal, n)
          && (Hindered(k, leg, from[t], org) || (apply && !AllMeet(to[t], k, leg, from[t], org))))
    && (r.Reported? && (!apply || r.report.resealed == 0) ==> AllTheirs(journal, n))
    && (r.Reported? && apply && r.report.resealed > 0 ==>
          OursLast(journal, n) && LegCommit(journal[|journal| - 1], t, k, leg, from[t], org))
    && (r.Reported? && apply && Calm(edits) ==> AllMeet(from[t], k, leg, from[t], org))
  }

  method RotateLeg(db: Database, t: nat, k: Keys, leg: Leg, org: string, apply: bool) returns (r: LegResult)
    requires t < |db.tables|
    modifies db
    ensures old(db.journal) <= db.journal
    ensures LegDone(db.edits, db.journal, |old(db.journal)|, old(db.tables), db.tables, t, r, k, leg, org, apply)
  {
    hide Hindered, ReportOf, PlannedFor, AllMeet, Chained, AllTheirs, LegCommit, LandedIn, Calm, MeetsOne;
    var rows := db.tables[t];
    ghost var from, n := db.tables, |db.journal|;
    ChainedNothing(db.edits, db.journal, db.tables);
    var ok, ws, report := PlanLeg(k, leg, rows, org);
    if !ok {
      return RefusedLeg;
    }
    PlanIsSound(ws, k, leg, rows, org);
    MeetIsPlan(rows, ws, k, leg, rows, org);
    if apply && ws != [] {
      ok := ApplyWrites(db, t, leg, ws);
      ChainedLength(db.edits, db.journal, n, from, db.tables);
      if !ok {
        MeetIsPlan(db.tables[t], ws, k, leg, rows, org);
        return RefusedLeg;
      }
      CommitIsPlan(db.journal[|db.journal| - 1], t, ws, k, leg, rows, org);
    }
    r := Reported(report);
  }

  lemma CommitIsPlan(c: Commit, t: nat, ws: seq<WriteBack>, k: Keys, leg: Leg, read: Rows, org: string)
    requires PlannedFor(ws, k, leg, read, Selected(read, leg, org)) && LandedIn(c, t, leg, ws)
    ensures LegCommit(c, t, k, leg, read, org)
  {
    hide PlannedFor, Landed, LandedPlan;
    LandedIsPlan(c.after[t], c.before[t], ws, k, leg, read, org);
  }

  lemma PlanIsSound(ws: seq<WriteBack>, k: Keys, leg: Leg, rows: Rows, org: string)
    requires PlannedFor(ws, k, leg, rows, Selected(rows, leg, org))
    ensures DistinctKeys(ws) && |ws| == ReportOf(k, leg, rows, org).resealed
  {
  }

  /** The tables after the commits from `n` up to `k`. */
  function StateAt(journal: seq<Commit>, n: nat, from: seq<Rows>, k: nat): seq<Rows>
    requires n <= k <= |journal|
  {
    if k == n then from else journal[k - 1].after
  }

  /** Commit `j` is that of a leg, by the writes planned on what the table held at some time before. */
  ghost predicate IsLegCommit(journal: seq<Commit>, n: nat, from: seq<Rows>, j: nat, k: Keys, legs: seq<Leg>, org: string)
    requires n <= j < |journal|
  {
    exists t, m :: 0 <= t < |legs| && n <= m <= j && ReadAt(journal, n, from, j, k, legs, org, t, m)
  }

  ghost predicate ReadAt(journal: seq<Commit>, n: nat, from: seq<Rows>, j: nat, k: Keys, legs: seq<Leg>, org: string,
                         t: nat, m: nat)
    requires n <= m <= j < |journal| && t < |legs|
  {
    t < |StateAt(journal, n, from, m)| && LegCommit(journal[j], t, k, legs[t], StateAt(journal, n, from, m)[t], org)
  }

  // ---------------------------------------------------------------------
  // What a leg amounts to
  // ---------------------------------------------------------------------

  /** When every planned write finds one row, the table that results is known. */
  lemma LandedIsPatch(after: Rows, rows: Rows, k: Keys, leg: Leg, read: Rows, org: string)
    requires LandedPlan(after, rows, k, leg, read, org) && AllMeet(rows, k, leg, read, org)
    ensures after == Patch(rows, k, leg, read, org)
  {
    hide PlanRow, Selected, HitsOne, LandedPlan, IsPlanned, WriteOf;
    assert after.Keys == rows.Keys by { LandedKeys(after, rows, k, leg, read, org); }
    forall id | id in rows ensures after[id] == PatchRow(k, leg, read, org, id, rows[id]) {
      LandedRow(after, rows, k, leg, read, org, id);
    }
  }

  lemma LandedKeys(after: Rows, rows: Rows, k: Keys, leg: Leg, read: Rows, org: string)
    requires LandedPlan(after, rows, k, leg, read, org)
    ensures after.Keys == rows.Keys
  {
  }

  lemma LandedRow(after: Rows, rows: Rows, k: Keys, leg: Leg, read: Rows, org: string, id: Id)
    requires LandedPlan(after, rows, k, leg, read, org) && AllMeet(rows, k, leg, read, org) && id in rows
    ensures id in after && after[id] == PatchRow(k, leg, read, org, id, rows[id])
  {
    hide PlanRow, HitsOne, IsPlanned, WriteOf, Selected;
    var q := KeyOf(leg, id, rows[id]);
    if IsPlanned(k, leg, read, org, q) && rows[id].value == WriteOf(k, leg, read, org, q).was {
      var w := WriteOf(k, leg, read, org, q);
      PlannedIsSelected(k, leg, read, org, q);
      WriteKey(k, leg, read, org, q);
      assert HitsSome(after, rows, leg, w);
      var b: Id :| Hit(after, rows, leg, w, b);
      var only := OnlyMember(Matched(rows, leg, w));
      assert id in Matched(rows, leg, w) && b in Matched(rows, leg, w);
    }
  }

  lemma WriteKey(k: Keys, leg: Leg, read: Rows, org: string, q: Id)
    requires IsPlanned(k, leg, read, org, q)
    ensures WriteOf(k, leg, read, org, q).key == q
  {
  }

  /** Written back by id, a write that lands has found exactly one row. */
  lemma ByIdMeets(after: Rows, rows: Rows, k: Keys, leg: Leg, read: Rows, org: string)
    requires !leg.byParty && LandedPlan(after, rows, k, leg, read, org)
    ensures AllMeet(rows, k, leg, read, org)
  {
    hide IsPlanned, WriteOf, Selected, HitsOne;
    forall q | q in Selected(read, leg, org) && IsPlanned(k, leg, read, org, q)
      ensures MeetsOne(rows, leg, WriteOf(k, leg, read, org, q))
    {
      var w := WriteOf(k, leg, read, org, q);
      assert HitsSome(after, rows, leg, w);
      var b: Id :| Hit(after, rows, leg, w, b);
      assert Matched(rows, leg, w) == {b};
    }
  }

  /** Written back by id, every row that was read finds itself in the table it was read from. */
  lemma ByIdMeetsItself(k: Keys, leg: Leg, rows: Rows, org: string)
    requires !leg.byParty
    ensures AllMeet(rows, k, leg, rows, org)
  {
    hide PlanRow;
    forall q | q in Selected(rows, leg, org) && IsPlanned(k, leg, rows, org, q)
      ensures MeetsOne(rows, leg, WriteOf(k, leg, rows, org, q))
    {
      PlannedOverRead(k, leg, q, rows[q]);
      assert Matched(rows, leg, WriteOf(k, leg, rows, org, q)) == {q};
    }
  }

  lemma NothingPlanned(k: Keys, leg: Leg, rows: Rows, org: string)
    requires ReportOf(k, leg, rows, org).resealed == 0
    ensures RotatedTable(k, leg, rows, org) == rows
    ensures forall q :: !IsPlanned(k, leg, rows, org, q)
  {
    hide PlanRow;
    assert forall q :: q in Selected(rows, leg, org) ==> q !in Writes(k, leg, rows, Selected(rows, leg, org));
  }

  /**
   * When nobody else edits, a leg completes exactly if every selected row opens
   * and, to be applied, every planned write finds exactly one row that holds
   * what was read; and the tables that result are known.
   */
  lemma CalmLeg(edits: Edits, journal: seq<Commit>, n: nat, from: seq<Rows>, to: seq<Rows>, t: nat,
                r: LegResult, k: Keys, leg: Leg, org: string, apply: bool)
    requires Calm(edits) && LegDone(edits, journal, n, from, to, t, r, k, leg, org, apply)
    ensures r.Reported? <==> !Hindered(k, leg, from[t], org) && (apply ==> AllMeet(from[t], k, leg, from[t], org))
    ensures to == if r.Reported? && apply then from[t := RotatedTable(k, leg, from[t], org)] else from
  {
    hide Hindered, AllMeet, Calm, LandedPlan, RotatedTable, ReportOf;
    var rows := from[t];
    if r.Reported? && apply && r.report.resealed > 0 {
      var m := |journal| - 1;
      CalmChain(edits, journal[..m], n, from, journal[m].before);
      LandedIsPatch(journal[m].after[t], rows, k, leg, rows, org);
      assert RotatedTable(k, leg, rows, org) == Patch(rows, k, leg, rows, org) by { TableIsPatch(k, leg, rows, org); }
    } else {
      CalmChain(edits, journal, n, from, to);
      if r.Reported? && apply {
        NothingPlanned(k, leg, rows, org);
      }
    }
  }

  /** Written back by id, a commit among editors is the plan carried out on what they had left. */
  lemma ByIdCommit(c: Commit, t: nat, k: Keys, leg: Leg, read: Rows, org: string)
    requires !leg.byParty && LegCommit(c, t, k, leg, read, org)
    ensures c.after == c.before[t := Patch(c.before[t], k, leg, read, org)]
    ensures AllMeet(c.before[t], k, leg, read, org)
  {
    hide LandedPlan, Patch, AllMeet;
    ByIdMeets(c.after[t], c.before[t], k, leg, read, org);
    LandedIsPatch(c.after[t], c.before[t], k, leg, read, org);
  }

  /** Written back by id, a leg that nobody disturbs completes exactly if every selected row opens. */
  lemma CalmByIdLeg(edits: Edits, journal: seq<Commit>, n: nat, from: seq<Rows>, to: seq<Rows>, t: nat,
                    r: LegResult, k: Keys, leg: Leg, org: string, apply: bool)
    requires Calm(edits) && !leg.byParty && LegDone(edits, journal, n, from, to, t, r, k, leg, org, apply)
    ensures r.Reported? <==> !Hindered(k, leg, from[t], org)
  {
    hide Hindered, AllMeet, Calm, LegCommit, RotatedTable, ReportOf, Chained;
    CalmLeg(edits, journal, n, from, to, t, r, k, leg, org, apply);
    ByIdMeetsItself(k, leg, from[t], org);
  }

  lemma TableIsPatch(k: Keys, leg: Leg, rows: Rows, org: string)
    ensures RotatedTable(k, leg, rows, org) == Patch(rows, k, leg, rows, org)
  {
  }

  /** A planned write expects what was read; a null document is never rewritten. */
  lemma PlannedOverRead(k: Keys, leg: Leg, id: Id, rec: Record)
    requires PlanRow(k, leg, id, rec).Write?
    ensures PlanRow(k, leg, id, rec).was == rec.value
  {
    if leg.kind.Document? && rec.value.Null? {
      NothingToRotate(k.ring, k.legacy, rec.owner, k.nonces(id));
    }
  }

  lemma NothingToRotate(ring: Ring, legacy: LegacyReader, org: string, ns: Nonces)
    ensures Rotate(ring, legacy, org, map[], ns) == Rotated(map[], false)
  {
  }
}
