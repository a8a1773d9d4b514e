/** Rotating the data key: planning each table, then writing it back in one transaction among concurrent editors. */
module KeyRotation {
  import opened SealedBlobs
  import opened OrgSettings

  type Id = nat

  /**
   * A row: the tenant it is selected by, the tenant or user its secret is
   * bound to, the party it stands for (vendor roles only), and the column.
   */
  datatype Record = Record(tenant: string, owner: string, party: Id, value: Json)

  type Rows = map<Id, Record>

  /** What the column holds: a sealed text, a settings document, or a filing snapshot. */
  datatype Kind = Sealed(purpose: string, nullsToo: bool) | Document | Snapshot

  /** A table to rotate; vendor roles are written back by party, all others by id. */
  datatype Leg = Leg(kind: Kind, byParty: bool)

  datatype Fingerprint = Rewritten(reported: Json) | Drifted | Proven | Unprovable

  /** The configured keys, the randomness of each seal, and what proves a filing snapshot. */
  datatype Keys = Keys(
    ring: Ring,
    legacy: LegacyReader,
    nonces: Id -> Nonces,
    fingerprint: Json -> Fingerprint)

  datatype Planned = Skip | Keep | Aside | Write(was: Json, now: Json) | Fail

  /** The text of a sealed column; a null stands for none. */
  function TextOf(value: Json): Stored { if value.Str? then value.text else Other("") }

  /** A document as the rotation reads it: anything but an object counts as empty. */
  function FieldsOf(value: Json): Fields { var c := CopyOf(value); if c.Copied? then c.fields else map[] }

  function PlanRow(k: Keys, leg: Leg, id: Id, rec: Record): Planned {
    match leg.kind
    case Sealed(purpose, _) =>
      (match PlanReseal(k.ring, TextOf(rec.value), Scope(rec.owner, purpose), k.nonces(id).ai)
       case Nothing => Skip
       case Current => Keep
       case Reseal(sealed) => Write(rec.value, Str(sealed))
       case Unopened => Fail)
    case Document =>
      (match Rotate(k.ring, k.legacy, rec.owner, FieldsOf(rec.value), k.nonces(id))
       case Refused => Fail
       case Rotated(next, changed) =>
         if changed then Write(if rec.value.Null? then Obj(map[]) else rec.value, Obj(next)) else Keep)
    case Snapshot =>
      match k.fingerprint(rec.value)
      case Rewritten(reported) => Write(rec.value, reported)
      case Drifted => Aside
      case Proven => Keep
      case Unprovable => Fail
  }

  /** The rows that a run over one tenant, or over all, reads. */
  function Selected(rows: Rows, leg: Leg, org: string): set<Id> {
    set id | id in rows && (org == "" || rows[id].tenant == org)
             && (leg.kind.Sealed? && !leg.kind.nullsToo ==> !rows[id].value.Null?)
  }

  /** The row after a completed leg. */
  function RotatedRow(k: Keys, leg: Leg, id: Id, rec: Record): Record {
    var p := PlanRow(k, leg, id, rec); if p.Write? then rec.(value := p.now) else rec
  }

  // ---------------------------------------------------------------------
  // The database and its editors
  // ---------------------------------------------------------------------

  predicate SameRow(a: Rows, b: Rows, id: Id) {
    (id in a <==> id in b) && (id in a ==> a[id] == b[id])
  }

  /** One commit: what other sessions did to the tables, or what the rotation did. */
  datatype Commit =
    | Theirs(before: seq<Rows>, after: seq<Rows>)
    | Ours(before: seq<Rows>, after: seq<Rows>)

  /** What the other sessions make of the tables at each turn: arbitrary, but not up to the rotation. */
  type Edits = (nat, seq<Rows>) -> seq<Rows>

  /** Nobody else edits. */
  ghost predicate Calm(edits: Edits) { forall n: nat, ts: seq<Rows> :: edits(n, ts) == ts }

  /** The other sessions had their turn `n`, or were held up by a lock. */
  predicate IsEdit(edits: Edits, n: nat, before: seq<Rows>, after: seq<Rows>) {
    |after| == |before| && (after == before || after == edits(n, before))
  }

  class Database {
    const edits: Edits
    /** The committed rows of every table. */
    var tables: seq<Rows>
    /** Every commit so far. */
    var journal: seq<Commit>

    constructor (tables: seq<Rows>, edits: Edits)
      ensures this.tables == tables && this.edits == edits && journal == []
    {
      this.tables := tables;
      this.edits := edits;
      journal := [];
    }

    /** The other sessions' turn; rows that are locked in table `t` are out of their reach. */
    method Editors(t: nat, locked: set<Id>)
      requires t < |tables|
      modifies this
      ensures IsEdit(edits, |old(journal)|, old(tables), tables)
      ensures forall id :: id in locked ==> SameRow(old(tables)[t], tables[t], id)
      ensures journal == old(journal) + [Theirs(old(tables), tables)]
    {
      var before := tables;
      var edited := edits(|journal|, tables);
      if |edited| == |tables| && (forall id | id in locked :: SameRow(tables[t], edited[t], id)) {
        tables := edited;
      }
      journal := journal + [Theirs(before, tables)];
    }

    /** Commits the rotation's own transaction on table `t`. */
    method Commit(t: nat, rows: Rows)
      requires t < |tables|
      modifies this
      ensures tables == old(tables)[t := rows]
      ensures journal == old(journal) + [Ours(old(tables), tables)]
    {
      journal := journal + [Ours(tables, tables[t := rows])];
      tables := tables[t := rows];
    }
  }

  // ---------------------------------------------------------------------
  // Journals
  // ---------------------------------------------------------------------

  /** Commit `k` is ours, or an edit of the other sessions. */
  predicate Linked(edits: Edits, c: Commit, k: nat) {
    |c.after| == |c.before| && (c.Theirs? ==> IsEdit(edits, k, c.before, c.after))
  }

  /** The commits since the first `n` lead from `from` to `to`, each starting where the last one ended. */
  predicate Chained(edits: Edits, journal: seq<Commit>, n: nat, from: seq<Rows>, to: seq<Rows>) {
    if |journal| <= n then |journal| == n && from == to
    else
      var init, last := journal[..|journal| - 1], journal[|journal| - 1];
      Chained(edits, init, n, from, last.before) && Linked(edits, last, |init|) && to == last.after
  }

  predicate AllTheirs(journal: seq<Commit>, n: nat) {
    forall k :: n <= k < |journal| ==> journal[k].Theirs?
  }

  /** Exactly one commit since the first `n` is the rotation's, and it is the last one. */
  predicate OursLast(journal: seq<Commit>, n: nat) {
    n < |journal| && journal[|journal| - 1].Ours? && AllTheirs(journal[..|journal| - 1], n)
  }

  lemma ChainedNothing(edits: Edits, journal: seq<Commit>, tables: seq<Rows>)
    ensures Chained(edits, journal, |journal|, tables, tables) && AllTheirs(journal, |journal|)
  {
  }

  lemma ChainedMore(edits: Edits, journal: seq<Commit>, n: nat, from: seq<Rows>, c: Commit)
    requires n <= |journal| && Chained(edits, journal, n, from, c.before) && Linked(edits, c, |journal|)
    ensures Chained(edits, journal + [c], n, from, c.after)
  {
    hide Linked;
    assert (journal + [c])[..|journal|] == journal;
  }

  lemma {:induction false} ChainedJoin(edits: Edits, first: seq<Commit>, journal: seq<Commit>, n: nat,
                                       from: seq<Rows>, mid: seq<Rows>, to: seq<Rows>)
    requires n <= |first| && Chained(edits, first, n, from, mid)
    requires first <= journal && Chained(edits, journal, |first|, mid, to)
    ensures Chained(edits, journal, n, from, to)
    decreases |journal|
  {
    hide Linked;
    if |journal| == |first| {
      assert journal == first;
    } else {
      var m := |journal| - 1;
      ChainedJoin(edits, first, journal[..m], n, from, mid, journal[m].before);
    }
  }

  /** No table comes or goes. */
  lemma {:induction false} ChainedLength(edits: Edits, journal: seq<Commit>, n: nat, from: seq<Rows>, to: seq<Rows>)
    requires Chained(edits, journal, n, from, to)
    ensures |to| == |from|
    decreases |journal|
  {
    hide IsEdit;
    if n < |journal| {
      var m := |journal| - 1;
      ChainedLength(edits, journal[..m], n, from, journal[m].before);
    }
  }

  /** If nobody else edits, only the rotation's own commits change anything. */
  lemma {:induction false} CalmChain(edits: Edits, journal: seq<Commit>, n: nat, from: seq<Rows>, to: seq<Rows>)
    requires Calm(edits) && Chained(edits, journal, n, from, to) && AllTheirs(journal, n)
    ensures to == from
    decreases |journal|
  {
    if n < |journal| {
      var m := |journal| - 1;
      CalmChain(edits, journal[..m], n, from, journal[m].before);
    }
  }

  // ---------------------------------------------------------------------
  // Writing back
  // ---------------------------------------------------------------------

  datatype WriteBack = WriteBack(key: Id, was: Json, now: Json)

  function KeyOf(leg: Leg, id: Id, rec: Record): Id { if leg.byParty then rec.party else id }

  /** The rows that `update ... where key = ... and value = ...` matches. */
  function Matched(rows: Rows, leg: Leg, w: WriteBack): set<Id> {
    set id | id in rows && KeyOf(leg, id, rows[id]) == w.key && rows[id].value == w.was
  }

  /** The update finds exactly one row. */
  predicate MeetsOne(rows: Rows, leg: Leg, w: WriteBack) { |Matched(rows, leg, w)| == 1 }

  predicate DistinctKeys(ws: seq<WriteBack>) {
    forall i, j :: 0 <= i < j < |ws| ==> ws[i].key != ws[j].key
  }

  /** From `rows` to `after`, the write changed row `id`, which held what was read. */
  predicate Hit(after: Rows, rows: Rows, leg: Leg, w: WriteBack, id: Id) {
    && id in rows && id in after && KeyOf(leg, id, rows[id]) == w.key
    && rows[id].value == w.was && after[id] == rows[id].(value := w.now)
  }

  /** The uncommitted rows are those that the writes so far have hit, `ids[i]` by `ws[i]`. */
  predicate Holds(mine: Rows, rows: Rows, leg: Leg, ws: seq<WriteBack>, ids: seq<Id>) {
    && |ids| <= |ws|
    && (forall i :: 0 <= i < |ids| ==> Hit(mine, rows, leg, ws[i], ids[i]))
    && (forall id :: id in mine ==> id in ids)
  }

  /** Uncommitted rows do not change which rows the next write finds. */
  lemma ViewMatches(rows: Rows, mine: Rows, leg: Leg, ws: seq<WriteBack>, ids: seq<Id>)
    requires DistinctKeys(ws) && |ids| < |ws| && Holds(mine, rows, leg, ws, ids)
    ensures Matched(rows + mine, leg, ws[|ids|]) == Matched(rows, leg, ws[|ids|])
  {
    var w, view := ws[|ids|], rows + mine;
    forall id ensures id in Matched(view, leg, w) <==> id in Matched(rows, leg, w) {
      if id in mine {
        var i :| 0 <= i < |ids| && ids[i] == id;
        assert Hit(mine, rows, leg, ws[i], id);
        assert ws[i].key != w.key;
      }
    }
  }

  /** One update inside the transaction: the rows it changes, on top of those changed so far. */
  function Updated(rows: Rows, mine: Rows, leg: Leg, w: WriteBack): Rows {
    var view := rows + mine;
    mine + map id | id in Matched(view, leg, w) :: view[id].(value := w.now)
  }

  lemma OnlyMember(ids: set<Id>) returns (id: Id)
    requires |ids| == 1
    ensures ids == {id}
  {
    id :| id in ids;
    assert |ids - {id}| == 0;
  }

  lemma NotYetHit(rows: Rows, mine: Rows, leg: Leg, ws: seq<WriteBack>, ids: seq<Id>, id: Id)
    requires DistinctKeys(ws) && |ids| < |ws| && Holds(mine, rows, leg, ws, ids)
    requires id in Matched(rows, leg, ws[|ids|])
    ensures id !in mine
  {
    forall i | 0 <= i < |ids| ensures ids[i] != id {
      assert Hit(mine, rows, leg, ws[i], ids[i]);
      assert ws[i].key != ws[|ids|].key;
    }
  }

  lemma UpdateHits(rows: Rows, mine: Rows, leg: Leg, ws: seq<WriteBack>, ids: seq<Id>) returns (id: Id)
    requires DistinctKeys(ws) && |ids| < |ws| && Holds(mine, rows, leg, ws, ids)
    requires MeetsOne(rows, leg, ws[|ids|])
    ensures Holds(Updated(rows, mine, leg, ws[|ids|]), rows, leg, ws, ids + [id])
  {
    var w := ws[|ids|];
    ViewMatches(rows, mine, leg, ws, ids);
    id := OnlyMember(Matched(rows, leg, w));
    assert id in Matched(rows, leg, w);
    var after, more := Updated(rows, mine, leg, w), ids + [id];
    NotYetHit(rows, mine, leg, ws, ids, id);
    forall i | 0 <= i < |more| ensures Hit(after, rows, leg, ws[i], more[i]) {
      if i < |ids| {
        assert Hit(mine, rows, leg, ws[i], ids[i]) && ids[i] != id;
      }
    }
    forall x | x in after ensures x in more {
      if x in mine {
        assert x in ids;
      } else {
        assert more[|ids|] == x;
      }
    }
  }

  /** Editors cannot reach the rows the transaction has locked. */
  lemma LocksHold(before: Rows, rows: Rows, mine: Rows, leg: Leg, ws: seq<WriteBack>, ids: seq<Id>)
    requires Holds(mine, before, leg, ws, ids) && forall id :: id in mine ==> SameRow(before, rows, id)
    ensures Holds(mine, rows, leg, ws, ids)
  {
    forall i | 0 <= i < |ids| ensures Hit(mine, rows, leg, ws[i], ids[i]) {
      assert Hit(mine, before, leg, ws[i], ids[i]);
      assert SameRow(before, rows, ids[i]);
    }
  }

  ghost predicate HitsSome(after: Rows, rows: Rows, leg: Leg, w: WriteBack) {
    exists id :: Hit(after, rows, leg, w, id)
  }

  /** The write has changed no second row. */
  ghost predicate HitsOne(after: Rows, rows: Rows, leg: Leg, w: WriteBack) {
    forall a, b :: Hit(after, rows, leg, w, a) && Hit(after, rows, leg, w, b) ==> a == b
  }

  /** From `rows` to `after`, every write has changed one row that held what was read, and nothing else has changed. */
  ghost predicate Landed(after: Rows, rows: Rows, leg: Leg, ws: seq<WriteBack>) {
    && after.Keys == rows.Keys
    && (forall i :: 0 <= i < |ws| ==> HitsSome(after, rows, leg, ws[i]))
    && (forall id :: id in rows && after[id] != rows[id] ==> exists i :: 0 <= i < |ws| && Hit(after, rows, leg, ws[i], id))
    && (forall i :: 0 <= i < |ws| && ws[i].was != ws[i].now ==> HitsOne(after, rows, leg, ws[i]))
  }

  lemma MineAmongRows(rows: Rows, mine: Rows, leg: Leg, ws: seq<WriteBack>, ids: seq<Id>)
    requires Holds(mine, rows, leg, ws, ids)
    ensures (rows + mine).Keys == rows.Keys
  {
    forall id | id in mine ensures id in rows {
      var i :| 0 <= i < |ids| && ids[i] == id;
      assert Hit(mine, rows, leg, ws[i], id);
    }
  }

  lemma CommitHits(rows: Rows, mine: Rows, leg: Leg, ws: seq<WriteBack>, ids: seq<Id>, id: Id)
    requires |ids| == |ws| && Holds(mine, rows, leg, ws, ids) && id in mine
    ensures exists i :: 0 <= i < |ws| && Hit(rows + mine, rows, leg, ws[i], id)
  {
    var i :| 0 <= i < |ids| && ids[i] == id;
    assert Hit(mine, rows, leg, ws[i], id);
    MineAmongRows(rows, mine, leg, ws, ids);
    assert Hit(rows + mine, rows, leg, ws[i], id);
  }

  lemma CommitLands(rows: Rows, mine: Rows, leg: Leg, ws: seq<WriteBack>, ids: seq<Id>)
    requires DistinctKeys(ws) && |ids| == |ws| && Holds(mine, rows, leg, ws, ids)
    ensures Landed(rows + mine, rows, leg, ws)
  {
    hide DistinctKeys, KeyOf;
    var after := rows + mine;
    MineAmongRows(rows, mine, leg, ws, ids);
    forall i | 0 <= i < |ws| ensures HitsSome(after, rows, leg, ws[i]) {
      assert Hit(mine, rows, leg, ws[i], ids[i]);
      assert Hit(after, rows, leg, ws[i], ids[i]);
    }
    forall id | id in rows && after[id] != rows[id]
      ensures exists i :: 0 <= i < |ws| && Hit(after, rows, leg, ws[i], id)
    {
      CommitHits(rows, mine, leg, ws, ids, id);
    }
    forall i | 0 <= i < |ws| && ws[i].was != ws[i].now ensures HitsOne(after, rows, leg, ws[i]) {
      forall a, b | Hit(after, rows, leg, ws[i], a) && Hit(after, rows, leg, ws[i], b) ensures a == b {
        HitsOwn(mine, rows, leg, ws, ids, i, a);
        HitsOwn(mine, rows, leg, ws, ids, i, b);
      }
    }
  }

  /** The only row that a write has changed is the one it found. */
  lemma HitsOwn(mine: Rows, rows: Rows, leg: Leg, ws: seq<WriteBack>, ids: seq<Id>, i: nat, id: Id)
    requires DistinctKeys(ws) && |ids| == |ws| && i < |ws| && Holds(mine, rows, leg, ws, ids)
    requires ws[i].was != ws[i].now && Hit(rows + mine, rows, leg, ws[i], id)
    ensures id == ids[i]
  {
    assert id in mine;
    var j :| 0 <= j < |ids| && ids[j] == id;
    assert Hit(mine, rows, leg, ws[j], id);
    assert ws[j].key == ws[i].key;
  }

  /**
   * All writes of one table, in one transaction among the editors. It commits
   * once, at the end, or not at all; it gives up exactly when a write does not
   * find one row that holds what was read.
   */
  method ApplyWrites(db: Database, t: nat, leg: Leg, ws: seq<WriteBack>) returns (ok: bool)
    requires t < |db.tables| && DistinctKeys(ws)
    modifies db
    ensures old(db.journal) <= db.journal
    ensures Chained(db.edits, db.journal, |old(db.journal)|, old(db.tables), db.tables)
    ensures !ok ==>
      && AllTheirs(db.journal, |old(db.journal)|) && t < |db.tables|
      && exists i :: 0 <= i < |ws| && !MeetsOne(db.tables[t], leg, ws[i])
    ensures ok ==> OursLast(db.journal, |old(db.journal)|) && LandedIn(db.journal[|db.journal| - 1], t, leg, ws)
    ensures Calm(db.edits) && ok ==> forall i :: 0 <= i < |ws| ==> MeetsOne(old(db.tables)[t], leg, ws[i])
  {
    hide Landed, Updated, Matched, Holds, DistinctKeys, MeetsOne, Chained, AllTheirs, Calm, IsEdit;
    var mine: Rows := map[];
    ghost var ids: seq<Id> := [];
    var i := 0;
    NothingWritten(db.tables[t], leg, ws);
    ChainedNothing(db.edits, db.journal, db.tables);
    while i < |ws|
      invariant 0 <= i <= |ws| && |ids| == i && |db.tables| == |old(db.tables)|
      invariant old(db.journal) <= db.journal
      invariant Chained(db.edits, db.journal, |old(db.journal)|, old(db.tables), db.tables)
      invariant AllTheirs(db.journal, |old(db.journal)|)
      invariant Holds(mine, db.tables[t], leg, ws, ids)
      invariant Calm(db.edits) ==> forall j :: 0 <= j < i ==> MeetsOne(old(db.tables)[t], leg, ws[j])
    {
      ghost var before, journal := db.tables, db.journal;
      db.Editors(t, mine.Keys);
      TheirTurn(db.edits, journal, |old(db.journal)|, old(db.tables), before, db.tables);
      LocksHold(before[t], db.tables[t], mine, leg, ws, ids);
      var rows := db.tables[t];
      ViewMatches(rows, mine, leg, ws, ids);
      MeetsMeans(rows, mine, leg, ws[i]);
      if |Matched(rows + mine, leg, ws[i])| != 1 {
        return false;
      }
      ghost var id := UpdateHits(rows, mine, leg, ws, ids);
      if Calm(db.edits) {
        CalmChain(db.edits, db.journal, |old(db.journal)|, old(db.tables), db.tables);
      }
      mine := Updated(rows, mine, leg, ws[i]);
      ids := ids + [id];
      i := i + 1;
    }
    ghost var before, journal := db.tables, db.journal;
    CommitLands(db.tables[t], mine, leg, ws, ids);
    db.Commit(t, db.tables[t] + mine);
    OurTurn(db.edits, journal, |old(db.journal)|, old(db.tables), before, db.tables);
    ok := true;
  }

  /** The commit changes table `t` alone, by the writes. */
  ghost predicate LandedIn(c: Commit, t: nat, leg: Leg, ws: seq<WriteBack>) {
    t < |c.before| && t < |c.after| && c.after == c.before[t := c.after[t]] && Landed(c.after[t], c.before[t], leg, ws)
  }

  lemma MeetsMeans(rows: Rows, mine: Rows, leg: Leg, w: WriteBack)
    requires Matched(rows + mine, leg, w) == Matched(rows, leg, w)
    ensures MeetsOne(rows, leg, w) <==> |Matched(rows + mine, leg, w)| == 1
  {
  }

  lemma NothingWritten(rows: Rows, leg: Leg, ws: seq<WriteBack>)
    ensures Holds(map[], rows, leg, ws, [])
  {
  }

  lemma TheirTurn(edits: Edits, journal: seq<Commit>, n: nat, from: seq<Rows>, before: seq<Rows>, after: seq<Rows>)
    requires n <= |journal| && Chained(edits, journal, n, from, before) && AllTheirs(journal, n)
    requires IsEdit(edits, |journal|, before, after)
    ensures |after| == |before|
    ensures Chained(edits, journal + [Theirs(before, after)], n, from, after)
    ensures AllTheirs(journal + [Theirs(before, after)], n)
  {
    hide Chained;
    ChainedMore(edits, journal, n, from, Theirs(before, after));
  }

  lemma OurTurn(edits: Edits, journal: seq<Commit>, n: nat, from: seq<Rows>, before: seq<Rows>, after: seq<Rows>)
    requires n <= |journal| && Chained(edits, journal, n, from, before) && AllTheirs(journal, n) && |after| == |before|
    ensures Chained(edits, journal + [Ours(before, after)], n, from, after)
    ensures OursLast(journal + [Ours(before, after)], n)
  {
    hide Chained;
    ChainedMore(edits, journal, n, from, Ours(before, after));
    assert (journal + [Ours(before, after)])[..|journal|] == journal;
  }
}
