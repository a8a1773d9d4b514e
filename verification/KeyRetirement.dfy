/** What rotation guarantees: no secret is lost, and the retired keys are no longer needed. */
module KeyRetirement {
  import opened SealedBlobs
  import opened OrgSettings
  import opened KeyRotation
  import opened RotationRun

  /** The email credential in use: the legacy pair as long as there is one. */
  function EmailCredential(r: Ring, k: Keys, org: string, doc: Fields): Opened {
    if HasLegacy(Email(doc)) then LegacyPlain(k.legacy, Email(doc))
    else Secret(r, Email(doc), "keySealed", EmailScope(org))
  }

  /** Everything that a row keeps secret, read under the ring `r`. */
  function Secrets(r: Ring, k: Keys, leg: Leg, rec: Record): seq<Opened> {
    match leg.kind
    case Sealed(purpose, _) => [Unseal(r, KeyRotation.TextOf(rec.value), Scope(rec.owner, purpose))]
    case Document =>
      var doc := FieldsOf(rec.value);
      [ Secret(r, Ai(doc), "keyEncrypted", AiScope(rec.owner)),
        Secret(r, Capture(doc), "keyEncrypted", CaptureScope(rec.owner)),
        EmailCredential(r, k, rec.owner, doc) ]
    case Snapshot => []
  }

  /** A legacy credential that opens to the empty text, which no seal can carry. */
  predicate Loses(k: Keys, leg: Leg, rec: Record) {
    leg.kind.Document? && EmptyLegacy(k.legacy, Email(FieldsOf(rec.value)))
  }

  /** The same keys, with other randomness. */
  ghost predicate SameKeys(a: Keys, b: Keys) { a.ring == b.ring && a.legacy == b.legacy }

  lemma SealedRowKept(k: Keys, leg: Leg, id: Id, rec: Record, r: Ring, again: Keys)
    requires leg.kind.Sealed? && !PlanRow(k, leg, id, rec).Fail?
    requires Remaining(k.ring, r) && SameKeys(k, again)
    ensures Secrets(r, k, leg, RotatedRow(k, leg, id, rec)) == Secrets(k.ring, k, leg, rec)
    ensures var p := PlanRow(again, leg, id, RotatedRow(k, leg, id, rec)); p.Keep? || p.Skip?
  {
    hide Unseal, Seal;
    var s, scope := KeyRotation.TextOf(rec.value), Scope(rec.owner, leg.kind.purpose);
    if s == Other("") {
      NothingOpensNothing(k.ring, r, scope);
    } else {
      ResealKeepsPlaintext(k.ring, s, scope, k.nonces(id).ai, again.nonces(id).ai);
    }
  }

  lemma DocumentRowKept(k: Keys, leg: Leg, id: Id, rec: Record, r: Ring, again: Keys)
    requires leg.kind.Document? && !PlanRow(k, leg, id, rec).Fail? && !Loses(k, leg, rec)
    requires Remaining(k.ring, r) && SameKeys(k, again)
    ensures Secrets(r, k, leg, RotatedRow(k, leg, id, rec)) == Secrets(k.ring, k, leg, rec)
    ensures PlanRow(again, leg, id, RotatedRow(k, leg, id, rec)).Keep?
    ensures !Loses(k, leg, RotatedRow(k, leg, id, rec))
  {
    hide Rotate, Secret, HasLegacy, LegacyPlain;
    var doc, org, ns := FieldsOf(rec.value), rec.owner, k.nonces(id);
    if Rotate(k.ring, k.legacy, org, doc, ns).changed {
      RotationKeeps(k.ring, k.legacy, org, doc, ns, r);
      RotateTwiceIff(k.ring, k.legacy, org, doc, ns, again.nonces(id));
    } else {
      UnchangedIsSafe(k.ring, k.legacy, org, doc, ns, r);
      ChangeIgnoresNonces(k.ring, k.legacy, org, doc, ns, again.nonces(id));
    }
  }

  /**
   * One row, sealed again or left: every secret opens to what it did, under
   * the full ring and under the active key alone, and a second run has
   * nothing to write.
   */
  lemma RowKept(k: Keys, leg: Leg, id: Id, rec: Record, r: Ring, again: Keys)
    requires !PlanRow(k, leg, id, rec).Fail? && !Loses(k, leg, rec)
    requires Remaining(k.ring, r) && SameKeys(k, again)
    ensures Secrets(r, k, leg, RotatedRow(k, leg, id, rec)) == Secrets(k.ring, k, leg, rec)
    ensures !leg.kind.Snapshot? ==> var p := PlanRow(again, leg, id, RotatedRow(k, leg, id, rec)); p.Keep? || p.Skip?
    ensures !Loses(k, leg, RotatedRow(k, leg, id, rec))
  {
    match leg.kind
    case Sealed(_, _) => SealedRowKept(k, leg, id, rec, r, again);
    case Document => DocumentRowKept(k, leg, id, rec, r, again);
    case Snapshot =>
  }

  // What is stored afterwards, read field by field.

  function FieldAt(j: Json, name: string): Json { if j.Obj? && name in j.fields then j.fields[name] else Null }

  /** No text is stored there, or one that names the active key. */
  predicate NamesActive(ring: Ring, j: Json) {
    j.Str? && j.text != Other("") ==> j.text.V2? && j.text.keyId == ring.activeId
  }

  predicate NoText(j: Json) { j.Str? ==> j.text == Other("") }

  /** Every sealed text that the value holds names the active key, and no legacy credential is left. */
  predicate AllCurrent(ring: Ring, leg: Leg, value: Json) {
    if leg.kind.Sealed? then NamesActive(ring, value)
    else
      var ai, email := FieldAt(value, "ai"), FieldAt(value, "email");
      && NamesActive(ring, FieldAt(ai, "keyEncrypted"))
      && NamesActive(ring, FieldAt(FieldAt(ai, "documentCapture"), "keyEncrypted"))
      && NamesActive(ring, FieldAt(email, "keySealed"))
      && NoText(FieldAt(email, "keyCiphertext")) && NoText(FieldAt(email, "keyNonce"))
  }

  lemma PlannedIsCurrent(ring: Ring, o: Fields, field: string, scope: Scope, nonce: nat)
    requires RotateField(ring, o, field, scope, nonce) == Rotated(o, false)
    ensures NamesActive(ring, Get(o, field))
  {
    hide Unseal, Seal;
    var s := OrgSettings.Sealed(o, field);
    assert !PlanReseal(ring, s, scope, nonce).Reseal?;
  }

  lemma FieldUnchanged(ring: Ring, o: Fields, field: string, scope: Scope, nonce: nat)
    requires RotateField(ring, o, field, scope, nonce).Rotated? && !RotateField(ring, o, field, scope, nonce).changed
    ensures RotateField(ring, o, field, scope, nonce).fields == o && NamesActive(ring, Get(o, field))
  {
    hide Unseal, Seal, NamesActive;
    PlannedIsCurrent(ring, o, field, scope, nonce);
  }

  lemma AiUnchanged(ring: Ring, org: string, ai: Json, ns: Nonces)
    requires ai.Obj? && RotateAi(ring, org, ai.fields, ns).Rotated? && !RotateAi(ring, org, ai.fields, ns).changed
    ensures NamesActive(ring, FieldAt(ai, "keyEncrypted"))
    ensures NamesActive(ring, FieldAt(FieldAt(ai, "documentCapture"), "keyEncrypted"))
  {
    hide RotateField, NamesActive;
    FieldUnchanged(ring, ai.fields, "keyEncrypted", AiScope(org), ns.ai);
    NothingStored(ring);
    var capture := Get(ai.fields, "documentCapture");
    if capture.Obj? {
      FieldUnchanged(ring, capture.fields, "keyEncrypted", CaptureScope(org), ns.capture);
    }
  }

  lemma EmailUnchanged(ring: Ring, legacy: LegacyReader, org: string, email: Json, ns: Nonces)
    requires email.Obj? && RotateEmail(ring, legacy, org, email.fields, ns).Rotated?
    requires !RotateEmail(ring, legacy, org, email.fields, ns).changed
    ensures NamesActive(ring, FieldAt(email, "keySealed"))
    ensures NoText(FieldAt(email, "keyCiphertext")) && NoText(FieldAt(email, "keyNonce"))
  {
    hide RotateField, NamesActive, Seal;
    FieldUnchanged(ring, email.fields, "keySealed", EmailScope(org), ns.email);
    NothingStored(ring);
  }

  /** A document that needs no change holds nothing else. */
  lemma UnchangedIsCurrent(k: Keys, leg: Leg, org: string, value: Json, ns: Nonces)
    requires leg.kind.Document? && Rotate(k.ring, k.legacy, org, FieldsOf(value), ns).Rotated?
    requires !Rotate(k.ring, k.legacy, org, FieldsOf(value), ns).changed
    ensures AllCurrent(k.ring, leg, value)
  {
    hide RotateAi, RotateEmail, Rotate, NamesActive, NoText;
    NothingStored(k.ring);
    if value.Obj? {
      var doc := value.fields;
      PartApart(k.ring, k.legacy, org, doc, ns);
      var ai, email := Get(doc, "ai"), Get(doc, "email");
      if ai.Obj? {
        AiUnchanged(k.ring, org, ai, ns);
      }
      if email.Obj? {
        EmailUnchanged(k.ring, k.legacy, org, email, ns);
      }
    }
  }

  lemma NothingStored(ring: Ring)
    ensures NamesActive(ring, Null) && NoText(Null)
  {
  }

  /** What is settled is current, field by field. */
  lemma SettledIsCurrent(k: Keys, leg: Leg, id: Id, rec: Record)
    requires Settled(k, leg, id, rec) && !leg.kind.Snapshot?
    ensures AllCurrent(k.ring, leg, rec.value)
  {
    hide Rotate, Unseal, Seal;
    if leg.kind.Document? {
      UnchangedIsCurrent(k, leg, rec.owner, rec.value, k.nonces(id));
    }
  }

  /** After rotation every sealed text of the row names the active key, and no legacy credential is left. */
  lemma RowIsCurrent(k: Keys, leg: Leg, id: Id, rec: Record)
    requires !PlanRow(k, leg, id, rec).Fail? && !Loses(k, leg, rec) && !leg.kind.Snapshot?
    ensures AllCurrent(k.ring, leg, RotatedRow(k, leg, id, rec).value)
  {
    hide Secrets, PlanRow, Loses, RotatedRow, AllCurrent;
    RowKept(k, leg, id, rec, k.ring, k);
    SettledIsCurrent(k, leg, id, RotatedRow(k, leg, id, rec));
  }

  /** There is nothing to seal again in the row. */
  predicate Settled(k: Keys, leg: Leg, id: Id, rec: Record) {
    var p := PlanRow(k, leg, id, rec); p.Keep? || p.Skip?
  }

  /** A settled row opens under the active key alone to what it opens to under all. */
  lemma SettledOpensAlone(k: Keys, leg: Leg, id: Id, rec: Record)
    requires Settled(k, leg, id, rec) && !Loses(k, leg, rec)
    ensures Secrets(OnlyActive(k.ring), k, leg, rec) == Secrets(k.ring, k, leg, rec)
  {
    hide Secrets, PlanRow, Loses;
    RowKept(k, leg, id, rec, OnlyActive(k.ring), k);
  }

  /** The randomness of the seals does not decide what is planned, nor does anything but value and owner. */
  lemma PlanIgnoresNonces(k: Keys, k': Keys, leg: Leg, id: Id, rec: Record, rec': Record)
    requires SameKeys(k, k') && !leg.kind.Snapshot? && rec.value == rec'.value && rec.owner == rec'.owner
    requires Settled(k, leg, id, rec)
    ensures Settled(k', leg, id, rec')
  {
    hide Rotate, Unseal, Seal;
    if leg.kind.Document? {
      ChangeIgnoresNonces(k.ring, k.legacy, rec.owner, FieldsOf(rec.value), k.nonces(id), k'.nonces(id));
    }
  }

  /** The row holds a secret that does not open, or a snapshot that cannot be proved. */
  predicate RowBlocked(k: Keys, leg: Leg, rec: Record) {
    match leg.kind
    case Sealed(purpose, _) =>
      var text := KeyRotation.TextOf(rec.value);
      text != Other("") && Unseal(k.ring, text, Scope(rec.owner, purpose)).Unreadable?
    case Document =>
      var doc := FieldsOf(rec.value);
      || Blocked(k.ring, Ai(doc), "keyEncrypted", AiScope(rec.owner))
      || Blocked(k.ring, Capture(doc), "keyEncrypted", CaptureScope(rec.owner))
      || Blocked(k.ring, Email(doc), "keySealed", EmailScope(rec.owner))
      || (HasLegacy(Email(doc)) && LegacyPlain(k.legacy, Email(doc)).Unreadable?)
    case Snapshot => k.fingerprint(rec.value).Unprovable?
  }

  lemma RowFailsIff(k: Keys, leg: Leg, id: Id, rec: Record)
    ensures PlanRow(k, leg, id, rec).Fail? <==> RowBlocked(k, leg, rec)
  {
    hide Rotate, Blocked, HasLegacy, LegacyPlain, Ai, Capture, Email;
    if leg.kind.Document? {
      RefusedIff(k.ring, k.legacy, rec.owner, FieldsOf(rec.value), k.nonces(id));
    }
  }

  /** What stops the plan of a leg: a row of the tenant that holds a secret which is there and does not open. */
  lemma HinderedIff(k: Keys, leg: Leg, rows: Rows, org: string)
    ensures Hindered(k, leg, rows, org) <==>
      exists id :: id in rows && InScope(rows[id], org) && RowBlocked(k, leg, rows[id])
  {
    hide PlanRow, RowBlocked, Selected;
    forall id
      ensures id in Selected(rows, leg, org) ==>
        id in rows && InScope(rows[id], org) && (PlanRow(k, leg, id, rows[id]).Fail? <==> RowBlocked(k, leg, rows[id]))
      ensures id in rows && InScope(rows[id], org) && id !in Selected(rows, leg, org) ==> !RowBlocked(k, leg, rows[id])
    {
      SelectedIff(rows, leg, org, id);
      if id in rows {
        RowFailsIff(k, leg, id, rows[id]);
        NullBlocksNothing(k, leg, rows[id]);
      }
    }
  }

  lemma NullBlocksNothing(k: Keys, leg: Leg, rec: Record)
    ensures leg.kind.Sealed? && rec.value.Null? ==>
      !RowBlocked(k, leg, rec) && forall r: Ring :: Secrets(r, k, leg, rec) == [Unreadable]
  {
  }

  /** What no key of the ring opens, the active one does not. */
  lemma AloneOpensNoMore(k: Keys, leg: Leg, rec: Record)
    requires leg.kind.Sealed? && Secrets(k.ring, k, leg, rec) == [Unreadable]
    ensures Secrets(OnlyActive(k.ring), k, leg, rec) == [Unreadable]
  {
    var active := k.ring.keys[k.ring.activeId];
    assert active in k.ring.keys.Values;
  }

  predicate NoneLost(k: Keys, leg: Leg, rows: Rows) { forall id :: id in rows ==> !Loses(k, leg, rows[id]) }

  lemma RotatedTableRow(k: Keys, leg: Leg, rows: Rows, org: string, id: Id)
    requires !leg.byParty && id in rows
    ensures id in RotatedTable(k, leg, rows, org)
    ensures RotatedTable(k, leg, rows, org)[id] ==
      if id in Selected(rows, leg, org) then RotatedRow(k, leg, id, rows[id]) else rows[id]
  {
    hide PlanRow, Selected;
    if IsPlanned(k, leg, rows, org, id) {
      PlannedOverRead(k, leg, id, rows[id]);
    }
  }

  /**
   * After a completed leg by id that nobody disturbed, the other keys can be
   * retired: every row of the tenant (or of all) opens under the active key
   * alone to what it opened to under the full ring, and the next run plans no
   * write at all.
   */
  lemma RetiringIsSafe(k: Keys, leg: Leg, rows: Rows, org: string, again: Keys)
    requires !Hindered(k, leg, rows, org) && NoneLost(k, leg, rows)
    requires SameKeys(k, again) && !leg.kind.Snapshot? && !leg.byParty
    ensures var after := RotatedTable(k, leg, rows, org);
      && after.Keys == rows.Keys
      && (forall id :: id in rows && InScope(rows[id], org) ==>
            Secrets(OnlyActive(k.ring), k, leg, after[id]) == Secrets(k.ring, k, leg, rows[id]))
      && Writes(again, leg, after, Selected(rows, leg, org)) == {}
      && !Hindered(again, leg, after, org)
  {
    hide PlanRow, Secrets, Loses, Selected, RotatedTable;
    var after := RotatedTable(k, leg, rows, org);
    SameIds(k, leg, rows, org);
    SelectedExist(rows, leg, org);
    forall id | id in Selected(rows, leg, org)
      ensures Secrets(OnlyActive(k.ring), k, leg, after[id]) == Secrets(k.ring, k, leg, rows[id])
      ensures PlanRow(again, leg, id, after[id]).Keep? || PlanRow(again, leg, id, after[id]).Skip?
    {
      RotatedTableRow(k, leg, rows, org, id);
      RowKept(k, leg, id, rows[id], OnlyActive(k.ring), again);
    }
    forall id | id in rows && InScope(rows[id], org)
      ensures Secrets(OnlyActive(k.ring), k, leg, after[id]) == Secrets(k.ring, k, leg, rows[id])
    {
      SelectedIff(rows, leg, org, id);
      if id !in Selected(rows, leg, org) {
        RotatedTableRow(k, leg, rows, org, id);
        NullBlocksNothing(k, leg, rows[id]);
      }
    }
    SelectionStays(k, leg, rows, org);
  }

  lemma SameIds(k: Keys, leg: Leg, rows: Rows, org: string)
    ensures RotatedTable(k, leg, rows, org).Keys == rows.Keys
  {
    hide PlanRow, Selected;
  }

  /** Rotation selects no row that it did not select before. */
  lemma SelectionStays(k: Keys, leg: Leg, rows: Rows, org: string)
    requires !leg.byParty
    ensures Selected(RotatedTable(k, leg, rows, org), leg, org) <= Selected(rows, leg, org) || leg.kind.Snapshot?
  {
    hide PlanRow;
    var after := RotatedTable(k, leg, rows, org);
    forall id | id in Selected(after, leg, org) && !leg.kind.Snapshot? ensures id in Selected(rows, leg, org) {
    }
  }

  // ---------------------------------------------------------------------
  // Many runs, and concurrent editors
  // ---------------------------------------------------------------------

  /** One run over a table: complete, or interrupted or refused before its transaction ended. */
  predicate RunStep(k: Keys, leg: Leg, org: string, before: Rows, after: Rows) {
    after == before || (!Hindered(k, leg, before, org) && after == RotatedTable(k, leg, before, org))
  }

  ghost predicate AreRuns(ks: seq<Keys>, leg: Leg, org: string, history: seq<Rows>) {
    && |history| == |ks| + 1
    && (forall i :: 0 <= i < |ks| ==> SameKeys(ks[0], ks[i]) && RunStep(ks[i], leg, org, history[i], history[i + 1]))
  }

  lemma StepKeeps(k: Keys, leg: Leg, org: string, before: Rows, after: Rows, as': Keys)
    requires !leg.byParty && RunStep(k, leg, org, before, after) && NoneLost(as', leg, before) && SameKeys(as', k)
    ensures after.Keys == before.Keys && NoneLost(as', leg, after)
    ensures forall id :: id in before ==> Secrets(k.ring, as', leg, after[id]) == Secrets(k.ring, as', leg, before[id])
  {
    hide PlanRow, Secrets, Loses, Selected, RotatedTable;
    if after != before {
      SameIds(k, leg, before, org);
      forall id | id in before
        ensures Secrets(k.ring, as', leg, after[id]) == Secrets(k.ring, as', leg, before[id])
        ensures !Loses(as', leg, after[id])
      {
        RotatedTableRow(k, leg, before, org, id);
        SameLoss(k, as', leg, before[id]);
        if id in Selected(before, leg, org) {
          RowKept(k, leg, id, before[id], k.ring, k);
          SameLoss(k, as', leg, after[id]);
        }
      }
    }
  }

  lemma SameLoss(a: Keys, b: Keys, leg: Leg, rec: Record)
    requires SameKeys(a, b)
    ensures Loses(a, leg, rec) <==> Loses(b, leg, rec)
    ensures forall r: Ring :: Secrets(r, a, leg, rec) == Secrets(r, b, leg, rec)
  {
  }

  /**
   * However many runs were interrupted or refused, and whatever randomness
   * each used, every secret still opens to what it did at the start.
   */
  lemma {:induction false} InterruptedRunsKeepSecrets(ks: seq<Keys>, leg: Leg, org: string, history: seq<Rows>)
    requires !leg.byParty && ks != [] && AreRuns(ks, leg, org, history) && NoneLost(ks[0], leg, history[0])
    ensures var last := history[|ks|];
      && last.Keys == history[0].Keys && NoneLost(ks[0], leg, last)
      && forall id :: id in last ==> Secrets(ks[0].ring, ks[0], leg, last[id]) == Secrets(ks[0].ring, ks[0], leg, history[0][id])
    decreases |ks|
  {
    hide Secrets, NoneLost, RunStep;
    var n := |ks| - 1;
    assert SameKeys(ks[0], ks[n]);
    if n > 0 {
      InterruptedRunsKeepSecrets(ks[..n], leg, org, history[..n + 1]);
    }
    StepKeeps(ks[n], leg, org, history[n], history[n + 1], ks[0]);
  }

  /**
   * ... and when the last run completes, the other keys can be retired.
   */
  lemma InterruptedThenComplete(ks: seq<Keys>, leg: Leg, org: string, history: seq<Rows>)
    requires ks != [] && AreRuns(ks, leg, org, history) && NoneLost(ks[0], leg, history[0])
    requires !leg.kind.Snapshot? && !leg.byParty
    requires var n := |ks| - 1;
      !Hindered(ks[n], leg, history[n], org) && history[n + 1] == RotatedTable(ks[n], leg, history[n], org)
    ensures forall id :: id in history[|ks| - 1] && InScope(history[|ks| - 1][id], org) ==>
      && id in history[|ks|] && id in history[0]
      && Secrets(OnlyActive(ks[0].ring), ks[0], leg, history[|ks|][id]) == Secrets(ks[0].ring, ks[0], leg, history[0][id])
  {
    hide Secrets, NoneLost, RunStep, RotatedTable, Hindered, Selected;
    var n := |ks| - 1;
    assert SameKeys(ks[0], ks[n]);
    if n > 0 {
      InterruptedRunsKeepSecrets(ks[..n], leg, org, history[..n + 1]);
    }
    LossesMatch(ks[0], ks[n], leg, history[n]);
    RetiringIsSafe(ks[n], leg, history[n], org, ks[n]);
    SelectedExist(history[n], leg, org);
    forall id | id in history[n] && InScope(history[n][id], org)
      ensures Secrets(OnlyActive(ks[0].ring), ks[0], leg, history[n + 1][id])
        == Secrets(ks[0].ring, ks[0], leg, history[0][id])
    {
      SameLoss(ks[0], ks[n], leg, history[n][id]);
      SameLoss(ks[0], ks[n], leg, history[n + 1][id]);
    }
  }

  lemma LossesMatch(a: Keys, b: Keys, leg: Leg, rows: Rows)
    requires SameKeys(a, b) && NoneLost(a, leg, rows)
    ensures NoneLost(b, leg, rows)
  {
    forall id | id in rows ensures !Loses(b, leg, rows[id]) {
      SameLoss(a, b, leg, rows[id]);
    }
  }

  /** A leg that nobody disturbed is such a step, whether it completes or not. */
  lemma LegIsStep(edits: Edits, journal: seq<Commit>, n: nat, from: seq<Rows>, to: seq<Rows>, t: nat,
                  r: LegResult, k: Keys, leg: Leg, org: string, apply: bool)
    requires Calm(edits) && LegDone(edits, journal, n, from, to, t, r, k, leg, org, apply)
    ensures RunStep(k, leg, org, from[t], to[t])
    ensures forall u :: 0 <= u < |from| && u != t ==> u < |to| && to[u] == from[u]
  {
    hide Hindered, AllMeet, LegCommit, RotatedTable, ReportOf, Calm, Chained;
    CalmLeg(edits, journal, n, from, to, t, r, k, leg, org, apply);
  }

  lemma WrittenText(k: Keys, leg: Leg, id: Id, rec: Record)
    requires PlanRow(k, leg, id, rec).Write? && leg.kind.Sealed?
    ensures PlanRow(k, leg, id, rec).now.Str?
  {
  }

  /** Only the value and the owner of a row matter to its secrets. */
  lemma ValueIsAll(k: Keys, leg: Leg, a: Record, b: Record)
    requires a.value == b.value && a.owner == b.owner
    ensures Secrets(k.ring, k, leg, a) == Secrets(k.ring, k, leg, b) && (Loses(k, leg, a) <==> Loses(k, leg, b))
  {
  }

  /**
   * One row through a commit of the rotation, by id: if it changes at all, it
   * still held the value that was read; only its value changes; and every
   * secret of it stays.
   */
  lemma CommitKeepsRow(c: Commit, t: nat, k: Keys, leg: Leg, read: Rows, org: string, id: Id)
    requires !leg.byParty && LegCommit(c, t, k, leg, read, org) && id in c.before[t]
    requires id in read ==> c.before[t][id].owner == read[id].owner && !Loses(k, leg, read[id])
    ensures id in c.after[t]
    ensures var was, now := c.before[t][id], c.after[t][id];
      && (now != was ==> id in read && was.value == read[id].value && now == was.(value := now.value))
      && Secrets(k.ring, k, leg, now) == Secrets(k.ring, k, leg, was)
      && (!Loses(k, leg, was) ==> !Loses(k, leg, now))
      && (leg.kind.Sealed? && now.value.Null? ==> was.value.Null?)
  {
    hide Secrets, Loses, PlanRow, HitsSome, HitsOne, Selected;
    var was, now := c.before[t][id], c.after[t][id];
    if now != was {
      assert IsPlanned(k, leg, read, org, id) && Hit(c.after[t], c.before[t], leg, WriteOf(k, leg, read, org, id), id);
      SelectedExist(read, leg, org);
      PlannedOverRead(k, leg, id, read[id]);
      if leg.kind.Sealed? {
        WrittenText(k, leg, id, read[id]);
      }
      RowKept(k, leg, id, read[id], k.ring, k);
      ValueIsAll(k, leg, RotatedRow(k, leg, id, read[id]), now);
      ValueIsAll(k, leg, read[id], was);
    }
  }

  /**
   * No lost update: among any editors, a leg by id commits at most once, last
   * of all, and not if it refuses; its commit touches no other table, and no
   * row of its own table that does not hold the value read; and what it
   * changes keeps its secrets. Whatever the editors did otherwise stands.
   */
  lemma NoLostUpdate(edits: Edits, journal: seq<Commit>, n: nat, from: seq<Rows>, to: seq<Rows>, t: nat,
                     r: LegResult, k: Keys, leg: Leg, org: string, apply: bool, j: nat, id: Id)
    requires !leg.byParty && LegDone(edits, journal, n, from, to, t, r, k, leg, org, apply)
    requires n <= j < |journal| && journal[j].Ours? && t < |journal[j].before| && id in journal[j].before[t]
    requires id in from[t] ==> journal[j].before[t][id].owner == from[t][id].owner && !Loses(k, leg, from[t][id])
    ensures r.Reported? && apply && j == |journal| - 1
    ensures var c := journal[j];
      && c.after == c.before[t := c.after[t]] && id in c.after[t]
      && (c.after[t][id] != c.before[t][id] ==>
            && id in from[t] && c.before[t][id].value == from[t][id].value
            && c.after[t][id] == c.before[t][id].(value := c.after[t][id].value))
      && Secrets(k.ring, k, leg, c.after[t][id]) == Secrets(k.ring, k, leg, c.before[t][id])
  {
    hide Secrets, Loses, Hindered, AllMeet, LegCommit, ReportOf, Calm, Chained;
    OneCommit(journal, n, j);
    if r.Reported? && apply && r.report.resealed > 0 {
      CommitParts(journal[j], t, k, leg, from[t], org);
      CommitKeepsRow(journal[j], t, k, leg, from[t], org, id);
    }
  }

  lemma OneCommit(journal: seq<Commit>, n: nat, j: nat)
    requires n <= j < |journal| && journal[j].Ours?
    ensures !AllTheirs(journal, n)
    ensures OursLast(journal, n) ==> j == |journal| - 1
  {
    assert j < |journal| - 1 ==> journal[..|journal| - 1][j] == journal[j];
  }

  lemma CommitParts(c: Commit, t: nat, k: Keys, leg: Leg, read: Rows, org: string)
    requires LegCommit(c, t, k, leg, read, org)
    ensures t < |c.before| && t < |c.after| && c.after == c.before[t := c.after[t]]
  {
  }

  // ---------------------------------------------------------------------
  // Vendor roles
  // ---------------------------------------------------------------------

  /** Exactly one row stands, as a party, for the id `q`, and holds the same value as the row `q`. */
  ghost predicate HasOneStandIn(rows: Rows, q: Id) {
    q in rows && exists s: Id :: StandsIn(rows, q, s) && forall s': Id :: StandsIn(rows, q, s') ==> s' == s
  }

  predicate StandsIn(rows: Rows, q: Id, s: Id) {
    q in rows && s in rows && rows[s].party == q && rows[s].value == rows[q].value
  }

  lemma MeetsIsStandIn(k: Keys, leg: Leg, rows: Rows, org: string, q: Id)
    requires leg.byParty && IsPlanned(k, leg, rows, org, q)
    ensures MeetsOne(rows, leg, WriteOf(k, leg, rows, org, q)) <==> HasOneStandIn(rows, q)
  {
    hide PlanRow;
    PlannedOverRead(k, leg, q, rows[q]);
    var found := Matched(rows, leg, WriteOf(k, leg, rows, org, q));
    assert forall s: Id :: s in found <==> StandsIn(rows, q, s);
    if |found| == 1 {
      var s := OnlyMember(found);
      assert StandsIn(rows, q, s);
    }
    if HasOneStandIn(rows, q) {
      var s: Id :| StandsIn(rows, q, s) && forall s': Id :: StandsIn(rows, q, s') ==> s' == s;
      assert found == {s};
    }
  }

  /**
   * Vendor roles are read by id and written back by party. When nobody else
   * edits, the applied leg completes exactly if every selected row opens and
   * every row to be sealed again has exactly one stand-in: a row whose party
   * is that id, and which holds the same value. The stand-ins are what it
   * writes; otherwise nothing changes.
   */
  lemma VendorLegIff(edits: Edits, journal: seq<Commit>, n: nat, from: seq<Rows>, to: seq<Rows>, t: nat,
                     r: LegResult, k: Keys, leg: Leg, org: string)
    requires Calm(edits) && leg.byParty && LegDone(edits, journal, n, from, to, t, r, k, leg, org, true)
    ensures r.Reported? <==>
      && !Hindered(k, leg, from[t], org)
      && forall q :: IsPlanned(k, leg, from[t], org, q) ==> HasOneStandIn(from[t], q)
    ensures r.RefusedLeg? ==> to == from
    ensures r.Reported? ==>
      && to == from[t := to[t]] && to[t].Keys == from[t].Keys
      && forall s :: s in from[t] ==>
           to[t][s] == if IsPlanned(k, leg, from[t], org, from[t][s].party) && StandsIn(from[t], from[t][s].party, s)
                       then from[t][s].(value := WriteOf(k, leg, from[t], org, from[t][s].party).now) else from[t][s]
  {
    hide Hindered, AllMeet, LegCommit, ReportOf, Calm, Chained, IsPlanned, WriteOf, HasOneStandIn, MeetsOne, StandsIn, RotatedTable;
    CalmLeg(edits, journal, n, from, to, t, r, k, leg, org, true);
    VendorMeets(k, leg, from[t], org);
    if r.Reported? {
      forall s | s in from[t]
        ensures s in RotatedTable(k, leg, from[t], org)
        ensures RotatedTable(k, leg, from[t], org)[s] ==
          if IsPlanned(k, leg, from[t], org, from[t][s].party) && StandsIn(from[t], from[t][s].party, s)
          then from[t][s].(value := WriteOf(k, leg, from[t], org, from[t][s].party).now) else from[t][s]
      {
        StandInRow(k, leg, from[t], org, s);
      }
      SameIds(k, leg, from[t], org);
    }
  }

  lemma StandInRow(k: Keys, leg: Leg, rows: Rows, org: string, s: Id)
    requires leg.byParty && s in rows
    ensures s in RotatedTable(k, leg, rows, org)
    ensures RotatedTable(k, leg, rows, org)[s] ==
      if IsPlanned(k, leg, rows, org, rows[s].party) && StandsIn(rows, rows[s].party, s)
      then rows[s].(value := WriteOf(k, leg, rows, org, rows[s].party).now) else rows[s]
  {
    hide PlanRow;
    if IsPlanned(k, leg, rows, org, rows[s].party) {
      PlannedOverRead(k, leg, rows[s].party, rows[rows[s].party]);
    }
  }

  lemma VendorMeets(k: Keys, leg: Leg, rows: Rows, org: string)
    requires leg.byParty
    ensures AllMeet(rows, k, leg, rows, org) <==> forall q :: IsPlanned(k, leg, rows, org, q) ==> HasOneStandIn(rows, q)
  {
    hide PlanRow, HasOneStandIn, MeetsOne, Selected, WriteOf;
    forall q | IsPlanned(k, leg, rows, org, q)
      ensures q in Selected(rows, leg, org)
      ensures MeetsOne(rows, leg, WriteOf(k, leg, rows, org, q)) <==> HasOneStandIn(rows, q)
    {
      MeetsIsStandIn(k, leg, rows, org, q);
    }
  }

  /** Where no party shares an id with a role, the vendor leg completes only if it has nothing to seal again. */
  lemma VendorLegStops(edits: Edits, journal: seq<Commit>, n: nat, from: seq<Rows>, to: seq<Rows>, t: nat,
                       r: LegResult, k: Keys, leg: Leg, org: string)
    requires Calm(edits) && leg.byParty && LegDone(edits, journal, n, from, to, t, r, k, leg, org, true)
    requires forall s, q :: s in from[t] && q in from[t] ==> from[t][s].party != q
    ensures r.Reported? <==> !Hindered(k, leg, from[t], org) && ReportOf(k, leg, from[t], org).resealed == 0
    ensures to == from
  {
    hide Hindered, AllMeet, LegCommit, Calm, Chained, PlanRow;
    VendorLegIff(edits, journal, n, from, to, t, r, k, leg, org);
    CalmLeg(edits, journal, n, from, to, t, r, k, leg, org, true);
    if ReportOf(k, leg, from[t], org).resealed == 0 {
      NothingPlanned(k, leg, from[t], org);
    } else {
      var q := SomePlanned(k, leg, from[t], org);
    }
  }

  lemma SomePlanned(k: Keys, leg: Leg, rows: Rows, org: string) returns (q: Id)
    requires ReportOf(k, leg, rows, org).resealed > 0
    ensures IsPlanned(k, leg, rows, org, q)
  {
    hide PlanRow;
    var ids := Writes(k, leg, rows, Selected(rows, leg, org));
    assert ids != {};
    q :| q in ids;
  }
}
