/** Sealing again the secrets inside one organization's settings document. */
module OrgSettings {
  import opened Text
  import opened SealedBlobs

  datatype Json =
    | Null
    | Scalar(n: int)
    | Str(text: Stored)
    | Arr(items: seq<Json>)
    | Obj(fields: Fields)

  type Fields = map<string, Json>

  /** An array spread into an object: its indices become field names. */
  function Spread(items: seq<Json>): Fields {
    if items == [] then map[] else Spread(items[..|items| - 1])[Digits(|items| - 1) := items[|items| - 1]]
  }

  /** No word is the name of a spread array's field. */
  lemma {:induction false} SpreadHasDigits(items: seq<Json>, field: string)
    requires field == "" || !IsDigit(field[0])
    ensures field !in Spread(items)
    decreases |items|
  {
    if items != [] {
      SpreadHasDigits(items[..|items| - 1], field);
      DigitsAreDigits(|items| - 1);
    }
  }

  datatype Copy = NoObject | Copied(fields: Fields)

  /** A shallow copy of an object (or array); anything else is none. */
  function CopyOf(j: Json): Copy {
    match j
    case Obj(fields) => Copied(fields)
    case Arr(items) => Copied(Spread(items))
    case _ => NoObject
  }

  function Get(o: Fields, field: string): Json { if field in o then o[field] else Null }

  /** The sealed text of a field, or the empty text. */
  function Sealed(o: Fields, field: string): Stored {
    var v := Get(o, field); if v.Str? then v.text else Other("")
  }

  datatype Rotation = Rotated(fields: Fields, changed: bool) | Refused

  /** The randomness of the seals one document may need. */
  datatype Nonces = Nonces(ai: nat, capture: nat, email: nat, legacy: nat)

  /** Opens a credential sealed before the data key: ciphertext and nonce. */
  type LegacyReader = (Stored, Stored) -> Opened

  // ---------------------------------------------------------------------
  // The specification
  // ---------------------------------------------------------------------

  /** One sealed field of an object. */
  function RotateField(ring: Ring, o: Fields, field: string, scope: Scope, nonce: nat): Rotation {
    match PlanReseal(ring, Sealed(o, field), scope, nonce)
    case Unopened => Refused
    case Reseal(sealed) => Rotated(o[field := Str(sealed)], true)
    case _ => Rotated(o, false)
  }

  function RotateCapture(ring: Ring, org: string, ai: Fields, nonce: nat): Rotation {
    match CopyOf(Get(ai, "documentCapture"))
    case NoObject => Rotated(ai, false)
    case Copied(capture) =>
      match RotateField(ring, capture, "keyEncrypted", Scope(org, "payables.ap-capture.key"), nonce)
      case Refused => Refused
      case Rotated(next, changed) => Rotated(ai["documentCapture" := Obj(next)], changed)
  }

  function RotateAi(ring: Ring, org: string, ai: Fields, ns: Nonces): Rotation {
    match RotateField(ring, ai, "keyEncrypted", Scope(org, "assistant.ai.key"), ns.ai)
    case Refused => Refused
    case Rotated(first, changed) =>
      match RotateCapture(ring, org, first, ns.capture)
      case Refused => Refused
      case Rotated(next, also) => Rotated(next, changed || also)
  }

  predicate HasLegacy(email: Fields) {
    Sealed(email, "keyCiphertext") != Other("") || Sealed(email, "keyNonce") != Other("")
  }

  /** The plaintext of the legacy pair, if it is complete and opens. */
  function LegacyPlain(legacy: LegacyReader, email: Fields): Opened {
    var ct, nonce := Sealed(email, "keyCiphertext"), Sealed(email, "keyNonce");
    if ct == Other("") || nonce == Other("") then Unreadable else legacy(ct, nonce)
  }

  function MoveLegacy(ring: Ring, legacy: LegacyReader, org: string, email: Fields, nonce: nat): Rotation {
    if !HasLegacy(email) then Rotated(email, false)
    else
      match LegacyPlain(legacy, email)
      case Unreadable => Refused
      case Plain(plain) =>
        var sealed := Seal(ring, plain, Scope(org, "email.provider.secret"), nonce);
        Rotated(email["keySealed" := Str(sealed)] - {"keyCiphertext", "keyNonce"}, true)
  }

  function RotateEmail(ring: Ring, legacy: LegacyReader, org: string, email: Fields, ns: Nonces): Rotation {
    match RotateField(ring, email, "keySealed", Scope(org, "email.provider.secret"), ns.email)
    case Refused => Refused
    case Rotated(first, changed) =>
      match MoveLegacy(ring, legacy, org, first, ns.legacy)
      case Refused => Refused
      case Rotated(next, also) => Rotated(next, changed || also)
  }

  datatype Part = AiPart | EmailPart

  function FieldOf(part: Part): string { if part.AiPart? then "ai" else "email" }

  function RotateCopy(ring: Ring, legacy: LegacyReader, org: string, part: Part, copy: Fields, ns: Nonces): Rotation {
    match part
    case AiPart => RotateAi(ring, org, copy, ns)
    case EmailPart => RotateEmail(ring, legacy, org, copy, ns)
  }

  /** One of the two parts of the document that hold secrets. */
  function RotatePart(ring: Ring, legacy: LegacyReader, org: string, part: Part, doc: Fields, ns: Nonces): Rotation {
    match CopyOf(Get(doc, FieldOf(part)))
    case NoObject => Rotated(doc, false)
    case Copied(copy) =>
      match RotateCopy(ring, legacy, org, part, copy, ns)
      case Refused => Refused
      case Rotated(next, changed) => Rotated(doc[FieldOf(part) := Obj(next)], changed)
  }

  function Rotate(ring: Ring, legacy: LegacyReader, org: string, settings: Fields, ns: Nonces): Rotation {
    match RotatePart(ring, legacy, org, AiPart, settings, ns)
    case Refused => Refused
    case Rotated(first, changed) =>
      match RotatePart(ring, legacy, org, EmailPart, first, ns)
      case Refused => Refused
      case Rotated(next, also) => Rotated(next, changed || also)
  }

  // ---------------------------------------------------------------------
  // The operation
  // ---------------------------------------------------------------------

  method RotateAiObject(ring: Ring, org: string, ai: Fields, ns: Nonces) returns (r: Rotation)
    ensures r == RotateAi(ring, org, ai, ns)
  {
    hide Unseal, Seal;
    var o, changed := ai, false;
    if Sealed(o, "keyEncrypted") != Other("") {
      var planned := PlanReseal(ring, Sealed(o, "keyEncrypted"), Scope(org, "assistant.ai.key"), ns.ai);
      if planned.Unopened? { return Refused; }
      if planned.Reseal? {
        o := o["keyEncrypted" := Str(planned.sealed)];
        changed := true;
      }
    }
    var capture := CopyOf(Get(o, "documentCapture"));
    if capture.Copied? {
      var c := capture.fields;
      if Sealed(c, "keyEncrypted") != Other("") {
        var planned := PlanReseal(ring, Sealed(c, "keyEncrypted"), Scope(org, "payables.ap-capture.key"), ns.capture);
        if planned.Unopened? { return Refused; }
        if planned.Reseal? {
          c := c["keyEncrypted" := Str(planned.sealed)];
          changed := true;
        }
      }
      o := o["documentCapture" := Obj(c)];
    }
    return Rotated(o, changed);
  }

  method RotateEmailObject(ring: Ring, legacy: LegacyReader, org: string, email: Fields, ns: Nonces)
    returns (r: Rotation)
    ensures r == RotateEmail(ring, legacy, org, email, ns)
  {
    hide Unseal, Seal;
    var e, changed := email, false;
    if Sealed(e, "keySealed") != Other("") {
      var planned := PlanReseal(ring, Sealed(e, "keySealed"), Scope(org, "email.provider.secret"), ns.email);
      if planned.Unopened? { return Refused; }
      if planned.Reseal? {
        e := e["keySealed" := Str(planned.sealed)];
        changed := true;
      }
    }
    var legacyCt, legacyNonce := Sealed(e, "keyCiphertext"), Sealed(e, "keyNonce");
    if legacyCt != Other("") || legacyNonce != Other("") {
      if legacyCt == Other("") || legacyNonce == Other("") { return Refused; }
      var plain := legacy(legacyCt, legacyNonce);
      if plain.Unreadable? { return Refused; }
      e := e["keySealed" := Str(Seal(ring, plain.text, Scope(org, "email.provider.secret"), ns.legacy))];
      e := e - {"keyCiphertext"} - {"keyNonce"};
      changed := true;
    }
    return Rotated(e, changed);
  }

  method RotateOrgSettings(ring: Ring, legacy: LegacyReader, org: string, settings: Fields, ns: Nonces)
    returns (r: Rotation)
    ensures r == Rotate(ring, legacy, org, settings, ns)
  {
    hide RotateAi, RotateEmail;
    var next, changed := settings, false;
    var ai := CopyOf(Get(next, "ai"));
    if ai.Copied? {
      var o := RotateAiObject(ring, org, ai.fields, ns);
      if o.Refused? { return Refused; }
      changed := changed || o.changed;
      next := next["ai" := Obj(o.fields)];
    }
    assert RotatePart(ring, legacy, org, AiPart, settings, ns) == Rotated(next, changed);
    var email := CopyOf(Get(next, "email"));
    if email.Copied? {
      var e := RotateEmailObject(ring, legacy, org, email.fields, ns);
      if e.Refused? { return Refused; }
      changed := changed || e.changed;
      next := next["email" := Obj(e.fields)];
    }
    return Rotated(next, changed);
  }

  // ---------------------------------------------------------------------
  // What rotation keeps
  // ---------------------------------------------------------------------

  /** Two objects agree on every field but the named ones. */
  ghost predicate SameExcept(a: Fields, b: Fields, names: set<string>) {
    forall k :: k !in names ==> (k in a <==> k in b) && (k in a ==> a[k] == b[k])
  }

  /** What the secret in a field opens to. */
  function Secret(ring: Ring, o: Fields, field: string, scope: Scope): Opened {
    Unseal(ring, Sealed(o, field), scope)
  }

  function AiScope(org: string): Scope { Scope(org, "assistant.ai.key") }
  function CaptureScope(org: string): Scope { Scope(org, "payables.ap-capture.key") }
  function EmailScope(org: string): Scope { Scope(org, "email.provider.secret") }

  /** The copy of an object-valued field, empty if it is none. */
  function Inside(o: Fields, field: string): Fields {
    var c := CopyOf(Get(o, field)); if c.Copied? then c.fields else map[]
  }

  /** Every other key can go: `r` is the full ring, or the one with only the active key. */
  predicate Remaining(ring: Ring, r: Ring) { r == ring || r == OnlyActive(ring) }

  lemma FieldKept(ring: Ring, o: Fields, field: string, scope: Scope, nonce: nat, again: nat, r: Ring)
    requires RotateField(ring, o, field, scope, nonce).Rotated? && Remaining(ring, r)
    ensures var next := RotateField(ring, o, field, scope, nonce).fields;
      && RotateField(ring, next, field, scope, again) == Rotated(next, false)
      && Secret(r, next, field, scope) == Secret(ring, o, field, scope)
      && SameExcept(o, next, {field})
      && (RotateField(ring, o, field, scope, nonce) == Rotated(next, false) ==> next == o)
      && (Sealed(o, field) != Other("") ==> Secret(ring, o, field, scope).Plain?)
  {
    var s := Sealed(o, field);
    if s != Other("") {
      ResealKeepsPlaintext(ring, s, scope, nonce, again);
    }
    hide Unseal, Seal;
    var next := RotateField(ring, o, field, scope, nonce).fields;
    assert Sealed(next, field) == AfterPlan(s, PlanReseal(ring, s, scope, nonce));
    NothingOpensNothing(ring, r, scope);
  }

  lemma NothingOpensNothing(ring: Ring, r: Ring, scope: Scope)
    ensures Unseal(ring, Other(""), scope) == Unseal(r, Other(""), scope) == Unreadable
  {
  }

  /** The AI and capture secrets keep their plaintext; nothing else in the object changes. */
  lemma AiKept(ring: Ring, org: string, ai: Fields, ns: Nonces, again: Nonces, r: Ring)
    requires RotateAi(ring, org, ai, ns).Rotated? && Remaining(ring, r)
    ensures var next := RotateAi(ring, org, ai, ns).fields;
      && RotateAi(ring, org, next, again) == Rotated(next, false)
      && Secret(r, next, "keyEncrypted", AiScope(org)) == Secret(ring, ai, "keyEncrypted", AiScope(org))
      && Secret(r, Inside(next, "documentCapture"), "keyEncrypted", CaptureScope(org))
           == Secret(ring, Inside(ai, "documentCapture"), "keyEncrypted", CaptureScope(org))
      && SameExcept(ai, next, {"keyEncrypted", "documentCapture"})
      && SameExcept(Inside(ai, "documentCapture"), Inside(next, "documentCapture"), {"keyEncrypted"})
      && (RotateAi(ring, org, ai, ns) == Rotated(next, false) && !Get(ai, "documentCapture").Arr? ==> next == ai)
  {
    hide PlanReseal, Unseal, RotateField, RotateCapture, Secret;
    var first := RotateField(ring, ai, "keyEncrypted", AiScope(org), ns.ai).fields;
    FieldKept(ring, ai, "keyEncrypted", AiScope(org), ns.ai, again.ai, r);
    assert Get(first, "documentCapture") == Get(ai, "documentCapture");
    var next := RotateAi(ring, org, ai, ns).fields;
    assert next == RotateCapture(ring, org, first, ns.capture).fields;
    CaptureKept(ring, org, first, ns.capture, again.capture, r);
    SameField(ring, first, next, "keyEncrypted", AiScope(org), again.ai);
    SameSecret(r, first, next, "keyEncrypted", AiScope(org));
  }

  /** The capture secret keeps its plaintext; nothing else in the object changes. */
  lemma CaptureKept(ring: Ring, org: string, ai: Fields, nonce: nat, again: nat, r: Ring)
    requires RotateCapture(ring, org, ai, nonce).Rotated? && Remaining(ring, r)
    ensures var next := RotateCapture(ring, org, ai, nonce).fields;
      && RotateCapture(ring, org, next, again) == Rotated(next, false)
      && Get(next, "keyEncrypted") == Get(ai, "keyEncrypted")
      && Secret(r, Inside(next, "documentCapture"), "keyEncrypted", CaptureScope(org))
           == Secret(ring, Inside(ai, "documentCapture"), "keyEncrypted", CaptureScope(org))
      && SameExcept(ai, next, {"documentCapture"})
      && SameExcept(Inside(ai, "documentCapture"), Inside(next, "documentCapture"), {"keyEncrypted"})
      && (RotateCapture(ring, org, ai, nonce) == Rotated(next, false) && !Get(ai, "documentCapture").Arr? ==> next == ai)
  {
    hide PlanReseal, Unseal, RotateField;
    if CopyOf(Get(ai, "documentCapture")).Copied? {
      FieldKept(ring, Inside(ai, "documentCapture"), "keyEncrypted", CaptureScope(org), nonce, again, r);
    } else {
      EmptySecret(ring, r, "keyEncrypted", CaptureScope(org));
    }
  }

  lemma EmptySecret(ring: Ring, r: Ring, field: string, scope: Scope)
    ensures Secret(ring, map[], field, scope) == Secret(r, map[], field, scope) == Unreadable
  {
  }

  lemma SameSecret(r: Ring, a: Fields, b: Fields, field: string, scope: Scope)
    requires Sealed(a, field) == Sealed(b, field)
    ensures Secret(r, a, field, scope) == Secret(r, b, field, scope)
  {
  }

  /** A field that is already current stays so when other fields change. */
  lemma SameField(ring: Ring, a: Fields, b: Fields, field: string, scope: Scope, nonce: nat)
    requires Get(a, field) == Get(b, field) && RotateField(ring, a, field, scope, nonce) == Rotated(a, false)
    ensures RotateField(ring, b, field, scope, nonce) == Rotated(b, false)
  {
    hide PlanReseal, Unseal;
    assert Sealed(a, field) == Sealed(b, field);
  }

  /** The legacy pair opens to the empty text, which cannot be sealed and read back. */
  predicate EmptyLegacy(legacy: LegacyReader, email: Fields) {
    HasLegacy(email) && LegacyPlain(legacy, email) == Plain("")
  }

  /** The email secret ends as the legacy plaintext if there is a legacy pair, and keeps its own otherwise. */
  lemma EmailKept(ring: Ring, legacy: LegacyReader, org: string, email: Fields, ns: Nonces, again: Nonces, r: Ring)
    requires RotateEmail(ring, legacy, org, email, ns).Rotated? && Remaining(ring, r)
    ensures var next := RotateEmail(ring, legacy, org, email, ns).fields;
      && RotateEmail(ring, legacy, org, next, again)
           == (if EmptyLegacy(legacy, email) then Refused else Rotated(next, false))
      && Secret(r, next, "keySealed", EmailScope(org))
           == (if EmptyLegacy(legacy, email) then Unreadable
               else if HasLegacy(email) then LegacyPlain(legacy, email)
               else Secret(ring, email, "keySealed", EmailScope(org)))
      && !HasLegacy(next)
      && SameExcept(email, next, {"keySealed", "keyCiphertext", "keyNonce"})
      && (RotateEmail(ring, legacy, org, email, ns) == Rotated(next, false) ==> next == email)
  {
    hide Unseal, Seal, PlanReseal, RotateField;
    var first := RotateField(ring, email, "keySealed", EmailScope(org), ns.email).fields;
    FieldKept(ring, email, "keySealed", EmailScope(org), ns.email, again.email, r);
    assert Sealed(first, "keyCiphertext") == Sealed(email, "keyCiphertext");
    assert Sealed(first, "keyNonce") == Sealed(email, "keyNonce");
    var next := RotateEmail(ring, legacy, org, email, ns).fields;
    if HasLegacy(email) {
      SealedField(ring, next, LegacyPlain(legacy, email).text, EmailScope(org), ns.legacy, again.email, r);
    }
  }

  lemma SealedField(ring: Ring, o: Fields, plain: string, scope: Scope, nonce: nat, again: nat, r: Ring)
    requires Remaining(ring, r) && Sealed(o, "keySealed") == Seal(ring, plain, scope, nonce)
    ensures RotateField(ring, o, "keySealed", scope, again) == if plain == "" then Refused else Rotated(o, false)
    ensures Secret(r, o, "keySealed", scope) == if plain == "" then Unreadable else Plain(plain)
  {
    SealOpensIff(ring, plain, scope, nonce);
  }

  // ---------------------------------------------------------------------
  // The whole document
  // ---------------------------------------------------------------------

  function Ai(doc: Fields): Fields { Inside(doc, "ai") }
  function Capture(doc: Fields): Fields { Inside(Ai(doc), "documentCapture") }
  function Email(doc: Fields): Fields { Inside(doc, "email") }

  /** No object-valued part is stored as an array, which a copy would turn into an object. */
  predicate Tidy(doc: Fields) {
    !Get(doc, "ai").Arr? && !Get(Ai(doc), "documentCapture").Arr? && !Get(doc, "email").Arr?
  }

  /** The other part of the document is not looked at. */
  lemma PartApart(ring: Ring, legacy: LegacyReader, org: string, settings: Fields, ns: Nonces)
    requires Rotate(ring, legacy, org, settings, ns).Rotated?
    ensures var next := Rotate(ring, legacy, org, settings, ns).fields;
      && (CopyOf(Get(settings, "ai")).NoObject? ==> ("ai" in next <==> "ai" in settings) && Get(next, "ai") == Get(settings, "ai"))
      && (CopyOf(Get(settings, "ai")).Copied? ==>
            "ai" in next && RotateAi(ring, org, Ai(settings), ns).Rotated?
            && next["ai"] == Obj(RotateAi(ring, org, Ai(settings), ns).fields))
      && (CopyOf(Get(settings, "email")).NoObject? ==>
            ("email" in next <==> "email" in settings) && Get(next, "email") == Get(settings, "email"))
      && (CopyOf(Get(settings, "email")).Copied? ==>
            "email" in next && RotateEmail(ring, legacy, org, Email(settings), ns).Rotated?
            && next["email"] == Obj(RotateEmail(ring, legacy, org, Email(settings), ns).fields))
      && SameExcept(settings, next, {"ai", "email"})
      && (Rotate(ring, legacy, org, settings, ns).changed <==>
            (CopyOf(Get(settings, "ai")).Copied? && RotateAi(ring, org, Ai(settings), ns).changed)
            || (CopyOf(Get(settings, "email")).Copied? && RotateEmail(ring, legacy, org, Email(settings), ns).changed))
  {
    hide RotateAi, RotateEmail;
    var first := RotatePart(ring, legacy, org, AiPart, settings, ns).fields;
    assert Get(first, "email") == Get(settings, "email");
  }

  /** Rotating the result again, part by part. */
  lemma PartAgain(ring: Ring, legacy: LegacyReader, org: string, doc: Fields, ns: Nonces)
    requires CopyOf(Get(doc, "ai")).Copied? ==>
      "ai" in doc && doc["ai"].Obj? && RotateAi(ring, org, Ai(doc), ns) == Rotated(Ai(doc), false)
    requires CopyOf(Get(doc, "email")).Copied? ==> "email" in doc && doc["email"].Obj?
    ensures CopyOf(Get(doc, "email")).NoObject? ==> Rotate(ring, legacy, org, doc, ns) == Rotated(doc, false)
    ensures CopyOf(Get(doc, "email")).Copied? ==>
      (RotateEmail(ring, legacy, org, Email(doc), ns) == Rotated(Email(doc), false) ==>
         Rotate(ring, legacy, org, doc, ns) == Rotated(doc, false))
      && (RotateEmail(ring, legacy, org, Email(doc), ns).Refused? ==> Rotate(ring, legacy, org, doc, ns).Refused?)
  {
    hide RotateAi, RotateEmail;
    if CopyOf(Get(doc, "ai")).Copied? {
      assert doc["ai" := Obj(Ai(doc))] == doc;
    }
    if CopyOf(Get(doc, "email")).Copied? {
      assert doc["email" := Obj(Email(doc))] == doc;
    }
  }

  /**
   * Rotating is a projection: applied to its own result it reports no change
   * and returns it as it is, unless a legacy credential opened to the empty
   * text, which leaves a value that the next run refuses.
   */
  lemma RotateTwiceIff(ring: Ring, legacy: LegacyReader, org: string, settings: Fields, ns: Nonces, again: Nonces)
    requires Rotate(ring, legacy, org, settings, ns).Rotated?
    ensures var next := Rotate(ring, legacy, org, settings, ns).fields;
      && (Rotate(ring, legacy, org, next, again) == Rotated(next, false) <==> !EmptyLegacy(legacy, Email(settings)))
      && (EmptyLegacy(legacy, Email(settings)) ==> Rotate(ring, legacy, org, next, again).Refused?)
  {
    hide RotateAi, RotateEmail, Rotate, EmptyLegacy;
    PartApart(ring, legacy, org, settings, ns);
    var next := Rotate(ring, legacy, org, settings, ns).fields;
    if CopyOf(Get(settings, "ai")).Copied? {
      AiKept(ring, org, Ai(settings), ns, again, ring);
    }
    if CopyOf(Get(settings, "email")).Copied? {
      EmailKept(ring, legacy, org, Email(settings), ns, again, ring);
    } else {
      NoEmptyLegacy(legacy);
    }
    PartAgain(ring, legacy, org, next, again);
  }

  lemma NoEmptyLegacy(legacy: LegacyReader)
    ensures !EmptyLegacy(legacy, map[]) && !HasLegacy(map[])
  {
  }

  /**
   * What a rotation keeps, read with the full ring or with the active key
   * alone: the AI and capture secrets; the email secret, or the legacy
   * plaintext that replaces it; and every field that holds no secret.
   */
  lemma RotationKeeps(ring: Ring, legacy: LegacyReader, org: string, settings: Fields, ns: Nonces, r: Ring)
    requires Rotate(ring, legacy, org, settings, ns).Rotated? && Remaining(ring, r)
    ensures var next := Rotate(ring, legacy, org, settings, ns).fields;
      && Secret(r, Ai(next), "keyEncrypted", AiScope(org)) == Secret(ring, Ai(settings), "keyEncrypted", AiScope(org))
      && Secret(r, Capture(next), "keyEncrypted", CaptureScope(org))
           == Secret(ring, Capture(settings), "keyEncrypted", CaptureScope(org))
      && Secret(r, Email(next), "keySealed", EmailScope(org))
           == (if EmptyLegacy(legacy, Email(settings)) then Unreadable
               else if HasLegacy(Email(settings)) then LegacyPlain(legacy, Email(settings))
               else Secret(ring, Email(settings), "keySealed", EmailScope(org)))
      && !HasLegacy(Email(next))
      && SameExcept(settings, next, {"ai", "email"})
      && SameExcept(Ai(settings), Ai(next), {"keyEncrypted", "documentCapture"})
      && SameExcept(Capture(settings), Capture(next), {"keyEncrypted"})
      && SameExcept(Email(settings), Email(next), {"keySealed", "keyCiphertext", "keyNonce"})
  {
    hide RotateAi, RotateEmail, Rotate, EmptyLegacy, LegacyPlain, Secret, HasLegacy;
    PartApart(ring, legacy, org, settings, ns);
    EmptySecret(ring, r, "keyEncrypted", AiScope(org));
    EmptySecret(ring, r, "keyEncrypted", CaptureScope(org));
    EmptySecret(ring, r, "keySealed", EmailScope(org));
    NoEmptyLegacy(legacy);
    if CopyOf(Get(settings, "ai")).Copied? {
      AiKept(ring, org, Ai(settings), ns, ns, r);
    }
    if CopyOf(Get(settings, "email")).Copied? {
      EmailKept(ring, legacy, org, Email(settings), ns, ns, r);
    }
  }

  /** A document that needs no change comes back as it was, when no part of it is an array. */
  lemma UnchangedIsEqual(ring: Ring, legacy: LegacyReader, org: string, settings: Fields, ns: Nonces)
    requires Rotate(ring, legacy, org, settings, ns).Rotated? && !Rotate(ring, legacy, org, settings, ns).changed
    requires Tidy(settings)
    ensures Rotate(ring, legacy, org, settings, ns).fields == settings
  {
    hide RotateAi, RotateEmail, Rotate;
    PartApart(ring, legacy, org, settings, ns);
    if CopyOf(Get(settings, "ai")).Copied? {
      AiKept(ring, org, Ai(settings), ns, ns, ring);
    }
    if CopyOf(Get(settings, "email")).Copied? {
      EmailKept(ring, legacy, org, Email(settings), ns, ns, ring);
    }
  }

  lemma FieldNonce(ring: Ring, o: Fields, field: string, scope: Scope, nonce: nat, again: nat)
    ensures var a, b := RotateField(ring, o, field, scope, nonce), RotateField(ring, o, field, scope, again);
      && (a.Refused? <==> b.Refused?)
      && (a.Rotated? ==> a.changed == b.changed && SameExcept(a.fields, b.fields, {field}))
  {
    hide Unseal, Seal;
  }

  /** Whether anything changes does not depend on the randomness of the seals. */
  lemma ChangeIgnoresNonces(ring: Ring, legacy: LegacyReader, org: string, settings: Fields, ns: Nonces, again: Nonces)
    requires Rotate(ring, legacy, org, settings, ns).Rotated?
    ensures Rotate(ring, legacy, org, settings, again).Rotated?
    ensures Rotate(ring, legacy, org, settings, again).changed == Rotate(ring, legacy, org, settings, ns).changed
  {
    hide RotateAi, RotateEmail, Rotate;
    PartApart(ring, legacy, org, settings, ns);
    AiNonces(ring, org, Ai(settings), ns, again);
    EmailNonces(ring, legacy, org, Email(settings), ns, again);
    EmailApart(ring, legacy, org, settings, again);
    if Rotate(ring, legacy, org, settings, again).Rotated? {
      PartApart(ring, legacy, org, settings, again);
    }
  }

  lemma AiNonces(ring: Ring, org: string, ai: Fields, ns: Nonces, again: Nonces)
    ensures var a, b := RotateAi(ring, org, ai, ns), RotateAi(ring, org, ai, again);
      && (a.Refused? <==> b.Refused?) && (a.Rotated? ==> a.changed == b.changed)
  {
    hide RotateField;
    FieldNonce(ring, ai, "keyEncrypted", AiScope(org), ns.ai, again.ai);
    var a := RotateField(ring, ai, "keyEncrypted", AiScope(org), ns.ai);
    if a.Rotated? {
      var b := RotateField(ring, ai, "keyEncrypted", AiScope(org), again.ai);
      assert Get(a.fields, "documentCapture") == Get(b.fields, "documentCapture");
      var c := Inside(a.fields, "documentCapture");
      FieldNonce(ring, c, "keyEncrypted", CaptureScope(org), ns.capture, again.capture);
    }
  }

  lemma EmailNonces(ring: Ring, legacy: LegacyReader, org: string, email: Fields, ns: Nonces, again: Nonces)
    ensures var a, b := RotateEmail(ring, legacy, org, email, ns), RotateEmail(ring, legacy, org, email, again);
      && (a.Refused? <==> b.Refused?) && (a.Rotated? ==> a.changed == b.changed)
  {
    hide RotateField, Seal;
    FieldNonce(ring, email, "keySealed", EmailScope(org), ns.email, again.email);
    var a := RotateField(ring, email, "keySealed", EmailScope(org), ns.email);
    if a.Rotated? {
      var b := RotateField(ring, email, "keySealed", EmailScope(org), again.email);
      assert Sealed(a.fields, "keyCiphertext") == Sealed(b.fields, "keyCiphertext");
      assert Sealed(a.fields, "keyNonce") == Sealed(b.fields, "keyNonce");
    }
  }

  /** A document that needs no change reads the same with the active key alone. */
  lemma UnchangedIsSafe(ring: Ring, legacy: LegacyReader, org: string, settings: Fields, ns: Nonces, r: Ring)
    requires Rotate(ring, legacy, org, settings, ns).Rotated? && !Rotate(ring, legacy, org, settings, ns).changed
    requires Remaining(ring, r)
    ensures Secret(r, Ai(settings), "keyEncrypted", AiScope(org)) == Secret(ring, Ai(settings), "keyEncrypted", AiScope(org))
    ensures Secret(r, Capture(settings), "keyEncrypted", CaptureScope(org))
      == Secret(ring, Capture(settings), "keyEncrypted", CaptureScope(org))
    ensures Secret(r, Email(settings), "keySealed", EmailScope(org))
      == Secret(ring, Email(settings), "keySealed", EmailScope(org))
    ensures !HasLegacy(Email(settings))
  {
    hide RotateAi, RotateEmail, Rotate, Secret, HasLegacy;
    PartApart(ring, legacy, org, settings, ns);
    EmptySecret(ring, r, "keyEncrypted", AiScope(org));
    EmptySecret(ring, r, "keyEncrypted", CaptureScope(org));
    EmptySecret(ring, r, "keySealed", EmailScope(org));
    NoEmptyLegacy(legacy);
    if CopyOf(Get(settings, "ai")).Copied? {
      AiUnchanged(ring, org, Ai(settings), ns, r);
    }
    if CopyOf(Get(settings, "email")).Copied? {
      EmailKept(ring, legacy, org, Email(settings), ns, ns, r);
      EmailUnchanged(ring, legacy, org, Email(settings), ns);
    }
  }

  lemma AiUnchanged(ring: Ring, org: string, ai: Fields, ns: Nonces, r: Ring)
    requires RotateAi(ring, org, ai, ns).Rotated? && !RotateAi(ring, org, ai, ns).changed && Remaining(ring, r)
    ensures Secret(r, ai, "keyEncrypted", AiScope(org)) == Secret(ring, ai, "keyEncrypted", AiScope(org))
    ensures Secret(r, Inside(ai, "documentCapture"), "keyEncrypted", CaptureScope(org))
      == Secret(ring, Inside(ai, "documentCapture"), "keyEncrypted", CaptureScope(org))
  {
    hide RotateField, Secret;
    FieldKept(ring, ai, "keyEncrypted", AiScope(org), ns.ai, ns.ai, r);
    if CopyOf(Get(ai, "documentCapture")).Copied? {
      FieldKept(ring, Inside(ai, "documentCapture"), "keyEncrypted", CaptureScope(org), ns.capture, ns.capture, r);
    } else {
      EmptySecret(ring, r, "keyEncrypted", CaptureScope(org));
    }
  }

  lemma EmailUnchanged(ring: Ring, legacy: LegacyReader, org: string, email: Fields, ns: Nonces)
    requires RotateEmail(ring, legacy, org, email, ns).Rotated? && !RotateEmail(ring, legacy, org, email, ns).changed
    ensures !HasLegacy(email)
  {
    hide RotateField;
    FieldKept(ring, email, "keySealed", EmailScope(org), ns.email, ns.email, ring);
  }

  lemma CaptureIsObject(ring: Ring, org: string, ai: Fields, ns: Nonces)
    requires RotateAi(ring, org, ai, ns).Rotated? && CopyOf(Get(ai, "documentCapture")).Copied?
    ensures Get(RotateAi(ring, org, ai, ns).fields, "documentCapture").Obj?
  {
  }

  /** A document that needs no change comes back as it was exactly if no part of it is stored as an array. */
  lemma UnchangedIffTidy(ring: Ring, legacy: LegacyReader, org: string, settings: Fields, ns: Nonces)
    requires Rotate(ring, legacy, org, settings, ns).Rotated? && !Rotate(ring, legacy, org, settings, ns).changed
    ensures Rotate(ring, legacy, org, settings, ns).fields == settings <==> Tidy(settings)
  {
    hide RotateAi, RotateEmail, Rotate;
    PartApart(ring, legacy, org, settings, ns);
    if Tidy(settings) {
      UnchangedIsEqual(ring, legacy, org, settings, ns);
    } else if CopyOf(Get(settings, "ai")).Copied? && Get(Ai(settings), "documentCapture").Arr? {
      CaptureIsObject(ring, org, Ai(settings), ns);
    }
  }

  /** A secret is stored, and does not open. */
  predicate Blocked(ring: Ring, o: Fields, field: string, scope: Scope) {
    Sealed(o, field) != Other("") && Secret(ring, o, field, scope).Unreadable?
  }

  lemma FieldRefusedIff(ring: Ring, o: Fields, field: string, scope: Scope, nonce: nat)
    ensures RotateField(ring, o, field, scope, nonce).Refused? <==> Blocked(ring, o, field, scope)
    ensures RotateField(ring, o, field, scope, nonce).Rotated? ==>
      SameExcept(o, RotateField(ring, o, field, scope, nonce).fields, {field})
  {
    hide Unseal, Seal;
  }

  /** The run refuses a document exactly when a stored secret, or the legacy pair, does not open. */
  lemma RefusedIff(ring: Ring, legacy: LegacyReader, org: string, settings: Fields, ns: Nonces)
    ensures Rotate(ring, legacy, org, settings, ns).Refused? <==>
      || Blocked(ring, Ai(settings), "keyEncrypted", AiScope(org))
      || Blocked(ring, Capture(settings), "keyEncrypted", CaptureScope(org))
      || Blocked(ring, Email(settings), "keySealed", EmailScope(org))
      || (HasLegacy(Email(settings)) && LegacyPlain(legacy, Email(settings)).Unreadable?)
  {
    hide RotateField, Blocked, Unseal, Seal;
    var ai, email := Ai(settings), Email(settings);
    FieldRefusedIff(ring, ai, "keyEncrypted", AiScope(org), ns.ai);
    FieldRefusedIff(ring, email, "keySealed", EmailScope(org), ns.email);
    NotBlocked(ring);
    if RotateField(ring, ai, "keyEncrypted", AiScope(org), ns.ai).Rotated? {
      var first := RotateField(ring, ai, "keyEncrypted", AiScope(org), ns.ai).fields;
      assert Get(first, "documentCapture") == Get(ai, "documentCapture");
      FieldRefusedIff(ring, Inside(first, "documentCapture"), "keyEncrypted", CaptureScope(org), ns.capture);
    }
    if RotateField(ring, email, "keySealed", EmailScope(org), ns.email).Rotated? {
      var first := RotateField(ring, email, "keySealed", EmailScope(org), ns.email).fields;
      assert Sealed(first, "keyCiphertext") == Sealed(email, "keyCiphertext");
      assert Sealed(first, "keyNonce") == Sealed(email, "keyNonce");
    }
    EmailApart(ring, legacy, org, settings, ns);
  }

  lemma NotBlocked(ring: Ring)
    ensures forall field: string, scope: Scope :: !Blocked(ring, map[], field, scope)
    ensures !HasLegacy(map[])
  {
  }

  lemma EmailApart(ring: Ring, legacy: LegacyReader, org: string, settings: Fields, ns: Nonces)
    ensures Rotate(ring, legacy, org, settings, ns).Refused? <==>
      || (CopyOf(Get(settings, "ai")).Copied? && RotateAi(ring, org, Ai(settings), ns).Refused?)
      || (CopyOf(Get(settings, "email")).Copied? && RotateEmail(ring, legacy, org, Email(settings), ns).Refused?)
  {
    hide RotateAi, RotateEmail;
    var first := RotatePart(ring, legacy, org, AiPart, settings, ns);
    if first.Rotated? {
      assert Get(first.fields, "email") == Get(settings, "email");
    }
  }

  /** An array is read as an object: the copy that is written back is one. */
  lemma ArraysBecomeObjects(ring: Ring, legacy: LegacyReader, org: string, ns: Nonces)
    ensures var settings := map["ai" := Arr([Scalar(1)])];
      Rotate(ring, legacy, org, settings, ns) == Rotated(map["ai" := Obj(map["0" := Scalar(1)])], false)
  {
    var one := [Scalar(1)];
    assert one[..0] == [];
    assert Digits(0) == "0";
    assert Spread(one) == Spread([])["0" := Scalar(1)];
    assert Spread(one) == map["0" := Scalar(1)];
    assert "documentCapture" !in Spread(one) && "keyEncrypted" !in Spread(one);
  }
}
