/** Sealed values: what seals them, what opens them, and when one is sealed again. */
module SealedBlobs {

  /** The binding of a blob: the tenant or user it belongs to, and its purpose. */
  datatype Scope = Scope(owner: string, purpose: string)

  /** Key material; two ids may name the same material. */
  type Key = string

  datatype RawRing = Ring(activeId: string, keys: map<string, Key>)

  /** The configured keys; the active id names one of them. */
  type Ring = r: RawRing | r.activeId in r.keys witness Ring("k1", map["k1" := ""])

  /**
   * A stored text. `V2` names its key and binds a scope; `V1` does neither;
   * any other text is no sealed value. `nonce` is the random part.
   */
  datatype Stored =
    | V2(keyId: string, key: Key, scope: Scope, plain: string, nonce: nat)
    | V1(key: Key, plain: string, nonce: nat)
    | Other(text: string)

  datatype Opened = Plain(text: string) | Unreadable

  /** Seals under the active key. */
  function Seal(ring: Ring, plain: string, scope: Scope, nonce: nat): Stored {
    V2(ring.activeId, ring.keys[ring.activeId], scope, plain, nonce)
  }

  /**
   * Opens under the ring. A blob of an empty plaintext has an empty part and
   * is taken for malformed.
   */
  function Unseal(ring: Ring, stored: Stored, scope: Scope): Opened {
    match stored
    case V2(keyId, key, bound, plain, _) =>
      if plain != "" && keyId in ring.keys && ring.keys[keyId] == key && bound == scope then Plain(plain)
      else Unreadable
    case V1(key, plain, _) =>
      if plain != "" && key in ring.keys.Values then Plain(plain) else Unreadable
    case Other(_) => Unreadable
  }

  /** The ring after every other key has been retired. */
  function OnlyActive(ring: Ring): Ring { Ring(ring.activeId, map[ring.activeId := ring.keys[ring.activeId]]) }

  datatype Decision =
    | Nothing
    | Current
    | Reseal(sealed: Stored)
    | Unopened

  /** What to do with one stored value; `nonce` is the randomness of a new seal. */
  function PlanReseal(ring: Ring, stored: Stored, scope: Scope, nonce: nat): Decision {
    if stored == Other("") then Nothing
    else
      match Unseal(ring, stored, scope)
      case Unreadable => Unopened
      case Plain(plain) =>
        if stored.V2? && stored.keyId == ring.activeId then Current
        else Reseal(Seal(ring, plain, scope, nonce))
  }

  /** The value that is stored after the decision. */
  function AfterPlan(stored: Stored, d: Decision): Stored {
    if d.Reseal? then d.sealed else stored
  }

  /**
   * Nothing is lost by sealing again: the value opens to the same plaintext,
   * and does so when every other key is gone; a second plan finds it current.
   */
  lemma ResealKeepsPlaintext(ring: Ring, stored: Stored, scope: Scope, nonce: nat, again: nat)
    requires stored != Other("")
    ensures var d := PlanReseal(ring, stored, scope, nonce);
            var after := AfterPlan(stored, d);
      && (d.Unopened? <==> Unseal(ring, stored, scope).Unreadable?)
      && (!d.Unopened? ==>
            && Unseal(ring, after, scope) == Unseal(ring, stored, scope)
            && Unseal(OnlyActive(ring), after, scope) == Unseal(ring, stored, scope)
            && PlanReseal(ring, after, scope, again) == Current
            && PlanReseal(OnlyActive(ring), after, scope, again) == Current)
  {
    var active := ring.keys[ring.activeId];
    assert active in ring.keys.Values;
  }

  /** What was sealed opens again, except an empty plaintext. */
  lemma SealOpensIff(ring: Ring, plain: string, scope: Scope, nonce: nat)
    ensures Unseal(ring, Seal(ring, plain, scope, nonce), scope) == Plain(plain) <==> plain != ""
    ensures plain == "" ==> PlanReseal(ring, Seal(ring, plain, scope, nonce), scope, nonce) == Unopened
  {
  }
}
