/** Inputs on which rotation does not do what it promises elsewhere. */
module RotationLimits {
  import opened SealedBlobs
  import opened OrgSettings
  import opened KeyRotation
  import opened RotationRun
  import opened KeyRetirement
  import opened DataKeyRun

  /** An old key, and a new one that is active. */
  const RING: Ring := Ring("k2", map["k1" := "old", "k2" := "new"])

  const NONCES := Nonces(1, 2, 3, 4)

  /** Legacy credentials open to `plain`. */
  function OldAndNew(plain: string): Keys {
    Keys(RING, (ct: Stored, nonce: Stored) => Plain(plain), (id: Id) => NONCES, (reported: Json) => Proven)
  }

  /** A text sealed under the old key. */
  function Old(plain: string, scope: Scope): Stored { V2("k1", "old", scope, plain, 0) }

  lemma OldIsResealed(plain: string, scope: Scope, nonce: nat)
    requires plain != ""
    ensures PlanReseal(RING, Old(plain, scope), scope, nonce) == Reseal(Seal(RING, plain, scope, nonce))
  {
  }

  // ---------------------------------------------------------------------
  // Vendor roles
  // ---------------------------------------------------------------------

  const TIN := "compliance.vendor.tin"
  const VENDORS: Leg := Leg(Kind.Sealed(TIN, false), true)

  /** Two vendor roles of one tenant, for the parties 11 and 12. */
  function VendorTable(): Rows {
    map[1 := Record("org", "org", 11, Str(Old("123", Scope("org", TIN)))),
        2 := Record("org", "org", 12, Str(Old("456", Scope("org", TIN))))]
  }

  lemma VendorsArePlanned(k: Keys)
    requires k == OldAndNew("")
    ensures Writes(k, VENDORS, VendorTable(), Selected(VendorTable(), VENDORS, "")) == {1, 2}
    ensures !Hindered(k, VENDORS, VendorTable(), "")
  {
    hide PlanReseal;
    OldIsResealed("123", Scope("org", TIN), NONCES.ai);
    OldIsResealed("456", Scope("org", TIN), NONCES.ai);
    assert Selected(VendorTable(), VENDORS, "") == {1, 2};
    assert PlanRow(k, VENDORS, 1, VendorTable()[1]).Write? && PlanRow(k, VENDORS, 2, VendorTable()[2]).Write?;
  }

  /** Both roles open, both are to be sealed again, nobody else edits: the leg refuses and leaves them under the old key. */
  lemma VendorTableRefuses(edits: Edits, journal: seq<Commit>, n: nat, to: seq<Rows>, r: LegResult)
    requires Calm(edits)
    requires LegDone(edits, journal, n, [VendorTable()], to, 0, r, OldAndNew(""), VENDORS, "", true)
    ensures r.RefusedLeg? && to == [VendorTable()]
    ensures !Hindered(OldAndNew(""), VENDORS, VendorTable(), "")
    ensures ReportOf(OldAndNew(""), VENDORS, VendorTable(), "").resealed == 2
  {
    hide LegDone, Hindered, PlanRow, Selected;
    VendorsArePlanned(OldAndNew(""));
    var from: seq<Rows> := [VendorTable()];
    forall s: Id, q: Id | s in from[0] && q in from[0] ensures from[0][s].party != q {
    }
    VendorLegStops(edits, journal, n, from, to, 0, r, OldAndNew(""), VENDORS, "");
  }

  /** Two roles whose parties are each other's ids, in different tenants, with one blob of the old form. */
  function SwappedTable(): Rows {
    map[1 := Record("a", "a", 2, Str(V1("old", "123", 0))),
        2 := Record("b", "b", 1, Str(V1("old", "123", 0)))]
  }

  lemma SwappedPlan(k: Keys, id: Id)
    requires k == OldAndNew("") && id in SwappedTable()
    ensures IsPlanned(k, VENDORS, SwappedTable(), "", id)
    ensures WriteOf(k, VENDORS, SwappedTable(), "", id)
      == WriteBack(id, Str(V1("old", "123", 0)), Str(Seal(RING, "123", Scope(SwappedTable()[id].owner, TIN), NONCES.ai)))
  {
    assert "old" in RING.keys.Values by { assert RING.keys["k1"] == "old"; }
  }

  /**
   * Even where the leg completes, it binds each blob to the other tenant: the
   * party that had a readable number before has none afterwards.
   */
  lemma SwappedTableMisbinds()
    ensures var k, rows := OldAndNew(""), SwappedTable();
      var after := RotatedTable(k, VENDORS, rows, "");
      && AllMeet(rows, k, VENDORS, rows, "") && !Hindered(k, VENDORS, rows, "")
      && forall id :: id in rows ==>
           Secrets(k.ring, k, VENDORS, rows[id]) == [Plain("123")]
           && id in after && Secrets(k.ring, k, VENDORS, after[id]) == [Unreadable]
  {
    var k, rows := OldAndNew(""), SwappedTable();
    assert RING.keys["k1"] == "old";
    SwappedPlan(k, 1);
    SwappedPlan(k, 2);
    assert Matched(rows, VENDORS, WriteOf(k, VENDORS, rows, "", 1)) == {2};
    assert Matched(rows, VENDORS, WriteOf(k, VENDORS, rows, "", 2)) == {1};
  }

  // ---------------------------------------------------------------------
  // Platform settings and settings documents
  // ---------------------------------------------------------------------

  function OldToken(): Rows {
    map[PLATFORM := Record("", "", 0, Obj(map["feedback" := Obj(map["token" := Str(Old("t", TokenScope()))])]))]
  }

  /** One token under the old key: an applied run reports it sealed again, a dry run does not. */
  lemma OldTokenReports()
    ensures var d := PlanPlatform(OldAndNew(""), PlatformFields(OldToken()));
      && PlatformReport(d, true) == Report(1, 0, 1, 0)
      && PlatformReport(d, false) == Report(1, 0, 0, 0)
  {
    hide PlanReseal;
    OldIsResealed("t", TokenScope(), NONCES.ai);
    assert OrgSettings.Sealed(Feedback(PlatformFields(OldToken())), "token") == Old("t", TokenScope());
  }

  /** A legacy e-mail credential, ciphertext and nonce. */
  function LegacyDocument(): Fields {
    map["email" := Obj(map["keyCiphertext" := Str(Other("c")), "keyNonce" := Str(Other("n"))])]
  }

  /** It opens to the empty text: the first run seals that, and the second refuses the document. */
  lemma EmptyCredentialIsRefusedNext()
    ensures var first := Rotate(RING, OldAndNew("").legacy, "org", LegacyDocument(), NONCES);
      && first.Rotated? && first.changed
      && Rotate(RING, OldAndNew("").legacy, "org", first.fields, NONCES).Refused?
  {
    hide PlanReseal, Seal, Unseal;
    var legacy := OldAndNew("").legacy;
    var email := Email(LegacyDocument());
    assert PlanReseal(RING, Other(""), EmailScope("org"), NONCES.email) == Nothing by { NothingIsPlanned(); }
    assert RotateEmail(RING, legacy, "org", email, NONCES).changed;
    assert Rotate(RING, legacy, "org", LegacyDocument(), NONCES).changed;
    RotateTwiceIff(RING, legacy, "org", LegacyDocument(), NONCES, NONCES);
  }

  lemma NothingIsPlanned()
    ensures PlanReseal(RING, Other(""), EmailScope("org"), NONCES.email) == Nothing
  {
  }
}
