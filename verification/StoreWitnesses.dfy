/** Runs of the store on concrete devices that end where one would rather not be. */
module StoreWitnesses {
  import opened Options
  import opened Bytes
  import opened FlashStorage
  import opened BankFormat
  import opened BankSelection
  import opened StoreInvariants
  import opened SoundAssetStore
  import opened StoreRuns
  import Crc32

  const DIGEST: Digest := Fill(32, 1)
  const ENV := Env(_ => DIGEST, (_, _) => true)
  const MANIFEST: seq<byte> := MANIFEST_MAGIC + Fill(28, 0)

  /** A first bundle of one small manifest and nothing else. */
  const PLAN := Plan(0, Fill(32, 0), 32, 0, Crc32.Crc(MANIFEST), DIGEST, DIGEST, seq(BLOCK_COUNT, _ => 0))

  lemma PlanFacts()
    ensures PlanIsValid(PLAN) && Delivers(ENV, PLAN, MANIFEST, []) && PLAN.baseGeneration == 0 && All(PLAN.baseBundle, 0)
    ensures PLAN.manifestBytes == 32 && PLAN.payloadBytes == 0 && Reads(32) == 1 && BlockCount(0) == 0
  {
    hide Crc32.Crc;
    assert DIGEST[0] == 1;
    assert MANIFEST[..4] == MANIFEST_MAGIC;
  }

  /** A blank device, and the update of PLAN just begun on it. */
  method BegunOnBlank() returns (flash: BankStorage, store: Store)
    ensures fresh(flash) && fresh(store) && fresh(flash.bankA) && fresh(flash.bankB) && store.flash == flash && store.env == ENV
    ensures store.Inv() && store.updateActive && store.update.plan == PLAN && store.JustBegun() && store.CommitTakes() && store.undamaged
    ensures store.Valid(store.updateBank.Other()).None?
  {
    hide Store.Inv, Store.Active, CommitOf, Durable, PlanIsValid, SelfAuthenticated, Delivers, TakesRecord, HeaderOf, Validate, All, Crc32.Crc,
      TailsClean, Accommodates, DeriveTxId, RecordTakes;
    flash := new BankStorage([]);
    BlankFlashIsDurable(ENV, flash.Bank(A), flash.Bank(B));
    store := new Store(flash, ENV);
    PlanFacts();
    BlankMayBegin(store);
    var r, identity := store.BeginOrResumeUpdate(PLAN);
    BlankTakesRecord(store.updateBank, store.update, store.Bank(store.updateBank));
  }

  lemma BlankMayBegin(store: Store)
    requires store.Inv() && (forall id :: !store.Pinned(id)) && All(store.Bank(A), 0xFF) && All(store.Bank(B), 0xFF)
    ensures store.MayBegin(PLAN) && store.Staging(A).None? && store.Staging(B).None?
  {
    hide Store.Inv, CommitOf, HeaderOf, Crc32.Crc;
    var a, b := store.Bank(A), store.Bank(B);
    CommitNeedsVersion(A, a);
    CommitNeedsVersion(B, b);
    UncommittedIsInvalid(store.env, A, a);
    UncommittedIsInvalid(store.env, B, b);
    HeaderNeedsMagic(A, a);
    HeaderNeedsMagic(B, b);
    assert All(a[..HEADER_BYTES], 0xFF);
    PlanFacts();
  }

  // ---- a commit that has landed is taken back ----

  /** The manifest is written, but the read-back that would mark it complete fails. */
  method ManifestUnmarked(store: Store)
    requires store.Inv() && store.env == ENV && store.updateActive && store.update.plan == PLAN && store.JustBegun() && store.CommitTakes()
    modifies store`manifestComplete, store.flash`faults, store.flash.Cells(store.updateBank)
    ensures store.Inv() && store.updateActive && store.CommitTakes() && store.Committable() && !store.manifestComplete
    ensures store.Valid(store.updateBank.Other()) == old(store.Valid(store.updateBank.Other()))
  {
    hide Store.Inv, TakesRecord, Crc32.Crc, SameOutside, Manifest, Store.Landed, Delivers, BundleDigest, FormatOk, Validate;
    ghost var t := store.Bank(store.updateBank);
    PlanFacts();
    store.flash.faults := [NoFault, NoFault, Cut(0)];
    var r := store.WriteManifest(MANIFEST);
    RecordTakesOutside(store.updateBank, store.update, t, store.Bank(store.updateBank), MANIFEST_OFFSET, SECTOR);
    store.StoredAsWritten(MANIFEST);
    ManifestIsAll(store);
  }

  lemma ManifestIsAll(store: Store)
    requires store.Inv() && store.env == ENV && store.updateActive && store.update.plan == PLAN
    requires Manifest(store.Bank(store.updateBank), 32) == MANIFEST && ManifestStored(ENV, store.Bank(store.updateBank), PLAN)
    ensures store.Committable()
  {
    hide Store.Inv, Crc32.Crc, Manifest, ManifestStored;
    PlanFacts();
    assert Payload(store.Bank(store.updateBank), 0) == [];
  }

  /** Its commit lands, but the read-back that would report it fails. */
  method CommitUnreported(store: Store)
    requires store.Inv() && store.env == ENV && store.updateActive && store.update.plan == PLAN
    requires store.CommitTakes() && store.Committable() && store.undamaged && !store.manifestComplete
    modifies store, store.flash`faults, store.flash.Cells(store.updateBank)
    ensures store.Inv() && store.env == ENV && store.updateActive && store.update.plan == PLAN && store.Landed() && !store.manifestComplete
    ensures store.Valid(store.updateBank.Other()) == old(store.Valid(store.updateBank.Other()))
  {
    hide Store.Inv, TakesRecord, Crc32.Crc, Marker, Body, EncodeBody, EncodeMarker, Store.Active, Store.CommitTakes, ContentMatches, ManifestStored, Store.AllStored,
      Store.Landed, Store.NewSnapshot, Durable, Validate;
    PlanFacts();
    SetFaults(store, [NoFault, NoFault, NoFault, NoFault, NoFault, NoFault, Cut(0)]);
    assert store.LastOf(7);
    ghost var t := store.Bank(store.updateBank);
    var r := store.CommitUpdate();
    SameContent(ENV, PLAN, t, store.Bank(store.updateBank));
    LandedByRecord(store);
  }

  method SetFaults(store: Store, script: seq<Fault>)
    modifies store.flash`faults
    ensures store.flash.faults == script
  {
    store.flash.faults := script;
  }

  lemma LandedByRecord(store: Store)
    requires store.Inv() && store.updateActive && store.undamaged && store.ContentReady()
    requires Body(store.Bank(store.updateBank)) == EncodeBody(store.updateBank, store.update) && Marker(store.Bank(store.updateBank)) == store.NewMarker()
    ensures store.Landed()
  {
    hide Store.Inv, Marker, Body, EncodeBody, EncodeMarker, Store.Active, ContentMatches, Validate;
    store.CurrentIsMarked();
    store.CurrentIsNew();
  }

  /** A bundle that every restart would have selected is gone after one more, interrupted, delivery of its own manifest. */
  method LandedCommitIsTakenBack() returns (ghost landed: Option<Snapshot>, ghost left: Option<Snapshot>)
    ensures landed.Some? && left.None?
  {
    hide Store.Inv, Store.Committable, Store.Active, Store.CommitTakes, Store.JustBegun, Store.Landed, Validate;
    var flash, store := BegunOnBlank();
    ManifestUnmarked(store);
    CommitUnreported(store);
    landed, left := TakenBack(store);
  }

  method TakenBack(store: Store) returns (ghost landed: Option<Snapshot>, ghost left: Option<Snapshot>)
    requires store.Inv() && store.env == ENV && store.updateActive && store.update.plan == PLAN && store.Landed() && !store.manifestComplete
    requires store.Valid(store.updateBank.Other()).None?
    modifies store`manifestComplete, store.flash`faults, store.flash.Cells(store.updateBank)
    ensures landed.Some? && left.None?
  {
    hide Store.Inv, Crc32.Crc, Validate, Store.Active, SameOutside, Manifest, Store.NewMarker, Marker;
    PlanFacts();
    store.StagedNext();
    landed := store.Active();
    SetFaults(store, [Cut(1)]);
    var r := store.WriteManifest(MANIFEST);
    store.StagedNext();
    left := store.Active();
  }

  // ---- a marker torn at its last octet ----

  /** Fifteen octets of the marker are the whole of it exactly when the last octet of the body's checksum is zero. */
  lemma FifteenOctetsSuffice(bodyCrc: seq<byte>)
    requires |bodyCrc| == 4
    ensures var marker := EncodeMarker(bodyCrc); Programmed(Fill(MARKER_BYTES, 0xFF), 0, marker[..15]) == marker <==> bodyCrc[3] == 0
  {
    var marker := EncodeMarker(bodyCrc);
    var torn := Programmed(Fill(MARKER_BYTES, 0xFF), 0, marker[..15]);
    assert marker[15] == Inverted(bodyCrc)[3] == bodyCrc[3] ^ 0xFF && torn[15] == 0xFF;
    InvertedIsFull(bodyCrc[3]);
    forall i | 0 <= i < 15 ensures torn[i] == marker[i] {
      assert marker[..15][i] == marker[i];
      MaskedByErased(marker[i]);
    }
  }

  lemma InvertedIsFull(b: byte)
    ensures b ^ 0xFF == 0xFF <==> b == 0
  {
  }

  lemma MaskedByErased(b: byte)
    ensures 0xFF & b == b
  {
  }
}
