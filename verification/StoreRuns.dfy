/** Whole runs of the sound store: any calls in any order, any cut, any restart, detected corruption. */
module StoreRuns {
  import opened Options
  import opened Bytes
  import opened FlashStorage
  import opened BankFormat
  import opened BankSelection
  import opened StoreInvariants
  import opened SoundAssetStore
  import Crc32

  // ---- one update, cut anywhere, then a reboot ----

  /** The bundle `plan` announces, one generation after what was current. */
  predicate IsNew(plan: Plan, before: Option<Snapshot>, after: Option<Snapshot>) {
    IsNext(before, after) && after.value.bundleSha == plan.bundleSha && after.value.manifestSha == plan.manifestSha
  }

  predicate OldOrNew(plan: Plan, before: Option<Snapshot>, after: Option<Snapshot>) {
    after == before || IsNew(plan, before, after)
  }

  /** The open update's whole marker is in flash. */
  ghost predicate Marked(store: Store)
    reads store`updateBank, store`update, store.flash.bankA, store.flash.bankB
    requires store.flash.Valid()
  {
    Marker(store.Bank(store.updateBank)) == store.NewMarker()
  }

  /** Every complete commit record is backed by valid content. */
  ghost predicate NoOrphan(store: Store)
    reads store.flash.bankA, store.flash.bankB
    requires store.flash.Valid()
  {
    (store.Record(A).Some? ==> store.Valid(A).Some?) && (store.Record(B).Some? ==> store.Valid(B).Some?)
  }

  lemma MarkerOutside(t: seq<byte>, t': seq<byte>, off: nat, len: nat)
    requires |t| == BANK_SIZE && SameOutside(t, t', off, len) && off + len <= COMMIT_OFFSET
    ensures |t'| == BANK_SIZE && Marker(t') == Marker(t)
  {
  }

  /** A commit record that reads at all under an open update is the update's own, whole. */
  lemma RecordIsMarked(store: Store)
    requires store.Inv() && store.updateActive
    ensures store.Record(store.updateBank).Some? <==> RecordWhole(store.env, store.updateBank, store.update, store.Bank(store.updateBank))
    ensures store.Record(store.updateBank).Some? ==> Marked(store)
  {
    hide ContentMatches, TailsErased, HeaderOf, EncodeBody, EncodeMarker, ProgressSound, TailsAre, TailsClean, Durable, Body, Marker,
      CommitOf, Validate, PlanIsValid, SnapshotFor, CommitStage;
    CommitStageDecodes(store.updateBank, store.update, store.Bank(store.updateBank));
  }

  // ---- what is delivered ----

  /** The octets that go into block `i`. */
  function Chunk(payload: seq<byte>, i: nat): (c: seq<byte>)
    requires |payload| <= PAYLOAD_MAX
    ensures |c| == BlockLength(|payload|, i)
  {
    if i * BLOCK < |payload| then payload[i * BLOCK..Min((i + 1) * BLOCK, |payload|)] else []
  }

  /** Manifest and payload are what the plan announces, part by part and as a whole. */
  ghost predicate Delivers(env: Env, plan: Plan, manifest: seq<byte>, payload: seq<byte>) {
    && |manifest| == plan.manifestBytes <= SECTOR && |payload| == plan.payloadBytes <= PAYLOAD_MAX
    && Crc32.Crc(manifest) == plan.manifestCrc && env.sha256(manifest) == plan.manifestSha
    && (forall i :: 0 <= i < BlockCount(|payload|) ==> Crc32.Crc(Chunk(payload, i)) == plan.blockCrcs[i])
    && FormatOk(env, manifest, payload) && BundleDigest(env, manifest, payload) == plan.bundleSha
  }

  /** Block `i` of the bank is what would be delivered for it. */
  predicate HoldsChunk(bank: seq<byte>, payload: seq<byte>, i: nat)
    requires |bank| == BANK_SIZE && |payload| <= PAYLOAD_MAX && i < BLOCK_COUNT
  {
    bank[BlockOffset(i)..BlockOffset(i) + |Chunk(payload, i)|] == Chunk(payload, i)
  }

  predicate HoldsManifest(bank: seq<byte>, manifest: seq<byte>)
    requires |bank| == BANK_SIZE
  {
    |manifest| <= SECTOR && Manifest(bank, |manifest|) == manifest
  }

  /** What the open update already counts as complete is what would be delivered again. */
  ghost predicate Ours(store: Store, manifest: seq<byte>, payload: seq<byte>)
    reads store`updateBank, store`manifestComplete, store`payloadComplete, store.flash.bankA, store.flash.bankB
    requires store.flash.Valid() && |payload| <= PAYLOAD_MAX
  {
    var bank := store.Bank(store.updateBank);
    && |store.payloadComplete| == BLOCK_COUNT && (store.manifestComplete ==> HoldsManifest(bank, manifest))
    && forall i :: 0 <= i < BlockCount(|payload|) && i < BLOCK_COUNT && store.payloadComplete[i] ==> HoldsChunk(bank, payload, i)
  }

  /** Blocks in place one by one are the payload in place. */
  lemma ChunksMakeThePayload(bank: seq<byte>, payload: seq<byte>)
    requires |bank| == BANK_SIZE && |payload| <= PAYLOAD_MAX && BlockCount(|payload|) <= BLOCK_COUNT
    requires forall i :: 0 <= i < BlockCount(|payload|) ==> HoldsChunk(bank, payload, i)
    ensures Payload(bank, |payload|) == payload
  {
    forall k | 0 <= k < |payload| ensures bank[PAYLOAD_OFFSET + k] == payload[k] {
      var i, j := k / BLOCK, k % BLOCK;
      assert k == i * BLOCK + j && i < BlockCount(|payload|) && HoldsChunk(bank, payload, i);
      OctetOfChunk(bank, payload, i, j);
    }
  }

  lemma OctetOfChunk(bank: seq<byte>, payload: seq<byte>, i: nat, j: nat)
    requires |bank| == BANK_SIZE && |payload| <= PAYLOAD_MAX && i < BLOCK_COUNT && HoldsChunk(bank, payload, i)
    requires j < BLOCK && i * BLOCK + j < |payload|
    ensures bank[PAYLOAD_OFFSET + i * BLOCK + j] == payload[i * BLOCK + j]
  {
    var c := Chunk(payload, i);
    assert bank[BlockOffset(i)..BlockOffset(i) + |c|][j] == bank[BlockOffset(i) + j];
    assert c[j] == payload[i * BLOCK + j];
  }

  lemma KeepsChunk(t: seq<byte>, t': seq<byte>, payload: seq<byte>, i: nat, off: nat, len: nat)
    requires |t| == BANK_SIZE && |payload| <= PAYLOAD_MAX && i < BLOCK_COUNT && SameOutside(t, t', off, len) && HoldsChunk(t, payload, i)
    requires off + len <= BlockOffset(i) || BlockOffset(i) + BLOCK <= off
    ensures |t'| == BANK_SIZE && HoldsChunk(t', payload, i)
  {
    var c := Chunk(payload, i);
    forall k | 0 <= k < |c| ensures t'[BlockOffset(i) + k] == c[k] { assert t[BlockOffset(i)..BlockOffset(i) + |c|][k] == c[k]; }
  }

  lemma KeepsManifest(t: seq<byte>, t': seq<byte>, manifest: seq<byte>, off: nat, len: nat)
    requires |t| == BANK_SIZE && SameOutside(t, t', off, len) && HoldsManifest(t, manifest) && PAYLOAD_OFFSET <= off
    ensures |t'| == BANK_SIZE && HoldsManifest(t', manifest)
  {
    forall k | 0 <= k < |manifest| ensures t'[MANIFEST_OFFSET + k] == manifest[k] { assert Manifest(t, |manifest|)[k] == manifest[k]; }
  }

  /** What one more write keeps: the commit record's cells, and everything of ours that it does not write. */
  lemma KeepsOurs(store: Store, t: seq<byte>, payload: seq<byte>, off: nat, len: nat, n: nat)
    requires store.flash.Valid() && |t| == BANK_SIZE && |payload| <= PAYLOAD_MAX && n <= BlockCount(|payload|) <= BLOCK_COUNT
    requires SameOutside(t, store.Bank(store.updateBank), off, len) && off + len <= COMMIT_OFFSET
    requires forall i :: 0 <= i < n ==> off + len <= BlockOffset(i) || BlockOffset(i) + BLOCK <= off
    ensures TakesRecord(store.updateBank, store.update, t) ==> store.CommitTakes()
    ensures (forall i :: 0 <= i < n ==> HoldsChunk(t, payload, i)) ==> forall i :: 0 <= i < n ==> HoldsChunk(store.Bank(store.updateBank), payload, i)
    ensures Marker(store.Bank(store.updateBank)) == Marker(t)
    ensures CommitOf(store.updateBank, store.Bank(store.updateBank)) == CommitOf(store.updateBank, t)
    ensures (off >= HEADER_BYTES || len == 0) ==> HeaderOf(store.updateBank, store.Bank(store.updateBank)) == HeaderOf(store.updateBank, t)
  {
    hide HeaderOf, CommitOf, HoldsChunk, EncodeBody, EncodeMarker, SameOutside, CanProgram, TakesRecord, Marker;
    var id, t' := store.updateBank, store.Bank(store.updateBank);
    MarkerOutside(t, t', off, len);
    RecordOutside(id, t, t', off, len);
    if off >= HEADER_BYTES || len == 0 { HeaderOutside(id, t, t', off, len); }
    if TakesRecord(id, store.update, t) { RecordTakesOutside(id, store.update, t, t', off, len); }
    if forall i :: 0 <= i < n ==> HoldsChunk(t, payload, i) {
      forall i | 0 <= i < n ensures HoldsChunk(t', payload, i) { KeepsChunk(t, t', payload, i, off, len); }
    }
  }

  lemma RecordOutside(id: BankId, t: seq<byte>, t': seq<byte>, off: nat, len: nat)
    requires |t| == BANK_SIZE && SameOutside(t, t', off, len) && off + len <= COMMIT_OFFSET
    ensures |t'| == BANK_SIZE && CommitOf(id, t') == CommitOf(id, t)
  {
    hide CommitOf;
    CommitFrame(id, t, t');
  }

  lemma HeaderOutside(id: BankId, t: seq<byte>, t': seq<byte>, off: nat, len: nat)
    requires |t| == BANK_SIZE && SameOutside(t, t', off, len) && (off >= HEADER_BYTES || len == 0)
    ensures |t'| == BANK_SIZE && HeaderOf(id, t') == HeaderOf(id, t)
  {
    hide HeaderOf;
    HeaderFrame(id, t, t');
  }

  lemma RecordTakesOutside(id: BankId, h: Header, t: seq<byte>, t': seq<byte>, off: nat, len: nat)
    requires |t| == BANK_SIZE && SameOutside(t, t', off, len) && off + len <= COMMIT_OFFSET && TakesRecord(id, h, t)
    ensures |t'| == BANK_SIZE && TakesRecord(id, h, t')
  {
    hide EncodeBody, EncodeMarker, CanProgram;
    var body := EncodeBody(id, h);
    assert Agree(t, t', COMMIT_OFFSET, BANK_SIZE);
    TakesInAgreement(t, t', COMMIT_OFFSET, body);
    TakesInAgreement(t, t', MARKER_OFFSET, EncodeMarker(body[112..116]));
  }

  /** Manifest, then every block in order. Undisturbed, what is announced arrives. */
  method Transfer(store: Store, manifest: seq<byte>, payload: seq<byte>) returns (r: StoreResult)
    requires store.Inv() && store.updateActive
    modifies store`manifestComplete, store`payloadComplete, store.flash`faults, store.flash.Cells(store.updateBank)
    ensures store.Inv() && Marker(store.Bank(store.updateBank)) == old(Marker(store.Bank(store.updateBank)))
    ensures store.Staging(store.updateBank) == old(store.Staging(store.updateBank))
    ensures store.Record(store.updateBank) == old(store.Record(store.updateBank))
    ensures old(store.CommitTakes()) ==> store.CommitTakes()
    ensures Delivers(store.env, store.update.plan, manifest, payload) && old(store.Calm() && Ours(store, manifest, payload)) ==>
      r.StoreOk? && store.Calm() && store.Committable()
  {
    hide HeaderOf, CommitOf, store.Inv, SameOutside, Marker, ManifestStored, BlockStored, Manifest, Agree, store.BlockHolds, HoldsChunk, HoldsManifest,
      TakesRecord, store.Committable;
    ghost var id, t0 := store.updateBank, store.Bank(store.updateBank);
    ghost var good := Delivers(store.env, store.update.plan, manifest, payload) && store.Calm() && Ours(store, manifest, payload);
    OpenPlanFits(store);
    r := TransferManifest(store, manifest, payload);
    if !r.StoreOk? { return r; }
    r := TransferBlocks(store, manifest, payload);
    if good { AllArrived(store, manifest, payload); }
  }

  lemma OpenPlanFits(store: Store)
    requires store.Inv() && store.updateActive
    ensures BlockCount(store.update.plan.payloadBytes) <= BLOCK_COUNT
  {
    hide store.Inv, SelfAuthenticated;
    store.OpenUpdate();
    BlockCountFits(store.update.plan);
  }

  method TransferManifest(store: Store, manifest: seq<byte>, payload: seq<byte>) returns (r: StoreResult)
    requires store.Inv() && store.updateActive && BlockCount(store.update.plan.payloadBytes) <= BLOCK_COUNT
    modifies store`manifestComplete, store.flash`faults, store.flash.Cells(store.updateBank)
    ensures store.Inv() && Marker(store.Bank(store.updateBank)) == old(Marker(store.Bank(store.updateBank)))
    ensures store.Staging(store.updateBank) == old(store.Staging(store.updateBank))
    ensures store.Record(store.updateBank) == old(store.Record(store.updateBank))
    ensures old(store.CommitTakes()) ==> store.CommitTakes()
    ensures Delivers(store.env, store.update.plan, manifest, payload) && old(store.Calm() && Ours(store, manifest, payload)) ==>
      r.StoreOk? && store.Calm() && HoldsManifest(store.Bank(store.updateBank), manifest) && Ours(store, manifest, payload)
  {
    hide HeaderOf, CommitOf, store.Inv, SameOutside, Marker, ManifestStored, BlockStored, Agree, HoldsChunk, TakesRecord, Crc32.Crc;
    ghost var t := store.Bank(store.updateBank);
    ghost var good := Delivers(store.env, store.update.plan, manifest, payload) && store.Calm() && Ours(store, manifest, payload);
    r := store.WriteManifest(manifest);
    KeepsOurs(store, t, [], MANIFEST_OFFSET, SECTOR, 0);
    if good {
      forall i | 0 <= i < BlockCount(|payload|) && store.payloadComplete[i] ensures HoldsChunk(store.Bank(store.updateBank), payload, i) {
        KeepsChunk(t, store.Bank(store.updateBank), payload, i, MANIFEST_OFFSET, SECTOR);
      }
    }
  }

  method TransferBlocks(store: Store, manifest: seq<byte>, payload: seq<byte>) returns (r: StoreResult)
    requires store.Inv() && store.updateActive && BlockCount(store.update.plan.payloadBytes) <= BLOCK_COUNT
    modifies store`payloadComplete, store.flash`faults, store.flash.Cells(store.updateBank)
    ensures store.Inv() && Marker(store.Bank(store.updateBank)) == old(Marker(store.Bank(store.updateBank)))
    ensures store.Staging(store.updateBank) == old(store.Staging(store.updateBank))
    ensures store.Record(store.updateBank) == old(store.Record(store.updateBank))
    ensures old(store.CommitTakes()) ==> store.CommitTakes()
    ensures Delivers(store.env, store.update.plan, manifest, payload) && old(Arriving(store, manifest, payload, 0)) ==>
      r.StoreOk? && Arriving(store, manifest, payload, BlockCount(|payload|))
  {
    hide HeaderOf, CommitOf, store.Inv, SameOutside, Marker, ManifestStored, BlockStored, Agree, HoldsChunk, HoldsManifest, TakesRecord, Arriving, Crc32.Crc;
    ghost var good := Delivers(store.env, store.update.plan, manifest, payload) && Arriving(store, manifest, payload, 0);
    ghost var taking, marker := store.CommitTakes(), Marker(store.Bank(store.updateBank));
    var index := 0;
    r := StoreOk;
    while index * BLOCK < |payload|
      invariant store.Inv() && Marker(store.Bank(store.updateBank)) == marker && r.StoreOk?
      invariant store.Staging(store.updateBank) == old(store.Staging(store.updateBank))
      invariant store.Record(store.updateBank) == old(store.Record(store.updateBank))
      invariant taking ==> store.CommitTakes()
      invariant good ==> index <= BlockCount(|payload|) && Arriving(store, manifest, payload, index)
    {
      r := TransferOne(store, manifest, payload, index);
      if !r.StoreOk? { return r; }
      index := index + 1;
    }
  }

  /** Undisturbed so far, with the manifest and the first `n` blocks in place. */
  ghost predicate Arriving(store: Store, manifest: seq<byte>, payload: seq<byte>, n: nat)
    reads store`updateBank, store`manifestComplete, store`payloadComplete, store.flash
    reads store.flash.bankA, store.flash.bankB
    requires store.flash.Valid()
  {
    var bank := store.Bank(store.updateBank);
    && store.Calm() && |payload| <= PAYLOAD_MAX && BlockCount(|payload|) <= BLOCK_COUNT && n <= BlockCount(|payload|)
    && Ours(store, manifest, payload) && HoldsManifest(bank, manifest) && forall i :: 0 <= i < n ==> HoldsChunk(bank, payload, i)
  }

  method TransferOne(store: Store, manifest: seq<byte>, payload: seq<byte>, index: nat) returns (r: StoreResult)
    requires store.Inv() && store.updateActive && index * BLOCK < |payload|
    modifies store`payloadComplete, store.flash`faults, store.flash.Cells(store.updateBank)
    ensures store.Inv() && Marker(store.Bank(store.updateBank)) == old(Marker(store.Bank(store.updateBank)))
    ensures store.Staging(store.updateBank) == old(store.Staging(store.updateBank))
    ensures store.Record(store.updateBank) == old(store.Record(store.updateBank))
    ensures old(store.CommitTakes()) ==> store.CommitTakes()
    ensures Delivers(store.env, store.update.plan, manifest, payload) && old(Arriving(store, manifest, payload, index)) ==>
      r.StoreOk? && index < BlockCount(|payload|) && Arriving(store, manifest, payload, index + 1)
  {
    hide HeaderOf, CommitOf, store.Inv, SameOutside, Marker, ManifestStored, BlockStored, Agree, HoldsManifest, TakesRecord, Crc32.Crc, HoldsChunk;
    ghost var t := store.Bank(store.updateBank);
    var end := Min((index + 1) * BLOCK, |payload|);
    var data := payload[index * BLOCK..end];
    r := store.WritePayloadBlock(index, data);
    ghost var t' := store.Bank(store.updateBank);
    if index < BLOCK_COUNT { KeepsOurs(store, t, [], BlockOffset(index), BLOCK, 0); }
    if Delivers(store.env, store.update.plan, manifest, payload) && old(Arriving(store, manifest, payload, index)) {
      assert data == Chunk(payload, index);
      store.InvLengths();
      Arrived(store, manifest, payload, index, t, t', old(store.payloadComplete));
    }
  }

  lemma Arrived(store: Store, manifest: seq<byte>, payload: seq<byte>, index: nat, t: seq<byte>, t': seq<byte>, done: seq<bool>)
    requires store.flash.Valid() && |payload| <= PAYLOAD_MAX && |done| == |store.payloadComplete| == BLOCK_COUNT && BlockCount(|payload|) <= BLOCK_COUNT
    requires t' == store.Bank(store.updateBank) && index < BlockCount(|payload|) && |t| == BANK_SIZE
    requires SameOutside(t, t', BlockOffset(index), BLOCK) && HoldsManifest(t, manifest)
    requires forall i :: 0 <= i < index ==> HoldsChunk(t, payload, i)
    requires forall i :: 0 <= i < BlockCount(|payload|) && done[i] ==> HoldsChunk(t, payload, i)
    requires forall j :: 0 <= j < BLOCK_COUNT && j != index ==> store.payloadComplete[j] == done[j]
    requires if done[index] then t' == t else store.BlockHolds(index, Chunk(payload, index))
    ensures Ours(store, manifest, payload) && HoldsManifest(t', manifest) && forall i :: 0 <= i < index + 1 ==> HoldsChunk(t', payload, i)
  {
    hide SameOutside, HoldsManifest, Chunk;
    KeepsManifest(t, t', manifest, BlockOffset(index), BLOCK);
    assert HoldsChunk(t', payload, index);
    forall i | 0 <= i < BlockCount(|payload|) && i != index && HoldsChunk(t, payload, i) ensures HoldsChunk(t', payload, i) {
      KeepsChunk(t, t', payload, i, BlockOffset(index), BLOCK);
    }
  }

  lemma AllArrived(store: Store, manifest: seq<byte>, payload: seq<byte>)
    requires store.Inv() && Delivers(store.env, store.update.plan, manifest, payload)
    requires Arriving(store, manifest, payload, BlockCount(|payload|))
    ensures store.Committable()
  {
    hide store.Inv, Crc32.Crc, Chunk, FormatOk, BundleDigest, BlockStored;
    var bank := store.Bank(store.updateBank);
    ChunksMakeThePayload(bank, payload);
    store.StoredAsWritten(manifest);
    forall i | 0 <= i < BlockCount(store.update.plan.payloadBytes) ensures BlockStored(bank, store.update.plan, i) {
      BlockCountLengths(store.update.plan, i);
      assert HoldsChunk(bank, payload, i);
      store.BlockStoredAsWritten(i, Chunk(payload, i));
    }
  }

  /** Transfer and commit an open update. */
  method Deliver(store: Store, manifest: seq<byte>, payload: seq<byte>) returns (r: StoreResult)
    requires store.Inv() && store.updateActive && store.Valid(store.updateBank).None?
    modifies store, store.flash`faults, store.flash.Cells(store.updateBank)
    ensures store.Inv() && (store.Active() == old(store.Active()) || store.Active() == Some(old(store.NewSnapshot())))
    ensures store.undamaged == old(store.undamaged)
    ensures r.StoreOk? ==> !store.updateActive && store.Active() == Some(old(store.NewSnapshot())) && store.selection.active == store.Active()
    ensures !r.StoreOk? ==> store.updateActive && store.updateBank == old(store.updateBank) && store.update == old(store.update)
    // The new bundle is current exactly if its whole record is in flash, whose marker comes last.
    ensures old(store.undamaged && store.Record(store.updateBank).None?) && store.Record(old(store.updateBank)).Some? ==>
      store.Active() == Some(old(store.NewSnapshot()))
    ensures old(store.undamaged && !Marked(store)) ==>
      (store.Active() == Some(old(store.NewSnapshot())) <==> Marker(store.Bank(old(store.updateBank))) == old(store.NewMarker()))
    ensures store.Active() == Some(old(store.NewSnapshot())) ==> RecordWhole(store.env, old(store.updateBank), old(store.update), store.Bank(old(store.updateBank)))
    // Cut anywhere it can be taken up again; undisturbed it succeeds.
    ensures old(store.CommitTakes()) ==> RecordTakes(old(store.updateBank), store.Bank(old(store.updateBank)))
    ensures Delivers(store.env, old(store.update).plan, manifest, payload) && old(store.Calm() && store.undamaged && Ours(store, manifest, payload) && store.CommitTakes()) ==>
      r.StoreOk?
  {
    hide store.Inv, store.Active, CommitOf, Validate, Agree, PlanIsValid, SelfAuthenticated, store.ProgressExact, Marker, Body, EncodeBody,
      EncodeMarker, store.ContentReady, store.Committable, TakesRecord, Delivers, HeaderOf;
    ghost var id, t := store.updateBank, store.Bank(store.updateBank);
    store.StagedNext();
    HeaderIsOurs(store);
    r := Transfer(store, manifest, payload);
    ghost var t1 := store.Bank(id);
    store.StagedNext();
    if !r.StoreOk? {
      if store.Valid(store.updateBank).Some? { store.ValidIsWritten(); }
      return;
    }
    r := store.CommitUpdate();
    AgreeWithin(t1, store.Bank(id), 0, COMMIT_OFFSET, 0, HEADER_BYTES);
    HeaderFrame(id, t1, store.Bank(id));
    if store.updateActive {
      store.StagedNext();
      RecordIsMarked(store);
      if store.Valid(store.updateBank).Some? { store.ValidIsWritten(); }
    }
  }

  lemma HeaderIsOurs(store: Store)
    requires store.Inv() && store.updateActive
    ensures store.Staging(store.updateBank).None? || store.Staging(store.updateBank) == Some(store.update)
  {
    hide HeaderOf, Validate, Durable, ProgressSound, TailsAre, TailsClean, CommitStage;
  }

  /** Body and marker of the update's commit record, octet for octet. */
  ghost predicate RecordWhole(env: Env, id: BankId, h: Header, bank: seq<byte>)
    requires |bank| == BANK_SIZE
  {
    Body(bank) == EncodeBody(id, h) && Marker(bank) == EncodeMarker(EncodeBody(id, h)[112..116])
  }

  /** The header of the update that the plan asks for, if it goes to bank `id`. */
  function HeaderFor(env: Env, id: BankId, plan: Plan): Header
    requires plan.baseGeneration < U64_MAX
  {
    Header(plan.baseGeneration + 1, DeriveTxId(env, plan, id, plan.baseGeneration + 1), plan)
  }

  /** Nothing of this very update is in its bank yet, or what counts as complete there is what would be delivered again. */
  ghost predicate Continues(env: Env, id: BankId, plan: Plan, bank: seq<byte>, manifest: seq<byte>, payload: seq<byte>)
    requires |bank| == BANK_SIZE && plan.baseGeneration < U64_MAX && |payload| <= PAYLOAD_MAX
  {
    HeaderOf(id, bank) == Some(HeaderFor(env, id, plan)) ==>
      && (ManifestStored(env, bank, plan) ==> HoldsManifest(bank, manifest))
      && forall i :: 0 <= i < BLOCK_COUNT && BlockStored(bank, plan, i) ==> HoldsChunk(bank, payload, i)
  }

  /** Undisturbed conditions: no fault to come, a clean device, a plan that may begin, and its content at hand. */
  ghost predicate Set(store: Store, plan: Plan, manifest: seq<byte>, payload: seq<byte>)
    reads store, store.flash, store.flash.bankA, store.flash.bankB
    requires store.flash.Valid()
  {
    && |payload| <= PAYLOAD_MAX && store.Calm() && store.undamaged && PlanIsValid(plan) && store.MayBegin(plan) && plan.baseGeneration < U64_MAX
    && Delivers(store.env, plan, manifest, payload)
    && Continues(store.env, store.Target(), plan, store.Bank(store.Target()), manifest, payload)
  }

  ghost predicate AllTake(store: Store)
    reads store.flash.bankA, store.flash.bankB
    requires store.flash.Valid()
  {
    RecordTakes(A, store.Bank(A)) && RecordTakes(B, store.Bank(B))
  }

  /** Begin or resume: afterwards nothing is committed in the bank, and undisturbed everything in it is ours. */
  method Open(store: Store, plan: Plan, manifest: seq<byte>, payload: seq<byte>) returns (r: StoreResult)
    requires store.Inv() && !store.updateActive
    modifies store, store.flash`faults, store.flash.bankA, store.flash.bankB
    ensures store.Inv() && store.Active() == old(store.Active()) && store.undamaged == old(store.undamaged)
    ensures r.StoreOk? <==> store.updateActive
    ensures r.StoreOk? ==> plan.baseGeneration < U64_MAX && store.updateBank == old(store.Target()) && store.update == HeaderFor(store.env, store.updateBank, plan)
    ensures r.StoreOk? ==> store.Valid(store.updateBank).None?
    ensures old(NoOrphan(store)) ==> NoOrphan(store)
    ensures r.StoreOk? && !old(MarkerThere(store, store.Target(), plan)) ==> !Marked(store)
    ensures NoNewMarker(old(store.Bank(A)), store.Bank(A)) && NoNewMarker(old(store.Bank(B)), store.Bank(B))
    ensures old(AllTake(store)) ==> AllTake(store) && (r.StoreOk? ==> store.CommitTakes())
    ensures old(AllTake(store) && Set(store, plan, manifest, payload)) ==> r.StoreOk? && store.Calm() && Ours(store, manifest, payload)
  {
    hide store.Inv, store.Active, CommitOf, Validate, Agree, PlanIsValid, store.ProgressExact, store.MayReclaim, Marker, Body, EncodeBody,
      EncodeMarker, store.MayBegin, RecordTakes, HeaderOf, Delivers, ManifestStored, BlockStored, HoldsManifest, HoldsChunk, store.JustBegun, TakesRecord,
      DeriveTxId;
    ghost var target := store.Target();
    ghost var t0 := store.Bank(target);
    var identity;
    r, identity := store.BeginOrResumeUpdate(plan);
    if !r.StoreOk? { return; }
    MarkerStarts(EncodeBody(target, store.update)[112..116], store.Bank(target));
    if old(AllTake(store)) { OpenedTakes(store); }
    if old(Set(store, plan, manifest, payload)) { OpenedIsOurs(store, plan, manifest, payload); }
  }

  lemma OpenedTakes(store: Store)
    requires store.Inv() && store.updateActive && RecordTakes(store.updateBank, store.Bank(store.updateBank))
    requires store.Staging(store.updateBank) == Some(store.update) || store.JustBegun()
    ensures store.CommitTakes()
  {
    hide store.Inv, HeaderOf, TakesRecord;
    if store.JustBegun() { BlankTakesRecord(store.updateBank, store.update, store.Bank(store.updateBank)); }
  }

  lemma OpenedIsOurs(store: Store, plan: Plan, manifest: seq<byte>, payload: seq<byte>)
    requires store.Inv() && store.updateActive && |payload| <= PAYLOAD_MAX && plan.baseGeneration < U64_MAX
    requires store.update == HeaderFor(store.env, store.updateBank, plan)
    requires store.JustBegun() || (store.Staging(store.updateBank) == Some(store.update) && store.ProgressExact()
             && Continues(store.env, store.updateBank, plan, store.Bank(store.updateBank), manifest, payload))
    ensures Ours(store, manifest, payload)
  {
    hide store.Inv, HeaderOf, ManifestStored, BlockStored, HoldsManifest, HoldsChunk;
    store.InvLengths();
  }

  /** Begin or resume, transfer, commit. */
  method AttemptBundleUpdate(store: Store, plan: Plan, manifest: seq<byte>, payload: seq<byte>) returns (r: StoreResult)
    requires store.Inv() && !store.updateActive
    modifies store, store.flash`faults, store.flash.bankA, store.flash.bankB
    ensures store.Inv() && OldOrNew(plan, old(store.Active()), store.Active()) && store.undamaged == old(store.undamaged)
    ensures r.StoreOk? ==> IsNew(plan, old(store.Active()), store.Active())
    ensures r.StoreOk? ==> !store.updateActive && store.selection.active == store.Active()
    // Whatever happened, the new bundle is current exactly if the attempt succeeded or its whole record reached flash.
    ensures old(store.undamaged && NoOrphan(store)) && !r.StoreOk? ==>
      (IsNew(plan, old(store.Active()), store.Active()) <==>
         store.updateActive && RecordWhole(store.env, store.updateBank, store.update, store.Bank(store.updateBank)))
    ensures IsNew(plan, old(store.Active()), store.Active()) ==> plan.baseGeneration < U64_MAX && Recorded(store, old(store.Target()), plan)
    ensures store.Active() != old(store.Active()) ==> plan.baseGeneration + 1 == NextGeneration(old(store.Active()))
    // The same, said of the sixteen marker octets alone, if they are not there to begin with.
    ensures plan.baseGeneration < U64_MAX && old(store.undamaged && NoOrphan(store) && !MarkerThere(store, store.Target(), plan)) ==>
      (IsNew(plan, old(store.Active()), store.Active()) <==> MarkerThere(store, old(store.Target()), plan))
    ensures old(store.undamaged && NoOrphan(store)) ==> NoOrphan(store)
    // Cut anywhere, the record's cells still take the record.
    ensures old(AllTake(store)) ==> AllTake(store)
    // Undisturbed it succeeds.
    ensures old(AllTake(store) && Set(store, plan, manifest, payload)) ==> r.StoreOk?
  {
    hide store.Inv, store.Active, CommitOf, Validate, PlanIsValid, SelfAuthenticated, Marker, Body, EncodeBody, EncodeMarker,
      RecordTakes, TakesRecord, Delivers, HeaderOf, DeriveTxId, Ours, store.Target, store.MayBegin, Continues;
    ghost var target := store.Target();
    ghost var t := store.Bank(target);
    r := Open(store, plan, manifest, payload);
    if !r.StoreOk? {
      if plan.baseGeneration < U64_MAX && Marker(t) != MarkerFor(store.env, target, plan) {
        NoMarkerOfItself(store.env, target, plan, t, store.Bank(target));
      }
      return;
    }
    store.StagedNext();
    r := Deliver(store, manifest, payload);
    if store.updateActive {
      store.StagedNext();
      RecordIsMarked(store);
    } else {
      store.ActiveIsValid();
    }
  }

  function MarkerFor(env: Env, id: BankId, plan: Plan): seq<byte>
    requires plan.baseGeneration < U64_MAX
  {
    EncodeMarker(EncodeBody(id, HeaderFor(env, id, plan))[112..116])
  }

  ghost predicate MarkerThere(store: Store, id: BankId, plan: Plan)
    reads store.flash.bankA, store.flash.bankB
    requires store.flash.Valid() && plan.baseGeneration < U64_MAX
  {
    Marker(store.Bank(id)) == MarkerFor(store.env, id, plan)
  }

  lemma NoMarkerOfItself(env: Env, id: BankId, plan: Plan, t: seq<byte>, t': seq<byte>)
    requires plan.baseGeneration < U64_MAX && |t| == |t'| == BANK_SIZE && NoNewMarker(t, t') && Marker(t) != MarkerFor(env, id, plan)
    ensures Marker(t') != MarkerFor(env, id, plan)
  {
    hide EncodeMarker, EncodeBody;
    MarkerStarts(EncodeBody(id, HeaderFor(env, id, plan))[112..116], t');
  }

  /** The plan's whole commit record is in bank `id`. */
  ghost predicate Recorded(store: Store, id: BankId, plan: Plan)
    reads store.flash.bankA, store.flash.bankB
    requires store.flash.Valid() && plan.baseGeneration < U64_MAX
  {
    RecordWhole(store.env, id, HeaderFor(store.env, id, plan), store.Bank(id))
  }

  /** A device on which nothing is half done: durable, clean, every commit record valid, every staged one resumable. */
  ghost predicate Clean(env: Env, flash: BankStorage)
    reads flash.bankA, flash.bankB
    requires flash.Valid()
  {
    var (a, b) := (flash.Bank(A), flash.Bank(B));
    && Durable(env, A, a, b) && TailsClean(A, a) && TailsClean(B, b) && RecordsBacked(env, flash)
  }

  ghost function Current(env: Env, flash: BankStorage): Option<Snapshot>
    reads flash.bankA, flash.bankB
    requires flash.Valid()
  {
    ActiveOf(env, A, flash.Bank(A), flash.Bank(B))
  }

  ghost function TargetOf(env: Env, flash: BankStorage): BankId
    reads flash.bankA, flash.bankB
    requires flash.Valid()
  {
    TargetBank(SelectBanks(Validate(env, A, flash.Bank(A)), Validate(env, B, flash.Bank(B))))
  }

  /** The plan builds on what is current, its bank is free for it, and its content is at hand. */
  ghost predicate Ready(env: Env, flash: BankStorage, plan: Plan, manifest: seq<byte>, payload: seq<byte>)
    reads flash.bankA, flash.bankB
    requires flash.Valid()
  {
    var s := SelectBanks(Validate(env, A, flash.Bank(A)), Validate(env, B, flash.Bank(B)));
    var id := TargetBank(s);
    && |payload| <= PAYLOAD_MAX && PlanIsValid(plan) && plan.baseGeneration < U64_MAX && BaseMatches(plan, s)
    && Accommodates(env, id, flash.Bank(id), plan, s.active)
    && Delivers(env, plan, manifest, payload) && Continues(env, id, plan, flash.Bank(id), manifest, payload)
    && RecordTakes(A, flash.Bank(A)) && RecordTakes(B, flash.Bank(B))
  }

  /** The marker octets of the plan's bank, where the plan's marker belongs. */
  ghost predicate MarkerIn(env: Env, flash: BankStorage, id: BankId, plan: Plan)
    reads flash.bankA, flash.bankB
    requires flash.Valid() && plan.baseGeneration < U64_MAX
  {
    Marker(flash.Bank(id)) == MarkerFor(env, id, plan)
  }

  /** The attempt under any faults at all, the reboot, the strict rescan and the boot sound's quick read. */
  method UpdateThroughPowerCut(flash: BankStorage, env: Env, plan: Plan, manifest: seq<byte>, payload: seq<byte>, later: seq<Fault>)
    returns (r: StoreResult, rebooted: Store, rs: StoreResult, rq: StoreResult, lease: Option<Lease>)
    requires flash.Valid() && Clean(env, flash)
    modifies flash`faults, flash.bankA, flash.bankB
    ensures fresh(rebooted) && rebooted.Inv() && rebooted.flash == flash && Clean(env, flash)
    ensures later == [] ==> rs.StoreOk?
    ensures rs.StoreOk? ==> !rebooted.selection.splitBrain
    ensures rs.StoreOk? ==> OldOrNew(plan, old(Current(env, flash)), rebooted.selection.active)
    ensures rs.StoreOk? && r.StoreOk? ==> IsNew(plan, old(Current(env, flash)), rebooted.selection.active)
    // The new one exactly if its whole marker is in flash at the reboot, in the bank it was meant for.
    ensures rs.StoreOk? && plan.baseGeneration < U64_MAX && !old(MarkerIn(env, flash, TargetOf(env, flash), plan)) ==>
      (IsNew(plan, old(Current(env, flash)), rebooted.selection.active) <==> MarkerIn(env, flash, old(TargetOf(env, flash)), plan))
    // The quick path exposes the same bundle, never a half-written one.
    ensures rs.StoreOk? && rq.StoreOk? ==>
      rebooted.selection.active.Some? && lease.Some? && Leased(lease.value, rebooted.selection.active.value)
    // Undisturbed, the update arrives and is what the reboot finds.
    ensures old(flash.faults == [] && Ready(env, flash, plan, manifest, payload)) && later == [] ==>
      r.StoreOk? && IsNew(plan, old(Current(env, flash)), rebooted.selection.active)
  {
    hide Validate, CommitOf, Durable, ActiveOf, TailsClean, Store.Inv, Leased, Marker, MarkerFor, Ready, Clean, IsNew, TargetOf, RecordTakes, RecordsBacked;
    r := AttemptFromBoot(flash, env, plan, manifest, payload);
    CleanParts(env, flash);
    flash.faults := later;
    rebooted, rs := Rescan(flash, env);
    rq, lease := QuickRead(flash, env);
  }

  method AttemptFromBoot(flash: BankStorage, env: Env, plan: Plan, manifest: seq<byte>, payload: seq<byte>) returns (r: StoreResult)
    requires flash.Valid() && Clean(env, flash)
    modifies flash`faults, flash.bankA, flash.bankB
    ensures Clean(env, flash)
    ensures OldOrNew(plan, old(Current(env, flash)), Current(env, flash))
    ensures r.StoreOk? ==> IsNew(plan, old(Current(env, flash)), Current(env, flash))
    ensures Current(env, flash) != old(Current(env, flash)) ==> plan.baseGeneration + 1 == NextGeneration(old(Current(env, flash)))
    ensures plan.baseGeneration < U64_MAX && !old(MarkerIn(env, flash, TargetOf(env, flash), plan)) ==>
      (IsNew(plan, old(Current(env, flash)), Current(env, flash)) <==> MarkerIn(env, flash, old(TargetOf(env, flash)), plan))
    ensures old(RecordTakes(A, flash.Bank(A)) && RecordTakes(B, flash.Bank(B))) ==> RecordTakes(A, flash.Bank(A)) && RecordTakes(B, flash.Bank(B))
    ensures old(flash.faults == [] && Ready(env, flash, plan, manifest, payload)) ==> r.StoreOk?
  {
    hide Validate, CommitOf, Durable, ActiveOf, TailsClean, Store.Inv, Marker, MarkerFor, RecordTakes, Ready, Set, IsNew, TargetOf, Clean;
    CleanParts(env, flash);
    var store := new Store(flash, env);
    BootView(store, plan);
    if Ready(env, flash, plan, manifest, payload) && flash.faults == [] { ReadyIsSet(store, plan, manifest, payload); }
    r := AttemptBundleUpdate(store, plan, manifest, payload);
    BootView(store, plan);
    StillClean(store);
  }

  /**
   * What an attempt may leave for the next: no header or a torn one, or a bank that still accommodates the plan, where what counts as
   * complete under its header is what would be delivered again.
   */
  ghost predicate CanBeTakenUp(env: Env, id: BankId, plan: Plan, active: Option<Snapshot>, bank: seq<byte>, manifest: seq<byte>, payload: seq<byte>)
    requires |bank| == BANK_SIZE && |payload| <= PAYLOAD_MAX
  {
    && plan.baseGeneration < U64_MAX && (HeaderOf(id, bank).None? || Accommodates(env, id, bank, plan, active))
    && Continues(env, id, plan, bank, manifest, payload)
  }

  /** A complete header of the plan's own is accommodated. */
  lemma OwnHeaderIsAccommodated(env: Env, id: BankId, plan: Plan, active: Option<Snapshot>, bank: seq<byte>)
    requires |bank| == BANK_SIZE && plan.baseGeneration < U64_MAX && HeaderOf(id, bank) == Some(HeaderFor(env, id, plan))
    ensures Accommodates(env, id, bank, plan, active)
  {
    hide HeaderOf, Validate, DeriveTxId;
  }

  /**
   * An attempt under any faults at all, a reboot, the repair of a torn header, and a second attempt, both undisturbed: the new bundle
   * ends up current, by the second attempt exactly if the first had not landed.
   */
  method UpdateTakenUpAgain(flash: BankStorage, env: Env, plan: Plan, manifest: seq<byte>, payload: seq<byte>)
    returns (r: StoreResult, again: StoreResult, ghost between: Option<Snapshot>, ghost left: seq<byte>)
    requires flash.Valid() && Clean(env, flash) && |payload| <= PAYLOAD_MAX
    modifies flash`faults, flash.bankA, flash.bankB
    ensures Clean(env, flash) && |left| == BANK_SIZE && OldOrNew(plan, old(Current(env, flash)), between)
    ensures old(Ready(env, flash, plan, manifest, payload))
            && CanBeTakenUp(env, old(TargetOf(env, flash)), plan, old(Current(env, flash)), left, manifest, payload) ==>
      && IsNew(plan, old(Current(env, flash)), Current(env, flash))
      && (again.StoreOk? <==> between == old(Current(env, flash)))
  {
    hide Validate, CommitOf, Durable, ActiveOf, TailsClean, Marker, MarkerFor, RecordTakes, Ready, TargetOf, Clean, CanBeTakenUp, Delivers,
      Continues, PlanIsValid, BaseMatches;
    ghost var ready, before, target := Ready(env, flash, plan, manifest, payload), Current(env, flash), TargetOf(env, flash);
    if ready { ReadyBuilds(env, flash, plan, manifest, payload); }
    TargetFollowsCurrent(env, flash);
    r := AttemptFromBoot(flash, env, plan, manifest, payload);
    TargetFollowsCurrent(env, flash);
    between, left := Current(env, flash), flash.Bank(target);
    flash.faults := [];
    Repair(flash, env, plan);
    TargetFollowsCurrent(env, flash);
    if ready && between == before && CanBeTakenUp(env, target, plan, before, left, manifest, payload) {
      ReadyAgain(env, flash, plan, left, manifest, payload);
    }
    flash.faults := [];
    again := AttemptFromBoot(flash, env, plan, manifest, payload);
  }

  ghost predicate BuildsOn(plan: Plan, active: Option<Snapshot>) {
    forall s: Selection :: s.active == active ==> BaseMatches(plan, s)
  }

  /** Restart, and discard what is torn in the bank that the plan targets; undisturbed, a torn header there is gone afterwards. */
  method Repair(flash: BankStorage, env: Env, plan: Plan)
    requires flash.Valid() && Clean(env, flash)
    modifies flash`faults, flash.bankA, flash.bankB
    ensures Clean(env, flash) && Current(env, flash) == old(Current(env, flash))
    ensures old(RecordTakes(A, flash.Bank(A)) && RecordTakes(B, flash.Bank(B))) ==> RecordTakes(A, flash.Bank(A)) && RecordTakes(B, flash.Bank(B))
    ensures var id, t := old(TargetOf(env, flash)), old(flash.Bank(TargetOf(env, flash)));
      old(flash.faults == [] && PlanIsValid(plan) && plan.baseGeneration < U64_MAX && BuildsOn(plan, Current(env, flash))) ==>
        if HeaderOf(id, t).Some? || All(t[..HEADER_BYTES], 0xFF) || Validate(env, id, t).Some?
        then flash.Bank(id) == t else All(flash.Bank(id), 0xFF)
  {
    hide Validate, CommitOf, Durable, ActiveOf, TailsClean, Store.Inv, TakesRecord, PlanIsValid, BaseMatches, All, HeaderOf, SelectBanks, TargetOf;
    CleanParts(env, flash);
    var store := new Store(flash, env);
    BootView(store, plan);
    ghost var id, t := TargetOf(env, flash), flash.Bank(TargetOf(env, flash));
    assert store.MayDiscard(id) <==> !(HeaderOf(id, t).Some? || All(t[..HEADER_BYTES], 0xFF) || Validate(env, id, t).Some?);
    store.ActiveIsSelected();
    if BuildsOn(plan, Current(env, flash)) { assert BaseMatches(plan, SelectBanks(store.Valid(A), store.Valid(B))); }
    var r := store.DiscardInvalidStaging(plan);
    BootView(store, plan);
    StillClean(store);
  }

  lemma ReadyBuilds(env: Env, flash: BankStorage, plan: Plan, manifest: seq<byte>, payload: seq<byte>)
    requires flash.Valid() && Ready(env, flash, plan, manifest, payload)
    ensures plan.baseGeneration < U64_MAX && plan.baseGeneration + 1 == NextGeneration(Current(env, flash))
    ensures PlanIsValid(plan) && Delivers(env, plan, manifest, payload)
    ensures BuildsOn(plan, Current(env, flash))
    ensures RecordTakes(A, flash.Bank(A)) && RecordTakes(B, flash.Bank(B))
  {
    hide Validate, RecordTakes, Accommodates, Delivers, Continues, PlanIsValid, SelectBanks;
  }

  /** The bank for the next update depends on what is current alone. */
  lemma TargetFollowsCurrent(env: Env, flash: BankStorage)
    requires flash.Valid()
    ensures TargetOf(env, flash) == match Current(env, flash) case Some(s) => s.bank.Other() case None => A
  {
    hide Validate, SelectBanks;
  }

  /** While the old bundle is current, a bank that could be taken up leaves the plan ready, once it is repaired. */
  lemma ReadyAgain(env: Env, flash: BankStorage, plan: Plan, left: seq<byte>, manifest: seq<byte>, payload: seq<byte>)
    requires flash.Valid() && |payload| <= PAYLOAD_MAX && PlanIsValid(plan) && Delivers(env, plan, manifest, payload)
    requires BuildsOn(plan, Current(env, flash)) && |left| == BANK_SIZE
    requires RecordTakes(A, flash.Bank(A)) && RecordTakes(B, flash.Bank(B))
    requires var id := TargetOf(env, flash);
      && CanBeTakenUp(env, id, plan, Current(env, flash), left, manifest, payload)
      && if HeaderOf(id, left).Some? || All(left[..HEADER_BYTES], 0xFF) || Validate(env, id, left).Some?
         then flash.Bank(id) == left else All(flash.Bank(id), 0xFF)
    ensures Ready(env, flash, plan, manifest, payload)
  {
    hide Validate, RecordTakes, Delivers, PlanIsValid, SelectBanks, BaseMatches, HeaderOf, DeriveTxId, ManifestStored, BlockStored, HoldsManifest, HoldsChunk;
    var id := TargetOf(env, flash);
    if flash.Bank(id) != left { HeaderNeedsMagic(id, flash.Bank(id)); }
  }

  lemma CleanParts(env: Env, flash: BankStorage)
    requires flash.Valid() && Clean(env, flash)
    ensures var (a, b) := (flash.Bank(A), flash.Bank(B)); Durable(env, A, a, b) && TailsClean(A, a) && TailsClean(B, b) && RecordsBacked(env, flash)
  {
    hide Durable, TailsClean, RecordsBacked;
  }

  lemma StillClean(store: Store)
    requires store.Inv() && store.undamaged && RecordsBacked(store.env, store.flash)
    ensures Clean(store.env, store.flash)
  {
    hide store.Inv, Durable, TailsClean, RecordsBacked;
    store.StableFacts();
  }

  /** A store's view of its flash is the flash's. */
  lemma BootView(store: Store, plan: Plan)
    requires store.Inv()
    ensures store.Active() == Current(store.env, store.flash) && store.Target() == TargetOf(store.env, store.flash)
    ensures NoOrphan(store) == RecordsBacked(store.env, store.flash)
    ensures plan.baseGeneration < U64_MAX ==> forall id :: MarkerThere(store, id, plan) == MarkerIn(store.env, store.flash, id, plan)
  {
    hide store.Inv, Validate, CommitOf, ActiveOf, Marker, MarkerFor, SelectBanks;
  }

  lemma ReadyIsSet(store: Store, plan: Plan, manifest: seq<byte>, payload: seq<byte>)
    requires store.Inv() && store.undamaged && (forall id :: !store.Pinned(id)) && store.Calm()
    requires Ready(store.env, store.flash, plan, manifest, payload)
    ensures AllTake(store) && Set(store, plan, manifest, payload)
  {
    hide store.Inv, Validate, RecordTakes, Accommodates, Delivers, Continues, PlanIsValid, BaseMatches, SelectBanks;
  }

  ghost predicate RecordsBacked(env: Env, flash: BankStorage)
    reads flash.bankA, flash.bankB
    requires flash.Valid()
  {
    && (CommitOf(A, flash.Bank(A)).Some? ==> Validate(env, A, flash.Bank(A)).Some?)
    && (CommitOf(B, flash.Bank(B)).Some? ==> Validate(env, B, flash.Bank(B)).Some?)
  }

  method Rescan(flash: BankStorage, env: Env) returns (store: Store, rs: StoreResult)
    requires flash.Valid() && Durable(env, A, flash.Bank(A), flash.Bank(B))
    modifies flash`faults
    ensures fresh(store) && store.flash == flash && store.Inv()
    ensures old(flash.faults) == [] ==> rs.StoreOk?
    ensures rs.StoreOk? ==> store.selection.active == ActiveOf(env, A, flash.Bank(A), flash.Bank(B)) && !store.selection.splitBrain
  {
    hide Validate, CommitOf, Durable, ActiveOf, TailsClean, Store.Inv;
    store := new Store(flash, env);
    rs := store.Scan();
  }

  method QuickRead(flash: BankStorage, env: Env) returns (rq: StoreResult, lease: Option<Lease>)
    requires flash.Valid() && Durable(env, A, flash.Bank(A), flash.Bank(B)) && RecordsBacked(env, flash)
    modifies flash`faults
    ensures rq.StoreOk? ==> lease.Some? && ActiveOf(env, A, flash.Bank(A), flash.Bank(B)).Some?
    ensures rq.StoreOk? ==> Leased(lease.value, ActiveOf(env, A, flash.Bank(A), flash.Bank(B)).value)
  {
    hide Validate, CommitOf, Durable, ActiveOf, TailsClean, Store.Inv, Leased, InUse;
    var store := new Store(flash, env);
    ValidIsReadable(env, A, flash.Bank(A));
    ValidIsReadable(env, B, flash.Bank(B));
    rq, lease := store.AcquireActiveRead();
  }
}
