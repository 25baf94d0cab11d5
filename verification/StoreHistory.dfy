/** Every history of the store: calls in any order under any faults, reboots, and corruption that checksums detect. */
module StoreHistory {
  import opened Options
  import opened Bytes
  import opened FlashStorage
  import opened BankFormat
  import opened BankSelection
  import opened StoreInvariants
  import opened SoundAssetStore
  import opened StoreOrder
  import Crc32

  type Contents = c: seq<byte> | |c| == BANK_SIZE witness Fill(BANK_SIZE, 0xFF)

  datatype Op =
    | Scan | Query | Ask(txid: TxId) | Begin(plan: Plan) | Resume(txid: TxId) | Manifest(data: seq<byte>)
    | Block(index: nat, data: seq<byte>) | Commit | Abort | Discard(plan: Plan) | Acquire | Release(lease: Lease)
    | Reboot | Damage(bank: BankId, contents: Contents)

  /** How one call may change the bundle that a restart would select. */
  predicate Explained(op: Op, before: Option<Snapshot>, after: Option<Snapshot>) {
    || after == before
    || (op.Commit? && IsNext(before, after))
    // Rewriting a part that is not marked complete, of a commit that flash holds but the store never acknowledged.
    || ((op.Manifest? || op.Block?) && (IsNext(before, after) || IsNext(after, before)))
    // Detected corruption costs the newest bundle: fall back by one generation, or to nothing.
    || (op.Damage? && before.Some? && (after.None? || before.value.generation == after.value.generation + 1))
  }

  /** No reader holds the bank that is being rewritten. */
  ghost predicate PinFree(store: Store)
    reads store`updateActive, store`updateBank, store`leases
  {
    store.updateActive ==> !store.Pinned(store.updateBank)
  }

  /** One call to the store. `seen` are the manifests that have stood in a bank under update. */
  method Step(store: Store, op: Op, ghost seen: set<seq<byte>>)
    requires store.Inv()
    modifies store, store.flash`faults, store.flash.bankA, store.flash.bankB
    ensures store.Inv() && Explained(op, old(store.Active()), store.Active())
    ensures op.Manifest? && store.Active() != old(store.Active()) ==>
      old(store.updateActive && !store.manifestComplete && store.AnnouncedManifest(op.data))
    ensures op.Block? && store.Active() != old(store.Active()) ==>
      old(store.updateActive && store.AnnouncedBlock(op.index, op.data) && |store.payloadComplete| == BLOCK_COUNT && !store.payloadComplete[op.index])
    // A pinned bank keeps every octet, unless it is the bank of the open update.
    ensures old(store.Pinned(A)) && store.Bank(A) != old(store.Bank(A)) ==> old(store.updateActive && store.updateBank.A?)
    ensures old(store.Pinned(B)) && store.Bank(B) != old(store.Bank(B)) ==> old(store.updateActive && store.updateBank.B?)
    // Exactly a successful reader of a stale selection pins a bank under update; only reading an unbacked bank makes one stale.
    ensures old(PinFree(store)) ==> (PinFree(store) <==> !(op.Acquire? && old(store.StaleRead()) && store.leases != old(store.leases)))
    ensures old(store.ReadsFresh()) ==> store.ReadsFresh() || (op.Acquire? && !old(store.Backed()))
    // Once the order of updates and readers holds, it is kept.
    ensures NoCollision(store.env, seen) && old(Ordered(store.env, Look(store), seen)) ==> Ordered(store.env, Look(store), seen + Held(Look(store)))
  {
    hide Store.Inv, ActiveOf, PinnedIn, Validate, CommitOf, HeaderOf, Ordered, Held, Look, FastReadable, Store.AnnouncedManifest, Store.AnnouncedBlock, IsNext,
      NoCollision;
    match op
    case Scan => StoreOrder.Scan(store, seen); Grown(store, seen);
    case Query => StoreOrder.Query(store, seen); Grown(store, seen);
    case Ask(t) => StoreOrder.Ask(store, t, seen); Grown(store, seen);
    case Begin(plan) => StoreOrder.Begin(store, plan, seen);
    case Resume(t) => StoreOrder.Resume(store, t, seen);
    case Manifest(data) => SendManifest(store, data, seen);
    case Block(i, data) => SendBlock(store, i, data, seen);
    case Commit => StoreOrder.Commit(store, seen);
    case Abort => StoreOrder.Abort(store, seen);
    case Discard(plan) => StoreOrder.Discard(store, plan, seen);
    case Acquire => StoreOrder.Acquire(store, seen); Grown(store, seen);
    case Release(l) => StoreOrder.Release(store, l, seen); Grown(store, seen);
    case Reboot => Grown(store, seen);
    case Damage(_, _) => Grown(store, seen);
  }

  lemma Grown(store: Store, seen: set<seq<byte>>)
    requires store.flash.Valid()
    ensures Ordered(store.env, Look(store), seen) ==> Ordered(store.env, Look(store), seen + Held(Look(store)))
  {
    hide Ordered, Look, Held;
    if Ordered(store.env, Look(store), seen) { SameOrder(store.env, Look(store), seen); }
  }

  // ---- corruption that checksums detect ----

  /**
   * Bank `id` is corrupted from `t` to `t'`, by any octets anywhere, but no record of it can be read as another one: neither as it
   * stands, nor once its own update has rewritten part of the body.
   */
  predicate Detected(env: Env, id: BankId, t: seq<byte>, o: seq<byte>, t': seq<byte>)
    requires |t| == |o| == BANK_SIZE
  {
    && |t'| == BANK_SIZE
    && (HeaderOf(id, t').Some? ==> HeaderOf(id, t') == HeaderOf(id, t))
    && (CommitOf(id, t').Some? ==> CommitOf(id, t') == CommitOf(id, t))
    && (Validate(env, id, t').Some? ==> Validate(env, id, t') == Validate(env, id, t))
    && RecordsAgree(env, id, t', o) && RecordsAgree(env, id.Other(), o, t')
  }

  /** Such corruption never splits the banks and never promotes anything: the store falls back by one generation or to nothing. */
  lemma DetectedIsDurable(env: Env, id: BankId, t: seq<byte>, o: seq<byte>, t': seq<byte>)
    requires |t| == |o| == BANK_SIZE && Durable(env, id, t, o) && Detected(env, id, t, o, t')
    ensures Durable(env, id, t', o)
    ensures Explained(Damage(id, t'), ActiveOf(env, id, t, o), ActiveOf(env, id, t', o))
  {
    hide HeaderOf, CommitOf, Validate, CommitStage, DeriveTxId;
  }

  /**
   * Damage to any one octet of a valid bank, whatever the octet and its new value, is such corruption. Only if the other bank is half
   * reclaimed, and so leans on this one, does the octet have to be of the staging or journal sector.
   */
  lemma OneOctetIsDetected(env: Env, id: BankId, t: seq<byte>, o: seq<byte>, i: nat, b: byte)
    requires |t| == |o| == BANK_SIZE && i < BANK_SIZE && Validate(env, id, t).Some? && Durable(env, id, t, o)
    requires RecordSettled(env, id.Other(), o) || i < MANIFEST_OFFSET || JOURNAL_OFFSET <= i < PAYLOAD_OFFSET
    requires i < HEADER_BYTES ==> HeaderOf(id, t).Some?
    ensures Detected(env, id, t, o, t[i := b])
  {
    hide HeaderOf, CommitOf, Validate, RecordSettled;
    var t' := t[i := b];
    ValidIsReadable(env, id, t);
    if b == t[i] {
      assert t' == t;
    } else if i < HEADER_BYTES {
      DamagedHeader(id, t, i, b);
      ValidateIgnoresStaging(env, id, t, t');
      NoHeaderIsSettled(env, id, t');
    } else if COMMIT_OFFSET <= i < MARKER_OFFSET + MARKER_BYTES {
      HeaderFrame(id, t, t');
      DamagedRecord(id, t, i, b);
      DamagedRecordIsSettled(env, id, t, i, b);
      UncommittedIsInvalid(env, id, t');
    } else {
      HeaderFrame(id, t, t');
      CommitFrame(id, t, t');
      ValidIsReadable(env, id, t');
      SettledElsewhere(env, id, t, t');
      if i < MANIFEST_OFFSET || JOURNAL_OFFSET <= i < PAYLOAD_OFFSET { ValidateIgnoresStaging(env, id, t, t'); }
    }
  }

  lemma DamagedHeader(id: BankId, t: seq<byte>, i: nat, b: byte)
    requires |t| == BANK_SIZE && i < HEADER_BYTES && HeaderOf(id, t).Some? && b != t[i]
    ensures HeaderOf(id, t[i := b]).None?
  {
    hide FromLE, BytesWord, Crc32.Crc, PlanIsValid, PlanFields, All;
    var s, s' := t[..HEADER_BYTES], t[i := b][..HEADER_BYTES];
    assert s' == s[i := b];
    if i < 700 {
      assert s'[..700] == s[..700][i := b] && s'[700..704] == s[700..704];
      Crc32.OneOctetChangeIsDetected(s[..700], i, b);
    } else {
      assert s'[..700] == s[..700];
      DamagedWord(s[700..704], s'[700..704], i - 700);
    }
  }

  lemma DamagedWord(w: seq<byte>, w': seq<byte>, k: nat)
    requires |w| == |w'| == 4 && k < 4 && w[k] != w'[k]
    ensures BytesWord(w) != BytesWord(w')
  {
    hide BytesWord, WordBytes;
    EncodeDecodeWord(w);
    EncodeDecodeWord(w');
  }

  lemma NoHeaderIsSettled(env: Env, id: BankId, t: seq<byte>)
    requires |t| == BANK_SIZE && HeaderOf(id, t).None?
    ensures RecordSettled(env, id, t)
  {
  }

  lemma SettledElsewhere(env: Env, id: BankId, t: seq<byte>, t': seq<byte>)
    requires |t| == |t'| == BANK_SIZE && HeaderOf(id, t') == HeaderOf(id, t) && RecordSettled(env, id, t)
    requires Agree(t, t', COMMIT_OFFSET, MARKER_OFFSET + MARKER_BYTES)
    ensures RecordSettled(env, id, t')
  {
    hide HeaderOf, CommitStage, SelfAuthenticated;
    if HeaderOf(id, t).Some? { CommitStageFrame(id, HeaderOf(id, t).value, t, t'); }
  }

  /** No octet of a commit record can change without the record ceasing to be one. */
  lemma DamagedRecord(id: BankId, t: seq<byte>, i: nat, b: byte)
    requires |t| == BANK_SIZE && CommitOf(id, t).Some? && COMMIT_OFFSET <= i < MARKER_OFFSET + MARKER_BYTES && b != t[i]
    ensures CommitOf(id, t[i := b]).None?
  {
    hide DecodeCommit;
    var t', k := t[i := b], i - COMMIT_OFFSET;
    if k < BODY_BYTES {
      assert Body(t') == Body(t)[k := b] && Marker(t') == Marker(t);
      DamagedBody(id, Body(t), Marker(t), k, b);
    } else {
      assert Body(t') == Body(t) && Marker(t')[i - MARKER_OFFSET] != Marker(t)[i - MARKER_OFFSET];
      DamagedMarker(id, Body(t), Marker(t), Marker(t'));
    }
  }

  lemma DamagedMarker(id: BankId, body: seq<byte>, marker: seq<byte>, marker': seq<byte>)
    requires |body| == BODY_BYTES && |marker| == |marker'| == MARKER_BYTES && DecodeCommit(id, body, marker).Some? && marker' != marker
    ensures DecodeCommit(id, body, marker').None?
  {
    hide FromLE, BytesWord, Crc32.Crc, EncodeMarker, All;
  }

  lemma DamagedBody(id: BankId, body: seq<byte>, marker: seq<byte>, k: nat, b: byte)
    requires |body| == BODY_BYTES && |marker| == MARKER_BYTES && DecodeCommit(id, body, marker).Some? && k < BODY_BYTES && b != body[k]
    ensures DecodeCommit(id, body[k := b], marker).None?
  {
    hide FromLE, BytesWord, Crc32.Crc, EncodeMarker;
    var body' := body[k := b];
    if k < 112 {
      assert body'[..112] == body[..112][k := b] && body'[112..116] == body[112..116];
      Crc32.OneOctetChangeIsDetected(body[..112], k, b);
    } else if k < 116 {
      assert body'[..112] == body[..112];
      DamagedWord(body[112..116], body'[112..116], k - 112);
    } else {
      assert body'[116..128][k - 116] == b && body[116..128][k - 116] == body[k];
    }
  }

  lemma DamagedRecordIsSettled(env: Env, id: BankId, t: seq<byte>, i: nat, b: byte)
    requires |t| == BANK_SIZE && CommitOf(id, t).Some? && COMMIT_OFFSET <= i < MARKER_OFFSET + MARKER_BYTES && b != t[i]
    requires RecordSettled(env, id, t) && HeaderOf(id, t[i := b]) == HeaderOf(id, t)
    ensures RecordSettled(env, id, t[i := b])
  {
    hide HeaderOf, SelfAuthenticated, CommitStage;
    if HeaderOf(id, t).Some? && SelfAuthenticated(env, id, HeaderOf(id, t).value) {
      DamagedStage(id, HeaderOf(id, t).value, t, i, b);
    }
  }

  lemma DamagedStage(id: BankId, h: Header, t: seq<byte>, i: nat, b: byte)
    requires |t| == BANK_SIZE && CommitOf(id, t).Some? && COMMIT_OFFSET <= i < MARKER_OFFSET + MARKER_BYTES && b != t[i] && CommitStage(id, h, t)
    ensures CommitStage(id, h, t[i := b])
  {
    hide EncodeBody, DecodeCommit, CommitOf;
    var t', e := t[i := b], EncodeBody(id, h);
    CommitNeedsMarker(id, t);
    StagedRecordReads(id, h, t);
    if i < MARKER_OFFSET {
      var k0 := i - COMMIT_OFFSET;
      assert Body(t') == e[k0 := b] && Marker(t') == Marker(t);
      DamagedRecord(id, t, i, b);
      RecordParts(id, t');
      forall k: nat | k <= BODY_BYTES ensures Harmless(id, e, Rewritten(e, Body(t'), k), Marker(t')) {
        if k <= k0 { assert Rewritten(e, Body(t'), k) == Body(t'); } else { assert Rewritten(e, Body(t'), k) == e; }
      }
    } else {
      assert Body(t') == e;
      hide CommitStage;
      WholeBodyStage(id, h, t');
    }
  }

  lemma RecordParts(id: BankId, t: seq<byte>)
    requires |t| == BANK_SIZE
    ensures CommitOf(id, t) == DecodeCommit(id, Body(t), Marker(t))
  {
    hide DecodeCommit;
  }

  method Corrupt(flash: BankStorage, id: BankId, contents: seq<byte>)
    requires flash.Valid() && |contents| == BANK_SIZE
    modifies flash.Cells(id)
    ensures flash.Bank(id) == contents
  {
    var cells := flash.Cells(id);
    for i := 0 to BANK_SIZE
      invariant cells[..i] == contents[..i]
    {
      cells[i] := contents[i];
    }
  }

  method Strike(flash: BankStorage, env: Env, id: BankId, contents: seq<byte>)
    requires flash.Valid() && Durable(env, A, flash.Bank(A), flash.Bank(B))
    requires Detected(env, id, flash.Bank(id), flash.Bank(id.Other()), contents)
    modifies flash.Cells(id)
    ensures flash.Bank(id) == contents
    ensures Durable(env, A, flash.Bank(A), flash.Bank(B))
    ensures Explained(Damage(id, contents), old(ActiveOf(env, A, flash.Bank(A), flash.Bank(B))), ActiveOf(env, A, flash.Bank(A), flash.Bank(B)))
  {
    hide Durable, ActiveOf, Detected, Explained;
    ghost var t, o := flash.Bank(id), flash.Bank(id.Other());
    Orient(env, id, t, o);
    assert |contents| == BANK_SIZE by { DetectedLength(env, id, t, o, contents); }
    DetectedIsDurable(env, id, t, o, contents);
    Orient(env, id, contents, o);
    Corrupt(flash, id, contents);
  }

  lemma DetectedLength(env: Env, id: BankId, t: seq<byte>, o: seq<byte>, t': seq<byte>)
    requires |t| == |o| == BANK_SIZE && Detected(env, id, t, o, t')
    ensures |t'| == BANK_SIZE
  {
  }

  // ---- whole histories ----

  /** What can be seen between two calls: what is active, the octets of both banks, which of them readers hold, whether the bank under
      update is free of readers, whether what passes the quick scan is valid, and the manifest standing in the bank under update. */
  datatype Moment = Moment(active: Option<Snapshot>, bankA: seq<byte>, bankB: seq<byte>, pinnedA: bool, pinnedB: bool,
                           free: bool, backed: bool, manifest: set<seq<byte>>)

  ghost function Now(store: Store): Moment
    reads store, store.flash.bankA, store.flash.bankB
    requires store.flash.Valid()
  {
    Moment(store.Active(), store.Bank(A), store.Bank(B), store.Pinned(A), store.Pinned(B), PinFree(store), store.Backed(), Held(Look(store)))
  }

  /** A moment for every call and the one after them all, and each step is explained by its call. */
  ghost predicate Recorded(ops: seq<Op>, ms: seq<Moment>) {
    |ms| == |ops| + 1 && forall k :: 0 <= k < |ops| ==> Explained(ops[k], ms[k].active, ms[k + 1].active)
  }

  /** No call changed an octet of a bank that a reader held. */
  ghost predicate Frozen(ops: seq<Op>, ms: seq<Moment>)
    requires |ms| == |ops| + 1
  {
    forall k :: 0 <= k < |ops| ==> Untouched(ops[k], ms[k], ms[k + 1])
  }

  predicate Untouched(op: Op, before: Moment, after: Moment) {
    !op.Reboot? && !op.Damage? ==>
      (before.pinnedA ==> after.bankA == before.bankA) && (before.pinnedB ==> after.bankB == before.bankB)
  }

  /** No reader was ever given the bank under update. */
  ghost predicate AlwaysFree(ms: seq<Moment>) {
    forall k :: 0 <= k < |ms| ==> ms[k].free
  }

  /** Whenever a reader acquired, what passed the quick scan was valid. */
  ghost predicate ReadersFindValid(ops: seq<Op>, ms: seq<Moment>)
    requires |ms| == |ops| + 1
  {
    forall k :: 0 <= k < |ops| && ops[k].Acquire? ==> ms[k].backed
  }

  /** The manifests that have stood in a bank under update. */
  ghost function Manifests(ms: seq<Moment>): set<seq<byte>> {
    if ms == [] then {} else Manifests(ms[..|ms| - 1]) + ms[|ms| - 1].manifest
  }

  lemma RecordExtends(ops: seq<Op>, ms: seq<Moment>, op: Op, m: Moment)
    requires Recorded(ops, ms) && Explained(op, ms[|ops|].active, m.active)
    ensures Recorded(ops + [op], ms + [m]) && Manifests(ms + [m]) == Manifests(ms) + m.manifest
  {
    hide Explained;
    assert (ms + [m])[..|ms|] == ms;
  }

  lemma FreedomExtends(ops: seq<Op>, ms: seq<Moment>, op: Op, m: Moment)
    requires |ms| == |ops| + 1
    ensures Frozen(ops, ms) && Untouched(op, ms[|ops|], m) ==> Frozen(ops + [op], ms + [m])
    ensures AlwaysFree(ms + [m]) <==> AlwaysFree(ms) && m.free
  {
    hide Untouched;
    var ms' := ms + [m];
    assert forall k :: 0 <= k < |ms| ==> ms'[k] == ms[k];
    if AlwaysFree(ms') {
      assert ms'[|ms|] == m;
      forall k | 0 <= k < |ms| ensures ms[k].free { assert ms'[k] == ms[k]; }
    }
  }

  lemma ReadersExtend(ops: seq<Op>, ms: seq<Moment>, op: Op, m: Moment)
    requires |ms| == |ops| + 1 && ReadersFindValid(ops + [op], ms + [m])
    ensures ReadersFindValid(ops, ms) && (op.Acquire? ==> ms[|ops|].backed)
  {
    var ops', ms' := ops + [op], ms + [m];
    assert ops'[|ops|] == op && ms'[|ops|] == ms[|ops|];
    assert forall k :: 0 <= k < |ops| ==> ops'[k] == ops[k] && ms'[k] == ms[k];
  }

  lemma NothingNeedsNoExplanation(op: Op, s: Option<Snapshot>)
    ensures Explained(op, s, s)
  {
  }

  /** Restart on what flash holds; RAM state and leases are gone. A damaged bank is damaged, whatever the damage. */
  method Restarted(store: Store, op: Op) returns (next: Store, forged: bool)
    requires store.Inv() && (op.Reboot? || op.Damage?)
    modifies store.flash.bankA, store.flash.bankB
    ensures forged <==> op.Damage? && !Detected(store.env, op.bank, old(store.Bank(op.bank)), old(store.Bank(op.bank.Other())), op.contents)
    ensures op.Damage? ==> store.Bank(op.bank) == op.contents && store.Bank(op.bank.Other()) == old(store.Bank(op.bank.Other()))
    ensures !forged ==>
      && fresh(next) && next.flash == store.flash && next.env == store.env && next.Inv() && next.ReadsFresh() && PinFree(next)
      && Explained(op, old(store.Active()), next.Active())
    ensures !forged ==> forall seen :: old(FirstInA(store.env, store.Bank(B))) ==> Ordered(next.env, Look(next), seen)
  {
    hide Durable, ActiveOf, Detected, Explained, Store.Inv, TailsClean, PinnedIn, Store.ReadsFresh, FirstInA, Ordered;
    var flash, env := store.flash, store.env;
    next, forged := store, false;
    ghost var b := store.Bank(B);
    store.StableFacts();
    NothingNeedsNoExplanation(op, store.Active());
    if op.Damage? {
      if !Detected(env, op.bank, flash.Cells(op.bank)[..], flash.Cells(op.bank.Other())[..], op.contents) {
        Corrupt(flash, op.bank, op.contents);
        forged := true;
        return;
      }
      StillFirstInA(env, op.bank, store.Bank(op.bank), store.Bank(op.bank.Other()), op.contents);
      Strike(flash, env, op.bank, op.contents);
    }
    next := new Store(flash, env);
    forall seen ensures FirstInA(env, b) ==> Ordered(env, Look(next), seen) {
      if FirstInA(env, b) { BootIsOrdered(next, seen); }
    }
  }

  lemma StillFirstInA(env: Env, id: BankId, t: seq<byte>, o: seq<byte>, t': seq<byte>)
    requires |t| == |o| == BANK_SIZE && Detected(env, id, t, o, t')
    ensures |t'| == BANK_SIZE && (id.B? && FirstInA(env, t) ==> FirstInA(env, t'))
  {
    hide HeaderOf, CommitOf, Validate, RecordsAgree;
  }

  lemma BootIsOrdered(store: Store, seen: set<seq<byte>>)
    requires store.Inv() && !store.updateActive && !store.scanned && !store.readScanned && FirstInA(store.env, store.Bank(B))
    ensures Ordered(store.env, Look(store), seen)
  {
    hide Store.Inv, FirstInA;
  }

  lemma FewerCollisions(env: Env, seen: set<seq<byte>>, more: set<seq<byte>>)
    requires seen <= more && NoCollision(env, more)
    ensures NoCollision(env, seen)
  {
  }

  lemma OrderedIsNotStale(store: Store, seen: set<seq<byte>>)
    requires store.flash.Valid() && Ordered(store.env, Look(store), seen)
    ensures !store.StaleRead() && FirstInA(store.env, store.Bank(B))
  {
    hide FirstInA, Opened, TargetUnread, RecordKept;
  }

  /** One call, restart or damage. */
  method Advance(store: Store, op: Op, ghost seen: set<seq<byte>>) returns (next: Store, forged: bool)
    requires store.Inv()
    modifies store, store.flash`faults, store.flash.bankA, store.flash.bankB
    ensures !forged ==>
      && (next == store || fresh(next)) && next.flash == store.flash && next.env == store.env && next.Inv()
      && Explained(op, old(store.Active()), next.Active())
    ensures !forged && old(PinFree(store)) ==> Untouched(op, old(Now(store)), Now(next))
    ensures !forged && old(PinFree(store) && store.ReadsFresh() && (op.Acquire? ==> store.Backed())) ==> next.ReadsFresh() && PinFree(next)
    ensures !forged && NoCollision(store.env, seen) && old(PinFree(store) && Ordered(store.env, Look(store), seen)) ==>
      PinFree(next) && Ordered(store.env, Look(next), seen + Held(Look(next)))
  {
    hide Durable, ActiveOf, Explained, Store.Inv, TailsClean, PinnedIn, Store.StaleRead, Store.ReadsFresh, Store.Backed, PinFree, Detected,
      FirstInA, Ordered, NoCollision, Held, Look;
    if Ordered(store.env, Look(store), seen) { OrderedIsNotStale(store, seen); }
    next, forged := store, false;
    if op.Reboot? || op.Damage? {
      next, forged := Restarted(store, op);
    } else {
      if store.ReadsFresh() { store.FreshReadsAreNotStale(); }
      if PinFree(store) { FreeMeansUntouched(store); }
      Step(store, op, seen);
    }
  }

  /**
   * From any durable pair of banks, every history keeps the store's invariant, and each step is explained by itself alone. A record
   * forged past the checksums ends what can be said.
   */
  method Run(flash: BankStorage, env: Env, ops: seq<Op>) returns (store: Store, ghost ms: seq<Moment>, forged: bool)
    requires flash.Valid() && Durable(env, A, flash.Bank(A), flash.Bank(B))
    modifies flash`faults, flash.bankA, flash.bankB
    ensures !forged ==> fresh(store) && store.flash == flash && store.env == env && store.Inv()
    ensures !forged ==> Recorded(ops, ms) && ms[0].active == old(ActiveOf(env, A, flash.Bank(A), flash.Bank(B))) && ms[|ops|] == Now(store)
    // No call ever changes a pinned bank where the first generation was staged in bank A, unless two manifests that stood in a bank
    // under update share a digest.
    ensures !forged && old(FirstInA(env, flash.Bank(B))) && NoCollision(env, Manifests(ms)) ==> Frozen(ops, ms) && AlwaysFree(ms)
    // Elsewhere that takes a reader who was given the bank under update,
    ensures !forged && AlwaysFree(ms) ==> Frozen(ops, ms)
    // which takes one who acquired while a bank passed the quick scan without being valid.
    ensures !forged && ReadersFindValid(ops, ms) ==> AlwaysFree(ms)
  {
    hide Durable, ActiveOf, Explained, Recorded, Store.Inv, TailsClean, PinnedIn, Store.ReadsFresh, PinFree, Detected, FirstInA, Ordered,
      NoCollision, Held, Look, Frozen, AlwaysFree, ReadersFindValid, Manifests, Untouched, Store.Backed;
    store := new Store(flash, env);
    ms, forged := [Now(store)], false;
    NothingPinned(store);
    RecordStarts(ms);
    ghost var inA := FirstInA(env, flash.Bank(B));
    if inA { BootIsOrdered(store, Manifests(ms)); }
    for k := 0 to |ops|
      invariant fresh(store) && store.flash == flash && store.env == env && store.Inv()
      invariant |ms| == k + 1 && ms[k] == Now(store) && Recorded(ops[..k], ms)
      invariant ms[0].active == old(ActiveOf(env, A, flash.Bank(A), flash.Bank(B)))
      invariant AlwaysFree(ms) ==> PinFree(store) && Frozen(ops[..k], ms)
      invariant ReadersFindValid(ops[..k], ms) ==> AlwaysFree(ms) && store.ReadsFresh()
      invariant inA && NoCollision(env, Manifests(ms)) ==> AlwaysFree(ms) && Ordered(env, Look(store), Manifests(ms))
    {
      ghost var seen := Manifests(ms);
      store, forged := Advance(store, ops[k], seen);
      if forged { return; }
      RecordExtends(ops[..k], ms, ops[k], Now(store));
      FreedomExtends(ops[..k], ms, ops[k], Now(store));
      if ReadersFindValid(ops[..k] + [ops[k]], ms + [Now(store)]) { ReadersExtend(ops[..k], ms, ops[k], Now(store)); }
      if NoCollision(env, Manifests(ms + [Now(store)])) { FewerCollisions(env, seen, Manifests(ms + [Now(store)])); }
      ms := ms + [Now(store)];
      assert ops[..k + 1] == ops[..k] + [ops[k]];
    }
    assert ops[..|ops|] == ops;
  }

  /** In particular over every history of a device that left the factory blank: no reader's bank is ever touched. */
  method RunFromFactory(env: Env, faults: seq<Fault>, ops: seq<Op>) returns (store: Store, ghost ms: seq<Moment>, forged: bool)
    ensures !forged ==> fresh(store) && store.env == env && store.Inv()
    ensures !forged ==> Recorded(ops, ms) && ms[0].active.None? && ms[|ops|] == Now(store)
    ensures !forged && NoCollision(env, Manifests(ms)) ==> Frozen(ops, ms) && AlwaysFree(ms)
  {
    hide FirstInA, NoCollision, Durable, ActiveOf, HeaderOf, Explained, Manifests, Frozen, AlwaysFree, Store.Inv, Held, Look, PinFree, Store.Backed;
    var flash := new BankStorage(faults);
    BlankFlashIsDurable(env, flash.Bank(A), flash.Bank(B));
    HeaderNeedsMagic(B, flash.Bank(B));
    assert FirstInA(env, flash.Bank(B)) by { NoHeaderIsFirstInA(env, flash.Bank(B)); }
    store, ms, forged := Run(flash, env, ops);
  }

  lemma NoHeaderIsFirstInA(env: Env, b: seq<byte>)
    requires |b| == BANK_SIZE && HeaderOf(B, b).None?
    ensures FirstInA(env, b)
  {
  }

  lemma NothingPinned(store: Store)
    requires forall id :: !store.Pinned(id)
    ensures PinFree(store)
  {
  }

  lemma FreeMeansUntouched(store: Store)
    requires PinFree(store)
    ensures store.Pinned(A) ==> !(store.updateActive && store.updateBank.A?)
    ensures store.Pinned(B) ==> !(store.updateActive && store.updateBank.B?)
  {
  }

  lemma RecordStarts(ms: seq<Moment>)
    requires |ms| == 1
    ensures Recorded([], ms) && Frozen([], ms) && ReadersFindValid([], ms) && (AlwaysFree(ms) <==> ms[0].free)
  {
  }
}
