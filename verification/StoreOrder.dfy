/** Which bank an update can open on, and why no reader is ever given that bank, over flash whose first generation is in bank A. */
module StoreOrder {
  import opened Options
  import opened Bytes
  import opened FlashStorage
  import opened BankFormat
  import opened BankSelection
  import opened StoreInvariants
  import opened SoundAssetStore
  import opened StoreRuns
  import Crc32

  /** What the order of updates and readers depends on. */
  datatype View = View(a: seq<byte>, b: seq<byte>, open: bool, bank: BankId, update: Header, marks: seq<bool>,
                       known: bool, shown: Selection, readKnown: bool)
  {
    predicate Whole() {
      |a| == |b| == BANK_SIZE
    }

    function Of(id: BankId): seq<byte> {
      if id.A? then a else b
    }

    function Active(env: Env): Option<Snapshot>
      requires Whole()
    {
      ActiveOf(env, A, a, b)
    }

    function Target(env: Env): BankId
      requires Whole()
    {
      match Active(env) case Some(s) => s.bank.Other() case None => A
    }

    function Next(env: Env): nat
      requires Whole()
    {
      NextGeneration(Active(env))
    }
  }

  ghost function Look(store: Store): (v: View)
    reads store, store.flash.bankA, store.flash.bankB
    requires store.flash.Valid()
    ensures v.Whole()
  {
    View(store.Bank(A), store.Bank(B), store.updateActive, store.updateBank, store.update, store.payloadComplete,
         store.scanned, store.readSelection, store.readScanned)
  }

  /** The first generation is staged in bank A only: an authentic header in bank B is of a later one. */
  predicate FirstInA(env: Env, b: seq<byte>)
    requires |b| == BANK_SIZE
  {
    HeaderOf(B, b).Some? && SelfAuthenticated(env, B, HeaderOf(B, b).value) ==> HeaderOf(B, b).value.generation >= 2
  }

  /** No two of these manifests share a digest. */
  ghost predicate NoCollision(env: Env, seen: set<seq<byte>>) {
    forall x, y :: x in seen && y in seen && env.sha256(x) == env.sha256(y) ==> x == y
  }

  /** What stands in the manifest region of the bank under update. */
  function Held(v: View): set<seq<byte>>
    requires v.Whole()
  {
    if v.open && v.update.plan.manifestBytes <= SECTOR then {Manifest(v.Of(v.bank), v.update.plan.manifestBytes)} else {}
  }

  /** The payload is what the plan announces together with a manifest that has been seen. */
  ghost predicate Restorable(env: Env, bank: seq<byte>, p: Plan, seen: set<seq<byte>>)
    requires |bank| == BANK_SIZE
  {
    p.payloadBytes <= PAYLOAD_MAX && exists m :: m in seen && Completes(env, bank, p, m)
  }

  predicate Completes(env: Env, bank: seq<byte>, p: Plan, m: seq<byte>)
    requires |bank| == BANK_SIZE && p.payloadBytes <= PAYLOAD_MAX
  {
    && |m| == p.manifestBytes && env.sha256(m) == p.manifestSha && FormatOk(env, m, Payload(bank, p.payloadBytes))
    && BundleDigest(env, m, Payload(bank, p.payloadBytes)) == p.bundleSha
  }

  /** The open update is of a later generation than the first if it is in bank B, and its manifest has been seen. */
  predicate Opened(v: View, seen: set<seq<byte>>)
    requires v.Whole()
  {
    (v.open && v.bank.B? ==> v.update.generation >= 2) && Held(v) <= seen
  }

  /** Readers are not given the bank under update, nor the one that the next update goes to. */
  predicate ReadersApart(env: Env, v: View)
    requires v.Whole()
  {
    v.readKnown && v.shown.active.Some? ==>
      && (v.open ==> v.shown.active.value.bank != v.bank)
      && (!v.open && v.known ==> v.shown.active.value.bank != v.Target(env))
  }

  /** Before readers look again: the target does not pass the quick scan, and a header there that could be resumed has nothing behind it. */
  ghost predicate TargetUnread(env: Env, v: View)
    requires v.Whole()
  {
    !v.open && v.known && !v.readKnown ==> Unread(env, v.Target(env), v.Of(v.Target(env)), v.Next(env))
  }

  ghost predicate Unread(env: Env, id: BankId, bank: seq<byte>, next: nat)
    requires |bank| == BANK_SIZE
  {
    !FastReadable(env, id, bank) && (MayResume(env, id, bank, next) ==> ErasedIn(bank, HEADER_BYTES, BANK_SIZE))
  }

  predicate MayResume(env: Env, id: BankId, bank: seq<byte>, next: nat)
    requires |bank| == BANK_SIZE
  {
    HeaderOf(id, bank).Some? && SelfAuthenticated(env, id, HeaderOf(id, bank).value) && HeaderOf(id, bank).value.generation == next
  }

  /** The same while an update is open: a record that is there is over the announced payload, and no block of it can be rewritten. */
  ghost predicate RecordKept(env: Env, v: View, seen: set<seq<byte>>)
    requires v.Whole()
  {
    v.open && v.known && !v.readKnown ==>
      && TailsAre(v.Of(v.bank), v.update.plan)
      && (CommitOf(v.bank, v.Of(v.bank)).Some? ==>
            AllMarkedIn(v.marks, v.update.plan) && Restorable(env, v.Of(v.bank), v.update.plan, seen))
  }

  predicate AllMarkedIn(marks: seq<bool>, p: Plan) {
    forall i :: 0 <= i < BlockCount(p.payloadBytes) && i < |marks| ==> marks[i]
  }

  ghost predicate Ordered(env: Env, v: View, seen: set<seq<byte>>)
    requires v.Whole()
  {
    FirstInA(env, v.b) && Opened(v, seen) && Apart(env, v, seen)
  }

  ghost predicate Apart(env: Env, v: View, seen: set<seq<byte>>)
    requires v.Whole()
  {
    ReadersApart(env, v) && TargetUnread(env, v) && RecordKept(env, v, seen)
  }

  // ---- where updates open ----

  lemma TargetIsOther(store: Store)
    requires store.Inv()
    ensures var v := Look(store);
      && store.Target() == v.Target(store.env) && store.Active() == v.Active(store.env) == store.Valid(v.Target(store.env).Other())
      && (store.Active().Some? ==> store.Active().value.bank == v.Target(store.env).Other() && store.Active().value.generation >= 1)
  {
    hide Validate, RecordsAgree, Store.CacheExact, Store.ReadCacheSound, TailsClean, LeasesDistinct, Store.Staged;
    SelectionIsExact(store.Valid(A), store.Valid(B));
    ValidNamesItsBank(store.env, A, store.Bank(A));
    ValidNamesItsBank(store.env, B, store.Bank(B));
  }

  /** An update that has not landed is of the next generation; only the first could be in either bank. */
  lemma OpenGeneration(store: Store)
    requires store.Inv() && store.updateActive && store.Valid(store.updateBank).None?
    ensures store.update.generation == NextGeneration(store.Active())
    ensures store.Active().Some? ==> store.updateBank == Look(store).Target(store.env)
  {
    hide Validate, ProgressSound, TailsAre, TailsClean, Durable, Store.CacheExact, LeasesDistinct, HeaderOf, CommitStage, ActiveOf, SelfAuthenticated, PlanIsValid;
    store.StagedSelection();
  }

  lemma OpensOnTarget(store: Store)
    requires store.Inv() && store.updateActive && store.Valid(store.updateBank).None?
    requires store.updateBank.B? ==> store.update.generation >= 2
    ensures store.updateBank == Look(store).Target(store.env) && store.update.generation == NextGeneration(store.Active())
  {
    hide Store.Inv, Validate, ActiveOf;
    OpenGeneration(store);
  }

  /** After any look at flash that replaces the selections, or forgets them. */
  lemma Refreshed(store: Store, seen: set<seq<byte>>)
    requires store.Inv()
    ensures var v := Look(store);
      (store.readScanned && !store.unbackedRead) || (!store.scanned && !store.readScanned) ==>
        Apart(store.env, v, seen)
  {
    hide Validate, Durable, TailsClean, LeasesDistinct, Store.Staged, SelectBanks, Unread, ActiveOf;
    if !store.updateActive && store.scanned { store.CachedSelection(); }
    TargetIsOther(store);
    store.ActiveIsSelected();
  }

  lemma ErasedHoldsNothing(id: BankId, bank: seq<byte>, p: Plan)
    requires |bank| == BANK_SIZE && ErasedIn(bank, HEADER_BYTES, BANK_SIZE) && PlanIsValid(p)
    ensures CommitOf(id, bank).None? && TailsAre(bank, p)
  {
    hide PlanIsValid, CommitOf, TailsAre;
    CommitNeedsVersion(id, bank);
    PlanBounds(p);
    TailsByIndex(bank, p);
  }

  /** A record over the announced payload passes the quick scan only with the announced manifest, and is then valid. */
  lemma RestoredIsValid(store: Store, seen: set<seq<byte>>)
    requires store.Inv() && store.updateActive && Opened(Look(store), seen) && RecordKept(store.env, Look(store), seen)
    requires NoCollision(store.env, seen) && store.scanned && !store.readScanned && store.Readable(store.updateBank)
    ensures store.Valid(store.updateBank).Some?
  {
    hide TailsErased, FormatOk, BundleDigest, ProgressSound, TailsClean, Durable, Store.CacheExact, LeasesDistinct, HeaderOf, CommitStage, EncodeBody, EncodeMarker, DecodeCommit;
    var t, p := store.Bank(store.updateBank), store.update.plan;
    store.OpenUpdate();
    PlanBounds(p);
    CommitStageDecodes(store.updateBank, store.update, t);
    var m :| m in seen && Completes(store.env, t, p, m);
    assert Manifest(t, p.manifestBytes) in Held(Look(store));
  }

  lemma SeenGrows(env: Env, v: View, seen: set<seq<byte>>, more: set<seq<byte>>)
    requires v.Whole() && RecordKept(env, v, seen) && seen <= more
    ensures RecordKept(env, v, more)
  {
    hide TailsAre, CommitOf, Completes, AllMarkedIn;
  }

  /** Nothing that matters has changed. */
  lemma SameOrder(env: Env, v: View, seen: set<seq<byte>>)
    requires v.Whole() && Ordered(env, v, seen)
    ensures Ordered(env, v, seen + Held(v))
  {
    hide ReadersApart, TargetUnread, RecordKept, FirstInA;
    SeenGrows(env, v, seen, seen + Held(v));
  }

  /** No authentic header of the first generation appears in bank B. */
  lemma StaysFirstInA(env: Env, b: seq<byte>, b': seq<byte>)
    requires |b| == |b'| == BANK_SIZE && FirstInA(env, b)
    requires HeaderOf(B, b').None? || HeaderOf(B, b') == HeaderOf(B, b) || HeaderOf(B, b').value.generation >= 2
    ensures FirstInA(env, b')
  {
    hide HeaderOf;
  }

  /** What a call without an open update found, and what it may have left of it. */
  ghost predicate Since(store: Store, v: View, seen: set<seq<byte>>)
    reads store, store.flash.bankA, store.flash.bankB
    requires store.flash.Valid()
  {
    && v.Whole() && !v.open && Apart(store.env, v, seen)
    && store.CachesAre(v.known, v.shown, v.readKnown) && v.Active(store.env) == store.Active()
  }

  /** Nothing was open and nothing is: the target is as it was, or holds no record and nothing that could be resumed. */
  lemma StillClosed(store: Store, v: View, seen: set<seq<byte>>)
    requires store.Inv() && !store.updateActive && Since(store, v, seen)
    requires store.Bank(v.Target(store.env)) == v.Of(v.Target(store.env)) || Emptied(store, v.Target(store.env), v.Next(store.env))
    ensures Apart(store.env, Look(store), seen) && Opened(Look(store), seen)
  {
    hide Store.Inv, ActiveOf, CommitOf, HeaderOf, ErasedIn, SelfAuthenticated, TailsAre, Completes, MayResume;
    Refreshed(store, seen);
  }

  ghost predicate Emptied(store: Store, id: BankId, next: nat)
    reads store.flash.bankA, store.flash.bankB
    requires store.flash.Valid()
  {
    store.Record(id).None? && (MayResume(store.env, id, store.Bank(id), next) ==> ErasedIn(store.Bank(id), HEADER_BYTES, BANK_SIZE))
  }

  /** An update has been opened on the target, over what was unread there or over an erased bank. */
  lemma NowOpen(store: Store, v: View, seen: set<seq<byte>>)
    requires store.Inv() && store.updateActive && store.scanned && store.Valid(store.updateBank).None? && Since(store, v, seen)
    requires store.updateBank == v.Target(store.env) && OpenedOver(store, v)
    ensures Opened(Look(store), seen + Held(Look(store))) && Apart(store.env, Look(store), seen + Held(Look(store)))
  {
    hide Store.Inv, ActiveOf, Validate, CommitOf, HeaderOf, ErasedIn, SelfAuthenticated, TailsAre, Completes;
    OpenGeneration(store);
    store.OpenUpdate();
    TargetIsOther(store);
    Refreshed(store, seen + Held(Look(store)));
    if ErasedIn(store.Bank(store.updateBank), HEADER_BYTES, BANK_SIZE) {
      ErasedHoldsNothing(store.updateBank, store.Bank(store.updateBank), store.update.plan);
    }
  }

  ghost predicate OpenedOver(store: Store, v: View)
    reads store`updateBank, store`update, store.flash.bankA, store.flash.bankB
    requires store.flash.Valid() && v.Whole()
  {
    || ErasedIn(store.Bank(store.updateBank), HEADER_BYTES, BANK_SIZE)
    || (store.Bank(store.updateBank) == v.Of(store.updateBank) && store.Staging(store.updateBank) == Some(store.update))
  }

  // ---- every call keeps the order ----

  method Scan(store: Store, ghost seen: set<seq<byte>>)
    requires store.Inv()
    modifies store`selection, store`scanned, store`readSelection, store`readScanned, store`readResult, store`unbackedRead, store.flash`faults
    ensures store.Inv() && (old(store.ReadsFresh()) ==> store.ReadsFresh())
    ensures old(Ordered(store.env, Look(store), seen)) ==> Ordered(store.env, Look(store), seen)
  {
    hide Store.Inv, FirstInA, Unread, Restorable, Validate, ActiveOf, TailsAre, HeaderOf;
    ghost var v := Look(store);
    var r := store.Scan();
    Refreshed(store, seen);
  }

  method Ask(store: Store, txid: TxId, ghost seen: set<seq<byte>>)
    requires store.Inv()
    modifies store`selection, store`scanned, store`readSelection, store`readScanned, store`readResult, store`unbackedRead, store.flash`faults
    ensures store.Inv() && (old(store.ReadsFresh()) ==> store.ReadsFresh())
    ensures old(Ordered(store.env, Look(store), seen)) ==> Ordered(store.env, Look(store), seen)
  {
    hide Store.Inv, FirstInA, Unread, Restorable, Validate, ActiveOf, TailsAre, HeaderOf, All;
    var r, outcome := store.QueryTransactionOutcome(txid);
    Refreshed(store, seen);
  }

  method Query(store: Store, ghost seen: set<seq<byte>>)
    requires store.Inv()
    modifies store`selection, store`scanned, store`readSelection, store`readScanned, store`readResult, store`unbackedRead
    modifies store`updateActive, store`updateBank, store`update, store`payloadComplete, store`manifestComplete, store.flash`faults
    ensures store.Inv() && (old(store.ReadsFresh()) ==> store.ReadsFresh())
    ensures store.updateActive ==> old(store.updateActive) && store.updateBank == old(store.updateBank)
    ensures old(Ordered(store.env, Look(store), seen)) ==> Ordered(store.env, Look(store), seen)
  {
    hide Store.Inv, FirstInA, Unread, Restorable, Validate, ActiveOf, TailsAre, HeaderOf;
    var r, active := store.QueryCurrentActive();
    Refreshed(store, seen);
  }

  method Begin(store: Store, plan: Plan, ghost seen: set<seq<byte>>)
    requires store.Inv()
    modifies store`selection, store`scanned, store`readSelection, store`readScanned, store`readResult, store`unbackedRead
    modifies store`updateActive, store`updateBank, store`update, store`payloadComplete, store`manifestComplete
    modifies store.flash`faults, store.flash.bankA, store.flash.bankB
    ensures store.Inv() && store.Active() == old(store.Active()) && (old(store.ReadsFresh()) ==> store.ReadsFresh())
    ensures store.Bank(A) == old(store.Bank(A)) || (!store.Pinned(A) && !old(store.updateActive))
    ensures store.Bank(B) == old(store.Bank(B)) || (!store.Pinned(B) && !old(store.updateActive))
    ensures store.updateActive && !old(store.updateActive) ==> !store.Pinned(store.updateBank)
    ensures old(store.updateActive) ==> store.updateActive && store.updateBank == old(store.updateBank)
    ensures old(Ordered(store.env, Look(store), seen)) ==> Ordered(store.env, Look(store), seen + Held(Look(store)))
  {
    hide Store.Inv, ActiveOf, SelectBanks, Validate, CommitOf, HeaderOf, TailsAre, ErasedIn, SelfAuthenticated, PinnedIn, PlanIsValid, All, BaseMatches,
      Accommodates, RecordTakes, Store.Obstructs, Store.ProgressExact, RecordKept, Reclaimable, NoNewMarker, FirstInA, Opened, ReadersApart, MayResume,
      TargetUnread, Apart;
    ghost var v, ordered := Look(store), Ordered(store.env, Look(store), seen);
    TargetIsOther(store);
    var r, identity := store.BeginOrResumeUpdate(plan);
    if ordered {
      if v.open || !PlanIsValid(plan) {
        SameOrder(store.env, v, seen);
      } else {
        BegunFirstInA(store, v);
        if store.updateActive {
          NowOpen(store, v, seen);
        } else {
          BeginRefused(store, v, seen);
          SameOrder(store.env, Look(store), seen);
        }
      }
    }
  }

  lemma BegunFirstInA(store: Store, v: View)
    requires store.Inv() && v.Whole() && FirstInA(store.env, v.b) && v.Active(store.env) == store.Active()
    requires store.Bank(B) == v.b || (v.Target(store.env).B? && store.StagedAnew(B, v.b, v.Next(store.env)))
    ensures FirstInA(store.env, store.Bank(B))
  {
    hide Store.Inv, ActiveOf, HeaderOf, FirstInA, ErasedIn;
    TargetIsOther(store);
    StaysFirstInA(store.env, v.b, store.Bank(B));
  }

  lemma BeginRefused(store: Store, v: View, seen: set<seq<byte>>)
    requires store.Inv() && !store.updateActive && Since(store, v, seen)
    requires var t := v.Target(store.env);
      || store.Bank(t) == v.Of(t)
      || (store.Record(t).None? && store.StagedAnew(t, v.Of(t), v.Next(store.env)) && Reclaimable(store.env, t, v.Of(t), store.Bank(t.Other())))
    ensures Apart(store.env, Look(store), seen) && Opened(Look(store), seen)
  {
    hide Store.Inv, ActiveOf, HeaderOf, ErasedIn, SelfAuthenticated, CommitOf, Validate, Apart;
    TargetIsOther(store);
    StillClosed(store, v, seen);
  }

  method Resume(store: Store, txid: TxId, ghost seen: set<seq<byte>>)
    requires store.Inv()
    modifies store`selection, store`scanned, store`readSelection, store`readScanned, store`readResult, store`unbackedRead
    modifies store`updateActive, store`updateBank, store`update, store`payloadComplete, store`manifestComplete, store.flash`faults
    ensures store.Inv() && (old(store.ReadsFresh()) ==> store.ReadsFresh())
    ensures store.updateActive && !old(store.updateActive) ==> !store.Pinned(store.updateBank)
    ensures old(store.updateActive) ==> store.updateActive && store.updateBank == old(store.updateBank)
    ensures old(Ordered(store.env, Look(store), seen)) ==> Ordered(store.env, Look(store), seen + Held(Look(store)))
  {
    hide Store.Inv, ActiveOf, Validate, CommitOf, HeaderOf, SelfAuthenticated, PinnedIn, All, Store.ProgressExact, Store.Resumable, Opened, Apart;
    ghost var v, ordered := Look(store), Ordered(store.env, Look(store), seen);
    var r, identity := store.ResumeUpdate(txid);
    if ordered {
      if v.open {
        SameOrder(store.env, v, seen);
      } else if store.updateActive {
        ResumedOnTarget(store);
        NowOpen(store, v, seen);
      } else {
        StillClosed(store, v, seen);
        SameOrder(store.env, Look(store), seen);
      }
    }
  }

  lemma ResumedOnTarget(store: Store)
    requires store.Inv() && store.updateActive && store.Valid(store.updateBank).None? && FirstInA(store.env, store.Bank(B))
    requires store.Staging(store.updateBank) == Some(store.update)
    ensures store.updateBank == Look(store).Target(store.env)
  {
    hide Store.Inv, ActiveOf, Validate, HeaderOf, SelfAuthenticated;
    store.OpenUpdate();
    OpensOnTarget(store);
  }

  method Discard(store: Store, plan: Plan, ghost seen: set<seq<byte>>)
    requires store.Inv()
    modifies store`selection, store`scanned, store`readSelection, store`readScanned, store`readResult, store`unbackedRead
    modifies store.flash`faults, store.flash.bankA, store.flash.bankB
    ensures store.Inv() && store.Active() == old(store.Active()) && (old(store.ReadsFresh()) ==> store.ReadsFresh())
    ensures store.Bank(A) == old(store.Bank(A)) || (!store.Pinned(A) && !old(store.updateActive))
    ensures store.Bank(B) == old(store.Bank(B)) || (!store.Pinned(B) && !old(store.updateActive))
    ensures old(Ordered(store.env, Look(store), seen)) ==> Ordered(store.env, Look(store), seen + Held(Look(store)))
  {
    hide Store.Inv, ActiveOf, SelectBanks, Validate, CommitOf, HeaderOf, SelfAuthenticated, PinnedIn, PlanIsValid, All, BaseMatches, Opened, Apart, FirstInA;
    ghost var v, ordered := Look(store), Ordered(store.env, Look(store), seen);
    TargetIsOther(store);
    var r := store.DiscardInvalidStaging(plan);
    if ordered {
      StaysFirstInA(store.env, v.b, store.Bank(B));
      if v.open {
        assert Look(store) == v;
      } else {
        Discarded(store, v, seen);
      }
      SameOrder(store.env, Look(store), seen);
    }
  }

  lemma Discarded(store: Store, v: View, seen: set<seq<byte>>)
    requires store.Inv() && !store.updateActive && v.Whole() && !v.open && Apart(store.env, v, seen) && v.Active(store.env) == store.Active()
    requires
      || (store.CachesAre(v.known, v.shown, v.readKnown) && store.Bank(A) == v.a && store.Bank(B) == v.b)
      || (!store.scanned && !store.readScanned)
      || (store.scanned && !store.readScanned && All(store.Bank(v.Target(store.env)), 0xFF))
    ensures Apart(store.env, Look(store), seen) && Opened(Look(store), seen)
  {
    hide Store.Inv, ActiveOf, CommitOf, HeaderOf, SelfAuthenticated, Apart;
    if store.CachesAre(v.known, v.shown, v.readKnown) && store.Bank(A) == v.a && store.Bank(B) == v.b {
      StillClosed(store, v, seen);
    } else if !store.scanned && !store.readScanned {
      Refreshed(store, seen);
    } else {
      var t := v.Target(store.env);
      CommitNeedsVersion(t, store.Bank(t));
      HeaderNeedsMagic(t, store.Bank(t));
      hide All;
      assert Apart(store.env, Look(store), seen) by { BlankIsUnread(store, v, seen); }
    }
  }

  lemma BlankIsUnread(store: Store, v: View, seen: set<seq<byte>>)
    requires store.Inv() && !store.updateActive && v.Whole() && v.Active(store.env) == store.Active()
    requires store.scanned && !store.readScanned
    requires store.Record(v.Target(store.env)).None? && store.Staging(v.Target(store.env)).None?
    ensures Apart(store.env, Look(store), seen)
  {
    hide Store.Inv, ActiveOf, CommitOf, HeaderOf, SelfAuthenticated, ErasedIn;
  }

  method Acquire(store: Store, ghost seen: set<seq<byte>>)
    requires store.Inv()
    modifies store`readSelection, store`readScanned, store`readResult, store`unbackedRead, store`leases, store`nextLeaseId, store.flash`faults
    ensures store.Inv() && (old(store.ReadsFresh() && store.Backed()) ==> store.ReadsFresh())
    // A bank under update gets its first reader exactly by a successful acquire of a selection that names it.
    ensures store.updateActive && !old(store.Pinned(store.updateBank)) ==>
      (store.Pinned(store.updateBank) <==> store.leases != old(store.leases) && old(store.StaleRead()))
    ensures old(Ordered(store.env, Look(store), seen)) ==> Ordered(store.env, Look(store), seen)
  {
    hide Store.Inv, ActiveOf, CommitOf, HeaderOf, SelfAuthenticated, PinnedIn, InUse, Leased, FirstInA, Opened, Apart, Store.LazyView, Store.Backed;
    ghost var v, ordered := Look(store), Ordered(store.env, Look(store), seen);
    var r, lease := store.AcquireActiveRead();
    if ordered { Shown(store, v, seen); }
  }

  lemma Shown(store: Store, v: View, seen: set<seq<byte>>)
    requires store.flash.Valid() && v.Whole() && Apart(store.env, v, seen) && Opened(v, seen)
    requires Look(store) == v.(shown := store.readSelection, readKnown := store.readScanned)
    requires v.readKnown || v.open ==> Look(store) == v
    requires !v.readKnown && store.readScanned && store.readSelection.active.Some? ==> store.NamesReadable(store.readSelection)
    ensures Apart(store.env, Look(store), seen) && Opened(Look(store), seen)
  {
    hide Store.Inv, ActiveOf, CommitOf, HeaderOf, SelfAuthenticated, ErasedIn, TailsAre, Completes, FastReadable;
  }

  /** Only the bank under update changes, and not its header. */
  lemma UpdateWrote(store: Store, v: View)
    requires store.flash.Valid() && v.Whole() && FirstInA(store.env, v.b)
    requires store.Bank(B) == v.b || store.Staging(B) == HeaderOf(B, v.b) || store.Staging(B).None?
    ensures FirstInA(store.env, store.Bank(B))
  {
    hide HeaderOf, FirstInA;
    StaysFirstInA(store.env, v.b, store.Bank(B));
  }

  /** While the update stays open and the caches are not replaced, only the kept record is in question. */
  lemma StillOpen(store: Store, v: View, seen: set<seq<byte>>)
    requires store.Inv() && v.Whole() && v.open && store.updateActive && store.updateBank == v.bank && store.update == v.update
    requires Opened(v, seen) && Apart(store.env, v, seen) && store.CachesAre(v.known, v.shown, v.readKnown)
    requires v.known && !v.readKnown && store.scanned && !store.readScanned ==> RecordKept(store.env, Look(store), seen + Held(Look(store)))
    ensures Apart(store.env, Look(store), seen + Held(Look(store))) && Opened(Look(store), seen + Held(Look(store)))
  {
    hide Store.Inv, ActiveOf, CommitOf, TailsAre, Completes, Restorable, AllMarkedIn;
    Refreshed(store, seen + Held(Look(store)));
  }

  /** A record over its payload stays so whatever happens to the manifest. */
  lemma KeptThroughManifest(env: Env, v: View, w: View, seen: set<seq<byte>>, more: set<seq<byte>>)
    requires v.Whole() && w.Whole() && v.open && RecordKept(env, v, seen) && seen <= more
    requires w == v.(a := w.a, b := w.b) && SameOutside(v.Of(v.bank), w.Of(v.bank), MANIFEST_OFFSET, SECTOR)
    requires TailsAre(v.Of(v.bank), v.update.plan) ==> TailsAre(w.Of(v.bank), v.update.plan)
    ensures RecordKept(env, w, more)
  {
    hide TailsAre, CommitOf, AllMarkedIn, FormatOk, BundleDigest;
    var t, t', p := v.Of(v.bank), w.Of(v.bank), v.update.plan;
    RecordOutside(v.bank, t, t', MANIFEST_OFFSET, SECTOR);
    if p.payloadBytes <= PAYLOAD_MAX { assert Payload(t', p.payloadBytes) == Payload(t, p.payloadBytes); }
  }

  method SendManifest(store: Store, data: seq<byte>, ghost seen: set<seq<byte>>)
    requires store.Inv()
    modifies store`manifestComplete, store.flash`faults, store.flash.Cells(store.updateBank)
    ensures store.Inv() && OneApart(old(store.Active()), store.Active())
    ensures store.Active() != old(store.Active()) ==> old(store.updateActive && !store.manifestComplete && store.AnnouncedManifest(data))
    ensures !store.updateActive ==> store.Bank(store.updateBank) == old(store.Bank(store.updateBank))
    ensures old(Ordered(store.env, Look(store), seen)) ==> Ordered(store.env, Look(store), seen + Held(Look(store)))
  {
    hide Store.Inv, ActiveOf, Validate, SameOutside, Manifest, ManifestStored, Store.NewMarker, Marker, Opened, Apart, FirstInA, TailsAre, IsNext,
      HeaderOf, RecordKept, Store.AnnouncedManifest, Store.ContentReady;
    ghost var v, ordered := Look(store), Ordered(store.env, Look(store), seen);
    if store.updateActive { store.StagedNext(); }
    var r := store.WriteManifest(data);
    if store.updateActive { store.StagedNext(); }
    if ordered {
      if v.open { ManifestInOrder(store, v, seen); } else { SameOrder(store.env, v, seen); }
    }
  }

  /** The bundles before and after are the same, or one generation apart. */
  predicate OneApart(before: Option<Snapshot>, after: Option<Snapshot>) {
    after == before || IsNext(before, after) || IsNext(after, before)
  }

  lemma ManifestInOrder(store: Store, v: View, seen: set<seq<byte>>)
    requires store.Inv() && v.Whole() && v.open && Ordered(store.env, v, seen)
    requires Look(store) == v.(a := store.Bank(A), b := store.Bank(B)) && store.Bank(v.bank.Other()) == v.Of(v.bank.Other())
    requires SameOutside(v.Of(v.bank), store.Bank(v.bank), MANIFEST_OFFSET, SECTOR)
    requires TailsAre(v.Of(v.bank), v.update.plan) ==> TailsAre(store.Bank(v.bank), v.update.plan)
    ensures Ordered(store.env, Look(store), seen + Held(Look(store)))
  {
    hide Store.Inv, ActiveOf, SameOutside, Opened, FirstInA, TailsAre, HeaderOf, RecordKept, TargetUnread, ReadersApart;
    HeaderOutside(v.bank, v.Of(v.bank), store.Bank(v.bank), MANIFEST_OFFSET, SECTOR);
    UpdateWrote(store, v);
    KeptThroughManifest(store.env, v, Look(store), seen, seen + Held(Look(store)));
    StillOpen(store, v, seen);
  }

  method SendBlock(store: Store, i: nat, data: seq<byte>, ghost seen: set<seq<byte>>)
    requires store.Inv()
    modifies store`payloadComplete, store.flash`faults, store.flash.Cells(store.updateBank)
    ensures store.Inv() && OneApart(old(store.Active()), store.Active())
    ensures store.Active() != old(store.Active()) ==>
      old(store.updateActive && store.AnnouncedBlock(i, data) && |store.payloadComplete| == BLOCK_COUNT && !store.payloadComplete[i])
    ensures !store.updateActive ==> store.Bank(store.updateBank) == old(store.Bank(store.updateBank))
    ensures old(Ordered(store.env, Look(store), seen)) ==> Ordered(store.env, Look(store), seen + Held(Look(store)))
  {
    hide Store.Inv, ActiveOf, Validate, SameOutside, Agree, BlockStored, Store.BlockHolds, JournalOctet, Store.NewMarker, Marker, Opened, Apart, FirstInA,
      TailsAre, IsNext, HeaderOf, RecordKept, Store.AnnouncedBlock, Store.MarksKept;
    ghost var v, ordered := Look(store), Ordered(store.env, Look(store), seen);
    if store.updateActive { store.StagedNext(); }
    store.InvLengths();
    var r := store.WritePayloadBlock(i, data);
    if store.updateActive { store.StagedNext(); }
    if ordered {
      if v.open { BlockInOrder(store, v, i, data, seen); } else { SameOrder(store.env, v, seen); }
    }
  }

  lemma BlockInOrder(store: Store, v: View, i: nat, data: seq<byte>, seen: set<seq<byte>>)
    requires store.Inv() && v.Whole() && v.open && Ordered(store.env, v, seen) && |v.marks| == BLOCK_COUNT
    requires Look(store) == v.(a := store.Bank(A), b := store.Bank(B), marks := store.payloadComplete)
    requires store.Bank(v.bank.Other()) == v.Of(v.bank.Other()) && SameOutside(v.Of(v.bank), store.Bank(v.bank), BlockOffset(i), BLOCK)
    requires !(store.AnnouncedBlock(i, data) && !v.marks[i]) ==> store.Bank(v.bank) == v.Of(v.bank)
    requires store.MarksKept(v.marks) && (TailsAre(v.Of(v.bank), v.update.plan) ==> TailsAre(store.Bank(v.bank), v.update.plan))
    ensures Ordered(store.env, Look(store), seen + Held(Look(store)))
  {
    hide Store.Inv, ActiveOf, SameOutside, Opened, FirstInA, TailsAre, HeaderOf, TargetUnread, ReadersApart, CommitOf, Completes, Crc32.Crc;
    var t, t' := v.Of(v.bank), store.Bank(v.bank);
    store.AnnouncedBlockIs(i, data);
    store.PlanFits();
    if t' != t {
      BlockFits(v.update.plan.payloadBytes, i);
      HeaderOutside(v.bank, t, t', BlockOffset(i), BLOCK);
      RecordOutside(v.bank, t, t', BlockOffset(i), BLOCK);
    }
    UpdateWrote(store, v);
    StillOpen(store, v, seen);
  }

  method Commit(store: Store, ghost seen: set<seq<byte>>)
    requires store.Inv()
    modifies store`selection, store`scanned, store`readSelection, store`readScanned, store`readResult, store`unbackedRead
    modifies store`updateActive, store`updateBank, store`update, store`payloadComplete, store`manifestComplete
    modifies store.flash`faults, store.flash.Cells(store.updateBank)
    ensures store.Inv() && (store.Active() == old(store.Active()) || IsNext(old(store.Active()), store.Active()))
    ensures !old(store.updateActive) ==> store.Bank(old(store.updateBank)) == old(store.Bank(store.updateBank))
    ensures store.updateActive ==> old(store.updateActive) && store.updateBank == old(store.updateBank)
    ensures old(store.ReadsFresh()) ==> store.ReadsFresh()
    ensures old(Ordered(store.env, Look(store), seen)) ==> Ordered(store.env, Look(store), seen + Held(Look(store)))
  {
    hide Store.Inv, ActiveOf, Validate, Agree, Marker, Body, EncodeBody, Store.ContentReady, Store.AllMarked, Store.MarksKept, Store.Committable, TakesRecord,
      TailsAre, Opened, Apart, FirstInA, IsNext, HeaderOf, Store.NewMarker, Store.LastOf, ContentReadyIn;
    ghost var v, ordered := Look(store), Ordered(store.env, Look(store), seen);
    ghost var ready := v.open && ContentReadyIn(store.env, v.Of(v.bank), v.update.plan);
    ReadyIn(store);
    if store.updateActive { store.StagedNext(); }
    var r := store.CommitUpdate();
    if store.updateActive { store.StagedNext(); }
    if ordered {
      if !v.open {
        SameOrder(store.env, v, seen);
      } else {
        CommitKeepsHeader(store, v);
        if r.StoreOk? { CommittedInOrder(store, seen); } else { CommitInOrder(store, v, ready, seen); }
      }
    }
  }

  lemma CommitKeepsHeader(store: Store, v: View)
    requires store.flash.Valid() && v.Whole() && FirstInA(store.env, v.b) && store.Bank(v.bank.Other()) == v.Of(v.bank.Other())
    requires Agree(v.Of(v.bank), store.Bank(v.bank), 0, COMMIT_OFFSET)
    ensures FirstInA(store.env, store.Bank(B)) && store.Staging(v.bank) == HeaderOf(v.bank, v.Of(v.bank))
  {
    hide HeaderOf, FirstInA;
    HeaderFrame(v.bank, v.Of(v.bank), store.Bank(v.bank));
    UpdateWrote(store, v);
  }

  lemma CommittedInOrder(store: Store, seen: set<seq<byte>>)
    requires store.Inv() && !store.updateActive && FirstInA(store.env, store.Bank(B)) && store.readScanned && !store.unbackedRead
    ensures Ordered(store.env, Look(store), seen + Held(Look(store)))
  {
    hide Store.Inv, FirstInA, Apart;
    Refreshed(store, seen + Held(Look(store)));
  }

  /** A commit that fails leaves the record as it was, or over matching content with every block marked. */
  lemma CommitInOrder(store: Store, v: View, ready: bool, seen: set<seq<byte>>)
    requires store.Inv() && v.Whole() && v.open && Ordered(store.env, v, seen) && FirstInA(store.env, store.Bank(B))
    requires store.updateActive && store.updateBank == v.bank && store.update == v.update && store.CachesAre(v.known, v.shown, v.readKnown)
    requires Agree(v.Of(v.bank), store.Bank(v.bank), 0, COMMIT_OFFSET) && store.MarksKept(v.marks)
    requires TailsAre(v.Of(v.bank), v.update.plan) ==> TailsAre(store.Bank(v.bank), v.update.plan)
    requires store.Bank(v.bank) != v.Of(v.bank) ==> store.AllMarked() && ready
    requires ready ==> ContentReadyIn(store.env, v.Of(v.bank), v.update.plan)
    ensures Ordered(store.env, Look(store), seen + Held(Look(store)))
  {
    hide Store.Inv, ActiveOf, FirstInA, TailsAre, HeaderOf, TargetUnread, ReadersApart, CommitOf, Completes;
    var t, t' := v.Of(v.bank), store.Bank(v.bank);
    if t' != t { ReadyIsRestorable(store, t, t', seen + Held(Look(store))); }
    StillOpen(store, v, seen);
  }

  predicate ContentReadyIn(env: Env, bank: seq<byte>, p: Plan)
    requires |bank| == BANK_SIZE
  {
    p.manifestBytes <= SECTOR && p.payloadBytes <= PAYLOAD_MAX && ContentMatches(env, bank, p.manifestBytes, p.payloadBytes, p.manifestSha, p.bundleSha)
  }

  lemma ReadyIn(store: Store)
    requires store.flash.Valid()
    ensures store.ContentReady() <==> ContentReadyIn(store.env, Look(store).Of(store.updateBank), store.update.plan)
  {
    hide ContentMatches;
  }

  lemma ReadyIsRestorable(store: Store, t: seq<byte>, t': seq<byte>, seen: set<seq<byte>>)
    requires store.flash.Valid() && store.updateActive && |t| == BANK_SIZE && t' == store.Bank(store.updateBank)
    requires ContentReadyIn(store.env, t, store.update.plan) && Agree(t, t', 0, COMMIT_OFFSET) && Held(Look(store)) <= seen
    ensures Restorable(store.env, t', store.update.plan, seen)
  {
    hide FormatOk, BundleDigest;
    var p := store.update.plan;
    AgreeSlice(t, t', MANIFEST_OFFSET, MANIFEST_OFFSET + p.manifestBytes);
    AgreeSlice(t, t', PAYLOAD_OFFSET, PAYLOAD_OFFSET + p.payloadBytes);
    assert Manifest(t', p.manifestBytes) in Held(Look(store));
    assert Completes(store.env, t', p, Manifest(t', p.manifestBytes));
  }

  method Abort(store: Store, ghost seen: set<seq<byte>>)
    requires store.Inv()
    modifies store`selection, store`scanned, store`readSelection, store`readScanned, store`readResult, store`unbackedRead
    modifies store`updateActive, store`updateBank, store`update, store`payloadComplete, store`manifestComplete
    modifies store.flash`faults, store.flash.Cells(store.updateBank)
    ensures store.Inv() && store.Active() == old(store.Active()) && (old(store.ReadsFresh()) ==> store.ReadsFresh())
    ensures !old(store.updateActive) ==> store.Bank(old(store.updateBank)) == old(store.Bank(store.updateBank))
    ensures store.updateActive ==> old(store.updateActive) && store.updateBank == old(store.updateBank)
    ensures NoCollision(store.env, seen) && old(Ordered(store.env, Look(store), seen)) ==> Ordered(store.env, Look(store), seen + Held(Look(store)))
  {
    hide Store.Inv, ActiveOf, Validate, Agree, TailsAre, Opened, Apart, FirstInA, HeaderOf;
    ghost var v, ordered := Look(store), NoCollision(store.env, seen) && Ordered(store.env, Look(store), seen);
    ghost var landed := store.Landed();
    if ordered && v.open && !landed { AbortedUnread(store, seen); }
    var r := store.AbortUpdate();
    if ordered {
      if !v.open {
        SameOrder(store.env, v, seen);
      } else if store.updateActive {
        AbortKeptOpen(store, v, seen);
      } else if landed {
        CommittedInOrder(store, seen);
      } else {
        AbortedInOrder(store, v, seen);
      }
    }
  }

  /** Before an update that has not landed is given up: it is on the target, and readers who look again will not find it. */
  lemma AbortedUnread(store: Store, seen: set<seq<byte>>)
    requires store.Inv() && store.updateActive && !store.Landed() && NoCollision(store.env, seen) && Ordered(store.env, Look(store), seen)
    ensures store.updateBank == Look(store).Target(store.env)
    ensures store.scanned && !store.readScanned ==> !FastReadable(store.env, store.updateBank, store.Bank(store.updateBank))
  {
    hide Store.Inv, ActiveOf, Validate, FirstInA, FastReadable, RecordKept, ReadersApart, TargetUnread;
    OpensOnTarget(store);
    if store.scanned && !store.readScanned && store.Readable(store.updateBank) { RestoredIsValid(store, seen); }
  }

  lemma SameBeyondHeader(env: Env, id: BankId, t: seq<byte>, t': seq<byte>, p: Plan)
    requires |t| == |t'| == BANK_SIZE && Agree(t, t', SECTOR, BANK_SIZE)
    ensures CommitOf(id, t') == CommitOf(id, t) && FastReadable(env, id, t') == FastReadable(env, id, t) && TailsAre(t', p) == TailsAre(t, p)
    ensures p.payloadBytes <= PAYLOAD_MAX ==> Payload(t', p.payloadBytes) == Payload(t, p.payloadBytes)
  {
    hide CommitOf, TailsErased;
    AgreeWithin(t, t', SECTOR, BANK_SIZE, COMMIT_OFFSET, MARKER_OFFSET + MARKER_BYTES);
    CommitFrame(id, t, t');
    AgreeWithin(t, t', SECTOR, BANK_SIZE, MANIFEST_OFFSET, JOURNAL_OFFSET);
    AgreeWithin(t, t', SECTOR, BANK_SIZE, PAYLOAD_OFFSET, BANK_SIZE);
    if p.manifestBytes <= SECTOR && p.payloadBytes <= PAYLOAD_MAX { ContentFrame(t, t', p.manifestBytes, p.payloadBytes); }
    if p.payloadBytes <= PAYLOAD_MAX { AgreeSlice(t, t', PAYLOAD_OFFSET, PAYLOAD_OFFSET + p.payloadBytes); }
    match CommitOf(id, t)
    case None =>
    case Some(s) => AgreeSlice(t, t', MANIFEST_OFFSET, MANIFEST_OFFSET + s.manifestBytes);
  }

  lemma AbortKeptOpen(store: Store, v: View, seen: set<seq<byte>>)
    requires store.Inv() && v.Whole() && v.open && Ordered(store.env, v, seen) && store.updateActive && store.CachesAre(v.known, v.shown, v.readKnown)
    requires store.updateBank == v.bank && store.update == v.update && store.payloadComplete == v.marks
    requires Agree(v.Of(v.bank), store.Bank(v.bank), SECTOR, BANK_SIZE) && store.Bank(v.bank.Other()) == v.Of(v.bank.Other())
    ensures Ordered(store.env, Look(store), seen + Held(Look(store)))
  {
    hide Store.Inv, ActiveOf, FirstInA, TailsAre, HeaderOf, TargetUnread, ReadersApart, CommitOf, FormatOk, BundleDigest, AllMarkedIn, FastReadable;
    SameBeyondHeader(store.env, v.bank, v.Of(v.bank), store.Bank(v.bank), v.update.plan);
    OpenHeader(store);
    StaysFirstInA(store.env, v.b, store.Bank(B));
    StillOpen(store, v, seen);
  }

  lemma OpenHeader(store: Store)
    requires store.Inv() && store.updateActive
    ensures store.Staging(store.updateBank).None? || store.Staging(store.updateBank) == Some(store.update)
  {
    hide HeaderOf, Validate, Durable, ProgressSound, TailsAre, TailsClean, Store.CacheExact, LeasesDistinct, CommitStage;
  }

  lemma AbortedInOrder(store: Store, v: View, seen: set<seq<byte>>)
    requires store.Inv() && v.Whole() && v.open && Ordered(store.env, v, seen) && !store.updateActive && store.CachesAre(v.known, v.shown, v.readKnown)
    requires v.bank == v.Target(store.env) && store.Active() == v.Active(store.env) && store.Staging(v.bank).None?
    requires v.known && !v.readKnown ==> !FastReadable(store.env, v.bank, v.Of(v.bank))
    requires Agree(v.Of(v.bank), store.Bank(v.bank), SECTOR, BANK_SIZE) && store.Bank(v.bank.Other()) == v.Of(v.bank.Other())
    ensures Ordered(store.env, Look(store), seen + Held(Look(store)))
  {
    hide Store.Inv, ActiveOf, FirstInA, TailsAre, HeaderOf, CommitOf, Completes, FastReadable;
    SameBeyondHeader(store.env, v.bank, v.Of(v.bank), store.Bank(v.bank), v.update.plan);
    StaysFirstInA(store.env, v.b, store.Bank(B));
    Refreshed(store, seen + Held(Look(store)));
  }

  method Release(store: Store, lease: Lease, ghost seen: set<seq<byte>>)
    requires store.Inv()
    modifies store`leases
    ensures store.Inv() && forall id :: store.Pinned(id) ==> old(store.Pinned(id))
    ensures old(Ordered(store.env, Look(store), seen)) ==> Ordered(store.env, Look(store), seen)
  {
    hide Store.Inv, Ordered;
    var r := store.ReleaseRead(lease);
  }
}
