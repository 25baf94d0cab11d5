/** The session's actions carried out on the store: nothing is touched for another transaction, and what the store reports the session accepts. */
module StoreExecutor {
  import opened Options
  import opened Bytes
  import opened FlashStorage
  import opened BankFormat
  import opened SoundAssetStore
  import opened StoreInvariants
  import S = AssetsSession

  /** The App-visible progress of an open update. */
  function Report(h: Header, bank: BankId, manifestComplete: bool, done: seq<bool>): S.Progress
    requires |done| == BLOCK_COUNT
  {
    var count := BlockCount(h.plan.payloadBytes);
    S.Progress(Identity(h.generation, bank, h.txid), h.plan.manifestBytes, h.plan.payloadBytes, manifestComplete,
               seq(BLOCK_COUNT, i requires 0 <= i < BLOCK_COUNT => i < count && done[i]), h.plan.bundleSha)
  }

  ghost function Current(store: Store): Option<S.Progress>
    reads store`updateActive, store`update, store`updateBank, store`manifestComplete, store`payloadComplete
    requires |store.payloadComplete| == BLOCK_COUNT
  {
    if store.updateActive then Some(Report(store.update, store.updateBank, store.manifestComplete, store.payloadComplete)) else None
  }

  lemma ReportIsWellFormed(store: Store)
    requires store.Inv() && store.updateActive
    ensures |store.payloadComplete| == BLOCK_COUNT && S.WellFormed(Current(store).value)
  {
    hide PlanIsValid, SelfAuthenticated, Store.Inv;
    store.InvLengths();
    store.OpenUpdate();
    PlanBounds(store.update.plan);
    NamesATransaction(store.env, store.updateBank, store.update);
  }

  lemma NamesATransaction(env: Env, bank: BankId, h: Header)
    requires SelfAuthenticated(env, bank, h)
    ensures !All(h.txid, 0)
  {
    hide All, DeriveTxId;
  }

  method UpdateProgress(store: Store) returns (p: Option<S.Progress>)
    requires store.Inv()
    ensures |store.payloadComplete| == BLOCK_COUNT && p == Current(store)
    ensures p.Some? ==> S.WellFormed(p.value) && p.value.identity == store.CurrentIdentity()
  {
    hide Store.Inv;
    store.InvLengths();
    if !store.updateActive { return None; }
    ReportIsWellFormed(store);
    p := Some(Report(store.update, store.updateBank, store.manifestComplete, store.payloadComplete));
  }

  function Failed(token: nat, kind: S.ActionKind, r: StoreResult): S.Completion {
    S.Completion(token, kind, r, None, None, None, 0, 0, None)
  }

  /** Begin: the open update is exactly the plan's. */
  method ExecuteBegin(store: Store, token: nat, plan: Plan) returns (c: S.Completion)
    requires store.Inv()
    modifies store, store.flash`faults, store.flash.bankA, store.flash.bankB
    ensures store.Inv() && c.token == token && c.kind == S.BeginAction && |store.payloadComplete| == BLOCK_COUNT
    ensures c.result.StoreOk? ==> c.progress.Some? && c.progress == Current(store) && c.identity == Some(c.progress.value.identity)
    ensures c.result.StoreOk? ==> S.WellFormed(c.progress.value) && OfPlan(c.progress.value, plan) && store.update.plan == plan
  {
    hide Store.Inv, PlanIsValid, SelfAuthenticated, S.WellFormed, Store.Valid, Store.Staging, Validate, HeaderOf, Agree;
    store.InvLengths();
    var r, identity := store.BeginOrResumeUpdate(plan);
    store.InvLengths();
    if !r.StoreOk? { return Failed(token, S.BeginAction, r); }
    var p := UpdateProgress(store);
    c := Failed(token, S.BeginAction, StoreOk).(progress := p, identity := identity);
  }

  predicate OfPlan(p: S.Progress, plan: Plan) {
    p.manifestBytes == plan.manifestBytes && p.payloadBytes == plan.payloadBytes && p.bundleSha == plan.bundleSha
  }

  /** A manifest or block write: only for the named transaction, and then progress only grows. */
  method ExecuteWrite(store: Store, manifest: bool, token: nat, expected: Identity, bytes: seq<byte>, index: nat) returns (c: S.Completion)
    requires store.Inv()
    modifies store`manifestComplete, store`payloadComplete, store.flash`faults, store.flash.Cells(store.updateBank)
    ensures store.Inv() && c.token == token && c.kind == (if manifest then S.ManifestAction else S.BlockAction)
    ensures |store.payloadComplete| == |old(store.payloadComplete)| == BLOCK_COUNT
    ensures !old(Named(store, expected)) ==> c.result.TransactionMismatch? && unchanged(store) && store.Bank(A) == old(store.Bank(A)) && store.Bank(B) == old(store.Bank(B))
    ensures c.result.StoreOk? ==> c.progress.Some? && c.progress == Current(store) && S.WellFormed(c.progress.value)
    ensures c.result.StoreOk? ==> old(Current(store)).Some? && Grown(c.progress.value, old(Current(store)).value)
    ensures c.result.StoreOk? ==>
      if manifest then c.progress.value.manifestComplete else index < BLOCK_COUNT && c.progress.value.blocks[index]
  {
    hide Store.Inv, S.WellFormed;
    var kind := if manifest then S.ManifestAction else S.BlockAction;
    var before := UpdateProgress(store);
    if before.None? || before.value.identity != expected { return Failed(token, kind, TransactionMismatch); }
    if bytes == [] { return Failed(token, kind, StoreInvalidArgument); }
    var r;
    if manifest { r := store.WriteManifest(bytes); } else { r := store.WritePayloadBlock(index, bytes); }
    store.InvLengths();
    if !r.StoreOk? { return Failed(token, kind, r); }
    if !manifest { BlockCountLengths(store.update.plan, index); }
    var p := UpdateProgress(store);
    c := Failed(token, kind, StoreOk).(progress := p);
  }

  /** Commit or abort: only the named transaction ends, as the new bundle or as nothing. */
  method ExecuteTerminal(store: Store, commit: bool, token: nat, expected: Identity) returns (c: S.Completion)
    requires store.Inv()
    modifies store, store.flash`faults, store.flash.Cells(store.updateBank)
    ensures store.Inv() && c == Failed(token, if commit then S.CommitAction else S.AbortAction, c.result)
    ensures !old(Named(store, expected)) ==> c.result.TransactionMismatch? && unchanged(store) && store.Bank(A) == old(store.Bank(A)) && store.Bank(B) == old(store.Bank(B))
    ensures c.result.StoreOk? ==> !store.updateActive
    ensures c.result.StoreOk? && commit ==> store.Active() == Some(old(store.NewSnapshot()))
    ensures !commit ==> store.Active() == old(store.Active())
    ensures !c.result.StoreOk? ==> store.updateActive == old(store.updateActive) && store.update == old(store.update) && store.updateBank == old(store.updateBank)
  {
    hide Store.Inv, S.WellFormed, Store.Active, Store.NewSnapshot, Store.Committable, TakesRecord, Marker, Body, EncodeBody, Store.NewMarker,
      Store.ContentReady, Store.Landed, Agree, Store.LastOf, Store.Valid, Store.Staging;
    var kind := if commit then S.CommitAction else S.AbortAction;
    var before := UpdateProgress(store);
    if before.None? || before.value.identity != expected { return Failed(token, kind, TransactionMismatch); }
    var r;
    if commit { r := store.CommitUpdate(); } else { r := store.AbortUpdate(); }
    c := Failed(token, kind, r);
  }

  /** What became of a transaction that is not the open one. */
  method CaptureOutcome(store: Store, token: nat, txid: TxId) returns (c: S.Completion)
    requires store.Inv() && !All(txid, 0)
    modifies store`selection, store`scanned, store`readSelection, store`readScanned, store`readResult, store`unbackedRead, store.flash`faults
    ensures store.Inv() && c.token == token && c.kind == S.ResumeQueryAction && |store.payloadComplete| == BLOCK_COUNT
    ensures c.result.StoreOk? ==> OutcomeFits(c, txid) && (c.outcome == Some(S.StillActive) ==> c.progress == Current(store))
  {
    hide Store.Inv, S.WellFormed, All, Store.Valid;
    var r, outcome := store.QueryTransactionOutcome(txid);
    if !r.StoreOk? {
      store.InvLengths();
      return Failed(token, S.ResumeQueryAction, r);
    }
    var ok := Failed(token, S.ResumeQueryAction, StoreOk);
    store.InvLengths();
    match outcome {
      case StillOpen(identity) =>
        var p := UpdateProgress(store);
        c := ok.(identity := Some(identity), progress := p, outcome := Some(S.StillActive));
      case Committed(s) =>
        CommittedIsSane(store, s);
        c := ok.(identity := Some(Identity(s.generation, s.bank, txid)), outcome := Some(S.WasCommitted), manifestBytes := s.manifestBytes,
                 payloadBytes := s.payloadBytes);
      case Unknown =>
        c := ok.(identity := Some(Identity(0, A, txid)), outcome := Some(S.NotKnown));
    }
  }

  lemma CommittedIsSane(store: Store, s: Snapshot)
    requires store.Inv() && store.Valid(s.bank) == Some(s)
    ensures SnapshotIsSane(s.bank, s)
  {
    hide Store.Inv;
  }

  /** A complete answer about one transaction: open with its progress, committed, or unknown. */
  ghost predicate OutcomeFits(c: S.Completion, txid: TxId) {
    && c.outcome.Some? && c.identity.Some? && c.identity.value.txid == txid
    && match c.outcome.value
       case StillActive => c.progress.Some? && c.identity.value == c.progress.value.identity && S.WellFormed(c.progress.value)
       case WasCommitted =>
         c.progress.None? && c.identity.value.generation != 0 && 32 <= c.manifestBytes <= SECTOR && c.payloadBytes <= PAYLOAD_MAX
       case NotKnown => c.progress.None? && c.identity.value.generation == 0 && c.manifestBytes == 0 && c.payloadBytes == 0
  }

  /** Query under a binding: the open update, if it is the named one. */
  method ExecuteQuery(store: Store, token: nat, expected: Identity) returns (c: S.Completion)
    requires store.Inv()
    ensures |store.payloadComplete| == BLOCK_COUNT && c.token == token && c.kind == S.ResumeQueryAction
    ensures if Named(store, expected) then c.result.StoreOk? else c.result.TransactionMismatch?
    ensures c.result.StoreOk? ==> OutcomeFits(c, expected.txid) && c.outcome == Some(S.StillActive) && c.progress == Current(store)
  {
    hide Store.Inv, S.WellFormed;
    var p := UpdateProgress(store);
    if p.None? || p.value.identity != expected { return Failed(token, S.ResumeQueryAction, TransactionMismatch); }
    c := Failed(token, S.ResumeQueryAction, StoreOk).(identity := Some(p.value.identity), progress := p, outcome := Some(S.StillActive));
  }

  /** Resume by identifier: the open update, a staged one, or what became of it. */
  method ExecuteResume(store: Store, token: nat, txid: TxId) returns (c: S.Completion)
    requires store.Inv()
    modifies store, store.flash`faults
    ensures store.Inv() && c.token == token && c.kind == S.ResumeQueryAction && |store.payloadComplete| == BLOCK_COUNT
    ensures c.result.StoreOk? ==> OutcomeFits(c, txid) && (c.outcome == Some(S.StillActive) ==> c.progress == Current(store))
  {
    hide Store.Inv, S.WellFormed, All, OutcomeFits;
    store.InvLengths();
    if All(txid, 0) { return Failed(token, S.ResumeQueryAction, StoreInvalidArgument); }
    if store.updateActive {
      var p := UpdateProgress(store);
      if p.value.identity.txid != txid {
        c := CaptureOutcome(store, token, txid);
        return;
      }
      c := ExecuteQuery(store, token, p.value.identity);
      return;
    }
    var r, identity := store.ResumeUpdate(txid);
    store.InvLengths();
    if r.TransactionMismatch? {
      c := CaptureOutcome(store, token, txid);
      return;
    }
    if !r.StoreOk? { return Failed(token, S.ResumeQueryAction, r); }
    c := ExecuteQuery(store, token, identity.value);
  }

  method ExecuteActive(store: Store, token: nat) returns (c: S.Completion)
    requires store.Inv()
    modifies store, store.flash`faults
    ensures store.Inv() && c.token == token && c.kind == S.CurrentActiveAction
    ensures c.result.StoreOk? ==>
      c.active == Some(store.Active()) && c.identity.None? && c.progress.None? && c.outcome.None?
    ensures c.result.StoreOk? && store.Active().Some? ==> SnapshotIsSane(store.Active().value.bank, store.Active().value)
  {
    hide Store.Inv, Store.Active, Store.Valid;
    var r, active := store.QueryCurrentActive();
    c := Failed(token, S.CurrentActiveAction, r);
    if r.StoreOk? {
      if active.Some? {
        store.ActiveIsValid();
        CommittedIsSane(store, active.value);
      }
      c := c.(active := Some(active));
    }
  }

  ghost predicate Named(store: Store, expected: Identity)
    reads store`updateActive, store`update, store`updateBank
  {
    store.updateActive && store.CurrentIdentity() == expected
  }

  predicate Grown(now: S.Progress, before: S.Progress) {
    S.SameTransaction(now, before) && S.NoRegress(now, before)
  }

  method ExecuteDiscard(store: Store, token: nat, plan: Plan) returns (c: S.Completion)
    requires store.Inv()
    modifies store, store.flash`faults, store.flash.bankA, store.flash.bankB
    ensures store.Inv() && store.Active() == old(store.Active()) && c == Failed(token, S.DiscardAction, c.result)
  {
    hide Store.Inv, Store.Active;
    var r := store.DiscardInvalidStaging(plan);
    c := Failed(token, S.DiscardAction, r);
  }

  // ---- session and store together ----

  /** The session's binding is to the store's open update, and the store has everything the session was told. */
  ghost predicate Mirror(session: S.Session, store: Store)
    reads session`bound, session`progress, store`updateActive, store`update, store`updateBank, store`manifestComplete, store`payloadComplete
  {
    session.bound ==>
      && store.updateActive && |store.payloadComplete| == BLOCK_COUNT && session.progress.Some?
      && Grown(Current(store).value, session.progress.value)
  }

  /** The action that the session has just handed out, and what comes of it. A store success always fits a mirrored session. */
  method Execute(session: S.Session, store: Store, a: S.Action, r: S.Route, f: S.Request) returns (c: S.Completion)
    requires session.Inv() && store.Inv() && session.Answers(S.ActionOut(a), r, f)
    modifies store, store.flash`faults, store.flash.bankA, store.flash.bankB
    ensures store.Inv() && c.token == a.token && c.kind == a.kind && |store.payloadComplete| == BLOCK_COUNT
    ensures old(Mirror(session, store)) && c.result.StoreOk? ==> session.Good(c)
    ensures c.result.StoreOk? && c.progress.Some? ==> Current(store) == c.progress
    // An action under a binding touches nothing unless the binding names the open update.
    ensures session.bound && !old(Named(store, session.progress.value.identity)) && S.NeedsBinding(a.kind, f) ==>
      c.result.TransactionMismatch? && unchanged(store) && store.Bank(A) == old(store.Bank(A)) && store.Bank(B) == old(store.Bank(B))
    ensures !c.result.StoreOk? && S.NeedsBinding(a.kind, f) && store.updateActive && |old(store.payloadComplete)| == BLOCK_COUNT ==>
      S.SameTransaction(Current(store).value, old(Current(store)).value)
    ensures !c.result.StoreOk? && S.NeedsBinding(a.kind, f) ==>
      store.updateActive == old(store.updateActive) && store.update == old(store.update) && store.updateBank == old(store.updateBank)
  {
    hide Store.Inv, S.Session.Inv, S.WellFormed, S.Retained, Store.Active, PlanIsValid;
    BindingOf(session, a, r, f);
    store.InvLengths();
    match a.kind {
      case BeginAction => c := ExecuteBegin(store, a.token, a.plan.value);
      case DiscardAction =>
        c := ExecuteDiscard(store, a.token, a.plan.value);
      case CurrentActiveAction => c := ExecuteActive(store, a.token);
      case ResumeQueryAction =>
        if f.cookie != 0 {
          c := ExecuteQuery(store, a.token, session.progress.value.identity);
        } else if session.pending.value.expected.None? {
          c := Failed(a.token, a.kind, StoreInvalidArgument);
        } else {
          c := ExecuteResume(store, a.token, session.pending.value.expected.value);
        }
      case ManifestAction => c := ExecuteWrite(store, true, a.token, session.progress.value.identity, a.bytes, 0);
      case BlockAction => c := ExecuteWrite(store, false, a.token, session.progress.value.identity, a.bytes, a.index);
      case CommitAction => c := ExecuteTerminal(store, true, a.token, session.progress.value.identity);
      case AbortAction => c := ExecuteTerminal(store, false, a.token, session.progress.value.identity);
    }
    store.InvLengths();
  }

  lemma BindingOf(session: S.Session, a: S.Action, r: S.Route, f: S.Request)
    requires session.Inv() && session.Answers(S.ActionOut(a), r, f)
    ensures S.NeedsBinding(a.kind, f) ==> session.bound && session.progress.Some? && f.cookie == session.cookie != 0
    ensures session.bound ==> session.progress.Some?
  {
    hide S.WellFormed, S.Retained, S.Consistent;
  }

  /** No progress that the store had reported was taken back. */
  ghost predicate Lossless(now: Option<S.Progress>, before: Option<S.Progress>) {
    now.Some? && before.Some? && S.SameTransaction(now.value, before.value) ==> S.NoRegress(now.value, before.value)
  }

  /**
   * One request all the way. `refused`: the store succeeded and the session would not have it. `lossless`: no failing store call
   * took completed work back, as happens when a unit found decayed cannot be written again.
   */
  method Round(session: S.Session, store: Store, r: S.Route, f: S.Request) returns (out: S.Emission, ghost refused: bool, ghost lossless: bool)
    requires session.Inv() && session.pending.None? && store.Inv()
    modifies session, store, store.flash`faults, store.flash.bankA, store.flash.bankB
    ensures session.Inv() && session.pending.None? && store.Inv()
    ensures old(Mirror(session, store)) ==> !refused && (lossless ==> Mirror(session, store))
  {
    hide Store.Inv, S.Session.Inv, S.WellFormed, Report, S.Retained, S.Consistent, S.Session.Good, S.Session.Answers, S.Acceptable;
    refused, lossless := false, true;
    store.InvLengths();
    var ok, first := session.Consume(r, f);
    out := first;
    session.PendingPhase();
    if first.ActionOut? {
      ghost var before := Current(store);
      AskedNow(session, first, r, f);
      BindingOf(session, first.action, r, f);
      var c := Execute(session, store, first.action, r, f);
      refused := c.result.StoreOk? && !session.Good(c);
      lossless := Lossless(Current(store), before);
      var taken;
      taken, out := session.Complete(c);
      BoundProgress(session);
      SameReports(store, before);
    }
  }

  lemma BoundProgress(session: S.Session)
    requires session.Inv()
    ensures session.bound ==> session.progress.Some?
  {
    hide S.WellFormed, S.Retained, S.Consistent;
  }

  lemma SameReports(store: Store, before: Option<S.Progress>)
    requires |store.payloadComplete| == BLOCK_COUNT
    ensures store.updateActive ==> Grown(Current(store).value, Current(store).value)
    ensures forall p :: Current(store).Some? && before.Some? && Grown(before.value, p) && Grown(Current(store).value, before.value) ==> Grown(Current(store).value, p)
  {
  }

  lemma AskedNow(session: S.Session, out: S.Emission, r: S.Route, f: S.Request)
    requires out.ActionOut? && session.Answers(out, r, f)
    ensures session.pending.Some? && !session.pending.value.orphaned && session.pending.value.request == f
    ensures out.action.token == session.pending.value.token && out.action.kind == session.pending.value.kind
  {
    hide S.Retained;
  }

  datatype Event = Asked(r: S.Route, f: S.Request) | Gone(r: S.Route) | AllGone | Expired(r: S.Route)

  /**
   * Any requests on any routes, routes lost and timeouts, over a store of any content and any faults: the session turns down
   * a store success only after some failing store call has taken completed work back.
   */
  method Serve(session: S.Session, store: Store, events: seq<Event>) returns (ghost refused: bool, ghost lossless: bool)
    requires session.Inv() && session.pending.None? && store.Inv() && !session.bound
    modifies session, store, store.flash`faults, store.flash.bankA, store.flash.bankB
    ensures session.Inv() && session.pending.None? && store.Inv()
    ensures lossless ==> !refused && Mirror(session, store)
  {
    hide Store.Inv, S.Session.Inv, Grown, S.Retained, S.Consistent;
    refused, lossless := false, true;
    for k := 0 to |events|
      invariant session.Inv() && session.pending.None? && store.Inv()
      invariant lossless ==> !refused && Mirror(session, store)
    {
      match events[k] {
        case Asked(r, f) =>
          var _, no, kept := Round(session, store, r, f);
          refused, lossless := refused || no, lossless && kept;
        case Gone(r) => session.RouteClosed(r);
        case AllGone => session.AllRoutesClosed();
        case Expired(r) => var _ := session.ExpirePartial(r);
      }
    }
  }
}
