/** The update session: fragments in, at most one store action out at a time, and a reply cache for lost acknowledgements. */
module AssetsSession {
  import opened Counters
  import opened Options
  import opened Bytes
  import opened FlashStorage
  import opened BankFormat
  import opened FragmentAssembler
  import opened SoundAssetStore
  import FrameCodec

  const REPLAY_ENTRIES: nat := 8
  const PLAN_BYTES: nat := 640
  const MAX_BODY: nat := 101

  datatype Transport = Usb | Reserved | Wifi

  datatype Route = Route(transport: Transport, id: nat, generation: nat) {
    predicate Valid() {
      generation != 0 && ((transport == Usb && id == 0) || transport == Wifi)
    }
  }

  datatype Region = ManifestRegion | PayloadRegion

  datatype Opcode = Capabilities | Begin | Resume | Data | Query | Commit | Abort | Recover | CurrentActive | UnknownOpcode

  datatype Flags = Flags(response: bool, error: bool, ack: bool, first: bool, last: bool, payload: bool, unknown: bool)

  const SINGLE_FRAME := Flags(false, false, true, true, true, false, false)

  datatype Request = Request(opcode: Opcode, flags: Flags, id: nat, cookie: nat, offset: nat, body: seq<byte>)

  datatype ActionKind = BeginAction | DiscardAction | CurrentActiveAction | ResumeQueryAction | ManifestAction | BlockAction | CommitAction | AbortAction

  datatype Phase = Idle | BeginAssembly | Ready | UnitAssembly | ActionPending

  datatype Status =
    | Fine | BadRequest | IntegrityError | BusyNow | TransactionMismatched | InternalError | StoreStatus(r: StoreResult)

  datatype Progress = Progress(identity: Identity, manifestBytes: nat, payloadBytes: nat, manifestComplete: bool,
                               blocks: seq<bool>, bundleSha: Digest)

  datatype Outcome = StillActive | WasCommitted | NotKnown

  datatype Reply =
    | StatusReply(opcode: Opcode, id: nat, cookie: nat, status: Status)
    | FragmentReply(opcode: Opcode, id: nat, cookie: nat, firstMissing: nat)
    | CapabilitiesReply(id: nat)
    | IdentityReply(opcode: Opcode, id: nat, cookie: nat, progress: Progress)
    | ProgressReply(opcode: Opcode, id: nat, cookie: nat, progress: Progress)
    | OutcomeReply(opcode: Opcode, id: nat, outcome: Outcome, identity: Identity, manifestBytes: nat, payloadBytes: nat)
    | ActiveReply(id: nat, active: Option<Snapshot>)

  datatype Pending = Pending(orphaned: bool, kind: ActionKind, route: Route, token: nat, request: Request, region: Region,
                             index: nat, digest: Digest, expected: Option<TxId>)

  datatype Action = Action(token: nat, kind: ActionKind, route: Route, plan: Option<Plan>, bytes: seq<byte>, index: nat)

  datatype Emission = Nothing | ReplyOut(reply: Reply) | ActionOut(action: Action)

  datatype Completion = Completion(token: nat, kind: ActionKind, result: StoreResult, identity: Option<Identity>,
                                   progress: Option<Progress>, outcome: Option<Outcome>, manifestBytes: nat, payloadBytes: nat,
                                   active: Option<Option<Snapshot>>)

  datatype Entry = Entry(route: Route, cookie: nat, id: nat, opcode: Opcode, region: Region, index: nat, digest: Digest, reply: Reply)

  datatype Lookup = Miss | Exact(reply: Reply) | Clash

  /** Content fingerprints; every result holds for any functions. */
  datatype Prints = Prints(request: Request -> Digest, plan: Plan -> Digest, unit: (Region, nat, seq<byte>) -> Digest)

  datatype PlanAssembly = PlanAssembly(bound: bool, owner: Route, beginId: nat, cells: seq<Cell>)

  datatype BlockAssembly = BlockAssembly(active: bool, region: Region, index: nat, cells: seq<Cell>)

  const NO_ROUTE := Route(Usb, 0, 0)
  const NO_PLAN_ASSEMBLY := PlanAssembly(false, NO_ROUTE, 0, Blank(PLAN_BYTES))
  const NO_BLOCK_ASSEMBLY := BlockAssembly(false, ManifestRegion, 0, [])

  // ---- progress reports from the store ----

  predicate WellFormed(p: Progress) {
    && p.identity.generation != 0 && !All(p.identity.txid, 0) && 32 <= p.manifestBytes <= SECTOR && p.payloadBytes <= PAYLOAD_MAX
    && !All(p.bundleSha, 0) && |p.blocks| == BLOCK_COUNT
    && forall i :: BlockCount(p.payloadBytes) <= i < BLOCK_COUNT ==> !p.blocks[i]
  }

  predicate SameTransaction(a: Progress, b: Progress) {
    a.identity == b.identity && a.manifestBytes == b.manifestBytes && a.payloadBytes == b.payloadBytes && a.bundleSha == b.bundleSha
  }

  predicate NoRegress(now: Progress, before: Progress) {
    && (before.manifestComplete ==> now.manifestComplete)
    && |now.blocks| == |before.blocks| && forall i :: 0 <= i < |now.blocks| && before.blocks[i] ==> now.blocks[i]
  }

  /** What a successful completion must carry for its kind, given the session's plan and progress. */
  predicate Acceptable(p: Pending, c: Completion, plan: Option<Plan>, progress: Option<Progress>) {
    match p.kind
    case BeginAction =>
      && c.identity.Some? && c.progress.Some? && c.identity.value == c.progress.value.identity && plan.Some?
      && WellFormed(c.progress.value) && c.progress.value.manifestBytes == plan.value.manifestBytes
      && c.progress.value.payloadBytes == plan.value.payloadBytes && c.progress.value.bundleSha == plan.value.bundleSha
    case CurrentActiveAction =>
      && c.active.Some? && c.identity.None? && c.progress.None? && c.outcome.None?
      && (c.active.value.Some? ==> SnapshotIsSane(c.active.value.value.bank, c.active.value.value))
    case ResumeQueryAction =>
      && c.outcome.Some? && c.identity.Some? && p.expected == Some(c.identity.value.txid)
      && (if c.outcome.value.StillActive? then
            && c.progress.Some? && c.identity.value == c.progress.value.identity && WellFormed(c.progress.value)
            && (p.request.cookie != 0 ==>
                  progress.Some? && SameTransaction(c.progress.value, progress.value) && NoRegress(c.progress.value, progress.value))
          else
            && p.request.cookie == 0 && c.progress.None?
            && (c.outcome.value.WasCommitted? ==>
                  c.identity.value.generation != 0 && 32 <= c.manifestBytes <= SECTOR && c.payloadBytes <= PAYLOAD_MAX)
            && (c.outcome.value.NotKnown? ==> c.identity.value.generation == 0 && c.manifestBytes == 0 && c.payloadBytes == 0))
    case ManifestAction =>
      && c.progress.Some? && progress.Some? && WellFormed(c.progress.value) && SameTransaction(c.progress.value, progress.value)
      && NoRegress(c.progress.value, progress.value) && c.progress.value.manifestComplete
    case BlockAction =>
      && c.progress.Some? && progress.Some? && WellFormed(c.progress.value) && SameTransaction(c.progress.value, progress.value)
      && NoRegress(c.progress.value, progress.value) && p.index < BLOCK_COUNT && c.progress.value.blocks[p.index]
    case DiscardAction => true
    case CommitAction => true
    case AbortAction => true
  }

  /** Actions that only make sense inside the transaction that a binding stands for. */
  predicate NeedsBinding(kind: ActionKind, f: Request) {
    kind == ManifestAction || kind == BlockAction || kind == CommitAction || kind == AbortAction
    || (kind == ResumeQueryAction && f.cookie != 0)
  }

  /** What a request asks the store to do, if it asks anything of it. */
  predicate Asks(f: Request, kind: ActionKind) {
    match f.opcode
    case Begin => kind == BeginAction
    case Recover => kind == DiscardAction
    case Resume => kind == ResumeQueryAction
    case Query => kind == ResumeQueryAction
    case Data => kind == if f.flags.payload then BlockAction else ManifestAction
    case Commit => kind == CommitAction
    case Abort => kind == AbortAction
    case CurrentActive => kind == CurrentActiveAction
    case _ => false
  }

  /** These requests come in fragments. */
  predicate Assembles(o: Opcode) {
    o == Data || o == Begin || o == Recover
  }

  // ---- the replay cache ----

  predicate SameRequest(e: Entry, route: Route, cookie: nat, id: nat) {
    e.route == route && e.cookie == cookie && e.id == id
  }

  predicate SameContent(e: Entry, opcode: Opcode, region: Region, index: nat, digest: Digest) {
    e.opcode == opcode && e.region == region && e.index == index && e.digest == digest
  }

  predicate Retained(replay: seq<Option<Entry>>, route: Route, cookie: nat, id: nat) {
    exists i :: 0 <= i < |replay| && replay[i].Some? && SameRequest(replay[i].value, route, cookie, id)
  }

  /** Every request with one content was answered with one reply. */
  predicate Consistent(replay: seq<Option<Entry>>) {
    forall i, j :: 0 <= i < j < |replay| && replay[i].Some? && replay[j].Some? ==>
      !SameRequest(replay[i].value, replay[j].value.route, replay[j].value.cookie, replay[j].value.id)
  }

  class Session {
    const prints: Prints

    var phase: Phase
    var bound: bool
    var route: Route
    var cookie: nat
    var nextCookie: nat
    var nextToken: nat
    var progress: Option<Progress>
    var plan: Option<Plan>
    var planAssembly: PlanAssembly
    var blockAssembly: BlockAssembly
    var sawFirst: bool
    var sawLast: bool
    var fromReady: bool
    var planKind: ActionKind
    var unitRequest: nat
    var unitFirst: bool
    var unitLast: bool
    var pending: Option<Pending>
    var replay: seq<Option<Entry>>
    var nextSlot: nat

    /** Store actions handed out, and store actions whose completion was taken. */
    ghost var issued: nat
    ghost var finished: nat

    ghost predicate Inv()
      reads this
    {
      && (phase == ActionPending <==> pending.Some?)
      && issued == finished + (if pending.Some? then 1 else 0)
      && |replay| == REPLAY_ENTRIES && nextSlot < REPLAY_ENTRIES && Consistent(replay)
      && 0 < nextCookie <= U32_MAX && 0 < nextToken <= U32_MAX
      && |planAssembly.cells| == PLAN_BYTES
      && (bound ==> cookie != 0 && progress.Some? && WellFormed(progress.value))
      && (phase == Ready || phase == UnitAssembly ==> bound)
      && (fromReady ==> bound)
      && (pending.Some? ==> pending.value.token != 0 && PendingFits())
      && (phase == UnitAssembly ==> blockAssembly.active)
      && (phase == Idle ==> !bound) && (planAssembly.bound ==> phase == BeginAssembly)
      && (phase == BeginAssembly ==> planAssembly.bound && (bound <==> fromReady) && (bound ==> planAssembly.owner == route))
      && (pending.Some? && bound ==> pending.value.route == route && !pending.value.orphaned)
    }

    /** The pending action's request is not already answered, and it belongs to the binding it was issued under. */
    ghost predicate PendingFits()
      reads this
      requires pending.Some?
    {
      var p := pending.value;
      && (!p.orphaned ==> !Retained(replay, p.route, p.request.cookie, p.request.id))
      && (NeedsBinding(p.kind, p.request) ==> p.orphaned || (bound && p.route == route && p.request.cookie == cookie))
    }

    constructor (prints: Prints, cookieSeed: nat, tokenSeed: nat)
      requires cookieSeed <= U32_MAX && tokenSeed <= U32_MAX
      ensures Inv() && phase == Idle && !bound && this.prints == prints && issued == 0
    {
      this.prints := prints;
      phase, bound, route, cookie, progress, plan := Idle, false, NO_ROUTE, 0, None, None;
      nextCookie, nextToken := if cookieSeed == 0 then 1 else cookieSeed, if tokenSeed == 0 then 1 else tokenSeed;
      planAssembly, blockAssembly := NO_PLAN_ASSEMBLY, NO_BLOCK_ASSEMBLY;
      sawFirst, sawLast, fromReady, planKind := false, false, false, BeginAction;
      unitRequest, unitFirst, unitLast := 0, false, false;
      pending, replay, nextSlot := None, seq(REPLAY_ENTRIES, _ => None), 0;
      issued, finished := 0, 0;
    }

    /** What the cache says about one request: never seen, answered before, or the same request id with other content. */
    method LookupReplay(r: Route, c: nat, id: nat, opcode: Opcode, region: Region, index: nat, digest: Digest) returns (l: Lookup)
      requires Inv()
      ensures l.Miss? <==> !Retained(replay, r, c, id)
      ensures forall i :: 0 <= i < |replay| && replay[i].Some? && SameRequest(replay[i].value, r, c, id) ==>
        l == if SameContent(replay[i].value, opcode, region, index, digest) then Exact(replay[i].value.reply) else Clash
    {
      l := Miss;
      for i := 0 to REPLAY_ENTRIES
        invariant l.Miss? && forall j :: 0 <= j < i && replay[j].Some? ==> !SameRequest(replay[j].value, r, c, id)
      {
        if replay[i].Some? && SameRequest(replay[i].value, r, c, id) {
          return if SameContent(replay[i].value, opcode, region, index, digest) then Exact(replay[i].value.reply) else Clash;
        }
      }
    }

    /** Hand out one store action for a request that the cache does not know. */
    method Issue(kind: ActionKind, r: Route, f: Request, region: Region, index: nat, digest: Digest, expected: Option<TxId>,
                 plan': Option<Plan>, bytes: seq<byte>) returns (out: Emission)
      requires Inv() && pending.None? && !Retained(replay, r, f.cookie, f.id) && phase != BeginAssembly && (bound ==> r == route)
      requires NeedsBinding(kind, f) ==> bound && r == route && f.cookie == cookie
      modifies this`phase, this`pending, this`nextToken, this`issued
      ensures Inv() && pending == Some(Pending(false, kind, r, old(nextToken), f, region, index, digest, expected))
      ensures out == ActionOut(Action(old(nextToken), kind, r, plan', bytes, index)) && issued == old(issued) + 1
    {
      hide Retained, Consistent, WellFormed, Blank;
      out := ActionOut(Action(nextToken, kind, r, plan', bytes, index));
      pending, phase := Some(Pending(false, kind, r, nextToken, f, region, index, digest, expected)), ActionPending;
      nextToken := NextNonzero(nextToken);
      issued := issued + 1;
    }

    /** An action is issued only for a request no retained reply answers, and the action is that request's. */
    ghost predicate Answers(out: Emission, r: Route, f: Request)
      reads this`pending, this`replay, this`plan, this`progress
    {
      match out
      case Nothing => false
      case ReplyOut(_) => pending.None?
      case ActionOut(a) =>
        && pending.Some? && !pending.value.orphaned && a.token == pending.value.token && a.kind == pending.value.kind
        && a.route == pending.value.route == r && pending.value.request == f && !Retained(replay, r, f.cookie, f.id)
        && Asks(f, a.kind) && a.index == pending.value.index && (a.kind == BeginAction || a.kind == DiscardAction ==> a.plan.Some? && a.plan == plan)
        && (a.kind == ResumeQueryAction ==> pending.value.expected == Named(f))
    }

    /** A one-frame request that starts its action right now. */
    ghost predicate Startable(r: Route, f: Request)
      reads this`phase, this`bound, this`route, this`cookie, this`planAssembly, this`replay
    {
      && f.flags == SINGLE_FRAME && f.offset == 0 && !Retained(replay, r, f.cookie, f.id)
      && match f.opcode
         case Resume => f.cookie == 0 && |f.body| == 16 && !All(f.body, 0) && phase == Idle
         case CurrentActive => f.cookie == 0 && f.body == [] && phase == Idle && !planAssembly.bound
         case Query => f.body == [] && phase == Ready && bound && r == route && f.cookie == cookie
         case Commit => f.body == [] && phase == Ready && bound && r == route && f.cookie == cookie
         case Abort => f.body == [] && phase == Ready && bound && r == route && f.cookie == cookie
         case _ => false
    }

    /** The transaction a Resume or Query request is about. */
    ghost function Named(f: Request): Option<TxId>
      reads this`progress
    {
      if f.cookie != 0 then if progress.Some? then Some(progress.value.identity.txid) else None
      else if |f.body| == 16 then Some(f.body) else None
    }

    /** A retained request with this content gets the very reply it got before. */
    ghost predicate FromCache(out: Emission, r: Route, f: Request, digest: Digest)
      reads this`replay
    {
      forall i :: 0 <= i < |replay| && replay[i].Some? && SameRequest(replay[i].value, r, f.cookie, f.id) ==>
        SameContent(replay[i].value, f.opcode, ManifestRegion, 0, digest) ==> out == ReplyOut(replay[i].value.reply)
    }

    /** Resume, Query, Commit, Abort and CurrentActive: one frame, one action. */
    method ConsumeSingle(kind: ActionKind, r: Route, f: Request, admissible: bool, refusal: Status, expected: Option<TxId>)
      returns (out: Emission)
      requires Inv() && pending.None?
      requires admissible && NeedsBinding(kind, f) ==> bound && r == route && f.cookie == cookie
      requires admissible ==> phase != BeginAssembly && (bound ==> r == route) && (kind == ResumeQueryAction ==> expected == Named(f))
      requires kind != ManifestAction && kind != BlockAction && kind != BeginAction && kind != DiscardAction && Asks(f, kind)
      modifies this`phase, this`pending, this`nextToken, this`issued
      ensures Inv() && Answers(out, r, f) && (out.ReplyOut? ==> unchanged(this)) && Numbered(out, old(nextToken))
      // A retained request is answered from the cache, whatever has become of the session meanwhile.
      ensures forall i :: 0 <= i < |replay| && replay[i].Some? && SameRequest(replay[i].value, r, f.cookie, f.id) ==>
        out == ReplyOut(if SameContent(replay[i].value, f.opcode, ManifestRegion, 0, prints.request(f)) then replay[i].value.reply
                        else StatusReply(f.opcode, f.id, f.cookie, IntegrityError))
      ensures !Retained(replay, r, f.cookie, f.id) ==> (out.ActionOut? <==> admissible)
      ensures out.ActionOut? ==> pending.value.expected == expected && pending.value.kind == kind
    {
      var digest := prints.request(f);
      var l := LookupReplay(r, f.cookie, f.id, f.opcode, ManifestRegion, 0, digest);
      if l.Exact? { return ReplyOut(l.reply); }
      if l.Clash? { return ReplyOut(StatusReply(f.opcode, f.id, f.cookie, IntegrityError)); }
      if !admissible { return ReplyOut(StatusReply(f.opcode, f.id, f.cookie, refusal)); }
      out := Issue(kind, r, f, ManifestRegion, 0, digest, expected, None, []);
    }

    method ConsumeCurrentActive(r: Route, f: Request) returns (out: Emission)
      requires Inv() && pending.None? && f.opcode == CurrentActive
      modifies this`phase, this`pending, this`nextToken, this`issued
      ensures Inv() && Answers(out, r, f) && (out.ReplyOut? ==> unchanged(this)) && Numbered(out, old(nextToken))
      ensures out.ActionOut? <==> old(Startable(r, f))
    {
      hide Inv, Retained;
      PendingPhase();
      if f.flags != SINGLE_FRAME || f.cookie != 0 || f.offset != 0 || f.body != [] {
        return ReplyOut(StatusReply(f.opcode, f.id, 0, BadRequest));
      }
      out := ConsumeSingle(CurrentActiveAction, r, f, phase == Idle && !bound && !planAssembly.bound, BusyNow, None);
    }

    method ConsumeResume(r: Route, f: Request) returns (out: Emission)
      requires Inv() && pending.None? && f.opcode == Resume
      modifies this`phase, this`pending, this`nextToken, this`issued
      ensures Inv() && Answers(out, r, f) && (out.ReplyOut? ==> unchanged(this)) && Numbered(out, old(nextToken))
      ensures out.ActionOut? ==> pending.value.expected == Some(f.body)
      ensures out.ActionOut? <==> old(Startable(r, f))
    {
      hide Inv, Retained, All;
      if f.flags != SINGLE_FRAME || f.cookie != 0 || f.offset != 0 || |f.body| != 16 || All(f.body, 0) {
        return ReplyOut(StatusReply(f.opcode, f.id, 0, BadRequest));
      }
      PendingPhase();
      out := ConsumeSingle(ResumeQueryAction, r, f, phase == Idle, BusyNow, Some(f.body));
    }

    /** Query, Commit and Abort speak about the bound transaction, under its cookie. */
    method ConsumeBound(kind: ActionKind, r: Route, f: Request) returns (out: Emission)
      requires Inv() && pending.None? && Asks(f, kind) && (f.opcode == Query || f.opcode == Commit || f.opcode == Abort)
      modifies this`phase, this`pending, this`nextToken, this`issued
      ensures Inv() && Answers(out, r, f) && (out.ReplyOut? ==> unchanged(this)) && Numbered(out, old(nextToken))
      ensures out.ActionOut? ==> bound && r == route && f.cookie == cookie && pending.value.expected == Some(progress.value.identity.txid)
      ensures out.ActionOut? <==> old(Startable(r, f))
      ensures f.flags == SINGLE_FRAME && f.offset == 0 && f.body == [] ==> FromCache(out, r, f, prints.request(f))
    {
      hide Retained, Consistent, WellFormed;
      if f.flags != SINGLE_FRAME || f.offset != 0 || f.body != [] {
        return ReplyOut(StatusReply(f.opcode, f.id, f.cookie, BadRequest));
      }
      out := ConsumeSingle(kind, r, f, phase == Ready && bound && r == route && f.cookie == cookie, TransactionMismatched,
                           if progress.Some? then Some(progress.value.identity.txid) else None);
    }

    // ---- fragments of a plan ----

    method RestoreAfterPlan()
      requires Inv() && phase == BeginAssembly
      modifies this`phase, this`planAssembly, this`sawFirst, this`sawLast, this`fromReady, this`planKind
      ensures Inv() && phase == (if bound then Ready else Idle)
    {
      hide Retained, Consistent, WellFormed, Blank;
      planAssembly, sawFirst, sawLast := NO_PLAN_ASSEMBLY, false, false;
      phase := if fromReady && bound then Ready else Idle;
      fromReady, planKind := false, BeginAction;
    }

    /** Open, continue or refuse a plan assembly. */
    method PlacePlan(kind: ActionKind, r: Route, f: Request) returns (ok: bool, refusal: Status)
      requires Inv() && pending.None? && (kind == BeginAction || kind == DiscardAction)
      modifies this`phase, this`planAssembly, this`fromReady, this`planKind
      ensures Inv()
      ensures ok ==> phase == BeginAssembly && planAssembly.bound && planKind == kind
      ensures !ok ==> unchanged(this)
    {
      hide Retained, Consistent, WellFormed, Blank;
      var begun := planAssembly.(bound := true, owner := r, beginId := f.id);
      if phase == Idle {
        if !f.flags.first { return false, BadRequest; }
        if planAssembly.bound && !(planAssembly.owner == r && planAssembly.beginId == f.id) { return false, BusyNow; }
        phase, fromReady, planKind, planAssembly := BeginAssembly, false, kind, begun;
      } else if phase == Ready {
        if kind != BeginAction || !bound || route != r || !f.flags.first { return false, BusyNow; }
        planAssembly := NO_PLAN_ASSEMBLY.(bound := true, owner := r, beginId := f.id);
        phase, fromReady, planKind := BeginAssembly, true, kind;
      } else if phase != BeginAssembly || planKind != kind {
        return false, BusyNow;
      } else if !planAssembly.bound {
        return false, BadRequest;
      }
      ok, refusal := true, Fine;
    }

    /** A Begin or Recover fragment. The action, when it comes, carries exactly the plan that the assembled octets decode to. */
    method ConsumePlan(kind: ActionKind, r: Route, f: Request) returns (out: Emission)
      requires Inv() && pending.None? && (kind == BeginAction || kind == DiscardAction) && Asks(f, kind)
      modifies this`phase, this`planAssembly, this`sawFirst, this`sawLast, this`fromReady, this`planKind, this`plan
      modifies this`pending, this`nextToken, this`issued
      ensures Inv() && Answers(out, r, f) && Numbered(out, old(nextToken))
      ensures out.ActionOut? ==> out.action.plan.Some? && out.action.plan == plan && pending.value.digest == prints.plan(plan.value)
      ensures out.ActionOut? ==> PlanIsValid(plan.value) && out.action.kind == kind
    {
      hide Inv, Accept, Count, Blank, FirstGap, FrameCodec.DecodePlan, PlanIsValid, Octets, Retained;
      var end := f.offset + |f.body|;
      if f.flags != SINGLE_FRAME.(first := f.offset == 0, last := end == PLAN_BYTES) || f.cookie != 0 || f.body == []
         || f.offset >= PLAN_BYTES || end > PLAN_BYTES {
        return ReplyOut(StatusReply(f.opcode, f.id, 0, BadRequest));
      }
      var placed, refusal := PlacePlan(kind, r, f);
      if !placed { return ReplyOut(StatusReply(f.opcode, f.id, 0, refusal)); }
      if planAssembly.owner != r || planAssembly.beginId != f.id { return ReplyOut(StatusReply(f.opcode, f.id, 0, BadRequest)); }
      var accepted := StorePlanFragment(f);
      if !accepted.Accepted? {
        return ReplyOut(StatusReply(f.opcode, f.id, 0, if accepted.Conflict? then IntegrityError else BadRequest));
      }
      PlanShape();
      CountBounds(planAssembly.cells);
      if Count(planAssembly.cells) != PLAN_BYTES || !sawFirst || !sawLast {
        return ReplyOut(FragmentReply(f.opcode, f.id, 0, FirstGap(planAssembly.cells)));
      }
      var decoded := FrameCodec.DecodePlan(Octets(planAssembly.cells));
      if decoded.Err? {
        RestoreAfterPlan();
        return ReplyOut(StatusReply(f.opcode, f.id, 0, IntegrityError));
      }
      SetPlan(decoded.value);
      out := ConcludePlan(kind, r, f);
    }

    method StorePlanFragment(f: Request) returns (accepted: AcceptResult)
      requires Inv()
      modifies this`planAssembly, this`sawFirst, this`sawLast
      ensures Inv()
      ensures (planAssembly.cells, accepted) == Accept(old(planAssembly.cells), Fragment(f.offset, f.body))
      ensures planAssembly == old(planAssembly).(cells := planAssembly.cells)
      ensures sawFirst == (old(sawFirst) || (accepted.Accepted? && f.flags.first))
      ensures sawLast == (old(sawLast) || (accepted.Accepted? && f.flags.last))
    {
      hide Retained, Consistent, WellFormed, NeedsBinding;
      var (cells, result) := Accept(planAssembly.cells, Fragment(f.offset, f.body));
      accepted := result;
      if accepted.Accepted? {
        planAssembly, sawFirst, sawLast := planAssembly.(cells := cells), sawFirst || f.flags.first, sawLast || f.flags.last;
      }
    }

    method ConcludePlan(kind: ActionKind, r: Route, f: Request) returns (out: Emission)
      requires Inv() && phase == BeginAssembly && (kind == BeginAction || kind == DiscardAction) && Asks(f, kind) && plan.Some?
      modifies this`phase, this`planAssembly, this`sawFirst, this`sawLast, this`fromReady, this`planKind
      modifies this`pending, this`nextToken, this`issued
      ensures Inv() && Answers(out, r, f) && Numbered(out, old(nextToken))
      ensures out.ActionOut? ==> out.action.plan == plan && pending.value.digest == prints.plan(plan.value) && out.action.kind == kind
      ensures out.ActionOut? <==> !old(fromReady) && !Retained(replay, r, f.cookie, f.id)
      // The same plan under a retained request id is answered from the cache; another plan under that id is refused.
      ensures forall i :: 0 <= i < |replay| && replay[i].Some? && SameRequest(replay[i].value, r, f.cookie, f.id) ==>
        out == ReplyOut(if SameContent(replay[i].value, f.opcode, ManifestRegion, 0, prints.plan(plan.value)) then replay[i].value.reply
                        else StatusReply(f.opcode, f.id, 0, IntegrityError))
    {
      hide Inv, Retained;
      PendingPhase();
      var digest := prints.plan(plan.value);
      var l := LookupReplay(r, f.cookie, f.id, f.opcode, ManifestRegion, 0, digest);
      if l.Exact? {
        RestoreAfterPlan();
        return ReplyOut(l.reply);
      }
      if l.Clash? || fromReady {
        RestoreAfterPlan();
        return ReplyOut(StatusReply(f.opcode, f.id, 0, IntegrityError));
      }
      out := IssuePlan(kind, r, f, digest);
    }

    method IssuePlan(kind: ActionKind, r: Route, f: Request, digest: Digest) returns (out: Emission)
      requires Inv() && phase == BeginAssembly && !fromReady && !Retained(replay, r, f.cookie, f.id)
      requires kind == BeginAction || kind == DiscardAction
      modifies this`phase, this`pending, this`nextToken, this`issued, this`planAssembly, this`sawFirst, this`sawLast, this`planKind
      ensures Inv() && pending == Some(Pending(false, kind, r, old(nextToken), f, ManifestRegion, 0, digest, None))
      ensures out == ActionOut(Action(old(nextToken), kind, r, plan, [], 0)) && issued == old(issued) + 1
    {
      hide Retained, Consistent, WellFormed, Blank;
      out := ActionOut(Action(nextToken, kind, r, plan, [], 0));
      pending, phase := Some(Pending(false, kind, r, nextToken, f, ManifestRegion, 0, digest, None)), ActionPending;
      nextToken := NextNonzero(nextToken);
      issued := issued + 1;
      DropPlan();
    }

    method DropPlan()
      modifies this`planAssembly, this`sawFirst, this`sawLast, this`planKind
      ensures planAssembly == NO_PLAN_ASSEMBLY && !sawFirst && !sawLast && planKind == BeginAction
    {
      planAssembly, sawFirst, sawLast, planKind := NO_PLAN_ASSEMBLY, false, false, BeginAction;
    }

    method SetPlan(p: Plan)
      requires Inv()
      modifies this`plan
      ensures Inv() && plan == Some(p)
    {
      hide Retained, Consistent, WellFormed, NeedsBinding;
      plan := Some(p);
    }

    lemma PlanShape()
      requires Inv()
      ensures |planAssembly.cells| == PLAN_BYTES
    {
    }

    // ---- fragments of a manifest or payload unit ----

    method ResetBlock()
      requires Inv() && pending.None? && bound && phase == UnitAssembly
      modifies this`phase, this`blockAssembly
      ensures Inv() && phase == Ready
    {
      hide Retained, Consistent, WellFormed, NeedsBinding;
      blockAssembly, phase := NO_BLOCK_ASSEMBLY, Ready;
    }

    /** Open or continue the one unit being assembled. */
    method PlaceUnit(f: Request, u: Unit) returns (ok: bool, refusal: Status)
      requires Inv() && pending.None? && (phase == Ready || phase == UnitAssembly)
      modifies this`phase, this`blockAssembly, this`unitRequest, this`unitFirst, this`unitLast
      ensures Inv() && (!ok ==> unchanged(this))
      ensures ok ==> phase == UnitAssembly && blockAssembly.region == u.region && blockAssembly.index == u.index
    {
      hide Retained, Consistent, WellFormed, NeedsBinding, Blank;
      if phase == Ready {
        if !f.flags.first || u.length == 0 || u.length > SECTOR { return false, BadRequest; }
        phase, blockAssembly := UnitAssembly, BlockAssembly(true, u.region, u.index, Blank(u.length));
        unitRequest, unitFirst, unitLast := f.id, false, false;
      } else if unitRequest != f.id || blockAssembly.region != u.region || blockAssembly.index != u.index {
        return false, BusyNow;
      }
      ok, refusal := true, Fine;
    }

    method StoreUnitFragment(offset: nat, f: Request) returns (accepted: AcceptResult)
      requires Inv() && phase == UnitAssembly
      modifies this`blockAssembly, this`unitFirst, this`unitLast
      ensures Inv() && blockAssembly == old(blockAssembly).(cells := blockAssembly.cells)
      ensures (blockAssembly.cells, accepted) == Accept(old(blockAssembly.cells), Fragment(offset, f.body))
    {
      hide Retained, Consistent, WellFormed, NeedsBinding;
      var (cells, result) := Accept(blockAssembly.cells, Fragment(offset, f.body));
      accepted := result;
      if accepted.Accepted? {
        blockAssembly, unitFirst, unitLast := blockAssembly.(cells := cells), unitFirst || f.flags.first, unitLast || f.flags.last;
      }
    }

    /** A Data fragment. The write action, when it comes, carries every octet of its unit as assembled, under the bound transaction. */
    method ConsumeData(r: Route, f: Request) returns (out: Emission)
      requires Inv() && pending.None? && f.opcode == Data
      modifies this`phase, this`blockAssembly, this`unitRequest, this`unitFirst, this`unitLast, this`pending, this`nextToken, this`issued
      ensures Inv() && Answers(out, r, f) && Numbered(out, old(nextToken))
      ensures out.ActionOut? ==> bound && r == route && f.cookie == cookie && WritesUnit(out.action)
    {
      hide Inv, Accept, Count, Blank, FirstGap, Octets, Retained, WritesUnit;
      var mine := bound && route == r && f.cookie == cookie;
      if f.flags != SINGLE_FRAME.(first := f.flags.first, last := f.flags.last, payload := f.flags.payload) || f.body == [] || !mine
         || progress.None? || (phase != Ready && phase != UnitAssembly) {
        return ReplyOut(StatusReply(f.opcode, f.id, f.cookie, if mine then BadRequest else TransactionMismatched));
      }
      var u := UnitOf(progress.value, f);
      var end := u.offset + |f.body|;
      if u.length == 0 || end > u.length || f.flags.first != (u.offset == 0) || f.flags.last != (end == u.length) {
        return ReplyOut(StatusReply(f.opcode, f.id, cookie, BadRequest));
      }
      var placed, refusal := PlaceUnit(f, u);
      if !placed { return ReplyOut(StatusReply(f.opcode, f.id, cookie, refusal)); }
      var accepted := StoreUnitFragment(u.offset, f);
      if !accepted.Accepted? {
        return ReplyOut(StatusReply(f.opcode, f.id, cookie, if accepted.Conflict? then IntegrityError else BadRequest));
      }
      CountBounds(blockAssembly.cells);
      if Count(blockAssembly.cells) != |blockAssembly.cells| || !unitFirst || !unitLast {
        return ReplyOut(FragmentReply(f.opcode, f.id, cookie, FirstGap(blockAssembly.cells)));
      }
      out := ConcludeUnit(r, f, Octets(blockAssembly.cells));
    }

    /** The action writes exactly the assembled unit. */
    ghost predicate WritesUnit(a: Action)
      reads this`blockAssembly, this`pending
    {
      && (forall i :: 0 <= i < |blockAssembly.cells| ==> blockAssembly.cells[i].Got?) && a.bytes == Octets(blockAssembly.cells)
      && a.index == blockAssembly.index && a.kind == (if blockAssembly.region.ManifestRegion? then ManifestAction else BlockAction)
      && pending.Some? && pending.value.index == a.index
      && pending.value.digest == prints.unit(blockAssembly.region, blockAssembly.index, a.bytes)
    }

    method ConcludeUnit(r: Route, f: Request, bytes: seq<byte>) returns (out: Emission)
      requires Inv() && pending.None? && phase == UnitAssembly && route == r && f.cookie == cookie
      requires f.opcode == Data && f.flags.payload == blockAssembly.region.PayloadRegion?
      requires (forall i :: 0 <= i < |blockAssembly.cells| ==> blockAssembly.cells[i].Got?) && bytes == Octets(blockAssembly.cells)
      modifies this`phase, this`blockAssembly, this`pending, this`nextToken, this`issued
      ensures Inv() && Answers(out, r, f) && Numbered(out, old(nextToken))
      ensures out.ActionOut? ==> bound && blockAssembly == old(blockAssembly) && WritesUnit(out.action)
      ensures out.ActionOut? <==> !Retained(replay, r, f.cookie, f.id)
      // The same unit under a retained request id is answered from the cache; other octets under that id are refused.
      ensures forall i :: 0 <= i < |replay| && replay[i].Some? && SameRequest(replay[i].value, r, f.cookie, f.id) ==>
        out == ReplyOut(if SameContent(replay[i].value, f.opcode, old(blockAssembly).region, old(blockAssembly).index,
                                       prints.unit(old(blockAssembly).region, old(blockAssembly).index, bytes))
                        then replay[i].value.reply else StatusReply(f.opcode, f.id, cookie, IntegrityError))
    {
      hide Inv, Retained, Octets;
      var (region, index) := (blockAssembly.region, blockAssembly.index);
      var digest := prints.unit(region, index, bytes);
      BoundHere();
      var l := LookupReplay(r, f.cookie, f.id, f.opcode, region, index, digest);
      if l.Exact? {
        ResetBlock();
        return ReplyOut(l.reply);
      }
      if l.Clash? {
        ResetBlock();
        return ReplyOut(StatusReply(f.opcode, f.id, cookie, IntegrityError));
      }
      out := Issue(if region.ManifestRegion? then ManifestAction else BlockAction, r, f, region, index, digest,
                   Some(progress.value.identity.txid), None, bytes);
    }

    lemma BoundHere()
      requires Inv() && (phase == Ready || phase == UnitAssembly)
      ensures bound && progress.Some?
    {
    }

    // ---- dispatch ----

    /** One request in, one emission out. While an action is pending nothing else is started and nothing changes. */
    method Consume(r: Route, f: Request) returns (ok: bool, out: Emission)
      requires Inv()
      modifies this`phase, this`planAssembly, this`sawFirst, this`sawLast, this`fromReady, this`planKind, this`plan, this`blockAssembly
      modifies this`unitRequest, this`unitFirst, this`unitLast, this`pending, this`nextToken, this`issued
      ensures Inv()
      ensures ok <==> r.Valid() && f.id != 0 && |f.body| <= MAX_BODY
      ensures out.ActionOut? <==> old(pending).None? && pending.Some?
      ensures out.ActionOut? ==> Answers(out, r, f) && Numbered(out, old(nextToken))
      ensures out.ActionOut? ==> f.opcode != Capabilities && f.opcode != UnknownOpcode
      ensures old(pending).Some? || !ok ==> unchanged(this) && !out.ActionOut?
      // A one-frame request starts its action exactly when it may.
      ensures ok && old(pending).None? && !Assembles(f.opcode) ==> (out.ActionOut? <==> old(Startable(r, f)))
    {
      hide Inv, Retained;
      if !r.Valid() || f.id == 0 || |f.body| > MAX_BODY { return false, Nothing; }
      ok := true;
      if f.flags.unknown || f.flags.response || f.flags.error {
        return true, ReplyOut(StatusReply(f.opcode, f.id, f.cookie, BadRequest));
      }
      if f.opcode == Capabilities {
        return true, if f.flags != SINGLE_FRAME || f.cookie != 0 || f.offset != 0 || f.body != []
                     then ReplyOut(StatusReply(f.opcode, f.id, 0, BadRequest)) else ReplyOut(CapabilitiesReply(f.id));
      }
      if phase == ActionPending {
        PendingPhase();
        return true, ReplyOut(StatusReply(f.opcode, f.id, f.cookie, BusyNow));
      }
      PendingPhase();
      match f.opcode {
        case Begin => out := ConsumePlan(BeginAction, r, f);
        case Recover => out := ConsumePlan(DiscardAction, r, f);
        case Resume => out := ConsumeResume(r, f);
        case Data => out := ConsumeData(r, f);
        case Query => out := ConsumeBound(ResumeQueryAction, r, f);
        case Commit => out := ConsumeBound(CommitAction, r, f);
        case Abort => out := ConsumeBound(AbortAction, r, f);
        case CurrentActive => out := ConsumeCurrentActive(r, f);
        case _ => out := ReplyOut(StatusReply(f.opcode, f.id, f.cookie, BadRequest));
      }
    }

    lemma PendingPhase()
      requires Inv()
      ensures phase == ActionPending <==> pending.Some?
      ensures phase == Idle ==> !bound
    {
    }

    // ---- completions and route closure ----

    /** The binding ends, with everything half assembled. */
    method Unbind()
      requires Shape()
      modifies this`phase, this`bound, this`route, this`cookie, this`progress, this`planAssembly, this`blockAssembly, this`sawFirst, this`sawLast
      modifies this`fromReady, this`planKind, this`unitRequest, this`unitFirst, this`unitLast, this`pending, this`finished
      ensures Inv() && phase == Idle && !bound && pending.None?
      ensures finished == old(finished) + (if old(pending).Some? then 1 else 0)
    {
      hide Retained, Consistent, WellFormed, Blank;
      ClearAssemblies();
      ClearBinding();
      if pending.Some? { finished := finished + 1; }
      pending, phase := None, Idle;
    }

    method ClearAssemblies()
      modifies this`planAssembly, this`blockAssembly, this`sawFirst, this`sawLast, this`fromReady, this`planKind
      modifies this`unitRequest, this`unitFirst, this`unitLast
      ensures planAssembly == NO_PLAN_ASSEMBLY && blockAssembly == NO_BLOCK_ASSEMBLY && !fromReady
    {
      planAssembly, blockAssembly, sawFirst, sawLast, fromReady, planKind := NO_PLAN_ASSEMBLY, NO_BLOCK_ASSEMBLY, false, false, false, BeginAction;
      unitRequest, unitFirst, unitLast := 0, false, false;
    }

    method ClearBinding()
      modifies this`bound, this`route, this`cookie, this`progress
      ensures !bound
    {
      bound, route, cookie, progress := false, NO_ROUTE, 0, None;
    }

    /** What holds whatever the phase. */
    ghost predicate Shape()
      reads this
    {
      && issued == finished + (if pending.Some? then 1 else 0)
      && |replay| == REPLAY_ENTRIES && nextSlot < REPLAY_ENTRIES && Consistent(replay)
      && 0 < nextCookie <= U32_MAX && 0 < nextToken <= U32_MAX
    }

    /** Between remembering a reply and leaving the pending action behind. */
    ghost predicate Settling()
      reads this
    {
      && Shape() && pending.Some? && |planAssembly.cells| == PLAN_BYTES && !planAssembly.bound && (fromReady ==> bound)
      && (bound ==> cookie != 0 && progress.Some? && WellFormed(progress.value))
    }

    lemma InvShape()
      requires Inv()
      ensures Shape()
    {
    }

    /** The pending action is over and the session goes on under its binding. */
    method BackToReady(reset: bool)
      requires Inv() && pending.Some? && bound
      modifies this`phase, this`pending, this`finished, this`blockAssembly
      ensures Inv() && phase == Ready && pending.None? && finished == old(finished) + 1
    {
      hide Retained, Consistent, WellFormed, Blank;
      pending, phase, finished := None, Ready, finished + 1;
      if reset { blockAssembly := NO_BLOCK_ASSEMBLY; }
    }

    /** Keep the reply for an exact retry, over the oldest entry. */
    method Remember(reply: Reply)
      requires Inv() && pending.Some? && !pending.value.orphaned
      modifies this`replay, this`nextSlot
      ensures Settling() && replay == old(replay)[old(nextSlot) := Some(EntryFor(pending.value, reply))]
    {
      replay := replay[nextSlot := Some(EntryFor(pending.value, reply))];
      nextSlot := (nextSlot + 1) % REPLAY_ENTRIES;
    }

    /** One completion: only the pending action's own token and kind finish it, and only once. */
    method Complete(c: Completion) returns (taken: bool, out: Emission)
      requires Inv()
      modifies this
      ensures Inv() && issued == old(issued)
      ensures taken <==> old(pending).Some? && c.token == old(pending).value.token && c.kind == old(pending).value.kind
      ensures !taken ==> unchanged(this) && out == Nothing
      ensures taken ==> pending.None? && finished == old(finished) + 1 && !out.ActionOut?
      ensures taken && bound ==> route == old(pending).value.route && !old(pending).value.orphaned
      // After the route is gone the action still finishes, silently, and nothing is revived.
      ensures taken && old(pending).value.orphaned ==> out == Nothing && !bound && phase == Idle && replay == old(replay)
      // A good result is answered and remembered under exactly its request; a failure is answered and not remembered.
      ensures taken && !old(pending).value.orphaned ==> out.ReplyOut?
      ensures taken && !old(pending).value.orphaned && old(Good(c)) ==>
        replay == old(replay)[old(nextSlot) := Some(EntryFor(old(pending).value, out.reply))]
      ensures taken && !old(pending).value.orphaned && !old(Good(c)) ==> replay == old(replay)
      ensures taken && !old(pending).value.orphaned && !c.result.StoreOk? ==>
        out.reply == StatusReply(old(pending).value.request.opcode, old(pending).value.request.id, old(pending).value.request.cookie, StoreStatus(c.result))
      // A success that does not fit the session is answered as an internal error and ends the binding.
      ensures taken && !old(pending).value.orphaned && c.result.StoreOk? && !old(Good(c)) ==>
        !bound && out.reply == StatusReply(old(pending).value.request.opcode, old(pending).value.request.id, old(pending).value.request.cookie, InternalError)
      // The binding's progress is always what the store last reported.
      ensures taken && bound ==> progress == if c.result.StoreOk? then c.progress else old(progress)
      ensures taken && bound && !c.result.StoreOk? ==> NeedsBinding(c.kind, old(pending).value.request)
      // Begin binds the route under a fresh cookie to the reported progress; commit, abort and recovery end the binding.
      ensures taken && !old(pending).value.orphaned && old(Good(c)) && c.kind == BeginAction ==>
        bound && route == old(pending).value.route && cookie == old(nextCookie) && progress == c.progress && phase == Ready
      ensures taken && !old(pending).value.orphaned && old(Good(c)) && (c.kind == ManifestAction || c.kind == BlockAction) ==>
        bound && cookie == old(cookie) && progress == c.progress && phase == Ready
      ensures taken && old(Good(c)) && (c.kind == CommitAction || c.kind == AbortAction || c.kind == DiscardAction) ==> !bound
    {
      hide Inv, Shape, Acceptable, Retained, WellFormed, Consistent;
      if pending.None? { return false, Nothing; }
      if c.token != pending.value.token || c.kind != pending.value.kind { return false, Nothing; }
      taken := true;
      InvShape();
      var p := pending.value;
      if p.orphaned {
        Unbind();
        return true, Nothing;
      }
      if !c.result.StoreOk? {
        out := ReplyOut(StatusReply(p.request.opcode, p.request.id, p.request.cookie, StoreStatus(c.result)));
        FailPending();
      } else if !Acceptable(p, c, plan, progress) {
        out := ReplyOut(StatusReply(p.request.opcode, p.request.id, p.request.cookie, InternalError));
        Unbind();
      } else {
        out := Succeed(c);
      }
    }

    ghost predicate Good(c: Completion)
      reads this`pending, this`plan, this`progress
    {
      pending.Some? && c.result.StoreOk? && Acceptable(pending.value, c, plan, progress)
    }

    /** A store error leaves an existing binding usable and never creates one. */
    method FailPending()
      requires Inv() && pending.Some? && !pending.value.orphaned
      modifies this
      ensures Inv() && pending.None? && finished == old(finished) + 1 && issued == old(issued) && replay == old(replay)
      ensures bound ==> old(bound) && phase == Ready && route == old(pending).value.route
      ensures bound ==> progress == old(progress) && NeedsBinding(old(pending).value.kind, old(pending).value.request)
    {
      hide Shape, Retained, WellFormed, Consistent;
      var p := pending.value;
      if NeedsBinding(p.kind, p.request) {
        BackToReady(p.kind == ManifestAction || p.kind == BlockAction);
      } else {
        InvShape();
        Unbind();
      }
    }

    method Succeed(c: Completion) returns (out: Emission)
      requires Inv() && Good(c) && !pending.value.orphaned && c.kind == pending.value.kind
      modifies this
      ensures Inv() && pending.None? && finished == old(finished) + 1 && issued == old(issued) && out.ReplyOut?
      ensures replay == old(replay)[old(nextSlot) := Some(EntryFor(old(pending).value, out.reply))]
      ensures bound ==> route == old(pending).value.route && progress == c.progress
      ensures c.kind == BeginAction ==>
        bound && route == old(pending).value.route && cookie == old(nextCookie) && progress == c.progress && phase == Ready
      ensures c.kind == ManifestAction || c.kind == BlockAction ==> bound && cookie == old(cookie) && progress == c.progress && phase == Ready
      ensures c.kind == CommitAction || c.kind == AbortAction || c.kind == DiscardAction ==> !bound
    {
      hide Inv, Settling, Shape, Acceptable, Retained, WellFormed, Consistent, PendingFits, EntryFor;
      var p := pending.value;
      var q := p.request;
      AcceptedParts(c);
      match p.kind {
        case BeginAction =>
          out := ReplyOut(IdentityReply(q.opcode, q.id, nextCookie, c.progress.value));
          Remember(out.reply);
          Bind(p.route, c.progress.value);
        case ResumeQueryAction =>
          if !c.outcome.value.StillActive? {
            out := ReplyOut(OutcomeReply(q.opcode, q.id, c.outcome.value, c.identity.value, c.manifestBytes, c.payloadBytes));
            Remember(out.reply);
            UnbindSettled();
          } else if q.cookie == 0 {
            out := ReplyOut(IdentityReply(q.opcode, q.id, nextCookie, c.progress.value));
            Remember(out.reply);
            Bind(p.route, c.progress.value);
          } else {
            out := ReplyOut(ProgressReply(q.opcode, q.id, cookie, c.progress.value));
            Remember(out.reply);
            Advance(c.progress.value, false);
          }
        case ManifestAction =>
          out := ReplyOut(ProgressReply(q.opcode, q.id, cookie, c.progress.value));
          Remember(out.reply);
          Advance(c.progress.value, true);
        case BlockAction =>
          out := ReplyOut(ProgressReply(q.opcode, q.id, cookie, c.progress.value));
          Remember(out.reply);
          Advance(c.progress.value, true);
        case CurrentActiveAction =>
          out := ReplyOut(ActiveReply(q.id, c.active.value));
          Remember(out.reply);
          UnbindSettled();
        case _ =>
          out := ReplyOut(StatusReply(q.opcode, q.id, if p.kind == DiscardAction then 0 else cookie, Fine));
          Remember(out.reply);
          UnbindSettled();
      }
    }

    lemma AcceptedParts(c: Completion)
      requires Inv() && Good(c) && !pending.value.orphaned && c.kind == pending.value.kind
      ensures c.kind == BeginAction || c.kind == ManifestAction || c.kind == BlockAction ==> c.progress.Some? && WellFormed(c.progress.value)
      ensures c.kind == ResumeQueryAction ==> c.outcome.Some? && c.identity.Some?
      ensures c.kind == ResumeQueryAction && c.outcome.value.StillActive? ==> c.progress.Some? && WellFormed(c.progress.value)
      ensures c.kind == CurrentActiveAction ==> c.active.Some?
      ensures NeedsBinding(c.kind, pending.value.request) ==> bound && route == pending.value.route
    {
      hide WellFormed, Consistent, Retained;
    }

    method UnbindSettled()
      requires Settling()
      modifies this`phase, this`bound, this`route, this`cookie, this`progress, this`planAssembly, this`blockAssembly, this`sawFirst, this`sawLast
      modifies this`fromReady, this`planKind, this`unitRequest, this`unitFirst, this`unitLast, this`pending, this`finished
      ensures Inv() && phase == Idle && !bound && pending.None? && finished == old(finished) + 1
    {
      Unbind();
    }

    /** A new binding, under the next cookie; cookies come round again only after all 32-bit values but zero. */
    method Bind(r: Route, p: Progress)
      requires Settling() && WellFormed(p)
      modifies this`phase, this`bound, this`route, this`cookie, this`progress, this`nextCookie, this`pending, this`finished
      ensures Inv() && phase == Ready && bound && route == r && cookie == old(nextCookie) && progress == Some(p)
      ensures pending.None? && finished == old(finished) + 1
    {
      hide Retained, Consistent, WellFormed;
      progress, route, bound, cookie := Some(p), r, true, nextCookie;
      nextCookie := NextNonzero(nextCookie);
      pending, phase, finished := None, Ready, finished + 1;
    }

    method Advance(p: Progress, reset: bool)
      requires Settling() && WellFormed(p) && bound
      modifies this`phase, this`progress, this`pending, this`finished, this`blockAssembly
      ensures Inv() && phase == Ready && progress == Some(p) && pending.None? && finished == old(finished) + 1
    {
      hide Retained, Consistent, WellFormed;
      progress, pending, phase, finished := Some(p), None, Ready, finished + 1;
      if reset { blockAssembly := NO_BLOCK_ASSEMBLY; }
    }

    /** A route is gone: its retained replies go with it, its binding ends, and its pending action is left to finish unanswered. */
    method RouteClosed(r: Route)
      requires Inv()
      modifies this
      ensures Inv() && issued == old(issued) && finished == old(finished) && nextToken == old(nextToken)
      ensures forall i :: 0 <= i < REPLAY_ENTRIES ==>
        replay[i] == if old(replay)[i].Some? && old(replay)[i].value.route == r then None else old(replay)[i]
      ensures bound ==> route != r && old(bound) && route == old(route) && cookie == old(cookie) && progress == old(progress)
      // A pending action keeps its token and its bytes; it is never turned into an abort.
      ensures pending == if old(pending).Some? && old(pending).value.route == r then Some(old(pending).value.(orphaned := true))
                         else old(pending)
      ensures old(pending).Some? ==> blockAssembly == old(blockAssembly)
    {
      hide WellFormed, Blank, NeedsBinding;
      ForgetReplies(r);
      if pending.Some? {
        if pending.value.route == r { Orphan(); }
        return;
      }
      if (bound && route == r) || (planAssembly.bound && planAssembly.owner == r) {
        InvShape();
        Unbind();
      }
    }

    method ForgetReplies(r: Route)
      requires Inv()
      modifies this`replay
      ensures Inv()
      ensures forall i :: 0 <= i < REPLAY_ENTRIES ==>
        replay[i] == if old(replay)[i].Some? && old(replay)[i].value.route == r then None else old(replay)[i]
    {
      hide WellFormed, Blank, NeedsBinding;
      for k := 0 to REPLAY_ENTRIES
        invariant Inv()
        invariant forall i :: 0 <= i < REPLAY_ENTRIES ==>
          replay[i] == if i < k && old(replay)[i].Some? && old(replay)[i].value.route == r then None else old(replay)[i]
      {
        if replay[k].Some? && replay[k].value.route == r { DropReply(k); }
      }
    }

    method DropReply(k: nat)
      requires Inv() && k < REPLAY_ENTRIES
      modifies this`replay
      ensures Inv() && replay == old(replay)[k := None]
    {
      hide WellFormed, Blank, NeedsBinding;
      replay := replay[k := None];
    }

    method Orphan()
      requires Inv() && pending.Some?
      modifies this`pending, this`bound, this`route, this`cookie, this`progress, this`fromReady
      ensures Inv() && !bound && pending == Some(old(pending).value.(orphaned := true))
    {
      hide WellFormed, Blank, NeedsBinding, Consistent, Retained;
      pending := Some(pending.value.(orphaned := true));
      fromReady := false;
      ClearBinding();
    }

    /** Every route is gone. */
    method AllRoutesClosed()
      requires Inv()
      modifies this
      ensures Inv() && !bound && issued == old(issued) && finished == old(finished)
      ensures forall i :: 0 <= i < REPLAY_ENTRIES ==> replay[i].None?
      ensures pending == if old(pending).Some? then Some(old(pending).value.(orphaned := true)) else None
      ensures pending.Some? && (pending.value.kind == ManifestAction || pending.value.kind == BlockAction) ==> blockAssembly == old(blockAssembly)
    {
      hide WellFormed, Blank, NeedsBinding;
      DropAllReplies();
      if pending.Some? {
        Orphan();
        return;
      }
      InvShape();
      Unbind();
    }

    method DropAllReplies()
      requires Inv()
      modifies this`replay, this`nextSlot
      ensures Inv() && forall i :: 0 <= i < REPLAY_ENTRIES ==> replay[i].None?
    {
      hide WellFormed, Blank, NeedsBinding;
      replay, nextSlot := seq(REPLAY_ENTRIES, _ => None), 0;
    }

    /** Inactivity clears only a half-assembled plan or unit of this very route, and never starts or ends an action. */
    method ExpirePartial(r: Route) returns (expired: bool)
      requires Inv()
      modifies this`phase, this`planAssembly, this`sawFirst, this`sawLast, this`fromReady, this`planKind, this`blockAssembly
      ensures Inv()
      ensures expired ==> phase == if bound then Ready else Idle
      ensures expired <==> (old(phase) == BeginAssembly && old(planAssembly).owner == r) || (old(phase) == UnitAssembly && bound && route == r)
      ensures !expired ==> unchanged(this)
    {
      hide WellFormed, Blank, NeedsBinding, Consistent, Retained;
      if phase == BeginAssembly && planAssembly.bound && planAssembly.owner == r {
        RestoreAfterPlan();
        return true;
      }
      if phase == UnitAssembly && bound && route == r {
        ResetBlock();
        return true;
      }
      expired := false;
    }
  }

  function EntryFor(p: Pending, reply: Reply): Entry {
    Entry(p.route, p.request.cookie, p.request.id, p.request.opcode, p.region, p.index, p.digest, reply)
  }

  predicate Numbered(out: Emission, token: nat) {
    out.ActionOut? ==> out.action.token == token
  }

  /** The unit a Data frame belongs to, and where in it the frame's octets go. */
  datatype Unit = Unit(region: Region, index: nat, offset: nat, length: nat)

  function UnitOf(p: Progress, f: Request): Unit {
    if !f.flags.payload then Unit(ManifestRegion, 0, f.offset, if f.offset < p.manifestBytes then p.manifestBytes else 0)
    else Unit(PayloadRegion, f.offset / BLOCK, f.offset % BLOCK, if f.offset < p.payloadBytes then BlockLength(p.payloadBytes, f.offset / BLOCK) else 0)
  }

  function FirstGap(cells: seq<Cell>): (n: nat)
    ensures n <= |cells| && (forall i :: 0 <= i < n ==> cells[i].Got?) && (n < |cells| ==> cells[n].Missing?)
  {
    if cells == [] || cells[0].Missing? then 0 else 1 + FirstGap(cells[1..])
  }

  function Octets(cells: seq<Cell>): (s: seq<byte>)
    requires forall i :: 0 <= i < |cells| ==> cells[i].Got?
    ensures |s| == |cells|
  {
    seq(|cells|, i requires 0 <= i < |cells| => cells[i].b)
  }

  // ---- whole lives ----

  datatype Event = Incoming(r: Route, f: Request) | Done(c: Completion) | Closed(r: Route) | AllClosed | Expired(r: Route)

  datatype Effect = Started(token: nat, kind: ActionKind) | Finished(token: nat, kind: ActionKind)

  /** Store actions strictly one after the other, each finished exactly once by its own token and kind before the next starts. */
  predicate OneAtATime(log: seq<Effect>) {
    && (forall i :: 0 <= i < |log| ==> log[i].Started? == (i % 2 == 0))
    && (forall i, j :: 0 <= i < |log| && j == i + 1 && j < |log| && j % 2 == 1 ==> log[j] == Finished(log[i].token, log[i].kind))
  }

  /** The log's open action is the session's pending one. */
  ghost predicate LogFits(s: Session, log: seq<Effect>)
    reads s`pending
  {
    && OneAtATime(log)
    && (s.pending.Some? <==> |log| % 2 == 1)
    && (s.pending.Some? ==> log[|log| - 1] == Started(s.pending.value.token, s.pending.value.kind))
  }

  lemma LogStart(s: Session, log: seq<Effect>, token: nat, kind: ActionKind)
    requires OneAtATime(log) && |log| % 2 == 0 && s.pending.Some? && s.pending.value.token == token && s.pending.value.kind == kind
    ensures LogFits(s, log + [Started(token, kind)])
  {
  }

  lemma LogFinish(s: Session, log: seq<Effect>, token: nat, kind: ActionKind)
    requires OneAtATime(log) && |log| % 2 == 1 && log[|log| - 1] == Started(token, kind) && s.pending.None?
    ensures LogFits(s, log + [Finished(token, kind)])
  {
  }

  /** Any frames on any routes, any completions true or false, closures and timeouts, in any order. */
  method Live(s: Session, events: seq<Event>) returns (ghost log: seq<Effect>)
    requires s.Inv() && s.pending.None?
    modifies s
    ensures s.Inv() && LogFits(s, log)
  {
    hide Session.Inv, Session.Answers, Session.Good, Retained, OneAtATime;
    log := [];
    assert LogFits(s, log) by { NothingLogged(); }
    for k := 0 to |events|
      invariant s.Inv() && LogFits(s, log)
    {
      match events[k] {
        case Incoming(r, f) =>
          var ok, out := s.Consume(r, f);
          if out.ActionOut? {
            ActionIsPending(s, out, r, f);
            LogStart(s, log, out.action.token, out.action.kind);
            log := log + [Started(out.action.token, out.action.kind)];
          }
        case Done(c) =>
          var taken, out := s.Complete(c);
          if taken {
            LogFinish(s, log, c.token, c.kind);
            log := log + [Finished(c.token, c.kind)];
          }
        case Closed(r) => s.RouteClosed(r);
        case AllClosed => s.AllRoutesClosed();
        case Expired(r) => var _ := s.ExpirePartial(r);
      }
    }
  }

  lemma NothingLogged()
    ensures OneAtATime([])
  {
  }

  lemma ActionIsPending(s: Session, out: Emission, r: Route, f: Request)
    requires out.ActionOut? && s.Answers(out, r, f)
    ensures s.pending.Some? && s.pending.value.token == out.action.token && s.pending.value.kind == out.action.kind
  {
  }
}
