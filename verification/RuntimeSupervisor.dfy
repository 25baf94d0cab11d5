/** Mailbox and core together, as the supervisor polls them. The one admission is never stranded while polls keep stepping the core. */
module RuntimeSupervisor {
  import opened Options
  import opened RuntimeMailbox
  import opened RuntimeCore
  import S = AssetsSession

  const STEPS_PER_POLL: nat := 8

  datatype Turn = Turn(allowed: bool, exec: Exec, t: Timers)

  /** A poll without turns is one during which the boot sound holds the store. */
  datatype Event =
    | RouteOpened(r: Route)
    | RouteClosed(r: Route)
    | FrameArrived(r: Route, content: Content, fits: bool)
    | Poll(turns: seq<Turn>)
    | ReplySent(r: Route, sequence: nat)

  class Supervisor {
    const mailbox: Mailbox
    const core: Core

    constructor (mailbox: Mailbox, core: Core)
      requires mailbox.Inv() && mailbox.lease.None? && core.Inv() && core.Held() == [] && core.Live() == [] && core.lifecycle == []
      ensures this.mailbox == mailbox && this.core == core && Sound() && Prompt()
    {
      this.mailbox, this.core := mailbox, core;
      new;
      mailbox.NoLeaseNoFrames();
    }

    /** Admissions in the core are all different from the one still queued and from every one to come. */
    ghost predicate Sound()
      reads this, mailbox, core, core.session
    {
      && mailbox.Inv() && core.Inv()
      && (forall h :: h in core.Held() ==> h.id < mailbox.NextBound())
      && (mailbox.Queued() ==> mailbox.lease.Some? && forall h :: h in core.Held() ==> h.id != mailbox.lease.value.id)
    }

    /** The admission is somewhere on its way, and whatever else the core holds is about to be revoked. */
    ghost predicate Prompt()
      reads this, mailbox, core, core.session
    {
      && |core.lifecycle| <= 1
      && (mailbox.lease.Some? ==> (mailbox.Queued() || mailbox.lease.value in core.Live()) && Life(true, mailbox.lease.value.route) !in core.lifecycle)
      && (!mailbox.failClosed ==> |core.Live()| <= 1 && forall h :: h in core.Live() ==> Accounted(h))
      && |core.Live()| + (if mailbox.Queued() then 1 else 0) <= 2
    }

    ghost predicate Accounted(h: Lease)
      reads this, mailbox, core`lifecycle
    {
      mailbox.lease == Some(h) || mailbox.Leaving(h.route) || Life(true, h.route) in core.lifecycle
    }

    /** The outstanding admission is a queued frame, or somebody the core will still answer or release. */
    ghost predicate Anchored()
      reads mailbox, core, core.session
    {
      mailbox.lease.Some? && !mailbox.Queued() ==> mailbox.lease.value in core.Live()
    }

    /** And no close of its route waits in the core. */
    ghost predicate Firm()
      reads mailbox, core, core.session
    {
      Anchored() && (mailbox.lease.Some? && !mailbox.Queued() ==> Life(true, mailbox.lease.value.route) !in core.lifecycle)
    }

    /** The outstanding admission is out of the core's reach, or its frame is going to be before it is read. */
    ghost predicate Loose()
      reads mailbox, core, core.session
    {
      mailbox.lease.Some? && !mailbox.Queued() && (mailbox.lease.value !in core.Held() || core.Buried(mailbox.lease.value))
    }

    method Open(r: Route)
      requires Sound()
      modifies mailbox`data, mailbox`lease, mailbox`failClosed
      ensures Sound() && (old(Prompt()) ==> Prompt()) && (old(Firm()) ==> Firm()) && (old(Loose()) ==> Loose())
      ensures r.Valid() && old(mailbox.Receptive(r)) ==> mailbox.data == old(mailbox.data) + [Opened(r)] && !mailbox.failClosed
      ensures mailbox.lease == old(mailbox.lease)
    {
      hide Mailbox.Inv, Mailbox.ClosePending, Mailbox.Leaving, Core.Inv, Core.Held, Core.Live;
      var _ := mailbox.EnqueueOpened(r);
    }

    method Close(r: Route)
      requires Sound()
      modifies mailbox
      ensures Sound() && (old(Prompt()) ==> Prompt()) && (old(Firm()) ==> Firm())
      ensures r.Valid() && !old(mailbox.failClosed) && old(mailbox.revokeAll).None? && |old(mailbox.closes)| < CLOSE_CAPACITY && r !in old(mailbox.closes) ==>
        && mailbox.closes == old(mailbox.closes) + [r] && mailbox.data == Without(old(mailbox.data), r)
        && mailbox.revokeAll.None? && !mailbox.failClosed && mailbox.nextId == old(mailbox.nextId)
      ensures mailbox.lease.Some? ==> mailbox.lease == old(mailbox.lease)
      // The route's request is revoked at once, and no other one.
      ensures old(Loose()) ==> Loose() || mailbox.lease.None?
      ensures r.Valid() ==> mailbox.lease.None? || mailbox.lease.value.route != r
    {
      hide Mailbox.Inv, Mailbox.ClosePending, Mailbox.Leaving, Core.Inv, Core.Held, Core.Live;
      var _ := mailbox.EnqueueClosed(r);
    }

    method Arrive(r: Route, content: Content, fits: bool) returns (accepted: bool)
      requires Sound()
      modifies mailbox`data, mailbox`lease, mailbox`nextId, mailbox`failClosed
      ensures Sound() && (old(Prompt()) && core.lifecycle == [] ==> Prompt()) && (old(Firm()) ==> Firm())
      ensures accepted ==> old(mailbox.lease).None?
      ensures old(Loose()) ==> Loose()
      ensures accepted ==> mailbox.lease.Some? && mailbox.lease.value.route == r && mailbox.data == old(mailbox.data) + [Frame(r, mailbox.lease.value.id, content)]
      ensures old(mailbox.lease).None? && r.Valid() && fits && old(mailbox.Receptive(r)) ==> accepted
    {
      hide Mailbox.Inv, Mailbox.ClosePending, Mailbox.Leaving, Core.Inv, Core.Held, Core.Live;
      var e := mailbox.EnqueueFrame(r, content, fits);
      accepted := e.Accepted?;
    }

    /** A frame that the core has no room for, or ahead of which a close of its own route waits in the core. */
    predicate Crosses(item: Option<Item>)
      reads core`lifecycle, core`ingress
    {
      item.Some? && item.value.Frame? && (|core.ingress| >= INGRESS_CAPACITY || Life(true, item.value.route) in core.lifecycle)
    }

    /** What taking `item` made of the core's two inputs. */
    ghost predicate Passed(item: Option<Item>, lifecycle: seq<Life>, ingress: seq<Ingress>)
      reads core`lifecycle, core`ingress
    {
      match item
      case None => core.lifecycle == lifecycle && core.ingress == ingress
      case Some(Opened(r)) => core.lifecycle == Filed(lifecycle, false, r) && core.ingress == ingress
      case Some(Closed(r)) => core.lifecycle == Filed(lifecycle, true, r) && core.ingress == ingress
      case Some(AllClosed(_)) => core.lifecycle == [] && core.ingress == []
      case Some(Frame(r, id, content)) =>
        core.lifecycle == lifecycle && core.ingress == if |ingress| < INGRESS_CAPACITY then ingress + [Ingress(Lease(r, id), content)] else ingress
    }

    lemma PromptIsFirm()
      requires Sound() && Prompt()
      ensures Firm()
    {
    }

    lemma LooseIsNotFirm()
      requires Sound() && Loose()
      ensures !Firm() && (core.lifecycle == [] ==> !Anchored())
    {
      core.LiveRoutes();
    }

    /** One record from the mailbox into the core. A crossing frame, and nothing else, loosens the outstanding admission. */
    method Import() returns (item: Option<Item>)
      requires Sound()
      modifies mailbox, core, core.session
      ensures Sound() && (old(Prompt()) && old(core.lifecycle) == [] ==> Prompt())
      ensures item == old(mailbox.Next()) && Passed(item, old(core.lifecycle), old(core.ingress))
      ensures mailbox.lease == old(mailbox.lease) && mailbox.failClosed == old(mailbox.failClosed) && mailbox.nextId == old(mailbox.nextId)
      ensures old(mailbox.revokeAll).None? ==> mailbox.revokeAll.None?
      ensures old(mailbox.revokeAll).None? && old(mailbox.closes) == [] && item.Some? ==> mailbox.closes == [] && mailbox.data == old(mailbox.data)[1..]
      ensures old(mailbox.revokeAll).None? && old(mailbox.closes) != [] ==> mailbox.closes == old(mailbox.closes)[1..] && mailbox.data == old(mailbox.data)
      ensures old(Firm()) ==> if old(Crosses(item)) then Loose() else Firm()
      ensures old(Loose()) ==> Loose()
      // Polled promptly, the core has room for every record.
      ensures old(Prompt()) && old(core.lifecycle) == [] ==> !old(Crosses(item))
    {
      hide Mailbox.Inv, Mailbox.ClosePending, Mailbox.Leaving, Core.Inv, Core.Held, Core.Live, Filed;
      item := mailbox.TakeNext();
      if item.None? { return; }
      match item.value {
        case Opened(r) => ImportLife(false, r);
        case Closed(r) => ImportLife(true, r);
        case AllClosed(r) => ImportRevocation(r);
        case Frame(r, id, content) => ImportFrame(Lease(r, id), content);
      }
    }

    /** As prompt as can be while a record about `r` is between the mailbox and the core. */
    ghost predicate Expecting(closed: bool, r: Route)
      reads mailbox, core, core.session
    {
      && core.lifecycle == []
      && (mailbox.lease.Some? ==> mailbox.Queued() || mailbox.lease.value in core.Live())
      && (!mailbox.failClosed ==> |core.Live()| <= 1 && forall h :: h in core.Live() ==>
            mailbox.lease == Some(h) || mailbox.Leaving(h.route) || (closed && h.route == r))
      && |core.Live()| + (if mailbox.Queued() then 1 else 0) <= 2
    }

    method ImportLife(closed: bool, r: Route)
      requires Sound() && (closed ==> mailbox.lease.None? || mailbox.lease.value.route != r)
      modifies core`lifecycle
      ensures Sound() && core.lifecycle == Filed(old(core.lifecycle), closed, r)
      ensures (old(Firm()) ==> Firm()) && (old(Loose()) ==> Loose())
      ensures old(Expecting(closed, r)) ==> Prompt()
    {
      hide Mailbox.Inv, Mailbox.ClosePending, Mailbox.Leaving, Core.Inv, Core.Held, Core.Live, Filed;
      core.LiveRoutes();
      var _ := core.EnqueueLifecycle(closed, r);
    }

    method ImportRevocation(r: Route)
      requires Sound() && mailbox.lease.None?
      modifies core, core.session
      ensures Sound() && core.lifecycle == [] && core.ingress == [] && Firm() && Prompt()
    {
      hide Mailbox.Inv, Mailbox.ClosePending, Mailbox.Leaving, Core.Inv, Core.Held, Core.Live, Core.PendingLeases, LifeRoutes, Routes;
      mailbox.NoLeaseNoFrames();
      core.RevokeAll(r);
    }

    method ImportFrame(l: Lease, content: Content)
      requires Sound() && mailbox.lease == Some(l) && l.route.Valid() && l.id != 0 && !mailbox.Queued()
      requires l.id < mailbox.NextBound() && forall h :: h in core.Held() ==> h.id != l.id
      requires forall x :: !mailbox.Leaving(x)
      modifies core`ingress
      ensures Sound()
      ensures core.ingress == if |old(core.ingress)| < INGRESS_CAPACITY then old(core.ingress) + [Ingress(l, content)] else old(core.ingress)
      ensures if |old(core.ingress)| < INGRESS_CAPACITY && Life(true, l.route) !in core.lifecycle then Firm() else Loose()
      ensures old(Arriving()) ==> Prompt() && |old(core.ingress)| < INGRESS_CAPACITY
    {
      hide Mailbox.Inv, Mailbox.ClosePending, Mailbox.Leaving, Core.Inv, Core.Held, Core.Live;
      core.LiveRoutes();
      SomebodyOrNobody(core.Live());
      IngressLeasesAppend(core.ingress, Ingress(l, content));
      var _ := core.EnqueueIngress(l, content);
    }

    /** A frame is taken only when nobody answerable is left in the core. */
    ghost predicate Arriving()
      reads mailbox, core, core.session
    {
      && core.lifecycle == [] && |core.Live()| <= 1
      && (!mailbox.failClosed ==> forall h :: h in core.Live() ==> mailbox.lease == Some(h) || mailbox.Leaving(h.route))
    }

    lemma SomebodyOrNobody(held: seq<Lease>)
      ensures held == [] || exists h :: h in held
    {
      if held != [] { assert held[0] in held; }
    }

    /** One step of the core, and its released admission back to the mailbox. Steps mend nothing that is loose. */
    method TakeTurn(turn: Turn) returns (result: StepResult)
      requires Sound()
      modifies mailbox, core, core.session
      ensures Sound() && (old(Prompt()) ==> Prompt() && core.lifecycle == [])
      ensures mailbox.lease == if core.release.Some? && core.release == old(mailbox.lease) then None else old(mailbox.lease)
      ensures core.lifecycle == if old(core.lifecycle) == [] then [] else old(core.lifecycle)[1..]
      ensures (old(Firm()) ==> Firm()) && (old(Loose()) ==> Loose())
      // The admission is left behind exactly in the step that applies its route's close.
      ensures old(Anchored()) ==>
        (Anchored() <==> !old(mailbox.lease.Some? && !mailbox.Queued() && core.lifecycle != [] && core.lifecycle[0] == Life(true, mailbox.lease.value.route)))
    {
      hide Mailbox.Inv, Mailbox.ClosePending, Mailbox.Leaving, Core.Inv, Core.Held, Core.Live, Drop, ReplyLeases, IngressLeases, Inserted;
      if Loose() { LooseFacts(); }
      ghost var k, held := |core.replies|, core.Held();
      result := core.Step(turn.allowed, turn.exec, turn.t);
      core.HeldMembers();
      if core.release.Some? {
        InsertedIsIn(core.Held(), k, core.release.value, held);
        var _ := mailbox.Release(core.release.value);
      }
    }

    lemma LooseFacts()
      requires Sound() && Loose()
      ensures mailbox.lease.value in core.Held() ==>
        mailbox.lease.value !in ReplyLeases(core.replies) && mailbox.lease.value !in core.PendingLeases()
    {
      if core.Buried(mailbox.lease.value) { core.BuriedIsHeldOnce(mailbox.lease.value); }
    }

    /** One record, then up to eight steps. */
    method PollOnce(turns: seq<Turn>) returns (item: Option<Item>)
      requires Sound()
      modifies mailbox, core, core.session
      ensures Sound() && item == old(mailbox.Next())
      ensures old(Prompt()) && old(core.lifecycle) == [] && turns != [] ==> Prompt() && core.lifecycle == [] && !old(Crosses(item))
      ensures old(Firm()) ==> if old(Crosses(item)) then Loose() else Firm()
      ensures old(Loose()) ==> Loose()
      // During a hold the record just waits in the core.
      ensures turns == [] ==> Passed(item, old(core.lifecycle), old(core.ingress)) && mailbox.lease == old(mailbox.lease)
      ensures turns == [] && old(mailbox.revokeAll).None? ==>
        && mailbox.revokeAll.None? && mailbox.failClosed == old(mailbox.failClosed) && mailbox.nextId == old(mailbox.nextId)
        && (old(mailbox.closes) == [] && item.Some? ==> mailbox.closes == [] && mailbox.data == old(mailbox.data)[1..])
        && (old(mailbox.closes) != [] ==> mailbox.closes == old(mailbox.closes)[1..] && mailbox.data == old(mailbox.data))
    {
      hide Mailbox.Inv, Core.Inv, Core.Held, Core.Live, Core.Buried, Mailbox.ClosePending, Mailbox.Leaving, Filed, Passed, Prompt, Firm, Loose, Sound;
      item := Import();
      if turns == [] { return; }
      ghost var prompt, firm, loose := Prompt(), Firm(), Loose();
      for k := 0 to if |turns| < STEPS_PER_POLL then |turns| else STEPS_PER_POLL
        invariant Sound() && (prompt ==> Prompt() && (k > 0 ==> core.lifecycle == []))
        invariant (firm ==> Firm()) && (loose ==> Loose())
      {
        var result := TakeTurn(turns[k]);
        if result.Idle? || result.PausedForInput? || result.ReplyBackpressure? || result.ActionExecutionPending? { return; }
      }
    }

    /** A transport took the reply it was offered: only that reply leaves, and only its own admission is freed. */
    method Sent(r: Route, sequence: nat) returns (gone: Option<Reply>)
      requires Sound()
      modifies mailbox, core
      ensures Sound() && core.lifecycle == old(core.lifecycle) && (old(Prompt()) ==> Prompt())
      ensures (old(Firm()) ==> Firm()) && (old(Loose()) ==> Loose())
      ensures gone.None? ==> unchanged(core) && unchanged(mailbox)
      ensures gone.Some? ==> gone.value in old(core.replies) && gone.value.lease.route == r && gone.value.sequence == sequence
      ensures forall x :: x in core.replies <==> x in old(core.replies) && gone != Some(x)
      ensures mailbox.lease == if gone.Some? && old(mailbox.lease) == Some(gone.value.lease) then None else old(mailbox.lease)
    {
      hide Mailbox.Inv, Mailbox.ClosePending, Mailbox.Leaving, Core.Inv, Core.Held, Core.Live, ReplyLeases, IngressLeases;
      if Loose() { LooseFacts(); }
      var found := core.FrontReply(r);
      if found.None? || found.value.sequence != sequence { return None; }
      gone := found;
      RepliesHold(core.replies, found.value);
      core.HeldMembers();
      core.RemoveReply(found.value);
      var _ := mailbox.Release(found.value.lease);
    }
  }

  lemma RepliesHold(replies: seq<Reply>, x: Reply)
    requires x in replies
    ensures x.lease in ReplyLeases(replies)
  {
    var i :| 0 <= i < |replies| && replies[i] == x;
    assert ReplyLeases(replies)[i] == x.lease;
  }

  /** One event. What crossed is a frame that the core had no room for or that came in behind a close of its own route. */
  method Happen(s: Supervisor, event: Event) returns (crossed: bool)
    requires s.Sound()
    modifies s.mailbox, s.core, s.core.session
    ensures s.Sound()
    ensures crossed <==> event.Poll? && old(s.Crosses(s.mailbox.Next()))
    ensures old(s.Firm()) ==> if crossed then s.Loose() else s.Firm()
    // Nothing but a close mends it.
    ensures old(s.Loose()) ==> s.Loose() || (event.RouteClosed? && s.mailbox.lease.None?)
    ensures (event.Poll? ==> event.turns != []) && old(s.Prompt() && s.core.lifecycle == []) ==> s.Prompt() && s.core.lifecycle == [] && !crossed
  {
    hide Mailbox.Inv, Core.Inv, Supervisor.Sound, Supervisor.Prompt, Supervisor.Firm, Supervisor.Crosses, Mailbox.Next, Mailbox.Receptive;
    crossed := event.Poll? && s.Crosses(s.mailbox.Next());
    match event {
      case RouteOpened(r) => s.Open(r);
      case RouteClosed(r) => s.Close(r);
      case FrameArrived(r, content, fits) => var _ := s.Arrive(r, content, fits);
      case Poll(turns) => var _ := s.PollOnce(turns);
      case ReplySent(r, sequence) => var _ := s.Sent(r, sequence);
    }
  }

  /**
   * Any traffic, closes, transport acknowledgements and executor behaviour, with any number of steps in a poll, down to none. The
   * outstanding admission is a queued frame or somebody the core will answer or release, exactly until a frame crosses its route's
   * close or finds the core full; and that never happens as long as every poll steps the core at least once.
   */
  method Serve(s: Supervisor, events: seq<Event>) returns (ghost firm: bool, crossed: bool)
    requires s.Sound() && s.Prompt() && s.core.lifecycle == []
    modifies s.mailbox, s.core, s.core.session
    ensures s.Sound()
    // `firm`: the admission was safe after every event.
    ensures firm <==> !crossed
    ensures firm ==> s.Firm()
    ensures (forall k :: 0 <= k < |events| && events[k].Poll? ==> events[k].turns != []) ==> s.Prompt() && !crossed
  {
    hide Mailbox.Inv, Core.Inv, Supervisor.Sound, Supervisor.Prompt, Supervisor.Firm, Supervisor.Loose;
    firm, crossed := true, false;
    s.PromptIsFirm();
    for k := 0 to |events|
      invariant s.Sound() && (firm <==> !crossed) && (firm ==> s.Firm())
      invariant (forall j :: 0 <= j < k && events[j].Poll? ==> events[j].turns != []) ==> s.Prompt() && s.core.lifecycle == [] && !crossed
    {
      var c := Happen(s, events[k]);
      if s.Loose() { s.LooseIsNotFirm(); }
      firm, crossed := firm && s.Firm(), crossed || c;
    }
  }

  /** Nothing is under way, and the mailbox would take a frame of `r`. */
  ghost predicate Quiet(s: Supervisor, r: Route, lifecycle: seq<Life>)
    reads s, s.mailbox, s.core, s.core.session
  {
    && s.Sound() && s.core.lifecycle == lifecycle && s.core.ingress == [] && r.Valid()
    && s.mailbox.data == [] && s.mailbox.closes == [] && s.mailbox.lease.None? && s.mailbox.Receptive(r)
  }

  /**
   * Held polls can strand the admission: a close waits in the core while its route opens again and sends, and the first step after
   * the hold takes the new frame away with nobody left to release it.
   */
  method HeldPollsCanStrand(s: Supervisor, r: Route, content: Content, turn: Turn)
    requires Quiet(s, r, []) && s.Prompt()
    modifies s.mailbox, s.core, s.core.session
    ensures s.Sound() && !s.Anchored()
  {
    hide Supervisor.Sound, Mailbox.Receptive, Quiet, Supervisor.Prompt, Mailbox.Next;
    CloseInHold(s, r);
    OpenInHold(s, r);
    FrameInHold(s, r, content);
    EndHold(s, turn);
  }

  method CloseInHold(s: Supervisor, r: Route)
    requires Quiet(s, r, [])
    modifies s.mailbox, s.core, s.core.session
    ensures Quiet(s, r, [Life(true, r)])
  {
    hide Supervisor.Sound, Supervisor.Firm, Supervisor.Loose, Supervisor.Prompt;
    s.Close(r);
    var item := s.PollOnce([]);
  }

  method OpenInHold(s: Supervisor, r: Route)
    requires Quiet(s, r, [Life(true, r)])
    modifies s.mailbox, s.core, s.core.session
    ensures Quiet(s, r, [Life(true, r)])
  {
    hide Supervisor.Sound, Supervisor.Firm, Supervisor.Loose, Supervisor.Prompt;
    s.Open(r);
    var item := s.PollOnce([]);
  }

  method FrameInHold(s: Supervisor, r: Route, content: Content)
    requires Quiet(s, r, [Life(true, r)])
    modifies s.mailbox, s.core, s.core.session
    ensures s.Sound() && s.Loose() && s.core.lifecycle == [Life(true, r)] && s.mailbox.Next().None?
  {
    hide Supervisor.Sound, Supervisor.Loose, Supervisor.Prompt;
    var accepted := s.Arrive(r, content, true);
    assert s.core.lifecycle[0] == Life(true, r) && s.mailbox.Next() == Some(Frame(r, s.mailbox.lease.value.id, content));
    var item := s.PollOnce([]);
  }

  method EndHold(s: Supervisor, turn: Turn)
    requires s.Sound() && s.Loose() && |s.core.lifecycle| == 1 && s.mailbox.Next().None?
    modifies s.mailbox, s.core, s.core.session
    ensures s.Sound() && !s.Anchored()
  {
    hide Supervisor.Sound, Supervisor.Prompt, Mailbox.Next, Core.Held, Core.Live;
    var item := s.Import();
    var _ := s.TakeTurn(turn);
    s.LooseIsNotFirm();
  }
}
