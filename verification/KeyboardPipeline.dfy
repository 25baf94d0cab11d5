/** From physical keys to transport queues: every chord goes to one endpoint lifetime, and no key is left down. */
module KeyboardPipeline {
  import opened Bytes
  import opened HeldKeyboard
  import opened HidReportQueue
  import opened ReportOutlet
  import opened SnapshotDelivery
  import opened TransportLatch

  const KEYBOARD_REPORT: byte := 1

  /** A host connection as sampled. */
  datatype Endpoint = Endpoint(owner: Owner, epoch: nat)

  /** One snapshot that a transport queue took, and the chord it belongs to. */
  datatype Admission = Admission(to: Endpoint, snapshot: Snapshot, chord: nat)

  function Addressed(e: Endpoint, s: Snapshot, cls: ReportClass): Payload {
    Payload(KEYBOARD_REPORT, Wire(s), cls, if e.owner == Ble then BleOwner(0, e.epoch) else NO_OWNER, if e.owner == Usb then e.epoch else 0)
  }

  /** All reports of one chord go to one endpoint lifetime. */
  predicate ChordsAreWhole(log: seq<Admission>) {
    forall i, j :: 0 <= i < j < |log| && log[i].chord == log[j].chord ==> log[i].to == log[j].to
  }

  predicate NoneAfter(log: seq<Admission>, chord: nat) {
    forall i :: 0 <= i < |log| ==> log[i].chord <= chord
  }

  predicate ChordGoesTo(log: seq<Admission>, chord: nat, e: Endpoint) {
    forall i :: 0 <= i < |log| && log[i].chord == chord ==> log[i].to == e
  }

  class Pipeline {
    const held: Held
    const delivery: Delivery
    const latch: Latch
    const usbOut: Outlet
    const bleOut: Outlet
    var usb: nat
    var ble: nat
    ghost var log: seq<Admission>
    /** Chords begun so far; the latest one is open while the latch is taken. */
    ghost var chord: nat
    /** What the input sources may contribute. */
    ghost const sources: set<set<Usage>>
    /** So far: what was offered was made of the sources' contributions, at most eleven sources and app presses were down at once, and no app release came without its press. */
    ghost var tidy: bool
    /** Some release also pressed something. */
    ghost var swapped: bool
    /** Some key-up found no room. */
    ghost var refused: bool

    function Out(o: Owner): Outlet {
      if o == Usb then usbOut else bleOut
    }

    ghost predicate Shape()
      reads held, delivery, latch, usbOut, usbOut.queue, usbOut.queue.reports, bleOut, bleOut.queue, bleOut.queue.reports
    {
      && held.Valid() && delivery.Valid() && delivery.desired == held.current
      && (latch.owner == Usb || latch.owner == Ble <==> latch.epoch != 0)
      && usbOut != bleOut && usbOut.queue != bleOut.queue && usbOut.queue.reports != bleOut.queue.reports
      && usbOut.Valid() && bleOut.Valid()
    }

    ghost function Current(o: Owner): nat
      reads this`usb, this`ble
    {
      if o == Usb then usb else if o == Ble then ble else 0
    }

    ghost predicate Inv()
      reads this, held, delivery, latch, usbOut, usbOut.queue, usbOut.queue.reports, bleOut, bleOut.queue, bleOut.queue.reports
    {
      && Shape() && latch.Live(usb, ble)
      // A free latch means the transport owes nothing and is owed nothing but what is pending.
      && (latch.owner == NoOwner ==> delivery.accepted == EMPTY)
      && Told(Usb) && Told(Ble) && Chords()
      && (tidy && !swapped ==> !refused && Roomy(Usb) && Roomy(Ble))
    }

    ghost predicate Chords()
      reads this`log, this`chord, latch
    {
      && ChordsAreWhole(log)
      && NoneAfter(log, chord)
      && (latch.owner == Usb || latch.owner == Ble ==> ChordGoesTo(log, chord, Endpoint(latch.owner, latch.epoch)))
    }

    /** The last snapshot kept for a connected host is the accepted state if the chord is its own, and otherwise that nothing is held. */
    ghost predicate Told(o: Owner)
      reads this`usb, this`ble, delivery`accepted, latch`owner, Out(o)`last
    {
      Current(o) != 0 ==> Out(o).last == Wire(if latch.owner == o then delivery.accepted else EMPTY)
    }

    /** What is down according to the queue of `o`: sources of its chord, and app presses. */
    ghost function Down(o: Owner): nat
      reads delivery`accepted, latch`owner, Out(o)`apps
    {
      Out(o).apps + if latch.owner == o then Weight(sources, delivery.accepted) else 0
    }

    ghost predicate Roomy(o: Owner)
      reads delivery`accepted, latch`owner, Out(o)`apps, Out(o)`size
    {
      Out(o).size + Down(o) <= CAPACITY && (latch.owner == o ==> Spelled(sources, delivery.accepted))
    }

    constructor (ghost sources: set<set<Usage>>)
      ensures Inv() && log == [] && held.current == EMPTY && latch.owner == NoOwner && usb == ble == 0 && tidy && !swapped && !refused
      ensures this.sources == sources && usbOut.apps == bleOut.apps == 0 && usbOut.taken == bleOut.taken == []
      ensures |held.reports| == |held.active| == HeldKeyboard.SOURCES && forall i :: 0 <= i < HeldKeyboard.SOURCES ==> !held.active[i]
      ensures fresh(held) && fresh(delivery) && fresh(latch) && fresh(usbOut) && fresh(bleOut)
      ensures fresh(usbOut.queue) && fresh(usbOut.queue.reports) && fresh(bleOut.queue) && fresh(bleOut.queue.reports)
    {
      held := new Held();
      delivery := new Delivery();
      latch := new Latch();
      usbOut := new Outlet();
      bleOut := new Outlet();
      usb, ble, log, chord, tidy, swapped, refused := 0, 0, [], 0, true, false, false;
      this.sources := sources;
      new;
      BlankOnTheWire();
    }

    /** A new endpoint lifetime starts with an empty queue. */
    method Relink(usb': nat, ble': nat)
      requires usbOut.Valid() && bleOut.Valid() && usbOut != bleOut && usbOut.queue != bleOut.queue && usbOut.queue.reports != bleOut.queue.reports
      modifies this`usb, this`ble, usbOut, usbOut.queue, usbOut.queue.reports, bleOut, bleOut.queue, bleOut.queue.reports
      ensures usbOut.Valid() && bleOut.Valid() && usb == usb' && ble == ble'
      ensures if usb' == old(usb) then unchanged(usbOut) else usbOut.apps == usbOut.size == 0 && usbOut.last == Wire(EMPTY)
      ensures if ble' == old(ble) then unchanged(bleOut) else bleOut.apps == bleOut.size == 0 && bleOut.last == Wire(EMPTY) && bleOut.taken == []
    {
      hide Outlet.Valid, Wire;
      BlankOnTheWire();
      if usb' != usb { usbOut.Renew(); }
      if ble' != ble { bleOut.Renew(); }
      usb, ble := usb', ble';
    }

    /** Sample both endpoints; a chord whose endpoint is gone is given up, never moved. */
    method Reconcile(usb': nat, ble': nat)
      requires Inv()
      modifies this`usb, this`ble, delivery, latch, usbOut, usbOut.queue, usbOut.queue.reports, bleOut, bleOut.queue, bleOut.queue.reports
      ensures Inv() && usb == usb' && ble == ble'
      ensures old(latch.owner) != NoOwner && latch.owner == NoOwner ==> held.current == EMPTY
      ensures latch.owner == old(latch.owner) || latch.owner == Suppressed || latch.owner == NoOwner
      ensures old(latch.owner) == NoOwner ==> latch.owner == NoOwner
      ensures if usb' == old(usb) then unchanged(usbOut) else usbOut.apps == usbOut.size == 0
      ensures if ble' == old(ble) then unchanged(bleOut) else bleOut.apps == bleOut.size == 0 && bleOut.taken == []
      ensures usb' == old(usb) && ble' == old(ble) ==>
        latch.owner == old(latch.owner) && delivery.accepted == old(delivery.accepted) && delivery.pending == old(delivery.pending)
    {
      hide ChordsAreWhole, NoneAfter, ChordGoesTo, Weight, Spelled, Swaps, Held.Valid, Outlet.Valid, Usages, Wire;
      Relink(usb', ble');
      var lost := latch.Observe(usb != 0, usb, ble != 0, ble);
      if lost { GiveUp(); }
    }

    method GiveUp()
      requires Inv() && latch.owner == Suppressed
      modifies delivery, latch
      ensures Inv()
      ensures latch.owner == Suppressed || (latch.owner == NoOwner && held.current == EMPTY)
    {
      hide ChordsAreWhole, NoneAfter, ChordGoesTo, Weight, Spelled, Swaps, Held.Valid, Outlet.Valid, Usages, Wire;
      BlankIsEmpty(held.current);
      delivery.Reset(held.current);
      if Blank(held.current) { latch.CommitSnapshot(true); }
    }

    /** Where a pending snapshot would go. */
    ghost function Destination(): Owner
      reads this`usb, this`ble, latch
    {
      if latch.owner != NoOwner then latch.owner else if usb != 0 then Usb else if ble != 0 then Ble else Suppressed
    }

    /** The Bluetooth host has got nothing more, and a new one nothing yet. */
    ghost predicate TakenIs(before: nat, taken: seq<Payload>)
      reads this`ble, bleOut`taken
    {
      bleOut.taken == if ble == before then taken else []
    }

    /** Something is pending, and there is a queue for it. */
    ghost predicate Sends()
      reads this`usb, this`ble, latch, delivery`pending
    {
      delivery.pending != 0 && (Destination() == Usb || Destination() == Ble)
    }

    /** With `s` down on either queue, no more than eleven sources and app presses are. */
    ghost predicate Lightly(s: Snapshot)
      reads usbOut`apps, bleOut`apps
    {
      usbOut.apps + Weight(sources, s) <= HidReportQueue.SOURCES && bleOut.apps + Weight(sources, s) <= HidReportQueue.SOURCES
    }

    /** What one attempt may add: the latest state, to the live endpoint of the open chord. */
    ghost predicate Admits(before: seq<Admission>, after: seq<Admission>)
      reads this`usb, this`ble, this`chord, delivery`desired
    {
      || after == before
      || exists a ::
           && after == before + [a] && a.snapshot == delivery.desired && a.chord == chord
           && (a.to.owner == Usb || a.to.owner == Ble) && a.to.epoch == Current(a.to.owner) != 0
    }

    /** Bind the chord to an endpoint if it has none yet. */
    method Bind(empty: bool) returns (o: Owner)
      requires Inv() && delivery.desired != delivery.accepted && empty == (delivery.desired == EMPTY)
      modifies this`chord, latch
      ensures Inv() && latch.owner == old(Destination())
      ensures old(latch.owner) != NoOwner ==> chord == old(chord)
      ensures old(latch.owner) == NoOwner ==> chord == old(chord) + 1
      ensures o == if empty && latch.owner == Suppressed then NoOwner else latch.owner
      ensures latch.owner == Usb || latch.owner == Ble ==> latch.epoch == Current(latch.owner) != 0
    {
      hide ChordsAreWhole, NoneAfter, ChordGoesTo, Weight, Spelled, Swaps, Held.Valid, Outlet.Valid, Usages, Wire;
      if latch.owner == NoOwner {
        NewChord(log, chord, if usb != 0 then Endpoint(Usb, usb) else Endpoint(Ble, ble));
        EmptyIsSpelled(sources);
        chord := chord + 1;
      }
      o := latch.SelectForSnapshot(empty, usb != 0, usb, ble != 0, ble);
    }

    lemma Apart()
      requires Shape()
      ensures usbOut != bleOut && usbOut.queue != bleOut.queue && usbOut.queue.reports != bleOut.queue.reports
    {
    }

    /** Offer one report to one transport's queue. */
    method Push(o: Owner, p: Payload, ms: nat) returns (ok: bool)
      requires Shape() && (o == Usb || o == Ble) && Acceptable(p) && (p.cls.IsKeyboard() ==> p.data != Out(o).last)
      modifies Out(o)`kept, Out(o)`last, Out(o)`size, Out(o)`apps, Out(o).queue, Out(o).queue.reports
      ensures Shape()
      ensures ok <==> p.cls.AllReleased? || old(Out(o).size) < Limit(p.cls)
      ensures Out(o).kept == if ok then old(Out(o).kept) + [p] else old(Out(o).kept)
      ensures Out(o).size == if ok then old(Out(o).size) + 1 else old(Out(o).size)
      ensures Out(o).apps == if ok then AppsAfter(old(Out(o).apps), p.cls) else old(Out(o).apps)
      ensures Out(o).last == if p.cls.IsKeyboard() && ok then p.data else old(Out(o).last)
    {
      hide Held.Valid, Outlet.Valid, Acceptable, Fill;
      ok := Out(o).Offer(p, ms);
    }

    /** Offer one snapshot to one transport's queue, and note whether that was tidy. */
    method Send(o: Owner, s: Snapshot, cls: ReportClass, ms: nat) returns (ok: bool)
      requires Inv() && latch.owner == o && (o == Usb || o == Ble) && s == delivery.desired != delivery.accepted
      requires cls == Classified(delivery.accepted, s)
      modifies this`tidy, this`swapped, this`refused
      modifies Out(o)`kept, Out(o)`last, Out(o)`size, Out(o)`apps, Out(o).queue, Out(o).queue.reports
      ensures Shape() && Out(o).apps == old(Out(o).apps)
      ensures ok <==> cls.AllReleased? || old(Out(o).size) < Limit(cls)
      ensures Out(o).size == if ok then old(Out(o).size) + 1 else old(Out(o).size)
      ensures Out(o).last == if ok then Wire(s) else old(Out(o).last)
      ensures Out(o).kept == if ok then old(Out(o).kept) + [Addressed(Endpoint(o, latch.epoch), s, cls)] else old(Out(o).kept)
      ensures refused <==> old(refused) || (!ok && cls.Release?)
      ensures tidy <==> old(tidy) && Spelled(sources, s) && (ok ==> Out(o).apps + Weight(sources, s) <= HidReportQueue.SOURCES)
      ensures swapped <==> old(swapped) || Swaps(delivery.accepted, s)
      ensures tidy && !swapped ==> !refused && (ok ==> Out(o).size + Out(o).apps + Weight(sources, s) <= CAPACITY)
    {
      hide ChordsAreWhole, NoneAfter, ChordGoesTo, Weight, Spelled, Swaps, Held.Valid, Outlet.Valid, Usages, Wire, RemovesUsage, Chords, Classified, Acceptable, Fill;
      IsOffered(Endpoint(o, latch.epoch), delivery.accepted, s);
      ghost var size, apps := Out(o).size, Out(o).apps;
      ok := Push(o, Addressed(Endpoint(o, latch.epoch), s, cls), ms);
      Note(s, cls, size, apps, ok);
    }

    /** Whether this attempt was tidy. */
    ghost method Note(s: Snapshot, cls: ReportClass, size: nat, apps: nat, ok: bool)
      requires s != delivery.accepted && cls == Classified(delivery.accepted, s) && (ok <==> cls.AllReleased? || size < Limit(cls))
      requires tidy && !swapped ==>
        !refused && size + apps + Weight(sources, delivery.accepted) <= CAPACITY && Spelled(sources, delivery.accepted)
      modifies this`tidy, this`swapped, this`refused
      ensures refused <==> old(refused) || (!ok && cls.Release?)
      ensures tidy <==> old(tidy) && Spelled(sources, s) && (ok ==> apps + Weight(sources, s) <= HidReportQueue.SOURCES)
      ensures swapped <==> old(swapped) || Swaps(delivery.accepted, s)
      ensures tidy && !swapped ==> !refused && (ok ==> size + 1 + apps + Weight(sources, s) <= CAPACITY)
    {
      hide Weight, Spelled, Swaps, Classified, Usages;
      if tidy && !swapped && Spelled(sources, s) && !Swaps(delivery.accepted, s) {
        ReleasesHaveRoom(sources, size, apps, delivery.accepted, s);
      }
      tidy := tidy && Spelled(sources, s) && (ok ==> apps + Weight(sources, s) <= HidReportQueue.SOURCES);
      swapped := swapped || Swaps(delivery.accepted, s);
      refused := refused || (!ok && cls.Release?);
    }

    /** Offer the pending snapshot to the endpoint of its chord. Only that endpoint's queue can refuse, and never that all is released. */
    method Offer(ms: nat) returns (ok: bool)
      requires Inv() && delivery.pending != 0
      modifies this`log, this`chord, this`tidy, this`swapped, this`refused, delivery, latch
      modifies usbOut, usbOut.queue, usbOut.queue.reports, bleOut, bleOut.queue, bleOut.queue.reports
      ensures Inv() && Admits(old(log), log) && delivery.desired == old(delivery.desired)
      ensures ok <==> delivery.pending == 0
      ensures var o, cls := old(Destination()), Classified(old(delivery.accepted), delivery.desired);
        && (ok <==> (o != Usb && o != Ble) || cls.AllReleased? || old(Out(o).size) < Limit(cls))
        && (refused <==> old(refused) || (!ok && cls.Release?))
        && (swapped <==> old(swapped) || ((o == Usb || o == Ble) && Swaps(old(delivery.accepted), delivery.desired)))
        && (tidy <==> old(tidy) && (o == Usb || o == Ble ==>
                        Spelled(sources, delivery.desired) && (ok ==> Out(o).apps + Weight(sources, delivery.desired) <= HidReportQueue.SOURCES)))
      ensures !ok ==> log == old(log) && latch.owner == old(Destination()) && delivery.accepted == old(delivery.accepted)
      ensures !ok ==> Out(latch.owner).size == old(Out(Destination()).size)
      ensures latch.owner == NoOwner <==> ok && held.current == EMPTY
      ensures chord == if old(latch.owner) == NoOwner then old(chord) + 1 else old(chord)
      ensures ok ==> latch.owner == if held.current == EMPTY then NoOwner else old(Destination())
      ensures bleOut.apps == old(bleOut.apps) && usbOut.apps == old(usbOut.apps) && bleOut.taken == old(bleOut.taken)
      ensures usbOut.size == old(usbOut.size) + (if ok && old(Destination()) == Usb then 1 else 0)
      ensures bleOut.size == old(bleOut.size) + (if ok && old(Destination()) == Ble then 1 else 0)
      ensures ok ==> delivery.accepted == delivery.desired
    {
      hide ChordsAreWhole, NoneAfter, ChordGoesTo, Weight, Spelled, Swaps, Held.Valid, Admits, Outlet.Valid, Usages, Wire, Classified, Limit, Fill;
      var p := delivery.PendingSnapshot();
      BlankIsEmpty(delivery.desired);
      var o := Bind(Blank(p.snapshot));
      NoAdmission();
      if o == Usb || o == Ble {
        ok := Deliver(o, p, ms);
      } else {
        ok := delivery.MarkAccepted(p.generation);
        latch.CommitSnapshot(Blank(p.snapshot));
      }
    }

    method Deliver(o: Owner, p: Pending, ms: nat) returns (ok: bool)
      requires Inv() && delivery.pending != 0 && p == delivery.PendingSnapshot() && (o == Usb || o == Ble)
      requires latch.owner == o && latch.epoch == Current(o) != 0
      modifies this`log, this`tidy, this`swapped, this`refused, delivery, latch
      modifies Out(o)`kept, Out(o)`last, Out(o)`size, Out(o)`apps, Out(o).queue, Out(o).queue.reports
      ensures Inv() && Admits(old(log), log) && delivery.desired == old(delivery.desired)
      ensures ok <==> delivery.pending == 0
      ensures var cls := p.cls;
        && (ok <==> cls.AllReleased? || old(Out(o).size) < Limit(cls))
        && (refused <==> old(refused) || (!ok && cls.Release?))
        && (swapped <==> old(swapped) || Swaps(old(delivery.accepted), delivery.desired))
        && (tidy <==> old(tidy) && Spelled(sources, delivery.desired)
                        && (ok ==> Out(o).apps + Weight(sources, delivery.desired) <= HidReportQueue.SOURCES))
      ensures !ok ==> log == old(log) && latch.owner == o && delivery.accepted == old(delivery.accepted) && Out(o).size == old(Out(o).size)
      ensures latch.owner == if ok && held.current == EMPTY then NoOwner else o
      ensures Out(o).apps == old(Out(o).apps) && Out(o).size == old(Out(o).size) + (if ok then 1 else 0)
    {
      hide ChordsAreWhole, NoneAfter, ChordGoesTo, Weight, Spelled, Swaps, Held.Valid, Admits, Outlet.Valid, Usages, Wire, RemovesUsage, Fill, Chords, Addressed, Limit;
      BlankIsEmpty(p.snapshot);
      NoAdmission();
      ok := Send(o, p.snapshot, p.cls, ms);
      if !ok { return; }
      Admit(Admission(Endpoint(o, latch.epoch), p.snapshot, chord));
      Conclude(o, p);
    }

    method Conclude(o: Owner, p: Pending)
      requires Shape() && latch.Live(usb, ble) && Chords() && (o == Usb || o == Ble) && latch.owner == o
      requires delivery.pending != 0 && p == delivery.PendingSnapshot()
      requires var other := Out(if o == Usb then Ble else Usb);
        && (Current(if o == Usb then Ble else Usb) != 0 ==> other.last == Wire(EMPTY)) && Out(o).last == Wire(p.snapshot)
        && (tidy && !swapped ==> !refused && other.size + other.apps <= CAPACITY && Spelled(sources, p.snapshot)
                                 && Out(o).size + Out(o).apps + Weight(sources, p.snapshot) <= CAPACITY)
      modifies delivery, latch
      ensures Inv() && delivery.desired == old(delivery.desired) && delivery.pending == 0
      ensures latch.owner == if held.current == EMPTY then NoOwner else o
    {
      hide ChordsAreWhole, NoneAfter, ChordGoesTo, Weight, Spelled, Swaps, Held.Valid, Outlet.Valid, Usages, Wire, RemovesUsage, Fill;
      BlankIsEmpty(p.snapshot);
      var _ := delivery.MarkAccepted(p.generation);
      latch.CommitSnapshot(Blank(p.snapshot));
    }

    ghost method Admit(a: Admission)
      requires Chords() && a.snapshot == delivery.desired && a.chord == chord && latch.owner == a.to.owner && latch.epoch == a.to.epoch
      requires (a.to.owner == Usb || a.to.owner == Ble) && a.to.epoch == Current(a.to.owner) != 0
      modifies this`log
      ensures Chords() && Admits(old(log), log)
    {
      ChordsExtend(log, a);
      log := log + [a];
    }

    /** Sample the links, then offer the pending snapshot, if any, to the endpoint of its chord. */
    method Flush(usb': nat, ble': nat, ms: nat) returns (ok: bool)
      requires Inv()
      modifies this, delivery, latch, usbOut, usbOut.queue, usbOut.queue.reports, bleOut, bleOut.queue, bleOut.queue.reports
      ensures Inv() && usb == usb' && ble == ble' && Admits(old(log), log)
      ensures ok <==> delivery.pending == 0
      // Only a full queue keeps a snapshot back, and none keeps back that everything is released.
      ensures !ok ==> log == old(log) && held.current != EMPTY && (latch.owner == Usb || latch.owner == Ble)
      ensures !ok ==> Out(latch.owner).size >= Limit(Classified(delivery.accepted, delivery.desired))
      ensures usb' == old(usb) && ble' == old(ble) ==>
        (ok <==> old(delivery.pending == 0 || (Destination() != Usb && Destination() != Ble) || held.current == EMPTY
                     || Out(Destination()).size < Limit(Classified(delivery.accepted, delivery.desired))))
      ensures usb' == old(usb) && ble' == old(ble) ==>
        && delivery.accepted == (if ok then delivery.desired else old(delivery.accepted))
        && (ok && held.current != EMPTY ==> latch.owner == old(if delivery.pending == 0 then latch.owner else Destination()))
        && (!ok ==> latch.owner == old(Destination()))
        && bleOut.apps == old(bleOut.apps)
        && (swapped <==> old(swapped || (Sends() && Swaps(delivery.accepted, delivery.desired))))
        && (tidy <==> old(tidy && (Sends() ==> Spelled(sources, delivery.desired)))
                      && (ok && old(Sends()) ==> old(Out(Destination()).apps) + Weight(sources, delivery.desired) <= HidReportQueue.SOURCES))
        && usbOut.size == old(usbOut.size) + (if ok && old(delivery.pending != 0 && Destination() == Usb) then 1 else 0)
        && bleOut.size == old(bleOut.size) + (if ok && old(delivery.pending != 0 && Destination() == Ble) then 1 else 0)
      ensures usbOut.apps <= old(usbOut.apps) && bleOut.apps <= old(bleOut.apps) && TakenIs(old(ble), old(bleOut.taken))
      ensures old(tidy) && Spelled(sources, held.current) && Lightly(held.current) ==> tidy
      ensures !refused || old(refused) || (!ok && Classified(delivery.accepted, delivery.desired).Release?)
      ensures !ok && Classified(delivery.accepted, delivery.desired).Release? ==> refused
      // A chord ends only when every key is physically up.
      ensures old(latch.owner) != NoOwner && latch.owner == NoOwner ==> held.current == EMPTY
      ensures ok && held.current == EMPTY ==> latch.owner == NoOwner
      ensures chord == old(chord) || (chord == old(chord) + 1 && (old(latch.owner) == NoOwner || held.current == EMPTY))
    {
      hide ChordsAreWhole, NoneAfter, ChordGoesTo, Weight, Spelled, Swaps, Held.Valid, Admits, Outlet.Valid, Usages, Wire, RemovesUsage, Fill, Chords, Limit, Roomy, Told;
      Reconcile(usb', ble');
      BlankIsEmpty(delivery.desired);
      if delivery.PendingSnapshot().NothingPending? {
        NoAdmission();
        if Blank(delivery.desired) { EndChord(); }
        return true;
      }
      ok := Offer(ms);
    }

    /** A down edge that never entered a queue has met its up edge: the chord may end. */
    method EndChord()
      requires Inv() && delivery.pending == 0 && held.current == EMPTY
      modifies latch
      ensures Inv() && latch.owner == NoOwner
    {
      hide ChordsAreWhole, NoneAfter, ChordGoesTo, Weight, Spelled, Swaps, Held.Valid, Outlet.Valid, Usages, Wire, Fill;
      EmptyIsSpelled(sources);
      latch.CommitSnapshot(true);
    }

    /** One physical edge: recompute the union, and offer it if the wire report changed. */
    method Dispatch(down: bool, source: nat, report: KeyReport, usb': nat, ble': nat, ms: nat) returns (ok: bool)
      requires Inv()
      modifies this, held, delivery, latch, usbOut, usbOut.queue, usbOut.queue.reports, bleOut, bleOut.queue, bleOut.queue.reports
      ensures Inv() && Admits(old(log), log) && ((usb == usb' && ble == ble') || (usb == old(usb) && ble == old(ble)))
      ensures if old(held.Applies(down, source, report))
        then held.reports == old(held.reports)[source := if down then report else HeldKeyboard.NO_REPORT] && held.active == old(held.active)[source := down]
        else held.reports == old(held.reports) && held.active == old(held.active)
      ensures usbOut.apps <= old(usbOut.apps) && bleOut.apps <= old(bleOut.apps) && TakenIs(old(ble), old(bleOut.taken))
      ensures old(tidy) && Spelled(sources, held.current) && Lightly(held.current) ==> tidy
      // With the links as they were, the new state is taken exactly if the queue of its chord has room for its class.
      ensures held.current != old(held.current) && usb' == old(usb) && ble' == old(ble) ==>
        var accepted, o := old(delivery.accepted), old(Destination());
        && (ok <==> held.current == accepted || (o != Usb && o != Ble) || held.current == EMPTY
                    || old(Out(o).size) < Limit(Classified(accepted, held.current)))
        && delivery.accepted == (if ok then held.current else accepted)
        && (!ok || held.current != EMPTY ==> latch.owner == if held.current == accepted then old(latch.owner) else o)
        && bleOut.apps == old(bleOut.apps)
        && usbOut.size == old(usbOut.size) + (if ok && held.current != accepted && o == Usb then 1 else 0)
        && bleOut.size == old(bleOut.size) + (if ok && held.current != accepted && o == Ble then 1 else 0)
      // Letting go of everything always reaches the queue of the chord, unless the chord's endpoint is gone.
      ensures held.current == EMPTY && held.current != old(held.current) ==> ok && delivery.pending == 0 && latch.owner == NoOwner
    {
      hide ChordsAreWhole, NoneAfter, ChordGoesTo, Weight, Spelled, Swaps, Held.Valid, Admits, Outlet.Valid, Usages, Wire, RemovesUsage, Fill, Chords, Limit;
      NoAdmission();
      var u := Turn(down, source, report);
      if !u.Accepted() { return false; }
      if !u.stateChanged || !u.reportChanged { return true; }
      ok := Flush(usb', ble', ms);
    }

    /** Recompute the union, and make it the state to be delivered. */
    method Turn(down: bool, source: nat, report: KeyReport) returns (u: Update)
      requires Inv()
      modifies held, delivery
      ensures Inv() && delivery.accepted == old(delivery.accepted)
      ensures if old(held.Applies(down, source, report))
        then held.reports == old(held.reports)[source := if down then report else HeldKeyboard.NO_REPORT] && held.active == old(held.active)[source := down]
        else held.reports == old(held.reports) && held.active == old(held.active)
      ensures u.reportChanged <==> held.current != old(held.current)
      ensures u.reportChanged ==> u.Accepted() && u.stateChanged
      ensures !u.reportChanged ==> delivery.pending == old(delivery.pending)
    {
      hide ChordsAreWhole, NoneAfter, ChordGoesTo, Weight, Spelled, Swaps, Held.Valid, Outlet.Valid, Usages, Wire, RemovesUsage, Chords;
      if down { u := held.Press(source, report); } else { u := held.Release(source); }
      if u.reportChanged { delivery.SetDesired(u.snapshot); }
    }

    /** Platform or configuration switch: nothing is held any more, and the zero snapshot goes out at once. */
    method ReleaseAll(usb': nat, ble': nat, ms: nat)
      requires Inv()
      modifies this, held, delivery, latch, usbOut, usbOut.queue, usbOut.queue.reports, bleOut, bleOut.queue, bleOut.queue.reports
      ensures Inv() && Admits(old(log), log) && usb == usb' && ble == ble' && held.current == EMPTY
      ensures delivery.pending == 0 && latch.owner == NoOwner && |held.reports| == |held.active| && (forall i :: 0 <= i < |held.active| ==> !held.active[i])
      ensures usbOut.apps <= old(usbOut.apps) && bleOut.apps <= old(bleOut.apps) && TakenIs(old(ble), old(bleOut.taken))
      ensures old(tidy) && Spelled(sources, EMPTY) && Lightly(EMPTY) ==> tidy
    {
      hide ChordsAreWhole, NoneAfter, ChordGoesTo, Weight, Spelled, Swaps, Held.Valid, Admits, Outlet.Valid, Usages, Wire, RemovesUsage, Fill, Chords, Limit;
      var _ := held.Clear();
      delivery.SetDesired(EMPTY);
      var _ := Flush(usb', ble', ms);
    }

    /** App traffic, which shares the Bluetooth queue with the keys: refused for want of room, and never mistaken for a key. */
    method Command(p: Payload, ms: nat) returns (ok: bool)
      requires Inv() && Acceptable(p) && !p.cls.IsKeyboard()
      modifies this`tidy, bleOut`kept, bleOut`last, bleOut`size, bleOut`apps, bleOut.queue, bleOut.queue.reports
      ensures Inv()
      ensures ok <==> old(bleOut.size) < Limit(p.cls)
      ensures bleOut.kept == if ok then old(bleOut.kept) + [p] else old(bleOut.kept)
      ensures bleOut.size == (if ok then old(bleOut.size) + 1 else old(bleOut.size))
      ensures bleOut.apps == if ok then AppsAfter(old(bleOut.apps), p.cls) else old(bleOut.apps)
      ensures tidy <==> old(tidy) && (ok ==> Down(Ble) <= HidReportQueue.SOURCES) && (p.cls.StatefulRelease? ==> old(bleOut.apps) > 0)
    {
      hide ChordsAreWhole, NoneAfter, ChordGoesTo, Weight, Spelled, Swaps, Held.Valid, Outlet.Valid, Usages, Wire, Chords, Acceptable, Limit, AppsAfter, Shape, Told;
      Apart();
      ghost var before, size, apps, keys := tidy, bleOut.size, bleOut.apps, Down(Ble) - bleOut.apps;
      if before && !swapped && (p.cls.StatefulRelease? ==> apps > 0) { CommandsLeaveRoom(size, apps, keys, p.cls); }
      ok := PushCommand(p, ms);
      tidy := before && (p.cls.StatefulRelease? ==> apps > 0) && (ok ==> Down(Ble) <= HidReportQueue.SOURCES);
    }

    method PushCommand(p: Payload, ms: nat) returns (ok: bool)
      requires Shape() && Acceptable(p) && !p.cls.IsKeyboard() && Told(Usb) && Told(Ble) && Chords()
      modifies bleOut`kept, bleOut`last, bleOut`size, bleOut`apps, bleOut.queue, bleOut.queue.reports
      ensures Shape() && Told(Usb) && Told(Ble) && Chords()
      ensures ok <==> old(bleOut.size) < Limit(p.cls)
      ensures bleOut.kept == if ok then old(bleOut.kept) + [p] else old(bleOut.kept)
      ensures bleOut.size == if ok then old(bleOut.size) + 1 else old(bleOut.size)
      ensures bleOut.apps == if ok then AppsAfter(old(bleOut.apps), p.cls) else old(bleOut.apps)
    {
      hide ChordsAreWhole, NoneAfter, ChordGoesTo, Weight, Spelled, Swaps, Held.Valid, Outlet.Valid, Wire, Chords, Acceptable, Limit, AppsAfter, Shape;
      Apart();
      ok := Push(Ble, p, ms);
    }

    /** The transport takes the next report. */
    method TakenFrom(o: Owner) returns (found: bool, p: Payload)
      requires Inv() && (o == Usb || o == Ble)
      modifies Out(o)`taken, Out(o)`size, Out(o).queue, Out(o).queue.reports
      ensures Inv()
      ensures found <==> old(Out(o).size) > 0
      ensures Out(o).taken == if found then old(Out(o).taken) + [p] else old(Out(o).taken)
    {
      hide ChordsAreWhole, NoneAfter, ChordGoesTo, Weight, Spelled, Swaps, Held.Valid, Outlet.Valid, Usages, Wire, Fill, Chords;
      found, p := Out(o).Take();
    }

    /** A transport without a host clears its queue. */
    method Abandon()
      requires Inv() && ble == 0
      modifies bleOut, bleOut.queue, bleOut.queue.reports
      ensures Inv() && bleOut.taken == [] && bleOut.apps == 0
    {
      hide ChordsAreWhole, NoneAfter, ChordGoesTo, Weight, Spelled, Swaps, Held.Valid, Outlet.Valid, Usages, Wire, Fill, Chords;
      bleOut.Renew();
    }

    lemma WholeChords()
      requires Inv()
      ensures ChordsAreWhole(log)
    {
    }

    lemma TidyMeansTaken()
      requires Inv()
      ensures tidy && !swapped ==> !refused
    {
    }

    /** Once nothing is held and nothing is pending, the last snapshot kept for every connected host says so, and so does the last one it got once its queue is empty. */
    lemma NoStuckKey()
      requires Inv() && held.current == EMPTY && delivery.pending == 0
      ensures usb != 0 ==> All(LastKeyboard(usbOut.kept), 0) && (usbOut.size == 0 ==> All(LastKeyboard(usbOut.taken), 0))
      ensures ble != 0 ==> All(LastKeyboard(bleOut.kept), 0) && (bleOut.size == 0 ==> All(LastKeyboard(bleOut.taken), 0))
    {
      assert Told(Usb) && Told(Ble);
      WireIsExact(EMPTY, EMPTY);
      if usbOut.size == 0 { usbOut.DrainedIsTaken(); }
      if bleOut.size == 0 { bleOut.DrainedIsTaken(); }
    }

    /** A state composed of known contributions weighs no more than there are of them. */
    lemma Known()
      requires Inv()
      ensures Drawn(sources, held.reports, held.active) ==> Spelled(sources, held.current) && Weight(sources, held.current) <= |sources|
      ensures Down(Ble) <= bleOut.apps + |sources| && |held.reports| == |held.active| == HeldKeyboard.SOURCES
      ensures usbOut != bleOut
    {
      hide Drawn, Spelled, Weight, Composed;
      if Drawn(sources, held.reports, held.active) { DrawnIsSpelled(sources, held.reports, held.active); }
      WeightIsBounded(sources, held.current);
      WeightIsBounded(sources, delivery.accepted);
    }

    lemma NoAdmission()
      ensures Admits(log, log)
    {
    }
  }

  lemma CommandsLeaveRoom(size: nat, apps: nat, keys: nat, cls: ReportClass)
    requires size + apps + keys <= CAPACITY && !cls.IsKeyboard() && (cls.StatefulRelease? ==> apps > 0)
    ensures size < Limit(cls) && AppsAfter(apps, cls) + keys <= HidReportQueue.SOURCES ==> size + 1 + AppsAfter(apps, cls) + keys <= CAPACITY
  {
  }

  lemma IsOffered(e: Endpoint, accepted: Snapshot, desired: Snapshot)
    requires accepted != desired
    ensures Acceptable(Addressed(e, desired, Classified(accepted, desired))) && Wire(desired) != Wire(accepted)
    ensures Classified(accepted, desired).IsKeyboard()
  {
    WireIsExact(desired, accepted);
    BlankIsEmpty(desired);
  }

  /** A release that also presses something. */
  ghost predicate Swaps(accepted: Snapshot, desired: Snapshot) {
    Classified(accepted, desired) == Release && !(Usages(desired) <= Usages(accepted))
  }

  /** Room enough for what is down is room enough to let go of it. */
  lemma ReleasesHaveRoom(sources: set<set<Usage>>, size: nat, apps: nat, accepted: Snapshot, desired: Snapshot)
    requires size + apps + Weight(sources, accepted) <= CAPACITY && accepted != desired && !Swaps(accepted, desired)
    requires Spelled(sources, accepted) && Spelled(sources, desired)
    ensures Classified(accepted, desired) == Release ==> size < Limit(Release)
    ensures Classified(accepted, desired) != Press ==> size + 1 + apps + Weight(sources, desired) <= CAPACITY
  {
    hide Usages, RemovesUsage, Weight, Spelled;
    BlankIsEmpty(desired);
    EmptyIsSpelled(sources);
    if accepted != EMPTY { SpelledWeighs(sources, accepted); }
    if desired != EMPTY { SpelledWeighs(sources, desired); }
    if Classified(accepted, desired) == Release { ReleasesShrink(sources, accepted, desired); }
  }

  lemma ChordsExtend(log: seq<Admission>, a: Admission)
    requires ChordsAreWhole(log) && NoneAfter(log, a.chord) && ChordGoesTo(log, a.chord, a.to)
    ensures ChordsAreWhole(log + [a]) && NoneAfter(log + [a], a.chord) && ChordGoesTo(log + [a], a.chord, a.to)
  {
  }

  lemma NewChord(log: seq<Admission>, chord: nat, e: Endpoint)
    requires NoneAfter(log, chord)
    ensures NoneAfter(log, chord + 1) && ChordGoesTo(log, chord + 1, e)
  {
  }

  // ---- whole histories ----

  datatype Event =
    | Down(source: nat, report: KeyReport) | Up(source: nat) | Tick | Clear
    | App(payload: Payload) | Taken(from: Owner)

  /** What happens, and the endpoint lifetimes as sampled then; zero is no endpoint. */
  datatype Moment = Moment(event: Event, usb: nat, ble: nat, ms: nat)

  /** Every press brings one of the given contributions, and no app traffic is stateful. */
  ghost predicate Within(sources: set<set<Usage>>, m: Moment) {
    && (m.event.Down? ==> Contribution(m.event.report) in sources)
    && (m.event.App? ==> !m.event.payload.cls.StatefulPress? && !m.event.payload.cls.StatefulRelease?)
  }

  /**
   * Any presses, releases, disconnects, reconnects, other traffic and draining, in any order, with the queues refusing what they have
   * no room for: every chord stays whole; whenever nothing is held and nothing is pending, the last snapshot kept for every connected
   * host is all-zero; and no key-up is ever refused while no release presses anything and no more than eleven sources and app presses
   * are down. With at most eleven fixed contributions and no app presses, more than eleven are never down.
   */
  method Run(moments: seq<Moment>, ghost sources: set<set<Usage>>) returns (p: Pipeline)
    ensures fresh(p) && p.Inv() && p.sources == sources && ChordsAreWhole(p.log)
    ensures p.held.current == EMPTY && p.delivery.pending == 0 ==>
      && (p.usb != 0 ==> All(LastKeyboard(p.usbOut.kept), 0) && (p.usbOut.size == 0 ==> All(LastKeyboard(p.usbOut.taken), 0)))
      && (p.ble != 0 ==> All(LastKeyboard(p.bleOut.kept), 0) && (p.bleOut.size == 0 ==> All(LastKeyboard(p.bleOut.taken), 0)))
    ensures p.tidy && !p.swapped ==> !p.refused
    ensures |sources| <= HidReportQueue.SOURCES && (forall m | m in moments :: Within(sources, m)) ==> p.tidy
  {
    hide ChordsAreWhole, Pipeline.Inv, LastKeyboard, Within, Steady;
    p := new Pipeline(sources);
    StartsSteady(p);
    for k := 0 to |moments|
      invariant fresh(p) && fresh(p.held) && fresh(p.delivery) && fresh(p.latch) && fresh(p.usbOut) && fresh(p.bleOut)
      invariant fresh(p.usbOut.queue) && fresh(p.usbOut.queue.reports) && fresh(p.bleOut.queue) && fresh(p.bleOut.queue.reports)
      invariant p.Inv() && p.sources == sources
      invariant |sources| <= HidReportQueue.SOURCES && (forall i :: 0 <= i < k ==> Within(sources, moments[i])) ==> Steady(p)
    {
      Happen(p, moments[k]);
    }
    if p.held.current == EMPTY && p.delivery.pending == 0 { p.NoStuckKey(); }
    p.WholeChords();
    p.TidyMeansTaken();
    SteadyIsTidy(p);
  }

  /** What is held comes from the known sources, and no app press is out. */
  ghost predicate Steady(p: Pipeline)
    reads p, p.held, p.usbOut`apps, p.bleOut`apps
  {
    p.tidy && Drawn(p.sources, p.held.reports, p.held.active) && p.usbOut.apps == p.bleOut.apps == 0
  }

  lemma NothingIsDrawn(sources: set<set<Usage>>, reports: seq<KeyReport>, active: seq<bool>)
    requires |reports| == |active| && (forall i :: 0 <= i < |active| ==> !active[i])
    ensures Drawn(sources, reports, active)
  {
  }

  lemma StartsSteady(p: Pipeline)
    requires |p.held.reports| == |p.held.active| && (forall i :: 0 <= i < |p.held.active| ==> !p.held.active[i])
    requires p.tidy && p.usbOut.apps == p.bleOut.apps == 0
    ensures Steady(p)
  {
  }

  lemma SteadyIsTidy(p: Pipeline)
    ensures Steady(p) ==> p.tidy
  {
  }

  method Happen(p: Pipeline, m: Moment)
    requires p.Inv()
    modifies p, p.held, p.delivery, p.latch
    modifies p.usbOut, p.usbOut.queue, p.usbOut.queue.reports, p.bleOut, p.bleOut.queue, p.bleOut.queue.reports
    ensures p.Inv()
    ensures old(Steady(p)) && |p.sources| <= HidReportQueue.SOURCES && Within(p.sources, m) ==> Steady(p)
    ensures !(m.event.Taken? && m.event.from == Ble) ==> p.TakenIs(old(p.ble), old(p.bleOut.taken))
  {
    hide Pipeline.Inv, Acceptable, Drawn, Contribution, Spelled, Weight, Usages, Held.Valid, Held.Applies;
    match m.event {
      case Down(source, report) => Edge(p, true, source, report, m);
      case Up(source) => Edge(p, false, source, HeldKeyboard.NO_REPORT, m);
      case Tick =>
        var _ := p.Flush(m.usb, m.ble, m.ms);
      case Clear =>
        p.ReleaseAll(m.usb, m.ble, m.ms);
        NothingIsDrawn(p.sources, p.held.reports, p.held.active);
      case App(payload) =>
        if Acceptable(payload) && !payload.cls.IsKeyboard() { var _ := p.Command(payload, m.ms); }
      case Taken(from) =>
        if from == Usb || from == Ble { var _, _ := p.TakenFrom(from); }
    }
    p.Known();
  }

  method Edge(p: Pipeline, down: bool, source: nat, report: KeyReport, m: Moment)
    requires p.Inv()
    modifies p, p.held, p.delivery, p.latch
    modifies p.usbOut, p.usbOut.queue, p.usbOut.queue.reports, p.bleOut, p.bleOut.queue, p.bleOut.queue.reports
    ensures p.Inv()
    ensures old(Steady(p)) && |p.sources| <= HidReportQueue.SOURCES && (down ==> Contribution(report) in p.sources) ==> Steady(p)
    ensures p.TakenIs(old(p.ble), old(p.bleOut.taken))
  {
    hide Pipeline.Inv, Contribution, Spelled, Weight, Usages;
    p.Known();
    var _ := p.Dispatch(down, source, report, m.usb, m.ble, m.ms);
    p.Known();
  }

  lemma BlankOnTheWire()
    ensures forall data :: |data| == SNAPSHOT_BYTES && All(data, 0) ==> data == Wire(EMPTY)
  {
    WireIsExact(EMPTY, EMPTY);
  }
}
