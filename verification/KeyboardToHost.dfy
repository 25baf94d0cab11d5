/** From physical keys to the Bluetooth host: the pipeline's queue drained by the scheduler through the radio. */
module KeyboardToHost {
  import opened Bytes
  import opened HidReportQueue
  import opened MouseWheelQueue
  import opened ReportOutlet
  import opened HeldKeyboard
  import opened SnapshotDelivery
  import opened TransportLatch
  import K = KeyboardPipeline
  import S = BleInputScheduler

  /** What the Bluetooth stack says to one report. */
  datatype StackError = Sent | NoMemory | NotFinished | InvalidState | NotSupported | NotFound | OtherError

  /** The radio while one report is handed over: whether the host is there before and after, and what the stack says. */
  datatype Radio = Radio(up: bool, error: StackError, stillUp: bool)

  function OwnerOf(r: S.Scheduled): BleOwner {
    match r
    case Hid(report) => report.payload.owner
    case Movement(_, _, _, owner) => owner
  }

  /** Reports that a host may do without. */
  predicate Optional(r: S.Scheduled) {
    r.Movement? || r.report.payload.cls.AppCommand?
  }

  function Transmit(radio: Radio, r: S.Scheduled): S.TxResult {
    if !radio.up then S.TxDisconnected
    else if OwnerOf(r).handle == NO_OWNER.handle || OwnerOf(r).generation == 0 then S.TxFatal
    else
      match radio.error
      case Sent => S.TxAccepted
      case NoMemory => S.TxNoBuffer
      case NotFinished => S.TxBusy
      case _ =>
        if !radio.stillUp || radio.error.InvalidState? then S.TxDisconnected
        else if Optional(r) && (radio.error.NotSupported? || radio.error.NotFound?) then S.TxDroppedUnsupported
        else S.TxFatal
  }

  /** What left the queue, and what of it the host accepted. */
  function Gone(finished: seq<(Report, bool)>): seq<Payload> {
    Payloads(S.Reports(finished))
  }

  function Accepted(finished: seq<(Report, bool)>): seq<Payload> {
    if finished == [] then []
    else
      var n := |finished| - 1;
      Accepted(finished[..n]) + if finished[n].1 then [finished[n].0.payload] else []
  }

  function Keyboards(reports: seq<Payload>): seq<Payload> {
    if reports == [] then []
    else
      var n := |reports| - 1;
      Keyboards(reports[..n]) + if reports[n].cls.IsKeyboard() then [reports[n]] else []
  }

  /** Whatever the host did not accept is no keyboard snapshot. */
  predicate NoKeyDropped(finished: seq<(Report, bool)>) {
    forall i :: 0 <= i < |finished| && !finished[i].1 ==> !finished[i].0.payload.cls.IsKeyboard()
  }

  lemma {:induction false} AllKeysAccepted(finished: seq<(Report, bool)>)
    requires NoKeyDropped(finished)
    ensures Keyboards(Accepted(finished)) == Keyboards(Gone(finished))
    ensures LastKeyboard(Accepted(finished)) == LastKeyboard(Gone(finished))
  {
    if finished != [] {
      var n := |finished| - 1;
      AllKeysAccepted(finished[..n]);
      var x := finished[n].0.payload;
      assert Gone(finished) == Gone(finished[..n]) + [x];
      KeyboardsGrow(Gone(finished[..n]), x);
      if finished[n].1 {
        KeyboardsGrow(Accepted(finished[..n]), x);
      } else {
        assert Accepted(finished) == Accepted(finished[..n]);
      }
    }
  }

  lemma KeyboardsGrow(reports: seq<Payload>, x: Payload)
    ensures Keyboards(reports + [x]) == Keyboards(reports) + if x.cls.IsKeyboard() then [x] else []
    ensures LastKeyboard(reports + [x]) == if x.cls.IsKeyboard() then x.data else LastKeyboard(reports)
  {
    assert (reports + [x])[..|reports|] == reports;
  }

  lemma {:induction false} KeyboardsConcat(a: seq<Payload>, b: seq<Payload>)
    ensures Keyboards(a + b) == Keyboards(a) + Keyboards(b)
  {
    if b == [] {
      assert a + b == a;
    } else {
      KeyboardsConcat(a, b[..|b| - 1]);
      assert (a + b)[..|a + b| - 1] == a + b[..|b| - 1];
    }
  }

  /** The scheduler drains the pipeline's Bluetooth queue, and nothing else does. */
  ghost predicate Joined(p: K.Pipeline, s: S.Scheduler, wheel: WheelQueue)
    reads p, p.held, p.delivery, p.latch, p.usbOut, p.usbOut.queue, p.usbOut.queue.reports, p.bleOut, p.bleOut.queue, p.bleOut.queue.reports
    reads s, wheel, wheel.cells
  {
    p.Inv() && s.Valid() && wheel.Valid() && p.bleOut.taken == Gone(s.finished) && NoKeyDropped(s.finished)
  }

  /** The radio is offered what is due, if a host is connected. */
  method Look(p: K.Pipeline, s: S.Scheduler, wheel: WheelQueue, now: nat, radio: Radio)
    requires Joined(p, s, wheel)
    modifies p`usb, p`ble, p.delivery, p.latch, p.usbOut, p.usbOut.queue, p.usbOut.queue.reports, p.bleOut, p.bleOut.queue, p.bleOut.queue.reports
    modifies s, wheel, wheel.cells
    ensures Joined(p, s, wheel)
  {
    hide K.Pipeline.Inv, S.Scheduler.Valid, WheelQueue.Valid, Gone, NoKeyDropped;
    if p.ble == 0 {
      Forget(p, s, wheel);
      return;
    }
    var r := Hand(p, s, wheel, now, radio);
    if r.Disconnected? {
      p.Reconcile(p.usb, 0);
      Forget(p, s, wheel);
    }
  }

  /** One poll of the scheduler over the pipeline's own queue. */
  method Hand(p: K.Pipeline, s: S.Scheduler, wheel: WheelQueue, now: nat, radio: Radio) returns (r: S.PollResult)
    requires Joined(p, s, wheel)
    modifies p.bleOut`taken, p.bleOut`size, p.bleOut.queue, p.bleOut.queue.reports, s, wheel, wheel.cells
    ensures Joined(p, s, wheel)
  {
    hide K.ChordsAreWhole, K.NoneAfter, K.ChordGoesTo, Weight, Spelled, Held.Valid, Outlet.Valid, Usages, Wire, Fill, K.Pipeline.Chords,
      S.Scheduler.Valid, WheelQueue.Valid, Gone, NoKeyDropped;
    r := Drain(p.bleOut, s, wheel, now, radio);
  }

  method Drain(o: Outlet, s: S.Scheduler, wheel: WheelQueue, now: nat, radio: Radio) returns (r: S.PollResult)
    requires o.Valid() && s.Valid() && wheel.Valid() && o.taken == Gone(s.finished) && NoKeyDropped(s.finished)
    modifies o`taken, o`size, o.queue, o.queue.reports, s, wheel, wheel.cells
    ensures o.Valid() && s.Valid() && wheel.Valid() && o.taken == Gone(s.finished) && NoKeyDropped(s.finished)
    ensures o.size <= old(o.size)
  {
    hide S.Scheduler.Valid, WheelQueue.Valid, WheelQueue.Contents, Total, Queue.Valid, Queue.Contents, Gone, NoKeyDropped, Sealed, LastKeyboard,
      Payloads, S.Scheduler.Chooses, Transmit, S.Reports;
    ghost var q, before := o.queue.Contents(), s.finished;
    var sent;
    r, sent := s.Poll(now, o.queue, wheel, x => Transmit(radio, x));
    Drained(before, s.finished, q, o.queue.Contents(), radio);
    o.taken, o.size := Gone(s.finished), |o.queue.Contents()|;
  }

  /** At most the head has left the queue, and a keyboard snapshot only into the host's hands. */
  lemma Drained(before: seq<(Report, bool)>, after: seq<(Report, bool)>, q: seq<Report>, q': seq<Report>, radio: Radio)
    requires S.Reports(after) + q' == S.Reports(before) + q && Sealed(q) && NoKeyDropped(before)
    requires after == before || exists x :: after == before + [(x, Transmit(radio, S.Hid(x)).TxAccepted?)] && Transmit(radio, S.Hid(x)).Completes()
    ensures Gone(after) + Payloads(q') == Gone(before) + Payloads(q) && Sealed(q') && NoKeyDropped(after) && |q'| <= |q|
  {
    hide Sealed, Transmit;
    assert q' == (S.Reports(before) + q)[|after|..];
    if after != before {
      var x :| after == before + [(x, Transmit(radio, S.Hid(x)).TxAccepted?)] && Transmit(radio, S.Hid(x)).Completes();
      OnlyOptionalIsDropped(radio, x);
      assert S.Reports(after) == S.Reports(before) + [x];
      assert (S.Reports(after) + q')[|before|] == x;
      assert q == [x] + q';
      SealedIsKept(q, x.payload, 0, 1);
      assert Gone(after) == Gone(before) + [x.payload] && Payloads(q) == [x.payload] + Payloads(q');
    }
  }

  lemma OnlyOptionalIsDropped(radio: Radio, x: Report)
    ensures var tx := Transmit(radio, S.Hid(x)); tx.Completes() && x.payload.cls.IsKeyboard() ==> tx.TxAccepted?
  {
  }

  /** The connection is gone, and with it all that waited for its host. */
  method Forget(p: K.Pipeline, s: S.Scheduler, wheel: WheelQueue)
    requires p.Inv() && s.Valid() && wheel.Valid() && p.ble == 0
    modifies p.bleOut, p.bleOut.queue, p.bleOut.queue.reports, s, wheel, wheel.cells
    ensures Joined(p, s, wheel)
  {
    hide K.Pipeline.Inv, S.Scheduler.Valid, WheelQueue.Valid;
    p.Abandon();
    s.MarkDisconnected();
    wheel.Clear();
  }

  // ---- whole histories ----

  /** What happens to the keyboard, on the radio, and to the wheel; the transport alone takes from the Bluetooth queue. */
  datatype Step =
    | OnKeyboard(m: K.Moment) | OnRadio(now: nat, radio: Radio)
    | OnWheel(vertical: int, horizontal: int, ms: nat) | OnInterval(units: nat, valid: bool)

  /**
   * Any keys, app traffic, wheel movement, reconnects and answers of the radio, in any order: the host of the current connection has
   * accepted the keyboard snapshots queued for it, each once and in order, save those still queued; and once nothing is held, nothing
   * is pending and the queue is empty, the last one it accepted is all-zero.
   */
  method Run(steps: seq<Step>, c: S.Config, ghost sources: set<set<Usage>>) returns (p: K.Pipeline, s: S.Scheduler, wheel: WheelQueue)
    ensures Joined(p, s, wheel) && p.sources == sources
    ensures Keyboards(p.bleOut.kept) == Keyboards(Accepted(s.finished)) + Keyboards(Payloads(p.bleOut.queue.Contents()))
    ensures p.held.current == EMPTY && p.delivery.pending == 0 && p.ble != 0 && p.bleOut.size == 0 ==> All(LastKeyboard(Accepted(s.finished)), 0)
  {
    hide Joined, LastKeyboard, Accepted, Keyboards, Payloads, K.Pipeline.Inv;
    p := new K.Pipeline(sources);
    s := new S.Scheduler(c);
    wheel := new WheelQueue();
    Starts(p, s, wheel);
    for k := 0 to |steps|
      invariant fresh(p) && fresh(p.held) && fresh(p.delivery) && fresh(p.latch) && fresh(p.usbOut) && fresh(p.bleOut)
      invariant fresh(p.usbOut.queue) && fresh(p.usbOut.queue.reports) && fresh(p.bleOut.queue) && fresh(p.bleOut.queue.reports)
      invariant fresh(s) && fresh(wheel) && fresh(wheel.cells)
      invariant Joined(p, s, wheel) && p.sources == sources
    {
      Happen(p, s, wheel, steps[k]);
    }
    HostHasThem(p, s, wheel);
  }

  lemma Starts(p: K.Pipeline, s: S.Scheduler, wheel: WheelQueue)
    requires p.Inv() && s.Valid() && wheel.Valid() && p.bleOut.taken == [] && s.finished == []
    ensures Joined(p, s, wheel)
  {
    hide K.Pipeline.Inv, S.Scheduler.Valid, WheelQueue.Valid;
  }

  method Happen(p: K.Pipeline, s: S.Scheduler, wheel: WheelQueue, e: Step)
    requires Joined(p, s, wheel)
    modifies p, p.held, p.delivery, p.latch
    modifies p.usbOut, p.usbOut.queue, p.usbOut.queue.reports, p.bleOut, p.bleOut.queue, p.bleOut.queue.reports
    modifies s, wheel, wheel.cells
    ensures Joined(p, s, wheel)
  {
    hide K.Pipeline.Inv, S.Scheduler.Valid, WheelQueue.Valid, Gone, NoKeyDropped;
    match e {
      case OnKeyboard(m) =>
        if !(m.event.Taken? && m.event.from == Ble) { Type(p, s, wheel, m); }
      case OnRadio(now, radio) =>
        Look(p, s, wheel, now, radio);
      case OnWheel(vertical, horizontal, ms) =>
        if p.ble != 0 { var _ := wheel.Push(vertical, horizontal, ms, BleOwner(0, p.ble), 0); }
      case OnInterval(units, valid) =>
        s.SetConnectionInterval(units, valid);
    }
  }

  /** A change of connection forgets what waited for the old host. */
  method Type(p: K.Pipeline, s: S.Scheduler, wheel: WheelQueue, m: K.Moment)
    requires Joined(p, s, wheel) && !(m.event.Taken? && m.event.from == Ble)
    modifies p, p.held, p.delivery, p.latch
    modifies p.usbOut, p.usbOut.queue, p.usbOut.queue.reports, p.bleOut, p.bleOut.queue, p.bleOut.queue.reports
    modifies s, wheel, wheel.cells
    ensures Joined(p, s, wheel)
  {
    hide K.Pipeline.Inv, S.Scheduler.Valid, WheelQueue.Valid, NoKeyDropped, S.Reports;
    var was := p.ble;
    K.Happen(p, m);
    if p.ble != was {
      s.MarkDisconnected();
      wheel.Clear();
      NothingFinished();
    }
  }

  lemma NothingFinished()
    ensures Gone([]) == [] && NoKeyDropped([])
  {
  }

  lemma HostHasThem(p: K.Pipeline, s: S.Scheduler, wheel: WheelQueue)
    requires Joined(p, s, wheel)
    ensures Keyboards(p.bleOut.kept) == Keyboards(Accepted(s.finished)) + Keyboards(Payloads(p.bleOut.queue.Contents()))
    ensures p.held.current == EMPTY && p.delivery.pending == 0 && p.ble != 0 && p.bleOut.size == 0 ==> All(LastKeyboard(Accepted(s.finished)), 0)
  {
    hide Keyboards, Accepted, LastKeyboard, Gone;
    AllKeysAccepted(s.finished);
    KeyboardsConcat(p.bleOut.taken, Payloads(p.bleOut.queue.Contents()));
    if p.held.current == EMPTY && p.delivery.pending == 0 { p.NoStuckKey(); }
  }
}
