/** A run of the keyboard that ends in refused releases, while nothing is drained. */
module KeyboardWitnesses {
  import opened Bytes
  import opened HeldKeyboard
  import opened HidReportQueue
  import opened SnapshotDelivery
  import opened TransportLatch
  import opened KeyboardPipeline

  /** Two sources, each with a key of its own. */
  function Code(source: nat): byte {
    if source == 0 then 4 else 5
  }

  function Report(source: nat): KeyReport {
    KeyReport(true, false, 0, Code(source), Fill(ROLLOVER, 0))
  }

  function Shown(zero: bool, one: bool): Snapshot {
    Snapshot(0, false, Padded((if zero then [Code(0)] else []) + (if one then [Code(1)] else [])))
  }

  /** Of the eleven sources only the first two are in use. */
  ghost predicate Holds(reports: seq<KeyReport>, active: seq<bool>, zero: bool, one: bool) {
    && |reports| == |active| == HeldKeyboard.SOURCES && active == [zero, one] + seq(9, _ => false)
    && (zero ==> reports[0] == Report(0)) && (one ==> reports[1] == Report(1))
  }

  lemma InsertOne(keys: seq<byte>, source: nat)
    requires Code(source) !in keys
    ensures InsertAll(keys, Codes(Report(source))) == keys + [Code(source)]
  {
    assert Codes(Report(source)) == [Code(source)];
    assert [Code(source)][..0] == [];
  }

  lemma {:induction false} HoldsMeans(reports: seq<KeyReport>, active: seq<bool>, n: nat, zero: bool, one: bool)
    requires Holds(reports, active, zero, one) && n <= HeldKeyboard.SOURCES
    ensures Keys(reports, active, n) == (if zero && n > 0 then [Code(0)] else []) + (if one && n > 1 then [Code(1)] else [])
    ensures Modifiers(reports, active, n) == 0 && !AnyFn(reports, active, n)
  {
    if n > 0 {
      HoldsMeans(reports, active, n - 1, zero, one);
      if n == 1 { InsertOne([], 0); }
      if n == 2 { InsertOne(Keys(reports, active, 1), 1); }
    }
  }

  lemma HoldsShows(reports: seq<KeyReport>, active: seq<bool>, zero: bool, one: bool)
    requires Holds(reports, active, zero, one)
    ensures Fits(reports, active) && Composed(reports, active) == Shown(zero, one)
  {
    HoldsMeans(reports, active, HeldKeyboard.SOURCES, zero, one);
  }

  /** Adding the other key is a press; taking the first one away then is a release. */
  lemma SwapClasses(first: bool)
    ensures Shown(false, false) == EMPTY
    ensures var (one, both, other) := (Shown(first, !first), Shown(true, true), Shown(!first, first));
      && one != EMPTY && both != EMPTY && one != both && other != one
      && Classified(EMPTY, one) == Press && Classified(one, both) == Press && Classified(one, other) == Release
  {
    BlankIsEmpty(Shown(false, false));
    FirstOnly(first);
    FirstOnly(!first);
    assert Shown(true, true).keycodes[0] == Code(0) && Shown(true, true).keycodes[1] == Code(1);
    NoBits(0);
    hide Shown, Padded, Has;
    assert RemovesUsage(Shown(first, !first), Shown(!first, first));
  }

  lemma FirstOnly(first: bool)
    ensures var (s, c) := (Shown(first, !first), Code(if first then 0 else 1));
      s.modifier == 0 && !s.appleFn && s.keycodes[0] == c && (forall i :: 1 <= i < ROLLOVER ==> s.keycodes[i] == 0)
  {
  }

  lemma NoBits(m: byte)
    ensures m == 0 ==> forall d :: !Has(m, d)
  {
  }

  /** Source 0 or source 1 alone is held and has been told to the Bluetooth host, whose queue holds `n` reports. */
  ghost predicate Alone(p: Pipeline, first: bool, n: nat)
    reads p, p.held, p.delivery, p.latch, p.usbOut, p.usbOut.queue, p.usbOut.queue.reports, p.bleOut, p.bleOut.queue, p.bleOut.queue.reports
  {
    && p.Inv() && p.usb == 0 && p.ble == 1 && p.bleOut.size == n && p.latch.owner == Ble
    && Holds(p.held.reports, p.held.active, first, !first) && p.delivery.accepted == Shown(first, !first)
  }

  /** While the queue has no room for presses, the other key takes over: its press is refused, and the release shows it. */
  method Swap(p: Pipeline, first: bool, n: nat) returns (pressed: bool, released: bool)
    requires Alone(p, first, n) && n >= Limit(Press)
    modifies p, p.held, p.delivery, p.latch
    modifies p.usbOut, p.usbOut.queue, p.usbOut.queue.reports, p.bleOut, p.bleOut.queue, p.bleOut.queue.reports
    ensures !pressed && (released <==> n < Limit(Release))
    ensures released ==> Alone(p, !first, n + 1)
    ensures p.bleOut.apps == old(p.bleOut.apps)
  {
    hide Pipeline.Inv, Composed, Classified, Shown, Keys;
    pressed := PressOther(p, first, n);
    released := LetGo(p, first, n);
  }

  /** Both are held, but the host has only been told of one. */
  ghost predicate Both(p: Pipeline, first: bool, n: nat)
    reads p, p.held, p.delivery, p.latch, p.usbOut, p.usbOut.queue, p.usbOut.queue.reports, p.bleOut, p.bleOut.queue, p.bleOut.queue.reports
  {
    && p.Inv() && p.usb == 0 && p.ble == 1 && p.bleOut.size == n && p.latch.owner == Ble
    && Holds(p.held.reports, p.held.active, true, true) && p.delivery.accepted == Shown(first, !first)
  }

  method PressOther(p: Pipeline, first: bool, n: nat) returns (ok: bool)
    requires Alone(p, first, n) && n >= Limit(Press)
    modifies p, p.held, p.delivery, p.latch
    modifies p.usbOut, p.usbOut.queue, p.usbOut.queue.reports, p.bleOut, p.bleOut.queue, p.bleOut.queue.reports
    ensures !ok && Both(p, first, n) && p.bleOut.apps == old(p.bleOut.apps)
  {
    hide Pipeline.Inv, Composed, Classified, Shown, Keys;
    var source := if first then 1 else 0;
    Shows(p, first, !first);
    SwapClasses(first);
    OtherFits(p.held.reports, p.held.active, first);
    ok := p.Dispatch(true, source, Report(source), 0, 1, 0);
    Shows(p, true, true);
  }

  method LetGo(p: Pipeline, first: bool, n: nat) returns (ok: bool)
    requires Both(p, first, n)
    modifies p, p.held, p.delivery, p.latch
    modifies p.usbOut, p.usbOut.queue, p.usbOut.queue.reports, p.bleOut, p.bleOut.queue, p.bleOut.queue.reports
    ensures ok <==> n < Limit(Release)
    ensures ok ==> Alone(p, !first, n + 1)
    ensures p.bleOut.apps == old(p.bleOut.apps)
  {
    hide Pipeline.Inv, Composed, Classified, Shown, Keys;
    var source := if first then 0 else 1;
    Shows(p, true, true);
    SwapClasses(first);
    SwapClasses(!first);
    ok := p.Dispatch(false, source, HeldKeyboard.NO_REPORT, 0, 1, 0);
    Shows(p, !first, first);
  }

  lemma Shows(p: Pipeline, zero: bool, one: bool)
    requires p.Inv() && Holds(p.held.reports, p.held.active, zero, one)
    ensures p.held.current == Shown(zero, one) && p.held.Valid()
  {
    HoldsShows(p.held.reports, p.held.active, zero, one);
  }

  lemma OtherFits(reports: seq<KeyReport>, active: seq<bool>, first: bool)
    requires Holds(reports, active, first, !first)
    ensures var source := if first then 1 else 0;
      && Usable(Report(source)) && Holds(reports[source := Report(source)], active[source := true], true, true)
      && Fits(reports[source := Report(source)], active[source := true])
  {
    var source := if first then 1 else 0;
    var rs, on := reports[source := Report(source)], active[source := true];
    assert on == [true, true] + seq(9, _ => false);
    HoldsShows(rs, on, true, true);
  }

  /** Nothing is held, and the Bluetooth queue holds `n` reports. */
  ghost predicate Idle(p: Pipeline, n: nat)
    reads p, p.held, p.delivery, p.latch, p.usbOut, p.usbOut.queue, p.usbOut.queue.reports, p.bleOut, p.bleOut.queue, p.bleOut.queue.reports
  {
    && p.Inv() && p.usb == 0 && p.ble == 1 && p.bleOut.size == n && p.latch.owner == NoOwner
    && Holds(p.held.reports, p.held.active, false, false)
  }

  method PressFirst(p: Pipeline, n: nat)
    requires Idle(p, n) && n < Limit(Press)
    modifies p, p.held, p.delivery, p.latch
    modifies p.usbOut, p.usbOut.queue, p.usbOut.queue.reports, p.bleOut, p.bleOut.queue, p.bleOut.queue.reports
    ensures Alone(p, true, n + 1) && p.bleOut.apps == old(p.bleOut.apps)
  {
    hide Pipeline.Inv, Composed, Classified, Shown, Keys;
    Shows(p, false, false);
    SwapClasses(true);
    OnlyFirstFits(p.held.reports, p.held.active);
    NothingTaken(p);
    var ok := p.Dispatch(true, 0, Report(0), 0, 1, 0);
    Shows(p, true, false);
  }

  lemma OnlyFirstFits(reports: seq<KeyReport>, active: seq<bool>)
    requires Holds(reports, active, false, false)
    ensures Usable(Report(0)) && Holds(reports[0 := Report(0)], active[0 := true], true, false)
    ensures Fits(reports[0 := Report(0)], active[0 := true])
  {
    assert active[0 := true] == [true, false] + seq(9, _ => false);
    HoldsShows(reports[0 := Report(0)], active[0 := true], true, false);
  }

  lemma NothingTaken(p: Pipeline)
    requires p.Inv() && p.latch.owner == NoOwner
    ensures p.delivery.accepted == EMPTY
  {
  }

  method ReleaseFirst(p: Pipeline, n: nat)
    requires Alone(p, true, n)
    modifies p, p.held, p.delivery, p.latch
    modifies p.usbOut, p.usbOut.queue, p.usbOut.queue.reports, p.bleOut, p.bleOut.queue, p.bleOut.queue.reports
    ensures Idle(p, n + 1) && p.bleOut.apps == old(p.bleOut.apps)
  {
    hide Pipeline.Inv, Composed, Classified, Shown, Keys;
    Shows(p, true, false);
    SwapClasses(true);
    assert p.held.active[0 := false] == [false, false] + seq(9, _ => false);
    var ok := p.Dispatch(false, 0, HeldKeyboard.NO_REPORT, 0, 1, 0);
    Shows(p, false, false);
  }

  const APP_PRESS := Payload(0x11, [], StatefulPress, BleOwner(0, 1), 0)
  const APP_COMMAND := Payload(0x11, [], AppCommand, BleOwner(0, 1), 0)
  const APP_RELEASE := Payload(0x11, [], StatefulRelease, BleOwner(0, 1), 0)

  /** A connected host, one app press and one command in its queue. */
  method Started() returns (p: Pipeline)
    ensures fresh(p) && fresh(p.held) && fresh(p.delivery) && fresh(p.latch) && fresh(p.usbOut) && fresh(p.bleOut)
    ensures fresh(p.usbOut.queue) && fresh(p.usbOut.queue.reports) && fresh(p.bleOut.queue) && fresh(p.bleOut.queue.reports)
    ensures Idle(p, 2) && p.bleOut.apps == 1
  {
    hide Pipeline.Inv;
    p := new Pipeline({});
    HeldIs(p);
    assert p.held.active == [false, false] + seq(9, _ => false);
    p.Reconcile(0, 1);
    var ok := p.Command(APP_PRESS, 0);
    ok := p.Command(APP_COMMAND, 0);
  }

  lemma HeldIs(p: Pipeline)
    requires p.Inv()
    ensures |p.held.reports| == |p.held.active| == HeldKeyboard.SOURCES
  {
  }

  /** Thirty-one reports, an app press and one key, with nothing drained. */
  method Filled() returns (p: Pipeline, first: bool)
    ensures fresh(p) && Alone(p, first, 31) && p.bleOut.apps == 1
    ensures fresh(p.held) && fresh(p.delivery) && fresh(p.latch) && fresh(p.usbOut) && fresh(p.bleOut)
    ensures fresh(p.usbOut.queue) && fresh(p.usbOut.queue.reports) && fresh(p.bleOut.queue) && fresh(p.bleOut.queue.reports)
  {
    hide Alone, Idle;
    p := Started();
    for n := 1 to 10
      invariant Idle(p, 2 * n) && p.bleOut.apps == 1
      invariant fresh(p) && fresh(p.held) && fresh(p.delivery) && fresh(p.latch) && fresh(p.usbOut) && fresh(p.bleOut)
      invariant fresh(p.usbOut.queue) && fresh(p.usbOut.queue.reports) && fresh(p.bleOut.queue) && fresh(p.bleOut.queue.reports)
    {
      PressFirst(p, 2 * n);
      ReleaseFirst(p, 2 * n + 1);
    }
    PressFirst(p, 20);
    first := true;
    for n := 21 to 31
      invariant Alone(p, first, n) && p.bleOut.apps == 1
      invariant fresh(p) && fresh(p.held) && fresh(p.delivery) && fresh(p.latch) && fresh(p.usbOut) && fresh(p.bleOut)
      invariant fresh(p.usbOut.queue) && fresh(p.usbOut.queue.reports) && fresh(p.bleOut.queue) && fresh(p.bleOut.queue.reports)
    {
      var pressed, released := Swap(p, first, n);
      first := !first;
    }
  }

  /** A key-up is refused although its key's press was taken: each release so far had pressed the other key. */
  method KeyReleaseCanBeRefused() returns (released: bool)
    ensures !released
  {
    hide Alone;
    var p, first := Filled();
    var pressed;
    pressed, released := Swap(p, first, 31);
  }

  /** So is an app release although its press was taken. */
  method AppReleaseCanBeRefused() returns (released: bool)
    ensures !released
  {
    hide Pipeline.Inv;
    var p, first := Filled();
    released := p.Command(APP_RELEASE, 0);
  }
}
