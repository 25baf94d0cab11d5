/** The bounded report queue with capacity reserved by class, and the coalescing wheel queue. */
module HidReportQueue {
  import opened Bytes
  import opened RingBuffers

  const CAPACITY: nat := 32
  const SOURCES: nat := 11
  const MAX_PAYLOAD: nat := 63
  const SNAPSHOT_BYTES: nat := 8
  const MAX_SEQUENCE: nat := 0xFFFF_FFFF

  type Sequence = s: nat | 1 <= s <= MAX_SEQUENCE witness 1

  datatype BleOwner = BleOwner(handle: nat, generation: nat)

  const NO_OWNER := BleOwner(0xFFFF, 0)

  datatype ReportClass =
    | Press | Release | AllReleased | AppCommand | StatefulPress | StatefulRelease
  {
    predicate IsKeyboard() {
      Press? || Release? || AllReleased?
    }
  }

  /** What the producer hands over; the queue adds the sequence number. */
  datatype Payload = Payload(id: byte, data: seq<byte>, cls: ReportClass, owner: BleOwner, usbEpoch: nat)

  datatype Report = Report(sequence: Sequence, payload: Payload, queuedMs: nat)

  datatype PushResult = Queued(sequence: Sequence) | Coalesced(sequence: Sequence) | Full | Invalid {
    predicate Accepted() {
      Queued? || Coalesced?
    }
  }

  function Limit(c: ReportClass): nat {
    match c
    case Press => CAPACITY - SOURCES
    case AppCommand => CAPACITY - 2 * SOURCES
    case StatefulPress => CAPACITY - 2 * SOURCES
    case Release => CAPACITY - 1
    case StatefulRelease => CAPACITY - 1
    case AllReleased => CAPACITY
  }

  function NextSequence(s: Sequence): Sequence {
    if s == MAX_SEQUENCE then 1 else s + 1
  }

  predicate Acceptable(p: Payload) {
    && |p.data| <= MAX_PAYLOAD
    && (p.cls.IsKeyboard() ==> |p.data| == SNAPSHOT_BYTES)
    && (p.cls.AllReleased? ==> All(p.data, 0))
  }

  /** Same wire content for the same endpoint lifetime, whatever transition produced it. */
  predicate SameSnapshot(a: Payload, b: Payload) {
    a.id == b.id && a.data == b.data && a.owner == b.owner && a.usbEpoch == b.usbEpoch
  }

  predicate TailMatches(q: seq<Report>, p: Payload) {
    |q| > 0 && q[|q| - 1].payload.cls.IsKeyboard() && SameSnapshot(q[|q| - 1].payload, p)
  }

  /** One push on the abstract queue: the new contents and the answer. */
  function Pushed(q: seq<Report>, p: Payload, ms: nat, limit: nat, coalesce: bool, next: Sequence): (r: (seq<Report>, PushResult)) {
    if |p.data| > MAX_PAYLOAD || limit == 0 then (q, Invalid)
    else if coalesce && TailMatches(q, p) then (q, Coalesced(q[|q| - 1].sequence))
    else if |q| >= limit then (q, Full)
    else (q + [Report(next, p, ms)], Queued(next))
  }

  function PushedClassified(q: seq<Report>, p: Payload, ms: nat, next: Sequence): (r: (seq<Report>, PushResult)) {
    if !Acceptable(p) then (q, Invalid) else Pushed(q, p, ms, Limit(p.cls), p.cls.IsKeyboard(), next)
  }

  /** Sequence numbers run consecutively from head to tail and up to the next one to be issued. */
  predicate Numbered(q: seq<Report>, next: Sequence) {
    && (forall i, j :: 0 <= i < |q| && j == i + 1 && j < |q| ==> q[j].sequence == NextSequence(q[i].sequence))
    && (q != [] ==> next == NextSequence(q[|q| - 1].sequence))
  }

  /** Position of `s` counted from `from`, wrapping past zero. */
  function Distance(from: Sequence, s: Sequence): nat {
    if s >= from then s - from else s + MAX_SEQUENCE - from
  }

  lemma {:induction false} NumberedDistance(q: seq<Report>, next: Sequence, i: nat)
    requires Numbered(q, next) && i < |q| <= CAPACITY
    ensures Distance(q[0].sequence, q[i].sequence) == i
  {
    if i > 0 { NumberedDistance(q, next, i - 1); }
  }

  /** A sequence number names at most one queued report, so a stale acknowledgement pops nothing. */
  lemma SequencesAreUnique(q: seq<Report>, next: Sequence)
    requires Numbered(q, next) && |q| <= CAPACITY
    ensures forall i, j :: 0 <= i < j < |q| ==> q[i].sequence != q[j].sequence
    ensures forall i :: 0 <= i < |q| ==> q[i].sequence != next
  {
    forall i, j | 0 <= i < j < |q| ensures q[i].sequence != q[j].sequence {
      NumberedDistance(q, next, i);
      NumberedDistance(q, next, j);
    }
    forall i | 0 <= i < |q| ensures q[i].sequence != next {
      NumberedDistance(q, next, i);
      NumberedDistance(q, next, |q| - 1);
      assert NextSequence(q[|q| - 1].sequence) == next;
    }
  }

  lemma NumberedPush(q: seq<Report>, next: Sequence, p: Payload, ms: nat)
    requires Numbered(q, next)
    ensures Numbered(q + [Report(next, p, ms)], NextSequence(next))
  {
  }

  const NO_REPORT := Report(1, Payload(0, [], AppCommand, NO_OWNER, 0), 0)

  class Queue {
    const reports: array<Report>
    var head: nat
    var size: nat
    var nextSequence: Sequence

    ghost predicate Valid()
      reads this, reports
      ensures Valid() ==> reports.Length == CAPACITY && head < CAPACITY && size <= CAPACITY
    {
      && reports.Length == CAPACITY && head < CAPACITY && size <= CAPACITY
      && Numbered(Contents(), nextSequence)
    }

    ghost function Contents(): (q: seq<Report>)
      reads this, reports
      requires reports.Length == CAPACITY && head < CAPACITY && size <= CAPACITY
      ensures |q| == size
    {
      Ring(reports[..], head, size)
    }

    constructor ()
      ensures Valid() && Contents() == [] && nextSequence == 1 && fresh(reports)
    {
      reports := new Report[CAPACITY](_ => NO_REPORT);
      head, size, nextSequence := 0, 0, 1;
    }

    method PushClassified(p: Payload, ms: nat) returns (r: PushResult)
      requires Valid()
      modifies this, reports
      ensures Valid()
      ensures (Contents(), r) == PushedClassified(old(Contents()), p, ms, old(nextSequence))
    {
      if !Acceptable(p) { return Invalid; }
      r := PushWithLimit(p, ms, Limit(p.cls), p.cls.IsKeyboard());
    }

    /** The compatibility entry point: any report as an app command, `reserved` slots kept free, never coalesced. */
    method Push(id: byte, data: seq<byte>, ms: nat, reserved: nat, owner: BleOwner, usbEpoch: nat) returns (r: PushResult)
      requires Valid()
      modifies this, reports
      ensures Valid()
      ensures var limit := if reserved >= CAPACITY then 0 else CAPACITY - reserved;
              (Contents(), r) == Pushed(old(Contents()), Payload(id, data, AppCommand, owner, usbEpoch), ms, limit, false, old(nextSequence))
    {
      r := PushWithLimit(Payload(id, data, AppCommand, owner, usbEpoch), ms,
                         if reserved >= CAPACITY then 0 else CAPACITY - reserved, false);
    }

    method PushWithLimit(p: Payload, ms: nat, limit: nat, coalesce: bool) returns (r: PushResult)
      requires Valid() && limit <= CAPACITY
      modifies this, reports
      ensures Valid()
      ensures (Contents(), r) == Pushed(old(Contents()), p, ms, limit, coalesce, old(nextSequence))
    {
      if |p.data| > MAX_PAYLOAD || limit == 0 { return Invalid; }
      if coalesce && size > 0 {
        var tail := reports[Slot(head, size - 1, CAPACITY)];
        assert tail == Contents()[size - 1];
        if tail.payload.cls.IsKeyboard() && SameSnapshot(tail.payload, p) { return Coalesced(tail.sequence); }
      }
      if size >= limit { return Full; }
      hide Numbered, Ring;
      NumberedPush(Contents(), nextSequence, p, ms);
      RingPush(reports[..], head, size, Report(nextSequence, p, ms));
      reports[Slot(head, size, CAPACITY)] := Report(nextSequence, p, ms);
      size, nextSequence, r := size + 1, NextSequence(nextSequence), Queued(nextSequence);
    }

    method Front() returns (found: bool, r: Report)
      requires Valid()
      ensures found == (Contents() != [])
      ensures found ==> r == Contents()[0]
    {
      found, r := size > 0, reports[head];
    }

    /** Only the report that was actually sent can be removed. */
    method PopIfSequence(sequence: Sequence) returns (popped: bool)
      requires Valid()
      modifies this, reports
      ensures Valid() && nextSequence == old(nextSequence)
      ensures popped == (old(Contents()) != [] && old(Contents())[0].sequence == sequence)
      ensures Contents() == if popped then old(Contents())[1..] else old(Contents())
    {
      if size == 0 { return false; }
      RingPop(reports[..], head, size, NO_REPORT);
      if reports[head].sequence != sequence { return false; }
      reports[head] := NO_REPORT;
      head, size, popped := Slot(head, 1, CAPACITY), size - 1, true;
    }

    method Clear()
      requires Valid()
      modifies this, reports
      ensures Valid() && Contents() == [] && nextSequence == old(nextSequence)
    {
      forall i | 0 <= i < CAPACITY { reports[i] := NO_REPORT; }
      head, size := 0, 0;
    }
  }

  // ---- the slot that only an all-released snapshot may take ----

  /** A full queue always ends in an all-released snapshot, whatever the classified traffic. */
  predicate Sealed(q: seq<Report>) {
    && |q| <= CAPACITY && (|q| == CAPACITY ==> q[CAPACITY - 1].payload.cls.AllReleased?)
    && forall i :: 0 <= i < |q| ==> Acceptable(q[i].payload)
  }

  lemma SealedIsKept(q: seq<Report>, p: Payload, ms: nat, next: Sequence)
    requires Sealed(q)
    ensures Sealed(PushedClassified(q, p, ms, next).0) && (q != [] ==> Sealed(q[1..]))
  {
  }

  /** So an all-released snapshot is refused exactly when the queue is full and ends in that of another endpoint. */
  lemma AllReleasedIsRefusedOnlyForAnotherEndpoint(q: seq<Report>, p: Payload, ms: nat, next: Sequence)
    requires Sealed(q) && Acceptable(p) && p.cls.AllReleased?
    ensures PushedClassified(q, p, ms, next).1.Full? <==>
      |q| == CAPACITY && (q[CAPACITY - 1].payload.id != p.id || q[CAPACITY - 1].payload.owner != p.owner
                          || q[CAPACITY - 1].payload.usbEpoch != p.usbEpoch)
  {
    if |q| == CAPACITY {
      assert Acceptable(q[CAPACITY - 1].payload);
      assert q[CAPACITY - 1].payload.data == p.data;
    }
  }

  // ---- order and content ----

  /** `kept` is `accepted` without some snapshots that repeat, for one endpoint, the snapshot kept just before them. */
  predicate DropsStutters(accepted: seq<Payload>, kept: seq<Payload>)
    decreases |accepted|
  {
    if accepted == [] then kept == []
    else
      var p := accepted[|accepted| - 1];
      && kept != []
      && var last := kept[|kept| - 1];
         || (last == p && DropsStutters(accepted[..|accepted| - 1], kept[..|kept| - 1]))
         || (p.cls.IsKeyboard() && last.cls.IsKeyboard() && SameSnapshot(last, p)
             && DropsStutters(accepted[..|accepted| - 1], kept))
  }

  /** Classified traffic and draining, in any order. */
  datatype Move = Offer(p: Payload, ms: nat) | Drain

  /** One queue's life: what was accepted, what the transport has taken, what is queued. */
  datatype Life = Life(accepted: seq<Payload>, taken: seq<Payload>, q: seq<Report>, next: Sequence)

  function Payloads(q: seq<Report>): (ps: seq<Payload>)
    ensures |ps| == |q|
  {
    seq(|q|, i requires 0 <= i < |q| => q[i].payload)
  }

  function Lived(l: Life, m: Move): Life {
    match m
    case Drain => if l.q == [] then l else l.(taken := l.taken + [l.q[0].payload], q := l.q[1..])
    case Offer(p, ms) =>
      var (q, r) := PushedClassified(l.q, p, ms, l.next);
      Life(if r.Accepted() then l.accepted + [p] else l.accepted, l.taken, q, if r.Queued? then NextSequence(l.next) else l.next)
  }

  function LivedAll(l: Life, moves: seq<Move>): Life
    decreases |moves|
  {
    if moves == [] then l else LivedAll(Lived(l, moves[0]), moves[1..])
  }

  predicate Faithful(l: Life) {
    DropsStutters(l.accepted, l.taken + Payloads(l.q))
  }

  /** One more accepted report: kept as it is, or a repetition of what was kept last. */
  lemma AcceptOne(accepted: seq<Payload>, kept: seq<Payload>, p: Payload)
    requires DropsStutters(accepted, kept)
    ensures DropsStutters(accepted + [p], kept + [p])
    ensures kept != [] && p.cls.IsKeyboard() && kept[|kept| - 1].cls.IsKeyboard() && SameSnapshot(kept[|kept| - 1], p) ==>
      DropsStutters(accepted + [p], kept)
  {
    assert (accepted + [p])[..|accepted|] == accepted && (kept + [p])[..|kept|] == kept;
  }

  lemma MoveIsFaithful(l: Life, m: Move)
    requires Faithful(l)
    ensures Faithful(Lived(l, m))
  {
    hide DropsStutters, Acceptable;
    var l', all := Lived(l, m), l.taken + Payloads(l.q);
    match m
    case Drain =>
      assert l'.taken + Payloads(l'.q) == all;
    case Offer(p, ms) =>
      var r := PushedClassified(l.q, p, ms, l.next).1;
      AcceptOne(l.accepted, all, p);
      if r.Queued? {
        assert l'.taken + Payloads(l'.q) == all + [p];
      } else if r.Coalesced? {
        assert all[|all| - 1] == Payloads(l.q)[|l.q| - 1] == l.q[|l.q| - 1].payload;
      }
  }

  /** First in, first out: over every run, what is taken and then what is queued is what was accepted, minus stutters. */
  lemma {:induction false} QueueIsFaithful(l: Life, moves: seq<Move>)
    requires Faithful(l)
    ensures Faithful(LivedAll(l, moves))
    decreases |moves|
  {
    if moves != [] {
      MoveIsFaithful(l, moves[0]);
      QueueIsFaithful(Lived(l, moves[0]), moves[1..]);
    }
  }

  /** In particular the newest snapshot is never the one that goes missing. */
  lemma LastSurvives(accepted: seq<Payload>, kept: seq<Payload>)
    requires DropsStutters(accepted, kept) && accepted != []
    ensures kept != [] && SameSnapshot(kept[|kept| - 1], accepted[|accepted| - 1])
  {
  }
}
