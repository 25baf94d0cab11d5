/** A long text cut into numbered app commands that trickle through the shared report queue. */
module FixedTextStream {
  import opened Bytes
  import opened HidReportQueue

  const MAX_TEXT: nat := 960
  const CHUNK: nat := 59
  const WINDOW: nat := 2
  const REPORT_ID: byte := 0x11
  const KIND: byte := 0x01

  function ChunkCount(n: nat): (c: nat)
    ensures c <= 17
  {
    if n == 0 || n > MAX_TEXT then 0 else (n + CHUNK - 1) / CHUNK
  }

  function ChunkLength(n: nat, i: nat): (len: nat)
    ensures len <= CHUNK
  {
    if i * CHUNK >= n then 0 else Min(CHUNK, n - i * CHUNK)
  }

  /** One 63-octet command: kind, index, total, length, text, padding. */
  function Frame(text: seq<byte>, i: nat): (f: seq<byte>)
    requires i < ChunkCount(|text|)
    ensures |f| == MAX_PAYLOAD
  {
    var len := ChunkLength(|text|, i);
    [KIND, Octet(i), Octet(ChunkCount(|text|)), Octet(len)] + text[i * CHUNK..i * CHUNK + len] + Fill(CHUNK - len, 0)
  }

  /** What a receiver reads out of a command. */
  function FrameIndex(f: seq<byte>): nat
    requires |f| == MAX_PAYLOAD
  {
    Value(f[1])
  }

  function FrameText(f: seq<byte>): seq<byte>
    requires |f| == MAX_PAYLOAD
  {
    if Value(f[3]) <= CHUNK then f[4..4 + Value(f[3])] else []
  }

  type Command = f: seq<byte> | |f| == MAX_PAYLOAD witness Fill(MAX_PAYLOAD, 0)

  function Frames(text: seq<byte>, n: nat): (fs: seq<Command>)
    requires n <= ChunkCount(|text|)
    ensures |fs| == n
  {
    if n == 0 then [] else Frames(text, n - 1) + [Frame(text, n - 1)]
  }

  function Reassembled(fs: seq<Command>): seq<byte> {
    if fs == [] then [] else Reassembled(fs[..|fs| - 1]) + FrameText(fs[|fs| - 1])
  }

  lemma FrameReads(text: seq<byte>, i: nat)
    requires i < ChunkCount(|text|)
    ensures FrameIndex(Frame(text, i)) == i && Value(Frame(text, i)[2]) == ChunkCount(|text|)
    ensures FrameText(Frame(text, i)) == text[i * CHUNK..i * CHUNK + ChunkLength(|text|, i)]
  {
    var len := ChunkLength(|text|, i);
    assert Value(Frame(text, i)[3]) == len;
  }

  /** The first n commands carry the indexes 0 to n-1 and the first n chunks; all of them carry exactly the text. */
  lemma {:induction false} FramesReassemble(text: seq<byte>, n: nat)
    requires n <= ChunkCount(|text|)
    ensures n * CHUNK <= |text| + CHUNK - 1
    ensures Reassembled(Frames(text, n)) == text[..Min(n * CHUNK, |text|)]
    ensures forall i :: 0 <= i < n ==> FrameIndex(Frames(text, n)[i]) == i
    ensures n == ChunkCount(|text|) > 0 ==> Reassembled(Frames(text, n)) == text
  {
    hide Frame, FrameText, FrameIndex, Octet, Value;
    if n > 0 {
      FramesReassemble(text, n - 1);
      FrameReads(text, n - 1);
      assert Frames(text, n)[..n - 1] == Frames(text, n - 1);
    }
  }

  datatype StartStatus = Started | Empty | InvalidOwner | TooLarge | Busy

  datatype PumpResult = PumpResult(queued: nat, blocked: bool, completed: bool, ownerChanged: bool)

  predicate ValidOwner(o: BleOwner) {
    o.handle != 0xFFFF && o.generation != 0
  }

  predicate IsText(p: Payload) {
    p.id == REPORT_ID && |p.data| == MAX_PAYLOAD && p.data[0] == KIND
  }

  /** The stream's own reports among others, as commands. */
  function TextOf(ps: seq<Payload>): (fs: seq<Command>) {
    if ps == [] then []
    else
      var p := ps[|ps| - 1];
      TextOf(ps[..|ps| - 1]) + (if IsText(p) then [p.data] else [])
  }

  lemma {:induction false} TextOfConcat(a: seq<Payload>, b: seq<Payload>)
    ensures TextOf(a + b) == TextOf(a) + TextOf(b)
  {
    if b == [] {
      assert a + b == a;
    } else {
      TextOfConcat(a, b[..|b| - 1]);
      assert (a + b)[..|a + b| - 1] == a + b[..|b| - 1];
    }
  }

  function TextReport(text: seq<byte>, i: nat, owner: BleOwner): Payload
    requires i < ChunkCount(|text|)
  {
    Payload(REPORT_ID, Frame(text, i), AppCommand, owner, 0)
  }

  /** `n` consecutive reports of the text, from number `lo`. */
  function TextReports(text: seq<byte>, owner: BleOwner, lo: nat, n: nat): (ps: seq<Payload>)
    requires lo + n <= ChunkCount(|text|)
    ensures |ps| == n
  {
    if n == 0 then [] else TextReports(text, owner, lo, n - 1) + [TextReport(text, lo + n - 1, owner)]
  }

  lemma {:induction false} TextOfReports(text: seq<byte>, owner: BleOwner, lo: nat, n: nat)
    requires lo + n <= ChunkCount(|text|)
    ensures Frames(text, lo) + TextOf(TextReports(text, owner, lo, n)) == Frames(text, lo + n)
  {
    hide Frame;
    if n > 0 {
      TextOfReports(text, owner, lo, n - 1);
      var ps := TextReports(text, owner, lo, n);
      assert ps[..n - 1] == TextReports(text, owner, lo, n - 1);
      assert IsText(ps[n - 1]) by { FrameHead(text, lo + n - 1); }
    }
  }

  lemma FrameHead(text: seq<byte>, i: nat)
    requires i < ChunkCount(|text|)
    ensures Frame(text, i)[0] == KIND
  {
  }

  /** With fewer than two reports queued, a text report is always taken. */
  lemma TextIsTaken(q: seq<Report>, text: seq<byte>, i: nat, owner: BleOwner, ms: nat, next: Sequence)
    requires i < ChunkCount(|text|) && |q| < WINDOW
    ensures var (q', r) := PushedClassified(q, TextReport(text, i, owner), ms, next);
            r.Queued? && |q'| == |q| + 1 && Payloads(q') == Payloads(q) + [TextReport(text, i, owner)]
  {
    hide Frame;
  }

  class Stream {
    var text: seq<byte>
    var owner: BleOwner
    var next: nat
    var total: nat

    ghost predicate Valid()
      reads this
    {
      if total == 0 then next == 0 && text == []
      else total == ChunkCount(|text|) && next < total && ValidOwner(owner)
    }

    constructor ()
      ensures Valid() && !Pending()
    {
      text, owner, next, total := [], NO_OWNER, 0, 0;
    }

    predicate Pending()
      reads this
    {
      total != 0
    }

    method Start(t: seq<byte>, o: BleOwner) returns (r: StartStatus)
      requires Valid()
      modifies this
      ensures Valid()
      ensures r == if old(Pending()) then Busy else if t == [] then Empty else if !ValidOwner(o) then InvalidOwner
                   else if |t| > MAX_TEXT then TooLarge else Started
      ensures r.Started? ==> Pending() && text == t && owner == o && next == 0
      ensures !r.Started? ==> unchanged(this)
    {
      if Pending() { return Busy; }
      if t == [] { return Empty; }
      if !ValidOwner(o) { return InvalidOwner; }
      var chunks := ChunkCount(|t|);
      if chunks == 0 { return TooLarge; }
      text, owner, next, total, r := t, o, 0, chunks, Started;
    }

    method Reset()
      modifies this
      ensures Valid() && !Pending()
    {
      text, owner, next, total := [], NO_OWNER, 0, 0;
    }

    /** Add chunks while fewer than two reports are queued; a changed owner cancels what was not yet queued, and nothing else. */
    method Pump(current: BleOwner, hid: Queue, ms: nat) returns (r: PumpResult)
      requires Valid() && hid.Valid()
      modifies this, hid, hid.reports
      ensures Valid() && hid.Valid()
      ensures old(next) + r.queued <= ChunkCount(|old(text)|) || r.queued == 0
      ensures !old(Pending()) || r.ownerChanged ==> r.queued == 0
      ensures r.queued == 0 ==> hid.Contents() == old(hid.Contents())
      ensures r.queued > 0 ==> |hid.Contents()| <= WINDOW
      ensures r.queued > 0 ==>
        Payloads(hid.Contents()) == Payloads(old(hid.Contents())) + TextReports(old(text), old(owner), old(next), r.queued)
      ensures r.ownerChanged <==> old(Pending()) && (!ValidOwner(current) || current != old(owner))
      ensures r.completed <==> old(Pending()) && old(next) + r.queued == old(total)
      ensures r.blocked <==> Pending()
      ensures Pending() ==> text == old(text) && owner == old(owner) && total == old(total) && next == old(next) + r.queued
      // A pump that may send always makes room its only limit.
      ensures Pending() && !r.ownerChanged ==> |hid.Contents()| >= WINDOW
    {
      if !Pending() { return PumpResult(0, false, false, false); }
      if !ValidOwner(current) || current != owner {
        Reset();
        return PumpResult(0, false, false, true);
      }
      var queued, completed := PumpWindow(hid, ms);
      r := PumpResult(queued, !completed, completed, false);
    }

    method PumpWindow(hid: Queue, ms: nat) returns (queued: nat, completed: bool)
      requires Valid() && Pending() && hid.Valid()
      modifies this, hid, hid.reports
      ensures Valid() && hid.Valid() && Pending() == !completed
      ensures old(next) + queued <= old(total) && (completed <==> old(next) + queued == old(total))
      ensures queued == 0 ==> hid.Contents() == old(hid.Contents())
      ensures queued > 0 ==> |hid.Contents()| <= WINDOW
      ensures Payloads(hid.Contents()) == Payloads(old(hid.Contents())) + TextReports(old(text), old(owner), old(next), queued)
      ensures Pending() ==> text == old(text) && owner == old(owner) && total == old(total) && next == old(next) + queued
      ensures Pending() ==> |hid.Contents()| >= WINDOW
    {
      hide Queue.Valid, Queue.Contents, TextReport, Payloads, TextReports, Frame;
      queued, completed := 0, false;
      NoReports(hid.Contents(), text, owner, next);
      while hid.size < WINDOW
        invariant Valid() && hid.Valid() && Pending() && text == old(text) && owner == old(owner) && total == old(total)
        invariant next == old(next) + queued
        invariant queued > 0 ==> |hid.Contents()| <= WINDOW
        invariant queued == 0 ==> hid.Contents() == old(hid.Contents())
        invariant Payloads(hid.Contents()) == Payloads(old(hid.Contents())) + TextReports(old(text), owner, old(next), queued)
        decreases total - next
      {
        OneMoreReport(old(hid.Contents()), text, owner, old(next), queued);
        PushChunk(hid, ms);
        queued, next := queued + 1, next + 1;
        if next == total {
          completed := true;
          Reset();
          return;
        }
      }
    }

    method PushChunk(hid: Queue, ms: nat)
      requires hid.Valid() && |hid.Contents()| < WINDOW && next < ChunkCount(|text|)
      modifies hid, hid.reports
      ensures hid.Valid() && |hid.Contents()| == |old(hid.Contents())| + 1
      ensures Payloads(hid.Contents()) == Payloads(old(hid.Contents())) + [TextReport(text, next, owner)]
    {
      hide PushedClassified, TextReport, Payloads;
      TextIsTaken(hid.Contents(), text, next, owner, ms, hid.nextSequence);
      var pushed := hid.PushClassified(TextReport(text, next, owner), ms);
    }
  }

  lemma NoReports(q: seq<Report>, text: seq<byte>, owner: BleOwner, lo: nat)
    requires lo <= ChunkCount(|text|)
    ensures Payloads(q) == Payloads(q) + TextReports(text, owner, lo, 0)
  {
  }

  lemma OneMoreReport(q: seq<Report>, text: seq<byte>, owner: BleOwner, lo: nat, n: nat)
    requires lo + n < ChunkCount(|text|)
    ensures Payloads(q) + TextReports(text, owner, lo, n + 1)
            == Payloads(q) + TextReports(text, owner, lo, n) + [TextReport(text, lo + n, owner)]
  {
  }

  // ---- whole runs, among keyboard traffic ----

  datatype Event = Keyboard(p: Payload, ms: nat) | Sent | Pump(current: BleOwner, ms: nat)

  /**
   * One text, any keyboard reports, any draining, any owner changes: what the transport has taken and still holds of the text
   * is its commands 0 to n-1 in order, they read back as a prefix of the text, and as the whole text once the stream completed.
   */
  method Deliver(text: seq<byte>, owner: BleOwner, hid: Queue, events: seq<Event>)
    returns (ghost taken: seq<Payload>, n: nat, completed: bool)
    requires hid.Valid() && hid.Contents() == [] && ValidOwner(owner) && 0 < |text| <= MAX_TEXT
    requires forall k :: 0 <= k < |events| && events[k].Keyboard? ==> !IsText(events[k].p)
    modifies hid, hid.reports
    ensures hid.Valid() && n <= ChunkCount(|text|)
    ensures TextOf(taken + Payloads(hid.Contents())) == Frames(text, n)
    ensures Reassembled(Frames(text, n)) == text[..Min(n * CHUNK, |text|)]
    ensures completed <==> n == ChunkCount(|text|)
    ensures completed ==> Reassembled(TextOf(taken + Payloads(hid.Contents()))) == text
  {
    hide Queue.Valid, Queue.Contents, PushedClassified, Payloads, TextReports, TextOf, Frames, Frame, ChunkCount, Reassembled;
    var stream := new Stream();
    Startable(text);
    var _ := stream.Start(text, owner);
    taken, n, completed := [], 0, false;
    NothingYet(text, taken, hid.Contents());
    for k := 0 to |events|
      invariant stream.Valid() && hid.Valid() && n <= ChunkCount(|text|)
      invariant stream.Pending() ==> stream.text == text && stream.owner == owner && stream.next == n
      invariant TextOf(taken + Payloads(hid.Contents())) == Frames(text, n)
      invariant completed <==> n == ChunkCount(|text|)
    {
      match events[k] {
        case Keyboard(p, ms) =>
          KeyboardKeepsText(taken, hid.Contents(), p, ms, hid.nextSequence);
          var _ := hid.PushClassified(p, ms);
        case Sent =>
          var found, head := hid.Front();
          if found {
            SentKeepsText(taken, hid.Contents());
            var _ := hid.PopIfSequence(head.sequence);
            taken := taken + [head.payload];
          }
        case Pump(current, ms) =>
          ghost var q := hid.Contents();
          var r := stream.Pump(current, hid, ms);
          if r.queued > 0 { PumpExtendsText(taken, q, hid.Contents(), text, owner, n, r.queued); }
          n, completed := n + r.queued, completed || r.completed;
      }
    }
    FramesReassemble(text, n);
  }

  lemma Startable(text: seq<byte>)
    ensures 0 < |text| <= MAX_TEXT <==> ChunkCount(|text|) > 0
  {
  }

  lemma NothingYet(text: seq<byte>, taken: seq<Payload>, q: seq<Report>)
    requires taken == [] && q == []
    ensures TextOf(taken + Payloads(q)) == Frames(text, 0)
  {
    assert taken + Payloads(q) == [];
  }

  lemma KeyboardKeepsText(taken: seq<Payload>, q: seq<Report>, p: Payload, ms: nat, next: Sequence)
    requires !IsText(p)
    ensures TextOf(taken + Payloads(PushedClassified(q, p, ms, next).0)) == TextOf(taken + Payloads(q))
  {
    var q' := PushedClassified(q, p, ms, next).0;
    if q' != q {
      assert taken + Payloads(q') == taken + Payloads(q) + [p];
      TextOfConcat(taken + Payloads(q), [p]);
      assert [p][..0] == [];
    }
  }

  lemma SentKeepsText(taken: seq<Payload>, q: seq<Report>)
    requires q != []
    ensures taken + [q[0].payload] + Payloads(q[1..]) == taken + Payloads(q)
  {
  }

  lemma PumpExtendsText(taken: seq<Payload>, q: seq<Report>, q': seq<Report>, text: seq<byte>, owner: BleOwner, lo: nat, n: nat)
    requires lo + n <= ChunkCount(|text|) && Payloads(q') == Payloads(q) + TextReports(text, owner, lo, n)
    requires TextOf(taken + Payloads(q)) == Frames(text, lo)
    ensures TextOf(taken + Payloads(q')) == Frames(text, lo + n)
  {
    assert taken + Payloads(q') == taken + Payloads(q) + TextReports(text, owner, lo, n);
    TextOfConcat(taken + Payloads(q), TextReports(text, owner, lo, n));
    TextOfReports(text, owner, lo, n);
  }
}
