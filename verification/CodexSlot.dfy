/** Push-to-talk and playback on one device: never both, and a playback is reported finished only when all of it was heard. */
module CodexSlot {
  import opened Counters

  datatype Playback = Playback(slot: nat, summary: nat, lease: nat, connection: nat) {
    predicate Valid() {
      1 <= slot <= 4 && summary != 0 && lease != 0 && connection != 0
    }
  }

  const NO_PLAYBACK := Playback(0, 0, 0, 0)

  datatype DeviceAction =
    | PttStarted(slot: nat, capture: nat, connection: nat)
    | PttEnded(slot: nat, capture: nat, connection: nat)
    | PlayRequested(slot: nat, request: nat, connection: nat)
    | PlaybackPreempted(playback: Playback)
    | PlaybackFinished(playback: Playback)
    | RejectedBusy(slot: nat)

  datatype BeginResult = BeginAccepted | BeginDuplicate | BeginBusy | BeginInvalid
  datatype FrameResult = FrameAccepted | FrameDuplicate | FrameOutOfOrder | FrameStale | FrameInvalid
  datatype Phase = Idle | Buffering | Playing | TransferComplete | FinishedPendingAck

  datatype Start = Start(playback: Playback, request: nat, frames: nat, samples: nat)

  /** What has happened to the current playback, in order. */
  datatype Heard = Began(s: Start) | Frame(n: nat) | Transferred | Drained(samples: nat)

  function FramesUpTo(n: nat): seq<Heard> {
    if n == 0 then [] else FramesUpTo(n - 1) + [Frame(n - 1)]
  }

  /** Begun, every frame from 0 to n-1 exactly once and in order, handed over, and exactly all samples played. */
  function WholeStory(s: Start): seq<Heard> {
    [Began(s)] + FramesUpTo(s.frames) + [Transferred, Drained(s.samples)]
  }

  function CapturesOf(log: seq<DeviceAction>): seq<DeviceAction> {
    if log == [] then []
    else
      var last := log[|log| - 1];
      CapturesOf(log[..|log| - 1]) + (if last.PttStarted? || last.PttEnded? then [last] else [])
  }

  /** Start, end, start, end; every end names the slot, generation and connection of the start before it. */
  predicate Alternate(cs: seq<DeviceAction>) {
    && (forall i :: 0 <= i < |cs| ==> cs[i].PttStarted? == (i % 2 == 0) && cs[i].PttEnded? == (i % 2 == 1))
    && (forall i, j :: 0 <= i < |cs| && j == i + 1 && j < |cs| && j % 2 == 1 ==>
          cs[i].PttStarted? && cs[j] == PttEnded(cs[i].slot, cs[i].capture, cs[i].connection))
  }

  lemma CapturesAppend(log: seq<DeviceAction>, a: DeviceAction)
    ensures CapturesOf(log + [a]) == CapturesOf(log) + (if a.PttStarted? || a.PttEnded? then [a] else [])
  {
    assert (log + [a])[..|log|] == log;
  }

  lemma {:induction false} CapturesConcat(a: seq<DeviceAction>, b: seq<DeviceAction>)
    ensures CapturesOf(a + b) == CapturesOf(a) + CapturesOf(b)
  {
    if b == [] {
      assert a + b == a;
    } else {
      CapturesConcat(a, b[..|b| - 1]);
      CapturesAppend(a + b[..|b| - 1], b[|b| - 1]);
      assert a + b == a + b[..|b| - 1] + [b[|b| - 1]];
    }
  }

  lemma CaptureBegins(cs: seq<DeviceAction>, a: DeviceAction)
    requires Alternate(cs) && |cs| % 2 == 0 && a.PttStarted?
    ensures Alternate(cs + [a])
  {
  }

  lemma CaptureEnds(cs: seq<DeviceAction>, a: DeviceAction)
    requires Alternate(cs) && |cs| % 2 == 1 && a.PttEnded?
    requires cs[|cs| - 1] == PttStarted(a.slot, a.capture, a.connection)
    ensures Alternate(cs + [a])
  {
  }

  class SlotState {
    var captureCounter: nat
    var requestCounter: nat
    var pendingSlot: nat
    var pendingRequest: nat
    var pendingConnection: nat
    var activeRequest: nat
    var captureSlot: nat
    var captureGeneration: nat
    var captureConnection: nat
    var phase: Phase
    var playback: Playback
    var totalFrames: nat
    var nextFrame: nat
    var totalSamples: nat

    /** Every action handed to the host so far. */
    ghost var log: seq<DeviceAction>
    ghost var story: seq<Heard>

    predicate CaptureActive()
      reads this`captureGeneration
    {
      captureGeneration != 0
    }

    ghost function CurrentStart(): Start
      reads this`playback, this`activeRequest, this`totalFrames, this`totalSamples
    {
      Start(playback, activeRequest, totalFrames, totalSamples)
    }

    ghost predicate Inv()
      reads this
    {
      && CaptureInv() && PlaybackInv()
      // Capture and playback exclude each other.
      && !(CaptureActive() && phase != Idle)
    }

    ghost predicate CaptureInv()
      reads this`captureSlot, this`captureGeneration, this`captureConnection, this`log
    {
      var cs := CapturesOf(log);
      && Alternate(cs) && (CaptureActive() <==> |cs| % 2 == 1) && (forall a :: a in log ==> !a.PlaybackFinished?)
      && (CaptureActive() ==> 1 <= captureSlot <= 4 && cs[|cs| - 1] == PttStarted(captureSlot, captureGeneration, captureConnection))
      && (!CaptureActive() ==> captureSlot == 0 && captureConnection == 0)
    }

    ghost predicate PlaybackInv()
      reads this`phase, this`playback, this`totalFrames, this`nextFrame, this`totalSamples, this`activeRequest, this`story
    {
      match phase
      case Idle => story == [] && playback == NO_PLAYBACK && nextFrame == 0
      case Buffering => Underway()
      case Playing => Underway()
      case TransferComplete =>
        playback.Valid() && nextFrame == totalFrames && story == [Began(CurrentStart())] + FramesUpTo(totalFrames) + [Transferred]
      case FinishedPendingAck => playback.Valid() && nextFrame == totalFrames && story == WholeStory(CurrentStart())
    }

    ghost predicate Underway()
      reads this`playback, this`totalFrames, this`nextFrame, this`totalSamples, this`activeRequest, this`story
    {
      playback.Valid() && nextFrame <= totalFrames && totalFrames > 0 && story == [Began(CurrentStart())] + FramesUpTo(nextFrame)
    }

    constructor ()
      ensures Inv() && phase == Idle && !CaptureActive() && log == []
    {
      captureCounter, requestCounter, pendingSlot, pendingRequest, pendingConnection, activeRequest := 0, 0, 0, 0, 0, 0;
      captureSlot, captureGeneration, captureConnection := 0, 0, 0;
      phase, playback, totalFrames, nextFrame, totalSamples := Idle, NO_PLAYBACK, 0, 0, 0;
      log, story := [], [];
    }

    method SeedCaptureCounter(seed: nat)
      requires Inv()
      modifies this`captureCounter
      ensures Inv()
    {
      if !CaptureActive() && captureCounter == 0 { captureCounter := seed; }
    }

    method ClearPlayback()
      modifies this`phase, this`playback, this`totalFrames, this`nextFrame, this`totalSamples, this`activeRequest, this`story
      ensures phase == Idle && PlaybackInv()
    {
      phase, playback, totalFrames, nextFrame, totalSamples, activeRequest, story := Idle, NO_PLAYBACK, 0, 0, 0, 0, [];
    }

    method Emit(a: DeviceAction)
      requires CaptureInv() && !a.PttStarted? && !a.PttEnded? && !a.PlaybackFinished?
      modifies this`log
      ensures CaptureInv() && log == old(log) + [a]
    {
      CapturesAppend(log, a);
      log := log + [a];
    }

    /** Preempting names exactly the playback that was running. */
    method PreemptPlayback()
      requires Inv() && phase != Idle
      modifies this`phase, this`playback, this`totalFrames, this`nextFrame, this`totalSamples, this`activeRequest, this`story, this`log
      ensures Inv() && phase == Idle && log == old(log) + [PlaybackPreempted(old(playback))]
    {
      Emit(PlaybackPreempted(playback));
      ClearPlayback();
    }

    method StartCapture(slot: nat, connection: nat)
      requires Inv() && !CaptureActive() && phase == Idle && 1 <= slot <= 4
      modifies this`captureSlot, this`captureGeneration, this`captureConnection, this`captureCounter, this`log
      ensures Inv() && captureSlot == slot && captureConnection == connection
      ensures captureGeneration == NextNonzero(old(captureCounter)) && log == old(log) + [PttStarted(slot, captureGeneration, connection)]
    {
      hide Alternate, CapturesOf, PlaybackInv;
      var generation := NextNonzero(captureCounter);
      var a := PttStarted(slot, generation, connection);
      CapturesAppend(log, a);
      CaptureBegins(CapturesOf(log), a);
      assert CapturesOf(log + [a])[|CapturesOf(log)|] == a;
      captureCounter, captureSlot, captureGeneration, captureConnection, log := generation, slot, generation, connection, log + [a];
    }

    method EndCapture()
      requires Inv() && CaptureActive()
      modifies this`captureSlot, this`captureGeneration, this`captureConnection, this`log
      ensures Inv() && !CaptureActive()
      ensures log == old(log) + [PttEnded(old(captureSlot), old(captureGeneration), old(captureConnection))]
    {
      hide Alternate, CapturesOf, PlaybackInv;
      var a := PttEnded(captureSlot, captureGeneration, captureConnection);
      CapturesAppend(log, a);
      CaptureEnds(CapturesOf(log), a);
      captureSlot, captureGeneration, captureConnection, log := 0, 0, 0, log + [a];
    }

    /** Keys 1 to 4 talk, 5 to 8 play; any other input is not for this machine. At most two actions come of it. */
    method HandleInput(key: nat, pressed: bool, connection: nat)
      requires Inv()
      modifies this
      ensures Inv() && |old(log)| <= |log| <= |old(log)| + 2 && log[..|old(log)|] == old(log)
      // Talking always wins: pressing a talk key while nothing is captured silences any playback, on line or off.
      ensures 1 <= key <= 4 && pressed && !old(CaptureActive()) ==> phase == Idle && (connection != 0 ==> CaptureActive() && captureSlot == key)
      ensures 1 <= key <= 4 && pressed && !old(CaptureActive()) && old(phase) != Idle ==>
        |log| == |old(log)| + 2 && log[|old(log)|] == PlaybackPreempted(old(playback))
      // Capture ends here only by releasing its own key, and a release without a connection is not seen at all.
      ensures old(CaptureActive()) ==>
        (CaptureActive() <==> !(key == old(captureSlot) && !pressed && connection != 0))
      ensures CaptureActive() && old(CaptureActive()) ==>
        captureSlot == old(captureSlot) && captureGeneration == old(captureGeneration) && captureConnection == old(captureConnection)
      ensures CaptureActive() && !old(CaptureActive()) ==> captureConnection == connection != 0
    {
      hide Alternate, CapturesOf, PlaybackInv;
      if connection == 0 && 1 <= key <= 8 {
        if !pressed { return; }
        if key <= 4 && phase != Idle { PreemptPlayback(); }
        Emit(RejectedBusy((key - 1) % 4 + 1));
        return;
      }
      if 1 <= key <= 4 {
        if pressed {
          if CaptureActive() {
            if captureSlot != key { Emit(RejectedBusy(key)); }
            return;
          }
          if phase != Idle { PreemptPlayback(); }
          pendingSlot, pendingRequest, pendingConnection := 0, 0, 0;
          StartCapture(key, connection);
          return;
        }
        if CaptureActive() && captureSlot == key { EndCapture(); }
        return;
      }
      if !(5 <= key <= 8) || !pressed { return; }
      var slot := key - 4;
      if CaptureActive() {
        Emit(RejectedBusy(slot));
        return;
      }
      if phase != Idle {
        if playback.slot == slot { return; }
        PreemptPlayback();
      }
      requestCounter := NextNonzero(requestCounter);
      pendingSlot, pendingRequest, pendingConnection := slot, requestCounter, connection;
      Emit(PlayRequested(slot, pendingRequest, connection));
    }

    /** A playback begins only for the play key that was last pressed, on the connection it was pressed on. */
    method BeginPlayback(s: Start) returns (r: BeginResult)
      requires Inv()
      modifies this
      ensures Inv() && log == old(log)
      ensures r == if !s.playback.Valid() || s.request == 0 || s.frames == 0 || s.samples == 0 then BeginInvalid
                   else if old(CaptureActive()) then BeginBusy
                   else if old(phase) != Idle then (if old(CurrentStart()) == s then BeginDuplicate else BeginBusy)
                   else if old(pendingSlot) == s.playback.slot && old(pendingRequest) == s.request
                           && old(pendingConnection) == s.playback.connection then BeginAccepted
                   else BeginInvalid
      ensures r.BeginAccepted? ==> phase == Buffering && CurrentStart() == s && nextFrame == 0 && story == [Began(s)]
      // One press, one playback.
      ensures r.BeginAccepted? ==> pendingSlot == 0
      ensures !r.BeginAccepted? ==> unchanged(this)
    {
      hide CaptureInv;
      if !s.playback.Valid() || s.request == 0 || s.frames == 0 || s.samples == 0 { return BeginInvalid; }
      if CaptureActive() { return BeginBusy; }
      if phase != Idle {
        return if playback == s.playback && activeRequest == s.request && totalFrames == s.frames && totalSamples == s.samples
               then BeginDuplicate else BeginBusy;
      }
      if pendingSlot != s.playback.slot || pendingRequest != s.request || pendingConnection != s.playback.connection { return BeginInvalid; }
      Engage(s);
      r := BeginAccepted;
    }

    method Engage(s: Start)
      modifies this`playback, this`activeRequest, this`totalFrames, this`totalSamples, this`nextFrame, this`phase, this`story
      modifies this`pendingSlot, this`pendingRequest, this`pendingConnection
      ensures phase == Buffering && CurrentStart() == s && nextFrame == 0 && story == [Began(s)]
      ensures pendingSlot == pendingRequest == pendingConnection == 0
    {
      playback, activeRequest, totalFrames, totalSamples := s.playback, s.request, s.frames, s.samples;
      pendingSlot, pendingRequest, pendingConnection := 0, 0, 0;
      nextFrame, phase, story := 0, Buffering, [Began(s)];
    }

    predicate Matches(p: Playback)
      reads this
    {
      phase != Idle && p.Valid() && playback == p
    }

    method MarkStarted(p: Playback) returns (ok: bool)
      requires Inv()
      modifies this`phase
      ensures Inv() && ok == (old(Matches(p)) && old(phase) == Buffering)
      ensures phase == if ok then Playing else old(phase)
    {
      if !Matches(p) || phase != Buffering { return false; }
      phase, ok := Playing, true;
    }

    method AcceptFrame(p: Playback, n: nat) returns (r: FrameResult)
      requires Inv()
      modifies this`nextFrame, this`story
      ensures Inv()
      ensures r == if !p.Valid() then FrameInvalid
                   else if !Matches(p) || (phase != Buffering && phase != Playing) then FrameStale
                   else if n >= totalFrames then FrameInvalid
                   else if n < old(nextFrame) then FrameDuplicate
                   else if n > old(nextFrame) then FrameOutOfOrder else FrameAccepted
      ensures story == if r.FrameAccepted? then old(story) + [Frame(n)] else old(story)
      ensures nextFrame == if r.FrameAccepted? then n + 1 else old(nextFrame)
    {
      hide CaptureInv;
      if !p.Valid() { return FrameInvalid; }
      if !Matches(p) || (phase != Buffering && phase != Playing) { return FrameStale; }
      if n >= totalFrames { return FrameInvalid; }
      if n < nextFrame { return FrameDuplicate; }
      if n > nextFrame { return FrameOutOfOrder; }
      nextFrame, story, r := nextFrame + 1, story + [Frame(n)], FrameAccepted;
    }

    method MarkTransferComplete(p: Playback, lastFrame: nat) returns (ok: bool)
      requires Inv()
      modifies this`phase, this`story
      ensures Inv()
      ensures ok == (old(Matches(p)) && (old(phase) == Buffering || old(phase) == Playing) && nextFrame == totalFrames && lastFrame + 1 == totalFrames)
      ensures if ok then phase == TransferComplete else unchanged(this)
    {
      if !Matches(p) || (phase != Buffering && phase != Playing) || nextFrame != totalFrames || lastFrame + 1 != totalFrames { return false; }
      phase, story, ok := TransferComplete, story + [Transferred], true;
    }

    method MarkDrained(p: Playback, samples: nat) returns (ok: bool)
      requires Inv()
      modifies this`phase, this`story
      ensures Inv()
      ensures ok == (old(Matches(p)) && old(phase) == TransferComplete && samples == totalSamples)
      ensures if ok then phase == FinishedPendingAck else unchanged(this)
    {
      if !Matches(p) || phase != TransferComplete || samples != totalSamples { return false; }
      var before := [Began(CurrentStart())] + FramesUpTo(totalFrames);
      assert before + [Transferred] + [Drained(samples)] == before + [Transferred, Drained(samples)];
      phase, story, ok := FinishedPendingAck, story + [Drained(samples)], true;
    }

    /** The finish may be reported again and again until acknowledged, and only after the whole story of that playback. */
    method PendingFinished() returns (found: bool, a: DeviceAction)
      requires Inv()
      ensures found == (phase == FinishedPendingAck)
      ensures found ==> a == PlaybackFinished(playback) && story == WholeStory(CurrentStart()) && CurrentStart().playback == playback
    {
      found, a := phase == FinishedPendingAck, PlaybackFinished(playback);
    }

    method AcknowledgeFinished(p: Playback) returns (ok: bool)
      requires Inv()
      modifies this`phase, this`playback, this`totalFrames, this`nextFrame, this`totalSamples, this`activeRequest, this`story
      ensures Inv() && ok == (old(Matches(p)) && old(phase) == FinishedPendingAck)
      ensures if ok then phase == Idle else unchanged(this)
    {
      if !Matches(p) || phase != FinishedPendingAck { return false; }
      ClearPlayback();
      ok := true;
    }

    method AbortPlayback(p: Playback) returns (ok: bool)
      requires Inv()
      modifies this`phase, this`playback, this`totalFrames, this`nextFrame, this`totalSamples, this`activeRequest, this`story
      ensures Inv() && ok == old(Matches(p))
      ensures if ok then phase == Idle else unchanged(this)
    {
      if !Matches(p) { return false; }
      ClearPlayback();
      ok := true;
    }

    /** Losing a connection ends what ran on it, and only that; generation 0 stands for all. */
    method Disconnect(connection: nat)
      requires Inv()
      modifies this
      ensures Inv() && |old(log)| <= |log| <= |old(log)| + 1 && log[..|old(log)|] == old(log)
      ensures CaptureActive() <==> old(CaptureActive()) && connection != 0 && old(captureConnection) != connection
      ensures CaptureActive() ==> captureConnection == old(captureConnection)
      ensures old(phase) != Idle ==>
        if connection == 0 || old(playback).connection == connection
        then phase == Idle && log == old(log) + [PlaybackPreempted(old(playback))]
        else phase == old(phase) && playback == old(playback) && log == old(log)
      ensures pendingSlot == if connection == 0 || old(pendingConnection) == connection then 0 else old(pendingSlot)
    {
      hide Alternate, CapturesOf, PlaybackInv;
      if CaptureActive() && (connection == 0 || captureConnection == connection) { EndCapture(); }
      if connection == 0 || pendingConnection == connection {
        pendingSlot, pendingRequest, pendingConnection := 0, 0, 0;
      }
      if phase != Idle && (connection == 0 || playback.connection == connection) { PreemptPlayback(); }
    }
  }
}
