/** A whole device around the slot machine: connections come and go, frames are dropped, acknowledgements are lost. */
module CodexDevice {
  import opened CodexSlot

  datatype Input =
    | Connect(generation: nat)
    | Disconnect
    | Key(key: nat, pressed: bool)
    | Begin(slot: nat, summary: nat, lease: nat, request: nat, frames: nat, samples: nat)
    | StartPlayback
    | Deliver(n: nat, drop: bool)
    | EndTransfer(last: nat)
    | Drain(samples: nat)
    | Acknowledge(p: Playback)
    | Abort(p: Playback)

  /** Everything of playback p was heard, from its beginning, in order, without a break. */
  ghost predicate HeardWhole(story: seq<Heard>, p: Playback) {
    exists s: Start :: s.playback == p && story == WholeStory(s)
  }

  /** A finish is reported only outside captures and only after the whole of its playback was heard. */
  ghost predicate FinishesAreEarned(emitted: seq<DeviceAction>, told: seq<seq<Heard>>)
    requires |told| == |emitted|
  {
    forall i :: 0 <= i < |emitted| && emitted[i].PlaybackFinished? ==>
      HeardWhole(told[i], emitted[i].playback) && |CapturesOf(emitted[..i])| % 2 == 0
  }

  class Device {
    const state: SlotState
    var connection: nat
    var active: Playback

    /** Every action that reached the host, and for each the story of the current playback as it was then. */
    ghost var emitted: seq<DeviceAction>
    ghost var told: seq<seq<Heard>>

    ghost predicate Inv()
      reads this, state
    {
      Online() && Reported()
    }

    /** What is being captured is captured on the connection there is. */
    ghost predicate Online()
      reads this`connection, state
    {
      state.CaptureActive() ==> state.captureConnection == connection != 0
    }

    ghost predicate Reported()
      reads this`emitted, this`told, state
    {
      state.Inv() && |told| == |emitted| && CapturesOf(emitted) == CapturesOf(state.log) && FinishesAreEarned(emitted, told)
    }

    constructor (state: SlotState)
      requires state.Inv() && state.log == [] && !state.CaptureActive()
      ensures Inv() && this.state == state && emitted == []
    {
      this.state, connection, active, emitted, told := state, 0, NO_PLAYBACK, [], [];
    }

    /** Hand the machine's new actions to the host. */
    ghost method Append(before: seq<DeviceAction>)
      requires state.Inv() && |told| == |emitted| && CapturesOf(emitted) == CapturesOf(before) && FinishesAreEarned(emitted, told)
      requires |before| <= |state.log| && state.log[..|before|] == before
      modifies this`emitted, this`told
      ensures Reported()
    {
      hide CapturesOf, SlotState.PlaybackInv, HeardWhole, Alternate;
      var new' := state.log[|before|..];
      assert state.log == before + new';
      CapturesConcat(before, new');
      CapturesConcat(emitted, new');
      var grown := emitted + new';
      assert forall i :: 0 <= i < |emitted| ==> grown[..i] == emitted[..i] && grown[i] == emitted[i];
      assert forall i :: 0 <= i < |new'| ==> new'[i] in state.log;
      emitted, told := grown, told + seq(|new'|, _ => []);
    }

    method ConnectTo(generation: nat)
      requires Inv()
      modifies this, state
      ensures Inv() && connection == generation
    {
      hide FinishesAreEarned, SlotState.Inv, CapturesOf;
      ghost var before := state.log;
      if connection != 0 && connection != generation {
        state.Disconnect(connection);
        Append(before);
        active := NO_PLAYBACK;
      }
      connection := generation;
    }

    method Drop()
      requires Inv()
      modifies this, state
      ensures Inv() && connection == 0 && !state.CaptureActive()
    {
      hide FinishesAreEarned, SlotState.Inv, CapturesOf;
      ghost var before := state.log;
      state.Disconnect(connection);
      Append(before);
      connection, active := 0, NO_PLAYBACK;
    }

    /** Letting go of the key that is being talked on always ends the capture: there is a connection to see it. */
    method Press(key: nat, pressed: bool)
      requires Inv()
      modifies this, state
      ensures Inv()
      ensures old(state.CaptureActive()) ==> (state.CaptureActive() <==> pressed || key != old(state.captureSlot))
    {
      hide FinishesAreEarned, SlotState.Inv, CapturesOf;
      ghost var before := state.log;
      state.HandleInput(key, pressed, connection);
      Append(before);
    }

    method BeginPlayback(slot: nat, summary: nat, lease: nat, request: nat, frames: nat, samples: nat) returns (r: BeginResult)
      requires Inv()
      modifies this`active, state
      ensures Inv() && (r.BeginAccepted? || r.BeginDuplicate? ==> active == state.playback == Playback(slot, summary, lease, connection))
    {
      hide FinishesAreEarned, CapturesOf, Alternate;
      var p := Playback(slot, summary, lease, connection);
      r := state.BeginPlayback(Start(p, request, frames, samples));
      if r.BeginAccepted? || r.BeginDuplicate? { active := p; }
    }

    /** The finish goes out once, at the very moment the last sample was heard. */
    method DrainAll(samples: nat) returns (ok: bool)
      requires Inv()
      modifies this`emitted, this`told, state
      ensures Inv() && (ok ==> emitted == old(emitted) + [PlaybackFinished(state.playback)])
      ensures !ok ==> emitted == old(emitted)
    {
      hide CapturesOf, Alternate;
      ok := state.MarkDrained(active, samples);
      if !ok { return; }
      var found, a := state.PendingFinished();
      assert HeardWhole(state.story, state.playback);
      if found { Report(a); }
    }

    ghost method Report(a: DeviceAction)
      requires Inv() && a.PlaybackFinished? && HeardWhole(state.story, a.playback) && state.phase != Idle
      modifies this`emitted, this`told
      ensures Inv() && emitted == old(emitted) + [a]
    {
      hide HeardWhole, Alternate;
      CapturesAppend(emitted, a);
      var grown := emitted + [a];
      assert forall i :: 0 <= i < |emitted| ==> grown[..i] == emitted[..i] && grown[i] == emitted[i];
      assert grown[..|emitted|] == emitted;
      emitted, told := grown, told + [state.story];
    }
  }

  /** Any inputs, frames, losses and connections in any order. */
  method Run(d: Device, inputs: seq<Input>)
    requires d.Inv()
    modifies d, d.state
    ensures d.Inv() && Alternate(CapturesOf(d.emitted)) && FinishesAreEarned(d.emitted, d.told)
    ensures !(d.state.CaptureActive() && d.state.phase != Idle)
    // A running capture is always one of the current connection.
    ensures d.state.CaptureActive() ==> d.state.captureConnection == d.connection != 0
  {
    hide FinishesAreEarned, CapturesOf, Alternate;
    for k := 0 to |inputs|
      invariant d.Inv()
    {
      match inputs[k] {
        case Connect(generation) => d.ConnectTo(generation);
        case Disconnect => d.Drop();
        case Key(key, pressed) => d.Press(key, pressed);
        case Begin(slot, summary, lease, request, frames, samples) =>
          var _ := d.BeginPlayback(slot, summary, lease, request, frames, samples);
        case StartPlayback => var _ := d.state.MarkStarted(d.active);
        case Deliver(n, drop) =>
          if !drop { var _ := d.state.AcceptFrame(d.active, n); }
        case EndTransfer(last) => var _ := d.state.MarkTransferComplete(d.active, last);
        case Drain(samples) => var _ := d.DrainAll(samples);
        case Acknowledge(p) => var _ := d.state.AcknowledgeFinished(p);
        case Abort(p) => var _ := d.state.AbortPlayback(p);
      }
    }
  }
}
