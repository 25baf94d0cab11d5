/** An app hotkey as press and release transitions that a transport may refuse: releases always match their press. */
module BridgedHotkey {
  import opened Counters

  datatype KeyState = KeyState(pressed: bool, hotkey: string)

  datatype Transition = NoTransition | Transition(pressed: bool, hotkey: string, generation: nat)

  const UP := KeyState(false, "")

  /** Press, release, press, release, each release naming the hotkey of the press before it. */
  predicate Alternates(sent: seq<KeyState>) {
    && (forall i :: 0 <= i < |sent| ==> sent[i].pressed == (i % 2 == 0))
    && (forall i, j :: 0 <= i < |sent| && j == i + 1 && j < |sent| && j % 2 == 1 ==> sent[j].hotkey == sent[i].hotkey)
  }

  class Delivery {
    var desired: KeyState
    var accepted: KeyState
    var generation: nat
    /** Transitions the transport has taken since the endpoint's baseline was established. */
    ghost var sent: seq<KeyState>

    ghost predicate Valid()
      reads this
    {
      && (!desired.pressed ==> desired.hotkey == "") && (!accepted.pressed ==> accepted.hotkey == "")
      && Alternates(sent) && accepted.pressed == (|sent| % 2 == 1)
      && (accepted.pressed ==> accepted.hotkey == sent[|sent| - 1].hotkey)
    }

    constructor ()
      ensures Valid() && desired == accepted == UP && sent == []
    {
      desired, accepted, generation, sent := UP, UP, 1, [];
    }

    method SetDesired(pressed: bool, hotkey: string) returns (changed: bool)
      requires Valid()
      modifies this
      ensures Valid() && accepted == old(accepted) && sent == old(sent)
      ensures desired == KeyState(pressed, if pressed then hotkey else "") && changed == (desired != old(desired))
      ensures generation == if changed then NextNonzero(old(generation)) else old(generation)
    {
      var next := KeyState(pressed, if pressed then hotkey else "");
      if desired == next { return false; }
      desired, generation, changed := next, NextNonzero(generation), true;
    }

    /** A changed hotkey is a release of the old one first; it is never rewritten in place. */
    function PendingTransition(): (t: Transition)
      reads this
      requires Valid()
      ensures t.NoTransition? <==> accepted == desired
      ensures t.Transition? && !t.pressed ==> accepted.pressed && t.hotkey == accepted.hotkey
      ensures t.Transition? && t.pressed ==> !accepted.pressed && t.hotkey == desired.hotkey
    {
      if accepted.pressed && (!desired.pressed || accepted.hotkey != desired.hotkey) then
        Transition(false, accepted.hotkey, generation)
      else if !accepted.pressed && desired.pressed then Transition(true, desired.hotkey, generation)
      else NoTransition
    }

    method MarkAccepted(t: Transition) returns (ok: bool)
      requires Valid()
      modifies this
      ensures Valid() && desired == old(desired) && generation == old(generation)
      ensures ok == (t.Transition? && t == old(PendingTransition()))
      ensures accepted == if ok then KeyState(t.pressed, if t.pressed then t.hotkey else "") else old(accepted)
      ensures sent == if ok then old(sent) + [KeyState(t.pressed, t.hotkey)] else old(sent)
      // At most two acceptances reach the desired state, and each one counts.
      ensures ok ==> Owed(accepted, desired) == Owed(old(accepted), desired) - 1
    {
      if t.NoTransition? || t.generation != generation { return false; }
      var current := PendingTransition();
      if current.NoTransition? || current.pressed != t.pressed || current.hotkey != t.hotkey { return false; }
      accepted := KeyState(t.pressed, if t.pressed then t.hotkey else "");
      sent, ok := sent + [KeyState(t.pressed, t.hotkey)], true;
    }

    /** A new endpoint knows nothing: what is held now becomes its baseline, and nothing is replayed. */
    method ResetToDesired()
      requires Valid()
      modifies this
      ensures Valid() && desired == old(desired) && accepted == desired && PendingTransition().NoTransition?
      ensures generation == NextNonzero(old(generation))
    {
      accepted, generation := desired, NextNonzero(generation);
      sent := if desired.pressed then [desired] else [];
    }

    method Reset()
      requires Valid()
      modifies this
      ensures Valid() && desired == accepted == UP && sent == [] && generation == NextNonzero(old(generation))
    {
      desired, accepted, generation, sent := UP, UP, NextNonzero(generation), [];
    }
  }

  /** How many acceptances are still owed. */
  function Owed(accepted: KeyState, desired: KeyState): nat {
    if accepted == desired then 0 else if accepted.pressed && desired.pressed then 2 else 1
  }
}
