/** Which endpoint lifetime a chord is bound to, and when an endpoint lifetime begins and ends. */
module TransportLatch {
  import opened Counters

  datatype Owner = NoOwner | Usb | Ble | Suppressed

  class Latch {
    var owner: Owner
    var epoch: nat

    constructor ()
      ensures owner == NoOwner && epoch == 0
    {
      owner, epoch := NoOwner, 0;
    }

    /** The latched endpoint lifetime is still the current one. Epoch 0 means the endpoint is not routable. */
    predicate Live(usb: nat, ble: nat)
      reads this
    {
      match owner
      case Usb => usb != 0 && epoch == usb
      case Ble => ble != 0 && epoch == ble
      case _ => true
    }

    method Observe(usbMounted: bool, usbEpoch: nat, bleConnected: bool, bleEpoch: nat) returns (lost: bool)
      modifies this
      ensures var (usb, ble) := (if usbMounted then usbEpoch else 0, if bleConnected then bleEpoch else 0);
              lost == !old(Live(usb, ble)) && Live(usb, ble)
      ensures if lost then owner == Suppressed && epoch == 0 else owner == old(owner) && epoch == old(epoch)
    {
      var usbAvailable, bleAvailable := usbMounted && usbEpoch != 0, bleConnected && bleEpoch != 0;
      var usbLost := owner == Usb && (!usbAvailable || epoch != usbEpoch);
      var bleLost := owner == Ble && (!bleAvailable || epoch != bleEpoch);
      if !usbLost && !bleLost { return false; }
      owner, epoch, lost := Suppressed, 0, true;
    }

    /** Selecting for an all-released snapshot changes nothing; the first key of a chord binds the chord. */
    method SelectForSnapshot(allReleased: bool, usbMounted: bool, usbEpoch: nat, bleConnected: bool, bleEpoch: nat) returns (o: Owner)
      modifies this
      ensures var (usb, ble) := (if usbMounted then usbEpoch else 0, if bleConnected then bleEpoch else 0);
              && Live(usb, ble)
              && (!old(Live(usb, ble)) ==> owner == Suppressed && epoch == 0)
              && (old(Live(usb, ble)) && (allReleased || old(owner) != NoOwner) ==> owner == old(owner) && epoch == old(epoch))
              && (old(Live(usb, ble)) && !allReleased && old(owner) == NoOwner ==>
                    owner == (if usb != 0 then Usb else if ble != 0 then Ble else Suppressed)
                    && epoch == (if usb != 0 then usb else ble))
      ensures o == if allReleased && owner == Suppressed then NoOwner else owner
    {
      var lost := Observe(usbMounted, usbEpoch, bleConnected, bleEpoch);
      var usbAvailable, bleAvailable := usbMounted && usbEpoch != 0, bleConnected && bleEpoch != 0;
      if allReleased {
        return if (owner == Usb && usbAvailable) || (owner == Ble && bleAvailable) then owner else NoOwner;
      }
      if owner == NoOwner {
        if usbAvailable { owner, epoch := Usb, usbEpoch; }
        else if bleAvailable { owner, epoch := Ble, bleEpoch; }
        else { owner, epoch := Suppressed, 0; }
      }
      o := owner;
    }

    method CommitSnapshot(allReleased: bool)
      modifies this
      ensures if allReleased then owner == NoOwner && epoch == 0 else owner == old(owner) && epoch == old(epoch)
    {
      if allReleased { owner, epoch := NoOwner, 0; }
    }
  }

  // ---- USB endpoint lifetimes ----

  class UsbLifetime {
    var tinyusbMounted: bool
    var monitored: bool
    var present: bool
    var freshMountRequired: bool
    var epoch: nat

    /** At some moment of the lifetime that `epoch` names the endpoint was not usable. Only a new epoch clears it. */
    ghost var spoiled: bool

    ghost predicate Valid()
      reads this
    {
      && epoch <= U32_MAX && (monitored && !present ==> freshMountRequired) && (!monitored ==> !freshMountRequired)
      && (tinyusbMounted && !freshMountRequired ==> epoch != 0 && !spoiled)
    }

    predicate Mounted()
      reads this
    {
      tinyusbMounted && (!monitored || (present && !freshMountRequired))
    }

    /** What routing relies on: a usable endpoint has been usable ever since its epoch began. */
    lemma MountedMeansUnbroken()
      requires Valid() && Mounted()
      ensures epoch != 0 && !spoiled
    {
    }

    constructor (initialEpoch: nat)
      requires initialEpoch <= U32_MAX
      ensures Valid() && !Mounted() && !monitored && !tinyusbMounted && epoch == initialEpoch
    {
      tinyusbMounted, monitored, present, freshMountRequired, epoch := false, false, true, false, initialEpoch;
      spoiled := true;
    }

    /** A mount callback always starts a new lifetime, unless the cable is known to be absent. */
    method OnMount() returns (changed: bool)
      requires Valid()
      modifies this
      ensures Valid() && changed == !(monitored && !present) && monitored == old(monitored) && present == old(present)
      ensures changed ==> Mounted() && epoch == NextNonzero(old(epoch))
      ensures !changed ==> unchanged(this)
    {
      if monitored && !present { return false; }
      tinyusbMounted, freshMountRequired := true, false;
      epoch, spoiled, changed := NextNonzero(epoch), false, true;
    }

    method OnMountWithPresence(nowPresent: bool) returns (changed: bool)
      requires Valid()
      modifies this
      ensures Valid() && monitored == old(monitored) && changed == !(monitored && !nowPresent)
      ensures changed ==> Mounted() && epoch == NextNonzero(old(epoch))
      ensures !changed ==> unchanged(this)
    {
      if monitored {
        if !nowPresent { return false; }
        present := true;
      }
      changed := OnMount();
    }

    method OnUnmount() returns (changed: bool)
      requires Valid()
      modifies this
      ensures Valid() && !Mounted() && changed == old(tinyusbMounted)
      ensures epoch == if changed then NextNonzero(old(epoch)) else old(epoch)
    {
      if !tinyusbMounted { return false; }
      tinyusbMounted, epoch, spoiled, changed := false, NextNonzero(epoch), true, true;
    }

    /** Done once, before the USB driver starts. */
    method EnableMonitor(initiallyPresent: bool)
      requires Valid() && !tinyusbMounted
      modifies this
      ensures Valid() && monitored && present == initiallyPresent && epoch == old(epoch) && !Mounted()
    {
      monitored, present, freshMountRequired := true, initiallyPresent, !initiallyPresent;
    }

    /** Losing the cable ends the lifetime for good: its return alone never revives it. */
    method ObservePresence(nowPresent: bool) returns (invalidated: bool)
      requires Valid()
      modifies this
      ensures Valid() && epoch == old(epoch) && invalidated == (old(Mounted()) && !Mounted())
      ensures monitored && !nowPresent ==> !Mounted() && (old(Mounted()) ==> spoiled)
      ensures Mounted() ==> old(Mounted())
    {
      if !monitored { return false; }
      var was := Mounted();
      present := nowPresent;
      if !nowPresent { freshMountRequired, spoiled := true, true; }
      invalidated := was && !Mounted();
    }
  }

  function Advanced(e: nat, k: nat): (n: nat)
    requires e <= U32_MAX
    ensures n <= U32_MAX
  {
    if k == 0 then e else NextNonzero(Advanced(e, k - 1))
  }

  lemma {:induction false} AdvancedInRing(e: nat, k: nat)
    requires 0 < e <= U32_MAX && k < U32_MAX
    ensures Advanced(e, k) == if e + k <= U32_MAX then e + k else e + k - U32_MAX
  {
    if k > 0 { AdvancedInRing(e, k - 1); }
  }

  /** An epoch is not reused until the 32-bit counter has gone all the way round. */
  lemma EpochsDoNotRepeat(e: nat, k: nat)
    requires 0 < e <= U32_MAX && 0 < k < U32_MAX
    ensures Advanced(e, k) != e && Advanced(e, k) != 0
  {
    AdvancedInRing(e, k);
  }
}
