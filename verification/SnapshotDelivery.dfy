/** Desired versus accepted keyboard state: at most one snapshot is pending, and it is always the latest. */
module SnapshotDelivery {
  import opened Counters
  import opened Bytes
  import opened Sets
  import opened HeldKeyboard
  import opened HidReportQueue

  datatype Pending = NothingPending | Pending(snapshot: Snapshot, cls: ReportClass, generation: nat)

  predicate HasCode(s: Snapshot, code: byte) {
    code != 0 && code in s.keycodes
  }

  /** Something held in `accepted` is no longer held in `desired`. */
  predicate RemovesUsage(accepted: Snapshot, desired: Snapshot) {
    || Has(accepted.modifier, !desired.modifier)
    || (accepted.appleFn && !desired.appleFn)
    || exists i :: 0 <= i < ROLLOVER && accepted.keycodes[i] != 0 && !HasCode(desired, accepted.keycodes[i])
  }

  predicate Blank(s: Snapshot) {
    s.modifier == 0 && !s.appleFn && All(s.keycodes, 0)
  }

  lemma BlankIsEmpty(s: Snapshot)
    ensures Blank(s) <==> s == EMPTY
  {
    if Blank(s) { assert s.keycodes == EMPTY.keycodes; }
  }

  function Classified(accepted: Snapshot, desired: Snapshot): ReportClass {
    if Blank(desired) then AllReleased else if RemovesUsage(accepted, desired) then Release else Press
  }

  /** Press-class capacity never carries a key-up: everything held before is still held after. */
  lemma PressOnlyAdds(accepted: Snapshot, desired: Snapshot)
    ensures Classified(accepted, desired) == Press ==>
      && (accepted.appleFn ==> desired.appleFn)
      && (forall code :: HasCode(accepted, code) ==> HasCode(desired, code))
      && (forall mask: byte :: Has(accepted.modifier, mask) ==> Has(desired.modifier, mask))
    ensures Classified(accepted, desired) == AllReleased <==> desired == EMPTY
  {
    BlankIsEmpty(desired);
    if Classified(accepted, desired) == Press {
      forall code | HasCode(accepted, code) ensures HasCode(desired, code) {
        var i :| 0 <= i < ROLLOVER && accepted.keycodes[i] == code;
      }
      forall mask: byte | Has(accepted.modifier, mask) ensures Has(desired.modifier, mask) {
        MaskedBits(accepted.modifier, desired.modifier, mask);
      }
    }
  }

  lemma MaskedBits(a: byte, d: byte, mask: byte)
    requires !Has(a, !d) && Has(a, mask)
    ensures Has(d, mask)
  {
  }

  // ---- what a snapshot holds down ----

  const MASKS: seq<byte> := [1, 2, 4, 8, 16, 32, 64, 128]

  datatype Usage = Key(code: byte) | Modifier(mask: byte) | Fn

  function Usages(s: Snapshot): set<Usage> {
    (set c | c in s.keycodes && c != 0 :: Key(c)) + (set m | m in MASKS && Has(s.modifier, m) :: Modifier(m))
    + (if s.appleFn then {Fn} else {})
  }

  lemma SomeMask(a: byte, d: byte)
    ensures Has(a, !d) ==> exists m :: m in MASKS && Has(a, m) && !Has(d, m)
    ensures forall m :: m in MASKS ==> !Has(0, m)
  {
    assert MASKS[0] == 1 && MASKS[1] == 2 && MASKS[2] == 4 && MASKS[3] == 8;
    assert MASKS[4] == 16 && MASKS[5] == 32 && MASKS[6] == 64 && MASKS[7] == 128;
    if Has(a, !d) {
      var m: byte := if Has(a, 1) && !Has(d, 1) then 1 else if Has(a, 2) && !Has(d, 2) then 2 else if Has(a, 4) && !Has(d, 4) then 4
        else if Has(a, 8) && !Has(d, 8) then 8 else if Has(a, 16) && !Has(d, 16) then 16 else if Has(a, 32) && !Has(d, 32) then 32
        else if Has(a, 64) && !Has(d, 64) then 64 else 128;
      assert m in MASKS && Has(a, m) && !Has(d, m);
    }
  }

  lemma ReleaseDropsSomething(accepted: Snapshot, desired: Snapshot) returns (u: Usage)
    requires RemovesUsage(accepted, desired)
    ensures u in Usages(accepted) && u !in Usages(desired)
  {
    hide Has, Or;
    SomeMask(accepted.modifier, desired.modifier);
    if accepted.appleFn && !desired.appleFn { return Fn; }
    if i: nat :| i < ROLLOVER && accepted.keycodes[i] != 0 && !HasCode(desired, accepted.keycodes[i]) {
      return Key(accepted.keycodes[i]);
    }
    var m :| m in MASKS && Has(accepted.modifier, m) && !Has(desired.modifier, m);
    u := Modifier(m);
  }

  lemma OnlyEmptyHoldsNothing(s: Snapshot)
    ensures |Usages(s)| == 0 <==> s == EMPTY
  {
    BlankIsEmpty(s);
    if s == EMPTY {
      SomeMask(0, 0);
    } else {
      AllBits(s.modifier);
      if i: nat :| i < ROLLOVER && s.keycodes[i] != 0 { assert !HasCode(EMPTY, s.keycodes[i]); }
      var u := ReleaseDropsSomething(s, EMPTY);
    }
  }

  lemma AllBits(a: byte)
    ensures Has(a, !0) <==> a != 0
  {
  }

  /** What one input source contributes. */
  function Contribution(r: KeyReport): set<Usage> {
    (set c | c in Codes(r) && c != 0 :: Key(c)) + (set m | m in MASKS && Has(r.modifier, m) :: Modifier(m))
    + (if r.appleFn then {Fn} else {})
  }

  /** Those of the given contributions that are down in `s` as a whole, and how many they are. */
  ghost function Whole(sources: set<set<Usage>>, s: Snapshot): set<set<Usage>> {
    set r | r in sources && r != {} && r <= Usages(s)
  }

  ghost function Weight(sources: set<set<Usage>>, s: Snapshot): nat {
    |Whole(sources, s)|
  }

  /** All that is down in `s` belongs to some of them. */
  ghost predicate Spelled(sources: set<set<Usage>>, s: Snapshot) {
    forall u | u in Usages(s) :: exists r :: r in sources && u in r && r <= Usages(s)
  }

  lemma WeightIsBounded(sources: set<set<Usage>>, s: Snapshot)
    ensures Weight(sources, s) <= |sources|
  {
    hide Usages;
    SubsetIsNoLarger(Whole(sources, s), sources);
  }

  lemma EmptyIsSpelled(sources: set<set<Usage>>)
    ensures Spelled(sources, EMPTY) && Weight(sources, EMPTY) == 0
  {
    OnlyEmptyHoldsNothing(EMPTY);
  }

  lemma SpelledWeighs(sources: set<set<Usage>>, s: Snapshot)
    requires Spelled(sources, s) && s != EMPTY
    ensures Weight(sources, s) > 0
  {
    OnlyEmptyHoldsNothing(s);
    hide Usages;
    var u :| u in Usages(s);
    var r :| r in sources && u in r && r <= Usages(s);
    assert r in Whole(sources, s);
  }

  /** A release that presses nothing lets go of at least one source. */
  lemma ReleasesShrink(sources: set<set<Usage>>, accepted: Snapshot, desired: Snapshot)
    requires Classified(accepted, desired) == Release && Usages(desired) <= Usages(accepted) && Spelled(sources, accepted)
    ensures Weight(sources, desired) < Weight(sources, accepted)
  {
    hide Usages, RemovesUsage;
    var u := ReleaseDropsSomething(accepted, desired);
    var r :| r in sources && u in r && r <= Usages(accepted);
    SubsetIsNoLarger(Whole(sources, desired), Whole(sources, accepted) - {r});
  }

  /** With one usage to a source, the number of sources down is the number of usages. */
  lemma SinglesAreUsages(sources: set<set<Usage>>, s: Snapshot)
    requires forall r | r in sources :: |r| == 1
    requires forall u | u in Usages(s) :: {u} in sources
    ensures Spelled(sources, s) && Weight(sources, s) == |Usages(s)|
  {
    hide Usages;
    assert forall u | u in Usages(s) :: u in {u} && {u} <= Usages(s);
    SinglesAreAsMany(Whole(sources, s), Usages(s));
  }

  lemma {:induction false} SinglesAreAsMany<T>(singles: set<set<T>>, s: set<T>)
    requires forall r | r in singles :: |r| == 1 && r <= s
    requires forall x | x in s :: {x} in singles
    ensures |singles| == |s|
  {
    if x :| x in s {
      forall r | r in singles - {{x}} ensures r <= s - {x} {
        if x in r { SubsetIsNoLarger({x}, r); OneOnly(r, x); }
      }
      SinglesAreAsMany(singles - {{x}}, s - {x});
    } else {
      assert singles == {} by { if r :| r in singles { assert false; } }
    }
  }

  lemma OneOnly<T>(r: set<T>, x: T)
    requires |r| == 1 && x in r
    ensures r == {x}
  {
    assert |r - {x}| == 0;
  }

  /** What the snapshot holds down is what the active sources contribute. */
  lemma UsagesAreContributions(reports: seq<KeyReport>, active: seq<bool>, u: Usage)
    requires |reports| == |active| && Fits(reports, active)
    ensures u in Usages(Composed(reports, active)) <==> exists i :: 0 <= i < |reports| && active[i] && u in Contribution(reports[i])
  {
    hide Has, Or, Codes, Composed;
    SnapshotIsTheUnion(reports, active);
  }

  /** Every active source contributes one of the given sets. */
  ghost predicate Drawn(sources: set<set<Usage>>, reports: seq<KeyReport>, active: seq<bool>) {
    |reports| == |active| && forall i :: 0 <= i < |reports| && active[i] ==> Contribution(reports[i]) in sources
  }

  lemma DrawnIsSpelled(sources: set<set<Usage>>, reports: seq<KeyReport>, active: seq<bool>)
    requires Drawn(sources, reports, active) && Fits(reports, active)
    ensures Spelled(sources, Composed(reports, active))
  {
    hide Usages, Contribution, Composed, Fits;
    var s := Composed(reports, active);
    forall u | u in Usages(s) ensures exists r :: r in sources && u in r && r <= Usages(s) {
      UsagesAreContributions(reports, active, u);
      var i :| 0 <= i < |reports| && active[i] && u in Contribution(reports[i]);
      forall v | v in Contribution(reports[i]) ensures v in Usages(s) { UsagesAreContributions(reports, active, v); }
      assert Contribution(reports[i]) in sources;
    }
  }

  /** The eight octets on the wire. */
  function Wire(s: Snapshot): (data: seq<byte>)
    ensures |data| == SNAPSHOT_BYTES
  {
    [s.modifier, if s.appleFn then 1 else 0] + s.keycodes
  }

  lemma WireIsExact(s: Snapshot, t: Snapshot)
    ensures Wire(s) == Wire(t) <==> s == t
    ensures All(Wire(s), 0) <==> s == EMPTY
  {
    BlankIsEmpty(s);
    var w, v := Wire(s), Wire(t);
    assert w[2..] == s.keycodes && v[2..] == t.keycodes;
    assert w[0] == s.modifier && v[0] == t.modifier;
    if Wire(s) == Wire(t) { assert w[1] == v[1]; }
    forall i | 0 <= i < ROLLOVER ensures w[i + 2] == s.keycodes[i] {}
    if All(w, 0) { assert w[1] == 0; }
  }

  class Delivery {
    var desired: Snapshot
    var accepted: Snapshot
    var counter: nat
    var pending: nat

    /** Something is pending exactly when the transport does not yet own the desired state. */
    ghost predicate Valid()
      reads this
    {
      counter <= U32_MAX && pending <= counter && (pending != 0 <==> desired != accepted) && (pending != 0 ==> pending == counter)
    }

    constructor ()
      ensures Valid() && desired == accepted == EMPTY && pending == 0
    {
      desired, accepted, counter, pending := EMPTY, EMPTY, 0, 0;
    }

    method SetDesired(s: Snapshot)
      requires Valid()
      modifies this
      ensures Valid() && desired == s && accepted == old(accepted)
      // A superseded attempt can no longer be acknowledged.
      ensures s != old(desired) ==> pending == 0 || pending != old(pending)
    {
      if s == desired { return; }
      desired := s;
      if desired == accepted {
        pending := 0;
        return;
      }
      counter := NextNonzero(counter);
      pending := counter;
    }

    function PendingSnapshot(): (p: Pending)
      reads this
      requires Valid()
      ensures p.NothingPending? <==> desired == accepted
      ensures p.Pending? ==> p.snapshot == desired && p.generation == pending
    {
      if pending == 0 then NothingPending else Pending(desired, Classified(accepted, desired), pending)
    }

    method MarkAccepted(generation: nat) returns (ok: bool)
      requires Valid()
      modifies this
      ensures Valid() && desired == old(desired)
      ensures ok == (old(pending) != 0 && generation == old(pending))
      ensures accepted == (if ok then desired else old(accepted)) && (!ok ==> pending == old(pending))
    {
      if pending == 0 || generation == 0 || generation != pending { return false; }
      accepted, pending, ok := desired, 0, true;
    }

    method Reset(s: Snapshot)
      requires Valid()
      modifies this
      ensures Valid() && desired == accepted == s && pending == 0
    {
      desired, accepted, pending := s, s, 0;
    }
  }
}
