/** Which of two validated banks is current. */
module BankSelection {
  import opened Options
  import opened FlashStorage
  import opened BankFormat

  datatype Selection = Selection(bankA: Option<Snapshot>, bankB: Option<Snapshot>, splitBrain: bool, active: Option<Snapshot>) {
    function Of(id: BankId): Option<Snapshot> {
      if id.A? then bankA else bankB
    }
  }

  const NOTHING_SELECTED := Selection(None, None, false, None)

  function SelectBanks(a: Option<Snapshot>, b: Option<Snapshot>): Selection {
    if a.None? && b.None? then Selection(a, b, false, None)
    else if a.Some? && b.None? then Selection(a, b, false, a)
    else if a.None? && b.Some? then Selection(a, b, false, b)
    else if a.value.generation > b.value.generation then
      if a.value.generation - b.value.generation != 1 then Selection(a, b, true, None) else Selection(a, b, false, a)
    else if b.value.generation > a.value.generation then
      if b.value.generation - a.value.generation != 1 then Selection(a, b, true, None) else Selection(a, b, false, b)
    else if a.value.bundleSha == b.value.bundleSha then Selection(a, b, false, a)
    else Selection(a, b, true, None)
  }

  /** Two valid banks are never more or less than one generation apart. */
  predicate NoSplit(a: Option<Snapshot>, b: Option<Snapshot>) {
    a.Some? && b.Some? ==>
      a.value.generation == b.value.generation + 1 || b.value.generation == a.value.generation + 1
  }

  function Generation(s: Option<Snapshot>): nat {
    if s.Some? then s.value.generation else 0
  }

  /** One commit: the generation goes up by exactly one and the new record names the old one as its base. */
  predicate IsNext(before: Option<Snapshot>, after: Option<Snapshot>) {
    after.Some? && after.value.generation == Generation(before) + 1 && after.value.baseGeneration == Generation(before)
  }

  ghost predicate IsNewest(s: Snapshot, a: Option<Snapshot>, b: Option<Snapshot>) {
    && (a == Some(s) || b == Some(s))
    && (a.Some? ==> a.value.generation <= s.generation)
    && (b.Some? ==> b.value.generation <= s.generation)
  }

  /** Fails closed exactly on an unexplainable pair; otherwise the newest valid bank is active, and none only if none is valid. */
  lemma SelectionIsExact(a: Option<Snapshot>, b: Option<Snapshot>)
    ensures var s := SelectBanks(a, b);
            && (s.splitBrain <==> a.Some? && b.Some? && !NoSplit(a, b)
                                  && (a.value.generation != b.value.generation || a.value.bundleSha != b.value.bundleSha))
            && (s.active.None? <==> s.splitBrain || (a.None? && b.None?))
            && (s.active.Some? ==> IsNewest(s.active.value, a, b))
  {
  }

  /** The banks' order does not matter, except that equal twins resolve to the first. */
  lemma SelectionIsSymmetric(a: Option<Snapshot>, b: Option<Snapshot>)
    requires !(a.Some? && b.Some? && a.value.generation == b.value.generation)
    ensures SelectBanks(a, b).active == SelectBanks(b, a).active && SelectBanks(a, b).splitBrain == SelectBanks(b, a).splitBrain
  {
  }

  function Kept(s: Option<Snapshot>, authentic: bool): Option<Snapshot> {
    if authentic then s else None
  }

  /** Selection for readers: only the manifests that the choice depends on are authenticated. */
  function LazySelection(a: Option<Snapshot>, b: Option<Snapshot>, authenticA: bool, authenticB: bool): Selection {
    var c := SelectBanks(a, b);
    if c.splitBrain then SelectBanks(Kept(a, authenticA), Kept(b, authenticB))
    else if c.active.None? then c
    else if c.active == a then
      if authenticA then SelectBanks(a, None) else SelectBanks(None, Kept(b, authenticB))
    else if authenticB then SelectBanks(None, b)
    else SelectBanks(Kept(a, authenticA), None)
  }

  /** Leaving a manifest unread never changes what is selected. */
  lemma LazySelectionIsSelection(a: Option<Snapshot>, b: Option<Snapshot>, authenticA: bool, authenticB: bool)
    ensures var (l, s) := (LazySelection(a, b, authenticA, authenticB), SelectBanks(Kept(a, authenticA), Kept(b, authenticB)));
            l.active == s.active && l.splitBrain == s.splitBrain
  {
  }
}
