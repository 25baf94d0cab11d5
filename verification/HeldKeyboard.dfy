/** The logical keyboard state as the union of what each physical source holds. */
module HeldKeyboard {
  import opened Bytes

  const SOURCES: nat := 11
  const ROLLOVER: nat := 6

  type SixCodes = c: seq<byte> | |c| == ROLLOVER witness Fill(ROLLOVER, 0)

  datatype KeyReport = KeyReport(valid: bool, appleFn: bool, modifier: byte, keycode: byte, keycodes: SixCodes)

  datatype Snapshot = Snapshot(modifier: byte, appleFn: bool, keycodes: SixCodes)

  const EMPTY := Snapshot(0, false, Fill(ROLLOVER, 0))
  const NO_REPORT := KeyReport(false, false, 0, 0, Fill(ROLLOVER, 0))

  datatype Status = Applied | NoChange | InvalidSource | InvalidReport | Rollover

  datatype Update = Update(status: Status, snapshot: Snapshot, stateChanged: bool, reportChanged: bool, becameEmpty: bool) {
    predicate Accepted() {
      status.Applied? || status.NoChange?
    }
  }

  predicate Usable(r: KeyReport) {
    r.valid && (r.modifier != 0 || r.appleFn || r.keycode != 0 || exists i :: 0 <= i < ROLLOVER && r.keycodes[i] != 0)
  }

  /** The codes a report contributes; the single-key field only counts when the list is empty. */
  function Codes(r: KeyReport): seq<byte> {
    if All(r.keycodes, 0) then [r.keycode] else r.keycodes
  }

  function Insert(keys: seq<byte>, code: byte): seq<byte> {
    if code == 0 || code in keys then keys else keys + [code]
  }

  function InsertAll(keys: seq<byte>, codes: seq<byte>): seq<byte> {
    if codes == [] then keys else Insert(InsertAll(keys, codes[..|codes| - 1]), codes[|codes| - 1])
  }

  /** What the first `n` sources hold, in order of source and then of code, without repeats. */
  function Keys(reports: seq<KeyReport>, active: seq<bool>, n: nat): seq<byte>
    requires n <= |reports| == |active|
  {
    if n == 0 then []
    else if active[n - 1] then InsertAll(Keys(reports, active, n - 1), Codes(reports[n - 1]))
    else Keys(reports, active, n - 1)
  }

  function Or(a: byte, b: byte): byte {
    a | b
  }

  /** Some bit of `mask` is set. */
  predicate Has(a: byte, mask: byte) {
    a & mask != 0
  }

  function Modifiers(reports: seq<KeyReport>, active: seq<bool>, n: nat): byte
    requires n <= |reports| == |active|
  {
    if n == 0 then 0
    else if active[n - 1] then Or(Modifiers(reports, active, n - 1), reports[n - 1].modifier)
    else Modifiers(reports, active, n - 1)
  }

  function AnyFn(reports: seq<KeyReport>, active: seq<bool>, n: nat): bool
    requires n <= |reports| == |active|
  {
    n > 0 && (AnyFn(reports, active, n - 1) || (active[n - 1] && reports[n - 1].appleFn))
  }

  function Padded(keys: seq<byte>): (c: SixCodes)
    requires |keys| <= ROLLOVER
  {
    keys + Fill(ROLLOVER - |keys|, 0)
  }

  predicate Fits(reports: seq<KeyReport>, active: seq<bool>)
    requires |reports| == |active|
  {
    |Keys(reports, active, |reports|)| <= ROLLOVER
  }

  function Composed(reports: seq<KeyReport>, active: seq<bool>): Snapshot
    requires |reports| == |active| && Fits(reports, active)
  {
    var n := |reports|;
    Snapshot(Modifiers(reports, active, n), AnyFn(reports, active, n), Padded(Keys(reports, active, n)))
  }

  // ---- what the composition means ----

  predicate Distinct(keys: seq<byte>) {
    (forall i :: 0 <= i < |keys| ==> keys[i] != 0) && (forall i, j :: 0 <= i < j < |keys| ==> keys[i] != keys[j])
  }

  lemma {:induction false} InsertAllMeaning(keys: seq<byte>, codes: seq<byte>)
    requires Distinct(keys)
    ensures var all := InsertAll(keys, codes);
            Distinct(all) && |keys| <= |all| && (forall b :: b in all <==> b in keys || (b != 0 && b in codes))
  {
    if codes != [] {
      var front, last := codes[..|codes| - 1], codes[|codes| - 1];
      InsertAllMeaning(keys, front);
      assert forall b :: b in codes <==> b in front || b == last;
    }
  }

  /** Some active source among the first `n` holds `code`. */
  ghost predicate Holds(reports: seq<KeyReport>, active: seq<bool>, n: nat, code: byte)
    requires n <= |reports| == |active|
  {
    exists i :: 0 <= i < n && active[i] && code in Codes(reports[i])
  }

  lemma {:induction false} KeysMeaning(reports: seq<KeyReport>, active: seq<bool>, n: nat)
    requires n <= |reports| == |active|
    ensures Distinct(Keys(reports, active, n))
    ensures forall b :: b in Keys(reports, active, n) <==> b != 0 && Holds(reports, active, n, b)
  {
    if n > 0 {
      KeysMeaning(reports, active, n - 1);
      if active[n - 1] { InsertAllMeaning(Keys(reports, active, n - 1), Codes(reports[n - 1])); }
      forall b ensures Holds(reports, active, n, b) <==>
                       Holds(reports, active, n - 1, b) || (active[n - 1] && b in Codes(reports[n - 1]))
      {
        if Holds(reports, active, n, b) {
          var i :| 0 <= i < n && active[i] && b in Codes(reports[i]);
          if i < n - 1 { assert Holds(reports, active, n - 1, b); }
        }
        if Holds(reports, active, n - 1, b) {
          var i :| 0 <= i < n - 1 && active[i] && b in Codes(reports[i]);
          assert active[i] && b in Codes(reports[i]);
        }
      }
    }
  }

  ghost predicate HoldsBits(reports: seq<KeyReport>, active: seq<bool>, n: nat, mask: byte)
    requires n <= |reports| == |active|
  {
    exists i :: 0 <= i < n && active[i] && Has(reports[i].modifier, mask)
  }

  lemma OrBits(a: byte, b: byte, mask: byte)
    ensures Has(Or(a, b), mask) <==> Has(a, mask) || Has(b, mask)
    ensures !Has(0, mask)
  {
  }

  lemma {:induction false} ModifiersMeaning(reports: seq<KeyReport>, active: seq<bool>, n: nat, mask: byte)
    requires n <= |reports| == |active|
    ensures Has(Modifiers(reports, active, n), mask) <==> HoldsBits(reports, active, n, mask)
  {
    hide Or, Has;
    if n == 0 {
      OrBits(0, 0, mask);
    } else {
      ModifiersMeaning(reports, active, n - 1, mask);
      if active[n - 1] { OrBits(Modifiers(reports, active, n - 1), reports[n - 1].modifier, mask); }
      if HoldsBits(reports, active, n - 1, mask) {
        var i :| 0 <= i < n - 1 && active[i] && Has(reports[i].modifier, mask);
        assert active[i] && Has(reports[i].modifier, mask);
      }
    }
  }

  lemma {:induction false} FnMeaning(reports: seq<KeyReport>, active: seq<bool>, n: nat)
    requires n <= |reports| == |active|
    ensures AnyFn(reports, active, n) <==> exists i :: 0 <= i < n && active[i] && reports[i].appleFn
  {
    if n > 0 { FnMeaning(reports, active, n - 1); }
  }

  /** The wire snapshot holds a key, a modifier or Fn exactly if some active source does. */
  lemma SnapshotIsTheUnion(reports: seq<KeyReport>, active: seq<bool>)
    requires |reports| == |active| && Fits(reports, active)
    ensures var s := Composed(reports, active);
            && (forall b | b != 0 :: b in s.keycodes <==> Holds(reports, active, |reports|, b))
            && (forall mask: byte :: Has(s.modifier, mask) <==> HoldsBits(reports, active, |reports|, mask))
            && (s.appleFn <==> exists i :: 0 <= i < |reports| && active[i] && reports[i].appleFn)
  {
    hide Or, Has;
    KeysMeaning(reports, active, |reports|);
    FnMeaning(reports, active, |reports|);
    var keys := Keys(reports, active, |reports|);
    assert forall b | b != 0 :: b in Padded(keys) <==> b in keys;
    forall mask: byte ensures Has(Composed(reports, active).modifier, mask) <==> HoldsBits(reports, active, |reports|, mask) {
      ModifiersMeaning(reports, active, |reports|, mask);
    }
  }

  lemma {:induction false} DistinctIsNoLonger(s: seq<byte>, t: seq<byte>)
    requires Distinct(s) && forall b :: b in s ==> b in t
    ensures |s| <= |t|
    decreases |s|
  {
    if s != [] {
      var last, front := s[|s| - 1], s[..|s| - 1];
      assert last in t;
      var i :| 0 <= i < |t| && t[i] == last;
      var rest := t[..i] + t[i + 1..];
      forall b | b in front ensures b in rest {
        assert b in t && b != last;
      }
      DistinctIsNoLonger(front, rest);
    }
  }

  /** Letting go of a source never overflows, and costs no key that another active source still holds. */
  lemma ReleaseFits(reports: seq<KeyReport>, active: seq<bool>, i: nat)
    requires i < |reports| == |active| && Fits(reports, active)
    ensures Fits(reports[i := NO_REPORT], active[i := false])
  {
    var (r, a, n) := (reports[i := NO_REPORT], active[i := false], |reports|);
    KeysMeaning(reports, active, n);
    KeysMeaning(r, a, n);
    forall b | b in Keys(r, a, n) ensures b in Keys(reports, active, n) {
      var j :| 0 <= j < n && a[j] && b in Codes(r[j]);
      assert active[j] && b in Codes(reports[j]);
    }
    DistinctIsNoLonger(Keys(r, a, n), Keys(reports, active, n));
  }

  function CountActive(active: seq<bool>): nat {
    if active == [] then 0 else CountActive(active[..|active| - 1]) + (if active[|active| - 1] then 1 else 0)
  }

  lemma {:induction false} CountUpdate(active: seq<bool>, i: nat, b: bool)
    requires i < |active|
    ensures CountActive(active[i := b]) == CountActive(active) - (if active[i] then 1 else 0) + (if b then 1 else 0)
  {
    var n := |active| - 1;
    if i < n {
      CountUpdate(active[..n], i, b);
      assert active[i := b][..n] == active[..n][i := b];
    } else {
      assert active[i := b][..n] == active[..n];
    }
  }

  lemma {:induction false} NoneActive(reports: seq<KeyReport>, active: seq<bool>, n: nat)
    requires n <= |reports| == |active| && forall i :: 0 <= i < n ==> !active[i]
    ensures Keys(reports, active, n) == [] && Modifiers(reports, active, n) == 0 && !AnyFn(reports, active, n)
  {
    if n > 0 { NoneActive(reports, active, n - 1); }
  }

  lemma {:induction false} CountZero(active: seq<bool>)
    ensures CountActive(active) == 0 <==> forall i :: 0 <= i < |active| ==> !active[i]
  {
    if active != [] { CountZero(active[..|active| - 1]); }
  }

  class Held {
    var reports: seq<KeyReport>
    var active: seq<bool>
    var current: Snapshot
    var activeCount: nat

    ghost predicate Valid()
      reads this
    {
      && |reports| == |active| == SOURCES && Fits(reports, active) && current == Composed(reports, active)
      && activeCount == CountActive(active)
    }

    /** The edge changes what is held. */
    predicate Applies(down: bool, source: nat, report: KeyReport)
      reads this
      requires Valid()
    {
      && source < SOURCES && active[source] != down
      && (down ==> Usable(report) && Fits(reports[source := report], active[source := true]))
    }

    constructor ()
      ensures Valid() && current == EMPTY && (forall i :: 0 <= i < SOURCES ==> !active[i])
    {
      reports, active := seq(SOURCES, _ => NO_REPORT), seq(SOURCES, _ => false);
      current, activeCount := EMPTY, 0;
      new;
      NoneActive(reports, active, SOURCES);
      CountZero(active);
    }

    /** Add one report's codes, giving up as soon as a seventh key would be needed. */
    method AddCodes(base: seq<byte>, codes: seq<byte>) returns (ok: bool, keys: seq<byte>)
      requires Distinct(base) && |base| <= ROLLOVER
      ensures ok == (|InsertAll(base, codes)| <= ROLLOVER)
      ensures ok ==> keys == InsertAll(base, codes)
    {
      keys := base;
      for c := 0 to |codes|
        invariant keys == InsertAll(base, codes[..c]) && |keys| <= ROLLOVER
      {
        assert codes[..c + 1][..c] == codes[..c];
        keys := Insert(keys, codes[c]);
        if |keys| > ROLLOVER {
          InsertedPrefix(base, codes, c + 1);
          return false, [];
        }
      }
      assert codes[..|codes|] == codes;
      ok := true;
    }

    method Compose(rs: seq<KeyReport>, on: seq<bool>) returns (ok: bool, s: Snapshot)
      requires |rs| == |on| == SOURCES
      ensures ok == Fits(rs, on)
      ensures ok ==> s == Composed(rs, on)
    {
      hide Codes, InsertAll, Distinct;
      var keys: seq<byte>, modifier: byte, fn := [], 0, false;
      for i := 0 to SOURCES
        invariant keys == Keys(rs, on, i) && |keys| <= ROLLOVER
        invariant modifier == Modifiers(rs, on, i) && fn == AnyFn(rs, on, i)
      {
        if on[i] {
          modifier, fn := Or(modifier, rs[i].modifier), fn || rs[i].appleFn;
          KeysMeaning(rs, on, i);
          ok, keys := AddCodes(keys, Codes(rs[i]));
          if !ok {
            KeysGrow(rs, on, i + 1, SOURCES);
            return false, EMPTY;
          }
        }
      }
      ok, s := true, Snapshot(modifier, fn, Padded(keys));
    }

    method Press(source: nat, report: KeyReport) returns (u: Update)
      requires Valid()
      modifies this
      ensures Valid()
      ensures u.status == (if source >= SOURCES then InvalidSource else if !Usable(report) then InvalidReport
                           else if old(active[source]) then NoChange
                           else if !Fits(old(reports)[source := report], old(active)[source := true]) then Rollover else Applied)
      ensures !u.status.Applied? ==> unchanged(this)
      ensures u.status.Applied? ==> reports == old(reports)[source := report] && active == old(active)[source := true]
      ensures u.snapshot == current && u.stateChanged == u.status.Applied? && u.reportChanged == (current != old(current))
    {
      u := Update(NoChange, current, false, false, false);
      if source >= SOURCES { return u.(status := InvalidSource); }
      if !Usable(report) { return u.(status := InvalidReport); }
      if active[source] { return u; }
      var ok, candidate := Compose(reports[source := report], active[source := true]);
      if !ok { return u.(status := Rollover); }
      CountUpdate(active, source, true);
      var previous := current;
      reports, active := reports[source := report], active[source := true];
      current, activeCount := candidate, activeCount + 1;
      u := Update(Applied, current, true, current != previous, false);
    }

    method Release(source: nat) returns (u: Update)
      requires Valid()
      modifies this
      ensures Valid()
      ensures u.status == (if source >= SOURCES then InvalidSource else if !old(active[source]) then NoChange else Applied)
      ensures !u.status.Applied? ==> unchanged(this)
      ensures u.status.Applied? ==> reports == old(reports)[source := NO_REPORT] && active == old(active)[source := false]
      ensures u.snapshot == current && u.stateChanged == u.status.Applied? && u.reportChanged == (current != old(current))
      ensures u.status.Applied? ==> (u.becameEmpty <==> current == EMPTY)
    {
      u := Update(NoChange, current, false, false, false);
      if source >= SOURCES { return u.(status := InvalidSource); }
      if !active[source] { return u; }
      ReleaseFits(reports, active, source);
      var _, candidate := Compose(reports[source := NO_REPORT], active[source := false]);
      CountUpdate(active, source, false);
      var previous := current;
      reports, active := reports[source := NO_REPORT], active[source := false];
      current, activeCount := candidate, activeCount - 1;
      u := Update(Applied, current, true, current != previous, current == EMPTY);
    }

    method Clear() returns (u: Update)
      requires Valid()
      modifies this
      ensures Valid() && current == EMPTY && (forall i :: 0 <= i < SOURCES ==> !active[i])
      ensures u.status == if old(activeCount) == 0 then NoChange else Applied
      ensures u.snapshot == EMPTY && u.reportChanged == (old(current) != EMPTY)
    {
      CountZero(active);
      if activeCount == 0 {
        NoneActive(reports, active, SOURCES);
        return Update(NoChange, current, false, false, false);
      }
      var previous := current;
      reports, active := seq(SOURCES, _ => NO_REPORT), seq(SOURCES, _ => false);
      current, activeCount := EMPTY, 0;
      NoneActive(reports, active, SOURCES);
      CountZero(active);
      u := Update(Applied, current, true, current != previous, true);
    }
  }

  lemma {:induction false} InsertedPrefix(keys: seq<byte>, codes: seq<byte>, n: nat)
    requires Distinct(keys) && n <= |codes|
    ensures |InsertAll(keys, codes[..n])| <= |InsertAll(keys, codes)|
    decreases |codes| - n
  {
    if n < |codes| {
      assert codes[..n + 1][..n] == codes[..n];
      InsertedPrefix(keys, codes, n + 1);
    } else {
      assert codes[..n] == codes;
    }
  }

  lemma {:induction false} KeysGrow(reports: seq<KeyReport>, active: seq<bool>, m: nat, n: nat)
    requires m <= n <= |reports| == |active|
    ensures |Keys(reports, active, m)| <= |Keys(reports, active, n)|
  {
    if m < n {
      KeysGrow(reports, active, m, n - 1);
      KeysMeaning(reports, active, n - 1);
      InsertAllMeaning(Keys(reports, active, n - 1), Codes(reports[n - 1]));
    }
  }
}
