/** CRC-32/ISO-HDLC (section 8 of RFC 1952), one bit at a time as the firmware computes it. */
module Crc32 {
  import opened Bytes

  const POLYNOMIAL: bv32 := 0xEDB8_8320

  function BitStep(s: bv32): bv32 {
    (s >> 1) ^ (if s & 1 != 0 then POLYNOMIAL else 0)
  }

  function BitSteps(s: bv32, n: nat): bv32 {
    if n == 0 then s else BitStep(BitSteps(s, n - 1))
  }

  function ByteStep(s: bv32, b: byte): bv32 {
    BitSteps(s ^ (b as bv32), 8)
  }

  /** Left fold of a register over a message; `Absorb` is the fold of `ByteStep`. */
  function Fold<S>(step: (S, byte) -> S, s: S, data: seq<byte>): S {
    if data == [] then s else step(Fold(step, s, data[..|data| - 1]), data[|data| - 1])
  }

  /** The register after absorbing `data` from register value `s`. */
  function Absorb(s: bv32, data: seq<byte>): bv32 {
    Fold(ByteStep, s, data)
  }

  function Crc(data: seq<byte>): bv32 {
    Absorb(0xFFFF_FFFF, data) ^ 0xFFFF_FFFF
  }

  /** crc32_update: continue a register over one more chunk, octet by octet and bit by bit. */
  method Update(s: bv32, data: seq<byte>) returns (r: bv32)
    ensures r == Absorb(s, data)
  {
    r := s;
    for i := 0 to |data|
      invariant r == Absorb(s, data[..i])
    {
      r := UpdateOctet(r, data[i]);
      assert data[..i + 1][..i] == data[..i];
    }
    assert data[..|data|] == data;
  }

  method UpdateOctet(s: bv32, b: byte) returns (r: bv32)
    ensures r == ByteStep(s, b)
  {
    r := s ^ (b as bv32);
    for bit := 0 to 8
      invariant r == BitSteps(s ^ (b as bv32), bit)
    {
      r := (r >> 1) ^ (if r & 1 != 0 then POLYNOMIAL else 0);
    }
  }

  method Compute(data: seq<byte>) returns (crc: bv32)
    ensures crc == Crc(data)
  {
    crc := Update(0xFFFF_FFFF, data);
    crc := crc ^ 0xFFFF_FFFF;
  }

  lemma {:induction false} FoldConcat<S>(step: (S, byte) -> S, s: S, a: seq<byte>, b: seq<byte>)
    ensures Fold(step, s, a + b) == Fold(step, Fold(step, s, a), b)
    decreases |b|
  {
    if b == [] {
      assert a + b == a;
    } else {
      FoldConcat(step, s, a, b[..|b| - 1]);
      assert (a + b)[..|a + b| - 1] == a + b[..|b| - 1];
    }
  }

  ghost predicate StateInjective<S(!new)>(step: (S, byte) -> S) {
    forall s, t, b :: step(s, b) == step(t, b) ==> s == t
  }

  ghost predicate OctetInjective<S(!new)>(step: (S, byte) -> S) {
    forall s, b, c :: step(s, b) == step(s, c) ==> b == c
  }

  /** Distinct registers stay distinct over equal input. */
  lemma {:induction false} FoldInjective<S(!new)>(step: (S, byte) -> S, s: S, t: S, data: seq<byte>)
    requires StateInjective(step)
    requires Fold(step, s, data) == Fold(step, t, data)
    ensures s == t
    decreases |data|
  {
    if data != [] {
      var front, b := data[..|data| - 1], data[|data| - 1];
      assert step(Fold(step, s, front), b) == step(Fold(step, t, front), b);
      FoldInjective(step, s, t, front);
    }
  }

  lemma FoldDetects<S(!new)>(step: (S, byte) -> S, init: S, data: seq<byte>, i: nat, b: byte)
    requires StateInjective(step) && OctetInjective(step)
    requires i < |data| && b != data[i]
    ensures Fold(step, init, data[i := b]) != Fold(step, init, data)
  {
    var s, tail := Fold(step, init, data[..i]), data[i + 1..];
    assert data == data[..i] + [data[i]] + tail && data[i := b] == data[..i] + [b] + tail;
    FoldConcat(step, init, data[..i] + [data[i]], tail);
    FoldConcat(step, init, data[..i] + [b], tail);
    FoldConcat(step, init, data[..i], [data[i]]);
    FoldConcat(step, init, data[..i], [b]);
    assert Fold(step, s, [data[i]]) == step(s, data[i]) && Fold(step, s, [b]) == step(s, b);
    if Fold(step, init, data[i := b]) == Fold(step, init, data) {
      FoldInjective(step, step(s, data[i]), step(s, b), tail);
    }
  }

  /** The feedback polynomial has its top bit set, so one step forgets nothing. */
  lemma BitStepInjective(s: bv32, t: bv32)
    requires BitStep(s) == BitStep(t)
    ensures s == t
  {
  }

  lemma {:induction false} BitStepsInjective(s: bv32, t: bv32, n: nat)
    requires BitSteps(s, n) == BitSteps(t, n)
    ensures s == t
    decreases n
  {
    if n != 0 {
      BitStepInjective(BitSteps(s, n - 1), BitSteps(t, n - 1));
      BitStepsInjective(s, t, n - 1);
    }
  }

  lemma XorInjective(s: bv32, t: bv32, a: byte, b: byte)
    requires s ^ (a as bv32) == t ^ (b as bv32)
    ensures a == b ==> s == t
    ensures s == t ==> a == b
  {
  }

  lemma ByteStepInjective()
    ensures StateInjective(ByteStep) && OctetInjective(ByteStep)
  {
    forall s, t, a, b | ByteStep(s, a) == ByteStep(t, b)
      ensures (a == b ==> s == t) && (s == t ==> a == b)
    {
      BitStepsInjective(s ^ (a as bv32), t ^ (b as bv32), 8);
      XorInjective(s, t, a, b);
    }
  }

  lemma FinalXorInjective(s: bv32, t: bv32)
    requires s ^ 0xFFFF_FFFF == t ^ 0xFFFF_FFFF
    ensures s == t
  {
  }

  /** Any damage confined to one octet changes the checksum, whatever the message and its length. */
  lemma OneOctetChangeIsDetected(data: seq<byte>, i: nat, b: byte)
    requires i < |data| && b != data[i]
    ensures Crc(data[i := b]) != Crc(data)
  {
    ByteStepInjective();
    FoldDetects(ByteStep, 0xFFFF_FFFF, data, i, b);
    if Crc(data[i := b]) == Crc(data) {
      FinalXorInjective(Absorb(0xFFFF_FFFF, data[i := b]), Absorb(0xFFFF_FFFF, data));
    }
  }

  /** Hashing a region in chunks gives the checksum of the whole region. */
  lemma AbsorbConcat(s: bv32, a: seq<byte>, b: seq<byte>)
    ensures Absorb(s, a + b) == Absorb(Absorb(s, a), b)
  {
    FoldConcat(ByteStep, s, a, b);
  }

  lemma AbsorbNothing(s: bv32)
    ensures Absorb(s, []) == s
  {
  }

  /** The checksum of what a register has absorbed. */
  function Finish(state: bv32, ghost data: seq<byte>): (crc: bv32)
    requires state == Absorb(0xFFFF_FFFF, data)
    ensures crc == Crc(data)
  {
    state ^ 0xFFFF_FFFF
  }
}
