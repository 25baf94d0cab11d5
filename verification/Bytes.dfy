/** Octets and the little-endian integer fields used by every wire and flash record. */
module Bytes {
  type byte = bv8

  function Pow256(n: nat): nat {
    if n == 0 then 1 else 256 * Pow256(n - 1)
  }

  function Value(b: byte): (v: nat)
    ensures v < 256
  {
    b as nat
  }

  function Octet(v: nat): (b: byte)
    requires v < 256
    ensures Value(b) == v
  {
    if v == 0 then 0 else
      var p := Octet(v - 1);
      ValueSuccessor(p);
      p + 1
  }

  lemma ValueSuccessor(b: byte)
    requires Value(b) < 255
    ensures Value(b + 1) == Value(b) + 1
  {
  }

  lemma ValueInjective(a: byte, b: byte)
    requires Value(a) == Value(b)
    ensures a == b
  {
  }

  lemma ValueOctet(b: byte)
    ensures Octet(Value(b)) == b
  {
    ValueInjective(Octet(Value(b)), b);
  }

  /** The `n`-octet little-endian encoding of `v` modulo 256^n. */
  function LE(v: nat, n: nat): (r: seq<byte>)
    ensures |r| == n
  {
    if n == 0 then [] else [Octet(v % 256)] + LE(v / 256, n - 1)
  }

  function FromLE(s: seq<byte>): nat {
    if s == [] then 0 else Value(s[0]) + 256 * FromLE(s[1..])
  }

  lemma {:induction false} DecodeEncodeLE(v: nat, n: nat)
    requires v < Pow256(n)
    ensures FromLE(LE(v, n)) == v
  {
    hide Octet, Value;
    if n != 0 {
      DecodeEncodeLE(v / 256, n - 1);
      assert LE(v, n)[1..] == LE(v / 256, n - 1);
    }
  }

  lemma {:induction false} EncodeDecodeLE(s: seq<byte>)
    ensures FromLE(s) < Pow256(|s|) && LE(FromLE(s), |s|) == s
  {
    hide Octet, Value;
    if s != [] {
      EncodeDecodeLE(s[1..]);
      ValueOctet(s[0]);
      SplitAt256(Value(s[0]), FromLE(s[1..]));
      assert s == [s[0]] + s[1..];
    }
  }

  lemma SplitAt256(low: nat, high: nat)
    requires low < 256
    ensures (low + 256 * high) % 256 == low && (low + 256 * high) / 256 == high
  {
  }

  /** The four octets of a 32-bit register, least significant first. */
  function WordBytes(w: bv32): (r: seq<byte>)
    ensures |r| == 4
  {
    [(w & 0xFF) as byte, ((w >> 8) & 0xFF) as byte, ((w >> 16) & 0xFF) as byte, ((w >> 24) & 0xFF) as byte]
  }

  function BytesWord(s: seq<byte>): bv32
    requires |s| == 4
  {
    (s[0] as bv32) | ((s[1] as bv32) << 8) | ((s[2] as bv32) << 16) | ((s[3] as bv32) << 24)
  }

  lemma DecodeEncodeWord(w: bv32)
    ensures BytesWord(WordBytes(w)) == w
  {
  }

  lemma EncodeDecodeWord(s: seq<byte>)
    requires |s| == 4
    ensures WordBytes(BytesWord(s)) == s
  {
  }

  lemma Pow256Values()
    ensures Pow256(1) == 0x100 && Pow256(2) == 0x1_0000
    ensures Pow256(4) == 0x1_0000_0000 && Pow256(8) == 0x1_0000_0000_0000_0000
  {
    assert Pow256(1) == 256 * Pow256(0);
    assert Pow256(2) == 256 * Pow256(1);
    assert Pow256(3) == 256 * Pow256(2);
    assert Pow256(4) == 256 * Pow256(3);
    assert Pow256(5) == 256 * Pow256(4);
    assert Pow256(6) == 256 * Pow256(5);
    assert Pow256(7) == 256 * Pow256(6);
    assert Pow256(8) == 256 * Pow256(7);
  }

  predicate All(s: seq<byte>, b: byte) {
    forall i :: 0 <= i < |s| ==> s[i] == b
  }

  lemma AllConcat(s: seq<byte>, t: seq<byte>, b: byte)
    ensures All(s + t, b) == (All(s, b) && All(t, b))
  {
    assert forall i :: 0 <= i < |t| ==> (s + t)[|s| + i] == t[i];
    assert forall i :: 0 <= i < |s| ==> (s + t)[i] == s[i];
  }

  lemma AllNothing(s: seq<byte>, b: byte)
    ensures All(s[..0], b)
  {
  }

  method CheckAll(s: seq<byte>, b: byte) returns (all: bool)
    ensures all == All(s, b)
  {
    for i := 0 to |s|
      invariant forall j :: 0 <= j < i ==> s[j] == b
    {
      if s[i] != b { return false; }
    }
    all := true;
  }

  function Fill(n: nat, b: byte): (r: seq<byte>)
    ensures |r| == n && All(r, b)
  {
    seq(n, _ => b)
  }

  /** `s` with `d` laid over it at `off`. */
  function Overlay(s: seq<byte>, off: nat, d: seq<byte>): (r: seq<byte>)
    requires off + |d| <= |s|
    ensures |r| == |s|
    ensures forall i :: 0 <= i < |s| ==> r[i] == if off <= i < off + |d| then d[i - off] else s[i]
  {
    s[..off] + d + s[off + |d|..]
  }

  function Min(a: nat, b: nat): nat {
    if a <= b then a else b
  }
}
