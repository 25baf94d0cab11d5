/** Reassembly of a plan or a block from fragments that may repeat, overlap and arrive in any order. */
module FragmentAssembler {
  import opened Bytes

  const MAX_FRAGMENT: nat := 101

  datatype Cell = Missing | Got(b: byte)

  datatype Fragment = Fragment(offset: nat, data: seq<byte>)

  datatype AcceptResult = Accepted | InvalidArgument | OutOfBounds | Conflict

  // ---- on the abstract contents ----

  predicate Fits(n: nat, f: Fragment) {
    0 < |f.data| <= MAX_FRAGMENT && f.offset + |f.data| <= n
  }

  predicate InReach(f: Fragment, i: int) {
    f.offset <= i < f.offset + |f.data|
  }

  /** Octet `i` as the fragment tells it. */
  function Told(f: Fragment, i: int): byte
    requires InReach(f, i)
  {
    f.data[i - f.offset]
  }

  predicate Agrees(cells: seq<Cell>, f: Fragment) {
    forall i :: 0 <= i < |cells| && InReach(f, i) && cells[i].Got? ==> cells[i].b == Told(f, i)
  }

  function Merged(cells: seq<Cell>, f: Fragment): (r: seq<Cell>)
    ensures |r| == |cells|
  {
    seq(|cells|, i requires 0 <= i < |cells| => if InReach(f, i) && cells[i].Missing? then Got(Told(f, i)) else cells[i])
  }

  function Accept(cells: seq<Cell>, f: Fragment): (r: (seq<Cell>, AcceptResult)) {
    if f.data == [] then (cells, InvalidArgument)
    else if !Fits(|cells|, f) then (cells, OutOfBounds)
    else if !Agrees(cells, f) then (cells, Conflict)
    else (Merged(cells, f), Accepted)
  }

  function Blank(n: nat): (r: seq<Cell>)
    ensures |r| == n
  {
    seq(n, _ => Missing)
  }

  function AcceptAll(cells: seq<Cell>, fs: seq<Fragment>): (r: seq<Cell>)
    ensures |r| == |cells|
  {
    if fs == [] then cells else Accept(AcceptAll(cells, fs[..|fs| - 1]), fs[|fs| - 1]).0
  }

  function Count(cells: seq<Cell>): nat {
    if cells == [] then 0 else Count(cells[..|cells| - 1]) + (if cells[|cells| - 1].Got? then 1 else 0)
  }

  lemma {:induction false} CountBounds(cells: seq<Cell>)
    ensures Count(cells) <= |cells|
    ensures Count(cells) == |cells| <==> forall i :: 0 <= i < |cells| ==> cells[i].Got?
  {
    if cells != [] {
      var front := cells[..|cells| - 1];
      CountBounds(front);
      assert forall i :: 0 <= i < |front| ==> front[i] == cells[i];
    }
  }

  lemma {:induction false} CountUpdate(cells: seq<Cell>, i: nat, b: byte)
    requires i < |cells| && cells[i].Missing?
    ensures Count(cells[i := Got(b)]) == Count(cells) + 1
  {
    var n := |cells| - 1;
    if i < n {
      CountUpdate(cells[..n], i, b);
      assert cells[i := Got(b)][..n] == cells[..n][i := Got(b)];
    } else {
      assert cells[i := Got(b)][..n] == cells[..n];
    }
  }

  // ---- what assembly guarantees ----

  /** Everything accepted so far is still there, and nothing else is. */
  ghost predicate Justified(cells: seq<Cell>, accepted: set<Fragment>) {
    && (forall f, i | f in accepted && 0 <= i < |cells| && InReach(f, i) :: cells[i] == Got(Told(f, i)))
    && (forall i | 0 <= i < |cells| && cells[i].Got? :: exists f :: f in accepted && InReach(f, i))
  }

  ghost function AcceptedOf(cells: seq<Cell>, fs: seq<Fragment>): set<Fragment> {
    if fs == [] then {}
    else
      var before := AcceptAll(cells, fs[..|fs| - 1]);
      AcceptedOf(cells, fs[..|fs| - 1])
      + (if Accept(before, fs[|fs| - 1]).1.Accepted? then {fs[|fs| - 1]} else {})
  }

  /** After any sequence of fragments, the buffer is exactly the union of those that were accepted. */
  lemma {:induction false} AssemblyIsJustified(n: nat, fs: seq<Fragment>)
    ensures Justified(AcceptAll(Blank(n), fs), AcceptedOf(Blank(n), fs))
  {
    if fs != [] {
      var front, f := fs[..|fs| - 1], fs[|fs| - 1];
      AssemblyIsJustified(n, front);
      JustifiedStep(AcceptAll(Blank(n), front), AcceptedOf(Blank(n), front), f);
    }
  }

  lemma JustifiedStep(cells: seq<Cell>, accepted: set<Fragment>, f: Fragment)
    requires Justified(cells, accepted)
    ensures var (cells', r) := Accept(cells, f); Justified(cells', if r.Accepted? then accepted + {f} else accepted)
  {
    var (cells', r) := Accept(cells, f);
    if r.Accepted? {
      var now := accepted + {f};
      forall g, i | g in now && 0 <= i < |cells'| && InReach(g, i) ensures cells'[i] == Got(Told(g, i)) {
        if g in accepted { assert cells[i] == Got(Told(g, i)); }
      }
      forall i | 0 <= i < |cells'| && cells'[i].Got? ensures exists g :: g in now && InReach(g, i) {
        if cells[i].Got? {
          var g :| g in accepted && InReach(g, i);
          assert g in now;
        } else {
          assert f in now && InReach(f, i);
        }
      }
    }
  }

  /** The same accepted fragments give the same buffer, in whatever order they came. */
  lemma OrderDoesNotMatter(n: nat, fs: seq<Fragment>, gs: seq<Fragment>)
    requires AcceptedOf(Blank(n), fs) == AcceptedOf(Blank(n), gs)
    ensures AcceptAll(Blank(n), fs) == AcceptAll(Blank(n), gs)
  {
    AssemblyIsJustified(n, fs);
    AssemblyIsJustified(n, gs);
    var (a, b, accepted) := (AcceptAll(Blank(n), fs), AcceptAll(Blank(n), gs), AcceptedOf(Blank(n), fs));
    forall i | 0 <= i < n ensures a[i] == b[i] {
      if a[i].Got? {
        var f :| f in accepted && InReach(f, i);
        assert b[i] == Got(Told(f, i));
      }
    }
  }

  /** Every fragment that was cut from `original`. */
  predicate CutFrom(original: seq<byte>, f: Fragment) {
    Fits(|original|, f) && f.data == original[f.offset..f.offset + |f.data|]
  }

  predicate PartOf(cells: seq<Cell>, original: seq<byte>)
    requires |cells| == |original|
  {
    forall i :: 0 <= i < |cells| && cells[i].Got? ==> cells[i].b == original[i]
  }

  lemma CutIsAccepted(original: seq<byte>, cells: seq<Cell>, f: Fragment)
    requires |cells| == |original| && PartOf(cells, original) && CutFrom(original, f)
    ensures Accept(cells, f).1.Accepted? && PartOf(Accept(cells, f).0, original)
  {
    assert forall i :: InReach(f, i) ==> Told(f, i) == original[i];
  }

  lemma {:induction false} CutsAreAllAccepted(original: seq<byte>, fs: seq<Fragment>)
    requires forall k :: 0 <= k < |fs| ==> CutFrom(original, fs[k])
    ensures PartOf(AcceptAll(Blank(|original|), fs), original)
    ensures forall f :: f in AcceptedOf(Blank(|original|), fs) <==> f in fs
  {
    if fs != [] {
      hide CutFrom, PartOf, Accept;
      var front, f := fs[..|fs| - 1], fs[|fs| - 1];
      CutsAreAllAccepted(original, front);
      CutIsAccepted(original, AcceptAll(Blank(|original|), front), f);
      assert fs == front + [f];
    } else {
      assert PartOf(Blank(|original|), original);
    }
  }

  /** Fragments of one original are all accepted, in any order and number; exactly the octets they reach are known, and rightly. */
  lemma FragmentsOfOneOriginal(original: seq<byte>, fs: seq<Fragment>)
    requires forall k :: 0 <= k < |fs| ==> CutFrom(original, fs[k])
    ensures var cells := AcceptAll(Blank(|original|), fs);
            && PartOf(cells, original)
            && (forall i :: 0 <= i < |original| ==> (cells[i].Got? <==> exists k :: 0 <= k < |fs| && InReach(fs[k], i)))
            && (Count(cells) == |original| ==> forall i :: 0 <= i < |original| ==> cells[i] == Got(original[i]))
  {
    var cells, accepted := AcceptAll(Blank(|original|), fs), AcceptedOf(Blank(|original|), fs);
    CutsAreAllAccepted(original, fs);
    AssemblyIsJustified(|original|, fs);
    CountBounds(cells);
    forall i | 0 <= i < |original| ensures cells[i].Got? <==> exists k :: 0 <= k < |fs| && InReach(fs[k], i) {
      if cells[i].Got? {
        var f :| f in accepted && InReach(f, i);
        var k :| 0 <= k < |fs| && fs[k] == f;
        assert InReach(fs[k], i);
      }
      if exists k :: 0 <= k < |fs| && InReach(fs[k], i) {
        var k :| 0 <= k < |fs| && InReach(fs[k], i);
        assert fs[k] in accepted;
      }
    }
  }

  // ---- the buffer and its bitmap ----

  /** The i-th bit of an octet, 1 << i. */
  function Mask(i: nat): byte
    requires i < 8
  {
    if i == 0 then 0x01 else if i == 1 then 0x02 else if i == 2 then 0x04 else if i == 3 then 0x08
    else if i == 4 then 0x10 else if i == 5 then 0x20 else if i == 6 then 0x40 else 0x80
  }

  predicate Bit(b: byte, i: nat)
    requires i < 8
  {
    b & Mask(i) != 0
  }

  lemma SetBit(b: byte, i: nat, j: nat)
    requires i < 8 && j < 8
    ensures Bit(b | Mask(i), j) <==> i == j || Bit(b, j)
  {
    hide Mask;
    MasksDiffer(i, j);
    OrThenAnd(b, Mask(i), Mask(j));
  }

  lemma MasksDiffer(i: nat, j: nat)
    requires i < 8 && j < 8
    ensures Mask(i) & Mask(j) != 0 <==> i == j
  {
  }

  lemma OrThenAnd(b: byte, m: byte, k: byte)
    ensures (b | m) & k != 0 <==> m & k != 0 || b & k != 0
  {
  }

  predicate Marked(bits: seq<byte>, i: nat)
    requires i / 8 < |bits|
  {
    Bit(bits[i / 8], i % 8)
  }

  function CellsOf(bytes: seq<byte>, bits: seq<byte>): (c: seq<Cell>)
    requires |bits| == (|bytes| + 7) / 8
    ensures |c| == |bytes|
  {
    seq(|bytes|, i requires 0 <= i < |bytes| => if Marked(bits, i) then Got(bytes[i]) else Missing)
  }

  lemma MarkOne(bytes: seq<byte>, bits: seq<byte>, i: nat, b: byte)
    requires |bits| == (|bytes| + 7) / 8 && i < |bytes|
    ensures CellsOf(bytes[i := b], bits[i / 8 := bits[i / 8] | Mask(i % 8)]) == CellsOf(bytes, bits)[i := Got(b)]
  {
    hide Mask, Bit;
    var bits' := bits[i / 8 := bits[i / 8] | Mask(i % 8)];
    forall j: nat | j < |bytes| ensures Marked(bits', j) <==> i == j || Marked(bits, j) {
      SetBit(bits[i / 8], i % 8, j % 8);
    }
  }

  /** A fragment of which only the first `k` octets count yet. */
  function Prefix(f: Fragment, k: nat): Fragment
    requires k <= |f.data|
  {
    f.(data := f.data[..k])
  }

  lemma MergeOne(cells: seq<Cell>, f: Fragment, k: nat)
    requires k < |f.data| && f.offset + |f.data| <= |cells|
    ensures Merged(cells, Prefix(f, 0)) == cells && Merged(cells, Prefix(f, |f.data|)) == Merged(cells, f)
    ensures var (m, i) := (Merged(cells, Prefix(f, k)), f.offset + k);
            && m[i] == cells[i]
            && Merged(cells, Prefix(f, k + 1)) == if m[i].Missing? then m[i := Got(f.data[k])] else m
  {
    assert Prefix(f, |f.data|) == f;
  }

  class Assembler {
    const size: nat
    const bytes: array<byte>
    const bits: array<byte>
    var receivedBytes: nat

    ghost predicate Valid()
      reads this, bytes, bits
    {
      bytes.Length == size && bits.Length == (size + 7) / 8 && bytes != bits && receivedBytes == Count(Cells())
    }

    ghost function Cells(): (c: seq<Cell>)
      reads bytes, bits
      requires bytes.Length == size && bits.Length == (size + 7) / 8
      ensures |c| == size
    {
      CellsOf(bytes[..], bits[..])
    }

    constructor (n: nat)
      ensures Valid() && size == n && Cells() == Blank(n) && fresh(bytes) && fresh(bits)
    {
      size := n;
      bytes := new byte[n](_ => 0);
      bits := new byte[(n + 7) / 8](_ => 0);
      receivedBytes := 0;
      new;
      NothingMarked(bytes[..], bits[..]);
      NothingCounted(n);
    }

    predicate Has(i: nat)
      reads bits
      requires i < size && bits.Length == (size + 7) / 8
    {
      Bit(bits[i / 8], i % 8)
    }

    /** Check the whole fragment against what is known before storing any of it. */
    method AcceptFragment(f: Fragment) returns (r: AcceptResult)
      requires Valid()
      modifies this`receivedBytes, bytes, bits
      ensures Valid() && (Cells(), r) == Accept(old(Cells()), f)
    {
      hide Bit, Mask, Count, Merged, CellsOf, Agrees;
      if f.data == [] { return InvalidArgument; }
      if !Fits(size, f) { return OutOfBounds; }
      var conflict := Conflicts(f);
      if conflict { return Conflict; }
      ghost var cells := Cells();
      MergeOne(cells, f, 0);
      for k := 0 to |f.data|
        invariant Valid() && Cells() == Merged(cells, Prefix(f, k))
      {
        MergeOne(cells, f, k);
        Store(f.offset + k, f.data[k]);
      }
      r := Accepted;
    }

    method Conflicts(f: Fragment) returns (conflict: bool)
      requires Valid() && Fits(size, f)
      ensures conflict == !Agrees(Cells(), f)
    {
      hide Bit, Count;
      for k := 0 to |f.data|
        invariant forall i :: f.offset <= i < f.offset + k && Cells()[i].Got? ==> Cells()[i].b == Told(f, i)
      {
        if Has(f.offset + k) && bytes[f.offset + k] != f.data[k] {
          assert Cells()[f.offset + k] == Got(bytes[f.offset + k]) && InReach(f, f.offset + k);
          return true;
        }
      }
      conflict := false;
    }

    method Store(i: nat, b: byte)
      requires Valid() && i < size
      modifies this`receivedBytes, bytes, bits
      ensures Valid() && Cells() == if old(Cells())[i].Missing? then old(Cells())[i := Got(b)] else old(Cells())
    {
      hide Bit, Mask, Count;
      if !Has(i) {
        MarkOne(bytes[..], bits[..], i, b);
        CountUpdate(Cells(), i, b);
        bytes[i] := b;
        bits[i / 8] := bits[i / 8] | Mask(i % 8);
        receivedBytes := receivedBytes + 1;
      }
    }

    predicate Complete()
      reads this`receivedBytes
    {
      receivedBytes == size
    }

    /** Complete exactly when no octet is missing. */
    lemma CompleteMeansAll()
      requires Valid()
      ensures Complete() <==> forall i :: 0 <= i < size ==> Cells()[i].Got?
    {
      CountBounds(Cells());
    }

    method FirstMissing() returns (at: nat)
      requires Valid()
      ensures at <= size && (forall i :: 0 <= i < at ==> Cells()[i].Got?)
      ensures at < size ==> Cells()[at].Missing?
    {
      hide Bit, Count;
      at := 0;
      while at < size && Has(at)
        invariant at <= size && forall i :: 0 <= i < at ==> Cells()[i].Got?
      {
        at := at + 1;
      }
    }
  }

  lemma NothingMarked(bytes: seq<byte>, bits: seq<byte>)
    requires |bits| == (|bytes| + 7) / 8 && All(bits, 0)
    ensures CellsOf(bytes, bits) == Blank(|bytes|)
  {
    hide Mask;
    forall i | 0 <= i < |bytes| ensures !Marked(bits, i) {
      ZeroBits(i % 8);
    }
  }

  lemma ZeroBits(i: nat)
    requires i < 8
    ensures !Bit(0, i)
  {
  }

  lemma {:induction false} NothingCounted(n: nat)
    ensures Count(Blank(n)) == 0
  {
    if n > 0 {
      NothingCounted(n - 1);
      assert Blank(n)[..n - 1] == Blank(n - 1);
    }
  }
}
