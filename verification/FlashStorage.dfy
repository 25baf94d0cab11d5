/** Two NOR-flash banks: programming can only clear bits, erasing sets whole sectors to 0xFF, and any call may be torn. */
module FlashStorage {
  import opened Bytes

  const BANK_SIZE: nat := 0x90000
  const SECTOR: nat := 0x1000

  datatype BankId = A | B {
    function Other(): BankId {
      if this.A? then B else A
    }
  }

  datatype IoResult = IoOk | IoInvalidArgument | IoOutOfBounds | IoNotAligned | IoUnavailable | IoError

  /** What the environment does to the next call: nothing, or an error after `reached` octets took effect. */
  datatype Fault = NoFault | Cut(reached: nat)

  predicate InRange(off: nat, len: nat) {
    off <= BANK_SIZE && len <= BANK_SIZE - off
  }

  /** Every set bit of `data` is still set in flash, so the cells can take `data`. */
  predicate CanProgram(bank: seq<byte>, off: nat, data: seq<byte>)
    requires off + |data| <= |bank|
  {
    forall i :: 0 <= i < |data| ==> bank[off + i] & data[i] == data[i]
  }

  /** AND-programming as the cells perform it. */
  function Programmed(bank: seq<byte>, off: nat, data: seq<byte>): (r: seq<byte>)
    requires off + |data| <= |bank|
    ensures |r| == |bank|
  {
    seq(|bank|, i requires 0 <= i < |bank| => if off <= i < off + |data| then bank[i] & data[i - off] else bank[i])
  }

  function Reached(f: Fault, len: nat): (k: nat)
    ensures k <= len
  {
    match f case NoFault => len case Cut(n) => Min(n, len)
  }

  /** Result and new contents of one write. */
  function WriteEffect(bank: seq<byte>, off: nat, data: seq<byte>, f: Fault): (r: (IoResult, seq<byte>))
    requires |bank| == BANK_SIZE
    ensures |r.1| == |bank|
  {
    if !InRange(off, |data|) then (IoOutOfBounds, bank)
    else
      var torn := data[..Reached(f, |data|)];
      if !CanProgram(bank, off, torn) then (IoError, bank)
      else (if f.NoFault? then IoOk else IoError, Programmed(bank, off, torn))
  }

  function EraseEffect(bank: seq<byte>, off: nat, len: nat, f: Fault): (r: (IoResult, seq<byte>))
    requires |bank| == BANK_SIZE
    ensures |r.1| == |bank|
  {
    if off % SECTOR != 0 || len % SECTOR != 0 then (IoNotAligned, bank)
    else if !InRange(off, len) then (IoOutOfBounds, bank)
    else (if f.NoFault? then IoOk else IoError, Overlay(bank, off, Fill(Reached(f, len), 0xFF)))
  }

  /** All a caller may rely on after a write: some prefix of `data` lies over the old contents, all of it on success. */
  ghost predicate WroteUpTo(old': seq<byte>, new': seq<byte>, off: nat, data: seq<byte>, io: IoResult) {
    && |new'| == |old'|
    && (io.IoOk? ==> off + |data| <= |old'|)
    && exists k: nat :: k <= |data| && LaidOver(old', new', off, data, k) && (io.IoOk? ==> k == |data|)
  }

  ghost predicate LaidOver(old': seq<byte>, new': seq<byte>, off: nat, data: seq<byte>, k: nat) {
    k <= |data| && if k == 0 then new' == old' else off + k <= |old'| && new' == Overlay(old', off, data[..k])
  }

  ghost predicate ErasedUpTo(old': seq<byte>, new': seq<byte>, off: nat, len: nat, io: IoResult) {
    WroteUpTo(old', new', off, Fill(len, 0xFF), io)
  }

  /** Programming permitted data is the same as overwriting with it. */
  lemma ProgramIsOverlay(bank: seq<byte>, off: nat, data: seq<byte>)
    requires off + |data| <= |bank| && CanProgram(bank, off, data)
    ensures Programmed(bank, off, data) == Overlay(bank, off, data)
  {
    var p, q := Programmed(bank, off, data), Overlay(bank, off, data);
    forall i | 0 <= i < |bank| ensures p[i] == q[i] {
      if off <= i < off + |data| {
        var j := i - off;
        assert bank[off + j] & data[j] == data[j] && i == off + j;
      }
    }
  }

  lemma AndFacts(d: byte, s: byte)
    ensures 0xFF & s == s && s & s == s
    ensures (d & s) & d == d & s
  {
  }

  /** Erased cells take any data. */
  lemma ErasedTakesAnything(bank: seq<byte>, off: nat, data: seq<byte>)
    requires off + |data| <= |bank| && All(bank[off..off + |data|], 0xFF)
    ensures CanProgram(bank, off, data)
  {
    forall i | 0 <= i < |data| ensures bank[off + i] & data[i] == data[i] {
      assert bank[off + i] == bank[off..off + |data|][i];
      AndFacts(0, data[i]);
    }
  }

  /** A program torn anywhere can be completed by repeating it, without an erase in between. */
  lemma TornProgramCanBeCompleted(bank: seq<byte>, off: nat, data: seq<byte>, f: Fault)
    requires |bank| == BANK_SIZE && InRange(off, |data|) && CanProgram(bank, off, data)
    ensures var torn := WriteEffect(bank, off, data, f).1;
            WriteEffect(torn, off, data, NoFault) == (IoOk, Overlay(bank, off, data))
  {
    hide CanProgram, Programmed, Overlay;
    var k := Reached(f, |data|);
    TornStillTakes(bank, off, data, k);
    ProgramIsOverlay(bank, off, data[..k]);
    assert data[..|data|] == data;
    ProgramIsOverlay(Overlay(bank, off, data[..k]), off, data);
    OverlayTwice(bank, off, data, k);
  }

  lemma TornStillTakes(bank: seq<byte>, off: nat, data: seq<byte>, k: nat)
    requires off + |data| <= |bank| && CanProgram(bank, off, data) && k <= |data|
    ensures CanProgram(bank, off, data[..k]) && CanProgram(Overlay(bank, off, data[..k]), off, data)
  {
    var torn := Overlay(bank, off, data[..k]);
    forall i | 0 <= i < |data| ensures torn[off + i] & data[i] == data[i] {
      AndFacts(bank[off + i], data[i]);
    }
  }

  lemma OverlayTwice(bank: seq<byte>, off: nat, data: seq<byte>, k: nat)
    requires off + |data| <= |bank| && k <= |data|
    ensures Overlay(Overlay(bank, off, data[..k]), off, data) == Overlay(bank, off, data)
  {
  }

  lemma WriteEffectSummary(bank: seq<byte>, off: nat, data: seq<byte>, f: Fault)
    requires |bank| == BANK_SIZE
    ensures var r := WriteEffect(bank, off, data, f); WroteUpTo(bank, r.1, off, data, r.0)
  {
    var r := WriteEffect(bank, off, data, f);
    if InRange(off, |data|) && CanProgram(bank, off, data[..Reached(f, |data|)]) {
      var k := Reached(f, |data|);
      ProgramIsOverlay(bank, off, data[..k]);
      assert k == 0 ==> Overlay(bank, off, data[..k]) == bank;
      assert LaidOver(bank, r.1, off, data, k);
    } else {
      assert LaidOver(bank, r.1, off, data, 0);
    }
  }

  lemma EraseEffectSummary(bank: seq<byte>, off: nat, len: nat, f: Fault)
    requires |bank| == BANK_SIZE
    ensures var r := EraseEffect(bank, off, len, f); ErasedUpTo(bank, r.1, off, len, r.0)
  {
    var r := EraseEffect(bank, off, len, f);
    var data := Fill(len, 0xFF);
    if off % SECTOR == 0 && len % SECTOR == 0 && InRange(off, len) {
      var k := Reached(f, len);
      assert data[..k] == Fill(k, 0xFF);
      assert k == 0 ==> Overlay(bank, off, data[..k]) == bank;
      assert LaidOver(bank, r.1, off, data, k);
    } else {
      assert LaidOver(bank, r.1, off, data, 0);
    }
  }

  method Programmable(cells: array<byte>, off: nat, data: seq<byte>) returns (able: bool)
    requires off + |data| <= cells.Length
    ensures able == CanProgram(cells[..], off, data)
  {
    for i := 0 to |data|
      invariant forall j :: 0 <= j < i ==> cells[off + j] & data[j] == data[j]
    {
      if cells[off + i] & data[i] != data[i] { return false; }
    }
    able := true;
  }

  method AndInPlace(cells: array<byte>, off: nat, data: seq<byte>)
    requires off + |data| <= cells.Length
    modifies cells
    ensures cells[..] == Programmed(old(cells[..]), off, data)
  {
    for i := 0 to |data|
      invariant forall j :: 0 <= j < cells.Length ==>
        cells[j] == if off <= j < off + i then old(cells[..])[j] & data[j - off] else old(cells[..])[j]
    {
      cells[off + i] := cells[off + i] & data[i];
    }
  }

  method FillInPlace(cells: array<byte>, off: nat, n: nat)
    requires off + n <= cells.Length
    modifies cells
    ensures cells[..] == Overlay(old(cells[..]), off, Fill(n, 0xFF))
  {
    for i := 0 to n
      invariant forall j :: 0 <= j < cells.Length ==>
        cells[j] == if off <= j < off + i then 0xFF else old(cells[..])[j]
    {
      cells[off + i] := 0xFF;
    }
  }

  /** The faults still to come after `n` more operations. */
  function After(faults: seq<Fault>, n: nat): seq<Fault> {
    if |faults| <= n then [] else faults[n..]
  }

  lemma AfterAfter(faults: seq<Fault>, n: nat, m: nat)
    ensures After(After(faults, n), m) == After(faults, n + m) && After(faults, 0) == faults
  {
  }

  lemma AfterFew(faults: seq<Fault>)
    ensures After(After(faults, 1), 1) == After(faults, 2) && After(After(After(faults, 1), 1), 1) == After(faults, 3)
    ensures forall n :: 0 <= n < |faults| ==> After(faults, n) != [] && After(faults, n)[0] == faults[n]
  {
  }

  /** The in-memory bank pair, with a script of faults still to be suffered. */
  class BankStorage {
    const bankA: array<byte>
    const bankB: array<byte>
    var faults: seq<Fault>

    ghost predicate Valid()
    {
      bankA != bankB && bankA.Length == BANK_SIZE && bankB.Length == BANK_SIZE
    }

    function Cells(id: BankId): array<byte>
    {
      if id.A? then bankA else bankB
    }

    ghost function Bank(id: BankId): (s: seq<byte>)
      reads Cells(id)
      requires Valid()
      ensures |s| == BANK_SIZE
    {
      Cells(id)[..]
    }

    ghost function NextFault(): Fault
      reads this
    {
      if faults == [] then NoFault else faults[0]
    }

    /** The next `n` operations go undisturbed. */
    ghost predicate Quiet(n: nat)
      reads this`faults
    {
      forall i :: 0 <= i < n && i < |faults| ==> faults[i].NoFault?
    }

    constructor (script: seq<Fault>)
      ensures Valid() && faults == script && fresh(bankA) && fresh(bankB)
      ensures All(Bank(A), 0xFF) && All(Bank(B), 0xFF)
    {
      bankA := new byte[BANK_SIZE](_ => 0xFF);
      bankB := new byte[BANK_SIZE](_ => 0xFF);
      faults := script;
    }

    method TakeFault() returns (f: Fault)
      modifies this`faults
      ensures f == old(NextFault())
      ensures faults == After(old(faults), 1)
    {
      if faults == [] { return NoFault; }
      f := faults[0];
      faults := faults[1..];
    }

    method Read(id: BankId, off: nat, len: nat) returns (io: IoResult, data: seq<byte>)
      requires Valid()
      modifies this`faults
      ensures Valid()
      ensures io.IoOk? <==> old(NextFault()).NoFault? && InRange(off, len)
      ensures io.IoOk? ==> data == Bank(id)[off..off + len]
      ensures faults == After(old(faults), 1)
    {
      var f := TakeFault();
      if f.Cut? { return IoError, []; }
      if !InRange(off, len) { return IoOutOfBounds, []; }
      io, data := IoOk, Cells(id)[off..off + len];
    }

    /** Clear bits in place, after checking that no bit would have to be set. */
    method Write(id: BankId, off: nat, data: seq<byte>) returns (io: IoResult)
      requires Valid()
      modifies this`faults, Cells(id)
      ensures Valid()
      ensures (io, Bank(id)) == WriteEffect(old(Bank(id)), off, data, old(NextFault()))
      ensures WroteUpTo(old(Bank(id)), Bank(id), off, data, io)
      ensures faults == After(old(faults), 1)
      ensures old(NextFault()).NoFault? ==> (InRange(off, |data|) && CanProgram(old(Bank(id)), off, data) ==> io.IoOk?)
    {
      var f := TakeFault();
      WriteEffectSummary(Bank(id), off, data, f);
      if !InRange(off, |data|) { return IoOutOfBounds; }
      var torn := data[..Reached(f, |data|)];
      var able := Programmable(Cells(id), off, torn);
      if !able { return IoError; }
      AndInPlace(Cells(id), off, torn);
      io := if f.NoFault? then IoOk else IoError;
    }

    method Erase(id: BankId, off: nat, len: nat) returns (io: IoResult)
      requires Valid()
      modifies this`faults, Cells(id)
      ensures Valid()
      ensures (io, Bank(id)) == EraseEffect(old(Bank(id)), off, len, old(NextFault()))
      ensures ErasedUpTo(old(Bank(id)), Bank(id), off, len, io)
      ensures faults == After(old(faults), 1)
      ensures off % SECTOR == 0 && len % SECTOR == 0 && InRange(off, len) ==> io == if old(NextFault()).NoFault? then IoOk else IoError
    {
      ghost var before := Bank(id);
      var f := TakeFault();
      EraseEffectSummary(before, off, len, f);
      if off % SECTOR != 0 || len % SECTOR != 0 { return IoNotAligned; }
      if !InRange(off, len) { return IoOutOfBounds; }
      FillInPlace(Cells(id), off, Reached(f, len));
      io := if f.NoFault? then IoOk else IoError;
    }
  }
}
