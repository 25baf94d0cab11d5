/** The cooperative decorator: every storage call is cut into bounded units, each behind its own permit. */
module ChunkedStorage {
  import opened Bytes
  import opened FlashStorage

  const READ_WRITE_UNIT: nat := 256
  const ERASE_UNIT: nat := 0x1000

  datatype WorkKind = ReadWork | WriteWork | EraseWork | Crc32Work | Sha256Work

  datatype WorkUnit = WorkUnit(kind: WorkKind, bank: BankId, off: nat, len: nat)

  /** The units of one call: full units front to back, then one shorter remainder. */
  function UnitsOf(kind: WorkKind, id: BankId, off: nat, len: nat, size: nat): (us: seq<WorkUnit>)
    requires size > 0
    decreases len
  {
    if len == 0 then []
    else
      var n := Min(size, len);
      [WorkUnit(kind, id, off, n)] + UnitsOf(kind, id, off + n, len - n, size)
  }

  /** The units are non-empty, within the bound, and tile the requested range without gap or overlap. */
  lemma {:induction false} UnitsTileTheRange(kind: WorkKind, id: BankId, off: nat, len: nat, size: nat)
    requires size > 0
    ensures var us := UnitsOf(kind, id, off, len, size);
            && (forall i :: 0 <= i < |us| ==> us[i].kind == kind && us[i].bank == id && 0 < us[i].len <= size)
            && (us == [] <==> len == 0)
            && (us != [] ==> us[0].off == off && us[|us| - 1].off + us[|us| - 1].len == off + len)
            && (forall i :: 0 <= i < |us| - 1 ==> us[i].off + us[i].len == us[i + 1].off)
    decreases len
  {
    if len != 0 {
      UnitsTileTheRange(kind, id, off + Min(size, len), len - Min(size, len), size);
    }
  }

  /** Cutting the next unit off a plan. */
  lemma NextUnit(units: seq<WorkUnit>, done: nat, kind: WorkKind, id: BankId, off: nat, len: nat, size: nat)
    requires size > 0 && done <= |units| && units[done..] == UnitsOf(kind, id, off, len, size)
    ensures len == 0 ==> done == |units| && units[..done] == units
    ensures len > 0 ==> done < |units| && units[done] == WorkUnit(kind, id, off, Min(size, len)) && units[..done + 1] == units[..done] + [units[done]]
    ensures len > 0 ==> units[done + 1..] == UnitsOf(kind, id, off + Min(size, len), len - Min(size, len), size)
  {
    if len > 0 {
      assert units[done..][0] == units[done];
      assert units[done..][1..] == units[done + 1..];
    }
  }

  /** The worker's side of the permit exchange: a claim either yields the exact unit or is refused for good. */
  class UnitGate {
    var answers: seq<bool>
    ghost var performed: seq<WorkUnit>

    constructor (script: seq<bool>)
      ensures answers == script && performed == []
    {
      answers, performed := script, [];
    }

    ghost predicate NeverRefuses()
      reads this
    {
      forall i :: 0 <= i < |answers| ==> answers[i]
    }

    method Claim(u: WorkUnit) returns (granted: bool)
      modifies this
      ensures performed == if granted then old(performed) + [u] else old(performed)
      ensures old(NeverRefuses()) ==> granted && NeverRefuses()
    {
      granted := answers == [] || answers[0];
      answers := if answers == [] then [] else answers[1..];
      if granted { performed := performed + [u]; }
    }
  }

  class ChunkedBankStorage {
    const backend: BankStorage
    const gate: UnitGate

    constructor (backend: BankStorage, gate: UnitGate)
      ensures this.backend == backend && this.gate == gate
    {
      this.backend, this.gate := backend, gate;
    }

    /** Nothing in the environment will get in the way. */
    ghost predicate Undisturbed()
      reads backend, gate
    {
      backend.faults == [] && gate.NeverRefuses()
    }

    /** Claim one permit and perform exactly the described unit, or perform nothing. */
    method WriteUnit(id: BankId, off: nat, piece: seq<byte>) returns (io: IoResult)
      requires backend.Valid() && off + |piece| <= BANK_SIZE
      modifies backend`faults, backend.Cells(id), gate
      ensures backend.Valid()
      ensures WroteUpTo(old(backend.Bank(id)), backend.Bank(id), off, piece, io)
      ensures gate.performed == old(gate.performed) + [WorkUnit(WriteWork, id, off, |piece|)]
              || (gate.performed == old(gate.performed) && !io.IoOk?)
      ensures old(Undisturbed()) ==> Undisturbed()
      ensures old(Undisturbed()) && CanProgram(old(backend.Bank(id)), off, piece) ==> io.IoOk?
    {
      ghost var before := backend.Bank(id);
      assert piece[..|piece|] == piece;
      var granted := gate.Claim(WorkUnit(WriteWork, id, off, |piece|));
      if !granted {
        assert LaidOver(before, before, off, piece, 0);
        return IoUnavailable;
      }
      io := backend.Write(id, off, piece);
    }

    method EraseUnit(id: BankId, off: nat) returns (io: IoResult)
      requires backend.Valid() && off % ERASE_UNIT == 0 && off + ERASE_UNIT <= BANK_SIZE
      modifies backend`faults, backend.Cells(id), gate
      ensures backend.Valid()
      ensures ErasedUpTo(old(backend.Bank(id)), backend.Bank(id), off, ERASE_UNIT, io)
      ensures gate.performed == old(gate.performed) + [WorkUnit(EraseWork, id, off, ERASE_UNIT)]
              || (gate.performed == old(gate.performed) && !io.IoOk?)
      ensures old(Undisturbed()) ==> Undisturbed() && io.IoOk?
    {
      ghost var before := backend.Bank(id);
      var granted := gate.Claim(WorkUnit(EraseWork, id, off, ERASE_UNIT));
      if !granted {
        assert LaidOver(before, before, off, Fill(ERASE_UNIT, 0xFF), 0);
        return IoUnavailable;
      }
      io := backend.Erase(id, off, ERASE_UNIT);
    }

    method Write(id: BankId, off: nat, data: seq<byte>) returns (io: IoResult)
      requires backend.Valid()
      modifies backend`faults, backend.Cells(id), gate
      ensures backend.Valid()
      ensures WroteUpTo(old(backend.Bank(id)), backend.Bank(id), off, data, io)
      // A bad range is refused before the first permit and before any storage call.
      ensures !InRange(off, |data|) ==> io.IoOutOfBounds? && backend.faults == old(backend.faults)
      ensures PerformedPrefix(old(gate.performed), gate.performed, io,
                              if InRange(off, |data|) then UnitsOf(WriteWork, id, off, |data|, READ_WRITE_UNIT) else [])
      // Without faults or refusals it is the single plain call.
      ensures InRange(off, |data|) && CanProgram(old(backend.Bank(id)), off, data) && old(Undisturbed()) ==>
        (io, backend.Bank(id)) == WriteEffect(old(backend.Bank(id)), off, data, NoFault)
    {
      hide Overlay, WriteEffect, CanProgram, WroteUpTo, Programmed, LaidOver, UnitsOf;
      ghost var before, log := backend.Bank(id), gate.performed;
      if !InRange(off, |data|) {
        NothingWritten(before, off, data, IoOutOfBounds);
        NothingPerformed(log, IoOutOfBounds);
        return IoOutOfBounds;
      }
      ghost var units := UnitsOf(WriteWork, id, off, |data|, READ_WRITE_UNIT);
      var consumed := 0;
      NothingWritten(before, off, data, IoOutOfBounds);
      ghost var done := 0;
      while consumed < |data|
        invariant backend.Valid() && 0 <= consumed <= |data| && done <= |units|
        invariant units[done..] == UnitsOf(WriteWork, id, off + consumed, |data| - consumed, READ_WRITE_UNIT)
        invariant gate.performed == log + units[..done]
        invariant LaidOver(before, backend.Bank(id), off, data, consumed)
        invariant old(Undisturbed()) ==> Undisturbed()
      {
        var amount := Min(READ_WRITE_UNIT, |data| - consumed);
        NextUnit(units, done, WriteWork, id, off + consumed, |data| - consumed, READ_WRITE_UNIT);
        ghost var here := backend.Bank(id);
        if CanProgram(before, off, data) { StillProgrammable(before, here, off, data, consumed, amount); }
        var r := WriteUnit(id, off + consumed, data[consumed..consumed + amount]);
        if gate.performed != log + units[..done] { done := done + 1; }
        ExtendPrefix(before, here, backend.Bank(id), off, data, consumed, amount, r);
        if !r.IoOk? { return r; }
        consumed := consumed + amount;
      }
      CompletePrefix(before, backend.Bank(id), off, data);
      NextUnit(units, done, WriteWork, id, off + consumed, 0, READ_WRITE_UNIT);
      io := IoOk;
    }

    method Erase(id: BankId, off: nat, len: nat) returns (io: IoResult)
      requires backend.Valid()
      modifies backend`faults, backend.Cells(id), gate
      ensures backend.Valid()
      ensures ErasedUpTo(old(backend.Bank(id)), backend.Bank(id), off, len, io)
      ensures off % ERASE_UNIT != 0 || len % ERASE_UNIT != 0 ==> io.IoNotAligned? && backend.faults == old(backend.faults)
      ensures off % ERASE_UNIT == 0 && len % ERASE_UNIT == 0 && !InRange(off, len) ==>
        io.IoOutOfBounds? && backend.faults == old(backend.faults)
      ensures PerformedPrefix(old(gate.performed), gate.performed, io,
                              if off % ERASE_UNIT == 0 && len % ERASE_UNIT == 0 && InRange(off, len)
                              then UnitsOf(EraseWork, id, off, len, ERASE_UNIT) else [])
      ensures old(Undisturbed()) ==>
        (io, backend.Bank(id)) == EraseEffect(old(backend.Bank(id)), off, len, NoFault)
    {
      hide Overlay, WroteUpTo, LaidOver, UnitsOf;
      ghost var before, log, data := backend.Bank(id), gate.performed, Fill(len, 0xFF);
      if off % ERASE_UNIT != 0 || len % ERASE_UNIT != 0 {
        NothingWritten(before, off, data, IoNotAligned);
        NothingPerformed(log, IoNotAligned);
        return IoNotAligned;
      }
      NothingWritten(before, off, data, IoOutOfBounds);
      NothingPerformed(log, IoOutOfBounds);
      if !InRange(off, len) { return IoOutOfBounds; }
      ghost var units := UnitsOf(EraseWork, id, off, len, ERASE_UNIT);
      var consumed := 0;
      ghost var done := 0;
      while consumed < len
        invariant backend.Valid() && 0 <= consumed <= len && consumed % ERASE_UNIT == 0 && done <= |units|
        invariant units[done..] == UnitsOf(EraseWork, id, off + consumed, len - consumed, ERASE_UNIT)
        invariant gate.performed == log + units[..done]
        invariant LaidOver(before, backend.Bank(id), off, data, consumed)
        invariant old(Undisturbed()) ==> Undisturbed()
      {
        NextUnit(units, done, EraseWork, id, off + consumed, len - consumed, ERASE_UNIT);
        ghost var here := backend.Bank(id);
        var r := EraseUnit(id, off + consumed);
        if gate.performed != log + units[..done] { done := done + 1; }
        assert Fill(ERASE_UNIT, 0xFF) == data[consumed..consumed + ERASE_UNIT];
        ExtendPrefix(before, here, backend.Bank(id), off, data, consumed, ERASE_UNIT, r);
        if !r.IoOk? { return r; }
        consumed := consumed + ERASE_UNIT;
      }
      CompletePrefix(before, backend.Bank(id), off, data);
      NextUnit(units, done, EraseWork, id, off + consumed, 0, ERASE_UNIT);
      io := IoOk;
    }

    method ReadUnit(id: BankId, off: nat, len: nat) returns (io: IoResult, piece: seq<byte>)
      requires backend.Valid() && off + len <= BANK_SIZE
      modifies backend`faults, gate
      ensures io.IoOk? ==> piece == backend.Bank(id)[off..off + len]
      ensures gate.performed == old(gate.performed) + [WorkUnit(ReadWork, id, off, len)]
              || (gate.performed == old(gate.performed) && !io.IoOk?)
      ensures old(Undisturbed()) ==> Undisturbed() && io.IoOk?
    {
      var granted := gate.Claim(WorkUnit(ReadWork, id, off, len));
      if !granted { return IoUnavailable, []; }
      io, piece := backend.Read(id, off, len);
    }

    method Read(id: BankId, off: nat, len: nat) returns (io: IoResult, data: seq<byte>)
      requires backend.Valid()
      modifies backend`faults, gate
      ensures backend.Valid()
      ensures io.IoOk? ==> InRange(off, len) && data == backend.Bank(id)[off..off + len]
      ensures !InRange(off, len) ==> io.IoOutOfBounds? && gate.performed == old(gate.performed)
      // Every octet came from a unit of its own permit, front to back.
      ensures InRange(off, len) ==> PerformedPrefix(old(gate.performed), gate.performed, io, UnitsOf(ReadWork, id, off, len, READ_WRITE_UNIT))
      ensures InRange(off, len) && old(Undisturbed()) ==> io.IoOk?
    {
      hide UnitsOf;
      if !InRange(off, len) { return IoOutOfBounds, []; }
      ghost var log, units, done := gate.performed, UnitsOf(ReadWork, id, off, len, READ_WRITE_UNIT), 0;
      data := [];
      while |data| < len
        invariant backend.Valid() && |data| <= len && done <= |units|
        invariant data == backend.Bank(id)[off..off + |data|]
        invariant units[done..] == UnitsOf(ReadWork, id, off + |data|, len - |data|, READ_WRITE_UNIT)
        invariant gate.performed == log + units[..done]
        invariant old(Undisturbed()) ==> Undisturbed()
      {
        NextUnit(units, done, ReadWork, id, off + |data|, len - |data|, READ_WRITE_UNIT);
        var amount := Min(READ_WRITE_UNIT, len - |data|);
        var r, piece := ReadUnit(id, off + |data|, amount);
        if gate.performed != log + units[..done] { done := done + 1; }
        if !r.IoOk? { return r, []; }
        SliceExtends(backend.Bank(id), off, |data|, amount);
        data := data + piece;
      }
      NextUnit(units, done, ReadWork, id, off + |data|, 0, READ_WRITE_UNIT);
      io := IoOk;
    }
  }

  lemma SliceExtends(bank: seq<byte>, off: nat, n: nat, more: nat)
    requires off + n + more <= |bank|
    ensures bank[off..off + n + more] == bank[off..off + n] + bank[off + n..off + n + more]
  {
    var all, front, back := bank[off..off + n + more], bank[off..off + n], bank[off + n..off + n + more];
    forall k | 0 <= k < n + more ensures all[k] == (front + back)[k] {
      if k >= n { assert back[k - n] == bank[off + k]; }
    }
  }

  /** All planned units ran, or an error stopped the call after some prefix of them. */
  ghost predicate PerformedPrefix(log: seq<WorkUnit>, log': seq<WorkUnit>, io: IoResult, units: seq<WorkUnit>) {
    exists n: nat :: n <= |units| && log' == log + units[..n] && (io.IoOk? ==> n == |units|)
  }

  lemma NothingPerformed(log: seq<WorkUnit>, io: IoResult)
    ensures PerformedPrefix(log, log, io, [])
  {
    var none: seq<WorkUnit> := [];
    assert log == log + none[..0];
  }

  lemma NothingWritten(bank: seq<byte>, off: nat, data: seq<byte>, io: IoResult)
    requires !io.IoOk?
    ensures LaidOver(bank, bank, off, data, 0) && WroteUpTo(bank, bank, off, data, io)
  {
    assert LaidOver(bank, bank, off, data, 0);
  }

  /** The part not yet reached still takes its data. */
  lemma StillProgrammable(before: seq<byte>, here: seq<byte>, off: nat, data: seq<byte>, consumed: nat, amount: nat)
    requires consumed + amount <= |data| && off + |data| <= |before|
    requires LaidOver(before, here, off, data, consumed)
    requires CanProgram(before, off, data)
    ensures off + consumed + amount <= |here|
    ensures CanProgram(here, off + consumed, data[consumed..consumed + amount])
  {
    var piece := data[consumed..consumed + amount];
    forall i | 0 <= i < amount ensures here[off + consumed + i] & piece[i] == piece[i] {
      var j := consumed + i;
      assert before[off + j] & data[j] == data[j];
      assert here[off + j] == before[off + j];
    }
  }

  /** One more unit, whole or torn, extends the prefix already laid over the bank. */
  lemma ExtendPrefix(before: seq<byte>, here: seq<byte>, after: seq<byte>, off: nat, data: seq<byte>,
                     consumed: nat, amount: nat, r: IoResult)
    requires consumed + amount <= |data| && off + |data| <= |before|
    requires LaidOver(before, here, off, data, consumed)
    requires WroteUpTo(here, after, off + consumed, data[consumed..consumed + amount], r)
    ensures r.IoOk? ==> LaidOver(before, after, off, data, consumed + amount)
    ensures !r.IoOk? ==> WroteUpTo(before, after, off, data, r)
  {
    var unit := data[consumed..consumed + amount];
    var k: nat :| k <= |unit| && LaidOver(here, after, off + consumed, unit, k) && (r.IoOk? ==> k == |unit|);
    assert unit[..k] == data[consumed..consumed + k];
    assert consumed + k != 0 ==> after == Overlay(before, off, data[..consumed + k]);
    assert LaidOver(before, after, off, data, consumed + k);
  }

  lemma CompletePrefix(before: seq<byte>, after: seq<byte>, off: nat, data: seq<byte>)
    requires off + |data| <= |before| == BANK_SIZE
    requires LaidOver(before, after, off, data, |data|)
    ensures WroteUpTo(before, after, off, data, IoOk)
    ensures after == Overlay(before, off, data)
    ensures CanProgram(before, off, data) ==> WriteEffect(before, off, data, NoFault) == (IoOk, after)
  {
    assert data[..|data|] == data;
    assert |data| == 0 ==> Overlay(before, off, data) == before;
    if CanProgram(before, off, data) { ProgramIsOverlay(before, off, data); }
  }
}
