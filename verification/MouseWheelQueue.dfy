/** The wheel queue: consecutive movement in one direction accumulates, a reversal never cancels what came before. */
module MouseWheelQueue {
  import opened RingBuffers
  import opened HidReportQueue

  const WHEEL_CAPACITY: nat := 32
  const LIMIT: int := 32767

  datatype Wheel = Wheel(sequence: Sequence, vertical: int, horizontal: int, queuedMs: nat, owner: BleOwner, usbEpoch: nat)

  datatype WheelResult = Refused | Fresh(sequence: Sequence) | Merged(sequence: Sequence, saturated: bool) {
    predicate Accepted() {
      !Refused?
    }
  }

  function Clamped(v: int): int {
    if v > LIMIT then LIMIT else if v < -LIMIT then -LIMIT else v
  }

  predicate SameOrEmptyDirection(current: int, incoming: int) {
    current == 0 || incoming == 0 || (current > 0) == (incoming > 0)
  }

  predicate Merges(q: seq<Wheel>, v: int, h: int, owner: BleOwner, usbEpoch: nat) {
    && q != []
    && var t := q[|q| - 1];
       t.owner == owner && t.usbEpoch == usbEpoch && SameOrEmptyDirection(t.vertical, v) && SameOrEmptyDirection(t.horizontal, h)
  }

  function WheelPushed(q: seq<Wheel>, v: int, h: int, ms: nat, owner: BleOwner, usbEpoch: nat, next: Sequence): (r: (seq<Wheel>, WheelResult)) {
    if v == 0 && h == 0 then (q, Refused)
    else if Merges(q, v, h, owner, usbEpoch) then
      var t := q[|q| - 1];
      (q[|q| - 1 := t.(vertical := Clamped(t.vertical + v), horizontal := Clamped(t.horizontal + h))],
       Merged(t.sequence, Clamped(t.vertical + v) != t.vertical + v || Clamped(t.horizontal + h) != t.horizontal + h))
    else if |q| >= WHEEL_CAPACITY then (q, Refused)
    else (q + [Wheel(next, Clamped(v), Clamped(h), ms, owner, usbEpoch)], Fresh(next))
  }

  /** A part of what is pending, in its own direction. */
  predicate ValidConsumption(pending: int, consumed: int) {
    consumed == 0 || (pending > 0 && 0 < consumed <= pending) || (pending < 0 && pending <= consumed < 0)
  }

  function Consumed(q: seq<Wheel>, sequence: Sequence, v: int, h: int): (r: (seq<Wheel>, bool)) {
    if q == [] || q[0].sequence != sequence || !ValidConsumption(q[0].vertical, v) || !ValidConsumption(q[0].horizontal, h) then (q, false)
    else if q[0].vertical == v && q[0].horizontal == h then (q[1..], true)
    else (q[0 := q[0].(vertical := q[0].vertical - v, horizontal := q[0].horizontal - h)], true)
  }

  function Total(q: seq<Wheel>): (t: (int, int)) {
    if q == [] then (0, 0)
    else
      var t := Total(q[..|q| - 1]);
      (t.0 + q[|q| - 1].vertical, t.1 + q[|q| - 1].horizontal)
  }

  /** Every entry moves, within the limit. */
  predicate Moving(q: seq<Wheel>) {
    && |q| <= WHEEL_CAPACITY
    && forall i :: 0 <= i < |q| ==>
         && (q[i].vertical != 0 || q[i].horizontal != 0)
         && -LIMIT <= q[i].vertical <= LIMIT && -LIMIT <= q[i].horizontal <= LIMIT
  }

  lemma PushMoves(q: seq<Wheel>, v: int, h: int, ms: nat, owner: BleOwner, usbEpoch: nat, next: Sequence)
    requires Moving(q)
    ensures Moving(WheelPushed(q, v, h, ms, owner, usbEpoch, next).0)
  {
  }

  lemma ConsumeMoves(q: seq<Wheel>, sequence: Sequence, v: int, h: int)
    requires Moving(q)
    ensures Moving(Consumed(q, sequence, v, h).0)
  {
  }

  /** Nothing is lost on either axis exactly when nothing had to be clamped; a fresh entry is clamped without being reported as saturated. */
  lemma PushConserves(q: seq<Wheel>, v: int, h: int, ms: nat, owner: BleOwner, usbEpoch: nat, next: Sequence)
    ensures var (q', r) := WheelPushed(q, v, h, ms, owner, usbEpoch, next);
            && (r.Refused? ==> q' == q)
            && (r.Merged? ==> (!r.saturated <==> Total(q') == (Total(q).0 + v, Total(q).1 + h)))
            && (r.Fresh? ==> (-LIMIT <= v <= LIMIT && -LIMIT <= h <= LIMIT <==> Total(q') == (Total(q).0 + v, Total(q).1 + h)))
  {
    hide Total;
    var (q', r) := WheelPushed(q, v, h, ms, owner, usbEpoch, next);
    if r.Merged? { TotalLast(q, q'[|q| - 1]); }
    if r.Fresh? { TotalAppend(q, q'[|q|]); }
  }

  lemma TotalAppend(q: seq<Wheel>, x: Wheel)
    ensures Total(q + [x]) == (Total(q).0 + x.vertical, Total(q).1 + x.horizontal)
  {
    assert (q + [x])[..|q|] == q;
  }

  lemma TotalLast(q: seq<Wheel>, x: Wheel)
    requires q != []
    ensures Total(q[|q| - 1 := x]) == (Total(q).0 - q[|q| - 1].vertical + x.vertical, Total(q).1 - q[|q| - 1].horizontal + x.horizontal)
  {
    assert q[|q| - 1 := x][..|q| - 1] == q[..|q| - 1];
  }

  lemma {:induction false} TotalHead(q: seq<Wheel>)
    requires q != []
    ensures Total(q) == (q[0].vertical + Total(q[1..]).0, q[0].horizontal + Total(q[1..]).1)
  {
    if |q| == 1 {
      assert q[..0] == [] && q[1..] == [];
    } else {
      TotalHead(q[..|q| - 1]);
      assert q[..|q| - 1][1..] == q[1..][..|q| - 2];
    }
  }

  /** What is consumed leaves the total, exactly. */
  lemma ConsumeConserves(q: seq<Wheel>, sequence: Sequence, v: int, h: int)
    ensures var (q', ok) := Consumed(q, sequence, v, h);
            Total(q') == if ok then (Total(q).0 - v, Total(q).1 - h) else Total(q)
  {
    hide Total;
    var (q', ok) := Consumed(q, sequence, v, h);
    if ok {
      TotalHead(q);
      if q[0].vertical != v || q[0].horizontal != h {
        TotalHead(q');
        assert q'[1..] == q[1..];
      }
    }
  }

  const NO_WHEEL := Wheel(1, 0, 0, 0, NO_OWNER, 0)

  class WheelQueue {
    const cells: array<Wheel>
    var head: nat
    var size: nat
    var nextSequence: Sequence

    ghost predicate Valid()
      reads this, cells
      ensures Valid() ==> cells.Length == WHEEL_CAPACITY && head < WHEEL_CAPACITY && size <= WHEEL_CAPACITY
    {
      cells.Length == WHEEL_CAPACITY && head < WHEEL_CAPACITY && size <= WHEEL_CAPACITY && Moving(Contents())
    }

    ghost function Contents(): (q: seq<Wheel>)
      reads this, cells
      requires cells.Length == WHEEL_CAPACITY && head < WHEEL_CAPACITY && size <= WHEEL_CAPACITY
      ensures |q| == size
    {
      Ring(cells[..], head, size)
    }

    constructor ()
      ensures Valid() && Contents() == [] && nextSequence == 1 && fresh(cells)
    {
      cells := new Wheel[WHEEL_CAPACITY](_ => NO_WHEEL);
      head, size, nextSequence := 0, 0, 1;
    }

    method Push(v: int, h: int, ms: nat, owner: BleOwner, usbEpoch: nat) returns (r: WheelResult)
      requires Valid()
      modifies this, cells
      ensures Valid()
      ensures (Contents(), r) == WheelPushed(old(Contents()), v, h, ms, owner, usbEpoch, old(nextSequence))
    {
      hide Moving;
      PushMoves(Contents(), v, h, ms, owner, usbEpoch, nextSequence);
      if v == 0 && h == 0 { return Refused; }
      if size > 0 {
        var slot := Slot(head, size - 1, WHEEL_CAPACITY);
        var t := cells[slot];
        assert t == Contents()[size - 1];
        if t.owner == owner && t.usbEpoch == usbEpoch && SameOrEmptyDirection(t.vertical, v) && SameOrEmptyDirection(t.horizontal, h) {
          var merged := t.(vertical := Clamped(t.vertical + v), horizontal := Clamped(t.horizontal + h));
          RingReplace(cells[..], head, size, size - 1, merged);
          cells[slot] := merged;
          return Merged(t.sequence, Clamped(t.vertical + v) != t.vertical + v || Clamped(t.horizontal + h) != t.horizontal + h);
        }
      }
      if size >= WHEEL_CAPACITY { return Refused; }
      var fresh' := Wheel(nextSequence, Clamped(v), Clamped(h), ms, owner, usbEpoch);
      RingPush(cells[..], head, size, fresh');
      cells[Slot(head, size, WHEEL_CAPACITY)] := fresh';
      size, nextSequence, r := size + 1, NextSequence(nextSequence), Fresh(nextSequence);
    }

    method Front() returns (found: bool, w: Wheel)
      requires Valid()
      ensures found == (Contents() != [])
      ensures found ==> w == Contents()[0]
    {
      found, w := size > 0, cells[head];
    }

    method ConsumeIfSequence(sequence: Sequence, v: int, h: int) returns (ok: bool)
      requires Valid()
      modifies this, cells
      ensures Valid() && nextSequence == old(nextSequence)
      ensures (Contents(), ok) == Consumed(old(Contents()), sequence, v, h)
    {
      hide Moving;
      ConsumeMoves(Contents(), sequence, v, h);
      if size == 0 { return false; }
      RingPop(cells[..], head, size, NO_WHEEL);
      var w := cells[head];
      if w.sequence != sequence || !ValidConsumption(w.vertical, v) || !ValidConsumption(w.horizontal, h) { return false; }
      var rest := w.(vertical := w.vertical - v, horizontal := w.horizontal - h);
      if rest.vertical == 0 && rest.horizontal == 0 {
        cells[head] := NO_WHEEL;
        head, size := Slot(head, 1, WHEEL_CAPACITY), size - 1;
      } else {
        RingReplace(cells[..], head, size, 0, rest);
        cells[head] := rest;
      }
      ok := true;
    }

    /** Drop the whole head entry. */
    method PopIfSequence(sequence: Sequence) returns (popped: bool)
      requires Valid()
      modifies this, cells
      ensures Valid() && nextSequence == old(nextSequence)
      ensures popped == (old(Contents()) != [] && old(Contents())[0].sequence == sequence)
      ensures Contents() == if popped then old(Contents())[1..] else old(Contents())
    {
      if size == 0 { return false; }
      RingPop(cells[..], head, size, NO_WHEEL);
      if cells[head].sequence != sequence { return false; }
      cells[head] := NO_WHEEL;
      head, size, popped := Slot(head, 1, WHEEL_CAPACITY), size - 1, true;
    }

    method Clear()
      requires Valid()
      modifies this, cells
      ensures Valid() && Contents() == [] && nextSequence == old(nextSequence)
    {
      forall i | 0 <= i < WHEEL_CAPACITY { cells[i] := NO_WHEEL; }
      head, size := 0, 0;
    }
  }
}
