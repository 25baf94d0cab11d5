/** A fixed array read as a queue that wraps around. */
module RingBuffers {
  function Slot(head: nat, i: nat, capacity: nat): (s: nat)
    requires head < capacity && i <= capacity
    ensures s < capacity && (s == head + i || s == head + i - capacity)
  {
    if head + i < capacity then head + i else head + i - capacity
  }

  /** The queue contents, front first. */
  function Ring<T>(cells: seq<T>, head: nat, size: nat): (q: seq<T>)
    requires head < |cells| && size <= |cells|
    ensures |q| == size
  {
    seq(size, i requires 0 <= i < size => cells[Slot(head, i, |cells|)])
  }

  lemma RingPush<T>(cells: seq<T>, head: nat, size: nat, x: T)
    requires head < |cells| && size < |cells|
    ensures Ring(cells[Slot(head, size, |cells|) := x], head, size + 1) == Ring(cells, head, size) + [x]
  {
  }

  lemma RingPop<T>(cells: seq<T>, head: nat, size: nat, x: T)
    requires head < |cells| && 0 < size <= |cells|
    ensures Ring(cells, head, size)[0] == cells[head]
    ensures Ring(cells[head := x], Slot(head, 1, |cells|), size - 1) == Ring(cells, head, size)[1..]
  {
    var after := Ring(cells[head := x], Slot(head, 1, |cells|), size - 1);
    forall i | 0 <= i < size - 1 ensures after[i] == Ring(cells, head, size)[1..][i] {
      assert Slot(Slot(head, 1, |cells|), i, |cells|) == Slot(head, i + 1, |cells|) != head;
    }
  }

  lemma RingReplace<T>(cells: seq<T>, head: nat, size: nat, i: nat, x: T)
    requires head < |cells| && i < size <= |cells|
    ensures Ring(cells, head, size)[i] == cells[Slot(head, i, |cells|)]
    ensures Ring(cells[Slot(head, i, |cells|) := x], head, size) == Ring(cells, head, size)[i := x]
  {
  }
}
