/** The callback-facing mailbox: closes overtake data, and one logical request at a time is admitted over all transports. */
module RuntimeMailbox {
  import opened Options
  import AssetsSession

  const DATA_CAPACITY: nat := 20
  const CLOSE_CAPACITY: nat := 8
  const MAX_ADMISSION: nat := 0xFFFF_FFFF_FFFF_FFFF

  type Route = AssetsSession.Route
  type Request = AssetsSession.Request

  /** The right to have one request outstanding. Identifiers are never reused. */
  datatype Lease = Lease(route: Route, id: nat)

  datatype Item = Opened(route: Route) | Closed(route: Route) | AllClosed(route: Route) | Frame(route: Route, id: nat, content: Content)

  /** What the physical frame decodes to, if it decodes at all. */
  datatype Content = Garbage | Logical(f: Request)

  datatype EnqueueResult = Accepted | Coalesced | Full | InvalidArgument

  function Without(data: seq<Item>, r: Route): (kept: seq<Item>)
    ensures |kept| <= |data|
    ensures forall i :: 0 <= i < |kept| ==> kept[i] in data && kept[i].route != r
    ensures forall x :: x in data && x.route != r ==> x in kept
  {
    if data == [] then [] else Without(data[..|data| - 1], r) + (if data[|data| - 1].route == r then [] else [data[|data| - 1]])
  }

  function WithoutId(data: seq<Item>, id: nat): (kept: seq<Item>)
    ensures |kept| <= |data|
    ensures forall i :: 0 <= i < |kept| ==> kept[i] in data && !(kept[i].Frame? && kept[i].id == id)
    ensures forall x :: x in data && !x.Frame? ==> x in kept
  {
    if data == [] then []
    else WithoutId(data[..|data| - 1], id) + (if data[|data| - 1].Frame? && data[|data| - 1].id == id then [] else [data[|data| - 1]])
  }

  /** Every open becomes a tombstone, every payload is dropped. */
  function FailClosed(data: seq<Item>): (kept: seq<Item>)
    ensures |kept| <= |data|
    ensures forall i :: 0 <= i < |kept| ==> kept[i].Closed?
  {
    if data == [] then []
    else
      var last := data[|data| - 1];
      FailClosed(data[..|data| - 1]) + (if last.Opened? || last.Closed? then [Closed(last.route)] else [])
  }

  function Frames(data: seq<Item>): nat {
    if data == [] then 0 else Frames(data[..|data| - 1]) + (if data[|data| - 1].Frame? then 1 else 0)
  }

  /** Tombstones left over from a revocation are ahead of everything newer. */
  predicate TombstonesFirst(data: seq<Item>) {
    forall i, j :: 0 <= i < j < |data| && data[j].Closed? ==> data[i].Closed?
  }

  predicate OnlyTombstones(data: seq<Item>) {
    forall i :: 0 <= i < |data| ==> data[i].Closed?
  }

  /** Every frame waiting is the one that the current lease was given for. */
  predicate Leased(data: seq<Item>, lease: Option<Lease>) {
    forall i :: 0 <= i < |data| && data[i].Frame? ==> lease == Some(Lease(data[i].route, data[i].id))
  }

  /** What dropping items keeps. */
  predicate Fewer(kept: seq<Item>, data: seq<Item>) {
    && Frames(kept) <= Frames(data) && (TombstonesFirst(data) ==> TombstonesFirst(kept))
    && (forall i :: 0 <= i < |kept| ==> kept[i] in data)
  }

  lemma {:induction false} FewerWithout(data: seq<Item>, r: Route)
    ensures Fewer(Without(data, r), data)
  {
    if data != [] {
      var front, last := data[..|data| - 1], data[|data| - 1];
      FewerWithout(front, r);
      FewerStep(Without(front, r), front, last, last.route != r);
    }
  }

  lemma {:induction false} FewerWithoutId(data: seq<Item>, id: nat)
    ensures Fewer(WithoutId(data, id), data)
  {
    if data != [] {
      var front, last := data[..|data| - 1], data[|data| - 1];
      FewerWithoutId(front, id);
      FewerStep(WithoutId(front, id), front, last, !(last.Frame? && last.id == id));
    }
  }

  lemma FewerStep(kept: seq<Item>, front: seq<Item>, last: Item, keep: bool)
    requires Fewer(kept, front)
    ensures Fewer(kept + (if keep then [last] else []), front + [last])
  {
    var data := front + [last];
    FramesAppend(front, last);
    assert TombstonesFirst(data) ==> TombstonesFirst(front) by {
      if TombstonesFirst(data) {
        forall i, j | 0 <= i < j < |front| && front[j].Closed? ensures front[i].Closed? { assert data[i] == front[i] && data[j] == front[j]; }
      }
    }
    assert forall x :: x in front ==> x in data;
    if keep {
      FramesAppend(kept, last);
      if TombstonesFirst(data) && last.Closed? {
        forall x | x in front ensures x.Closed? {
          var i :| 0 <= i < |front| && front[i] == x;
          assert data[i] == x && data[|front|] == last;
        }
      }
    } else {
      assert kept + [] == kept;
    }
  }

  lemma {:induction false} OthersStay(data: seq<Item>, r: Route)
    requires forall i :: 0 <= i < |data| && data[i].Frame? ==> data[i].route != r
    ensures Frames(Without(data, r)) == Frames(data)
  {
    if data != [] {
      var front, last := data[..|data| - 1], data[|data| - 1];
      OthersStay(front, r);
      FramesAppend(Without(front, r), last);
      assert Without(front, r) + [] == Without(front, r);
    }
  }

  lemma {:induction false} NoFrameLeft(data: seq<Item>)
    requires forall i :: 0 <= i < |data| ==> !data[i].Frame?
    ensures Frames(data) == 0
  {
    NoFrames(data);
  }

  lemma FramesAppend(data: seq<Item>, i: Item)
    ensures Frames(data + [i]) == Frames(data) + (if i.Frame? then 1 else 0)
  {
    assert (data + [i])[..|data|] == data;
  }

  lemma {:induction false} NoFrames(data: seq<Item>)
    ensures Frames(data) == 0 <==> forall i :: 0 <= i < |data| ==> !data[i].Frame?
  {
    if data != [] { NoFrames(data[..|data| - 1]); }
  }

  lemma {:induction false} FramesTail(data: seq<Item>)
    requires data != []
    ensures Frames(data) == Frames(data[1..]) + (if data[0].Frame? then 1 else 0)
  {
    if |data| == 1 {
      assert data[..0] == [] && data[1..] == [];
    } else {
      FramesTail(data[..|data| - 1]);
      assert data[..|data| - 1][1..] == data[1..][..|data| - 2];
    }
  }

  class Mailbox {
    var data: seq<Item>
    var closes: seq<Route>
    var lease: Option<Lease>
    var nextId: nat
    var revokeAll: Option<Route>
    var failClosed: bool

    ghost predicate Inv()
      reads this
    {
      && |data| <= DATA_CAPACITY && |closes| <= CLOSE_CAPACITY && nextId <= MAX_ADMISSION
      // One logical request at most, and its one frame.
      && Frames(data) <= 1 && Leased(data, lease) && (lease.None? ==> Frames(data) == 0)
      && (lease.Some? ==> 0 < lease.value.id && lease.value.id < NextBound() && lease.value.route.Valid())
      && (forall i :: 0 <= i < |data| ==> !data[i].AllClosed?)
      // While everything is being revoked, only tombstones wait.
      && (revokeAll.Some? ==> lease.None? && OnlyTombstones(data))
      && TombstonesFirst(data)
      // A route on its way out holds no request.
      && (lease.Some? ==> !ClosePending(lease.value.route))
    }

    /** Every identifier issued so far is below this. */
    ghost function NextBound(): nat
      reads this`nextId
    {
      if nextId == 0 then MAX_ADMISSION + 1 else nextId
    }

    constructor ()
      ensures Inv() && data == [] && lease.None?
    {
      data, closes, lease, nextId, revokeAll, failClosed := [], [], None, 1, None, false;
    }

    predicate ClosePending(r: Route)
      reads this
    {
      revokeAll == Some(r) || r in closes || Closed(r) in data
    }

    /** Everything of this route in the core is about to be revoked. */
    ghost predicate Leaving(r: Route)
      reads this
    {
      revokeAll.Some? || ClosePending(r)
    }

    /** The current request's frame has not been taken yet. */
    ghost predicate Queued()
      reads this`data
    {
      Frames(data) > 0
    }

    /** Nothing but another outstanding request can keep a frame of this route out. */
    predicate Receptive(r: Route)
      reads this
    {
      !ClosePending(r) && revokeAll.None? && !failClosed && |data| < DATA_CAPACITY && nextId != 0
    }

    method RetainTombstone(r: Route) returns (e: EnqueueResult)
      requires Inv() && revokeAll.Some?
      modifies this`data, this`lease, this`failClosed
      ensures Inv() && lease == old(lease) && (failClosed || ClosePending(r))
      ensures e.Accepted? || e.Coalesced?
      ensures Queued() == old(Queued()) && (old(failClosed) ==> failClosed) && forall x :: old(Leaving(x)) ==> Leaving(x)
    {
      if ClosePending(r) { return Coalesced; }
      if |data| >= DATA_CAPACITY {
        failClosed := true;
        return Accepted;
      }
      Append(Closed(r), lease);
      e := Accepted;
    }

    method EnqueueOpened(r: Route) returns (e: EnqueueResult)
      requires Inv()
      modifies this`data, this`lease, this`failClosed
      ensures Inv() && lease == old(lease)
      ensures !r.Valid() ==> e.InvalidArgument? && unchanged(this)
      ensures r.Valid() && old(Receptive(r)) ==> e.Accepted? && data == old(data) + [Opened(r)] && !failClosed
      // An open never gets in behind a close of the same lifetime.
      ensures r.Valid() && (old(failClosed) || old(ClosePending(r))) ==> e.Coalesced? && unchanged(this)
      ensures Queued() == old(Queued()) && (old(failClosed) ==> failClosed) && forall x :: old(Leaving(x)) ==> Leaving(x)
    {
      if !r.Valid() { return InvalidArgument; }
      if failClosed || ClosePending(r) { return Coalesced; }
      if revokeAll.Some? {
        e := RetainTombstone(r);
        return;
      }
      if |data| >= DATA_CAPACITY { return Full; }
      Append(Opened(r), lease);
      e := Accepted;
    }

    /** A close is never refused: nothing of its route stays behind it, and its request is revoked at once. */
    method EnqueueClosed(r: Route) returns (e: EnqueueResult)
      requires Inv()
      modifies this
      ensures Inv() && nextId == old(nextId)
      ensures !r.Valid() ==> e.InvalidArgument? && unchanged(this)
      ensures r.Valid() ==> e.Accepted? || e.Coalesced?
      ensures r.Valid() ==> failClosed || ClosePending(r)
      ensures r.Valid() ==> forall i :: 0 <= i < |data| && data[i].route == r ==> data[i].Closed?
      ensures r.Valid() ==> lease.None? || (lease == old(lease) && lease.value.route != r)
      ensures lease.Some? ==> lease == old(lease) && Queued() == old(Queued())
      ensures r.Valid() && !old(failClosed) && old(revokeAll).None? && |old(closes)| < CLOSE_CAPACITY && r !in old(closes) ==>
        e.Accepted? && closes == old(closes) + [r] && data == Without(old(data), r) && revokeAll.None? && !failClosed
      ensures old(failClosed) ==> failClosed
      ensures old(lease).Some? && lease.None? ==> failClosed || Leaving(old(lease).value.route)
      ensures lease.None? ==> !Queued()
      ensures failClosed || forall x :: old(Leaving(x)) ==> Leaving(x)
    {
      hide Frames, TombstonesFirst, Leased;
      if !r.Valid() { return InvalidArgument; }
      PurgeRoute(r);
      if failClosed { return Coalesced; }
      if revokeAll.Some? {
        e := RetainTombstone(r);
        return;
      }
      if ClosePending(r) { return Coalesced; }
      if |closes| >= CLOSE_CAPACITY {
        RevokeEverything(r);
        return Accepted;
      }
      FileClose(r);
      e := Accepted;
    }

    method FileClose(r: Route)
      requires Inv() && |closes| < CLOSE_CAPACITY && revokeAll.None? && (lease.None? || lease.value.route != r)
      modifies this`closes
      ensures Inv() && closes == old(closes) + [r] && ClosePending(r) && forall x :: old(Leaving(x)) ==> Leaving(x)
    {
      hide Frames, TombstonesFirst, Leased, OnlyTombstones;
      closes := closes + [r];
    }

    method PurgeRoute(r: Route)
      requires Inv()
      modifies this`data, this`lease
      ensures Inv() && (forall i :: 0 <= i < |data| ==> data[i].route != r && data[i] in old(data))
      ensures lease == if old(lease).Some? && old(lease).value.route == r then None else old(lease)
      ensures if lease.Some? then Queued() == old(Queued()) else !Queued()
      ensures data == Without(old(data), r)
      ensures forall x :: x in old(data) && x.route != r ==> x in data
    {
      hide Frames, TombstonesFirst;
      if lease.Some? && lease.value.route != r { OthersStay(data, r); }
      FewerWithout(data, r);
      data, lease := Without(data, r), if lease.Some? && lease.value.route == r then None else lease;
      if lease.None? { NoFrames(data); }
    }

    /** Too many disconnects at once: forget nothing, revoke everything. */
    method RevokeEverything(r: Route)
      requires Inv()
      modifies this`data, this`lease, this`revokeAll
      ensures Inv() && revokeAll == Some(r) && lease.None?
      ensures forall i :: 0 <= i < |data| ==> data[i].Closed?
    {
      NoFrameLeft(FailClosed(data));
      revokeAll, data, lease := Some(r), FailClosed(data), None;
    }

    /** A frame gets in only by claiming the single request, under an identifier never used before. */
    method EnqueueFrame(r: Route, content: Content, fits: bool) returns (e: EnqueueResult)
      requires Inv()
      modifies this`data, this`lease, this`nextId, this`failClosed
      ensures Inv()
      ensures e.Accepted? ==> old(lease).None? && old(Receptive(r))
      ensures e.Accepted? ==> lease == Some(Lease(r, old(nextId))) && data == old(data) + [Frame(r, old(nextId), content)]
      ensures e.Accepted? ==> NextBound() == old(NextBound()) + 1
      ensures !e.Accepted? ==> data == old(data) && lease == old(lease)
      ensures Queued() == (e.Accepted? || old(Queued())) && (old(failClosed) ==> failClosed)
      ensures NextBound() >= old(NextBound()) && forall x :: old(Leaving(x)) ==> Leaving(x)
      ensures old(lease).None? && r.Valid() && fits && old(Receptive(r)) ==> e.Accepted?
    {
      if r.transport.Reserved? || !fits { return InvalidArgument; }
      if revokeAll.Some? || failClosed || ClosePending(r) { return Full; }
      if lease.Some? { return Full; }
      if nextId == 0 {
        failClosed := true;
        return Full;
      }
      var id := nextId;
      nextId := if nextId == MAX_ADMISSION then 0 else nextId + 1;
      if !r.Valid() { return InvalidArgument; }
      if |data| >= DATA_CAPACITY { return Full; }
      NoLeaseNoFrames();
      Append(Frame(r, id, content), Some(Lease(r, id)));
      e := Accepted;
    }

    method Append(item: Item, lease': Option<Lease>)
      requires Inv() && |data| < DATA_CAPACITY && !item.AllClosed?
      requires item.Frame? ==> item.route.Valid() && lease.None? && lease' == Some(Lease(item.route, item.id)) && 0 < item.id < NextBound()
      requires item.Frame? ==> Frames(data) == 0 && forall i :: 0 <= i < |data| ==> !data[i].Frame?
      requires !item.Frame? ==> lease' == lease
      requires !item.Closed? ==> revokeAll.None?
      requires if item.Closed? then OnlyTombstones(data) && lease.None? else !ClosePending(item.route)
      modifies this`data, this`lease
      ensures Inv() && data == old(data) + [item] && lease == lease'
      ensures Frames(data) == Frames(old(data)) + (if item.Frame? then 1 else 0)
    {
      hide Frames;
      FramesAppend(data, item);
      data, lease := data + [item], lease';
    }

    lemma NoLeaseNoFrames()
      requires Inv() && lease.None?
      ensures Frames(data) == 0 && forall i :: 0 <= i < |data| ==> !data[i].Frame?
    {
      NoFrames(data);
    }

    /** Revocation first, then exact closes, then everything else in order. */
    function Next(): Option<Item>
      reads this`revokeAll, this`closes, this`data
    {
      if revokeAll.Some? then Some(AllClosed(revokeAll.value))
      else if closes != [] then Some(Closed(closes[0]))
      else if data != [] then Some(data[0]) else None
    }

    method TakeNext() returns (item: Option<Item>)
      requires Inv()
      modifies this`data, this`closes, this`revokeAll
      ensures Inv() && nextId == old(nextId) && lease == old(lease) && item == old(Next())
      ensures old(revokeAll).Some? ==> item == Some(AllClosed(old(revokeAll).value)) && revokeAll.None? && data == old(data) && closes == old(closes)
      ensures old(revokeAll).None? && old(closes) != [] ==> item == Some(Closed(old(closes)[0])) && closes == old(closes)[1..] && data == old(data)
      ensures old(revokeAll).None? ==> revokeAll.None? && (old(closes) == [] ==> closes == [])
      ensures old(revokeAll).None? && old(closes) == [] ==>
        item == (if old(data) == [] then None else Some(old(data)[0])) && data == (if old(data) == [] then [] else old(data)[1..])
      // So no frame is ever taken while a close of anything waits ahead of the data.
      ensures item.Some? && item.value.Frame? ==> lease == Some(Lease(item.value.route, item.value.id)) && forall x :: !Leaving(x)
      ensures item.Some? && item.value.Frame? ==> item.value.route.Valid() && item.value.id != 0 && old(Queued()) && !Queued()
      ensures item.None? || !item.value.Frame? ==> Queued() == old(Queued())
      // A close taken is of a route without a request; all other closes are still to come.
      ensures item.Some? && item.value.Closed? ==> lease.None? || lease.value.route != item.value.route
      ensures item.Some? && item.value.AllClosed? ==> lease.None?
      ensures forall x :: old(Leaving(x)) && (item.None? || (!item.value.AllClosed? && item.value != Closed(x))) ==> Leaving(x)
      ensures failClosed == old(failClosed)
    {
      if revokeAll.Some? {
        item, revokeAll := Some(AllClosed(revokeAll.value)), None;
        return;
      }
      if closes != [] {
        item, closes := Some(Closed(closes[0])), closes[1..];
        return;
      }
      if data == [] { return None; }
      FramesTail(data);
      item, data := Some(data[0]), data[1..];
    }

    /** Only the exact current lease releases; an old one, even of the same route, frees nothing. */
    method Release(l: Lease) returns (released: bool)
      requires Inv()
      modifies this`data, this`lease
      ensures Inv()
      ensures released <==> old(lease) == Some(l)
      ensures !released ==> unchanged(this)
      ensures Queued() == (old(Queued()) && !released)
      ensures released ==> lease.None? && forall i :: 0 <= i < |data| ==> !data[i].Frame? && data[i] in old(data)
      ensures failClosed == old(failClosed) && forall x :: old(Leaving(x)) ==> Leaving(x)
    {
      if lease.None? || l.id == 0 || l != lease.value { return false; }
      hide Frames, TombstonesFirst;
      FewerWithoutId(data, l.id);
      data, lease, released := WithoutId(data, l.id), None, true;
      NoFrames(data);
    }
  }
}
