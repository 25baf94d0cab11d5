/** The single-owner core behind the mailbox: lifecycle first, one frame or one action step at a time, and a slot for every answer. */
module RuntimeCore {
  import opened Options
  import opened RuntimeMailbox
  import S = AssetsSession

  const LIFECYCLE_CAPACITY: nat := 8
  const INGRESS_CAPACITY: nat := 20
  const REPLY_CAPACITY: nat := 4
  const ACTIVE_ROUTES: nat := 4

  datatype Life = Life(closed: bool, route: Route)

  datatype Ingress = Ingress(lease: Lease, content: Content)

  datatype Body = PausedForInputReply(f: Request) | Answer(reply: S.Reply)

  datatype Reply = Reply(sequence: nat, lease: Lease, body: Body)

  datatype Work = Work(lease: Lease, action: S.Action)

  /** What the executor did when it was asked to go on with the pending action. */
  datatype Exec = NoExecutor | Working | Refused | Finished(c: S.Completion)

  /** Everything that depends on the clock, and whether a frame advanced an assembly. */
  datatype Timers = Timers(partialDue: bool, bindingDue: bool, progressed: bool, dueAfterFrame: bool, progressedAgain: bool)

  datatype StepResult =
    | Idle | LifecycleApplied | RouteCapacityExceeded | FrameConsumed | ReplyQueued | ActionQueued | ActionExecutionPending
    | ActionCompleted | PausedForInput | ReplyBackpressure | PartialExpired | SessionLeaseExpired | InvalidFrameDropped
    | StaleRouteDropped | ExecutorUnavailable | ExecutorRejected | SessionRejected

  // ---- who holds an admission ----

  function ReplyLeases(replies: seq<Reply>): (held: seq<Lease>)
    ensures |held| == |replies|
  {
    seq(|replies|, i requires 0 <= i < |replies| => replies[i].lease)
  }

  function IngressLeases(ingress: seq<Ingress>): (held: seq<Lease>)
    ensures |held| == |ingress|
  {
    seq(|ingress|, i requires 0 <= i < |ingress| => ingress[i].lease)
  }

  function Routes(held: seq<Lease>): (routes: seq<Route>)
    ensures |routes| == |held|
  {
    seq(|held|, i requires 0 <= i < |held| => held[i].route)
  }

  function LifeRoutes(lifecycle: seq<Life>): (routes: seq<Route>)
    ensures |routes| == |lifecycle|
  {
    seq(|lifecycle|, i requires 0 <= i < |lifecycle| => lifecycle[i].route)
  }

  /** Where the record of `r` stands, if there is one. */
  function IndexOf(lifecycle: seq<Life>, r: Route): (i: nat)
    ensures i <= |lifecycle| && forall j :: 0 <= j < i ==> lifecycle[j].route != r
    ensures i < |lifecycle| ==> lifecycle[i].route == r
  {
    if lifecycle == [] || lifecycle[0].route == r then 0 else 1 + IndexOf(lifecycle[1..], r)
  }

  /** A close dominates an open of the same lifetime in either order; opens leave room for the closes of what is active. */
  function Filed(lifecycle: seq<Life>, closed: bool, r: Route): seq<Life> {
    var i := IndexOf(lifecycle, r);
    if !r.Valid() then lifecycle
    else if i < |lifecycle| then (if closed then lifecycle[i := Life(true, r)] else lifecycle)
    else if |lifecycle| >= (if closed then LIFECYCLE_CAPACITY else LIFECYCLE_CAPACITY - ACTIVE_ROUTES) then lifecycle
    else lifecycle + [Life(closed, r)]
  }

  predicate DistinctIds(held: seq<Lease>) {
    && (forall i, j :: 0 <= i < j < |held| ==> held[i].id != held[j].id)
    && (forall x :: x in held ==> x.id != 0 && x.route.Valid())
  }

  /** `after` is `before` with `l` put in at position `k`. */
  predicate Inserted(before: seq<Lease>, k: nat, l: Lease, after: seq<Lease>) {
    k <= |before| && after == before[..k] + [l] + before[k..]
  }

  lemma ConcatIds(a: seq<Lease>, b: seq<Lease>)
    ensures DistinctIds(a + b) <==> DistinctIds(a) && DistinctIds(b) && forall x, y :: x in a && y in b ==> x.id != y.id
  {
    var s := a + b;
    if DistinctIds(s) {
      forall i, j | 0 <= i < j < |a| ensures a[i].id != a[j].id { assert s[i] == a[i] && s[j] == a[j]; }
      forall i, j | 0 <= i < j < |b| ensures b[i].id != b[j].id { assert s[|a| + i] == b[i] && s[|a| + j] == b[j]; }
      forall i, j | 0 <= i < |a| && 0 <= j < |b| ensures a[i].id != b[j].id { assert s[i] == a[i] && s[|a| + j] == b[j]; }
    }
  }

  function Drop(held: seq<Lease>, r: Route): (kept: seq<Lease>)
    ensures forall x :: x in kept <==> x in held && x.route != r
  {
    if held == [] then [] else Drop(held[..|held| - 1], r) + (if held[|held| - 1].route == r then [] else [held[|held| - 1]])
  }

  lemma {:induction false} DropKeepsIds(held: seq<Lease>, r: Route)
    requires DistinctIds(held)
    ensures DistinctIds(Drop(held, r))
  {
    if held != [] {
      var front, last := held[..|held| - 1], held[|held| - 1];
      assert held == front + [last];
      ConcatIds(front, [last]);
      DropKeepsIds(front, r);
      ConcatIds(Drop(front, r), [last]);
      assert Drop(front, r) + [] == Drop(front, r);
    }
  }

  /** Dropping a route before and after the pending lease leaves all admissions distinct. */
  lemma PurgedIds(a: seq<Lease>, p: seq<Lease>, b: seq<Lease>, r: Route)
    requires DistinctIds(a + p + b)
    ensures DistinctIds(Drop(a, r) + p + Drop(b, r))
  {
    hide DistinctIds;
    ConcatIds(a + p, b);
    ConcatIds(a, p);
    DropKeepsIds(a, r);
    DropKeepsIds(b, r);
    ConcatIds(Drop(a, r), p);
    ConcatIds(Drop(a, r) + p, Drop(b, r));
  }

  lemma InsertedOnce(rest: seq<Lease>, k: nat, l: Lease, a: seq<Lease>, b: seq<Lease>)
    requires Inserted(rest, k, l, a) && Inserted(rest, k, l, b)
    ensures a == b
  {
  }

  lemma InsertedIds(rest: seq<Lease>, k: nat, l: Lease, held: seq<Lease>)
    requires Inserted(rest, k, l, held) && DistinctIds(held)
    ensures DistinctIds(rest)
  {
    hide DistinctIds;
    var a, b := rest[..k], rest[k..];
    assert rest == a + b && held == a + [l] + b && a + [l] + b == a + ([l] + b);
    ConcatIds(a, [l] + b);
    ConcatIds([l], b);
    ConcatIds(a, b);
  }

  lemma InsertedIsIn(rest: seq<Lease>, k: nat, l: Lease, held: seq<Lease>)
    requires Inserted(rest, k, l, held)
    ensures l in held
  {
    assert held[k] == l;
  }

  lemma InsertedMembers(rest: seq<Lease>, k: nat, l: Lease, held: seq<Lease>)
    requires Inserted(rest, k, l, held) && DistinctIds(held)
    ensures |held| == |rest| + 1 && forall h :: h in rest <==> h in held && h != l
  {
    var a, b := rest[..k], rest[k..];
    assert rest == a + b && held == a + [l] + b;
    ConcatIds(a + [l], b);
    ConcatIds(a, [l]);
    assert l in [l];
  }

  /** Who stays when a route is dropped, with what was between if it is of another route. */
  lemma DropMembers(a: seq<Lease>, p: seq<Lease>, b: seq<Lease>, r: Route)
    requires |p| <= 1
    ensures forall h :: h in Drop(a, r) + p + Drop(b, r) <==> (h in a && h.route != r) || h in p || (h in b && h.route != r)
    ensures |Drop(a, r) + p + Drop(b, r)| <= |a + p + b|
  {
    DropShorter(a, r);
    DropShorter(b, r);
    hide Drop;
    var x, y := Drop(a, r), Drop(b, r);
    ThreeMembers(x, p, y);
  }

  lemma ThreeMembers(a: seq<Lease>, p: seq<Lease>, b: seq<Lease>)
    ensures forall h :: h in a + p + b <==> h in a || h in p || h in b
  {
  }

  lemma {:induction false} DropShorter(held: seq<Lease>, r: Route)
    ensures |Drop(held, r)| <= |held|
  {
    if held != [] { DropShorter(held[..|held| - 1], r); }
  }

  function KeptReplies(replies: seq<Reply>, r: Route): (kept: seq<Reply>)
    ensures |kept| <= |replies|
  {
    if replies == [] then []
    else KeptReplies(replies[..|replies| - 1], r) + (if replies[|replies| - 1].lease.route == r then [] else [replies[|replies| - 1]])
  }

  function KeptIngress(ingress: seq<Ingress>, r: Route): (kept: seq<Ingress>)
    ensures |kept| <= |ingress|
  {
    if ingress == [] then []
    else KeptIngress(ingress[..|ingress| - 1], r) + (if ingress[|ingress| - 1].lease.route == r then [] else [ingress[|ingress| - 1]])
  }

  lemma {:induction false} KeptRepliesExactly(replies: seq<Reply>, r: Route)
    ensures forall x :: x in KeptReplies(replies, r) <==> x in replies && x.lease.route != r
  {
    if replies != [] {
      var front, last := replies[..|replies| - 1], replies[|replies| - 1];
      KeptRepliesExactly(front, r);
      assert replies == front + [last];
    }
  }

  lemma ReplyLeasesAppend(replies: seq<Reply>, x: Reply)
    ensures ReplyLeases(replies + [x]) == ReplyLeases(replies) + [x.lease]
  {
  }

  lemma IngressLeasesAppend(ingress: seq<Ingress>, x: Ingress)
    ensures IngressLeases(ingress + [x]) == IngressLeases(ingress) + [x.lease]
  {
  }

  lemma DropAppend(held: seq<Lease>, l: Lease, r: Route)
    ensures Drop(held + [l], r) == Drop(held, r) + (if l.route == r then [] else [l])
  {
    assert (held + [l])[..|held|] == held;
  }

  lemma {:induction false} KeptRepliesLeases(replies: seq<Reply>, r: Route)
    ensures ReplyLeases(KeptReplies(replies, r)) == Drop(ReplyLeases(replies), r)
  {
    if replies != [] {
      hide ReplyLeases, Drop;
      var front, last := replies[..|replies| - 1], replies[|replies| - 1];
      assert replies == front + [last];
      KeptRepliesLeases(front, r);
      ReplyLeasesAppend(front, last);
      ReplyLeasesAppend(KeptReplies(front, r), last);
      DropAppend(ReplyLeases(front), last.lease, r);
      assert KeptReplies(front, r) + [] == KeptReplies(front, r) && Drop(ReplyLeases(front), r) + [] == Drop(ReplyLeases(front), r);
    }
  }

  lemma {:induction false} KeptIngressLeases(ingress: seq<Ingress>, r: Route)
    ensures IngressLeases(KeptIngress(ingress, r)) == Drop(IngressLeases(ingress), r)
  {
    if ingress != [] {
      hide IngressLeases, Drop;
      var front, last := ingress[..|ingress| - 1], ingress[|ingress| - 1];
      assert ingress == front + [last];
      KeptIngressLeases(front, r);
      IngressLeasesAppend(front, last);
      IngressLeasesAppend(KeptIngress(front, r), last);
      DropAppend(IngressLeases(front), last.lease, r);
      assert KeptIngress(front, r) + [] == KeptIngress(front, r) && Drop(IngressLeases(front), r) + [] == Drop(IngressLeases(front), r);
    }
  }

  /** Reply sequences rise and were all handed out before `next`. */
  predicate Rising(replies: seq<Reply>, next: nat) {
    && (forall i :: 0 <= i < |replies| ==> replies[i].sequence < next)
    && (forall i, j :: 0 <= i < j < |replies| ==> replies[i].sequence < replies[j].sequence)
  }

  lemma RisingCut(replies: seq<Reply>, k: nat, next: nat)
    requires Rising(replies, next) && k < |replies|
    ensures var cut := replies[..k] + replies[k + 1..];
      Rising(cut, next) && forall x :: x in cut <==> x in replies && x != replies[k]
  {
    var cut := replies[..k] + replies[k + 1..];
    assert forall i :: 0 <= i < |cut| ==> cut[i] == replies[if i < k then i else i + 1];
    forall x | x in replies && x != replies[k] ensures x in cut {
      var i :| 0 <= i < |replies| && replies[i] == x;
      assert cut[if i < k then i else i - 1] == x;
    }
  }

  lemma CutMembers(a: seq<Lease>, l: Lease, b: seq<Lease>, p: seq<Lease>, q: seq<Lease>)
    ensures Inserted(a + b + p + q, |a|, l, a + [l] + b + p + q)
  {
    var rest := a + b + p + q;
    assert rest[..|a|] == a && rest[|a|..] == b + p + q;
  }

  lemma LeasesCut(replies: seq<Reply>, k: nat)
    requires k < |replies|
    ensures ReplyLeases(replies) == ReplyLeases(replies[..k]) + [replies[k].lease] + ReplyLeases(replies[k + 1..])
    ensures ReplyLeases(replies[..k] + replies[k + 1..]) == ReplyLeases(replies[..k]) + ReplyLeases(replies[k + 1..])
  {
  }

  lemma RisingAppend(replies: seq<Reply>, x: Reply, next: nat)
    ensures Rising(replies + [x], next) <==> Rising(replies, next) && x.sequence < next && forall y :: y in replies ==> y.sequence < x.sequence
  {
    if Rising(replies + [x], next) { RisingFront(replies, x, next); }
    if Rising(replies, next) && x.sequence < next && forall y :: y in replies ==> y.sequence < x.sequence { RisingPush(replies, x, next); }
  }

  lemma RisingFront(replies: seq<Reply>, x: Reply, next: nat)
    requires Rising(replies + [x], next)
    ensures Rising(replies, next) && x.sequence < next && forall y :: y in replies ==> y.sequence < x.sequence
  {
    var s := replies + [x];
    assert s[|replies|] == x;
    forall i | 0 <= i < |replies| ensures replies[i].sequence < x.sequence && replies[i].sequence < next { assert s[i] == replies[i]; }
    forall i, j | 0 <= i < j < |replies| ensures replies[i].sequence < replies[j].sequence { assert s[i] == replies[i] && s[j] == replies[j]; }
  }

  lemma RisingPush(replies: seq<Reply>, x: Reply, next: nat)
    requires Rising(replies, next) && x.sequence < next && forall y :: y in replies ==> y.sequence < x.sequence
    ensures Rising(replies + [x], next)
  {
    var s := replies + [x];
    forall i, j | 0 <= i < j < |s| ensures s[i].sequence < s[j].sequence {
      assert s[i] == replies[i] && replies[i] in replies;
      if j < |replies| { assert s[j] == replies[j]; } else { assert s[j] == x; }
    }
    forall i | 0 <= i < |s| ensures s[i].sequence < next {
      if i < |replies| { assert s[i] == replies[i]; } else { assert s[i] == x; }
    }
  }

  lemma {:induction false} KeptRising(replies: seq<Reply>, r: Route, next: nat)
    requires Rising(replies, next)
    ensures Rising(KeptReplies(replies, r), next)
  {
    if replies != [] {
      hide Rising;
      var front, last := replies[..|replies| - 1], replies[|replies| - 1];
      KeptRepliesExactly(front, r);
      assert replies == front + [last];
      RisingAppend(front, last, next);
      KeptRising(front, r, next);
      RisingAppend(KeptReplies(front, r), last, next);
      assert KeptReplies(front, r) + [] == KeptReplies(front, r);
    }
  }

  function KeptOthers(ingress: seq<Ingress>, id: nat): (kept: seq<Ingress>)
    ensures |kept| <= |ingress|
  {
    if ingress == [] then []
    else KeptOthers(ingress[..|ingress| - 1], id) + (if ingress[|ingress| - 1].lease.id == id then [] else [ingress[|ingress| - 1]])
  }

  lemma {:induction false} NothingElseToPurge(ingress: seq<Ingress>, id: nat)
    requires forall i :: 0 <= i < |ingress| ==> ingress[i].lease.id != id
    ensures KeptOthers(ingress, id) == ingress
  {
    if ingress != [] {
      NothingElseToPurge(ingress[..|ingress| - 1], id);
      assert ingress == ingress[..|ingress| - 1] + [ingress[|ingress| - 1]];
    }
  }

  predicate Answerable(replies: seq<Reply>, active: set<Route>) {
    forall x :: x in replies ==> x.lease.route in active
  }

  lemma KeptAnswerable(replies: seq<Reply>, active: set<Route>, r: Route)
    requires Answerable(replies, active)
    ensures Answerable(KeptReplies(replies, r), active - {r})
  {
    hide KeptReplies;
    KeptRepliesExactly(replies, r);
  }

  class Core {
    const session: S.Session
    /** The two filter bits of a route. Every result holds for any hash. */
    const bits: Route -> (nat, nat)

    var lifecycle: seq<Life>
    var ingress: seq<Ingress>
    var replies: seq<Reply>
    var nextSequence: nat
    var active: set<Route>
    var filter: set<nat>
    var pending: Option<Work>
    var partial: Option<Route>
    var binding: Option<Route>
    var release: Option<Lease>

    /** Every route ever closed. */
    ghost var closedEver: set<Route>

    /** Everybody who holds an admission, in the order of admission. */
    ghost function Held(): seq<Lease>
      reads this`replies, this`pending, this`ingress
    {
      ReplyLeases(replies) + (if pending.Some? then [pending.value.lease] else []) + IngressLeases(ingress)
    }

    /** Those among them who may still get an answer: all but an orphaned action's. */
    ghost function Live(): seq<Lease>
      reads this`replies, this`pending, this`ingress, session`pending
    {
      ReplyLeases(replies) + (if Answering() then [pending.value.lease] else []) + IngressLeases(ingress)
    }

    ghost predicate Answering()
      reads this`pending, session`pending
    {
      pending.Some? && session.pending.Some? && !session.pending.value.orphaned
    }

    predicate Remembered(r: Route)
      reads this`filter
    {
      bits(r).0 in filter && bits(r).1 in filter
    }

    /** What holds of the core's own fields. */
    ghost predicate Local()
      reads this`lifecycle, this`ingress, this`active, this`replies, this`pending, this`nextSequence, this`closedEver, this`filter
    {
      && |lifecycle| <= LIFECYCLE_CAPACITY && |ingress| <= INGRESS_CAPACITY && |active| <= ACTIVE_ROUTES
      && (forall i, j :: 0 <= i < j < |lifecycle| ==> lifecycle[i].route != lifecycle[j].route)
      // A slot is kept for the answer of the pending action.
      && |replies| + (if pending.Some? then 1 else 0) <= REPLY_CAPACITY
      && Rising(replies, nextSequence) && DistinctIds(Held())
      // Nothing of a closed route is answered or active.
      && Answerable(replies, active) && Forgotten()
    }

    ghost predicate Forgotten()
      reads this`active, this`closedEver, this`filter
    {
      active !! closedEver && forall r :: r in closedEver ==> Remembered(r)
    }

    /** No closed route is in charge of the session. */
    ghost predicate Owned()
      reads this`active, session
    {
      session.Inv() && (session.bound ==> session.route in active)
    }

    /** The core's pending action is the session's, and its route is live unless it has been orphaned. */
    ghost predicate SamePending()
      reads this`pending, this`active, session`pending
    {
      && (pending.Some? <==> session.pending.Some?)
      && (pending.Some? ==> Matches(pending.value))
    }

    ghost predicate Matches(w: Work)
      reads this`active, session`pending
    {
      && session.pending.Some? && w.action.token == session.pending.value.token && w.action.kind == session.pending.value.kind
      && w.action.route == w.lease.route == session.pending.value.route
      && (session.pending.value.orphaned || w.lease.route in active)
    }

    ghost predicate Inv()
      reads this, session
    {
      Local() && Owned() && SamePending()
    }

    constructor (session: S.Session, bits: Route -> (nat, nat))
      requires session.Inv() && session.pending.None? && !session.bound
      ensures Inv() && this.session == session && this.bits == bits && Held() == [] && lifecycle == []
    {
      this.session, this.bits := session, bits;
      lifecycle, ingress, replies, nextSequence, active, filter := [], [], [], 1, {}, {};
      pending, partial, binding, release, closedEver := None, None, None, None, {};
    }

    // ---- route lifetimes ----

    /** A close dominates an open of the same lifetime in either order, and is refused only when eight other lifetimes wait. */
    method EnqueueLifecycle(closed: bool, r: Route) returns (e: EnqueueResult)
      requires Inv()
      modifies this`lifecycle
      ensures Inv()
      ensures closed && r.Valid() && !e.Full? ==> Life(true, r) in lifecycle
      ensures e.Full? ==> lifecycle == old(lifecycle)
      ensures e.Full? <==>
        && r.Valid() && (forall i :: 0 <= i < |old(lifecycle)| ==> old(lifecycle)[i].route != r)
        && |old(lifecycle)| >= if closed then LIFECYCLE_CAPACITY else LIFECYCLE_CAPACITY - ACTIVE_ROUTES
      ensures lifecycle == Filed(old(lifecycle), closed, r)
      ensures forall x :: x in lifecycle ==> x in old(lifecycle) || x == Life(closed, r)
      ensures !closed && (exists x :: x in old(lifecycle) && x.route == r) ==> lifecycle == old(lifecycle)
      ensures !r.Valid() ==> e.InvalidArgument? && lifecycle == old(lifecycle)
      ensures old(lifecycle) == [] && r.Valid() ==> lifecycle == [Life(closed, r)]
      ensures forall i :: 0 <= i < |old(lifecycle)| && old(lifecycle)[i].closed ==> old(lifecycle)[i] in lifecycle
    {
      if !r.Valid() { return InvalidArgument; }
      for i := 0 to |lifecycle|
        invariant forall j :: 0 <= j < i ==> lifecycle[j].route != r
        invariant lifecycle == old(lifecycle)
      {
        if lifecycle[i].route == r {
          if lifecycle[i].closed || !closed { return Coalesced; }
          lifecycle, e := lifecycle[i := Life(true, r)], Accepted;
          assert lifecycle[i] == Life(true, r);
          forall j | 0 <= j < |lifecycle| && old(lifecycle)[j].closed ensures old(lifecycle)[j] in lifecycle {
            assert lifecycle[j] == old(lifecycle)[j];
          }
          return;
        }
      }
      if |lifecycle| >= LIFECYCLE_CAPACITY || (!closed && |lifecycle| >= LIFECYCLE_CAPACITY - ACTIVE_ROUTES) { return Full; }
      lifecycle, e := lifecycle + [Life(closed, r)], Accepted;
    }

    method Activate(r: Route) returns (ok: bool)
      requires Inv()
      modifies this`active
      ensures Inv() && Held() == old(Held())
      ensures ok <==> !Remembered(r) && (r in old(active) || |old(active)| < ACTIVE_ROUTES)
      ensures active == if ok then old(active) + {r} else old(active)
      // A lifetime once closed never comes back.
      ensures r in closedEver ==> !ok
    {
      hide S.Session.Inv, DistinctIds, Rising, S.Retained, S.Consistent;
      if Remembered(r) { return false; }
      if r in active {
        assert active == active + {r};
        return true;
      }
      if |active| >= ACTIVE_ROUTES { return false; }
      active, ok := active + {r}, true;
    }

    method RememberEach(routes: seq<Route>)
      modifies this`filter, this`closedEver
      requires forall r :: r in closedEver ==> Remembered(r)
      ensures forall r :: r in closedEver ==> Remembered(r)
      ensures closedEver == old(closedEver) + set r | r in routes
    {
      for i := 0 to |routes|
        invariant forall r :: r in closedEver ==> Remembered(r)
        invariant closedEver == old(closedEver) + set r | r in routes[..i]
      {
        filter, closedEver := filter + {bits(routes[i]).0, bits(routes[i]).1}, closedEver + {routes[i]};
        assert routes[..i + 1] == routes[..i] + [routes[i]];
      }
      assert routes[..|routes|] == routes;
    }

    method PurgeIngress(r: Route)
      modifies this`ingress
      ensures ingress == KeptIngress(old(ingress), r)
    {
      var all := ingress;
      assert all[0..] == all;
      for i := 0 to |all|
        invariant ingress == all[i..] + KeptIngress(all[..i], r)
      {
        var x := ingress[0];
        ingress := ingress[1..];
        if x.lease.route != r { ingress := ingress + [x]; }
        assert all[..i + 1][..i] == all[..i] && all[..i + 1][i] == x && all[i..][1..] == all[i + 1..];
      }
      assert all[..|all|] == all && all[|all|..] == [];
    }

    method PurgeAdmission(id: nat)
      modifies this`ingress
      ensures ingress == KeptOthers(old(ingress), id)
    {
      var all := ingress;
      assert all[0..] == all;
      for i := 0 to |all|
        invariant ingress == all[i..] + KeptOthers(all[..i], id)
      {
        var x := ingress[0];
        ingress := ingress[1..];
        if x.lease.id != id { ingress := ingress + [x]; }
        assert all[..i + 1][..i] == all[..i] && all[..i + 1][i] == x && all[i..][1..] == all[i + 1..];
      }
      assert all[..|all|] == all && all[|all|..] == [];
    }

    method PurgeReplies(r: Route)
      modifies this`replies
      ensures replies == KeptReplies(old(replies), r)
    {
      var all := replies;
      assert all[0..] == all;
      for i := 0 to |all|
        invariant replies == all[i..] + KeptReplies(all[..i], r)
      {
        var x := replies[0];
        replies := replies[1..];
        if x.lease.route != r { replies := replies + [x]; }
        assert all[..i + 1][..i] == all[..i] && all[..i + 1][i] == x && all[i..][1..] == all[i + 1..];
      }
      assert all[..|all|] == all && all[|all|..] == [];
    }

    ghost function PendingLeases(): seq<Lease>
      reads this`pending
    {
      if pending.Some? then [pending.value.lease] else []
    }

    /** Nothing of the route stays: no reply, no frame, no ownership; a pending action stays only to finish unanswered. */
    method CloseRoute(r: Route)
      requires Inv()
      modifies this`filter, this`closedEver, this`active, this`binding, this`partial, this`ingress, this`replies, session
      ensures Inv() && closedEver == old(closedEver) + {r} && active == old(active) - {r}
      ensures ReplyLeases(replies) == Drop(ReplyLeases(old(replies)), r) && IngressLeases(ingress) == Drop(IngressLeases(old(ingress)), r)
      ensures session.bound ==> session.route != r
      ensures Answering() <==> old(Answering()) && pending.value.lease.route != r
    {
      hide S.Session.Inv, Local, Drop, S.Retained, S.Consistent;
      DropRoute(r);
      session.RouteClosed(r);
    }

    method DropRoute(r: Route)
      requires Local()
      modifies this`filter, this`closedEver, this`active, this`binding, this`partial, this`ingress, this`replies
      ensures Local() && closedEver == old(closedEver) + {r} && active == old(active) - {r}
      ensures ReplyLeases(replies) == Drop(ReplyLeases(old(replies)), r) && IngressLeases(ingress) == Drop(IngressLeases(old(ingress)), r)
    {
      hide DistinctIds, Rising, Drop, KeptReplies, KeptIngress, Answerable, Remembered, Forgotten, ReplyLeases, IngressLeases;
      KeptRepliesLeases(replies, r);
      KeptIngressLeases(ingress, r);
      KeptRising(replies, r, nextSequence);
      KeptAnswerable(replies, active, r);
      PurgedIds(ReplyLeases(replies), PendingLeases(), IngressLeases(ingress), r);
      Deactivate(r);
      PurgeIngress(r);
      PurgeReplies(r);
    }

    method Deactivate(r: Route)
      requires Forgotten()
      modifies this`filter, this`closedEver, this`active, this`binding, this`partial
      ensures Forgotten() && closedEver == old(closedEver) + {r} && active == old(active) - {r} && |active| <= |old(active)|
    {
      RememberEach([r]);
      active := active - {r};
      if binding == Some(r) { binding := None; }
      if partial == Some(r) { partial := None; }
    }

    /** Everything known to the core is closed for good; only the pending action stays, to finish unanswered. */
    method RevokeAll(overflow: Route)
      requires Inv()
      modifies this`filter, this`closedEver, this`active, this`binding, this`partial, this`ingress, this`replies, this`lifecycle, session
      ensures Inv() && Held() == PendingLeases() && active == {} && lifecycle == [] && ingress == [] && !session.bound
      ensures (pending.Some? ==> session.pending.value.orphaned) && Live() == []
      ensures forall h :: h in Held() ==> h in old(Held())
      ensures old(closedEver) + old(active) <= closedEver && (overflow.Valid() ==> overflow in closedEver)
      ensures forall r :: r in LifeRoutes(old(lifecycle)) || r in Routes(IngressLeases(old(ingress))) ==> r in closedEver
    {
      hide S.Session.Inv, Local, S.Retained, S.Consistent;
      PendingIds();
      ThreeMembers(ReplyLeases(replies), PendingLeases(), IngressLeases(ingress));
      RememberAll(overflow);
      session.AllRoutesClosed();
      Forget();
    }

    lemma PendingIds()
      requires Local()
      ensures DistinctIds(PendingLeases())
    {
      ConcatIds(ReplyLeases(replies) + PendingLeases(), IngressLeases(ingress));
      ConcatIds(ReplyLeases(replies), PendingLeases());
    }

    method RememberAll(overflow: Route)
      requires Local()
      modifies this`filter, this`closedEver
      ensures forall r :: r in closedEver ==> Remembered(r)
      ensures old(closedEver) + old(active) <= closedEver && (overflow.Valid() ==> overflow in closedEver)
      ensures forall r :: r in LifeRoutes(lifecycle) || r in Routes(IngressLeases(ingress)) ==> r in closedEver
    {
      hide DistinctIds, Rising, Answerable, Remembered, ReplyLeases, IngressLeases, LifeRoutes, Routes, S.Session.Inv;
      if overflow.Valid() { RememberEach([overflow]); }
      RememberEach(LifeRoutes(lifecycle));
      RememberEach(Routes(IngressLeases(ingress)));
      RememberOwners();
    }

    method RememberOwners()
      requires forall r :: r in closedEver ==> Remembered(r)
      modifies this`filter, this`closedEver
      ensures forall r :: r in closedEver ==> Remembered(r)
      ensures old(closedEver) + old(active) <= closedEver
    {
      hide Remembered, ReplyLeases, Routes;
      RememberEach(Routes(ReplyLeases(replies)));
      RememberActive();
      if session.bound { RememberEach([session.route]); }
      if pending.Some? && pending.value.action.route.Valid() { RememberEach([pending.value.action.route]); }
      if partial.Some? && partial.value.Valid() { RememberEach([partial.value]); }
    }

    method RememberActive()
      requires forall r :: r in closedEver ==> Remembered(r)
      modifies this`filter, this`closedEver
      ensures forall r :: r in closedEver ==> Remembered(r)
      ensures closedEver == old(closedEver) + active
    {
      var rest := active;
      while rest != {}
        invariant forall r :: r in closedEver ==> Remembered(r)
        invariant rest <= active && closedEver == old(closedEver) + (active - rest)
      {
        var r :| r in rest;
        rest, filter, closedEver := rest - {r}, filter + {bits(r).0, bits(r).1}, closedEver + {r};
      }
    }

    method Forget()
      requires DistinctIds(PendingLeases()) && forall r :: r in closedEver ==> Remembered(r)
      modifies this`lifecycle, this`ingress, this`replies, this`active, this`partial, this`binding
      ensures Local() && Held() == PendingLeases()
      ensures lifecycle == [] && ingress == [] && active == {}
    {
      lifecycle, ingress, replies, active, partial, binding := [], [], [], {}, None, None;
      assert Held() == PendingLeases();
    }

    method ProcessLifecycle() returns (result: StepResult)
      requires Inv() && lifecycle != []
      modifies this`lifecycle, this`filter, this`closedEver, this`active, this`binding, this`partial, this`ingress, this`replies, session
      ensures Inv() && lifecycle == old(lifecycle)[1..]
      ensures !old(lifecycle)[0].closed ==> Held() == old(Held()) && closedEver == old(closedEver)
      ensures old(lifecycle)[0].closed ==> closedEver == old(closedEver) + {old(lifecycle)[0].route}
      ensures old(lifecycle)[0].closed ==>
        var r := old(lifecycle)[0].route;
        ReplyLeases(replies) == Drop(ReplyLeases(old(replies)), r) && IngressLeases(ingress) == Drop(IngressLeases(old(ingress)), r)
      ensures result.LifecycleApplied? || result.RouteCapacityExceeded?
      ensures if old(lifecycle)[0].closed then Answering() <==> old(Answering()) && pending.value.lease.route != old(lifecycle)[0].route
              else replies == old(replies) && ingress == old(ingress) && session.pending == old(session.pending)
    {
      hide S.Session.Inv, DistinctIds, Rising, Drop;
      var head := lifecycle[0];
      lifecycle := lifecycle[1..];
      if !head.closed {
        var ok := Activate(head.route);
        return if ok then LifecycleApplied else RouteCapacityExceeded;
      }
      CloseRoute(head.route);
      result := LifecycleApplied;
    }

    // ---- frames ----

    /** An admission that nobody in the core holds. */
    ghost predicate Fresh(l: Lease)
      reads this`replies, this`pending, this`ingress
    {
      l.id != 0 && l.route.Valid() && forall h :: h in Held() ==> h.id != l.id
    }

    /** From the mailbox: only an admitted frame gets in, behind everything admitted before it. */
    method EnqueueIngress(l: Lease, content: Content) returns (e: EnqueueResult)
      requires Inv() && (l.id == 0 || !l.route.Valid() || Fresh(l))
      modifies this`ingress
      ensures Inv()
      ensures e.Accepted? <==> l.id != 0 && l.route.Valid() && |old(ingress)| < INGRESS_CAPACITY
      ensures ingress == if e.Accepted? then old(ingress) + [Ingress(l, content)] else old(ingress)
      ensures Held() == if e.Accepted? then old(Held()) + [l] else old(Held())
      ensures Live() == if e.Accepted? then old(Live()) + [l] else old(Live())
    {
      hide S.Session.Inv, Rising, DistinctIds, Forgotten, Answerable;
      if l.id == 0 || !l.route.Valid() { return InvalidArgument; }
      if |ingress| >= INGRESS_CAPACITY { return Full; }
      IngressLeasesAppend(ingress, Ingress(l, content));
      FreshAppended(l);
      ghost var before, alive := Held(), Live();
      ingress, e := ingress + [Ingress(l, content)], Accepted;
      assert Held() == before + [l] && Live() == alive + [l];
    }

    lemma FreshAppended(l: Lease)
      requires DistinctIds(Held()) && Fresh(l)
      ensures DistinctIds(Held() + [l])
    {
    }

    /** Whoever is first among the frames, and between which others it stood. */
    method PopIngress() returns (x: Ingress)
      requires Inv() && pending.None? && ingress != []
      modifies this`ingress
      ensures Inv() && Fresh(x.lease) && x == old(ingress)[0]
      ensures Inserted(Held(), |replies|, x.lease, old(Held()))
    {
      hide S.Session.Inv, Rising, Forgotten, Answerable;
      x := ingress[0];
      PopHeld();
      ingress := ingress[1..];
    }

    lemma PopHeld()
      requires pending.None? && ingress != [] && DistinctIds(Held())
      ensures IngressLeases(ingress) == [ingress[0].lease] + IngressLeases(ingress[1..])
      ensures DistinctIds(ReplyLeases(replies) + [] + IngressLeases(ingress[1..]))
      ensures ingress[0].lease.id != 0 && ingress[0].lease.route.Valid()
      ensures forall h :: h in ReplyLeases(replies) + [] + IngressLeases(ingress[1..]) ==> h.id != ingress[0].lease.id
    {
      var a, l, b := ReplyLeases(replies), ingress[0].lease, IngressLeases(ingress[1..]);
      assert IngressLeases(ingress) == [l] + b;
      assert Held() == a + ([l] + b) == (a + [l]) + b;
      ConcatIds(a, [l] + b);
      ConcatIds([l], b);
      ConcatIds(a, b);
      assert a + [] + b == a + b;
    }

    method PushReply(l: Lease, body: Body) returns (ok: bool)
      requires Local() && pending.None? && Fresh(l) && l.route in active
      modifies this`replies, this`nextSequence
      ensures Local() && (ok <==> |old(replies)| < REPLY_CAPACITY)
      ensures ok ==> replies == old(replies) + [Reply(old(nextSequence), l, body)]
      ensures ok ==> Inserted(old(Held()), |old(replies)|, l, Held())
      ensures !ok ==> replies == old(replies)
    {
      hide Rising, Forgotten, Answerable, DistinctIds;
      if |replies| >= REPLY_CAPACITY { return false; }
      var reply := Reply(nextSequence, l, body);
      PushHeld(l);
      assert Rising(replies + [reply], nextSequence + 1) && Answerable(replies + [reply], active) by { Risen(reply); }
      ReplyLeasesAppend(replies, reply);
      ghost var held := ReplyLeases(replies) + [l] + IngressLeases(ingress);
      replies, nextSequence, ok := replies + [reply], nextSequence + 1, true;
      assert Held() == held;
    }

    lemma Risen(reply: Reply)
      requires Rising(replies, nextSequence) && reply.sequence == nextSequence && Answerable(replies, active) && reply.lease.route in active
      ensures Rising(replies + [reply], nextSequence + 1) && Answerable(replies + [reply], active)
    {
    }

    lemma PushHeld(l: Lease)
      requires pending.None? && DistinctIds(Held()) && Fresh(l)
      ensures DistinctIds(ReplyLeases(replies) + [l] + IngressLeases(ingress))
      ensures Inserted(Held(), |replies|, l, ReplyLeases(replies) + [l] + IngressLeases(ingress))
    {
      var a, b := ReplyLeases(replies), IngressLeases(ingress);
      assert Held() == a + b;
      ConcatIds(a, b);
      ConcatIds(a, [l]);
      ConcatIds(a + [l], b);
    }

    /** No answer will come: the admission goes straight back, and with it every frame still queued under it. */
    method Retire(l: Lease)
      requires Local() && pending.None? && Fresh(l)
      modifies this`ingress, this`release
      ensures Local() && Held() == old(Held()) && release == Some(l)
    {
      hide Rising, Forgotten, Answerable, DistinctIds;
      NoneQueued(l);
      PurgeAdmission(l.id);
      release := Some(l);
    }

    lemma NoneQueued(l: Lease)
      requires Fresh(l)
      ensures KeptOthers(ingress, l.id) == ingress
    {
      forall i | 0 <= i < |ingress| ensures ingress[i].lease.id != l.id {
        assert IngressLeases(ingress)[i] in IngressLeases(ingress);
      }
      NothingElseToPurge(ingress, l.id);
    }

    method Suspend(l: Lease, action: S.Action)
      requires Local() && Owned() && pending.None? && Fresh(l) && Matches(Work(l, action)) && |replies| < REPLY_CAPACITY
      modifies this`pending
      ensures Inv() && pending == Some(Work(l, action)) && Inserted(old(Held()), |replies|, l, Held())
    {
      hide Rising, Forgotten, Answerable, DistinctIds, Owned;
      PushHeld(l);
      pending := Some(Work(l, action));
    }

    /** What the session makes of one frame. */
    method Feed(l: Lease, f: Request) returns (ok: bool, out: S.Emission)
      requires Inv() && pending.None? && l.route in active
      modifies session
      ensures Owned() && session.bound == old(session.bound) && session.route == old(session.route)
      ensures session.pending.Some? <==> out.ActionOut?
      ensures out.ActionOut? ==> f.opcode != S.Capabilities && f.opcode != S.UnknownOpcode
      ensures out.ActionOut? ==> ok && session.phase.ActionPending? && Matches(Work(l, out.action)) && !session.pending.value.orphaned
    {
      hide S.Session.Inv, S.Retained, S.Consistent, Local;
      ok, out := session.Consume(l.route, f);
      session.PendingPhase();
    }

    /** Only the route that owns the session's cookie keeps its binding alive. */
    method RefreshBinding(r: Route, cookie: nat)
      modifies this`binding
    {
      if cookie == 0 || !session.bound || cookie != session.cookie || session.route != r { return; }
      binding := Some(r);
    }

    /** Remember whose half-assembled plan or unit the inactivity timer watches. */
    method NotePartial(r: Route, progressed: bool)
      modifies this`partial
      ensures session.phase.ActionPending? ==> partial.None?
    {
      if session.phase.BeginAssembly? {
        if progressed && (partial.None? || partial.value == r) { partial := Some(r); }
        return;
      }
      if !session.phase.UnitAssembly? {
        partial := None;
        return;
      }
      if !session.bound || session.route != r || !progressed { return; }
      partial := Some(r);
    }

    method ExpirePartial(due: bool) returns (expired: bool)
      requires Owned()
      modifies this`partial, session
      ensures Owned() && session.pending == old(session.pending)
      ensures session.bound == old(session.bound) && session.route == old(session.route)
      ensures expired ==> old(partial).Some?
    {
      hide S.Session.Inv;
      if partial.None? || !due { return false; }
      expired := session.ExpirePartial(partial.value);
      partial := None;
    }

    /** The frame is over: its admission came back, or waits for its action, or leaves with its answer. */
    ghost predicate Concluded(l: Lease, held: seq<Lease>, k: nat)
      reads this`replies, this`pending, this`ingress, this`release
    {
      || (release == Some(l) && Held() == held)
      || (release.None? && Inserted(held, k, l, Held()))
    }

    method Emit(l: Lease, out: S.Emission, expired: bool) returns (result: StepResult)
      requires Local() && Owned() && pending.None? && release.None? && Fresh(l) && l.route in active && |replies| < REPLY_CAPACITY
      requires session.pending.Some? <==> out.ActionOut?
      requires out.ActionOut? ==> Matches(Work(l, out.action))
      modifies this`replies, this`nextSequence, this`ingress, this`release, this`pending
      ensures Inv() && Concluded(l, old(Held()), |old(replies)|)
      ensures out.ReplyOut? ==> replies == old(replies) + [Reply(old(nextSequence), l, Answer(out.reply))]
      ensures out.ActionOut? ==> pending == Some(Work(l, out.action)) && replies == old(replies)
      ensures !out.ActionOut? ==> pending.None?
      ensures !result.ReplyBackpressure?
    {
      hide Local, Owned, Fresh, Held, Inserted;
      match out {
        case Nothing =>
          Retire(l);
          result := if expired then PartialExpired else FrameConsumed;
        case ReplyOut(reply) =>
          var ok := PushReply(l, Answer(reply));
          result := if !ok then ReplyBackpressure else if expired then PartialExpired else ReplyQueued;
        case ActionOut(action) =>
          Suspend(l, action);
          result := ActionQueued;
      }
    }

    /** What the session answers, or answers after the expiry that the first answer did not yet know of. */
    method Digest(l: Lease, f: Request, t: Timers) returns (ok: bool, out: S.Emission, expired: bool)
      requires Inv() && pending.None? && l.route in active
      modifies this`binding, this`partial, session
      ensures Local() && Owned() && (session.pending.Some? <==> out.ActionOut?)
      ensures out.ActionOut? ==> ok && Matches(Work(l, out.action)) && !session.pending.value.orphaned
      ensures out.ActionOut? ==> f.opcode != S.Capabilities && f.opcode != S.UnknownOpcode
    {
      hide Local, Owned, S.Session.Inv;
      ok, out := Feed(l, f);
      expired := false;
      if !ok { return; }
      if !session.bound { binding := None; }
      NotePartial(l.route, t.progressed);
      if !t.progressed {
        expired := ExpirePartial(t.dueAfterFrame);
        if expired {
          ok, out := Feed(l, f);
          if !ok { return; }
          NotePartial(l.route, t.progressedAgain);
        }
      }
    }

    method Pause(l: Lease, f: Request, due: bool) returns (result: StepResult)
      requires Inv() && pending.None? && release.None? && Fresh(l) && l.route in active && |replies| < REPLY_CAPACITY
      modifies this`replies, this`nextSequence, this`partial, session
      ensures Inv() && Concluded(l, old(Held()), |old(replies)|) && !result.ReplyBackpressure?
      ensures replies == old(replies) + [Reply(old(nextSequence), l, PausedForInputReply(f))]
    {
      hide Local, Owned, Fresh, Held, Inserted;
      var pushed := PushReply(l, PausedForInputReply(f));
      if !pushed { return ReplyBackpressure; }
      var expired := ExpirePartial(due);
      result := if expired then PartialExpired else ReplyQueued;
    }

    /** One decoded frame of a live route. A frame that arrived as its assembly timed out is answered by what it meets afterwards. */
    method ConsumeFrame(l: Lease, f: Request, allowed: bool, t: Timers) returns (result: StepResult)
      requires Inv() && pending.None? && release.None? && Fresh(l) && l.route in active && |replies| < REPLY_CAPACITY
      modifies this, session
      ensures Inv() && Concluded(l, old(Held()), |old(replies)|)
      ensures lifecycle == old(lifecycle) && active == old(active) && closedEver == old(closedEver)
      ensures !result.ReplyBackpressure?
      // While input has priority no store action starts.
      ensures pending.Some? ==> allowed && Answering()
      ensures !allowed && f.opcode != S.Capabilities && f.opcode != S.UnknownOpcode ==>
        pending.None? && replies == old(replies) + [Reply(old(nextSequence), l, PausedForInputReply(f))]
    {
      hide Local, Owned, Fresh, Held, Inserted;
      RefreshBinding(l.route, f.cookie);
      if !allowed && f.opcode != S.Capabilities && f.opcode != S.UnknownOpcode {
        result := Pause(l, f, t.dueAfterFrame);
        return;
      }
      var ok, out, expired := Digest(l, f, t);
      if !ok {
        Retire(l);
        return SessionRejected;
      }
      result := Emit(l, out, expired);
    }

    // ---- the pending action ----

    /** The completion the session gets to see, if the executor has one. */
    function CompletionOf(exec: Exec): Option<S.Completion>
      reads this`pending
      requires pending.Some?
    {
      match exec
      case Finished(c) => Some(c)
      case Refused => Some(S.Completion(pending.value.action.token, pending.value.action.kind, S.SoundAssetStore.StoreUnavailable, None, None, None, 0, 0, None))
      case _ => None
    }

    /** This completion ends the pending action. */
    predicate Ends(c: Option<S.Completion>)
      reads this`pending
      requires pending.Some?
    {
      c.Some? && c.value.token == pending.value.action.token && c.value.kind == pending.value.action.kind
    }

    /** The action ends at most once, by its own completion, with an answer that always has a slot, or unanswered when its route is gone. */
    method ProcessPending(allowed: bool, exec: Exec) returns (result: StepResult)
      requires Inv() && pending.Some? && release.None?
      modifies this, session
      ensures Inv() && lifecycle == old(lifecycle) && active == old(active) && closedEver == old(closedEver)
      ensures !result.ReplyBackpressure?
      ensures pending.Some? ==> pending == old(pending) && session.pending == old(session.pending)
      ensures !allowed || !old(Ends(CompletionOf(exec))) ==>
        pending == old(pending) && replies == old(replies) && Held() == old(Held()) && release.None?
      ensures allowed && old(Ends(CompletionOf(exec))) ==> pending.None?
      ensures allowed && old(Ends(CompletionOf(exec))) && old(session.pending.value.orphaned) ==>
        release == Some(old(pending).value.lease) && Inserted(Held(), |old(replies)|, release.value, old(Held())) && replies == old(replies)
      ensures allowed && old(Ends(CompletionOf(exec))) && !old(session.pending.value.orphaned) ==>
        release.None? && Held() == old(Held()) && |replies| == |old(replies)| + 1 && replies[|old(replies)|].lease == old(pending).value.lease
    {
      hide S.Session.Inv, Local, Fresh, Held, Inserted, S.Retained, S.Consistent;
      if !allowed { return PausedForInput; }
      Slots();
      if |replies| >= REPLY_CAPACITY { return ReplyBackpressure; }
      if exec.NoExecutor? { return ExecutorUnavailable; }
      if exec.Working? { return ActionExecutionPending; }
      var l := pending.value.lease;
      var taken, out := CompleteInSession(CompletionOf(exec).value);
      if !taken { return SessionRejected; }
      ghost var before := Held();
      TakePending();
      ghost var rest := Held();
      partial := None;
      AfterCompletion(l.route);
      result := if exec.Refused? then ExecutorRejected else ActionCompleted;
      match out {
        case Nothing => Retire(l);
        case ReplyOut(reply) =>
          var ok := PushReply(l, Answer(reply));
          if !ok { result := ReplyBackpressure; }
          InsertedOnce(rest, |old(replies)|, l, before, Held());
        case ActionOut(_) =>
          assert false;
      }
    }

    lemma Slots()
      requires Local()
      ensures |replies| + (if pending.Some? then 1 else 0) <= REPLY_CAPACITY
    {
    }

    method CompleteInSession(c: S.Completion) returns (taken: bool, out: S.Emission)
      requires Inv() && pending.Some?
      modifies session
      ensures Owned() && (taken <==> Ends(Some(c))) && (!taken ==> SamePending() && session.pending == old(session.pending))
      ensures taken ==> session.pending.None? && !out.ActionOut? && (out.Nothing? <==> old(session.pending.value.orphaned))
      ensures taken && out.ReplyOut? ==> pending.value.lease.route in active
    {
      hide S.Session.Inv, S.Retained, S.Consistent, Local, S.Acceptable;
      taken, out := session.Complete(c);
    }

    method TakePending()
      requires Local() && pending.Some?
      modifies this`pending
      ensures Local() && pending.None? && |replies| < REPLY_CAPACITY && Fresh(old(pending).value.lease)
      ensures Inserted(Held(), |replies|, old(pending).value.lease, old(Held()))
    {
      hide Rising, Forgotten, Answerable;
      var a, l, b := ReplyLeases(replies), pending.value.lease, IngressLeases(ingress);
      ConcatIds(a + [l], b);
      ConcatIds(a, [l]);
      ConcatIds(a, b);
      assert a + [l] + b == a + ([l] + b) && a + [] + b == a + b;
      pending := None;
    }

    /** A fresh inactivity window for the binding that the completion left, or none. */
    method AfterCompletion(r: Route)
      modifies this`binding
    {
      if session.bound && session.route == r {
        RefreshBinding(r, session.cookie);
      } else if !session.bound {
        binding := None;
      }
    }

    // ---- one step ----

    predicate HasIngress(r: Route)
      reads this`ingress
    {
      exists i :: 0 <= i < |ingress| && ingress[i].lease.route == r
    }

    /** A binding whose owner fell silent ends; the route itself, its replies and its frames are left alone. */
    method ExpireBinding(due: bool) returns (expired: bool)
      requires Inv()
      modifies this`binding, this`partial, session
      ensures Inv() && (expired ==> pending.None? && !session.bound)
    {
      hide S.Session.Inv, Local, S.Retained, S.Consistent;
      if binding.None? { return false; }
      var r := binding.value;
      if !session.bound || session.route != r {
        binding := None;
        return false;
      }
      if pending.Some? || session.pending.Some? || HasIngress(r) || !due { return false; }
      session.RouteClosed(r);
      if partial == Some(r) { partial := None; }
      binding, expired := None, true;
    }

    method ProcessIngress(allowed: bool, t: Timers) returns (result: StepResult)
      requires Inv() && pending.None? && release.None? && |replies| < REPLY_CAPACITY && ingress != []
      modifies this, session
      ensures Inv() && Conserved(old(Held()), |old(replies)|)
      ensures lifecycle == old(lifecycle) && active == old(active) && closedEver == old(closedEver)
      ensures !result.ReplyBackpressure?
      ensures pending.Some? ==> allowed && Answering()
      // What comes from a route that is not live is given back unread.
      ensures old(ingress)[0].lease.route !in active ==>
        release == Some(old(ingress)[0].lease) && replies == old(replies) && pending.None?
    {
      hide S.Session.Inv, Local, Owned, Fresh, Held;
      ghost var before := Held();
      var x := PopIngress();
      if x.lease.route !in active {
        Retire(x.lease);
        result := StaleRouteDropped;
      } else if x.content.Garbage? {
        Retire(x.lease);
        result := InvalidFrameDropped;
      } else {
        result := ConsumeFrame(x.lease, x.content.f, allowed, t);
      }
      Given(before, |old(replies)|, x.lease);
      if result.InvalidFrameDropped? || result.StaleRouteDropped? || result.SessionRejected? {
        var expired := ExpirePartial(t.dueAfterFrame);
        if expired { result := PartialExpired; }
      }
    }

    /** Nobody's admission is lost: all are still held, in order, but for the one given back, the oldest not answered. */
    ghost predicate Conserved(held: seq<Lease>, k: nat)
      reads this`replies, this`pending, this`ingress, this`release
    {
      if release.None? then Held() == held else Inserted(Held(), k, release.value, held)
    }

    lemma Given(held: seq<Lease>, k: nat, l: Lease)
      requires exists rest :: Inserted(rest, k, l, held) && Concluded(l, rest, k)
      ensures Conserved(held, k)
    {
    }

    /** Who may still be answered, as members. */
    lemma LiveMembers()
      requires Local() && SamePending()
      ensures forall h :: h in Live() <==> h in Held() && (Answering() || pending.None? || h != pending.value.lease)
      ensures pending.Some? ==> session.pending.Some? && (Answering() <==> !session.pending.value.orphaned)
      ensures |Live()| == |Held()| - (if pending.Some? && !Answering() then 1 else 0)
    {
      hide Rising, Answerable, Forgotten, ReplyLeases, IngressLeases, DistinctIds;
      if pending.Some? {
        var a, l, b := ReplyLeases(replies), pending.value.lease, IngressLeases(ingress);
        ConcatIds(a + [l], b);
        ConcatIds(a, [l]);
        assert l in [l];
      }
    }

    /** A frame that its route's close will take with it before anybody looks at it. */
    ghost predicate Buried(l: Lease)
      reads this`ingress, this`lifecycle
    {
      l in IngressLeases(ingress) && Life(true, l.route) in lifecycle
    }

    lemma BuriedIsHeldOnce(l: Lease)
      requires Inv() && Buried(l)
      ensures l in Held() && l !in ReplyLeases(replies) && l !in PendingLeases()
    {
      hide S.Session.Inv, Rising, Answerable, Forgotten, ReplyLeases, IngressLeases, DistinctIds;
      ConcatIds(ReplyLeases(replies) + PendingLeases(), IngressLeases(ingress));
      ThreeMembers(ReplyLeases(replies), PendingLeases(), IngressLeases(ingress));
    }

    lemma HeldMembers()
      ensures forall h :: h in Held() <==> h in ReplyLeases(replies) || h in PendingLeases() || h in IngressLeases(ingress)
    {
      ThreeMembers(ReplyLeases(replies), PendingLeases(), IngressLeases(ingress));
    }

    lemma LiveRoutes()
      requires Inv()
      ensures |ingress| <= |Live()| && forall h :: h in Live() ==> h.route.Valid() && h in Held()
    {
      hide S.Session.Inv;
      LiveMembers();
    }

    /** At most one lifecycle, timer, action or frame unit. */
    method Step(allowed: bool, exec: Exec, t: Timers) returns (result: StepResult)
      requires Inv()
      modifies this, session
      ensures Inv()
      // Lifecycle before everything else.
      ensures old(lifecycle) != [] ==> lifecycle == old(lifecycle)[1..] && release.None? && pending == old(pending)
      ensures old(lifecycle) != [] && !old(lifecycle)[0].closed ==>
        Held() == old(Held()) && closedEver == old(closedEver) && replies == old(replies) && ingress == old(ingress)
      ensures old(lifecycle) != [] && old(lifecycle)[0].closed ==>
        var r := old(lifecycle)[0].route;
        && closedEver == old(closedEver) + {r}
        && ReplyLeases(replies) == Drop(ReplyLeases(old(replies)), r) && IngressLeases(ingress) == Drop(IngressLeases(old(ingress)), r)
      ensures old(lifecycle) == [] ==> lifecycle == [] && Conserved(old(Held()), |old(replies)|)
      ensures old(lifecycle) == [] ==> active == old(active) && closedEver == old(closedEver)
      // Nobody joins in a step, and nobody answerable leaves but by release or with its route.
      ensures forall h :: h in Held() ==> h in old(Held())
      ensures |Live()| <= |old(Live())|
      ensures forall h :: h in Live() <==>
        h in old(Live()) && release != Some(h) && !(old(lifecycle) != [] && old(lifecycle)[0].closed && old(lifecycle)[0].route == h.route)
      // An action stays until its own completion; with its route gone it ends unanswered, otherwise with one answer.
      ensures old(pending).Some? && pending.Some? ==> pending == old(pending)
      ensures old(pending).None? && pending.Some? ==> allowed
      ensures old(pending).Some? && pending.None? ==> allowed && old(Ends(CompletionOf(exec)))
      ensures old(pending).Some? && pending.None? && old(session.pending.value.orphaned) ==>
        release == Some(old(pending).value.lease) && replies == old(replies)
      ensures old(pending).Some? && pending.None? && !old(session.pending.value.orphaned) ==>
        release.None? && |replies| == |old(replies)| + 1 && replies[|old(replies)|].lease == old(pending).value.lease
      // Only a full reply queue with no action pending holds frames back; an action never waits for a slot.
      ensures result.ReplyBackpressure? ==> old(pending).None? && |replies| == REPLY_CAPACITY
    {
      hide S.Session.Inv, Local, Owned, Held, Live, SamePending, Drop, ReplyLeases, IngressLeases, Inserted;
      release := None;
      if lifecycle != [] {
        result := ApplyLifecycle();
        return;
      }
      result := Unit(allowed, exec, t);
    }

    /** The lifecycle step, and who is left. */
    method ApplyLifecycle() returns (result: StepResult)
      requires Inv() && lifecycle != [] && release.None?
      modifies this`lifecycle, this`filter, this`closedEver, this`active, this`binding, this`partial, this`ingress, this`replies, session
      ensures Inv() && lifecycle == old(lifecycle)[1..] && !result.ReplyBackpressure?
      ensures !old(lifecycle)[0].closed ==>
        Held() == old(Held()) && closedEver == old(closedEver) && replies == old(replies) && ingress == old(ingress)
      ensures old(lifecycle)[0].closed ==>
        var r := old(lifecycle)[0].route;
        && closedEver == old(closedEver) + {r}
        && ReplyLeases(replies) == Drop(ReplyLeases(old(replies)), r) && IngressLeases(ingress) == Drop(IngressLeases(old(ingress)), r)
      ensures (forall h :: h in Held() ==> h in old(Held())) && |Live()| <= |old(Live())|
      ensures forall h :: h in Live() <==> h in old(Live()) && !(old(lifecycle)[0].closed && old(lifecycle)[0].route == h.route)
    {
      hide S.Session.Inv, Local, Owned, SamePending, Drop, ReplyLeases, IngressLeases;
      ghost var a, b, r := ReplyLeases(replies), IngressLeases(ingress), lifecycle[0].route;
      ghost var p, q := PendingLeases(), if Answering() && pending.value.lease.route != r then [pending.value.lease] else [];
      ThreeMembers(a, p, b);
      ThreeMembers(a, if Answering() then p else [], b);
      DropMembers(a, p, b, r);
      DropMembers(a, q, b, r);
      result := ProcessLifecycle();
      if old(lifecycle)[0].closed {
        assert Held() == Drop(a, r) + p + Drop(b, r) && Live() == Drop(a, r) + q + Drop(b, r);
      }
    }

    /** One timer, action or frame unit, and who is left. */
    method Unit(allowed: bool, exec: Exec, t: Timers) returns (result: StepResult)
      requires Inv() && lifecycle == [] && release.None?
      modifies this, session
      ensures Inv() && lifecycle == [] && Conserved(old(Held()), |old(replies)|)
      ensures active == old(active) && closedEver == old(closedEver)
      ensures (forall h :: h in Held() ==> h in old(Held())) && |Live()| <= |old(Live())|
      ensures forall h :: h in Live() <==> h in old(Live()) && release != Some(h)
      ensures old(pending).Some? && pending.Some? ==> pending == old(pending)
      ensures old(pending).None? && pending.Some? ==> allowed
      ensures old(pending).Some? && pending.None? ==> allowed && old(Ends(CompletionOf(exec)))
      ensures old(pending).Some? && pending.None? && old(session.pending.value.orphaned) ==>
        release == Some(old(pending).value.lease) && replies == old(replies)
      ensures old(pending).Some? && pending.None? && !old(session.pending.value.orphaned) ==>
        release.None? && |replies| == |old(replies)| + 1 && replies[|old(replies)|].lease == old(pending).value.lease
      ensures result.ReplyBackpressure? ==> old(pending).None? && |replies| == REPLY_CAPACITY
    {
      hide S.Session.Inv, Local, Owned, Held, Live, SamePending, Inserted;
      IdsOfHeld();
      LiveMembers();
      result := TimedUnit(allowed, exec, t);
      LiveMembers();
      if release.Some? { InsertedMembers(Held(), |old(replies)|, release.value, old(Held())); }
    }

    lemma IdsOfHeld()
      requires Local()
      ensures DistinctIds(Held())
    {
    }

    method TimedUnit(allowed: bool, exec: Exec, t: Timers) returns (result: StepResult)
      requires Inv() && lifecycle == [] && release.None?
      modifies this, session
      ensures Inv() && lifecycle == [] && Conserved(old(Held()), |old(replies)|)
      ensures active == old(active) && closedEver == old(closedEver)
      ensures old(pending).Some? && pending.Some? ==> pending == old(pending) && session.pending == old(session.pending) && release.None?
      ensures old(pending).None? && pending.Some? ==> allowed && Answering()
      ensures old(pending).Some? && pending.None? ==> allowed && old(Ends(CompletionOf(exec)))
      ensures old(pending).Some? && pending.None? && old(session.pending.value.orphaned) ==>
        release == Some(old(pending).value.lease) && replies == old(replies)
      ensures old(pending).Some? && pending.None? && !old(session.pending.value.orphaned) ==>
        release.None? && |replies| == |old(replies)| + 1 && replies[|old(replies)|].lease == old(pending).value.lease
      ensures result.ReplyBackpressure? ==> old(pending).None? && |replies| == REPLY_CAPACITY
    {
      hide S.Session.Inv, Local, Owned, Held, SamePending, Inserted;
      if partial.Some? && !HasIngress(partial.value) {
        var expired := ExpireFirst(t.partialDue);
        if expired { return PartialExpired; }
      }
      if pending.Some? {
        result := ProcessPending(allowed, exec);
        return;
      }
      var over := ExpireBinding(t.bindingDue);
      if over { return SessionLeaseExpired; }
      Slots();
      if |replies| >= REPLY_CAPACITY { return ReplyBackpressure; }
      if ingress != [] {
        result := ProcessIngress(allowed, t);
        return;
      }
      result := Idle;
    }

    method ExpireFirst(due: bool) returns (expired: bool)
      requires Inv()
      modifies this`partial, session
      ensures Inv() && session.pending == old(session.pending)
    {
      hide S.Session.Inv, Local;
      expired := partial.Some? && due;
      var _ := ExpirePartial(due);
    }

    // ---- replies on their way out ----

    /** The oldest reply of one route. */
    method FrontReply(r: Route) returns (found: Option<Reply>)
      ensures found.None? ==> forall i :: 0 <= i < |replies| ==> replies[i].lease.route != r
      ensures found.Some? ==> found.value in replies && found.value.lease.route == r
    {
      for i := 0 to |replies|
        invariant forall j :: 0 <= j < i ==> replies[j].lease.route != r
      {
        if replies[i].lease.route == r { return Some(replies[i]); }
      }
      found := None;
    }

    /** A reply leaves only once its transport took it, and only that very reply. */
    method RemoveReply(reply: Reply)
      requires Inv() && reply in replies
      modifies this`replies
      ensures Inv() && reply !in replies && |replies| == |old(replies)| - 1
      ensures (forall x :: x in replies <==> x in old(replies) && x != reply) && |Live()| < |old(Live())|
      ensures forall h :: h in Held() <==> h in old(Held()) && h != reply.lease
      ensures forall h :: h in Live() <==> h in old(Live()) && h != reply.lease
    {
      hide S.Session.Inv, Forgotten, Held, DistinctIds, Rising, Answerable;
      var k := 0;
      while replies[k].sequence != reply.sequence
        invariant replies == old(replies) && 0 <= k < |replies|
        invariant forall i :: 0 <= i < k ==> replies[i].sequence != reply.sequence
        decreases |replies| - k
      {
        LaterReply(reply, k);
        k := k + 1;
      }
      CutReply(reply, k);
      LiveMembers();
      ghost var rest, held := ReplyLeases(replies[..k] + replies[k + 1..]) + PendingLeases() + IngressLeases(ingress), Held();
      InsertedMembers(rest, k, reply.lease, held);
      replies := replies[..k] + replies[k + 1..];
      assert Held() == rest by { HeldParts(); }
      LiveMembers();
    }

    lemma HeldParts()
      ensures Held() == ReplyLeases(replies) + PendingLeases() + IngressLeases(ingress)
    {
    }

    lemma LaterReply(reply: Reply, k: nat)
      requires reply in replies && k < |replies| && forall i :: 0 <= i <= k ==> replies[i].sequence != reply.sequence
      ensures k + 1 < |replies|
    {
      var i :| 0 <= i < |replies| && replies[i] == reply;
    }

    lemma CutReply(reply: Reply, k: nat)
      requires Local() && reply in replies && k < |replies| && replies[k].sequence == reply.sequence
      ensures replies[k] == reply && DistinctIds(Held())
      ensures var cut := replies[..k] + replies[k + 1..];
        && Rising(cut, nextSequence) && Answerable(cut, active) && (forall x :: x in cut <==> x in replies && x != reply)
        && DistinctIds(ReplyLeases(cut) + PendingLeases() + IngressLeases(ingress))
        && Inserted(ReplyLeases(cut) + PendingLeases() + IngressLeases(ingress), k, reply.lease, Held())
    {
      hide Forgotten, DistinctIds, ReplyLeases, IngressLeases, Inserted;
      RisingCut(replies, k, nextSequence);
      SameSequence(reply, k);
      LeasesCut(replies, k);
      var rest := ReplyLeases(replies[..k] + replies[k + 1..]) + PendingLeases() + IngressLeases(ingress);
      CutMembers(ReplyLeases(replies[..k]), reply.lease, ReplyLeases(replies[k + 1..]), PendingLeases(), IngressLeases(ingress));
      HeldParts();
      InsertedIds(rest, k, reply.lease, Held());
    }

    lemma SameSequence(reply: Reply, k: nat)
      requires Rising(replies, nextSequence) && reply in replies && k < |replies| && replies[k].sequence == reply.sequence
      ensures replies[k] == reply
    {
      var i :| 0 <= i < |replies| && replies[i] == reply;
    }
  }
}
