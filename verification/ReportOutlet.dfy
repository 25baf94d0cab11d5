/** One transport's report queue together with what the transport has taken from it since the queue was last cleared. */
module ReportOutlet {
  import opened Bytes
  import opened HidReportQueue

  /** The last keyboard snapshot among `reports`; nothing is held before the first one. */
  function LastKeyboard(reports: seq<Payload>): (data: seq<byte>) {
    if reports == [] then Fill(SNAPSHOT_BYTES, 0)
    else if reports[|reports| - 1].cls.IsKeyboard() then reports[|reports| - 1].data
    else LastKeyboard(reports[..|reports| - 1])
  }

  /** What this report does to the number of stateful app presses that are in but not yet released. */
  function AppsAfter(apps: nat, c: ReportClass): nat {
    match c
    case StatefulPress => apps + 1
    case StatefulRelease => if apps > 0 then apps - 1 else 0
    case _ => apps
  }

  class Outlet {
    const queue: Queue
    /** Since the queue was last cleared: what the transport took, and everything accepted, both in order. */
    ghost var taken: seq<Payload>
    ghost var kept: seq<Payload>
    /** The last keyboard snapshot among them. */
    ghost var last: seq<byte>
    ghost var size: nat
    ghost var apps: nat

    ghost predicate Valid()
      reads this, queue, queue.reports
    {
      && queue.Valid() && Sealed(queue.Contents()) && size == queue.size
      && kept == taken + Payloads(queue.Contents()) && last == LastKeyboard(kept)
    }

    constructor ()
      ensures Valid() && kept == taken == [] && apps == size == 0 && fresh(queue) && fresh(queue.reports)
      ensures All(last, 0) && |last| == SNAPSHOT_BYTES
    {
      queue := new Queue();
      taken, kept, last, size, apps := [], [], Fill(SNAPSHOT_BYTES, 0), 0, 0;
    }

    /**
     * Offer a report. A keyboard snapshot that differs from the last one is never coalesced, so only room decides; and for an
     * all-released snapshot that differs there is always room, because a full queue already ends in one.
     */
    method Offer(p: Payload, ms: nat) returns (accepted: bool)
      requires Valid() && Acceptable(p) && (p.cls.IsKeyboard() ==> p.data != last)
      modifies this`kept, this`last, this`size, this`apps, queue, queue.reports
      ensures Valid()
      ensures accepted <==> old(size) < Limit(p.cls)
      ensures p.cls.AllReleased? ==> accepted
      ensures kept == if accepted then old(kept) + [p] else old(kept)
      ensures size == if accepted then old(size) + 1 else old(size)
      ensures apps == if accepted then AppsAfter(old(apps), p.cls) else old(apps)
      ensures last == if p.cls.IsKeyboard() && accepted then p.data else old(last)
    {
      hide PushedClassified, Sealed, LastKeyboard, Payloads, Acceptable;
      Answered(queue.Contents(), p, ms, queue.nextSequence);
      KeptGrows(kept, p);
      var r := queue.PushClassified(p, ms);
      accepted := r.Accepted();
      if accepted {
        kept, size, apps := kept + [p], size + 1, AppsAfter(apps, p.cls);
        if p.cls.IsKeyboard() { last := p.data; }
      }
    }

    lemma Answered(q: seq<Report>, p: Payload, ms: nat, next: Sequence)
      requires Sealed(q) && Acceptable(p) && kept == taken + Payloads(q) && (p.cls.IsKeyboard() ==> p.data != LastKeyboard(kept))
      ensures var (q', r) := PushedClassified(q, p, ms, next);
        && (r.Accepted() <==> |q| < Limit(p.cls)) && (p.cls.AllReleased? ==> r.Accepted()) && Sealed(q')
        && taken + Payloads(q') == (if r.Accepted() then kept + [p] else kept)
        && |q'| == if r.Accepted() then |q| + 1 else |q|
    {
      hide LastKeyboard;
      NeverAgain(q, p);
      SealedIsKept(q, p, ms, next);
      var q' := q + [Report(next, p, ms)];
      assert taken + Payloads(q') == taken + Payloads(q) + [p];
    }

    lemma NeverAgain(q: seq<Report>, p: Payload)
      requires Sealed(q) && Acceptable(p) && (p.cls.IsKeyboard() ==> p.data != LastKeyboard(taken + Payloads(q)))
      ensures p.cls.IsKeyboard() ==> !TailMatches(q, p)
      ensures p.cls.AllReleased? ==> |q| < CAPACITY
    {
      if q != [] {
        var last := q[|q| - 1].payload;
        assert (taken + Payloads(q))[|taken| + |q| - 1] == last;
        if last.cls.AllReleased? && p.cls.AllReleased? { ZeroesAreEqual(last.data, p.data); }
      }
    }

    /** The transport takes the report at the head. */
    method Take() returns (found: bool, p: Payload)
      requires Valid()
      modifies this`taken, this`size, queue, queue.reports
      ensures Valid()
      ensures found <==> old(size) > 0
      ensures found ==> taken == old(taken) + [p] && size == old(size) - 1
      ensures !found ==> taken == old(taken) && size == 0
    {
      ghost var q := queue.Contents();
      var r;
      found, r := queue.Front();
      p := r.payload;
      if found {
        SealedIsKept(q, p, 0, queue.nextSequence);
        var popped := queue.PopIfSequence(r.sequence);
        assert Payloads(q) == [p] + Payloads(q[1..]);
        taken, size := taken + [p], size - 1;
      }
    }

    /** Once the queue is empty, the last snapshot kept is the last one taken. */
    lemma DrainedIsTaken()
      requires Valid() && size == 0
      ensures taken == kept && last == LastKeyboard(taken)
    {
    }

    /** A new endpoint lifetime owes nothing to the old one. */
    method Renew()
      requires Valid()
      modifies this, queue, queue.reports
      ensures Valid() && kept == taken == [] && apps == size == 0
      ensures All(last, 0) && |last| == SNAPSHOT_BYTES
    {
      queue.Clear();
      taken, kept, last, size, apps := [], [], Fill(SNAPSHOT_BYTES, 0), 0, 0;
    }
  }

  lemma ZeroesAreEqual(a: seq<byte>, b: seq<byte>)
    requires |a| == |b| && All(a, 0) && All(b, 0)
    ensures a == b
  {
  }

  lemma KeptGrows(kept: seq<Payload>, p: Payload)
    ensures LastKeyboard(kept + [p]) == if p.cls.IsKeyboard() then p.data else LastKeyboard(kept)
  {
    assert (kept + [p])[..|kept|] == kept;
  }
}
