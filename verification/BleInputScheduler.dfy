/** One notification per interval, shared by key reports and wheel movement, with bounded backoff and bounded unfairness. */
module BleInputScheduler {
  import opened Options
  import opened Bytes
  import opened HidReportQueue
  import opened MouseWheelQueue

  const U64_MAX: nat := 0xFFFF_FFFF_FFFF_FFFF
  const INTERVAL_UNIT_US: nat := 1250

  datatype TxResult = TxAccepted | TxDroppedUnsupported | TxNoBuffer | TxBusy | TxDisconnected | TxFatal {
    /** The report leaves its queue. */
    predicate Completes() {
      TxAccepted? || TxDroppedUnsupported?
    }
  }

  datatype PollResult = Idle | Throttled | PollAccepted | PollDropped | Retryable | Disconnected | Fatal

  datatype Scheduled = Hid(report: Report) | Movement(sequence: Sequence, vertical: int, horizontal: int, owner: BleOwner)

  type u8 = x: nat | x < 256

  datatype Config = Config(fallbackUs: nat, minimumUs: nat, maximumUs: nat, maximumBackoffUs: nat, maximumShift: u8,
                           maximumConsecutiveHid: u8, wheelChunk: int)

  function Between(v: int, lo: int, hi: int): int
    requires lo <= hi
  {
    if v < lo then lo else if v > hi then hi else v
  }

  /** The constructor's repairs. */
  function Repaired(c: Config): (r: Config)
    ensures 0 < r.minimumUs <= r.fallbackUs <= r.maximumUs && r.minimumUs <= r.maximumBackoffUs
    ensures 0 < r.maximumConsecutiveHid && r.maximumShift <= 20 && 1 <= r.wheelChunk <= 127
  {
    var lo := if c.minimumUs == 0 then 1 else c.minimumUs;
    var hi := if c.maximumUs < lo then lo else c.maximumUs;
    Config(Between(c.fallbackUs, lo, hi), lo, hi, if c.maximumBackoffUs < lo then lo else c.maximumBackoffUs,
           Min(c.maximumShift, 20), if c.maximumConsecutiveHid == 0 then 1 else c.maximumConsecutiveHid,
           Between(c.wheelChunk, 1, 127))
  }

  /** The period for a negotiated connection interval, kept within the configured bounds. */
  function PeriodFor(c: Config, units: nat, valid: bool): nat
    requires c == Repaired(c)
  {
    if valid && units != 0 then Between(units * INTERVAL_UNIT_US, c.minimumUs, c.maximumUs) else c.fallbackUs
  }

  function SaturatingAdd(a: nat, b: nat): nat {
    if a + b > U64_MAX then U64_MAX else a + b
  }

  function Pow2(n: nat): (p: nat)
    ensures p > 0
  {
    if n == 0 then 1 else 2 * Pow2(n - 1)
  }

  /** Backoff as computed without overflow: compare before shifting. */
  function RetryDelay(c: Config, period: nat, streak: nat): nat {
    var shift := if streak == 0 then 0 else Min(streak - 1, c.maximumShift);
    if period > c.maximumBackoffUs / Pow2(shift) then c.maximumBackoffUs else Min(period * Pow2(shift), c.maximumBackoffUs)
  }

  /** It doubles per failed attempt up to the shift limit, and is capped: never less than one period unless the cap is. */
  lemma RetryDelayIsCappedDoubling(c: Config, period: nat, streak: nat)
    ensures var shift := if streak == 0 then 0 else Min(streak - 1, c.maximumShift);
            RetryDelay(c, period, streak) == Min(period * Pow2(shift), c.maximumBackoffUs)
    ensures Min(period, c.maximumBackoffUs) <= RetryDelay(c, period, streak) <= c.maximumBackoffUs
  {
    var shift := if streak == 0 then 0 else Min(streak - 1, c.maximumShift);
    var p, m := Pow2(shift), c.maximumBackoffUs;
    QuotientIsThreshold(period, m, p);
    NeverLess(period, p);
  }

  lemma NeverLess(a: nat, p: nat)
    requires p > 0
    ensures a <= a * p
  {
  }

  lemma QuotientIsThreshold(a: nat, m: nat, p: nat)
    requires p > 0
    ensures a > m / p <==> a * p > m
  {
    var q, r := m / p, m % p;
    assert m == q * p + r;
    if a > q {
      assert a * p >= (q + 1) * p;
    } else {
      assert a * p <= q * p;
    }
  }

  function OneMore(streak: nat): nat {
    if streak < 0xFFFF_FFFF then streak + 1 else streak
  }

  predicate KeepsOrder(c: ReportClass) {
    c.Release? || c.AllReleased? || c.StatefulRelease?
  }

  class Scheduler {
    const config: Config
    var periodUs: nat
    var nextAttemptUs: nat
    var lastAttemptUs: nat
    var retryStreak: nat
    var consecutiveHid: nat
    var hasAttempted: bool
    var resyncRequired: bool

    /** Key reports that left the queue since the last disconnect, in order, with whether the host took them. */
    ghost var finished: seq<(Report, bool)>
    /** Wheel movement that left the queue since then. */
    ghost var moved: (int, int)
    /** Key reports other than releases that overtook a waiting wheel entry since the last wheel report or clock reset. */
    ghost var overtaken: nat

    ghost predicate Valid()
      reads this
    {
      && config == Repaired(config)
      && config.minimumUs <= periodUs <= config.maximumUs
      && overtaken <= consecutiveHid && overtaken <= config.maximumConsecutiveHid
      && (hasAttempted ==> Deadline())
    }

    /** After a success exactly one period, after failures at least the backoff. */
    ghost predicate Deadline()
      reads this
    {
      if retryStreak == 0 then nextAttemptUs == SaturatingAdd(lastAttemptUs, periodUs)
      else nextAttemptUs >= SaturatingAdd(lastAttemptUs, RetryDelay(config, periodUs, retryStreak))
    }

    constructor (c: Config)
      ensures Valid() && config == Repaired(c) && !hasAttempted && retryStreak == 0 && finished == [] && moved == (0, 0)
    {
      config := Repaired(c);
      periodUs := Repaired(c).fallbackUs;
      nextAttemptUs, lastAttemptUs, retryStreak, consecutiveHid := 0, 0, 0, 0;
      hasAttempted, resyncRequired := false, false;
      finished, moved, overtaken := [], (0, 0), 0;
      new;
      RepairedTwice(c);
    }

    method SetConnectionInterval(units: nat, valid: bool)
      requires Valid()
      modifies this`periodUs, this`nextAttemptUs
      ensures Valid()
      ensures periodUs == PeriodFor(config, units, valid)
      ensures periodUs == old(periodUs) || !hasAttempted ==> nextAttemptUs == old(nextAttemptUs)
      // A pending retry is never brought forward.
      ensures hasAttempted && retryStreak > 0 ==> nextAttemptUs >= old(nextAttemptUs)
    {
      var period := PeriodFor(config, units, valid);
      if period == periodUs { return; }
      periodUs := period;
      if hasAttempted {
        var rebased := SaturatingAdd(lastAttemptUs, if retryStreak == 0 then periodUs else RetryDelay(config, periodUs, retryStreak));
        nextAttemptUs := if retryStreak == 0 || rebased > nextAttemptUs then rebased else nextAttemptUs;
      }
    }

    method ResetDeliveryClock()
      requires Valid()
      modifies this
      ensures Valid() && !hasAttempted && retryStreak == 0 && periodUs == old(periodUs)
      ensures finished == old(finished) && moved == old(moved) && resyncRequired == old(resyncRequired)
    {
      nextAttemptUs, lastAttemptUs, retryStreak, consecutiveHid, hasAttempted := 0, 0, 0, 0, false;
      overtaken := 0;
    }

    method MarkDisconnected()
      requires Valid()
      modifies this
      ensures Valid() && !hasAttempted && resyncRequired && periodUs == old(periodUs)
      ensures finished == [] && moved == (0, 0)
    {
      resyncRequired := true;
      finished, moved := [], (0, 0);
      ResetDeliveryClock();
    }

    lemma Configured()
      requires Valid()
      ensures config == Repaired(config)
    {
    }

    predicate SendsHid(head: Report, wheelWaits: bool)
      reads this
    {
      !wheelWaits || KeepsOrder(head.payload.cls) || consecutiveHid < config.maximumConsecutiveHid
    }

    function Chunk(v: int): (c: int)
      reads this
      requires config.wheelChunk >= 1
      ensures -config.wheelChunk <= c <= config.wheelChunk && ValidConsumption(v, c) && (v != 0 ==> c != 0)
    {
      Between(v, -config.wheelChunk, config.wheelChunk)
    }

    /** Exactly one of the two heads, chosen by order and fairness. */
    ghost predicate Chooses(h: seq<Report>, w: seq<Wheel>, sent: Scheduled)
      reads this
      requires config.wheelChunk >= 1
    {
      if h != [] && SendsHid(h[0], w != []) then sent == Hid(h[0])
      else w != [] && sent == Movement(w[0].sequence, Chunk(w[0].vertical), Chunk(w[0].horizontal), w[0].owner)
    }

    /** One look at both queues; `transmit` is how the radio answers, if it is asked. */
    method Poll(now: nat, hid: Queue, wheel: WheelQueue, transmit: Scheduled -> TxResult) returns (r: PollResult, sent: Option<Scheduled>)
      requires Valid() && hid.Valid() && wheel.Valid()
      modifies this, hid, hid.reports, wheel, wheel.cells
      ensures Valid() && hid.Valid() && wheel.Valid() && periodUs == old(periodUs)
      ensures hid.nextSequence == old(hid.nextSequence) && wheel.nextSequence == old(wheel.nextSequence)
      // The radio is asked exactly when something waits and the deadline has passed, and then about the right head.
      ensures sent.Some? <==>
        (old(hid.Contents()) != [] || old(wheel.Contents()) != []) && !(old(hasAttempted) && now < old(nextAttemptUs))
      ensures sent.Some? ==> old(Chooses(hid.Contents(), wheel.Contents(), sent.value)) && hasAttempted && lastAttemptUs == now
      ensures sent.None? ==> hid.Contents() == old(hid.Contents()) && wheel.Contents() == old(wheel.Contents()) && unchanged(this)
      // Only an answer that completes a report removes anything; a failed attempt leaves both queues for an exact retry.
      ensures sent.Some? && !transmit(sent.value).Completes() ==> hid.Contents() == old(hid.Contents()) && wheel.Contents() == old(wheel.Contents())
      // First in, first out: nothing leaves the key queue except into the finished list, in order.
      ensures Reports(finished) + hid.Contents() == old(Reports(finished) + hid.Contents())
      ensures finished == if sent.Some? && sent.value.Hid? && transmit(sent.value).Completes()
        then old(finished) + [(sent.value.report, transmit(sent.value).TxAccepted?)] else old(finished)
      // Movement is conserved: what was sent or dropped is exactly what left the wheel queue.
      ensures Plus(moved, Total(wheel.Contents())) == old(Plus(moved, Total(wheel.Contents())))
      ensures sent.Some? && sent.value.Movement? && transmit(sent.value).TxAccepted? ==> moved == Plus(old(moved), (sent.value.vertical, sent.value.horizontal))
      ensures resyncRequired == (old(resyncRequired) || (sent.Some? && transmit(sent.value).TxDisconnected?))
      ensures sent.Some? ==> retryStreak == if transmit(sent.value).Completes() then 0 else OneMore(old(retryStreak))
    {
      hide Queue.Valid, Queue.Contents, WheelQueue.Valid, WheelQueue.Contents, Total, RetryDelay, Reports, Consumed, KeepsOrder;
      var hasHid, report := hid.Front();
      var hasWheel, w := wheel.Front();
      if !hasHid && !hasWheel { return Idle, None; }
      if hasAttempted && now < nextAttemptUs { return Throttled, None; }
      var head := if hasHid && SendsHid(report, hasWheel) then Hid(report)
                  else Movement(w.sequence, Chunk(w.vertical), Chunk(w.horizontal), w.owner);
      sent := Some(head);
      var tx := transmit(head);
      r := Settle(now, tx);
      if tx.Completes() { Finish(hid, wheel, head, hasWheel, w, tx.TxAccepted?); }
    }

    /** The chosen head leaves its queue. */
    method Finish(hid: Queue, wheel: WheelQueue, head: Scheduled, wheelWaits: bool, w: Wheel, accepted: bool)
      requires hid.Valid() && wheel.Valid() && config.wheelChunk >= 1
      requires overtaken <= consecutiveHid && overtaken <= config.maximumConsecutiveHid
      requires head.Hid? ==> hid.Contents() != [] && head.report == hid.Contents()[0] && SendsHid(head.report, wheelWaits)
      requires head.Movement? ==> wheel.Contents() != [] && w == wheel.Contents()[0]
      requires head.Movement? ==> head.vertical == Chunk(w.vertical) && head.horizontal == Chunk(w.horizontal)
      modifies this`finished, this`moved, this`consecutiveHid, this`overtaken, hid, hid.reports, wheel, wheel.cells
      ensures hid.Valid() && wheel.Valid() && hid.nextSequence == old(hid.nextSequence) && wheel.nextSequence == old(wheel.nextSequence)
      ensures overtaken <= consecutiveHid && overtaken <= config.maximumConsecutiveHid
      ensures Reports(finished) + hid.Contents() == old(Reports(finished) + hid.Contents())
      ensures finished == if head.Hid? then old(finished) + [(head.report, accepted)] else old(finished)
      ensures Plus(moved, Total(wheel.Contents())) == old(Plus(moved, Total(wheel.Contents())))
      ensures accepted && head.Movement? ==> moved == Plus(old(moved), (head.vertical, head.horizontal))
    {
      hide Queue.Valid, Queue.Contents, WheelQueue.Valid, WheelQueue.Contents, Total, Reports, Consumed, KeepsOrder;
      if head.Hid? {
        FinishHid(hid, head.report, wheelWaits, accepted);
      } else {
        FinishWheel(wheel, w, accepted);
      }
    }

    method FinishHid(hid: Queue, report: Report, wheelWaits: bool, accepted: bool)
      requires hid.Valid() && hid.Contents() != [] && report == hid.Contents()[0] && SendsHid(report, wheelWaits)
      requires overtaken <= consecutiveHid && overtaken <= config.maximumConsecutiveHid
      modifies this`finished, this`consecutiveHid, this`overtaken, hid, hid.reports
      ensures hid.Valid() && hid.Contents() == old(hid.Contents())[1..] && hid.nextSequence == old(hid.nextSequence)
      ensures finished == old(finished) + [(report, accepted)]
      ensures Reports(finished) + hid.Contents() == old(Reports(finished) + hid.Contents())
      ensures overtaken <= consecutiveHid && overtaken <= config.maximumConsecutiveHid
    {
      hide Queue.Valid, Queue.Contents, Reports;
      var popped := hid.PopIfSequence(report.sequence);
      if wheelWaits && !KeepsOrder(report.payload.cls) { overtaken := overtaken + 1; }
      if consecutiveHid < 255 { consecutiveHid := consecutiveHid + 1; }
      finished := finished + [(report, accepted)];
      ReportsAppend(old(finished), report, accepted);
      assert old(hid.Contents()) == [report] + hid.Contents();
    }

    method FinishWheel(wheel: WheelQueue, w: Wheel, accepted: bool)
      requires wheel.Valid() && wheel.Contents() != [] && w == wheel.Contents()[0] && config.wheelChunk >= 1
      modifies this`moved, this`consecutiveHid, this`overtaken, wheel, wheel.cells
      ensures wheel.Valid() && wheel.nextSequence == old(wheel.nextSequence)
      ensures Plus(moved, Total(wheel.Contents())) == old(Plus(moved, Total(wheel.Contents())))
      ensures accepted ==> moved == Plus(old(moved), (Chunk(w.vertical), Chunk(w.horizontal)))
      ensures !accepted ==> wheel.Contents() == old(wheel.Contents())[1..]
      ensures consecutiveHid == 0 && overtaken == 0
    {
      hide WheelQueue.Valid, WheelQueue.Contents, Total;
      if accepted {
        ConsumeConserves(wheel.Contents(), w.sequence, Chunk(w.vertical), Chunk(w.horizontal));
        moved := Plus(moved, (Chunk(w.vertical), Chunk(w.horizontal)));
        var taken := wheel.ConsumeIfSequence(w.sequence, Chunk(w.vertical), Chunk(w.horizontal));
      } else {
        TotalHead(wheel.Contents());
        moved := Plus(moved, (w.vertical, w.horizontal));
        var taken := wheel.PopIfSequence(w.sequence);
      }
      consecutiveHid, overtaken := 0, 0;
    }

    /** Book the answer: success restores the plain period, any failure backs off. */
    method Settle(now: nat, tx: TxResult) returns (r: PollResult)
      modifies this`hasAttempted, this`lastAttemptUs, this`retryStreak, this`nextAttemptUs, this`resyncRequired
      ensures hasAttempted && lastAttemptUs == now && Deadline() && (retryStreak == 0 <==> tx.Completes())
      ensures !tx.Completes() ==> nextAttemptUs == SaturatingAdd(now, RetryDelay(config, periodUs, retryStreak))
      ensures resyncRequired == (old(resyncRequired) || tx.TxDisconnected?)
      ensures retryStreak == if tx.Completes() then 0 else OneMore(old(retryStreak))
    {
      hide RetryDelay;
      hasAttempted, lastAttemptUs := true, now;
      if tx.Completes() {
        retryStreak, nextAttemptUs := 0, SaturatingAdd(now, periodUs);
        return if tx.TxAccepted? then PollAccepted else PollDropped;
      }
      if tx.TxDisconnected? { resyncRequired := true; }
      retryStreak := OneMore(retryStreak);
      nextAttemptUs := SaturatingAdd(now, RetryDelay(config, periodUs, retryStreak));
      r := if tx.TxDisconnected? then Disconnected else if tx.TxFatal? then Fatal else Retryable;
    }
  }

  function Plus(a: (int, int), b: (int, int)): (int, int) {
    (a.0 + b.0, a.1 + b.1)
  }

  function Reports(done: seq<(Report, bool)>): (rs: seq<Report>)
    ensures |rs| == |done|
  {
    seq(|done|, i requires 0 <= i < |done| => done[i].0)
  }

  lemma ReportsAppend(done: seq<(Report, bool)>, r: Report, accepted: bool)
    ensures Reports(done + [(r, accepted)]) == Reports(done) + [r]
  {
  }

  lemma RepairedTwice(c: Config)
    ensures Repaired(Repaired(c)) == Repaired(c)
  {
  }

  // ---- whole runs ----

  datatype Event =
    | OfferReport(p: Payload, ms: nat) | OfferMovement(v: int, h: int, ms: nat, owner: BleOwner)
    | Look(now: nat, transmit: Scheduled -> TxResult) | Interval(units: nat, valid: bool) | Reset

  /** One question to the radio: when, under which period, after how many failures in a row, and whether the answer completed a report. */
  datatype Attempt = Attempt(at: nat, afresh: bool, period: nat, streak: nat, completed: bool)

  /** The distance to keep: the plain period, or the bounded backoff after a failure. */
  function Gap(c: Config, period: nat, streak: nat): nat {
    if streak == 0 then period else RetryDelay(c, period, streak)
  }

  /** Every attempt keeps the distance then in force from the one before it, except right after a clock reset. */
  predicate Paced(c: Config, attempts: seq<Attempt>) {
    forall i, j :: 0 <= i < |attempts| && j == i + 1 && j < |attempts| && !attempts[j].afresh ==> Follows(c, attempts[i], attempts[j])
  }

  predicate Follows(c: Config, a: Attempt, b: Attempt) {
    && b.at >= SaturatingAdd(a.at, Gap(c, b.period, b.streak))
    && b.streak == (if a.completed then 0 else OneMore(a.streak))
  }

  /** No value had to be clamped to fit. */
  predicate Exact(r: WheelResult, v: int, h: int) {
    match r
    case Refused => true
    case Fresh(_) => -LIMIT <= v <= LIMIT && -LIMIT <= h <= LIMIT
    case Merged(_, saturated) => !saturated
  }

  /** What one event was answered with. */
  datatype Answer = ToReport(pushed: PushResult) | ToMovement(merged: WheelResult) | ToLook(sent: Option<Scheduled>) | NoAnswer

  /**
   * What a run has seen: reports queued and finished, movement taken and whether none of it was clamped, the attempts made, whether
   * one was made since the clock started, and the period and the failures in a row then in force.
   */
  datatype Log = Log(queued: seq<Report>, finished: seq<(Report, bool)>, arrived: (int, int), exact: bool, attempts: seq<Attempt>,
                     asked: bool, period: nat, streak: nat)

  function Noted(c: Config, log: Log, e: Event, a: Answer): Log
    requires c == Repaired(c)
  {
    match e
    case OfferReport(p, ms) =>
      if a.ToReport? && a.pushed.Queued? then log.(queued := log.queued + [Report(a.pushed.sequence, p, ms)]) else log
    case OfferMovement(v, h, _, _) =>
      if a.ToMovement? && a.merged.Accepted() then log.(exact := log.exact && Exact(a.merged, v, h), arrived := Plus(log.arrived, (v, h))) else log
    case Look(now, transmit) =>
      if a.ToLook? && a.sent.Some? then
        var tx := transmit(a.sent.value);
        log.(attempts := log.attempts + [Attempt(now, !log.asked, log.period, log.streak, tx.Completes())], asked := true,
             streak := if tx.Completes() then 0 else OneMore(log.streak),
             finished := if tx.Completes() && a.sent.value.Hid? then log.finished + [(a.sent.value.report, tx.TxAccepted?)] else log.finished)
      else log
    case Interval(units, valid) => log.(period := PeriodFor(c, units, valid))
    case Reset => log.(asked := false, streak := 0)
  }

  /** The log is the events and their answers, and nothing else. */
  function LogOf(c: Config, period: nat, events: seq<Event>, answers: seq<Answer>): Log
    requires c == Repaired(c) && |events| == |answers|
  {
    if events == [] then Log([], [], (0, 0), true, [], false, period, 0)
    else
      var n := |events| - 1;
      Noted(c, LogOf(c, period, events[..n], answers[..n]), events[n], answers[n])
  }

  ghost predicate Kept(s: Scheduler, hid: Queue, wheel: WheelQueue, log: Log)
    reads s, hid, hid.reports, wheel, wheel.cells
  {
    && s.Valid() && hid.Valid() && wheel.Valid()
    // Key reports finish in the order they were queued, none twice and none skipped.
    && s.finished == log.finished && Reports(log.finished) + hid.Contents() == log.queued
    // Movement that arrived is sent, dropped or still queued.
    && (log.exact ==> Plus(s.moved, Total(wheel.Contents())) == log.arrived)
    && Paced(s.config, log.attempts)
    && s.periodUs == log.period && s.hasAttempted == log.asked && s.retryStreak == log.streak
    && (s.hasAttempted ==> log.attempts != [] && Latest(s, log.attempts[|log.attempts| - 1]))
  }

  ghost predicate Latest(s: Scheduler, a: Attempt)
    reads s
  {
    a.at == s.lastAttemptUs && s.retryStreak == if a.completed then 0 else OneMore(a.streak)
  }

  /** However offers, radio answers, interval changes and clock resets interleave, what `Kept` says holds of the events and answers. */
  method Drive(s: Scheduler, hid: Queue, wheel: WheelQueue, events: seq<Event>) returns (answers: seq<Answer>)
    requires s.Valid() && hid.Valid() && wheel.Valid() && !s.hasAttempted && s.retryStreak == 0 && s.finished == [] && s.moved == (0, 0)
    requires hid.Contents() == [] && wheel.Contents() == []
    modifies s, hid, hid.reports, wheel, wheel.cells
    ensures |answers| == |events| && s.config == Repaired(s.config)
    ensures Kept(s, hid, wheel, LogOf(s.config, old(s.periodUs), events, answers))
    // While anything but a release is at the head of the key queue, a waiting wheel entry has been overtaken a bounded number of times.
    ensures s.overtaken <= s.config.maximumConsecutiveHid
  {
    hide Queue.Valid, Queue.Contents, WheelQueue.Valid, WheelQueue.Contents, Repaired, Noted, LogOf, Kept, Scheduler.Valid;
    s.Configured();
    answers := [];
    ghost var c, period := s.config, s.periodUs;
    ghost var log := LogOf(c, period, [], []);
    KeptAtFirst(s, hid, wheel);
    for k := 0 to |events|
      invariant |answers| == k && log == LogOf(c, period, events[..k], answers) && Kept(s, hid, wheel, log)
    {
      var a := Happen(s, hid, wheel, events[k], log);
      LogGrows(c, period, events, answers, a);
      answers, log := answers + [a], Noted(c, log, events[k], a);
    }
    assert events[..|events|] == events;
    OvertakingIsBounded(s, hid, wheel, log);
  }

  method Happen(s: Scheduler, hid: Queue, wheel: WheelQueue, e: Event, ghost log: Log) returns (a: Answer)
    requires s.config == Repaired(s.config) && Kept(s, hid, wheel, log)
    modifies s, hid, hid.reports, wheel, wheel.cells
    ensures Kept(s, hid, wheel, Noted(s.config, log, e, a))
  {
    hide Kept, Repaired;
    match e {
      case OfferReport(p, ms) => a := TakeReport(s, hid, wheel, p, ms, log);
      case OfferMovement(v, h, ms, owner) => a := TakeMovement(s, hid, wheel, v, h, ms, owner, log);
      case Look(now, transmit) => a := TakeLook(s, hid, wheel, now, transmit, log);
      case Interval(units, valid) =>
        SetInterval(s, hid, wheel, units, valid, log);
        a := NoAnswer;
      case Reset =>
        RestartClock(s, hid, wheel, log);
        a := NoAnswer;
    }
  }

  method TakeReport(s: Scheduler, hid: Queue, wheel: WheelQueue, p: Payload, ms: nat, ghost log: Log) returns (a: Answer)
    requires s.config == Repaired(s.config) && Kept(s, hid, wheel, log)
    modifies hid, hid.reports
    ensures Kept(s, hid, wheel, Noted(s.config, log, OfferReport(p, ms), a))
  {
    hide Queue.Valid, Queue.Contents, WheelQueue.Valid, WheelQueue.Contents, Total, Reports, PushedClassified, Paced, Latest, Scheduler.Valid, Repaired;
    ghost var before := hid.Contents();
    PushAppends(before, p, ms, hid.nextSequence);
    var r := hid.PushClassified(p, ms);
    if r.Queued? { assert Reports(log.finished) + hid.Contents() == Reports(log.finished) + before + [Report(r.sequence, p, ms)]; }
    a := ToReport(r);
  }

  method TakeMovement(s: Scheduler, hid: Queue, wheel: WheelQueue, v: int, h: int, ms: nat, owner: BleOwner, ghost log: Log) returns (a: Answer)
    requires s.config == Repaired(s.config) && Kept(s, hid, wheel, log)
    modifies wheel, wheel.cells
    ensures Kept(s, hid, wheel, Noted(s.config, log, OfferMovement(v, h, ms, owner), a))
  {
    hide Queue.Valid, Queue.Contents, WheelQueue.Valid, WheelQueue.Contents, Total, Reports, WheelPushed, Paced, Latest, Scheduler.Valid, Repaired;
    PushConserves(wheel.Contents(), v, h, ms, owner, 0, wheel.nextSequence);
    var r := wheel.Push(v, h, ms, owner, 0);
    a := ToMovement(r);
  }

  method TakeLook(s: Scheduler, hid: Queue, wheel: WheelQueue, now: nat, transmit: Scheduled -> TxResult, ghost log: Log) returns (a: Answer)
    requires s.config == Repaired(s.config) && Kept(s, hid, wheel, log)
    modifies s, hid, hid.reports, wheel, wheel.cells
    ensures Kept(s, hid, wheel, Noted(s.config, log, Look(now, transmit), a))
  {
    hide Queue.Valid, Queue.Contents, WheelQueue.Valid, WheelQueue.Contents, Total, RetryDelay, Reports, Paced, SaturatingAdd,
      Scheduler.Valid, Scheduler.Chooses, Repaired;
    if s.hasAttempted { GapIsKept(s, now); }
    ghost var streak, period, afresh := s.retryStreak, s.periodUs, !s.hasAttempted;
    if !s.hasAttempted || now >= s.nextAttemptUs {
      forall completed: bool ensures Paced(s.config, log.attempts + [Attempt(now, afresh, period, streak, completed)]) {
        PacedAppend(s.config, log.attempts, Attempt(now, afresh, period, streak, completed));
      }
    }
    var _, sent := s.Poll(now, hid, wheel, transmit);
    a := ToLook(sent);
  }

  method SetInterval(s: Scheduler, hid: Queue, wheel: WheelQueue, units: nat, valid: bool, ghost log: Log)
    requires s.config == Repaired(s.config) && Kept(s, hid, wheel, log)
    modifies s`periodUs, s`nextAttemptUs
    ensures Kept(s, hid, wheel, Noted(s.config, log, Interval(units, valid), NoAnswer))
  {
    hide Queue.Valid, Queue.Contents, WheelQueue.Valid, WheelQueue.Contents, Total, Reports, Paced, Scheduler.Valid, Repaired;
    s.SetConnectionInterval(units, valid);
  }

  method RestartClock(s: Scheduler, hid: Queue, wheel: WheelQueue, ghost log: Log)
    requires s.config == Repaired(s.config) && Kept(s, hid, wheel, log)
    modifies s
    ensures Kept(s, hid, wheel, Noted(s.config, log, Reset, NoAnswer))
  {
    hide Queue.Valid, Queue.Contents, WheelQueue.Valid, WheelQueue.Contents, Total, Reports, Paced, Scheduler.Valid, Repaired;
    s.ResetDeliveryClock();
  }

  lemma KeptAtFirst(s: Scheduler, hid: Queue, wheel: WheelQueue)
    requires s.Valid() && hid.Valid() && wheel.Valid() && !s.hasAttempted && s.retryStreak == 0 && s.finished == [] && s.moved == (0, 0)
    requires hid.Contents() == [] && wheel.Contents() == [] && s.config == Repaired(s.config)
    ensures Kept(s, hid, wheel, LogOf(s.config, s.periodUs, [], []))
  {
    hide Queue.Valid, Queue.Contents, WheelQueue.Valid, WheelQueue.Contents, Total, RetryDelay, Reports, Scheduler.Valid, Repaired;
    assert |Reports([])| == 0;
    TotalOfNothing();
  }

  lemma LogGrows(c: Config, period: nat, events: seq<Event>, answers: seq<Answer>, a: Answer)
    requires c == Repaired(c) && |answers| < |events|
    ensures var n := |answers|;
      LogOf(c, period, events[..n + 1], answers + [a]) == Noted(c, LogOf(c, period, events[..n], answers), events[n], a)
  {
    hide Noted, Repaired;
    assert events[..|answers| + 1][..|answers|] == events[..|answers|] && (answers + [a])[..|answers|] == answers;
  }

  lemma OvertakingIsBounded(s: Scheduler, hid: Queue, wheel: WheelQueue, log: Log)
    requires Kept(s, hid, wheel, log)
    ensures s.overtaken <= s.config.maximumConsecutiveHid
  {
  }

  lemma PacedAppend(c: Config, attempts: seq<Attempt>, a: Attempt)
    requires Paced(c, attempts) && (attempts == [] || a.afresh || Follows(c, attempts[|attempts| - 1], a))
    ensures Paced(c, attempts + [a])
  {
    hide Follows;
  }

  lemma TotalOfNothing()
    ensures Total([]) == (0, 0)
  {
  }

  lemma PushAppends(q: seq<Report>, p: Payload, ms: nat, next: Sequence)
    ensures var (q', r) := PushedClassified(q, p, ms, next); q' == if r.Queued? then q + [Report(r.sequence, p, ms)] else q
  {
  }

  /** No attempt before the distance in force has passed. */
  lemma GapIsKept(s: Scheduler, now: nat)
    requires s.Valid() && s.hasAttempted
    ensures now >= s.nextAttemptUs ==> now >= SaturatingAdd(s.lastAttemptUs, Gap(s.config, s.periodUs, s.retryStreak))
  {
  }

  /** And that distance lies between the shortest period and the longest period or backoff. */
  lemma GapIsBounded(s: Scheduler)
    requires s.Valid()
    ensures s.config.minimumUs <= Gap(s.config, s.periodUs, s.retryStreak)
    ensures Gap(s.config, s.periodUs, s.retryStreak) <= if s.retryStreak == 0 then s.config.maximumUs else s.config.maximumBackoffUs
  {
    RetryDelayIsCappedDoubling(s.config, s.periodUs, s.retryStreak);
  }
}
