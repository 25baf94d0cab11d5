/**
 * The permit exchange between the store worker and its supervisor, as interleaved atomic steps: one flash or hash unit per
 * permit, and only while input priority has not changed since the unit was asked for.
 */
module PermitExchange {
  import opened Options
  import opened FlashStorage
  import opened ChunkedStorage

  const MAX_EPOCH: nat := 0x3FFF_FFFF_FFFF_FFFF
  const MAX_SEQUENCE: nat := 0xFFFF_FFFF
  const MAX_JOB: nat := 0xFFFF_FFFF_FFFF_FFFF

  datatype Permit = Permit(job: nat, sequence: nat, what: WorkUnit)

  predicate WellSized(u: WorkUnit) {
    if u.kind.EraseWork? then u.len == ERASE_UNIT else 0 < u.len <= READ_WRITE_UNIT
  }

  // ---- state ----

  /** One atomic word: whether units may run, whether one is running, and how often permission has changed. */
  datatype Priority = Priority(allowed: bool, claimed: bool, epoch: nat)

  datatype Phase = Idle | Accepted | Running | PermitRequested | PermitGranted | Completed

  /** Where the worker is between two atomic steps. */
  datatype Worker =
    | Parked
    | Between
    | Wanting(u: WorkUnit)
    | Sampled(u: WorkUnit, at: nat)
    | Ready(p: Permit, at: nat)
    | Awaiting(p: Permit, at: nat)
    | Taken(p: Permit, at: nat, grant: nat)
    | CheckedOnce(p: Permit, at: nat, grant: nat)
    | CheckedTwice(p: Permit, at: nat, grant: nat)
    | Holding(p: Permit, at: nat, grant: nat, claim: nat)
    | Performed(p: Permit)

  /** A unit that ran: its permit, and the epochs at which it was asked for, granted and claimed. */
  datatype Ran = Ran(p: Permit, asked: nat, granted: nat, claimed: nat)

  datatype State = State(
    priority: Priority, phase: Phase, activeJob: nat, nextJob: nat,
    requested: Option<Permit>, granted: Option<Permit>, grantEpoch: nat,
    worker: Worker, workerJob: nat, nextSequence: nat,
    // history
    ran: seq<Ran>, grants: seq<(Permit, nat)>)

  const START := State(Priority(false, false, 0), Idle, 0, 1, None, None, 0, Parked, 0, 1, [], [])

  datatype Step =
    // supervisor
    | Publish(allow: bool) | Accept | Grant | Collect
    // worker
    | StartJob | Want(u: WorkUnit) | Sample | Check | Post | Take | Recheck | Claim | Perform | Complete | FinishJob

  function Published(p: Priority, allow: bool): Priority {
    if p.allowed == allow then p
    else if p.epoch >= MAX_EPOCH then Priority(false, p.claimed, MAX_EPOCH)
    else Priority(allow, p.claimed, p.epoch + 1)
  }

  predicate Exact(p: Priority, epoch: nat) {
    p.allowed && !p.claimed && p.epoch == epoch
  }

  /** One atomic step; a step that is not possible where it is attempted changes nothing. */
  function Next(s: State, e: Step): State {
    match e
    case Publish(allow) => s.(priority := Published(s.priority, allow))
    case Accept =>
      if s.phase.Idle? && s.nextJob != 0 then
        s.(phase := Phase.Accepted, activeJob := s.nextJob, nextJob := if s.nextJob == MAX_JOB then 0 else s.nextJob + 1,
           requested := None, granted := None, grantEpoch := 0)
      else s
    case Grant =>
      if s.phase.PermitRequested? && s.priority.allowed && s.requested.Some? then
        s.(granted := s.requested, grantEpoch := s.priority.epoch, phase := PermitGranted,
           grants := s.grants + [(s.requested.value, s.priority.epoch)])
      else s
    case Collect => if s.phase.Completed? then s.(phase := Idle, activeJob := 0, requested := None, granted := None, grantEpoch := 0) else s
    case StartJob =>
      if s.worker.Parked? && s.phase.Accepted? then s.(phase := Running, worker := Between, workerJob := s.activeJob, nextSequence := 1) else s
    case Want(u) => if s.worker.Between? && WellSized(u) then s.(worker := Wanting(u)) else s
    case Sample => if s.worker.Wanting? then s.(worker := Sampled(s.worker.u, s.priority.epoch)) else s
    case Check =>
      if !s.worker.Sampled? then s
      else if !Exact(s.priority, s.worker.at) then s.(worker := Wanting(s.worker.u))
      // An exhausted sequence refuses the unit; the store call above reports the storage as unavailable.
      else if s.nextSequence == 0 then s.(worker := Between)
      else s.(worker := Ready(Permit(s.workerJob, s.nextSequence, s.worker.u), s.worker.at),
              nextSequence := if s.nextSequence == MAX_SEQUENCE then 0 else s.nextSequence + 1)
    case Post =>
      if !s.worker.Ready? then s
      else if !s.phase.Running? || s.activeJob != s.workerJob then s.(worker := Between)
      else s.(requested := Some(s.worker.p), granted := None, grantEpoch := 0, phase := PermitRequested,
              worker := Awaiting(s.worker.p, s.worker.at))
    case Take =>
      if !s.worker.Awaiting? then s
      else if s.phase.PermitGranted? && s.activeJob == s.workerJob && s.granted == Some(s.worker.p) then
        s.(phase := Running, worker := Taken(s.worker.p, s.worker.at, s.grantEpoch))
      else if s.activeJob != s.workerJob || (!s.phase.PermitRequested? && !s.phase.PermitGranted?) then s.(worker := Between)
      else s
    case Recheck =>
      if s.worker.Taken? then
        if s.worker.grant == s.worker.at && Exact(s.priority, s.worker.grant)
        then s.(worker := CheckedOnce(s.worker.p, s.worker.at, s.worker.grant)) else s.(worker := Wanting(s.worker.p.what))
      else if s.worker.CheckedOnce? then
        if Exact(s.priority, s.worker.grant)
        then s.(worker := CheckedTwice(s.worker.p, s.worker.at, s.worker.grant)) else s.(worker := Wanting(s.worker.p.what))
      else s
    case Claim =>
      if !s.worker.CheckedTwice? then s
      else if Exact(s.priority, s.worker.grant) then
        s.(priority := s.priority.(claimed := true), worker := Holding(s.worker.p, s.worker.at, s.worker.grant, s.priority.epoch))
      else s.(worker := Wanting(s.worker.p.what))
    case Perform =>
      if s.worker.Holding? then
        s.(worker := Performed(s.worker.p), ran := s.ran + [Ran(s.worker.p, s.worker.at, s.worker.grant, s.worker.claim)])
      else s
    case Complete => if s.worker.Performed? then s.(priority := s.priority.(claimed := false), worker := Between) else s
    case FinishJob =>
      if s.worker.Between? then
        s.(worker := Parked, workerJob := 0, nextSequence := 1,
           phase := if s.phase.Running? && s.activeJob == s.workerJob then Phase.Completed else s.phase)
      else s
  }

  function RunAll(s: State, steps: seq<Step>): State {
    if steps == [] then s else Next(RunAll(s, steps[..|steps| - 1]), steps[|steps| - 1])
  }

  // ---- invariant ----

  /** Permits are ordered by job and then by sequence. */
  predicate Before(p: Permit, q: Permit) {
    p.job < q.job || (p.job == q.job && p.sequence < q.sequence)
  }

  function PermitOf(w: Worker): Option<Permit> {
    match w
    case Ready(p, _) => Some(p)
    case Awaiting(p, _) => Some(p)
    case Taken(p, _, _) => Some(p)
    case CheckedOnce(p, _, _) => Some(p)
    case CheckedTwice(p, _, _) => Some(p)
    case Holding(p, _, _, _) => Some(p)
    case Performed(p) => Some(p)
    case _ => None
  }

  /** The permit in the worker's hand was granted, in the epoch it believes. */
  predicate Granted(s: State, p: Permit, epoch: nat) {
    (p, epoch) in s.grants
  }

  predicate WorkerInv(s: State) {
    match s.worker
    case Parked => !s.phase.Running? && !s.phase.PermitRequested? && !s.phase.PermitGranted?
    case Awaiting(p, at) =>
      && s.requested == Some(p) && (s.phase.PermitRequested? || (s.phase.PermitGranted? && s.granted == Some(p) && Granted(s, p, s.grantEpoch)))
      && at <= s.priority.epoch
    case Taken(p, at, grant) => s.phase.Running? && Granted(s, p, grant) && at <= s.priority.epoch
    case CheckedOnce(p, at, grant) => s.phase.Running? && Granted(s, p, grant) && at == grant <= s.priority.epoch
    case CheckedTwice(p, at, grant) => s.phase.Running? && Granted(s, p, grant) && at == grant <= s.priority.epoch
    case Holding(p, at, grant, claim) => s.phase.Running? && Granted(s, p, grant) && at == grant == claim <= s.priority.epoch
    case Sampled(_, at) => s.phase.Running? && at <= s.priority.epoch
    case Ready(_, at) => s.phase.Running? && at <= s.priority.epoch
    case _ => s.phase.Running?
  }

  function JobBound(s: State): nat {
    if s.nextJob == 0 then MAX_JOB + 1 else s.nextJob
  }

  /** A permit that has run cannot come up again: its job is over, or the job's numbering is past it. */
  predicate Spent(s: State, p: Permit) {
    if s.worker.Parked? then p.job < (if s.phase.Accepted? then s.activeJob else JobBound(s))
    else p.job < s.workerJob || (p.job == s.workerJob && (s.nextSequence == 0 || p.sequence < s.nextSequence))
  }

  /** A unit ran only under its own grant, and asking, granting and claiming all fell into one epoch. */
  predicate RanRightly(s: State, r: Ran) {
    Granted(s, r.p, r.granted) && r.asked == r.granted == r.claimed
  }

  predicate AllSpent(s: State) {
    forall i :: 0 <= i < |s.ran| ==> Spent(s, s.ran[i].p)
  }

  predicate AllRight(s: State) {
    forall i :: 0 <= i < |s.ran| ==> RanRightly(s, s.ran[i])
  }

  predicate AllBefore(ran: seq<Ran>, p: Permit) {
    forall i :: 0 <= i < |ran| ==> Before(ran[i].p, p)
  }

  predicate Ordered(ran: seq<Ran>) {
    forall i, j :: 0 <= i < j < |ran| ==> Before(ran[i].p, ran[j].p)
  }

  /** The permit in hand belongs to the running job and has been numbered. */
  predicate InHand(s: State) {
    match PermitOf(s.worker)
    case None => true
    case Some(p) =>
      && p.job == s.workerJob && p.sequence <= MAX_SEQUENCE && (s.nextSequence == 0 || p.sequence < s.nextSequence)
      && (!s.worker.Performed? ==> AllBefore(s.ran, p))
  }

  predicate Inv(s: State) {
    && WorkerInv(s) && InHand(s) && AllSpent(s) && AllRight(s) && Ordered(s.ran)
    // One unit at a time: the claim bit is set exactly while the worker holds or has just performed a unit.
    && (s.priority.claimed <==> s.worker.Holding? || s.worker.Performed?)
    && s.priority.epoch <= MAX_EPOCH && s.nextSequence <= MAX_SEQUENCE
    && (!s.worker.Parked? ==> s.workerJob == s.activeJob != 0)
    && s.activeJob < JobBound(s) && s.nextJob <= MAX_JOB
    && (s.phase.Accepted? ==> s.activeJob != 0 && s.worker.Parked?)
  }

  lemma StartInv()
    ensures Inv(START)
  {
  }

  lemma SupervisorKeepsInv(s: State, e: Step)
    requires Inv(s) && (e.Publish? || e.Accept? || e.Grant? || e.Collect?)
    ensures Inv(Next(s, e))
  {
    hide AllBefore, Ordered;
  }

  lemma WorkerKeepsInv(s: State, e: Step)
    requires Inv(s) && !(e.Publish? || e.Accept? || e.Grant? || e.Collect? || e.Perform? || e.Check?)
    ensures Inv(Next(s, e))
  {
    hide AllBefore, Ordered;
  }

  lemma CheckKeepsInv(s: State)
    requires Inv(s)
    ensures Inv(Next(s, Check))
  {
    hide Ordered;
  }

  lemma PerformKeepsInv(s: State)
    requires Inv(s)
    ensures Inv(Next(s, Perform))
  {
  }

  lemma StepKeepsInv(s: State, e: Step)
    requires Inv(s)
    ensures Inv(Next(s, e))
  {
    hide Inv, Next;
    if e.Publish? || e.Accept? || e.Grant? || e.Collect? { SupervisorKeepsInv(s, e); }
    else if e.Check? { CheckKeepsInv(s); }
    else if e.Perform? { PerformKeepsInv(s); }
    else { WorkerKeepsInv(s, e); }
  }

  /** Whatever the interleaving, the invariant holds. */
  lemma {:induction false} RunKeepsInv(steps: seq<Step>)
    ensures Inv(RunAll(START, steps))
  {
    hide Inv, Next;
    if steps == [] {
      StartInv();
    } else {
      var front, e := steps[..|steps| - 1], steps[|steps| - 1];
      RunKeepsInv(front);
      StepKeepsInv(RunAll(START, front), e);
    }
  }

  /** In every run each unit had its own permit, granted to exactly that unit, asked for, granted and claimed without a change of priority. */
  lemma UnitsRunUnderExactPermits(steps: seq<Step>)
    ensures var s := RunAll(START, steps);
            && (forall i :: 0 <= i < |s.ran| ==>
                  (s.ran[i].p, s.ran[i].granted) in s.grants && s.ran[i].asked == s.ran[i].granted == s.ran[i].claimed)
            && (forall i, j :: 0 <= i < j < |s.ran| ==> s.ran[i].p != s.ran[j].p)
  {
    RunKeepsInv(steps);
    hide RunAll;
    var s := RunAll(START, steps);
    assert forall i :: 0 <= i < |s.ran| ==> RanRightly(s, s.ran[i]);
    assert forall i, j :: 0 <= i < j < |s.ran| ==> Before(s.ran[i].p, s.ran[j].p);
  }

  /** A unit starts only while permission stands, in the very epoch of its request, with no other unit running. */
  lemma ClaimIsTimely(steps: seq<Step>)
    ensures var s := RunAll(START, steps);
            !s.worker.Holding? && Next(s, Claim).worker.Holding? ==>
              && s.priority.allowed && !s.priority.claimed && s.priority.epoch == s.worker.at
              && (s.worker.p, s.priority.epoch) in s.grants
  {
    RunKeepsInv(steps);
  }

  // ---- stale grants ----

  /** When the request in hand sampled the priority, if it has not been claimed yet. */
  function AskedAt(w: Worker): Option<nat> {
    match w
    case Ready(_, at) => Some(at)
    case Awaiting(_, at) => Some(at)
    case Taken(_, at, _) => Some(at)
    case CheckedOnce(_, at, _) => Some(at)
    case CheckedTwice(_, at, _) => Some(at)
    case _ => None
  }

  /** Permission has changed since the sample, or can never stand again. */
  predicate Lapsed(p: Priority, at: nat) {
    at < p.epoch || (!p.allowed && p.epoch == MAX_EPOCH)
  }

  /** This permit has not run and is not going to. */
  predicate Dead(s: State, p: Permit) {
    && Spent(s, p) && (forall i :: 0 <= i < |s.ran| ==> s.ran[i].p != p)
    && (PermitOf(s.worker) == Some(p) ==> AskedAt(s.worker).Some? && Lapsed(s.priority, AskedAt(s.worker).value))
  }

  lemma DeadStaysDead(s: State, p: Permit, e: Step)
    requires Inv(s) && Dead(s, p)
    ensures Dead(Next(s, e), p)
  {
    hide Ordered, AllRight, AllSpent, AllBefore;
  }

  lemma {:induction false} DeadNeverRuns(s: State, p: Permit, steps: seq<Step>)
    requires Inv(s) && Dead(s, p)
    ensures Inv(RunAll(s, steps)) && Dead(RunAll(s, steps), p)
  {
    hide Inv, Next, Dead;
    if steps != [] {
      var front, e := steps[..|steps| - 1], steps[|steps| - 1];
      DeadNeverRuns(s, p, front);
      StepKeepsInv(RunAll(s, front), e);
      DeadStaysDead(RunAll(s, front), p, e);
    }
  }

  /**
   * Once permission changes between the request for a unit and its claim, that request never runs, whatever happens afterwards and
   * however often permission comes back.
   */
  lemma StaleGrantRunsNothing(before: seq<Step>, allow: bool, after: seq<Step>)
    ensures var s := RunAll(START, before);
      AskedAt(s.worker).Some? && allow != s.priority.allowed ==>
        forall r :: r in RunAll(Next(s, Publish(allow)), after).ran ==> Some(r.p) != PermitOf(s.worker)
  {
    hide RunAll;
    var s := RunAll(START, before);
    if AskedAt(s.worker).Some? && allow != s.priority.allowed {
      RunKeepsInv(before);
      var p := PermitOf(s.worker).value;
      RequestDies(s, p, allow);
      StepKeepsInv(s, Publish(allow));
      DeadNeverRuns(Next(s, Publish(allow)), p, after);
    }
  }

  lemma RequestDies(s: State, p: Permit, allow: bool)
    requires Inv(s) && AskedAt(s.worker).Some? && PermitOf(s.worker) == Some(p) && allow != s.priority.allowed
    ensures Dead(Next(s, Publish(allow)), p)
  {
    hide Ordered, AllRight, AllSpent;
  }

  // ---- what the exchange is to its caller ----

  function Units(ran: seq<Ran>): (us: seq<WorkUnit>)
    ensures |us| == |ran|
  {
    seq(|ran|, i requires 0 <= i < |ran| => ran[i].p.what)
  }

  /** The worker is on its way with this unit and has not run it yet. */
  predicate On(w: Worker, u: WorkUnit) {
    match w
    case Wanting(v) => v == u
    case Sampled(v, _) => v == u
    case Performed(_) => false
    case _ => PermitOf(w).Some? && PermitOf(w).value.what == u
  }

  predicate Serving(s: State, before: seq<WorkUnit>, u: WorkUnit) {
    || (On(s.worker, u) && Units(s.ran) == before)
    || ((s.worker.Between? || s.worker.Parked?) && (Units(s.ran) == before || Units(s.ran) == before + [u]))
    || (s.worker.Performed? && Units(s.ran) == before + [u])
  }

  lemma ServingStep(s: State, before: seq<WorkUnit>, u: WorkUnit, e: Step)
    requires Serving(s, before, u) && !e.Want?
    ensures Serving(Next(s, e), before, u)
  {
    if e.Perform? && s.worker.Holding? {
      assert Units(Next(s, e).ran) == Units(s.ran) + [u];
    }
  }

  /** Asked for one unit, the exchange runs exactly that unit once or nothing, whatever the supervisor does meanwhile. */
  lemma {:induction false} OneUnitOrNothing(s: State, u: WorkUnit, steps: seq<Step>)
    requires s.worker.Between? && forall e :: e in steps ==> !e.Want?
    ensures var t := RunAll(Next(s, Want(u)), steps);
      && (Units(t.ran) == Units(s.ran) || Units(t.ran) == Units(s.ran) + [u])
      && (t.worker.Performed? ==> Units(t.ran) == Units(s.ran) + [u])
    ensures Serving(RunAll(Next(s, Want(u)), steps), Units(s.ran), u)
  {
    if steps != [] {
      var front, e := steps[..|steps| - 1], steps[|steps| - 1];
      OneUnitOrNothing(s, u, front);
      ServingStep(RunAll(Next(s, Want(u)), front), Units(s.ran), u, e);
    }
  }
}
