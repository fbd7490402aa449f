/**
  Whole runs of one canary rollout: the scheduler of internal/patch/manager.go broken at every store operation,
  interleaved with the job dispatcher, operators, policy edits, failed status writes and restarts.

  `Step` is total: an event that is not enabled leaves the state as it is, so a run is simply a sequence of
  events and "in every run" reads "for every sequence of events".
 */
module RolloutRuns {
  import opened Wrappers
  import opened CanaryControl
  import opened DurableJobs

  datatype DeploymentStatus = StatusPending | StatusCanary | StatusDeploying | StatusCompleted | StatusFailed

  datatype Deployment = Deployment(
    status: DeploymentStatus,
    deviceCount: int,
    installed: int,
    failed: int,
    pending: int)

  /** What the manager does once a dispatch loop is over. */
  datatype After = Stop | ReadCanaryGate | ReadDeploymentGate

  /** The next store operation of the scheduler, with the in-memory deployment it works on. */
  datatype Scheduler =
    | Idle
    | ToPrepare(dep: Deployment)
    | ToPersist(dep: Deployment, dispatchNext: Option<RolloutGroup>)
    | ToList(group: RolloutGroup, dep: Deployment, after: After)
    | ToQueue(group: RolloutGroup, devices: seq<DeviceId>, dep: Deployment, after: After)
    | ToCanaryGate(dep: Deployment)
    | ToDeploymentGate(dep: Deployment)

  datatype State = State(row: Deployment, tables: Tables, scheduler: Scheduler)

  /** A write that is reported as failed may or may not have reached the database. */
  datatype WriteOutcome = Written | WriteLost | WrittenButReportedFailed

  datatype QueueReading = DatabaseError | WindowReading(deadline: Option<int>)

  datatype Event =
    | BeginPass(proceed: bool, windowOpen: bool)
    | PrepareRows(outcome: WriteOutcome)
    | Persist(outcome: WriteOutcome, windowOpen: bool)
    | ListDevices(ok: bool)
    | QueueDevice(reading: QueueReading)
    | ReadGate(ok: bool)
    | Restart
    | OnTarget(index: nat, change: TargetEvent)
    | SetMaxRetries(maxRetries: int)
    | SetQueueable(device: DeviceId, allowed: bool)

  function Resume(after: After, dep: Deployment): Scheduler {
    match after
    case Stop => Idle
    case ReadCanaryGate => ToCanaryGate(dep)
    case ReadDeploymentGate => ToDeploymentGate(dep)
  }

  /** executeDeployment, advanceCanaryDeployment or advanceDeployingDeployment up to its first store write. */
  function Begin(s: State, proceed: bool, windowOpen: bool): Scheduler {
    if !proceed then Idle
    else match s.row.status
      case StatusPending => if windowOpen && s.tables.hasPatches then ToPrepare(s.row) else Idle
      case StatusCanary =>
        if windowOpen then ToList(CanaryGroup, s.row, ReadCanaryGate) else ToCanaryGate(s.row)
      case StatusDeploying =>
        if windowOpen then ToList(BroadGroup, s.row, ReadDeploymentGate) else ToDeploymentGate(s.row)
      case _ => Idle
  }

  /** The tail of advanceCanaryDeployment: nothing to persist unless the gate is ready. */
  function AfterCanaryGate(dep: Deployment, gate: CanaryGate): Scheduler {
    if !gate.Ready() then Idle
    else
      var counted := dep.(installed := gate.succeeded, failed := gate.failed,
                          pending := dep.deviceCount - gate.completed);
      if !gate.Passes(DEFAULT_CANARY_SUCCESS_THRESHOLD)
      then ToPersist(counted.(status := StatusFailed), None)
      else ToPersist(counted.(status := StatusDeploying), Some(BroadGroup))
  }

  /** The tail of advanceDeployingDeployment: progress is persisted even when the gate is not ready. */
  function AfterDeploymentGate(dep: Deployment, gate: CanaryGate): Scheduler {
    var counted := dep.(installed := gate.succeeded, failed := gate.failed, pending := gate.total - gate.completed);
    if !gate.Ready() then ToPersist(counted, None)
    else if gate.failed > 0 then ToPersist(counted.(status := StatusFailed), None)
    else ToPersist(counted.(status := StatusCompleted), None)
  }

  function AfterPersist(dep: Deployment, next: Option<RolloutGroup>, windowOpen: bool): Scheduler {
    if next.Some? && (next.value == CanaryGroup || windowOpen) then ToList(next.value, dep, Stop) else Idle
  }

  /** PrepareCanaryRollout commits its rows or not; only a reported success goes on to persist the status. */
  function PrepareStep(s: State, outcome: WriteOutcome): State
    requires s.scheduler.ToPrepare?
  {
    if outcome == WriteLost || s.tables.order == [] then s.(scheduler := Idle)
    else if outcome == WrittenButReportedFailed then s.(tables := Prepare(s.tables), scheduler := Idle)
    else s.(tables := Prepare(s.tables), scheduler := ToPersist(s.scheduler.dep.(status := StatusCanary), Some(CanaryGroup)))
  }

  function PersistStep(s: State, outcome: WriteOutcome, windowOpen: bool): State
    requires s.scheduler.ToPersist?
  {
    match outcome
    case Written =>
      s.(row := s.scheduler.dep, scheduler := AfterPersist(s.scheduler.dep, s.scheduler.dispatchNext, windowOpen))
    case WriteLost => s.(scheduler := Idle)
    case WrittenButReportedFailed => s.(row := s.scheduler.dep, scheduler := Idle)
  }

  function QueueStep(s: State, reading: QueueReading): State
    requires s.scheduler.ToQueue?
  {
    var ToQueue(group, devices, dep, after) := s.scheduler;
    if devices == [] then s.(scheduler := Resume(after, dep))
    else
      var tables := if reading.DatabaseError? then s.tables else Queue(s.tables, devices[0], reading.deadline);
      s.(tables := tables, scheduler := ToQueue(group, devices[1..], dep, after))
  }

  function SchedulerStep(s: State, e: Event): State {
    match (e, s.scheduler)
    case (BeginPass(proceed, windowOpen), Idle) => s.(scheduler := Begin(s, proceed, windowOpen))
    case (PrepareRows(outcome), ToPrepare(dep)) => PrepareStep(s, outcome)
    case (Persist(outcome, windowOpen), ToPersist(_, _)) => PersistStep(s, outcome, windowOpen)
    case (ListDevices(ok), ToList(group, dep, after)) =>
      if ok then s.(scheduler := ToQueue(group, Undispatched(s.tables, group), dep, after))
      else s.(scheduler := Resume(after, dep))
    case (QueueDevice(reading), ToQueue(_, _, _, _)) => QueueStep(s, reading)
    case (ReadGate(ok), ToCanaryGate(dep)) =>
      s.(scheduler := if ok then AfterCanaryGate(dep, GateOf(s.tables, Some(CanaryGroup))) else Idle)
    case (ReadGate(ok), ToDeploymentGate(dep)) =>
      s.(scheduler := if ok then AfterDeploymentGate(dep, GateOf(s.tables, None)) else Idle)
    case _ => s
  }

  function TargetTables(t: Tables, index: nat, change: TargetEvent): Tables {
    if index < |t.targets|
    then t.(targets := t.targets[index := TargetStep(t.targets[index], change)])
    else t
  }

  function PolicyTables(t: Tables, maxRetries: int): Tables {
    var cap := SqlAttemptCap(maxRetries);
    t.(maxRetries := maxRetries, highCap := if cap > t.highCap then cap else t.highCap)
  }

  function Step(s: State, e: Event): State {
    match e
    case Restart => s.(scheduler := Idle)
    case OnTarget(index, change) => s.(tables := TargetTables(s.tables, index, change))
    case SetMaxRetries(m) => s.(tables := PolicyTables(s.tables, m))
    case SetQueueable(d, allowed) =>
      s.(tables := s.tables.(queueable := if allowed then s.tables.queueable + {d} else s.tables.queueable - {d}))
    case _ => SchedulerStep(s, e)
  }

  function Run(s: State, events: seq<Event>): State {
    if events == [] then s
    else Step(Run(s, events[..|events| - 1]), events[|events| - 1])
  }

  lemma RunSnoc(s: State, events: seq<Event>, e: Event)
    ensures Run(s, events + [e]) == Step(Run(s, events), e)
  {
    assert (events + [e])[..|events|] == events;
  }

  lemma {:induction false} RunConcat(s: State, front: seq<Event>, tail: seq<Event>)
    ensures Run(s, front + tail) == Run(Run(s, front), tail)
  {
    if tail == [] {
      assert front + tail == front;
    } else {
      var n := |tail| - 1;
      RunConcat(s, front, tail[..n]);
      assert front + tail == front + tail[..n] + [tail[n]];
      RunSnoc(s, front + tail[..n], tail[n]);
    }
  }

  /** A deployment just created by CreateDeploymentWithPatches. */
  ghost predicate Init(s: State) {
    var t := s.tables;
    && t.order != []
    && (forall i, j :: 0 <= i < j < |t.order| ==> t.order[i] != t.order[j])
    && t.rows == (map d | d in t.order :: DeviceRow(BroadGroup, false, 0, None, None))
    && t.targets == []
    && t.highCap == SqlAttemptCap(t.maxRetries)
    && s.row == Deployment(StatusPending, |t.order|, 0, 0, 0)
    && s.scheduler == Idle
  }

  // ---------------------------------------------------------------- the invariant of every run

  ghost predicate Balanced(dep: Deployment) {
    dep.installed + dep.failed + dep.pending == dep.deviceCount && dep.pending >= 0
  }

  ghost predicate AllSucceeded(t: Tables) {
    forall d :: d in t.rows ==> CountedSucceeded(t, t.rows[d])
  }

  ghost predicate PhaseOk(status: DeploymentStatus, group: RolloutGroup, after: After) {
    if group == CanaryGroup then status == StatusCanary && after != ReadDeploymentGate
    else status == StatusDeploying && after != ReadCanaryGate
  }

  ghost predicate PersistOk(row: Deployment, t: Tables, dep: Deployment, next: Option<RolloutGroup>) {
    && dep.deviceCount == row.deviceCount
    && match dep.status
       case StatusPending => false
       case StatusCanary => row.status == StatusPending && next == Some(CanaryGroup)
       case StatusDeploying =>
         && Balanced(dep)
         && (row.status == StatusCanary || (row.status == StatusDeploying && next == None))
         && next != Some(CanaryGroup)
       case StatusCompleted => Balanced(dep) && row.status == StatusDeploying && next == None && AllSucceeded(t)
       case StatusFailed => Balanced(dep) && row.status in {StatusCanary, StatusDeploying} && next == None
  }

  ghost predicate SchedulerOk(s: State) {
    match s.scheduler
    case Idle => true
    case ToPrepare(dep) => dep == s.row && dep.status == StatusPending
    case ToPersist(dep, next) => PersistOk(s.row, s.tables, dep, next)
    case ToList(group, dep, after) => dep == s.row && PhaseOk(dep.status, group, after)
    case ToQueue(group, devices, dep, after) =>
      && dep == s.row
      && PhaseOk(dep.status, group, after)
      && (forall d <- devices :: d in s.tables.rows && s.tables.rows[d].group == group)
    case ToCanaryGate(dep) => dep == s.row && dep.status == StatusCanary
    case ToDeploymentGate(dep) => dep == s.row && dep.status == StatusDeploying
  }

  ghost predicate StatusOk(s: State) {
    && (s.row.status == StatusPending ==> s.tables.targets == [])
    && (s.row.status in {StatusDeploying, StatusCompleted, StatusFailed} ==> Balanced(s.row))
    && (s.row.status == StatusCompleted ==> AllSucceeded(s.tables))
    && (s.row.status in {StatusCompleted, StatusFailed} ==> s.scheduler == Idle)
  }

  ghost predicate Inv(s: State) {
    && Mapped(s.tables)
    && s.tables.order != []
    && s.row.deviceCount == |s.tables.order|
    && SchedulerOk(s)
    && StatusOk(s)
  }

  // ---------------------------------------------------------------- preservation, one event kind at a time

  lemma MappedPrepare(t: Tables)
    requires Mapped(t) && t.targets == []
    ensures Mapped(Prepare(t))
  {
    var t' := Prepare(t);
    forall d | d in t'.rows ensures RowMapped(t', d) {
      assert RowMapped(t, d);
    }
  }

  lemma MappedQueue(t: Tables, d: DeviceId, deadline: Option<int>)
    requires Mapped(t)
    ensures Mapped(Queue(t, d, deadline))
    ensures Queue(t, d, deadline).order == t.order && Queue(t, d, deadline).rows.Keys == t.rows.Keys
    ensures forall e :: e in t.rows ==> Queue(t, d, deadline).rows[e].group == t.rows[e].group
  {
    var t' := Queue(t, d, deadline);
    if QueueOutcome(t, d, deadline).Ok? {
      forall e | e in t'.rows ensures RowMapped(t', e) {
        assert RowMapped(t, e);
      }
    }
  }

  lemma TargetStepKeepsIdentity(target: Target, change: TargetEvent)
    ensures var target' := TargetStep(target, change);
            target'.jobId == target.jobId && target'.deviceId == target.deviceId && target'.cycle == target.cycle
            && target'.maxRetries == target.maxRetries
  {
  }

  lemma MappedSameTargets(t: Tables, t': Tables)
    requires Mapped(t) && t'.order == t.order && t'.rows == t.rows && |t'.targets| == |t.targets|
    requires forall i :: 0 <= i < |t.targets| ==>
               t'.targets[i].jobId == t.targets[i].jobId && t'.targets[i].deviceId == t.targets[i].deviceId
    ensures Mapped(t')
  {
    forall d | d in t'.rows ensures RowMapped(t', d) {
      assert RowMapped(t, d);
    }
  }

  lemma MappedTarget(t: Tables, index: nat, change: TargetEvent)
    requires Mapped(t)
    ensures Mapped(TargetTables(t, index, change))
    ensures |TargetTables(t, index, change).targets| == |t.targets|
    ensures forall i :: 0 <= i < |t.targets| ==>
              TargetTables(t, index, change).targets[i].cycle == t.targets[i].cycle
              && TargetTables(t, index, change).targets[i].deviceId == t.targets[i].deviceId
  {
    if index < |t.targets| {
      TargetStepKeepsIdentity(t.targets[index], change);
    }
    MappedSameTargets(t, TargetTables(t, index, change));
  }

  lemma MappedColumns(t: Tables, t': Tables)
    requires Mapped(t)
    requires t'.order == t.order && t'.rows == t.rows && t'.targets == t.targets
    ensures Mapped(t')
    ensures AllSucceeded(t) ==> AllSucceeded(t')
  {
    forall d | d in t'.rows ensures RowMapped(t', d) {
      assert RowMapped(t, d);
    }
    if AllSucceeded(t) {
      forall d | d in t'.rows ensures CountedSucceeded(t', t'.rows[d]) {
        assert CountedSucceeded(t, t.rows[d]);
      }
    }
  }

  /** No event takes a succeeded target out of that state. */
  lemma SucceededIsAbsorbing(t: Tables, index: nat, change: TargetEvent)
    requires AllSucceeded(t)
    ensures AllSucceeded(TargetTables(t, index, change))
  {
    var t' := TargetTables(t, index, change);
    forall d | d in t'.rows ensures CountedSucceeded(t', t'.rows[d]) {
      assert CountedSucceeded(t, t.rows[d]);
    }
  }

  lemma ReadyWithoutFailures(t: Tables)
    requires Mapped(t) && GateOf(t, None).Ready() && GateOf(t, None).failed == 0
    ensures AllSucceeded(t)
  {
    GateCounts(t, None, |t.order|);
    forall d | d in t.rows ensures CountedSucceeded(t, t.rows[d]) {
      assert d in t.order;
      var k :| 0 <= k < |t.order| && t.order[k] == d;
      assert SucceededAt(t, None, k);
    }
  }

  lemma InvBegin(s: State, proceed: bool, windowOpen: bool)
    requires Inv(s) && s.scheduler == Idle
    ensures Inv(s.(scheduler := Begin(s, proceed, windowOpen)))
  {
  }

  lemma InvPrepare(s: State, outcome: WriteOutcome)
    requires Inv(s) && s.scheduler.ToPrepare?
    ensures Inv(PrepareStep(s, outcome))
  {
    MappedPrepare(s.tables);
  }

  lemma InvPersist(s: State, outcome: WriteOutcome, windowOpen: bool)
    requires Inv(s) && s.scheduler.ToPersist?
    ensures Inv(PersistStep(s, outcome, windowOpen))
  {
  }

  lemma InvList(s: State, ok: bool)
    requires Inv(s) && s.scheduler.ToList?
    ensures Inv(SchedulerStep(s, ListDevices(ok)))
  {
    var t, group := s.tables, s.scheduler.group;
    ListedExactly(t, group, |t.order|);
    forall d <- Undispatched(t, group) ensures d in t.rows && t.rows[d].group == group {
      var k :| 0 <= k < |t.order| && t.order[k] == d && ListedAt(t, group, k);
    }
  }

  lemma InvQueue(s: State, reading: QueueReading)
    requires Inv(s) && s.scheduler.ToQueue?
    ensures Inv(QueueStep(s, reading))
  {
    var devices := s.scheduler.devices;
    if devices != [] {
      assert forall d <- devices[1..] :: d in devices;
      if reading.WindowReading? {
        MappedQueue(s.tables, devices[0], reading.deadline);
      }
    }
  }

  /** Both gate tails hand a well-formed deployment to the next status write. */
  lemma CanaryTailOk(row: Deployment, t: Tables, gate: CanaryGate)
    requires row.status == StatusCanary
    requires gate.completed == gate.succeeded + gate.failed && gate.completed <= row.deviceCount
    ensures var next := AfterCanaryGate(row, gate);
            next == Idle || (next.ToPersist? && PersistOk(row, t, next.dep, next.dispatchNext))
  {
  }

  lemma DeploymentTailOk(row: Deployment, t: Tables, gate: CanaryGate)
    requires row.status == StatusDeploying
    requires gate.completed == gate.succeeded + gate.failed
    requires gate.completed <= gate.total == row.deviceCount
    requires gate.Ready() && gate.failed == 0 ==> AllSucceeded(t)
    ensures var next := AfterDeploymentGate(row, gate);
            next.ToPersist? && PersistOk(row, t, next.dep, next.dispatchNext)
  {
  }

  lemma InvCanaryGate(s: State, ok: bool)
    requires Inv(s) && s.scheduler.ToCanaryGate?
    ensures Inv(SchedulerStep(s, ReadGate(ok)))
  {
    GateCounts(s.tables, Some(CanaryGroup), |s.tables.order|);
    CanaryTailOk(s.row, s.tables, GateOf(s.tables, Some(CanaryGroup)));
  }

  lemma InvDeploymentGate(s: State, ok: bool)
    requires Inv(s) && s.scheduler.ToDeploymentGate?
    ensures Inv(SchedulerStep(s, ReadGate(ok)))
  {
    GateCounts(s.tables, None, |s.tables.order|);
    if GateOf(s.tables, None).Ready() && GateOf(s.tables, None).failed == 0 {
      ReadyWithoutFailures(s.tables);
    }
    DeploymentTailOk(s.row, s.tables, GateOf(s.tables, None));
  }

  lemma InvScheduler(s: State, e: Event)
    requires Inv(s)
    ensures Inv(SchedulerStep(s, e))
  {
    match (e, s.scheduler)
    case (BeginPass(proceed, windowOpen), Idle) => InvBegin(s, proceed, windowOpen);
    case (PrepareRows(outcome), ToPrepare(_)) => InvPrepare(s, outcome);
    case (Persist(outcome, windowOpen), ToPersist(_, _)) => InvPersist(s, outcome, windowOpen);
    case (ListDevices(ok), ToList(group, dep, after)) => InvList(s, ok);
    case (QueueDevice(reading), ToQueue(_, _, _, _)) => InvQueue(s, reading);
    case (ReadGate(ok), ToCanaryGate(dep)) => InvCanaryGate(s, ok);
    case (ReadGate(ok), ToDeploymentGate(dep)) => InvDeploymentGate(s, ok);
    case _ =>
  }

  /** The only scheduler steps that write device rows or targets. */
  lemma SchedulerTables(s: State, e: Event)
    ensures var t := SchedulerStep(s, e).tables;
            || t == s.tables
            || (e.PrepareRows? && s.scheduler.ToPrepare? && t == Prepare(s.tables))
            || (e.QueueDevice? && s.scheduler.ToQueue? && s.scheduler.devices != [] && e.reading.WindowReading?
                && t == Queue(s.tables, s.scheduler.devices[0], e.reading.deadline))
  {
  }

  lemma InvEnvironment(s: State, t': Tables)
    requires Inv(s) && Mapped(t')
    requires t'.order == s.tables.order && t'.rows == s.tables.rows && |t'.targets| == |s.tables.targets|
    requires AllSucceeded(s.tables) ==> AllSucceeded(t')
    ensures Inv(s.(tables := t'))
  {
  }

  lemma InvStep(s: State, e: Event)
    requires Inv(s)
    ensures Inv(Step(s, e))
  {
    match e
    case Restart =>
    case OnTarget(index, change) =>
      MappedTarget(s.tables, index, change);
      if AllSucceeded(s.tables) {
        SucceededIsAbsorbing(s.tables, index, change);
      }
      InvEnvironment(s, TargetTables(s.tables, index, change));
    case SetMaxRetries(m) =>
      MappedColumns(s.tables, PolicyTables(s.tables, m));
      InvEnvironment(s, PolicyTables(s.tables, m));
    case SetQueueable(d, allowed) =>
      MappedColumns(s.tables, Step(s, e).tables);
      InvEnvironment(s, Step(s, e).tables);
    case _ => InvScheduler(s, e);
  }

  lemma InitInv(s: State)
    requires Init(s)
    ensures Inv(s)
  {
    forall d | d in s.tables.rows ensures RowMapped(s.tables, d) {
      assert NoTargetFrom(s.tables, d, 0);
    }
  }

  lemma {:induction false} RunInv(s: State, events: seq<Event>)
    requires Init(s)
    ensures Inv(Run(s, events))
  {
    if events == [] {
      InitInv(s);
    } else {
      RunInv(s, events[..|events| - 1]);
      InvStep(Run(s, events[..|events| - 1]), events[|events| - 1]);
    }
  }
}
