/**
  The patch store and the patch manager as they are written: objects that change rows in place and loops over
  devices. Each store method is proved against the table function it implements, and each manager method
  performs a definite run of the rollout machine, so everything proved about runs holds for what it does.
  Clock readings, database errors and write outcomes are parameters.
 */
module PatchManager {
  import opened Wrappers
  import opened CanaryControl
  import opened DurableJobs
  import opened RolloutRuns

  class PatchStore {
    const order: seq<DeviceId>
    var rows: map<DeviceId, DeviceRow>
    var targets: seq<Target>
    var maxRetries: int
    var highCap: nat
    var hasPatches: bool
    var queueable: set<DeviceId>

    function Contents(): Tables
      reads this
    {
      Tables(order, rows, targets, maxRetries, highCap, hasPatches, queueable)
    }

    /** CreateDeploymentWithPatches, for device IDs that are already clean, distinct and ordered. */
    constructor (deviceIds: seq<DeviceId>, policyMaxRetries: int, enabled: set<DeviceId>)
      requires deviceIds != [] && forall i, j :: 0 <= i < j < |deviceIds| ==> deviceIds[i] != deviceIds[j]
      ensures Init(State(Deployment(StatusPending, |deviceIds|, 0, 0, 0), Contents(), Idle))
      ensures order == deviceIds && hasPatches && maxRetries == policyMaxRetries && queueable == enabled
    {
      order := deviceIds;
      rows := map d | d in deviceIds :: DeviceRow(BroadGroup, false, 0, None, None);
      targets := [];
      maxRetries := policyMaxRetries;
      highCap := SqlAttemptCap(policyMaxRetries);
      hasPatches := true;
      queueable := enabled;
    }

    method PrepareCanaryRollout()
      modifies this`rows
      ensures Contents() == Prepare(old(Contents()))
    {
      var canary := SelectCanarySubset(order, DEFAULT_CANARY_PERCENT);
      rows := map d | d in rows :: rows[d].(group := BroadGroup, dispatched := false, dispatchAttempts := 0);
      rows := map d | d in rows :: if d in canary then rows[d].(group := CanaryGroup) else rows[d];
      assert rows == Prepare(old(Contents())).rows;
    }

    method GetUndispatchedRolloutDevices(group: RolloutGroup) returns (devices: seq<DeviceId>)
      ensures devices == Undispatched(Contents(), group)
    {
      devices := [];
      for n := 0 to |order|
        invariant devices == ListedPrefix(Contents(), group, n)
      {
        var d := order[n];
        if d in rows && rows[d].group == group {
          if !rows[d].dispatched {
            devices := devices + [d];
          } else {
            var jt := Joined(Contents(), rows[d]);
            if jt.Some? && jt.value.status == Expired
               && rows[d].dispatchAttempts + jt.value.retryCount < SqlAttemptCap(maxRetries) {
              devices := devices + [d];
            }
          }
        }
      }
    }

    /** Both gate queries: one group, or the whole deployment. */
    method GetJobGate(group: Option<RolloutGroup>) returns (gate: CanaryGate)
      ensures gate == GateOf(Contents(), group)
    {
      var total, completed, succeeded, failed := 0, 0, 0, 0;
      for n := 0 to |order|
        invariant CanaryGate(total, completed, succeeded, failed) == GatePrefix(Contents(), group, n)
      {
        var d := order[n];
        if d in rows && (group.None? || rows[d].group == group.value) {
          total := total + 1;
          var jt := Joined(Contents(), rows[d]);
          if jt.Some? {
            var retryExhausted := rows[d].dispatchAttempts + jt.value.retryCount >= SqlAttemptCap(maxRetries);
            match jt.value.status {
              case Succeeded =>
                completed, succeeded := completed + 1, succeeded + 1;
              case Failed =>
                completed, failed := completed + 1, failed + 1;
              case Cancelled =>
                completed, failed := completed + 1, failed + 1;
              case Expired =>
                if retryExhausted {
                  completed, failed := completed + 1, failed + 1;
                }
              case _ =>
            }
          }
        }
      }
      gate := CanaryGate(total, completed, succeeded, failed);
    }

    /** The serializable queue transaction, statement by statement. */
    method QueuePatchRolloutDevice(d: DeviceId, deadline: Option<int>) returns (result: QueueResult)
      modifies this`rows, this`targets
      ensures Contents() == Queue(old(Contents()), d, deadline)
      ensures var outcome := QueueOutcome(old(Contents()), d, deadline);
              result == if outcome.Ok? then JobQueued else outcome.error
    {
      if d !in rows || d !in queueable {
        return ErrPatchResultScope;
      }
      var row := rows[d];
      var durableMaxRetries := maxRetries;
      if durableMaxRetries < 0 {
        durableMaxRetries := 0;
      }
      if durableMaxRetries > 10 {
        durableMaxRetries := 10;
      }
      var attemptCap := MaxPatchAttempts(durableMaxRetries);
      var consumed := row.dispatchAttempts;
      if row.jobId.Some? || row.targetId.Some? {
        if row.jobId.None? || row.targetId.None? {
          return ErrIncompleteMapping;
        }
        var existing := Joined(Contents(), row);
        if existing.None? || existing.value.status != Expired {
          return AlreadyMapped;
        }
        consumed := consumed + existing.value.retryCount;
        if consumed >= attemptCap {
          return ErrPatchRetriesExhausted;
        }
      }
      if consumed >= attemptCap {
        return ErrPatchRetriesExhausted;
      }
      if deadline.None? {
        return ErrMaintenanceWindow;
      }
      var remainingRetries := attemptCap - consumed - 1;
      if !hasPatches {
        return ErrNoDeploymentPatches;
      }
      var id := |targets|;
      targets := targets + [Target(d, id, Queued, 0, 0, {}, remainingRetries, consumed + 1, deadline.value)];
      rows := rows[d := row.(jobId := Some(id), targetId := Some(id), dispatched := true, dispatchAttempts := consumed + 1)];
      return JobQueued;
    }
  }

  // ---------------------------------------------------------------- what a manager call does, as events

  /** What the outside world answers during one dispatch loop: the listing, then one reading per queue call. */
  datatype DispatchInputs = DispatchInputs(listOk: bool, readings: seq<QueueReading>)

  datatype ExecuteInputs = ExecuteInputs(
    policyKnown: bool, windowOpen: bool, preparation: WriteOutcome, outcome: WriteOutcome, dispatch: DispatchInputs)

  datatype CanaryInputs = CanaryInputs(
    policyKnown: bool, windowOpen: bool, dispatch: DispatchInputs, gateOk: bool, outcome: WriteOutcome,
    windowStillOpen: bool, broadDispatch: DispatchInputs)

  datatype DeployingInputs = DeployingInputs(
    policyKnown: bool, windowOpen: bool, dispatch: DispatchInputs, gateOk: bool, outcome: WriteOutcome)

  function QueueEvents(readings: seq<QueueReading>): seq<Event> {
    seq(|readings|, i requires 0 <= i < |readings| => QueueDevice(readings[i]))
  }

  /** Events that turn out not to be enabled change nothing, so a script need not know where the manager returns. */
  function DispatchScript(inputs: DispatchInputs): seq<Event> {
    [ListDevices(inputs.listOk)] + QueueEvents(inputs.readings)
  }

  function ExecuteScript(inputs: ExecuteInputs): seq<Event> {
    [BeginPass(inputs.policyKnown, inputs.windowOpen), PrepareRows(inputs.preparation),
     Persist(inputs.outcome, inputs.windowOpen)]
    + DispatchScript(inputs.dispatch)
  }

  function CanaryScript(inputs: CanaryInputs): seq<Event> {
    [BeginPass(inputs.policyKnown, inputs.windowOpen)]
    + DispatchScript(inputs.dispatch)
    + [ReadGate(inputs.gateOk), Persist(inputs.outcome, inputs.windowStillOpen)]
    + DispatchScript(inputs.broadDispatch)
  }

  function DeployingScript(inputs: DeployingInputs): seq<Event> {
    [BeginPass(inputs.policyKnown, inputs.windowOpen)]
    + DispatchScript(inputs.dispatch)
    + [ReadGate(inputs.gateOk), Persist(inputs.outcome, inputs.windowOpen)]
  }

  /** One pass of processScheduledDeployments over a deployment: each phase is queried afresh. */
  function PassResult(s: State, execute: ExecuteInputs, canary: CanaryInputs, deploying: DeployingInputs): State {
    var executed := if s.row.status == StatusPending then Run(s, ExecuteScript(execute)) else s;
    var advanced := if executed.row.status == StatusCanary then Run(executed, CanaryScript(canary)) else executed;
    if advanced.row.status == StatusDeploying then Run(advanced, DeployingScript(deploying)) else advanced
  }

  lemma {:induction false} NotDispatching(s: State, events: seq<Event>)
    requires !s.scheduler.ToList? && !s.scheduler.ToQueue?
    requires forall e <- events :: e.ListDevices? || e.QueueDevice?
    ensures Run(s, events) == s
  {
    if events != [] {
      assert events[|events| - 1] in events;
      NotDispatching(s, events[..|events| - 1]);
    }
  }

  lemma ExecuteUnrolled(s: State, inputs: ExecuteInputs)
    ensures Run(s, ExecuteScript(inputs)) ==
            Run(Step(Step(Step(s, BeginPass(inputs.policyKnown, inputs.windowOpen)), PrepareRows(inputs.preparation)),
                     Persist(inputs.outcome, inputs.windowOpen)),
                DispatchScript(inputs.dispatch))
  {
    var a, b, c := BeginPass(inputs.policyKnown, inputs.windowOpen), PrepareRows(inputs.preparation),
                   Persist(inputs.outcome, inputs.windowOpen);
    RunSnoc(s, [], a);
    assert [] + [a] == [a];
    RunSnoc(s, [a], b);
    assert [a] + [b] == [a, b];
    RunSnoc(s, [a, b], c);
    assert [a, b] + [c] == [a, b, c];
    RunConcat(s, [a, b, c], DispatchScript(inputs.dispatch));
  }

  /** A pass that begins with one dispatch loop and then reads a gate and persists. */
  lemma AdvanceUnrolled(s: State, begin: Event, dispatch: seq<Event>, read: Event, write: Event)
    ensures Run(s, [begin] + dispatch + [read, write]) == Step(Step(Run(Step(s, begin), dispatch), read), write)
  {
    RunSnoc(s, [], begin);
    assert [] + [begin] == [begin];
    RunConcat(s, [begin], dispatch);
    RunSnoc(s, [begin] + dispatch, read);
    RunSnoc(s, [begin] + dispatch + [read], write);
    assert [begin] + dispatch + [read] + [write] == [begin] + dispatch + [read, write];
  }

  lemma CanaryUnrolled(s: State, inputs: CanaryInputs)
    ensures Run(s, CanaryScript(inputs)) ==
            Run(Step(Step(Run(Step(s, BeginPass(inputs.policyKnown, inputs.windowOpen)), DispatchScript(inputs.dispatch)),
                          ReadGate(inputs.gateOk)),
                     Persist(inputs.outcome, inputs.windowStillOpen)),
                DispatchScript(inputs.broadDispatch))
  {
    var begin, read, write := BeginPass(inputs.policyKnown, inputs.windowOpen), ReadGate(inputs.gateOk),
                              Persist(inputs.outcome, inputs.windowStillOpen);
    AdvanceUnrolled(s, begin, DispatchScript(inputs.dispatch), read, write);
    RunConcat(s, [begin] + DispatchScript(inputs.dispatch) + [read, write], DispatchScript(inputs.broadDispatch));
  }

  lemma {:induction false} ListedLength(t: Tables, group: RolloutGroup, n: nat)
    requires n <= |t.order|
    ensures |ListedPrefix(t, group, n)| <= n
  {
    if n > 0 {
      ListedLength(t, group, n - 1);
    }
  }

  lemma RunCons(s: State, e: Event, events: seq<Event>)
    ensures Run(s, [e] + events) == Run(Step(s, e), events)
  {
    RunSnoc(s, [], e);
    assert [] + [e] == [e];
    RunConcat(s, [e], events);
  }

  /** Reading by reading, from the i-th on. */
  lemma NextReading(s: State, readings: seq<QueueReading>, i: nat)
    requires i < |readings|
    ensures Run(s, QueueEvents(readings[i..])) == Run(Step(s, QueueDevice(readings[i])), QueueEvents(readings[i + 1..]))
  {
    assert QueueEvents(readings[i..]) == [QueueDevice(readings[i])] + QueueEvents(readings[i + 1..]);
    RunCons(s, QueueDevice(readings[i]), QueueEvents(readings[i + 1..]));
  }

  /** With no device left the loop ends, whatever readings remain. */
  lemma LoopEnds(s: State, readings: seq<QueueReading>, i: nat)
    requires i < |readings| && s.scheduler.ToQueue? && s.scheduler.devices == []
    ensures Run(s, QueueEvents(readings[i..])) == s.(scheduler := Resume(s.scheduler.after, s.scheduler.dep))
  {
    NextReading(s, readings, i);
    NotDispatching(s.(scheduler := Resume(s.scheduler.after, s.scheduler.dep)), QueueEvents(readings[i + 1..]));
  }

  /** The scheduler's view of one deployment: its persisted row and the store behind it. */
  class Manager {
    const store: PatchStore
    var row: Deployment

    ghost function Snapshot(scheduler: Scheduler): State
      reads this, store
    {
      State(row, store.Contents(), scheduler)
    }

    constructor (s: PatchStore, deviceCount: nat)
      ensures store == s && row == Deployment(StatusPending, deviceCount, 0, 0, 0)
    {
      store := s;
      row := Deployment(StatusPending, deviceCount, 0, 0, 0);
    }

    /** UpdateDeployment with one of its three possible outcomes; true when no error is reported. */
    method UpdateDeployment(dep: Deployment, outcome: WriteOutcome) returns (ok: bool)
      modifies this`row
      ensures row == (if outcome == WriteLost then old(row) else dep)
      ensures ok == (outcome == Written)
    {
      if outcome != WriteLost {
        row := dep;
      }
      ok := outcome == Written;
    }

    method DispatchRolloutGroup(group: RolloutGroup, inputs: DispatchInputs, ghost after: After, ghost dep: Deployment)
      requires |inputs.readings| > |store.order|
      modifies store
      ensures Run(old(Snapshot(ToList(group, dep, after))), DispatchScript(inputs)) == Snapshot(Resume(after, dep))
    {
      ghost var s := Snapshot(ToList(group, dep, after));
      var readings := inputs.readings;
      ghost var goal := Run(s, DispatchScript(inputs));
      RunCons(s, ListDevices(inputs.listOk), QueueEvents(readings));
      if !inputs.listOk {
        NotDispatching(Snapshot(Resume(after, dep)), QueueEvents(readings));
        return;
      }
      var devices := store.GetUndispatchedRolloutDevices(group);
      ListedLength(store.Contents(), group, |store.order|);
      assert readings[0..] == readings && devices[0..] == devices;
      for i := 0 to |devices|
        modifies store
        invariant goal == Run(Snapshot(ToQueue(group, devices[i..], dep, after)), QueueEvents(readings[i..]))
      {
        NextReading(Snapshot(ToQueue(group, devices[i..], dep, after)), readings, i);
        DispatchDevice(group, devices, i, readings[i], after, dep);
      }
      assert devices[|devices|..] == [];
      LoopEnds(Snapshot(ToQueue(group, [], dep, after)), readings, |devices|);
    }

    /** One iteration of the dispatch loop. */
    method DispatchDevice(ghost group: RolloutGroup, devices: seq<DeviceId>, i: nat, reading: QueueReading, ghost after: After,
                          ghost dep: Deployment)
      requires i < |devices|
      modifies store
      ensures Snapshot(ToQueue(group, devices[i + 1..], dep, after)) ==
              Step(old(Snapshot(ToQueue(group, devices[i..], dep, after))), QueueDevice(reading))
    {
      if reading.WindowReading? {
        var _ := store.QueuePatchRolloutDevice(devices[i], reading.deadline);
      }
      assert devices[i..][1..] == devices[i + 1..];
    }

    method ExecuteDeployment(inputs: ExecuteInputs)
      requires row.status == StatusPending && |inputs.dispatch.readings| > |store.order|
      modifies this`row, store
      ensures Snapshot(Idle) == Run(old(Snapshot(Idle)), ExecuteScript(inputs))
    {
      ghost var s := Snapshot(Idle);
      ghost var dispatch := DispatchScript(inputs.dispatch);
      ExecuteUnrolled(s, inputs);
      if !inputs.policyKnown || !inputs.windowOpen || !store.hasPatches {
        NotDispatching(s, dispatch);
        return;
      }
      if inputs.preparation == WriteLost || store.order == [] {
        NotDispatching(s, dispatch);
        return;
      }
      store.PrepareCanaryRollout();
      if inputs.preparation == WrittenButReportedFailed {
        NotDispatching(Snapshot(Idle), dispatch);
        return;
      }
      var dep := row.(status := StatusCanary);
      var ok := UpdateDeployment(dep, inputs.outcome);
      if !ok {
        NotDispatching(Snapshot(Idle), dispatch);
        return;
      }
      DispatchRolloutGroup(CanaryGroup, inputs.dispatch, Stop, dep);
    }

    method AdvanceCanaryDeployment(inputs: CanaryInputs)
      requires row.status == StatusCanary
      requires |inputs.dispatch.readings| > |store.order| && |inputs.broadDispatch.readings| > |store.order|
      modifies this`row, store
      ensures Snapshot(Idle) == Run(old(Snapshot(Idle)), CanaryScript(inputs))
    {
      ghost var s := Snapshot(Idle);
      ghost var broadDispatch := DispatchScript(inputs.broadDispatch);
      CanaryUnrolled(s, inputs);
      var dep := row;
      if !inputs.policyKnown {
        NotDispatching(s, DispatchScript(inputs.dispatch));
        NotDispatching(s, broadDispatch);
        return;
      }
      if inputs.windowOpen {
        DispatchRolloutGroup(CanaryGroup, inputs.dispatch, ReadCanaryGate, dep);
      } else {
        NotDispatching(Snapshot(ToCanaryGate(dep)), DispatchScript(inputs.dispatch));
      }
      ghost var reading := Snapshot(ToCanaryGate(dep));
      if !inputs.gateOk {
        NotDispatching(Snapshot(Idle), broadDispatch);
        return;
      }
      var gate := store.GetJobGate(Some(CanaryGroup));
      assert Step(reading, ReadGate(true)) == Snapshot(AfterCanaryGate(dep, gate));
      FinishCanary(dep, gate, inputs);
    }

    /** The tail of advanceCanaryDeployment, from the gate it has read. */
    method FinishCanary(dep: Deployment, gate: CanaryGate, inputs: CanaryInputs)
      requires |inputs.broadDispatch.readings| > |store.order|
      modifies this`row, store
      ensures Snapshot(Idle) ==
              Run(Step(old(Snapshot(AfterCanaryGate(dep, gate))), Persist(inputs.outcome, inputs.windowStillOpen)),
                  DispatchScript(inputs.broadDispatch))
    {
      ghost var broadDispatch := DispatchScript(inputs.broadDispatch);
      if !gate.Ready() {
        NotDispatching(Snapshot(Idle), broadDispatch);
        return;
      }
      var counted := dep.(installed := gate.succeeded, failed := gate.failed, pending := dep.deviceCount - gate.completed);
      if !gate.Passes(DEFAULT_CANARY_SUCCESS_THRESHOLD) {
        var _ := UpdateDeployment(counted.(status := StatusFailed), inputs.outcome);
        NotDispatching(Snapshot(Idle), broadDispatch);
        return;
      }
      var deploying := counted.(status := StatusDeploying);
      var ok := UpdateDeployment(deploying, inputs.outcome);
      if ok && inputs.windowStillOpen {
        DispatchRolloutGroup(BroadGroup, inputs.broadDispatch, Stop, deploying);
      } else {
        NotDispatching(Snapshot(Idle), broadDispatch);
      }
    }

    method AdvanceDeployingDeployment(inputs: DeployingInputs)
      requires row.status == StatusDeploying && |inputs.dispatch.readings| > |store.order|
      modifies this`row, store
      ensures Snapshot(Idle) == Run(old(Snapshot(Idle)), DeployingScript(inputs))
    {
      ghost var s := Snapshot(Idle);
      AdvanceUnrolled(s, BeginPass(inputs.policyKnown, inputs.windowOpen), DispatchScript(inputs.dispatch),
                      ReadGate(inputs.gateOk), Persist(inputs.outcome, inputs.windowOpen));
      var dep := row;
      if !inputs.policyKnown {
        NotDispatching(s, DispatchScript(inputs.dispatch));
        return;
      }
      if inputs.windowOpen {
        DispatchRolloutGroup(BroadGroup, inputs.dispatch, ReadDeploymentGate, dep);
      } else {
        NotDispatching(Snapshot(ToDeploymentGate(dep)), DispatchScript(inputs.dispatch));
      }
      ghost var reading := Snapshot(ToDeploymentGate(dep));
      if !inputs.gateOk {
        return;
      }
      var gate := store.GetJobGate(None);
      assert Step(reading, ReadGate(true)) == Snapshot(AfterDeploymentGate(dep, gate));
      dep := dep.(installed := gate.succeeded, failed := gate.failed, pending := gate.total - gate.completed);
      if gate.Ready() {
        dep := dep.(status := if gate.failed > 0 then StatusFailed else StatusCompleted);
      }
      var _ := UpdateDeployment(dep, inputs.outcome);
    }

    /** processScheduledDeployments for this deployment, once it is due. */
    method ProcessScheduledDeployment(execute: ExecuteInputs, canary: CanaryInputs, deploying: DeployingInputs)
      requires |execute.dispatch.readings| > |store.order|
      requires |canary.dispatch.readings| > |store.order| && |canary.broadDispatch.readings| > |store.order|
      requires |deploying.dispatch.readings| > |store.order|
      modifies this`row, store
      ensures Snapshot(Idle) == PassResult(old(Snapshot(Idle)), execute, canary, deploying)
    {
      if row.status == StatusPending {
        ExecuteDeployment(execute);
      }
      if row.status == StatusCanary {
        AdvanceCanaryDeployment(canary);
      }
      if row.status == StatusDeploying {
        AdvanceDeployingDeployment(deploying);
      }
    }
  }

  ghost predicate Reaches(s: State, s': State) {
    exists events :: Run(s, events) == s'
  }

  lemma ReachesTransitive(s: State, s': State, s'': State)
    requires Reaches(s, s') && Reaches(s', s'')
    ensures Reaches(s, s'')
  {
    var front :| Run(s, front) == s';
    var tail :| Run(s', tail) == s'';
    RunConcat(s, front, tail);
  }

  lemma ReachesAfter(s: State, go: bool, script: seq<Event>)
    ensures Reaches(s, if go then Run(s, script) else s)
  {
    assert Run(s, []) == s;
  }

  /** A whole pass of processScheduledDeployments is itself a run of the rollout machine. */
  lemma PassIsRun(s: State, execute: ExecuteInputs, canary: CanaryInputs, deploying: DeployingInputs)
    ensures Reaches(s, PassResult(s, execute, canary, deploying))
  {
    var executed := if s.row.status == StatusPending then Run(s, ExecuteScript(execute)) else s;
    var advanced := if executed.row.status == StatusCanary then Run(executed, CanaryScript(canary)) else executed;
    ReachesAfter(s, s.row.status == StatusPending, ExecuteScript(execute));
    ReachesAfter(executed, executed.row.status == StatusCanary, CanaryScript(canary));
    ReachesAfter(advanced, advanced.row.status == StatusDeploying, DeployingScript(deploying));
    ReachesTransitive(s, executed, advanced);
    ReachesTransitive(s, advanced, PassResult(s, execute, canary, deploying));
  }
}
