/** What every run of a rollout guarantees, whatever the dispatcher, the operators and the database do. */
module RolloutTheorems {
  import opened Wrappers
  import opened CanaryControl
  import opened DurableJobs
  import opened RolloutRuns

  function Rank(status: DeploymentStatus): nat {
    match status
    case StatusPending => 0
    case StatusCanary => 1
    case StatusDeploying => 2
    case StatusCompleted => 3
    case StatusFailed => 3
  }

  predicate Terminal(status: DeploymentStatus) {
    status in {StatusCompleted, StatusFailed}
  }

  lemma PrefixOfInit(events: seq<Event>, j: nat)
    requires events != [] && j <= |events| - 1
    ensures events[..|events| - 1][..j] == events[..j]
  {
  }

  // ---------------------------------------------------------------- status moves forward

  lemma ForwardStep(s: State, e: Event)
    requires Inv(s)
    ensures Rank(s.row.status) <= Rank(Step(s, e).row.status)
    ensures Terminal(s.row.status) ==> Step(s, e).row == s.row
  {
  }

  /** In every run the persisted status only moves forward, and a finished deployment row never changes again. */
  lemma {:induction false} StatusOnlyMovesForward(s: State, events: seq<Event>, j: nat)
    requires Init(s) && j <= |events|
    ensures var earlier, later := Run(s, events[..j]).row, Run(s, events).row;
            && Rank(earlier.status) <= Rank(later.status)
            && (Terminal(earlier.status) ==> later == earlier)
  {
    if j == |events| {
      assert events[..j] == events;
    } else {
      var before := events[..|events| - 1];
      PrefixOfInit(events, j);
      StatusOnlyMovesForward(s, before, j);
      RunInv(s, before);
      ForwardStep(Run(s, before), events[|events| - 1]);
    }
  }

  // ---------------------------------------------------------------- the canary gate guards the broad phase

  predicate CanaryPassed(s: State) {
    GateOf(s.tables, Some(CanaryGroup)).Passes(DEFAULT_CANARY_SUCCESS_THRESHOLD)
  }

  ghost predicate CanaryPassedBy(s: State, events: seq<Event>) {
    exists j :: 0 <= j <= |events| && CanaryPassed(Run(s, events[..j]))
  }

  ghost predicate BroadJob(t: Tables, d: DeviceId) {
    d in t.rows && t.rows[d].group == BroadGroup && t.rows[d].targetId.Some?
  }

  /** The scheduler is, or may become, active in the broad phase without reading the canary gate again. */
  ghost predicate BroadPhase(s: State) {
    || s.row.status in {StatusDeploying, StatusCompleted}
    || (s.scheduler.ToPersist? && s.scheduler.dep.status in {StatusDeploying, StatusCompleted})
  }

  lemma BroadPhaseStep(s: State, e: Event)
    requires Inv(s) && BroadPhase(Step(s, e))
    ensures BroadPhase(s) || CanaryPassed(s)
  {
  }

  lemma BroadJobStep(s: State, e: Event, d: DeviceId)
    requires Inv(s) && BroadJob(Step(s, e).tables, d)
    ensures BroadJob(s.tables, d) || BroadPhase(s)
  {
    assert d in s.tables.rows ==> RowMapped(s.tables, d);
    if e.QueueDevice? && s.scheduler.ToQueue? && e.reading.WindowReading? && s.scheduler.devices != [] {
      assert s.scheduler.devices[0] in s.scheduler.devices;
      MappedQueue(s.tables, s.scheduler.devices[0], e.reading.deadline);
    }
  }

  lemma CanaryPassedGrows(s: State, events: seq<Event>)
    requires events != [] && CanaryPassedBy(s, events[..|events| - 1])
    ensures CanaryPassedBy(s, events)
  {
    var before := events[..|events| - 1];
    var j :| 0 <= j <= |before| && CanaryPassed(Run(s, before[..j]));
    PrefixOfInit(events, j);
  }

  lemma {:induction false} BroadPhaseAfterGate(s: State, events: seq<Event>)
    requires Init(s) && BroadPhase(Run(s, events))
    ensures CanaryPassedBy(s, events)
  {
    if events == [] {
      assert false;
    } else {
      var before := events[..|events| - 1];
      var p := Run(s, before);
      RunInv(s, before);
      BroadPhaseStep(p, events[|events| - 1]);
      if BroadPhase(p) {
        BroadPhaseAfterGate(s, before);
        CanaryPassedGrows(s, events);
      } else {
        assert CanaryPassed(Run(s, events[..|before|]));
      }
    }
  }

  /** In every run, including lost status writes, restarts and operator retries: a broad device has a job only if
      at some earlier point the canary gate was ready with succeeded * 100 >= total * 90. */
  lemma {:induction false} BroadOnlyAfterCanaryPass(s: State, events: seq<Event>, d: DeviceId)
    requires Init(s) && BroadJob(Run(s, events).tables, d)
    ensures CanaryPassedBy(s, events)
  {
    if events == [] {
      assert false;
    } else {
      var before := events[..|events| - 1];
      var p := Run(s, before);
      RunInv(s, before);
      BroadJobStep(p, events[|events| - 1], d);
      if BroadJob(p.tables, d) {
        BroadOnlyAfterCanaryPass(s, before, d);
      } else {
        BroadPhaseAfterGate(s, before);
      }
      CanaryPassedGrows(s, events);
    }
  }

  // ---------------------------------------------------------------- how a deployment ends

  /** A gate reading that justifies the failed status. */
  predicate FailingGate(s: State) {
    var canary, all := GateOf(s.tables, Some(CanaryGroup)), GateOf(s.tables, None);
    || (canary.Ready() && !canary.Passes(DEFAULT_CANARY_SUCCESS_THRESHOLD))
    || (all.Ready() && all.failed > 0)
  }

  ghost predicate FailingGateBy(s: State, events: seq<Event>) {
    exists j :: 0 <= j <= |events| && FailingGate(Run(s, events[..j]))
  }

  ghost predicate Failing(s: State) {
    s.row.status == StatusFailed || (s.scheduler.ToPersist? && s.scheduler.dep.status == StatusFailed)
  }

  lemma FailingStep(s: State, e: Event)
    requires Inv(s) && Failing(Step(s, e))
    ensures Failing(s) || FailingGate(s)
  {
  }

  /** A deployment is marked failed only on a reading where either the canary gate was ready below the threshold,
      or every device was finished and at least one had failed. */
  lemma {:induction false} FailedOnlyOnFailingGate(s: State, events: seq<Event>)
    requires Init(s) && Failing(Run(s, events))
    ensures FailingGateBy(s, events)
  {
    if events == [] {
      assert false;
    } else {
      var before := events[..|events| - 1];
      var p := Run(s, before);
      RunInv(s, before);
      FailingStep(p, events[|events| - 1]);
      if Failing(p) {
        FailedOnlyOnFailingGate(s, before);
        var j :| 0 <= j <= |before| && FailingGate(Run(s, before[..j]));
        PrefixOfInit(events, j);
      } else {
        assert FailingGate(Run(s, events[..|before|]));
      }
    }
  }

  /** Every device of the deployment has finished, and at least one has failed. */
  predicate AllFinishedSomeFailed(s: State) {
    GateOf(s.tables, None).Ready() && GateOf(s.tables, None).failed > 0
  }

  ghost predicate AllFinishedSomeFailedBy(s: State, events: seq<Event>) {
    exists j :: 0 <= j <= |events| && AllFinishedSomeFailed(Run(s, events[..j]))
  }

  /** The scheduler is about to fail a deployment that is in its broad phase. */
  predicate FailingBroad(s: State) {
    s.row.status == StatusDeploying && s.scheduler.ToPersist? && s.scheduler.dep.status == StatusFailed
  }

  lemma FailingBroadStep(s: State, e: Event)
    requires Inv(s)
    ensures FailingBroad(Step(s, e)) ==> FailingBroad(s) || AllFinishedSomeFailed(s)
    ensures s.row.status == StatusDeploying && Step(s, e).row.status == StatusFailed ==> FailingBroad(s)
  {
  }

  lemma AllFinishedGrows(s: State, events: seq<Event>)
    requires events != [] && AllFinishedSomeFailedBy(s, events[..|events| - 1])
    ensures AllFinishedSomeFailedBy(s, events)
  {
    var before := events[..|events| - 1];
    var j :| 0 <= j <= |before| && AllFinishedSomeFailed(Run(s, before[..j]));
    PrefixOfInit(events, j);
  }

  lemma {:induction false} FailingBroadAfterGate(s: State, events: seq<Event>)
    requires Init(s) && FailingBroad(Run(s, events))
    ensures AllFinishedSomeFailedBy(s, events)
  {
    if events != [] {
      var before := events[..|events| - 1];
      RunInv(s, before);
      FailingBroadStep(Run(s, before), events[|events| - 1]);
      if FailingBroad(Run(s, before)) {
        FailingBroadAfterGate(s, before);
        AllFinishedGrows(s, events);
      } else {
        assert AllFinishedSomeFailed(Run(s, events[..|before|]));
      }
    }
  }

  /** A deployment that fails after it reached the broad phase had every device finished and at least one failed. */
  lemma {:induction false} FailedFromDeployingPhase(s: State, events: seq<Event>, j: nat)
    requires Init(s) && j <= |events|
    requires Run(s, events[..j]).row.status == StatusDeploying && Run(s, events).row.status == StatusFailed
    ensures AllFinishedSomeFailedBy(s, events)
  {
    assert j < |events| by {
      assert events[..|events|] == events;
    }
    var before := events[..|events| - 1];
    PrefixOfInit(events, j);
    RunInv(s, before);
    StatusOnlyMovesForward(s, before, j);
    if Run(s, before).row.status == StatusFailed {
      FailedFromDeployingPhase(s, before, j);
    } else {
      ForwardStep(Run(s, before), events[|events| - 1]);
      FailingBroadStep(Run(s, before), events[|events| - 1]);
      FailingBroadAfterGate(s, before);
    }
    AllFinishedGrows(s, events);
  }

  /** After every gate-based update installed + failed + pending is the device count fixed at creation, and a
      completed deployment has a succeeded target on every device, then and for ever after. */
  lemma CountersAndCompletion(s: State, events: seq<Event>)
    requires Init(s)
    ensures var now := Run(s, events);
            && now.row.deviceCount == |s.tables.order|
            && (Rank(now.row.status) >= 2 ==>
                  now.row.installed + now.row.failed + now.row.pending == |s.tables.order| && now.row.pending >= 0)
            && (now.row.status == StatusCompleted ==>
                  forall d :: d in s.tables.rows ==> d in now.tables.rows && CountedSucceeded(now.tables, now.tables.rows[d]))
  {
    RunInv(s, events);
    DevicesFixed(s, events);
  }

  lemma {:induction false} DevicesFixed(s: State, events: seq<Event>)
    requires Init(s)
    ensures Run(s, events).tables.order == s.tables.order
    ensures Run(s, events).tables.rows.Keys == s.tables.rows.Keys
  {
    if events != [] {
      DevicesFixed(s, events[..|events| - 1]);
    }
  }

  // ---------------------------------------------------------------- who the canaries are

  ghost predicate CanaryLabels(t: Tables) {
    forall d :: d in t.rows ==>
      (t.rows[d].group == CanaryGroup <==> d in SelectCanarySubset(t.order, DEFAULT_CANARY_PERCENT))
  }

  ghost predicate Labelled(s: State) {
    s.row.status != StatusPending || s.scheduler.ToPersist? ==> CanaryLabels(s.tables)
  }

  lemma LabelledStep(s: State, e: Event)
    requires Inv(s) && Labelled(s)
    ensures Labelled(Step(s, e))
  {
    if e.QueueDevice? && s.scheduler.ToQueue? && e.reading.WindowReading? && s.scheduler.devices != [] {
      MappedQueue(s.tables, s.scheduler.devices[0], e.reading.deadline);
    }
  }

  /** However often preparation is repeated after lost writes and restarts, the canary group of a started rollout
      is the first ceil(n / 10) devices in ID order: the set fixed at creation. */
  lemma {:induction false} CanarySetIsStable(s: State, events: seq<Event>)
    requires Init(s)
    ensures Labelled(Run(s, events))
  {
    if events != [] {
      var before := events[..|events| - 1];
      CanarySetIsStable(s, before);
      RunInv(s, before);
      LabelledStep(Run(s, before), events[|events| - 1]);
    }
  }

  // ---------------------------------------------------------------- dispatch list and gate along a run

  /** In every reachable state every device is in exactly one of the three classes, and the canary and broad gates
      are ready exactly when their group is non-empty with nothing listed and nothing in flight. */
  lemma ReachableClassification(s: State, events: seq<Event>, d: DeviceId, group: RolloutGroup)
    requires Init(s) && d in s.tables.rows
    ensures var t := Run(s, events).tables;
            && Mapped(t) && d in t.rows
            && (var row := t.rows[d];
                var classes := [Redispatchable(t, row), InFlight(t, row),
                                CountedSucceeded(t, row) || CountedFailed(t, row)];
                classes == [true, false, false] || classes == [false, true, false] || classes == [false, false, true])
            && (GateOf(t, Some(group)).Ready() <==>
                  && (exists k :: 0 <= k < |t.order| && t.rows[t.order[k]].group == group)
                  && Undispatched(t, group) == []
                  && (forall k :: 0 <= k < |t.order| && t.rows[t.order[k]].group == group ==> !InFlight(t, t.rows[t.order[k]])))
  {
    RunInv(s, events);
    DevicesFixed(s, events);
    DeviceTrichotomy(Run(s, events).tables, d);
    ReadyIffNothingToDispatch(Run(s, events).tables, group);
  }

  /** Between listing a device and queueing it, an event can make the queue refuse it for its budget or its mapping only
      if it queues the device, lowers the policy, or is an operator retry of its target. */
  lemma ListedStaysListed(s: State, e: Event, d: DeviceId)
    requires Inv(s) && d in s.tables.rows && Redispatchable(s.tables, s.tables.rows[d])
    requires !e.QueueDevice? && !e.PrepareRows?
    requires e.SetMaxRetries? ==> SqlAttemptCap(s.tables.maxRetries) <= SqlAttemptCap(e.maxRetries)
    requires e.OnTarget? ==> e.change != RetryOne && e.change != RetryAll
    ensures var t := Step(s, e).tables; d in t.rows && Redispatchable(t, t.rows[d]) && ConsumedAttempts(t, t.rows[d]).Ok?
  {
    InvStep(s, e);
    var t, t' := s.tables, Step(s, e).tables;
    JoinedIsCurrent(t, d);
    if e.OnTarget? {
      if e.index < |t.targets| && t.targets[e.index].status == Expired {
        ExpiredStays(t.targets[e.index], e.change);
      }
    } else if !e.SetMaxRetries? && !e.SetQueueable? && !e.Restart? {
      SchedulerTables(s, e);
    }
    StillListed(t, t', d);
  }

  lemma ExpiredStays(target: Target, change: TargetEvent)
    requires target.status == Expired && change != RetryOne && change != RetryAll
    ensures TargetStep(target, change) == target
  {
  }

  lemma StillListed(t: Tables, t': Tables, d: DeviceId)
    requires Mapped(t) && Mapped(t') && d in t.rows && Redispatchable(t, t.rows[d])
    requires t'.rows == t.rows && |t'.targets| == |t.targets|
    requires SqlAttemptCap(t.maxRetries) <= SqlAttemptCap(t'.maxRetries)
    requires t.rows[d].targetId.Some? ==>
               t.rows[d].targetId.value < |t.targets| && t'.targets[t.rows[d].targetId.value] == t.targets[t.rows[d].targetId.value]
    ensures Redispatchable(t', t'.rows[d]) && ConsumedAttempts(t', t'.rows[d]).Ok?
  {
    JoinedIsCurrent(t, d);
    JoinedIsCurrent(t', d);
    assert RowMapped(t, d) && RowMapped(t', d);
    BudgetsAgree(t'.maxRetries, t'.maxRetries);
  }
}
