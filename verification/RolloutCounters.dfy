/**
  What the counters of a deployment row mean, when a pass may dispatch, and what an undisturbed pass achieves: internal/patch/
  manager.go and durable_jobs.go in terms of the devices themselves.
 */
module RolloutCounters {
  import opened Wrappers
  import opened CanaryControl
  import opened DurableJobs
  import opened RolloutRuns
  import opened RolloutTheorems

  // ---------------------------------------------------------------- the devices behind a gate

  /** The device belongs to the group, or to the deployment when no group is given. */
  predicate InGroup(t: Tables, d: DeviceId, group: Option<RolloutGroup>) {
    d in t.rows && (group == None || group == Some(t.rows[d].group))
  }

  /** The device's current target has succeeded. */
  predicate HasSucceeded(t: Tables, d: DeviceId) {
    d in t.rows && Joined(t, t.rows[d]).Some? && Joined(t, t.rows[d]).value.status == Succeeded
  }

  /** It has failed, was cancelled, or has expired with no attempt left under the policy in force. */
  predicate HasFailed(t: Tables, d: DeviceId) {
    && d in t.rows && Joined(t, t.rows[d]).Some?
    && var jt := Joined(t, t.rows[d]).value;
       var retries := if t.maxRetries < 0 then 0 else if t.maxRetries > 10 then 10 else t.maxRetries;
       || jt.status == Failed || jt.status == Cancelled
       || (jt.status == Expired && t.rows[d].dispatchAttempts + jt.retryCount > retries)
  }

  function DevicesOf(t: Tables, group: Option<RolloutGroup>, n: nat): set<DeviceId>
    requires n <= |t.order|
  {
    set d | d in t.order[..n] && InGroup(t, d, group)
  }

  function SucceededOf(t: Tables, group: Option<RolloutGroup>, n: nat): set<DeviceId>
    requires n <= |t.order|
  {
    set d | d in t.order[..n] && InGroup(t, d, group) && HasSucceeded(t, d)
  }

  function FailedOf(t: Tables, group: Option<RolloutGroup>, n: nat): set<DeviceId>
    requires n <= |t.order|
  {
    set d | d in t.order[..n] && InGroup(t, d, group) && HasFailed(t, d)
  }

  predicate DistinctOrder(t: Tables) {
    forall i, j :: 0 <= i < j < |t.order| ==> t.order[i] != t.order[j]
  }

  lemma NextDevice(t: Tables, group: Option<RolloutGroup>, n: nat)
    requires 0 < n <= |t.order| && DistinctOrder(t)
    ensures var d := t.order[n - 1];
            && d !in t.order[..n - 1]
            && DevicesOf(t, group, n) == DevicesOf(t, group, n - 1) + (if InGroup(t, d, group) then {d} else {})
            && SucceededOf(t, group, n) ==
               SucceededOf(t, group, n - 1) + (if InGroup(t, d, group) && HasSucceeded(t, d) then {d} else {})
            && FailedOf(t, group, n) ==
               FailedOf(t, group, n - 1) + (if InGroup(t, d, group) && HasFailed(t, d) then {d} else {})
  {
    assert t.order[..n] == t.order[..n - 1] + [t.order[n - 1]];
  }

  lemma NextCounts(t: Tables, group: Option<RolloutGroup>, n: nat)
    requires 0 < n <= |t.order| && DistinctOrder(t)
    ensures var d := t.order[n - 1];
            && |DevicesOf(t, group, n)| == |DevicesOf(t, group, n - 1)| + (if InGroup(t, d, group) then 1 else 0)
            && |SucceededOf(t, group, n)| ==
               |SucceededOf(t, group, n - 1)| + (if InGroup(t, d, group) && HasSucceeded(t, d) then 1 else 0)
            && |FailedOf(t, group, n)| ==
               |FailedOf(t, group, n - 1)| + (if InGroup(t, d, group) && HasFailed(t, d) then 1 else 0)
  {
    NextDevice(t, group, n);
    var d := t.order[n - 1];
    assert d !in DevicesOf(t, group, n - 1) && d !in SucceededOf(t, group, n - 1) && d !in FailedOf(t, group, n - 1);
  }

  /** The row loop of the gate queries counts these devices. */
  lemma CountedAsMeant(t: Tables, d: DeviceId, group: Option<RolloutGroup>)
    requires d in t.rows
    ensures InGroup(t, d, group) <==> InScope(t.rows[d], group)
    ensures HasSucceeded(t, d) <==> CountedSucceeded(t, t.rows[d])
    ensures HasFailed(t, d) <==> CountedFailed(t, t.rows[d])
  {
  }

  /** The gate counters are the numbers of devices, of succeeded ones and of failed ones. */
  lemma {:induction false} GateIsCardinality(t: Tables, group: Option<RolloutGroup>, n: nat)
    requires n <= |t.order| && DistinctOrder(t)
    ensures var gate := GatePrefix(t, group, n);
            && gate.total == |DevicesOf(t, group, n)|
            && gate.succeeded == |SucceededOf(t, group, n)|
            && gate.failed == |FailedOf(t, group, n)|
            && gate.completed == gate.succeeded + gate.failed
  {
    if n > 0 {
      GateIsCardinality(t, group, n - 1);
      NextCounts(t, group, n);
      if t.order[n - 1] in t.rows {
        CountedAsMeant(t, t.order[n - 1], group);
      }
    } else {
      assert DevicesOf(t, group, 0) == {} && SucceededOf(t, group, 0) == {} && FailedOf(t, group, 0) == {};
    }
  }

  function DeviceTotal(t: Tables, group: Option<RolloutGroup>): nat {
    |DevicesOf(t, group, |t.order|)|
  }

  function SucceededCount(t: Tables, group: Option<RolloutGroup>): nat {
    |SucceededOf(t, group, |t.order|)|
  }

  function FailedCount(t: Tables, group: Option<RolloutGroup>): nat {
    |FailedOf(t, group, |t.order|)|
  }

  lemma ReachableGate(t: Tables, group: Option<RolloutGroup>)
    requires Mapped(t)
    ensures var gate := GateOf(t, group);
            && gate == CanaryGate(DeviceTotal(t, group), SucceededCount(t, group) + FailedCount(t, group),
                                  SucceededCount(t, group), FailedCount(t, group))
            && (group == None ==> gate.total == |t.order|)
  {
    GateIsCardinality(t, group, |t.order|);
    if group == None {
      GateCounts(t, None, |t.order|);
    }
  }

  // ---------------------------------------------------------------- what a gate reading leads to

  /** Nothing while a canary is unfinished; otherwise the broad phase exactly if 90 percent of the canaries have succeeded,
      else failure, with the counters of the canary group. */
  ghost predicate CanaryDecision(t: Tables, next: Scheduler) {
    var group := Some(CanaryGroup);
    var total, ok, bad := DeviceTotal(t, group), SucceededCount(t, group), FailedCount(t, group);
    if total == 0 || ok + bad < total then next == Idle
    else
      && next.ToPersist? && next.dep.installed == ok && next.dep.failed == bad
      && next.dep.deviceCount == |t.order| && next.dep.pending == |t.order| - ok - bad
      && (if ok * 100 >= total * 90 then next.dep.status == StatusDeploying && next.dispatchNext == Some(BroadGroup)
          else next.dep.status == StatusFailed && next.dispatchNext == None)
  }

  lemma CanaryGateDecides(dep: Deployment, t: Tables)
    requires Mapped(t) && dep.status == StatusCanary && dep.deviceCount == |t.order|
    ensures CanaryDecision(t, AfterCanaryGate(dep, GateOf(t, Some(CanaryGroup))))
  {
    ReachableGate(t, Some(CanaryGroup));
    GateCounts(t, Some(CanaryGroup), |t.order|);
  }

  /** After the canary gate was read. */
  lemma CanaryReadingDecides(s: State, events: seq<Event>)
    requires Init(s) && Run(s, events).scheduler.ToCanaryGate?
    ensures CanaryDecision(Run(s, events).tables, Step(Run(s, events), ReadGate(true)).scheduler)
  {
    RunInv(s, events);
    CanaryGateDecides(Run(s, events).row, Run(s, events).tables);
  }

  lemma DeploymentTail(dep: Deployment, gate: CanaryGate)
    requires dep.status == StatusDeploying && gate.total > 0
    requires gate.completed == gate.succeeded + gate.failed <= gate.total && gate.succeeded >= 0 && gate.failed >= 0
    ensures var next := AfterDeploymentGate(dep, gate);
            && next.ToPersist? && next.dispatchNext == None
            && next.dep.installed == gate.succeeded && next.dep.failed == gate.failed
            && next.dep.pending == gate.total - gate.succeeded - gate.failed
            && next.dep.status == (if gate.succeeded == gate.total then StatusCompleted
                                   else if gate.succeeded + gate.failed == gate.total then StatusFailed
                                   else StatusDeploying)
  {
  }

  /** The counters written are those of all devices, with completed exactly if all have succeeded and failed exactly if all
      are finished and some have failed. */
  ghost predicate DeploymentDecision(t: Tables, next: Scheduler) {
    var ok, bad := SucceededCount(t, None), FailedCount(t, None);
    && next.ToPersist? && next.dispatchNext == None
    && next.dep.installed == ok && next.dep.failed == bad && next.dep.pending == |t.order| - ok - bad
    && next.dep.status == (if ok == |t.order| then StatusCompleted
                           else if ok + bad == |t.order| then StatusFailed
                           else StatusDeploying)
  }

  lemma DeploymentGateDecides(dep: Deployment, t: Tables)
    requires Mapped(t) && t.order != [] && dep.status == StatusDeploying
    ensures DeploymentDecision(t, AfterDeploymentGate(dep, GateOf(t, None)))
  {
    ReachableGate(t, None);
    GateCounts(t, None, |t.order|);
    DeploymentTail(dep, GateOf(t, None));
  }

  /** After the deployment gate was read. */
  lemma DeploymentReadingDecides(s: State, events: seq<Event>)
    requires Init(s) && Run(s, events).scheduler.ToDeploymentGate?
    ensures DeploymentDecision(Run(s, events).tables, Step(Run(s, events), ReadGate(true)).scheduler)
  {
    RunInv(s, events);
    DeploymentGateDecides(Run(s, events).row, Run(s, events).tables);
  }

  // ---------------------------------------------------------------- where the counters of a row come from

  /** The counters are those of the devices in this state, in which a gate is read; `scope` is the canary group or the whole deployment. */
  ghost predicate CountsAt(s: State, dep: Deployment, scope: Option<RolloutGroup>) {
    && (if scope == None then s.scheduler.ToDeploymentGate? else s.scheduler.ToCanaryGate?)
    && dep.installed == SucceededCount(s.tables, scope)
    && dep.failed == FailedCount(s.tables, scope)
    && dep.pending == |s.tables.order| - dep.installed - dep.failed
    && (dep.status == StatusCompleted ==> scope == None && dep.installed == |s.tables.order| && dep.failed == 0)
    && (dep.status == StatusFailed && scope == None ==> dep.failed > 0 && dep.pending == 0)
  }

  ghost predicate CountedBy(s: State, events: seq<Event>, dep: Deployment) {
    exists j, scope :: 0 <= j <= |events| && scope in {None, Some(CanaryGroup)} && CountsAt(Run(s, events[..j]), dep, scope)
  }

  lemma CountedGrows(s: State, events: seq<Event>, dep: Deployment)
    requires events != [] && CountedBy(s, events[..|events| - 1], dep)
    ensures CountedBy(s, events, dep)
  {
    var before := events[..|events| - 1];
    var j, scope :| 0 <= j <= |before| && scope in {None, Some(CanaryGroup)} && CountsAt(Run(s, before[..j]), dep, scope);
    PrefixOfInit(events, j);
  }

  /** A write that is about to happen has just been counted. */
  lemma ReadingCounts(s: State, events: seq<Event>, e: Event)
    requires Init(s) && !Run(s, events).scheduler.ToPersist?
    requires Step(Run(s, events), e).scheduler.ToPersist? && Rank(Step(Run(s, events), e).scheduler.dep.status) >= 2
    ensures var now := Run(s, events);
            CountsAt(now, Step(now, e).scheduler.dep, None) || CountsAt(now, Step(now, e).scheduler.dep, Some(CanaryGroup))
  {
    var now := Run(s, events);
    RunInv(s, events);
    assert e.ReadGate? && e.ok;
    if now.scheduler.ToCanaryGate? {
      CanaryReadingDecides(s, events);
    } else {
      DeploymentReadingDecides(s, events);
    }
  }

  lemma {:induction false} PendingWriteCounted(s: State, events: seq<Event>)
    requires Init(s) && Run(s, events).scheduler.ToPersist? && Rank(Run(s, events).scheduler.dep.status) >= 2
    ensures CountedBy(s, events, Run(s, events).scheduler.dep)
  {
    if events != [] {
      var before, e := events[..|events| - 1], events[|events| - 1];
      if Run(s, before).scheduler.ToPersist? {
        SamePending(Run(s, before), e);
        PendingWriteCounted(s, before);
      } else {
        ReadingCounts(s, before, e);
        assert before[..|before|] == before;
        assert CountedBy(s, before, Run(s, events).scheduler.dep);
      }
      CountedGrows(s, events, Run(s, events).scheduler.dep);
    }
  }

  lemma SamePending(s: State, e: Event)
    requires s.scheduler.ToPersist? && Step(s, e).scheduler.ToPersist?
    ensures Step(s, e).scheduler == s.scheduler
  {
  }

  lemma RowWrite(s: State, e: Event)
    requires Step(s, e).row != s.row
    ensures s.scheduler.ToPersist? && Step(s, e).row == s.scheduler.dep
  {
  }

  /** In every run, the counters of a row past the canary phase are the numbers of succeeded and failed devices of an earlier
      state; a completed row counts every device as succeeded. */
  lemma {:induction false} RowCountsDevices(s: State, events: seq<Event>)
    requires Init(s) && Rank(Run(s, events).row.status) >= 2
    ensures CountedBy(s, events, Run(s, events).row)
  {
    if events != [] {
      var before, e := events[..|events| - 1], events[|events| - 1];
      if Run(s, events).row == Run(s, before).row {
        RowCountsDevices(s, before);
      } else {
        RowWrite(Run(s, before), e);
        PendingWriteCounted(s, before);
      }
      CountedGrows(s, events, Run(s, events).row);
    }
  }

  lemma CompletedCounts(s: State, events: seq<Event>)
    requires Init(s) && Run(s, events).row.status == StatusCompleted
    ensures var row := Run(s, events).row; row.installed == row.deviceCount && row.failed == 0 && row.pending == 0
  {
    RowCountsDevices(s, events);
    RunInv(s, events);
    var dep := Run(s, events).row;
    var j, scope :| 0 <= j <= |events| && scope in {None, Some(CanaryGroup)} && CountsAt(Run(s, events[..j]), dep, scope);
    DevicesFixed(s, events);
    DevicesFixed(s, events[..j]);
  }

  // ---------------------------------------------------------------- failing from the broad phase

  lemma FailingBroadCounts(s: State, e: Event)
    requires Inv(s)
    ensures FailingBroad(Step(s, e)) ==> (FailingBroad(s) && Step(s, e).scheduler == s.scheduler) || Step(s, e).scheduler.dep.failed > 0
  {
  }

  lemma {:induction false} FailingBroadHasFailures(s: State, events: seq<Event>)
    requires Init(s) && FailingBroad(Run(s, events))
    ensures Run(s, events).scheduler.dep.failed > 0
  {
    if events != [] {
      var before := events[..|events| - 1];
      RunInv(s, before);
      FailingBroadCounts(Run(s, before), events[|events| - 1]);
      if FailingBroad(Run(s, before)) && Run(s, events).scheduler == Run(s, before).scheduler {
        FailingBroadHasFailures(s, before);
      }
    }
  }

  /** A deployment that fails after it reached the broad phase shows at least one failed device. */
  lemma {:induction false} FailedFromDeployingCounts(s: State, events: seq<Event>, j: nat)
    requires Init(s) && j <= |events|
    requires Run(s, events[..j]).row.status == StatusDeploying && Run(s, events).row.status == StatusFailed
    ensures Run(s, events).row.failed > 0
  {
    assert j < |events| by {
      assert events[..|events|] == events;
    }
    var before, e := events[..|events| - 1], events[|events| - 1];
    PrefixOfInit(events, j);
    RunInv(s, before);
    StatusOnlyMovesForward(s, before, j);
    ForwardStep(Run(s, before), e);
    if Run(s, before).row.status == StatusFailed {
      FailedFromDeployingCounts(s, before, j);
    } else {
      FailingBroadStep(Run(s, before), e);
      RowWrite(Run(s, before), e);
      FailingBroadHasFailures(s, before);
    }
  }
}
