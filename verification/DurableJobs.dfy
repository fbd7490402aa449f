/**
  The durable job rows behind a patch rollout: internal/patch/durable_jobs.go, the dispatch query of
  internal/patch/canary_control.go, and the target transitions made by the platform dispatcher
  (internal/platform/dispatcher.go, jobs.go, statemachine.go).

  Everything is for one deployment: its device rows, the job targets ever queued for it (append-only, the
  index standing for the fresh UUIDs of a job and of its only target), and the columns of its policy that the
  queries read.
 */
module DurableJobs {
  import opened Wrappers
  import opened CanaryControl

  type DeviceId = string

  /** pending and waiting are never used by patch targets. */
  datatype TargetStatus = Queued | Dispatched | Running | Succeeded | Failed | Cancelled | Expired

  /** One job together with its single target. `outbox` holds the attempt numbers of its job.dispatch events. */
  datatype Target = Target(
    deviceId: DeviceId,
    jobId: nat,
    status: TargetStatus,
    retryCount: nat,
    attempt: nat,
    outbox: set<nat>,
    maxRetries: nat,
    cycle: nat,
    expiresAt: int)

  datatype RolloutGroup = CanaryGroup | BroadGroup

  /** A patch_deployment_devices row; `dispatched` is `dispatched_at IS NOT NULL`. */
  datatype DeviceRow = DeviceRow(
    group: RolloutGroup,
    dispatched: bool,
    dispatchAttempts: nat,
    jobId: Option<nat>,
    targetId: Option<nat>)

  /** `order` lists the device IDs in ascending order, as every query does. `highCap` is a history variable:
      the largest attempt cap the policy has ever had. */
  datatype Tables = Tables(
    order: seq<DeviceId>,
    rows: map<DeviceId, DeviceRow>,
    targets: seq<Target>,
    maxRetries: int,
    highCap: nat,
    hasPatches: bool,
    queueable: set<DeviceId>)

  // ---------------------------------------------------------------- attempt budget

  /** LEAST(GREATEST(max_retries, 0), 10) + 1, as the dispatch and gate queries write it. */
  function SqlAttemptCap(maxRetries: int): nat {
    var greatest := if maxRetries >= 0 then maxRetries else 0;
    (if greatest <= 10 then greatest else 10) + 1
  }

  /** maxPatchAttempts of internal/patch/result_ingest.go. */
  function MaxPatchAttempts(maxRetries: int): nat {
    if maxRetries < 0 then 1 else maxRetries + 1
  }

  /** The two clamps of QueuePatchRolloutDevice followed by maxPatchAttempts. */
  function QueueAttemptCap(durableMaxRetries: int): nat {
    var raised := if durableMaxRetries < 0 then 0 else durableMaxRetries;
    var clamped := if raised > 10 then 10 else raised;
    MaxPatchAttempts(clamped)
  }

  /** The budget restated in Go and in SQL is one budget, between 1 and 11 attempts, and raising max_retries
      never lowers it. */
  lemma BudgetsAgree(maxRetries: int, other: int)
    ensures QueueAttemptCap(maxRetries) == SqlAttemptCap(maxRetries)
    ensures 1 <= SqlAttemptCap(maxRetries) <= 11
    ensures maxRetries <= other ==> SqlAttemptCap(maxRetries) <= SqlAttemptCap(other)
  {
  }

  // ---------------------------------------------------------------- queries

  /** LEFT JOIN job_targets jt ON jt.id = pdd.job_target_id AND jt.job_id = pdd.job_id */
  function Joined(t: Tables, row: DeviceRow): (r: Option<Target>) {
    if row.jobId.Some? && row.targetId.Some? && row.targetId.value < |t.targets|
       && t.targets[row.targetId.value].jobId == row.jobId.value
    then Some(t.targets[row.targetId.value])
    else None
  }

  function SpentWith(row: DeviceRow, target: Target): nat {
    row.dispatchAttempts + target.retryCount
  }

  /** The WHERE clause of GetUndispatchedRolloutDevices. */
  predicate Redispatchable(t: Tables, row: DeviceRow) {
    || !row.dispatched
    || (var jt := Joined(t, row);
        jt.Some? && jt.value.status == Expired && SpentWith(row, jt.value) < SqlAttemptCap(t.maxRetries))
  }

  predicate InFlight(t: Tables, row: DeviceRow) {
    var jt := Joined(t, row);
    jt.Some? && jt.value.status in {Queued, Dispatched, Running}
  }

  predicate CountedSucceeded(t: Tables, row: DeviceRow) {
    var jt := Joined(t, row);
    jt.Some? && jt.value.status == Succeeded
  }

  /** failed, cancelled, or expired with the budget used up (the retry_exhausted column). */
  predicate CountedFailed(t: Tables, row: DeviceRow) {
    var jt := Joined(t, row);
    && jt.Some?
    && (|| jt.value.status in {Failed, Cancelled}
        || (jt.value.status == Expired && SpentWith(row, jt.value) >= SqlAttemptCap(t.maxRetries)))
  }

  function AddRow(gate: CanaryGate, t: Tables, row: DeviceRow): CanaryGate {
    if CountedSucceeded(t, row) then
      CanaryGate(gate.total + 1, gate.completed + 1, gate.succeeded + 1, gate.failed)
    else if CountedFailed(t, row) then
      CanaryGate(gate.total + 1, gate.completed + 1, gate.succeeded, gate.failed + 1)
    else
      gate.(total := gate.total + 1)
  }

  /** A group of None stands for GetDeploymentJobGate, which reads every device. */
  predicate InScope(row: DeviceRow, group: Option<RolloutGroup>) {
    group.Some? ==> row.group == group.value
  }

  /** The gate over the first n devices; GateOf is the gate over all of them. */
  function GatePrefix(t: Tables, group: Option<RolloutGroup>, n: nat): CanaryGate
    requires n <= |t.order|
  {
    if n == 0 then CanaryGate(0, 0, 0, 0)
    else
      var gate := GatePrefix(t, group, n - 1);
      var d := t.order[n - 1];
      if d in t.rows && InScope(t.rows[d], group) then AddRow(gate, t, t.rows[d]) else gate
  }

  function GateOf(t: Tables, group: Option<RolloutGroup>): CanaryGate {
    GatePrefix(t, group, |t.order|)
  }

  function ListedPrefix(t: Tables, group: RolloutGroup, n: nat): seq<DeviceId>
    requires n <= |t.order|
  {
    if n == 0 then []
    else
      var d := t.order[n - 1];
      ListedPrefix(t, group, n - 1)
      + if d in t.rows && t.rows[d].group == group && Redispatchable(t, t.rows[d]) then [d] else []
  }

  function Undispatched(t: Tables, group: RolloutGroup): seq<DeviceId> {
    ListedPrefix(t, group, |t.order|)
  }

  // ---------------------------------------------------------------- transactions

  datatype QueueResult =
    | JobQueued
    | AlreadyMapped
    | ErrPatchResultScope
    | ErrIncompleteMapping
    | ErrPatchRetriesExhausted
    | ErrMaintenanceWindow
    | ErrNoDeploymentPatches

  /** Attempts consumed before this queue call, or the reason why the existing mapping stops it. */
  function ConsumedAttempts(t: Tables, row: DeviceRow): Result<nat, QueueResult> {
    var cap := QueueAttemptCap(t.maxRetries);
    if row.jobId.Some? || row.targetId.Some? then
      if row.jobId.None? || row.targetId.None? then Err(ErrIncompleteMapping)
      else
        var jt := Joined(t, row);
        if jt.None? || jt.value.status != Expired then Err(AlreadyMapped)
        else if SpentWith(row, jt.value) >= cap then Err(ErrPatchRetriesExhausted)
        else Ok(SpentWith(row, jt.value))
    else if row.dispatchAttempts >= cap then Err(ErrPatchRetriesExhausted)
    else Ok(row.dispatchAttempts)
  }

  /** The row written by a successful queue transaction that found `consumed` attempts spent. */
  function NewTarget(t: Tables, d: DeviceId, consumed: nat, deadline: int): Target {
    var remaining := QueueAttemptCap(t.maxRetries) - consumed - 1;
    Target(d, |t.targets|, Queued, 0, 0, {}, if remaining < 0 then 0 else remaining, consumed + 1, deadline)
  }

  function QueueOutcome(t: Tables, d: DeviceId, deadline: Option<int>): Result<nat, QueueResult> {
    if d !in t.rows || d !in t.queueable then Err(ErrPatchResultScope)
    else
      var consumed := ConsumedAttempts(t, t.rows[d]);
      if consumed.Err? then consumed
      else if deadline.None? then Err(ErrMaintenanceWindow)
      else if !t.hasPatches then Err(ErrNoDeploymentPatches)
      else consumed
  }

  /** QueuePatchRolloutDevice; `deadline` is the queue's own reading of the maintenance window. */
  function Queue(t: Tables, d: DeviceId, deadline: Option<int>): Tables {
    var outcome := QueueOutcome(t, d, deadline);
    if outcome.Err? then t
    else
      var id := |t.targets|;
      t.(targets := t.targets + [NewTarget(t, d, outcome.value, deadline.value)],
         rows := t.rows[d := t.rows[d].(jobId := Some(id), targetId := Some(id), dispatched := true,
                                        dispatchAttempts := outcome.value + 1)])
  }

  function PreparedRow(t: Tables, d: DeviceId): DeviceRow
    requires d in t.rows
  {
    t.rows[d].(group := if d in SelectCanarySubset(t.order, DEFAULT_CANARY_PERCENT) then CanaryGroup else BroadGroup,
               dispatched := false, dispatchAttempts := 0)
  }

  /** PrepareCanaryRollout: relabel every row and reset its dispatch columns; the job mapping stays. */
  function Prepare(t: Tables): Tables {
    t.(rows := map d | d in t.rows :: PreparedRow(t, d))
  }

  // ---------------------------------------------------------------- the dispatcher

  /** allowedTransitions of internal/platform/statemachine.go, restricted to the states above. */
  predicate CanTransition(from: TargetStatus, to: TargetStatus) {
    match from
    case Queued => to in {Dispatched, Cancelled, Expired}
    case Dispatched => to in {Running, Succeeded, Failed, Cancelled, Expired}
    case Running => to in {Succeeded, Failed, Cancelled, Expired}
    case _ => false
  }

  datatype TargetEvent =
    | EnsureOutbox                   // ensureQueuedOutbox
    | ProcessOutbox(event: nat)      // processOutbox, for the event with this attempt number
    | Advance(to: TargetStatus)      // acknowledgement, agent result, expiry sweep, cancellation
    | LeaseTimeout                   // reconcile: execution acknowledgement timeout
    | RetryOne                       // handleRetryJobTargets with a target_id: no retry_count guard
    | RetryAll                       // handleRetryJobTargets for the whole job

  function TargetStep(t: Target, e: TargetEvent): Target {
    match e
    case EnsureOutbox =>
      if t.status == Queued && t.retryCount <= t.maxRetries && t.attempt + 1 !in t.outbox
      then t.(outbox := t.outbox + {t.attempt + 1})
      else t
    case ProcessOutbox(event) =>
      if event in t.outbox && (t.status == Queued || (t.status == Dispatched && t.attempt < event))
      then t.(status := Dispatched, attempt := event)
      else t
    case Advance(to) =>
      if to != Dispatched && CanTransition(t.status, to) then t.(status := to) else t
    case LeaseTimeout =>
      if t.status in {Dispatched, Running}
      then t.(status := if t.retryCount < t.maxRetries then Queued else Failed, retryCount := t.retryCount + 1)
      else t
    case RetryOne =>
      if t.status in {Failed, Expired} then t.(status := Queued, retryCount := t.retryCount + 1) else t
    case RetryAll =>
      if t.status in {Failed, Expired} && t.retryCount < t.maxRetries
      then t.(status := Queued, retryCount := t.retryCount + 1)
      else t
  }

  // ---------------------------------------------------------------- row invariants

  /** The part of the invariant that no dispatcher event and no operator retry can break. */
  ghost predicate Mapped(t: Tables) {
    && (forall i, j :: 0 <= i < j < |t.order| ==> t.order[i] != t.order[j])
    && t.rows.Keys == (set d | d in t.order)
    && (forall i :: 0 <= i < |t.targets| ==> t.targets[i].jobId == i && t.targets[i].deviceId in t.rows)
    && (forall d :: d in t.rows ==> RowMapped(t, d))
  }

  ghost predicate RowMapped(t: Tables, d: DeviceId)
    requires d in t.rows
  {
    var row := t.rows[d];
    && row.jobId == row.targetId
    && row.dispatched == row.targetId.Some?
    && (row.targetId.None? ==> row.dispatchAttempts == 0 && NoTargetFrom(t, d, 0))
    && (row.targetId.Some? ==>
          && row.targetId.value < |t.targets|
          && t.targets[row.targetId.value].deviceId == d
          && NoTargetFrom(t, d, row.targetId.value + 1))
  }

  ghost predicate NoTargetFrom(t: Tables, d: DeviceId, from: nat) {
    forall i :: from <= i < |t.targets| ==> t.targets[i].deviceId != d
  }

  /** Target i is the one its device row currently points at. */
  ghost predicate Current(t: Tables, i: nat) {
    && i < |t.targets|
    && t.targets[i].deviceId in t.rows
    && t.rows[t.targets[i].deviceId].targetId == Some(i)
  }

  lemma JoinedIsCurrent(t: Tables, d: DeviceId)
    requires Mapped(t) && d in t.rows
    ensures t.rows[d].targetId.None? ==> Joined(t, t.rows[d]) == None
    ensures t.rows[d].targetId.Some? ==>
              Joined(t, t.rows[d]) == Some(t.targets[t.rows[d].targetId.value]) && Current(t, t.rows[d].targetId.value)
  {
    assert RowMapped(t, d);
  }

  // ---------------------------------------------------------------- classification of a device

  /** In every mapped state a device is exactly one of re-dispatchable, in flight, or counted by the gate. */
  lemma DeviceTrichotomy(t: Tables, d: DeviceId)
    requires Mapped(t) && d in t.rows
    ensures var row := t.rows[d];
            var counted := CountedSucceeded(t, row) || CountedFailed(t, row);
            && (Redispatchable(t, row) || InFlight(t, row) || counted)
            && !(Redispatchable(t, row) && InFlight(t, row))
            && !(Redispatchable(t, row) && counted)
            && !(InFlight(t, row) && counted)
            && !(CountedSucceeded(t, row) && CountedFailed(t, row))
  {
    JoinedIsCurrent(t, d);
    assert RowMapped(t, d);
  }

  ghost predicate RowsPresent(t: Tables) {
    forall d <- t.order :: d in t.rows
  }

  /** The k-th device of the deployment counts as finished, or is outside the gate's scope. */
  ghost predicate FinishedAt(t: Tables, group: Option<RolloutGroup>, k: nat)
    requires RowsPresent(t) && k < |t.order|
  {
    var row := t.rows[t.order[k]];
    InScope(row, group) ==> CountedSucceeded(t, row) || CountedFailed(t, row)
  }

  ghost predicate SucceededAt(t: Tables, group: Option<RolloutGroup>, k: nat)
    requires RowsPresent(t) && k < |t.order|
  {
    var row := t.rows[t.order[k]];
    InScope(row, group) ==> CountedSucceeded(t, row)
  }

  /** What the counters of a prefix gate say about the rows behind it. */
  lemma {:induction false} GateCounts(t: Tables, group: Option<RolloutGroup>, n: nat)
    requires RowsPresent(t) && n <= |t.order|
    ensures var gate := GatePrefix(t, group, n);
            && gate.completed == gate.succeeded + gate.failed
            && gate.completed <= gate.total <= n
            && (group.None? ==> gate.total == n)
            && (gate.completed == gate.total <==> forall k :: 0 <= k < n ==> FinishedAt(t, group, k))
            && (gate.succeeded == gate.total <==> forall k :: 0 <= k < n ==> SucceededAt(t, group, k))
  {
    if n > 0 {
      GateCounts(t, group, n - 1);
      var before, gate := GatePrefix(t, group, n - 1), GatePrefix(t, group, n);
      assert gate.completed == gate.total <==> before.completed == before.total && FinishedAt(t, group, n - 1);
      assert gate.succeeded == gate.total <==> before.succeeded == before.total && SucceededAt(t, group, n - 1);
    }
  }

  ghost predicate ListedAt(t: Tables, group: RolloutGroup, k: nat)
    requires RowsPresent(t) && k < |t.order|
  {
    var row := t.rows[t.order[k]];
    row.group == group && Redispatchable(t, row)
  }

  lemma {:induction false} ListedExactly(t: Tables, group: RolloutGroup, n: nat)
    requires RowsPresent(t) && n <= |t.order|
    ensures forall d :: d in ListedPrefix(t, group, n) <==>
              exists k :: 0 <= k < n && t.order[k] == d && ListedAt(t, group, k)
  {
    if n > 0 {
      ListedExactly(t, group, n - 1);
      assert forall d :: d in ListedPrefix(t, group, n) <==>
               d in ListedPrefix(t, group, n - 1) || (d == t.order[n - 1] && ListedAt(t, group, n - 1));
    }
  }

  lemma NothingListed(t: Tables, group: RolloutGroup)
    requires RowsPresent(t)
    ensures Undispatched(t, group) == [] <==> forall k :: 0 <= k < |t.order| ==> !ListedAt(t, group, k)
  {
    ListedExactly(t, group, |t.order|);
    if Undispatched(t, group) != [] {
      assert Undispatched(t, group)[0] in Undispatched(t, group);
    } else {
      forall k | 0 <= k < |t.order| ensures !ListedAt(t, group, k) {
        assert t.order[k] !in Undispatched(t, group);
      }
    }
  }

  lemma {:induction false} GateTotalPositive(t: Tables, group: RolloutGroup, n: nat)
    requires RowsPresent(t) && n <= |t.order|
    ensures GatePrefix(t, Some(group), n).total > 0 <==> exists k :: 0 <= k < n && t.rows[t.order[k]].group == group
  {
    if n > 0 {
      GateTotalPositive(t, group, n - 1);
    }
  }

  /** A group's gate is ready exactly when the group has devices, none of them is listed for dispatch and none
      is in flight: a ready gate and a non-empty dispatch list exclude each other. */
  lemma ReadyIffNothingToDispatch(t: Tables, group: RolloutGroup)
    requires Mapped(t)
    ensures GateOf(t, Some(group)).Ready() <==>
            && (exists k :: 0 <= k < |t.order| && t.rows[t.order[k]].group == group)
            && Undispatched(t, group) == []
            && (forall k :: 0 <= k < |t.order| && t.rows[t.order[k]].group == group ==> !InFlight(t, t.rows[t.order[k]]))
  {
    GateCounts(t, Some(group), |t.order|);
    GateTotalPositive(t, group, |t.order|);
    NothingListed(t, group);
    forall k | 0 <= k < |t.order|
      ensures FinishedAt(t, Some(group), k) <==>
              !ListedAt(t, group, k) && (t.rows[t.order[k]].group == group ==> !InFlight(t, t.rows[t.order[k]]))
    {
      DeviceTrichotomy(t, t.order[k]);
    }
  }

  /** The queue transaction and the dispatch query agree: a listed device is never refused for an exhausted
      budget, an incomplete mapping or a live target. */
  lemma ListedDeviceIsQueued(t: Tables, d: DeviceId, group: RolloutGroup, deadline: Option<int>)
    requires Mapped(t) && d in Undispatched(t, group)
    ensures d in t.rows && ConsumedAttempts(t, t.rows[d]).Ok?
    ensures d in t.queueable && deadline.Some? && t.hasPatches ==>
              QueueOutcome(t, d, deadline).Ok? && InFlight(Queue(t, d, deadline), Queue(t, d, deadline).rows[d])
  {
    ListedExactly(t, group, |t.order|);
    JoinedIsCurrent(t, d);
    assert RowMapped(t, d);
    BudgetsAgree(t.maxRetries, t.maxRetries);
  }

  /** Conversely, a mapped device that is not listed is never given another job. */
  lemma UnlistedDeviceIsNotQueued(t: Tables, d: DeviceId, deadline: Option<int>)
    requires Mapped(t) && d in t.rows && !Redispatchable(t, t.rows[d])
    ensures Queue(t, d, deadline) == t
  {
    JoinedIsCurrent(t, d);
    assert RowMapped(t, d);
    BudgetsAgree(t.maxRetries, t.maxRetries);
  }
}
