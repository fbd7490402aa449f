/**
  When a rollout queues jobs and which: no job outside the maintenance window, every job expires with the window it was queued
  in, and an undisturbed pass queues every device it should (internal/patch/manager.go, durable_jobs.go).
 */
module RolloutDispatch {
  import opened Wrappers
  import opened CanaryControl
  import opened DurableJobs
  import opened RolloutRuns
  import opened RolloutTheorems
  import opened RolloutCounters
  import opened MaintenanceWindow
  import opened MaintenanceClock

  // ---------------------------------------------------------------- no job outside the window

  /** The scheduler positions from which jobs are queued without another look at the window. */
  predicate MayDispatch(next: Scheduler) {
    next.ToPrepare? || next.ToList? || next.ToQueue? || (next.ToPersist? && next.dispatchNext == Some(CanaryGroup))
  }

  /** The events at which the scheduler finds the window open. */
  predicate FindsWindowOpen(e: Event) {
    || (e.BeginPass? && e.proceed && e.windowOpen)
    || (e.Persist? && e.outcome == RolloutRuns.Written && e.windowOpen)
  }

  /** The pass under way found the window open at some point: the scheduler has not been idle since. */
  ghost predicate OpenInThisPass(s: State, events: seq<Event>) {
    exists j :: 0 <= j < |events| && FindsWindowOpen(events[j]) && BusySince(s, events, j)
  }

  ghost predicate BusySince(s: State, events: seq<Event>, j: nat) {
    forall k :: j < k <= |events| ==> Run(s, events[..k]).scheduler != Idle
  }

  lemma MayDispatchStep(s: State, e: Event)
    requires MayDispatch(Step(s, e).scheduler)
    ensures MayDispatch(s.scheduler) || FindsWindowOpen(e)
  {
  }

  lemma {:induction false} DispatchNeedsOpenWindow(s: State, events: seq<Event>)
    requires Init(s) && MayDispatch(Run(s, events).scheduler)
    ensures OpenInThisPass(s, events)
  {
    var n := |events| - 1;
    MayDispatchStep(Run(s, events[..n]), events[n]);
    assert events[..n + 1] == events;
    if FindsWindowOpen(events[n]) {
      assert BusySince(s, events, n);
    } else {
      DispatchNeedsOpenWindow(s, events[..n]);
      var j :| 0 <= j < n && FindsWindowOpen(events[..n][j]) && BusySince(s, events[..n], j);
      forall k | j < k <= |events| ensures Run(s, events[..k]).scheduler != Idle {
        if k <= n {
          assert events[..n][..k] == events[..k];
        }
      }
      assert BusySince(s, events, j);
    }
  }

  lemma TargetsGrowByQueueing(s: State, e: Event)
    requires |Step(s, e).tables.targets| != |s.tables.targets|
    ensures e.QueueDevice? && e.reading.WindowReading? && s.scheduler.ToQueue? && s.scheduler.devices != []
    ensures Step(s, e).tables == Queue(s.tables, s.scheduler.devices[0], e.reading.deadline)
  {
  }

  /** A job is only ever queued in a pass that found the window open, and with the window still open when the transaction
      reads it; the job carries that reading as its expiry, and the device row points at it. */
  lemma JobsOnlyInsideWindow(s: State, events: seq<Event>, e: Event)
    requires Init(s) && |Step(Run(s, events), e).tables.targets| != |Run(s, events).tables.targets|
    ensures OpenInThisPass(s, events)
    ensures e.QueueDevice? && e.reading.WindowReading? && e.reading.deadline.Some?
    ensures var t, t' := Run(s, events).tables, Step(Run(s, events), e).tables;
            && |t'.targets| == |t.targets| + 1 && t'.targets[..|t.targets|] == t.targets
            && var job := t'.targets[|t.targets|];
               && job.status == Queued && job.expiresAt == e.reading.deadline.value
               && job.attempt == 0 && job.retryCount == 0 && job.outbox == {}
               && job.deviceId in t.queueable && job.deviceId in t'.rows
               && t'.rows == t.rows[job.deviceId := t'.rows[job.deviceId]]
               && Joined(t', t'.rows[job.deviceId]) == Some(job)
  {
    DispatchNeedsOpenWindow(s, events) by {
      TargetsGrowByQueueing(Run(s, events), e);
    }
    TargetsGrowByQueueing(Run(s, events), e);
  }

  /** The queue transaction's reading of the policy's window. */
  function WindowDeadline(now: Instant, window: string): Option<int> {
    var deadline := MaintenanceWindowDeadline(now, window);
    if deadline.Ok? then Some(Nanos(deadline.value)) else None
  }

  /** With a window of two different clocks, the job is queued between them and expires when the second one strikes: any
      instant before that is inside the window. */
  lemma JobExpiresWithTheWindow(
      s: State, events: seq<Event>, now: Instant, window: string, from: Minute, to: Minute, at: Instant)
    requires Init(s) && Writes(window, from, to) && from != to
    requires var e := QueueDevice(WindowReading(WindowDeadline(now, window)));
             |Step(Run(s, events), e).tables.targets| != |Run(s, events).tables.targets|
    ensures Within(now.minute, from, to)
    ensures var e := QueueDevice(WindowReading(WindowDeadline(now, window)));
            var targets := Step(Run(s, events), e).tables.targets;
            && targets != []
            && var expiresAt := targets[|targets| - 1].expiresAt;
               && expiresAt == Nanos(Reading(if now.minute < to then now.day else now.day + 1, to, 0))
               && (Nanos(now) <= Nanos(at) < expiresAt ==> Within(at.minute, from, to))
  {
    JobsOnlyInsideWindow(s, events, QueueDevice(WindowReading(WindowDeadline(now, window))));
    OpenStretchUntilDeadline(now, window, from, to, at);
  }

  lemma OpenStretchUntilDeadline(now: Instant, window: string, from: Minute, to: Minute, at: Instant)
    requires Writes(window, from, to) && from != to && MaintenanceWindowDeadline(now, window).Ok?
    ensures Within(now.minute, from, to)
    ensures var end := MaintenanceWindowDeadline(now, window).value;
            && end == Reading(if now.minute < to then now.day else now.day + 1, to, 0)
            && (Nanos(now) <= Nanos(at) < Nanos(end) ==> Within(at.minute, from, to))
  {
    DeadlineIffAllowed(now, window);
    WrittenWindowAllows(now, window, from, to);
    WrittenWindowAllows(at, window, from, to);
    WrittenWindowDeadline(now, window, from, to);
    WrittenIsRestricted(window, from, to);
    DeadlineClosesTheWindow(now, window, at);
  }

  // ---------------------------------------------------------------- an undisturbed pass

  ghost predicate Served(t: Tables, d: DeviceId, expiresAt: int)
    requires d in t.rows
  {
    var job := Joined(t, t.rows[d]);
    && job.Some? && job.value.deviceId == d && job.value.status == Queued && job.value.expiresAt == expiresAt
    && job.value.attempt == 0 && job.value.retryCount == 0
  }

  ghost predicate SameJob(t: Tables, t': Tables, d: DeviceId) {
    d in t.rows && d in t'.rows && t'.rows[d] == t.rows[d] && Joined(t', t'.rows[d]) == Joined(t, t.rows[d])
  }

  /** The policy columns and the device list stay as they are. */
  predicate SameColumns(t: Tables, t': Tables) {
    && t'.order == t.order && t'.rows.Keys == t.rows.Keys && t'.maxRetries == t.maxRetries
    && t'.hasPatches == t.hasPatches && t'.queueable == t.queueable
  }

  lemma QueueServes(t: Tables, d: DeviceId, expiresAt: int)
    requires Mapped(t) && t.hasPatches && d in t.rows && d in t.queueable && Redispatchable(t, t.rows[d])
    ensures var t' := Queue(t, d, Some(expiresAt)); d in t'.rows && Served(t', d, expiresAt)
  {
    JoinedIsCurrent(t, d);
    assert RowMapped(t, d);
    BudgetsAgree(t.maxRetries, t.maxRetries);
  }

  lemma QueueKeepsOthers(t: Tables, d: DeviceId, expiresAt: int, other: DeviceId)
    requires Mapped(t) && other in t.rows && (other != d || d !in t.queueable)
    ensures SameJob(t, Queue(t, d, Some(expiresAt)), other)
  {
    assert RowMapped(t, other);
  }

  /** What each device's queue transaction meets: a database error, a closed window, or an open one with its deadline. */
  type Readings = DeviceId -> QueueReading

  function DeadlineFor(readings: Readings, d: DeviceId): Option<int> {
    match readings(d)
    case DatabaseError => None
    case WindowReading(deadline) => deadline
  }

  function Queues(readings: Readings, devices: seq<DeviceId>): seq<Event> {
    seq(|devices|, k requires 0 <= k < |devices| => QueueDevice(readings(devices[k])))
  }

  /** After these devices of the list have been handled: those that may be queued are, everything else is untouched. */
  ghost predicate Handled(s: State, s': State, done: seq<DeviceId>, readings: Readings) {
    && Mapped(s'.tables) && SameColumns(s.tables, s'.tables) && s'.row == s.row
    && (forall d :: d in s.tables.rows ==> HandledDevice(s.tables, s'.tables, done, d, readings))
  }

  ghost predicate HandledDevice(t: Tables, t': Tables, done: seq<DeviceId>, d: DeviceId, readings: Readings) {
    && d in t'.rows
    && if d in done && d in t.queueable && DeadlineFor(readings, d).Some? then Served(t', d, DeadlineFor(readings, d).value)
       else SameJob(t, t', d)
  }

  ghost predicate Distinct(devices: seq<DeviceId>) {
    forall i, j :: 0 <= i < j < |devices| ==> devices[i] != devices[j]
  }

  ghost predicate ReadyToQueue(s: State) {
    && Mapped(s.tables) && s.tables.hasPatches && s.scheduler.ToQueue?
    && Distinct(s.scheduler.devices)
    && (forall d <- s.scheduler.devices :: d in s.tables.rows && Redispatchable(s.tables, s.tables.rows[d]))
  }

  lemma StillRedispatchable(t: Tables, t': Tables, d: DeviceId)
    requires SameColumns(t, t') && SameJob(t, t', d)
    ensures Redispatchable(t', t'.rows[d]) <==> Redispatchable(t, t.rows[d])
  {
  }

  function Tried(t: Tables, d: DeviceId, reading: QueueReading): Tables {
    if reading.DatabaseError? then t else Queue(t, d, reading.deadline)
  }

  lemma TriedMapped(t: Tables, d: DeviceId, reading: QueueReading)
    requires Mapped(t)
    ensures Mapped(Tried(t, d, reading)) && SameColumns(t, Tried(t, d, reading))
  {
    if reading.WindowReading? {
      MappedQueue(t, d, reading.deadline);
    }
  }

  lemma TriedInVain(t: Tables, d: DeviceId, reading: QueueReading)
    requires reading.DatabaseError? || reading.deadline.None?
    ensures Tried(t, d, reading) == t
  {
  }

  lemma HandleNextDevice(t0: Tables, t: Tables, done: seq<DeviceId>, d: DeviceId, readings: Readings, other: DeviceId)
    requires Mapped(t) && t0.hasPatches && SameColumns(t0, t) && d in t0.rows && other in t0.rows && d !in done
    requires Redispatchable(t0, t0.rows[d])
    requires HandledDevice(t0, t, done, d, readings) && HandledDevice(t0, t, done, other, readings)
    ensures HandledDevice(t0, Tried(t, d, readings(d)), done + [d], other, readings)
  {
    StillRedispatchable(t0, t, d);
    if DeadlineFor(readings, d).None? {
      TriedInVain(t, d, readings(d));
    } else if other != d || d !in t.queueable {
      QueueKeepsOthers(t, d, DeadlineFor(readings, d).value, other);
    } else {
      QueueServes(t, d, DeadlineFor(readings, d).value);
    }
  }

  lemma HandleNext(s: State, s': State, done: seq<DeviceId>, d: DeviceId, readings: Readings)
    requires Handled(s, s', done, readings) && d !in done && s.tables.hasPatches
    requires d in s.tables.rows && Redispatchable(s.tables, s.tables.rows[d])
    ensures Handled(s, s'.(tables := Tried(s'.tables, d, readings(d))), done + [d], readings)
  {
    var t' := Tried(s'.tables, d, readings(d));
    TriedMapped(s'.tables, d, readings(d));
    assert HandledDevice(s.tables, s'.tables, done, d, readings);
    forall other | other in s.tables.rows ensures HandledDevice(s.tables, t', done + [d], other, readings) {
      assert HandledDevice(s.tables, s'.tables, done, other, readings);
      HandleNextDevice(s.tables, s'.tables, done, d, readings, other);
    }
  }

  lemma QueueEvent(s: State, reading: QueueReading)
    requires s.scheduler.ToQueue? && s.scheduler.devices != []
    ensures var devices := s.scheduler.devices;
            Step(s, QueueDevice(reading))
            == s.(tables := Tried(s.tables, devices[0], reading), scheduler := s.scheduler.(devices := devices[1..]))
  {
  }

  lemma QueuesSnoc(s: State, readings: Readings, done: seq<DeviceId>, d: DeviceId)
    ensures Run(s, Queues(readings, done + [d])) == Step(Run(s, Queues(readings, done)), QueueDevice(readings(d)))
  {
    assert Queues(readings, done + [d]) == Queues(readings, done) + [QueueDevice(readings(d))];
    RunSnoc(s, Queues(readings, done), QueueDevice(readings(d)));
  }

  /** The loop has handled the first n devices and goes on with the others. */
  ghost predicate LoopAt(s: State, n: nat, readings: Readings, s': State)
    requires s.scheduler.ToQueue? && n <= |s.scheduler.devices|
  {
    && s'.scheduler == s.scheduler.(devices := s.scheduler.devices[n..])
    && Handled(s, s', s.scheduler.devices[..n], readings)
  }

  lemma QueueOneMore(s: State, n: nat, readings: Readings, s': State)
    requires ReadyToQueue(s) && n < |s.scheduler.devices| && LoopAt(s, n, readings, s')
    ensures LoopAt(s, n + 1, readings, Step(s', QueueDevice(readings(s.scheduler.devices[n]))))
  {
    var devices, d := s.scheduler.devices, s.scheduler.devices[n];
    assert devices[n..][0] == d && devices[n..][1..] == devices[n + 1..] && devices[..n + 1] == devices[..n] + [d];
    assert d !in devices[..n] && d in devices;
    QueueEvent(s', readings(d));
    HandleNext(s, s', devices[..n], d, readings);
  }

  lemma {:induction false} QueueLoop(s: State, n: nat, readings: Readings)
    requires ReadyToQueue(s) && n <= |s.scheduler.devices|
    ensures LoopAt(s, n, readings, Run(s, Queues(readings, s.scheduler.devices[..n])))
  {
    var devices := s.scheduler.devices;
    if n == 0 {
      assert devices[0..] == devices && Run(s, Queues(readings, devices[..0])) == s;
    } else {
      QueueLoop(s, n - 1, readings);
      assert devices[..n] == devices[..n - 1] + [devices[n - 1]];
      QueuesSnoc(s, readings, devices[..n - 1], devices[n - 1]);
      QueueOneMore(s, n - 1, readings, Run(s, Queues(readings, devices[..n - 1])));
    }
  }

  lemma {:induction false} ListedDistinct(t: Tables, group: RolloutGroup, n: nat)
    requires Mapped(t) && n <= |t.order|
    ensures var listed := ListedPrefix(t, group, n);
            && (forall d <- listed :: d in t.order[..n])
            && Distinct(listed)
  {
    if n > 0 {
      ListedDistinct(t, group, n - 1);
      assert t.order[..n] == t.order[..n - 1] + [t.order[n - 1]];
      assert t.order[n - 1] !in t.order[..n - 1];
    }
  }

  lemma ListedIffRedispatchable(t: Tables, group: RolloutGroup, d: DeviceId)
    requires Mapped(t) && d in t.rows
    ensures d in Undispatched(t, group) <==> t.rows[d].group == group && Redispatchable(t, t.rows[d])
  {
    ListedExactly(t, group, |t.order|);
    assert d in t.order;
    var k :| 0 <= k < |t.order| && t.order[k] == d;
    assert ListedAt(t, group, k) <==> t.rows[d].group == group && Redispatchable(t, t.rows[d]);
  }

  /** What a dispatch pass does to one device: it has a fresh job with the deadline that its transaction read, or is untouched. */
  ghost predicate Dispatches(t: Tables, t': Tables, group: RolloutGroup, d: DeviceId, readings: Readings)
    requires d in t.rows
  {
    && d in t'.rows
    && if t.rows[d].group == group && Redispatchable(t, t.rows[d]) && d in t.queueable && DeadlineFor(readings, d).Some?
       then Served(t', d, DeadlineFor(readings, d).value)
       else SameJob(t, t', d)
  }

  ghost predicate PassDone(s: State, s': State, group: RolloutGroup, next: Scheduler, readings: Readings) {
    && s'.scheduler == next && s'.row == s.row
    && (forall d :: d in s.tables.rows ==> Dispatches(s.tables, s'.tables, group, d, readings))
  }

  /** The events of a dispatch loop; the last one finds the list empty. */
  function Listing(s: State, group: RolloutGroup, readings: Readings): seq<Event> {
    [ListDevices(true)] + (Queues(readings, Undispatched(s.tables, group)) + [QueueDevice(DatabaseError)])
  }

  lemma ListingIsReady(s: State)
    requires Inv(s) && s.tables.hasPatches && s.scheduler.ToList?
    ensures var s1 := Step(s, ListDevices(true));
            ReadyToQueue(s1) && s1.tables == s.tables && s1.row == s.row
            && s1.scheduler == ToQueue(s.scheduler.group, Undispatched(s.tables, s.scheduler.group), s.scheduler.dep, s.scheduler.after)
  {
    var listed := Undispatched(s.tables, s.scheduler.group);
    ListedDistinct(s.tables, s.scheduler.group, |s.tables.order|);
    forall d <- listed ensures d in s.tables.rows && Redispatchable(s.tables, s.tables.rows[d]) {
      assert d in s.tables.order[..|s.tables.order|];
      ListedIffRedispatchable(s.tables, s.scheduler.group, d);
    }
    var s1 := Step(s, ListDevices(true));
    assert s1.scheduler.devices == listed;
  }

  lemma ListAndQueue(s: State, readings: Readings)
    requires Inv(s) && s.tables.hasPatches && s.scheduler.ToList?
    ensures PassDone(s, Run(s, Listing(s, s.scheduler.group, readings)), s.scheduler.group,
                     Resume(s.scheduler.after, s.scheduler.dep), readings)
  {
    var group, listed := s.scheduler.group, Undispatched(s.tables, s.scheduler.group);
    var s1 := Step(s, ListDevices(true));
    ListingIsReady(s);
    AfterFirst(s, ListDevices(true), Queues(readings, listed) + [QueueDevice(DatabaseError)]);
    WholeQueueLoop(s1, readings);
    PassIsHandled(s, Run(s1, Queues(readings, listed) + [QueueDevice(DatabaseError)]), group, readings);
  }

  lemma WholeQueueLoop(s: State, readings: Readings)
    requires ReadyToQueue(s)
    ensures var s' := Run(s, Queues(readings, s.scheduler.devices) + [QueueDevice(DatabaseError)]);
            && s'.scheduler == Resume(s.scheduler.after, s.scheduler.dep)
            && Handled(s, s', s.scheduler.devices, readings)
  {
    var devices, e := s.scheduler.devices, QueueDevice(DatabaseError);
    QueueLoop(s, |devices|, readings);
    assert devices[..|devices|] == devices;
    RunSnoc(s, Queues(readings, devices), e);
    var before := Run(s, Queues(readings, devices));
    assert before.scheduler.devices == [];
    assert Step(before, e).tables == before.tables && Step(before, e).row == before.row;
  }

  lemma PassIsHandled(s: State, s2: State, group: RolloutGroup, readings: Readings)
    requires Mapped(s.tables) && Handled(s, s2, Undispatched(s.tables, group), readings)
    ensures forall d :: d in s.tables.rows ==> Dispatches(s.tables, s2.tables, group, d, readings)
  {
    forall d | d in s.tables.rows ensures Dispatches(s.tables, s2.tables, group, d, readings) {
      assert HandledDevice(s.tables, s2.tables, Undispatched(s.tables, group), d, readings);
      ListedIffRedispatchable(s.tables, group, d);
    }
  }

  /** A pass over a started rollout: the listing and one queue transaction per listed device, then the gate. */
  function Pass(s: State, group: RolloutGroup, readings: Readings): seq<Event> {
    [BeginPass(true, true)] + Listing(s, group, readings)
  }

  /** In an undisturbed pass every canary (in the broad phase: every broad device) that has no job or may be retried gets one
      with the deadline its own transaction read, if it may be queued and read one; no other device is touched, whatever
      transactions fail, and the pass goes on to the gate. */
  lemma PassDispatches(s: State, events: seq<Event>, readings: Readings)
    requires Init(s) && Run(s, events).scheduler == Idle && Run(s, events).tables.hasPatches
    requires Run(s, events).row.status in {StatusCanary, StatusDeploying}
    ensures var now := Run(s, events);
            var canary := now.row.status == StatusCanary;
            var group := if canary then CanaryGroup else BroadGroup;
            var next := if canary then ToCanaryGate(now.row) else ToDeploymentGate(now.row);
            PassDone(now, Run(now, Pass(now, group, readings)), group, next, readings)
  {
    var now := Run(s, events);
    var group := if now.row.status == StatusCanary then CanaryGroup else BroadGroup;
    RunInv(s, events);
    InvStep(now, BeginPass(true, true));
    AfterFirst(now, BeginPass(true, true), Listing(now, group, readings));
    var begun := Step(now, BeginPass(true, true));
    assert begun == now.(scheduler := Begin(now, true, true));
    ListAndQueue(begun, readings);
  }

  lemma AfterFirst(s: State, e: Event, rest: seq<Event>)
    ensures Run(s, [e] + rest) == Run(Step(s, e), rest)
  {
    RunSnoc(s, [], e);
    assert [] + [e] == [e];
    RunConcat(s, [e], rest);
  }

  /** The first pass over a new deployment. */
  function FirstPass(s: State, readings: Readings): seq<Event> {
    [BeginPass(true, true)] + ([PrepareRows(RolloutRuns.Written)] + ([Persist(RolloutRuns.Written, true)]
      + Listing(s.(tables := Prepare(s.tables)), CanaryGroup, readings)))
  }

  /** The k-th device has a job if it is among the first tenth, rounded up, may be queued and found the window open; else it has none. */
  ghost predicate FirstJob(s: State, t: Tables, k: nat, readings: Readings)
    requires k < |s.tables.order|
  {
    var d := s.tables.order[k];
    && d in t.rows
    && if k * 10 < |s.tables.order| && d in s.tables.queueable && DeadlineFor(readings, d).Some?
       then Served(t, d, DeadlineFor(readings, d).value)
       else t.rows[d].targetId == None
  }

  /** The first pass starts the rollout with a job on exactly the canaries. */
  lemma FirstPassDispatches(s: State, readings: Readings)
    requires Init(s) && s.tables.hasPatches
    ensures var s' := Run(s, FirstPass(s, readings));
            && s'.row == s.row.(status := StatusCanary) && s'.scheduler == Idle && s'.tables.order == s.tables.order
            && forall k :: 0 <= k < |s.tables.order| ==> FirstJob(s, s'.tables, k, readings)
  {
    var s3 := FirstPassPrepares(s, readings);
    ListAndQueue(s3, readings);
    DevicesFixed(s, FirstPass(s, readings));
    var s' := Run(s3, Listing(s3, CanaryGroup, readings));
    forall k | 0 <= k < |s.tables.order| ensures FirstJob(s, s'.tables, k, readings) {
      PreparedDevice(s, k);
      assert Dispatches(s3.tables, s'.tables, CanaryGroup, s.tables.order[k], readings);
    }
  }

  lemma FirstPassPrepares(s: State, readings: Readings) returns (s3: State)
    requires Init(s) && s.tables.hasPatches
    ensures Inv(s3) && s3.tables == Prepare(s.tables) && s3.row == s.row.(status := StatusCanary)
    ensures s3.scheduler == ToList(CanaryGroup, s3.row, Stop)
    ensures Run(s, FirstPass(s, readings)) == Run(s3, Listing(s3, CanaryGroup, readings))
  {
    var e1, e2, e3 := BeginPass(true, true), PrepareRows(RolloutRuns.Written), Persist(RolloutRuns.Written, true);
    var s1 := BeginsFirst(s);
    var s2 := Prepares(s1);
    s3 := PersistsCanary(s2);
    var listing := Listing(s3, CanaryGroup, readings);
    AfterFirst(s, e1, [e2] + ([e3] + listing));
    AfterFirst(s1, e2, [e3] + listing);
    AfterFirst(s2, e3, listing);
  }

  lemma BeginsFirst(s: State) returns (s1: State)
    requires Init(s) && s.tables.hasPatches
    ensures s1 == Step(s, BeginPass(true, true)) && Inv(s1) && s1 == s.(scheduler := ToPrepare(s.row))
  {
    InitInv(s);
    s1 := Step(s, BeginPass(true, true));
    InvStep(s, BeginPass(true, true));
  }

  lemma Prepares(s: State) returns (s2: State)
    requires Inv(s) && s.scheduler.ToPrepare?
    ensures s2 == Step(s, PrepareRows(RolloutRuns.Written)) && Inv(s2)
    ensures s2 == State(s.row, Prepare(s.tables), ToPersist(s.row.(status := StatusCanary), Some(CanaryGroup)))
  {
    s2 := Step(s, PrepareRows(RolloutRuns.Written));
    InvStep(s, PrepareRows(RolloutRuns.Written));
  }

  lemma PersistsCanary(s: State) returns (s3: State)
    requires Inv(s) && s.scheduler == ToPersist(s.row.(status := StatusCanary), Some(CanaryGroup))
    ensures s3 == Step(s, Persist(RolloutRuns.Written, true)) && Inv(s3) && s3.tables == s.tables
    ensures s3.row == s.row.(status := StatusCanary) && s3.scheduler == ToList(CanaryGroup, s3.row, Stop)
  {
    s3 := Step(s, Persist(RolloutRuns.Written, true));
    InvStep(s, Persist(RolloutRuns.Written, true));
  }

  lemma PreparedDevice(s: State, k: nat)
    requires Init(s) && k < |s.tables.order|
    ensures var t, d := Prepare(s.tables), s.tables.order[k];
            && d in t.rows && t.rows[d].targetId == None && Redispatchable(t, t.rows[d])
            && (t.rows[d].group == CanaryGroup <==> k * 10 < |s.tables.order|)
  {
    var order := s.tables.order;
    SelectionIsCeiling(order, DEFAULT_CANARY_PERCENT);
    var canary := SelectCanarySubset(order, DEFAULT_CANARY_PERCENT);
    assert canary == order[..|canary|];
    if k < |canary| {
      assert canary[k] == order[k];
    } else {
      assert order[k] !in canary;
    }
  }

  /** With the window closed nothing is queued, but the gate is read and decides all the same. */
  lemma ClosedPassDecides(s: State, events: seq<Event>)
    requires Init(s) && Run(s, events).scheduler == Idle && Run(s, events).row.status in {StatusCanary, StatusDeploying}
    ensures var now := Run(s, events);
            var s' := Run(s, events + [BeginPass(true, false)] + [ReadGate(true)]);
            && s'.tables == now.tables && s'.row == now.row
            && (now.row.status == StatusCanary ==> CanaryDecision(now.tables, s'.scheduler))
            && (now.row.status == StatusDeploying ==> DeploymentDecision(now.tables, s'.scheduler))
  {
    var now, begun := Run(s, events), events + [BeginPass(true, false)];
    RunSnoc(s, events, BeginPass(true, false));
    RunSnoc(s, begun, ReadGate(true));
    if now.row.status == StatusCanary {
      CanaryReadingDecides(s, begun);
    } else {
      DeploymentReadingDecides(s, begun);
    }
  }

  /** Once the canaries have passed and the new status is written, the broad devices are dispatched in the same pass if the
      window is still open, and nothing is otherwise. */
  lemma PromotionDispatches(s: State, events: seq<Event>, open: bool, readings: Readings)
    requires Init(s) && Run(s, events).scheduler.ToPersist? && Run(s, events).scheduler.dispatchNext == Some(BroadGroup)
    requires Run(s, events).tables.hasPatches
    ensures var now := Run(s, events);
            var written := Step(now, Persist(RolloutRuns.Written, open));
            && written.row == now.scheduler.dep && written.row.status == StatusDeploying && written.tables == now.tables
            && (if open then PassDone(written, Run(written, Listing(written, BroadGroup, readings)), BroadGroup, Idle, readings)
                else written.scheduler == Idle)
  {
    var now := Run(s, events);
    RunInv(s, events);
    InvStep(now, Persist(RolloutRuns.Written, open));
    if open {
      ListAndQueue(Step(now, Persist(RolloutRuns.Written, open)), readings);
    }
  }

  /** A listing that fails queues nothing, and the gate is read and decides all the same. */
  lemma FailedListingDecides(s: State, events: seq<Event>)
    requires Init(s) && Run(s, events).scheduler == Idle && Run(s, events).row.status in {StatusCanary, StatusDeploying}
    ensures var now := Run(s, events);
            var s' := Run(s, events + [BeginPass(true, true)] + [ListDevices(false)] + [ReadGate(true)]);
            && s'.tables == now.tables && s'.row == now.row
            && (now.row.status == StatusCanary ==> CanaryDecision(now.tables, s'.scheduler))
            && (now.row.status == StatusDeploying ==> DeploymentDecision(now.tables, s'.scheduler))
  {
    var now, begun := Run(s, events), events + [BeginPass(true, true)];
    var listed := begun + [ListDevices(false)];
    RunSnoc(s, events, BeginPass(true, true));
    RunSnoc(s, begun, ListDevices(false));
    RunSnoc(s, listed, ReadGate(true));
    if now.row.status == StatusCanary {
      CanaryReadingDecides(s, listed);
    } else {
      DeploymentReadingDecides(s, listed);
    }
  }

  // ---------------------------------------------------------------- what becomes of a queued job

  function Delivery(job: Target, end: TargetStatus): Target {
    TargetStep(TargetStep(TargetStep(TargetStep(job, EnsureOutbox), ProcessOutbox(job.attempt + 1)), Advance(Running)), Advance(end))
  }

  /** A queued job within its retries can be dispatched, run and end in any way, by one command with the next attempt number. */
  lemma JobRunsToItsEnd(job: Target, end: TargetStatus)
    requires job.status == Queued && job.retryCount <= job.maxRetries && end in {Succeeded, Failed, Cancelled, Expired}
    ensures Delivery(job, end) == job.(status := end, attempt := job.attempt + 1, outbox := job.outbox + {job.attempt + 1})
  {
  }

  /** One command that nobody acknowledges. */
  function Unanswered(job: Target): Target {
    TargetStep(TargetStep(TargetStep(job, EnsureOutbox), ProcessOutbox(job.attempt + 1)), LeaseTimeout)
  }

  function UnansweredTimes(job: Target, n: nat): Target {
    if n == 0 then job else Unanswered(UnansweredTimes(job, n - 1))
  }

  /** A job whose commands are never acknowledged is tried once more than it has retries left, and then fails. */
  lemma {:induction false} UnansweredJobFails(job: Target, n: nat)
    requires job.status == Queued && job.retryCount <= job.maxRetries && n <= job.maxRetries - job.retryCount + 1
    ensures var later := UnansweredTimes(job, n);
            && later.status == (if n == job.maxRetries - job.retryCount + 1 then Failed else Queued)
            && later.attempt == job.attempt + n && later.retryCount == job.retryCount + n && later.maxRetries == job.maxRetries
            && later.deviceId == job.deviceId && later.expiresAt == job.expiresAt
  {
    if n > 0 {
      UnansweredJobFails(job, n - 1);
    }
  }

  /** The event is an operator's retry of target i. */
  predicate RetriesTarget(e: Event, i: nat) {
    e.OnTarget? && e.index == i && (e.change == RetryOne || e.change == RetryAll)
  }

  lemma EndedStep(s: State, e: Event, i: nat)
    requires i < |s.tables.targets| && s.tables.targets[i].status in {Succeeded, Failed, Cancelled, Expired}
    requires s.tables.targets[i].status in {Failed, Expired} ==> !RetriesTarget(e, i)
    ensures i < |Step(s, e).tables.targets| && Step(s, e).tables.targets[i] == s.tables.targets[i]
  {
  }

  /** In every run a target that has succeeded or was cancelled stays as it is, and one that has failed or expired stays as it
      is until an operator retries it. */
  lemma {:induction false} EndedTargetStays(s: State, events: seq<Event>, j: nat, i: nat)
    requires j <= |events| && i < |Run(s, events[..j]).tables.targets|
    requires Run(s, events[..j]).tables.targets[i].status in {Succeeded, Failed, Cancelled, Expired}
    requires Run(s, events[..j]).tables.targets[i].status in {Failed, Expired} ==>
               forall k :: j <= k < |events| ==> !RetriesTarget(events[k], i)
    ensures i < |Run(s, events).tables.targets| && Run(s, events).tables.targets[i] == Run(s, events[..j]).tables.targets[i]
    decreases |events|
  {
    if j == |events| {
      assert events[..j] == events;
    } else {
      var before := events[..|events| - 1];
      PrefixOfInit(events, j);
      EndedTargetStays(s, before, j, i);
      EndedStep(Run(s, before), events[|events| - 1], i);
    }
  }
}
