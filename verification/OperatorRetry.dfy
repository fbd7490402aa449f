/** Concrete runs in which an operator retry, or a lease timeout, takes a device past what its policy allows. */
module OperatorRetry {
  import opened Wrappers
  import opened CanaryControl
  import opened DurableJobs
  import opened RolloutRuns
  import opened AttemptBudget

  const DEVICE := "device"
  const STARTED := Deployment(StatusCanary, 1, 0, 0, 0)

  /** A one-device deployment whose policy allows one retry: two attempts in all. */
  function Created(): State {
    State(Deployment(StatusPending, 1, 0, 0, 0),
          Tables([DEVICE], map[DEVICE := DeviceRow(BroadGroup, false, 0, None, None)], [], 1, 2, true, {DEVICE}),
          Idle)
  }

  function At(row: DeviceRow, targets: seq<Target>, scheduler: Scheduler): State {
    State(STARTED, Tables([DEVICE], map[DEVICE := row], targets, 1, 2, true, {DEVICE}), scheduler)
  }

  function First(status: TargetStatus, retryCount: nat, attempt: nat, outbox: set<nat>): Target {
    Target(DEVICE, 0, status, retryCount, attempt, outbox, 1, 1, 100)
  }

  function Second(outbox: set<nat>): Target {
    Target(DEVICE, 1, Queued, 0, 0, outbox, 0, 2, 200)
  }

  const UNSENT := DeviceRow(CanaryGroup, false, 0, None, None)
  const SENT_ONCE := DeviceRow(CanaryGroup, true, 1, Some(0), Some(0))
  const SENT_TWICE := DeviceRow(CanaryGroup, true, 2, Some(1), Some(1))

  function Drained(after: After): Scheduler {
    ToQueue(CanaryGroup, [], STARTED, after)
  }

  /** The run: a first job that the agent refuses as expired, its replacement in the next pass, then an operator
      retry of the replaced job through the guarded bulk branch. */
  const SCRIPT: seq<Event> := [
    BeginPass(true, true),
    PrepareRows(Written),
    Persist(Written, true),
    ListDevices(true),
    QueueDevice(WindowReading(Some(100))),
    OnTarget(0, EnsureOutbox),
    OnTarget(0, ProcessOutbox(1)),
    OnTarget(0, Advance(Expired)),
    QueueDevice(DatabaseError),
    BeginPass(true, true),
    ListDevices(true),
    QueueDevice(WindowReading(Some(200))),
    OnTarget(1, EnsureOutbox),
    OnTarget(0, RetryAll),
    OnTarget(0, EnsureOutbox)
  ]

  /** The state before each event of the script, and the state at its end. */
  function TraceAt(k: nat): State
    requires k <= 15
  {
    var s := Created();
    var expired := First(Expired, 0, 1, {1});
    match k
    case 0 => s
    case 1 => s.(scheduler := ToPrepare(s.row))
    case 2 => At(UNSENT, [], ToPersist(STARTED, Some(CanaryGroup))).(row := s.row)
    case 3 => At(UNSENT, [], ToList(CanaryGroup, STARTED, Stop))
    case 4 => At(UNSENT, [], ToQueue(CanaryGroup, [DEVICE], STARTED, Stop))
    case 5 => At(SENT_ONCE, [First(Queued, 0, 0, {})], Drained(Stop))
    case 6 => At(SENT_ONCE, [First(Queued, 0, 0, {1})], Drained(Stop))
    case 7 => At(SENT_ONCE, [First(Dispatched, 0, 1, {1})], Drained(Stop))
    case 8 => At(SENT_ONCE, [expired], Drained(Stop))
    case 9 => At(SENT_ONCE, [expired], Idle)
    case 10 => At(SENT_ONCE, [expired], ToList(CanaryGroup, STARTED, ReadCanaryGate))
    case 11 => At(SENT_ONCE, [expired], ToQueue(CanaryGroup, [DEVICE], STARTED, ReadCanaryGate))
    case 12 => At(SENT_TWICE, [expired, Second({})], Drained(ReadCanaryGate))
    case 13 => At(SENT_TWICE, [expired, Second({1})], Drained(ReadCanaryGate))
    case 14 => At(SENT_TWICE, [First(Queued, 1, 1, {1}), Second({1})], Drained(ReadCanaryGate))
    case _ => At(SENT_TWICE, [First(Queued, 1, 1, {1, 2}), Second({1})], Drained(ReadCanaryGate))
  }

  lemma ListsDevice(row: DeviceRow, targets: seq<Target>, after: After)
    requires Redispatchable(At(row, targets, Idle).tables, row) && row.group == CanaryGroup
    ensures Step(At(row, targets, ToList(CanaryGroup, STARTED, after)), ListDevices(true))
            == At(row, targets, ToQueue(CanaryGroup, [DEVICE], STARTED, after))
  {
    var t := At(row, targets, Idle).tables;
    assert ListedPrefix(t, CanaryGroup, 0) == [];
    assert ListedPrefix(t, CanaryGroup, 1) == [DEVICE];
  }

  lemma QueuesDevice(row: DeviceRow, targets: seq<Target>, after: After, deadline: int, row': DeviceRow, added: Target)
    requires var t := At(row, targets, Idle).tables;
             var outcome := QueueOutcome(t, DEVICE, Some(deadline));
             && outcome.Ok?
             && added == NewTarget(t, DEVICE, outcome.value, deadline)
             && row' == row.(jobId := Some(|targets|), targetId := Some(|targets|), dispatched := true,
                             dispatchAttempts := outcome.value + 1)
    ensures Step(At(row, targets, ToQueue(CanaryGroup, [DEVICE], STARTED, after)), QueueDevice(WindowReading(Some(deadline))))
            == At(row', targets + [added], Drained(after))
  {
    assert [DEVICE][1..] == [];
    assert map[DEVICE := row][DEVICE := row'] == map[DEVICE := row'];
  }

  lemma ChangesTarget(row: DeviceRow, before: seq<Target>, i: nat, change: TargetEvent, scheduler: Scheduler,
                      after: Target)
    requires i < |before| && TargetStep(before[i], change) == after
    ensures Step(At(row, before, scheduler), OnTarget(i, change)) == At(row, before[i := after], scheduler)
  {
  }

  lemma PassSteps(k: nat)
    requires k in {0, 1, 2, 8, 9}
    ensures Step(TraceAt(k), SCRIPT[k]) == TraceAt(k + 1)
  {
    assert SelectCanarySubset([DEVICE], DEFAULT_CANARY_PERCENT) == [DEVICE];
    assert Prepare(Created().tables).rows == map[DEVICE := UNSENT];
  }

  lemma QueueSteps(k: nat)
    requires k in {3, 4, 10, 11}
    ensures Step(TraceAt(k), SCRIPT[k]) == TraceAt(k + 1)
  {
    var expired := First(Expired, 0, 1, {1});
    match k
    case 3 => ListsDevice(UNSENT, [], Stop);
    case 4 => QueuesDevice(UNSENT, [], Stop, 100, SENT_ONCE, First(Queued, 0, 0, {}));
    case 10 => ListsDevice(SENT_ONCE, [expired], ReadCanaryGate);
    case _ =>
      QueuesDevice(SENT_ONCE, [expired], ReadCanaryGate, 200, SENT_TWICE, Second({}));
      assert [expired] + [Second({})] == [expired, Second({})];
  }

  lemma TargetSteps(k: nat)
    requires k in {5, 6, 7, 12, 13, 14}
    ensures Step(TraceAt(k), SCRIPT[k]) == TraceAt(k + 1)
  {
    var drained := Drained(ReadCanaryGate);
    assert {} + {1} == {1} && {1} + {2} == {1, 2};
    match k
    case 5 => ChangesTarget(SENT_ONCE, [First(Queued, 0, 0, {})], 0, EnsureOutbox, Drained(Stop), First(Queued, 0, 0, {1}));
    case 6 =>
      ChangesTarget(SENT_ONCE, [First(Queued, 0, 0, {1})], 0, ProcessOutbox(1), Drained(Stop), First(Dispatched, 0, 1, {1}));
    case 7 =>
      ChangesTarget(SENT_ONCE, [First(Dispatched, 0, 1, {1})], 0, Advance(Expired), Drained(Stop), First(Expired, 0, 1, {1}));
    case 12 =>
      ChangesTarget(SENT_TWICE, [First(Expired, 0, 1, {1}), Second({})], 1, EnsureOutbox, drained, Second({1}));
    case 13 =>
      ChangesTarget(SENT_TWICE, [First(Expired, 0, 1, {1}), Second({1})], 0, RetryAll, drained, First(Queued, 1, 1, {1}));
    case _ =>
      ChangesTarget(SENT_TWICE, [First(Queued, 1, 1, {1}), Second({1})], 0, EnsureOutbox, drained, First(Queued, 1, 1, {1, 2}));
  }

  lemma {:induction false} RunFollowsTrace(k: nat)
    requires k <= 15
    ensures Run(Created(), SCRIPT[..k]) == TraceAt(k)
  {
    if k > 0 {
      RunFollowsTrace(k - 1);
      assert SCRIPT[..k][..k - 1] == SCRIPT[..k - 1];
      if k - 1 in {0, 1, 2, 8, 9} {
        PassSteps(k - 1);
      } else if k - 1 in {3, 4, 10, 11} {
        QueueSteps(k - 1);
      } else {
        TargetSteps(k - 1);
      }
    }
  }

  /** The bulk branch of handleRetryJobTargets revives the replaced job: three commands are issued under a policy of
      two attempts, and dispatch_attempts + retry_count still reads two. */
  lemma BulkRetryCanExceedBudget()
    ensures Init(Created())
    ensures var t := Run(Created(), SCRIPT).tables;
            && t.rows == map[DEVICE := SENT_TWICE]
            && t.targets == [First(Queued, 1, 1, {1, 2}), Second({1})]
            && SpentWith(SENT_TWICE, Second({1})) == SqlAttemptCap(t.maxRetries) == t.highCap == 2
            && SumFor(t.targets, DEVICE, Commands) == 3
  {
    RunFollowsTrace(15);
    assert SCRIPT[..15] == SCRIPT;
    CommandTotal();
    assert Created().tables.rows
           == (map d | d in Created().tables.order :: DeviceRow(BroadGroup, false, 0, None, None));
  }

  // ---------------------------------------------------------------- a failing lease timeout

  /** After the first dispatch the agent never answers: two lease timeouts, the second of which fails the target. */
  const TIMEOUTS: seq<Event> := SCRIPT[..7] + [
    OnTarget(0, LeaseTimeout),
    OnTarget(0, EnsureOutbox),
    OnTarget(0, ProcessOutbox(2)),
    OnTarget(0, LeaseTimeout)
  ]

  function OnFirst(target: Target): State {
    At(SENT_ONCE, [target], Drained(Stop))
  }

  lemma TimeoutSteps()
    ensures Step(OnFirst(First(Dispatched, 0, 1, {1})), OnTarget(0, LeaseTimeout)) == OnFirst(First(Queued, 1, 1, {1}))
    ensures Step(OnFirst(First(Queued, 1, 1, {1})), OnTarget(0, EnsureOutbox)) == OnFirst(First(Queued, 1, 1, {1, 2}))
    ensures Step(OnFirst(First(Queued, 1, 1, {1, 2})), OnTarget(0, ProcessOutbox(2))) == OnFirst(First(Dispatched, 1, 2, {1, 2}))
    ensures Step(OnFirst(First(Dispatched, 1, 2, {1, 2})), OnTarget(0, LeaseTimeout)) == OnFirst(First(Failed, 2, 2, {1, 2}))
  {
    assert {1} + {2} == {1, 2};
    ChangesTarget(SENT_ONCE, [First(Dispatched, 0, 1, {1})], 0, LeaseTimeout, Drained(Stop), First(Queued, 1, 1, {1}));
    ChangesTarget(SENT_ONCE, [First(Queued, 1, 1, {1})], 0, EnsureOutbox, Drained(Stop), First(Queued, 1, 1, {1, 2}));
    ChangesTarget(SENT_ONCE, [First(Queued, 1, 1, {1, 2})], 0, ProcessOutbox(2), Drained(Stop), First(Dispatched, 1, 2, {1, 2}));
    ChangesTarget(SENT_ONCE, [First(Dispatched, 1, 2, {1, 2})], 0, LeaseTimeout, Drained(Stop), First(Failed, 2, 2, {1, 2}));
  }

  lemma TimeoutRun()
    ensures Run(Created(), TIMEOUTS) == OnFirst(First(Failed, 2, 2, {1, 2}))
  {
    RunFollowsTrace(7);
    TimeoutSteps();
    var a, b, c, d := OnTarget(0, LeaseTimeout), OnTarget(0, EnsureOutbox), OnTarget(0, ProcessOutbox(2)), OnTarget(0, LeaseTimeout);
    var start := SCRIPT[..7];
    RunSnoc(Created(), start, a);
    RunSnoc(Created(), start + [a], b);
    RunSnoc(Created(), start + [a] + [b], c);
    RunSnoc(Created(), start + [a] + [b] + [c], d);
    assert TIMEOUTS == start + [a] + [b] + [c] + [d];
  }

  /** Without any operator, the timeout that fails the last attempt makes dispatch_attempts + retry_count read three under a
      cap of two: the plain bound fails by one. */
  lemma LeaseTimeoutReadsOneAboveCap()
    ensures Init(Created())
    ensures var t := Run(Created(), TIMEOUTS).tables;
            && DEVICE in t.rows && Joined(t, t.rows[DEVICE]).Some?
            && SpentWith(t.rows[DEVICE], Joined(t, t.rows[DEVICE]).value) == t.highCap + 1 == 3
            && !WithinCap(t, DEVICE, false) && WithinCap(t, DEVICE, true)
  {
    TimeoutRun();
    assert Created().tables.rows
           == (map d | d in Created().tables.order :: DeviceRow(BroadGroup, false, 0, None, None));
  }

  lemma CommandTotal()
    ensures SumFor([First(Queued, 1, 1, {1, 2}), Second({1})], DEVICE, Commands) == 3
  {
    var after := [First(Queued, 1, 1, {1, 2}), Second({1})];
    assert after[..1] == [First(Queued, 1, 1, {1, 2})] && after[..1][..0] == [];
    assert SumFor(after[..1], DEVICE, Commands) == 2;
  }
}
