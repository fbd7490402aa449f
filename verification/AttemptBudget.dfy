/**
  The global attempt budget over whole runs, device by device: what dispatch_attempts + retry_count means, when it stays
  within the largest cap in force, how many jobs and commands a device can get, and exactly which events break which of these.
 */
module AttemptBudget {
  import opened Wrappers
  import opened DurableJobs
  import opened RolloutRuns

  // ---------------------------------------------------------------- sums over the jobs of a device

  /** Sum of a weight over all the targets ever queued for a device. */
  function SumFor(targets: seq<Target>, d: DeviceId, weight: Target -> nat): nat {
    if targets == [] then 0
    else
      var last := targets[|targets| - 1];
      SumFor(targets[..|targets| - 1], d, weight) + if last.deviceId == d then weight(last) else 0
  }

  /** Attempts charged to a target: its first one and its retries. */
  function Charged(t: Target): nat {
    1 + t.retryCount
  }

  /** Distinct install commands handed to the agent for a target. */
  function Commands(t: Target): nat {
    |t.outbox|
  }

  /** Attempts a target can really have made: a lease timeout that fails the target also bumps retry_count. */
  function Allowed(t: Target): nat {
    1 + if t.retryCount <= t.maxRetries then t.retryCount else t.maxRetries
  }

  lemma {:induction false} SumUpdate(targets: seq<Target>, i: nat, t': Target, d: DeviceId, weight: Target -> nat)
    requires i < |targets| && t'.deviceId == targets[i].deviceId
    ensures SumFor(targets[i := t'], d, weight) + (if t'.deviceId == d then weight(targets[i]) else 0)
            == SumFor(targets, d, weight) + (if t'.deviceId == d then weight(t') else 0)
  {
    var n := |targets| - 1;
    if i == n {
      assert targets[i := t'][..n] == targets[..n];
    } else {
      assert targets[i := t'][..n] == targets[..n][i := t'];
      SumUpdate(targets[..n], i, t', d, weight);
    }
  }

  lemma SumAppend(targets: seq<Target>, t': Target, d: DeviceId, weight: Target -> nat)
    ensures SumFor(targets + [t'], d, weight) == SumFor(targets, d, weight) + if t'.deviceId == d then weight(t') else 0
  {
    assert (targets + [t'])[..|targets|] == targets;
  }

  lemma {:induction false} SumNone(targets: seq<Target>, d: DeviceId, weight: Target -> nat)
    requires forall t <- targets :: t.deviceId != d
    ensures SumFor(targets, d, weight) == 0
  {
    if targets != [] {
      SumNone(targets[..|targets| - 1], d, weight);
    }
  }

  lemma {:induction false} SumMonotone(targets: seq<Target>, d: DeviceId, low: Target -> nat, high: Target -> nat)
    requires forall t <- targets :: low(t) <= high(t)
    ensures SumFor(targets, d, low) <= SumFor(targets, d, high)
  {
    if targets != [] {
      assert targets[|targets| - 1] in targets;
      SumMonotone(targets[..|targets| - 1], d, low, high);
    }
  }

  // ---------------------------------------------------------------- one target

  /** Kept by every dispatcher event and every operator retry: no command is issued past the job's own allowance. */
  ghost predicate TargetOk(t: Target) {
    && (t.status == Queued ==> t.attempt <= t.retryCount)
    && t.attempt <= Allowed(t)
    && (forall a <- t.outbox :: 1 <= a <= Allowed(t))
  }

  lemma TargetStepOk(t: Target, change: TargetEvent)
    requires TargetOk(t)
    ensures TargetOk(TargetStep(t, change))
  {
  }

  /** An operator retry that changes the target: the statement's WHERE clause matches it. */
  predicate Revives(t: Target, change: TargetEvent) {
    t.status in {Failed, Expired} && (change.RetryOne? || (change.RetryAll? && t.retryCount < t.maxRetries))
  }

  lemma BoundedSetSize(s: set<nat>, n: nat)
    requires forall a <- s :: 1 <= a <= n
    ensures |s| <= n
  {
    if n == 0 {
      assert s == {};
    } else {
      BoundedSetSize(s - {n}, n - 1);
    }
  }

  // ---------------------------------------------------------------- what every run keeps

  ghost predicate CyclesIncrease(t: Tables) {
    forall i, j :: 0 <= i < j < |t.targets| && t.targets[i].deviceId == t.targets[j].deviceId ==>
      t.targets[i].cycle < t.targets[j].cycle
  }

  /** A job is queued with at most the attempts that are left under the cap. */
  ghost predicate WithinOwnCap(target: Target, highCap: nat) {
    TargetOk(target) && 1 <= target.cycle && target.cycle + target.maxRetries <= highCap
  }

  /** The cycle of a device's current target is its dispatch_attempts; this survives even careless retries. */
  ghost predicate Cycles(t: Tables) {
    && Mapped(t)
    && CyclesIncrease(t)
    && SqlAttemptCap(t.maxRetries) <= t.highCap
    && (forall i :: 0 <= i < |t.targets| ==> WithinOwnCap(t.targets[i], t.highCap))
    && (forall d :: d in t.rows && t.rows[d].targetId.Some? && t.rows[d].targetId.value < |t.targets| ==>
          t.targets[t.rows[d].targetId.value].cycle == t.rows[d].dispatchAttempts)
  }

  lemma NewTargetWithinCap(t: Tables, d: DeviceId, deadline: Option<int>)
    requires SqlAttemptCap(t.maxRetries) <= t.highCap && QueueOutcome(t, d, deadline).Ok?
    ensures WithinOwnCap(NewTarget(t, d, QueueOutcome(t, d, deadline).value, deadline.value), t.highCap)
  {
    BudgetsAgree(t.maxRetries, t.maxRetries);
  }

  lemma QueueCycle(t: Tables, d: DeviceId, deadline: Option<int>)
    requires Cycles(t) && QueueOutcome(t, d, deadline).Ok?
    ensures forall i :: 0 <= i < |t.targets| && t.targets[i].deviceId == d ==>
              t.targets[i].cycle <= QueueOutcome(t, d, deadline).value
  {
    JoinedIsCurrent(t, d);
    assert RowMapped(t, d);
    forall i | 0 <= i < |t.targets| && t.targets[i].deviceId == d
      ensures t.targets[i].cycle <= QueueOutcome(t, d, deadline).value
    {
      assert t.rows[d].targetId.Some? && i <= t.rows[d].targetId.value;
    }
  }

  lemma CyclesAppended(t: Tables, t': Tables, d: DeviceId, added: Target)
    requires Cycles(t) && Mapped(t') && t'.highCap == t.highCap && t'.maxRetries == t.maxRetries
    requires t'.targets == t.targets + [added] && added.deviceId == d && WithinOwnCap(added, t.highCap)
    requires forall i :: 0 <= i < |t.targets| && t.targets[i].deviceId == d ==> t.targets[i].cycle < added.cycle
    requires d in t.rows && t'.rows.Keys == t.rows.Keys && t'.rows[d].targetId == Some(|t.targets|)
    requires t'.rows[d].dispatchAttempts == added.cycle
    requires forall e :: e in t.rows && e != d ==> t'.rows[e] == t.rows[e]
    ensures Cycles(t')
  {
    forall e | e in t.rows && t.rows[e].targetId.Some? ensures t.rows[e].targetId.value < |t.targets| {
      assert RowMapped(t, e);
    }
  }

  lemma CyclesKeptByQueue(t: Tables, d: DeviceId, deadline: Option<int>)
    requires Cycles(t)
    ensures Cycles(Queue(t, d, deadline))
  {
    MappedQueue(t, d, deadline);
    if QueueOutcome(t, d, deadline).Ok? {
      QueueCycle(t, d, deadline);
      NewTargetWithinCap(t, d, deadline);
      CyclesAppended(t, Queue(t, d, deadline), d, NewTarget(t, d, QueueOutcome(t, d, deadline).value, deadline.value));
    }
  }

  lemma CyclesKept(t: Tables, t': Tables)
    requires Cycles(t) && Mapped(t')
    requires |t'.targets| == |t.targets|
    requires forall i :: 0 <= i < |t.targets| ==>
               t'.targets[i].cycle == t.targets[i].cycle && t'.targets[i].deviceId == t.targets[i].deviceId
               && t'.targets[i].maxRetries == t.targets[i].maxRetries && TargetOk(t'.targets[i])
    requires t'.rows == t.rows || t.targets == []
    requires t.highCap <= t'.highCap && SqlAttemptCap(t'.maxRetries) <= t'.highCap
    ensures Cycles(t')
  {
  }

  lemma CyclesKeptByTarget(t: Tables, index: nat, change: TargetEvent)
    requires Cycles(t)
    ensures Cycles(TargetTables(t, index, change))
  {
    MappedTarget(t, index, change);
    if index < |t.targets| {
      assert WithinOwnCap(t.targets[index], t.highCap);
      TargetStepKeepsIdentity(t.targets[index], change);
      TargetStepOk(t.targets[index], change);
    }
    assert forall i :: 0 <= i < |t.targets| ==> WithinOwnCap(t.targets[i], t.highCap);
    CyclesKept(t, TargetTables(t, index, change));
  }

  lemma CyclesEnvironment(s: State, e: Event)
    requires Cycles(s.tables) && (e.OnTarget? || e.SetMaxRetries? || e.SetQueueable? || e.Restart?)
    ensures Cycles(Step(s, e).tables)
  {
    if e.OnTarget? {
      CyclesKeptByTarget(s.tables, e.index, e.change);
    } else if !e.Restart? {
      MappedColumns(s.tables, Step(s, e).tables);
      assert forall i :: 0 <= i < |s.tables.targets| ==> WithinOwnCap(s.tables.targets[i], s.tables.highCap);
      CyclesKept(s.tables, Step(s, e).tables);
    }
  }

  lemma CyclesScheduler(s: State, e: Event)
    requires Inv(s) && Cycles(s.tables)
    ensures Cycles(SchedulerStep(s, e).tables)
  {
    SchedulerTables(s, e);
    if e.PrepareRows? && s.scheduler.ToPrepare? {
      MappedPrepare(s.tables);
      CyclesKept(s.tables, Prepare(s.tables));
    } else if e.QueueDevice? && s.scheduler.ToQueue? && s.scheduler.devices != [] && e.reading.WindowReading? {
      CyclesKeptByQueue(s.tables, s.scheduler.devices[0], e.reading.deadline);
    }
  }

  lemma CyclesStep(s: State, e: Event)
    requires Inv(s) && Cycles(s.tables)
    ensures Cycles(Step(s, e).tables)
  {
    if e.OnTarget? || e.SetMaxRetries? || e.SetQueueable? || e.Restart? {
      CyclesEnvironment(s, e);
    } else {
      CyclesScheduler(s, e);
    }
  }

  /** In every run, whatever operators retry, the cycle numbers of a device's jobs strictly increase, and each job with its
      own retries fits under the largest cap in force. */
  lemma {:induction false} RunCycles(s: State, events: seq<Event>)
    requires Init(s)
    ensures Cycles(Run(s, events).tables)
  {
    if events == [] {
      InitInv(s);
    } else {
      RunCycles(s, events[..|events| - 1]);
      RunInv(s, events[..|events| - 1]);
      CyclesStep(Run(s, events[..|events| - 1]), events[|events| - 1]);
    }
  }

  lemma {:induction false} HighCapBound(s: State, events: seq<Event>)
    requires Init(s)
    ensures Run(s, events).tables.highCap <= 11
  {
    if events != [] {
      HighCapBound(s, events[..|events| - 1]);
    }
  }

  // ---------------------------------------------------------------- jobs and commands in every run

  function One(t: Target): nat {
    1
  }

  /** The attempts a job could make at most. */
  function Allowance(t: Target): nat {
    1 + t.maxRetries
  }

  /** Strictly increasing cycles from 1 on: there are at most as many jobs as the last cycle. */
  lemma {:induction false} JobsUpToCycle(targets: seq<Target>, d: DeviceId, cap: nat)
    requires forall i :: 0 <= i < |targets| && targets[i].deviceId == d ==> 1 <= targets[i].cycle <= cap
    requires forall i, j :: 0 <= i < j < |targets| && targets[i].deviceId == targets[j].deviceId ==>
               targets[i].cycle < targets[j].cycle
    ensures SumFor(targets, d, One) <= cap
  {
    if targets != [] {
      var n := |targets| - 1;
      if targets[n].deviceId == d {
        JobsUpToCycle(targets[..n], d, targets[n].cycle - 1);
      } else {
        JobsUpToCycle(targets[..n], d, cap);
      }
    }
  }

  /** In every run, whatever operators retry, a device gets at most as many jobs as the largest cap in force. */
  lemma JobsPerDeviceBounded(s: State, events: seq<Event>, d: DeviceId)
    requires Init(s)
    ensures var t := Run(s, events).tables; SumFor(t.targets, d, One) <= t.highCap <= 11
  {
    RunCycles(s, events);
    HighCapBound(s, events);
    var t := Run(s, events).tables;
    assert forall i :: 0 <= i < |t.targets| ==> WithinOwnCap(t.targets[i], t.highCap);
    JobsUpToCycle(t.targets, d, t.highCap);
  }

  /** cap + (cap - 1) + ... over the first k cycles. */
  function Staircase(k: nat, cap: nat): nat
    requires k <= cap
  {
    if k == 0 then 0 else Staircase(k - 1, cap) + (cap - k + 1)
  }

  lemma {:induction false} StaircaseTotal(k: nat, cap: nat)
    requires k <= cap
    ensures 2 * Staircase(k, cap) == k * (2 * cap - k + 1)
  {
    if k > 0 {
      StaircaseTotal(k - 1, cap);
      assert k * (2 * cap - k + 1) == (k - 1) * (2 * cap - (k - 1) + 1) + 2 * (cap - k + 1);
    }
  }

  lemma {:induction false} StaircaseGrows(j: nat, k: nat, cap: nat)
    requires j <= k <= cap
    ensures Staircase(j, cap) <= Staircase(k, cap)
  {
    if j < k {
      StaircaseGrows(j, k - 1, cap);
    }
  }

  lemma {:induction false} AllowanceUpToCycle(targets: seq<Target>, d: DeviceId, k: nat, cap: nat)
    requires k <= cap
    requires forall i :: 0 <= i < |targets| ==> WithinOwnCap(targets[i], cap)
    requires forall i :: 0 <= i < |targets| && targets[i].deviceId == d ==> targets[i].cycle <= k
    requires forall i, j :: 0 <= i < j < |targets| && targets[i].deviceId == targets[j].deviceId ==>
               targets[i].cycle < targets[j].cycle
    ensures SumFor(targets, d, Allowance) <= Staircase(k, cap)
  {
    if targets != [] {
      var n := |targets| - 1;
      var last := targets[n];
      if last.deviceId == d {
        assert WithinOwnCap(last, cap);
        AllowanceUpToCycle(targets[..n], d, last.cycle - 1, cap);
        StaircaseGrows(last.cycle, k, cap);
      } else {
        AllowanceUpToCycle(targets[..n], d, k, cap);
      }
    }
  }

  lemma CommandsAllowed(t: Tables, x: Target)
    requires Cycles(t) && x in t.targets
    ensures Commands(x) <= Allowed(x) <= Allowance(x)
  {
    assert WithinOwnCap(x, t.highCap);
    BoundedSetSize(x.outbox, Allowed(x));
  }

  /** In every run, whatever operators retry, the commands issued for a device are at most cap * (cap + 1) / 2, so 66. */
  lemma CommandsInEveryRun(s: State, events: seq<Event>, d: DeviceId)
    requires Init(s)
    ensures var t := Run(s, events).tables;
            2 * SumFor(t.targets, d, Commands) <= t.highCap * (t.highCap + 1) <= 132
  {
    RunCycles(s, events);
    HighCapBound(s, events);
    var t := Run(s, events).tables;
    forall x <- t.targets ensures Commands(x) <= Allowance(x) {
      CommandsAllowed(t, x);
    }
    SumMonotone(t.targets, d, Commands, Allowance);
    assert forall i :: 0 <= i < |t.targets| ==> WithinOwnCap(t.targets[i], t.highCap);
    AllowanceUpToCycle(t.targets, d, t.highCap, t.highCap);
    StaircaseTotal(t.highCap, t.highCap);
    SquareBound(t.highCap);
  }

  lemma SquareBound(n: nat)
    requires n <= 11
    ensures n * (2 * n - n + 1) == n * (n + 1) <= 132
  {
    assert n * (n + 1) <= 11 * (n + 1) <= 132;
  }

  // ---------------------------------------------------------------- the books of one device

  /** The event is an operator retry that revives the target with this index. */
  predicate RetryOf(t: Tables, e: Event, index: nat) {
    e.OnTarget? && e.index == index && index < |t.targets| && Revives(t.targets[index], e.change)
  }

  /** A retry of one of the device's targets, if the event is one, hits the target the device row points at. */
  ghost predicate RetriesCurrent(s: State, e: Event, d: DeviceId) {
    e.OnTarget? && RetryOf(s.tables, e, e.index) && s.tables.targets[e.index].deviceId == d ==> Current(s.tables, e.index)
  }

  /** The device's replaced targets stay expired, and its columns show every attempt charged to any of its jobs. */
  ghost predicate Books(t: Tables, d: DeviceId) {
    && Cycles(t)
    && (forall i :: 0 <= i < |t.targets| && t.targets[i].deviceId == d && !Current(t, i) ==> t.targets[i].status == Expired)
    && (d in t.rows && t.rows[d].targetId.Some? && t.rows[d].targetId.value < |t.targets| ==>
          SumFor(t.targets, d, Charged) == SpentWith(t.rows[d], t.targets[t.rows[d].targetId.value]))
  }

  lemma CurrentKept(t: Tables, index: nat, target: Target)
    requires index < |t.targets| && target.deviceId == t.targets[index].deviceId
    ensures forall i :: Current(t.(targets := t.targets[index := target]), i) <==> Current(t, i)
  {
  }

  lemma SumFollowsCurrent(t: Tables, index: nat, target: Target, d: DeviceId)
    requires Books(t, d) && index < |t.targets| && target.deviceId == t.targets[index].deviceId
    requires target.deviceId == d && target != t.targets[index] ==> Current(t, index)
    requires d in t.rows && t.rows[d].targetId.Some? && t.rows[d].targetId.value < |t.targets|
    ensures SumFor(t.targets[index := target], d, Charged) ==
            SpentWith(t.rows[d], t.targets[index := target][t.rows[d].targetId.value])
  {
    SumUpdate(t.targets, index, target, d, Charged);
    assert RowMapped(t, d);
  }

  lemma BooksUpdate(t: Tables, index: nat, target: Target, d: DeviceId)
    requires Books(t, d) && index < |t.targets| && target.deviceId == t.targets[index].deviceId
    requires Cycles(t.(targets := t.targets[index := target]))
    requires target.deviceId == d && target != t.targets[index] ==> Current(t, index)
    ensures Books(t.(targets := t.targets[index := target]), d)
  {
    CurrentKept(t, index, target);
    if d in t.rows && t.rows[d].targetId.Some? && t.rows[d].targetId.value < |t.targets| {
      SumFollowsCurrent(t, index, target, d);
    }
  }

  /** Only an operator retry takes a target out of the expired state. */
  lemma ExpiredChangesByRetry(target: Target, change: TargetEvent)
    requires target.status == Expired && TargetStep(target, change) != target
    ensures Revives(target, change)
  {
  }

  lemma BooksTarget(t: Tables, index: nat, change: TargetEvent, d: DeviceId)
    requires Books(t, d) && index < |t.targets|
    requires Revives(t.targets[index], change) && t.targets[index].deviceId == d ==> Current(t, index)
    ensures Books(TargetTables(t, index, change), d)
  {
    CyclesKeptByTarget(t, index, change);
    TargetStepKeepsIdentity(t.targets[index], change);
    if t.targets[index].status == Expired && TargetStep(t.targets[index], change) != t.targets[index] {
      ExpiredChangesByRetry(t.targets[index], change);
    }
    BooksUpdate(t, index, TargetStep(t.targets[index], change), d);
  }

  lemma BooksBeforeQueue(t: Tables, d: DeviceId, deadline: Option<int>)
    requires Books(t, d) && QueueOutcome(t, d, deadline).Ok?
    ensures SumFor(t.targets, d, Charged) == QueueOutcome(t, d, deadline).value
    ensures forall i :: 0 <= i < |t.targets| && t.targets[i].deviceId == d ==> t.targets[i].status == Expired
  {
    JoinedIsCurrent(t, d);
    assert RowMapped(t, d);
    if t.rows[d].targetId.None? {
      SumNone(t.targets, d, Charged);
    }
  }

  lemma BooksOwnQueue(t: Tables, d: DeviceId, deadline: Option<int>)
    requires Books(t, d) && QueueOutcome(t, d, deadline).Ok? && Cycles(Queue(t, d, deadline))
    ensures Books(Queue(t, d, deadline), d)
  {
    var t' := Queue(t, d, deadline);
    BooksBeforeQueue(t, d, deadline);
    SumAppend(t.targets, t'.targets[|t.targets|], d, Charged);
  }

  lemma AppendedCurrent(t: Tables, t': Tables, added: Target, d: DeviceId, i: nat)
    requires t'.targets == t.targets + [added] && i < |t.targets| && t.targets[i].deviceId == d
    requires (d in t'.rows <==> d in t.rows) && (d in t.rows ==> t'.rows[d] == t.rows[d])
    ensures Current(t', i) <==> Current(t, i)
  {
  }

  lemma BooksAppendedOther(t: Tables, t': Tables, added: Target, d: DeviceId)
    requires Books(t, d) && Cycles(t') && t'.targets == t.targets + [added] && added.deviceId != d
    requires (d in t'.rows <==> d in t.rows) && (d in t.rows ==> t'.rows[d] == t.rows[d])
    requires d in t.rows && t.rows[d].targetId.Some? ==> t.rows[d].targetId.value < |t.targets|
    ensures Books(t', d)
  {
    SumAppend(t.targets, added, d, Charged);
    forall i | 0 <= i < |t'.targets| && t'.targets[i].deviceId == d && !Current(t', i) ensures t'.targets[i].status == Expired {
      AppendedCurrent(t, t', added, d, i);
    }
  }

  lemma BooksOtherQueue(t: Tables, e: DeviceId, deadline: Option<int>, d: DeviceId)
    requires Books(t, d) && QueueOutcome(t, e, deadline).Ok? && Cycles(Queue(t, e, deadline)) && d != e
    ensures Books(Queue(t, e, deadline), d)
  {
    if d in t.rows {
      assert RowMapped(t, d);
    }
    BooksAppendedOther(t, Queue(t, e, deadline), NewTarget(t, e, QueueOutcome(t, e, deadline).value, deadline.value), d);
  }

  lemma BooksQueue(t: Tables, e: DeviceId, deadline: Option<int>, d: DeviceId)
    requires Books(t, d)
    ensures Books(Queue(t, e, deadline), d)
  {
    CyclesKeptByQueue(t, e, deadline);
    if QueueOutcome(t, e, deadline).Ok? {
      if d == e {
        BooksOwnQueue(t, d, deadline);
      } else {
        BooksOtherQueue(t, e, deadline, d);
      }
    }
  }

  lemma BooksStep(s: State, e: Event, d: DeviceId)
    requires Inv(s) && Books(s.tables, d) && RetriesCurrent(s, e, d)
    ensures Books(Step(s, e).tables, d)
  {
    CyclesStep(s, e);
    if e.OnTarget? {
      if e.index < |s.tables.targets| {
        BooksTarget(s.tables, e.index, e.change, d);
      }
    } else if !e.SetMaxRetries? && !e.SetQueueable? && !e.Restart? {
      SchedulerTables(s, e);
      if e.QueueDevice? && s.scheduler.ToQueue? && s.scheduler.devices != [] && e.reading.WindowReading? {
        BooksQueue(s.tables, s.scheduler.devices[0], e.reading.deadline, d);
      }
    }
  }

  // ---------------------------------------------------------------- runs whose retries of a device hit its current target

  /** Every operator retry of one of the device's targets, if any, hit the current one; other devices are free. */
  ghost predicate CurrentRetriesOnly(s: State, events: seq<Event>, d: DeviceId) {
    forall j :: 0 <= j < |events| ==> RetriesCurrent(Run(s, events[..j]), events[j], d)
  }

  lemma CurrentRetriesPrefix(s: State, events: seq<Event>, d: DeviceId, n: nat)
    requires CurrentRetriesOnly(s, events, d) && n <= |events|
    ensures CurrentRetriesOnly(s, events[..n], d)
  {
    forall j | 0 <= j < n ensures RetriesCurrent(Run(s, events[..n][..j]), events[..n][j], d) {
      assert events[..n][..j] == events[..j];
      assert RetriesCurrent(Run(s, events[..j]), events[j], d);
    }
  }

  lemma {:induction false} RunBooks(s: State, events: seq<Event>, d: DeviceId)
    requires Init(s) && CurrentRetriesOnly(s, events, d)
    ensures Books(Run(s, events).tables, d)
  {
    if events == [] {
      RunCycles(s, []);
    } else {
      var n := |events| - 1;
      CurrentRetriesPrefix(s, events, d, n);
      RunBooks(s, events[..n], d);
      RunInv(s, events[..n]);
      assert RetriesCurrent(Run(s, events[..n]), events[n], d);
      BooksStep(Run(s, events[..n]), events[n], d);
    }
  }

  /** Retries charged past the current target's own allowance issue no command. */
  lemma SettledTotal(targets: seq<Target>, last: nat, d: DeviceId)
    requires last < |targets| && targets[last].deviceId == d && targets[last].retryCount >= targets[last].maxRetries
    ensures SumFor(targets, d, Allowed) + targets[last].retryCount <= SumFor(targets, d, Charged) + targets[last].maxRetries
  {
    var settled := targets[last].(retryCount := targets[last].maxRetries);
    SumUpdate(targets, last, settled, d, Charged);
    SumUpdate(targets, last, settled, d, Allowed);
    SumMonotone(targets[last := settled], d, Allowed, Charged);
  }

  lemma TotalWithin(t: Tables, d: DeviceId)
    requires Books(t, d) && d in t.rows && t.rows[d].targetId.Some?
    ensures SumFor(t.targets, d, Allowed) <= t.highCap
  {
    assert RowMapped(t, d);
    var last := t.rows[d].targetId.value;
    assert WithinOwnCap(t.targets[last], t.highCap);
    if t.targets[last].retryCount > t.targets[last].maxRetries {
      SettledTotal(t.targets, last, d);
    } else {
      SumMonotone(t.targets, d, Allowed, Charged);
    }
  }

  /** If the retries of a device hit only its current targets, exhausted or not, and whatever is retried for other devices,
      the install commands issued for it never exceed the largest cap in force, which is at most 11. */
  lemma CommandsWithinCap(s: State, events: seq<Event>, d: DeviceId)
    requires Init(s) && CurrentRetriesOnly(s, events, d)
    ensures var t := Run(s, events).tables; SumFor(t.targets, d, Commands) <= t.highCap <= 11
  {
    RunBooks(s, events, d);
    HighCapBound(s, events);
    var t := Run(s, events).tables;
    if d in t.rows && t.rows[d].targetId.Some? {
      forall x <- t.targets ensures Commands(x) <= Allowed(x) {
        CommandsAllowed(t, x);
      }
      SumMonotone(t.targets, d, Commands, Allowed);
      TotalWithin(t, d);
    } else {
      NoJobs(t, d);
      SumNone(t.targets, d, Commands);
    }
  }

  lemma NoJobs(t: Tables, d: DeviceId)
    requires Mapped(t) && (d in t.rows ==> t.rows[d].targetId.None?)
    ensures forall x <- t.targets :: x.deviceId != d
  {
    forall x <- t.targets ensures x.deviceId != d {
      var i :| 0 <= i < |t.targets| && t.targets[i] == x;
      assert d in t.rows ==> RowMapped(t, d);
    }
  }

  // ---------------------------------------------------------------- the accounts, exactly

  /** dispatch_attempts + retry_count is the number of attempts charged to all jobs ever queued for the device. */
  ghost predicate AccountsHold(t: Tables, d: DeviceId) {
    d in t.rows && Joined(t, t.rows[d]).Some? ==>
      SpentWith(t.rows[d], Joined(t, t.rows[d]).value) == SumFor(t.targets, d, Charged)
  }

  lemma BooksAccount(t: Tables, d: DeviceId)
    requires Books(t, d)
    ensures AccountsHold(t, d)
  {
    if d in t.rows {
      JoinedIsCurrent(t, d);
    }
  }

  /** Reviving a replaced target charges an attempt that no column of its device row shows. */
  lemma StaleRetryBreaksAccounts(t: Tables, index: nat, change: TargetEvent)
    requires Mapped(t) && index < |t.targets| && Revives(t.targets[index], change) && !Current(t, index)
    requires AccountsHold(t, t.targets[index].deviceId)
    ensures !AccountsHold(TargetTables(t, index, change), t.targets[index].deviceId)
  {
    var t' := TargetTables(t, index, change);
    var d := t.targets[index].deviceId;
    MappedTarget(t, index, change);
    assert RowMapped(t, d);
    JoinedIsCurrent(t, d);
    JoinedIsCurrent(t', d);
    SumUpdate(t.targets, index, t'.targets[index], d, Charged);
  }

  ghost predicate AccountsAlwaysHold(s: State, events: seq<Event>, d: DeviceId) {
    forall j :: 0 <= j <= |events| ==> AccountsHold(Run(s, events[..j]).tables, d)
  }

  /** The accounts of a device hold throughout a run if and only if every operator retry of one of its targets hit the
      current one. */
  lemma AccountsHoldIffRetriesCurrent(s: State, events: seq<Event>, d: DeviceId)
    requires Init(s)
    ensures AccountsAlwaysHold(s, events, d) <==> CurrentRetriesOnly(s, events, d)
  {
    if CurrentRetriesOnly(s, events, d) {
      forall j | 0 <= j <= |events| ensures AccountsHold(Run(s, events[..j]).tables, d) {
        CurrentRetriesPrefix(s, events, d, j);
        RunBooks(s, events[..j], d);
        BooksAccount(Run(s, events[..j]).tables, d);
      }
    }
    if AccountsAlwaysHold(s, events, d) {
      forall j | 0 <= j < |events| ensures RetriesCurrent(Run(s, events[..j]), events[j], d) {
        AccountsForceCurrent(s, events, d, j);
      }
    }
  }

  lemma AccountsForceCurrent(s: State, events: seq<Event>, d: DeviceId, j: nat)
    requires Init(s) && AccountsAlwaysHold(s, events, d) && j < |events|
    ensures RetriesCurrent(Run(s, events[..j]), events[j], d)
  {
    var before, e := Run(s, events[..j]), events[j];
    RunInv(s, events[..j]);
    assert events[..j + 1][..j] == events[..j];
    assert AccountsHold(Run(s, events[..j]).tables, d) && AccountsHold(Run(s, events[..j + 1]).tables, d);
    if e.OnTarget? && RetryOf(before.tables, e, e.index) && before.tables.targets[e.index].deviceId == d
       && !Current(before.tables, e.index)
    {
      StaleRetryBreaksAccounts(before.tables, e.index, e.change);
    }
  }

  // ---------------------------------------------------------------- the bound, exactly

  /** dispatch_attempts + retry_count is within the largest cap in force; `lenient` allows one more on a failed target. */
  ghost predicate WithinCap(t: Tables, d: DeviceId, lenient: bool) {
    d in t.rows && Joined(t, t.rows[d]).Some? ==>
      var jt := Joined(t, t.rows[d]).value;
      SpentWith(t.rows[d], jt) <= t.highCap + (if lenient && jt.status == Failed then 1 else 0)
  }

  /** The events that charge an attempt to the target; a lease timeout is within the lenient bound by itself. */
  predicate Charges(target: Target, change: TargetEvent, lenient: bool) {
    Revives(target, change) || (!lenient && change.LeaseTimeout? && target.status in {Dispatched, Running})
  }

  /** An event that charges the device's current target finds an attempt left under the largest cap in force. */
  ghost predicate ChargeHasRoom(t: Tables, e: Event, d: DeviceId, lenient: bool) {
    e.OnTarget? && e.index < |t.targets| && t.targets[e.index].deviceId == d && Current(t, e.index)
    && Charges(t.targets[e.index], e.change, lenient) ==>
      SpentWith(t.rows[d], t.targets[e.index]) < t.highCap
  }

  /** What one event of a target does to the sum of its own device. */
  lemma TargetStepSpends(target: Target, change: TargetEvent, cycle: nat, cap: nat, lenient: bool)
    requires cycle + target.maxRetries <= cap
    requires cycle + target.retryCount <= cap + (if lenient && target.status == Failed then 1 else 0)
    ensures var target' := TargetStep(target, change);
            cycle + target'.retryCount <= cap + (if lenient && target'.status == Failed then 1 else 0) <==>
            (Charges(target, change, lenient) ==> cycle + target.retryCount < cap)
  {
  }

  lemma OtherTargetWithinCap(t: Tables, index: nat, change: TargetEvent, d: DeviceId, lenient: bool)
    requires Mapped(t) && WithinCap(t, d, lenient) && !(Current(t, index) && t.targets[index].deviceId == d)
    ensures WithinCap(TargetTables(t, index, change), d, lenient)
  {
    var t' := TargetTables(t, index, change);
    MappedTarget(t, index, change);
    if d in t.rows {
      assert RowMapped(t, d);
      JoinedIsCurrent(t, d);
      JoinedIsCurrent(t', d);
    }
  }

  lemma TargetBoundIffRoom(t: Tables, e: Event, d: DeviceId, lenient: bool)
    requires Cycles(t) && WithinCap(t, d, lenient) && e.OnTarget?
    ensures WithinCap(TargetTables(t, e.index, e.change), d, lenient) <==> ChargeHasRoom(t, e, d, lenient)
  {
    if Current(t, e.index) && t.targets[e.index].deviceId == d {
      var t' := TargetTables(t, e.index, e.change);
      MappedTarget(t, e.index, e.change);
      assert WithinOwnCap(t.targets[e.index], t.highCap);
      JoinedIsCurrent(t, d);
      JoinedIsCurrent(t', d);
      TargetStepSpends(t.targets[e.index], e.change, t.rows[d].dispatchAttempts, t.highCap, lenient);
    } else {
      OtherTargetWithinCap(t, e.index, e.change, d, lenient);
    }
  }

  lemma QueueWithinCap(t: Tables, e: DeviceId, deadline: Option<int>, d: DeviceId, lenient: bool)
    requires Cycles(t) && WithinCap(t, d, lenient)
    ensures WithinCap(Queue(t, e, deadline), d, lenient)
  {
    if QueueOutcome(t, e, deadline).Ok? && d in t.rows {
      var t' := Queue(t, e, deadline);
      MappedQueue(t, e, deadline);
      NewTargetWithinCap(t, e, deadline);
      JoinedIsCurrent(t, d);
      JoinedIsCurrent(t', d);
      assert RowMapped(t, d);
    }
  }

  lemma OtherStepWithinCap(s: State, e: Event, d: DeviceId, lenient: bool)
    requires Inv(s) && Cycles(s.tables) && WithinCap(s.tables, d, lenient) && !e.OnTarget?
    ensures WithinCap(Step(s, e).tables, d, lenient)
  {
    if !e.SetMaxRetries? && !e.SetQueueable? && !e.Restart? {
      SchedulerTables(s, e);
      if e.QueueDevice? && s.scheduler.ToQueue? && s.scheduler.devices != [] && e.reading.WindowReading? {
        QueueWithinCap(s.tables, s.scheduler.devices[0], e.reading.deadline, d, lenient);
      }
    }
  }

  /** One step of any run: the bound of a device survives exactly if an event that charges it has room. */
  lemma BoundStepIffRoom(s: State, e: Event, d: DeviceId, lenient: bool)
    requires Inv(s) && Cycles(s.tables) && WithinCap(s.tables, d, lenient)
    ensures WithinCap(Step(s, e).tables, d, lenient) <==> ChargeHasRoom(s.tables, e, d, lenient)
  {
    if e.OnTarget? {
      TargetBoundIffRoom(s.tables, e, d, lenient);
    } else {
      OtherStepWithinCap(s, e, d, lenient);
    }
  }

  ghost predicate AlwaysWithinCap(s: State, events: seq<Event>, d: DeviceId, lenient: bool) {
    forall j :: 0 <= j <= |events| ==> WithinCap(Run(s, events[..j]).tables, d, lenient)
  }

  ghost predicate ChargesHaveRoom(s: State, events: seq<Event>, d: DeviceId, lenient: bool) {
    forall j :: 0 <= j < |events| ==> ChargeHasRoom(Run(s, events[..j]).tables, events[j], d, lenient)
  }

  lemma BoundStepOfRun(s: State, events: seq<Event>, d: DeviceId, lenient: bool, j: nat)
    requires Init(s) && j < |events| && WithinCap(Run(s, events[..j]).tables, d, lenient)
    ensures WithinCap(Run(s, events[..j + 1]).tables, d, lenient) <==>
            ChargeHasRoom(Run(s, events[..j]).tables, events[j], d, lenient)
  {
    RunInv(s, events[..j]);
    RunCycles(s, events[..j]);
    assert events[..j + 1][..j] == events[..j];
    BoundStepIffRoom(Run(s, events[..j]), events[j], d, lenient);
  }

  lemma {:induction false} RoomKeepsBound(s: State, events: seq<Event>, d: DeviceId, lenient: bool, j: nat)
    requires Init(s) && ChargesHaveRoom(s, events, d, lenient) && j <= |events|
    ensures WithinCap(Run(s, events[..j]).tables, d, lenient)
    decreases j
  {
    if j == 0 {
      assert events[..0] == [];
    } else {
      RoomKeepsBound(s, events, d, lenient, j - 1);
      BoundStepOfRun(s, events, d, lenient, j - 1);
      assert ChargeHasRoom(Run(s, events[..j - 1]).tables, events[j - 1], d, lenient);
    }
  }

  lemma BoundIffRoom(s: State, events: seq<Event>, d: DeviceId, lenient: bool)
    requires Init(s)
    ensures AlwaysWithinCap(s, events, d, lenient) <==> ChargesHaveRoom(s, events, d, lenient)
  {
    if ChargesHaveRoom(s, events, d, lenient) {
      forall j | 0 <= j <= |events| ensures WithinCap(Run(s, events[..j]).tables, d, lenient) {
        RoomKeepsBound(s, events, d, lenient, j);
      }
    }
    if AlwaysWithinCap(s, events, d, lenient) {
      forall j | 0 <= j < |events| ensures ChargeHasRoom(Run(s, events[..j]).tables, events[j], d, lenient) {
        assert WithinCap(Run(s, events[..j]).tables, d, lenient) && WithinCap(Run(s, events[..j + 1]).tables, d, lenient);
        BoundStepOfRun(s, events, d, lenient, j);
      }
    }
  }

  /** In every run: dispatch_attempts + retry_count of a device stays within the largest cap in force, or one above on a
      failed target, if and only if every operator retry of its current target found an attempt left under that cap. */
  lemma BoundHoldsIffRetriesHaveRoom(s: State, events: seq<Event>, d: DeviceId)
    requires Init(s)
    ensures AlwaysWithinCap(s, events, d, true) <==> ChargesHaveRoom(s, events, d, true)
  {
    BoundIffRoom(s, events, d, true);
  }

  /** In every run: it stays within the cap without exception if and only if every retry and every lease timeout of its
      current target found an attempt left. */
  lemma PlainBoundHoldsIffChargesHaveRoom(s: State, events: seq<Event>, d: DeviceId)
    requires Init(s)
    ensures AlwaysWithinCap(s, events, d, false) <==> ChargesHaveRoom(s, events, d, false)
  {
    BoundIffRoom(s, events, d, false);
  }

  /** All three at once, for a device with a job: the accounts and the command bound if its own retries hit its current
      target, and the bound on the columns if they also found room, whatever happens to other devices. */
  lemma AttemptsAccounted(s: State, events: seq<Event>, d: DeviceId)
    requires Init(s) && d in Run(s, events).tables.rows && Run(s, events).tables.rows[d].targetId.Some?
    ensures var t := Run(s, events).tables;
            var row := t.rows[d];
            var jt := Joined(t, row);
            && jt.Some?
            && (CurrentRetriesOnly(s, events, d) ==>
                  && SpentWith(row, jt.value) == SumFor(t.targets, d, Charged)
                  && SumFor(t.targets, d, Commands) <= t.highCap <= 11)
            && (ChargesHaveRoom(s, events, d, true) ==>
                  SpentWith(row, jt.value) <= t.highCap + (if jt.value.status == Failed then 1 else 0))
            && (ChargesHaveRoom(s, events, d, false) ==> SpentWith(row, jt.value) <= t.highCap)
  {
    RunInv(s, events);
    var t := Run(s, events).tables;
    JoinedIsCurrent(t, d);
    if CurrentRetriesOnly(s, events, d) {
      RunBooks(s, events, d);
      BooksAccount(t, d);
      CommandsWithinCap(s, events, d);
    }
    assert events[..|events|] == events;
    if ChargesHaveRoom(s, events, d, true) {
      RoomKeepsBound(s, events, d, true, |events|);
    }
    if ChargesHaveRoom(s, events, d, false) {
      RoomKeepsBound(s, events, d, false, |events|);
    }
  }
}
