/** The idempotency key of a queued patch job: fmt.Sprintf("patch:%s:%s:%d", deploymentID, deviceID, cycle). */
module IdempotencyKeys {
  import opened Wrappers
  import opened Strings
  import opened DurableJobs
  import opened RolloutRuns
  import opened AttemptBudget

  function IdempotencyKey(deploymentId: string, deviceId: string, cycle: nat): string {
    "patch:" + deploymentId + ":" + deviceId + ":" + Decimal(cycle)
  }

  /** Keys are injective in deployment, device and cycle (IDs are UUIDs, so they hold no colon). */
  lemma KeyInjective(dep: string, dev: string, cycle: nat, dep': string, dev': string, cycle': nat)
    requires ':' !in dep && ':' !in dev && ':' !in dep' && ':' !in dev'
    requires IdempotencyKey(dep, dev, cycle) == IdempotencyKey(dep', dev', cycle')
    ensures dep == dep' && dev == dev' && cycle == cycle'
  {
    var tail, tail' := dev + ":" + Decimal(cycle), dev' + ":" + Decimal(cycle');
    var key := IdempotencyKey(dep, dev, cycle);
    assert key == "patch:" + (dep + ":" + tail);
    assert key == "patch:" + (dep' + ":" + tail');
    assert key[6..] == dep + ":" + tail == dep' + ":" + tail';
    FirstSeparator(dep, tail, dep', tail', ':');
    FirstSeparator(dev, Decimal(cycle), dev', Decimal(cycle'), ':');
    DecimalInjective(cycle, cycle');
  }

  /** In every run no two jobs of a deployment carry the same key. */
  lemma KeysNeverRepeat(s: State, events: seq<Event>, deploymentId: string, i: nat, j: nat)
    requires Init(s) && ':' !in deploymentId
    requires i < j < |Run(s, events).tables.targets|
    requires forall t <- Run(s, events).tables.targets :: ':' !in t.deviceId
    ensures var targets := Run(s, events).tables.targets;
            IdempotencyKey(deploymentId, targets[i].deviceId, targets[i].cycle)
            != IdempotencyKey(deploymentId, targets[j].deviceId, targets[j].cycle)
  {
    RunCycles(s, events);
    var targets := Run(s, events).tables.targets;
    var a, b := targets[i], targets[j];
    if IdempotencyKey(deploymentId, a.deviceId, a.cycle) == IdempotencyKey(deploymentId, b.deviceId, b.cycle) {
      KeyInjective(deploymentId, a.deviceId, a.cycle, deploymentId, b.deviceId, b.cycle);
    }
  }
}
