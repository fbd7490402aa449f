/** The canary gate and the canary selection of internal/patch/canary_control.go. */
module CanaryControl {

  const DEFAULT_CANARY_PERCENT := 10
  const DEFAULT_CANARY_SUCCESS_THRESHOLD := 90

  /** Counters over the devices of a rollout group (or of a whole deployment). */
  datatype CanaryGate = CanaryGate(total: nat, completed: nat, succeeded: nat, failed: nat) {

    predicate Ready() {
      total > 0 && completed == total
    }

    predicate Passes(thresholdPercent: int) {
      && Ready()
      && 0 <= thresholdPercent <= 100
      && succeeded * 100 >= total * thresholdPercent
    }
  }

  /** The first devices of the (device-ID ordered) eligible list; both clamps of the source are kept. */
  function SelectCanarySubset(deviceIds: seq<string>, canaryPercent: int): (selected: seq<string>) {
    if |deviceIds| == 0 || canaryPercent < 1 || canaryPercent > 100 then []
    else
      var count := (|deviceIds| * canaryPercent + 99) / 100;
      var atLeastOne := if count < 1 then 1 else count;
      var clamped := if atLeastOne > |deviceIds| then |deviceIds| else atLeastOne;
      deviceIds[..clamped]
  }

  /** What GetRemainingDeploymentDevices copies: the eligible devices behind the canary prefix. */
  function RemainingDevices(deviceIds: seq<string>, canaryPercent: int): seq<string> {
    deviceIds[|SelectCanarySubset(deviceIds, canaryPercent)|..]
  }

  /** The selection is the ceiling of n * p / 100, as the least count that reaches the percentage; neither
      clamp is ever taken. */
  lemma SelectionIsCeiling(deviceIds: seq<string>, canaryPercent: int)
    requires deviceIds != [] && 1 <= canaryPercent <= 100
    ensures var selected := SelectCanarySubset(deviceIds, canaryPercent);
            && selected <= deviceIds
            && 1 <= |selected|
            && (|selected| - 1) * 100 < |deviceIds| * canaryPercent <= |selected| * 100
            && |selected| == (|deviceIds| * canaryPercent + 99) / 100
  {
    var n := |deviceIds|;
    var weighted := n * canaryPercent;
    assert n <= weighted <= n * 100 by {
      ProductBounds(n, canaryPercent, 100);
    }
    assert weighted <= (weighted + 99) / 100 * 100 <= weighted + 99;
  }

  lemma ProductBounds(n: nat, p: nat, high: nat)
    requires 1 <= p <= high
    ensures n <= n * p <= n * high
  {
  }

  /** Canary and remaining devices partition the eligible list, in order. */
  lemma SelectionPartitionsEligible(deviceIds: seq<string>, canaryPercent: int)
    ensures SelectCanarySubset(deviceIds, canaryPercent) + RemainingDevices(deviceIds, canaryPercent) == deviceIds
  {
    if deviceIds != [] && 1 <= canaryPercent <= 100 {
      SelectionIsCeiling(deviceIds, canaryPercent);
    }
  }

  /** With the shipped 10% / 90% constants, a single failed canary blocks the broad phase exactly when the
      deployment has at most 90 eligible devices. */
  lemma OneCanaryFailureBlocksUpTo90(deviceIds: seq<string>, gate: CanaryGate)
    requires deviceIds != []
    requires gate.total == |SelectCanarySubset(deviceIds, DEFAULT_CANARY_PERCENT)|
    requires gate.completed == gate.total
    requires gate.failed == 1 && gate.succeeded == gate.total - 1
    ensures gate.Passes(DEFAULT_CANARY_SUCCESS_THRESHOLD) <==> |deviceIds| > 90
  {
    SelectionIsCeiling(deviceIds, DEFAULT_CANARY_PERCENT);
  }
}
