/** internal/alerting/engine.go and store.go as they update their state, against the steps of AlertInterleaving. */
module AlertEngine {
  import opened Wrappers
  import opened AlertRows
  import opened AlertInterleaving
  import opened AlertFiring

  class AlertStore {
    var rows: Rows

    constructor (rows: Rows)
      ensures this.rows == rows
    {
      this.rows := rows;
    }

    /** Carried out unless the index or the database refuses; `outcome` is what the database does and reports. */
    method Save(id: AlertId, row: Row, outcome: SaveOutcome) returns (ok: bool)
      modifies this
      ensures ok <==> outcome == Confirmed && SaveAlert(old(rows), id, row).Some?
      ensures rows == if outcome != NotExecuted && SaveAlert(old(rows), id, row).Some?
                      then SaveAlert(old(rows), id, row).value else old(rows)
      ensures ok ==> rows == old(rows)[id := if id in old(rows) then old(rows)[id].(status := row.status) else row]
      ensures outcome == Confirmed && row.status == RowResolved ==> ok
    {
      var stored := if id in rows then rows[id].(status := row.status) else row;
      if outcome == NotExecuted || (Active(stored) && IndexTaken(rows, id, stored)) {
        return false;
      }
      rows := rows[id := stored];
      return outcome == Confirmed;
    }

    method UpdateAlertStatusAcknowledged(tenant: string, id: AlertId) returns (ok: bool)
      modifies this
      ensures rows == Acknowledged(old(rows), tenant, id)
      ensures ok <==> id in old(rows) && old(rows)[id].tenant == tenant && !IndexTaken(old(rows), id, old(rows)[id])
      ensures rows == if ok then old(rows)[id := old(rows)[id].(status := RowAcknowledged)] else old(rows)
    {
      if id !in rows || rows[id].tenant != tenant || IndexTaken(rows, id, rows[id]) {
        return false;
      }
      rows := rows[id := rows[id].(status := RowAcknowledged)];
      return true;
    }
  }

  // ---------------------------------------------------------------- rules

  /** A float64, with its one value that compares with nothing. */
  datatype Float = Number(value: real) | NotANumber

  datatype Condition = GTE | GT | LTE | LT | EQ | NEQ | Unknown

  datatype Rule = Rule(id: RuleId, condition: Condition, threshold: Float, timeout: int, cooldown: int, heartbeat: bool,
                       enabled: bool)

  function Violates(rule: Rule, value: Float): bool {
    if value.NotANumber? || rule.threshold.NotANumber? then rule.condition == NEQ
    else
      match rule.condition
      case GTE => value.value >= rule.threshold.value
      case GT => value.value > rule.threshold.value
      case LTE => value.value <= rule.threshold.value
      case LT => value.value < rule.threshold.value
      case EQ => value.value == rule.threshold.value
      case NEQ => value.value != rule.threshold.value
      case Unknown => false
  }

  /** What each condition's name says; a NaN compares with nothing, and an unknown condition never holds. */
  ghost predicate ComparesAsNamed(rule: Rule, value: Float, holds: bool) {
    && (value.Number? && rule.threshold.Number? ==>
          var v, limit := value.value, rule.threshold.value;
          && (rule.condition == GT ==> (holds <==> v > limit))
          && (rule.condition == GTE ==> (holds <==> v > limit || v == limit))
          && (rule.condition == LT ==> (holds <==> v < limit))
          && (rule.condition == LTE ==> (holds <==> v < limit || v == limit))
          && (rule.condition == EQ ==> (holds <==> v == limit))
          && (rule.condition == NEQ ==> (holds <==> v < limit || v > limit)))
    && (value == NotANumber || rule.threshold == NotANumber ==> (holds <==> rule.condition == NEQ))
    && (rule.condition == Unknown ==> !holds)
  }

  /** Exactly one truth value fits, and it is the one computed. */
  lemma ViolatesAsNamed(rule: Rule, value: Float, holds: bool)
    ensures ComparesAsNamed(rule, value, holds) <==> holds == Violates(rule, value)
  {
  }

  // ---------------------------------------------------------------- scripts

  /** One evaluation: its section, the save of the operation it may start, and the compensation if that fails. */
  function Evaluation(e: Event, operation: nat, outcome: SaveOutcome): seq<Event> {
    [e, Save(operation, outcome), Compensate(operation)]
  }

  lemma {:induction false} RunCons(s: State, e: Event, events: seq<Event>)
    ensures Run(s, [e] + events) == Run(Step(s, e), events)
    decreases |events|
  {
    var whole := [e] + events;
    if events == [] {
      assert whole[..0] == [] && Run(s, []) == s;
    } else {
      var n := |events| - 1;
      RunCons(s, e, events[..n]);
      assert whole[..n + 1] == [e] + events[..n] && whole[n + 1] == events[n] && |whole| == n + 2;
    }
  }

  lemma RunEvaluation(s: State, e: Event, operation: nat, outcome: SaveOutcome)
    ensures Run(s, Evaluation(e, operation, outcome)) == Step(Step(Step(s, e), Save(operation, outcome)), Compensate(operation))
  {
    var a, b := Save(operation, outcome), Compensate(operation);
    RunCons(s, e, [a, b]);
    RunCons(Step(s, e), a, [b]);
    RunCons(Step(Step(s, e), a), b, []);
    assert [e] + [a, b] == Evaluation(e, operation, outcome) && [a] + [b] == [a, b] && [b] + [] == [b];
  }

  /** One entry of the map that checkStaleHeartbeats walks, with the outcome of the save it may need. */
  datatype StaleEntry = StaleEntry(key: Key, rule: Rule, inMaintenance: bool, outcome: SaveOutcome)

  function StaleEvent(entry: StaleEntry, now: int): Event {
    Stale(entry.key, entry.rule.id, entry.rule.enabled && entry.rule.heartbeat, now, entry.rule.timeout,
          entry.rule.cooldown, entry.inMaintenance)
  }

  function StaleScript(entries: seq<StaleEntry>, now: int): seq<Event> {
    seq(|entries|, i requires 0 <= i < |entries| => StaleEvent(entries[i], now))
  }

  datatype Pending = Pending(operation: nat, outcome: SaveOutcome)

  /** The operations that the sections of a stale check start, in order. */
  ghost function Started(s: State, entries: seq<StaleEntry>, now: int): seq<Pending> {
    if entries == [] then []
    else
      var n := |entries| - 1;
      var before := Run(s, StaleScript(entries[..n], now));
      var after := Step(before, StaleEvent(entries[n], now));
      Started(s, entries[..n], now)
      + if after.nextOperation == before.nextOperation then [] else [Pending(before.nextOperation, entries[n].outcome)]
  }

  function SaveScript(pending: seq<Pending>): seq<Event> {
    if pending == [] then []
    else
      var p := pending[|pending| - 1];
      SaveScript(pending[..|pending| - 1]) + [Save(p.operation, p.outcome), Compensate(p.operation)]
  }

  lemma ScriptSnoc(s: State, entries: seq<StaleEntry>, now: int, n: nat)
    requires n < |entries|
    ensures Run(s, StaleScript(entries[..n + 1], now)) == Step(Run(s, StaleScript(entries[..n], now)), StaleEvent(entries[n], now))
  {
    assert StaleScript(entries[..n + 1], now)[..n] == StaleScript(entries[..n], now);
  }

  lemma SaveSnoc(s: State, pending: seq<Pending>, m: nat)
    requires m < |pending|
    ensures Run(s, SaveScript(pending[..m + 1])) ==
            Step(Step(Run(s, SaveScript(pending[..m])), Save(pending[m].operation, pending[m].outcome)),
                 Compensate(pending[m].operation))
  {
    assert pending[..m + 1][..m] == pending[..m];
    var front, a, b := SaveScript(pending[..m]), Save(pending[m].operation, pending[m].outcome), Compensate(pending[m].operation);
    assert (front + [a, b])[..|front| + 1] == front + [a];
    assert (front + [a])[..|front|] == front;
  }

  // ---------------------------------------------------------------- the engine

  /** An alert that a locked section has decided to save after Unlock. */
  datatype Collected = Collected(fires: bool, key: Key, alertId: AlertId, row: Row)

  ghost predicate Matches(s: State, item: Collected, operation: nat) {
    && operation in s.operations
    && s.operations[operation] == Operation(item.fires, item.key, item.alertId, item.row, false)
  }

  /** Saving and compensating an operation that was not started does nothing. */
  lemma NotStarted(s: State, operation: nat, outcome: SaveOutcome)
    requires operation !in s.operations
    ensures Step(Step(s, Save(operation, outcome)), Compensate(operation)) == s
  {
  }

  predicate Firing(states: map<Key, AlertState>, key: Key) {
    key in states && states[key].firing
  }

  function Entry(states: map<Key, AlertState>, key: Key): AlertState {
    if key in states then states[key] else FRESH
  }

  lemma ThresholdDecides(s: State, rule: Rule, key: Key, value: Float, now: int, inMaintenance: bool, outcome: SaveOutcome)
    requires s.nextOperation !in s.operations && (key in s.states ==> Coherent(s.states[key]))
    ensures var e := Threshold(key, rule.id, Violates(rule, value), now, rule.cooldown, inMaintenance);
            var s' := Evaluated(s, e, outcome);
            && key in s'.states
            && (!Firing(s.states, key) && s.nextId !in s.rows ==>
                  if !InCooldown(Entry(s.states, key), now, rule.cooldown) && !inMaintenance && outcome == Confirmed
                     && NoActiveRow(s.rows, key)
                  then ComparesAsNamed(rule, value, s'.states[key].firing)
                  else !s'.states[key].firing)
            && (Firing(s.states, key) ==>
                  if outcome == Confirmed then ComparesAsNamed(rule, value, s'.states[key].firing) else s'.states[key].firing)
  {
    var s' := Evaluated(s, Threshold(key, rule.id, Violates(rule, value), now, rule.cooldown, inMaintenance), outcome);
    ViolatesAsNamed(rule, value, Firing(s'.states, key));
    if Firing(s.states, key) {
      FiringKeyEndsIff(s, key, rule.id, Violates(rule, value), now, rule.cooldown, inMaintenance, outcome);
    } else if s.nextId !in s.rows {
      QuietKeyFiresIff(s, key, rule.id, Violates(rule, value), now, rule.cooldown, inMaintenance, outcome);
    }
  }

  /** The entries of a map: no key twice. */
  ghost predicate Apart(entries: seq<StaleEntry>) {
    forall i, j :: 0 <= i < j < |entries| ==> entries[i].key != entries[j].key
  }

  /** The entry fires exactly if it fired before or is overdue. */
  ghost predicate MarkedIfOverdue(before: map<Key, AlertState>, after: map<Key, AlertState>, entry: StaleEntry, now: int) {
    && entry.key in before && entry.key in after
    && (after[entry.key].firing <==>
          || before[entry.key].firing
          || Overdue(before[entry.key], entry.rule.enabled && entry.rule.heartbeat, now, entry.rule.timeout,
                     entry.rule.cooldown, entry.inMaintenance))
  }

  /** So do all of them. */
  ghost predicate OverdueMarked(before: map<Key, AlertState>, after: map<Key, AlertState>, entries: seq<StaleEntry>, now: int) {
    Apart(entries) ==> forall i :: 0 <= i < |entries| ==> MarkedIfOverdue(before, after, entries[i], now)
  }

  /** The first n entries are decided, the others as they were. */
  ghost predicate MarkedUpTo(before: map<Key, AlertState>, after: map<Key, AlertState>, entries: seq<StaleEntry>, n: nat, now: int)
    requires n <= |entries|
  {
    && (forall i :: n <= i < |entries| ==>
          entries[i].key in before && entries[i].key in after && after[entries[i].key] == before[entries[i].key])
    && (forall i :: 0 <= i < n ==> MarkedIfOverdue(before, after, entries[i], now))
  }

  lemma MarkNext(before: map<Key, AlertState>, mid: map<Key, AlertState>, after: map<Key, AlertState>, entries: seq<StaleEntry>,
                 n: nat, now: int)
    requires n < |entries| && Apart(entries) && MarkedUpTo(before, mid, entries, n, now)
    requires MarkedIfOverdue(mid, after, entries[n], now) && after == mid[entries[n].key := after[entries[n].key]]
    ensures MarkedUpTo(before, after, entries, n + 1, now)
  {
  }

  lemma {:induction false} ScriptMarks(s: State, entries: seq<StaleEntry>, now: int, n: nat)
    requires n <= |entries| && Apart(entries) && forall i :: 0 <= i < |entries| ==> entries[i].key in s.states
    ensures MarkedUpTo(s.states, Run(s, StaleScript(entries[..n], now)).states, entries, n, now)
  {
    if n > 0 {
      ScriptMarks(s, entries, now, n - 1);
      ScriptSnoc(s, entries, now, n - 1);
      var entry, mid, after := entries[n - 1], Run(s, StaleScript(entries[..n - 1], now)), Run(s, StaleScript(entries[..n], now));
      StaleMarksIff(mid, entry.key, entry.rule.id, entry.rule.enabled && entry.rule.heartbeat, now, entry.rule.timeout,
                    entry.rule.cooldown, entry.inMaintenance);
      MarkNext(s.states, mid.states, after.states, entries, n - 1, now);
    }
  }

  lemma AllScriptMarks(s: State, entries: seq<StaleEntry>, now: int)
    requires forall i :: 0 <= i < |entries| ==> entries[i].key in s.states
    ensures OverdueMarked(s.states, Run(s, StaleScript(entries, now)).states, entries, now)
  {
    if Apart(entries) {
      ScriptMarks(s, entries, now, |entries|);
      assert entries[..|entries|] == entries;
    }
  }

  class Engine {
    const store: AlertStore
    var states: map<Key, AlertState>
    var nextId: AlertId
    /** The engine in the interleaving machine, with its outstanding operations and its history. */
    ghost var machine: State

    ghost predicate Valid()
      reads this, store
    {
      && machine.states == states && machine.rows == store.rows && machine.nextId == nextId
      && forall i :: i in machine.operations ==> i < machine.nextOperation
    }

    constructor (store: AlertStore, nextId: AlertId)
      ensures Valid() && this.store == store && states == map[]
      ensures machine == State(map[], store.rows, map[], 0, nextId, [], NOTHING)
    {
      this.store := store;
      this.states := map[];
      this.nextId := nextId;
      this.machine := State(map[], store.rows, map[], 0, nextId, [], NOTHING);
    }

    method RestoreActiveAlerts(loaded: seq<AlertId>)
      requires Valid() && states == map[] && LoadsActive(store.rows, loaded)
      modifies this
      ensures Valid() && machine == Step(old(machine), Restart(loaded))
    {
      var n := 0;
      while n < |loaded|
        invariant 0 <= n <= |loaded| && nextId == old(nextId) && machine == old(machine)
        invariant states == Restored(store.rows, loaded[..n])
      {
        assert loaded[..n + 1][..n] == loaded[..n];
        var row := store.rows[loaded[n]];
        if row.ruleId != "" && IsRuleKey(row.correlationKey) {
          var key := Key(row.tenant, row.correlationKey[5..]);
          states := states[key := AlertState(true, Some(loaded[n]), Some(row.firedAt), None, 0)];
        }
        n := n + 1;
      }
      assert loaded[..n] == loaded;
      machine := Step(machine, Restart(loaded));
    }

    method RollbackFiringTransition(key: Key, id: AlertId)
      modifies this`states
      ensures states == if key in old(states) then old(states)[key := RolledBack(old(states)[key], id)] else old(states)
    {
      if key in states && states[key].alertId == Some(id) {
        states := states[key := states[key].(firing := false, alertId := None, consecutiveFires := 0)];
      }
    }

    method RestoreFiringTransition(key: Key, id: AlertId)
      modifies this`states
      ensures states == if key in old(states) then old(states)[key := RestoredFiring(old(states)[key], id)] else old(states)
    {
      if key in states && !states[key].firing && states[key].alertId == None {
        states := states[key := states[key].(firing := true, alertId := Some(id))];
      }
    }

    /** The save of an operation just started, and its compensation when it is reported as failed. */
    method SaveAndCompensate(ghost n: nat, item: Collected, outcome: SaveOutcome)
      requires Valid() && Matches(machine, item, n)
      modifies this`states, this`machine, store
      ensures Valid() && nextId == old(nextId)
      ensures machine == Step(Step(old(machine), Save(n, outcome)), Compensate(n))
    {
      var ok := store.Save(item.alertId, item.row, outcome);
      machine := Step(machine, Save(n, outcome));
      if !ok {
        if item.fires {
          RollbackFiringTransition(item.key, item.alertId);
        } else {
          RestoreFiringTransition(item.key, item.alertId);
        }
      }
      machine := Step(machine, Compensate(n));
    }

    /** evaluateThreshold between Lock and Unlock. */
    method ThresholdLocked(rule: Rule, key: Key, shouldFire: bool, now: int, inMaintenance: bool) returns (item: Option<Collected>)
      requires Valid() && (key in states ==> Coherent(states[key]))
      modifies this
      ensures Valid() && machine == Step(old(machine), Threshold(key, rule.id, shouldFire, now, rule.cooldown, inMaintenance))
      ensures item.Some? ==> Matches(machine, item.value, old(machine.nextOperation))
      ensures item.None? ==> old(machine.nextOperation) !in machine.operations
    {
      machine := Step(machine, Threshold(key, rule.id, shouldFire, now, rule.cooldown, inMaintenance));
      if key !in states {
        states := states[key := FRESH];
      }
      var state := states[key];
      if shouldFire && !state.firing {
        if (state.lastFired.Some? && now - state.lastFired.value < rule.cooldown) || inMaintenance {
          return None;
        }
        var id := nextId;
        nextId := nextId + 1;
        states := states[key := AlertState(true, Some(id), Some(now), state.lastHeard, 1)];
        return Some(Collected(true, key, id, Row(key.tenant, rule.id, "rule:" + key.name, RowFiring, now)));
      } else if !shouldFire && state.firing {
        var id, firedAt := state.alertId.value, state.lastFired.value;
        states := states[key := AlertState(false, None, state.lastFired, state.lastHeard, 0)];
        return Some(Collected(false, key, id, Row(key.tenant, rule.id, "rule:" + key.name, RowResolved, firedAt)));
      } else if shouldFire {
        states := states[key := state.(consecutiveFires := state.consecutiveFires + 1)];
      }
      return None;
    }

    method EvaluateThreshold(rule: Rule, key: Key, value: Float, now: int, inMaintenance: bool, outcome: SaveOutcome)
      requires Valid() && (key in states ==> Coherent(states[key]))
      modifies this, store
      ensures Valid()
      ensures machine ==
              Run(old(machine),
                  Evaluation(Threshold(key, rule.id, Violates(rule, value), now, rule.cooldown, inMaintenance),
                             old(machine.nextOperation), outcome))
      ensures key in states
      ensures !Firing(old(states), key) && old(nextId) !in old(store.rows) ==>
                if !InCooldown(Entry(old(states), key), now, rule.cooldown) && !inMaintenance && outcome == Confirmed
                   && NoActiveRow(old(store.rows), key)
                then ComparesAsNamed(rule, value, states[key].firing)
                else !states[key].firing
      ensures Firing(old(states), key) ==>
                if outcome == Confirmed then ComparesAsNamed(rule, value, states[key].firing) else states[key].firing
    {
      ghost var s, n := machine, machine.nextOperation;
      ThresholdDecides(s, rule, key, value, now, inMaintenance, outcome);
      var item := ThresholdLocked(rule, key, Violates(rule, value), now, inMaintenance);
      RunEvaluation(s, Threshold(key, rule.id, Violates(rule, value), now, rule.cooldown, inMaintenance), n, outcome);
      if item.Some? {
        SaveAndCompensate(n, item.value, outcome);
      } else {
        NotStarted(machine, n, outcome);
      }
    }

    /** evaluateHeartbeat between Lock and Unlock. */
    method HeartbeatLocked(rule: Rule, key: Key, lastTime: int) returns (item: Option<Collected>)
      requires Valid() && (key in states ==> Coherent(states[key]))
      modifies this
      ensures Valid() && machine == Step(old(machine), Heartbeat(key, rule.id, lastTime))
      ensures item.Some? ==> Matches(machine, item.value, old(machine.nextOperation))
      ensures item.None? ==> old(machine.nextOperation) !in machine.operations
    {
      machine := Step(machine, Heartbeat(key, rule.id, lastTime));
      if key !in states {
        states := states[key := AlertState(false, None, None, Some(lastTime), 0)];
      } else if states[key].lastHeard.None? || lastTime > states[key].lastHeard.value {
        states := states[key := states[key].(lastHeard := Some(lastTime))];
      }
      var state := states[key];
      if !state.firing {
        return None;
      }
      var id, firedAt := state.alertId.value, state.lastFired.value;
      states := states[key := AlertState(false, None, state.lastFired, state.lastHeard, 0)];
      return Some(Collected(false, key, id, Row(key.tenant, rule.id, "rule:" + key.name, RowResolved, firedAt)));
    }

    method EvaluateHeartbeat(rule: Rule, key: Key, lastTime: int, outcome: SaveOutcome)
      requires Valid() && (key in states ==> Coherent(states[key]))
      modifies this, store
      ensures Valid()
      ensures machine == Run(old(machine), Evaluation(Heartbeat(key, rule.id, lastTime), old(machine.nextOperation), outcome))
      ensures key in states
      ensures states[key].lastHeard == Some(if key in old(states) && old(states)[key].lastHeard.Some?
                                               && old(states)[key].lastHeard.value > lastTime
                                            then old(states)[key].lastHeard.value else lastTime)
      ensures states[key].firing <==> Firing(old(states), key) && outcome != Confirmed
    {
      ghost var s, n := machine, machine.nextOperation;
      HeartbeatEndsIncident(s, key, rule.id, lastTime, outcome);
      var item := HeartbeatLocked(rule, key, lastTime);
      RunEvaluation(s, Heartbeat(key, rule.id, lastTime), n, outcome);
      if item.Some? {
        SaveAndCompensate(n, item.value, outcome);
      } else {
        NotStarted(machine, n, outcome);
      }
    }

    /** One entry of the locked loop of checkStaleHeartbeats. */
    method MarkEntry(entry: StaleEntry, now: int) returns (item: Option<Collected>)
      requires Valid() && entry.key in states
      modifies this
      ensures Valid() && machine == Step(old(machine), StaleEvent(entry, now))
      ensures machine.nextOperation == old(machine.nextOperation) + if item.Some? then 1 else 0
      ensures item.Some? ==> Matches(machine, item.value, old(machine.nextOperation)) && item.value.fires
      ensures forall i :: i in old(machine.operations) ==>
                i in machine.operations && machine.operations[i] == old(machine.operations)[i]
      ensures forall key :: key in old(states) ==> key in states
    {
      var state := states[entry.key];
      machine := Step(machine, StaleEvent(entry, now));
      if state.firing || !entry.rule.enabled || !entry.rule.heartbeat || state.lastHeard.None?
         || now - state.lastHeard.value <= entry.rule.timeout
         || (state.lastFired.Some? && now - state.lastFired.value < entry.rule.cooldown) || entry.inMaintenance
      {
        return None;
      }
      var id := nextId;
      nextId := nextId + 1;
      states := states[entry.key := AlertState(true, Some(id), Some(now), state.lastHeard, 1)];
      return Some(Collected(true, entry.key, id,
                            Row(entry.key.tenant, entry.rule.id, "rule:" + entry.key.name, RowFiring, now)));
    }

    /** The locked loop marks every due entry; the loop after it saves and compensates, entry by entry. */
    method CheckStaleHeartbeats(entries: seq<StaleEntry>, now: int)
      requires Valid() && forall i :: 0 <= i < |entries| ==> entries[i].key in states
      modifies this, store
      ensures Valid()
      ensures machine ==
              Run(Run(old(machine), StaleScript(entries, now)), SaveScript(Started(old(machine), entries, now)))
    {
      var collected, outcomes;
      ghost var started;
      collected, outcomes, started := MarkStale(entries, now);
      SaveCollected(collected, outcomes, started);
    }

    /** One iteration of the locked loop: mark the entry and collect its alert. */
    method CollectEntry(entry: StaleEntry, now: int, collected: seq<Collected>, outcomes: seq<SaveOutcome>, ghost started: seq<Pending>)
      returns (collected': seq<Collected>, outcomes': seq<SaveOutcome>, ghost started': seq<Pending>)
      requires Valid() && entry.key in states && Awaiting(machine, collected, outcomes, started)
      modifies this
      ensures Valid() && machine == Step(old(machine), StaleEvent(entry, now)) && Awaiting(machine, collected', outcomes', started')
      ensures started' == started + if machine.nextOperation == old(machine.nextOperation) then []
                                    else [Pending(old(machine.nextOperation), entry.outcome)]
      ensures forall key :: key in old(states) ==> key in states
    {
      ghost var before := machine;
      var item := MarkEntry(entry, now);
      StillAwaiting(before, machine, collected, outcomes, started);
      if item.None? {
        return collected, outcomes, started;
      }
      ghost var p := Pending(before.nextOperation, entry.outcome);
      OneMoreAwaiting(machine, collected, outcomes, started, item.value, p);
      return collected + [item.value], outcomes + [entry.outcome], started + [p];
    }

    /** The locked loop. */
    method MarkStale(entries: seq<StaleEntry>, now: int)
      returns (collected: seq<Collected>, outcomes: seq<SaveOutcome>, ghost started: seq<Pending>)
      requires Valid() && forall i :: 0 <= i < |entries| ==> entries[i].key in states
      modifies this
      ensures Valid() && machine == Run(old(machine), StaleScript(entries, now))
      ensures started == Started(old(machine), entries, now) && Awaiting(machine, collected, outcomes, started)
      ensures OverdueMarked(old(states), states, entries, now)
    {
      ghost var s := machine;
      collected, outcomes, started := [], [], [];
      var n := 0;
      while n < |entries|
        invariant 0 <= n <= |entries| && Valid()
        invariant machine == Run(s, StaleScript(entries[..n], now)) && started == Started(s, entries[..n], now)
        invariant Awaiting(machine, collected, outcomes, started)
        invariant forall i :: 0 <= i < |entries| ==> entries[i].key in states
      {
        ghost var before := machine;
        collected, outcomes, started := CollectEntry(entries[n], now, collected, outcomes, started);
        StartedSnoc(s, entries, now, n, before, machine);
        n := n + 1;
      }
      assert entries[..n] == entries;
      AllScriptMarks(s, entries, now);
    }

    /** The loop after Unlock. */
    method SaveCollected(collected: seq<Collected>, outcomes: seq<SaveOutcome>, ghost started: seq<Pending>)
      requires Valid() && Awaiting(machine, collected, outcomes, started)
      modifies this, store
      ensures Valid() && machine == Run(old(machine), SaveScript(started))
    {
      ghost var marked := machine;
      var m := 0;
      while m < |collected|
        invariant 0 <= m <= |collected| == |started| && Valid()
        invariant machine == Run(marked, SaveScript(started[..m]))
        invariant forall j :: m <= j < |started| ==> Matches(machine, collected[j], started[j].operation)
      {
        SaveSnoc(marked, started, m);
        ghost var before := machine;
        SaveAndCompensate(started[m].operation, collected[m], outcomes[m]);
        OthersUntouched(before, started[m].operation, outcomes[m]);
        m := m + 1;
      }
      assert started[..m] == started;
    }
  }

  /** The collected alerts are the outstanding operations just started, in order. */
  ghost predicate Awaiting(s: State, collected: seq<Collected>, outcomes: seq<SaveOutcome>, started: seq<Pending>) {
    && |collected| == |outcomes| == |started|
    && (forall j :: 0 <= j < |started| ==>
          started[j].outcome == outcomes[j] && started[j].operation < s.nextOperation
          && Matches(s, collected[j], started[j].operation))
    && (forall i, j :: 0 <= i < j < |started| ==> started[i].operation < started[j].operation)
  }

  lemma StillAwaiting(s: State, s': State, collected: seq<Collected>, outcomes: seq<SaveOutcome>, started: seq<Pending>)
    requires Awaiting(s, collected, outcomes, started) && s.nextOperation <= s'.nextOperation
    requires forall i :: i in s.operations ==> i in s'.operations && s'.operations[i] == s.operations[i]
    ensures Awaiting(s', collected, outcomes, started)
  {
  }

  lemma OneMoreAwaiting(s: State, collected: seq<Collected>, outcomes: seq<SaveOutcome>, started: seq<Pending>, item: Collected,
                        p: Pending)
    requires Awaiting(s, collected, outcomes, started) && Matches(s, item, p.operation) && p.operation < s.nextOperation
    requires forall j :: 0 <= j < |started| ==> started[j].operation < p.operation
    ensures Awaiting(s, collected + [item], outcomes + [p.outcome], started + [p])
  {
  }

  lemma StartedSnoc(s: State, entries: seq<StaleEntry>, now: int, n: nat, before: State, after: State)
    requires n < |entries| && before == Run(s, StaleScript(entries[..n], now)) && after == Step(before, StaleEvent(entries[n], now))
    ensures after == Run(s, StaleScript(entries[..n + 1], now))
    ensures Started(s, entries[..n + 1], now) ==
            Started(s, entries[..n], now)
            + if after.nextOperation == before.nextOperation then [] else [Pending(before.nextOperation, entries[n].outcome)]
  {
    ScriptSnoc(s, entries, now, n);
    assert entries[..n + 1][..n] == entries[..n];
  }

  lemma OthersUntouched(s: State, n: nat, outcome: SaveOutcome)
    requires n in s.operations
    ensures var s' := Step(Step(s, Save(n, outcome)), Compensate(n));
            forall i :: i in s.operations && i != n ==> i in s'.operations && s'.operations[i] == s.operations[i]
  {
  }
}
