/** When alerts fire and end: one evaluation of internal/alerting/engine.go from its lock to its compensation. */
module AlertFiring {
  import opened Wrappers
  import opened AlertRows
  import opened AlertInterleaving

  /** The state after a section, the save of the operation it may start, and the compensation of that save. */
  ghost function Evaluated(s: State, e: Event, outcome: SaveOutcome): State {
    Step(Step(Step(s, e), Save(s.nextOperation, outcome)), Compensate(s.nextOperation))
  }

  /** Between two evaluations: the next operation and the next alert ID are unused. */
  ghost predicate Fresh(s: State) {
    s.nextOperation !in s.operations && s.nextId !in s.rows
  }

  ghost predicate NoActiveRow(rows: Rows, key: Key) {
    forall id: AlertId :: !ActiveFor(rows, key, id)
  }

  /** Less than the cooldown has passed since the key last fired. */
  predicate InCooldown(state: AlertState, now: int, cooldown: int) {
    match state.lastFired
    case None => false
    case Some(at) => now < at + cooldown
  }

  /** The machine reaches states with unused IDs only. */
  lemma RunsStayFresh(s: State, events: seq<Event>)
    requires Init(s)
    ensures Fresh(Run(s, events))
  {
    RunInv(s, events);
    assert Bounded(Run(s, events)) && TableOk(Run(s, events).rows, Run(s, events).nextId);
  }

  /** The incident is in memory with the next ID, and the table has gained its firing row and nothing else. */
  ghost predicate FiredNow(s: State, s': State, key: Key, ruleId: RuleId, now: int) {
    && key in s'.states && s'.states[key].firing && s'.states[key].alertId == Some(s.nextId)
    && s'.states[key].lastFired == Some(now)
    && s'.rows == s.rows[s.nextId := Row(key.tenant, ruleId, "rule:" + key.name, RowFiring, now)]
  }

  /** The incident has left memory, and of the table only the status of its row may have changed. */
  ghost predicate EndedNow(s: State, s': State, key: Key)
    requires key in s.states && s.states[key].alertId.Some?
  {
    var id := s.states[key].alertId.value;
    && key in s'.states && !s'.states[key].firing && s'.states[key].alertId == None
    && s'.states[key].lastFired == s.states[key].lastFired
    && id in s'.rows && s'.rows[id].status == RowResolved
    && (id in s.rows ==> s'.rows == s.rows[id := s.rows[id].(status := RowResolved)])
  }

  /** The save of a new incident is refused exactly if the key has an active row. */
  lemma FiringSaveAccepted(rows: Rows, id: AlertId, key: Key, ruleId: RuleId, now: int)
    requires id !in rows
    ensures var row := FiringRow(key, ruleId, now);
            if NoActiveRow(rows, key) then SaveAlert(rows, id, row) == Some(rows[id := row])
            else SaveAlert(rows, id, row) == None
  {
    var row := FiringRow(key, ruleId, now);
    if !NoActiveRow(rows, key) {
      var other: AlertId :| ActiveFor(rows, key, other);
      assert IndexTaken(rows, id, row);
    } else if IndexTaken(rows, id, row) {
      var other :| other in rows && other != id && rows[other].tenant == row.tenant
                   && rows[other].correlationKey == row.correlationKey && Active(rows[other]);
      assert ActiveFor(rows, key, other);
    }
  }

  /** After a section that starts an incident, the rest of the evaluation. */
  lemma StartedIncident(s: State, s1: State, key: Key, ruleId: RuleId, state: AlertState, now: int, outcome: SaveOutcome)
    requires Fresh(s) && s1.rows == s.rows && s1.states == s.states[key := Fired(state, s.nextId, now)]
    requires s1.operations ==
             s.operations[s.nextOperation := Operation(true, key, s.nextId, FiringRow(key, ruleId, now), false)]
    ensures var s' := Step(Step(s1, Save(s.nextOperation, outcome)), Compensate(s.nextOperation));
            if outcome == Confirmed && NoActiveRow(s.rows, key) then FiredNow(s, s', key, ruleId, now)
            else key in s'.states && !s'.states[key].firing
  {
    FiringSaveAccepted(s.rows, s.nextId, key, ruleId, now);
  }

  /** After a section that ends one. */
  lemma FinishedIncident(s: State, s1: State, key: Key, ruleId: RuleId, quiet: AlertState, id: AlertId, firedAt: int, outcome: SaveOutcome)
    requires key in s.states && s.states[key].alertId == Some(id)
    requires !quiet.firing && quiet.alertId == None && quiet.lastFired == s.states[key].lastFired
    requires s1.rows == s.rows && s1.states == s.states[key := quiet]
    requires s1.operations ==
             s.operations[s.nextOperation := Operation(false, key, id, ResolvedRow(key, ruleId, firedAt), false)]
    ensures var s' := Step(Step(s1, Save(s.nextOperation, outcome)), Compensate(s.nextOperation));
            if outcome == Confirmed then EndedNow(s, s', key)
            else key in s'.states && s'.states[key].firing && s'.states[key].alertId == Some(id)
  {
  }

  /** A quiet key fires exactly if the rule is violated, the cooldown is over, there is no maintenance, the save is confirmed
      and the key has no active row. */
  lemma QuietKeyFiresIff(s: State, key: Key, ruleId: RuleId, shouldFire: bool, now: int, cooldown: int, inMaintenance: bool,
                         outcome: SaveOutcome)
    requires Fresh(s) && !StateOf(s, key).firing
    ensures var s' := Evaluated(s, Threshold(key, ruleId, shouldFire, now, cooldown, inMaintenance), outcome);
            if shouldFire && !InCooldown(StateOf(s, key), now, cooldown) && !inMaintenance && outcome == Confirmed
               && NoActiveRow(s.rows, key)
            then FiredNow(s, s', key, ruleId, now)
            else key in s'.states && !s'.states[key].firing
  {
    var s1 := Step(s, Threshold(key, ruleId, shouldFire, now, cooldown, inMaintenance));
    if shouldFire && !InCooldown(StateOf(s, key), now, cooldown) && !inMaintenance {
      StartedIncident(s, s1, key, ruleId, StateOf(s, key), now, outcome);
    }
  }

  /** A firing key ends exactly if the rule is no longer violated and the save is confirmed. */
  lemma FiringKeyEndsIff(s: State, key: Key, ruleId: RuleId, shouldFire: bool, now: int, cooldown: int, inMaintenance: bool,
                         outcome: SaveOutcome)
    requires s.nextOperation !in s.operations && key in s.states && s.states[key].firing && Coherent(s.states[key])
    ensures var s' := Evaluated(s, Threshold(key, ruleId, shouldFire, now, cooldown, inMaintenance), outcome);
            if !shouldFire && outcome == Confirmed then EndedNow(s, s', key)
            else key in s'.states && s'.states[key].firing && s'.states[key].alertId == s.states[key].alertId
  {
    var state := s.states[key];
    var s1 := Step(s, Threshold(key, ruleId, shouldFire, now, cooldown, inMaintenance));
    if !shouldFire {
      FinishedIncident(s, s1, key, ruleId, Ended(state).state, state.alertId.value, state.lastFired.value, outcome);
    }
  }

  /** A heartbeat records the later of the two times, ends a firing key if the save is confirmed, and starts nothing. */
  lemma HeartbeatEndsIncident(s: State, key: Key, ruleId: RuleId, heardAt: int, outcome: SaveOutcome)
    requires s.nextOperation !in s.operations && (key in s.states ==> Coherent(s.states[key]))
    ensures var s' := Evaluated(s, Heartbeat(key, ruleId, heardAt), outcome);
            && key in s'.states && s'.states[key].lastHeard.Some?
            && s'.states[key].lastHeard.value ==
               (if StateOf(s, key).lastHeard.Some? && StateOf(s, key).lastHeard.value > heardAt
                then StateOf(s, key).lastHeard.value else heardAt)
            && (if key !in s.states || !s.states[key].firing then !s'.states[key].firing
                else if outcome == Confirmed then EndedNow(s, s', key)
                else s'.states[key].firing && s'.states[key].alertId == s.states[key].alertId)
  {
    var s1 := Step(s, Heartbeat(key, ruleId, heardAt));
    if key in s.states && s.states[key].firing {
      var state := s.states[key];
      FinishedIncident(s, s1, key, ruleId, s1.states[key], state.alertId.value, state.lastFired.value, outcome);
    }
  }

  /** The entry is of an enabled heartbeat rule, has been heard of, not within the timeout, has not fired within the cooldown
      and is not in maintenance. */
  predicate Overdue(state: AlertState, watched: bool, now: int, timeout: int, cooldown: int, inMaintenance: bool) {
    watched && state.lastHeard.Some? && state.lastHeard.value + timeout < now && !InCooldown(state, now, cooldown)
    && !inMaintenance
  }

  /** A quiet entry of the stale check fires exactly if it is overdue, the save is confirmed and the key has no active row. */
  lemma StaleFiresIff(s: State, key: Key, ruleId: RuleId, watched: bool, now: int, timeout: int, cooldown: int,
                      inMaintenance: bool, outcome: SaveOutcome)
    requires Fresh(s) && key in s.states && !s.states[key].firing
    ensures var s' := Evaluated(s, Stale(key, ruleId, watched, now, timeout, cooldown, inMaintenance), outcome);
            if Overdue(s.states[key], watched, now, timeout, cooldown, inMaintenance) && outcome == Confirmed
               && NoActiveRow(s.rows, key)
            then FiredNow(s, s', key, ruleId, now)
            else key in s'.states && !s'.states[key].firing
  {
    var s1 := Step(s, Stale(key, ruleId, watched, now, timeout, cooldown, inMaintenance));
    if Overdue(s.states[key], watched, now, timeout, cooldown, inMaintenance) {
      StartedIncident(s, s1, key, ruleId, s.states[key], now, outcome);
    }
  }

  /** The locked loop: the section of one entry decides for its own key alone. */
  lemma StaleMarksIff(s: State, key: Key, ruleId: RuleId, watched: bool, now: int, timeout: int, cooldown: int, inMaintenance: bool)
    requires key in s.states
    ensures var s' := Step(s, Stale(key, ruleId, watched, now, timeout, cooldown, inMaintenance));
            && s'.states == s.states[key := s'.states[key]]
            && (s'.states[key].firing <==>
                  s.states[key].firing || Overdue(s.states[key], watched, now, timeout, cooldown, inMaintenance))
            && s'.states[key].lastHeard == s.states[key].lastHeard
  {
  }
}
