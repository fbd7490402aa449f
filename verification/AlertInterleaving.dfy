/**
  Every interleaving of the alert engine: evaluations take the lock, change memory, release it, save, and compensate
  a failed save later, while other evaluations of the same and of other keys run in between. A restart forgets memory
  and outstanding operations and restores the active rows.
 */
module AlertInterleaving {
  import opened Wrappers
  import opened AlertRows

  /** An evaluation after Unlock: its save is outstanding, or was reported as failed and awaits compensation. */
  datatype Operation = Operation(fires: bool, key: Key, alertId: AlertId, row: Row, failed: bool)

  /** History: one entry per incident since the last start, with the cooldown that was in force. */
  datatype Issue = Issue(key: Key, alertId: AlertId, at: int, cooldown: int)

  /**
    History of the incidents since the last start. `closed`: the resolution was saved and reported. `dropped`: the
    resolution failed, and its restore found another incident on the key. `rolledBack`: the firing save failed and the
    incident was cancelled. `unsaved`: the firing save failed when the incident was no longer current. `overtaken`: the
    firing save was carried out after the resolution.
   */
  datatype History = History(
    closed: set<AlertId>,
    dropped: set<AlertId>,
    rolledBack: set<AlertId>,
    unsaved: set<AlertId>,
    overtaken: set<AlertId>)

  const NOTHING := History({}, {}, {}, {}, {})

  /** Alert IDs are issued in increasing order. */
  datatype State = State(
    states: map<Key, AlertState>,
    rows: Rows,
    operations: map<nat, Operation>,
    nextOperation: nat,
    nextId: AlertId,
    issued: seq<Issue>,
    past: History)

  datatype Event =
    | Threshold(key: Key, ruleId: RuleId, shouldFire: bool, now: int, cooldown: int, inMaintenance: bool)
    | Heartbeat(key: Key, ruleId: RuleId, heardAt: int)
    | Stale(key: Key, ruleId: RuleId, watched: bool, now: int, timeout: int, cooldown: int, inMaintenance: bool)
    | Save(operation: nat, outcome: SaveOutcome)
    | Compensate(operation: nat)
    | Acknowledge(tenant: string, alertId: AlertId)
    | Restart(loaded: seq<AlertId>)

  predicate IsSection(e: Event) {
    e.Threshold? || e.Heartbeat? || e.Stale?
  }

  function Known(s: State, key: Key): Option<AlertState> {
    if key in s.states then Some(s.states[key]) else None
  }

  function StateOf(s: State, key: Key): AlertState {
    if key in s.states then s.states[key] else FRESH
  }

  function StartOperation(s: State, op: Operation): State {
    s.(operations := s.operations[s.nextOperation := op], nextOperation := s.nextOperation + 1)
  }

  function FiringRow(key: Key, ruleId: RuleId, now: int): Row {
    Row(key.tenant, ruleId, Correlation(key), RowFiring, now)
  }

  function ResolvedRow(key: Key, ruleId: RuleId, firedAt: int): Row {
    Row(key.tenant, ruleId, Correlation(key), RowResolved, firedAt)
  }

  /** Leave a critical section with its outcome. */
  function Leave(s: State, key: Key, ruleId: RuleId, outcome: Outcome, now: int, cooldown: int): State {
    var s' := s.(states := s.states[key := outcome.state]);
    match outcome
    case Quiet(_) => s'
    case Fire(_) =>
      StartOperation(
        s'.(nextId := s.nextId + 1, issued := s.issued + [Issue(key, s.nextId, now, cooldown)]),
        Operation(true, key, s.nextId, FiringRow(key, ruleId, now), false))
    case Resolve(_, ended, firedAt) =>
      StartOperation(s', Operation(false, key, ended, ResolvedRow(key, ruleId, firedAt), false))
  }

  predicate Executes(s: State, op: Operation, outcome: SaveOutcome) {
    outcome != NotExecuted && SaveAlert(s.rows, op.alertId, op.row).Some?
  }

  function AfterWrite(h: History, op: Operation, outcome: SaveOutcome): History {
    if op.fires then if op.alertId in h.closed then h.(overtaken := h.overtaken + {op.alertId}) else h
    else if outcome == Confirmed then h.(closed := h.closed + {op.alertId})
    else h
  }

  function SaveStep(s: State, i: nat, outcome: SaveOutcome): State
    requires i in s.operations
  {
    var op := s.operations[i];
    if !Executes(s, op, outcome) then s.(operations := s.operations[i := op.(failed := true)])
    else
      s.(rows := SaveAlert(s.rows, op.alertId, op.row).value,
         past := AfterWrite(s.past, op, outcome),
         operations := if outcome == Confirmed then s.operations - {i} else s.operations[i := op.(failed := true)])
  }

  function AfterCompensation(h: History, op: Operation, state: AlertState): History {
    if op.fires then
      if state.alertId == Some(op.alertId) then h.(rolledBack := h.rolledBack + {op.alertId})
      else h.(unsaved := h.unsaved + {op.alertId})
    else if !state.firing && state.alertId == None then h
    else h.(dropped := h.dropped + {op.alertId})
  }

  function CompensateStep(s: State, i: nat): State
    requires i in s.operations
  {
    var op := s.operations[i];
    var s' := s.(operations := s.operations - {i});
    if op.key !in s.states then s'
    else
      var state := s.states[op.key];
      var repaired := if op.fires then RolledBack(state, op.alertId) else RestoredFiring(state, op.alertId);
      s'.(states := s.states[op.key := repaired], past := AfterCompensation(s.past, op, state))
  }

  /** The log of a started engine: the restored incidents. */
  ghost function Seed(rows: Rows, loaded: seq<AlertId>): seq<Issue>
    requires AllActiveRules(rows, loaded)
  {
    seq(|loaded|, i requires 0 <= i < |loaded| => Issue(KeyOfRow(rows[loaded[i]]), loaded[i], rows[loaded[i]].firedAt, 0))
  }

  ghost function Boot(rows: Rows, loaded: seq<AlertId>, nextOperation: nat, nextId: AlertId): State
    requires LoadsActive(rows, loaded)
  {
    State(Restored(rows, loaded), rows, map[], nextOperation, nextId, Seed(rows, loaded), NOTHING)
  }

  ghost function Step(s: State, e: Event): State {
    match e
    case Threshold(key, ruleId, shouldFire, now, cooldown, inMaintenance) =>
      Leave(s, key, ruleId, ThresholdSection(StateOf(s, key), shouldFire, now, cooldown, inMaintenance, s.nextId), now,
            cooldown)
    case Heartbeat(key, ruleId, heardAt) =>
      Leave(s, key, ruleId, HeartbeatSection(Heard(Known(s, key), heardAt)), heardAt, 0)
    case Stale(key, ruleId, watched, now, timeout, cooldown, inMaintenance) =>
      if key in s.states
      then Leave(s, key, ruleId, StaleSection(s.states[key], watched, now, timeout, cooldown, inMaintenance, s.nextId), now,
                 cooldown)
      else s
    case Save(i, outcome) =>
      if i in s.operations && !s.operations[i].failed then SaveStep(s, i, outcome) else s
    case Compensate(i) =>
      if i in s.operations && s.operations[i].failed then CompensateStep(s, i) else s
    case Acknowledge(tenant, id) => s.(rows := Acknowledged(s.rows, tenant, id))
    case Restart(loaded) => if LoadsActive(s.rows, loaded) then Boot(s.rows, loaded, s.nextOperation, s.nextId) else s
  }

  ghost function Run(s: State, events: seq<Event>): State {
    if events == [] then s else Step(Run(s, events[..|events| - 1]), events[|events| - 1])
  }

  /** An engine that has just started over a table with any alerts in it. */
  ghost predicate Init(s: State) {
    TableOk(s.rows, s.nextId)
    && exists loaded :: LoadsActive(s.rows, loaded) && s == Boot(s.rows, loaded, s.nextOperation, s.nextId)
  }

  // ---------------------------------------------------------------- the invariant

  ghost predicate Current(s: State, key: Key, id: AlertId) {
    key in s.states && s.states[key].alertId == Some(id)
  }

  ghost predicate Resolving(s: State, i: nat, id: AlertId) {
    i in s.operations && !s.operations[i].fires && s.operations[i].alertId == id
  }

  ghost predicate FiringSave(s: State, i: nat, id: AlertId) {
    i in s.operations && s.operations[i].fires && s.operations[i].alertId == id
  }

  ghost predicate IssuedFor(s: State, id: AlertId, key: Key) {
    exists n :: 0 <= n < |s.issued| && s.issued[n].alertId == id && s.issued[n].key == key
  }

  /** The incidents that left memory for good. */
  function Gone(s: State): set<AlertId> {
    s.past.closed + s.past.dropped + s.past.rolledBack
  }

  /** IDs are issued once; those of one key in increasing order. */
  ghost predicate IssueOrder(s: State) {
    && (forall m, n :: 0 <= m < n < |s.issued| ==> s.issued[m].alertId != s.issued[n].alertId)
    && (forall m, n :: 0 <= m < n < |s.issued| && s.issued[m].key == s.issued[n].key ==>
          s.issued[m].alertId < s.issued[n].alertId)
    && (forall n :: 0 <= n < |s.issued| ==> s.issued[n].alertId < s.nextId)
  }

  /** An incident is at one place only: current in memory, being resolved by one operation, or gone. */
  ghost predicate OnePlace(s: State) {
    && (forall key: Key, id: AlertId :: Current(s, key, id) ==> IssuedFor(s, id, key) && id !in Gone(s))
    && (forall i: nat, id: AlertId :: Resolving(s, i, id) ==> IssuedFor(s, id, s.operations[i].key) && id !in Gone(s))
    && (forall key: Key, id: AlertId, i: nat :: Current(s, key, id) ==> !Resolving(s, i, id))
    && (forall i: nat, j: nat, id: AlertId :: Resolving(s, i, id) && Resolving(s, j, id) ==> i == j)
  }

  /** The firing save of an incident is outstanding at most once. */
  ghost predicate FiresOnce(s: State) {
    && (forall i: nat, id: AlertId :: FiringSave(s, i, id) ==> IssuedFor(s, id, s.operations[i].key))
    && (forall i: nat, j: nat, id: AlertId :: FiringSave(s, i, id) && FiringSave(s, j, id) ==> i == j)
  }

  ghost predicate Bounded(s: State) {
    && (forall i :: i in s.operations ==> i < s.nextOperation && s.operations[i].alertId < s.nextId)
    && (forall id :: id in Gone(s) ==> id < s.nextId)
    && (forall id :: id in s.past.unsaved || id in s.past.overtaken ==> id < s.nextId)
  }

  /** LastFired is the time of the last incident of the key. */
  ghost predicate LastIssue(s: State) {
    forall n :: 0 <= n < |s.issued| && LatestFor(s, n) ==>
      s.issued[n].key in s.states && s.states[s.issued[n].key].lastFired == Some(s.issued[n].at)
  }

  ghost predicate LatestFor(s: State, n: nat)
    requires n < |s.issued|
  {
    forall m :: n < m < |s.issued| ==> s.issued[m].key != s.issued[n].key
  }

  /** Consecutive incidents of a key start at least the cooldown in force apart. */
  ghost predicate Spaced(s: State) {
    forall m, n :: 0 <= m < n < |s.issued| && s.issued[m].key == s.issued[n].key && NoneBetween(s, m, n) ==>
      s.issued[n].at - s.issued[m].at >= s.issued[n].cooldown
  }

  ghost predicate NoneBetween(s: State, m: nat, n: nat)
    requires m < n < |s.issued|
  {
    forall k :: m < k < n ==> s.issued[k].key != s.issued[n].key
  }

  ghost predicate AllCoherent(s: State) {
    forall key :: key in s.states ==> Coherent(s.states[key])
  }

  /** What an operation would write is a row of its key. */
  ghost predicate OperationRows(s: State) {
    forall i :: i in s.operations ==>
      var op := s.operations[i];
      RowOf(op.row, op.key) && op.row.ruleId != "" && (Active(op.row) <==> op.fires)
  }

  /** The row of an incident belongs to the incident's key. */
  ghost predicate RowOwners(s: State) {
    forall n :: 0 <= n < |s.issued| && s.issued[n].alertId in s.rows ==>
      RowOf(s.rows[s.issued[n].alertId], s.issued[n].key)
  }

  /** The part of the invariant about incidents. */
  ghost predicate Incidents(s: State) {
    AllCoherent(s) && IssueOrder(s) && OnePlace(s) && FiresOnce(s) && Bounded(s) && LastIssue(s) && Spaced(s)
  }

  /** The part about the table. */
  ghost predicate Table(s: State) {
    TableOk(s.rows, s.nextId) && OperationRows(s) && RowOwners(s)
  }

  ghost predicate Inv(s: State) {
    Incidents(s) && Table(s)
  }

  // ---------------------------------------------------------------- the log

  lemma OneKeyPerId(s: State, id: AlertId, k: Key, k': Key)
    requires IssueOrder(s) && IssuedFor(s, id, k) && IssuedFor(s, id, k')
    ensures k == k'
  {
    var m :| 0 <= m < |s.issued| && s.issued[m].alertId == id && s.issued[m].key == k;
    var n :| 0 <= n < |s.issued| && s.issued[n].alertId == id && s.issued[n].key == k';
    assert m == n;
  }

  lemma IssuedBelow(s: State, id: AlertId, key: Key)
    requires IssueOrder(s) && IssuedFor(s, id, key)
    ensures id < s.nextId
  {
    var n :| 0 <= n < |s.issued| && s.issued[n].alertId == id && s.issued[n].key == key;
  }

  lemma IssuedRow(s: State, id: AlertId, key: Key)
    requires RowOwners(s) && IssuedFor(s, id, key) && id in s.rows
    ensures RowOf(s.rows[id], key)
  {
    var n :| 0 <= n < |s.issued| && s.issued[n].alertId == id && s.issued[n].key == key;
  }

  lemma IssuedMeansFired(s: State, id: AlertId, key: Key)
    requires LastIssue(s) && IssuedFor(s, id, key)
    ensures key in s.states && s.states[key].lastFired.Some?
  {
    var n :| 0 <= n < |s.issued| && s.issued[n].alertId == id && s.issued[n].key == key;
    var last := LatestExists(s, n);
  }

  lemma LatestExists(s: State, n: nat) returns (last: nat)
    requires n < |s.issued|
    ensures n <= last < |s.issued| && s.issued[last].key == s.issued[n].key && LatestFor(s, last)
    decreases |s.issued| - n
  {
    if LatestFor(s, n) {
      last := n;
    } else {
      var m :| n < m < |s.issued| && s.issued[m].key == s.issued[n].key;
      last := LatestExists(s, m);
    }
  }

  lemma FireSpacing(s: State, key: Key, now: int, cooldown: int, s': State)
    requires LastIssue(s) && Spaced(s) && !Cooling(StateOf(s, key), now, cooldown)
    requires s'.issued == s.issued + [Issue(key, s.nextId, now, cooldown)]
    ensures Spaced(s')
  {
    forall m, n | 0 <= m < n < |s'.issued| && s'.issued[m].key == s'.issued[n].key && NoneBetween(s', m, n)
      ensures s'.issued[n].at - s'.issued[m].at >= s'.issued[n].cooldown
    {
      if n < |s.issued| {
        forall k | m < k < n ensures s.issued[k].key != s.issued[n].key {
          assert s'.issued[k].key != s'.issued[n].key;
        }
        assert NoneBetween(s, m, n);
      } else {
        LatestBefore(s, s', m);
      }
    }
  }

  lemma LatestBefore(s: State, s': State, m: nat)
    requires m < |s.issued| < |s'.issued| && s'.issued[..|s.issued|] == s.issued
    requires s'.issued[m].key == s'.issued[|s.issued|].key && NoneBetween(s', m, |s.issued|)
    ensures LatestFor(s, m)
  {
    forall k | m < k < |s.issued| ensures s.issued[k].key != s.issued[m].key {
      assert s'.issued[k] == s.issued[k] && s'.issued[m] == s.issued[m];
    }
  }

  lemma FireLastIssue(s: State, key: Key, now: int, cooldown: int, s': State)
    requires LastIssue(s)
    requires s'.issued == s.issued + [Issue(key, s.nextId, now, cooldown)]
    requires key in s'.states && s'.states[key].lastFired == Some(now)
    requires forall k :: k in s.states && k != key ==> k in s'.states && s'.states[k] == s.states[k]
    ensures LastIssue(s')
  {
    forall n | 0 <= n < |s'.issued| && LatestFor(s', n)
      ensures s'.issued[n].key in s'.states && s'.states[s'.issued[n].key].lastFired == Some(s'.issued[n].at)
    {
      if n < |s.issued| {
        assert s'.issued[|s.issued|].key != s'.issued[n].key;
        assert forall m :: n < m < |s.issued| ==> s'.issued[m] == s.issued[m];
        assert LatestFor(s, n);
      }
    }
  }

  /** Changes that leave the issue log alone keep its order and spacing. */
  lemma SameLog(s: State, s': State)
    requires IssueOrder(s) && Spaced(s) && s'.issued == s.issued && s'.nextId == s.nextId
    ensures IssueOrder(s') && Spaced(s')
    ensures forall id, k :: IssuedFor(s', id, k) <==> IssuedFor(s, id, k)
  {
    assert forall m, n :: 0 <= m < n < |s.issued| ==> NoneBetween(s', m, n) == NoneBetween(s, m, n);
  }

  lemma SameLastIssue(s: State, s': State)
    requires LastIssue(s) && s'.issued == s.issued
    requires forall k :: k in s.states ==> k in s'.states && s'.states[k].lastFired == s.states[k].lastFired
    ensures LastIssue(s')
  {
    assert forall n :: 0 <= n < |s.issued| ==> LatestFor(s', n) == LatestFor(s, n);
  }

  lemma LogGrows(s: State, s': State, key: Key, now: int, cooldown: int)
    requires IssueOrder(s) && s'.issued == s.issued + [Issue(key, s.nextId, now, cooldown)] && s'.nextId == s.nextId + 1
    ensures IssueOrder(s')
    ensures forall id, k :: IssuedFor(s', id, k) <==> IssuedFor(s, id, k) || (id == s.nextId && k == key)
  {
    assert s'.issued[|s.issued|] == Issue(key, s.nextId, now, cooldown);
    forall id, k ensures IssuedFor(s', id, k) <==> IssuedFor(s, id, k) || (id == s.nextId && k == key) {
      if IssuedFor(s, id, k) {
        var n :| 0 <= n < |s.issued| && s.issued[n].alertId == id && s.issued[n].key == k;
        assert s'.issued[n] == s.issued[n];
      }
    }
  }

  // ---------------------------------------------------------------- a new incident

  lemma FireKeepsPlace(s: State, key: Key, ruleId: RuleId, state: AlertState, now: int, cooldown: int)
    requires IssueOrder(s) && OnePlace(s) && Bounded(s) && state.alertId == Some(s.nextId)
    ensures OnePlace(Leave(s, key, ruleId, Fire(state), now, cooldown))
  {
    var s' := Leave(s, key, ruleId, Fire(state), now, cooldown);
    LogGrows(s, s', key, now, cooldown);
    assert Gone(s') == Gone(s);
    assert forall i: nat, id: AlertId :: Resolving(s', i, id) <==> Resolving(s, i, id);
    assert forall k: Key, id: AlertId :: Current(s', k, id) ==> Current(s, k, id) || (k == key && id == s.nextId);
    assert forall i: nat, id: AlertId :: Resolving(s, i, id) ==> id < s.nextId;
  }

  lemma FireKeepsRest(s: State, key: Key, ruleId: RuleId, state: AlertState, now: int, cooldown: int)
    requires IssueOrder(s) && FiresOnce(s) && Bounded(s) && AllCoherent(s) && Coherent(state)
    ensures var s' := Leave(s, key, ruleId, Fire(state), now, cooldown);
            IssueOrder(s') && FiresOnce(s') && Bounded(s') && AllCoherent(s')
  {
    var s' := Leave(s, key, ruleId, Fire(state), now, cooldown);
    LogGrows(s, s', key, now, cooldown);
    assert Gone(s') == Gone(s);
    assert forall i: nat, id: AlertId :: FiringSave(s', i, id) <==>
      FiringSave(s, i, id) || (i == s.nextOperation && id == s.nextId);
    assert forall i: nat, id: AlertId :: FiringSave(s, i, id) ==> id < s.nextId;
  }

  lemma FireKeeps(s: State, key: Key, ruleId: RuleId, before: AlertState, now: int, cooldown: int)
    requires Inv(s) && SameIncident(StateOf(s, key), before)
    requires !before.firing && !Cooling(before, now, cooldown)
    ensures Inv(Leave(s, key, ruleId, Fire(Fired(before, s.nextId, now)), now, cooldown))
  {
    var state := Fired(before, s.nextId, now);
    var s' := Leave(s, key, ruleId, Fire(state), now, cooldown);
    FireKeepsPlace(s, key, ruleId, state, now, cooldown);
    FireKeepsRest(s, key, ruleId, state, now, cooldown);
    FireLastIssue(s, key, now, cooldown, s');
    FireSpacing(s, key, now, cooldown, s');
    FireTable(s, key, ruleId, state, now, cooldown);
  }

  lemma FireTable(s: State, key: Key, ruleId: RuleId, state: AlertState, now: int, cooldown: int)
    requires Table(s)
    ensures Table(Leave(s, key, ruleId, Fire(state), now, cooldown))
  {
    var s' := Leave(s, key, ruleId, Fire(state), now, cooldown);
    assert s.nextId !in s.rows;
  }

  // ---------------------------------------------------------------- sections that start nothing

  /** Fewer current incidents and fewer operations leave every incident in one place. */
  lemma PlaceShrinks(s: State, s': State)
    requires OnePlace(s) && FiresOnce(s) && s'.issued == s.issued && Gone(s') == Gone(s)
    requires forall k: Key, id: AlertId :: Current(s', k, id) ==> Current(s, k, id)
    requires forall i :: i in s'.operations ==>
               i in s.operations && s'.operations[i].key == s.operations[i].key
               && s'.operations[i].fires == s.operations[i].fires && s'.operations[i].alertId == s.operations[i].alertId
    ensures OnePlace(s') && FiresOnce(s')
  {
    forall id, k ensures IssuedFor(s', id, k) <==> IssuedFor(s, id, k) {
    }
    assert forall i: nat, id: AlertId :: Resolving(s', i, id) ==> Resolving(s, i, id);
    assert forall i: nat, id: AlertId :: FiringSave(s', i, id) ==> FiringSave(s, i, id);
  }

  lemma QuietKeeps(s: State, key: Key, state: AlertState)
    requires Inv(s) && SameIncident(StateOf(s, key), state)
    ensures Inv(s.(states := s.states[key := state]))
  {
    var s' := s.(states := s.states[key := state]);
    SameLog(s, s');
    SameLastIssue(s, s');
    PlaceShrinks(s, s');
  }

  lemma ResolvePlace(s: State, key: Key, s': State, ended: AlertId)
    requires IssueOrder(s) && OnePlace(s) && FiresOnce(s) && Bounded(s) && Current(s, key, ended)
    requires s'.issued == s.issued && s'.past == s.past
    requires forall k: Key, id: AlertId :: Current(s', k, id) <==> Current(s, k, id) && k != key
    requires forall i: nat, id: AlertId :: Resolving(s', i, id) <==>
               Resolving(s, i, id) || (i == s.nextOperation && id == ended)
    requires forall i: nat, id: AlertId :: FiringSave(s', i, id) <==> FiringSave(s, i, id)
    requires s.nextOperation in s'.operations && s'.operations[s.nextOperation].key == key
    requires forall i :: i in s.operations ==> i in s'.operations && s'.operations[i] == s.operations[i]
    ensures OnePlace(s') && FiresOnce(s')
  {
    forall id, k ensures IssuedFor(s', id, k) <==> IssuedFor(s, id, k) {
    }
    forall k | Current(s, k, ended) ensures k == key {
      OneKeyPerId(s, ended, k, key);
    }
  }

  /** The state after an incident ended: one current incident less, one resolution more. */
  lemma ResolveShape(s: State, key: Key, ruleId: RuleId, before: AlertState, now: int, cooldown: int)
    requires AllCoherent(s) && Bounded(s) && key in s.states && SameIncident(s.states[key], before) && before.firing
    ensures Ended(before).Resolve?
    ensures var s' := Leave(s, key, ruleId, Ended(before), now, cooldown);
            var ended := before.alertId.value;
            && (forall k: Key, id: AlertId :: Current(s', k, id) <==> Current(s, k, id) && k != key)
            && (forall i: nat, id: AlertId :: Resolving(s', i, id) <==>
                  Resolving(s, i, id) || (i == s.nextOperation && id == ended))
            && (forall i: nat, id: AlertId :: FiringSave(s', i, id) <==> FiringSave(s, i, id))
  {
    assert Coherent(s.states[key]);
  }

  lemma ResolveBounded(s: State, key: Key, ruleId: RuleId, before: AlertState, now: int, cooldown: int)
    requires Bounded(s) && AllCoherent(s) && Table(s) && Ended(before).Resolve? && before.alertId.value < s.nextId
    ensures var s' := Leave(s, key, ruleId, Ended(before), now, cooldown); Bounded(s') && AllCoherent(s') && Table(s')
  {
    assert Gone(Leave(s, key, ruleId, Ended(before), now, cooldown)) == Gone(s);
  }

  /** A section that ends an incident leaves the log and every LastFired alone. */
  lemma ResolveLog(s: State, key: Key, ruleId: RuleId, before: AlertState, now: int, cooldown: int)
    requires key in s.states && SameIncident(s.states[key], before) && Ended(before).Resolve?
    ensures var s' := Leave(s, key, ruleId, Ended(before), now, cooldown);
            && s'.issued == s.issued && s'.nextId == s.nextId && s'.past == s.past && s'.rows == s.rows
            && (forall k :: k in s.states ==> k in s'.states && s'.states[k].lastFired == s.states[k].lastFired)
            && s.nextOperation in s'.operations && s'.operations[s.nextOperation].key == key
            && s'.operations == s.operations[s.nextOperation := s'.operations[s.nextOperation]]
  {
  }

  lemma ResolveIncidents(s: State, s': State, key: Key, ended: AlertId)
    requires Incidents(s) && Current(s, key, ended) && AllCoherent(s') && Bounded(s')
    requires s'.issued == s.issued && s'.nextId == s.nextId && s'.past == s.past
    requires forall k :: k in s.states ==> k in s'.states && s'.states[k].lastFired == s.states[k].lastFired
    requires s.nextOperation in s'.operations && s'.operations[s.nextOperation].key == key
    requires s'.operations == s.operations[s.nextOperation := s'.operations[s.nextOperation]]
    requires forall k: Key, id: AlertId :: Current(s', k, id) <==> Current(s, k, id) && k != key
    requires forall i: nat, id: AlertId :: Resolving(s', i, id) <==>
               Resolving(s, i, id) || (i == s.nextOperation && id == ended)
    requires forall i: nat, id: AlertId :: FiringSave(s', i, id) <==> FiringSave(s, i, id)
    ensures Incidents(s')
  {
    SameLog(s, s');
    SameLastIssue(s, s');
    ResolvePlace(s, key, s', ended);
  }

  lemma ResolveKeeps(s: State, key: Key, ruleId: RuleId, before: AlertState, now: int, cooldown: int)
    requires Inv(s) && key in s.states && SameIncident(s.states[key], before) && before.firing
    ensures Ended(before).Resolve?
    ensures Inv(Leave(s, key, ruleId, Ended(before), now, cooldown))
  {
    ResolveShape(s, key, ruleId, before, now, cooldown);
    ResolveLog(s, key, ruleId, before, now, cooldown);
    assert Current(s, key, before.alertId.value);
    IssuedBelow(s, before.alertId.value, key);
    ResolveBounded(s, key, ruleId, before, now, cooldown);
    ResolveIncidents(s, Leave(s, key, ruleId, Ended(before), now, cooldown), key, before.alertId.value);
  }

  // ---------------------------------------------------------------- saves

  lemma ClosePlace(s: State, i: nat, s': State)
    requires OnePlace(s) && FiresOnce(s) && i in s.operations && !s.operations[i].fires
    requires s'.states == s.states && s'.issued == s.issued && s'.operations == s.operations - {i}
    requires Gone(s') == Gone(s) + {s.operations[i].alertId}
    ensures OnePlace(s') && FiresOnce(s')
  {
    assert Resolving(s, i, s.operations[i].alertId);
    forall id, k ensures IssuedFor(s', id, k) <==> IssuedFor(s, id, k) {
    }
    assert forall k: Key, id: AlertId :: Current(s', k, id) <==> Current(s, k, id);
    assert forall j: nat, id: AlertId :: Resolving(s', j, id) <==> Resolving(s, j, id) && j != i;
    assert forall j: nat, id: AlertId :: FiringSave(s', j, id) <==> FiringSave(s, j, id);
  }

  lemma OperationIssued(s: State, i: nat)
    requires OnePlace(s) && FiresOnce(s) && i in s.operations
    ensures IssuedFor(s, s.operations[i].alertId, s.operations[i].key)
  {
    var id := s.operations[i].alertId;
    assert Resolving(s, i, id) || FiringSave(s, i, id);
  }

  /** A carried-out save changes the row of its own incident only, which is a row of the incident's key. */
  lemma SavedRow(s: State, op: Operation)
    requires RowOwners(s) && RowOf(op.row, op.key) && (Active(op.row) <==> op.fires) && IssuedFor(s, op.alertId, op.key)
    requires SaveAlert(s.rows, op.alertId, op.row).Some?
    ensures var rows' := SaveAlert(s.rows, op.alertId, op.row).value;
            && op.alertId in rows' && rows' == s.rows[op.alertId := rows'[op.alertId]]
            && RowOf(rows'[op.alertId], op.key) && (Active(rows'[op.alertId]) <==> op.fires)
            && (op.alertId in s.rows ==> rows'[op.alertId] == s.rows[op.alertId].(status := op.row.status))
            && (op.alertId !in s.rows ==> rows'[op.alertId] == op.row)
  {
    if op.alertId in s.rows {
      IssuedRow(s, op.alertId, op.key);
    }
  }

  lemma OwnersKept(s: State, s': State, op: Operation)
    requires IssueOrder(s) && RowOwners(s) && IssuedFor(s, op.alertId, op.key) && s'.issued == s.issued
    requires op.alertId in s'.rows && s'.rows == s.rows[op.alertId := s'.rows[op.alertId]] && RowOf(s'.rows[op.alertId], op.key)
    ensures RowOwners(s')
  {
    forall n | 0 <= n < |s'.issued| && s'.issued[n].alertId in s'.rows
      ensures RowOf(s'.rows[s'.issued[n].alertId], s'.issued[n].key)
    {
      if s.issued[n].alertId == op.alertId {
        assert IssuedFor(s, op.alertId, s.issued[n].key);
        OneKeyPerId(s, op.alertId, s.issued[n].key, op.key);
      }
    }
  }

  lemma SavedTable(s: State, op: Operation, s': State)
    requires IssueOrder(s) && Table(s) && IssuedFor(s, op.alertId, op.key) && SaveAlert(s.rows, op.alertId, op.row).Some?
    requires RowOf(op.row, op.key) && (Active(op.row) <==> op.fires) && op.row.ruleId != "" && op.alertId < s.nextId
    requires s'.rows == SaveAlert(s.rows, op.alertId, op.row).value && s'.issued == s.issued && s'.nextId == s.nextId
    ensures TableOk(s'.rows, s'.nextId) && RowOwners(s')
  {
    SavedRow(s, op);
    OwnersKept(s, s', op);
    SaveKeepsTable(s.rows, op.alertId, op.row, s.nextId);
  }

  lemma SaveOperationRows(s: State, i: nat, s': State)
    requires OperationRows(s) && i in s.operations
    requires s'.operations == s.operations - {i} || s'.operations == s.operations[i := s.operations[i].(failed := true)]
    ensures OperationRows(s')
  {
  }

  lemma SaveTable(s: State, i: nat, outcome: SaveOutcome, s': State)
    requires IssueOrder(s) && Bounded(s) && Table(s) && i in s.operations
    requires IssuedFor(s, s.operations[i].alertId, s.operations[i].key)
    requires s'.issued == s.issued && s'.nextId == s.nextId
    requires s'.operations == s.operations - {i} || s'.operations == s.operations[i := s.operations[i].(failed := true)]
    requires var op := s.operations[i];
             s'.rows == if Executes(s, op, outcome) then SaveAlert(s.rows, op.alertId, op.row).value else s.rows
    ensures Table(s')
  {
    SaveOperationRows(s, i, s');
    if Executes(s, s.operations[i], outcome) {
      SavedTable(s, s.operations[i], s');
    }
  }

  /** What a save does, apart from the row it writes. */
  lemma SaveShape(s: State, i: nat, outcome: SaveOutcome)
    requires i in s.operations
    ensures var s', op := SaveStep(s, i, outcome), s.operations[i];
            && s'.states == s.states && s'.issued == s.issued && s'.nextId == s.nextId && s'.nextOperation == s.nextOperation
            && (s'.operations == s.operations - {i} || s'.operations == s.operations[i := op.(failed := true)])
            && s'.past.dropped == s.past.dropped && s'.past.rolledBack == s.past.rolledBack
            && s'.past.unsaved == s.past.unsaved && s.past.closed <= s'.past.closed <= s.past.closed + {op.alertId}
            && s.past.overtaken <= s'.past.overtaken <= s.past.overtaken + {op.alertId}
            && (if Executes(s, op, outcome) && !op.fires && outcome == Confirmed
                then Gone(s') == Gone(s) + {op.alertId} && s'.operations == s.operations - {i}
                else Gone(s') == Gone(s))
  {
  }

  lemma SaveIncidents(s: State, i: nat, s': State)
    requires Incidents(s) && i in s.operations
    requires s'.states == s.states && s'.issued == s.issued && s'.nextId == s.nextId && s'.nextOperation == s.nextOperation
    requires s'.operations == s.operations - {i} || s'.operations == s.operations[i := s.operations[i].(failed := true)]
    requires s'.past.unsaved == s.past.unsaved && s'.past.overtaken <= s.past.overtaken + {s.operations[i].alertId}
    requires Gone(s') == Gone(s)
             || (Gone(s') == Gone(s) + {s.operations[i].alertId} && !s.operations[i].fires && s'.operations == s.operations - {i})
    ensures Incidents(s')
  {
    SameLog(s, s');
    SameLastIssue(s, s');
    if Gone(s') == Gone(s) {
      PlaceShrinks(s, s');
    } else {
      ClosePlace(s, i, s');
    }
  }

  lemma SaveKeeps(s: State, i: nat, outcome: SaveOutcome)
    requires Inv(s) && i in s.operations && !s.operations[i].failed
    ensures Inv(SaveStep(s, i, outcome))
  {
    OperationIssued(s, i);
    SaveShape(s, i, outcome);
    SaveTable(s, i, outcome, SaveStep(s, i, outcome));
    SaveIncidents(s, i, SaveStep(s, i, outcome));
  }

  // ---------------------------------------------------------------- compensations

  /** One incident leaves memory: it was current, and it is gone now. */
  lemma CancelPlace(s: State, i: nat, s': State)
    requires IssueOrder(s) && OnePlace(s) && FiresOnce(s) && i in s.operations && s.operations[i].fires
    requires s'.issued == s.issued && s'.operations == s.operations - {i}
    requires Current(s, s.operations[i].key, s.operations[i].alertId)
    requires Gone(s') == Gone(s) + {s.operations[i].alertId}
    requires forall k: Key, id: AlertId :: Current(s', k, id) <==> Current(s, k, id) && k != s.operations[i].key
    ensures OnePlace(s') && FiresOnce(s')
  {
    var op := s.operations[i];
    forall id, k ensures IssuedFor(s', id, k) <==> IssuedFor(s, id, k) {
    }
    forall k | Current(s, k, op.alertId) ensures k == op.key {
      OneKeyPerId(s, op.alertId, k, op.key);
    }
    assert forall j: nat, id: AlertId :: Resolving(s', j, id) <==> Resolving(s, j, id);
    assert forall j: nat, id: AlertId :: FiringSave(s', j, id) <==> FiringSave(s, j, id) && j != i;
  }

  lemma CancelShape(s: State, i: nat)
    requires AllCoherent(s) && i in s.operations && s.operations[i].fires
    requires Current(s, s.operations[i].key, s.operations[i].alertId)
    ensures var s' := CompensateStep(s, i);
            && Gone(s') == Gone(s) + {s.operations[i].alertId} && AllCoherent(s')
            && s'.issued == s.issued && s'.nextId == s.nextId && s'.nextOperation == s.nextOperation && s'.rows == s.rows
            && s'.operations == s.operations - {i}
            && s'.past.unsaved == s.past.unsaved && s'.past.overtaken == s.past.overtaken
            && (forall k :: k in s.states ==> k in s'.states && s'.states[k].lastFired == s.states[k].lastFired)
            && (forall k: Key, id: AlertId :: Current(s', k, id) <==> Current(s, k, id) && k != s.operations[i].key)
  {
  }

  lemma FewerOperationsBounded(s: State, i: nat, s': State)
    requires Bounded(s) && Table(s) && i in s.operations
    requires s'.issued == s.issued && s'.nextId == s.nextId && s'.nextOperation == s.nextOperation && s'.rows == s.rows
    requires s'.operations == s.operations - {i} && Gone(s') == Gone(s) + {s.operations[i].alertId}
    requires s'.past.unsaved == s.past.unsaved && s'.past.overtaken == s.past.overtaken
    ensures Bounded(s') && Table(s')
  {
  }

  lemma CancelLog(s: State, s': State)
    requires IssueOrder(s) && Spaced(s) && LastIssue(s) && s'.issued == s.issued && s'.nextId == s.nextId
    requires forall k :: k in s.states ==> k in s'.states && s'.states[k].lastFired == s.states[k].lastFired
    ensures IssueOrder(s') && Spaced(s') && LastIssue(s')
  {
    SameLog(s, s');
    SameLastIssue(s, s');
  }

  lemma CancelKeeps(s: State, i: nat)
    requires Inv(s) && i in s.operations && s.operations[i].fires
    requires Current(s, s.operations[i].key, s.operations[i].alertId)
    ensures Inv(CompensateStep(s, i))
  {
    var s' := CompensateStep(s, i);
    CancelShape(s, i);
    CancelLog(s, s');
    FewerOperationsBounded(s, i, s');
    CancelPlace(s, i, s');
  }

  /** The incident is no longer current: nothing to cancel. */
  lemma UnsavedKeeps(s: State, i: nat)
    requires Inv(s) && i in s.operations && s.operations[i].fires
    requires !Current(s, s.operations[i].key, s.operations[i].alertId)
    ensures Inv(CompensateStep(s, i))
  {
    var s' := CompensateStep(s, i);
    assert Gone(s') == Gone(s);
    SameLog(s, s');
    SameLastIssue(s, s');
    PlaceShrinks(s, s');
  }

  lemma RestorePlace(s: State, i: nat, s': State)
    requires OnePlace(s) && FiresOnce(s) && i in s.operations && !s.operations[i].fires
    requires s'.issued == s.issued && Gone(s') == Gone(s) && s'.operations == s.operations - {i}
    requires var op := s.operations[i];
             forall k: Key, id: AlertId :: Current(s', k, id) ==> Current(s, k, id) || (k == op.key && id == op.alertId)
    ensures OnePlace(s') && FiresOnce(s')
  {
    assert Resolving(s, i, s.operations[i].alertId);
    forall id, k ensures IssuedFor(s', id, k) <==> IssuedFor(s, id, k) {
    }
    assert forall j: nat, id: AlertId :: Resolving(s', j, id) <==> Resolving(s, j, id) && j != i;
    assert forall j: nat, id: AlertId :: FiringSave(s', j, id) <==> FiringSave(s, j, id);
  }

  /** The key has another incident: the resolution is lost and nothing is restored. */
  lemma DropKeeps(s: State, i: nat)
    requires Inv(s) && i in s.operations && !s.operations[i].fires
    requires s.operations[i].key in s.states && s.states[s.operations[i].key].firing
    ensures Inv(CompensateStep(s, i))
  {
    var s' := CompensateStep(s, i);
    var op := s.operations[i];
    assert Coherent(s.states[op.key]);
    assert s'.states == s.states;
    assert Gone(s') == Gone(s) + {op.alertId};
    SameLog(s, s');
    SameLastIssue(s, s');
    ClosePlace(s, i, s');
  }

  lemma RestoreKeeps(s: State, i: nat)
    requires Inv(s) && i in s.operations && !s.operations[i].fires
    requires s.operations[i].key in s.states && !s.states[s.operations[i].key].firing
    requires s.states[s.operations[i].key].lastFired.Some?
    ensures Inv(CompensateStep(s, i))
  {
    var s' := CompensateStep(s, i);
    assert Coherent(s.states[s.operations[i].key]);
    assert Gone(s') == Gone(s);
    SameLog(s, s');
    SameLastIssue(s, s');
    RestorePlace(s, i, s');
  }

  lemma CompensateKeeps(s: State, i: nat)
    requires Inv(s) && i in s.operations
    ensures Inv(CompensateStep(s, i))
  {
    var op := s.operations[i];
    OperationIssued(s, i);
    IssuedMeansFired(s, op.alertId, op.key);
    if op.fires {
      if Current(s, op.key, op.alertId) {
        CancelKeeps(s, i);
      } else {
        UnsavedKeeps(s, i);
      }
    } else if s.states[op.key].firing {
      DropKeeps(s, i);
    } else {
      RestoreKeeps(s, i);
    }
  }

  // ---------------------------------------------------------------- acknowledgements and restarts

  lemma AcknowledgeKeeps(s: State, tenant: string, id: AlertId)
    requires Inv(s)
    ensures Inv(Step(s, Acknowledge(tenant, id)))
  {
    var s' := Step(s, Acknowledge(tenant, id));
    AcknowledgeKeepsTable(s.rows, tenant, id, s.nextId);
    SameLog(s, s');
    SameLastIssue(s, s');
    PlaceShrinks(s, s');
  }

  lemma SeedKeys(rows: Rows, loaded: seq<AlertId>, nextId: AlertId, m: nat, n: nat)
    requires TableOk(rows, nextId) && LoadsActive(rows, loaded) && m < n < |loaded|
    ensures Seed(rows, loaded)[m].key != Seed(rows, loaded)[n].key
  {
    var a, b := loaded[m], loaded[n];
    var key := KeyOfRow(rows[a]);
    RowOfItsKey(rows[a]);
    RowOfItsKey(rows[b]);
    if key == KeyOfRow(rows[b]) {
      OneActiveRow(rows, nextId, key, a, b);
    }
  }

  lemma SeedLog(rows: Rows, loaded: seq<AlertId>, nextOperation: nat, nextId: AlertId)
    requires TableOk(rows, nextId) && LoadsActive(rows, loaded)
    ensures var s := Boot(rows, loaded, nextOperation, nextId); IssueOrder(s) && Spaced(s) && RowOwners(s)
    ensures forall key: Key, id: AlertId :: IssuedFor(Boot(rows, loaded, nextOperation, nextId), id, key) <==> ActiveFor(rows, key, id)
  {
    var s := Boot(rows, loaded, nextOperation, nextId);
    forall m, n | 0 <= m < n < |s.issued| ensures s.issued[m].key != s.issued[n].key {
      SeedKeys(rows, loaded, nextId, m, n);
    }
    forall n | 0 <= n < |s.issued| ensures ActiveFor(rows, s.issued[n].key, s.issued[n].alertId) {
      RowOfItsKey(rows[loaded[n]]);
    }
    forall key: Key, id: AlertId | ActiveFor(rows, key, id) ensures IssuedFor(s, id, key) {
      var n :| 0 <= n < |loaded| && loaded[n] == id;
      RowOfItsKey(rows[id]);
      OneKeyPerRow(rows[id], key, s.issued[n].key);
    }
  }

  lemma BootLastIssue(rows: Rows, loaded: seq<AlertId>, nextOperation: nat, nextId: AlertId)
    requires TableOk(rows, nextId) && LoadsActive(rows, loaded)
    ensures LastIssue(Boot(rows, loaded, nextOperation, nextId))
  {
    var s := Boot(rows, loaded, nextOperation, nextId);
    RestoredExactly(rows, loaded, nextId);
    forall n | 0 <= n < |s.issued|
      ensures s.issued[n].key in s.states && s.states[s.issued[n].key].lastFired == Some(s.issued[n].at)
    {
      var id, key := loaded[n], s.issued[n].key;
      RowOfItsKey(rows[id]);
      assert ActiveFor(rows, key, id) && id in loaded;
      assert RestoredEntry(rows, loaded, key, s.states[key]);
      OneActiveRow(rows, nextId, key, id, s.states[key].alertId.value);
    }
  }

  lemma BootCurrent(rows: Rows, loaded: seq<AlertId>, nextOperation: nat, nextId: AlertId, key: Key, id: AlertId)
    requires TableOk(rows, nextId) && LoadsActive(rows, loaded)
    ensures Current(Boot(rows, loaded, nextOperation, nextId), key, id) <==> ActiveFor(rows, key, id)
  {
    var s := Boot(rows, loaded, nextOperation, nextId);
    RestoredExactly(rows, loaded, nextId);
    if key in s.states {
      assert RestoredEntry(rows, loaded, key, s.states[key]);
    }
    if ActiveFor(rows, key, id) {
      assert id in loaded;
      assert RestoredEntry(rows, loaded, key, s.states[key]);
      OneActiveRow(rows, nextId, key, id, s.states[key].alertId.value);
    }
  }

  /** A start establishes the invariant by the table's own guarantees. */
  lemma BootInv(rows: Rows, loaded: seq<AlertId>, nextOperation: nat, nextId: AlertId)
    requires TableOk(rows, nextId) && LoadsActive(rows, loaded)
    ensures Inv(Boot(rows, loaded, nextOperation, nextId))
  {
    var s := Boot(rows, loaded, nextOperation, nextId);
    SeedLog(rows, loaded, nextOperation, nextId);
    BootLastIssue(rows, loaded, nextOperation, nextId);
    RestoredExactly(rows, loaded, nextId);
    forall key | key in s.states ensures Coherent(s.states[key]) {
      assert RestoredEntry(rows, loaded, key, s.states[key]);
    }
    forall key: Key, id: AlertId ensures Current(s, key, id) <==> ActiveFor(rows, key, id) {
      BootCurrent(rows, loaded, nextOperation, nextId, key, id);
    }
    assert Gone(s) == {};
  }

  // ---------------------------------------------------------------- every step, every run

  /** What a section may decide from a state. */
  predicate Allowed(before: AlertState, outcome: Outcome, now: int, cooldown: int, id: AlertId) {
    match outcome
    case Quiet(state) => SameIncident(before, state)
    case Fire(state) => !before.firing && !Cooling(before, now, cooldown) && state == Fired(before, id, now)
    case Resolve(_, _, _) => before.firing && outcome == Ended(before)
  }

  lemma SectionKeeps(s: State, key: Key, ruleId: RuleId, before: AlertState, outcome: Outcome, now: int, cooldown: int)
    requires Inv(s) && SameIncident(StateOf(s, key), before)
    requires Allowed(before, outcome, now, cooldown, s.nextId)
    ensures Inv(Leave(s, key, ruleId, outcome, now, cooldown))
  {
    match outcome
    case Quiet(state) => QuietKeeps(s, key, state);
    case Fire(state) => FireKeeps(s, key, ruleId, before, now, cooldown);
    case Resolve(_, _, _) => ResolveKeeps(s, key, ruleId, before, now, cooldown);
  }

  /** Every section event leaves with an allowed outcome of its key's state. */
  lemma SectionShape(s: State, e: Event) returns (before: AlertState, outcome: Outcome, now: int, cooldown: int)
    requires AllCoherent(s) && IsSection(e)
    ensures SameIncident(StateOf(s, e.key), before) && Allowed(before, outcome, now, cooldown, s.nextId)
    ensures Step(s, e) == Leave(s, e.key, e.ruleId, outcome, now, cooldown) || Step(s, e) == s
  {
    var state := StateOf(s, e.key);
    assert Coherent(state);
    match e {
      case Threshold(key, ruleId, shouldFire, at, pause, inMaintenance) =>
        before, now, cooldown := state, at, pause;
        outcome := ThresholdSection(state, shouldFire, at, pause, inMaintenance, s.nextId);
      case Heartbeat(key, ruleId, heardAt) =>
        before, now, cooldown := Heard(Known(s, key), heardAt), heardAt, 0;
        outcome := HeartbeatSection(before);
      case Stale(key, ruleId, watched, at, timeout, pause, inMaintenance) =>
        before, now, cooldown := state, at, pause;
        outcome := StaleSection(state, watched, at, timeout, pause, inMaintenance, s.nextId);
    }
  }

  lemma InvStep(s: State, e: Event)
    requires Inv(s)
    ensures Inv(Step(s, e))
  {
    if IsSection(e) {
      var before, outcome, now, cooldown := SectionShape(s, e);
      SectionKeeps(s, e.key, e.ruleId, before, outcome, now, cooldown);
    } else if e.Save? {
      if e.operation in s.operations && !s.operations[e.operation].failed {
        SaveKeeps(s, e.operation, e.outcome);
      }
    } else if e.Compensate? {
      if e.operation in s.operations && s.operations[e.operation].failed {
        CompensateKeeps(s, e.operation);
      }
    } else if e.Acknowledge? {
      AcknowledgeKeeps(s, e.tenant, e.alertId);
    } else if LoadsActive(s.rows, e.loaded) {
      BootInv(s.rows, e.loaded, s.nextOperation, s.nextId);
    }
  }

  lemma {:induction false} RunKeepsInv(s: State, events: seq<Event>)
    requires Inv(s)
    ensures Inv(Run(s, events))
  {
    if events != [] {
      RunKeepsInv(s, events[..|events| - 1]);
      InvStep(Run(s, events[..|events| - 1]), events[|events| - 1]);
    }
  }

  lemma RunInv(s: State, events: seq<Event>)
    requires Init(s)
    ensures Inv(Run(s, events))
  {
    var loaded :| LoadsActive(s.rows, loaded) && s == Boot(s.rows, loaded, s.nextOperation, s.nextId);
    BootInv(s.rows, loaded, s.nextOperation, s.nextId);
    RunKeepsInv(s, events);
  }
}
