/** Alert states in memory and alert rows in the store: internal/alerting/engine.go and store.go. */
module AlertRows {
  import opened Wrappers

  /** A state key with the tenant of its rule; the name starts with the rule's ID, so it belongs to one tenant only. */
  datatype Key = Key(tenant: string, name: string)

  type AlertId = nat

  /** A rule ID of the database; a stored row holds the empty string for NULL. */
  type RuleId = s: string | s != "" witness "r"

  /** An empty AlertID and a zero LastFired or LastHeard are None. */
  datatype AlertState = AlertState(
    firing: bool,
    alertId: Option<AlertId>,
    lastFired: Option<int>,
    lastHeard: Option<int>,
    consecutiveFires: nat)

  const FRESH := AlertState(false, None, None, None, 0)

  datatype RowStatus = RowFiring | RowAcknowledged | RowResolved

  datatype Row = Row(tenant: string, ruleId: string, correlationKey: string, status: RowStatus, firedAt: int)

  type Rows = map<AlertId, Row>

  predicate Active(row: Row) {
    row.status != RowResolved
  }

  function Correlation(key: Key): string {
    "rule:" + key.name
  }

  predicate IsRuleKey(correlationKey: string) {
    "rule:" <= correlationKey
  }

  /** The row is of this key's incidents. */
  predicate RowOf(row: Row, key: Key) {
    row.tenant == key.tenant && row.correlationKey == Correlation(key)
  }

  function KeyOfRow(row: Row): Key
    requires IsRuleKey(row.correlationKey)
  {
    Key(row.tenant, row.correlationKey[5..])
  }

  lemma OneKeyPerRow(row: Row, k: Key, k': Key)
    requires RowOf(row, k) && RowOf(row, k')
    ensures k == k'
  {
    assert k.name == Correlation(k)[5..] == Correlation(k')[5..] == k'.name;
  }

  lemma RowOfItsKey(row: Row)
    requires IsRuleKey(row.correlationKey)
    ensures RowOf(row, KeyOfRow(row))
  {
    assert row.correlationKey == "rule:" + row.correlationKey[5..];
  }

  predicate ActiveFor(rows: Rows, key: Key, id: AlertId) {
    id in rows && Active(rows[id]) && RowOf(rows[id], key)
  }

  /** Some other row already holds the entry of the partial unique index on tenant and correlation key. */
  predicate IndexTaken(rows: Rows, id: AlertId, row: Row) {
    exists other ::
      other in rows && other != id && rows[other].tenant == row.tenant && rows[other].correlationKey == row.correlationKey
      && Active(rows[other])
  }

  /** SaveAlert: an upsert on the ID that only ever rewrites the status; None when the unique index rejects it. */
  function SaveAlert(rows: Rows, id: AlertId, row: Row): Option<Rows> {
    var stored := if id in rows then rows[id].(status := row.status) else row;
    if Active(stored) && IndexTaken(rows, id, stored) then None else Some(rows[id := stored])
  }

  /** A statement is carried out and reported, not carried out, or carried out and reported as failed. */
  datatype SaveOutcome = Confirmed | NotExecuted | ExecutedButReportedFailed

  /** UpdateAlertStatus to acknowledged: any row of the tenant, whatever its status, unless the index rejects it. */
  function Acknowledged(rows: Rows, tenant: string, id: AlertId): Rows {
    if id !in rows || rows[id].tenant != tenant || IndexTaken(rows, id, rows[id]) then rows
    else rows[id := rows[id].(status := RowAcknowledged)]
  }

  /** The acknowledgement of a resolved rule alert whose key has no active alert. */
  predicate RevivesRow(rows: Rows, tenant: string, id: AlertId) {
    && id in rows && rows[id].tenant == tenant && rows[id].status == RowResolved && IsRuleKey(rows[id].correlationKey)
    && !IndexTaken(rows, id, rows[id])
  }

  // ---------------------------------------------------------------- the table by itself

  /** The partial unique index, and fresh IDs; rule rows keep their rule ID as long as no rule is deleted. */
  ghost predicate TableOk(rows: Rows, nextId: AlertId) {
    && (forall id :: id in rows ==> id < nextId)
    && (forall id :: id in rows && Active(rows[id]) ==> !IndexTaken(rows, id, rows[id]))
    && (forall id :: id in rows && IsRuleKey(rows[id].correlationKey) ==> rows[id].ruleId != "")
  }

  lemma RowChangeKeepsIndex(rows: Rows, id: AlertId, row: Row)
    requires forall a :: a in rows && Active(rows[a]) ==> !IndexTaken(rows, a, rows[a])
    requires Active(row) ==> !IndexTaken(rows, id, row)
    requires id in rows ==> row.tenant == rows[id].tenant && row.correlationKey == rows[id].correlationKey
    ensures var rows' := rows[id := row];
            forall a :: a in rows' && Active(rows'[a]) ==> !IndexTaken(rows', a, rows'[a])
  {
    var rows' := rows[id := row];
    forall a, b | a in rows' && Active(rows'[a]) && b in rows' && b != a && Active(rows'[b])
      ensures !(rows'[b].tenant == rows'[a].tenant && rows'[b].correlationKey == rows'[a].correlationKey)
    {
      if a != id && b != id {
        assert !IndexTaken(rows, a, rows[a]);
      }
    }
  }

  lemma SaveKeepsTable(rows: Rows, id: AlertId, row: Row, nextId: AlertId)
    requires TableOk(rows, nextId) && id < nextId && row.ruleId != "" && SaveAlert(rows, id, row).Some?
    ensures TableOk(SaveAlert(rows, id, row).value, nextId)
  {
    RowChangeKeepsIndex(rows, id, if id in rows then rows[id].(status := row.status) else row);
  }

  lemma AcknowledgeKeepsTable(rows: Rows, tenant: string, id: AlertId, nextId: AlertId)
    requires TableOk(rows, nextId)
    ensures TableOk(Acknowledged(rows, tenant, id), nextId)
  {
    if Acknowledged(rows, tenant, id) != rows {
      RowChangeKeepsIndex(rows, id, rows[id].(status := RowAcknowledged));
    }
  }

  lemma OneActiveRow(rows: Rows, nextId: AlertId, key: Key, a: AlertId, b: AlertId)
    requires TableOk(rows, nextId) && ActiveFor(rows, key, a) && ActiveFor(rows, key, b)
    ensures a == b
  {
    assert !IndexTaken(rows, a, rows[a]);
  }

  // ---------------------------------------------------------------- load and restore

  /** What LoadActiveAlertStates may return: the active rule rows, each once, in some order. */
  ghost predicate LoadsActive(rows: Rows, loaded: seq<AlertId>) {
    && (forall i, j :: 0 <= i < j < |loaded| ==> loaded[i] != loaded[j])
    && AllActiveRules(rows, loaded)
    && (forall id :: id in rows && Active(rows[id]) && IsRuleKey(rows[id].correlationKey) ==> id in loaded)
  }

  ghost predicate AllActiveRules(rows: Rows, loaded: seq<AlertId>) {
    forall i :: 0 <= i < |loaded| ==>
      loaded[i] in rows && Active(rows[loaded[i]]) && IsRuleKey(rows[loaded[i]].correlationKey)
  }

  function RestoredState(row: Row, id: AlertId): AlertState {
    FRESH.(firing := true, lastFired := Some(row.firedAt), alertId := Some(id))
  }

  /** restoreActiveAlerts on the rows listed so far; later rows overwrite earlier ones of the same key. */
  function Restored(rows: Rows, loaded: seq<AlertId>): map<Key, AlertState>
    requires forall i :: 0 <= i < |loaded| ==> loaded[i] in rows
  {
    if loaded == [] then map[]
    else
      var id := loaded[|loaded| - 1];
      var rest := Restored(rows, loaded[..|loaded| - 1]);
      if rows[id].ruleId == "" || !IsRuleKey(rows[id].correlationKey) then rest
      else rest[KeyOfRow(rows[id]) := RestoredState(rows[id], id)]
  }

  ghost predicate RestoredEntry(rows: Rows, loaded: seq<AlertId>, key: Key, state: AlertState) {
    && state.alertId.Some?
    && var id := state.alertId.value;
       id in loaded && ActiveFor(rows, key, id) && state == RestoredState(rows[id], id)
  }

  /** The restored map holds exactly the loaded incidents, each under its own key. */
  lemma {:induction false} RestoredExactly(rows: Rows, loaded: seq<AlertId>, nextId: AlertId)
    requires TableOk(rows, nextId) && AllActiveRules(rows, loaded)
    ensures forall key :: key in Restored(rows, loaded) ==> RestoredEntry(rows, loaded, key, Restored(rows, loaded)[key])
    ensures forall key: Key, id: AlertId :: id in loaded && ActiveFor(rows, key, id) ==> key in Restored(rows, loaded)
  {
    if loaded != [] {
      var n := |loaded| - 1;
      RestoredExactly(rows, loaded[..n], nextId);
      var id := loaded[n];
      var key := KeyOfRow(rows[id]);
      RowOfItsKey(rows[id]);
      var rest, states := Restored(rows, loaded[..n]), Restored(rows, loaded);
      assert states == rest[key := RestoredState(rows[id], id)];
      forall k: Key, a: AlertId | a in loaded && ActiveFor(rows, k, a) ensures k in states {
        if a !in loaded[..n] {
          assert a == id;
          OneKeyPerRow(rows[id], k, key);
        }
      }
      forall k | k in states ensures RestoredEntry(rows, loaded, k, states[k]) {
        if k != key {
          assert RestoredEntry(rows, loaded[..n], k, rest[k]);
        }
      }
    }
  }

  // ---------------------------------------------------------------- the critical sections

  /** What a locked section decided: only a state change, a new incident, or the end of one. */
  datatype Outcome =
    | Quiet(state: AlertState)
    | Fire(state: AlertState)
    | Resolve(state: AlertState, ended: AlertId, firedAt: int)

  predicate Cooling(state: AlertState, now: int, cooldown: int) {
    state.lastFired.Some? && now - state.lastFired.value < cooldown
  }

  function Fired(state: AlertState, id: AlertId, now: int): AlertState {
    state.(firing := true, lastFired := Some(now), consecutiveFires := 1, alertId := Some(id))
  }

  /** The end of the current incident; a firing state without ID or time would resolve the row with the empty ID. */
  function Ended(state: AlertState): Outcome {
    var quiet := state.(firing := false, alertId := None, consecutiveFires := 0);
    if state.alertId.Some? && state.lastFired.Some?
    then Resolve(quiet, state.alertId.value, state.lastFired.value)
    else Quiet(quiet)
  }

  /** evaluateThreshold between Lock and Unlock; `id` is the fresh UUID it would use. */
  function ThresholdSection(state: AlertState, shouldFire: bool, now: int, cooldown: int, inMaintenance: bool, id: AlertId)
    : Outcome
  {
    if shouldFire && !state.firing then
      if Cooling(state, now, cooldown) || inMaintenance then Quiet(state) else Fire(Fired(state, id, now))
    else if !shouldFire && state.firing then Ended(state)
    else if shouldFire then Quiet(state.(consecutiveFires := state.consecutiveFires + 1))
    else Quiet(state)
  }

  /** evaluateHeartbeat between Lock and Unlock, on the state with lastHeard already updated. */
  function HeartbeatSection(state: AlertState): Outcome {
    if state.firing then Ended(state) else Quiet(state)
  }

  function Heard(known: Option<AlertState>, at: int): AlertState {
    match known
    case None => FRESH.(lastHeard := Some(at))
    case Some(state) =>
      if state.lastHeard.None? || at > state.lastHeard.value then state.(lastHeard := Some(at)) else state
  }

  /** checkStaleHeartbeats for one existing entry; `watched` says that its rule is an enabled heartbeat rule. */
  function StaleSection(state: AlertState, watched: bool, now: int, timeout: int, cooldown: int, inMaintenance: bool,
                        id: AlertId): Outcome
  {
    if state.firing || !watched || state.lastHeard.None? || now - state.lastHeard.value <= timeout
       || Cooling(state, now, cooldown) || inMaintenance
    then Quiet(state)
    else Fire(Fired(state, id, now))
  }

  /** rollbackFiringTransition */
  function RolledBack(state: AlertState, id: AlertId): AlertState {
    if state.alertId == Some(id) then state.(firing := false, alertId := None, consecutiveFires := 0) else state
  }

  /** restoreFiringTransition */
  function RestoredFiring(state: AlertState, id: AlertId): AlertState {
    if !state.firing && state.alertId == None then state.(firing := true, alertId := Some(id)) else state
  }

  /** A section that starts and ends no incident. */
  predicate SameIncident(a: AlertState, b: AlertState) {
    a.firing == b.firing && a.alertId == b.alertId && a.lastFired == b.lastFired
  }

  /** The shape every section and every compensation keeps. */
  ghost predicate Coherent(state: AlertState) {
    && (state.firing <==> state.alertId.Some?)
    && (state.firing ==> state.lastFired.Some?)
  }
}
