/**
  What the alerts table holds for each incident of a key, in every interleaving in which no statement of the key is carried
  out and reported as failed and no acknowledgement revives a resolved alert of the key; and from it, exactly when memory
  and table disagree about the key.
 */
module AlertLedger {
  import opened Wrappers
  import opened AlertRows
  import opened AlertInterleaving

  predicate Firing(s: State, key: Key, id: AlertId) {
    key in s.states && s.states[key].firing && s.states[key].alertId == Some(id)
  }

  ghost predicate Outstanding(s: State, key: Key) {
    exists i :: i in s.operations && s.operations[i].key == key
  }

  ghost predicate BeingResolved(s: State, id: AlertId) {
    exists i: nat :: Resolving(s, i, id)
  }

  ghost predicate FiringSaveOutstanding(s: State, id: AlertId) {
    exists i: nat :: FiringSave(s, i, id)
  }

  ghost predicate AgreesFor(s: State, key: Key) {
    forall id: AlertId :: Firing(s, key, id) <==> ActiveFor(s.rows, key, id)
  }

  // ---------------------------------------------------------------- the ledger

  /** Where one incident of the key is, and what its row says. */
  ghost predicate Entry(s: State, key: Key, id: AlertId) {
    && (Current(s, key, id) || BeingResolved(s, id) || id in Gone(s))
    && (id in s.past.closed ==> id in s.rows && (Active(s.rows[id]) <==> id in s.past.overtaken))
    && (id in s.past.overtaken ==> id in s.past.closed)
    && (id in s.past.dropped ==> id !in s.past.closed)
    && (id in s.rows && id !in s.past.closed ==> Active(s.rows[id]))
    && (FiringSaveOutstanding(s, id) || id in s.past.unsaved ==> (id in s.rows ==> id in s.past.closed))
    && (id in s.past.rolledBack ==> id !in s.rows)
    && (id in s.past.rolledBack || id in s.past.unsaved ==> !FiringSaveOutstanding(s, id))
    && (id !in s.rows && !FiringSaveOutstanding(s, id) ==> id in s.past.rolledBack || id in s.past.unsaved)
  }

  ghost predicate Ledger(s: State, key: Key) {
    && (forall id: AlertId :: ActiveFor(s.rows, key, id) ==> IssuedFor(s, id, key))
    && (forall id: AlertId :: IssuedFor(s, id, key) ==> Entry(s, key, id))
  }

  /** The event is a save of the key that is carried out and reported as failed. */
  ghost predicate Misreports(s: State, e: Event, key: Key) {
    && e.Save? && e.outcome == ExecutedButReportedFailed
    && e.operation in s.operations && !s.operations[e.operation].failed
    && s.operations[e.operation].key == key && Executes(s, s.operations[e.operation], e.outcome)
  }

  /** The event acknowledges a resolved alert of the key and so makes it active again. */
  ghost predicate RevivesAlertOf(s: State, e: Event, key: Key) {
    e.Acknowledge? && RevivesRow(s.rows, e.tenant, e.alertId) && RowOf(s.rows[e.alertId], key)
  }

  ghost predicate Honest(s: State, e: Event, key: Key) {
    !Misreports(s, e, key) && !RevivesAlertOf(s, e, key)
  }

  // ---------------------------------------------------------------- preservation

  /** Nothing about this incident changed. */
  ghost predicate SameFor(s: State, s': State, key: Key, id: AlertId) {
    && (Current(s', key, id) <==> Current(s, key, id))
    && (BeingResolved(s', id) <==> BeingResolved(s, id))
    && (FiringSaveOutstanding(s', id) <==> FiringSaveOutstanding(s, id))
    && (id in s'.rows <==> id in s.rows) && (id in s.rows ==> Active(s'.rows[id]) == Active(s.rows[id]))
    && (id in s'.past.closed <==> id in s.past.closed) && (id in s'.past.dropped <==> id in s.past.dropped)
    && (id in s'.past.rolledBack <==> id in s.past.rolledBack) && (id in s'.past.unsaved <==> id in s.past.unsaved)
    && (id in s'.past.overtaken <==> id in s.past.overtaken)
  }

  lemma SameEntry(s: State, s': State, key: Key, id: AlertId)
    requires SameFor(s, s', key, id) && Entry(s, key, id)
    ensures Entry(s', key, id)
  {
  }

  /** A step that touches one incident only. */
  lemma OnlyOneChanged(s: State, s': State, key: Key, changed: AlertId)
    requires Ledger(s, key) && s'.issued == s.issued
    requires forall id: AlertId :: id != changed && IssuedFor(s, id, key) ==> SameFor(s, s', key, id)
    requires forall id: AlertId :: id != changed ==> (ActiveFor(s'.rows, key, id) <==> ActiveFor(s.rows, key, id))
    requires ActiveFor(s'.rows, key, changed) ==> IssuedFor(s, changed, key)
    requires IssuedFor(s, changed, key) ==> Entry(s', key, changed)
    ensures Ledger(s', key)
  {
    forall id: AlertId ensures IssuedFor(s', id, key) <==> IssuedFor(s, id, key) {
    }
    forall id: AlertId | IssuedFor(s', id, key) ensures Entry(s', key, id) {
      if id != changed {
        SameEntry(s, s', key, id);
      }
    }
  }

  lemma ResolvingKept(s: State, s': State, id: AlertId)
    requires forall i: nat :: Resolving(s', i, id) <==> Resolving(s, i, id)
    requires forall i: nat :: FiringSave(s', i, id) <==> FiringSave(s, i, id)
    ensures BeingResolved(s', id) <==> BeingResolved(s, id)
    ensures FiringSaveOutstanding(s', id) <==> FiringSaveOutstanding(s, id)
  {
  }

  // ---------------------------------------------------------------- sections

  lemma QuietLedger(s: State, at: Key, state: AlertState, key: Key)
    requires Ledger(s, key) && SameIncident(StateOf(s, at), state)
    ensures Ledger(s.(states := s.states[at := state]), key)
  {
    var s' := s.(states := s.states[at := state]);
    assert Gone(s') == Gone(s);
    forall id: AlertId ensures IssuedFor(s', id, key) <==> IssuedFor(s, id, key) {
    }
    forall id: AlertId | IssuedFor(s, id, key) ensures Entry(s', key, id) {
      ResolvingKept(s, s', id);
      SameEntry(s, s', key, id);
    }
  }

  lemma FireEntry(s: State, s': State, at: Key, id: AlertId, op: Operation, key: Key)
    requires Entry(s, key, id) && id != s.nextId && (at == key ==> !Current(s, key, id))
    requires s'.rows == s.rows && s'.past == s.past && s'.operations == s.operations[s.nextOperation := op]
    requires s.nextOperation !in s.operations && op.alertId != id
    requires forall k :: k != at ==> (k in s'.states <==> k in s.states) && (k in s.states ==> s'.states[k] == s.states[k])
    requires at == key ==> !Current(s', key, id)
    ensures Entry(s', key, id)
  {
    assert Gone(s') == Gone(s);
    ResolvingKept(s, s', id);
    SameEntry(s, s', key, id);
  }

  lemma NewEntry(s: State, s': State, key: Key, op: Operation)
    requires Bounded(s) && s.nextId !in s.rows && s'.rows == s.rows && s'.past == s.past
    requires s'.operations == s.operations[s.nextOperation := op] && op.fires && op.alertId == s.nextId
    requires Current(s', key, s.nextId)
    ensures Entry(s', key, s.nextId)
  {
    assert Gone(s') == Gone(s);
    assert FiringSave(s', s.nextOperation, s.nextId);
  }

  lemma FireEntries(s: State, s': State, at: Key, op: Operation, key: Key, id: AlertId)
    requires IssueOrder(s) && Bounded(s) && Ledger(s, key) && s.nextId !in s.rows && IssuedFor(s', id, key)
    requires IssuedFor(s', id, key) ==> IssuedFor(s, id, key) || (id == s.nextId && key == at)
    requires op.fires && op.alertId == s.nextId
    requires s'.rows == s.rows && s'.past == s.past && s'.operations == s.operations[s.nextOperation := op]
    requires forall k :: k != at ==> (k in s'.states <==> k in s.states) && (k in s.states ==> s'.states[k] == s.states[k])
    requires Current(s', at, s.nextId) && forall a: AlertId :: !Current(s, at, a)
    ensures Entry(s', key, id)
  {
    if id == s.nextId {
      if IssuedFor(s, id, key) {
        IssuedBelow(s, id, key);
      }
      NewEntry(s, s', key, op);
    } else {
      FireEntry(s, s', at, id, op, key);
    }
  }

  lemma FireLedger(s: State, at: Key, ruleId: RuleId, before: AlertState, now: int, cooldown: int, key: Key)
    requires Inv(s) && Ledger(s, key) && SameIncident(StateOf(s, at), before) && !before.firing
    ensures Ledger(Leave(s, at, ruleId, Fire(Fired(before, s.nextId, now)), now, cooldown), key)
  {
    var s' := Leave(s, at, ruleId, Fire(Fired(before, s.nextId, now)), now, cooldown);
    LogGrows(s, s', at, now, cooldown);
    assert Coherent(StateOf(s, at));
    forall id: AlertId | IssuedFor(s', id, key) ensures Entry(s', key, id) {
      FireEntries(s, s', at, Operation(true, at, s.nextId, FiringRow(at, ruleId, now), false), key, id);
    }
  }

  lemma EndedEntry(s: State, s': State, at: Key, ended: AlertId, op: Operation, key: Key, id: AlertId)
    requires Entry(s, key, id) && Current(s, at, ended) && (key == at || id != ended)
    requires s'.rows == s.rows && s'.past == s.past && s'.operations == s.operations[s.nextOperation := op]
    requires s.nextOperation !in s.operations && !op.fires && op.alertId == ended
    requires forall k: Key, a: AlertId :: Current(s', k, a) <==> Current(s, k, a) && k != at
    ensures Entry(s', key, id)
  {
    assert Gone(s') == Gone(s);
    assert forall i: nat :: FiringSave(s', i, id) <==> FiringSave(s, i, id);
    assert forall i: nat :: Resolving(s, i, id) ==> Resolving(s', i, id);
    assert FiringSaveOutstanding(s', id) <==> FiringSaveOutstanding(s, id);
    if id == ended {
      assert Resolving(s', s.nextOperation, id);
    }
  }

  lemma ResolveLedger(s: State, at: Key, ruleId: RuleId, before: AlertState, now: int, cooldown: int, key: Key)
    requires Inv(s) && Ledger(s, key) && at in s.states && SameIncident(s.states[at], before) && before.firing
    ensures Ledger(Leave(s, at, ruleId, Ended(before), now, cooldown), key)
  {
    var s' := Leave(s, at, ruleId, Ended(before), now, cooldown);
    ResolveShape(s, at, ruleId, before, now, cooldown);
    var ended := before.alertId.value;
    assert Current(s, at, ended);
    forall id: AlertId ensures IssuedFor(s', id, key) <==> IssuedFor(s, id, key) {
    }
    forall id: AlertId | IssuedFor(s, id, key) ensures Entry(s', key, id) {
      if id == ended {
        OneKeyPerId(s, id, key, at);
      }
      EndedEntry(s, s', at, ended, Operation(false, at, ended, ResolvedRow(at, ruleId, before.lastFired.value), false), key, id);
    }
  }

  lemma SectionLedger(s: State, e: Event, key: Key)
    requires Inv(s) && Ledger(s, key) && IsSection(e)
    ensures Ledger(Step(s, e), key)
  {
    var before, outcome, now, cooldown := SectionShape(s, e);
    if Step(s, e) != s {
      match outcome {
        case Quiet(state) => QuietLedger(s, e.key, state, key);
        case Fire(_) => FireLedger(s, e.key, e.ruleId, before, now, cooldown, key);
        case Resolve(_, _, _) => ResolveLedger(s, e.key, e.ruleId, before, now, cooldown, key);
      }
    }
  }

  // ---------------------------------------------------------------- saves

  /** An operation that ends or is marked failed touches no incident but its own. */
  lemma OtherOperations(s: State, s': State, i: nat, id: AlertId)
    requires i in s.operations && s.operations[i].alertId != id
    requires s'.operations == s.operations - {i} || s'.operations == s.operations[i := s.operations[i].(failed := true)]
    ensures BeingResolved(s', id) <==> BeingResolved(s, id)
    ensures FiringSaveOutstanding(s', id) <==> FiringSaveOutstanding(s, id)
  {
    ResolvingKept(s, s', id);
  }

  lemma FailedSaveLedger(s: State, i: nat, key: Key)
    requires Ledger(s, key) && i in s.operations
    ensures Ledger(s.(operations := s.operations[i := s.operations[i].(failed := true)]), key)
  {
    var s' := s.(operations := s.operations[i := s.operations[i].(failed := true)]);
    assert Gone(s') == Gone(s);
    forall id: AlertId ensures IssuedFor(s', id, key) <==> IssuedFor(s, id, key) {
    }
    forall id: AlertId | IssuedFor(s, id, key) ensures Entry(s', key, id) {
      ResolvingKept(s, s', id);
      SameEntry(s, s', key, id);
    }
  }

  /** The entry of an incident whose firing save was carried out and reported. */
  lemma SavedFiringEntry(s: State, s': State, key: Key, id: AlertId)
    requires Entry(s, key, id) && FiringSaveOutstanding(s, id) && !FiringSaveOutstanding(s', id)
    requires (Current(s', key, id) <==> Current(s, key, id)) && (BeingResolved(s', id) <==> BeingResolved(s, id))
    requires id in s'.rows && Active(s'.rows[id])
    requires s'.past == if id in s.past.closed then s.past.(overtaken := s.past.overtaken + {id}) else s.past
    ensures Entry(s', key, id)
  {
    assert Gone(s') == Gone(s);
  }

  /** The entry of an incident whose resolution was carried out and reported. */
  lemma SavedResolutionEntry(s: State, s': State, key: Key, id: AlertId)
    requires Entry(s, key, id) && id !in Gone(s)
    requires FiringSaveOutstanding(s', id) <==> FiringSaveOutstanding(s, id)
    requires id in s'.rows && !Active(s'.rows[id]) && s'.past == s.past.(closed := s.past.closed + {id})
    ensures Entry(s', key, id)
  {
  }

  lemma OwnFiringSaved(s: State, i: nat, s': State)
    requires FiresOnce(s) && i in s.operations && s.operations[i].fires && s'.operations == s.operations - {i}
    ensures FiringSaveOutstanding(s, s.operations[i].alertId) && !FiringSaveOutstanding(s', s.operations[i].alertId)
    ensures BeingResolved(s', s.operations[i].alertId) <==> BeingResolved(s, s.operations[i].alertId)
  {
    var id := s.operations[i].alertId;
    assert FiringSave(s, i, id);
    assert forall j: nat :: FiringSave(s', j, id) ==> FiringSave(s, j, id);
    assert forall j: nat :: Resolving(s', j, id) <==> Resolving(s, j, id);
  }

  lemma OwnResolutionEnded(s: State, i: nat, s': State)
    requires OnePlace(s) && i in s.operations && !s.operations[i].fires && s'.operations == s.operations - {i}
    ensures s.operations[i].alertId !in Gone(s)
    ensures FiringSaveOutstanding(s', s.operations[i].alertId) <==> FiringSaveOutstanding(s, s.operations[i].alertId)
  {
    var id := s.operations[i].alertId;
    assert Resolving(s, i, id);
    assert forall j: nat :: FiringSave(s', j, id) <==> FiringSave(s, j, id);
  }

  /** The entry of the incident whose save was carried out and reported. */
  lemma SavedOwnEntry(s: State, i: nat, key: Key)
    requires Inv(s) && i in s.operations && Executes(s, s.operations[i], Confirmed)
    requires Entry(s, key, s.operations[i].alertId)
    ensures Entry(SaveStep(s, i, Confirmed), key, s.operations[i].alertId)
  {
    var s', op := SaveStep(s, i, Confirmed), s.operations[i];
    OperationIssued(s, i);
    SavedRow(s, op);
    if op.fires {
      OwnFiringSaved(s, i, s');
      SavedFiringEntry(s, s', key, op.alertId);
    } else {
      OwnResolutionEnded(s, i, s');
      SavedResolutionEntry(s, s', key, op.alertId);
    }
  }

  lemma SavedOther(s: State, i: nat, outcome: SaveOutcome, s': State, key: Key, id: AlertId)
    requires i in s.operations && id != s.operations[i].alertId
    requires s'.states == s.states
    requires s'.operations == s.operations - {i} || s'.operations == s.operations[i := s.operations[i].(failed := true)]
    requires s'.past.dropped == s.past.dropped && s'.past.rolledBack == s.past.rolledBack && s'.past.unsaved == s.past.unsaved
    requires s.past.closed <= s'.past.closed <= s.past.closed + {s.operations[i].alertId}
    requires s.past.overtaken <= s'.past.overtaken <= s.past.overtaken + {s.operations[i].alertId}
    requires id in s'.rows <==> id in s.rows
    requires id in s.rows ==> s'.rows[id] == s.rows[id]
    ensures SameFor(s, s', key, id)
  {
    OtherOperations(s, s', i, id);
  }

  /** A save of another key writes no row of this key. */
  lemma ForeignRow(s: State, i: nat, outcome: SaveOutcome, key: Key)
    requires Inv(s) && i in s.operations && Executes(s, s.operations[i], outcome) && s.operations[i].key != key
    ensures !IssuedFor(s, s.operations[i].alertId, key)
    ensures !ActiveFor(SaveStep(s, i, outcome).rows, key, s.operations[i].alertId)
  {
    var s', op := SaveStep(s, i, outcome), s.operations[i];
    OperationIssued(s, i);
    SavedRow(s, op);
    if IssuedFor(s, op.alertId, key) {
      OneKeyPerId(s, op.alertId, key, op.key);
    }
    if RowOf(s'.rows[op.alertId], key) {
      OneKeyPerRow(s'.rows[op.alertId], key, op.key);
    }
  }

  /** Only the row of the incident is written. */
  lemma OtherRows(s: State, i: nat, outcome: SaveOutcome, id: AlertId)
    requires i in s.operations && Executes(s, s.operations[i], outcome) && id != s.operations[i].alertId
    ensures var rows' := SaveStep(s, i, outcome).rows;
            (id in rows' <==> id in s.rows) && (id in s.rows ==> rows'[id] == s.rows[id])
  {
  }

  lemma ExecutedSaveLedger(s: State, i: nat, outcome: SaveOutcome, key: Key)
    requires Inv(s) && Ledger(s, key) && i in s.operations && Executes(s, s.operations[i], outcome)
    requires s.operations[i].key == key ==> outcome == Confirmed
    ensures Ledger(SaveStep(s, i, outcome), key)
  {
    var s', op := SaveStep(s, i, outcome), s.operations[i];
    OperationIssued(s, i);
    SaveShape(s, i, outcome);
    forall id: AlertId | id != op.alertId
      ensures SameFor(s, s', key, id)
      ensures ActiveFor(s'.rows, key, id) <==> ActiveFor(s.rows, key, id)
    {
      OtherRows(s, i, outcome, id);
      SavedOther(s, i, outcome, s', key, id);
    }
    if op.key == key {
      SavedOwnEntry(s, i, key);
    } else {
      ForeignRow(s, i, outcome, key);
    }
    OnlyOneChanged(s, s', key, op.alertId);
  }

  lemma SaveLedger(s: State, e: Event, key: Key)
    requires Inv(s) && Ledger(s, key) && e.Save? && !Misreports(s, e, key)
    ensures Ledger(Step(s, e), key)
  {
    if e.operation in s.operations && !s.operations[e.operation].failed {
      if Executes(s, s.operations[e.operation], e.outcome) {
        ExecutedSaveLedger(s, e.operation, e.outcome, key);
      } else {
        FailedSaveLedger(s, e.operation, key);
      }
    }
  }

  // ---------------------------------------------------------------- compensations

  lemma CancelledEntry(s: State, s': State, key: Key, id: AlertId)
    requires Entry(s, key, id) && id !in Gone(s) && FiringSaveOutstanding(s, id) && !FiringSaveOutstanding(s', id)
    requires s'.rows == s.rows && s'.past == s.past.(rolledBack := s.past.rolledBack + {id})
    ensures Entry(s', key, id)
  {
  }

  lemma UnsavedEntry(s: State, s': State, key: Key, id: AlertId)
    requires Entry(s, key, id) && !Current(s, key, id) && FiringSaveOutstanding(s, id) && !FiringSaveOutstanding(s', id)
    requires BeingResolved(s', id) <==> BeingResolved(s, id)
    requires s'.rows == s.rows && s'.past == s.past.(unsaved := s.past.unsaved + {id})
    ensures Entry(s', key, id)
  {
    assert Gone(s') == Gone(s);
  }

  lemma RestoredEntryKept(s: State, s': State, key: Key, id: AlertId)
    requires Entry(s, key, id) && id !in Gone(s) && (FiringSaveOutstanding(s', id) <==> FiringSaveOutstanding(s, id))
    requires s'.rows == s.rows
    requires (s'.past == s.past && Current(s', key, id)) || s'.past == s.past.(dropped := s.past.dropped + {id})
    ensures Entry(s', key, id)
  {
  }

  lemma CompensatedOwnEntry(s: State, i: nat, key: Key)
    requires Inv(s) && i in s.operations && s.operations[i].key == key && key in s.states
    requires Entry(s, key, s.operations[i].alertId)
    ensures Entry(CompensateStep(s, i), key, s.operations[i].alertId)
  {
    var s', op := CompensateStep(s, i), s.operations[i];
    assert Coherent(s.states[key]);
    if op.fires {
      OwnFiringSaved(s, i, s');
      if Current(s, key, op.alertId) {
        CancelledEntry(s, s', key, op.alertId);
      } else {
        UnsavedEntry(s, s', key, op.alertId);
      }
    } else {
      OwnResolutionEnded(s, i, s');
      RestoredEntryKept(s, s', key, op.alertId);
    }
  }

  lemma CompensatedOther(s: State, i: nat, key: Key, id: AlertId)
    requires Inv(s) && i in s.operations && id != s.operations[i].alertId
    ensures SameFor(s, CompensateStep(s, i), key, id)
  {
    OtherOperations(s, CompensateStep(s, i), i, id);
    if s.operations[i].key in s.states {
      assert Coherent(s.states[s.operations[i].key]);
    }
  }

  lemma CompensateLedger(s: State, i: nat, key: Key)
    requires Inv(s) && Ledger(s, key) && i in s.operations
    ensures Ledger(CompensateStep(s, i), key)
  {
    var s', op := CompensateStep(s, i), s.operations[i];
    OperationIssued(s, i);
    IssuedMeansFired(s, op.alertId, op.key);
    forall id: AlertId | id != op.alertId ensures SameFor(s, s', key, id) {
      CompensatedOther(s, i, key, id);
    }
    if op.key == key {
      CompensatedOwnEntry(s, i, key);
    } else if IssuedFor(s, op.alertId, key) {
      OneKeyPerId(s, op.alertId, key, op.key);
    }
    OnlyOneChanged(s, s', key, op.alertId);
  }

  // ---------------------------------------------------------------- acknowledgements and restarts

  lemma AcknowledgeLedger(s: State, e: Event, key: Key)
    requires Inv(s) && Ledger(s, key) && e.Acknowledge? && !RevivesAlertOf(s, e, key)
    ensures Ledger(Step(s, e), key)
  {
    var s' := Step(s, e);
    assert Gone(s') == Gone(s);
    forall id: AlertId ensures IssuedFor(s', id, key) <==> IssuedFor(s, id, key) {
    }
    forall id: AlertId | id in s.rows && RowOf(s.rows[id], key)
      ensures id in s'.rows && Active(s'.rows[id]) == Active(s.rows[id]) && RowOf(s'.rows[id], key)
    {
      assert IsRuleKey(s.rows[id].correlationKey);
    }
    forall id: AlertId | IssuedFor(s, id, key) ensures Entry(s', key, id) {
      if id in s.rows {
        IssuedRow(s, id, key);
      }
      ResolvingKept(s, s', id);
      SameEntry(s, s', key, id);
    }
  }

  lemma BootLedger(rows: Rows, loaded: seq<AlertId>, nextOperation: nat, nextId: AlertId, key: Key)
    requires TableOk(rows, nextId) && LoadsActive(rows, loaded)
    ensures Ledger(Boot(rows, loaded, nextOperation, nextId), key)
  {
    SeedLog(rows, loaded, nextOperation, nextId);
    var s := Boot(rows, loaded, nextOperation, nextId);
    forall id: AlertId | IssuedFor(s, id, key) ensures Entry(s, key, id) {
      BootCurrent(rows, loaded, nextOperation, nextId, key, id);
    }
  }

  lemma LedgerStep(s: State, e: Event, key: Key)
    requires Inv(s) && Ledger(s, key) && Honest(s, e, key)
    ensures Ledger(Step(s, e), key)
  {
    if IsSection(e) {
      SectionLedger(s, e, key);
    } else if e.Save? {
      SaveLedger(s, e, key);
    } else if e.Compensate? {
      if e.operation in s.operations && s.operations[e.operation].failed {
        CompensateLedger(s, e.operation, key);
      }
    } else if e.Acknowledge? {
      AcknowledgeLedger(s, e, key);
    } else if LoadsActive(s.rows, e.loaded) {
      BootLedger(s.rows, e.loaded, s.nextOperation, s.nextId, key);
    }
  }

  ghost predicate HonestRun(s: State, events: seq<Event>, key: Key) {
    events != [] ==>
      var n := |events| - 1;
      HonestRun(s, events[..n], key) && Honest(Run(s, events[..n]), events[n], key)
  }

  lemma {:induction false} RunLedger(s: State, events: seq<Event>, key: Key)
    requires Init(s) && HonestRun(s, events, key)
    ensures Ledger(Run(s, events), key)
  {
    if events == [] {
      var loaded :| LoadsActive(s.rows, loaded) && s == Boot(s.rows, loaded, s.nextOperation, s.nextId);
      BootLedger(s.rows, loaded, s.nextOperation, s.nextId, key);
    } else {
      var n := |events| - 1;
      RunLedger(s, events[..n], key);
      RunInv(s, events[..n]);
      LedgerStep(Run(s, events[..n]), events[n], key);
    }
  }

  // ---------------------------------------------------------------- exactly when memory and table disagree

  lemma GoneIsNotCurrent(s: State, key: Key, id: AlertId)
    requires OnePlace(s) && id in Gone(s)
    ensures !Current(s, key, id)
  {
  }

  /** The row outlives the incident exactly if its firing save was carried out after its resolution, or the restore of its
      failed resolution found another incident on the key. */
  lemma RowOutlivesIncidentIff(s: State, key: Key, id: AlertId)
    requires Inv(s) && Ledger(s, key) && !BeingResolved(s, id)
    ensures ActiveFor(s.rows, key, id) && !Firing(s, key, id) <==>
            IssuedFor(s, id, key) && (id in s.past.overtaken || (id in s.past.dropped && id in s.rows))
  {
    FiringIsCurrent(s, key, id);
    if IssuedFor(s, id, key) {
      assert Entry(s, key, id);
      if id in Gone(s) {
        GoneIsNotCurrent(s, key, id);
      }
      if id in s.rows {
        IssuedRow(s, id, key);
      }
    }
  }

  lemma FiringIsCurrent(s: State, key: Key, id: AlertId)
    requires AllCoherent(s)
    ensures Firing(s, key, id) <==> Current(s, key, id)
  {
    if key in s.states {
      assert Coherent(s.states[key]);
    }
  }

  /** Memory keeps an incident without an active row exactly if its firing save failed while it was being resolved, and the
      resolution failed too. */
  lemma IncidentWithoutRowIff(s: State, key: Key, id: AlertId)
    requires Inv(s) && Ledger(s, key) && !FiringSaveOutstanding(s, id) && Firing(s, key, id)
    ensures !ActiveFor(s.rows, key, id) <==> id in s.past.unsaved
  {
    FiringIsCurrent(s, key, id);
    assert IssuedFor(s, id, key) && Entry(s, key, id);
    if id in s.rows {
      IssuedRow(s, id, key);
    }
  }

  /** What went wrong with an incident of the key while evaluations overlapped. */
  ghost predicate OutOfStep(s: State, key: Key, id: AlertId) {
    && IssuedFor(s, id, key)
    && (id in s.past.overtaken || (id in s.past.dropped && id in s.rows) || (id in s.past.unsaved && Current(s, key, id)))
  }

  lemma QuiescentIncidents(s: State, key: Key, id: AlertId)
    requires Inv(s) && !Outstanding(s, key) && IssuedFor(s, id, key)
    ensures !BeingResolved(s, id) && !FiringSaveOutstanding(s, id)
  {
    forall i: nat | i in s.operations && s.operations[i].alertId == id ensures s.operations[i].key == key {
      OperationIssued(s, i);
      OneKeyPerId(s, id, s.operations[i].key, key);
    }
  }

  lemma InStepAgrees(s: State, key: Key, id: AlertId)
    requires Inv(s) && Ledger(s, key) && !Outstanding(s, key)
    ensures (Firing(s, key, id) <==> ActiveFor(s.rows, key, id)) <==> !OutOfStep(s, key, id)
  {
    FiringIsCurrent(s, key, id);
    if IssuedFor(s, id, key) {
      QuiescentIncidents(s, key, id);
      RowOutlivesIncidentIff(s, key, id);
      if Firing(s, key, id) {
        IncidentWithoutRowIff(s, key, id);
      }
    }
  }

  /**
    After any run with any overlap, once the key has no outstanding operation: memory and table agree about the key if and
    only if no incident of the key had its firing save overtake its resolution, lost its restore to a newer incident while
    its row was there, or is current after both its saves failed.
   */
  lemma AgreementIffInStep(s: State, events: seq<Event>, key: Key)
    requires Init(s) && HonestRun(s, events, key) && !Outstanding(Run(s, events), key)
    ensures AgreesFor(Run(s, events), key) <==> forall id: AlertId :: !OutOfStep(Run(s, events), key, id)
  {
    RunInv(s, events);
    RunLedger(s, events, key);
    AgreesIffInStep(Run(s, events), key);
  }

  lemma AgreesIffInStep(s: State, key: Key)
    requires Inv(s) && Ledger(s, key) && !Outstanding(s, key)
    ensures AgreesFor(s, key) <==> forall id: AlertId :: !OutOfStep(s, key, id)
  {
    forall id: AlertId ensures (Firing(s, key, id) <==> ActiveFor(s.rows, key, id)) <==> !OutOfStep(s, key, id) {
      InStepAgrees(s, key, id);
    }
  }
}
