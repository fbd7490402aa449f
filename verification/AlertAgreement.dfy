/**
  Keys whose evaluations do not overlap: no section of the key is entered while an operation of the key is outstanding,
  whatever the other keys do meanwhile. Memory and the alerts table then agree about the key, across failing saves and
  restarts. What a misreported save, a reviving acknowledgement and an orphaned row do to that agreement.
 */
module AlertAgreement {
  import opened Wrappers
  import opened AlertRows
  import opened AlertInterleaving
  import opened AlertLedger

  // ---------------------------------------------------------------- one evaluation of the key at a time

  ghost predicate Waits(s: State, e: Event, key: Key) {
    IsSection(e) && e.key == key ==> !Outstanding(s, key)
  }

  /** The operation of the key, if there is one, and what memory holds meanwhile. */
  ghost predicate OneAtATime(s: State, key: Key) {
    && (forall i, j :: i in s.operations && j in s.operations && s.operations[i].key == key && s.operations[j].key == key ==> i == j)
    && (forall i :: i in s.operations && s.operations[i].key == key ==>
          if s.operations[i].fires then Current(s, key, s.operations[i].alertId)
          else key in s.states && !s.states[key].firing && s.states[key].alertId == None)
  }

  ghost predicate InStep(s: State, key: Key) {
    forall id: AlertId :: IssuedFor(s, id, key) ==>
      id !in s.past.overtaken && id !in s.past.dropped && id !in s.past.unsaved
  }

  /** An incident that is current or being resolved is the latest of its key. */
  ghost predicate Latest(s: State, key: Key) {
    forall id: AlertId :: IssuedFor(s, id, key) && (Current(s, key, id) || BeingResolved(s, id)) ==> NewestId(s, key, id)
  }

  ghost predicate NewestId(s: State, key: Key, id: AlertId) {
    forall n :: 0 <= n < |s.issued| && s.issued[n].key == key ==> s.issued[n].alertId <= id
  }

  /** Rows and outstanding firing saves carry the time at which the incident started. */
  ghost predicate Times(s: State, key: Key) {
    forall n :: 0 <= n < |s.issued| && s.issued[n].key == key ==>
      && (s.issued[n].alertId in s.rows ==> s.rows[s.issued[n].alertId].firedAt == s.issued[n].at)
      && (forall i: nat :: FiringSave(s, i, s.issued[n].alertId) ==> s.operations[i].row.firedAt == s.issued[n].at)
  }

  ghost predicate Sequential(s: State, key: Key) {
    OneAtATime(s, key) && InStep(s, key) && Latest(s, key) && Times(s, key)
  }

  // ---------------------------------------------------------------- steps of other keys, and quiet ones

  /** Nothing about the key changed. */
  ghost predicate KeyUntouched(s: State, s': State, key: Key) {
    && (key in s.states ==> key in s'.states) && SameIncident(StateOf(s', key), StateOf(s, key))
    && (forall i :: i in s'.operations && s'.operations[i].key == key ==>
          i in s.operations && s.operations[i].key == key && s'.operations[i] == s.operations[i].(failed := s'.operations[i].failed))
    && (forall n :: 0 <= n < |s'.issued| && s'.issued[n].key == key ==> n < |s.issued| && s.issued[n] == s'.issued[n])
    && (forall n :: 0 <= n < |s.issued| && s.issued[n].key == key ==> n < |s'.issued| && s'.issued[n] == s.issued[n])
    && (forall id: AlertId :: IssuedFor(s, id, key) ==>
          && (id in s'.past.overtaken ==> id in s.past.overtaken) && (id in s'.past.dropped ==> id in s.past.dropped)
          && (id in s'.past.unsaved ==> id in s.past.unsaved)
          && (id in s'.rows ==> id in s.rows && s'.rows[id].firedAt == s.rows[id].firedAt)
          && (BeingResolved(s', id) ==> BeingResolved(s, id))
          && (forall i: nat :: FiringSave(s', i, id) ==> FiringSave(s, i, id) && s'.operations[i].row == s.operations[i].row))
  }

  lemma UntouchedIssued(s: State, s': State, key: Key, id: AlertId)
    requires KeyUntouched(s, s', key)
    ensures IssuedFor(s', id, key) <==> IssuedFor(s, id, key)
  {
    if IssuedFor(s, id, key) {
      var n :| 0 <= n < |s.issued| && s.issued[n].alertId == id && s.issued[n].key == key;
      assert s'.issued[n] == s.issued[n];
    }
    if IssuedFor(s', id, key) {
      var n :| 0 <= n < |s'.issued| && s'.issued[n].alertId == id && s'.issued[n].key == key;
      assert s'.issued[n] == s.issued[n];
    }
  }

  lemma UntouchedOneAtATime(s: State, s': State, key: Key)
    requires KeyUntouched(s, s', key) && OneAtATime(s, key)
    ensures OneAtATime(s', key)
  {
  }

  lemma UntouchedSequential(s: State, s': State, key: Key)
    requires KeyUntouched(s, s', key) && Sequential(s, key)
    ensures Sequential(s', key)
  {
    UntouchedOneAtATime(s, s', key);
    forall id: AlertId ensures IssuedFor(s', id, key) <==> IssuedFor(s, id, key) {
      UntouchedIssued(s, s', key, id);
    }
    forall id: AlertId ensures Current(s', key, id) <==> Current(s, key, id) {
    }
    forall id: AlertId | NewestId(s, key, id) ensures NewestId(s', key, id) {
    }
    UntouchedTimes(s, s', key);
  }

  lemma UntouchedTimes(s: State, s': State, key: Key)
    requires KeyUntouched(s, s', key) && Times(s, key)
    ensures Times(s', key)
  {
    forall n | 0 <= n < |s'.issued| && s'.issued[n].key == key
      ensures s'.issued[n].alertId in s'.rows ==> s'.rows[s'.issued[n].alertId].firedAt == s'.issued[n].at
      ensures forall i: nat :: FiringSave(s', i, s'.issued[n].alertId) ==> s'.operations[i].row.firedAt == s'.issued[n].at
    {
      assert s.issued[n] == s'.issued[n];
      assert IssuedFor(s, s.issued[n].alertId, key);
    }
  }

  // ---------------------------------------------------------------- sections

  /** A new operation for one incident changes nothing for another. */
  lemma StartedOther(s: State, s': State, op: Operation, id: AlertId)
    requires s'.operations == s.operations[s.nextOperation := op] && s.nextOperation !in s.operations && op.alertId != id
    ensures BeingResolved(s', id) <==> BeingResolved(s, id)
    ensures FiringSaveOutstanding(s', id) <==> FiringSaveOutstanding(s, id)
    ensures forall i: nat :: FiringSave(s', i, id) ==> FiringSave(s, i, id) && s'.operations[i].row == s.operations[i].row
  {
    ResolvingKept(s, s', id);
  }

  lemma ForeignFire(s: State, at: Key, ruleId: RuleId, state: AlertState, now: int, cooldown: int, key: Key)
    requires IssueOrder(s) && Bounded(s) && at != key
    ensures KeyUntouched(s, Leave(s, at, ruleId, Fire(state), now, cooldown), key)
  {
    var s' := Leave(s, at, ruleId, Fire(state), now, cooldown);
    var op := Operation(true, at, s.nextId, FiringRow(at, ruleId, now), false);
    forall id: AlertId | IssuedFor(s, id, key)
      ensures BeingResolved(s', id) ==> BeingResolved(s, id)
      ensures forall i: nat :: FiringSave(s', i, id) ==> FiringSave(s, i, id) && s'.operations[i].row == s.operations[i].row
    {
      IssuedBelow(s, id, key);
      StartedOther(s, s', op, id);
    }
  }

  lemma ForeignResolve(s: State, at: Key, ruleId: RuleId, before: AlertState, now: int, cooldown: int, key: Key)
    requires Inv(s) && at != key && at in s.states && SameIncident(s.states[at], before) && before.firing
    ensures KeyUntouched(s, Leave(s, at, ruleId, Ended(before), now, cooldown), key)
  {
    var s' := Leave(s, at, ruleId, Ended(before), now, cooldown);
    ResolveShape(s, at, ruleId, before, now, cooldown);
    var ended := before.alertId.value;
    assert Current(s, at, ended);
    forall id: AlertId | IssuedFor(s, id, key)
      ensures BeingResolved(s', id) ==> BeingResolved(s, id)
      ensures forall i: nat :: FiringSave(s', i, id) ==> FiringSave(s, i, id) && s'.operations[i].row == s.operations[i].row
    {
      if id == ended {
        OneKeyPerId(s, id, key, at);
      }
    }
  }

  lemma OwnQuiet(s: State, at: Key, state: AlertState, key: Key)
    requires SameIncident(StateOf(s, at), state)
    ensures KeyUntouched(s, s.(states := s.states[at := state]), key)
  {
    var s' := s.(states := s.states[at := state]);
    forall id: AlertId | IssuedFor(s, id, key) ensures BeingResolved(s', id) ==> BeingResolved(s, id) {
      ResolvingKept(s, s', id);
    }
  }

  lemma FiresFirst(s: State, key: Key, ruleId: RuleId, state: AlertState, now: int, cooldown: int, id: AlertId)
    requires Inv(s) && !Outstanding(s, key) && IssuedFor(s, id, key) && state.alertId == Some(s.nextId)
    ensures var s' := Leave(s, key, ruleId, Fire(state), now, cooldown);
            id < s.nextId && !Current(s', key, id) && !BeingResolved(s', id) && !FiringSaveOutstanding(s', id)
  {
    var s' := Leave(s, key, ruleId, Fire(state), now, cooldown);
    IssuedBelow(s, id, key);
    QuiescentIncidents(s, key, id);
    StartedOther(s, s', Operation(true, key, s.nextId, FiringRow(key, ruleId, now), false), id);
  }

  lemma FireTimes(s: State, key: Key, ruleId: RuleId, state: AlertState, now: int, cooldown: int)
    requires Inv(s) && !Outstanding(s, key) && Times(s, key) && state.alertId == Some(s.nextId)
    ensures Times(Leave(s, key, ruleId, Fire(state), now, cooldown), key)
  {
    var s' := Leave(s, key, ruleId, Fire(state), now, cooldown);
    forall n | 0 <= n < |s'.issued| && s'.issued[n].key == key
      ensures s'.issued[n].alertId in s'.rows ==> s'.rows[s'.issued[n].alertId].firedAt == s'.issued[n].at
      ensures forall i: nat :: FiringSave(s', i, s'.issued[n].alertId) ==> s'.operations[i].row.firedAt == s'.issued[n].at
    {
      if n < |s.issued| {
        assert s'.issued[n] == s.issued[n];
        assert IssuedFor(s, s.issued[n].alertId, key);
        FiresFirst(s, key, ruleId, state, now, cooldown, s.issued[n].alertId);
      } else {
        assert forall i: nat :: FiringSave(s', i, s.nextId) ==> i == s.nextOperation;
      }
    }
  }

  lemma OwnFire(s: State, key: Key, ruleId: RuleId, before: AlertState, now: int, cooldown: int)
    requires Inv(s) && Sequential(s, key) && !Outstanding(s, key) && !before.firing
    ensures Sequential(Leave(s, key, ruleId, Fire(Fired(before, s.nextId, now)), now, cooldown), key)
  {
    var state := Fired(before, s.nextId, now);
    var s' := Leave(s, key, ruleId, Fire(state), now, cooldown);
    LogGrows(s, s', key, now, cooldown);
    FireTimes(s, key, ruleId, state, now, cooldown);
    forall id: AlertId | IssuedFor(s', id, key)
      ensures id !in s'.past.overtaken && id !in s'.past.dropped && id !in s'.past.unsaved
      ensures Current(s', key, id) || BeingResolved(s', id) ==> NewestId(s', key, id)
    {
      if IssuedFor(s, id, key) {
        FiresFirst(s, key, ruleId, state, now, cooldown, id);
      } else {
        assert id !in Gone(s);
      }
    }
  }

  lemma EndedLatest(s: State, s': State, key: Key, ended: AlertId)
    requires Inv(s) && Latest(s, key) && !Outstanding(s, key) && Current(s, key, ended) && s'.issued == s.issued
    requires forall i: nat, id: AlertId :: Resolving(s', i, id) <==>
               Resolving(s, i, id) || (i == s.nextOperation && id == ended)
    requires forall id: AlertId :: !Current(s', key, id)
    ensures Latest(s', key)
  {
    forall id: AlertId | IssuedFor(s', id, key) && BeingResolved(s', id) ensures NewestId(s', key, id) {
      assert IssuedFor(s, id, key);
      QuiescentIncidents(s, key, id);
      var i: nat :| Resolving(s', i, id);
      assert !Resolving(s, i, id);
      assert NewestId(s, key, id);
    }
  }

  lemma OwnResolve(s: State, key: Key, ruleId: RuleId, before: AlertState, now: int, cooldown: int)
    requires Inv(s) && Sequential(s, key) && !Outstanding(s, key)
    requires key in s.states && SameIncident(s.states[key], before) && before.firing
    ensures Sequential(Leave(s, key, ruleId, Ended(before), now, cooldown), key)
  {
    var s' := Leave(s, key, ruleId, Ended(before), now, cooldown);
    ResolveShape(s, key, ruleId, before, now, cooldown);
    var ended := before.alertId.value;
    assert Current(s, key, ended);
    forall id: AlertId ensures IssuedFor(s', id, key) <==> IssuedFor(s, id, key) {
    }
    EndedLatest(s, s', key, ended);
    assert forall i: nat, id: AlertId :: FiringSave(s', i, id) ==> FiringSave(s, i, id) && s'.operations[i] == s.operations[i];
  }

  lemma SectionSequential(s: State, e: Event, key: Key)
    requires Inv(s) && Sequential(s, key) && IsSection(e) && Waits(s, e, key)
    ensures Sequential(Step(s, e), key)
  {
    var before, outcome, now, cooldown := SectionShape(s, e);
    if Step(s, e) != s {
      match outcome {
        case Quiet(state) =>
          OwnQuiet(s, e.key, state, key);
          UntouchedSequential(s, Step(s, e), key);
        case Fire(_) =>
          if e.key == key {
            OwnFire(s, key, e.ruleId, before, now, cooldown);
          } else {
            ForeignFire(s, e.key, e.ruleId, outcome.state, now, cooldown, key);
            UntouchedSequential(s, Step(s, e), key);
          }
        case Resolve(_, _, _) =>
          if e.key == key {
            OwnResolve(s, key, e.ruleId, before, now, cooldown);
          } else {
            ForeignResolve(s, e.key, e.ruleId, before, now, cooldown, key);
            UntouchedSequential(s, Step(s, e), key);
          }
      }
    }
  }

  // ---------------------------------------------------------------- saves and compensations

  lemma ForeignIncident(s: State, i: nat, s': State, key: Key, id: AlertId)
    requires IssueOrder(s) && i in s.operations && s.operations[i].key != key
    requires IssuedFor(s, s.operations[i].alertId, s.operations[i].key) && IssuedFor(s, id, key)
    requires s'.operations == s.operations - {i} || s'.operations == s.operations[i := s.operations[i].(failed := true)]
    ensures id != s.operations[i].alertId && (BeingResolved(s', id) ==> BeingResolved(s, id))
    ensures forall j: nat :: FiringSave(s', j, id) ==> FiringSave(s, j, id) && s'.operations[j].row == s.operations[j].row
  {
    var op := s.operations[i];
    if id == op.alertId {
      OneKeyPerId(s, id, key, op.key);
    }
    OtherOperations(s, s', i, id);
  }

  lemma ForeignOperation(s: State, i: nat, s': State, key: Key)
    requires IssueOrder(s) && i in s.operations && s.operations[i].key != key && s'.issued == s.issued
    requires IssuedFor(s, s.operations[i].alertId, s.operations[i].key)
    requires s'.operations == s.operations - {i} || s'.operations == s.operations[i := s.operations[i].(failed := true)]
    requires (key in s.states ==> key in s'.states) && StateOf(s', key) == StateOf(s, key)
    requires forall id: AlertId :: id != s.operations[i].alertId ==>
               && (id in s'.past.overtaken ==> id in s.past.overtaken) && (id in s'.past.dropped ==> id in s.past.dropped)
               && (id in s'.past.unsaved ==> id in s.past.unsaved)
               && (id in s'.rows ==> id in s.rows && s'.rows[id].firedAt == s.rows[id].firedAt)
    ensures KeyUntouched(s, s', key)
  {
    forall id: AlertId | IssuedFor(s, id, key)
      ensures id != s.operations[i].alertId && (BeingResolved(s', id) ==> BeingResolved(s, id))
      ensures forall j: nat :: FiringSave(s', j, id) ==> FiringSave(s, j, id) && s'.operations[j].row == s.operations[j].row
    {
      ForeignIncident(s, i, s', key, id);
    }
  }

  lemma ForeignSave(s: State, i: nat, outcome: SaveOutcome, key: Key)
    requires IssueOrder(s) && i in s.operations && s.operations[i].key != key && Executes(s, s.operations[i], outcome)
    requires IssuedFor(s, s.operations[i].alertId, s.operations[i].key)
    ensures KeyUntouched(s, SaveStep(s, i, outcome), key)
  {
    SaveShape(s, i, outcome);
    forall id: AlertId | id != s.operations[i].alertId
      ensures id in SaveStep(s, i, outcome).rows ==> id in s.rows && SaveStep(s, i, outcome).rows[id] == s.rows[id]
    {
      OtherRows(s, i, outcome, id);
    }
    ForeignOperation(s, i, SaveStep(s, i, outcome), key);
  }

  lemma MarkedFailed(s: State, i: nat, key: Key)
    requires i in s.operations
    ensures KeyUntouched(s, s.(operations := s.operations[i := s.operations[i].(failed := true)]), key)
  {
    var s' := s.(operations := s.operations[i := s.operations[i].(failed := true)]);
    forall id: AlertId | IssuedFor(s, id, key) ensures BeingResolved(s', id) ==> BeingResolved(s, id) {
      ResolvingKept(s, s', id);
    }
  }

  /** The key's only operation ends. */
  lemma OperationEnds(s: State, i: nat, s': State, key: Key)
    requires OneAtATime(s, key) && i in s.operations && s.operations[i].key == key && s'.operations == s.operations - {i}
    ensures OneAtATime(s', key) && !Outstanding(s', key)
  {
  }

  lemma FewerOperations(s: State, i: nat, s': State, id: AlertId)
    requires s'.operations == s.operations - {i}
    ensures BeingResolved(s', id) ==> BeingResolved(s, id)
    ensures forall j: nat :: FiringSave(s', j, id) ==> FiringSave(s, j, id) && s'.operations[j] == s.operations[j]
  {
    assert forall j: nat :: Resolving(s', j, id) ==> Resolving(s, j, id);
  }

  /** In step, a resolution finds the row of its incident. */
  lemma ResolutionHasRow(s: State, i: nat, key: Key)
    requires Inv(s) && Ledger(s, key) && Sequential(s, key) && i in s.operations && s.operations[i].key == key
    requires !s.operations[i].fires
    ensures s.operations[i].alertId in s.rows
  {
    var id := s.operations[i].alertId;
    OperationIssued(s, i);
    assert Resolving(s, i, id) && Entry(s, key, id);
    forall j: nat | FiringSave(s, j, id) ensures s.operations[j].key == key {
      OneKeyPerId(s, id, s.operations[j].key, key);
    }
  }

  /** In step, a new incident has no row before its own save, and its resolution was not saved. */
  lemma FiringHasNoRow(s: State, i: nat, key: Key)
    requires Inv(s) && Ledger(s, key) && Sequential(s, key) && i in s.operations && s.operations[i].key == key
    requires s.operations[i].fires
    ensures s.operations[i].alertId !in s.rows && s.operations[i].alertId !in s.past.closed
  {
    var id := s.operations[i].alertId;
    OperationIssued(s, i);
    assert FiringSave(s, i, id) && Entry(s, key, id) && Current(s, key, id);
  }

  lemma SavedTimes(s: State, i: nat, s': State, key: Key)
    requires Inv(s) && Times(s, key) && i in s.operations && s.operations[i].key == key && s'.issued == s.issued
    requires s'.operations == s.operations - {i}
    requires var id := s.operations[i].alertId;
             && id in s'.rows && s'.rows == s.rows[id := s'.rows[id]]
             && (if id in s.rows then s'.rows[id].firedAt == s.rows[id].firedAt
                 else s.operations[i].fires && s'.rows[id] == s.operations[i].row)
    ensures Times(s', key)
  {
    var id := s.operations[i].alertId;
    forall n | 0 <= n < |s'.issued| && s'.issued[n].key == key
      ensures s'.issued[n].alertId in s'.rows ==> s'.rows[s'.issued[n].alertId].firedAt == s'.issued[n].at
      ensures forall j: nat :: FiringSave(s', j, s'.issued[n].alertId) ==> s'.operations[j].row.firedAt == s'.issued[n].at
    {
      FewerOperations(s, i, s', s.issued[n].alertId);
      if s.issued[n].alertId == id && id !in s.rows {
        assert FiringSave(s, i, id);
      }
    }
  }

  lemma OwnSave(s: State, i: nat, key: Key)
    requires Inv(s) && Ledger(s, key) && Sequential(s, key) && i in s.operations && s.operations[i].key == key
    requires Executes(s, s.operations[i], Confirmed)
    ensures Sequential(SaveStep(s, i, Confirmed), key)
  {
    var s', op := SaveStep(s, i, Confirmed), s.operations[i];
    OperationIssued(s, i);
    SavedRow(s, op);
    OperationEnds(s, i, s', key);
    if op.fires {
      FiringHasNoRow(s, i, key);
    } else {
      ResolutionHasRow(s, i, key);
    }
    SavedTimes(s, i, s', key);
    forall id: AlertId ensures IssuedFor(s', id, key) <==> IssuedFor(s, id, key) {
    }
    forall id: AlertId | IssuedFor(s', id, key) && (Current(s', key, id) || BeingResolved(s', id)) ensures NewestId(s', key, id) {
      FewerOperations(s, i, s', id);
      assert NewestId(s, key, id);
    }
  }

  lemma SaveSequential(s: State, e: Event, key: Key)
    requires Inv(s) && Ledger(s, key) && Sequential(s, key) && e.Save? && !Misreports(s, e, key)
    ensures Sequential(Step(s, e), key)
  {
    var i := e.operation;
    if i in s.operations && !s.operations[i].failed {
      var op := s.operations[i];
      if !Executes(s, op, e.outcome) {
        MarkedFailed(s, i, key);
        UntouchedSequential(s, Step(s, e), key);
      } else if op.key == key {
        OwnSave(s, i, key);
      } else {
        OperationIssued(s, i);
        ForeignSave(s, i, e.outcome, key);
        UntouchedSequential(s, Step(s, e), key);
      }
    }
  }

  lemma OwnCompensation(s: State, i: nat, key: Key)
    requires Inv(s) && Sequential(s, key) && i in s.operations && s.operations[i].key == key
    ensures Sequential(CompensateStep(s, i), key)
  {
    var s', op := CompensateStep(s, i), s.operations[i];
    OperationIssued(s, i);
    OperationEnds(s, i, s', key);
    forall id: AlertId ensures IssuedFor(s', id, key) <==> IssuedFor(s, id, key) {
    }
    forall id: AlertId | IssuedFor(s', id, key) && (Current(s', key, id) || BeingResolved(s', id)) ensures NewestId(s', key, id) {
      FewerOperations(s, i, s', id);
      assert !op.fires ==> Resolving(s, i, op.alertId);
      assert NewestId(s, key, id);
    }
    FewerTimes(s, i, s', key);
  }

  lemma FewerTimes(s: State, i: nat, s': State, key: Key)
    requires Times(s, key) && s'.issued == s.issued && s'.rows == s.rows && s'.operations == s.operations - {i}
    ensures Times(s', key)
  {
    forall n | 0 <= n < |s'.issued| && s'.issued[n].key == key
      ensures forall j: nat :: FiringSave(s', j, s'.issued[n].alertId) ==> s'.operations[j].row.firedAt == s'.issued[n].at
    {
      FewerOperations(s, i, s', s.issued[n].alertId);
    }
  }

  lemma CompensationShape(s: State, i: nat, key: Key)
    requires i in s.operations && s.operations[i].key != key
    ensures var s' := CompensateStep(s, i);
            && s'.issued == s.issued && s'.rows == s.rows && s'.operations == s.operations - {i}
            && (key in s.states <==> key in s'.states) && StateOf(s', key) == StateOf(s, key)
            && s'.past.overtaken == s.past.overtaken
            && s'.past.dropped <= s.past.dropped + {s.operations[i].alertId}
            && s'.past.unsaved <= s.past.unsaved + {s.operations[i].alertId}
  {
  }

  lemma ForeignCompensation(s: State, i: nat, key: Key)
    requires IssueOrder(s) && i in s.operations && s.operations[i].key != key
    requires IssuedFor(s, s.operations[i].alertId, s.operations[i].key)
    ensures KeyUntouched(s, CompensateStep(s, i), key)
  {
    CompensationShape(s, i, key);
    ForeignOperation(s, i, CompensateStep(s, i), key);
  }

  lemma CompensateSequential(s: State, i: nat, key: Key)
    requires Inv(s) && Sequential(s, key) && i in s.operations
    ensures Sequential(CompensateStep(s, i), key)
  {
    if s.operations[i].key == key {
      OwnCompensation(s, i, key);
    } else {
      OperationIssued(s, i);
      ForeignCompensation(s, i, key);
      UntouchedSequential(s, CompensateStep(s, i), key);
    }
  }

  lemma AcknowledgeSequential(s: State, tenant: string, id: AlertId, key: Key)
    requires Sequential(s, key)
    ensures Sequential(Step(s, Acknowledge(tenant, id)), key)
  {
    var s' := Step(s, Acknowledge(tenant, id));
    forall a: AlertId | IssuedFor(s, a, key) ensures BeingResolved(s', a) ==> BeingResolved(s, a) {
      ResolvingKept(s, s', a);
    }
    UntouchedSequential(s, s', key);
  }

  lemma BootSequential(rows: Rows, loaded: seq<AlertId>, nextOperation: nat, nextId: AlertId, key: Key)
    requires TableOk(rows, nextId) && LoadsActive(rows, loaded)
    ensures Sequential(Boot(rows, loaded, nextOperation, nextId), key)
  {
    var s := Boot(rows, loaded, nextOperation, nextId);
    BootInv(rows, loaded, nextOperation, nextId);
    forall id: AlertId | IssuedFor(s, id, key) ensures NewestId(s, key, id) {
      var m :| 0 <= m < |s.issued| && s.issued[m].alertId == id && s.issued[m].key == key;
      forall n | 0 <= n < |s.issued| && s.issued[n].key == key ensures n == m {
        if n < m {
          SeedKeys(rows, loaded, nextId, n, m);
        } else if m < n {
          SeedKeys(rows, loaded, nextId, m, n);
        }
      }
    }
  }

  // ---------------------------------------------------------------- whole runs

  lemma SequentialStep(s: State, e: Event, key: Key)
    requires Inv(s) && Ledger(s, key) && Sequential(s, key) && Waits(s, e, key) && Honest(s, e, key)
    ensures Sequential(Step(s, e), key)
  {
    if IsSection(e) {
      SectionSequential(s, e, key);
    } else if e.Save? {
      SaveSequential(s, e, key);
    } else if e.Compensate? {
      if e.operation in s.operations && s.operations[e.operation].failed {
        CompensateSequential(s, e.operation, key);
      }
    } else if e.Acknowledge? {
      AcknowledgeSequential(s, e.tenant, e.alertId, key);
    } else if LoadsActive(s.rows, e.loaded) {
      BootSequential(s.rows, e.loaded, s.nextOperation, s.nextId, key);
    }
  }

  /** No section of the key is entered while an operation of the key is outstanding. */
  ghost predicate WaitingRun(s: State, events: seq<Event>, key: Key) {
    events != [] ==>
      var n := |events| - 1;
      WaitingRun(s, events[..n], key) && Waits(Run(s, events[..n]), events[n], key)
  }

  lemma {:induction false} RunSequential(s: State, events: seq<Event>, key: Key)
    requires Init(s) && WaitingRun(s, events, key) && HonestRun(s, events, key)
    ensures Sequential(Run(s, events), key)
  {
    if events == [] {
      var loaded :| LoadsActive(s.rows, loaded) && s == Boot(s.rows, loaded, s.nextOperation, s.nextId);
      BootSequential(s.rows, loaded, s.nextOperation, s.nextId, key);
    } else {
      var n := |events| - 1;
      RunSequential(s, events[..n], key);
      RunInv(s, events[..n]);
      RunLedger(s, events[..n], key);
      SequentialStep(Run(s, events[..n]), events[n], key);
    }
  }

  /**
    Agreement per key: if the key's own evaluations never overlap, then whenever none of its operations is outstanding,
    memory is firing with an ID exactly when the table has that active row, whatever saves fail, whatever other keys do and
    whenever the process restarts.
   */
  lemma MemoryAgreesWithStore(s: State, events: seq<Event>, key: Key)
    requires Init(s) && WaitingRun(s, events, key) && HonestRun(s, events, key) && !Outstanding(Run(s, events), key)
    ensures AgreesFor(Run(s, events), key)
  {
    RunSequential(s, events, key);
    AgreementIffInStep(s, events, key);
  }

  /** At most one active row per key in every run, and in step it is the incident in memory. */
  lemma AtMostOneActiveRow(s: State, events: seq<Event>, key: Key, a: AlertId, b: AlertId)
    requires Init(s) && ActiveFor(Run(s, events).rows, key, a) && ActiveFor(Run(s, events).rows, key, b)
    ensures a == b
    ensures WaitingRun(s, events, key) && HonestRun(s, events, key) && !Outstanding(Run(s, events), key) ==>
              Firing(Run(s, events), key, a)
  {
    RunInv(s, events);
    OneActiveRow(Run(s, events).rows, Run(s, events).nextId, key, a, b);
    if WaitingRun(s, events, key) && HonestRun(s, events, key) && !Outstanding(Run(s, events), key) {
      MemoryAgreesWithStore(s, events, key);
    }
  }

  // ---------------------------------------------------------------- restarts

  /** A restart establishes agreement about every key from any state, by the table's own guarantees. */
  lemma RestartAgrees(s: State, loaded: seq<AlertId>, key: Key)
    requires TableOk(s.rows, s.nextId) && LoadsActive(s.rows, loaded)
    ensures AgreesFor(Step(s, Restart(loaded)), key) && !Outstanding(Step(s, Restart(loaded)), key)
  {
    var s' := Step(s, Restart(loaded));
    BootInv(s.rows, loaded, s.nextOperation, s.nextId);
    forall id: AlertId ensures Firing(s', key, id) <==> ActiveFor(s'.rows, key, id) {
      BootCurrent(s.rows, loaded, s.nextOperation, s.nextId, key, id);
      FiringIsCurrent(s', key, id);
    }
  }

  /** In step, the time in memory is the time in the row. */
  lemma FiredAtLastFired(s: State, key: Key, id: AlertId)
    requires Inv(s) && Sequential(s, key) && Firing(s, key, id) && id in s.rows
    ensures s.states[key].lastFired == Some(s.rows[id].firedAt)
  {
    FiringIsCurrent(s, key, id);
    assert IssuedFor(s, id, key) && NewestId(s, key, id);
    var n :| 0 <= n < |s.issued| && s.issued[n].alertId == id && s.issued[n].key == key;
    assert LatestFor(s, n);
  }

  /** Restarting after a run in step rebuilds exactly the key's firing state, ID and time included. */
  lemma RestartRebuildsFiringSet(s: State, events: seq<Event>, loaded: seq<AlertId>, key: Key, id: AlertId)
    requires Init(s) && WaitingRun(s, events, key) && HonestRun(s, events, key) && !Outstanding(Run(s, events), key)
    requires LoadsActive(Run(s, events).rows, loaded)
    ensures var before, after := Run(s, events), Step(Run(s, events), Restart(loaded));
            && (Firing(after, key, id) <==> Firing(before, key, id))
            && (Firing(before, key, id) ==> after.states[key].lastFired == before.states[key].lastFired)
            && (key in after.states ==> after.states[key].firing)
  {
    var before := Run(s, events);
    RunInv(s, events);
    RunSequential(s, events, key);
    MemoryAgreesWithStore(s, events, key);
    RestartAgrees(before, loaded, key);
    RestoredExactly(before.rows, loaded, before.nextId);
    var after := Step(before, Restart(loaded));
    if key in after.states {
      assert RestoredEntry(before.rows, loaded, key, after.states[key]);
    }
    if Firing(before, key, id) {
      assert ActiveFor(before.rows, key, id);
      FiredAtLastFired(before, key, id);
    }
  }

  // ---------------------------------------------------------------- saves in step

  lemma NoActiveRowWhileFiring(s: State, i: nat, key: Key, other: AlertId)
    requires Inv(s) && Ledger(s, key) && Sequential(s, key) && i in s.operations && s.operations[i].key == key
    requires s.operations[i].fires
    ensures !ActiveFor(s.rows, key, other)
  {
    FiringHasNoRow(s, i, key);
    if ActiveFor(s.rows, key, other) {
      assert IssuedFor(s, other, key) && Entry(s, key, other);
      NotResolvingBeside(s, i, key, other);
    }
  }

  lemma NotResolvingBeside(s: State, i: nat, key: Key, other: AlertId)
    requires Inv(s) && Sequential(s, key) && i in s.operations && s.operations[i].key == key && s.operations[i].fires
    requires IssuedFor(s, other, key)
    ensures !BeingResolved(s, other)
  {
    forall j: nat | Resolving(s, j, other) ensures s.operations[j].key == key {
      OneKeyPerId(s, other, s.operations[j].key, key);
    }
  }

  lemma IndexAcceptsInStep(s: State, i: nat, key: Key)
    requires Inv(s) && Ledger(s, key) && Sequential(s, key) && i in s.operations && s.operations[i].key == key
    ensures SaveAlert(s.rows, s.operations[i].alertId, s.operations[i].row).Some?
  {
    var op := s.operations[i];
    if op.fires {
      FiringHasNoRow(s, i, key);
      forall other: AlertId ensures !ActiveFor(s.rows, key, other) {
        NoActiveRowWhileFiring(s, i, key, other);
      }
      FreeIndex(s.rows, op.alertId, op.row, key);
    }
  }

  lemma FreeIndex(rows: Rows, id: AlertId, row: Row, key: Key)
    requires RowOf(row, key) && forall other: AlertId :: !ActiveFor(rows, key, other)
    ensures !IndexTaken(rows, id, row)
  {
    assert forall other: AlertId ::
        other in rows && rows[other].tenant == row.tenant && rows[other].correlationKey == row.correlationKey ==>
          (Active(rows[other]) <==> ActiveFor(rows, key, other));
  }

  /** One save and, if it is reported as failed, its compensation. */
  ghost function Settled(s: State, i: nat, outcome: SaveOutcome): State {
    Step(Step(s, Save(i, outcome)), Compensate(i))
  }

  lemma HonestSettles(s: State, i: nat, outcome: SaveOutcome, key: Key)
    requires Inv(s) && Ledger(s, key) && Sequential(s, key) && i in s.operations && s.operations[i].key == key
    requires !s.operations[i].failed && outcome != ExecutedButReportedFailed
    ensures AgreesFor(Settled(s, i, outcome), key)
  {
    var middle := Step(s, Save(i, outcome));
    InvStep(s, Save(i, outcome));
    LedgerStep(s, Save(i, outcome), key);
    SequentialStep(s, Save(i, outcome), key);
    InvStep(middle, Compensate(i));
    LedgerStep(middle, Compensate(i), key);
    SequentialStep(middle, Compensate(i), key);
    SettledQuiescent(s, i, outcome, key);
    AgreesIffInStep(Settled(s, i, outcome), key);
  }

  lemma SettledQuiescent(s: State, i: nat, outcome: SaveOutcome, key: Key)
    requires OneAtATime(s, key) && i in s.operations && s.operations[i].key == key && !s.operations[i].failed
    ensures !Outstanding(Settled(s, i, outcome), key)
  {
    SaveShape(s, i, outcome);
  }

  /** The statement takes effect, but the operation is marked failed. */
  lemma MisreportShape(s: State, i: nat)
    requires i in s.operations && !s.operations[i].failed && Executes(s, s.operations[i], ExecutedButReportedFailed)
    ensures var middle := Step(s, Save(i, ExecutedButReportedFailed));
            && middle.states == s.states && i in middle.operations && middle.operations[i] == s.operations[i].(failed := true)
            && middle.rows == SaveAlert(s.rows, s.operations[i].alertId, s.operations[i].row).value
  {
  }

  lemma CompensatedState(s: State, i: nat)
    requires i in s.operations && s.operations[i].failed && s.operations[i].key in s.states
    ensures var op := s.operations[i];
            var s' := Step(s, Compensate(i));
            && s'.rows == s.rows && op.key in s'.states
            && s'.states[op.key] ==
               if op.fires then RolledBack(s.states[op.key], op.alertId) else RestoredFiring(s.states[op.key], op.alertId)
  {
  }

  lemma MisreportDisagrees(s: State, i: nat, key: Key)
    requires Inv(s) && Ledger(s, key) && Sequential(s, key) && i in s.operations && s.operations[i].key == key
    requires !s.operations[i].failed
    ensures var id := s.operations[i].alertId;
            var s' := Settled(s, i, ExecutedButReportedFailed);
            if s.operations[i].fires then ActiveFor(s'.rows, key, id) && !Firing(s', key, id)
            else Firing(s', key, id) && !ActiveFor(s'.rows, key, id)
  {
    OperationIssued(s, i);
    IndexAcceptsInStep(s, i, key);
    SavedRow(s, s.operations[i]);
    MisreportShape(s, i);
    CompensatedState(Step(s, Save(i, ExecutedButReportedFailed)), i);
  }

  lemma SettledAgreesIff(s: State, i: nat, outcome: SaveOutcome, key: Key)
    requires Inv(s) && Ledger(s, key) && Sequential(s, key) && i in s.operations && s.operations[i].key == key
    requires !s.operations[i].failed
    ensures AgreesFor(Settled(s, i, outcome), key) <==> outcome != ExecutedButReportedFailed
  {
    if outcome == ExecutedButReportedFailed {
      MisreportDisagrees(s, i, key);
    } else {
      HonestSettles(s, i, outcome, key);
    }
  }

  /** If the evaluations of a key never overlap, the unique index never rejects a save of the key: saves fail only when the
      database does. */
  lemma IndexAcceptsSave(s: State, events: seq<Event>, i: nat, key: Key)
    requires Init(s) && WaitingRun(s, events, key) && HonestRun(s, events, key)
    requires i in Run(s, events).operations && Run(s, events).operations[i].key == key
    ensures var now := Run(s, events); SaveAlert(now.rows, now.operations[i].alertId, now.operations[i].row).Some?
  {
    RunInv(s, events);
    RunLedger(s, events, key);
    RunSequential(s, events, key);
    IndexAcceptsInStep(Run(s, events), i, key);
  }

  /** After any such run, the next save of the key with its compensation leaves agreement exactly unless it is carried out
      and reported as failed. */
  lemma SaveAgreesIffReported(s: State, events: seq<Event>, i: nat, outcome: SaveOutcome, key: Key)
    requires Init(s) && WaitingRun(s, events, key) && HonestRun(s, events, key)
    requires i in Run(s, events).operations && Run(s, events).operations[i].key == key && !Run(s, events).operations[i].failed
    ensures AgreesFor(Settled(Run(s, events), i, outcome), key) <==> outcome != ExecutedButReportedFailed
  {
    RunInv(s, events);
    RunLedger(s, events, key);
    RunSequential(s, events, key);
    SettledAgreesIff(Run(s, events), i, outcome, key);
  }

  // ---------------------------------------------------------------- acknowledgements

  /** UpdateAlertStatus checks no status, so an acknowledgement breaks agreement in exactly one case. */
  lemma AcknowledgeAgreesIff(s: State, tenant: string, id: AlertId)
    requires forall key: Key :: AgreesFor(s, key)
    ensures (forall key: Key :: AgreesFor(Step(s, Acknowledge(tenant, id)), key)) <==> !RevivesRow(s.rows, tenant, id)
  {
    var s' := Step(s, Acknowledge(tenant, id));
    if RevivesRow(s.rows, tenant, id) {
      var key := KeyOfRow(s.rows[id]);
      RowOfItsKey(s.rows[id]);
      assert AgreesFor(s, key);
      assert !ActiveFor(s.rows, key, id) && !Firing(s, key, id);
      assert ActiveFor(s'.rows, key, id) && !Firing(s', key, id);
      assert !AgreesFor(s', key);
    } else {
      forall key: Key ensures AgreesFor(s', key) {
        NotRevived(s, tenant, id, key);
      }
    }
  }

  lemma NotRevived(s: State, tenant: string, id: AlertId, key: Key)
    requires AgreesFor(s, key) && !RevivesRow(s.rows, tenant, id)
    ensures AgreesFor(Step(s, Acknowledge(tenant, id)), key)
  {
    var s' := Step(s, Acknowledge(tenant, id));
    forall a: AlertId ensures Firing(s', key, a) <==> ActiveFor(s'.rows, key, a) {
      assert Firing(s, key, a) <==> ActiveFor(s.rows, key, a);
    }
  }

  // ---------------------------------------------------------------- a row that memory lost

  /** An active row that no operation and no memory state refers to. */
  ghost predicate Orphan(s: State, key: Key, id: AlertId) {
    ActiveFor(s.rows, key, id) && !Current(s, key, id) && forall i :: i in s.operations ==> s.operations[i].alertId != id
  }

  lemma OrphanSection(s: State, e: Event, key: Key, id: AlertId)
    requires Inv(s) && Orphan(s, key, id) && IsSection(e)
    ensures Orphan(Step(s, e), key, id)
  {
    var before, outcome, now, cooldown := SectionShape(s, e);
    if outcome.Resolve? && before.alertId == Some(id) && e.key != key {
      assert Current(s, e.key, id);
      IssuedRow(s, id, e.key);
      OneKeyPerRow(s.rows[id], key, e.key);
    }
  }

  lemma OrphanSave(s: State, i: nat, outcome: SaveOutcome, key: Key, id: AlertId)
    requires Orphan(s, key, id) && i in s.operations
    ensures Orphan(SaveStep(s, i, outcome), key, id)
  {
    SaveShape(s, i, outcome);
    if Executes(s, s.operations[i], outcome) {
      OtherRows(s, i, outcome, id);
    }
  }

  lemma OrphanStep(s: State, e: Event, key: Key, id: AlertId)
    requires Inv(s) && Orphan(s, key, id) && !e.Restart?
    ensures Orphan(Step(s, e), key, id)
  {
    if IsSection(e) {
      OrphanSection(s, e, key, id);
    } else if e.Save? && e.operation in s.operations {
      OrphanSave(s, e.operation, e.outcome, key, id);
    }
  }

  /**
    Until the next restart an orphaned row stays active, and the unique index rejects the save of every new alert of the
    key: the key is silenced.
   */
  lemma {:induction false} OrphanSilencesKey(s: State, events: seq<Event>, key: Key, id: AlertId)
    requires Inv(s) && Orphan(s, key, id) && forall e <- events :: !e.Restart?
    ensures var now := Run(s, events);
            && Orphan(now, key, id)
            && (forall i :: i in now.operations && now.operations[i].key == key && now.operations[i].fires ==>
                  SaveAlert(now.rows, now.operations[i].alertId, now.operations[i].row).None?)
  {
    if events != [] {
      var n := |events| - 1;
      OrphanSilencesKey(s, events[..n], key, id);
      RunKeepsInv(s, events[..n]);
      OrphanStep(Run(s, events[..n]), events[n], key, id);
    }
    RunKeepsInv(s, events);
    OrphanRejects(Run(s, events), key, id);
  }

  lemma OrphanRejectsSave(s: State, key: Key, id: AlertId, op: Operation)
    requires ActiveFor(s.rows, key, id) && RowOf(op.row, key) && Active(op.row) && op.alertId != id
    requires op.alertId in s.rows ==> RowOf(s.rows[op.alertId], key)
    ensures SaveAlert(s.rows, op.alertId, op.row).None?
  {
  }

  lemma OrphanRejects(s: State, key: Key, id: AlertId)
    requires Inv(s) && Orphan(s, key, id)
    ensures forall i :: i in s.operations && s.operations[i].key == key && s.operations[i].fires ==>
              SaveAlert(s.rows, s.operations[i].alertId, s.operations[i].row).None?
  {
    forall i | i in s.operations && s.operations[i].key == key && s.operations[i].fires
      ensures SaveAlert(s.rows, s.operations[i].alertId, s.operations[i].row).None?
    {
      var op := s.operations[i];
      OperationIssued(s, i);
      if op.alertId in s.rows {
        IssuedRow(s, op.alertId, key);
      }
      OrphanRejectsSave(s, key, id, op);
    }
  }
}
