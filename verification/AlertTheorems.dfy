/** What every interleaving of the alert engine guarantees, restarts included, and instances of what overlap can do. */
module AlertTheorems {
  import opened Wrappers
  import opened AlertRows
  import opened AlertInterleaving
  import opened AlertLedger
  import opened AlertAgreement

  lemma FiringIffAlertId(s: State, events: seq<Event>, key: Key)
    requires Init(s) && key in Run(s, events).states
    ensures var state := Run(s, events).states[key];
            (state.firing <==> state.alertId.Some?) && (state.firing ==> state.lastFired.Some?)
  {
    RunInv(s, events);
    assert Coherent(Run(s, events).states[key]);
  }

  /** The evaluations that see the condition of this key gone. */
  predicate Recovers(e: Event, key: Key) {
    match e
    case Threshold(k, _, shouldFire, _, _, _) => k == key && !shouldFire
    case Heartbeat(k, _, _) => k == key
    case _ => false
  }

  /** The compensation of this very incident's own failed save. */
  predicate Compensates(s: State, e: Event, fires: bool, key: Key, id: AlertId) {
    && e.Compensate? && e.operation in s.operations
    && var op := s.operations[e.operation];
       op.failed && op.fires == fires && op.key == key && op.alertId == id
  }

  lemma SectionEnds(s: State, e: Event, key: Key, id: AlertId)
    requires AllCoherent(s) && IsSection(e)
    requires Current(s, key, id) && !Current(Step(s, e), key, id)
    ensures Recovers(e, key)
  {
    assert Coherent(s.states[key]);
  }

  lemma OtherEnds(s: State, e: Event, key: Key, id: AlertId)
    requires !IsSection(e) && !e.Restart?
    requires Current(s, key, id) && !Current(Step(s, e), key, id)
    ensures Compensates(s, e, true, key, id)
  {
    if e.Save? && e.operation in s.operations {
      SaveShape(s, e.operation, e.outcome);
    }
  }

  /** A rollback never cancels a newer incident, and no other evaluation ends it either; a restart forgets an incident
      only when its row is not active. */
  lemma OnlyRecoveryOrOwnRollbackEndsAnIncident(s: State, events: seq<Event>, e: Event, key: Key, id: AlertId)
    requires Init(s)
    requires Current(Run(s, events), key, id) && !Current(Step(Run(s, events), e), key, id)
    ensures || Recovers(e, key) || Compensates(Run(s, events), e, true, key, id)
            || (e.Restart? && !ActiveFor(Run(s, events).rows, key, id))
  {
    RunInv(s, events);
    var before := Run(s, events);
    if IsSection(e) {
      SectionEnds(before, e, key, id);
    } else if !e.Restart? {
      OtherEnds(before, e, key, id);
    } else if LoadsActive(before.rows, e.loaded) {
      BootCurrent(before.rows, e.loaded, before.nextOperation, before.nextId, key, id);
    }
  }

  lemma SectionStarts(s: State, e: Event, key: Key, id: AlertId)
    requires AllCoherent(s) && IsSection(e)
    requires !Current(s, key, id) && Current(Step(s, e), key, id)
    ensures id == s.nextId && forall other: AlertId :: !Current(s, key, other)
  {
    assert key in s.states ==> Coherent(s.states[key]);
    assert e.key == key;
  }

  lemma OtherStarts(s: State, e: Event, key: Key, id: AlertId)
    requires !IsSection(e) && !e.Restart?
    requires !Current(s, key, id) && Current(Step(s, e), key, id)
    ensures Compensates(s, e, false, key, id) && forall other: AlertId :: !Current(s, key, other)
  {
    if e.Save? && e.operation in s.operations {
      SaveShape(s, e.operation, e.outcome);
    }
  }

  /** A restore never overwrites a current incident; a new incident has the newest ID; a restart adopts active rows only. */
  lemma OnlyFireOrOwnRestoreStartsAnIncident(s: State, events: seq<Event>, e: Event, key: Key, id: AlertId)
    requires Init(s)
    requires !Current(Run(s, events), key, id) && Current(Step(Run(s, events), e), key, id)
    ensures e.Restart? || forall other: AlertId :: !Current(Run(s, events), key, other)
    ensures var before := Run(s, events);
            || Compensates(before, e, false, key, id)
            || (e.Restart? && ActiveFor(before.rows, key, id))
            || (id == before.nextId && forall n :: 0 <= n < |before.issued| ==> before.issued[n].alertId < id)
  {
    RunInv(s, events);
    var before := Run(s, events);
    if IsSection(e) {
      SectionStarts(before, e, key, id);
    } else if !e.Restart? {
      OtherStarts(before, e, key, id);
    } else if LoadsActive(before.rows, e.loaded) {
      BootCurrent(before.rows, e.loaded, before.nextOperation, before.nextId, key, id);
    }
  }

  // ---------------------------------------------------------------- no resurrection

  lemma ClosedGrows(s: State, e: Event)
    requires !e.Restart?
    ensures s.past.closed <= Step(s, e).past.closed
  {
    if e.Save? && e.operation in s.operations {
      SaveShape(s, e.operation, e.outcome);
    }
  }

  lemma {:induction false} ClosedStaysClosed(s: State, events: seq<Event>, id: AlertId)
    requires id in s.past.closed && forall e <- events :: !e.Restart?
    ensures id in Run(s, events).past.closed
  {
    if events != [] {
      ClosedStaysClosed(s, events[..|events| - 1], id);
      assert events[|events| - 1] in events;
      ClosedGrows(Run(s, events[..|events| - 1]), events[|events| - 1]);
    }
  }

  /** Once the resolution of an incident is saved and reported, nothing makes it current or resolves it again until the next
      restart, which adopts it only if its row was made active again. */
  lemma NoResurrection(s: State, before: seq<Event>, after: seq<Event>, key: Key, id: AlertId, i: nat)
    requires Init(s) && id in Run(s, before).past.closed && forall e <- after :: !e.Restart?
    ensures !Current(Run(Run(s, before), after), key, id)
    ensures !Resolving(Run(Run(s, before), after), i, id)
  {
    RunInv(s, before);
    RunKeepsInv(Run(s, before), after);
    ClosedStaysClosed(Run(s, before), after, id);
    assert id in Gone(Run(Run(s, before), after));
  }

  // ---------------------------------------------------------------- the cooldown

  lemma NearestBefore(s: State, m: nat, n: nat) returns (k: nat)
    requires m < n < |s.issued| && s.issued[m].key == s.issued[n].key
    ensures m <= k < n && s.issued[k].key == s.issued[n].key && NoneBetween(s, k, n)
    decreases n - m
  {
    if NoneBetween(s, m, n) {
      k := m;
    } else {
      var j :| m < j < n && s.issued[j].key == s.issued[n].key;
      k := NearestBefore(s, j, n);
    }
  }

  lemma {:induction false} SpacedApart(s: State, m: nat, n: nat)
    requires Spaced(s) && m < n < |s.issued| && s.issued[m].key == s.issued[n].key
    requires forall k :: 0 <= k < |s.issued| ==> s.issued[k].cooldown >= 0
    ensures s.issued[n].at - s.issued[m].at >= s.issued[n].cooldown
    decreases n
  {
    var k := NearestBefore(s, m, n);
    if m < k {
      SpacedApart(s, m, k);
    }
  }

  /** Any two incidents of one key since the last start, restored ones included, begin at least the later one's cooldown
      apart. */
  lemma NewIdsAreACooldownApart(s: State, events: seq<Event>, m: nat, n: nat)
    requires Init(s)
    requires var issued := Run(s, events).issued;
             && m < n < |issued| && issued[m].key == issued[n].key
             && forall k :: 0 <= k < |issued| ==> issued[k].cooldown >= 0
    ensures var issued := Run(s, events).issued;
            issued[n].at - issued[m].at >= issued[n].cooldown && issued[m].alertId < issued[n].alertId
  {
    RunInv(s, events);
    SpacedApart(Run(s, events), m, n);
  }

  // ---------------------------------------------------------------- instances

  const KEY := Key("t", "k")

  const EMPTY := State(map[], map[], map[], 0, 0, [], NOTHING)

  const FIRES := Threshold(KEY, "r", true, 0, 0, false)
  const RECOVERS := Threshold(KEY, "r", false, 1, 0, false)

  const FIRING_ROW := Row("t", "r", Correlation(KEY), RowFiring, 0)
  const RESOLVED_ROW := Row("t", "r", Correlation(KEY), RowResolved, 0)

  function Quieted(): AlertState {
    AlertState(false, None, Some(0), None, 0)
  }

  lemma EmptyStarts()
    ensures Init(EMPTY)
  {
    assert LoadsActive(map[], []);
    assert EMPTY == Boot(map[], [], 0, 0);
  }

  /** The condition holds: memory fires, the save is outstanding. */
  function JustFired(): State {
    State(map[KEY := AlertState(true, Some(0), Some(0), None, 1)], map[],
          map[0 := Operation(true, KEY, 0, FIRING_ROW, false)], 1, 1, [Issue(KEY, 0, 0, 0)], NOTHING)
  }

  lemma FirstFire()
    ensures Step(EMPTY, FIRES) == JustFired()
  {
  }

  /** Both evaluations have left their sections: operation 0 is to save the firing row, operation 1 the resolved one. */
  function BothPending(): State {
    State(map[KEY := Quieted()], map[],
          map[0 := Operation(true, KEY, 0, FIRING_ROW, false), 1 := Operation(false, KEY, 0, RESOLVED_ROW, false)],
          2, 1, [Issue(KEY, 0, 0, 0)], NOTHING)
  }

  lemma SectionsOverlap()
    ensures Step(JustFired(), RECOVERS) == BothPending()
  {
    assert Step(JustFired(), RECOVERS).operations == BothPending().operations;
    assert Step(JustFired(), RECOVERS).states == BothPending().states;
  }

  function ResolutionSaved(): State {
    State(map[KEY := Quieted()], map[0 := RESOLVED_ROW], map[0 := Operation(true, KEY, 0, FIRING_ROW, false)],
          2, 1, [Issue(KEY, 0, 0, 0)], NOTHING.(closed := {0}))
  }

  lemma ResolutionFirst()
    ensures Step(BothPending(), Save(1, Confirmed)) == ResolutionSaved()
  {
    assert BothPending().operations - {1} == ResolutionSaved().operations;
    assert {} + {0} == {0};
  }

  lemma FiringSecond()
    ensures var s := Step(ResolutionSaved(), Save(0, Confirmed));
            && s.states == map[KEY := Quieted()] && s.operations == map[] && s.rows == map[0 := FIRING_ROW]
            && s.past.overtaken == {0} && s.issued == [Issue(KEY, 0, 0, 0)]
  {
    var s := ResolutionSaved();
    assert !IndexTaken(s.rows, 0, FIRING_ROW);
    assert s.operations - {0} == map[];
    assert {} + {0} == {0};
  }

  function SwappedSaves(): seq<Event> {
    [FIRES, RECOVERS, Save(1, Confirmed), Save(0, Confirmed)]
  }

  lemma SwappedRun()
    ensures Run(EMPTY, SwappedSaves()) == Step(ResolutionSaved(), Save(0, Confirmed))
  {
    FirstFire();
    SectionsOverlap();
    ResolutionFirst();
    var events := SwappedSaves();
    RunSnoc(EMPTY, events, 0);
    RunSnoc(EMPTY, events, 1);
    RunSnoc(EMPTY, events, 2);
    RunSnoc(EMPTY, events, 3);
    assert events[..4] == events && events[..0] == [];
  }

  /** Firing and recovery overlap, and the two saves reach the database in the opposite order: memory is quiet, the row
      stays active. */
  lemma SwappedSavesLeaveAnActiveRow()
    ensures Init(EMPTY)
    ensures var s := Run(EMPTY, SwappedSaves()); !Outstanding(s, KEY) && Orphan(s, KEY, 0) && OutOfStep(s, KEY, 0)
  {
    EmptyStarts();
    SwappedRun();
    FiringSecond();
    var s := Step(ResolutionSaved(), Save(0, Confirmed));
    assert s.issued[0] == Issue(KEY, 0, 0, 0);
    assert IssuedFor(s, 0, KEY);
  }

  lemma RunSnoc(s: State, events: seq<Event>, n: nat)
    requires n < |events|
    ensures Run(s, events[..n + 1]) == Step(Run(s, events[..n]), events[n])
  {
    assert events[..n + 1][..n] == events[..n];
  }

  function Misreported(): State {
    State(map[KEY := AlertState(true, Some(0), Some(0), None, 1)], map[0 := FIRING_ROW],
          map[0 := Operation(true, KEY, 0, FIRING_ROW, true)], 1, 1, [Issue(KEY, 0, 0, 0)], NOTHING)
  }

  lemma FiringMisreported()
    ensures Step(JustFired(), Save(0, ExecutedButReportedFailed)) == Misreported()
  {
    assert !IndexTaken(map[], 0, FIRING_ROW);
  }

  lemma MisreportCompensated()
    ensures var s := Step(Misreported(), Compensate(0));
            s.states == map[KEY := Quieted()] && s.operations == map[] && s.rows == map[0 := FIRING_ROW]
  {
    assert Misreported().operations - {0} == map[];
  }

  /** A firing save that is carried out and reported as failed leaves an orphaned row without any overlap. */
  lemma MisreportedSaveLeavesAnActiveRow()
    ensures Init(EMPTY)
    ensures Orphan(Run(EMPTY, [FIRES, Save(0, ExecutedButReportedFailed), Compensate(0)]), KEY, 0)
  {
    EmptyStarts();
    FirstFire();
    FiringMisreported();
    MisreportCompensated();
    var events := [FIRES, Save(0, ExecutedButReportedFailed), Compensate(0)];
    RunSnoc(EMPTY, events, 0);
    RunSnoc(EMPTY, events, 1);
    RunSnoc(EMPTY, events, 2);
    assert events[..3] == events && events[..0] == [];
  }

  /** Acknowledging a resolved alert of a quiet key breaks agreement. */
  lemma RevivingBreaksAgreement()
    ensures var s := EMPTY.(rows := map[0 := RESOLVED_ROW], nextId := 1);
            && Init(s) && AgreesFor(s, KEY) && !AgreesFor(Step(s, Acknowledge("t", 0)), KEY)
  {
    var rows: Rows := map[0 := RESOLVED_ROW];
    var s := EMPTY.(rows := rows, nextId := 1);
    assert LoadsActive(rows, []);
    assert s == Boot(rows, [], 0, 1);
    var s' := Step(s, Acknowledge("t", 0));
    assert !IndexTaken(rows, 0, RESOLVED_ROW);
    assert ActiveFor(s'.rows, KEY, 0) && !Firing(s', KEY, 0);
  }
}
