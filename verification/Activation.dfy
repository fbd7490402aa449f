/**
  The active/previous version pointer of one module: internal/modules/activation.go, activation_expected.go and
  activation_health.go, as sequential decisions and as concurrent processes that may crash at any step.
 */
module Activation {
  import opened Wrappers

  type Version = string

  /** `previous` is empty when there is nothing to roll back to. */
  datatype Selection = Selection(active: Version, previous: Version)

  /** .active.json */
  datatype StateFile = Missing | Corrupt | Selected(selection: Selection)

  datatype Operation =
    | Activate(version: Version)
    | ActivateWithHealth(version: Version)
    | Rollback
    | ActivateExpectedPrevious(expected: Selection)

  /** What an operation does with the state file it has read under the lock. */
  datatype Decision = Write(next: Selection) | Keep(current: Selection) | Refuse

  // ---------------------------------------------------------------- the decisions

  function Swapped(s: Selection): Selection {
    Selection(s.previous, s.active)
  }

  /** The checks before the lock is taken. */
  predicate Admissible(op: Operation, materialized: set<Version>) {
    match op
    case Activate(version) => version in materialized
    case ActivateWithHealth(version) => version in materialized
    case Rollback => true
    case ActivateExpectedPrevious(expected) =>
      && expected.active != "" && expected.previous != ""
      && expected.active in materialized && expected.previous in materialized
  }

  function DecideActivate(version: Version, file: StateFile): Decision {
    match file
    case Missing => Write(Selection(version, ""))
    case Corrupt => Refuse
    case Selected(current) =>
      if current.active == version then Keep(current) else Write(Selection(version, current.active))
  }

  function Decide(op: Operation, file: StateFile, materialized: set<Version>): Decision {
    match op
    case Activate(version) => DecideActivate(version, file)
    case ActivateWithHealth(version) => DecideActivate(version, file)
    case Rollback =>
      if !file.Selected? || file.selection.previous == "" || file.selection.previous !in materialized then Refuse
      else Write(Swapped(file.selection))
    case ActivateExpectedPrevious(expected) =>
      if !file.Selected? then Refuse
      else if file.selection == Swapped(expected) then Keep(file.selection)
      else if file.selection != expected then Refuse
      else Write(Swapped(expected))
  }

  /** The file names two different materialized versions, or one and no previous one. */
  ghost predicate FileOk(file: StateFile, materialized: set<Version>) {
    file.Selected? ==>
      && file.selection.active in materialized
      && (file.selection.previous == "" || file.selection.previous in materialized)
      && file.selection.active != file.selection.previous
  }

  lemma DecisionKeepsFileOk(op: Operation, file: StateFile, materialized: set<Version>)
    requires "" !in materialized && FileOk(file, materialized) && Admissible(op, materialized)
    requires Decide(op, file, materialized).Write?
    ensures FileOk(Selected(Decide(op, file, materialized).next), materialized)
    ensures file != Selected(Decide(op, file, materialized).next)
  {
  }

  // ---------------------------------------------------------------- concurrent processes

  datatype Outcome = Done(selection: Selection) | Refused

  datatype Pc =
    | Validate
    | TakeLock
    | Read
    | CheckHealth(next: Selection)
    | WriteTemp(next: Selection)
    | Rename(next: Selection)
    | Unlock(outcome: Outcome)
    | Finished(outcome: Outcome)

  /** `passed` records that the health check succeeded. */
  datatype Process = Process(op: Operation, pc: Pc, passed: bool)

  /** The lock file is removed by the process that created it and by nobody else. */
  datatype State = State(file: StateFile, locked: bool, materialized: set<Version>, processes: map<nat, Process>)

  datatype Event =
    | Begin(process: nat, op: Operation)
    | Act(process: nat, works: bool, healthy: bool)
    | Crash(process: nat)
    | Install(version: Version)

  function Goto(s: State, i: nat, pc: Pc): State
    requires i in s.processes
  {
    s.(processes := s.processes[i := s.processes[i].(pc := pc)])
  }

  function ActStep(s: State, i: nat, works: bool, healthy: bool): State
    requires i in s.processes
  {
    var p := s.processes[i];
    match p.pc
    case Validate => Goto(s, i, if works && Admissible(p.op, s.materialized) then TakeLock else Finished(Refused))
    case TakeLock => if works && !s.locked then Goto(s.(locked := true), i, Read) else Goto(s, i, Finished(Refused))
    case Read =>
      if !works then Goto(s, i, Unlock(Refused))
      else (
        match Decide(p.op, s.file, s.materialized)
        case Refuse => Goto(s, i, Unlock(Refused))
        case Keep(current) => Goto(s, i, Unlock(Done(current)))
        case Write(next) => Goto(s, i, if p.op.ActivateWithHealth? then CheckHealth(next) else WriteTemp(next)))
    case CheckHealth(next) =>
      if healthy then s.(processes := s.processes[i := Process(p.op, WriteTemp(next), true)])
      else Goto(s, i, Unlock(Refused))
    case WriteTemp(next) => Goto(s, i, if works then Rename(next) else Unlock(Refused))
    case Rename(next) =>
      if works then Goto(s.(file := Selected(next)), i, Unlock(Done(next))) else Goto(s, i, Unlock(Refused))
    case Unlock(outcome) => Goto(if works then s.(locked := false) else s, i, Finished(outcome))
    case Finished(_) => s
  }

  function Step(s: State, e: Event): State {
    match e
    case Begin(i, op) =>
      if i in s.processes then s else s.(processes := s.processes[i := Process(op, Validate, false)])
    case Act(i, works, healthy) => if i in s.processes then ActStep(s, i, works, healthy) else s
    case Crash(i) => s.(processes := s.processes - {i})
    case Install(version) => if version == "" then s else s.(materialized := s.materialized + {version})
  }

  function Run(s: State, events: seq<Event>): State {
    if events == [] then s else Step(Run(s, events[..|events| - 1]), events[|events| - 1])
  }

  ghost predicate Init(s: State) {
    s.processes == map[] && "" !in s.materialized && FileOk(s.file, s.materialized)
  }

  // ---------------------------------------------------------------- the invariant

  predicate Holding(pc: Pc) {
    pc.Read? || pc.CheckHealth? || pc.WriteTemp? || pc.Rename? || pc.Unlock?
  }

  ghost predicate ProcessOk(s: State, p: Process) {
    && (Holding(p.pc) ==> s.locked)
    && (Holding(p.pc) || p.pc.TakeLock? ==> Admissible(p.op, s.materialized))
    && (p.pc.CheckHealth? || p.pc.WriteTemp? || p.pc.Rename? ==> Decide(p.op, s.file, s.materialized) == Write(p.pc.next))
    && ((p.pc.WriteTemp? || p.pc.Rename?) && p.op.ActivateWithHealth? ==> p.passed)
  }

  ghost predicate Exclusive(s: State) {
    forall i, j :: i in s.processes && j in s.processes && Holding(s.processes[i].pc) && Holding(s.processes[j].pc) ==> i == j
  }

  ghost predicate Inv(s: State) {
    && (forall i :: i in s.processes ==> ProcessOk(s, s.processes[i]))
    && Exclusive(s) && "" !in s.materialized && FileOk(s.file, s.materialized)
  }

  lemma DecideGrows(op: Operation, file: StateFile, materialized: set<Version>, version: Version)
    requires Decide(op, file, materialized).Write?
    ensures Decide(op, file, materialized + {version}) == Decide(op, file, materialized)
  {
  }

  lemma InstallKeeps(s: State, version: Version)
    requires Inv(s) && version != ""
    ensures Inv(s.(materialized := s.materialized + {version}))
  {
    var s' := s.(materialized := s.materialized + {version});
    forall i | i in s'.processes ensures ProcessOk(s', s'.processes[i]) {
      var p := s.processes[i];
      assert ProcessOk(s, p);
      if p.pc.CheckHealth? || p.pc.WriteTemp? || p.pc.Rename? {
        DecideGrows(p.op, s.file, s.materialized, version);
      }
    }
  }

  lemma OtherProcessOk(s: State, i: nat, works: bool, healthy: bool, j: nat)
    requires Inv(s) && i in s.processes && j in s.processes && j != i
    ensures ProcessOk(ActStep(s, i, works, healthy), s.processes[j])
  {
    assert ProcessOk(s, s.processes[j]) && ProcessOk(s, s.processes[i]);
  }

  lemma OwnProcessOk(s: State, i: nat, works: bool, healthy: bool)
    requires Inv(s) && i in s.processes
    ensures var s' := ActStep(s, i, works, healthy);
            && s'.processes.Keys == s.processes.Keys && ProcessOk(s', s'.processes[i])
            && (forall j :: j in s.processes && j != i ==> s'.processes[j] == s.processes[j])
            && (Holding(s'.processes[i].pc) ==> Holding(s.processes[i].pc) || !s.locked)
  {
    assert ProcessOk(s, s.processes[i]);
  }

  lemma ActKeeps(s: State, i: nat, works: bool, healthy: bool)
    requires Inv(s) && i in s.processes
    ensures Inv(ActStep(s, i, works, healthy))
  {
    var s' := ActStep(s, i, works, healthy);
    OwnProcessOk(s, i, works, healthy);
    forall j | j in s'.processes && j != i ensures ProcessOk(s', s'.processes[j]) {
      OtherProcessOk(s, i, works, healthy, j);
    }
    forall j | j in s.processes ensures Holding(s.processes[j].pc) ==> s.locked {
      assert ProcessOk(s, s.processes[j]);
    }
    FileKept(s, i, works, healthy);
  }

  lemma FileKept(s: State, i: nat, works: bool, healthy: bool)
    requires Inv(s) && i in s.processes
    ensures var s' := ActStep(s, i, works, healthy); s'.materialized == s.materialized && FileOk(s'.file, s'.materialized)
  {
    var p := s.processes[i];
    assert ProcessOk(s, p);
    if p.pc.Rename? {
      DecisionKeepsFileOk(p.op, s.file, s.materialized);
    }
  }

  lemma StepKeeps(s: State, e: Event)
    requires Inv(s)
    ensures Inv(Step(s, e))
  {
    match e
    case Begin(i, op) =>
      forall j | j in s.processes ensures ProcessOk(Step(s, e), s.processes[j]) {
        assert ProcessOk(s, s.processes[j]);
      }
    case Act(i, works, healthy) =>
      if i in s.processes {
        ActKeeps(s, i, works, healthy);
      }
    case Crash(i) =>
      forall j | j in s.processes ensures ProcessOk(Step(s, e), s.processes[j]) {
        assert ProcessOk(s, s.processes[j]);
      }
    case Install(version) =>
      if version != "" {
        InstallKeeps(s, version);
      }
  }

  // ---------------------------------------------------------------- whole runs

  lemma {:induction false} RunKeeps(s: State, events: seq<Event>)
    requires Inv(s)
    ensures Inv(Run(s, events))
  {
    if events != [] {
      RunKeeps(s, events[..|events| - 1]);
      StepKeeps(Run(s, events[..|events| - 1]), events[|events| - 1]);
    }
  }

  /** After every run with crashes anywhere: two different versions, both materialized. */
  lemma SelectionAlwaysMaterialized(s: State, events: seq<Event>)
    requires Init(s)
    ensures FileOk(Run(s, events).file, Run(s, events).materialized)
  {
    RunKeeps(s, events);
  }

  /**
    Every change of the file is one whole operation applied to the file it replaces: nothing is lost between reading
    and renaming, and a health-gated change had its check pass.
   */
  lemma EveryChangeIsOneOperation(s: State, events: seq<Event>, e: Event)
    requires Init(s)
    ensures var before := Run(s, events);
            var after := Step(before, e);
            after.file == before.file ||
            (exists i :: i in before.processes
               && var p := before.processes[i];
                  && Admissible(p.op, before.materialized)
                  && Decide(p.op, before.file, before.materialized).Write?
                  && after.file == Selected(Decide(p.op, before.file, before.materialized).next)
                  && (p.op.ActivateWithHealth? ==> p.passed))
  {
    RunKeeps(s, events);
    var before := Run(s, events);
    if e.Act? && e.process in before.processes {
      assert ProcessOk(before, before.processes[e.process]);
    }
  }

  // ---------------------------------------------------------------- the sequential history of a run

  /** One committed operation, with the versions that existed and whether its health check had passed. */
  datatype Change = Change(op: Operation, materialized: set<Version>, passed: bool)

  function Replay(file: StateFile, history: seq<Change>): StateFile {
    if history == [] then file
    else
      var change := history[|history| - 1];
      var before := Replay(file, history[..|history| - 1]);
      var decision := Decide(change.op, before, change.materialized);
      if decision.Write? then Selected(decision.next) else before
  }

  /** The renames of a run, in order. */
  function History(s: State, events: seq<Event>): seq<Change> {
    if events == [] then []
    else
      var before := Run(s, events[..|events| - 1]);
      var e := events[|events| - 1];
      var earlier := History(s, events[..|events| - 1]);
      if e.Act? && e.works && e.process in before.processes && before.processes[e.process].pc.Rename?
      then
        var p := before.processes[e.process];
        earlier + [Change(p.op, before.materialized, p.passed)]
      else earlier
  }

  ghost predicate Committed(change: Change) {
    && "" !in change.materialized && Admissible(change.op, change.materialized)
    && (change.op.ActivateWithHealth? ==> change.passed)
  }

  lemma RenameReplays(s: State, e: Event, file: StateFile, history: seq<Change>)
    requires Inv(s) && Replay(file, history) == s.file
    requires e.Act? && e.works && e.process in s.processes && s.processes[e.process].pc.Rename?
    ensures var p := s.processes[e.process];
            var change := Change(p.op, s.materialized, p.passed);
            Replay(file, history + [change]) == Step(s, e).file && Committed(change)
  {
    var p := s.processes[e.process];
    assert ProcessOk(s, p);
    var change := Change(p.op, s.materialized, p.passed);
    assert (history + [change])[..|history|] == history;
  }

  /**
    Every run of concurrent, crashing processes leaves the file that its committed operations produce one after the
    other, each admissible and, where it is health-gated, with its check passed.
   */
  lemma {:induction false} RunIsSequential(s: State, events: seq<Event>)
    requires Init(s)
    ensures Replay(s.file, History(s, events)) == Run(s, events).file
    ensures forall change <- History(s, events) :: Committed(change)
  {
    if events != [] {
      var n := |events| - 1;
      RunIsSequential(s, events[..n]);
      RunKeeps(s, events[..n]);
      var before, e := Run(s, events[..n]), events[n];
      if e.Act? && e.works && e.process in before.processes && before.processes[e.process].pc.Rename? {
        RenameReplays(before, e, s.file, History(s, events[..n]));
      }
    }
  }

  /** Two rollbacks in a row cancel out of any history. */
  lemma RollbacksCancel(file: StateFile, history: seq<Change>, change: Change)
    requires "" !in change.materialized && change.op == Rollback
    requires FileOk(Replay(file, history), change.materialized)
    ensures Replay(file, history + [change, change]) == Replay(file, history)
  {
    assert (history + [change, change])[..|history| + 1] == history + [change];
    assert (history + [change])[..|history|] == history;
  }

  /** A rollback after an activation selects the version that was active before it. */
  lemma RollbackUndoesActivate(file: StateFile, history: seq<Change>, activate: Change, rollback: Change)
    requires activate.op.Activate? && rollback.op == Rollback && rollback.materialized == activate.materialized
    requires Replay(file, history).Selected? && FileOk(Replay(file, history), activate.materialized)
    requires "" !in activate.materialized && activate.op.version in activate.materialized
    requires activate.op.version != Replay(file, history).selection.active
    ensures var current := Replay(file, history).selection;
            Replay(file, history + [activate, rollback]) == Selected(Selection(current.active, activate.op.version))
  {
    assert (history + [activate, rollback])[..|history| + 1] == history + [activate];
    assert (history + [activate])[..|history|] == history;
  }

  /** An expected rollback acts only on its exact snapshot, and its immediate retry changes nothing. */
  lemma ExpectedRollbackIsCompareAndSwap(file: StateFile, history: seq<Change>, change: Change)
    requires change.op.ActivateExpectedPrevious? && "" !in change.materialized
    requires FileOk(Replay(file, history), change.materialized)
    ensures var expected := change.op.expected;
            var before, after := Replay(file, history), Replay(file, history + [change]);
            && after == (if before == Selected(expected) then Selected(Swapped(expected)) else before)
            && Replay(file, history + [change, change]) == after
  {
    assert (history + [change, change])[..|history| + 1] == history + [change];
    assert (history + [change])[..|history|] == history;
  }

  // ---------------------------------------------------------------- the abandoned lock

  /** Nobody is inside, yet the lock file exists. */
  ghost predicate Abandoned(s: State) {
    s.locked && forall i :: i in s.processes ==> !Holding(s.processes[i].pc)
  }

  /** The event crashes a process inside the lock, or is an unlock whose removal of the file fails. */
  predicate Abandons(s: State, e: Event) {
    match e
    case Crash(i) => i in s.processes && Holding(s.processes[i].pc)
    case Act(i, works, _) => i in s.processes && s.processes[i].pc.Unlock? && !works
    case _ => false
  }

  /** An abandoned lock stops all later activations; the selection stays as it was. */
  lemma {:induction false} AbandonedLockFreezes(s: State, events: seq<Event>)
    requires Abandoned(s)
    ensures Abandoned(Run(s, events)) && Run(s, events).file == s.file
  {
    if events != [] {
      AbandonedLockFreezes(s, events[..|events| - 1]);
    }
  }

  lemma AbandonStep(s: State, e: Event)
    requires Inv(s) && !Abandoned(s)
    ensures Abandoned(Step(s, e)) <==> Abandons(s, e)
  {
    if Abandons(s, e) {
      assert ProcessOk(s, s.processes[e.process]);
    } else if s.locked {
      var h :| h in s.processes && Holding(s.processes[h].pc);
      HolderStays(s, e, h);
    } else if Step(s, e).locked {
      assert Holding(Step(s, e).processes[e.process].pc);
    }
  }

  lemma HolderStays(s: State, e: Event, h: nat)
    requires h in s.processes && Holding(s.processes[h].pc) && !Abandons(s, e)
    ensures var s' := Step(s, e); !s'.locked || (h in s'.processes && Holding(s'.processes[h].pc))
  {
  }

  ghost predicate AbandonedBy(s: State, events: seq<Event>) {
    exists j :: 0 <= j < |events| && Abandons(Run(s, events[..j]), events[j])
  }

  lemma AbandonedBySnoc(s: State, events: seq<Event>)
    requires events != []
    ensures var n := |events| - 1;
            AbandonedBy(s, events) <==> AbandonedBy(s, events[..n]) || Abandons(Run(s, events[..n]), events[n])
  {
    var n := |events| - 1;
    assert forall j :: 0 <= j < n ==> events[..n][..j] == events[..j] && events[..n][j] == events[j];
    if AbandonedBy(s, events[..n]) {
      var j :| 0 <= j < n && Abandons(Run(s, events[..n][..j]), events[..n][j]);
      assert Abandons(Run(s, events[..j]), events[j]);
    }
  }

  lemma AbandonsOnlyOnce(s: State, e: Event)
    requires Abandoned(s)
    ensures Abandoned(Step(s, e)) && !Abandons(s, e)
  {
  }

  /** After any run the lock is abandoned if and only if it was there at the start, or some event of the run crashed a
      process inside the lock or failed to remove the lock file at unlock. */
  lemma {:induction false} AbandonedIff(s: State, events: seq<Event>)
    requires Init(s)
    ensures Abandoned(Run(s, events)) <==> s.locked || AbandonedBy(s, events)
  {
    if events != [] {
      var n := |events| - 1;
      AbandonedIff(s, events[..n]);
      AbandonedBySnoc(s, events);
      RunKeeps(s, events[..n]);
      var before := Run(s, events[..n]);
      if Abandoned(before) {
        AbandonsOnlyOnce(before, events[n]);
      } else {
        AbandonStep(before, events[n]);
      }
    }
  }

  /** Nothing crashes: a rollback is refused, and the removal of its lock file fails. */
  const FAILED_UNLOCK: seq<Event> := [
    Begin(0, Rollback),
    Act(0, true, true),
    Act(0, true, true),
    Act(0, true, true),
    Act(0, false, true)
  ]

  const UNUSED := State(Missing, false, {}, map[])

  function Rolling(pc: Pc, locked: bool): State {
    State(Missing, locked, {}, map[0 := Process(Rollback, pc, false)])
  }

  lemma FailedUnlockSteps()
    ensures Step(UNUSED, FAILED_UNLOCK[0]) == Rolling(Validate, false)
    ensures Step(Rolling(Validate, false), FAILED_UNLOCK[1]) == Rolling(TakeLock, false)
    ensures Step(Rolling(TakeLock, false), FAILED_UNLOCK[2]) == Rolling(Read, true)
    ensures Step(Rolling(Read, true), FAILED_UNLOCK[3]) == Rolling(Unlock(Refused), true)
    ensures Step(Rolling(Unlock(Refused), true), FAILED_UNLOCK[4]) == Rolling(Finished(Refused), true)
  {
  }

  lemma RunSnoc(s: State, events: seq<Event>, n: nat)
    requires n < |events|
    ensures Run(s, events[..n + 1]) == Step(Run(s, events[..n]), events[n])
  {
    assert events[..n + 1][..n] == events[..n];
  }

  /** A module can be frozen without any crash. */
  lemma FailedUnlockFreezes()
    ensures Init(UNUSED) && !UNUSED.locked && Abandoned(Run(UNUSED, FAILED_UNLOCK))
  {
    FailedUnlockSteps();
    RunSnoc(UNUSED, FAILED_UNLOCK, 0);
    RunSnoc(UNUSED, FAILED_UNLOCK, 1);
    RunSnoc(UNUSED, FAILED_UNLOCK, 2);
    RunSnoc(UNUSED, FAILED_UNLOCK, 3);
    RunSnoc(UNUSED, FAILED_UNLOCK, 4);
    assert FAILED_UNLOCK[..5] == FAILED_UNLOCK && FAILED_UNLOCK[..0] == [];
  }

  // ---------------------------------------------------------------- an operation by itself

  /** The events of one process whose every call works. */
  function Acts(i: nat, healthy: bool, n: nat): seq<Event> {
    seq(n, _ => Act(i, true, healthy))
  }

  /** The version becomes active in front of the one that was; activating the active version changes nothing. */
  predicate Activates(version: Version, file: StateFile, outcome: Outcome, file': StateFile) {
    match file
    case Missing => file' == Selected(Selection(version, "")) && outcome == Done(Selection(version, ""))
    case Corrupt => file' == file && outcome == Refused
    case Selected(current) =>
      if current.active == version then file' == file && outcome == Done(current)
      else file' == Selected(Selection(version, current.active)) && outcome == Done(Selection(version, current.active))
  }

  /** What each operation is for, and when it is refused. */
  predicate Achieves(op: Operation, healthy: bool, file: StateFile, materialized: set<Version>, outcome: Outcome, file': StateFile) {
    match op
    case Activate(version) =>
      if version in materialized then Activates(version, file, outcome, file') else file' == file && outcome == Refused
    case ActivateWithHealth(version) =>
      if version in materialized && (healthy || (file.Selected? && file.selection.active == version))
      then Activates(version, file, outcome, file')
      else file' == file && outcome == Refused
    case Rollback =>
      if file.Selected? && file.selection.previous != "" && file.selection.previous in materialized
      then
        && file' == Selected(Selection(file.selection.previous, file.selection.active))
        && outcome == Done(file'.selection)
      else file' == file && outcome == Refused
    case ActivateExpectedPrevious(expected) =>
      var after := Selection(expected.previous, expected.active);
      if expected.active in materialized && expected.previous in materialized && expected.active != "" && expected.previous != ""
         && (file == Selected(expected) || file == Selected(after))
      then file' == Selected(after) && outcome == Done(after)
      else file' == file && outcome == Refused
  }

  /** n calls later. */
  function After(s: State, i: nat, healthy: bool, n: nat): State {
    if n == 0 then s else Step(After(s, i, healthy, n - 1), Act(i, true, healthy))
  }

  lemma {:induction false} RunActs(s: State, i: nat, healthy: bool, n: nat)
    ensures Run(s, Acts(i, healthy, n)) == After(s, i, healthy, n)
  {
    if n > 0 {
      var acts := Acts(i, healthy, n);
      RunActs(s, i, healthy, n - 1);
      assert acts != [] && acts[..n - 1] == Acts(i, healthy, n - 1) && acts[n - 1] == Act(i, true, healthy);
      assert Run(s, acts) == Step(Run(s, acts[..n - 1]), acts[n - 1]);
    }
  }

  /** Process i has reached this point; only the file and the lock may have changed since the start. */
  ghost predicate At(s: State, i: nat, op: Operation, pc: Pc, locked: bool, file: StateFile, materialized: set<Version>) {
    && i in s.processes && s.processes[i].op == op && s.processes[i].pc == pc
    && s.locked == locked && s.file == file && s.materialized == materialized
  }

  lemma {:induction false} FinishedStays(s: State, i: nat, healthy: bool, n: nat)
    requires i in s.processes && s.processes[i].pc.Finished?
    ensures After(s, i, healthy, n) == s
  {
    if n > 0 {
      FinishedStays(s, i, healthy, n - 1);
    }
  }

  lemma {:induction false} AfterAdd(s: State, i: nat, healthy: bool, m: nat, n: nat)
    ensures After(After(s, i, healthy, m), i, healthy, n) == After(s, i, healthy, m + n)
  {
    if n > 0 {
      AfterAdd(s, i, healthy, m, n - 1);
    }
  }

  lemma Unlocks(s: State, i: nat, op: Operation, outcome: Outcome, healthy: bool, n: nat)
    requires At(s, i, op, Unlock(outcome), true, s.file, s.materialized) && n > 0
    ensures At(After(s, i, healthy, n), i, op, Finished(outcome), false, s.file, s.materialized)
  {
    AfterAdd(s, i, healthy, 1, n - 1);
    assert After(s, i, healthy, 0) == s;
    FinishedStays(After(s, i, healthy, 1), i, healthy, n - 1);
  }

  /** From the write of the new selection on. */
  lemma WritesThrough(s: State, i: nat, op: Operation, next: Selection, healthy: bool, n: nat)
    requires At(s, i, op, WriteTemp(next), true, s.file, s.materialized) && n >= 3
    ensures At(After(s, i, healthy, n), i, op, Finished(Done(next)), false, Selected(next), s.materialized)
  {
    var s1 := Step(s, Act(i, true, healthy));
    var s2 := Step(s1, Act(i, true, healthy));
    assert After(s, i, healthy, 0) == s && After(s, i, healthy, 1) == s1 && After(s, i, healthy, 2) == s2;
    AfterAdd(s, i, healthy, 2, n - 2);
    Unlocks(s2, i, op, Done(next), healthy, n - 2);
  }

  /** From the read of the file on. */
  lemma ReadDecides(s: State, i: nat, op: Operation, healthy: bool)
    requires At(s, i, op, Read, true, s.file, s.materialized)
    ensures var decision := Decide(op, s.file, s.materialized);
            var s' := After(s, i, healthy, 5);
            if decision.Write? && (healthy || !op.ActivateWithHealth?)
            then At(s', i, op, Finished(Done(decision.next)), false, Selected(decision.next), s.materialized)
            else At(s', i, op, Finished(if decision.Keep? then Done(decision.current) else Refused), false, s.file, s.materialized)
  {
    var decision := Decide(op, s.file, s.materialized);
    var s1 := Step(s, Act(i, true, healthy));
    assert After(s, i, healthy, 0) == s && After(s, i, healthy, 1) == s1;
    AfterAdd(s, i, healthy, 1, 4);
    if !decision.Write? {
      Unlocks(s1, i, op, if decision.Keep? then Done(decision.current) else Refused, healthy, 4);
    } else if !op.ActivateWithHealth? {
      WritesThrough(s1, i, op, decision.next, healthy, 4);
    } else {
      HealthDecides(s1, i, op, decision.next, healthy);
    }
  }

  lemma HealthDecides(s: State, i: nat, op: Operation, next: Selection, healthy: bool)
    requires At(s, i, op, CheckHealth(next), true, s.file, s.materialized)
    ensures var s' := After(s, i, healthy, 4);
            if healthy then At(s', i, op, Finished(Done(next)), false, Selected(next), s.materialized)
            else At(s', i, op, Finished(Refused), false, s.file, s.materialized)
  {
    var s1 := Step(s, Act(i, true, healthy));
    assert After(s, i, healthy, 0) == s && After(s, i, healthy, 1) == s1;
    AfterAdd(s, i, healthy, 1, 3);
    if healthy {
      WritesThrough(s1, i, op, next, healthy, 3);
    } else {
      Unlocks(s1, i, op, Refused, healthy, 3);
    }
  }

  lemma ReachesRead(s: State, i: nat, op: Operation, healthy: bool)
    requires At(s, i, op, Validate, false, s.file, s.materialized)
    ensures if Admissible(op, s.materialized)
            then At(After(s, i, healthy, 2), i, op, Read, true, s.file, s.materialized)
            else At(After(s, i, healthy, 2), i, op, Finished(Refused), false, s.file, s.materialized)
  {
    var s1 := Step(s, Act(i, true, healthy));
    assert After(s, i, healthy, 0) == s && After(s, i, healthy, 1) == s1;
  }

  /** An operation that finds the lock free, however many processes wait outside it, runs to its end, achieves what it is for
      or is refused for one of the stated reasons, and gives the lock back. */
  lemma LoneOperation(s: State, i: nat, op: Operation, healthy: bool)
    requires i !in s.processes && !s.locked
    ensures var s' := Run(Step(s, Begin(i, op)), Acts(i, healthy, 7));
            && i in s'.processes && s'.processes[i].pc.Finished? && !s'.locked && s'.materialized == s.materialized
            && Achieves(op, healthy, s.file, s.materialized, s'.processes[i].pc.outcome, s'.file)
  {
    var begun := Step(s, Begin(i, op));
    RunActs(begun, i, healthy, 7);
    ReachesRead(begun, i, op, healthy);
    AfterAdd(begun, i, healthy, 2, 5);
    var mid := After(begun, i, healthy, 2);
    if Admissible(op, s.materialized) {
      ReadDecides(mid, i, op, healthy);
    } else {
      FinishedStays(mid, i, healthy, 5);
    }
  }
}
