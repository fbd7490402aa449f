/**
  Concurrent installers of one module version: internal/modules/materialize.go and materialize_retry.go as processes over
  a filesystem with exclusive create, atomic rename and crashes at any step. Nothing is assumed about the lock's
  exclusiveness: a stale lock may be reclaimed while its owner still runs, and any installer may remove another's lock.
 */
module Materialize {
  import opened Wrappers
  import opened Fingerprint
  import opened Payload
  import opened Tree

  const STALE_AFTER := 1800

  datatype Result = Materialized | Existing | Verified | Failed

  /** The next filesystem operation of an installer. */
  datatype Pc =
    | CheckTarget
    | TakeLock
    | InspectLock
    | InspectTarget(inode: nat)
    | ReinspectLock(inode: nat)
    | RemoveLock
    | RetakeLock
    | MakeStage
    | WriteFile(stage: nat, written: nat)
    | Recheck(stage: nat)
    | Promote(stage: nat)
    | RemoveStage(stage: nat, result: Result)
    | Unlock(result: Result)
    | Finished(result: Result)

  datatype Installer = Installer(files: seq<PayloadFile>, pc: Pc)

  datatype Lock = Lock(inode: nat, modified: int)

  /** The version's directory entries: the target, the install lock and the staging directories. */
  datatype State = State(
    target: Option<Tree>,
    lock: Option<Lock>,
    nextInode: nat,
    stages: map<nat, Tree>,
    installers: map<nat, Installer>)

  /**
    Act performs an installer's next operation, at time `now`; `works` is false when the operating system fails it, and
    `torn` is what a failed or interrupted write leaves in the staging directory. `name` is a candidate staging name.
   */
  datatype Event =
    | Begin(installer: nat, files: seq<PayloadFile>)
    | Act(installer: nat, now: int, works: bool, torn: Tree, name: nat)
    | Crash(installer: nat, torn: Tree)

  function StageOf(pc: Pc): Option<nat> {
    match pc
    case WriteFile(stage, _) => Some(stage)
    case Recheck(stage) => Some(stage)
    case Promote(stage) => Some(stage)
    case RemoveStage(stage, _) => Some(stage)
    case _ => None
  }

  /** The tests of one file before it is written. */
  predicate Acceptable(files: seq<PayloadFile>, n: nat)
    requires n < |files|
  {
    && CleanPayloadPath(files[n].path).Some?
    && (forall i :: 0 <= i < n ==> files[i].path != files[n].path)
    && 0 <= files[n].mode <= MAX_MODE
    && ValidatePayloadLimits(n, TotalBytes(files[..n]), |files[n].data|)
  }

  function Goto(s: State, i: nat, pc: Pc): State
    requires i in s.installers
  {
    s.(installers := s.installers[i := s.installers[i].(pc := pc)])
  }

  function CreateLock(s: State, now: int): State {
    s.(lock := Some(Lock(s.nextInode, now)), nextInode := s.nextInode + 1)
  }

  function LockStep(s: State, i: nat, now: int, works: bool): State
    requires i in s.installers
  {
    match s.installers[i].pc
    case TakeLock =>
      if !works then Goto(s, i, Finished(Failed))
      else if s.lock.None? then Goto(CreateLock(s, now), i, MakeStage)
      else Goto(s, i, InspectLock)
    case InspectLock =>
      if !works then Goto(s, i, Finished(Failed))
      else if s.lock.None? then Goto(s, i, RetakeLock)
      else if now - s.lock.value.modified < STALE_AFTER then Goto(s, i, Finished(Failed))
      else Goto(s, i, InspectTarget(s.lock.value.inode))
    case InspectTarget(inode) =>
      if !works then Goto(s, i, Finished(Failed))
      else if s.target.Some? then Goto(s, i, Finished(Existing))
      else Goto(s, i, ReinspectLock(inode))
    case ReinspectLock(inode) =>
      if !works then Goto(s, i, Finished(Failed))
      else if s.lock.None? then Goto(s, i, RetakeLock)
      else if s.lock.value.inode != inode then Goto(s, i, Finished(Failed))
      else Goto(s, i, RemoveLock)
    case RemoveLock =>
      if !works then Goto(s, i, Finished(Failed)) else Goto(s.(lock := None), i, RetakeLock)
    case RetakeLock =>
      if !works || s.lock.Some? then Goto(s, i, Finished(Failed)) else Goto(CreateLock(s, now), i, MakeStage)
    case _ => s
  }

  function StageStep(s: State, i: nat, works: bool, torn: Tree): State
    requires i in s.installers
  {
    var files := s.installers[i].files;
    match s.installers[i].pc
    case WriteFile(stage, n) =>
      if n >= |files| then Goto(s, i, if files == [] then RemoveStage(stage, Failed) else Recheck(stage))
      else if !Acceptable(files, n) || stage !in s.stages then Goto(s, i, RemoveStage(stage, Failed))
      else
        var tree := AddFile(s.stages[stage], files[n]);
        if works && tree.Some?
        then Goto(s.(stages := s.stages[stage := tree.value]), i, WriteFile(stage, n + 1))
        else Goto(s.(stages := s.stages[stage := torn]), i, RemoveStage(stage, Failed))
    case Recheck(stage) =>
      if !works then Goto(s, i, RemoveStage(stage, Failed))
      else if s.target.Some? then Goto(s, i, RemoveStage(stage, Existing))
      else Goto(s, i, Promote(stage))
    case Promote(stage) =>
      // Renaming onto a non-empty directory fails.
      if !works || stage !in s.stages || (s.target.Some? && s.target.value != map[]) then Goto(s, i, RemoveStage(stage, Failed))
      else Goto(s.(target := Some(s.stages[stage]), stages := s.stages - {stage}), i, Unlock(Materialized))
    case RemoveStage(stage, result) =>
      if works then Goto(s.(stages := s.stages - {stage}), i, Unlock(result))
      else Goto(s, i, Unlock(result))
    case _ => s
  }

  ghost function ActStep(s: State, i: nat, now: int, works: bool, torn: Tree, name: nat): State
    requires i in s.installers
  {
    match s.installers[i].pc
    case CheckTarget =>
      if !works then Goto(s, i, Finished(Failed))
      else if s.target.Some? then Goto(s, i, Finished(Existing))
      else Goto(s, i, TakeLock)
    case MakeStage =>
      if !works || name in s.stages then Goto(s, i, Unlock(Failed))
      else Goto(s.(stages := s.stages[name := map[]]), i, WriteFile(name, 0))
    case Unlock(result) => Goto(if works then s.(lock := None) else s, i, Finished(result))
    case Finished(result) =>
      // The retry-safe entry point goes on to compare an existing version with its payload.
      if result != Existing then s
      else if works && s.target.Some? && Indexable(s.installers[i].files) && Holds(s.target.value, s.installers[i].files)
      then Goto(s, i, Finished(Verified))
      else Goto(s, i, Finished(Failed))
    case WriteFile(_, _) => StageStep(s, i, works, torn)
    case Recheck(_) => StageStep(s, i, works, torn)
    case Promote(_) => StageStep(s, i, works, torn)
    case RemoveStage(_, _) => StageStep(s, i, works, torn)
    case _ => LockStep(s, i, now, works)
  }

  ghost function Step(s: State, e: Event): State {
    match e
    case Begin(i, files) =>
      if i in s.installers then s else s.(installers := s.installers[i := Installer(files, CheckTarget)])
    case Act(i, now, works, torn, name) => if i in s.installers then ActStep(s, i, now, works, torn, name) else s
    case Crash(i, torn) =>
      if i !in s.installers then s
      else
        var pc := s.installers[i].pc;
        var left := s.(installers := s.installers - {i});
        // Only a half-written staging directory can be left behind; after the last file nothing writes to it.
        if (pc.WriteFile? || pc.RemoveStage?) && pc.stage in s.stages then left.(stages := s.stages[pc.stage := torn])
        else left
  }

  ghost function Run(s: State, events: seq<Event>): State {
    if events == [] then s else Step(Run(s, events[..|events| - 1]), events[|events| - 1])
  }

  ghost predicate Init(s: State) {
    s.installers == map[]
  }

  // ---------------------------------------------------------------- the invariant

  /** What an installer knows about its own staging directory and its own result. */
  ghost predicate InstallerOk(s: State, p: Installer) {
    match p.pc
    case WriteFile(stage, n) =>
      && stage in s.stages && n <= |p.files| && Build(p.files[..n]) == Some(s.stages[stage])
      && (forall k :: 0 <= k < n ==> Acceptable(p.files, k))
    case Recheck(stage) => Complete(s, stage, p.files)
    case Promote(stage) => Complete(s, stage, p.files)
    case RemoveStage(stage, result) => stage in s.stages && result != Materialized && result != Verified
    case Unlock(result) => ResultOk(s, result, p.files)
    case Finished(result) => ResultOk(s, result, p.files)
    case _ => true
  }

  ghost predicate Complete(s: State, stage: nat, files: seq<PayloadFile>) {
    && stage in s.stages && files != [] && Build(files) == Some(s.stages[stage])
    && (forall k :: 0 <= k < |files| ==> Acceptable(files, k))
  }

  ghost predicate ResultOk(s: State, result: Result, files: seq<PayloadFile>) {
    result == Materialized || result == Verified ==>
      s.target.Some? && Indexable(files) && Holds(s.target.value, files)
  }

  ghost predicate AllOk(s: State) {
    forall i :: i in s.installers ==> InstallerOk(s, s.installers[i])
  }

  ghost predicate OwnStages(s: State) {
    forall i, j :: i in s.installers && j in s.installers && i != j && StageOf(s.installers[i].pc).Some? ==>
      StageOf(s.installers[i].pc) != StageOf(s.installers[j].pc)
  }

  /** An empty target directory was there before and stops every installer at its first check. */
  ghost predicate EmptyTargetStops(s: State) {
    s.target == Some(map[]) ==>
      forall i :: i in s.installers ==> s.installers[i].pc.CheckTarget? || s.installers[i].pc.Finished?
  }

  ghost predicate Inv(s: State) {
    AllOk(s) && OwnStages(s) && EmptyTargetStops(s)
  }

  // ---------------------------------------------------------------- preservation

  /** A step of installer i that keeps the target and the others' staging directories. */
  ghost predicate Local(s: State, i: nat, s': State) {
    && (s.target.Some? ==> s'.target == s.target)
    && (s'.target != s.target ==> s'.target != Some(map[]))
    && (forall j :: j in s'.installers && j != i ==> j in s.installers && s'.installers[j] == s.installers[j])
    && (forall j :: j in s.installers && j != i && StageOf(s.installers[j].pc).Some? ==>
          var stage := StageOf(s.installers[j].pc).value;
          stage in s.stages ==> stage in s'.stages && s'.stages[stage] == s.stages[stage])
  }

  lemma OthersKeep(s: State, i: nat, s': State, j: nat)
    requires j in s'.installers && j != i
    requires Local(s, i, s') && InstallerOk(s, s'.installers[j])
    ensures InstallerOk(s', s'.installers[j])
  {
  }

  lemma LocalKeeps(s: State, i: nat, s': State)
    requires Inv(s) && Local(s, i, s')
    requires i in s'.installers ==> InstallerOk(s', s'.installers[i])
    requires i in s'.installers && StageOf(s'.installers[i].pc).Some? ==>
               forall j :: j in s'.installers && j != i ==> StageOf(s'.installers[j].pc) != StageOf(s'.installers[i].pc)
    requires s'.target == Some(map[]) && i in s'.installers ==>
               s'.installers[i].pc.CheckTarget? || s'.installers[i].pc.Finished?
    ensures Inv(s')
  {
    forall j | j in s'.installers ensures InstallerOk(s', s'.installers[j]) {
      if j != i {
        OthersKeep(s, i, s', j);
      }
    }
  }

  /** Where the lock protocol may take an installer. */
  predicate LockPc(pc: Pc) {
    StageOf(pc).None? && !pc.Unlock? && (pc.Finished? ==> pc.result == Failed || pc.result == Existing)
  }

  lemma LockShape(s: State, i: nat, now: int, works: bool)
    requires i in s.installers && LockPc(s.installers[i].pc)
    ensures var s' := LockStep(s, i, now, works);
            && s'.target == s.target && s'.stages == s.stages && i in s'.installers
            && s'.installers == s.installers[i := s.installers[i].(pc := s'.installers[i].pc)]
            && LockPc(s'.installers[i].pc)
            && (s.installers[i].pc.Finished? || s.installers[i].pc.CheckTarget? ==> s' == s)
  {
    assert s.installers[i := s.installers[i].(pc := s.installers[i].pc)] == s.installers;
  }

  lemma LockKeeps(s: State, i: nat, now: int, works: bool)
    requires Inv(s) && i in s.installers && LockPc(s.installers[i].pc)
    ensures Inv(LockStep(s, i, now, works)) && Local(s, i, LockStep(s, i, now, works))
  {
    LockShape(s, i, now, works);
    var s' := LockStep(s, i, now, works);
    if s' != s {
      LocalKeeps(s, i, s');
    }
  }

  /** A change of pc, with or without a change of the installer's own staging directory. */
  lemma StageMoved(s: State, i: nat, stages: map<nat, Tree>, pc: Pc)
    requires Inv(s) && i in s.installers && StageOf(s.installers[i].pc).Some?
    requires StageOf(pc) == StageOf(s.installers[i].pc)
    requires var stage := StageOf(pc).value;
             forall k :: k in s.stages && k != stage ==> k in stages && stages[k] == s.stages[k]
    requires InstallerOk(s.(stages := stages), Installer(s.installers[i].files, pc))
    ensures var s' := Goto(s.(stages := stages), i, pc); Inv(s') && Local(s, i, s')
  {
    LocalKeeps(s, i, Goto(s.(stages := stages), i, pc));
  }

  lemma BuildNext(files: seq<PayloadFile>, n: nat)
    requires n < |files| && Build(files[..n]).Some?
    ensures Build(files[..n + 1]) == AddFile(Build(files[..n]).value, files[n])
  {
    assert files[..n + 1][..n] == files[..n];
  }

  lemma WroteFile(s: State, i: nat, tree: Tree)
    requires Inv(s) && i in s.installers && s.installers[i].pc.WriteFile?
    requires var p := s.installers[i];
             p.pc.written < |p.files| && Acceptable(p.files, p.pc.written) && Build(p.files[..p.pc.written + 1]) == Some(tree)
    ensures var pc := s.installers[i].pc;
            var s' := Goto(s.(stages := s.stages[pc.stage := tree]), i, WriteFile(pc.stage, pc.written + 1));
            Inv(s') && Local(s, i, s')
  {
    var p := s.installers[i];
    assert InstallerOk(s, p);
    StageMoved(s, i, s.stages[p.pc.stage := tree], WriteFile(p.pc.stage, p.pc.written + 1));
  }

  lemma WroteAll(s: State, i: nat)
    requires Inv(s) && i in s.installers && s.installers[i].pc.WriteFile? && s.installers[i].pc.written >= |s.installers[i].files|
    ensures var p := s.installers[i];
            var s' := Goto(s, i, if p.files == [] then RemoveStage(p.pc.stage, Failed) else Recheck(p.pc.stage));
            Inv(s') && Local(s, i, s')
  {
    var p := s.installers[i];
    assert InstallerOk(s, p);
    assert p.files[..p.pc.written] == p.files;
    StageMoved(s, i, s.stages, if p.files == [] then RemoveStage(p.pc.stage, Failed) else Recheck(p.pc.stage));
  }

  lemma GaveUp(s: State, i: nat, torn: Tree)
    requires Inv(s) && i in s.installers && s.installers[i].pc.WriteFile?
    ensures var stage := s.installers[i].pc.stage;
            var s' := Goto(s.(stages := s.stages[stage := torn]), i, RemoveStage(stage, Failed));
            Inv(s') && Local(s, i, s')
  {
    var stage := s.installers[i].pc.stage;
    StageMoved(s, i, s.stages[stage := torn], RemoveStage(stage, Failed));
  }

  lemma WriteKeeps(s: State, i: nat, works: bool, torn: Tree)
    requires Inv(s) && i in s.installers && s.installers[i].pc.WriteFile?
    ensures Inv(StageStep(s, i, works, torn)) && Local(s, i, StageStep(s, i, works, torn))
  {
    var p := s.installers[i];
    var stage, n := p.pc.stage, p.pc.written;
    assert InstallerOk(s, p);
    if n >= |p.files| {
      WroteAll(s, i);
    } else {
      BuildNext(p.files, n);
      GaveUp(s, i, torn);
      GaveUp(s, i, s.stages[stage]);
      assert s.stages[stage := s.stages[stage]] == s.stages;
      if Acceptable(p.files, n) && AddFile(s.stages[stage], p.files[n]).Some? {
        WroteFile(s, i, AddFile(s.stages[stage], p.files[n]).value);
      }
    }
  }

  lemma AcceptableIndexable(files: seq<PayloadFile>)
    requires forall k :: 0 <= k < |files| ==> Acceptable(files, k)
    ensures Indexable(files)
  {
    forall k | 0 <= k < |files| ensures SafePath(files[k].path) {
      assert Acceptable(files, k);
      CleanPayloadPathIffSafe(files[k].path);
    }
    forall i, j | 0 <= i < j < |files| ensures files[i].path != files[j].path {
      assert Acceptable(files, j);
    }
  }

  lemma PromoteKeeps(s: State, i: nat, works: bool, torn: Tree)
    requires Inv(s) && i in s.installers && s.installers[i].pc.Promote?
    ensures Inv(StageStep(s, i, works, torn)) && Local(s, i, StageStep(s, i, works, torn))
  {
    var s' := StageStep(s, i, works, torn);
    var p := s.installers[i];
    assert InstallerOk(s, p);
    BuildHolds(p.files);
    AcceptableIndexable(p.files);
    LocalKeeps(s, i, s');
  }

  lemma StageKeeps(s: State, i: nat, works: bool, torn: Tree)
    requires Inv(s) && i in s.installers && StageOf(s.installers[i].pc).Some?
    ensures Inv(StageStep(s, i, works, torn)) && Local(s, i, StageStep(s, i, works, torn))
  {
    var p := s.installers[i];
    assert InstallerOk(s, p);
    if p.pc.WriteFile? {
      WriteKeeps(s, i, works, torn);
    } else if p.pc.Promote? {
      PromoteKeeps(s, i, works, torn);
    } else {
      LocalKeeps(s, i, StageStep(s, i, works, torn));
    }
  }

  lemma ActKeeps(s: State, i: nat, now: int, works: bool, torn: Tree, name: nat)
    requires Inv(s) && i in s.installers
    ensures Inv(ActStep(s, i, now, works, torn, name)) && Local(s, i, ActStep(s, i, now, works, torn, name))
  {
    var p := s.installers[i];
    assert InstallerOk(s, p);
    if StageOf(p.pc).Some? {
      StageKeeps(s, i, works, torn);
    } else if p.pc.CheckTarget? || p.pc.Unlock? || p.pc.Finished? {
      EdgeKeeps(s, i, now, works, torn, name);
    } else if p.pc.MakeStage? {
      MakeStageKeeps(s, i, now, works, torn, name);
    } else {
      LockKeeps(s, i, now, works);
    }
  }

  lemma EdgeKeeps(s: State, i: nat, now: int, works: bool, torn: Tree, name: nat)
    requires Inv(s) && i in s.installers
    requires var pc := s.installers[i].pc; pc.CheckTarget? || pc.Unlock? || pc.Finished?
    ensures Inv(ActStep(s, i, now, works, torn, name)) && Local(s, i, ActStep(s, i, now, works, torn, name))
  {
    var s' := ActStep(s, i, now, works, torn, name);
    assert InstallerOk(s, s.installers[i]);
    if s' != s {
      LocalKeeps(s, i, s');
    }
  }

  lemma MakeStageKeeps(s: State, i: nat, now: int, works: bool, torn: Tree, name: nat)
    requires Inv(s) && i in s.installers && s.installers[i].pc.MakeStage?
    ensures Inv(ActStep(s, i, now, works, torn, name)) && Local(s, i, ActStep(s, i, now, works, torn, name))
  {
    var s' := ActStep(s, i, now, works, torn, name);
    forall j | j in s.installers && j != i && StageOf(s.installers[j].pc).Some?
      ensures StageOf(s.installers[j].pc).value in s.stages
    {
      assert InstallerOk(s, s.installers[j]);
    }
    LocalKeeps(s, i, s');
  }

  lemma StepKeeps(s: State, e: Event)
    requires Inv(s)
    ensures Inv(Step(s, e)) && (s.target.Some? ==> Step(s, e).target == s.target)
  {
    match e
    case Begin(i, files) =>
      if i !in s.installers {
        LocalKeeps(s, i, Step(s, e));
      }
    case Act(i, now, works, torn, name) =>
      if i in s.installers {
        ActKeeps(s, i, now, works, torn, name);
      }
    case Crash(i, torn) =>
      if i in s.installers {
        LocalKeeps(s, i, Step(s, e));
      }
  }

  // ---------------------------------------------------------------- whole runs

  lemma {:induction false} RunKeeps(s: State, events: seq<Event>)
    requires Inv(s)
    ensures Inv(Run(s, events)) && (s.target.Some? ==> Run(s, events).target == s.target)
  {
    if events != [] {
      RunKeeps(s, events[..|events| - 1]);
      StepKeeps(Run(s, events[..|events| - 1]), events[|events| - 1]);
    }
  }

  /** A version that exists never changes, whatever later installs, crashes and reclaimed locks do. */
  lemma PromotedNeverChanges(s: State, before: seq<Event>, after: seq<Event>)
    requires Init(s) && Run(s, before).target.Some?
    ensures Run(Run(s, before), after).target == Run(s, before).target
  {
    RunKeeps(s, before);
    RunKeeps(Run(s, before), after);
  }

  /** A successful retry-safe installation: the version is, and stays, exactly its payload, on either path. */
  lemma SuccessMeansExactPayload(s: State, before: seq<Event>, after: seq<Event>, i: nat)
    requires Init(s) && i in Run(s, before).installers
    requires Run(s, before).installers[i].pc in {Finished(Materialized), Finished(Verified)}
    ensures var files := Run(s, before).installers[i].files;
            var target := Run(Run(s, before), after).target;
            target.Some? && Indexable(files) && Holds(target.value, files)
  {
    RunKeeps(s, before);
    assert InstallerOk(Run(s, before), Run(s, before).installers[i]);
    PromotedNeverChanges(s, before, after);
  }

  /** Two successful installations of one version have the same files, whatever packages they came from. */
  lemma SuccessesAgree(s: State, events: seq<Event>, i: nat, j: nat, f: PayloadFile)
    requires Init(s) && i in Run(s, events).installers && j in Run(s, events).installers
    requires Run(s, events).installers[i].pc in {Finished(Materialized), Finished(Verified)}
    requires Run(s, events).installers[j].pc in {Finished(Materialized), Finished(Verified)}
    requires forall g :: g in Run(s, events).installers[i].files || g in Run(s, events).installers[j].files ==>
               0 <= g.mode <= MAX_MODE
    ensures f in Run(s, events).installers[i].files <==> f in Run(s, events).installers[j].files
  {
    SuccessMeansExactPayload(s, events, [], i);
    SuccessMeansExactPayload(s, events, [], j);
    var s' := Run(s, events);
    var ours, theirs := s'.installers[i].files, s'.installers[j].files;
    if f in ours {
      HoldsDetermines(s'.target.value, ours, theirs, f);
    }
    if f in theirs {
      HoldsDetermines(s'.target.value, theirs, ours, f);
    }
  }

  /** The payloads that installations of a run have started with. */
  ghost predicate Begun(events: seq<Event>, files: seq<PayloadFile>) {
    exists e <- events :: e.Begin? && e.files == files
  }

  ghost predicate FromBegun(s: State, events: seq<Event>) {
    forall i :: i in s.installers ==> Begun(events, s.installers[i].files)
  }

  lemma BegunGrows(events: seq<Event>, files: seq<PayloadFile>)
    requires events != [] && Begun(events[..|events| - 1], files)
    ensures Begun(events, files)
  {
    var e :| e in events[..|events| - 1] && e.Begin? && e.files == files;
    assert e in events;
  }

  ghost predicate SameFiles(s: State, s': State) {
    s'.installers.Keys == s.installers.Keys && forall j :: j in s.installers ==> s'.installers[j].files == s.installers[j].files
  }

  lemma LockKeepsFiles(s: State, i: nat, now: int, works: bool)
    requires i in s.installers
    ensures SameFiles(s, LockStep(s, i, now, works))
  {
  }

  lemma StageKeepsFiles(s: State, i: nat, works: bool, torn: Tree)
    requires i in s.installers
    ensures SameFiles(s, StageStep(s, i, works, torn))
  {
  }

  lemma ActKeepsFiles(s: State, i: nat, now: int, works: bool, torn: Tree, name: nat)
    requires i in s.installers
    ensures SameFiles(s, ActStep(s, i, now, works, torn, name))
  {
    LockKeepsFiles(s, i, now, works);
    StageKeepsFiles(s, i, works, torn);
  }

  lemma {:induction false} InstallersBegun(s: State, events: seq<Event>)
    requires Init(s)
    ensures FromBegun(Run(s, events), events)
  {
    if events != [] {
      var n := |events| - 1;
      InstallersBegun(s, events[..n]);
      var before := Run(s, events[..n]);
      forall i | i in before.installers ensures Begun(events, before.installers[i].files) {
        BegunGrows(events, before.installers[i].files);
      }
      assert events[n] in events;
      if events[n].Act? && events[n].installer in before.installers {
        var e := events[n];
        ActKeepsFiles(before, e.installer, e.now, e.works, e.torn, e.name);
      }
    }
  }

  lemma PromotesComplete(s: State, e: Event)
    requires Inv(s) && s.target.None? && Step(s, e).target.Some?
    ensures exists i :: i in s.installers && s.installers[i].files != [] && Build(s.installers[i].files) == Step(s, e).target
  {
    assert e.Act? && e.installer in s.installers;
    var p := s.installers[e.installer];
    assert InstallerOk(s, p);
    assert p.pc.Promote?;
  }

  /** Nothing partial ever becomes visible: a version created by a run is the complete tree of some begun payload. */
  lemma {:induction false} NothingPartialIsPromoted(s: State, events: seq<Event>)
    requires Init(s) && s.target.None? && Run(s, events).target.Some?
    ensures exists files :: Begun(events, files) && files != [] && Build(files) == Run(s, events).target
  {
    if events != [] {
      var n := |events| - 1;
      var before := Run(s, events[..n]);
      RunKeeps(s, events[..n]);
      if before.target.Some? {
        NothingPartialIsPromoted(s, events[..n]);
        StepKeeps(before, events[n]);
        var files :| Begun(events[..n], files) && files != [] && Build(files) == before.target;
        BegunGrows(events, files);
      } else {
        PromotesComplete(before, events[n]);
        var i :| i in before.installers && before.installers[i].files != [] && Build(before.installers[i].files) == Run(s, events).target;
        InstallersBegun(s, events[..n]);
        BegunGrows(events, before.installers[i].files);
      }
    }
  }

  // ---------------------------------------------------------------- an installer by itself

  /** n calls of installer i in a row, all of which work. */
  ghost function After(s: State, i: nat, now: int, name: nat, n: nat): State {
    if n == 0 then s else Step(After(s, i, now, name, n - 1), Act(i, now, true, map[], name))
  }

  function Acts(i: nat, now: int, name: nat, n: nat): seq<Event> {
    seq(n, _ => Act(i, now, true, map[], name))
  }

  lemma {:induction false} RunActs(s: State, i: nat, now: int, name: nat, n: nat)
    ensures Run(s, Acts(i, now, name, n)) == After(s, i, now, name, n)
  {
    if n > 0 {
      var acts := Acts(i, now, name, n);
      RunActs(s, i, now, name, n - 1);
      assert acts != [] && acts[..n - 1] == Acts(i, now, name, n - 1) && acts[n - 1] == Act(i, now, true, map[], name);
      assert Run(s, acts) == Step(Run(s, acts[..n - 1]), acts[n - 1]);
    }
  }

  lemma {:induction false} AfterAdd(s: State, i: nat, now: int, name: nat, m: nat, n: nat)
    ensures After(After(s, i, now, name, m), i, now, name, n) == After(s, i, now, name, m + n)
  {
    if n > 0 {
      AfterAdd(s, i, now, name, m, n - 1);
    }
  }

  lemma {:induction false} FinishedStays(s: State, i: nat, now: int, name: nat, n: nat)
    requires i in s.installers && s.installers[i].pc.Finished? && s.installers[i].pc.result != Existing
    ensures After(s, i, now, name, n) == s
  {
    if n > 0 {
      FinishedStays(s, i, now, name, n - 1);
    }
  }

  /** Installer i has reached this point. */
  ghost predicate At(s: State, i: nat, files: seq<PayloadFile>, pc: Pc, target: Option<Tree>, stages: map<nat, Tree>) {
    i in s.installers && s.installers[i] == Installer(files, pc) && s.target == target && s.stages == stages
  }

  /** No lock, or one that has been there for half an hour. */
  predicate LockFree(s: State, now: int) {
    match s.lock
    case None => true
    case Some(lock) => lock.modified + 1800 <= now
  }

  /** s' is s after n working calls of installer i. */
  ghost predicate Leads(s: State, i: nat, now: int, name: nat, n: nat, s': State) {
    After(s, i, now, name, n) == s'
  }

  lemma LeadsOne(s: State, i: nat, now: int, name: nat)
    ensures Leads(s, i, now, name, 1, Step(s, Act(i, now, true, map[], name)))
  {
    assert After(s, i, now, name, 0) == s;
  }

  lemma LeadsOn(s: State, i: nat, now: int, name: nat, m: nat, s1: State, n: nat, s2: State)
    requires Leads(s, i, now, name, m, s1) && Leads(s1, i, now, name, n, s2)
    ensures Leads(s, i, now, name, m + n, s2)
  {
    AfterAdd(s, i, now, name, m, n);
  }

  lemma ReclaimsLock(s: State, i: nat, files: seq<PayloadFile>, now: int, name: nat) returns (s': State)
    requires At(s, i, files, InspectLock, None, s.stages) && s.lock.Some? && LockFree(s, now)
    ensures Leads(s, i, now, name, 5, s') && At(s', i, files, MakeStage, None, s.stages)
  {
    var e := Act(i, now, true, map[], name);
    var s1 := Step(s, e);
    var s2 := Step(s1, e);
    var s3 := Step(s2, e);
    var s4 := Step(s3, e);
    s' := Step(s4, e);
    assert After(s, i, now, name, 0) == s && After(s, i, now, name, 1) == s1 && After(s, i, now, name, 2) == s2;
    assert After(s, i, now, name, 3) == s3 && After(s, i, now, name, 4) == s4;
  }

  lemma FirstTwo(s: State, i: nat, files: seq<PayloadFile>, now: int, name: nat) returns (s': State)
    requires At(s, i, files, CheckTarget, None, s.stages)
    ensures Leads(s, i, now, name, 2, s')
    ensures At(s', i, files, if s.lock.None? then MakeStage else InspectLock, None, s.stages)
    ensures s.lock.Some? ==> s'.lock == s.lock
  {
    var s1 := Step(s, Act(i, now, true, map[], name));
    s' := Step(s1, Act(i, now, true, map[], name));
    assert After(s, i, now, name, 0) == s && After(s, i, now, name, 1) == s1;
  }

  /** From the first check to the staging directory, in two or in seven calls. */
  lemma TakesLock(s: State, i: nat, files: seq<PayloadFile>, now: int, name: nat) returns (m: nat, s': State)
    requires At(s, i, files, CheckTarget, None, s.stages) && LockFree(s, now)
    ensures m <= 7 && Leads(s, i, now, name, m, s') && At(s', i, files, MakeStage, None, s.stages)
  {
    var s2 := FirstTwo(s, i, files, now, name);
    m, s' := 2, s2;
    if s.lock.Some? {
      s' := ReclaimsLock(s2, i, files, now, name);
      LeadsOn(s, i, now, name, 2, s2, 5, s');
      m := 7;
    }
  }

  lemma {:induction false} BuildPrefix(files: seq<PayloadFile>, k: nat)
    requires k <= |files| && Build(files).Some?
    ensures Build(files[..k]).Some?
    decreases |files|
  {
    if k < |files| {
      var n := |files| - 1;
      BuildPrefix(files[..n], k);
      assert files[..n][..k] == files[..k];
    } else {
      assert files[..k] == files;
    }
  }

  /** The payload passes every test of its files, one after the other, and no file stands in the way of another. */
  ghost predicate Installable(files: seq<PayloadFile>) {
    files != [] && (forall k :: 0 <= k < |files| ==> Acceptable(files, k)) && Build(files).Some?
  }

  lemma WritesOne(s: State, i: nat, files: seq<PayloadFile>, now: int, name: nat, k: nat, others: map<nat, Tree>, tree: Tree, tree': Tree)
    requires k < |files| && At(s, i, files, WriteFile(name, k), None, others[name := tree])
    requires Acceptable(files, k) && AddFile(tree, files[k]) == Some(tree')
    ensures At(Step(s, Act(i, now, true, map[], name)), i, files, WriteFile(name, k + 1), None, others[name := tree'])
  {
    assert others[name := tree][name := tree'] == others[name := tree'];
  }

  /** The staging directory holds the first k files. */
  ghost predicate Staged(s: State, i: nat, files: seq<PayloadFile>, name: nat, k: nat, others: map<nat, Tree>)
    requires k <= |files|
  {
    Build(files[..k]).Some? && At(s, i, files, WriteFile(name, k), None, others[name := Build(files[..k]).value])
  }

  lemma StagesOne(s: State, i: nat, files: seq<PayloadFile>, now: int, name: nat, k: nat, others: map<nat, Tree>)
    requires Installable(files) && k < |files| && Staged(s, i, files, name, k, others)
    ensures Staged(Step(s, Act(i, now, true, map[], name)), i, files, name, k + 1, others)
  {
    BuildPrefix(files, k + 1);
    BuildNext(files, k);
    WritesOne(s, i, files, now, name, k, others, Build(files[..k]).value, Build(files[..k + 1]).value);
  }

  lemma {:induction false} WritesFiles(s: State, i: nat, files: seq<PayloadFile>, now: int, name: nat, k: nat, others: map<nat, Tree>)
    requires Installable(files) && k <= |files| && Staged(s, i, files, name, 0, others)
    ensures Staged(After(s, i, now, name, k), i, files, name, k, others)
  {
    if k > 0 {
      WritesFiles(s, i, files, now, name, k - 1, others);
      StagesOne(After(s, i, now, name, k - 1), i, files, now, name, k - 1, others);
    }
  }

  /** From the last file to the end. */
  lemma Promotes(s: State, i: nat, files: seq<PayloadFile>, now: int, name: nat, tree: Tree) returns (s': State)
    requires files != [] && At(s, i, files, WriteFile(name, |files|), None, s.stages) && name in s.stages && s.stages[name] == tree
    ensures Leads(s, i, now, name, 4, s')
    ensures At(s', i, files, Finished(Materialized), Some(tree), s.stages - {name}) && s'.lock == None
  {
    var e := Act(i, now, true, map[], name);
    var s1 := Step(s, e);
    var s2 := Step(s1, e);
    var s3 := Step(s2, e);
    s' := Step(s3, e);
    assert After(s, i, now, name, 0) == s && After(s, i, now, name, 1) == s1 && After(s, i, now, name, 2) == s2;
    assert After(s, i, now, name, 3) == s3;
    assert s1.installers[i].pc == Recheck(name) && s2.installers[i].pc == Promote(name);
  }

  lemma MakesStage(s: State, i: nat, files: seq<PayloadFile>, now: int, name: nat) returns (s': State)
    requires At(s, i, files, MakeStage, None, s.stages) && name !in s.stages
    ensures Leads(s, i, now, name, 1, s') && At(s', i, files, WriteFile(name, 0), None, s.stages[name := map[]])
  {
    s' := Step(s, Act(i, now, true, map[], name));
    LeadsOne(s, i, now, name);
  }

  lemma WritesAll(s: State, i: nat, files: seq<PayloadFile>, now: int, name: nat, others: map<nat, Tree>) returns (s': State)
    requires Installable(files) && At(s, i, files, WriteFile(name, 0), None, others[name := map[]])
    ensures Leads(s, i, now, name, |files|, s')
    ensures At(s', i, files, WriteFile(name, |files|), None, others[name := Build(files).value])
  {
    assert files[..0] == [] && files[..|files|] == files;
    WritesFiles(s, i, files, now, name, |files|, others);
    s' := After(s, i, now, name, |files|);
  }

  lemma StagesAndPromotes(s: State, i: nat, files: seq<PayloadFile>, now: int, name: nat) returns (s': State)
    requires Installable(files) && At(s, i, files, MakeStage, None, s.stages) && name !in s.stages
    ensures Leads(s, i, now, name, 1 + |files| + 4, s')
    ensures At(s', i, files, Finished(Materialized), Build(files), s.stages) && s'.lock == None
  {
    var s1 := MakesStage(s, i, files, now, name);
    var s2 := WritesAll(s1, i, files, now, name, s.stages);
    s' := PromotesStage(s2, i, files, now, name, s.stages, Build(files).value);
    LeadsOn(s, i, now, name, 1, s1, |files|, s2);
    LeadsOn(s, i, now, name, 1 + |files|, s2, 4, s');
  }

  lemma PromotesStage(s: State, i: nat, files: seq<PayloadFile>, now: int, name: nat, others: map<nat, Tree>, tree: Tree)
    returns (s': State)
    requires files != [] && At(s, i, files, WriteFile(name, |files|), None, others[name := tree]) && name !in others
    ensures Leads(s, i, now, name, 4, s')
    ensures At(s', i, files, Finished(Materialized), Some(tree), others) && s'.lock == None
  {
    s' := Promotes(s, i, files, now, name, tree);
    assert others[name := tree] - {name} == others;
  }

  lemma InstallsFromStart(s: State, i: nat, files: seq<PayloadFile>, now: int, name: nat) returns (m: nat, s': State)
    requires At(s, i, files, CheckTarget, None, s.stages) && LockFree(s, now) && name !in s.stages && Installable(files)
    ensures m <= |files| + 12 && Leads(s, i, now, name, m, s')
    ensures At(s', i, files, Finished(Materialized), Build(files), s.stages) && s'.lock == None
  {
    var k, s1 := TakesLock(s, i, files, now, name);
    s' := StagesAndPromotes(s1, i, files, now, name);
    LeadsOn(s, i, now, name, k, s1, 1 + |files| + 4, s');
    m := k + (1 + |files| + 4);
  }

  lemma FinishedLeads(s: State, i: nat, now: int, name: nat, m: nat, s': State, n: nat)
    requires Leads(s, i, now, name, m, s') && m <= n
    requires i in s'.installers && s'.installers[i].pc.Finished? && s'.installers[i].pc.result != Existing
    ensures Run(s, Acts(i, now, name, n)) == s'
  {
    FinishedStays(s', i, now, name, n - m);
    LeadsOn(s, i, now, name, m, s', n - m, s');
    RunActs(s, i, now, name, n);
  }

  /** An installer that nobody disturbs, whatever installers before it have left behind, installs its payload completely if
      there is no version yet and the lock is free or stale: afterwards the version is there, the lock and the staging
      directory are gone. */
  lemma LoneInstall(s: State, i: nat, files: seq<PayloadFile>, now: int, name: nat)
    requires i !in s.installers && s.target.None? && LockFree(s, now) && name !in s.stages && Installable(files)
    ensures var s' := Run(Step(s, Begin(i, files)), Acts(i, now, name, |files| + 12));
            && i in s'.installers && s'.installers[i].pc == Finished(Materialized) && s'.target == Build(files)
            && s'.lock == None && s'.stages == s.stages
  {
    var begun := Step(s, Begin(i, files));
    var m, s' := InstallsFromStart(begun, i, files, now, name);
    FinishedLeads(begun, i, now, name, m, s', |files| + 12);
  }

  /** If the version is there, the retry is verified exactly if it holds the payload, and changes nothing; under a recent lock
      the installer gives up and changes nothing either. */
  lemma LoneRetry(s: State, i: nat, files: seq<PayloadFile>, now: int, name: nat, n: nat)
    requires i !in s.installers && n >= 3 && (s.target.Some? || !LockFree(s, now))
    ensures var s' := Run(Step(s, Begin(i, files)), Acts(i, now, name, n));
            && s'.target == s.target && s'.stages == s.stages && s'.lock == s.lock && i in s'.installers
            && s'.installers[i].pc == Finished(if s.target.Some? && Indexable(files) && Holds(s.target.value, files) then Verified
                                               else Failed)
  {
    var begun, e := Step(s, Begin(i, files)), Act(i, now, true, map[], name);
    var s1 := Step(begun, e);
    var s2 := Step(s1, e);
    var s3 := Step(s2, e);
    assert After(begun, i, now, name, 0) == begun && After(begun, i, now, name, 1) == s1 && After(begun, i, now, name, 2) == s2;
    assert After(begun, i, now, name, 3) == s3;
    FinishedLeads(begun, i, now, name, 3, s3, n);
  }
}
