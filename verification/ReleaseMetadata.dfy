/**
  Racing publishers of one version's release record: internal/modules/release_metadata.go over directory entries and
  inodes. A publisher writes a private inode and hard-links it to the final name.
 */
module ReleaseMetadata {
  import opened Wrappers

  /** Two records are equal when their JSON encodings are. */
  datatype Metadata = Metadata(manifest: string, payloadSha256: string, publisher: string, keyId: string)

  /** What strict decoding and validation make of a file. */
  datatype Content = Valid(metadata: Metadata) | Invalid

  datatype Outcome = Published(metadata: Metadata) | Conflict | Failed

  datatype Pc =
    | ReadFinal
    | CreateTemp
    | WriteTemp(name: nat, inode: nat)
    | Link(name: nat, inode: nat)
    | Reread(name: nat, inode: nat)
    | RemoveTemp(name: nat, inode: nat)
    | Cleanup(name: nat, outcome: Outcome)
    | Finished(outcome: Outcome)

  datatype Publisher = Publisher(metadata: Metadata, pc: Pc)

  /** `final` and `temps` are directory entries; `inodes` is the content behind them. */
  datatype State = State(
    final: Option<nat>,
    temps: map<nat, nat>,
    inodes: map<nat, Content>,
    publishers: map<nat, Publisher>)

  datatype Event =
    | Begin(publisher: nat, metadata: Metadata)
    | Act(publisher: nat, works: bool, name: nat, inode: nat)
    | Crash(publisher: nat)

  function Goto(s: State, i: nat, pc: Pc): State
    requires i in s.publishers
  {
    s.(publishers := s.publishers[i := s.publishers[i].(pc := pc)])
  }

  function FinalContent(s: State): Option<Content> {
    if s.final.Some? && s.final.value in s.inodes then Some(s.inodes[s.final.value]) else None
  }

  /** An existing record is accepted only when it equals the publisher's own. */
  function Judge(content: Content, own: Metadata): Outcome {
    if content.Invalid? then Failed else if content.metadata == own then Published(content.metadata) else Conflict
  }

  function ActStep(s: State, i: nat, works: bool, name: nat, inode: nat): State
    requires i in s.publishers
  {
    var own := s.publishers[i].metadata;
    match s.publishers[i].pc
    case ReadFinal =>
      if !works then Goto(s, i, Finished(Failed))
      else if FinalContent(s).None? then Goto(s, i, CreateTemp)
      else Goto(s, i, Finished(Judge(FinalContent(s).value, own)))
    case CreateTemp =>
      if !works || name in s.temps || inode in s.inodes then Goto(s, i, Finished(Failed))
      else Goto(s.(temps := s.temps[name := inode], inodes := s.inodes[inode := Invalid]), i, WriteTemp(name, inode))
    case WriteTemp(n, node) =>
      // A failed write leaves a part of the record.
      if works then Goto(s.(inodes := s.inodes[node := Valid(own)]), i, Link(n, node))
      else Goto(s.(inodes := s.inodes[node := Invalid]), i, Cleanup(n, Failed))
    case Link(n, node) =>
      if works && s.final.None? && n in s.temps then Goto(s.(final := Some(s.temps[n])), i, RemoveTemp(n, node))
      else Goto(s, i, Reread(n, node))
    case Reread(n, node) =>
      if !works || FinalContent(s).None? then Goto(s, i, Cleanup(n, Failed))
      else
        var outcome := Judge(FinalContent(s).value, own);
        Goto(s, i, Cleanup(n, outcome))
    case RemoveTemp(n, node) =>
      if works then Goto(s.(temps := s.temps - {n}), i, Finished(Published(own))) else Goto(s, i, Cleanup(n, Failed))
    case Cleanup(n, outcome) =>
      Goto(if works then s.(temps := s.temps - {n}) else s, i, Finished(outcome))
    case Finished(_) => s
  }

  function Step(s: State, e: Event): State {
    match e
    case Begin(i, metadata) =>
      if i in s.publishers then s else s.(publishers := s.publishers[i := Publisher(metadata, ReadFinal)])
    case Act(i, works, name, inode) => if i in s.publishers then ActStep(s, i, works, name, inode) else s
    case Crash(i) => s.(publishers := s.publishers - {i})
  }

  function Run(s: State, events: seq<Event>): State {
    if events == [] then s else Step(Run(s, events[..|events| - 1]), events[|events| - 1])
  }

  ghost predicate Init(s: State) {
    s.publishers == map[] && (s.final.Some? ==> s.final.value in s.inodes)
  }

  // ---------------------------------------------------------------- the invariant

  function NameOf(pc: Pc): Option<nat> {
    match pc
    case WriteTemp(name, _) => Some(name)
    case Link(name, _) => Some(name)
    case Reread(name, _) => Some(name)
    case RemoveTemp(name, _) => Some(name)
    case Cleanup(name, _) => Some(name)
    case _ => None
  }

  ghost predicate PublisherOk(s: State, p: Publisher) {
    match p.pc
    case WriteTemp(name, inode) =>
      name in s.temps && s.temps[name] == inode && inode in s.inodes && s.final != Some(inode)
    case Link(name, inode) =>
      name in s.temps && s.temps[name] == inode && inode in s.inodes && s.inodes[inode] == Valid(p.metadata)
    case Reread(name, _) => name in s.temps
    case RemoveTemp(name, _) => name in s.temps && FinalContent(s) == Some(Valid(p.metadata))
    case Cleanup(name, outcome) => name in s.temps && OutcomeOk(s, p, outcome)
    case Finished(outcome) => OutcomeOk(s, p, outcome)
    case _ => true
  }

  ghost predicate OutcomeOk(s: State, p: Publisher, outcome: Outcome) {
    match outcome
    case Published(metadata) => metadata == p.metadata && FinalContent(s) == Some(Valid(metadata))
    case Conflict => FinalContent(s).Some? && FinalContent(s).value.Valid? && FinalContent(s).value.metadata != p.metadata
    case Failed => true
  }

  ghost predicate OwnNames(s: State) {
    forall i, j :: i in s.publishers && j in s.publishers && i != j && NameOf(s.publishers[i].pc).Some? ==>
      NameOf(s.publishers[i].pc) != NameOf(s.publishers[j].pc)
  }

  /** Inodes being written are private. */
  ghost predicate OwnInodes(s: State) {
    forall i, j :: i in s.publishers && j in s.publishers && i != j && s.publishers[i].pc.WriteTemp? ==>
      (s.publishers[j].pc.Link? || s.publishers[j].pc.WriteTemp?) ==> s.publishers[i].pc.inode != s.publishers[j].pc.inode
  }

  ghost predicate Inv(s: State) {
    && (forall i :: i in s.publishers ==> PublisherOk(s, s.publishers[i]))
    && OwnNames(s) && OwnInodes(s)
    && (s.final.Some? ==> s.final.value in s.inodes)
  }

  /** A step of publisher i keeps what the others rely on. */
  ghost predicate Local(s: State, i: nat, s': State) {
    && (s.final.Some? ==> s'.final == s.final)
    && (FinalContent(s).Some? ==> FinalContent(s') == FinalContent(s))
    && (forall j :: j in s'.publishers && j != i ==> j in s.publishers && s'.publishers[j] == s.publishers[j])
    && (forall j :: j in s.publishers && j != i && NameOf(s.publishers[j].pc).Some? ==>
          var name := NameOf(s.publishers[j].pc).value;
          name in s.temps ==> name in s'.temps && s'.temps[name] == s.temps[name])
    && (forall j :: j in s.publishers && j != i && s.publishers[j].pc.WriteTemp? ==>
          var inode := s.publishers[j].pc.inode;
          && (inode in s.inodes ==> inode in s'.inodes)
          && (s.final != Some(inode) ==> s'.final != Some(inode)))
    && (forall j :: j in s.publishers && j != i && s.publishers[j].pc.Link? ==>
          var inode := s.publishers[j].pc.inode;
          inode in s.inodes ==> inode in s'.inodes && s'.inodes[inode] == s.inodes[inode])
  }

  lemma OthersKeep(s: State, i: nat, s': State, j: nat)
    requires Inv(s) && Local(s, i, s') && j in s'.publishers && j != i
    ensures PublisherOk(s', s'.publishers[j])
  {
    assert PublisherOk(s, s.publishers[j]);
  }

  lemma LocalKeeps(s: State, i: nat, s': State)
    requires Inv(s) && Local(s, i, s')
    requires s'.final.Some? ==> s'.final.value in s'.inodes
    requires i in s'.publishers ==> PublisherOk(s', s'.publishers[i])
    requires OwnNames(s') && OwnInodes(s')
    ensures Inv(s')
  {
    forall j | j in s'.publishers ensures PublisherOk(s', s'.publishers[j]) {
      if j != i {
        OthersKeep(s, i, s', j);
      }
    }
  }

  /** Moving on without a new name or a new inode keeps names and written inodes private. */
  lemma OwnKept(s: State, i: nat, s': State, pc: Pc)
    requires OwnNames(s) && OwnInodes(s) && i in s.publishers
    requires s'.publishers == s.publishers[i := Publisher(s.publishers[i].metadata, pc)]
    requires NameOf(pc).None? || NameOf(pc) == NameOf(s.publishers[i].pc)
    requires !pc.WriteTemp?
    requires pc.Link? ==> s.publishers[i].pc.WriteTemp? && s.publishers[i].pc.inode == pc.inode
    ensures OwnNames(s') && OwnInodes(s')
  {
  }

  lemma NewEntry(s: State, i: nat, name: nat, inode: nat)
    requires Inv(s) && i in s.publishers && name !in s.temps && inode !in s.inodes
    ensures forall j :: j in s.publishers ==> NameOf(s.publishers[j].pc) != Some(name)
    ensures forall j :: j in s.publishers && (s.publishers[j].pc.WriteTemp? || s.publishers[j].pc.Link?) ==>
              s.publishers[j].pc.inode != inode
  {
    assert forall j :: j in s.publishers ==> PublisherOk(s, s.publishers[j]);
  }

  lemma CreateKeeps(s: State, i: nat, works: bool, name: nat, inode: nat)
    requires Inv(s) && i in s.publishers && s.publishers[i].pc.CreateTemp?
    ensures Inv(ActStep(s, i, works, name, inode)) && Local(s, i, ActStep(s, i, works, name, inode))
  {
    var s' := ActStep(s, i, works, name, inode);
    if !works || name in s.temps || inode in s.inodes {
      GotoKeeps(s, i, Finished(Failed));
    } else {
      NewEntry(s, i, name, inode);
      LocalKeeps(s, i, s');
    }
  }

  /** A step that only moves the publisher on. */
  lemma GotoKeeps(s: State, i: nat, pc: Pc)
    requires Inv(s) && i in s.publishers && PublisherOk(s, Publisher(s.publishers[i].metadata, pc))
    requires !pc.WriteTemp? && !pc.Link?
    requires NameOf(pc).None? || NameOf(pc) == NameOf(s.publishers[i].pc)
    ensures Inv(Goto(s, i, pc)) && Local(s, i, Goto(s, i, pc))
  {
    OwnKept(s, i, Goto(s, i, pc), pc);
    LocalKeeps(s, i, Goto(s, i, pc));
  }

  /** A step that removes the publisher's own temporary name and finishes. */
  lemma RemoveKeeps(s: State, i: nat, outcome: Outcome)
    requires Inv(s) && i in s.publishers && NameOf(s.publishers[i].pc).Some? && OutcomeOk(s, s.publishers[i], outcome)
    ensures var s' := Goto(s.(temps := s.temps - {NameOf(s.publishers[i].pc).value}), i, Finished(outcome));
            Inv(s') && Local(s, i, s')
  {
    var s' := Goto(s.(temps := s.temps - {NameOf(s.publishers[i].pc).value}), i, Finished(outcome));
    OwnKept(s, i, s', Finished(outcome));
    LocalKeeps(s, i, s');
  }

  lemma WriteKeeps(s: State, i: nat, works: bool, name: nat, inode: nat)
    requires Inv(s) && i in s.publishers && s.publishers[i].pc.WriteTemp?
    ensures Inv(ActStep(s, i, works, name, inode)) && Local(s, i, ActStep(s, i, works, name, inode))
  {
    var p := s.publishers[i];
    assert PublisherOk(s, p);
    var content := if works then Valid(p.metadata) else Invalid;
    var pc := if works then Link(p.pc.name, p.pc.inode) else Cleanup(p.pc.name, Failed);
    WroteInode(s, i, content, pc);
  }

  /** A write to the publisher's own inode, which nobody else has and the final name does not point to. */
  lemma WroteInode(s: State, i: nat, content: Content, pc: Pc)
    requires Inv(s) && i in s.publishers && s.publishers[i].pc.WriteTemp?
    requires pc == Cleanup(s.publishers[i].pc.name, Failed)
             || (pc == Link(s.publishers[i].pc.name, s.publishers[i].pc.inode) && content == Valid(s.publishers[i].metadata))
    ensures var s' := Goto(s.(inodes := s.inodes[s.publishers[i].pc.inode := content]), i, pc); Inv(s') && Local(s, i, s')
  {
    assert PublisherOk(s, s.publishers[i]);
    var s' := Goto(s.(inodes := s.inodes[s.publishers[i].pc.inode := content]), i, pc);
    OwnKept(s, i, s', pc);
    LocalKeeps(s, i, s');
  }

  lemma LinkKeeps(s: State, i: nat, works: bool, name: nat, inode: nat)
    requires Inv(s) && i in s.publishers && s.publishers[i].pc.Link?
    ensures Inv(ActStep(s, i, works, name, inode)) && Local(s, i, ActStep(s, i, works, name, inode))
  {
    var s' := ActStep(s, i, works, name, inode);
    var pc := s.publishers[i].pc;
    assert PublisherOk(s, s.publishers[i]);
    if works && s.final.None? {
      OwnKept(s, i, s', RemoveTemp(pc.name, pc.inode));
      LocalKeeps(s, i, s');
    } else {
      GotoKeeps(s, i, Reread(pc.name, pc.inode));
    }
  }

  lemma RestKeeps(s: State, i: nat, works: bool, name: nat, inode: nat)
    requires Inv(s) && i in s.publishers
    requires var pc := s.publishers[i].pc; pc.ReadFinal? || pc.Reread? || pc.RemoveTemp? || pc.Cleanup? || pc.Finished?
    ensures Inv(ActStep(s, i, works, name, inode)) && Local(s, i, ActStep(s, i, works, name, inode))
  {
    var s' := ActStep(s, i, works, name, inode);
    var p := s.publishers[i];
    assert PublisherOk(s, p);
    if p.pc.RemoveTemp? && works {
      RemoveKeeps(s, i, Published(p.metadata));
    } else if p.pc.Cleanup? && works {
      RemoveKeeps(s, i, p.pc.outcome);
    } else if !p.pc.Finished? {
      GotoKeeps(s, i, s'.publishers[i].pc);
    }
  }

  lemma BeginKeeps(s: State, i: nat, metadata: Metadata)
    requires Inv(s) && i !in s.publishers
    ensures Inv(s.(publishers := s.publishers[i := Publisher(metadata, ReadFinal)]))
  {
    LocalKeeps(s, i, s.(publishers := s.publishers[i := Publisher(metadata, ReadFinal)]));
  }

  lemma CrashKeeps(s: State, i: nat)
    requires Inv(s)
    ensures Inv(s.(publishers := s.publishers - {i}))
  {
    LocalKeeps(s, i, s.(publishers := s.publishers - {i}));
  }

  lemma StepKeeps(s: State, e: Event)
    requires Inv(s)
    ensures Inv(Step(s, e)) && (s.final.Some? ==> Step(s, e).final == s.final && FinalContent(Step(s, e)) == FinalContent(s))
  {
    match e
    case Begin(i, metadata) =>
      if i !in s.publishers {
        BeginKeeps(s, i, metadata);
      }
    case Act(i, works, name, inode) =>
      if i in s.publishers {
        var pc := s.publishers[i].pc;
        if pc.CreateTemp? {
          CreateKeeps(s, i, works, name, inode);
        } else if pc.WriteTemp? {
          WriteKeeps(s, i, works, name, inode);
        } else if pc.Link? {
          LinkKeeps(s, i, works, name, inode);
        } else {
          RestKeeps(s, i, works, name, inode);
        }
      }
    case Crash(i) => CrashKeeps(s, i);
  }

  // ---------------------------------------------------------------- whole runs

  lemma {:induction false} RunKeeps(s: State, events: seq<Event>)
    requires Inv(s)
    ensures Inv(Run(s, events))
    ensures s.final.Some? ==> Run(s, events).final == s.final && FinalContent(Run(s, events)) == FinalContent(s)
  {
    if events != [] {
      RunKeeps(s, events[..|events| - 1]);
      StepKeeps(Run(s, events[..|events| - 1]), events[|events| - 1]);
    }
  }

  /** The record is written at most once: from its publication on it is the same inode with the same content. */
  lemma WrittenAtMostOnce(s: State, before: seq<Event>, after: seq<Event>)
    requires Init(s) && Run(s, before).final.Some?
    ensures Run(Run(s, before), after).final == Run(s, before).final
    ensures FinalContent(Run(Run(s, before), after)) == FinalContent(Run(s, before))
  {
    RunKeeps(s, before);
    RunKeeps(Run(s, before), after);
  }

  /** Every success returns the published record; every conflict is with a different valid record. */
  lemma OutcomesMatchTheRecord(s: State, before: seq<Event>, after: seq<Event>, i: nat)
    requires Init(s) && i in Run(s, before).publishers && Run(s, before).publishers[i].pc.Finished?
    ensures var p := Run(s, before).publishers[i];
            var record := FinalContent(Run(Run(s, before), after));
            match p.pc.outcome
            case Published(metadata) => record == Some(Valid(metadata)) && metadata == p.metadata
            case Conflict => record.Some? && record.value.Valid? && record.value.metadata != p.metadata
            case Failed => true
  {
    RunKeeps(s, before);
    assert PublisherOk(Run(s, before), Run(s, before).publishers[i]);
    RunKeeps(Run(s, before), after);
  }

  lemma SuccessesReturnTheSame(s: State, events: seq<Event>, i: nat, j: nat)
    requires Init(s) && i in Run(s, events).publishers && j in Run(s, events).publishers
    requires Run(s, events).publishers[i].pc.Finished? && Run(s, events).publishers[i].pc.outcome.Published?
    requires Run(s, events).publishers[j].pc.Finished? && Run(s, events).publishers[j].pc.outcome.Published?
    ensures Run(s, events).publishers[i].pc == Run(s, events).publishers[j].pc
  {
    OutcomesMatchTheRecord(s, events, [], i);
    OutcomesMatchTheRecord(s, events, [], j);
  }

  // ---------------------------------------------------------------- a publisher by itself

  /** n calls of publisher i in a row, all of which work. */
  function After(s: State, i: nat, name: nat, inode: nat, n: nat): State {
    if n == 0 then s else Step(After(s, i, name, inode, n - 1), Act(i, true, name, inode))
  }

  function Acts(i: nat, name: nat, inode: nat, n: nat): seq<Event> {
    seq(n, _ => Act(i, true, name, inode))
  }

  lemma {:induction false} RunActs(s: State, i: nat, name: nat, inode: nat, n: nat)
    ensures Run(s, Acts(i, name, inode, n)) == After(s, i, name, inode, n)
  {
    if n > 0 {
      var acts := Acts(i, name, inode, n);
      RunActs(s, i, name, inode, n - 1);
      assert acts != [] && acts[..n - 1] == Acts(i, name, inode, n - 1) && acts[n - 1] == Act(i, true, name, inode);
      assert Run(s, acts) == Step(Run(s, acts[..n - 1]), acts[n - 1]);
    }
  }

  lemma {:induction false} FinishedStays(s: State, i: nat, name: nat, inode: nat, n: nat)
    requires i in s.publishers && s.publishers[i].pc.Finished?
    ensures After(s, i, name, inode, n) == s
  {
    if n > 0 {
      FinishedStays(s, i, name, inode, n - 1);
    }
  }

  lemma {:induction false} AfterAdd(s: State, i: nat, name: nat, inode: nat, m: nat, n: nat)
    ensures After(After(s, i, name, inode, m), i, name, inode, n) == After(s, i, name, inode, m + n)
  {
    if n > 0 {
      AfterAdd(s, i, name, inode, m, n - 1);
    }
  }

  /** What publishing a record is for: it is there, unless a valid different one or an unreadable one was there before. */
  predicate Achieves(before: Option<Content>, own: Metadata, outcome: Outcome, after: Option<Content>) {
    match before
    case None => outcome == Published(own) && after == Some(Valid(own))
    case Some(Valid(metadata)) => outcome == (if metadata == own then Published(own) else Conflict) && after == before
    case Some(Invalid) => outcome == Failed && after == before
  }

  lemma PublishesFirst(s: State, i: nat, name: nat, inode: nat)
    requires i in s.publishers && s.publishers[i].pc == CreateTemp && s.final.None? && name !in s.temps && inode !in s.inodes
    ensures var s' := After(s, i, name, inode, 4);
            && i in s'.publishers && s'.publishers[i].pc == Finished(Published(s.publishers[i].metadata))
            && FinalContent(s') == Some(Valid(s.publishers[i].metadata)) && s'.temps == s.temps
  {
    var e := Act(i, true, name, inode);
    var s1 := Step(s, e);
    var s2 := Step(s1, e);
    var s3 := Step(s2, e);
    var s4 := Step(s3, e);
    assert After(s, i, name, inode, 0) == s && After(s, i, name, inode, 1) == s1 && After(s, i, name, inode, 2) == s2;
    assert After(s, i, name, inode, 3) == s3 && After(s, i, name, inode, 4) == s4;
    assert s4.temps == s.temps;
  }

  lemma FromFirstRead(s: State, i: nat, name: nat, inode: nat)
    requires i in s.publishers && s.publishers[i].pc == ReadFinal && (s.final.Some? ==> s.final.value in s.inodes)
    requires name !in s.temps && inode !in s.inodes
    ensures var s' := After(s, i, name, inode, 5);
            && i in s'.publishers && s'.publishers[i].pc.Finished? && s'.temps == s.temps
            && Achieves(FinalContent(s), s.publishers[i].metadata, s'.publishers[i].pc.outcome, FinalContent(s'))
  {
    AfterAdd(s, i, name, inode, 1, 4);
    var s1 := Step(s, Act(i, true, name, inode));
    assert After(s, i, name, inode, 0) == s && After(s, i, name, inode, 1) == s1;
    if s.final.None? {
      PublishesFirst(s1, i, name, inode);
    } else {
      FinishedStays(s1, i, name, inode, 4);
    }
  }

  /** A publisher that nobody disturbs, after whatever others have left behind, publishes its record, agrees with the one
      that is there, or reports the conflict; it leaves no temporary file. */
  lemma LonePublisher(s: State, i: nat, own: Metadata, name: nat, inode: nat)
    requires i !in s.publishers && (s.final.Some? ==> s.final.value in s.inodes) && name !in s.temps && inode !in s.inodes
    ensures var s' := Run(Step(s, Begin(i, own)), Acts(i, name, inode, 5));
            && i in s'.publishers && s'.publishers[i].pc.Finished? && s'.temps == s.temps
            && Achieves(FinalContent(s), own, s'.publishers[i].pc.outcome, FinalContent(s'))
  {
    var begun := Step(s, Begin(i, own));
    RunActs(begun, i, name, inode, 5);
    FromFirstRead(begun, i, name, inode);
  }
}
