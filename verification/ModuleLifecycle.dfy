/**
  What each lifecycle operation requires and leaves behind, and where the manifest of a module comes from: the registry of
  internal/modules/registry.go behind the transactions of internal/platform/module_lifecycle_api.go.
 */
module ModuleLifecycle {
  import opened Wrappers
  import opened Registry
  import opened ModuleStore

  // ---------------------------------------------------------------- one operation

  /** What an operation demands of the table. */
  predicate Permitted(table: Modules, op: Operation) {
    match op
    case Install(manifest) => manifest.wellFormed && manifest.id !in table
    case Enable(id) => id in table && table[id].state in {Installed, Enabled, Disabled}
    case Disable(id, _) => id in table && table[id].state in {Installed, Enabled, Disabled}
    case Quarantine(id, _) => id in table
    case Upgrade(id, manifest) => MayReplace(table, id, manifest)
    case Rollback(id, manifest) => MayReplace(table, id, manifest)
  }

  /** Another version of a module that is installed or disabled. */
  predicate MayReplace(table: Modules, id: string, manifest: Manifest) {
    && manifest.wellFormed && manifest.id == id && id in table && table[id].state in {Installed, Disabled}
    && manifest.version != table[id].manifest.version
  }

  /** The entry after the operation, given the one before it if there was one. */
  predicate Leaves(before: Option<InstalledModule>, op: Operation, now: int, after: InstalledModule) {
    match op
    case Install(manifest) => after == InstalledModule(manifest, Installed, now, now, "")
    case Enable(_) => before.Some? && after == InstalledModule(before.value.manifest, Enabled, before.value.installedAt, now, "")
    case Disable(_, why) =>
      before.Some? && after == InstalledModule(before.value.manifest, Disabled, before.value.installedAt, now, why)
    case Quarantine(_, why) =>
      && before.Some? && after.manifest == before.value.manifest && after.state == Quarantined
      && after.installedAt == before.value.installedAt && after.updatedAt == now
      && after.reason == (if why == "" then "administratively quarantined" else why)
    case Upgrade(_, manifest) =>
      before.Some? && after == InstalledModule(manifest, before.value.state, before.value.installedAt, now, "")
    case Rollback(_, manifest) =>
      before.Some? && after == InstalledModule(manifest, before.value.state, before.value.installedAt, now, "")
  }

  function EntryOf(table: Modules, id: string): Option<InstalledModule> {
    if id in table then Some(table[id]) else None
  }

  predicate Addresses(op: Operation, id: string) {
    match op
    case Install(manifest) => id == manifest.id
    case Enable(i) => id == i
    case Disable(i, _) => id == i
    case Quarantine(i, _) => id == i
    case Upgrade(i, _) => id == i
    case Rollback(i, _) => id == i
  }

  predicate RecordedAs(op: Operation, action: Action) {
    match action
    case ActInstall => op.Install?
    case ActEnable => op.Enable?
    case ActDisable => op.Disable?
    case ActQuarantine => op.Quarantine?
    case ActUpgrade => op.Upgrade?
    case ActRollback => op.Rollback?
    case ActRestore => false
    case ActUninstall => false
  }

  /** A registry operation succeeds exactly if it is permitted, and leaves what it should. */
  lemma OperationExactly(table: Modules, op: Operation, now: int)
    ensures Outcome(table, op, now).Ok? <==> Permitted(table, op)
    ensures Outcome(table, op, now).Ok? ==> Leaves(EntryOf(table, IdOf(op)), op, now, Outcome(table, op, now).value)
    ensures Addresses(op, IdOf(op)) && RecordedAs(op, ActionOf(op))
  {
  }

  // ---------------------------------------------------------------- one transaction, in every run

  /** The transaction is complete: exactly one entry of the table changed, and exactly one audit entry tells how. */
  ghost predicate Committed(s: Store, s': Store, op: Operation, now: int, actor: string) {
    exists id, after, action ::
      && Addresses(op, id) && RecordedAs(op, action) && Leaves(EntryOf(s.table, id), op, now, after)
      && s'.table == s.table[id := after]
      && s'.audit == s.audit + [AuditEntry(id, action, StateIn(s.table, id), Some(after.state), after.reason, actor)]
  }

  /** The time of the transaction is a time, and not before the installation of the module. */
  predicate ClockOk(table: Modules, op: Operation, now: int) {
    now != 0 && forall id :: id in table && Addresses(op, id) ==> table[id].installedAt <= now
  }

  lemma MutationCommits(s: Store, op: Operation, now: int, actor: string)
    requires Inv(s) && Permitted(s.table, op) && actor != "" && ClockOk(s.table, op, now)
    ensures Committed(s, Step(s, Mutate(op, now, actor, true)), op, now, actor)
  {
    OperationExactly(s.table, op, now);
    CommitReproducesRegistry(s, op, now, actor);
    SuccessIsAuditable(s.table, op, now);
    var after := Outcome(s.table, op, now).value;
    var s' := Step(s, Mutate(op, now, actor, true));
    assert s'.table == s.table[IdOf(op) := after];
    assert s'.audit == s.audit + [AuditEntry(IdOf(op), ActionOf(op), StateIn(s.table, IdOf(op)), Some(after.state), after.reason, actor)];
  }

  /** After every run, a mutation takes effect, as a whole, exactly if it is permitted, has an actor and a sane time, and its
      commit succeeds; otherwise it leaves no trace. */
  lemma MutationExactly(ts: seq<Transaction>, op: Operation, now: int, actor: string, commits: bool)
    ensures var s := Run(Store(map[], []), ts);
            var s' := Step(s, Mutate(op, now, actor, commits));
            if Permitted(s.table, op) && actor != "" && ClockOk(s.table, op, now) && commits
            then Committed(s, s', op, now, actor)
            else s' == s
  {
    var s := Run(Store(map[], []), ts);
    RunKeeps(Store(map[], []), ts);
    OperationExactly(s.table, op, now);
    if Permitted(s.table, op) && actor != "" {
      CommitReproducesRegistry(s, op, now, actor);
      if ClockOk(s.table, op, now) {
        MutationCommits(s, op, now, actor);
      } else {
        NoCommitWithoutClock(s, op, now, actor);
      }
    }
  }

  lemma NoCommitWithoutClock(s: Store, op: Operation, now: int, actor: string)
    requires Inv(s) && Permitted(s.table, op) && actor != "" && !ClockOk(s.table, op, now)
    ensures Saved(s, Outcome(s.table, op, now).value, actor, ActionOf(op)).None?
  {
    OperationExactly(s.table, op, now);
    CommitReproducesRegistry(s, op, now, actor);
  }

  /** So does an uninstall: of a module that is present and not enabled. */
  lemma RemovalExactly(s: Store, id: string, actor: string, reason: string, commits: bool)
    ensures var s' := Step(s, Remove(id, actor, reason, commits));
            if id in s.table && s.table[id].state in {Installed, Disabled, Quarantined} && actor != "" && commits
            then
              && s'.table == (map other | other in s.table && other != id :: s.table[other])
              && s'.audit == s.audit + [AuditEntry(id, ActUninstall, Some(s.table[id].state), None, reason, actor)]
            else s' == s
  {
  }

  // ---------------------------------------------------------------- what the audit rule accepts

  /** Some registry operation makes this transition. */
  ghost predicate Possible(previous: Option<LifecycleState>, next: LifecycleState, action: Action) {
    exists table, op, now, after ::
      && RecordedAs(op, action) && Permitted(table, op) && StateIn(table, IdOf(op)) == previous
      && Leaves(EntryOf(table, IdOf(op)), op, now, after) && after.state == next
  }

  function OneModule(state: LifecycleState): Modules {
    map["m" := InstalledModule(Manifest("m", "1", [], true), state, 1, 1, "")]
  }

  function SampleOperation(action: Action): Operation {
    match action
    case ActEnable => Enable("m")
    case ActDisable => Disable("m", "")
    case ActQuarantine => Quarantine("m", "")
    case ActUpgrade => Upgrade("m", Manifest("m", "2", [], true))
    case ActRollback => Rollback("m", Manifest("m", "2", [], true))
    case _ => Install(Manifest("m", "1", [], true))
  }

  /** The audit rule accepts exactly the transitions that operations make; besides them only a restore, and the replacement
      of a manifest under an enabled or quarantined module, which the registry refuses. */
  lemma AuditRuleExactly(previous: Option<LifecycleState>, next: LifecycleState, action: Action)
    ensures AuditTransitionOk(previous, next, action) <==>
            || Possible(previous, next, action)
            || (action == ActRestore && previous == Some(next))
            || (action in {ActUpgrade, ActRollback} && previous == Some(next) && next in {Enabled, Quarantined})
  {
    var op := SampleOperation(action);
    var table := if previous.Some? then OneModule(previous.value) else map[];
    if AuditTransitionOk(previous, next, action) && Permitted(table, op) {
      OperationExactly(table, op, 1);
      assert Leaves(EntryOf(table, IdOf(op)), op, 1, Outcome(table, op, 1).value);
    }
  }

  // ---------------------------------------------------------------- where a manifest comes from

  /** A request to store this manifest for the module. */
  predicate Requests(t: Transaction, id: string, manifest: Manifest) {
    t.Mutate? &&
    match t.op
    case Install(m) => m.id == id && m == manifest
    case Upgrade(i, m) => i == id && m == manifest
    case Rollback(i, m) => i == id && m == manifest
    case _ => false
  }

  predicate RequestsSome(t: Transaction, id: string) {
    t.Mutate? &&
    match t.op
    case Install(m) => m.id == id
    case Upgrade(i, _) => i == id
    case Rollback(i, _) => i == id
    case _ => false
  }

  /** The k-th transaction of the run changed the store. */
  ghost predicate TookEffect(s: Store, ts: seq<Transaction>, k: nat)
    requires k < |ts|
  {
    Run(s, ts[..k + 1]) != Run(s, ts[..k])
  }

  /** It was the last to do so among the manifest requests and removals of the module. */
  ghost predicate LastWord(s: Store, ts: seq<Transaction>, id: string, k: nat)
    requires k < |ts|
  {
    && TookEffect(s, ts, k)
    && forall j :: k < j < |ts| && (RequestsSome(ts[j], id) || Removes(ts[j], id)) ==> !TookEffect(s, ts, j)
  }

  ghost predicate LastRequested(s: Store, ts: seq<Transaction>, id: string, manifest: Manifest) {
    exists k :: 0 <= k < |ts| && Requests(ts[k], id, manifest) && LastWord(s, ts, id, k)
  }

  /** A step that takes effect on the module leaves the manifest it requested, or the one that was there. */
  lemma ManifestStep(s: Store, t: Transaction, id: string)
    requires Inv(s) && id in Step(s, t).table
    ensures if Step(s, t) != s && RequestsSome(t, id) then Requests(t, id, Step(s, t).table[id].manifest)
            else id in s.table && Step(s, t).table[id].manifest == s.table[id].manifest
    ensures Step(s, t) != s ==> !Removes(t, id)
  {
    match t
    case Mutate(op, now, actor, commits) =>
      if Step(s, t) != s {
        OperationExactly(s.table, op, now);
        SuccessIsAuditable(s.table, op, now);
        CommitReproducesRegistry(s, op, now, actor);
      }
    case Remove(i, actor, reason, commits) =>
  }

  lemma EarlierEffect(s: Store, ts: seq<Transaction>, k: nat, n: nat)
    requires k < n <= |ts|
    ensures TookEffect(s, ts[..n], k) <==> TookEffect(s, ts, k)
  {
    assert ts[..n][..k + 1] == ts[..k + 1] && ts[..n][..k] == ts[..k];
  }

  /** In every run from an empty store, the manifest stored for a module is the one asked for by the last install, upgrade or
      rollback of that module that took effect, and no uninstall took effect since. */
  lemma {:induction false} ManifestIsLastRequested(ts: seq<Transaction>, id: string)
    requires id in Run(Store(map[], []), ts).table
    ensures LastRequested(Store(map[], []), ts, id, Run(Store(map[], []), ts).table[id].manifest)
  {
    var s0, n := Store(map[], []), |ts| - 1;
    RunKeeps(s0, ts[..n]);
    var s, t := Run(s0, ts[..n]), ts[n];
    assert ts[..n + 1] == ts;
    ManifestStep(s, t, id);
    if Step(s, t) != s && RequestsSome(t, id) {
      assert LastWord(s0, ts, id, n);
    } else {
      ManifestIsLastRequested(ts[..n], id);
      StillLastRequested(s0, ts, id, s.table[id].manifest);
    }
  }

  lemma StillLastRequested(s0: Store, ts: seq<Transaction>, id: string, manifest: Manifest)
    requires ts != [] && LastRequested(s0, ts[..|ts| - 1], id, manifest)
    requires RequestsSome(ts[|ts| - 1], id) || Removes(ts[|ts| - 1], id) ==> !TookEffect(s0, ts, |ts| - 1)
    ensures LastRequested(s0, ts, id, manifest)
  {
    var n := |ts| - 1;
    var k :| 0 <= k < n && Requests(ts[..n][k], id, manifest) && LastWord(s0, ts[..n], id, k);
    EarlierEffect(s0, ts, k, n);
    forall j | k < j < |ts| && (RequestsSome(ts[j], id) || Removes(ts[j], id)) ensures !TookEffect(s0, ts, j) {
      if j < n {
        EarlierEffect(s0, ts, j, n);
        assert ts[..n][j] == ts[j];
      }
    }
    assert LastWord(s0, ts, id, k);
  }
}
