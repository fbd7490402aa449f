/**
  The module table and its audit log: internal/modules/persistence.go, and the serializable lifecycle transactions of
  internal/platform/module_lifecycle_api.go that restore a registry, perform one operation and save its outcome.
 */
module ModuleStore {
  import opened Wrappers
  import opened Registry

  datatype Action = ActInstall | ActEnable | ActDisable | ActQuarantine | ActRestore | ActUpgrade | ActRollback | ActUninstall

  /** One row of the append-only audit table; None is SQL NULL. */
  datatype AuditEntry = AuditEntry(
    id: string,
    action: Action,
    previous: Option<LifecycleState>,
    next: Option<LifecycleState>,
    reason: string,
    actor: string)

  datatype Store = Store(table: Modules, audit: seq<AuditEntry>)

  // ---------------------------------------------------------------- validation

  predicate ValidPersisted(m: InstalledModule) {
    m.manifest.wellFormed && m.installedAt != 0 && m.updatedAt != 0 && m.installedAt <= m.updatedAt
  }

  /** validateAuditTransition */
  predicate AuditTransitionOk(previous: Option<LifecycleState>, next: LifecycleState, action: Action) {
    match previous
    case None => action == ActInstall && next == Installed
    case Some(state) =>
      match action
      case ActEnable => next == Enabled && state != Quarantined
      case ActDisable => next == Disabled && state != Quarantined
      case ActQuarantine => next == Quarantined
      case ActRestore => next == state
      case ActUpgrade => next == state
      case ActRollback => next == state
      case ActInstall => false
      case ActUninstall => false
  }

  function ActionOf(op: Operation): Action {
    match op
    case Install(_) => ActInstall
    case Enable(_) => ActEnable
    case Disable(_, _) => ActDisable
    case Quarantine(_, _) => ActQuarantine
    case Upgrade(_, _) => ActUpgrade
    case Rollback(_, _) => ActRollback
  }

  function StateIn(table: Modules, id: string): Option<LifecycleState> {
    if id in table then Some(table[id].state) else None
  }

  // ---------------------------------------------------------------- Save and Delete

  /** None when Save returns an error. */
  function Saved(s: Store, m: InstalledModule, actor: string, action: Action): Option<Store> {
    var id := m.manifest.id;
    var previous := StateIn(s.table, id);
    if !ValidPersisted(m) || actor == "" || action == ActUninstall || !AuditTransitionOk(previous, m.state, action) then None
    else
      var row := if id in s.table then m.(installedAt := s.table[id].installedAt) else m;
      Some(Store(s.table[id := row], s.audit + [AuditEntry(id, action, previous, Some(m.state), m.reason, actor)]))
  }

  function Deleted(s: Store, id: string, actor: string, reason: string): Option<Store> {
    if actor == "" || id !in s.table || s.table[id].state == Enabled then None
    else Some(Store(s.table - {id}, s.audit + [AuditEntry(id, ActUninstall, Some(s.table[id].state), None, reason, actor)]))
  }

  /** Every row of the table is one that RestoreRegistry accepts. */
  ghost predicate TableOk(table: Modules) {
    Keyed(table) && forall id :: id in table ==> ValidPersisted(table[id])
  }

  // ---------------------------------------------------------------- lifecycle transactions

  datatype Transaction =
    | Mutate(op: Operation, now: int, actor: string, commits: bool)
    | Remove(id: string, actor: string, reason: string, commits: bool)

  function Step(s: Store, t: Transaction): Store {
    match t
    case Mutate(op, now, actor, commits) =>
      var outcome := Outcome(s.table, op, now);
      if outcome.Err? then s
      else
        var saved := Saved(s, outcome.value, actor, ActionOf(op));
        if saved.None? || !commits then s else saved.value
    case Remove(id, actor, reason, commits) =>
      var deleted := Deleted(s, id, actor, reason);
      if deleted.None? || !commits then s else deleted.value
  }

  function Run(s: Store, ts: seq<Transaction>): Store {
    if ts == [] then s else Step(Run(s, ts[..|ts| - 1]), ts[|ts| - 1])
  }

  /** Every successful registry operation is a legal transition under its own action name. */
  lemma SuccessIsAuditable(modules: Modules, op: Operation, now: int)
    requires Keyed(modules) && Outcome(modules, op, now).Ok?
    ensures Outcome(modules, op, now).value.manifest.id == IdOf(op)
    ensures AuditTransitionOk(StateIn(modules, IdOf(op)), Outcome(modules, op, now).value.state, ActionOf(op))
  {
  }

  /**
    A transaction whose operation succeeds is saved unless the clock went backwards, and then the table is the
    registry after the operation.
   */
  lemma CommitReproducesRegistry(s: Store, op: Operation, now: int, actor: string)
    requires TableOk(s.table) && actor != "" && Outcome(s.table, op, now).Ok?
    ensures var m := Outcome(s.table, op, now).value;
            && (Saved(s, m, actor, ActionOf(op)).Some? <==> now != 0 && m.installedAt <= now)
            && (Saved(s, m, actor, ActionOf(op)).Some? ==>
                  Saved(s, m, actor, ActionOf(op)).value.table == s.table[IdOf(op) := m])
  {
    SuccessIsAuditable(s.table, op, now);
    var m := Outcome(s.table, op, now).value;
    assert m.updatedAt == now;
    if IdOf(op) in s.table {
      assert ValidPersisted(s.table[IdOf(op)]);
    }
  }

  // ---------------------------------------------------------------- the audit log

  /** State and reason of a module according to the log alone. */
  function FromAudit(audit: seq<AuditEntry>, id: string): Option<(LifecycleState, string)> {
    if audit == [] then None
    else
      var e := audit[|audit| - 1];
      if e.id != id then FromAudit(audit[..|audit| - 1], id)
      else if e.next.None? then None
      else Some((e.next.value, e.reason))
  }

  function FromTable(table: Modules, id: string): Option<(LifecycleState, string)> {
    if id in table then Some((table[id].state, table[id].reason)) else None
  }

  /** Each entry's previous state is what the log before it says, and its transition is legal. */
  ghost predicate Chained(audit: seq<AuditEntry>) {
    forall n :: 0 <= n < |audit| ==>
      && audit[n].previous == (match FromAudit(audit[..n], audit[n].id) case None => None case Some(pair) => Some(pair.0))
      && (audit[n].next.Some? ==> AuditTransitionOk(audit[n].previous, audit[n].next.value, audit[n].action))
      && (audit[n].next.None? ==> audit[n].action == ActUninstall && audit[n].previous.Some? && audit[n].previous != Some(Enabled))
  }

  ghost predicate Inv(s: Store) {
    && TableOk(s.table)
    && (forall id :: FromAudit(s.audit, id) == FromTable(s.table, id))
    && Chained(s.audit)
  }

  lemma FromAuditSnoc(audit: seq<AuditEntry>, e: AuditEntry, id: string)
    ensures FromAudit(audit + [e], id) ==
            if e.id != id then FromAudit(audit, id) else if e.next.None? then None else Some((e.next.value, e.reason))
  {
    assert (audit + [e])[..|audit|] == audit;
  }

  lemma ChainedSnoc(audit: seq<AuditEntry>, e: AuditEntry)
    requires Chained(audit)
    requires e.previous == (match FromAudit(audit, e.id) case None => None case Some(pair) => Some(pair.0))
    requires e.next.Some? ==> AuditTransitionOk(e.previous, e.next.value, e.action)
    requires e.next.None? ==> e.action == ActUninstall && e.previous.Some? && e.previous != Some(Enabled)
    ensures Chained(audit + [e])
  {
    var longer := audit + [e];
    forall n | 0 <= n < |longer|
      ensures longer[n].previous == (match FromAudit(longer[..n], longer[n].id) case None => None case Some(pair) => Some(pair.0))
    {
      if n < |audit| {
        assert longer[..n] == audit[..n] && longer[n] == audit[n];
      } else {
        assert longer[..n] == audit;
      }
    }
  }

  lemma SaveKeeps(s: Store, m: InstalledModule, actor: string, action: Action)
    requires Inv(s) && Saved(s, m, actor, action).Some?
    requires m.manifest.id in s.table ==> m.installedAt == s.table[m.manifest.id].installedAt
    ensures Inv(Saved(s, m, actor, action).value)
  {
    var id := m.manifest.id;
    var s' := Saved(s, m, actor, action).value;
    var e := AuditEntry(id, action, StateIn(s.table, id), Some(m.state), m.reason, actor);
    assert FromAudit(s.audit, id) == FromTable(s.table, id);
    ChainedSnoc(s.audit, e);
    forall k ensures FromAudit(s'.audit, k) == FromTable(s'.table, k) {
      FromAuditSnoc(s.audit, e, k);
      assert FromAudit(s.audit, k) == FromTable(s.table, k);
    }
  }

  lemma DeleteKeeps(s: Store, id: string, actor: string, reason: string)
    requires Inv(s) && Deleted(s, id, actor, reason).Some?
    ensures Inv(Deleted(s, id, actor, reason).value)
  {
    var s' := Deleted(s, id, actor, reason).value;
    var e := AuditEntry(id, ActUninstall, Some(s.table[id].state), None, reason, actor);
    assert FromAudit(s.audit, id) == FromTable(s.table, id);
    ChainedSnoc(s.audit, e);
    forall k ensures FromAudit(s'.audit, k) == FromTable(s'.table, k) {
      FromAuditSnoc(s.audit, e, k);
      assert FromAudit(s.audit, k) == FromTable(s.table, k);
    }
  }

  lemma StepKeeps(s: Store, t: Transaction)
    requires Inv(s)
    ensures Inv(Step(s, t))
  {
    match t
    case Mutate(op, now, actor, commits) =>
      var outcome := Outcome(s.table, op, now);
      if outcome.Ok? && Saved(s, outcome.value, actor, ActionOf(op)).Some? {
        SuccessIsAuditable(s.table, op, now);
        SaveKeeps(s, outcome.value, actor, ActionOf(op));
      }
    case Remove(id, actor, reason, commits) =>
      if Deleted(s, id, actor, reason).Some? {
        DeleteKeeps(s, id, actor, reason);
      }
  }

  lemma {:induction false} RunKeeps(s: Store, ts: seq<Transaction>)
    requires Inv(s)
    ensures Inv(Run(s, ts))
  {
    if ts != [] {
      RunKeeps(s, ts[..|ts| - 1]);
      StepKeeps(Run(s, ts[..|ts| - 1]), ts[|ts| - 1]);
    }
  }

  /** Folding the audit log reproduces the table, and the log is a chain of legal transitions, after every run. */
  lemma AuditReproducesTable(ts: seq<Transaction>, id: string)
    ensures var s := Run(Store(map[], []), ts);
            FromAudit(s.audit, id) == FromTable(s.table, id) && Chained(s.audit) && TableOk(s.table)
  {
    RunKeeps(Store(map[], []), ts);
  }

  // ---------------------------------------------------------------- quarantine and the manifest

  predicate Removes(t: Transaction, id: string) {
    t.Remove? && t.id == id
  }

  /** Only an uninstall ends a quarantine; until then the manifest does not change either. */
  lemma {:induction false} QuarantinePersists(s: Store, ts: seq<Transaction>, id: string)
    requires Inv(s) && id in s.table && s.table[id].state == Quarantined
    requires forall n :: 0 <= n < |ts| ==> !Removes(ts[n], id)
    ensures var table := Run(s, ts).table;
            id in table && table[id].state == Quarantined && table[id].manifest == s.table[id].manifest
  {
    if ts != [] {
      var n := |ts| - 1;
      QuarantinePersists(s, ts[..n], id);
      RunKeeps(s, ts[..n]);
      var before := Run(s, ts[..n]);
      assert !Removes(ts[n], id);
      if ts[n].Mutate? && Outcome(before.table, ts[n].op, ts[n].now).Ok? {
        SuccessIsAuditable(before.table, ts[n].op, ts[n].now);
      }
    }
  }

  /** The manifest of an enabled or quarantined module is never replaced under it, and an enabled one never vanishes. */
  lemma ManifestFixedWhileActive(ts: seq<Transaction>, t: Transaction, id: string)
    requires var table := Run(Store(map[], []), ts).table; id in table && table[id].state in {Enabled, Quarantined}
    ensures var before := Run(Store(map[], []), ts).table;
            var after := Step(Run(Store(map[], []), ts), t).table;
            && (id in after ==> after[id].manifest == before[id].manifest && after[id].installedAt == before[id].installedAt)
            && (id !in after ==> before[id].state == Quarantined && Removes(t, id))
  {
    RunKeeps(Store(map[], []), ts);
    var s := Run(Store(map[], []), ts);
    if t.Mutate? && Outcome(s.table, t.op, t.now).Ok? {
      SuccessIsAuditable(s.table, t.op, t.now);
    }
  }

  // ---------------------------------------------------------------- the store and RestoreRegistry

  class SqlStore {
    var table: Modules
    var audit: seq<AuditEntry>

    constructor ()
      ensures table == map[] && audit == []
    {
      table := map[];
      audit := [];
    }

    ghost function Snapshot(): Store
      reads this
    {
      Store(table, audit)
    }

    method Save(m: InstalledModule, actor: string, action: Action) returns (ok: bool)
      modifies this
      ensures ok <==> Saved(old(Snapshot()), m, actor, action).Some?
      ensures Snapshot() == if ok then Saved(old(Snapshot()), m, actor, action).value else old(Snapshot())
    {
      if !ValidPersisted(m) || actor == "" || action == ActUninstall {
        return false;
      }
      var id := m.manifest.id;
      var previous := if id in table then Some(table[id].state) else None;
      if !AuditTransitionOk(previous, m.state, action) {
        return false;
      }
      table := table[id := if id in table then m.(installedAt := table[id].installedAt) else m];
      audit := audit + [AuditEntry(id, action, previous, Some(m.state), m.reason, actor)];
      return true;
    }

    method Delete(id: string, actor: string, reason: string) returns (ok: bool)
      modifies this
      ensures ok <==> Deleted(old(Snapshot()), id, actor, reason).Some?
      ensures Snapshot() == if ok then Deleted(old(Snapshot()), id, actor, reason).value else old(Snapshot())
    {
      if actor == "" || id !in table || table[id].state == Enabled {
        return false;
      }
      audit := audit + [AuditEntry(id, ActUninstall, Some(table[id].state), None, reason, actor)];
      table := table - {id};
      return true;
    }

    method RestoreRegistry(order: seq<string>) returns (r: Option<Registry>)
      requires forall id <- order :: id in table
      ensures r.Some? <==> Restored(table, order).Some?
      ensures r.Some? ==> fresh(r.value) && r.value.modules == Restored(table, order).value
    {
      var registry := new Registry();
      var n := 0;
      while n < |order|
        invariant 0 <= n <= |order| && fresh(registry)
        invariant Restored(table, order[..n]) == Some(registry.modules)
      {
        assert order[..n + 1][..n] == order[..n];
        assert order[n] in order;
        var m := table[order[n]];
        if !ValidPersisted(m) || m.manifest.id in registry.modules {
          NotRestored(table, order, n + 1);
          return None;
        }
        registry.modules := registry.modules[m.manifest.id := m];
        n := n + 1;
      }
      assert order[..n] == order;
      return Some(registry);
    }
  }

  /** List and then Registry.Restore row by row; None at the first invalid or duplicate row. */
  function Restored(table: Modules, order: seq<string>): Option<Modules>
    requires forall id <- order :: id in table
  {
    if order == [] then Some(map[])
    else
      var n := |order| - 1;
      var rest := Restored(table, order[..n]);
      assert order[n] in order;
      var m := table[order[n]];
      if rest.None? || !ValidPersisted(m) || m.manifest.id in rest.value then None
      else Some(rest.value[m.manifest.id := m])
  }

  lemma {:induction false} NotRestored(table: Modules, order: seq<string>, n: nat)
    requires n <= |order| && (forall id <- order :: id in table) && Restored(table, order[..n]).None?
    ensures Restored(table, order).None?
    decreases |order|
  {
    if n < |order| {
      assert order[..|order| - 1][..n] == order[..n];
      NotRestored(table, order[..|order| - 1], n);
    } else {
      assert order[..n] == order;
    }
  }

  lemma {:induction false} RestoredPrefix(table: Modules, order: seq<string>)
    requires Keyed(table) && (forall id <- order :: id in table)
    requires forall i, j :: 0 <= i < j < |order| ==> order[i] != order[j]
    ensures Restored(table, order).Some? <==> forall id <- order :: ValidPersisted(table[id])
    ensures Restored(table, order).Some? ==>
              Restored(table, order).value == map id | id in order :: table[id]
  {
    if order != [] {
      var n := |order| - 1;
      RestoredPrefix(table, order[..n]);
      assert order == order[..n] + [order[n]];
      assert order[n] in order && order[n] !in order[..n];
    }
  }

  /** In any row order, a table restores iff its rows are valid, and then to exactly itself. */
  lemma RestoreReproducesTable(table: Modules, order: seq<string>)
    requires Keyed(table) && (forall id :: id in order <==> id in table)
    requires forall i, j :: 0 <= i < j < |order| ==> order[i] != order[j]
    ensures Restored(table, order).Some? <==> TableOk(table)
    ensures Restored(table, order).Some? ==> Restored(table, order).value == table
  {
    RestoredPrefix(table, order);
  }
}
