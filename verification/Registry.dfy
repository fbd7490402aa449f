/** The module registry: internal/modules/registry.go. */
module Registry {
  import opened Wrappers

  /** `wellFormed` is the outcome of Manifest.Validate. */
  datatype Manifest = Manifest(id: string, version: string, permissions: seq<string>, wellFormed: bool)

  datatype LifecycleState = Installed | Enabled | Disabled | Quarantined

  /** Times are instants; 0 is the zero time. */
  datatype InstalledModule = InstalledModule(
    manifest: Manifest,
    state: LifecycleState,
    installedAt: int,
    updatedAt: int,
    reason: string)

  type Modules = map<string, InstalledModule>

  datatype RegistryError =
    | InvalidManifest | NotFound | AlreadyExists | ErrQuarantined | VersionTransition | PermissionDenied | StillEnabled
    | InvalidPersisted

  // ---------------------------------------------------------------- the operations as functions

  datatype Operation =
    | Install(manifest: Manifest)
    | Enable(id: string)
    | Disable(id: string, reason: string)
    | Quarantine(id: string, reason: string)
    | Upgrade(id: string, manifest: Manifest)
    | Rollback(id: string, manifest: Manifest)

  function IdOf(op: Operation): string {
    match op
    case Install(manifest) => manifest.id
    case _ => op.id
  }

  const DEFAULT_REASON := "administratively quarantined"

  /** The module an operation leaves behind; every operation touches one entry. */
  function Outcome(modules: Modules, op: Operation, now: int): Result<InstalledModule, RegistryError> {
    match op
    case Install(manifest) =>
      if !manifest.wellFormed then Err(InvalidManifest)
      else if manifest.id in modules then Err(AlreadyExists)
      else Ok(InstalledModule(manifest, Installed, now, now, ""))
    case Enable(id) =>
      if id !in modules then Err(NotFound)
      else if modules[id].state == Quarantined then Err(ErrQuarantined)
      else Ok(modules[id].(state := Enabled, reason := "", updatedAt := now))
    case Disable(id, reason) =>
      if id !in modules then Err(NotFound)
      else if modules[id].state == Quarantined then Err(ErrQuarantined)
      else Ok(modules[id].(state := Disabled, reason := reason, updatedAt := now))
    case Quarantine(id, reason) =>
      if id !in modules then Err(NotFound)
      else Ok(modules[id].(state := Quarantined, reason := if reason == "" then DEFAULT_REASON else reason, updatedAt := now))
    case Upgrade(id, manifest) => Replaced(modules, id, manifest, now)
    case Rollback(id, manifest) => Replaced(modules, id, manifest, now)
  }

  function Replaced(modules: Modules, id: string, manifest: Manifest, now: int): Result<InstalledModule, RegistryError> {
    if !manifest.wellFormed then Err(InvalidManifest)
    else if manifest.id != id then Err(VersionTransition)
    else if id !in modules then Err(NotFound)
    else if modules[id].state == Enabled || modules[id].state == Quarantined then Err(VersionTransition)
    else if modules[id].manifest.version == manifest.version then Err(VersionTransition)
    else Ok(modules[id].(manifest := manifest, reason := "", updatedAt := now))
  }

  /** Every entry is stored under its manifest's own ID. */
  ghost predicate Keyed(modules: Modules) {
    forall id :: id in modules ==> modules[id].manifest.id == id && modules[id].manifest.wellFormed
  }

  // ---------------------------------------------------------------- the registry object

  class Registry {
    var modules: Modules

    ghost predicate Valid()
      reads this
    {
      Keyed(modules)
    }

    constructor ()
      ensures Valid() && modules == map[]
    {
      modules := map[];
    }

    /** What every mutating method promises: the outcome for its own entry, and nothing else changes. */
    ghost predicate Performed(op: Operation, now: int, before: Modules, r: Result<InstalledModule, RegistryError>)
      reads this
    {
      && r == Outcome(before, op, now)
      && modules == if r.Ok? then before[IdOf(op) := r.value] else before
    }

    method InstallModule(manifest: Manifest, now: int) returns (r: Result<InstalledModule, RegistryError>)
      requires Valid()
      modifies this
      ensures Valid() && Performed(Install(manifest), now, old(modules), r)
    {
      if !manifest.wellFormed {
        return Err(InvalidManifest);
      }
      if manifest.id in modules {
        return Err(AlreadyExists);
      }
      var installed := InstalledModule(manifest, Installed, now, now, "");
      modules := modules[manifest.id := installed];
      return Ok(installed);
    }

    /** transition, with the updated entry already decided. */
    method Update(id: string, updated: InstalledModule, now: int) returns (stored: InstalledModule)
      modifies this
      ensures stored == updated.(updatedAt := now) && modules == old(modules)[id := stored]
    {
      stored := updated.(updatedAt := now);
      modules := modules[id := stored];
    }

    method EnableModule(id: string, now: int) returns (r: Result<InstalledModule, RegistryError>)
      requires Valid()
      modifies this
      ensures Valid() && Performed(Enable(id), now, old(modules), r)
    {
      if id !in modules {
        return Err(NotFound);
      }
      var current := modules[id];
      if current.state == Quarantined {
        return Err(ErrQuarantined);
      }
      var updated := Update(id, current.(state := Enabled, reason := ""), now);
      return Ok(updated);
    }

    method DisableModule(id: string, reason: string, now: int) returns (r: Result<InstalledModule, RegistryError>)
      requires Valid()
      modifies this
      ensures Valid() && Performed(Disable(id, reason), now, old(modules), r)
    {
      if id !in modules {
        return Err(NotFound);
      }
      var current := modules[id];
      if current.state == Quarantined {
        return Err(ErrQuarantined);
      }
      var updated := Update(id, current.(state := Disabled, reason := reason), now);
      return Ok(updated);
    }

    method QuarantineModule(id: string, reason: string, now: int) returns (r: Result<InstalledModule, RegistryError>)
      requires Valid()
      modifies this
      ensures Valid() && Performed(Quarantine(id, reason), now, old(modules), r)
    {
      var why := if reason == "" then DEFAULT_REASON else reason;
      if id !in modules {
        return Err(NotFound);
      }
      var updated := Update(id, modules[id].(state := Quarantined, reason := why), now);
      return Ok(updated);
    }

    method ReplaceManifest(id: string, manifest: Manifest, now: int) returns (r: Result<InstalledModule, RegistryError>)
      requires Valid()
      modifies this
      ensures Valid() && Performed(Upgrade(id, manifest), now, old(modules), r)
      ensures Performed(Rollback(id, manifest), now, old(modules), r)
      ensures r.Ok? <==> && manifest.wellFormed && manifest.id == id && id in old(modules)
                         && old(modules)[id].state in {Installed, Disabled}
                         && old(modules)[id].manifest.version != manifest.version
      ensures r.Ok? ==>
                id in modules
                && modules[id] == InstalledModule(manifest, old(modules)[id].state, old(modules)[id].installedAt, now, "")
    {
      if !manifest.wellFormed {
        return Err(InvalidManifest);
      }
      if manifest.id != id {
        return Err(VersionTransition);
      }
      if id !in modules {
        return Err(NotFound);
      }
      var current := modules[id];
      if current.state == Enabled || current.state == Quarantined || current.manifest.version == manifest.version {
        return Err(VersionTransition);
      }
      var updated := Update(id, current.(manifest := manifest, reason := ""), now);
      return Ok(updated);
    }

    method Uninstall(id: string) returns (r: Option<RegistryError>)
      requires Valid()
      modifies this
      ensures Valid()
      ensures r.None? <==> id in old(modules) && old(modules)[id].state != Enabled
      ensures modules == if r.None? then old(modules) - {id} else old(modules)
    {
      if id !in modules {
        return Some(NotFound);
      }
      if modules[id].state == Enabled {
        return Some(StillEnabled);
      }
      modules := modules - {id};
      return None;
    }

    /** A permission is granted exactly to an enabled module that declares it. */
    method RequirePermission(id: string, permission: string) returns (r: Option<RegistryError>)
      ensures r.None? <==> id in modules && modules[id].state == Enabled && permission in modules[id].manifest.permissions
    {
      if id !in modules {
        return Some(NotFound);
      }
      var granted := modules[id].manifest.permissions;
      if modules[id].state != Enabled {
        return Some(PermissionDenied);
      }
      var n := 0;
      while n < |granted|
        invariant 0 <= n <= |granted| && permission !in granted[..n]
      {
        if granted[n] == permission {
          return None;
        }
        n := n + 1;
      }
      assert granted[..n] == granted;
      return Some(PermissionDenied);
    }
  }
}
