/** One process at a time on a module directory: the four activation calls against the decisions of Activation. */
module ModuleDirectory {
  import opened Wrappers
  import opened Activation

  /** Which operations of the operating system succeed during a call. */
  datatype Io = Io(lock: bool, read: bool, write: bool)

  datatype ReadError = Unreadable | InvalidState

  class Directory {
    var file: StateFile
    var locked: bool
    var materialized: set<Version>

    ghost predicate Valid()
      reads this
    {
      "" !in materialized && FileOk(file, materialized)
    }

    constructor (materialized: set<Version>)
      requires "" !in materialized
      ensures Valid() && file == Missing && !locked && this.materialized == materialized
    {
      this.file := Missing;
      this.locked := false;
      this.materialized := materialized;
    }

    /** The contract of every call: refused without effect, or the decision on the file as it was. */
    ghost predicate Performed(op: Operation, io: Io, healthy: bool, file0: StateFile, locked0: bool, r: Option<Selection>)
      reads this
    {
      var decision := Decide(op, file0, materialized);
      var entered := Admissible(op, materialized) && io.lock && !locked0 && io.read;
      && locked == locked0
      && (r.Some? <==> entered && (decision.Keep? || (decision.Write? && healthy && io.write)))
      && (r.Some? ==> file == Selected(r.value))
      && (entered && decision.Write? && healthy && io.write ==> r == Some(decision.next))
      && (!(entered && decision.Write? && healthy && io.write) ==> file == file0)
    }

    method ReadState(io: Io) returns (r: Result<Option<Selection>, ReadError>)
      ensures r == if !io.read then Err(Unreadable) else if file.Corrupt? then Err(InvalidState)
                   else if file.Missing? then Ok(None) else Ok(Some(file.selection))
    {
      if !io.read {
        return Err(Unreadable);
      }
      match file
      case Missing => return Ok(None);
      case Corrupt => return Err(InvalidState);
      case Selected(selection) => return Ok(Some(selection));
    }

    method WriteState(next: Selection, io: Io) returns (ok: bool)
      modifies this`file
      ensures ok == io.write && file == if ok then Selected(next) else old(file)
    {
      if !io.write {
        return false;
      }
      file := Selected(next);
      return true;
    }

    method ActivateMaterializedVersionWithHealth(version: Version, healthy: bool, io: Io) returns (r: Option<Selection>)
      requires Valid()
      modifies this`file, this`locked
      ensures Valid() && Performed(ActivateWithHealth(version), io, healthy, old(file), old(locked), r)
    {
      if version !in materialized || !io.lock || locked {
        return None;
      }
      locked := true;
      var current := ReadState(io);
      if current.Err? {
        locked := false;
        return None;
      }
      if current.value.Some? && current.value.value.active == version {
        locked := false;
        return current.value;
      }
      var ok := false;
      var next := Selection(version, if current.value.Some? then current.value.value.active else "");
      if healthy {
        ok := WriteState(next, io);
      }
      locked := false;
      return if ok then Some(next) else None;
    }

    method ActivateMaterializedVersion(version: Version, io: Io) returns (r: Option<Selection>)
      requires Valid()
      modifies this`file, this`locked
      ensures Valid() && Performed(Activate(version), io, true, old(file), old(locked), r)
    {
      if version !in materialized || !io.lock || locked {
        return None;
      }
      locked := true;
      var current := ReadState(io);
      if current.Err? {
        locked := false;
        return None;
      }
      if current.value.Some? && current.value.value.active == version {
        locked := false;
        return current.value;
      }
      var next := Selection(version, if current.value.Some? then current.value.value.active else "");
      var ok := WriteState(next, io);
      locked := false;
      return if ok then Some(next) else None;
    }

    method RollbackActiveVersion(io: Io) returns (r: Option<Selection>)
      requires Valid()
      modifies this`file, this`locked
      ensures Valid() && Performed(Rollback, io, true, old(file), old(locked), r)
    {
      if !io.lock || locked {
        return None;
      }
      locked := true;
      var current := ReadState(io);
      if current.Err? || current.value.None? || current.value.value.previous == ""
         || current.value.value.previous !in materialized
      {
        locked := false;
        return None;
      }
      var next := Selection(current.value.value.previous, current.value.value.active);
      var ok := WriteState(next, io);
      locked := false;
      return if ok then Some(next) else None;
    }

    method ActivateExpectedPreviousVersion(expected: Selection, io: Io) returns (r: Option<Selection>)
      requires Valid()
      modifies this`file, this`locked
      ensures Valid() && Performed(ActivateExpectedPrevious(expected), io, true, old(file), old(locked), r)
    {
      if expected.active == "" || expected.previous == "" || expected.active !in materialized
         || expected.previous !in materialized || !io.lock || locked
      {
        return None;
      }
      locked := true;
      var current := ReadState(io);
      if current.Err? || current.value.None? {
        locked := false;
        return None;
      }
      var target := Selection(expected.previous, expected.active);
      if current.value.value == target {
        locked := false;
        return current.value;
      }
      if current.value.value != expected {
        locked := false;
        return None;
      }
      var ok := WriteState(target, io);
      locked := false;
      return if ok then Some(target) else None;
    }
  }
}
