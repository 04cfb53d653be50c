/**
Publishing the project configuration: a temporary file renamed into place, with a rollback, under
failures injected at any step and a `.dysflow` link that may be redirected while it runs.
 */
module Publication {
  import opened Wrappers

  /** The files of one directory that matter here; temporary names are unique to the call. */
  datatype Dir = Dir(project: Option<string>, temp: Option<string>, recovery: Option<string>)

  type Disk = map<nat, Dir>

  datatype Op =
    | ReadPrevious | OpenTemp | RealpathTemp | WriteTemp | SyncTemp | BeforeRename | RealpathParent | CloseTemp
    | RenameTemp | AfterRename | RealpathProject
    | RemoveTemp | RemoveProject
    | OpenRecovery | WriteRecovery | SyncRecovery | CloseRecovery | RenameRecovery | RemoveRecovery

  predicate InRollback(op: Op) {
    op.RemoveTemp? || op.RemoveProject? || op.OpenRecovery? || op.WriteRecovery? || op.SyncRecovery?
    || op.CloseRecovery? || op.RenameRecovery? || op.RemoveRecovery?
  }

  /** The failing operations, what an interrupted write leaves, and where hooks and races redirect the link. */
  datatype Faults = Faults(
    failing: set<Op>, partial: string, beforeHook: Option<nat>, race: Option<nat>, afterHook: Option<nat>)

  /** A redirection that leaves the path leading to `owned`. */
  predicate Stays(target: Option<nat>, owned: nat, disk: Disk) {
    target.None? || target.value !in disk || target.value == owned
  }

  /** The try block gets as far as renaming the temporary file into place. */
  predicate ReachesRename(f: Faults, owned: nat, disk: Disk) {
    && f.failing !! {OpenTemp, RealpathTemp, WriteTemp, SyncTemp, BeforeRename, RealpathParent, CloseTemp, RenameTemp}
    && Stays(f.beforeHook, owned, disk) && Stays(f.race, owned, disk)
  }

  /** Nothing goes wrong before or after the rename. */
  predicate Commits(f: Faults, owned: nat, disk: Disk) {
    ReachesRename(f, owned, disk) && f.failing !! {AfterRename, RealpathProject} && Stays(f.afterHook, owned, disk)
  }

  predicate RollbackSucceeds(f: Faults) { forall op | op in f.failing :: !InRollback(op) }

  class ConfigStore {
    /** The directory that the path `.dysflow` currently leads to. */
    var link: nat
    var disk: Disk
    /** Every content the directory being published to has had, in order. */
    ghost var history: seq<Dir>

    constructor (link: nat, disk: Disk)
      ensures this.link == link && this.disk == disk && history == []
    {
      this.link, this.disk, history := link, disk, [];
    }

    /** One atomic change of a directory. */
    method Change(at: nat, d: Dir)
      requires at in disk
      modifies this`disk, this`history
      ensures disk == old(disk)[at := d] && history == old(history) + [d]
    {
      disk := disk[at := d];
      history := history + [d];
    }

    method Redirect(target: Option<nat>)
      modifies this`link
      ensures link == if target.Some? && target.value in disk then target.value else old(link)
    {
      if target.Some? && target.value in disk { link := target.value; }
    }

    /** The try block, from the open temporary file on. `owned` is the canonical directory found before. */
    method TryPublish(text: string, owned: nat, f: Faults) returns (ok: bool, renamed: bool)
      requires owned in disk && link == owned && disk[owned].temp.Some? && OpenTemp !in f.failing
      modifies this
      ensures owned in disk && disk == old(disk)[owned := disk[owned]] && old(history) <= history
      ensures renamed <==> ReachesRename(f, owned, old(disk))
      ensures ok <==> Commits(f, owned, old(disk))
      ensures !renamed ==> disk[owned] == old(disk)[owned].(temp := disk[owned].temp)
      ensures renamed ==> disk[owned] == old(disk)[owned].(temp := None, project := Some(text))
      ensures forall i | |old(history)| <= i < |history| ::
        history[i].project == old(disk)[owned].project || history[i].project == Some(text)
    {
      ok, renamed := false, false;
      if RealpathTemp in f.failing { return; }
      if WriteTemp in f.failing {
        Change(owned, disk[owned].(temp := Some(f.partial)));
        return;
      }
      Change(owned, disk[owned].(temp := Some(text)));
      if SyncTemp in f.failing { return; }
      Redirect(f.beforeHook);
      if BeforeRename in f.failing || RealpathParent in f.failing || link != owned { return; }
      if CloseTemp in f.failing { return; }
      Redirect(f.race);
      if RenameTemp in f.failing || link != owned { return; }
      Change(link, disk[link].(temp := None, project := disk[link].temp));
      renamed := true;
      Redirect(f.afterHook);
      if AfterRename in f.failing || RealpathProject in f.failing || link != owned { return; }
      ok := true;
    }

    /** Puts the previous text back through a second temporary file, which is removed in any case. */
    method Restore(owned: nat, previous: string, f: Faults) returns (done: bool)
      requires owned in disk && disk[owned].recovery.None?
      modifies this`disk, this`history
      ensures owned in disk && disk == old(disk)[owned := disk[owned]] && old(history) <= history
      ensures RollbackSucceeds(f) ==> done
      ensures done ==> disk[owned] == old(disk)[owned].(project := Some(previous))
      ensures RemoveRecovery !in f.failing ==> disk[owned].recovery.None?
      ensures disk[owned].temp == old(disk)[owned].temp
      ensures forall i | |old(history)| <= i < |history| ::
        history[i].project == old(disk)[owned].project || history[i].project == Some(previous)
    {
      done := false;
      if OpenRecovery in f.failing { return; }
      Change(owned, disk[owned].(recovery := Some("")));
      if WriteRecovery !in f.failing {
        Change(owned, disk[owned].(recovery := Some(previous)));
        if SyncRecovery !in f.failing && CloseRecovery !in f.failing && RenameRecovery !in f.failing {
          Change(owned, disk[owned].(recovery := None, project := disk[owned].recovery));
          done := true;
        }
      }
      if RemoveRecovery in f.failing { return false; }
      Change(owned, disk[owned].(recovery := None));
    }

    /** The catch block; `done` is false if one of its own steps fails. */
    method Rollback(owned: nat, previous: Option<string>, renamed: bool, f: Faults) returns (done: bool)
      requires owned in disk && disk[owned].recovery.None?
      modifies this`disk, this`history
      ensures owned in disk && disk == old(disk)[owned := disk[owned]] && old(history) <= history
      ensures RollbackSucceeds(f) ==> done
      ensures done ==>
        disk[owned] == old(disk)[owned].(
          temp := None, project := if renamed then previous else old(disk)[owned].project)
      ensures RemoveTemp !in f.failing ==> disk[owned].temp.None?
      ensures RemoveRecovery !in f.failing ==> disk[owned].recovery.None?
      ensures forall i | |old(history)| <= i < |history| ::
        history[i].project == old(disk)[owned].project || (renamed && history[i].project == previous)
    {
      done := false;
      if RemoveTemp in f.failing { return; }
      Change(owned, disk[owned].(temp := None));
      if renamed {
        if previous.None? {
          if RemoveProject in f.failing { return; }
          Change(owned, disk[owned].(project := None));
          done := true;
        } else {
          done := Restore(owned, previous.value, f);
        }
      } else {
        done := true;
      }
    }

    /**
    The whole call. It returns exactly when no step fails and the path is not redirected, and then the new
    text is in place. If it throws and the steps of the rollback succeed, the disk is what it was, exactly
    unless a config that existed could not be read and the failure came after the rename; then it is gone.
    Other directories never change, and the config file never shows anything but the old or the new text.
    Whatever fails, no temporary file stays unless removing it fails.
     */
    method Publish(text: string, f: Faults) returns (returned: bool)
      requires link in disk && disk[link].temp.None? && disk[link].recovery.None?
      modifies this
      ensures returned <==> Commits(f, old(link), old(disk))
      ensures returned ==> disk == old(disk)[old(link) := old(disk)[old(link)].(project := Some(text))]
      ensures !returned && RollbackSucceeds(f) ==>
        (disk == old(disk) <==>
         !(ReachesRename(f, old(link), old(disk)) && ReadPrevious in f.failing && old(disk)[old(link)].project.Some?))
      ensures !returned && RollbackSucceeds(f) && disk != old(disk) ==>
        disk == old(disk)[old(link) := old(disk)[old(link)].(project := None)]
      ensures old(link) in disk && disk == old(disk)[old(link) := disk[old(link)]] && old(history) <= history
      ensures RemoveTemp !in f.failing ==> disk[old(link)].temp.None?
      ensures RemoveRecovery !in f.failing ==> disk[old(link)].recovery.None?
      ensures forall i | |old(history)| <= i < |history| ::
        || history[i].project == old(disk)[old(link)].project
        || history[i].project == Some(text)
        || (history[i].project == None && ReadPrevious in f.failing)
    {
      returned := false;
      var owned := link;
      ghost var before := disk;
      assert before == before[owned := before[owned]];
      var previous := if ReadPrevious in f.failing then None else disk[owned].project;
      if OpenTemp in f.failing { return; }
      Change(owned, disk[owned].(temp := Some("")));
      var ok, moved := TryPublish(text, owned, f);
      if ok { return true; }
      var done := Rollback(owned, previous, moved, f);
      assert disk == before[owned := disk[owned]];
      if done {
        assert disk[owned] == before[owned].(project := if moved then previous else before[owned].project);
        assert disk == before <==> disk[owned] == before[owned];
      }
    }

    /** The exceptional case happens: an existing config that cannot be read, then a failing hook after the rename. */
    method UnreadableConfigIsLost(text: string) returns (returned: bool)
      requires link in disk && disk[link].project.Some? && disk[link].temp.None? && disk[link].recovery.None?
      modifies this
      ensures !returned && old(link) in disk && disk[old(link)].project.None?
    {
      var f := Faults({ReadPrevious, AfterRename}, "", None, None, None);
      assert ReachesRename(f, link, disk) && RollbackSucceeds(f);
      assert AfterRename in f.failing * {AfterRename, RealpathProject};
      returned := Publish(text, f);
    }
  }
}
