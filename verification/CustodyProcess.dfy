/** The process that holds the vault open for writing, with its services: each step as it runs is the step of the machine. */
module CustodyProcess {
  import opened Paths
  import opened Store
  import opened Custody
  import opened Sweep
  import opened CustodyMachine
  import opened CustodyRuns
  import Services

  /** The database, the services over it and the files. `purged` and `unsealed` are what the machine records of the past. */
  class Process {
    const c: Config
    const disk: Disk
    var db: VaultDb
    var roles: Services.RoleService
    var admin: Services.AdminService
    ghost var purged: nat
    ghost var unsealed: set<string>

    ghost predicate Valid()
      reads this, db
    {
      && roles.c == c && roles.db == db && roles.disk == disk
      && admin.c == c && admin.db == db && admin.disk == disk
      && db.ink == c.ink && !db.readOnly
    }

    ghost function Now(): Moment
      reads this, db, admin, disk
    {
      Moment(Office(World(db.state, disk.files), admin.pending), purged, unsealed, db.flushed)
    }

    /** The first start, on an empty disk. */
    constructor (c: Config, disk: Disk)
      requires disk.files == map[]
      ensures Valid() && fresh(db) && fresh(admin) && this.c == c && this.disk == disk && Now() == START
    {
      var d := new VaultDb(c.ink, false, EMPTY_DB);
      var r := new Services.RoleService(c, d, disk);
      var a := new Services.AdminService(c, d, disk);
      this.c, this.disk, db, roles, admin, purged, unsealed := c, disk, d, r, a, 0, {};
    }

    /** What a role does. */
    method ServeRole(step: Step)
      requires Valid()
      requires step.Renaming? || step.Moving? || step.Trashing? || step.Restoring? || step.Editing? || step.Viewing?
      modifies this`unsealed, db, disk
      ensures Valid() && Now() == Perform(c, old(Now()), step)
    {
      hide Rename, MoveToCategory, SoftDelete, Restore, EditMeta, View;
      match step {
        case Renaming(s, id, newName, accepts) => var _ := roles.Rename(s, id, newName, accepts);
        case Moving(s, id, category, accepts) => var _ := roles.MoveToCategory(s, id, category, accepts);
        case Trashing(s, id, reason, at) => var _ := roles.SoftDelete(s, id, reason, at);
        case Restoring(s, id) => var _ := roles.Restore(s, id);
        case Editing(s, id, edit, at) => var _ := roles.EditMeta(s, id, edit, at);
        case Viewing(s, id) => var _ := roles.View(s, id);
      }
      unsealed := Perform(c, old(Now()), step).unsealed;
    }

    /** What comes in, and what is decided about it. */
    method ServeIntake(step: Step)
      requires Valid()
      requires step.Admitting? || step.Importing? || step.Rejecting? || step.Uploading?
      modifies this`unsealed, db, disk
      ensures Valid() && Now() == Perform(c, old(Now()), step)
    {
      hide Admit, Import, Reject, Upload;
      match step {
        case Admitting(subId, actor, newId, stamp) => var _ := admin.Admit(subId, actor, newId, stamp);
        case Importing(s, content, meta, newId, stamp) =>
          var _ := Services.Import(c, db, disk, s, content, meta, newId, stamp);
        case Rejecting(subId, reason, actor) => var _ := admin.Reject(subId, reason, actor);
        case Uploading(deviceId, envelope, content, subId, at) =>
          var _ := Services.Upload(c, db, disk, deviceId, envelope, content, subId, at);
      }
      unsealed := Perform(c, old(Now()), step).unsealed;
    }

    /** What goes, and what is only looked at or recorded. */
    method ServeRemoval(step: Step)
      requires Valid() && Enabled(c, Now(), step)
      requires step.Destroying? || step.ProcessingDue? || step.Purging? || step.SweepingAll? || step.Recording?
      modifies this`purged, db, admin, disk
      ensures Valid() && Now() == Perform(c, old(Now()), step)
    {
      hide Destroy, ProcessDue, Purge, SweepSpec, Append;
      match step {
        case Destroying(id, pins, grace, now, text, reason, actor) =>
          var _ := admin.Destroy(id, pins, grace, now, text, reason, actor);
        case ProcessingDue(order, now, text, actor) => var _ := admin.ProcessDue(order, text, actor);
        case Purging(id) => var _ := Services.Purge(db, disk, id);
        case SweepingAll => var _ := SweepVault(c, db, disk);
        case Recording(actor, action, subject, remark) => Services.Record(c, db, actor, action, subject, remark);
      }
      purged := Perform(c, old(Now()), step).purged;
    }

    /** The process ends, and the next one reads what was last flushed. */
    method Restart()
      requires Valid()
      modifies this
      ensures Valid() && fresh(db) && fresh(admin) && Now() == Perform(c, old(Now()), Restarting)
    {
      db := new VaultDb(c.ink, false, db.flushed);
      roles := new Services.RoleService(c, db, disk);
      admin := new Services.AdminService(c, db, disk);
    }

    /** Each step of the machine, as it runs. */
    method Execute(step: Step)
      requires Valid() && Enabled(c, Now(), step)
      modifies this, db, admin, disk
      ensures Valid() && Now() == Perform(c, old(Now()), step)
      ensures (db == old(db) || fresh(db)) && (admin == old(admin) || fresh(admin))
    {
      hide Perform;
      if step.Renaming? || step.Moving? || step.Trashing? || step.Restoring? || step.Editing? || step.Viewing? {
        ServeRole(step);
      } else if step.Admitting? || step.Importing? || step.Rejecting? || step.Uploading? {
        ServeIntake(step);
      } else if step.Restarting? {
        Restart();
      } else {
        ServeRemoval(step);
      }
    }

    /** A whole run, as it runs: the process ends in the last state of the run, for which the statements about runs hold. */
    method Work(ghost ms: seq<Moment>, steps: seq<Step>)
      requires Valid() && Now() == START && Run(c, ms, steps)
      modifies this, db, admin, disk
      ensures Valid() && Now() == ms[|steps|]
    {
      hide Perform, Enabled;
      for k := 0 to |steps|
        invariant Valid() && Now() == ms[k]
        invariant (db == old(db) || fresh(db)) && (admin == old(admin) || fresh(admin))
      {
        Execute(steps[k]);
      }
    }
  }
}
