/** The vault as one machine: its operations with their inputs, the flush that ends them, and restarts. */
module CustodyMachine {
  import opened Common
  import opened Documents
  import opened Store
  import opened Custody
  import opened Replay
  import opened CustodyInvariant
  import opened Sweep

  /** An operation with its inputs. `Recording` stands for the entries that move no document: logins and logouts, PINs,
      pairing codes, devices. `Restarting` is the end of the process, in order or not, and the start of the next one. */
  datatype Step =
    | Renaming(s: Session, id: string, newName: string, accepts: bool)
    | Moving(s: Session, id: string, category: Category, accepts: bool)
    | Trashing(s: Session, id: string, reason: string, at: string)
    | Restoring(s: Session, id: string)
    | Editing(s: Session, id: string, edit: Edit, at: string)
    | Viewing(s: Session, id: string)
    | Admitting(subId: string, actor: string, newId: string, stamp: Option<string>)
    | Importing(s: Session, content: bytes, meta: DocumentMeta, newId: string, stamp: Option<string>)
    | Rejecting(subId: string, reason: string, actor: string)
    | Uploading(deviceId: string, envelope: Option<Envelope>, content: bytes, subId: string, at: string)
    | Destroying(id: string, pins: bool, grace: nat, now: nat, text: bytes, reason: string, actor: string)
    | ProcessingDue(order: seq<string>, now: nat, text: bytes, actor: string)
    | Purging(id: string)
    | SweepingAll
    | Recording(actor: string, action: string, subject: string, remark: string)
    | Restarting

  /** A state of a run: the service in memory with the files, the purges so far, the documents whose last rename or move the
      system refused, and the database as it was last flushed. */
  datatype Moment = Moment(o: Office, purged: nat, unsealed: set<string>, flushed: DbState)

  const EMPTY_DB := DbState([], [], [], [], [])

  const START := Moment(Office(World(EMPTY_DB, map[]), map[]), 0, {}, EMPTY_DB)

  // ---------- steps ----------

  function InWorld(m: Moment, w: World): Moment {
    m.(o := m.o.(w := w))
  }

  function AfterMove(m: Moment, id: string, w': World, answer: Result<Document, OpError>): Moment {
    InWorld(m, w').(unsealed := if answer == Err(IoError) then m.unsealed + {id}
                                else if w'.db != m.o.w.db then m.unsealed - {id}
                                else m.unsealed)
  }

  function AfterArrival(m: Moment, id: string, w': World, answer: Result<SealOutcome, OpError>): Moment {
    InWorld(m, w').(unsealed := if answer.Ok? && answer.value.Sealed? then m.unsealed - {id} else m.unsealed)
  }

  /** What a step does to the database in memory, to the files and to the pending destructions. */
  function Act(c: Config, m: Moment, step: Step): Moment {
    var w := m.o.w;
    match step
    case Renaming(s, id, newName, accepts) =>
      var (w', answer) := Rename(c, false, s, w, id, newName, accepts);
      AfterMove(m, id, w', answer)
    case Moving(s, id, category, accepts) =>
      var (w', answer) := MoveToCategory(c, false, s, w, id, category, accepts);
      AfterMove(m, id, w', answer)
    case Trashing(s, id, reason, at) => InWorld(m, SoftDelete(c, false, s, w, id, reason, at).0)
    case Restoring(s, id) => InWorld(m, Restore(c, false, s, w, id).0)
    case Editing(s, id, edit, at) => InWorld(m, EditMeta(c, false, s, w, id, edit, at).0)
    case Viewing(s, id) => InWorld(m, View(c, false, s, w, id).0)
    case Admitting(subId, actor, newId, stamp) =>
      var (w', answer) := Admit(c, w, subId, actor, newId, stamp);
      AfterArrival(m, newId, w', answer)
    case Importing(s, content, meta, newId, stamp) =>
      var (w', answer) := Import(c, false, s, w, content, meta, newId, stamp);
      AfterArrival(m, newId, w', answer)
    case Rejecting(subId, reason, actor) => InWorld(m, Reject(c, w, subId, reason, actor).0)
    case Uploading(deviceId, envelope, content, subId, at) =>
      InWorld(m, Upload(c, w, deviceId, envelope, content, subId, at).0)
    case Destroying(id, pins, grace, now, text, reason, actor) =>
      m.(o := Destroy(c, m.o, id, pins, grace, now, text, reason, actor).0)
    case ProcessingDue(order, now, text, actor) =>
      if forall i :: 0 <= i < |order| ==> HasId(w.db.documents, order[i])
      then m.(o := ProcessDue(c, m.o, order, text, actor).0)
      else m
    case Purging(id) =>
      var (w', answer) := Purge(w, id);
      InWorld(m, w').(purged := m.purged + if answer.Ok? then 1 else 0)
    case SweepingAll => InWorld(m, w.(db := SweepSpec(c, w).0))
    case Recording(actor, action, subject, remark) =>
      InWorld(m, w.(db := Noted(c.ink, w.db, actor, action, subject, Note(remark))))
    case Restarting => m.(o := Office(w.(db := m.flushed), map[]))
  }

  /** Does the step flush what it did? An admission returns the error of the sealing before it gets there, a sweep that of
      reading a folder, and a purge ends with a flush although it writes no entry; everything else flushes after each entry
      it writes, and only then. */
  predicate Flushes(c: Config, m: Moment, step: Step) {
    match step
    case Admitting(subId, actor, newId, stamp) =>
      var answer := Admit(c, m.o.w, subId, actor, newId, stamp).1;
      answer.Ok? || answer == Err(HashMismatch)
    case Purging(id) => Purge(m.o.w, id).1.Ok?
    case SweepingAll => SweepSpec(c, m.o.w).1.Ok?
    case Restarting => false
    case _ => |Act(c, m, step).o.w.db.audit| > |m.o.w.db.audit|
  }

  /** The state after a step. */
  function Perform(c: Config, m: Moment, step: Step): Moment {
    var m' := Act(c, m, step);
    if Flushes(c, m, step) then m'.(flushed := m'.o.w.db) else m'
  }

  /** When a step may be taken: identifiers are new, the walk over the due destructions meets each once, and what is only
      recorded places nothing. */
  ghost predicate Enabled(c: Config, m: Moment, step: Step) {
    match step
    case Admitting(_, _, newId, _) => Fresh(m.o.w, newId)
    case Importing(_, _, _, newId, _) => Fresh(m.o.w, newId)
    case Uploading(_, _, _, subId, _) =>
      forall i :: 0 <= i < |m.o.w.db.submissions| ==> m.o.w.db.submissions[i].submissionId != subId
    case ProcessingDue(order, now, _, _) => Enumerates(order, DueIds(m.o, now))
    case Recording(_, action, _, _) => !Placing(action)
    case _ => true
  }
}
