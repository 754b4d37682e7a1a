/** The runs of the vault as runs of the single-writer protocol: the process in memory is the one that holds the lock, and
    what a restart goes back to is what the protocol has on the disk. */
module CustodyOnDisk {
  import opened Common
  import opened Documents
  import opened AuditChain
  import opened Store
  import opened Custody
  import opened Replay
  import opened CustodyMachine
  import opened CustodySteps
  import opened CustodyRuns
  import opened CustodyTrace
  import Writer = SingleWriter

  /** Everything of the database but the log. */
  datatype Shelves = Shelves(
    documents: seq<Document>,
    submissions: seq<Submission>,
    trashed: seq<TrashedDocument>,
    versions: seq<DocumentVersion>)

  type Change = Writer.Mutation<Detail, Shelves>
  type Event = Writer.Event<Detail, Shelves>
  type System = Writer.System<Detail, Shelves>

  function Snap(db: DbState): Writer.Snapshot<Detail, Shelves> {
    Writer.Snapshot(db.audit, Shelves(db.documents, db.submissions, db.trashed, db.versions))
  }

  /** The system with the events so far, from the absent file. */
  function Reach(c: Config, es: seq<Event>): System {
    Writer.Run(c.ink.hashing, Snap(EMPTY_DB), es)
  }

  /** One process is there; it may write, its copy is `mem`, and the file holds `saved`. */
  predicate Serves(sys: System, mem: DbState, saved: DbState) {
    && sys.lock == Some(0) && sys.procs.Keys == {0}
    && sys.procs[0].Handle? && !sys.procs[0].readOnly && sys.procs[0].stage.Idle? && sys.procs[0].state == Snap(mem)
    && Writer.Current(Snap(EMPTY_DB), sys.disk) == Snap(saved)
    && !sys.disk.Torn?
  }

  lemma ReachSnoc(c: Config, es: seq<Event>, e: Event)
    ensures Reach(c, es + [e]) == Writer.Step(c.ink.hashing, Snap(EMPTY_DB), Reach(c, es), e)
  {
    assert (es + [e])[..|es|] == es;
  }

  // ---------- changes ----------

  function AsChange(e: Entry): Change {
    Writer.Append(e.timestamp, e.actor, e.action, e.subject, e.detail)
  }

  /** The changes that lead from one state to another whose log extends the first one's. */
  function Changes(a: DbState, b: DbState): seq<Change>
    requires a.audit <= b.audit
  {
    [Writer.Replace(Snap(b).rest)] + Entries(b.audit[|a.audit|..])
  }

  function Entries(log: Log): seq<Change> {
    if log == [] then [] else Entries(log[..|log| - 1]) + [AsChange(log[|log| - 1])]
  }

  /** Appending the entries of a chained log one by one builds that log. */
  lemma {:induction false} EntriesBuild(c: Config, s: Writer.Snapshot<Detail, Shelves>, log: Log, n: nat)
    requires Chained(c.ink.hashing, log) && n <= |log| && s.audit == log[..n]
    ensures Writer.ApplyAll(c.ink.hashing, s, Entries(log[n..])) == s.(audit := log)
    decreases |log|
  {
    var h := c.ink.hashing;
    if n == |log| {
      assert log[..n] == log && log[n..] == [];
    } else {
      var m := |log| - 1;
      var before := log[..m];
      ChainedPrefix(h, log, m);
      assert before[..n] == log[..n] && before[n..] == log[n..][..|log[n..]| - 1];
      EntriesBuild(c, s, before, n);
      assert log[n..][|log[n..]| - 1] == log[m];
      Writer.ApplyAllSnoc(h, s, Entries(before[n..]), AsChange(log[m]));
      assert Linked(h, log, m);
      assert log == before + [log[m]];
    }
  }

  lemma ChainedPrefix(h: Hashing<Detail>, log: Log, n: nat)
    requires Chained(h, log) && n <= |log|
    ensures Chained(h, log[..n])
  {
    VerifiedPrefix(h, log, n);
  }

  lemma ChangesReach(c: Config, a: DbState, b: DbState)
    requires a.audit <= b.audit && Chained(c.ink.hashing, b.audit)
    ensures Writer.ApplyAll(c.ink.hashing, Snap(a), Changes(a, b)) == Snap(b)
  {
    var h := c.ink.hashing;
    var s := Snap(a).(rest := Snap(b).rest);
    var replace: seq<Change> := [Writer.Replace(Snap(b).rest)];
    Writer.ApplyAllSnoc(h, Snap(a), [], Writer.Replace(Snap(b).rest));
    assert [] + replace == replace;
    Writer.ApplyAllConcat(h, Snap(a), replace, Entries(b.audit[|a.audit|..]));
    EntriesBuild(c, s, b.audit, |a.audit|);
  }

  // ---------- events ----------

  function Mutates(ms: seq<Change>): seq<Event> {
    seq(|ms|, i requires 0 <= i < |ms| => Writer.Mutate(0, ms[i]))
  }

  /** A process at rest applies changes to its copy, and to nothing else. */
  lemma {:induction false} MutationsApply(c: Config, es: seq<Event>, ms: seq<Change>, mem: DbState, saved: DbState)
    requires Serves(Reach(c, es), mem, saved)
    ensures var sys, sys' := Reach(c, es), Reach(c, es + Mutates(ms));
            && sys'.lock == sys.lock && sys'.procs.Keys == sys.procs.Keys && sys'.disk == sys.disk
            && sys'.commits == sys.commits
            && sys'.procs[0].Handle? && !sys'.procs[0].readOnly && sys'.procs[0].stage.Idle?
            && sys'.procs[0].state == Writer.ApplyAll(c.ink.hashing, Snap(mem), ms)
  {
    if ms == [] {
      assert es + Mutates(ms) == es;
    } else {
      var n := |ms| - 1;
      MutationsApply(c, es, ms[..n], mem, saved);
      assert es + Mutates(ms) == es + Mutates(ms[..n]) + [Writer.Mutate(0, ms[n])];
      ReachSnoc(c, es + Mutates(ms[..n]), Writer.Mutate(0, ms[n]));
    }
  }

  // ---------- the events of one step ----------

  /** Nothing but changes of the copy in memory. */
  predicate OnlyMutates(es: seq<Event>) {
    forall e :: e in es ==> e.Mutate? && e.pid == 0
  }

  const OPENING: seq<Event> := [Writer.TryLock(0, true), Writer.Load(0)]
  const FLUSHING: seq<Event> := [Writer.BeginFlush(0), Writer.FinishTmp(0), Writer.Rename(0)]

  /** The events of a step: a restart is the end of the process and the opening by the next; any other step changes the copy
      in memory, and then flushes it, in its three stages, or does not. */
  predicate EventsOf(c: Config, m: Moment, step: Step, es: seq<Event>) {
    if step.Restarting? then es == [Writer.Exit(0)] + OPENING
    else if Flushes(c, m, step) then
      |es| >= 3 && OnlyMutates(es[..|es| - 3]) && es[|es| - 3..] == FLUSHING
    else OnlyMutates(es)
  }

  /** The states that the completed flushes left on the disk, in order. */
  function Committed(sys: System): seq<Writer.Snapshot<Detail, Shelves>> {
    seq(|sys.commits|, i requires 0 <= i < |sys.commits| => sys.commits[i].state)
  }

  /** A step of the protocol: to `mem` in memory and `saved` on the disk, with these flushes completed. */
  predicate ServesAfter(
      c: Config, es: seq<Event>, mem: DbState, saved: DbState, flushes: seq<Writer.Snapshot<Detail, Shelves>>)
  {
    Serves(Reach(c, es), mem, saved) && Committed(Reach(c, es)) == flushes
  }

  lemma Moves(c: Config, es: seq<Event>, a: DbState, b: DbState, saved: DbState) returns (added: seq<Event>)
    requires Serves(Reach(c, es), a, saved) && a.audit <= b.audit && Chained(c.ink.hashing, b.audit)
    ensures OnlyMutates(added) && ServesAfter(c, es + added, b, saved, Committed(Reach(c, es)))
  {
    added := Mutates(Changes(a, b));
    MutationsApply(c, es, Changes(a, b), a, saved);
    ChangesReach(c, a, b);
  }

  /** A flush: temporary file, its end, rename. */
  lemma Flushed(c: Config, es: seq<Event>, mem: DbState, saved: DbState)
    requires Serves(Reach(c, es), mem, saved)
    ensures ServesAfter(c, es + FLUSHING, mem, mem, Committed(Reach(c, es)) + [Snap(mem)])
  {
    ReachSnoc(c, es, FLUSHING[0]);
    var e1 := es + [FLUSHING[0]];
    ReachSnoc(c, e1, FLUSHING[1]);
    var e2 := e1 + [FLUSHING[1]];
    ReachSnoc(c, e2, FLUSHING[2]);
    assert e2 + [FLUSHING[2]] == es + FLUSHING;
  }

  /** The process ends and the next one takes the lock and reads the file. */
  lemma Reopened(c: Config, es: seq<Event>, mem: DbState, saved: DbState)
    requires Serves(Reach(c, es), mem, saved)
    ensures ServesAfter(c, es + ([Writer.Exit(0)] + OPENING), saved, saved, Committed(Reach(c, es)))
  {
    ReachSnoc(c, es, Writer.Exit(0));
    var e1 := es + [Writer.Exit(0)];
    Opened(c, e1, saved);
    assert e1 + OPENING == es + ([Writer.Exit(0)] + OPENING);
  }

  lemma Opened(c: Config, es: seq<Event>, saved: DbState)
    requires Reach(c, es).procs.Keys == {} && Reach(c, es).lock == None && !Reach(c, es).disk.Torn?
    requires Writer.Current(Snap(EMPTY_DB), Reach(c, es).disk) == Snap(saved)
    ensures ServesAfter(c, es + OPENING, saved, saved, Committed(Reach(c, es)))
  {
    ReachSnoc(c, es, OPENING[0]);
    var e1 := es + [OPENING[0]];
    ReachSnoc(c, e1, OPENING[1]);
    assert e1 + [OPENING[1]] == es + OPENING;
  }

  // ---------- whole runs ----------

  /** The databases that the steps of a run flushed before state `i`, in order. */
  function FlushedStates(c: Config, ms: seq<Moment>, steps: seq<Step>, i: nat): seq<Writer.Snapshot<Detail, Shelves>>
    requires i <= |steps| < |ms|
  {
    if i == 0 then []
    else
      FlushedStates(c, ms, steps, i - 1)
      + (if Flushes(c, ms[i - 1], steps[i - 1]) then [Snap(ms[i].o.w.db)] else [])
  }

  /** The next step adds its own events, and takes the protocol to the next state. */
  lemma StepIsOnDisk(c: Config, ms: seq<Moment>, steps: seq<Step>, i: nat, es: seq<Event>) returns (added: seq<Event>)
    requires Run(c, ms, steps) && i < |steps|
    requires ServesAfter(c, es, ms[i].o.w.db, ms[i].flushed, FlushedStates(c, ms, steps, i))
    ensures EventsOf(c, ms[i], steps[i], added)
    ensures ServesAfter(c, es + added, ms[i + 1].o.w.db, ms[i + 1].flushed, FlushedStates(c, ms, steps, i + 1))
  {
    hide Enabled, Perform, Serves, Reach, Act, Flushes, Committed, Traced;
    var m, step := ms[i], steps[i];
    assert ms[i + 1] == Perform(c, m, step);
    if step.Restarting? {
      added := [Writer.Exit(0)] + OPENING;
      Reopened(c, es, m.o.w.db, m.flushed);
      RestartActs(c, m);
      RestartsDoNotFlush(c, m);
    } else {
      LogGrows(c, ms, steps, i);
      LogIsChained(c, ms, steps, i + 1);
      added := Moves(c, es, m.o.w.db, ms[i + 1].o.w.db, m.flushed);
      FlushedOrNot(c, m, step);
      if Flushes(c, m, step) {
        Flushed(c, es + added, ms[i + 1].o.w.db, m.flushed);
        assert es + added + FLUSHING == es + (added + FLUSHING);
        added := added + FLUSHING;
      }
    }
  }

  lemma RestartsDoNotFlush(c: Config, m: Moment)
    ensures !Flushes(c, m, Restarting)
  {
    hide Act, Admit, Purge;
  }

  lemma FlushedOrNot(c: Config, m: Moment, step: Step)
    ensures Perform(c, m, step).flushed == if Flushes(c, m, step) then Perform(c, m, step).o.w.db else m.flushed
  {
    ActKeepsFlushed(c, m, step);
    hide Act, Flushes;
  }

  /** Is this a run of the protocol that goes along with the run: opened first, then in each state the events so far and those
      of the next step? */
  predicate GoesAlong(c: Config, ms: seq<Moment>, steps: seq<Step>, ess: seq<seq<Event>>) {
    && |ess| == |ms| == |steps| + 1 && ess[0] == OPENING
    && forall k :: 0 <= k < |steps| ==> ess[k] <= ess[k + 1] && EventsOf(c, ms[k], steps[k], ess[k + 1][|ess[k]|..])
  }

  /** Every run of the vault, with its flushes and restarts, is one run of the single-writer protocol, by one process after the
      other. Each step adds its events: a restart exactly the exit, the lock and the reading; any other step only changes in
      memory, followed by the three stages of a flush exactly when it flushes. In each state the process that holds the lock
      has the database in memory, the file holds the one last flushed, and the protocol's commits are the databases flushed
      so far, in order. */
  lemma RunIsOnDisk(c: Config, ms: seq<Moment>, steps: seq<Step>) returns (ess: seq<seq<Event>>)
    requires Run(c, ms, steps)
    ensures GoesAlong(c, ms, steps, ess)
    ensures forall k :: 0 <= k <= |steps| ==>
              && Serves(Reach(c, ess[k]), ms[k].o.w.db, ms[k].flushed)
              && Committed(Reach(c, ess[k])) == FlushedStates(c, ms, steps, k)
  {
    hide Perform, Enabled, Serves, Reach, Committed, EventsOf, FlushedStates;
    Started(c, ms, steps);
    ess := [OPENING];
    for i := 0 to |steps|
      invariant |ess| == i + 1 && ess[0] == OPENING
      invariant forall k :: 0 <= k < i ==> ess[k] <= ess[k + 1] && EventsOf(c, ms[k], steps[k], ess[k + 1][|ess[k]|..])
      invariant forall k :: 0 <= k <= i ==>
                  ServesAfter(c, ess[k], ms[k].o.w.db, ms[k].flushed, FlushedStates(c, ms, steps, k))
    {
      var added := StepIsOnDisk(c, ms, steps, i, ess[i]);
      assert (ess[i] + added)[|ess[i]|..] == added;
      ess := ess + [ess[i] + added];
    }
  }

  lemma Started(c: Config, ms: seq<Moment>, steps: seq<Step>)
    requires Run(c, ms, steps)
    ensures ServesAfter(c, OPENING, ms[0].o.w.db, ms[0].flushed, FlushedStates(c, ms, steps, 0))
  {
    Opened(c, [], EMPTY_DB);
    assert [] + OPENING == OPENING;
  }

  lemma LogGrows(c: Config, ms: seq<Moment>, steps: seq<Step>, i: nat)
    requires Run(c, ms, steps) && i < |steps| && !steps[i].Restarting?
    ensures ms[i].o.w.db.audit <= ms[i + 1].o.w.db.audit
  {
    hide Perform, Enabled;
    ChangesAreTraced(c, ms, steps, i);
  }

  lemma LogIsChained(c: Config, ms: seq<Moment>, steps: seq<Step>, i: nat)
    requires Run(c, ms, steps) && i < |ms|
    ensures Chained(c.ink.hashing, ms[i].o.w.db.audit)
  {
    hide Perform, Enabled;
    LogRebuildsTheIndex(c, ms, steps, i);
  }
}
