/** The single-writer protocol over one lock and one database file: any number of processes open, change their copy in
    memory, flush in steps (temporary file, then rename), fail, drop or crash, in any interleaving.
    Serialisation and encryption are taken as an inverse pair, so a whole file is the snapshot written to it. */
module SingleWriter {
  import opened Common
  import opened AuditChain

  /** `DbState`: the audit log, and everything else. */
  datatype Snapshot<+D, +R> = Snapshot(audit: seq<AuditEntry<D>>, rest: R)

  /** The mutators of `VaultDb`: the log is only ever appended to. */
  datatype Mutation<+D, +R> =
    | Append(timestamp: string, actor: string, action: string, subject: string, detail: D)
    | Replace(rest: R)

  function Apply<D, R>(h: Hashing<D>, s: Snapshot<D, R>, m: Mutation<D, R>): Snapshot<D, R> {
    match m
    case Append(timestamp, actor, action, subject, detail) =>
      s.(audit := s.audit + [AuditEntry(|s.audit|, timestamp, actor, action, subject, detail, Head(h, s.audit))])
    case Replace(rest) => s.(rest := rest)
  }

  function ApplyAll<D, R>(h: Hashing<D>, s: Snapshot<D, R>, ms: seq<Mutation<D, R>>): Snapshot<D, R> {
    if ms == [] then s else Apply(h, ApplyAll(h, s, ms[..|ms| - 1]), ms[|ms| - 1])
  }

  // ---------- the system ----------

  datatype File<+D, +R> = Absent | Torn | Whole(content: Snapshot<D, R>)

  datatype Stage = Idle | WritingTmp | TmpWritten

  /** A process between taking the lock (or not) and reading the file, or with an open handle.
      `base` and `ops` record where the handle's copy comes from: what it last shared with the disk, and its changes since. */
  datatype Process<+D, +R> =
    | Opening(readOnly: bool)
    | Handle(readOnly: bool, state: Snapshot<D, R>, stage: Stage, base: Snapshot<D, R>, ops: seq<Mutation<D, R>>)

  /** One completed flush. */
  datatype Commit<+D, +R> = Commit(base: Snapshot<D, R>, ops: seq<Mutation<D, R>>, state: Snapshot<D, R>)

  datatype System<+D, +R> = System(
    lock: Option<nat>,
    disk: File<D, R>,
    tmp: File<D, R>,
    procs: map<nat, Process<D, R>>,
    commits: seq<Commit<D, R>>)

  datatype Event<+D, +R> =
    | TryLock(pid: nat, requireWrite: bool)
    | Load(pid: nat)
    | Mutate(pid: nat, m: Mutation<D, R>)
    | BeginFlush(pid: nat)
    | FinishTmp(pid: nat)
    | Rename(pid: nat)
    | FlushFails(pid: nat)
    | Exit(pid: nat)

  /** What opening the file yields: an absent file opens as the default state. */
  function Current<D, R>(init: Snapshot<D, R>, disk: File<D, R>): Snapshot<D, R> {
    if disk.Whole? then disk.content else init
  }

  function Leave<D, R>(sys: System<D, R>, pid: nat): System<D, R> {
    sys.(procs := sys.procs - {pid}, lock := if sys.lock == Some(pid) then None else sys.lock)
  }

  /** One step; an event that is not enabled, or that only returns an error, changes nothing.
      `Exit` is a drop or a crash at any point: either way the system releases the lock and keeps the files. */
  function Step<D, R>(h: Hashing<D>, init: Snapshot<D, R>, sys: System<D, R>, e: Event<D, R>): System<D, R> {
    if e.TryLock? then
      if e.pid in sys.procs then sys
      else if sys.lock.None? then sys.(lock := Some(e.pid), procs := sys.procs[e.pid := Opening(false)])
      else if e.requireWrite then sys
      else sys.(procs := sys.procs[e.pid := Opening(true)])
    else if e.pid !in sys.procs then sys
    else
      var p := sys.procs[e.pid];
      match e
      case Load(pid) =>
        if p.Handle? then sys
        else if sys.disk.Torn? then Leave(sys, pid)
        else
          var s := Current(init, sys.disk);
          sys.(procs := sys.procs[pid := Handle(p.readOnly, s, Idle, s, [])])
      case Mutate(pid, m) =>
        if p.Opening? || !p.stage.Idle? then sys
        else sys.(procs := sys.procs[pid := p.(state := Apply(h, p.state, m), ops := p.ops + [m])])
      case BeginFlush(pid) =>
        if p.Opening? || !p.stage.Idle? || p.readOnly then sys
        else sys.(tmp := Torn, procs := sys.procs[pid := p.(stage := WritingTmp)])
      case FinishTmp(pid) =>
        if p.Opening? || !p.stage.WritingTmp? then sys
        else sys.(tmp := Whole(p.state), procs := sys.procs[pid := p.(stage := TmpWritten)])
      case Rename(pid) =>
        if p.Opening? || !p.stage.TmpWritten? || sys.tmp.Absent? then sys
        else sys.(disk := sys.tmp, tmp := Absent,
                  commits := sys.commits + [Commit(p.base, p.ops, p.state)],
                  procs := sys.procs[pid := p.(stage := Idle, base := p.state, ops := [])])
      case FlushFails(pid) =>
        if p.Opening? then sys else sys.(procs := sys.procs[pid := p.(stage := Idle)])
      case Exit(pid) => Leave(sys, pid)
  }

  function Run<D, R>(h: Hashing<D>, init: Snapshot<D, R>, es: seq<Event<D, R>>): System<D, R> {
    if es == [] then System(None, Absent, Absent, map[], [])
    else Step(h, init, Run(h, init, es[..|es| - 1]), es[|es| - 1])
  }

  // ---------- what every step keeps ----------

  predicate Writer<D, R>(sys: System<D, R>, pid: nat) {
    pid in sys.procs && !sys.procs[pid].readOnly
  }

  ghost predicate LockInv<D, R>(sys: System<D, R>) {
    && (forall pid: nat :: Writer(sys, pid) ==> sys.lock == Some(pid))
    && (sys.lock.Some? ==> Writer(sys, sys.lock.value))
  }

  /** The copy of a handle is its base with its changes; a writer's base is what is on the disk,
      and a fully written temporary file holds the writer's copy. */
  ghost predicate HandleInv<D, R>(h: Hashing<D>, init: Snapshot<D, R>, sys: System<D, R>, pid: nat)
    requires pid in sys.procs
  {
    var p := sys.procs[pid];
    p.Handle? ==>
      && p.state == ApplyAll(h, p.base, p.ops)
      && (!p.readOnly ==> p.base == Current(init, sys.disk))
      && (p.readOnly ==> p.stage.Idle?)
      && (p.stage.TmpWritten? ==> sys.tmp == Whole(p.state))
  }

  function LastState<D, R>(init: Snapshot<D, R>, cs: seq<Commit<D, R>>): Snapshot<D, R> {
    if cs == [] then init else cs[|cs| - 1].state
  }

  /** Each flush was computed from the flush before it. */
  ghost predicate Lineage<D, R>(h: Hashing<D>, init: Snapshot<D, R>, cs: seq<Commit<D, R>>) {
    forall i :: 0 <= i < |cs| ==>
      cs[i].base == LastState(init, cs[..i]) && cs[i].state == ApplyAll(h, cs[i].base, cs[i].ops)
  }

  ghost predicate Inv<D, R>(h: Hashing<D>, init: Snapshot<D, R>, sys: System<D, R>) {
    && LockInv(sys)
    && (forall pid :: pid in sys.procs ==> HandleInv(h, init, sys, pid))
    && Lineage(h, init, sys.commits)
    && sys.disk == (if sys.commits == [] then Absent else Whole(LastState(init, sys.commits)))
  }

  lemma StepKeepsLock<D, R>(h: Hashing<D>, init: Snapshot<D, R>, sys: System<D, R>, e: Event<D, R>)
    requires LockInv(sys)
    ensures LockInv(Step(h, init, sys, e))
  {
    var sys' := Step(h, init, sys, e);
    forall pid | Writer(sys', pid)
      ensures sys'.lock == Some(pid)
    {
      assert pid != e.pid ==> Writer(sys, pid);
    }
  }

  lemma LineageExtend<D, R>(h: Hashing<D>, init: Snapshot<D, R>, cs: seq<Commit<D, R>>, c: Commit<D, R>)
    requires Lineage(h, init, cs)
    requires c.base == LastState(init, cs) && c.state == ApplyAll(h, c.base, c.ops)
    ensures Lineage(h, init, cs + [c])
  {
    var cs' := cs + [c];
    forall i | 0 <= i < |cs'|
      ensures cs'[i].base == LastState(init, cs'[..i]) && cs'[i].state == ApplyAll(h, cs'[i].base, cs'[i].ops)
    {
      assert i < |cs| ==> cs'[..i] == cs[..i];
      assert cs'[..|cs|] == cs;
    }
  }

  lemma ApplyAllSnoc<D, R>(h: Hashing<D>, s: Snapshot<D, R>, ms: seq<Mutation<D, R>>, m: Mutation<D, R>)
    ensures ApplyAll(h, s, ms + [m]) == Apply(h, ApplyAll(h, s, ms), m)
  {
    assert (ms + [m])[..|ms|] == ms;
  }

  lemma StepKeepsHandles<D, R>(h: Hashing<D>, init: Snapshot<D, R>, sys: System<D, R>, e: Event<D, R>, pid: nat)
    requires Inv(h, init, sys)
    requires pid in Step(h, init, sys, e).procs
    ensures HandleInv(h, init, Step(h, init, sys, e), pid)
  {
    var sys' := Step(h, init, sys, e);
    if pid in sys.procs { assert HandleInv(h, init, sys, pid); }
    if e.pid in sys.procs { assert HandleInv(h, init, sys, e.pid); }
    if e.Mutate? && e.pid == pid && pid in sys.procs && sys.procs[pid].Handle? {
      ApplyAllSnoc(h, sys.procs[pid].base, sys.procs[pid].ops, e.m);
    }
    if pid != e.pid && !sys'.procs[pid].readOnly {
      assert Writer(sys, pid) && !Writer(sys, e.pid);
    }
  }

  lemma StepKeepsInv<D, R>(h: Hashing<D>, init: Snapshot<D, R>, sys: System<D, R>, e: Event<D, R>)
    requires Inv(h, init, sys)
    ensures Inv(h, init, Step(h, init, sys, e))
  {
    var sys' := Step(h, init, sys, e);
    StepKeepsLock(h, init, sys, e);
    forall pid | pid in sys'.procs
      ensures HandleInv(h, init, sys', pid)
    {
      StepKeepsHandles(h, init, sys, e, pid);
    }
    if e.Rename? && e.pid in sys.procs {
      var p := sys.procs[e.pid];
      assert HandleInv(h, init, sys, e.pid);
      if sys' != sys { LineageExtend(h, init, sys.commits, Commit(p.base, p.ops, p.state)); }
    }
  }

  lemma {:induction false} RunKeepsInv<D, R>(h: Hashing<D>, init: Snapshot<D, R>, es: seq<Event<D, R>>)
    ensures Inv(h, init, Run(h, init, es))
  {
    if es != [] {
      RunKeepsInv(h, init, es[..|es| - 1]);
      StepKeepsInv(h, init, Run(h, init, es[..|es| - 1]), es[|es| - 1]);
    }
  }

  // ---------- the promises over whole runs ----------

  /** No two processes can write at once. */
  lemma AtMostOneWriter<D, R>(h: Hashing<D>, init: Snapshot<D, R>, es: seq<Event<D, R>>, p: nat, q: nat)
    requires Writer(Run(h, init, es), p) && Writer(Run(h, init, es), q)
    ensures p == q
  {
    RunKeepsInv(h, init, es);
  }

  function AllOps<D, R>(cs: seq<Commit<D, R>>): seq<Mutation<D, R>> {
    if cs == [] then [] else AllOps(cs[..|cs| - 1]) + cs[|cs| - 1].ops
  }

  lemma {:induction false} ApplyAllConcat<D, R>(
      h: Hashing<D>, s: Snapshot<D, R>, a: seq<Mutation<D, R>>, b: seq<Mutation<D, R>>)
    ensures ApplyAll(h, s, a + b) == ApplyAll(h, ApplyAll(h, s, a), b)
  {
    if b == [] {
      assert a + b == a;
    } else {
      ApplyAllConcat(h, s, a, b[..|b| - 1]);
      assert (a + b)[..|a + b| - 1] == a + b[..|b| - 1];
    }
  }

  lemma {:induction false} LineageReplays<D, R>(h: Hashing<D>, init: Snapshot<D, R>, cs: seq<Commit<D, R>>)
    requires Lineage(h, init, cs)
    ensures LastState(init, cs) == ApplyAll(h, init, AllOps(cs))
  {
    if cs != [] {
      var before := cs[..|cs| - 1];
      forall i | 0 <= i < |before|
        ensures before[i].base == LastState(init, before[..i]) && before[i].state == ApplyAll(h, before[i].base, before[i].ops)
      {
        assert before[..i] == cs[..i];
      }
      LineageReplays(h, init, before);
      ApplyAllConcat(h, init, AllOps(before), cs[|cs| - 1].ops);
    }
  }

  /** The disk always holds the last completed flush, whole, and that state is the default state with every change of
      every completed flush applied in order: no update is lost, overwritten or applied twice. */
  lemma NoLostUpdate<D, R>(h: Hashing<D>, init: Snapshot<D, R>, es: seq<Event<D, R>>)
    ensures var sys := Run(h, init, es);
            && sys.disk == (if sys.commits == [] then Absent else Whole(sys.commits[|sys.commits| - 1].state))
            && Current(init, sys.disk) == ApplyAll(h, init, AllOps(sys.commits))
  {
    RunKeepsInv(h, init, es);
    LineageReplays(h, init, Run(h, init, es).commits);
  }

  lemma {:induction false} ApplyAllGrowsLog<D, R>(h: Hashing<D>, s: Snapshot<D, R>, ms: seq<Mutation<D, R>>)
    ensures s.audit <= ApplyAll(h, s, ms).audit
    ensures Verified(h, s.audit) ==> Verified(h, ApplyAll(h, s, ms).audit)
  {
    if ms != [] {
      var t := ApplyAll(h, s, ms[..|ms| - 1]);
      ApplyAllGrowsLog(h, s, ms[..|ms| - 1]);
      var m := ms[|ms| - 1];
      if m.Append? && Verified(h, t.audit) {
        VerifiedAppend(h, t.audit,
                       AuditEntry(|t.audit|, m.timestamp, m.actor, m.action, m.subject, m.detail, Head(h, t.audit)));
      }
    }
  }

  function DiskLog<D, R>(init: Snapshot<D, R>, sys: System<D, R>): seq<AuditEntry<D>> {
    Current(init, sys.disk).audit
  }

  lemma StepGrowsDiskLog<D, R>(h: Hashing<D>, init: Snapshot<D, R>, sys: System<D, R>, e: Event<D, R>)
    requires Inv(h, init, sys)
    ensures DiskLog(init, sys) <= DiskLog(init, Step(h, init, sys, e))
    ensures Verified(h, DiskLog(init, sys)) ==> Verified(h, DiskLog(init, Step(h, init, sys, e)))
  {
    if e.Rename? && e.pid in sys.procs && Step(h, init, sys, e) != sys {
      var p := sys.procs[e.pid];
      assert HandleInv(h, init, sys, e.pid);
      ApplyAllGrowsLog(h, p.base, p.ops);
    }
  }

  /** At every point of every run the log on the disk verifies and extends the log on the disk at any earlier point. */
  lemma {:induction false} DiskLogOnlyGrows<D, R>(h: Hashing<D>, init: Snapshot<D, R>, es: seq<Event<D, R>>, i: nat)
    requires i <= |es| && Verified(h, init.audit)
    ensures DiskLog(init, Run(h, init, es[..i])) <= DiskLog(init, Run(h, init, es))
    ensures Verified(h, DiskLog(init, Run(h, init, es)))
  {
    if es == [] || i == |es| {
      assert es[..i] == es;
    }
    if es != [] {
      var before := es[..|es| - 1];
      RunKeepsInv(h, init, before);
      StepGrowsDiskLog(h, init, Run(h, init, before), es[|es| - 1]);
      DiskLogOnlyGrows(h, init, before, if i < |es| then i else 0);
      if i < |es| { assert before[..i] == es[..i]; }
    }
  }

  // ---------- who gets to write, and what a session leaves ----------

  lemma RunSnoc<D, R>(h: Hashing<D>, init: Snapshot<D, R>, es: seq<Event<D, R>>, e: Event<D, R>)
    ensures Run(h, init, es + [e]) == Step(h, init, Run(h, init, es), e)
  {
    assert (es + [e])[..|es|] == es;
  }

  /** Opening is decided by whether anyone writes at that moment: if no one does, the newcomer writes; otherwise it opens for
      reading, or not at all when it asked to write. Nothing else changes. */
  lemma OpeningIsDecided<D, R>(h: Hashing<D>, init: Snapshot<D, R>, es: seq<Event<D, R>>, pid: nat, requireWrite: bool)
    requires pid !in Run(h, init, es).procs
    ensures var sys, sys' := Run(h, init, es), Run(h, init, es + [TryLock(pid, requireWrite)]);
            && (Writer(sys', pid) <==> !exists q: nat :: Writer(sys, q))
            && (pid in sys'.procs <==> !requireWrite || !exists q: nat :: Writer(sys, q))
            && sys'.procs - {pid} == sys.procs && sys'.disk == sys.disk && sys'.commits == sys.commits
  {
    var sys := Run(h, init, es);
    RunSnoc(h, init, es, TryLock(pid, requireWrite));
    RunKeepsInv(h, init, es);
    hide Run, Inv, HandleInv, Lineage;
    assert LockInv(sys);
    assert sys.lock.Some? ==> Writer(sys, sys.lock.value);
  }

  /** Whoever opens, to write or to read, sees what the last completed flush left. */
  lemma OpeningReadsTheDisk<D, R>(h: Hashing<D>, init: Snapshot<D, R>, es: seq<Event<D, R>>, pid: nat)
    requires pid in Run(h, init, es).procs && Run(h, init, es).procs[pid].Opening?
    ensures var sys, sys' := Run(h, init, es), Run(h, init, es + [Load(pid)]);
            && pid in sys'.procs && sys'.procs[pid].Handle? && sys'.procs[pid].readOnly == sys.procs[pid].readOnly
            && sys'.procs[pid].state == Current(init, sys.disk) && sys'.procs[pid].stage.Idle?
            && sys'.disk == sys.disk && sys'.commits == sys.commits
  {
    RunSnoc(h, init, es, Load(pid));
    RunKeepsInv(h, init, es);
  }

  function ChangesBy<D, R>(pid: nat, ms: seq<Mutation<D, R>>): seq<Event<D, R>> {
    seq(|ms|, i requires 0 <= i < |ms| => Mutate(pid, ms[i]))
  }

  /** An idle handle of a process. */
  predicate Ready<D, R>(sys: System<D, R>, pid: nat) {
    pid in sys.procs && sys.procs[pid].Handle? && sys.procs[pid].stage.Idle?
  }

  lemma {:induction false} ChangesApply<D, R>(
      h: Hashing<D>, init: Snapshot<D, R>, es: seq<Event<D, R>>, pid: nat, ms: seq<Mutation<D, R>>)
    requires Ready(Run(h, init, es), pid)
    ensures var sys, sys' := Run(h, init, es), Run(h, init, es + ChangesBy(pid, ms));
            && Ready(sys', pid) && sys'.procs[pid].readOnly == sys.procs[pid].readOnly
            && sys'.procs[pid].state == ApplyAll(h, sys.procs[pid].state, ms)
            && sys'.disk == sys.disk && sys'.commits == sys.commits
  {
    hide Run;
    if ms == [] {
      assert es + ChangesBy(pid, ms) == es;
    } else {
      var n := |ms| - 1;
      ChangesApply(h, init, es, pid, ms[..n]);
      var before := es + ChangesBy(pid, ms[..n]);
      assert es + ChangesBy(pid, ms) == before + [Mutate(pid, ms[n])];
      RunSnoc(h, init, before, Mutate(pid, ms[n]));
    }
  }

  /** A flush that is not interrupted puts the writer's copy on the disk; a reader's flush leaves the disk as it is. */
  lemma FlushSaves<D, R>(h: Hashing<D>, init: Snapshot<D, R>, es: seq<Event<D, R>>, pid: nat)
    requires Ready(Run(h, init, es), pid)
    ensures var sys, sys' := Run(h, init, es), Run(h, init, es + [BeginFlush(pid), FinishTmp(pid), Rename(pid)]);
            && sys'.disk == (if sys.procs[pid].readOnly then sys.disk else Whole(sys.procs[pid].state))
            && Ready(sys', pid) && sys'.procs[pid].state == sys.procs[pid].state
  {
    var e1, e2, e3 := BeginFlush(pid), FinishTmp(pid), Rename(pid);
    RunSnoc(h, init, es, e1);
    RunSnoc(h, init, es + [e1], e2);
    RunSnoc(h, init, es + [e1] + [e2], e3);
    assert es + [e1] + [e2] + [e3] == es + [e1, e2, e3];
    hide Run;
  }

  /** A flush that fails, at whatever stage, leaves the disk as it was and the copy with all its changes. */
  lemma FailedFlushKeeps<D, R>(h: Hashing<D>, init: Snapshot<D, R>, es: seq<Event<D, R>>, pid: nat)
    requires pid in Run(h, init, es).procs && Run(h, init, es).procs[pid].Handle?
    ensures var sys, sys' := Run(h, init, es), Run(h, init, es + [FlushFails(pid)]);
            && sys'.disk == sys.disk && sys'.commits == sys.commits && sys'.procs.Keys == sys.procs.Keys
            && sys'.procs[pid] == sys.procs[pid].(stage := Idle)
  {
    RunSnoc(h, init, es, FlushFails(pid));
  }

  /** A whole session: when no one writes, a process that opens, changes its copy and flushes leaves on the disk what was
      there with just these changes, whatever happened before and whoever reads meanwhile. */
  lemma SessionSaves<D, R>(
      h: Hashing<D>, init: Snapshot<D, R>, es: seq<Event<D, R>>, pid: nat, requireWrite: bool, ms: seq<Mutation<D, R>>)
    requires pid !in Run(h, init, es).procs && !exists q: nat :: Writer(Run(h, init, es), q)
    ensures var session := [TryLock(pid, requireWrite), Load(pid)] + ChangesBy(pid, ms)
                           + [BeginFlush(pid), FinishTmp(pid), Rename(pid)];
            Run(h, init, es + session).disk == Whole(ApplyAll(h, Current(init, Run(h, init, es).disk), ms))
  {
    var e1, e2, e3 := TryLock(pid, requireWrite), Load(pid), [BeginFlush(pid), FinishTmp(pid), Rename(pid)];
    var es2 := es + [e1] + [e2];
    hide Run, Step, ApplyAll, Current;
    OpeningIsDecided(h, init, es, pid, requireWrite);
    OpeningIsOpening(h, init, es, pid, requireWrite);
    OpeningReadsTheDisk(h, init, es + [e1], pid);
    ChangesApply(h, init, es2, pid, ms);
    FlushSaves(h, init, es2 + ChangesBy(pid, ms), pid);
    assert es + ([e1, e2] + ChangesBy(pid, ms) + e3) == es2 + ChangesBy(pid, ms) + e3;
  }

  lemma OpeningIsOpening<D, R>(h: Hashing<D>, init: Snapshot<D, R>, es: seq<Event<D, R>>, pid: nat, requireWrite: bool)
    requires pid !in Run(h, init, es).procs && pid in Run(h, init, es + [TryLock(pid, requireWrite)]).procs
    ensures Run(h, init, es + [TryLock(pid, requireWrite)]).procs[pid].Opening?
  {
    RunSnoc(h, init, es, TryLock(pid, requireWrite));
  }

  /** A process that leaves, in whatever state, leaves the disk as it is, and the lock free if it held it. */
  lemma LeavingFrees<D, R>(h: Hashing<D>, init: Snapshot<D, R>, es: seq<Event<D, R>>, pid: nat)
    ensures var sys, sys' := Run(h, init, es), Run(h, init, es + [Exit(pid)]);
            && sys'.procs == sys.procs - {pid} && sys'.disk == sys.disk && sys'.commits == sys.commits
            && (Writer(sys, pid) ==> !exists q: nat :: Writer(sys', q))
  {
    var sys := Run(h, init, es);
    RunSnoc(h, init, es, Exit(pid));
    RunKeepsInv(h, init, es);
    hide Run, HandleInv, Lineage;
    assert pid !in sys.procs ==> sys.procs - {pid} == sys.procs;
    forall q: nat | Writer(Leave(sys, pid), q)
      ensures !Writer(sys, pid)
    {
      assert Writer(sys, q);
    }
  }
}
