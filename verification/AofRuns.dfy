/**
 * Whole runs of a server. A run is any sequence of operations; a crash may come between
 * two of them or at any disk operation inside one, and the run goes on from the disk it
 * left. Every crash point keeps its promise until an operation meets one of the hazards
 * below.
 */
module AofRuns {
  import opened Prelude
  import opened AofLog
  import opened AofDisk
  import opened AofInvariant
  import opened AofSteps
  import opened AofRewrite
  import opened AofBackup
  import opened AofRestart
  import opened AofServer

  datatype Op =
    | Call_(c: Call)
    | Flush(written: nat)
    | Rewrite(e: Env)
    | RewriteExit(exitOk: bool, renameBaseOk: bool, renameIncrOk: bool, persistOk: bool, gcPersistOk: bool, linkOk: bool, written: nat)
    | Enable(on: bool, e: Env, inExec: bool)
    | DisableGc(off: bool, persistOk: bool)
    | OtherChildEvent(starts: bool)
    | BackupStart(e: Env, inExec: bool)
    | BackupCron(e: Env)
    | BackupSeal(e: Env, fsyncOk: bool, linkOk: bool, manifestOk: bool)
    | BackupAbort(e: Env)
    | BackupCleanup
      // The run so far is cut at its crash point `at`, or now when there is none.
    | CrashAndRestart(at: nat, appendonly: bool, gcOff: bool, rdbData: Dataset, gcPersistOk: bool)

  // A server at one moment.
  datatype Moment = Moment(disk: Disk, aof: Aof, child: Child, data: Dataset, bk: Backup, enabled: bool, halted: bool, g: Oath)

  function Now(s: Server): Moment
    reads s
  {
    Moment(s.disk, s.aof, s.child, s.data, s.bk, s.enabled, s.halted, s.g)
  }

  // The disk a crash leaves, and the history up to it.
  function LeftDisk(m: Moment, at: nat): Disk {
    if at < |m.g.trail| then m.g.trail[at].disk else m.disk
  }

  function LeftOath(m: Moment, at: nat): Oath {
    if at < |m.g.trail| then Oath(m.g.trail[at].promise, [], m.g.intact, m.g.trail[..at + 1]) else m.g
  }

  /**
   * The guards at which the source stops keeping its promise, each readable from the
   * state before the operation.
   */
  predicate Hazard(op: Op, m: Moment) {
    match op
    case Rewrite(e) => MayRewrite(m.child, m.bk) && ForkHazard(m.disk, m.aof, e)
    case RewriteExit(exitOk, renameBaseOk, renameIncrOk, persistOk, _, linkOk, _) =>
      m.child.AofChild?
      && DoneHazard(m.disk, m.aof, m.bk, m.enabled, Finishes(m.disk, m.aof, exitOk, renameBaseOk, renameIncrOk, persistOk), linkOk)
    case Enable(on, _, inExec) => on && m.aof.state == Off && inExec && LeavesGap(m.disk, m.aof, m.child, m.data)
    case BackupStart(e, inExec) =>
      MayStart(m.disk, m.bk) && !inExec && PendingHazard(m.disk, m.aof, m.child, NO_BACKUP.(state := Pending), m.enabled, e)
    case BackupCron(e) => PendingHazard(m.disk, m.aof, m.child, m.bk, m.enabled, e)
    case BackupSeal(e, fsyncOk, linkOk, manifestOk) => SealHazard(m.disk, m.aof, m.bk, m.enabled, e, fsyncOk, linkOk, manifestOk)
    case BackupAbort(_) => LosesDir(m.bk, m.aof, m.enabled)
    case CrashAndRestart(at, appendonly, gcOff, _, _) => !RestartsSafely(LeftDisk(m, at), appendonly, gcOff)
    case _ => false
  }

  // The dataset after an operation: calls add to it, a start loads what was owed.
  predicate DataFollows(op: Op, was: Moment, data: Dataset) {
    match op
    case Call_(c) => data == if WellFormedCall(c) then was.data + [c] else was.data
    case CrashAndRestart(at, appendonly, _, rdbData, _) =>
      was.g.intact ==> data == if appendonly then LeftOath(was, at).durable else rdbData
    case _ => data == was.data
  }

  // What an operation owes while AOF is not on: what was owed before or after it, or the
  // snapshot it lists in between.
  function Owed(op: Op, was: Moment, now: Moment): set<Dataset> {
    {was.g.durable, now.g.durable} +
    if op.RewriteExit? && was.child.AofChild? then {RewrittenPromise(was.disk, was.aof, was.child, was.g.durable)} else {}
  }

  // A backup that owns the directory is over: failed, or sealed with appendonly no. With AOF off
  // a snapshot that is about to start decides about ownership anew.
  predicate GivesUpDir(op: Op, was: Moment, now: Moment) {
    && !op.CrashAndRestart? && !(op.BackupCron? && was.aof.state == Off)
    && InProgress(was.bk.state) && was.bk.ownsDir
    && (now.bk.state == Failed || (now.bk.state == Sealed && !now.enabled))
  }

  // What is owed never gets less, except with a directory that a backup owned; and only a log
  // that is on, or a rewrite that gets listed, makes it more.
  predicate OwedFollows(op: Op, was: Moment, now: Moment) {
    was.g.intact && now.g.intact ==>
      if op.CrashAndRestart? then now.g.durable == LeftOath(was, op.at).durable
      else if GivesUpDir(op, was, now) then now.g.durable == []
      else if op.RewriteExit? && was.child.AofChild? && Finishes(was.disk, was.aof, op.exitOk, op.renameBaseOk, op.renameIncrOk, op.persistOk)
      then RewrittenPromise(was.disk, was.aof, was.child, was.g.durable) <= now.g.durable
      else was.g.durable <= now.g.durable && (was.aof.state != On && !op.RewriteExit? ==> now.g.durable == was.g.durable)
  }

  /**
   * What one operation does to the dataset and the history. Every crash point it adds has
   * the dataset of that moment, a buffer that is the end of the one before the operation,
   * and, unless AOF is on, owes one of the datasets above.
   */
  ghost predicate Follows(op: Op, was: Moment, now: Moment) {
    && DataFollows(op, was, now.data)
    && OwedFollows(op, was, now)
    && (if op.CrashAndRestart?
        then Grows(LeftOath(was, op.at), now.g, Scope(now.data, [], {now.g.durable})) && now.g.durable == LeftOath(was, op.at).durable
        else Grows(was.g, now.g, Scope(now.data, was.aof.buf, Owed(op, was, now))))
  }

  // Operations that cannot happen in a state are skipped.
  method Step(s: Server, op: Op)
    requires s.Valid()
    modifies s
    ensures s.Valid() && Follows(op, old(Now(s)), Now(s))
    ensures s.g.intact == (old(s.g).intact && !Hazard(op, old(Now(s))))
  {
    hide Inv, Grows, ForkHazard, DoneHazard, LeavesGap, PendingHazard, SealHazard, LosesDir, RestartsSafely, MayStart, MayRewrite, RewrittenPromise,
         FlushedDisk, FlushedAof, FlushedPromise, ForkingDisk, ForkingAof, CollectedDisk;
    ghost var was := Now(s);
    GrowsNot(s.g, s.g, Scope(s.data, s.aof.buf, Owed(op, was, was)));
    match op {
      case Call_(c) =>
        if WellFormedCall(c) {
          GrowsNot(s.g, s.g, Scope(s.data + [c], s.aof.buf, Owed(op, was, was)));
          s.Feed(c);
        }
      case Flush(written) =>
        OffOwesTheSame(s.disk, s.aof, s.g.durable, written);
        s.FlushBuffer(written);
        GrowsMore(was.g, s.g, Scope(s.data, was.aof.buf, OwedUnlessOn(s.aof, s.g.durable)), Scope(s.data, was.aof.buf, Owed(op, was, Now(s))));
      case Rewrite(e) =>
        OffOwesTheSame(s.disk, Unselected(s.aof), s.g.durable, e.written);
        var ok := s.RewriteBackground(e);
        GrowsMore(was.g, s.g, Scope(s.data, was.aof.buf, OwedUnlessOn(s.aof, s.g.durable)), Scope(s.data, was.aof.buf, Owed(op, was, Now(s))));
      case RewriteExit(_, _, _, _, _, _, _) => StepExit(s, op);
      case Enable(on, e, inExec) => s.SetEnabled(on, e, inExec); OwedBothEnds(op, was, Now(s));
      case DisableGc(off, persistOk) =>
        s.SetGc(off, persistOk);
        GrowsMore(was.g, s.g, Scope(s.data, was.aof.buf, {s.g.durable}), Scope(s.data, was.aof.buf, Owed(op, was, Now(s))));
      case OtherChildEvent(starts) =>
        if s.child == if starts then NoChild else OtherChild {
          s.OtherChildStep(starts);
        }
      case BackupStart(_, _) => StepStart(s, op);
      case BackupCron(_) => StepStart(s, op);
      case BackupSeal(_, _, _, _) => StepBackup(s, op);
      case BackupAbort(_) => StepBackup(s, op);
      case BackupCleanup => StepBackup(s, op);
      case CrashAndRestart(_, _, _, _, _) => StepCrash(s, op);
    }
  }

  lemma OwedBothEnds(op: Op, was: Moment, now: Moment)
    requires !op.RewriteExit?
    ensures Owed(op, was, now) == {was.g.durable, now.g.durable}
  {
  }

  // BACKUP START, and the snapshot of a pending backup.
  method StepStart(s: Server, op: Op)
    requires s.Valid() && (op.BackupStart? || op.BackupCron?)
    modifies s
    ensures s.Valid() && Follows(op, old(Now(s)), Now(s))
    ensures s.g.intact == (old(s.g).intact && !Hazard(op, old(Now(s))))
  {
    hide Inv, Grows, PendingHazard, LosesDir, RewrittenPromise, ForkingDisk, ForkingAof, LogOk, DiskServes, BackupOk, Core, Starting, DirAfter, TrailOk,
         Recoverable, Sound, DiskOk, FdOk, ManifestOk, HistOld, NextFree;
    ghost var was := Now(s);
    InvParts(s.disk, s.aof, s.child, s.data, s.bk, s.g);
    if s.g.intact {
      NothingThere(s.disk, s.aof.manifest, s.g.durable);
    }
    if op.BackupStart? {
      var ok := s.StartBackup(op.e, op.inExec);
    } else {
      var ok := s.StartPending(op.e);
    }
    OwedBothEnds(op, was, Now(s));
  }

  // The other commands of BACKUP.
  method StepBackup(s: Server, op: Op)
    requires s.Valid() && (op.BackupSeal? || op.BackupAbort? || op.BackupCleanup?)
    modifies s
    ensures s.Valid() && Follows(op, old(Now(s)), Now(s))
    ensures s.g.intact == (old(s.g).intact && !Hazard(op, old(Now(s))))
  {
    hide Inv, Grows, SealHazard, LosesDir, RewrittenPromise, FlushedDisk, FlushedAof, FlushedPromise, LogOk, DiskServes, BackupOk, Core, Starting, DirAfter,
         SealCompletes, RotatedAof, TrailOk, Recoverable, Sound, DiskOk, FdOk, ManifestOk, HistOld, NextFree;
    ghost var was := Now(s);
    InvParts(s.disk, s.aof, s.child, s.data, s.bk, s.g);
    GrowsNot(s.g, s.g, Scope(s.data, s.aof.buf, Owed(op, was, was)));
    if s.g.intact && s.bk.state == Incrementing {
      IncrementingFacts(s.disk, s.aof, s.child, s.data, s.bk, s.g);
    }
    match op {
      case BackupSeal(e, fsyncOk, linkOk, manifestOk) =>
        var ok := s.Seal(e, fsyncOk, linkOk, manifestOk);
        GrowsMore(was.g, s.g, Scope(s.data, was.aof.buf, {s.g.durable}), Scope(s.data, was.aof.buf, Owed(op, was, Now(s))));
      case BackupAbort(e) => var ok := s.AbortBackup(e); OwedBothEnds(op, was, Now(s));
      case BackupCleanup => var ok := s.CleanupBackup();
    }
  }

  // An empty directory owes nothing.
  lemma NothingThere(d: Disk, m: Manifest, durable: Dataset)
    requires DiskServes(d, m, durable)
    ensures d.manifest.None? ==> durable == []
  {
  }

  // A rewrite child exits.
  method StepExit(s: Server, op: Op)
    requires s.Valid() && op.RewriteExit?
    modifies s
    ensures s.Valid() && Follows(op, old(Now(s)), Now(s))
    ensures s.g.intact == (old(s.g).intact && !Hazard(op, old(Now(s))))
  {
    hide Inv, Grows, KeepsStaleIncr, LosesDir, Finishes, RewrittenPromise, DirAfter, DoneDisk, DoneAof, Linked, Pins;
    ghost var was := Now(s);
    if s.child.AofChild? {
      var ok := s.RewriteDone(op.exitOk, op.renameBaseOk, op.renameIncrOk, op.persistOk, op.gcPersistOk, op.linkOk, op.written);
      GrowsMore(was.g, s.g, Scope(s.data, was.aof.buf, {was.g.durable, RewrittenPromise(was.disk, was.aof, was.child, was.g.durable), s.g.durable}),
                Scope(s.data, was.aof.buf, Owed(op, was, Now(s))));
    } else {
      GrowsNot(s.g, s.g, Scope(s.data, s.aof.buf, Owed(op, was, was)));
    }
  }

  // A crash, inside an earlier operation or now, and the start after it.
  method StepCrash(s: Server, op: Op)
    requires s.Valid() && op.CrashAndRestart?
    modifies s
    ensures s.Valid() && Follows(op, old(Now(s)), Now(s))
    ensures s.g.intact == (old(s.g).intact && !Hazard(op, old(Now(s))))
  {
    hide Inv, Grows, RestartsSafely, StartKeeps, Recover;
    if op.at < |s.g.trail| {
      s.CrashAt(op.at);
    }
    ghost var g := s.g;
    var up := s.Restart(op.appendonly, op.gcOff, op.rdbData, op.gcPersistOk);
    if !up {
      GrowsNot(g, s.g, Scope(s.data, [], {s.g.durable}));
    }
  }

  /**
   * What the invariant means to a user. Every crash point recovers what it owes, which with
   * AOF on is the dataset in memory less the calls still buffered. While no hazard was met
   * the same is true now; a sealed backup has its three files, recovers the dataset it was
   * sealed with and gets no more writes; a backup that accumulates writes has the one INCR
   * and the BASE the seal command asserts; and no assertion has fired.
   */
  ghost predicate Kept(m: Moment) {
    && TrailOk(m.g.trail)
    && (m.g.intact ==>
          && Recover(m.disk) == Some(m.g.durable)
          && (m.aof.state == On ==> Accounts(m.disk, m.aof, m.g.durable, m.data))
          && (m.aof.state == On && m.aof.buf == [] ==> Recover(m.disk) == Some(m.data))
          && (m.bk.state == Sealed ==>
                && RecoverBackup(m.disk) == Some(m.g.sealed) && m.bk.base.Some? && m.bk.incr.Some? && m.bk.manifest
                && (m.aof.fd.Some? ==> m.aof.fd.value !in m.disk.backup.Values))
          && (m.bk.state == Incrementing ==>
                && m.aof.state == On && |m.aof.manifest.list.incrs| == 1 && m.aof.manifest.list.base.Some?
                && m.bk.base == Some(m.aof.manifest.list.base.value.name))
          && !m.halted)
  }

  lemma Meaning(m: Moment)
    requires Inv(m.disk, m.aof, m.child, m.data, m.bk, m.g) && (m.g.intact ==> !m.halted)
    ensures Kept(m)
  {
    hide TrailOk;
    InvParts(m.disk, m.aof, m.child, m.data, m.bk, m.g);
    if m.g.intact && m.aof.state == On && m.aof.buf == [] {
      assert m.g.durable + [] == m.g.durable;
    }
  }

  /**
   * What a crash inside an operation can lose: with AOF on, the recovered dataset followed
   * by the calls of an end of the buffer from before the operation is the dataset in memory;
   * so with nothing buffered, nothing is lost. Otherwise the disk recovers a dataset that was
   * owed before or after, or the snapshot being listed.
   */
  lemma CrashLosesTheBuffer(op: Op, was: Moment, now: Moment, i: nat)
    requires Follows(op, was, now) && Kept(now) && !op.CrashAndRestart? && |was.g.trail| <= i < |now.g.trail|
    ensures var p := now.g.trail[i];
            && Recover(p.disk).Some? && Tail(p.log.buf, was.aof.buf)
            && (p.on ==> exists db: nat :: now.data == Recover(p.disk).value + Replay(p.log.buf, db))
            && (p.on && was.aof.buf == [] ==> Recover(p.disk) == Some(now.data))
            && (!p.on ==> p.log.state != On && Recover(p.disk).value in Owed(op, was, now))
  {
    hide Recover, Restartable, Owed, DataFollows;
    var p := now.g.trail[i];
    assert p in now.g.trail && PointOk(p) && InScope(p, Scope(now.data, was.aof.buf, Owed(op, was, now)));
    if p.on {
      var db := DbAfter(OpenEntries(p.disk, p.log), 0);
      assert now.data == Recover(p.disk).value + Replay(p.log.buf, db);
      if was.aof.buf == [] {
        assert p.promise + [] == p.promise;
      }
    }
  }

  /**
   * The theorem over whole runs: `past` has the server before the first operation and
   * after each. The promise is kept at every moment of it, every operation adds to the
   * history as Follows says, and the promise is lost exactly at the first hazard.
   */
  method Run(s: Server, ops: seq<Op>) returns (ghost past: seq<Moment>)
    requires s.Valid() && s.g.intact
    modifies s
    ensures s.Valid()
    ensures |past| == |ops| + 1 && past[0] == old(Now(s)) && past[|ops|] == Now(s)
    ensures forall m <- past :: Kept(m)
    ensures forall i | 0 <= i < |ops| :: Follows(ops[i], past[i], past[i + 1])
    ensures s.g.intact <==> forall i | 0 <= i < |ops| :: !Hazard(ops[i], past[i])
  {
    hide Inv, Follows, Hazard, Kept;
    past := [Now(s)];
    Meaning(Now(s));
    for i := 0 to |ops|
      invariant s.Valid()
      invariant |past| == i + 1 && past[0] == old(Now(s)) && past[i] == Now(s)
      invariant forall m <- past :: Kept(m)
      invariant forall j | 0 <= j < i :: Follows(ops[j], past[j], past[j + 1])
      invariant s.g.intact <==> forall j | 0 <= j < i :: !Hazard(ops[j], past[j])
    {
      Step(s, ops[i]);
      past := past + [Now(s)];
      Meaning(Now(s));
    }
  }
}
