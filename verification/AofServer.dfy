/**
 * The multi-part append-only file protocol and the BACKUP state machine built on
 * it, as the server runs them: one call at a time, with a crash possible between
 * any two disk operations.
 *
 * Outcomes the server does not control (a write cut short, an open, rename, link,
 * manifest write or fork that fails) are parameters of the methods.
 */
module AofServer {
  import opened Prelude
  import opened AofLog
  import opened AofDisk
  import opened AofInvariant
  import opened AofSteps
  import opened AofRewrite
  import opened AofBackup
  import opened AofRestart

  // What an operation owes while AOF is not on.
  function OwedUnlessOn(a: Aof, durable: Dataset): set<Dataset> {
    if a.state == On then {} else {durable}
  }

  // Once listed, a rewrite of a log that is on or being turned on is the log.
  function OwedByListing(a: Aof, durable: Dataset): set<Dataset> {
    if a.state == Off then {durable} else {}
  }

  // Closing a log that is being turned on writes once more to its temporary INCR.
  function OwedByStopping(a: Aof, durable: Dataset): set<Dataset> {
    if a.state == WaitRewrite then {durable} else {}
  }

  // What failing a backup owes besides: nothing, once it has removed its directory.
  function OwedByFailing(b: Backup): set<Dataset> {
    if InProgress(b.state) && b.ownsDir then {[]} else {}
  }

  // The append-only directory is removed, or every file it had is there and the manifest is
  // the one it was.
  predicate DirAfter(was: Disk, now: Disk, removed: bool) {
    if removed then now.files == map[] && now.manifest.None?
    else (forall n <- was.files :: n in now.files && now.files[n] == was.files[n]) && now.manifest == was.manifest
  }

  // What letting go of a pinned INCR leaves of the log: rotated with AOF enabled, stopped with
  // appendonly no, given up if it failed.
  ghost predicate Released(d: Disk, a: Aof, b: Backup, g: Oath, d': Disk, a': Aof, g': Oath, ok: bool, enabled: bool) {
    && (if ok && enabled
        then (forall n <- d.files :: n in d'.files && d'.files[n] == d.files[n])
             && (a'.state == On ==> d'.manifest == Some(NewIncr(a.manifest).list))
        else DirAfter(d, d', b.ownsDir))
    && (g.intact && ok && !enabled ==> a'.state == Off && g'.durable == if b.ownsDir then [] else g'.sealed)
    && (g.intact ==> if b.ownsDir && !(ok && enabled) then g'.durable == [] else g.durable <= g'.durable)
  }

  // The same seen from before: names and manifest as they were, and no less owed.
  lemma ReleasedFrom(e: Disk, d: Disk, a: Aof, a0: Aof, b: Backup, b0: Backup, g: Oath, g0: Oath, d': Disk, a': Aof, g': Oath, ok: bool, enabled: bool)
    requires Released(d, a, b, g, d', a', g', ok, enabled)
    requires e.files == d.files && e.manifest == d.manifest && a0.manifest == a.manifest && b0.ownsDir == b.ownsDir
    requires g0.intact ==> g.intact && g0.durable <= g.durable
    ensures Released(e, a0, b0, g0, d', a', g', ok, enabled)
  {
  }

  lemma SealedLives(d: Disk, a: Aof, b: Backup, g: Oath, d': Disk, a': Aof, child: Child, data: Dataset, b': Backup, g': Oath)
    requires Released(d, a, b, g, d', a', g', true, false) && Inv(d', a', child, data, b', g')
    ensures DirAfter(d, d', b.ownsDir)
    ensures g.intact && g'.intact && !b.ownsDir ==> Recover(d') == Some(g'.sealed)
  {
  }

  // A backup that failed instead.
  lemma ReleasedByFailing(d: Disk, a: Aof, b: Backup, g: Oath, d': Disk, a': Aof, g': Oath, enabled: bool)
    requires DirAfter(d, d', b.ownsDir) && (g.intact ==> if b.ownsDir then g'.durable == [] else g.durable <= g'.durable)
    ensures Released(d, a, b, g, d', a', g', false, enabled)
  {
  }

  // Disk and log at the end of a rewrite, before BACKUP is told: the snapshot listed and what
  // it replaced deleted, or no trace of it.
  function DoneDisk(d: Disk, a: Aof, snapshot: Dataset, rdb: bool, gcDisabled: bool, gcPersistOk: bool, listed: bool, installed: bool, renameIncrOk: bool): Disk {
    if listed then CollectedDisk(PublishedDisk(d, a, snapshot, rdb), RewrittenManifest(a, rdb), gcDisabled, gcPersistOk)
    else SettledDisk(d, a, snapshot, rdb, installed, renameIncrOk)
  }

  function DoneAof(a: Aof, rdb: bool, gcDisabled: bool, listed: bool): Aof {
    if listed then RewrittenAof(a, rdb).(manifest := CollectedManifest(RewrittenManifest(a, rdb), gcDisabled)) else Cleaned(a)
  }

  // What a backup that waited for the snapshot makes of its end: the BASE is pinned and the
  // backup goes on, or it fails, and takes a directory it owns with it.
  predicate Noticed(success: bool, linkOk: bool, enabled: bool, d: Disk, a: Aof, b: Backup, intact: bool, owed: Dataset,
                    d': Disk, a': Aof, b': Backup, owed': Dataset)
  {
    if Pins(success, linkOk, d, a) then
      var n := a.manifest.list.base.value.name;
      d' == Linked(d, n) && b' == b.(state := Incrementing, base := Some(n)) && a' == a && owed' == owed
    else
      && b' == NO_BACKUP.(state := Failed) && d'.backup == map[] && d'.backupManifest.None?
      && DirAfter(d, d', b.ownsDir)
      && a'.state == (if enabled then a.state else Off)
      && (intact ==> if b.ownsDir then owed' == [] else owed <= owed')
  }

  // What becomes of a pending backup: it takes over a rewrite that has been running with AOF
  // not off, waits for any other child, or else forks one of its own or fails.
  ghost predicate Started(d: Disk, a: Aof, child: Child, b: Backup, scheduled: bool, data: Dataset, g: Oath, e: Env, ok: bool,
                          d': Disk, a': Aof, child': Child, b': Backup, g': Oath)
  {
    if child != NoChild then
      && ok && d' == d && a' == a && child' == child && g' == g
      && b' == if child.AofChild? && a.state != Off then b.(state := Snapshotting) else b
    else
      var from := if a.state == Off then a.(state := WaitRewrite) else a;
      var owns := if a.state == Off then d.files == map[] && d.manifest.None? && !scheduled else b.ownsDir;
      && ok == (e.forkOk && Rotates(from, e))
      && (ok ==>
            && d' == ForkingDisk(d, from, e) && a' == ForkingAof(d, from, e)
            && child' == AofChild(data) && b' == b.(state := Snapshotting, ownsDir := owns))
      && (!ok ==>
            && b' == NO_BACKUP.(state := Failed) && child' == NoChild && d'.backup == map[] && d'.backupManifest.None?
            && DirAfter(ForkingDisk(d, from, e), d', owns))
      && (g.intact ==>
            if !ok && owns then g'.durable == [] else g.durable <= g'.durable && (a.state != On ==> g'.durable == g.durable))
  }

  predicate Pins(success: bool, linkOk: bool, d: Disk, a: Aof) {
    success && linkOk && a.manifest.list.base.Some? && a.manifest.list.base.value.name in d.files
  }

  // Whether a child's snapshot gets listed.
  predicate Finishes(d: Disk, a: Aof, exitOk: bool, renameBaseOk: bool, renameIncrOk: bool, persistOk: bool) {
    exitOk && renameBaseOk && persistOk && (a.state == WaitRewrite ==> renameIncrOk && TempIncrName in d.files)
  }

  // A finished rewrite loses the promise when it keeps an INCR it should not, or when the
  // backup it was for fails and takes the user's directory with it.
  predicate DoneHazard(d: Disk, a: Aof, b: Backup, enabled: bool, listed: bool, linkOk: bool) {
    || (listed && KeepsStaleIncr(d, a))
    || (b.state == Snapshotting && !(listed && linkOk)
        && LosesDir(b, if listed && a.state == WaitRewrite then a.(state := On) else a, enabled))
  }

  predicate PendingHazard(d: Disk, a: Aof, child: Child, b: Backup, enabled: bool, e: Env) {
    && b.state == Pending && child == NoChild && a.state == On
    && (ForkHazard(d, a, e) || (!(e.forkOk && Rotates(a, e)) && LosesDir(b, a, enabled)))
  }

  class Server {
    var disk: Disk
    var aof: Aof
    var child: Child
    var data: Dataset
    var bk: Backup
    var scheduled: bool   // aof_rewrite_scheduled
    var enabled: bool     // appendonly
    var gcDisabled: bool  // aof-disable-auto-gc
    var rdbPreamble: bool // aof-use-rdb-preamble
    var halted: bool      // a serverAssert fired, or the process gave up
    var g: Oath           // the history, kept so that a run can be cut at any crash point

    ghost predicate Valid()
      reads this
    {
      Inv(disk, aof, child, data, bk, g) && (g.intact ==> !halted)
    }

    // A server that has read its configuration and found an empty directory.
    constructor (enabled: bool, gcDisabled: bool, rdbPreamble: bool)
      ensures Valid() && Fresh(enabled)
      ensures this.gcDisabled == gcDisabled && this.rdbPreamble == rdbPreamble
    {
      disk := Disk(map[], None, map[], None, map[], 0);
      aof := Aof(EMPTY_MANIFEST, Off, None, [], UNSELECTED);
      child, data, bk, scheduled, halted := NoChild, [], NO_BACKUP, false, false;
      this.enabled, this.gcDisabled, this.rdbPreamble := enabled, gcDisabled, rdbPreamble;
      g := Oath([], [], true, []);
      new;
      EmptyStarts(rdbPreamble);
    }

    predicate Fresh(appendonly: bool)
      reads this
    {
      && disk == Disk(map[], None, map[], None, map[], 0)
      && aof == Aof(EMPTY_MANIFEST, Off, None, [], UNSELECTED)
      && child == NoChild && data == [] && bk == NO_BACKUP && !scheduled && !halted && enabled == appendonly
      && g == Oath([], [], true, [])
    }

    // Its first start.
    method Boot()
      requires Valid() && Fresh(enabled)
      modifies this`disk, this`aof, this`g
      ensures Valid() && g.intact && g.durable == []
      ensures !enabled ==> Fresh(enabled)
      ensures enabled ==> aof == Aof(StartManifest(EMPTY_MANIFEST, rdbPreamble), On, aof.fd, [], UNSELECTED)
      ensures disk.backup == map[] && disk.backupManifest.None?
    {
      hide Inv, Starting, Core, OpenedDisk, Grows, Blank, NextFree, HistOld, StartManifest;
      EmptyStarts(rdbPreamble);
      if enabled {
        OpenAtStart();
        StartedInv(disk, aof, child, data, bk, g);
      }
    }

    // Note the current disk as a crash point.
    method Record(on: bool)
      requires Recoverable(disk, aof, data, g, on) && (g.intact && aof.state == On ==> on)
      modifies this`g
      ensures g == old(g).(trail := g.trail) && TrailOk(g.trail)
      ensures Grows(old(g), g, Scope(data, aof.buf, if on then {} else {g.durable}))
      ensures forall a: Aof, c: Child, x: Dataset :: Starting(disk, a, c, x, old(g)) ==> Starting(disk, a, c, x, g)
      ensures forall a: Aof, c: Child, x: Dataset :: Core(disk, a, c, x, old(g)) ==> Core(disk, a, c, x, g)
      ensures forall a: Aof, c: Child, x: Dataset, b: Backup :: Inv(disk, a, c, x, b, old(g)) ==> Inv(disk, a, c, x, b, g)
    {
      hide Sound, LogOk, BackupOk;
      if g.intact {
        g := g.(trail := g.trail + [CrashPoint(disk, g.durable, on, aof, data)]);
      }
    }

    // Execute a call and feed it to the log.
    method Feed(c: Call)
      requires Valid() && WellFormedCall(c)
      modifies this`aof, this`data
      ensures Valid()
      ensures data == old(data) + [c]
      ensures aof == Fed(old(aof), child, c)
    {
      hide Inv;
      FeedInv(disk, aof, child, data, bk, g, c);
      data := data + [c];
      if aof.state == Off { return; }
      var r := FeedOne(aof.selected, c);
      aof := aof.(selected := r.1);
      if Collects(aof, child) {
        aof := aof.(buf := aof.buf + r.0);
      }
    }

    // The write of flushAppendOnlyFile: the first `written` entries of the buffer reach
    // the file.
    method WriteOut(written: nat)
      requires Core(disk, aof, child, data, g)
      modifies this`disk, this`aof, this`g
      ensures Core(disk, aof, child, data, g)
      ensures disk == FlushedDisk(old(disk), old(aof), written) && aof == FlushedAof(old(aof), written)
      ensures g == old(g).(trail := g.trail, durable := g.durable)
      ensures g.durable == if g.intact then FlushedPromise(old(disk), old(aof), old(g).durable, written) else old(g).durable
      ensures Grows(old(g), g, Scope(data, old(aof).buf, OwedUnlessOn(aof, g.durable)))
    {
      hide Core, FdOk, Grows, TrailOk, Recover, Recoverable;
      ghost var k := Scope(data, aof.buf, OwedUnlessOn(aof, g.durable));
      GrowsNot(g, g, k);
      CoreParts(disk, aof, child, data, g);
      if aof.buf == [] || aof.fd.None? { return; }
      FlushCore(disk, aof, child, data, g, written);
      var n := Min(written, |aof.buf|);
      ghost var g0 := g;
      if g.intact {
        g := g.(durable := FlushedPromise(disk, aof, g.durable, written));
      }
      ghost var g1 := g;
      GrowsNot(g0, g1, k);
      disk := Append(disk, aof.fd.value, aof.buf[..n]);
      aof := aof.(buf := aof.buf[n..]);
      CoreParts(disk, aof, child, data, g);
      Record(aof.state == On);
      GrowsTwice(g0, g1, g, k, Scope(data, aof.buf, OwedUnlessOn(aof, g.durable)), Scope(data, old(aof).buf, OwedUnlessOn(aof, g.durable)));
    }

    // flushAppendOnlyFile.
    method FlushBuffer(written: nat)
      requires Valid()
      modifies this`disk, this`aof, this`g
      ensures Valid()
      ensures disk == FlushedDisk(old(disk), old(aof), written) && aof == FlushedAof(old(aof), written)
      ensures g == old(g).(trail := g.trail, durable := g.durable)
      ensures g.durable == if g.intact then FlushedPromise(old(disk), old(aof), old(g).durable, written) else old(g).durable
      ensures Grows(old(g), g, Scope(data, old(aof).buf, OwedUnlessOn(aof, g.durable)))
    {
      hide Core, BackupOk, Grows, Sound, FdOk;
      InvParts(disk, aof, child, data, bk, g);
      if g.intact && Writes(disk, aof) {
        FlushBackupOk(disk, aof, child, bk, g.sealed, written);
      }
      WriteOut(written);
    }

    // openNewIncrAofForAppend. With AOF on, a new INCR is created and then listed; while
    // AOF is being turned on, the temporary INCR is (re)created; with AOF off, nothing.
    method RotateIncr(openOk: bool, persistOk: bool) returns (ok: bool)
      requires Core(disk, aof, child, data, g) && (g.intact ==> !child.AofChild?)
      modifies this`disk, this`aof, this`g
      ensures Core(disk, aof, child, data, g)
      ensures disk == RotatedDisk(old(disk), old(aof), openOk, persistOk)
      ensures aof == RotatedAof(old(disk), old(aof), openOk, persistOk)
      ensures ok == (aof.state == Off || (openOk && (aof.state == On ==> persistOk)))
      ensures g == old(g).(trail := g.trail, intact := g.intact)
      ensures g.intact == (old(g).intact && (aof.state == On && ok ==> RotatesSafely(old(disk), old(aof))))
      ensures Grows(old(g), g, Scope(data, old(aof).buf, OwedUnlessOn(aof, g.durable)))
    {
      hide Core, CreateEmpty, NewIncr, Grows, TrailOk, Recoverable, Sound, RotatesSafely;
      ghost var k := Scope(data, aof.buf, OwedUnlessOn(aof, g.durable));
      GrowsNot(g, g, k);
      if aof.state == Off { return true; }
      if !openOk { return false; }
      var r := CreateEmpty(disk, RotationName(aof));
      CoreParts(disk, aof, child, data, g);
      CreatedFile(disk, aof);
      CreateCore(disk, aof, child, data, g);
      if g.intact && aof.state == On {
        CreateKeepsOpenFile(disk, aof, child, data, g);
      }
      disk := r.0;
      CoreParts(disk, aof, child, data, g);
      Record(aof.state == On);
      if aof.state == WaitRewrite {
        OpenTempCore(disk, aof, child, data, g, r.1);
        aof := aof.(fd := Some(r.1));
        return true;
      }
      if !persistOk { return false; }
      ListCore(disk, aof, child, data, g, r.1);
      ghost var g1 := g;
      g := g.(intact := g.intact && RotatesSafely(disk, aof));
      ghost var g2 := g;
      GrowsNot(g1, g2, k);
      var m := NewIncr(aof.manifest);
      disk := ListDisk(disk, m);
      aof := aof.(manifest := m, fd := Some(r.1));
      CoreParts(disk, aof, child, data, g);
      Record(true);
      GrowsTwice(old(g), g1, g2, k, k, k);
      GrowsTwice(old(g), g2, g, k, k, k);
      return true;
    }

    // The first half of rewriteAppendOnlyFileBackground: forget the database, flush, rotate.
    method PrepareFork(e: Env) returns (ok: bool)
      requires Valid() && MayRewrite(child, bk)
      modifies this`disk, this`aof, this`g
      ensures Valid() && g.sealed == old(g).sealed && ok == Rotates(old(aof), e)
      ensures disk == ForkingDisk(old(disk), old(aof), e) && aof == ForkingAof(old(disk), old(aof), e) && aof.state == old(aof).state
      ensures g.intact == (old(g).intact && !(aof.state == On && ok && !RotatesSafely(FlushedDisk(old(disk), Unselected(old(aof)), e.written),
                                                                                      FlushedAof(Unselected(old(aof)), e.written))))
      ensures g.durable == if old(g).intact then FlushedPromise(old(disk), Unselected(old(aof)), old(g).durable, e.written) else old(g).durable
      ensures Grows(old(g), g, Scope(data, old(aof).buf, OwedUnlessOn(aof, g.durable)))
    {
      hide Inv, Core, Grows, RotatedDisk, RotatedAof, FlushedDisk, FlushedAof, FlushedPromise, Sound, TrailOk, Recover, Recoverable, RotatesSafely, LogOk, BackupOk,
           DiskServes, ManifestOk;
      UnselectInv(disk, aof, child, data, bk, g);
      aof := aof.(selected := UNSELECTED);
      ghost var a0 := aof;
      OffOwesTheSame(disk, aof, g.durable, e.written);
      FlushBuffer(e.written);
      ghost var d1, a1, g1 := disk, aof, g;
      FlushedShape(a0, e.written);
      InvParts(disk, aof, child, data, bk, g);
      RotatedDir(disk, aof, e.openOk, e.persistOk);
      ok := RotateIncr(e.openOk, e.persistOk);
      ghost var k := Scope(data, a0.buf, OwedUnlessOn(aof, g.durable));
      GrowsTwice(old(g), g1, g, k, Scope(data, a1.buf, OwedUnlessOn(a1, g.durable)), k);
      RotatedInv(d1, a1, child, data, bk, g1, g, e.openOk, e.persistOk);
    }

    // rewriteAppendOnlyFileBackground.
    method RewriteBackground(e: Env) returns (ok: bool)
      requires Valid()
      modifies this`disk, this`aof, this`child, this`scheduled, this`g
      ensures Valid() && g.sealed == old(g).sealed
      ensures ok == (MayRewrite(old(child), bk) && e.forkOk && Rotates(old(aof), e))
      ensures !MayRewrite(old(child), bk) ==> disk == old(disk) && aof == old(aof) && g == old(g)
      ensures MayRewrite(old(child), bk) ==> disk == ForkingDisk(old(disk), old(aof), e) && aof == ForkingAof(old(disk), old(aof), e)
      ensures aof.state == old(aof).state
      ensures child == (if ok then AofChild(data) else old(child)) && scheduled == (if ok then false else old(scheduled))
      ensures g.intact == (old(g).intact && !(MayRewrite(old(child), bk) && ForkHazard(old(disk), old(aof), e)))
      ensures g.durable == if old(g).intact && MayRewrite(old(child), bk)
                           then FlushedPromise(old(disk), Unselected(old(aof)), old(g).durable, e.written) else old(g).durable
      ensures aof.state != On ==> g.durable == old(g).durable
      ensures Grows(old(g), g, Scope(data, old(aof).buf, OwedUnlessOn(aof, g.durable)))
    {
      hide Inv, Core, Grows, FlushedPromise, ForkingDisk, ForkingAof, Sound, TrailOk, Recoverable, LogOk, BackupOk, DiskServes, ManifestOk, ForkHazard, RotatesSafely,
           FlushedDisk, FlushedAof;
      ghost var k := Scope(data, aof.buf, OwedUnlessOn(aof, g.durable));
      GrowsNot(g, g, k);
      if child != NoChild || bk.state == Snapshotting || bk.state == Incrementing { return false; }
      InvParts(disk, aof, child, data, bk, g);
      ForkHazardIs(disk, aof, child, data, g, e);
      ForkingShape(disk, aof, e);
      OffOwesTheSame(disk, Unselected(aof), g.durable, e.written);
      ghost var d0, a0 := disk, aof;
      ok := PrepareFork(e);
      if !ok { return; }
      if !e.forkOk { return false; }
      ghost var g1 := g;
      InvParts(disk, aof, child, data, bk, g);
      k := Scope(data, a0.buf, OwedUnlessOn(aof, g.durable));
      ForkedInv(d0, a0, data, bk, g, e);
      child := AofChild(data);
      scheduled := false;
      g := g.(intact := g.intact && (aof.state == On ==> aof.buf == []));
      GrowsNot(g1, g, k);
      GrowsTwice(old(g), g1, g, k, k, k);
    }

    // What deleting history starts from.
    ghost predicate Serving(on: bool)
      reads this
    {
      && Sound(disk, aof) && TrailOk(g.trail) && (aof.state == On ==> on)
      && (g.intact ==> DiskServes(disk, aof.manifest, g.durable) && (on ==> Accounts(disk, aof, g.durable, data)))
    }

    // aofDelHistoryFiles. `on`: the log being written is the one on disk.
    method DeleteHistory(persistOk: bool, on: bool)
      requires Serving(on)
      modifies this`disk, this`aof, this`g
      ensures Serving(on) && g == old(g).(trail := g.trail)
      ensures Grows(old(g), g, Scope(data, old(aof).buf, if on then {} else {g.durable}))
      ensures disk == CollectedDisk(old(disk), old(aof).manifest, gcDisabled, persistOk)
      ensures aof == old(aof).(manifest := CollectedManifest(old(aof).manifest, gcDisabled))
    {
      hide Sound, Grows, TrailOk, DiskServes, Recover, DiskOk, Accounts, Restartable;
      ghost var k := Scope(data, aof.buf, if on then {} else {g.durable});
      GrowsNot(g, g, k);
      if gcDisabled { return; }
      var m := WithoutHistory(aof.manifest);
      if aof.manifest.list.hist == [] {
        assert m == aof.manifest;
        return;
      }
      var hist := aof.manifest.list.hist;
      var i := 0;
      assert Unlinked(disk, hist[..0]) == disk;
      while i < |hist|
        invariant 0 <= i <= |hist|
        invariant Serving(on) && Grows(old(g), g, k) && g == old(g).(trail := g.trail) && aof == old(aof)
        invariant disk == Unlinked(old(disk), hist[..i])
      {
        ghost var g1 := g;
        SoundParts(disk, aof);
        UnlinkOneMore(old(disk), hist, i);
        if g.intact {
          UnlinkHistory(disk, aof.manifest, g.durable, hist[i]);
          UnlinkAccounts(disk, aof, g.durable, data, hist[i].name);
        }
        UnlinkSound(disk, aof, hist[i].name);
        disk := Unlink(disk, hist[i].name);
        ServingRecoverable(disk, aof, data, g, on);
        Record(on);
        GrowsTwice(old(g), g1, g, k, k, k);
        i := i + 1;
      }
      assert hist[..|hist|] == hist;
      if g.intact {
        ForgetHistoryServes(disk, aof.manifest, g.durable);
        ListAccounts(disk, aof, g.durable, data, m);
      }
      ManifestSound(disk, aof, m);
      aof := aof.(manifest := m);
      if persistOk {
        disk := ListDisk(disk, m);
      }
      ghost var g2 := g;
      ServingRecoverable(disk, aof, data, g, on);
      Record(on);
      GrowsTwice(old(g), g2, g, k, k, k);
    }

    // The successful part of backgroundRewriteDoneHandler: install the snapshot, list it,
    // delete what it replaced.
    method InstallRewrite(renameIncrOk: bool, persistOk: bool, gcPersistOk: bool) returns (ok: bool)
      requires Valid() && child.AofChild?
      modifies this`disk, this`aof, this`g
      ensures g.sealed == old(g).sealed
      ensures ok == Finishes(old(disk), old(aof), true, true, renameIncrOk, persistOk)
      ensures g.intact == (old(g).intact && !(ok && KeepsStaleIncr(old(disk), old(aof))))
      ensures !ok ==> aof == old(aof) && g.durable == old(g).durable && AfterChild(disk, Cleaned(aof), child, data, bk, g)
      ensures !ok ==> disk == AbandonedDisk(Installed(old(disk), old(aof), child.snapshot, rdbPreamble), old(aof), rdbPreamble, renameIncrOk)
      ensures ok ==> Valid() && g.durable == RewrittenPromise(old(disk), old(aof), child, old(g).durable)
      ensures ok ==> disk == CollectedDisk(PublishedDisk(old(disk), old(aof), child.snapshot, rdbPreamble),
                                           RewrittenManifest(old(aof), rdbPreamble), gcDisabled, gcPersistOk)
      ensures ok ==> aof == RewrittenAof(old(aof), rdbPreamble).(manifest := CollectedManifest(RewrittenManifest(old(aof), rdbPreamble), gcDisabled))
      ensures Grows(old(g), g, Scope(data, old(aof).buf, OwedUnlessOn(old(aof), old(g).durable) + OwedUnlessOn(old(aof), g.durable)))
    {
      hide Inv, Core, Sound, Grows, TrailOk, DiskServes, Recover, Recoverable, DiskOk, RewrittenPromise, FdOk, LogOk, BackupOk, Read,
           LiveName, AfterChild, RewrittenManifest, KeepsStaleIncr, CollectedDisk;
      ghost var g0, d0 := g, disk;
      InvParts(disk, aof, child, data, bk, g);
      InstallInv(disk, aof, child, data, bk, g, rdbPreamble, child.snapshot);
      InstalledFile(disk, aof, rdbPreamble, child.snapshot);
      PromiseUnaffected(disk, aof, child, g.durable, rdbPreamble, child.snapshot);
      if g.intact {
        LastIncrNamed(aof.manifest);
      }
      disk := Installed(disk, aof, child.snapshot, rdbPreamble);
      InvParts(disk, aof, child, data, bk, g);
      Record(aof.state == On);
      ghost var g1 := g;
      ok := PublishRewrite(renameIncrOk, persistOk, gcPersistOk);
      ghost var k := Scope(data, old(aof).buf, OwedUnlessOn(old(aof), old(g).durable) + OwedUnlessOn(old(aof), g.durable));
      GrowsTwice(g0, g1, g, Scope(data, old(aof).buf, OwedUnlessOn(old(aof), old(g).durable)), k, k);
    }

    // With the new BASE in place: give the temporary INCR its name, then list both.
    method PublishRewrite(renameIncrOk: bool, persistOk: bool, gcPersistOk: bool) returns (ok: bool)
      requires Valid() && child.AofChild?
      requires Read(disk.files, disk.store, BaseName(aof.manifest.baseSeq + 1, rdbPreamble)) == Some(Snapshot(child.snapshot))
      modifies this`disk, this`aof, this`g
      ensures g.sealed == old(g).sealed
      ensures ok == Finishes(old(disk), old(aof), true, true, renameIncrOk, persistOk)
      ensures g.intact == (old(g).intact && !(ok && KeepsStaleIncr(old(disk), old(aof))))
      ensures !ok ==> aof == old(aof) && g.durable == old(g).durable && AfterChild(disk, Cleaned(aof), child, data, bk, g)
      ensures !ok ==> disk == AbandonedDisk(old(disk), old(aof), rdbPreamble, renameIncrOk)
      ensures ok ==> Valid() && g.durable == RewrittenPromise(old(disk), old(aof), child, old(g).durable)
      ensures ok ==> disk == CollectedDisk(ListDisk(Renamed(old(disk), old(aof)), RewrittenManifest(old(aof), rdbPreamble)),
                                           RewrittenManifest(old(aof), rdbPreamble), gcDisabled, gcPersistOk)
      ensures ok ==> aof == RewrittenAof(old(aof), rdbPreamble).(manifest := CollectedManifest(RewrittenManifest(old(aof), rdbPreamble), gcDisabled))
      ensures Grows(old(g), g, Scope(data, old(aof).buf, OwedUnlessOn(old(aof), old(g).durable) + OwedUnlessOn(old(aof), g.durable)))
    {
      hide Inv, Core, Sound, Grows, TrailOk, DiskServes, Recover, Recoverable, DiskOk, RewrittenPromise, FdOk, LogOk, BackupOk, Read,
           LiveName, AfterChild, ListsFrom, RewrittenManifest, KeepsStaleIncr, CollectedDisk,
           HistOld, NextFree, Artifacts, Pinned, Starting, Tail, ManifestOk;
      var bn, d1 := BaseName(aof.manifest.baseSeq + 1, rdbPreamble), disk;
      ghost var g1 := g;
      ghost var k := Scope(data, aof.buf, OwedUnlessOn(aof, g.durable));
      GrowsNot(g, g, k);
      InvParts(disk, aof, child, data, bk, g);
      if aof.state == WaitRewrite {
        if !renameIncrOk || TempIncrName !in disk.files {
          ChildGone(disk, aof, child, data, bk, g);
          Discard(bn);
          assert OwedUnlessOn(aof, g.durable) + OwedUnlessOn(aof, g.durable) == OwedUnlessOn(aof, g.durable);
          return false;
        }
        RenameAfterChild(disk, aof, child, data, bk, g, rdbPreamble);
        disk := Rename(disk, TempIncrName, IncrName(aof.manifest.incrSeq + 1));
        AfterChildParts(disk, Cleaned(aof), child, data, bk, g);
        CleanedRecoverable(disk, aof, data, g);
        Record(false);
        AfterChildTrail(disk, Cleaned(aof), child, data, bk, g1, g);
        ListsFromRenamed(d1, aof, child, data, bk, g1, rdbPreamble, g);
        StaleOnlyOff(disk, d1, aof);
      } else {
        ChildGone(disk, aof, child, data, bk, g);
        ListsFromHere(disk, aof, child, data, bk, g, rdbPreamble);
      }
      ghost var g2 := g;
      if !persistOk {
        Discard(bn);
        GrowsTwice(g1, g2, g, k, k, k);
        if aof.state == WaitRewrite {
          ghost var g3 := g;
          Discard(IncrName(aof.manifest.incrSeq + 1));
          GrowsTwice(g1, g3, g, k, k, k);
        }
        assert OwedUnlessOn(aof, g.durable) + OwedUnlessOn(aof, g.durable) == OwedUnlessOn(aof, g.durable);
        return false;
      }
      ListRewrite(gcPersistOk, d1);
      ghost var k' := Scope(data, old(aof).buf, OwedUnlessOn(old(aof), old(g).durable) + OwedUnlessOn(old(aof), g.durable));
      GrowsTwice(g1, g2, g, k, Scope(data, old(aof).buf, OwedByListing(old(aof), g.durable)), k');
      return true;
    }

    // Write the manifest that lists a finished rewrite.
    method ListManifest(from: Disk)
      requires ListsFrom(from, aof, child, data, bk, g, disk, rdbPreamble)
      modifies this`disk, this`aof, this`g
      ensures child.AofChild? && Inv(disk, RewrittenAof(old(aof), rdbPreamble), child, data, bk, g) && g.sealed == old(g).sealed
      ensures g.intact == (old(g).intact && !KeepsStaleIncr(old(disk), old(aof)))
      ensures g.durable == RewrittenPromise(from, old(aof), child, old(g).durable)
      ensures disk == ListDisk(old(disk), RewrittenManifest(old(aof), rdbPreamble))
      ensures aof == old(aof).(manifest := RewrittenManifest(old(aof), rdbPreamble))
      ensures Grows(old(g), g, Scope(data, old(aof).buf, OwedByListing(old(aof), g.durable)))
    {
      hide Inv, Core, Sound, Grows, TrailOk, DiskServes, Recover, Recoverable, Accounts, LogOk, BackupOk, RewrittenPromise, NewBase, NewIncr,
           RewrittenToHistory, KeepsStaleIncr, ReadyToList;
      ListedInv(from, aof, child, data, bk, g, disk, rdbPreamble);
      ghost var after, k := RewrittenAof(aof, rdbPreamble), Scope(data, aof.buf, OwedByListing(aof, RewrittenPromise(from, aof, child, g.durable)));
      g := g.(durable := RewrittenPromise(from, aof, child, g.durable), intact := g.intact && !KeepsStaleIncr(disk, aof));
      ghost var g1 := g;
      GrowsNot(old(g), g1, k);
      var m := NewBase(aof.manifest, rdbPreamble);
      if aof.state == WaitRewrite {
        m := NewIncr(m);
      }
      m := MarkRewrittenIncrAsHistory(m, aof.fd.Some?);
      disk := ListDisk(disk, m);
      ListedServing(disk, after, child, data, bk, g, aof);
      Record(aof.state != Off);
      GrowsTwice(old(g), g1, g, k, k, k);
      aof := aof.(manifest := m);
    }

    // List a finished rewrite, then delete what it replaced.
    method ListRewrite(gcPersistOk: bool, from: Disk)
      requires ListsFrom(from, aof, child, data, bk, g, disk, rdbPreamble) && (g.intact ==> !halted)
      modifies this`disk, this`aof, this`g
      ensures Valid() && g.sealed == old(g).sealed
      ensures g.intact == (old(g).intact && !KeepsStaleIncr(old(disk), old(aof)))
      ensures child.AofChild? && g.durable == RewrittenPromise(from, old(aof), child, old(g).durable)
      ensures disk == CollectedDisk(ListDisk(old(disk), RewrittenManifest(old(aof), rdbPreamble)),
                                    RewrittenManifest(old(aof), rdbPreamble), gcDisabled, gcPersistOk)
      ensures aof == RewrittenAof(old(aof), rdbPreamble).(manifest := CollectedManifest(RewrittenManifest(old(aof), rdbPreamble), gcDisabled))
      ensures Grows(old(g), g, Scope(data, old(aof).buf, OwedByListing(old(aof), g.durable)))
    {
      hide Inv, Core, Sound, Grows, TrailOk, DiskServes, Recover, Recoverable, Accounts, LogOk, BackupOk, RewrittenPromise, RewrittenManifest,
           KeepsStaleIncr, CollectedDisk, CollectedManifest, HistoryGone, ListsFrom;
      ghost var after := RewrittenAof(aof, rdbPreamble);
      ListManifest(from);
      ghost var d2, g2, k := disk, g, Scope(data, aof.buf, OwedByListing(aof, g.durable));
      InvParts(disk, after, child, data, bk, g);
      ListedServing(disk, after, child, data, bk, g, aof);
      DeleteHistory(gcPersistOk, aof.state != Off);
      GrowsTwice(old(g), g2, g, k, k, k);
      CollectedGone(d2, after.manifest, gcDisabled, gcPersistOk);
      HistoryGoneInv(d2, after, child, data, bk, g2, disk, aof.manifest, g);
      if aof.state == WaitRewrite {
        aof := aof.(state := On);
      }
    }

    // Remove a file a failed rewrite had put in place.
    method Discard(n: Name)
      requires AfterChild(disk, Cleaned(aof), child, data, bk, g)
      requires n == BaseName(aof.manifest.baseSeq + 1, rdbPreamble) || n == IncrName(aof.manifest.incrSeq + 1) || n == TempIncrName
      modifies this`disk, this`g
      ensures disk == Unlink(old(disk), n)
      ensures g == old(g).(trail := g.trail) && Grows(old(g), g, Scope(data, aof.buf, OwedUnlessOn(aof, g.durable)))
      ensures AfterChild(disk, Cleaned(aof), child, data, bk, g)
    {
      hide Core, BackupOk, Grows, TrailOk, Recoverable, LiveName, DiskServes, ManifestOk;
      AfterChildParts(disk, Cleaned(aof), child, data, bk, g);
      if g.intact {
        NewNames(aof.manifest, rdbPreamble);
      }
      DropFileAfterChild(disk, Cleaned(aof), child, data, bk, g, n);
      disk := Unlink(disk, n);
      AfterChildParts(disk, Cleaned(aof), child, data, bk, g);
      CleanedRecoverable(disk, aof, data, g);
      Record(aof.state == On);
    }

    // removeFilesInDir(aof_dirname) and a fresh in-memory manifest.
    method RemoveAofDir()
      requires Valid() && !InProgress(bk.state)
      modifies this`disk, this`aof, this`g
      ensures Valid() && g.sealed == old(g).sealed && g.durable == []
      ensures g.intact == (old(g).intact && aof.state != On)
      ensures disk == NoAofDir(old(disk)) && aof == old(aof).(manifest := EMPTY_MANIFEST)
      ensures Grows(old(g), g, Scope(data, aof.buf, {[]}))
    {
      hide Inv, Grows, TrailOk, Recover, Recoverable, LogOk, DiskServes, BackupOk;
      RemoveDirInv(disk, aof, child, data, bk, g);
      g := g.(durable := [], intact := g.intact && aof.state != On);
      ghost var g1, k := g, Scope(data, aof.buf, {[]});
      GrowsNot(old(g), g1, k);
      disk := NoAofDir(disk);
      aof := aof.(manifest := EMPTY_MANIFEST);
      InvParts(disk, aof, child, data, bk, g);
      RecoverableOff(disk, aof, data, g, aof.state == On);
      Record(false);
      GrowsTwice(old(g), g1, g, k, k, k);
    }

    // What stopping the log may start from: a valid server, or one whose backup has just
    // been sealed while its INCR is still open.
    ghost predicate Stoppable(sealing: bool)
      reads this
    {
      && Core(disk, aof, child, data, g) && (g.intact ==> !halted)
      && (sealing ==> bk.state == Sealed)
      && (g.intact ==> if sealing then Pinned(disk, aof.manifest, bk) else BackupOk(disk, aof, child, bk, g.sealed))
    }

    // The first half of stopAppendOnly: forced flush, close, kill the child. While sealing,
    // what is flushed still goes to the pinned INCR.
    method CloseLog(written: nat, sealing: bool)
      requires aof.state != Off && Stoppable(sealing)
      modifies this`disk, this`aof, this`child, this`scheduled, this`g
      ensures Core(disk, aof, child, data, g)
      ensures g.intact && !InProgress(bk.state) ==> BackupOk(disk, aof, child, bk, g.sealed)
      ensures disk == FlushedDisk(old(disk), old(aof), written) && aof == Closed(old(aof)) && !scheduled
      ensures child == if old(child).AofChild? then NoChild else old(child)
      ensures g == old(g).(trail := g.trail, durable := g.durable, sealed := if sealing then g.durable else old(g).sealed)
      ensures g.durable == if g.intact then FlushedPromise(old(disk), old(aof), old(g).durable, written) else old(g).durable
      ensures Grows(old(g), g, Scope(data, old(aof).buf, OwedByStopping(old(aof), old(g).durable)))
    {
      hide Inv, Core, BackupOk, Grows, Artifacts, Pinned, Sound, LogOk, DiskServes, ManifestOk, Starting, HistOld, NextFree, TrailOk, Recoverable,
           DiskOk, InProgress;
      CoreParts(disk, aof, child, data, g);
      InProgressIs(bk.state);
      if g.intact {
        if sealing {
          FlushPinned(disk, aof, bk, written);
        } else if Writes(disk, aof) {
          FlushBackupOk(disk, aof, child, bk, g.sealed, written);
        }
      }
      WriteOut(written);
      ghost var g1 := g;
      CoreParts(disk, aof, child, data, g);
      var child' := if child.AofChild? then NoChild else child;
      if sealing {
        StartingSealed(disk, aof, child, data, g, g.durable);
        if g.intact {
          SealArtifacts(disk, aof.manifest, bk, g.durable);
        }
        g := g.(sealed := g.durable);
      } else if g.intact && bk.state == Sealed {
        SealedArtifacts(disk, aof, child, bk, g.sealed);
      }
      ClosedCore(disk, aof, child, child', data, g);
      if g.intact && !InProgress(bk.state) {
        ClosedBackupOk(disk, aof, child', bk, g.sealed);
      }
      ghost var k := Scope(data, old(aof).buf, OwedByStopping(old(aof), old(g).durable));
      GrowsNot(g1, g, k);
      GrowsTwice(old(g), g1, g, k, k, k);
      aof, child, scheduled := Closed(aof), child', false;
    }

    // stopAppendOnly. `written` is the outcome of its forced flush.
    method Stop(written: nat, sealing: bool)
      requires aof.state != Off && Stoppable(sealing)
      modifies this
      ensures Valid() && g.intact == old(g).intact && g.sealed == if sealing then g.durable else old(g).sealed
      ensures aof == Closed(old(aof)).(manifest := aof.manifest) && !scheduled
      ensures data == old(data) && enabled == old(enabled) && gcDisabled == old(gcDisabled) && rdbPreamble == old(rdbPreamble)
      ensures child == if old(child).AofChild? then NoChild else old(child)
      ensures disk.store == FlushedDisk(old(disk), old(aof), written).store
      // The directory goes with a backup that owned it, and with nothing else.
      ensures if InProgress(old(bk).state) && old(bk).ownsDir then disk.files == map[] && disk.manifest.None? && aof.manifest == EMPTY_MANIFEST
              else disk.files == old(disk).files && disk.manifest == old(disk).manifest && aof.manifest == old(aof).manifest
      ensures InProgress(old(bk).state) ==> bk == NO_BACKUP.(state := Failed) && disk.backup == map[] && disk.backupManifest.None?
      ensures !InProgress(old(bk).state) ==> bk == old(bk) && disk == FlushedDisk(old(disk), old(aof), written) && aof == Closed(old(aof))
      ensures g.durable == if InProgress(old(bk).state) && old(bk).ownsDir then []
                           else if g.intact then FlushedPromise(old(disk), old(aof), old(g).durable, written) else old(g).durable
      ensures halted == old(halted)
      ensures Grows(old(g), g, Scope(data, old(aof).buf, OwedByStopping(old(aof), old(g).durable) + OwedByFailing(old(bk))))
      decreases InProgress(bk.state), 1
    {
      hide Inv, Core, BackupOk, Grows, Artifacts, Pinned, FlushedDisk, FlushedPromise, TrailOk, Recover, Recoverable, Sound, FdOk, LogOk, DiskServes,
           ManifestOk, HistOld, NextFree, Starting, DiskOk, Tail;
      FlushedDir(disk, aof, written);
      ghost var d0, a0, b0 := disk, aof, bk;
      CloseLog(written, sealing);
      ghost var d1, g1 := disk, g;
      OffOwesTheSame(d1, aof, g1.durable, written);
      ClosedTail(a0);
      SetFailed(written);
      InvOf(disk, aof, child, data, bk, g);
      ghost var k := Scope(data, old(aof).buf, OwedByStopping(old(aof), old(g).durable) + OwedByFailing(old(bk)));
      GrowsTwice(old(g), g1, g, Scope(data, old(aof).buf, OwedByStopping(old(aof), old(g).durable)),
                 Scope(data, [], OwedByStopping(Closed(old(aof)), g1.durable) + OwedByFailing(old(bk))), k);
    }

    // backupStopTempAofIfNeeded.
    method StopTempAof(written: nat, sealing: bool)
      requires Stoppable(sealing) && !InProgress(bk.state) && (sealing ==> !enabled && (g.intact ==> aof.state == On))
      modifies this
      ensures Valid() && g.intact == old(g).intact && bk == old(bk) && halted == old(halted)
      ensures data == old(data) && enabled == old(enabled) && gcDisabled == old(gcDisabled) && rdbPreamble == old(rdbPreamble)
      ensures enabled || old(aof).state == Off ==>
                disk == old(disk) && aof == old(aof) && child == old(child) && g == old(g) && scheduled == old(scheduled)
      ensures !enabled && old(aof).state != Off ==>
                aof == Closed(old(aof)) && scheduled == old(scheduled) && child == if old(child).AofChild? then NoChild else old(child)
      ensures disk == if enabled || old(aof).state == Off then old(disk) else FlushedDisk(old(disk), old(aof), written)
      ensures g.sealed == if sealing && old(aof).state != Off then g.durable else old(g).sealed
      ensures g.durable == if !enabled && g.intact then FlushedPromise(old(disk), old(aof), old(g).durable, written) else old(g).durable
      ensures Grows(old(g), g, Scope(data, old(aof).buf, OwedByStopping(old(aof), old(g).durable)))
      decreases InProgress(bk.state), 2
    {
      hide Inv, Core, BackupOk, Grows, Pinned, FlushedDisk, FlushedPromise;
      OffOwesTheSame(disk, aof, g.durable, written);
      ghost var k := Scope(data, aof.buf, OwedByStopping(aof, g.durable));
      GrowsNot(g, g, k);
      InvOf(disk, aof, child, data, bk, g);
      if enabled || aof.state == Off { return; }
      var postponed := scheduled;
      Stop(written, sealing);
      if postponed {
        scheduled := true;
      }
      GrowsMore(old(g), g, Scope(data, old(aof).buf, OwedByStopping(old(aof), old(g).durable) + OwedByFailing(old(bk))), k);
    }

    // backupSetFailed.
    method SetFailed(written: nat)
      requires Core(disk, aof, child, data, g) && (g.intact ==> !halted)
      requires g.intact && !InProgress(bk.state) ==> BackupOk(disk, aof, child, bk, g.sealed)
      modifies this
      ensures Valid() && g.sealed == old(g).sealed && halted == old(halted)
      // The promise is lost when the directory removed is one the user has come to rely on.
      ensures g.intact == (old(g).intact && !LosesDir(old(bk), old(aof), enabled))
      ensures data == old(data) && enabled == old(enabled) && gcDisabled == old(gcDisabled) && rdbPreamble == old(rdbPreamble)
      ensures !InProgress(old(bk).state) ==>
                disk == old(disk) && aof == old(aof) && child == old(child) && bk == old(bk) && g == old(g) && scheduled == old(scheduled)
      ensures InProgress(old(bk).state) ==>
                bk == NO_BACKUP.(state := Failed) && disk.backup == map[] && disk.backupManifest.None?
      // The directory goes with a backup that owned it, and with nothing else.
      ensures InProgress(old(bk).state) ==>
                if old(bk).ownsDir then disk.files == map[] && disk.manifest.None? && aof.manifest == EMPTY_MANIFEST
                else disk.files == old(disk).files && disk.manifest == old(disk).manifest && aof.manifest == old(aof).manifest
      // An AOF that was on for the backup only is stopped, the user's own is left as it is.
      ensures InProgress(old(bk).state) && (enabled || old(aof).state == Off) ==>
                && aof == old(aof).(manifest := aof.manifest) && child == old(child) && scheduled == old(scheduled)
                && disk.store == old(disk).store && (!old(bk).ownsDir ==> disk == NoBackupDir(old(disk)) && g == old(g))
      ensures InProgress(old(bk).state) && !enabled && old(aof).state != Off ==>
                && aof == Closed(old(aof)).(manifest := aof.manifest) && child == (if old(child).AofChild? then NoChild else old(child))
                && scheduled == old(scheduled) && disk.store == FlushedDisk(old(disk), old(aof), written).store
      ensures g.durable == if InProgress(old(bk).state) && old(bk).ownsDir then []
                           else if InProgress(old(bk).state) && !enabled && old(g).intact
                           then FlushedPromise(old(disk), old(aof), old(g).durable, written)
                           else old(g).durable
      ensures Grows(old(g), g, Scope(data, old(aof).buf, OwedByStopping(old(aof), old(g).durable) + OwedByFailing(old(bk))))
      decreases InProgress(bk.state), 0
    {
      hide Inv, Core, BackupOk, Grows, Artifacts, TrailOk, Recover, Recoverable, Sound, FdOk, LogOk, DiskServes, ManifestOk, Pinned, FlushedDisk,
           HistOld, NextFree, Starting, FlushedPromise, DiskOk, Tail;
      FlushedDir(disk, aof, written);
      ghost var k := Scope(data, aof.buf, OwedByStopping(aof, g.durable) + OwedByFailing(bk));
      GrowsNot(g, g, k);
      InvOf(disk, aof, child, data, bk, g);
      if !InProgress(bk.state) { return; }
      OffOwesTheSame(disk, aof, g.durable, written);
      var owned := bk.ownsDir;
      bk := bk.(state := Failed);
      BackupIdle(disk, aof, child, data, bk, g);
      InvOf(disk, aof, child, data, bk, g);
      ghost var a0 := aof;
      StopTempAof(written, false);
      ClosedTail(a0);
      GrowsMore(old(g), g, Scope(data, a0.buf, OwedByStopping(a0, old(g).durable)), k);
      ghost var g1 := g;
      RemoveArtifacts(owned);
      GrowsTwice(old(g), g1, g, k, Scope(data, aof.buf, if owned then {[]} else {}), k);
    }

    // The end of backupSetFailed: the directory, if it is the backup's own, and the pinned
    // files go.
    method RemoveArtifacts(owned: bool)
      requires Valid() && bk.state == Failed
      modifies this`disk, this`aof, this`bk, this`g
      ensures Valid() && g.sealed == old(g).sealed && bk == NO_BACKUP.(state := Failed)
      ensures g.intact == (old(g).intact && !(owned && aof.state == On))
      ensures if owned then disk == NoBackupDir(NoAofDir(old(disk))) && aof == old(aof).(manifest := EMPTY_MANIFEST) && g.durable == []
              else disk == NoBackupDir(old(disk)) && aof == old(aof) && g == old(g)
      ensures Grows(old(g), g, Scope(data, aof.buf, if owned then {[]} else {}))
    {
      hide Inv, Core, Grows, Starting, LogOk, DiskServes, TrailOk, Recoverable, Sound, BackupOk;
      GrowsNot(g, g, Scope(data, aof.buf, {}));
      if owned {
        RemoveAofDir();
      }
      InvParts(disk, aof, child, data, bk, g);
      var none := NO_BACKUP.(state := Failed);
      RemoveBackupInv(disk, aof, child, data, bk, none, g);
      disk := NoBackupDir(disk);
      bk := none;
    }

    // startAppendOnly.
    method Start(e: Env, inExec: bool) returns (ok: bool)
      requires Valid() && aof.state == Off
      modifies this`disk, this`aof, this`child, this`scheduled, this`g
      ensures Valid() && g.sealed == old(g).sealed && g.durable == old(g).durable
      ensures aof.state == if ok then WaitRewrite else Off
      ensures ok && old(child) != OtherChild && !inExec ==> child == AofChild(data)
      ensures e.openOk && e.forkOk && bk.state != Snapshotting && bk.state != Incrementing ==> ok
      ensures old(child) == OtherChild || inExec ==>
                ok && disk == old(disk) && aof == old(aof).(state := WaitRewrite) && child == old(child) && scheduled
      ensures old(child) != OtherChild && !inExec && bk.state != Snapshotting && bk.state != Incrementing ==>
                var waiting := old(aof).(state := WaitRewrite);
                && disk == ForkingDisk(old(disk), waiting, e) && aof == ForkingAof(old(disk), waiting, e).(state := aof.state)
                && ok == (e.openOk && e.forkOk)
      ensures !ok && old(child) != OtherChild ==> child == NoChild
      // A child forked while AOF was off does not collect what follows it.
      ensures g.intact == (old(g).intact && !(inExec && LeavesGap(old(disk), old(aof), old(child), data)))
      ensures Grows(old(g), g, Scope(data, old(aof).buf, {g.durable}))
    {
      hide Inv, Grows, ForkingDisk, ForkingAof;
      ghost var k := Scope(data, aof.buf, {g.durable});
      GrowsNot(g, g, k);
      if child == OtherChild || inExec {
        WaitInv(disk, aof, child, data, bk, g);
        g := g.(intact := g.intact && !LeavesGap(disk, aof, child, data));
        GrowsNot(old(g), g, k);
        aof := aof.(state := WaitRewrite);
        scheduled := true;
        return true;
      }
      ForgetChildInv(disk, aof, child, data, bk, g);
      child := NoChild;
      WaitInv(disk, aof, child, data, bk, g);
      assert g.(intact := g.intact && !LeavesGap(disk, aof, child, data)) == g;
      aof := aof.(state := WaitRewrite);
      ok := RewriteBackground(e);
      if !ok {
        OffInv(disk, aof, child, data, bk, g);
        aof := aof.(state := Off);
      }
    }

    // CONFIG SET appendonly.
    method SetEnabled(on: bool, e: Env, inExec: bool)
      requires Valid()
      modifies this
      ensures Valid() && data == old(data) && gcDisabled == old(gcDisabled) && rdbPreamble == old(rdbPreamble)
      ensures !on ==> aof.state == Off && !enabled
      ensures on ==> (enabled <==> aof.state != Off)
      ensures on ==> bk == old(bk)
      ensures on && old(aof).state != Off ==>
                enabled && aof == old(aof) && child == old(child) && disk == old(disk) && g == old(g)
      ensures on && old(aof).state == Off && inExec ==>
                enabled && disk == old(disk) && aof == old(aof).(state := WaitRewrite) && child == old(child) && bk == old(bk)
      ensures on && old(aof).state == Off && !inExec && old(child) == NoChild && old(bk).state == Idle ==>
                var waiting := old(aof).(state := WaitRewrite);
                && enabled == (e.openOk && e.forkOk) && bk == old(bk)
                && disk == ForkingDisk(old(disk), waiting, e) && aof == ForkingAof(old(disk), waiting, e).(state := aof.state)
                && child == if enabled then AofChild(data) else NoChild
      // Turning it off closes the log and kills the child; a backup in progress fails, and takes
      // a directory it owns with it.
      ensures !on && old(aof).state == Off ==> disk == old(disk) && aof == old(aof) && bk == old(bk) && child == old(child) && g == old(g)
      ensures !on && old(aof).state != Off ==>
                && aof == Closed(old(aof)).(manifest := aof.manifest) && child == (if old(child).AofChild? then NoChild else old(child)) && !scheduled
                && DirAfter(old(disk), disk, InProgress(old(bk).state) && old(bk).ownsDir)
                && bk == (if InProgress(old(bk).state) then NO_BACKUP.(state := Failed) else old(bk))
                && (!InProgress(old(bk).state) ==> disk == FlushedDisk(old(disk), old(aof), e.written) && aof == Closed(old(aof)))
      ensures old(g).intact ==>
                if !on && InProgress(old(bk).state) && old(bk).ownsDir && old(aof).state != Off then g.durable == []
                else old(g).durable <= g.durable && (old(aof).state != On ==> g.durable == old(g).durable)
      ensures g.intact == (old(g).intact && !(on && old(aof).state == Off && inExec && LeavesGap(old(disk), old(aof), old(child), data)))
      ensures Grows(old(g), g, Scope(data, old(aof).buf, {old(g).durable, g.durable}))
    {
      hide Inv, Core, BackupOk, Grows, Artifacts, ForkingDisk, ForkingAof, LeavesGap, FlushedDisk, FlushedPromise;
      OffOwesTheSame(disk, aof, g.durable, e.written);
      ghost var k := Scope(data, aof.buf, {g.durable});
      GrowsNot(g, g, Scope(data, aof.buf, {g.durable, g.durable}));
      InvOf(disk, aof, child, data, bk, g);
      enabled := on;
      if !on && aof.state != Off {
        Stop(e.written, false);
        GrowsMore(old(g), g, Scope(data, old(aof).buf, OwedByStopping(old(aof), old(g).durable) + OwedByFailing(old(bk))),
                  Scope(data, old(aof).buf, {old(g).durable, g.durable}));
      } else if on && aof.state == Off {
        var ok := Start(e, inExec);
        GrowsMore(old(g), g, k, Scope(data, old(aof).buf, {old(g).durable, g.durable}));
        if !ok {
          enabled := false;
        }
      }
    }

    // backgroundRewriteDoneHandler. `exitOk` says that the child finished its snapshot.
    method RewriteDone(exitOk: bool, renameBaseOk: bool, renameIncrOk: bool, persistOk: bool, gcPersistOk: bool,
                       linkOk: bool, written: nat) returns (ok: bool)
      requires Valid() && child.AofChild?
      modifies this
      ensures Valid() && data == old(data) && enabled == old(enabled) && gcDisabled == old(gcDisabled) && rdbPreamble == old(rdbPreamble)
      ensures ok == Finishes(old(disk), old(aof), exitOk, renameBaseOk, renameIncrOk, persistOk)
      ensures child == NoChild
      ensures scheduled == (old(scheduled) || (!ok && old(aof).state == WaitRewrite && enabled))
      ensures var d := DoneDisk(old(disk), old(aof), old(child).snapshot, rdbPreamble, gcDisabled, gcPersistOk, ok, exitOk && renameBaseOk, renameIncrOk);
              var a := DoneAof(old(aof), rdbPreamble, gcDisabled, ok);
              var x := if ok then RewrittenPromise(old(disk), old(aof), old(child), old(g).durable) else old(g).durable;
              if old(bk).state != Snapshotting then disk == d && aof == a && bk == old(bk) && g.durable == x
              else Noticed(ok, linkOk, enabled, d, a, old(bk), old(g).intact && !(ok && KeepsStaleIncr(old(disk), old(aof))), x, disk, aof, bk, g.durable)
      ensures old(g).intact && g.intact && old(bk).state == Snapshotting && ok && linkOk ==> bk.state == Incrementing
      ensures g.intact == (old(g).intact && !DoneHazard(old(disk), old(aof), old(bk), enabled, ok, linkOk))
      ensures Grows(old(g), g, Scope(data, old(aof).buf,
                {old(g).durable, RewrittenPromise(old(disk), old(aof), old(child), old(g).durable), g.durable}))
    {
      hide Inv, Core, AfterChild, BackupOk, Grows, RewrittenManifest, PublishedDisk, CollectedDisk, CollectedManifest, KeepsStaleIncr,
           RewrittenPromise, LogOk, DiskServes, ManifestOk, Sound, FdOk, Recoverable, TrailOk;
      ghost var g0, gone, mid := g, child, RewrittenPromise(disk, aof, child, g.durable);
      if g.intact {
        SnapshottingKeepsOne(disk, aof, child, data, bk, g, rdbPreamble);
      }
      RewrittenBase(aof, rdbPreamble);
      CollectedShape(RewrittenManifest(aof, rdbPreamble), gcDisabled);
      ok := SettleRewrite(exitOk, renameBaseOk, renameIncrOk, persistOk, gcPersistOk);
      ghost var g1, a1 := g, aof;
      child := NoChild;
      Notify(ok, linkOk, written, gone);
      GrowsTwice(g0, g1, g, Scope(data, old(aof).buf, {g0.durable, mid}), Scope(data, a1.buf, {g1.durable, g.durable}),
                 Scope(data, old(aof).buf, {g0.durable, mid, g.durable}));
    }

    // The handler up to its notification of BACKUP.
    method SettleRewrite(exitOk: bool, renameBaseOk: bool, renameIncrOk: bool, persistOk: bool, gcPersistOk: bool) returns (ok: bool)
      requires Valid() && child.AofChild?
      modifies this`disk, this`aof, this`scheduled, this`g
      ensures ok == Finishes(old(disk), old(aof), exitOk, renameBaseOk, renameIncrOk, persistOk)
      ensures AfterChild(disk, aof, child, data, bk, g) && (g.intact ==> !halted) && g.sealed == old(g).sealed
      ensures disk == DoneDisk(old(disk), old(aof), child.snapshot, rdbPreamble, gcDisabled, gcPersistOk, ok, exitOk && renameBaseOk, renameIncrOk)
      ensures aof == DoneAof(old(aof), rdbPreamble, gcDisabled, ok)
      ensures g.durable == if ok then RewrittenPromise(old(disk), old(aof), child, old(g).durable) else old(g).durable
      ensures ok && g.intact && aof.manifest.list.base.Some? ==> aof.manifest.list.base.value.name in disk.files
      ensures scheduled == (old(scheduled) || (!ok && old(aof).state == WaitRewrite && enabled))
      ensures g.intact == (old(g).intact && !(ok && KeepsStaleIncr(old(disk), old(aof))))
      ensures Grows(old(g), g, Scope(data, old(aof).buf, {old(g).durable, RewrittenPromise(old(disk), old(aof), child, old(g).durable)}))
    {
      hide Inv, Core, AfterChild, BackupOk, Grows, RewrittenManifest, PublishedDisk, CollectedDisk, CollectedManifest, KeepsStaleIncr,
           RewrittenPromise, LogOk, DiskServes, ManifestOk, Sound, FdOk, Recoverable, TrailOk;
      ghost var k := Scope(data, aof.buf, {g.durable, RewrittenPromise(disk, aof, child, g.durable)});
      if exitOk && renameBaseOk {
        ok := InstallRewrite(renameIncrOk, persistOk, gcPersistOk);
        GrowsMore(old(g), g, Scope(data, old(aof).buf, OwedUnlessOn(old(aof), old(g).durable) + OwedUnlessOn(old(aof), g.durable)), k);
        if ok {
          ChildGone(disk, aof, child, data, bk, g);
          if g.intact {
            BasePresent(disk, aof, child, data, bk, g);
          }
        }
      } else {
        ok := false;
        ChildGone(disk, aof, child, data, bk, g);
        GrowsNot(old(g), g, k);
      }
      if aof.state == WaitRewrite {
        ghost var g1 := g;
        Discard(TempIncrName);
        GrowsTwice(old(g), g1, g, k, Scope(data, aof.buf, OwedUnlessOn(aof, g.durable)), k);
        aof := aof.(buf := []);
        if enabled {
          scheduled := true;
        }
      }
    }

    // backupHandleSnapshotDone and backupHandleSnapshotFailed.
    method Notify(success: bool, linkOk: bool, written: nat, ghost gone: Child)
      requires AfterChild(disk, aof, gone, data, bk, g) && child == NoChild && (g.intact ==> !halted)
      requires success ==> aof.manifest.list.base.Some?
      requires success && g.intact && bk.state == Snapshotting ==>
                 aof.state == On && |aof.manifest.list.incrs| == 1 && aof.manifest.list.base.value.name in disk.files
      modifies this
      ensures Valid() && data == old(data) && enabled == old(enabled) && gcDisabled == old(gcDisabled) && rdbPreamble == old(rdbPreamble)
      ensures old(bk).state != Snapshotting ==>
                disk == old(disk) && aof == old(aof) && bk == old(bk) && g == old(g) && child == old(child) && scheduled == old(scheduled)
      ensures old(bk).state == Snapshotting ==> Noticed(success, linkOk, enabled, old(disk), old(aof), old(bk), old(g).intact, old(g).durable, disk, aof, bk, g.durable)
      ensures child == NoChild && scheduled == old(scheduled)
      ensures g.intact == (old(g).intact && !(old(bk).state == Snapshotting && !(success && linkOk) && LosesDir(old(bk), old(aof), enabled)))
      ensures Grows(old(g), g, Scope(data, old(aof).buf, {old(g).durable, g.durable}))
    {
      hide Inv, Core, BackupOk, Grows, Sound, LogOk, DiskServes, FlushedPromise, FlushedDisk, Starting, TrailOk, Recoverable;
      OffOwesTheSame(disk, aof, g.durable, written);
      ghost var k := Scope(data, aof.buf, {g.durable, g.durable});
      GrowsNot(g, g, k);
      if bk.state != Snapshotting {
        NotSnapshotting(disk, aof, gone, data, bk, g);
        return;
      }
      ghost var j := Scope(data, aof.buf, OwedByStopping(aof, g.durable) + OwedByFailing(bk));
      if !success {
        SetFailed(written);
        GrowsMore(old(g), g, j, Scope(data, old(aof).buf, {old(g).durable, g.durable}));
        return;
      }
      var n := aof.manifest.list.base.value.name;
      if !linkOk || n !in disk.files {
        SetFailed(written);
        GrowsMore(old(g), g, j, Scope(data, old(aof).buf, {old(g).durable, g.durable}));
        return;
      }
      SnapshotPinned(disk, aof, gone, data, bk, g);
      disk := Linked(disk, n);
      bk := bk.(state := Incrementing, base := Some(n));
    }

    // BACKUP SEAL.
    method Seal(e: Env, fsyncOk: bool, linkOk: bool, manifestOk: bool) returns (ok: bool)
      requires Valid()
      modifies this
      ensures Valid() && data == old(data) && enabled == old(enabled)
      ensures ok ==> old(bk).state == Incrementing && bk.state == Sealed
      ensures old(bk).state != Incrementing ==> !ok && disk == old(disk) && bk == old(bk) && g == old(g)
      ensures old(g).intact && old(bk).state == Incrementing ==>
                && ok == SealCompletes(enabled, e, fsyncOk, linkOk, manifestOk)
                && (!ok ==> bk.state == Failed)
      // The sealed files recover the dataset less what the forced flush left behind.
      ensures ok && old(g).intact ==>
                && RecoverBackup(disk) == Some(g.sealed)
                && (g.sealed == data <==> e.written + (if enabled then 0 else e.written) >= |old(aof).buf|)
      ensures ok && enabled && old(g).intact ==>
                && aof == RotatedAof(FlushedDisk(old(disk), old(aof), e.written), FlushedAof(old(aof), e.written), true, true)
                && DiskServes(disk, aof.manifest, FlushedPromise(old(disk), old(aof), old(g).durable, e.written))
                && LastIncr(aof.manifest).name in disk.files && aof.fd == Some(disk.files[LastIncr(aof.manifest).name])
                && aof.fd.value in disk.store && disk.store[aof.fd.value] == Log([])
      // With appendonly no the AOF is off again. The directory is removed if the backup owns it;
      // otherwise every file stays and the live files recover what the sealed ones do. A seal
      // that fails takes a directory the backup owns, and no other.
      ensures ok || (old(bk).state == Incrementing && old(g).intact) ==> Released(old(disk), old(aof), old(bk), old(g), disk, aof, g, ok, enabled)
      ensures ok && !enabled ==> DirAfter(old(disk), disk, old(bk).ownsDir)
      ensures ok && !enabled && !old(bk).ownsDir && old(g).intact ==> Recover(disk) == RecoverBackup(disk)
      ensures g.intact == (old(g).intact && !SealHazard(old(disk), old(aof), old(bk), enabled, e, fsyncOk, linkOk, manifestOk))
      ensures Grows(old(g), g, Scope(data, old(aof).buf, {g.durable}))
    {
      hide Inv, Core, Grows, BackupOk, Artifacts, RotatesSafely, FlushedDisk, FlushedAof, FlushedPromise, RotatedAof, DiskServes, LogOk, ManifestOk, FdOk,
           Sound, Starting, TrailOk, Recoverable, HistOld, NextFree, DiskOk, Recover, RecoverBackup, Released;
      GrowsNot(g, g, Scope(data, aof.buf, {g.durable}));
      OffOwesTheSame(disk, aof, g.durable, e.written);
      FlushedDir(disk, aof, e.written);
      if bk.state != Incrementing { return false; }
      InvParts(disk, aof, child, data, bk, g);
      if g.intact {
        IncrementingFacts(disk, aof, child, data, bk, g);
      }
      if bk.base.None? || aof.manifest.list.base.None? || aof.manifest.list.base.value.name != bk.base.value {
        halted := true;
        return false;
      }
      ghost var g0, a0, d0 := g, aof, disk;
      FlushBuffer(e.written);
      ghost var g1, a1, d1 := g, aof, disk;
      FlushedShape(a0, e.written);
      InvParts(disk, aof, child, data, bk, g);
      if g.intact {
        IncrementingFacts(disk, aof, child, data, bk, g);
        FlushAllIff(d0, a0, child, data, g0.durable, e.written);
        FlushAllIff(d1, a1, child, data, g1.durable, e.written);
      }
      if !fsyncOk {
        OffOwesTheSame(disk, aof, g.durable, e.written);
        SetFailed(e.written);
        ReleasedByFailing(d0, a0, old(bk), g0, disk, aof, g, enabled);
        GrowsTwice(g0, g1, g, Scope(data, a0.buf, OwedUnlessOn(a1, g1.durable)),
                   Scope(data, a1.buf, OwedByStopping(a1, g1.durable) + OwedByFailing(old(bk))), Scope(data, a0.buf, {g.durable}));
        return false;
      }
      if |aof.manifest.list.incrs| != 1 {
        halted := true;
        GrowsMore(g0, g, Scope(data, a0.buf, OwedUnlessOn(a1, g1.durable)), Scope(data, a0.buf, {g.durable}));
        return false;
      }
      ok := PinIncr(e, linkOk, manifestOk);
      GrowsTwice(g0, g1, g, Scope(data, a0.buf, OwedUnlessOn(a1, g1.durable)), Scope(data, a1.buf, {g.durable}), Scope(data, a0.buf, {g.durable}));
      ReleasedFrom(d0, d1, a1, a0, old(bk), old(bk), g1, g0, disk, aof, g, ok, enabled);
      if ok && !enabled {
        SealedLives(d0, a0, old(bk), g0, disk, aof, child, data, bk, g);
      }
    }

    // The middle of BACKUP SEAL: pin the INCR and write the backup's manifest.
    method PinIncr(e: Env, linkOk: bool, manifestOk: bool) returns (ok: bool)
      requires Valid() && bk.state == Incrementing && |aof.manifest.list.incrs| == 1
      modifies this
      ensures Valid() && data == old(data) && enabled == old(enabled) && halted == old(halted)
      ensures bk.state == if ok then Sealed else Failed
      ensures old(g).intact ==> ok == SealCompletes(enabled, e, true, linkOk, manifestOk)
      ensures ok && old(g).intact ==>
                && RecoverBackup(disk) == Some(g.sealed)
                && g.sealed == if enabled then old(g).durable else FlushedPromise(old(disk), old(aof), old(g).durable, e.written)
      ensures ok && enabled && old(g).intact ==>
                && aof == RotatedAof(old(disk), old(aof), true, true) && DiskServes(disk, aof.manifest, old(g).durable)
                && LastIncr(aof.manifest).name in disk.files && aof.fd == Some(disk.files[LastIncr(aof.manifest).name])
                && aof.fd.value in disk.store && disk.store[aof.fd.value] == Log([])
      ensures g.intact == (old(g).intact && if ok then (enabled ==> RotatesSafely(old(disk), old(aof))) else !LosesDir(old(bk), old(aof), enabled))
      ensures Released(old(disk), old(aof), old(bk), old(g), disk, aof, g, ok, enabled)
      ensures Grows(old(g), g, Scope(data, old(aof).buf, {g.durable}))
    {
      hide Inv, Core, Grows, BackupOk, Artifacts, RotatesSafely, FlushedPromise, RotatedAof, DiskServes, LogOk, ManifestOk, Sound, Pinned, Starting, TrailOk,
           Recoverable, HistOld, NextFree, DiskOk, FlushedDisk;
      hide Released;
      InvParts(disk, aof, child, data, bk, g);
      if g.intact {
        IncrementingFacts(disk, aof, child, data, bk, g);
      }
      var n := LastIncr(aof.manifest).name;
      ghost var a0, d0 := aof, disk;
      ghost var j := Scope(data, aof.buf, OwedByStopping(aof, g.durable) + OwedByFailing(bk));
      if !linkOk || n !in disk.files {
        OffOwesTheSame(disk, aof, g.durable, e.written);
        SetFailed(e.written);
        ReleasedByFailing(d0, a0, old(bk), old(g), disk, aof, g, enabled);
        GrowsMore(old(g), g, j, Scope(data, a0.buf, {g.durable}));
        return false;
      }
      if !manifestOk {
        LinkedCore(disk, aof, child, data, g, n);
        disk := Linked(disk, n);
        bk := bk.(incr := Some(n));
        OffOwesTheSame(disk, aof, g.durable, e.written);
        SetFailed(e.written);
        ReleasedByFailing(d0, a0, old(bk), old(g), disk, aof, g, enabled);
        GrowsMore(old(g), g, j, Scope(data, a0.buf, {g.durable}));
        return false;
      }
      AssembledInv(disk, aof, child, data, bk, g, n);
      LinkedLog(disk, aof, n, g.durable, e.written, Some(SealedListing(aof.manifest)));
      disk := Linked(disk, n);
      bk := bk.(incr := Some(n));
      disk := disk.(backupManifest := Some(SealedListing(aof.manifest)));
      bk := bk.(manifest := true);
      g := g.(sealed := g.durable);
      ghost var d1, b1, g1 := disk, bk, g;
      ok := Release(e);
      ReleasedFrom(d0, d1, a0, a0, b1, old(bk), g1, old(g), disk, aof, g, ok, enabled);
      ghost var k := Scope(data, a0.buf, {g.durable});
      GrowsNot(old(g), g1, k);
      GrowsTwice(old(g), g1, g, k, k, k);
    }

    // The end of BACKUP SEAL: let go of the pinned INCR.
    method Release(e: Env) returns (ok: bool)
      requires Assembled(disk, aof, child, data, bk, g) && bk.state == Incrementing && (g.intact ==> !halted)
      modifies this
      ensures Valid() && data == old(data) && enabled == old(enabled) && halted == old(halted)
      ensures bk.state == if ok then Sealed else Failed
      ensures old(g).intact ==> ok == (enabled ==> e.openOk && e.persistOk)
      ensures ok && old(g).intact ==>
                && RecoverBackup(disk) == Some(g.sealed)
                && g.sealed == if enabled then old(g).sealed else FlushedPromise(old(disk), old(aof), old(g).durable, e.written)
      ensures ok && enabled && old(g).intact ==>
                && aof == RotatedAof(old(disk), old(aof), true, true) && DiskServes(disk, aof.manifest, old(g).durable)
                && LastIncr(aof.manifest).name in disk.files && aof.fd == Some(disk.files[LastIncr(aof.manifest).name])
                && aof.fd.value in disk.store && disk.store[aof.fd.value] == Log([])
      ensures g.intact == (old(g).intact && if ok then (enabled ==> RotatesSafely(old(disk), old(aof))) else !LosesDir(old(bk), old(aof), enabled))
      ensures Released(old(disk), old(aof), old(bk), old(g), disk, aof, g, ok, enabled)
      ensures Grows(old(g), g, Scope(data, old(aof).buf, {g.durable}))
    {
      hide Inv, Core, Assembled, Grows, RotatesSafely, FlushedPromise, RotatedAof, DiskServes, DirAfter;
      OffOwesTheSame(disk, aof, g.durable, e.written);
      if enabled {
        ok := RotateAway(e);
      } else {
        ok := true;
        EndTempAof(e.written);
      }
    }

    // With appendonly no: stop the AOF that was on for the backup only.
    method EndTempAof(written: nat)
      requires Assembled(disk, aof, child, data, bk, g) && bk.state == Incrementing && (g.intact ==> !halted) && !enabled
      modifies this
      ensures Valid() && data == old(data) && enabled == old(enabled) && halted == old(halted)
      ensures bk == old(bk).(state := Sealed) && g.intact == old(g).intact && aof.state == Off
      ensures g.intact ==> RecoverBackup(disk) == Some(g.sealed) && g.sealed == FlushedPromise(old(disk), old(aof), old(g).durable, written)
      ensures g.intact ==> g.durable == if old(bk).ownsDir then [] else g.sealed
      ensures DirAfter(old(disk), disk, old(bk).ownsDir)
      ensures Grows(old(g), g, Scope(data, old(aof).buf, {g.durable}))
    {
      hide Inv, Core, Grows, BackupOk, FlushedPromise, DiskServes, LogOk, ManifestOk, Sound, Pinned, FlushedDisk, Starting, HistOld, NextFree, TrailOk,
           Recoverable, FdOk, DiskOk;
      FlushedDir(disk, aof, written);
      ghost var g0, a0, b0 := g, aof, bk;
      PinnedWhenSealed(disk, aof.manifest, b0);
      bk := bk.(state := Sealed);
      StopTempAof(written, true);
      ClosedTail(a0);
      GrowsMore(g0, g, Scope(data, a0.buf, OwedByStopping(a0, g0.durable)), Scope(data, a0.buf, {g.durable}));
      InvParts(disk, aof, child, data, bk, g);
      if g.intact {
        SealedBackup(disk, aof, child, bk, g.sealed);
      }
      if bk.ownsDir {
        ghost var g1, d1 := g, disk;
        RemoveAofDir();
        BackupFrameDir(d1);
        GrowsMore(g0, g1, Scope(data, a0.buf, OwedByStopping(a0, g0.durable)), Scope(data, a0.buf, {g.durable}));
        GrowsTwice(g0, g1, g, Scope(data, a0.buf, {g.durable}), Scope(data, aof.buf, {[]}), Scope(data, a0.buf, {g.durable}));
      }
    }

    // With appendonly yes: rotate, so that the pinned INCR gets no more writes.
    method RotateAway(e: Env) returns (ok: bool)
      requires Assembled(disk, aof, child, data, bk, g) && bk.state == Incrementing && (g.intact ==> !halted) && enabled
      modifies this
      ensures Valid() && data == old(data) && enabled == old(enabled) && halted == old(halted)
      ensures bk.state == if ok then Sealed else Failed
      ensures old(g).intact ==> ok == (e.openOk && e.persistOk)
      ensures ok && old(g).intact ==>
                && RecoverBackup(disk) == Some(g.sealed) && g.sealed == old(g).sealed
                && aof == RotatedAof(old(disk), old(aof), true, true) && DiskServes(disk, aof.manifest, old(g).durable)
                && LastIncr(aof.manifest).name in disk.files && aof.fd == Some(disk.files[LastIncr(aof.manifest).name])
                && aof.fd.value in disk.store && disk.store[aof.fd.value] == Log([])
      ensures g.intact == (old(g).intact && if ok then RotatesSafely(old(disk), old(aof)) else !LosesDir(old(bk), old(aof), enabled))
      ensures !ok ==> DirAfter(old(disk), disk, old(bk).ownsDir)
      ensures ok ==> forall n <- old(disk).files :: n in disk.files && disk.files[n] == old(disk).files[n]
      ensures ok && aof.state == On ==> disk.manifest == Some(NewIncr(old(aof).manifest).list)
      ensures g.durable == if !ok && old(bk).ownsDir then [] else old(g).durable
      ensures Grows(old(g), g, Scope(data, old(aof).buf, {g.durable}))
    {
      hide Inv, Core, Grows, BackupOk, RotatesSafely, RotatedAof, RotatedDisk, DiskServes, LogOk, ManifestOk, Sound, Pinned, Starting, HistOld, NextFree,
           TrailOk, Recoverable, FdOk, DiskOk;
      ghost var g0, a0, d0, b0 := g, aof, disk, bk;
      RotatedDir(d0, a0, e.openOk, e.persistOk);
      RotatedFiles(d0, a0, e.openOk, e.persistOk);
      ok := RotateIncr(e.openOk, e.persistOk);
      ghost var g1, a1 := g, aof;
      if !ok {
        SetFailed(e.written);
        GrowsTwice(g0, g1, g, Scope(data, a0.buf, OwedUnlessOn(a1, g1.durable)),
                   Scope(data, a1.buf, OwedByStopping(a1, g1.durable) + OwedByFailing(b0)), Scope(data, a0.buf, {g.durable}));
        return;
      }
      if aof.state == On {
        SealedByRotation(d0, a0, child, data, bk, g0, g, e.openOk, e.persistOk);
        if g0.intact {
          RotatedServes(d0, a0, child, data, g0);
        }
      } else {
        InvOf(disk, aof, child, data, bk.(state := Sealed), g);
      }
      bk := bk.(state := Sealed);
      GrowsMore(g0, g, Scope(data, a0.buf, OwedUnlessOn(aof, g.durable)), Scope(data, a0.buf, {g.durable}));
    }

    // backupStartPendingSnapshot.
    method StartPending(e: Env) returns (ok: bool)
      requires Valid()
      modifies this
      ensures Valid() && data == old(data) && enabled == old(enabled) && gcDisabled == old(gcDisabled) && rdbPreamble == old(rdbPreamble)
      ensures old(bk).state != Pending ==> ok && bk == old(bk) && disk == old(disk) && aof == old(aof) && child == old(child) && g == old(g)
      ensures old(bk).state == Pending ==>
                Started(old(disk), old(aof), old(child), old(bk), old(scheduled), data, old(g), e, ok, disk, aof, child, bk, g)
      ensures g.intact == (old(g).intact && !PendingHazard(old(disk), old(aof), old(child), old(bk), enabled, e))
      ensures Grows(old(g), g, Scope(data, old(aof).buf, {old(g).durable, g.durable}))
    {
      hide Inv, Core, Grows, BackupOk, TrailOk, Recover, Recoverable, Sound, FdOk, LogOk, DiskServes, ManifestOk, ForkHazard, ForkingDisk, ForkingAof,
           FlushedPromise, FlushedDisk, FlushedAof, Starting, Tail, DiskOk, HistOld, NextFree, Artifacts, Pinned, AfterChild;
      ForkHazardOnlyOn(disk, aof, e);
      GrowsNot(g, g, Scope(data, aof.buf, {g.durable, g.durable}));
      if bk.state != Pending { return true; }
      if child.AofChild? {
        if aof.state != Off {
          SnapshottingInv(disk, aof, child, data, bk, g);
          bk := bk.(state := Snapshotting);
        }
        return true;
      }
      if child != NoChild { return true; }
      ghost var g0, a0 := g, aof;
      ForkingShape(disk, aof, e);
      ForkingShape(disk, aof.(state := WaitRewrite), e);
      ok := StartSnapshot(e);
      ghost var g1, a1, b1 := g, aof, bk;
      InvParts(disk, aof, child, data, bk, g);
      if !ok || !child.AofChild? {
        OffOwesTheSame(disk, aof, g.durable, e.written);
        SetFailed(e.written);
        GrowsTwice(g0, g1, g, Scope(data, a0.buf, OwedUnlessOn(a0, g1.durable)), Scope(data, a1.buf, OwedByStopping(a1, g1.durable) + OwedByFailing(b1)),
                   Scope(data, a0.buf, {g0.durable, g.durable}));
        return false;
      }
      SnapshottingInv(disk, aof, child, data, bk, g);
      bk := bk.(state := Snapshotting);
      GrowsMore(g0, g, Scope(data, a0.buf, OwedUnlessOn(a0, g.durable)), Scope(data, a0.buf, {g0.durable, g.durable}));
    }

    // Turn AOF on for a backup, or start a rewrite if it is on.
    method StartSnapshot(e: Env) returns (ok: bool)
      requires Valid() && bk.state == Pending && child == NoChild
      modifies this`disk, this`aof, this`child, this`bk, this`scheduled, this`g
      ensures Valid() && g.sealed == old(g).sealed && (aof.state != On ==> g.durable == old(g).durable)
      ensures bk == old(bk).(ownsDir := if old(aof).state == Off then old(disk).files == map[] && old(disk).manifest.None? && !old(scheduled)
                                        else old(bk).ownsDir)
      ensures ok == (e.forkOk && (if old(aof).state == Off then e.openOk else Rotates(old(aof), e)))
      ensures child == if ok then AofChild(data) else NoChild
      ensures old(aof).state == Off ==> aof.state == (if ok then WaitRewrite else Off) && (ok ==> TempIncrName in disk.files)
      ensures var from := if old(aof).state == Off then old(aof).(state := WaitRewrite) else old(aof);
              disk == ForkingDisk(old(disk), from, e) && aof == ForkingAof(old(disk), from, e).(state := aof.state)
      ensures old(aof).state != Off ==> aof.state == old(aof).state
      ensures old(g).intact ==> old(g).durable <= g.durable && (old(aof).state != On ==> g.durable == old(g).durable)
      ensures Tail(aof.buf, old(aof).buf)
      ensures g.intact == (old(g).intact && !(old(aof).state == On && ForkHazard(old(disk), old(aof), e)))
      ensures Grows(old(g), g, Scope(data, old(aof).buf, OwedUnlessOn(old(aof), g.durable)))
    {
      hide Inv, Core, Grows, BackupOk, Sound, LogOk, DiskServes, ManifestOk, ForkHazard, ForkingDisk, ForkingAof, LeavesGap, Tail, FlushedAof, FlushedPromise;
      ForkingShape(disk, aof, e);
      ForkingShape(disk, aof.(state := WaitRewrite), e);
      ForkHazardOnlyOn(disk, aof, e);
      OffOwesTheSame(disk, Unselected(aof), g.durable, e.written);
      if aof.state == Off {
        var owns := disk.files == map[] && disk.manifest.None? && !scheduled;
        OwnsInv(disk, aof, child, data, bk, owns, g);
        bk := bk.(ownsDir := owns);
        ok := Start(e, false);
      } else {
        ok := RewriteBackground(e);
      }
    }

    // BACKUP START.
    method StartBackup(e: Env, inExec: bool) returns (ok: bool)
      requires Valid()
      modifies this
      ensures Valid() && data == old(data) && enabled == old(enabled) && gcDisabled == old(gcDisabled) && rdbPreamble == old(rdbPreamble)
      ensures !MayStart(old(disk), old(bk)) ==> !ok && bk == old(bk) && disk == old(disk) && aof == old(aof) && g == old(g)
      ensures MayStart(old(disk), old(bk)) && inExec ==>
                ok && bk == NO_BACKUP.(state := Pending) && disk == old(disk) && aof == old(aof) && child == old(child) && g == old(g)
      ensures MayStart(old(disk), old(bk)) && !inExec ==>
                Started(old(disk), old(aof), old(child), NO_BACKUP.(state := Pending), old(scheduled), data, old(g), e, ok, disk, aof, child, bk, g)
      ensures g.intact == (old(g).intact && !(MayStart(old(disk), old(bk)) && !inExec
                && PendingHazard(old(disk), old(aof), old(child), NO_BACKUP.(state := Pending), enabled, e)))
      ensures Grows(old(g), g, Scope(data, old(aof).buf, {old(g).durable, g.durable}))
    {
      hide Inv, Core, Grows, BackupOk, PendingHazard, ForkingAof, Sound, LogOk, DiskServes, Started;
      GrowsNot(g, g, Scope(data, aof.buf, {g.durable, g.durable}));
      if InProgress(bk.state) || bk.state == Sealed { return false; }
      if disk.backup != map[] || disk.backupManifest.Some? { return false; }
      InvParts(disk, aof, child, data, bk, g);
      BackupStateInv(disk, aof, child, data, bk, NO_BACKUP.(state := Pending), g);
      bk := NO_BACKUP.(state := Pending);
      ok := true;
      if !inExec {
        ok := StartPending(e);
      }
    }

    // BACKUP ABORT.
    method AbortBackup(e: Env) returns (ok: bool)
      requires Valid()
      modifies this
      ensures Valid() && data == old(data) && enabled == old(enabled)
      ensures ok == InProgress(old(bk).state)
      ensures ok ==> bk == NO_BACKUP.(state := Failed) && disk.backup == map[] && disk.backupManifest.None? && scheduled == old(scheduled)
      // The directory goes with a backup that owned it, and with nothing else; an AOF that was on
      // for the backup only is stopped, the user's own is left as it is.
      ensures ok ==> DirAfter(old(disk), disk, old(bk).ownsDir)
      ensures ok && enabled ==> aof == old(aof).(manifest := aof.manifest) && child == old(child) && disk.store == old(disk).store
      ensures ok && enabled && !old(bk).ownsDir ==> disk == NoBackupDir(old(disk)) && aof == old(aof) && g == old(g)
      ensures ok && !enabled ==> aof.state == Off
      ensures ok && old(g).intact ==>
                if old(bk).ownsDir then g.durable == [] else old(g).durable <= g.durable && (old(aof).state != On ==> g.durable == old(g).durable)
      ensures !ok ==> disk == old(disk) && aof == old(aof) && g == old(g)
      ensures g.intact == (old(g).intact && !LosesDir(old(bk), old(aof), enabled))
      ensures Grows(old(g), g, Scope(data, old(aof).buf, {old(g).durable, g.durable}))
    {
      hide Inv, Core, Grows, BackupOk, Sound, LogOk, DiskServes, FlushedPromise, FlushedDisk;
      GrowsNot(g, g, Scope(data, aof.buf, {g.durable, g.durable}));
      if !InProgress(bk.state) { return false; }
      OffOwesTheSame(disk, aof, g.durable, e.written);
      InvParts(disk, aof, child, data, bk, g);
      ghost var g0, a0, b0 := g, aof, bk;
      SetFailed(e.written);
      GrowsMore(g0, g, Scope(data, a0.buf, OwedByStopping(a0, g0.durable) + OwedByFailing(b0)), Scope(data, a0.buf, {g0.durable, g.durable}));
      return true;
    }

    // BACKUP CLEANUP, and the automatic one after the time to live.
    method CleanupBackup() returns (ok: bool)
      requires Valid()
      modifies this`disk, this`bk
      ensures Valid()
      ensures ok == !InProgress(old(bk).state)
      ensures ok ==> bk == NO_BACKUP && disk == NoBackupDir(old(disk))
      ensures !ok ==> bk == old(bk) && disk == old(disk)
    {
      hide Inv, Core;
      if InProgress(bk.state) { return false; }
      InvParts(disk, aof, child, data, bk, g);
      RemoveBackupInv(disk, aof, child, data, bk, NO_BACKUP, g);
      disk := NoBackupDir(disk);
      bk := NO_BACKUP;
      return true;
    }

    // Another kind of child starts or exits.
    method OtherChildStep(starts: bool)
      requires Valid() && child == if starts then NoChild else OtherChild
      modifies this`child
      ensures Valid() && child == if starts then OtherChild else NoChild
    {
      hide Inv;
      OtherChildInv(disk, aof, child, if starts then OtherChild else NoChild, data, bk, g);
      child := if starts then OtherChild else NoChild;
    }

    // CONFIG SET aof-disable-auto-gc.
    method SetGc(disabled: bool, persistOk: bool)
      requires Valid()
      modifies this
      ensures Valid() && g.intact == old(g).intact && g.durable == old(g).durable && data == old(data)
      ensures gcDisabled == disabled && aof == old(aof).(manifest := CollectedManifest(old(aof).manifest, disabled))
      ensures bk == old(bk) && child == old(child) && enabled == old(enabled) && scheduled == old(scheduled)
      ensures disk == CollectedDisk(old(disk), old(aof).manifest, disabled, persistOk)
      ensures Grows(old(g), g, Scope(data, old(aof).buf, {g.durable}))
    {
      hide Inv, Core, Grows, HistoryGone, DiskServes, Sound, TrailOk, LogOk, BackupOk, CollectedDisk, CollectedManifest, Recoverable, Accounts;
      ghost var k := Scope(data, aof.buf, {g.durable});
      GrowsNot(g, g, k);
      gcDisabled := disabled;
      CollectNot(disk, aof.manifest, persistOk);
      if !disabled {
        ghost var d, a, g0 := disk, aof, g;
        InvParts(disk, aof, child, data, bk, g);
        RecoverableParts(disk, aof, data, g, aof.state == On);
        DeleteHistory(persistOk, aof.state == On);
        CollectedGone(d, a.manifest, disabled, persistOk);
        HistoryGoneInv(d, a, child, data, bk, g0, disk, aof.manifest, g);
        GrowsMore(g0, g, Scope(data, a.buf, if a.state == On then {} else {g.durable}), k);
      }
    }

    // The process is gone in the middle of an operation: the disk is that of a crash point,
    // what was to come after it never happens, and memory is lost.
    method CrashAt(point: nat)
      requires Valid() && point < |g.trail|
      modifies this`disk, this`aof, this`child, this`bk, this`scheduled, this`g
      ensures Valid() && disk == old(g).trail[point].disk
      ensures g == Oath(old(g).trail[point].promise, [], old(g).intact, old(g).trail[..point + 1])
      ensures g.intact ==> Recover(disk) == Some(g.durable)
    {
      hide Inv, Core, DiskOk, DiskServes, Loaded;
      InvParts(disk, aof, child, data, bk, g);
      var p := g.trail[point];
      assert PointOk(p);
      ghost var m :| DiskServes(p.disk, m, p.promise);
      LoadedServes(p.disk, m, p.promise);
      var none := WithoutHistory(Loaded(p.disk).value);
      ForgetHistoryServes(p.disk, Loaded(p.disk).value, p.promise);
      disk := p.disk;
      aof := Aof(none, Off, None, [], UNSELECTED);
      child, bk, scheduled := NoChild, NO_BACKUP, false;
      g := Oath(p.promise, [], g.intact, g.trail[..point + 1]);
      BootStarting(disk, none, data, g);
      StartedInv(disk, aof, child, data, bk, g);
    }

    // A start after a crash: memory is lost, the disk is what it was. Without AOF the
    // dataset comes from elsewhere. A start that cannot load gives up.
    method Restart(appendonly: bool, gcOff: bool, rdbData: Dataset, gcPersistOk: bool) returns (up: bool)
      requires Valid()
      modifies this
      ensures Valid() && enabled == appendonly && gcDisabled == gcOff && rdbPreamble == old(rdbPreamble)
      ensures g.intact == (old(g).intact && RestartsSafely(old(disk), enabled, gcDisabled))
      ensures g.durable == old(g).durable
      ensures old(g).intact ==> up
      ensures up ==> aof.state == (if enabled then On else Off) && aof.buf == [] && bk == NO_BACKUP && child == NoChild && !scheduled
      ensures up && old(g).intact ==> data == if enabled then old(g).durable else rdbData
      // What the start leaves on disk recovers what it loaded exactly when StartKeeps says so.
      ensures up && enabled && old(g).intact ==> (Recover(disk) == Some(data) <==> StartKeeps(old(disk), gcDisabled))
      ensures up ==> Grows(old(g), g, Scope(data, [], {g.durable}))
      ensures !up ==> g.trail == old(g).trail
    {
      hide Inv, Core, Starting, Grows, TrailOk, DiskServes, Recover, HistoryGone, Sound, RestartsSafely, StartKeeps, Loaded, OpenedDisk, StartManifest,
           CollectedDisk, CollectedManifest, LogOk, ManifestOk, Recoverable, Accounts, Blank, HistOld, FdOk, DiskOk;
      enabled, gcDisabled := appendonly, gcOff;
      up := Load(rdbData);
      if !up { return; }
      ghost var g1, d1 := g, disk;
      if enabled && g.intact {
        SafeStart(disk, g.durable, gcDisabled);
      }
      OpenAndCollect(gcPersistOk);
      GrowsNot(old(g), g1, Scope(data, [], {g.durable}));
      GrowsTwice(old(g), g1, g, Scope(data, [], {g.durable}), Scope(data, [], {g.durable}), Scope(data, [], {g.durable}));
      if g.intact {
        StartedHistOld(d1, g1.durable, enabled, gcDisabled, rdbPreamble);
      }
      StartedInv(disk, aof, child, data, bk, g);
      if enabled && old(g).intact {
        StartKeepsIff(d1, old(g).durable, rdbPreamble, gcDisabled, gcPersistOk);
      }
    }

    // Open the INCR if AOF is on, then delete history.
    method OpenAndCollect(gcPersistOk: bool)
      requires Starting(disk, aof, child, data, g) && child == NoChild && aof == Aof(aof.manifest, Off, None, [], UNSELECTED)
      requires forall i <- aof.manifest.list.incrs :: i.name.IncrName?
      requires g.intact && enabled ==> data == g.durable
      requires g.intact && enabled && aof.manifest.list.incrs == [] ==>
                 NextFree(aof.manifest)
                 && (IncrName(aof.manifest.incrSeq + 1) in disk.files ==> Blank(disk, IncrName(aof.manifest.incrSeq + 1)))
      modifies this`disk, this`aof, this`g
      ensures Starting(disk, aof, child, data, g) && g == old(g).(trail := g.trail)
      ensures var m := if enabled then StartManifest(old(aof).manifest, rdbPreamble) else old(aof).manifest;
              var d := if enabled then OpenedDisk(old(disk), old(aof).manifest, rdbPreamble, data) else old(disk);
              && aof == Aof(CollectedManifest(m, gcDisabled), if enabled then On else Off, aof.fd, [], UNSELECTED)
              && disk == CollectedDisk(d, m, gcDisabled, gcPersistOk)
      ensures Grows(old(g), g, Scope(data, [], {g.durable}))
    {
      hide Starting, Grows, TrailOk, DiskServes, HistoryGone, Sound, OpenedDisk, StartManifest, CollectedDisk, CollectedManifest, LogOk, ManifestOk,
           Recoverable, Accounts, Blank, FdOk, DiskOk;
      ghost var k := Scope(data, [], {g.durable});
      GrowsNot(g, g, k);
      if enabled {
        OpenAtStart();
      }
      ghost var d2, g2, a2 := disk, g, aof;
      StartingParts(disk, aof, child, data, g);
      RecoverableParts(disk, aof, data, g, aof.state == On);
      DeleteHistory(gcPersistOk, aof.state == On);
      GrowsMore(g2, g, Scope(data, aof.buf, if aof.state == On then {} else {g.durable}), k);
      GrowsTwice(old(g), g2, g, k, k, k);
      CollectedGone(d2, a2.manifest, gcDisabled, gcPersistOk);
      HistoryGoneStarting(d2, a2, child, data, g2, disk, aof.manifest, g);
    }

    // aofLoadManifestFromDisk and loadDataFromDisk.
    method Load(rdbData: Dataset) returns (up: bool)
      requires Valid()
      modifies this`aof, this`child, this`data, this`bk, this`scheduled, this`halted, this`g
      ensures g == old(g).(intact := g.intact) && g.intact == (old(g).intact && RestartsSafely(disk, enabled, gcDisabled))
      ensures old(g).intact ==> up && DiskOk(disk) && DiskServes(disk, Loaded(disk).value, g.durable)
      ensures !up ==> Valid()
      ensures up ==> Starting(disk, aof, child, data, g) && (g.intact ==> !halted)
      ensures up ==> Loaded(disk).Some? && aof == Aof(Loaded(disk).value, Off, None, [], UNSELECTED)
      ensures up ==> bk == NO_BACKUP && child == NoChild && !scheduled
      ensures up ==> if enabled then Recover(disk) == Some(data) else data == rdbData
      ensures old(g).intact && enabled ==> data == g.durable
    {
      hide Inv, Core, TrailOk, DiskServes, Recover, RestartsSafely, LogOk, ManifestOk, Loaded;
      InvParts(disk, aof, child, data, bk, g);
      if g.intact {
        LoadedServes(disk, aof.manifest, g.durable);
        ServesRecover(disk, aof.manifest, g.durable);
      }
      var m, r := Loaded(disk), Recover(disk);
      if m.None? || (enabled && r.None?) {
        halted := true;
        return false;
      }
      g := g.(intact := g.intact && RestartsSafely(disk, enabled, gcDisabled));
      data := if enabled then r.value else rdbData;
      child, bk, scheduled := NoChild, NO_BACKUP, false;
      BootStarting(disk, m.value, data, g);
      aof := Aof(m.value, Off, None, [], UNSELECTED);
      return true;
    }

    // aofOpenIfNeededOnServerStart.
    method OpenAtStart()
      requires Starting(disk, aof, child, data, g) && child == NoChild && aof == Aof(aof.manifest, Off, None, [], UNSELECTED)
      requires forall i <- aof.manifest.list.incrs :: i.name.IncrName?
      requires g.intact ==> data == g.durable
      requires g.intact && aof.manifest.list.incrs == [] ==>
                 NextFree(aof.manifest)
                 && (IncrName(aof.manifest.incrSeq + 1) in disk.files ==> Blank(disk, IncrName(aof.manifest.incrSeq + 1)))
      modifies this`disk, this`aof, this`g
      ensures Starting(disk, aof, child, data, g) && g == old(g).(trail := g.trail)
      ensures aof == Aof(StartManifest(old(aof).manifest, rdbPreamble), On, aof.fd, [], UNSELECTED)
      ensures disk == OpenedDisk(old(disk), old(aof).manifest, rdbPreamble, data)
      ensures disk.backup == old(disk).backup && disk.backupManifest == old(disk).backupManifest
      ensures Grows(old(g), g, Scope(data, [], {g.durable}))
    {
      hide Starting, Grows, DiskOk, TrailOk, DiskServes, Recover, Sound, CreateEmpty, Read, LogOk, ManifestOk, Recoverable, Blank, NextFree;
      var m0, m := aof.manifest, StartManifest(aof.manifest, rdbPreamble);
      ghost var k := Scope(data, [], {g.durable});
      StartingParts(disk, aof, child, data, g);
      StartIncrName(m0, rdbPreamble);
      StartDiskServes(disk, m0, g.durable, rdbPreamble, data);
      StartKeepsBlank(disk, m0, rdbPreamble, data);
      disk := StartDisk(disk, m0, rdbPreamble, data);
      StartRecoverable(disk, aof, data, g);
      Record(false);
      ghost var g1 := g;
      var n := LastIncr(m).name;
      var o := OpenForAppend(disk, n);
      OpenForAppendOk(disk, n);
      if g.intact {
        Opened(disk, m0, g.durable, rdbPreamble);
      }
      disk := o.0;
      StartRecoverable(disk, aof, data, g);
      Record(false);
      ghost var g2 := g;
      GrowsTwice(old(g), g1, g2, k, k, k);
      ListOk(disk, m, o.1);
      disk := ListDisk(disk, m);
      StartedStarting(disk, m, o.1, data, g);
      aof := Aof(m, On, Some(o.1), [], UNSELECTED);
      StartingParts(disk, aof, child, data, g);
      Record(true);
      GrowsMore(g2, g, Scope(data, [], {}), k);
      GrowsTwice(old(g), g2, g, k, k, k);
    }
  }
}
