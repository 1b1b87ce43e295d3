/**
 * The steps of BACKUP, of turning the append-only file off, and of restarting after
 * a crash.
 */
module AofBackup {
  import opened Prelude
  import opened AofLog
  import opened AofDisk
  import opened AofInvariant
  import opened AofSteps
  import opened AofRewrite

  predicate InProgress(b: BackupState) {
    b == Pending || b == Snapshotting || b == Incrementing
  }

  lemma InProgressIs(b: BackupState)
    ensures InProgress(b) ==> b != Sealed
  {
  }

  // A failing backup removes a directory that CONFIG SET appendonly yes made the user's own.
  predicate LosesDir(b: Backup, a: Aof, enabled: bool) {
    InProgress(b.state) && b.ownsDir && enabled && a.state == On
  }

  const NO_BACKUP := Backup(Idle, None, None, false, false)

  // ---------- closing the log ----------

  function Closed(a: Aof): Aof {
    a.(state := Off, fd := None, buf := [], selected := UNSELECTED)
  }

  lemma ClosedTail(a: Aof)
    ensures Tail(Closed(a).buf, a.buf) && Tail(a.buf, a.buf)
  {
  }

  lemma ClosedCore(d: Disk, a: Aof, child: Child, child': Child, data: Dataset, g: Oath)
    requires Core(d, a, child, data, g)
    ensures Core(d, Closed(a), child', data, g)
  {
    hide DiskServes, DiskOk, TrailOk;
  }

  // Closing the log finishes or freezes every backup that was not in progress.
  lemma ClosedBackupOk(d: Disk, a: Aof, child: Child, b: Backup, sealed: Dataset)
    requires !InProgress(b.state) && (b.state == Sealed ==> Artifacts(d, a.manifest, b, sealed))
    ensures BackupOk(d, Closed(a), child, b, sealed)
  {
  }

  lemma BackupIdle(d: Disk, a: Aof, child: Child, data: Dataset, b: Backup, g: Oath)
    requires Core(d, a, child, data, g) && (b.state == Failed || b.state == Idle)
    ensures Inv(d, a, child, data, b, g)
  {
  }

  lemma SealedArtifacts(d: Disk, a: Aof, child: Child, b: Backup, sealed: Dataset)
    requires BackupOk(d, a, child, b, sealed) && b.state == Sealed
    ensures Artifacts(d, a.manifest, b, sealed)
  {
  }

  // ---------- removing directories ----------

  function NoAofDir(d: Disk): Disk {
    d.(files := map[], manifest := None)
  }

  // Unless AOF is on, removing the whole append-only directory leaves an empty promise.
  lemma RemoveDirInv(d: Disk, a: Aof, child: Child, data: Dataset, b: Backup, g: Oath)
    requires Inv(d, a, child, data, b, g) && !InProgress(b.state)
    ensures Inv(NoAofDir(d), a.(manifest := EMPTY_MANIFEST), child, data, b,
                g.(durable := [], intact := g.intact && a.state != On))
  {
    hide TrailOk;
    if g.intact && b.state == Sealed {
      BackupFrame(d, NoAofDir(d));
    }
  }

  function NoBackupDir(d: Disk): Disk {
    d.(backup := map[], backupManifest := None)
  }

  lemma RemoveBackupInv(d: Disk, a: Aof, child: Child, data: Dataset, b: Backup, b': Backup, g: Oath)
    requires Core(d, a, child, data, g) && (b'.state == Failed || b'.state == Idle || b'.state == Pending)
    ensures Inv(NoBackupDir(d), a, child, data, b', g)
  {
    hide LogOk;
    NoBackupCore(d, a, child, data, g);
  }

  lemma NoBackupCore(d: Disk, a: Aof, child: Child, data: Dataset, g: Oath)
    requires Core(d, a, child, data, g)
    ensures Core(NoBackupDir(d), a, child, data, g)
  {
    if g.intact {
      ServesFrame(d, NoBackupDir(d), a.manifest, g.durable);
    }
  }

  // ---------- pinning ----------

  // Hard-linking a live file into the backup directory.
  function Linked(d: Disk, n: Name): Disk
    requires n in d.files
  {
    d.(backup := d.backup[n := d.files[n]])
  }

  lemma LinkedCore(d: Disk, a: Aof, child: Child, data: Dataset, g: Oath, n: Name)
    requires Core(d, a, child, data, g) && n in d.files
    ensures Core(Linked(d, n), a, child, data, g)
  {
    if g.intact {
      ServesFrame(d, Linked(d, n), a.manifest, g.durable);
    }
  }

  // The snapshot is pinned: the backup starts accumulating writes.
  lemma SnapshotPinned(d: Disk, a: Aof, gone: Child, data: Dataset, b: Backup, g: Oath)
    requires AfterChild(d, a, gone, data, b, g) && b.state == Snapshotting
    requires a.manifest.list.base.Some? && a.manifest.list.base.value.name in d.files
    requires g.intact ==> a.state == On && |a.manifest.list.incrs| == 1
    ensures var n := a.manifest.list.base.value.name;
            Inv(Linked(d, n), a, NoChild, data, b.(state := Incrementing, base := Some(n)), g)
  {
    hide LogOk, DiskServes, DiskOk;
    LinkedCore(d, a, NoChild, data, g, a.manifest.list.base.value.name);
  }

  // ---------- sealing ----------

  function SealedListing(m: Manifest): Listing
    requires m.list.incrs != []
  {
    Listing(m.list.base, [], [LastIncr(m)])
  }

  // What the seal command has pinned: the BASE and the one INCR of the live manifest.
  ghost predicate Pinned(d: Disk, m: Manifest, b: Backup) {
    && |m.list.incrs| == 1 && m.list.base.Some?
    && b.base == Some(m.list.base.value.name) && b.incr == Some(LastIncr(m).name) && b.manifest
    && b.base.value in d.files && b.incr.value in d.files
    && d.backup == map[b.base.value := d.files[b.base.value], b.incr.value := d.files[b.incr.value]]
    && d.backupManifest == Some(SealedListing(m))
  }

  // The pinned BASE and INCR recover exactly what the live files do.
  lemma SealRecovers(d: Disk, m: Manifest, b: Backup, durable: Dataset)
    requires DiskServes(d, m, durable) && Pinned(d, m, b)
    ensures RecoverBackup(d) == Some(durable)
  {
    var l := SealedListing(m);
    RecoverFrame(m.list, d.manifest.value, d.files, d.store, d.files, d.store);
    assert l.incrs == m.list.incrs;
    forall x: Name | LiveName(m.list, x)
      ensures Read(d.files, d.store, x) == Read(d.backup, d.store, x)
    {
    }
    RecoverFrame(m.list, l, d.files, d.store, d.backup, d.store);
  }

  lemma SealArtifacts(d: Disk, m: Manifest, b: Backup, durable: Dataset)
    requires DiskOk(d) && DiskServes(d, m, durable) && Pinned(d, m, b)
    ensures Artifacts(d, m, b, durable)
  {
    SealRecovers(d, m, b, durable);
    forall n <- d.files | d.files[n] in d.backup.Values
      ensures !n.TempIncrName? && n.num <= if n.BaseName? then m.baseSeq else m.incrSeq
    {
      assert n == b.base.value || n == b.incr.value;
    }
  }

  lemma BackupManifestCore(d: Disk, a: Aof, child: Child, data: Dataset, g: Oath, l: Option<Listing>)
    requires Core(d, a, child, data, g)
    ensures Core(d.(backupManifest := l), a, child, data, g)
  {
    if g.intact {
      ServesFrame(d, d.(backupManifest := l), a.manifest, g.durable);
    }
  }

  // ---------- turning the log on ----------

  // A child forked while AOF was off, and a temporary INCR that does not have what happened
  // since: together they would make a log with a gap.
  predicate LeavesGap(d: Disk, a: Aof, child: Child, data: Dataset) {
    child.AofChild? && TempIncrName in d.files && !CatchesUp(d, a, child, data)
  }

  lemma WaitInv(d: Disk, a: Aof, child: Child, data: Dataset, b: Backup, g: Oath)
    requires Inv(d, a, child, data, b, g) && a.state == Off
    ensures Inv(d, a.(state := WaitRewrite), child, data, b, g.(intact := g.intact && !LeavesGap(d, a, child, data)))
  {
    hide DiskServes, DiskOk, PinsOld, TrailOk;
  }

  lemma OffInv(d: Disk, a: Aof, child: Child, data: Dataset, b: Backup, g: Oath)
    requires Inv(d, a, child, data, b, g) && a.state == WaitRewrite && child == NoChild
    ensures Inv(d, a.(state := Off), child, data, b, g)
  {
    hide DiskServes, DiskOk, PinsOld, TrailOk;
  }

  lemma ForgetChildInv(d: Disk, a: Aof, child: Child, data: Dataset, b: Backup, g: Oath)
    requires Inv(d, a, child, data, b, g) && a.state == Off
    ensures Inv(d, a, NoChild, data, b, g)
  {
    hide DiskServes, DiskOk, PinsOld, TrailOk;
  }

  // ---------- the end of a rewrite ----------

  lemma RewrittenBase(a: Aof, rdb: bool)
    ensures RewrittenManifest(a, rdb).list.base.Some?
  {
  }

  lemma NotSnapshotting(d: Disk, a: Aof, gone: Child, data: Dataset, b: Backup, g: Oath)
    requires AfterChild(d, a, gone, data, b, g) && b.state != Snapshotting
    ensures Inv(d, a, NoChild, data, b, g)
  {
    hide Core, PinsOld;
  }

  // The rewrite a backup waits for leaves exactly one INCR.
  lemma SnapshottingKeepsOne(d: Disk, a: Aof, child: Child, data: Dataset, b: Backup, g: Oath, rdb: bool)
    requires Inv(d, a, child, data, b, g) && g.intact && child.AofChild?
    ensures b.state == Snapshotting ==> a.state != Off
    ensures a.state == On || (a.state == WaitRewrite && TempIncrName in d.files) ==> |RewrittenManifest(a, rdb).list.incrs| == 1
  {
    hide RewrittenManifest, DiskServes, TrailOk;
    InvParts(d, a, child, data, b, g);
    RewrittenManifestOk(a, rdb);
  }

  lemma BasePresent(d: Disk, a: Aof, child: Child, data: Dataset, b: Backup, g: Oath)
    requires Inv(d, a, child, data, b, g) && g.intact
    ensures a.manifest.list.base.Some? ==> a.manifest.list.base.value.name in d.files
  {
    if a.manifest.list.base.Some? {
      var l := d.manifest.value;
      assert LiveName(l, l.base.value.name);
      LiveFilesReadable(l, d.files, d.store, l.base.value.name);
    }
  }

  // While a backup accumulates writes, AOF is on with one INCR on the pinned BASE: the
  // assertions of the seal command hold.
  lemma IncrementingFacts(d: Disk, a: Aof, child: Child, data: Dataset, b: Backup, g: Oath)
    requires Inv(d, a, child, data, b, g) && g.intact && b.state == Incrementing
    ensures a.state == On && a.fd.Some? && !child.AofChild?
    ensures |a.manifest.list.incrs| == 1 && LastIncr(a.manifest).name in d.files
    ensures a.manifest.list.base.Some? && b.base == Some(a.manifest.list.base.value.name)
  {
  }

  // What the seal command has assembled before it lets go of the INCR.
  ghost predicate Assembled(d: Disk, a: Aof, child: Child, data: Dataset, b: Backup, g: Oath) {
    && Core(d, a, child, data, g)
    && (g.intact ==> g.sealed == g.durable && a.state == On && !child.AofChild? && Pinned(d, a.manifest, b))
  }

  lemma AssembledInv(d: Disk, a: Aof, child: Child, data: Dataset, b: Backup, g: Oath, n: Name)
    requires Inv(d, a, child, data, b, g) && b.state == Incrementing && a.manifest.list.incrs != []
    requires n == LastIncr(a.manifest).name && n in d.files
    ensures var d' := Linked(d, n).(backupManifest := Some(SealedListing(a.manifest)));
            Assembled(d', a, child, data, b.(incr := Some(n), manifest := true), g.(sealed := g.durable))
  {
    hide Starting, LogOk, DiskServes, DiskOk, TrailOk;
    LinkedCore(d, a, child, data, g, n);
    BackupManifestCore(Linked(d, n), a, child, data, g, Some(SealedListing(a.manifest)));
    StartingSealed(Linked(d, n).(backupManifest := Some(SealedListing(a.manifest))), a, child, data, g, g.durable);
  }

  // The sealed promise plays no part in the log.
  lemma StartingSealed(d: Disk, a: Aof, child: Child, data: Dataset, g: Oath, sealed: Dataset)
    ensures Core(d, a, child, data, g.(sealed := sealed)) == Core(d, a, child, data, g)
  {
  }

  lemma AssembledArtifacts(d: Disk, a: Aof, child: Child, data: Dataset, b: Backup, g: Oath)
    requires Assembled(d, a, child, data, b, g) && g.intact
    ensures Artifacts(d, a.manifest, b, g.sealed)
  {
    hide Pinned, DiskServes, DiskOk, Artifacts;
    CoreParts(d, a, child, data, g);
    SealArtifacts(d, a.manifest, b, g.durable);
  }

  // After the rotation the pinned INCR is closed for good.
  lemma SealedByRotation(d: Disk, a: Aof, child: Child, data: Dataset, b: Backup, g: Oath, g': Oath, openOk: bool, persistOk: bool)
    requires Assembled(d, a, child, data, b, g) && openOk && persistOk
    requires g' == g.(trail := g'.trail, intact := g'.intact) && (g'.intact ==> g.intact)
    requires Core(RotatedDisk(d, a, openOk, persistOk), RotatedAof(d, a, openOk, persistOk), child, data, g')
    ensures Inv(RotatedDisk(d, a, openOk, persistOk), RotatedAof(d, a, openOk, persistOk), child, data, b.(state := Sealed), g')
    ensures g.intact ==> RecoverBackup(RotatedDisk(d, a, openOk, persistOk)) == Some(g.sealed)
  {
    hide Core, Sound, Artifacts, ManifestOk, LogOk, DiskServes, RotatedDisk, RotatedAof, Pinned;
    if g.intact {
      CoreParts(d, a, child, data, g);
      AssembledArtifacts(d, a, child, data, b, g);
      RotatedArtifacts(d, a, b, g.sealed, openOk, persistOk);
      ArtifactsWhenSealed(RotatedDisk(d, a, openOk, persistOk), RotatedAof(d, a, openOk, persistOk).manifest, b, g.sealed);
    }
  }

  lemma ArtifactsWhenSealed(d: Disk, m: Manifest, b: Backup, sealed: Dataset)
    requires Artifacts(d, m, b, sealed)
    ensures Artifacts(d, m, b.(state := Sealed), sealed) && RecoverBackup(d) == Some(sealed)
  {
  }

  lemma PinnedWhenSealed(d: Disk, m: Manifest, b: Backup)
    ensures Pinned(d, m, b.(state := Sealed)) == Pinned(d, m, b)
  {
  }

  lemma SealedBackup(d: Disk, a: Aof, child: Child, b: Backup, sealed: Dataset)
    requires BackupOk(d, a, child, b, sealed) && b.state == Sealed
    ensures RecoverBackup(d) == Some(sealed)
  {
  }

  lemma BackupFrameDir(d: Disk)
    ensures RecoverBackup(NoAofDir(d)) == RecoverBackup(d)
  {
  }

  // Pinning does not touch the log.
  lemma LinkedLog(d: Disk, a: Aof, n: Name, durable: Dataset, written: nat, l: Option<Listing>)
    requires n in d.files
    ensures var d' := Linked(d, n).(backupManifest := l);
            && RotatesSafely(d', a) == RotatesSafely(d, a)
            && FlushedPromise(d', a, durable, written) == FlushedPromise(d, a, durable, written)
            && RotatedAof(d', a, true, true) == RotatedAof(d, a, true, true)
  {
  }

  // Closing the log may still write to the pinned INCR; what is pinned stays pinned.
  lemma FlushPinned(d: Disk, a: Aof, b: Backup, written: nat)
    requires Pinned(d, a.manifest, b)
    ensures Pinned(FlushedDisk(d, a, written), a.manifest, b)
  {
  }

  // ---------- other children and other commands ----------

  lemma OtherChildInv(d: Disk, a: Aof, child: Child, child': Child, data: Dataset, b: Backup, g: Oath)
    requires Inv(d, a, child, data, b, g) && !child.AofChild? && !child'.AofChild?
    ensures Inv(d, a, child', data, b, g)
  {
    hide DiskServes, DiskOk, PinsOld, TrailOk;
  }

  lemma BackupStateInv(d: Disk, a: Aof, child: Child, data: Dataset, b: Backup, b': Backup, g: Oath)
    requires Core(d, a, child, data, g)
    requires b'.state == Idle || b'.state == Failed || (b'.state == Pending && d.backup == map[])
             || (b'.state == Snapshotting && child.AofChild? && a.state != Off && d.backup == map[])
    ensures Inv(d, a, child, data, b', g)
  {
    hide Core;
  }

  // A pending backup whose child is running waits for its snapshot.
  lemma SnapshottingInv(d: Disk, a: Aof, child: Child, data: Dataset, b: Backup, g: Oath)
    requires Inv(d, a, child, data, b, g) && b.state == Pending && child.AofChild? && a.state != Off
    ensures Inv(d, a, child, data, b.(state := Snapshotting), g)
  {
    hide Core;
  }

  // BACKUP START accepts when no backup is there.
  predicate MayStart(d: Disk, b: Backup) {
    !InProgress(b.state) && b.state != Sealed && d.backup == map[] && d.backupManifest.None?
  }

  predicate SealCompletes(enabled: bool, e: Env, fsyncOk: bool, linkOk: bool, manifestOk: bool) {
    fsyncOk && linkOk && manifestOk && (enabled ==> e.openOk && e.persistOk)
  }

  // The rotation that ends a seal misroutes what follows, or a seal that fails takes the
  // user's directory with it.
  predicate SealHazard(d: Disk, a: Aof, b: Backup, enabled: bool, e: Env, fsyncOk: bool, linkOk: bool, manifestOk: bool) {
    && b.state == Incrementing
    && if SealCompletes(enabled, e, fsyncOk, linkOk, manifestOk)
       then enabled && !RotatesSafely(FlushedDisk(d, a, e.written), FlushedAof(a, e.written))
       else LosesDir(b, a, enabled)
  }

  lemma OwnsInv(d: Disk, a: Aof, child: Child, data: Dataset, b: Backup, owns: bool, g: Oath)
    requires Inv(d, a, child, data, b, g)
    ensures Inv(d, a, child, data, b.(ownsDir := owns), g)
  {
    hide Core, PinsOld, RecoverBackup;
  }
}
