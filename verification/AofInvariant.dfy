/**
 * The state of a server with a multi-part append-only file and BACKUP, what its
 * protocol keeps true of that state, and which of it each elementary step preserves.
 */
module AofInvariant {
  import opened Prelude
  import opened AofLog
  import opened AofDisk

  datatype AofState = Off | WaitRewrite | On

  datatype Child = NoChild | AofChild(snapshot: Dataset) | OtherChild

  datatype BackupState = Idle | Pending | Snapshotting | Incrementing | Sealed | Failed

  // aof_manifest, aof_state, aof_fd, aof_buf, aof_selected_db
  datatype Aof = Aof(manifest: Manifest, state: AofState, fd: Option<Inode>, buf: seq<Entry>, selected: int)

  // The BACKUP fields; ownsDir is backup_can_remove_aof_dir.
  datatype Backup = Backup(state: BackupState, base: Option<Name>, incr: Option<Name>, manifest: bool, ownsDir: bool)

  // A disk a crash could have left behind, the dataset it owes the user, and the server's
  // log and dataset at that moment; `on` when the log is the one on disk.
  datatype CrashPoint = CrashPoint(disk: Disk, promise: Dataset, on: bool, log: Aof, memory: Dataset)

  /**
   * The history of a server: `durable` is the dataset the disk must recover to, `sealed`
   * the one the sealed backup must, `trail` every crash point so far. `intact` turns
   * false at the steps after which the source no longer keeps its promise.
   */
  datatype Oath = Oath(durable: Dataset, sealed: Dataset, intact: bool, trail: seq<CrashPoint>)

  // What the environment answers to the disk operations of one call.
  datatype Env = Env(written: nat, openOk: bool, persistOk: bool, forkOk: bool)

  // ---------- the log ----------

  // The manifest file names the same BASE and INCRs as memory does; its history can be
  // deleted.
  predicate Synced(d: Disk, m: Manifest) {
    match d.manifest
    case None => m.list.base.None? && m.list.incrs == []
    case Some(l) => l.base == m.list.base && l.incrs == m.list.incrs && HistOk(l.hist, m.list)
  }

  ghost predicate DiskServes(d: Disk, m: Manifest, durable: Dataset) {
    ManifestOk(m) && Synced(d, m) && Recover(d) == Some(durable)
  }

  predicate FdOk(d: Disk, fd: Option<Inode>) {
    fd.Some? ==> fd.value in d.store && d.store[fd.value].Log?
  }

  ghost predicate Sound(d: Disk, a: Aof) {
    DiskOk(d) && FdOk(d, a.fd)
  }

  function OpenEntries(d: Disk, a: Aof): seq<Entry>
    requires a.fd.Some? && FdOk(d, a.fd)
  {
    d.store[a.fd.value].entries
  }

  // The open file followed by the buffer: what the current INCR will hold.
  function OpenLog(d: Disk, a: Aof): seq<Entry>
    requires a.fd.Some? && FdOk(d, a.fd)
  {
    OpenEntries(d, a) + a.buf
  }

  // The dataset is what is durable followed by the calls still buffered.
  predicate Accounts(d: Disk, a: Aof, durable: Dataset, data: Dataset) {
    a.fd.Some? && FdOk(d, a.fd) && data == durable + Replay(a.buf, DbAfter(OpenEntries(d, a), 0))
  }

  // AOF on: the last INCR is the open one, and disk plus buffer is the dataset.
  ghost predicate OnOk(d: Disk, a: Aof, child: Child, data: Dataset, durable: Dataset) {
    && a.manifest.list.incrs != []
    && LastIncr(a.manifest).name in d.files
    && a.fd == Some(d.files[LastIncr(a.manifest).name])
    && FdOk(d, a.fd)
    && Routed(a.selected, DbAfter(OpenLog(d, a), 0))
    && Accounts(d, a, durable, data)
    && (child.AofChild? ==> data == child.snapshot + Replay(OpenLog(d, a), 0))
  }

  // The temporary INCR is the open file and has what happened since the fork.
  predicate CatchesUp(d: Disk, a: Aof, child: Child, data: Dataset)
    requires child.AofChild? && TempIncrName in d.files
  {
    && a.fd == Some(d.files[TempIncrName])
    && FdOk(d, a.fd)
    && Routed(a.selected, DbAfter(OpenLog(d, a), 0))
    && data == child.snapshot + Replay(OpenLog(d, a), 0)
  }

  // AOF being turned on: a temporary INCR, if the child can make use of one, catches up;
  // without a child nothing is collected.
  predicate WaitOk(d: Disk, a: Aof, child: Child, data: Dataset) {
    if child.AofChild? then TempIncrName in d.files ==> CatchesUp(d, a, child, data) else a.buf == []
  }

  // A descriptor left open while AOF is not on is not that of a live file.
  ghost predicate FdSpare(d: Disk, a: Aof) {
    a.fd.Some? ==> forall n <- d.files | LiveName(a.manifest.list, n) :: d.files[n] != a.fd.value
  }

  ghost predicate LogOk(d: Disk, a: Aof, child: Child, data: Dataset, durable: Dataset) {
    && a.selected >= UNSELECTED
    && EndsWithCommand(a.buf)
    && (a.state == On ==> OnOk(d, a, child, data, durable))
    && (a.state == WaitRewrite ==> WaitOk(d, a, child, data))
    && (a.state == Off ==> a.buf == [])
    && (a.state != On ==> FdSpare(d, a))
  }

  // ---------- the backup ----------

  // File names whose inode the backup pins carry numbers already handed out, so no
  // rotation truncates one.
  ghost predicate PinsOld(d: Disk, m: Manifest) {
    forall n <- d.files | d.files[n] in d.backup.Values ::
      !n.TempIncrName? && n.num <= if n.BaseName? then m.baseSeq else m.incrSeq
  }

  ghost predicate Artifacts(d: Disk, m: Manifest, b: Backup, sealed: Dataset) {
    && b.base.Some? && b.incr.Some? && b.manifest
    && b.base.value in d.backup && b.incr.value in d.backup
    && RecoverBackup(d) == Some(sealed)
    && PinsOld(d, m)
  }

  ghost predicate BackupOk(d: Disk, a: Aof, child: Child, b: Backup, sealed: Dataset) {
    match b.state
    case Pending => d.backup == map[]
    case Snapshotting => d.backup == map[] && child.AofChild? && a.state != Off
    case Incrementing =>
      && a.state == On && !child.AofChild?
      && |a.manifest.list.incrs| == 1
      && a.manifest.list.base.Some? && b.base == Some(a.manifest.list.base.value.name)
      && b.base.value in d.files
      && d.backup == map[b.base.value := d.files[b.base.value]]
    case Sealed => Artifacts(d, a.manifest, b, sealed) && (a.fd.Some? ==> a.fd.value !in d.backup.Values)
    case _ => true
  }

  // ---------- the history ----------

  // A server restarting on this disk would find this dataset.
  ghost predicate Restartable(d: Disk, promise: Dataset) {
    DiskOk(d) && exists m: Manifest :: DiskServes(d, m, promise)
  }

  // A crash point recovers what it owes. With AOF on that is the dataset in memory less the
  // calls still buffered.
  ghost predicate PointOk(p: CrashPoint) {
    && Restartable(p.disk, p.promise)
    && Recover(p.disk) == Some(p.promise)
    && (p.on ==> Accounts(p.disk, p.log, p.promise, p.memory))
  }

  ghost predicate TrailOk(trail: seq<CrashPoint>) {
    forall p <- trail :: PointOk(p)
  }

  // What makes the current disk a crash point that keeps its promise.
  ghost predicate Recoverable(d: Disk, a: Aof, data: Dataset, g: Oath, on: bool) {
    TrailOk(g.trail) && (g.intact ==> Restartable(d, g.durable) && (on ==> Accounts(d, a, g.durable, data)))
  }

  // What an operation may add to the history: the dataset in memory, the buffer it starts
  // with, and the datasets owed while AOF is not on.
  datatype Scope = Scope(data: Dataset, buf: seq<Entry>, owed: set<Dataset>)

  predicate Tail(x: seq<Entry>, buf: seq<Entry>) {
    |x| <= |buf| && x == buf[|buf| - |x|..]
  }

  predicate InScope(p: CrashPoint, k: Scope) {
    && p.memory == k.data && Tail(p.log.buf, k.buf)
    && (p.log.state == On ==> p.on)
    && (p.on || p.promise in k.owed)
  }

  predicate Within(j: Scope, k: Scope) {
    j.data == k.data && Tail(j.buf, k.buf) && j.owed <= k.owed
  }

  // Crash points are only added, each new one in scope, and a lost promise stays lost.
  ghost predicate Grows(was: Oath, now: Oath, k: Scope) {
    && |was.trail| <= |now.trail|
    && (forall i | 0 <= i < |was.trail| :: now.trail[i] == was.trail[i])
    && (forall i | |was.trail| <= i < |now.trail| :: InScope(now.trail[i], k))
    && (now.intact ==> was.intact)
    && (!was.intact ==> now.trail == was.trail)
  }

  // Without a crash point in between, only the promise may change, or be lost.
  lemma GrowsNot(g: Oath, g': Oath, k: Scope)
    requires g'.trail == g.trail && (g'.intact ==> g.intact)
    ensures Grows(g, g', k)
  {
  }

  lemma TailOfTail(x: seq<Entry>, y: seq<Entry>, z: seq<Entry>)
    requires Tail(x, y) && Tail(y, z)
    ensures Tail(x, z)
  {
  }

  // Scopes matter only while the promise is kept: afterwards nothing is recorded.
  lemma GrowsTwice(a: Oath, b: Oath, c: Oath, i: Scope, j: Scope, k: Scope)
    requires Grows(a, b, i) && Grows(b, c, j)
    requires a.intact ==> Within(i, k) && Within(j, k)
    ensures Grows(a, c, k)
  {
    forall x | |a.trail| <= x < |c.trail|
      ensures InScope(c.trail[x], k)
    {
      if x < |b.trail| {
        TailOfTail(b.trail[x].log.buf, i.buf, k.buf);
      } else {
        TailOfTail(c.trail[x].log.buf, j.buf, k.buf);
      }
    }
  }

  lemma GrowsMore(a: Oath, b: Oath, j: Scope, k: Scope)
    requires Grows(a, b, j) && (a.intact ==> Within(j, k))
    ensures Grows(a, b, k)
  {
    GrowsTwice(a, b, b, j, j, k);
  }

  // ---------- the invariant ----------

  // The log while the server starts: the history listed on disk may be newer than the
  // INCR counter.
  ghost predicate Starting(d: Disk, a: Aof, child: Child, data: Dataset, g: Oath) {
    && Sound(d, a)
    && TrailOk(g.trail)
    && (g.intact ==> DiskServes(d, a.manifest, g.durable) && LogOk(d, a, child, data, g.durable))
  }

  // The log: disk and buffer make the dataset, now and at every crash point.
  ghost predicate Core(d: Disk, a: Aof, child: Child, data: Dataset, g: Oath) {
    Starting(d, a, child, data, g) && (g.intact ==> HistOld(a.manifest))
  }

  ghost predicate Inv(d: Disk, a: Aof, child: Child, data: Dataset, b: Backup, g: Oath) {
    Core(d, a, child, data, g) && (g.intact ==> BackupOk(d, a, child, b, g.sealed))
  }

  lemma Serves(d: Disk, m: Manifest, durable: Dataset)
    requires DiskOk(d) && DiskServes(d, m, durable)
    ensures Restartable(d, durable) && Recover(d) == Some(durable) && ManifestOk(m)
  {
  }

  lemma StartingParts(d: Disk, a: Aof, child: Child, data: Dataset, g: Oath)
    requires Starting(d, a, child, data, g)
    ensures Sound(d, a) && FdOk(d, a.fd) && DiskOk(d) && TrailOk(g.trail)
    ensures Recoverable(d, a, data, g, a.state == On)
    ensures g.intact ==> DiskServes(d, a.manifest, g.durable) && LogOk(d, a, child, data, g.durable) && ManifestOk(a.manifest)
  {
  }

  lemma CoreParts(d: Disk, a: Aof, child: Child, data: Dataset, g: Oath)
    requires Core(d, a, child, data, g)
    ensures Starting(d, a, child, data, g)
    ensures Sound(d, a) && FdOk(d, a.fd) && DiskOk(d) && TrailOk(g.trail)
    ensures Recoverable(d, a, data, g, a.state == On)
    ensures g.intact ==> DiskServes(d, a.manifest, g.durable) && LogOk(d, a, child, data, g.durable) && ManifestOk(a.manifest)
    ensures g.intact ==> HistOld(a.manifest) && NextFree(a.manifest)
  {
    StartingParts(d, a, child, data, g);
  }

  // A recoverable disk is one whatever is said of the log.
  lemma RecoverableOff(d: Disk, a: Aof, data: Dataset, g: Oath, on: bool)
    requires Recoverable(d, a, data, g, on)
    ensures Recoverable(d, a, data, g, false)
  {
    hide TrailOk, Restartable;
  }

  lemma RecoverableParts(d: Disk, a: Aof, data: Dataset, g: Oath, on: bool)
    requires Recoverable(d, a, data, g, on)
    ensures TrailOk(g.trail) && (g.intact && on ==> Accounts(d, a, g.durable, data))
  {
    hide TrailOk, Restartable, Accounts;
  }

  lemma InvOf(d: Disk, a: Aof, child: Child, data: Dataset, b: Backup, g: Oath)
    ensures Inv(d, a, child, data, b, g) <==> Core(d, a, child, data, g) && (g.intact ==> BackupOk(d, a, child, b, g.sealed))
  {
  }

  lemma InvParts(d: Disk, a: Aof, child: Child, data: Dataset, b: Backup, g: Oath)
    requires Inv(d, a, child, data, b, g)
    ensures Core(d, a, child, data, g) && Starting(d, a, child, data, g)
    ensures Sound(d, a) && FdOk(d, a.fd) && DiskOk(d) && TrailOk(g.trail)
    ensures Recoverable(d, a, data, g, a.state == On)
    ensures g.intact ==> DiskServes(d, a.manifest, g.durable) && LogOk(d, a, child, data, g.durable) && ManifestOk(a.manifest)
    ensures g.intact ==> HistOld(a.manifest) && NextFree(a.manifest)
    ensures g.intact ==> BackupOk(d, a, child, b, g.sealed)
  {
    CoreParts(d, a, child, data, g);
  }

  // ---------- what each disk operation keeps ----------

  lemma ServesFrame(d: Disk, d': Disk, m: Manifest, durable: Dataset)
    requires DiskServes(d, m, durable) && d'.manifest == d.manifest
    requires SameLiveFiles(m.list, d.files, d.store, d'.files, d'.store)
    ensures DiskServes(d', m, durable)
  {
    if d.manifest.Some? {
      RecoverFrame(m.list, d.manifest.value, d.files, d.store, d'.files, d'.store);
      RecoverFrame(m.list, d.manifest.value, d.files, d.store, d.files, d.store);
    }
  }

  // Creating, truncating, installing or unlinking a file that is not live.
  lemma OtherFileKeepsServing(d: Disk, d': Disk, m: Manifest, durable: Dataset, n: Name)
    requires DiskOk(d) && DiskServes(d, m, durable) && !LiveName(m.list, n)
    requires (!n.BaseName? && d' == CreateEmpty(d, n).0) || (exists c :: d' == Install(d, n, c)) || d' == Unlink(d, n)
    ensures DiskServes(d', m, durable)
  {
    forall x: Name | LiveName(m.list, x)
      ensures Read(d.files, d.store, x) == Read(d'.files, d'.store, x)
    {
      if x in d.files && n in d.files {
        assert d.files[x] != d.files[n];
      }
    }
    ServesFrame(d, d', m, durable);
  }

  // The file replays to nothing: it is empty, or holds SELECTs only.
  predicate Blank(d: Disk, n: Name) {
    var c := Read(d.files, d.store, n);
    c.Some? && c.value.Log? && Replay(c.value.entries, 0) == []
  }

  // Persisting a manifest that added a blank INCR changes nothing recovered.
  lemma PersistNewIncr(d: Disk, m: Manifest, durable: Dataset)
    requires DiskServes(d, m, durable) && NextFree(m)
    requires Blank(d, IncrName(m.incrSeq + 1))
    ensures DiskServes(d.(manifest := Some(NewIncr(m).list)), NewIncr(m), durable)
  {
    NewIncrOk(m);
    var m' := NewIncr(m);
    var i := m'.list.incrs[|m.list.incrs|];
    if d.manifest.Some? {
      RecoverFrame(m.list, d.manifest.value, d.files, d.store, d.files, d.store);
    } else {
      var none: seq<Call> := [];
      assert none + none == none;
      assert RecoverListing(d.files, d.store, m.list) == Some([]);
    }
    RecoverAddIncr(m.list, d.files, d.store, i);
    assert m'.list == m.list.(incrs := m.list.incrs + [i]);
    assert durable + [] == durable;
  }

  // No other live name shares the inode of the last INCR.
  lemma LastIncrUnshared(d: Disk, m: Manifest, x: Name)
    requires DiskOk(d) && ManifestOk(m) && m.list.incrs != [] && LastIncr(m).name in d.files
    requires LiveName(m.list.(incrs := m.list.incrs[..|m.list.incrs| - 1]), x)
    ensures x != LastIncr(m).name
    ensures x in d.files ==> d.files[x] != d.files[LastIncr(m).name]
  {
    var n := |m.list.incrs| - 1;
    if !(m.list.base.Some? && m.list.base.value.name == x) {
      var y :| 0 <= y < n && m.list.incrs[y].name == x;
      assert m.list.incrs[y].num < m.list.incrs[n].num;
    }
  }

  // Appending to the last INCR appends its replay to what is recovered.
  lemma AppendRecovers(d: Disk, m: Manifest, i: Inode, es: seq<Entry>)
    requires DiskOk(d) && ManifestOk(m) && RecoverListing(d.files, d.store, m.list).Some?
    requires m.list.incrs != [] && LastIncr(m).name in d.files && d.files[LastIncr(m).name] == i
    requires i in d.store && d.store[i].Log?
    ensures var d' := Append(d, i, es);
            RecoverListing(d'.files, d'.store, m.list) ==
            Some(RecoverListing(d.files, d.store, m.list).value + Replay(es, DbAfter(d.store[i].entries, 0)))
  {
    hide Replay, DbAfter, ManifestOk;
    var d' := Append(d, i, es);
    var n := |m.list.incrs| - 1;
    var olds := d.store[i].entries;
    var short := m.list.(incrs := m.list.incrs[..n]);
    RecoverSplitLast(m.list, d.files, d.store);
    forall x: Name | LiveName(short, x)
      ensures Read(d.files, d.store, x) == Read(d'.files, d'.store, x)
    {
      LastIncrUnshared(d, m, x);
    }
    RecoverFrame(short, short, d.files, d.store, d'.files, d'.store);
    RecoverAddIncr(short, d'.files, d'.store, m.list.incrs[n]);
    assert short.incrs + [m.list.incrs[n]] == m.list.incrs;
    ReplayConcat(olds, es, 0);
    var p := RecoverListing(d.files, d.store, short).value;
    assert p + (Replay(olds, 0) + Replay(es, DbAfter(olds, 0))) == p + Replay(olds, 0) + Replay(es, DbAfter(olds, 0));
  }

  lemma AppendServes(d: Disk, m: Manifest, durable: Dataset, i: Inode, es: seq<Entry>)
    requires DiskOk(d) && DiskServes(d, m, durable)
    requires m.list.incrs != [] && LastIncr(m).name in d.files && d.files[LastIncr(m).name] == i
    requires i in d.store && d.store[i].Log?
    ensures DiskServes(Append(d, i, es), m, durable + Replay(es, DbAfter(d.store[i].entries, 0)))
  {
    var d' := Append(d, i, es);
    RecoverFrame(m.list, d.manifest.value, d.files, d.store, d.files, d.store);
    AppendRecovers(d, m, i, es);
    RecoverFrame(m.list, d.manifest.value, d'.files, d'.store, d'.files, d'.store);
  }

  // The manifest a successful rewrite persists recovers the snapshot followed by the
  // INCRs it kept.
  lemma RewrittenServes(d: Disk, m: Manifest, snapshot: Dataset, last: seq<Entry>)
    requires ManifestOk(m) && m.list.base.Some?
    requires Read(d.files, d.store, m.list.base.value.name) == Some(Snapshot(snapshot))
    requires |m.list.incrs| == 1
    requires Read(d.files, d.store, m.list.incrs[0].name) == Some(Log(last))
    ensures DiskServes(d.(manifest := Some(m.list)), m, snapshot + Replay(last, 0))
  {
    assert m.list.incrs[..0] == [];
    assert RecoverIncrs(d.files, d.store, []) == Some([]);
    assert [] + Replay(last, 0) == Replay(last, 0);
  }

  lemma RewrittenServesAlone(d: Disk, m: Manifest, snapshot: Dataset)
    requires ManifestOk(m) && m.list.base.Some? && m.list.incrs == []
    requires Read(d.files, d.store, m.list.base.value.name) == Some(Snapshot(snapshot))
    ensures DiskServes(d.(manifest := Some(m.list)), m, snapshot)
  {
    assert snapshot + [] == snapshot;
  }

  // A sealed backup does not depend on the append-only directory, only on inodes.
  lemma BackupFrame(d: Disk, d': Disk)
    requires d'.backup == d.backup && d'.backupManifest == d.backupManifest
    requires forall n <- d.backup :: d.backup[n] in d.store && d.backup[n] in d'.store && d.store[d.backup[n]] == d'.store[d.backup[n]]
    ensures RecoverBackup(d') == RecoverBackup(d)
  {
    if d.backupManifest.Some? {
      var l := d.backupManifest.value;
      RecoverFrame(l, l, d.backup, d.store, d'.backup, d'.store);
    }
  }
}
