/**
 * The steps of a finished rewrite: installing the child's snapshot as the new BASE,
 * listing it, and deleting the files it replaced.
 */
module AofRewrite {
  import opened Prelude
  import opened AofLog
  import opened AofDisk
  import opened AofInvariant
  import opened AofSteps

  // ---------- deleting history ----------

  lemma UnlinkOk(d: Disk, n: Name)
    requires DiskOk(d)
    ensures DiskOk(Unlink(d, n)) && RecoverBackup(Unlink(d, n)) == RecoverBackup(d)
  {
  }

  // Unlinking a history file.
  lemma UnlinkHistory(d: Disk, m: Manifest, durable: Dataset, h: Info)
    requires DiskOk(d) && DiskServes(d, m, durable) && h in m.list.hist
    ensures DiskServes(Unlink(d, h.name), m, durable)
  {
    HistoryIsNotLive(m.list.hist, m.list, m.baseSeq, m.incrSeq, h);
    OtherFileKeepsServing(d, Unlink(d, h.name), m, durable, h.name);
  }

  function WithoutHistory(m: Manifest): Manifest {
    m.(list := m.list.(hist := []))
  }

  function Unlinked(d: Disk, hist: seq<Info>): Disk {
    d.(files := d.files - set h <- hist :: h.name)
  }

  lemma UnlinkOneMore(d: Disk, hist: seq<Info>, k: nat)
    requires k < |hist|
    ensures Unlink(Unlinked(d, hist[..k]), hist[k].name) == Unlinked(d, hist[..k + 1])
  {
    assert hist[..k + 1] == hist[..k] + [hist[k]];
    assert (set h <- hist[..k + 1] :: h.name) == (set h <- hist[..k] :: h.name) + {hist[k].name};
  }

  // What aofDelHistoryFiles leaves behind.
  function CollectedDisk(d: Disk, m: Manifest, gcDisabled: bool, persistOk: bool): Disk {
    if gcDisabled || m.list.hist == [] then d
    else
      var d' := Unlinked(d, m.list.hist);
      if persistOk then ListDisk(d', WithoutHistory(m)) else d'
  }

  function CollectedManifest(m: Manifest, gcDisabled: bool): Manifest {
    if gcDisabled then m else WithoutHistory(m)
  }

  // Only history files went away, and history was forgotten only once they had.
  ghost predicate HistoryGone(d: Disk, m: Manifest, d': Disk, m': Manifest) {
    && d' == d.(files := d'.files, manifest := d'.manifest)
    && (forall n <- d'.files :: n in d.files && d'.files[n] == d.files[n])
    && (forall n <- d.files | n !in d'.files :: exists i | 0 <= i < |m.list.hist| :: m.list.hist[i].name == n)
    && (m' == m || m' == WithoutHistory(m))
  }

  lemma CollectedGone(d: Disk, m: Manifest, gcDisabled: bool, persistOk: bool)
    ensures HistoryGone(d, m, CollectedDisk(d, m, gcDisabled, persistOk), CollectedManifest(m, gcDisabled))
  {
  }

  // With automatic deletion on, exactly the history files are gone, and neither memory nor a
  // manifest that was written lists them any more. With it off nothing changes.
  lemma CollectedDeletes(d: Disk, m: Manifest, gcDisabled: bool, persistOk: bool)
    ensures var d', m' := CollectedDisk(d, m, gcDisabled, persistOk), CollectedManifest(m, gcDisabled);
            if gcDisabled then d' == d && m' == m
            else
              && (forall n <- d.files :: n in d'.files <==> forall i | 0 <= i < |m.list.hist| :: m.list.hist[i].name != n)
              && (forall n <- d'.files :: n in d.files && d'.files[n] == d.files[n])
              && d'.store == d.store && d'.backup == d.backup && d'.backupManifest == d.backupManifest
              && m'.list.hist == [] && m'.list.base == m.list.base && m'.list.incrs == m.list.incrs && m'.incrSeq == m.incrSeq && m'.baseSeq == m.baseSeq
              && (persistOk && m.list.hist != [] ==> d'.manifest == Some(m'.list))
  {
    if !gcDisabled && m.list.hist != [] {
      forall n <- d.files
        ensures n in (set h <- m.list.hist :: h.name) <==> exists i | 0 <= i < |m.list.hist| :: m.list.hist[i].name == n
      {
        if i :| 0 <= i < |m.list.hist| && m.list.hist[i].name == n {
          assert m.list.hist[i] in m.list.hist;
        }
      }
    }
  }

  lemma ForgetHistoryServes(d: Disk, m: Manifest, durable: Dataset)
    requires DiskServes(d, m, durable)
    ensures DiskServes(d, WithoutHistory(m), durable)
    ensures DiskServes(ListDisk(d, WithoutHistory(m)), WithoutHistory(m), durable)
  {
    var m' := WithoutHistory(m);
    if d.manifest.Some? {
      RecoverFrame(m.list, d.manifest.value, d.files, d.store, d.files, d.store);
    } else {
      var none: seq<Call> := [];
      assert none + none == none;
      assert RecoverListing(d.files, d.store, m.list) == Some([]);
    }
    RecoverFrame(m.list, m'.list, d.files, d.store, d.files, d.store);
  }

  // Deleting history changes nothing recovered.
  lemma CollectedServes(d: Disk, m: Manifest, durable: Dataset, gcDisabled: bool, persistOk: bool)
    requires DiskOk(d) && DiskServes(d, m, durable)
    ensures DiskServes(CollectedDisk(d, m, gcDisabled, persistOk), CollectedManifest(m, gcDisabled), durable)
  {
    hide DiskServes, DiskOk;
    if !gcDisabled && m.list.hist != [] {
      UnlinkedServes(d, m, durable, |m.list.hist|);
      assert m.list.hist[..|m.list.hist|] == m.list.hist;
      ForgetHistoryServes(Unlinked(d, m.list.hist), m, durable);
    } else if !gcDisabled {
      assert WithoutHistory(m) == m;
    }
  }

  lemma {:induction false} UnlinkedServes(d: Disk, m: Manifest, durable: Dataset, k: nat)
    requires DiskOk(d) && DiskServes(d, m, durable) && k <= |m.list.hist|
    ensures DiskOk(Unlinked(d, m.list.hist[..k])) && DiskServes(Unlinked(d, m.list.hist[..k]), m, durable)
  {
    hide DiskServes, DiskOk;
    if k == 0 {
      assert Unlinked(d, []) == d;
    } else {
      UnlinkedServes(d, m, durable, k - 1);
      UnlinkOneMore(d, m.list.hist, k - 1);
      UnlinkHistory(Unlinked(d, m.list.hist[..k - 1]), m, durable, m.list.hist[k - 1]);
      UnlinkOk(Unlinked(d, m.list.hist[..k - 1]), m.list.hist[k - 1].name);
    }
  }

  lemma HistoryGoneDiskOk(d: Disk, a: Aof, d': Disk, m': Manifest)
    requires Sound(d, a) && HistoryGone(d, a.manifest, d', m')
    ensures Sound(d', a.(manifest := m'))
  {
  }

  // A live name is not a history name.
  lemma LiveFileKept(d: Disk, m: Manifest, d': Disk, m': Manifest, n: Name)
    requires ManifestOk(m) && HistoryGone(d, m, d', m') && n in d.files && (LiveName(m.list, n) || n == TempIncrName)
    ensures n in d'.files && d'.files[n] == d.files[n]
  {
    if n !in d'.files {
      var i :| 0 <= i < |m.list.hist| && m.list.hist[i].name == n;
      assert m.list.hist[i] in m.list.hist;
      HistoryIsNotLive(m.list.hist, m.list, m.baseSeq, m.incrSeq, m.list.hist[i]);
    }
  }

  lemma HistoryGoneLogOk(d: Disk, a: Aof, child: Child, data: Dataset, durable: Dataset, d': Disk, m': Manifest)
    requires ManifestOk(a.manifest) && HistoryGone(d, a.manifest, d', m') && LogOk(d, a, child, data, durable)
    ensures LogOk(d', a.(manifest := m'), child, data, durable)
  {
    if a.state == On {
      assert LiveName(a.manifest.list, LastIncr(a.manifest).name);
      LiveFileKept(d, a.manifest, d', m', LastIncr(a.manifest).name);
    } else if a.state == WaitRewrite && child.AofChild? && TempIncrName in d.files {
      LiveFileKept(d, a.manifest, d', m', TempIncrName);
    }
  }

  lemma HistoryGoneBackupOk(d: Disk, a: Aof, child: Child, b: Backup, sealed: Dataset, d': Disk, m': Manifest)
    requires DiskOk(d) && ManifestOk(a.manifest) && HistoryGone(d, a.manifest, d', m') && BackupOk(d, a, child, b, sealed)
    ensures BackupOk(d', a.(manifest := m'), child, b, sealed)
  {
    if b.state == Sealed {
      BackupFrame(d, d');
    } else if b.state == Incrementing {
      assert LiveName(a.manifest.list, b.base.value);
      LiveFileKept(d, a.manifest, d', m', b.base.value);
    }
  }

  // Deleting history keeps everything but history.
  lemma HistoryGoneStarting(d: Disk, a: Aof, child: Child, data: Dataset, g: Oath, d': Disk, m': Manifest, g': Oath)
    requires Starting(d, a, child, data, g) && HistoryGone(d, a.manifest, d', m')
    requires g' == g.(trail := g'.trail) && TrailOk(g'.trail)
    requires g.intact ==> DiskServes(d', m', g.durable)
    ensures Starting(d', a.(manifest := m'), child, data, g')
  {
    hide LogOk, HistoryGone, DiskOk, Recover, TrailOk;
    HistoryGoneDiskOk(d, a, d', m');
    if g.intact {
      HistoryGoneLogOk(d, a, child, data, g.durable, d', m');
    }
  }

  lemma HistoryGoneInv(d: Disk, a: Aof, child: Child, data: Dataset, b: Backup, g: Oath, d': Disk, m': Manifest, g': Oath)
    requires Inv(d, a, child, data, b, g) && HistoryGone(d, a.manifest, d', m')
    requires g' == g.(trail := g'.trail) && TrailOk(g'.trail)
    requires g.intact ==> DiskServes(d', m', g.durable)
    ensures Inv(d', a.(manifest := m'), child, data, b, g')
  {
    hide Starting, LogOk, BackupOk, DiskOk, Recover, DiskServes, TrailOk;
    CoreParts(d, a, child, data, g);
    HistoryGoneStarting(d, a, child, data, g, d', m', g');
    if g.intact {
      HistoryGoneBackupOk(d, a, child, b, g.sealed, d', m');
    }
  }

  // ---------- installing the new BASE ----------

  function Installed(d: Disk, a: Aof, snapshot: Dataset, rdb: bool): Disk {
    Install(d, BaseName(a.manifest.baseSeq + 1, rdb), Snapshot(snapshot))
  }

  lemma InstallOk(d: Disk, n: Name, x: Dataset)
    requires DiskOk(d) && n.BaseName?
    ensures var d' := Install(d, n, Snapshot(x));
            && DiskOk(d') && Read(d'.files, d'.store, n) == Some(Snapshot(x))
            && RecoverBackup(d') == RecoverBackup(d) && d'.files[n] !in d'.backup.Values
            && (forall f <- d.files | f != n :: f in d'.files && d'.files[f] == d.files[f])
            && (forall i <- d.store :: i in d'.store && d'.store[i] == d.store[i])
  {
    BackupFrame(d, Install(d, n, Snapshot(x)));
  }

  lemma InstallLogOk(d: Disk, a: Aof, child: Child, data: Dataset, durable: Dataset, rdb: bool, x: Dataset)
    requires Sound(d, a) && ManifestOk(a.manifest) && LogOk(d, a, child, data, durable)
    ensures LogOk(Installed(d, a, x, rdb), a, child, data, durable) && FdOk(Installed(d, a, x, rdb), a.fd)
  {
    NewNames(a.manifest, rdb);
  }

  lemma InstallBackupOk(d: Disk, a: Aof, child: Child, b: Backup, sealed: Dataset, rdb: bool, x: Dataset)
    requires DiskOk(d) && ManifestOk(a.manifest) && BackupOk(d, a, child, b, sealed)
    ensures BackupOk(Installed(d, a, x, rdb), a, child, b, sealed)
  {
    InstallOk(d, BaseName(a.manifest.baseSeq + 1, rdb), x);
  }

  lemma InstallSound(d: Disk, a: Aof, rdb: bool, x: Dataset)
    requires Sound(d, a)
    ensures Sound(Installed(d, a, x, rdb), a)
  {
    InstallOk(d, BaseName(a.manifest.baseSeq + 1, rdb), x);
  }

  lemma InstallInv(d: Disk, a: Aof, child: Child, data: Dataset, b: Backup, g: Oath, rdb: bool, x: Dataset)
    requires Inv(d, a, child, data, b, g)
    ensures Inv(Installed(d, a, x, rdb), a, child, data, b, g)
  {
    hide LogOk, DiskServes, BackupOk, DiskOk, TrailOk, Sound, FdOk;
    InvParts(d, a, child, data, b, g);
    InstallSound(d, a, rdb, x);
    if g.intact {
      NewNames(a.manifest, rdb);
      OtherFileKeepsServing(d, Installed(d, a, x, rdb), a.manifest, g.durable, BaseName(a.manifest.baseSeq + 1, rdb));
      InstallLogOk(d, a, child, data, g.durable, rdb, x);
      InstallBackupOk(d, a, child, b, g.sealed, rdb, x);
    }
  }

  // ---------- renaming the temporary INCR ----------

  lemma RenameOk(d: Disk, to: Name)
    requires DiskOk(d) && TempIncrName in d.files && to.IncrName?
    ensures var d' := Rename(d, TempIncrName, to);
            && DiskOk(d') && to in d'.files && d'.files[to] == d.files[TempIncrName] && TempIncrName !in d'.files
            && (forall f <- d.files | f != to && f != TempIncrName :: f in d'.files && d'.files[f] == d.files[f])
  {
  }

  lemma RenameServes(d: Disk, m: Manifest, durable: Dataset, to: Name)
    requires DiskOk(d) && DiskServes(d, m, durable) && TempIncrName in d.files && to.IncrName? && !LiveName(m.list, to)
    ensures DiskServes(Rename(d, TempIncrName, to), m, durable)
  {
    var d' := Rename(d, TempIncrName, to);
    forall x: Name | LiveName(m.list, x)
      ensures Read(d.files, d.store, x) == Read(d'.files, d'.store, x)
    {
      assert x != TempIncrName;
    }
    ServesFrame(d, d', m, durable);
  }

  // Renaming the temporary INCR pins nothing new.
  lemma RenamePinsOld(d: Disk, m: Manifest, to: Name)
    requires DiskOk(d) && PinsOld(d, m) && TempIncrName in d.files
    ensures PinsOld(Rename(d, TempIncrName, to), m)
  {
  }

  // ---------- listing the result ----------

  // The manifest a finished rewrite persists.
  function RewrittenManifest(a: Aof, rdb: bool): Manifest {
    var m1 := NewBase(a.manifest, rdb);
    var m2 := if a.state == WaitRewrite then NewIncr(m1) else m1;
    RewrittenToHistory(m2, a.fd.Some?)
  }

  // The one INCR that survives a rewrite: the open one.
  function SurvivingIncr(a: Aof): Info
    requires a.state == WaitRewrite || a.manifest.list.incrs != []
  {
    if a.state == WaitRewrite then Info(IncrName(a.manifest.incrSeq + 1), a.manifest.incrSeq + 1) else LastIncr(a.manifest)
  }

  lemma RewrittenManifestOk(a: Aof, rdb: bool)
    requires ManifestOk(a.manifest) && HistOld(a.manifest)
    ensures var m := RewrittenManifest(a, rdb);
            && ManifestOk(m) && HistOld(m)
            && m.list.base == Some(Info(BaseName(a.manifest.baseSeq + 1, rdb), a.manifest.baseSeq + 1))
            && (a.fd.Some? && (a.state == WaitRewrite || a.manifest.list.incrs != []) ==> m.list.incrs == [SurvivingIncr(a)])
            && (a.state != WaitRewrite && (a.fd.None? || a.manifest.list.incrs == []) ==> m.list.incrs == [])
  {
    hide ManifestOk;
    NewBaseOk(a.manifest, rdb);
    var m1 := NewBase(a.manifest, rdb);
    NewIncrOk(m1);
    var m2 := if a.state == WaitRewrite then NewIncr(m1) else m1;
    RewrittenToHistoryOk(m2, a.fd.Some?);
  }

  lemma RewrittenPinsOld(d: Disk, a: Aof, rdb: bool)
    requires PinsOld(d, a.manifest)
    ensures PinsOld(d, RewrittenManifest(a, rdb))
  {
  }

  // Snapshot and open INCR together are what the disk owes.
  lemma SnapshotPlusIncr(durable: Dataset, snapshot: Dataset, es: seq<Entry>, buf: seq<Entry>)
    requires durable + Replay(buf, DbAfter(es, 0)) == snapshot + Replay(es + buf, 0)
    ensures durable == snapshot + Replay(es, 0)
  {
    ReplayConcat(es, buf, 0);
    var x, y := Replay(es, 0), Replay(buf, DbAfter(es, 0));
    assert snapshot + (x + y) == (snapshot + x) + y;
    assert durable == (durable + y)[..|durable|] && snapshot + x == ((snapshot + x) + y)[..|durable|];
  }

  // What the disk owes once a finished rewrite is listed.
  function RewrittenPromise(d: Disk, a: Aof, child: Child, durable: Dataset): Dataset
    requires child.AofChild?
  {
    if a.state == Off then child.snapshot
    else if a.state == WaitRewrite && a.fd.Some? && FdOk(d, a.fd) then child.snapshot + Replay(OpenEntries(d, a), 0)
    else durable
  }

  // With AOF off but a descriptor left open, the last INCR is kept although it was
  // rewritten, and replays on top of the snapshot that has its effect already.
  predicate KeepsStaleIncr(d: Disk, a: Aof) {
    a.state == Off && a.fd.Some? && a.manifest.list.incrs != [] && !Blank(d, LastIncr(a.manifest).name)
  }

  // The disk just before listing: the BASE is there and, when AOF was being turned
  // on, the temporary INCR has its final name.
  ghost predicate ReadyToList(d: Disk, a: Aof, child: Child, d': Disk, rdb: bool) {
    && child.AofChild?
    && FdOk(d, a.fd) && DiskOk(d') && FdOk(d', a.fd)
    && Read(d'.files, d'.store, BaseName(a.manifest.baseSeq + 1, rdb)) == Some(Snapshot(child.snapshot))
    && (a.fd.Some? ==> d'.store[a.fd.value] == d.store[a.fd.value])
    && (a.state == Off ==> d' == d)
    && (a.state != Off ==> a.fd.Some?)
    && (a.state == On ==> a.manifest.list.incrs != [])
    && (a.state == WaitRewrite ==> TempIncrName in d.files)
    && (a.state != Off ==> SurvivingIncr(a).name in d'.files && d'.files[SurvivingIncr(a).name] == a.fd.value)
  }

  lemma ListRewriteServes(d: Disk, a: Aof, child: Child, data: Dataset, durable: Dataset, d': Disk, rdb: bool)
    requires FdOk(d, a.fd) && ManifestOk(a.manifest) && HistOld(a.manifest) && LogOk(d, a, child, data, durable)
    requires ReadyToList(d, a, child, d', rdb) && !KeepsStaleIncr(d, a)
    ensures var m := RewrittenManifest(a, rdb);
            DiskServes(ListDisk(d', m), m, RewrittenPromise(d, a, child, durable)) && HistOld(m)
  {
    var m := RewrittenManifest(a, rdb);
    RewrittenManifestOk(a, rdb);
    if a.state == Off {
      if m.list.incrs == [] {
        RewrittenServesAlone(d', m, child.snapshot);
      } else {
        RewrittenServes(d', m, child.snapshot, Read(d.files, d.store, LastIncr(a.manifest).name).value.entries);
        assert child.snapshot + [] == child.snapshot;
      }
    } else {
      RewrittenServes(d', m, child.snapshot, OpenEntries(d, a));
      if a.state == On {
        SnapshotPlusIncr(durable, child.snapshot, OpenEntries(d, a), a.buf);
      }
    }
  }

  // The server after a finished rewrite: AOF is on unless it was off.
  function RewrittenAof(a: Aof, rdb: bool): Aof {
    a.(manifest := RewrittenManifest(a, rdb), state := if a.state == WaitRewrite then On else a.state)
  }

  lemma ListRewriteLogOk(d: Disk, a: Aof, child: Child, data: Dataset, durable: Dataset, d': Disk, rdb: bool)
    requires FdOk(d, a.fd) && ManifestOk(a.manifest) && HistOld(a.manifest) && LogOk(d, a, child, data, durable)
    requires ReadyToList(d, a, child, d', rdb)
    ensures LogOk(ListDisk(d', RewrittenManifest(a, rdb)), RewrittenAof(a, rdb), child, data, RewrittenPromise(d, a, child, durable))
  {
    hide RewrittenManifest, ManifestOk, HistOld;
    RewrittenManifestOk(a, rdb);
    var d4, a4 := ListDisk(d', RewrittenManifest(a, rdb)), RewrittenAof(a, rdb);
    if a.state == WaitRewrite {
      CaughtUp(d, a, child, data);
      assert OpenEntries(d4, a4) == OpenEntries(d, a) && OpenLog(d4, a4) == OpenLog(d, a);
    } else if a.state == Off && a.fd.Some? {
      SpareAfterListing(d, a, child, d', rdb);
    }
  }

  // What the renamed INCR holds and what is buffered make the dataset.
  lemma CaughtUp(d: Disk, a: Aof, child: Child, data: Dataset)
    requires child.AofChild? && TempIncrName in d.files && CatchesUp(d, a, child, data)
    ensures data == child.snapshot + Replay(OpenEntries(d, a), 0) + Replay(a.buf, DbAfter(OpenEntries(d, a), 0))
  {
    var es, buf := OpenEntries(d, a), a.buf;
    ReplayConcat(es, buf, 0);
    var x, y := Replay(es, 0), Replay(buf, DbAfter(es, 0));
    assert child.snapshot + (x + y) == child.snapshot + x + y;
  }

  // With AOF off the descriptor left open is not that of the new BASE, nor of an INCR.
  lemma SpareAfterListing(d: Disk, a: Aof, child: Child, d': Disk, rdb: bool)
    requires ReadyToList(d, a, child, d', rdb) && a.state == Off && a.fd.Some? && ManifestOk(a.manifest) && HistOld(a.manifest) && FdSpare(d, a)
    ensures FdSpare(ListDisk(d', RewrittenManifest(a, rdb)), RewrittenAof(a, rdb))
  {
    hide RewrittenManifest, ManifestOk, HistOld;
    RewrittenManifestOk(a, rdb);
    var m := RewrittenManifest(a, rdb);
    forall n <- d'.files | LiveName(m.list, n)
      ensures d'.files[n] != a.fd.value
    {
      if a.manifest.list.incrs != [] {
        assert LiveName(a.manifest.list, LastIncr(a.manifest).name);
      }
    }
  }

  lemma ListRewriteBackupOk(d: Disk, a: Aof, child: Child, b: Backup, sealed: Dataset, d': Disk, rdb: bool)
    requires DiskOk(d) && BackupOk(d, a, child, b, sealed) && child.AofChild?
    requires d'.backup == d.backup && d'.backupManifest == d.backupManifest
    requires forall i <- d.store :: i in d'.store && d'.store[i] == d.store[i]
    requires b.state == Sealed ==> PinsOld(d', a.manifest)
    ensures BackupOk(ListDisk(d', RewrittenManifest(a, rdb)), RewrittenAof(a, rdb), child, b, sealed)
  {
    hide RewrittenManifest, DiskOk;
    if b.state == Sealed {
      InodesKept(d, d');
      BackupFrame(d, ListDisk(d', RewrittenManifest(a, rdb)));
      RewrittenPinsOld(ListDisk(d', RewrittenManifest(a, rdb)), a, rdb);
    }
  }

  lemma InodesKept(d: Disk, d': Disk)
    requires DiskOk(d) && (forall i <- d.store :: i in d'.store && d'.store[i] == d.store[i])
    ensures forall n <- d.backup :: d.backup[n] in d.store && d.backup[n] in d'.store && d.store[d.backup[n]] == d'.store[d.backup[n]]
  {
  }

  // The disk once a finished rewrite is listed.
  function Renamed(d: Disk, a: Aof): Disk {
    if a.state == WaitRewrite && TempIncrName in d.files then Rename(d, TempIncrName, IncrName(a.manifest.incrSeq + 1)) else d
  }

  function PublishedDisk(d: Disk, a: Aof, snapshot: Dataset, rdb: bool): Disk {
    ListDisk(Renamed(Installed(d, a, snapshot, rdb), a), RewrittenManifest(a, rdb))
  }

  // The disk once a rewrite that could not be listed is cleared away, from where its BASE is
  // in place.
  function AbandonedDisk(d: Disk, a: Aof, rdb: bool, renameIncrOk: bool): Disk {
    var bn := BaseName(a.manifest.baseSeq + 1, rdb);
    if a.state == WaitRewrite && renameIncrOk && TempIncrName in d.files
    then Unlink(Unlink(Renamed(d, a), bn), IncrName(a.manifest.incrSeq + 1))
    else Unlink(d, bn)
  }

  // The disk after a child that did not get listed.
  function SettledDisk(d: Disk, a: Aof, snapshot: Dataset, rdb: bool, installed: bool, renameIncrOk: bool): Disk {
    var d' := if installed then AbandonedDisk(Installed(d, a, snapshot, rdb), a, rdb, renameIncrOk) else d;
    if a.state == WaitRewrite then Unlink(d', TempIncrName) else d'
  }

  // Clearing away removes the two files of the rewrite and nothing else.
  lemma AbandonedLeaves(d: Disk, a: Aof, snapshot: Dataset, rdb: bool, renameIncrOk: bool)
    requires DiskOk(d)
    ensures var d' := AbandonedDisk(Installed(d, a, snapshot, rdb), a, rdb, renameIncrOk);
            var bn, inc := BaseName(a.manifest.baseSeq + 1, rdb), IncrName(a.manifest.incrSeq + 1);
            && d'.manifest == d.manifest && d'.backup == d.backup && d'.backupManifest == d.backupManifest
            && d'.files == d.files - {bn} - (if a.state == WaitRewrite && renameIncrOk && TempIncrName in d.files then {inc, TempIncrName} else {})
            && (forall i <- d.store :: i in d'.store && d'.store[i] == d.store[i])
  {
  }

  // It leaves no trace: no BASE, no INCR and no temporary INCR of that rewrite, and everything
  // else as it was.
  lemma SettledLeavesNothing(d: Disk, a: Aof, snapshot: Dataset, rdb: bool, installed: bool, renameIncrOk: bool)
    requires DiskOk(d)
    ensures var d' := SettledDisk(d, a, snapshot, rdb, installed, renameIncrOk);
            var bn, inc := BaseName(a.manifest.baseSeq + 1, rdb), IncrName(a.manifest.incrSeq + 1);
            && d'.manifest == d.manifest && d'.backup == d.backup && d'.backupManifest == d.backupManifest
            && (installed ==> bn !in d'.files)
            && (a.state == WaitRewrite ==> TempIncrName !in d'.files)
            && (a.state == WaitRewrite && installed && renameIncrOk && TempIncrName in d.files ==> inc !in d'.files)
            && (forall n <- d'.files :: n in d.files && d'.files[n] == d.files[n])
            && (forall n <- d.files | n != bn && n != inc && n != TempIncrName :: n in d'.files)
            && (forall i <- d.store :: i in d'.store && d'.store[i] == d.store[i])
  {
    AbandonedLeaves(d, a, snapshot, rdb, renameIncrOk);
    hide AbandonedDisk, Installed, DiskOk;
  }

  // What listing a rewrite starts from: `d` kept the promise, `d'` is the disk now.
  ghost predicate ListsFrom(d: Disk, a: Aof, child: Child, data: Dataset, b: Backup, g: Oath, d': Disk, rdb: bool) {
    && Inv(d, a, child, data, b, g) && child.AofChild?
    && DiskOk(d') && FdOk(d', a.fd)
    && (g.intact ==>
          && ReadyToList(d, a, child, d', rdb)
          && d'.backup == d.backup && d'.backupManifest == d.backupManifest
          && (forall i <- d.store :: i in d'.store && d'.store[i] == d.store[i])
          && (b.state == Sealed ==> PinsOld(d', a.manifest)))
  }

  // A finished rewrite, listed.
  lemma ListedInv(d: Disk, a: Aof, child: Child, data: Dataset, b: Backup, g: Oath, d': Disk, rdb: bool)
    requires ListsFrom(d, a, child, data, b, g, d', rdb)
    ensures var g' := g.(durable := RewrittenPromise(d, a, child, g.durable), intact := g.intact && !KeepsStaleIncr(d', a));
            Inv(ListDisk(d', RewrittenManifest(a, rdb)), RewrittenAof(a, rdb), child, data, b, g')
  {
    hide Starting, LogOk, DiskServes, BackupOk, ReadyToList, RewrittenManifest, RewrittenPromise, TrailOk, KeepsStaleIncr;
    InvParts(d, a, child, data, b, g);
    ListSound(d', a, rdb);
    if g.intact {
      SameWhenOff(d, a, child, d', rdb);
      if !KeepsStaleIncr(d', a) {
        ListRewriteServes(d, a, child, data, g.durable, d', rdb);
        ListRewriteLogOk(d, a, child, data, g.durable, d', rdb);
        ListRewriteBackupOk(d, a, child, b, g.sealed, d', rdb);
      }
    }
    ListedOf(d, a, child, data, b, g, d', rdb);
  }

  lemma SameWhenOff(d: Disk, a: Aof, child: Child, d': Disk, rdb: bool)
    requires ReadyToList(d, a, child, d', rdb)
    ensures KeepsStaleIncr(d', a) == KeepsStaleIncr(d, a)
  {
  }

  lemma ListedOf(d: Disk, a: Aof, child: Child, data: Dataset, b: Backup, g: Oath, d': Disk, rdb: bool)
    requires child.AofChild? && TrailOk(g.trail) && Sound(ListDisk(d', RewrittenManifest(a, rdb)), RewrittenAof(a, rdb))
    requires g.intact && !KeepsStaleIncr(d', a) ==>
               && DiskServes(ListDisk(d', RewrittenManifest(a, rdb)), RewrittenManifest(a, rdb), RewrittenPromise(d, a, child, g.durable))
               && HistOld(RewrittenManifest(a, rdb))
               && LogOk(ListDisk(d', RewrittenManifest(a, rdb)), RewrittenAof(a, rdb), child, data, RewrittenPromise(d, a, child, g.durable))
               && BackupOk(ListDisk(d', RewrittenManifest(a, rdb)), RewrittenAof(a, rdb), child, b, g.sealed)
    ensures var g' := g.(durable := RewrittenPromise(d, a, child, g.durable), intact := g.intact && !KeepsStaleIncr(d', a));
            Inv(ListDisk(d', RewrittenManifest(a, rdb)), RewrittenAof(a, rdb), child, data, b, g')
  {
    hide LogOk, DiskServes, BackupOk, RewrittenManifest, RewrittenPromise, TrailOk, KeepsStaleIncr, Sound;
  }

  lemma ListSound(d: Disk, a: Aof, rdb: bool)
    requires DiskOk(d) && FdOk(d, a.fd)
    ensures Sound(ListDisk(d, RewrittenManifest(a, rdb)), RewrittenAof(a, rdb))
  {
  }

  // Ready to list without a rename: AOF on or off.
  lemma ListsFromHere(d: Disk, a: Aof, child: Child, data: Dataset, b: Backup, g: Oath, rdb: bool)
    requires Inv(d, a, child, data, b, g) && child.AofChild? && a.state != WaitRewrite
    requires Read(d.files, d.store, BaseName(a.manifest.baseSeq + 1, rdb)) == Some(Snapshot(child.snapshot))
    ensures ListsFrom(d, a, child, data, b, g, d, rdb)
  {
    hide DiskServes, PinsOld, Recover, TrailOk;
  }

  // Ready to list after the rename: AOF was being turned on.
  lemma RenamedReady(d: Disk, a: Aof, child: Child, data: Dataset, b: Backup, g: Oath, rdb: bool)
    requires Inv(d, a, child, data, b, g) && g.intact && child.AofChild? && a.state == WaitRewrite && TempIncrName in d.files
    requires Read(d.files, d.store, BaseName(a.manifest.baseSeq + 1, rdb)) == Some(Snapshot(child.snapshot))
    ensures var d' := Rename(d, TempIncrName, IncrName(a.manifest.incrSeq + 1));
            && ReadyToList(d, a, child, d', rdb) && (b.state == Sealed ==> PinsOld(d', a.manifest))
            && DiskServes(d', a.manifest, g.durable)
  {
    hide DiskServes, PinsOld, Recover;
    InvParts(d, a, child, data, b, g);
    NewNames(a.manifest, rdb);
    RenameOk(d, IncrName(a.manifest.incrSeq + 1));
    RenameServes(d, a.manifest, g.durable, IncrName(a.manifest.incrSeq + 1));
    if b.state == Sealed {
      RenamePinsOld(d, a.manifest, IncrName(a.manifest.incrSeq + 1));
    }
  }

  lemma ListsFromRenamed(d: Disk, a: Aof, child: Child, data: Dataset, b: Backup, g: Oath, rdb: bool, g': Oath)
    requires Inv(d, a, child, data, b, g) && child.AofChild? && a.state == WaitRewrite && TempIncrName in d.files
    requires Read(d.files, d.store, BaseName(a.manifest.baseSeq + 1, rdb)) == Some(Snapshot(child.snapshot))
    requires g' == g.(trail := g'.trail) && TrailOk(g'.trail)
    ensures ListsFrom(d, a, child, data, b, g', Rename(d, TempIncrName, IncrName(a.manifest.incrSeq + 1)), rdb)
  {
    hide DiskServes, PinsOld, Recover, TrailOk, LogOk, BackupOk, ReadyToList;
    RenameOk(d, IncrName(a.manifest.incrSeq + 1));
    if g.intact {
      RenamedReady(d, a, child, data, b, g, rdb);
    }
  }

  // ---------- a rewrite that failed ----------

  // What the cleanup of a failed rewrite leaves of the log state.
  function Cleaned(a: Aof): Aof {
    if a.state == WaitRewrite then a.(buf := []) else a
  }

  // The child is gone and, if AOF was being turned on, its buffer with it.
  ghost predicate AfterChild(d: Disk, a: Aof, gone: Child, data: Dataset, b: Backup, g: Oath) {
    Core(d, a, NoChild, data, g) && (g.intact ==> gone.AofChild? && BackupOk(d, a, gone, b, g.sealed))
  }

  lemma ChildGone(d: Disk, a: Aof, child: Child, data: Dataset, b: Backup, g: Oath)
    requires Inv(d, a, child, data, b, g) && child.AofChild?
    ensures AfterChild(d, Cleaned(a), child, data, b, g)
  {
    hide DiskServes, DiskOk, PinsOld, TrailOk;
  }

  lemma UnlinkLogOk(d: Disk, a: Aof, data: Dataset, durable: Dataset, n: Name)
    requires LogOk(d, a, NoChild, data, durable) && !LiveName(a.manifest.list, n)
    ensures LogOk(Unlink(d, n), a, NoChild, data, durable)
  {
    if a.state == On {
      assert LiveName(a.manifest.list, LastIncr(a.manifest).name);
    }
  }

  lemma UnlinkBackupOk(d: Disk, a: Aof, child: Child, b: Backup, sealed: Dataset, n: Name)
    requires DiskOk(d) && BackupOk(d, a, child, b, sealed) && !LiveName(a.manifest.list, n)
    ensures BackupOk(Unlink(d, n), a, child, b, sealed)
  {
    UnlinkOk(d, n);
  }

  lemma DropFileAfterChild(d: Disk, a: Aof, gone: Child, data: Dataset, b: Backup, g: Oath, n: Name)
    requires AfterChild(d, a, gone, data, b, g) && (g.intact ==> !LiveName(a.manifest.list, n))
    ensures AfterChild(Unlink(d, n), a, gone, data, b, g)
  {
    hide LogOk, DiskServes, BackupOk, TrailOk, LiveName;
    UnlinkOk(d, n);
    if g.intact {
      OtherFileKeepsServing(d, Unlink(d, n), a.manifest, g.durable, n);
      UnlinkLogOk(d, a, data, g.durable, n);
      UnlinkBackupOk(d, a, gone, b, g.sealed, n);
    }
  }

  lemma RenameLogOk(d: Disk, a: Aof, data: Dataset, durable: Dataset, child: Child)
    requires DiskOk(d) && ManifestOk(a.manifest) && LogOk(d, a, child, data, durable) && a.state == WaitRewrite && TempIncrName in d.files
    ensures LogOk(Rename(d, TempIncrName, IncrName(a.manifest.incrSeq + 1)), Cleaned(a), NoChild, data, durable)
  {
    NewNames(a.manifest, true);
  }

  // Renaming the temporary INCR, seen from after the child.
  lemma RenameAfterChild(d: Disk, a: Aof, child: Child, data: Dataset, b: Backup, g: Oath, rdb: bool)
    requires Inv(d, a, child, data, b, g) && child.AofChild? && a.state == WaitRewrite && TempIncrName in d.files
    requires Read(d.files, d.store, BaseName(a.manifest.baseSeq + 1, rdb)) == Some(Snapshot(child.snapshot))
    ensures AfterChild(Rename(d, TempIncrName, IncrName(a.manifest.incrSeq + 1)), Cleaned(a), child, data, b, g)
  {
    hide DiskServes, PinsOld, Recover, LogOk, TrailOk, ReadyToList, ManifestOk;
    var d' := Rename(d, TempIncrName, IncrName(a.manifest.incrSeq + 1));
    InvParts(d, a, child, data, b, g);
    RenameOk(d, IncrName(a.manifest.incrSeq + 1));
    if g.intact {
      RenamedReady(d, a, child, data, b, g, rdb);
      RenameLogOk(d, a, data, g.durable, child);
      BackupFrame(d, d');
    }
  }

  lemma PromiseUnaffected(d: Disk, a: Aof, child: Child, durable: Dataset, rdb: bool, x: Dataset)
    requires Sound(d, a) && child.AofChild?
    ensures RewrittenPromise(Installed(d, a, x, rdb), a, child, durable) == RewrittenPromise(d, a, child, durable)
    ensures KeepsStaleIncr(Installed(d, a, x, rdb), a) == KeepsStaleIncr(d, a) || (a.manifest.list.incrs != [] && LastIncr(a.manifest).name.BaseName?)
  {
  }

  // ---------- unfolding ----------

  lemma CleanedRecoverable(d: Disk, a: Aof, data: Dataset, g: Oath)
    requires Recoverable(d, Cleaned(a), data, g, a.state == On)
    ensures Recoverable(d, a, data, g, a.state == On)
  {
    hide TrailOk, Restartable;
  }

  lemma AfterChildTrail(d: Disk, a: Aof, gone: Child, data: Dataset, b: Backup, g: Oath, g': Oath)
    requires AfterChild(d, a, gone, data, b, g) && g' == g.(trail := g'.trail) && TrailOk(g'.trail)
    ensures AfterChild(d, a, gone, data, b, g')
  {
    hide TrailOk;
  }

  lemma AfterChildParts(d: Disk, a: Aof, gone: Child, data: Dataset, b: Backup, g: Oath)
    requires AfterChild(d, a, gone, data, b, g)
    ensures Sound(d, a) && TrailOk(g.trail)
    ensures g.intact ==> DiskServes(d, a.manifest, g.durable) && ManifestOk(a.manifest)
    ensures Recoverable(d, a, data, g, a.state == On)
  {
    CoreParts(d, a, NoChild, data, g);
  }

  lemma UnlinkAccounts(d: Disk, a: Aof, durable: Dataset, data: Dataset, n: Name)
    ensures Accounts(Unlink(d, n), a, durable, data) == Accounts(d, a, durable, data)
  {
  }

  lemma ListAccounts(d: Disk, a: Aof, durable: Dataset, data: Dataset, m: Manifest)
    ensures Accounts(d, a.(manifest := m), durable, data) == Accounts(d, a, durable, data)
    ensures Accounts(ListDisk(d, m), a.(manifest := m), durable, data) == Accounts(d, a, durable, data)
  {
  }

  lemma ServingRecoverable(d: Disk, a: Aof, data: Dataset, g: Oath, on: bool)
    requires Sound(d, a) && TrailOk(g.trail)
    requires g.intact ==> DiskServes(d, a.manifest, g.durable) && (on ==> Accounts(d, a, g.durable, data))
    ensures Recoverable(d, a, data, g, on)
  {
  }

  // With a log that was on or being turned on, a listed rewrite is the log on disk.
  lemma ListedServing(d: Disk, after: Aof, child: Child, data: Dataset, b: Backup, g: Oath, a: Aof)
    requires Inv(d, after, child, data, b, g) && (a.state != Off ==> after.state == On) && a.fd == after.fd && a.buf == after.buf
    ensures Recoverable(d, a, data, g, a.state != Off)
    ensures g.intact && a.state != Off ==> Accounts(d, a, g.durable, data)
    ensures g.intact && a.state != Off ==> Accounts(d, a.(manifest := after.manifest), g.durable, data)
    ensures Sound(d, a.(manifest := after.manifest))
  {
    hide DiskServes, TrailOk;
    InvParts(d, after, child, data, b, g);
  }

  lemma StaleOnlyOff(d: Disk, d': Disk, a: Aof)
    requires a.state != Off
    ensures !KeepsStaleIncr(d, a) && !KeepsStaleIncr(d', a)
  {
  }

  lemma LastIncrNamed(m: Manifest)
    requires ManifestOk(m)
    ensures m.list.incrs != [] ==> LastIncr(m).name.IncrName?
  {
  }

  lemma CollectedShape(m: Manifest, gcDisabled: bool)
    ensures CollectedManifest(m, gcDisabled).list.base == m.list.base && CollectedManifest(m, gcDisabled).list.incrs == m.list.incrs
  {
  }

  lemma CollectNot(d: Disk, m: Manifest, persistOk: bool)
    ensures CollectedDisk(d, m, true, persistOk) == d && CollectedManifest(m, true) == m
  {
  }

  lemma SoundParts(d: Disk, a: Aof)
    requires Sound(d, a)
    ensures DiskOk(d) && FdOk(d, a.fd)
  {
  }

  lemma UnlinkSound(d: Disk, a: Aof, n: Name)
    requires Sound(d, a)
    ensures Sound(Unlink(d, n), a)
  {
    UnlinkOk(d, n);
  }

  lemma ManifestSound(d: Disk, a: Aof, m: Manifest)
    requires Sound(d, a)
    ensures Sound(d, a.(manifest := m)) && Sound(ListDisk(d, m), a.(manifest := m))
  {
  }

  lemma InstalledFile(d: Disk, a: Aof, rdb: bool, x: Dataset)
    ensures var d' := Installed(d, a, x, rdb);
            Read(d'.files, d'.store, BaseName(a.manifest.baseSeq + 1, rdb)) == Some(Snapshot(x))
  {
  }
}
