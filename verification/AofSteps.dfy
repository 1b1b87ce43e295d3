/**
 * The elementary steps of the append-only file protocol: each lemma takes a server
 * that keeps its promise and shows that the step's new state and history still do.
 */
module AofSteps {
  import opened Prelude
  import opened AofLog
  import opened AofDisk
  import opened AofInvariant

  // ---------- feeding ----------

  // Extending the buffer by entries that replay to one call.
  lemma ExtendReplay(es: seq<Entry>, buf: seq<Entry>, x: seq<Entry>, c: Call)
    requires Replay(x, DbAfter(es + buf, 0)) == [c]
    ensures Replay(buf + x, DbAfter(es, 0)) == Replay(buf, DbAfter(es, 0)) + [c]
    ensures Replay(es + (buf + x), 0) == Replay(es + buf, 0) + [c]
    ensures DbAfter(es + (buf + x), 0) == DbAfter(x, DbAfter(es + buf, 0))
  {
    ReplayConcat(es, buf, 0);
    ReplayConcat(buf, x, DbAfter(es, 0));
    ReplayConcat(es + buf, x, 0);
    assert es + (buf + x) == es + buf + x;
  }

  // Whether feedAppendOnlyFile keeps what it is given.
  predicate Collects(a: Aof, child: Child) {
    a.state == On || (a.state == WaitRewrite && child.AofChild?)
  }

  lemma FeedLogOk(d: Disk, a: Aof, child: Child, data: Dataset, durable: Dataset, c: Call, x: seq<Entry>, selected: int)
    requires LogOk(d, a, child, data, durable) && Collects(a, child)
    requires WellFormedCall(c) && FeedOne(a.selected, c) == (x, selected)
    ensures LogOk(d, a.(buf := a.buf + x, selected := selected), child, data + [c], durable)
  {
    FedEndsWithCommand(a.selected, c);
    if a.state == On || TempIncrName in d.files {
      var es, buf := OpenEntries(d, a), a.buf;
      FeedOneReplays(a.selected, c, DbAfter(es + buf, 0));
      ExtendReplay(es, buf, x, c);
      if child.AofChild? {
        assert child.snapshot + Replay(es + buf, 0) + [c] == child.snapshot + (Replay(es + buf, 0) + [c]);
      }
      assert durable + Replay(buf, DbAfter(es, 0)) + [c] == durable + (Replay(buf, DbAfter(es, 0)) + [c]);
    }
  }

  // Nothing is collected: only the dataset and the remembered database move.
  lemma FeedDroppedLogOk(d: Disk, a: Aof, child: Child, data: Dataset, data': Dataset, durable: Dataset, selected: int)
    requires LogOk(d, a, child, data, durable) && !Collects(a, child) && selected >= UNSELECTED
    ensures LogOk(d, a.(selected := selected), child, data', durable)
  {
  }

  lemma FedBackupOk(d: Disk, a: Aof, a': Aof, child: Child, b: Backup, sealed: Dataset)
    requires BackupOk(d, a, child, b, sealed) && a' == a.(buf := a'.buf, selected := a'.selected)
    ensures BackupOk(d, a', child, b, sealed)
  {
    hide PinsOld;
  }

  // What feedAppendOnlyFile does to the log state.
  function Fed(a: Aof, child: Child, c: Call): Aof
    requires WellFormedCall(c)
  {
    var r := FeedOne(a.selected, c);
    if a.state == Off then a
    else if Collects(a, child) then a.(buf := a.buf + r.0, selected := r.1)
    else a.(selected := r.1)
  }

  lemma FeedInv(d: Disk, a: Aof, child: Child, data: Dataset, b: Backup, g: Oath, c: Call)
    requires Inv(d, a, child, data, b, g) && WellFormedCall(c)
    ensures Inv(d, Fed(a, child, c), child, data + [c], b, g)
  {
    hide DiskOk, DiskServes, LogOk, BackupOk, TrailOk;
    var r := FeedOne(a.selected, c);
    if g.intact {
      FedBackupOk(d, a, Fed(a, child, c), child, b, g.sealed);
      if Collects(a, child) {
        FeedLogOk(d, a, child, data, g.durable, c, r.0, r.1);
      } else {
        LogOkSelected(d, a, child, data, g.durable);
        FeedDroppedLogOk(d, a, child, data, data + [c], g.durable, Fed(a, child, c).selected);
      }
    }
  }

  lemma LogOkSelected(d: Disk, a: Aof, child: Child, data: Dataset, durable: Dataset)
    requires LogOk(d, a, child, data, durable)
    ensures a.selected >= UNSELECTED
  {
  }

  // ---------- flushing ----------

  // Moving the first k buffered entries into the open file.
  lemma MoveReplay(es: seq<Entry>, buf: seq<Entry>, k: nat)
    requires k <= |buf|
    ensures es + buf == (es + buf[..k]) + buf[k..]
    ensures DbAfter(es + buf[..k], 0) == DbAfter(buf[..k], DbAfter(es, 0))
    ensures Replay(buf, DbAfter(es, 0)) == Replay(buf[..k], DbAfter(es, 0)) + Replay(buf[k..], DbAfter(es + buf[..k], 0))
  {
    assert buf[..k] + buf[k..] == buf;
    ReplayConcat(es, buf[..k], 0);
    ReplayConcat(buf[..k], buf[k..], DbAfter(es, 0));
  }

  function Min(x: nat, y: nat): nat {
    if x < y then x else y
  }

  // What flushAppendOnlyFile leaves behind when `written` entries get through.
  predicate Writes(d: Disk, a: Aof) {
    a.buf != [] && a.fd.Some? && FdOk(d, a.fd)
  }

  function FlushedDisk(d: Disk, a: Aof, written: nat): Disk {
    if Writes(d, a) then Append(d, a.fd.value, a.buf[..Min(written, |a.buf|)]) else d
  }

  function FlushedAof(a: Aof, written: nat): Aof {
    if a.fd.Some? then a.(buf := a.buf[Min(written, |a.buf|)..]) else a
  }

  // What the written entries add to the promise.
  function FlushedPromise(d: Disk, a: Aof, durable: Dataset, written: nat): Dataset {
    if a.state == On && Writes(d, a) then durable + Replay(a.buf[..Min(written, |a.buf|)], DbAfter(OpenEntries(d, a), 0))
    else durable
  }

  lemma FlushLogOk(d: Disk, a: Aof, child: Child, data: Dataset, durable: Dataset, written: nat)
    requires LogOk(d, a, child, data, durable) && Writes(d, a)
    ensures LogOk(FlushedDisk(d, a, written), FlushedAof(a, written), child, data, FlushedPromise(d, a, durable, written))
  {
    var es, buf, k := OpenEntries(d, a), a.buf, Min(written, |a.buf|);
    MoveReplay(es, buf, k);
    var x, y := Replay(buf[..k], DbAfter(es, 0)), Replay(buf[k..], DbAfter(es + buf[..k], 0));
    assert durable + (x + y) == durable + x + y;
    assert OpenLog(FlushedDisk(d, a, written), FlushedAof(a, written)) == OpenLog(d, a);
  }

  lemma FlushServes(d: Disk, a: Aof, child: Child, data: Dataset, durable: Dataset, written: nat)
    requires Sound(d, a) && DiskServes(d, a.manifest, durable) && LogOk(d, a, child, data, durable) && Writes(d, a)
    ensures DiskServes(FlushedDisk(d, a, written), a.manifest, FlushedPromise(d, a, durable, written))
  {
    var d', es := FlushedDisk(d, a, written), a.buf[..Min(written, |a.buf|)];
    if a.state == On {
      AppendServes(d, a.manifest, durable, a.fd.value, es);
    } else {
      forall x: Name | LiveName(a.manifest.list, x)
        ensures Read(d.files, d.store, x) == Read(d'.files, d'.store, x)
      {
      }
      ServesFrame(d, d', a.manifest, durable);
    }
  }

  // Writing to the open file never touches a sealed backup.
  lemma FlushBackupOk(d: Disk, a: Aof, child: Child, b: Backup, sealed: Dataset, written: nat)
    requires Sound(d, a) && BackupOk(d, a, child, b, sealed) && Writes(d, a)
    ensures BackupOk(FlushedDisk(d, a, written), FlushedAof(a, written), child, b, sealed)
  {
    if b.state == Sealed {
      var d' := FlushedDisk(d, a, written);
      forall n <- d.backup
        ensures d.store[d.backup[n]] == d'.store[d.backup[n]]
      {
        assert d.backup[n] in d.backup.Values;
      }
      BackupFrame(d, d');
    }
  }

  lemma FlushSound(d: Disk, a: Aof, written: nat)
    requires Sound(d, a)
    ensures Sound(FlushedDisk(d, a, written), FlushedAof(a, written))
  {
  }

  lemma FlushCore(d: Disk, a: Aof, child: Child, data: Dataset, g: Oath, written: nat)
    requires Core(d, a, child, data, g) && Writes(d, a)
    ensures Core(FlushedDisk(d, a, written), FlushedAof(a, written), child, data,
                 if g.intact then g.(durable := FlushedPromise(d, a, g.durable, written)) else g)
  {
    hide LogOk, DiskServes, DiskOk, TrailOk;
    FlushSound(d, a, written);
    if g.intact {
      FlushLogOk(d, a, child, data, g.durable, written);
      FlushServes(d, a, child, data, g.durable, written);
    }
  }

  // A forced flush that leaves entries in the buffer.
  predicate ShortFlush(a: Aof, written: nat) {
    a.state == On && written < |a.buf|
  }

  lemma OnHasFd(d: Disk, a: Aof, child: Child, data: Dataset, durable: Dataset)
    requires LogOk(d, a, child, data, durable) && a.state == On
    ensures a.fd.Some? && FdOk(d, a.fd)
  {
  }

  // ---------- rotating ----------

  // The file a rotation opens.
  function RotationName(a: Aof): Name {
    if a.state == On then IncrName(a.manifest.incrSeq + 1) else TempIncrName
  }

  // Names that come next are not in use.
  lemma NewNames(m: Manifest, rdb: bool)
    requires ManifestOk(m)
    ensures !LiveName(m.list, IncrName(m.incrSeq + 1)) && !LiveName(m.list, TempIncrName)
    ensures !LiveName(m.list, BaseName(m.baseSeq + 1, rdb))
  {
  }

  lemma CreateEmptyOk(d: Disk, n: Name)
    requires DiskOk(d) && !n.BaseName?
    ensures var r := CreateEmpty(d, n);
            && DiskOk(r.0) && r.1 in r.0.store && r.0.store[r.1] == Log([])
            && n in r.0.files && r.0.files[n] == r.1
            && r.0.files.Keys == d.files.Keys + {n}
            && (forall x <- d.files | x != n :: r.0.files[x] == d.files[x] && r.0.store[d.files[x]] == d.store[d.files[x]])
            && (forall i <- d.store | i != r.1 :: i in r.0.store && r.0.store[i] == d.store[i])
  {
  }

  lemma CreatedFile(d: Disk, a: Aof)
    requires Sound(d, a)
    ensures var r := CreateEmpty(d, RotationName(a));
            && RotationName(a) in r.0.files && r.0.files[RotationName(a)] == r.1
            && r.1 in r.0.store && r.0.store[r.1] == Log([])
  {
    CreateEmptyOk(d, RotationName(a));
  }

  // The file a rotation opens is not the one already open for a log that is on.
  lemma CreateLogOk(d: Disk, a: Aof, child: Child, data: Dataset, durable: Dataset)
    requires DiskOk(d) && ManifestOk(a.manifest) && LogOk(d, a, child, data, durable) && !child.AofChild?
    ensures LogOk(CreateEmpty(d, RotationName(a)).0, a, child, data, durable)
  {
    var n := RotationName(a);
    CreateEmptyOk(d, n);
    NewNames(a.manifest, true);
    if a.state == On {
      assert LiveName(a.manifest.list, LastIncr(a.manifest).name);
    }
  }

  // First crash point of a rotation: the new file exists but is not listed.
  lemma CreateCore(d: Disk, a: Aof, child: Child, data: Dataset, g: Oath)
    requires Core(d, a, child, data, g) && (g.intact ==> !child.AofChild?)
    ensures var r := CreateEmpty(d, RotationName(a)); Core(r.0, a, child, data, g) && FdOk(r.0, Some(r.1))
  {
    hide LogOk, DiskServes, TrailOk, DiskOk;
    var n := RotationName(a);
    CreateEmptyOk(d, n);
    CreateFdOk(d, a);
    if g.intact {
      CoreParts(d, a, child, data, g);
      NewNames(a.manifest, true);
      OtherFileKeepsServing(d, CreateEmpty(d, n).0, a.manifest, g.durable, n);
      CreateLogOk(d, a, child, data, g.durable);
    }
  }

  lemma CreateFdOk(d: Disk, a: Aof)
    requires FdOk(d, a.fd)
    ensures FdOk(CreateEmpty(d, RotationName(a)).0, a.fd)
  {
  }

  // While AOF is being turned on without a child, the temporary INCR becomes the open file.
  lemma OpenTempCore(d: Disk, a: Aof, child: Child, data: Dataset, g: Oath, i: Inode)
    requires Core(d, a, child, data, g) && a.state == WaitRewrite && (g.intact ==> !child.AofChild?)
    requires FdOk(d, Some(i)) && TempIncrName in d.files && d.files[TempIncrName] == i
    ensures Core(d, a.(fd := Some(i)), child, data, g)
  {
    if g.intact {
      NewNames(a.manifest, true);
    }
  }

  // A log survives a rotation when what is still buffered means the same in a fresh file,
  // and the writer remembers the database that file will be in.
  predicate RotatesSafely(d: Disk, a: Aof) {
    && a.fd.Some? && FdOk(d, a.fd)
    && Replay(a.buf, 0) == Replay(a.buf, DbAfter(OpenEntries(d, a), 0))
    && Routed(a.selected, DbAfter(a.buf, 0))
  }

  function ListDisk(d: Disk, m: Manifest): Disk {
    d.(manifest := Some(m.list))
  }

  // Last crash point: the new file is listed and open.
  lemma ListCore(d: Disk, a: Aof, child: Child, data: Dataset, g: Oath, i: Inode)
    requires Core(d, a, child, data, g) && a.state == On && (g.intact ==> !child.AofChild?)
    requires var n := RotationName(a); n in d.files && d.files[n] == i && i in d.store && d.store[i] == Log([])
    ensures var g' := g.(intact := g.intact && RotatesSafely(d, a));
            var m := NewIncr(a.manifest);
            Core(ListDisk(d, m), a.(manifest := m, fd := Some(i)), child, data, g')
    ensures g.intact ==> DiskServes(ListDisk(d, NewIncr(a.manifest)), NewIncr(a.manifest), g.durable)
  {
    if g.intact {
      var m := NewIncr(a.manifest);
      CoreParts(d, a, child, data, g);
      PersistNewIncr(d, a.manifest, g.durable);
      NewIncrOk(a.manifest);
      assert OpenEntries(ListDisk(d, m), a.(manifest := m, fd := Some(i))) == [];
      assert OpenLog(ListDisk(d, m), a.(manifest := m, fd := Some(i))) == a.buf;
      assert LastIncr(m).name == IncrName(a.manifest.incrSeq + 1);
    }
  }

  // What openNewIncrAofForAppend leaves behind.
  function RotatedDisk(d: Disk, a: Aof, openOk: bool, persistOk: bool): Disk {
    if a.state == Off || !openOk then d
    else
      var r := CreateEmpty(d, RotationName(a)).0;
      if a.state == On && persistOk then ListDisk(r, NewIncr(a.manifest)) else r
  }

  function RotatedAof(d: Disk, a: Aof, openOk: bool, persistOk: bool): Aof {
    if a.state == Off || !openOk || (a.state == On && !persistOk) then a
    else
      a.(manifest := if a.state == On then NewIncr(a.manifest) else a.manifest,
         fd := Some(CreateEmpty(d, RotationName(a)).1))
  }

  // Creating the next file does not touch the one a log that is on has open.
  lemma CreateKeepsOpenFile(d: Disk, a: Aof, child: Child, data: Dataset, g: Oath)
    requires Core(d, a, child, data, g) && g.intact && a.state == On
    ensures RotatesSafely(CreateEmpty(d, RotationName(a)).0, a) == RotatesSafely(d, a)
  {
    CoreParts(d, a, child, data, g);
    CreateEmptyOk(d, RotationName(a));
    NewNames(a.manifest, true);
    assert LiveName(a.manifest.list, LastIncr(a.manifest).name);
  }

  // A new inode, or a truncated one no backup pins, leaves the backup alone.
  lemma CreateKeepsBackup(d: Disk, m: Manifest, n: Name)
    requires DiskOk(d) && PinsOld(d, m) && (n == TempIncrName || n == IncrName(m.incrSeq + 1))
    ensures var r := CreateEmpty(d, n);
            RecoverBackup(r.0) == RecoverBackup(d) && r.1 !in d.backup.Values && PinsOld(r.0, m)
  {
    var r := CreateEmpty(d, n);
    assert forall x <- d.backup :: d.backup[x] != r.1;
    forall x <- d.backup
      ensures d.backup[x] in r.0.store && d.store[d.backup[x]] == r.0.store[d.backup[x]]
    {
      assert d.backup[x] in d.backup.Values;
    }
    BackupFrame(d, r.0);
  }

  // The artifacts of a sealed or sealing backup survive a rotation, which in turn
  // never opens one of them.
  lemma RotatedArtifacts(d: Disk, a: Aof, b: Backup, sealed: Dataset, openOk: bool, persistOk: bool)
    requires Sound(d, a) && Artifacts(d, a.manifest, b, sealed)
    ensures var d', a' := RotatedDisk(d, a, openOk, persistOk), RotatedAof(d, a, openOk, persistOk);
            && Artifacts(d', a'.manifest, b, sealed)
            && (a'.fd == a.fd || (a'.fd.Some? && a'.fd.value !in d'.backup.Values))
            && d'.backup == d.backup
            && (a.state == On && openOk && persistOk ==> a'.fd.Some? && a'.fd.value !in d'.backup.Values)
  {
    if a.state != Off && openOk {
      CreateKeepsBackup(d, a.manifest, RotationName(a));
    }
  }

  lemma RotatedInv(d: Disk, a: Aof, child: Child, data: Dataset, b: Backup, g: Oath, g': Oath, openOk: bool, persistOk: bool)
    requires Inv(d, a, child, data, b, g) && b.state != Snapshotting && b.state != Incrementing
    requires Core(RotatedDisk(d, a, openOk, persistOk), RotatedAof(d, a, openOk, persistOk), child, data, g')
    requires g'.sealed == g.sealed && (g'.intact ==> g.intact)
    ensures Inv(RotatedDisk(d, a, openOk, persistOk), RotatedAof(d, a, openOk, persistOk), child, data, b, g')
  {
    hide Core, LogOk, Artifacts, ManifestOk, CreateEmpty, NewIncr, DiskOk, Recover;
    CoreParts(d, a, child, data, g);
    RotatedDir(d, a, openOk, persistOk);
    if g'.intact && b.state == Sealed {
      RotatedArtifacts(d, a, b, g.sealed, openOk, persistOk);
    }
  }

  lemma RotatedDir(d: Disk, a: Aof, openOk: bool, persistOk: bool)
    ensures RotatedDisk(d, a, openOk, persistOk).backup == d.backup
    ensures RotatedAof(d, a, openOk, persistOk).state == a.state
    ensures RotatedAof(d, a, openOk, persistOk).buf == a.buf
    ensures RotatedAof(d, a, openOk, persistOk).selected == a.selected
  {
  }

  // A rotation keeps every file and, unless it succeeds with AOF on, the manifest.
  lemma RotatedFiles(d: Disk, a: Aof, openOk: bool, persistOk: bool)
    ensures forall n <- d.files :: n in RotatedDisk(d, a, openOk, persistOk).files && RotatedDisk(d, a, openOk, persistOk).files[n] == d.files[n]
    ensures RotatedDisk(d, a, openOk, persistOk).manifest
            == if a.state == On && openOk && persistOk then Some(NewIncr(a.manifest).list) else d.manifest
  {
  }

  // ---------- forking ----------

  lemma UnselectInv(d: Disk, a: Aof, child: Child, data: Dataset, b: Backup, g: Oath)
    requires Inv(d, a, child, data, b, g)
    ensures Inv(d, a.(selected := UNSELECTED), child, data, b, g)
  {
    hide DiskServes, DiskOk, PinsOld, TrailOk;
  }

  // A child forked right after a rotation has seen everything before its INCR.
  lemma ForkLogOk(d: Disk, a: Aof, data: Dataset, durable: Dataset, openOk: bool, persistOk: bool)
    requires DiskOk(d) && (a.state == Off || (openOk && (a.state == On ==> persistOk)))
    requires LogOk(RotatedDisk(d, a, openOk, persistOk), RotatedAof(d, a, openOk, persistOk), NoChild, data, durable)
    requires a.selected == UNSELECTED && (a.state == On ==> a.buf == [])
    ensures LogOk(RotatedDisk(d, a, openOk, persistOk), RotatedAof(d, a, openOk, persistOk), AofChild(data), data, durable)
  {
    if a.state != Off {
      CreateEmptyOk(d, RotationName(a));
      assert OpenLog(RotatedDisk(d, a, openOk, persistOk), RotatedAof(d, a, openOk, persistOk)) == [];
      assert data + [] == data;
    }
  }

  lemma ForkInv(d: Disk, a: Aof, data: Dataset, b: Backup, g: Oath, openOk: bool, persistOk: bool)
    requires Sound(d, a) && (a.state == Off || (openOk && (a.state == On ==> persistOk)))
    requires Inv(RotatedDisk(d, a, openOk, persistOk), RotatedAof(d, a, openOk, persistOk), NoChild, data, b, g)
    requires b.state != Snapshotting && b.state != Incrementing && a.selected == UNSELECTED
    ensures Inv(RotatedDisk(d, a, openOk, persistOk), RotatedAof(d, a, openOk, persistOk), AofChild(data), data, b,
                g.(intact := g.intact && (a.state == On ==> a.buf == [])))
  {
    hide LogOk, DiskServes, DiskOk, RotatedDisk, RotatedAof, PinsOld, TrailOk;
    if g.intact && (a.state == On ==> a.buf == []) {
      ForkLogOk(d, a, data, g.durable, openOk, persistOk);
    }
  }

  // The log and the disk rewriteAppendOnlyFileBackground has prepared when it forks.
  function Unselected(a: Aof): Aof {
    a.(selected := UNSELECTED)
  }

  function ForkingDisk(d: Disk, a: Aof, e: Env): Disk {
    RotatedDisk(FlushedDisk(d, Unselected(a), e.written), FlushedAof(Unselected(a), e.written), e.openOk, e.persistOk)
  }

  function ForkingAof(d: Disk, a: Aof, e: Env): Aof {
    RotatedAof(FlushedDisk(d, Unselected(a), e.written), FlushedAof(Unselected(a), e.written), e.openOk, e.persistOk)
  }

  predicate Rotates(a: Aof, e: Env) {
    a.state == Off || (e.openOk && (a.state == On ==> e.persistOk))
  }

  predicate MayRewrite(child: Child, b: Backup) {
    child == NoChild && b.state != Snapshotting && b.state != Incrementing
  }

  // A forced flush left entries behind, and then the child was forked, or else the entries
  // mean something different in the INCR they will go to.
  predicate ForkHazard(d: Disk, a: Aof, e: Env) {
    && ShortFlush(a, e.written) && e.openOk && e.persistOk
    && (e.forkOk || !RotatesSafely(FlushedDisk(d, Unselected(a), e.written), FlushedAof(Unselected(a), e.written)))
  }

  // A forking server keeps the end of its buffer and, while AOF is being turned on, has a
  // temporary INCR.
  lemma ForkingShape(d: Disk, a: Aof, e: Env)
    ensures Tail(ForkingAof(d, a, e).buf, a.buf) && ForkingAof(d, a, e).state == a.state
    ensures ForkingAof(d, a, e).buf == FlushedAof(Unselected(a), e.written).buf
    ensures a.state == WaitRewrite && e.openOk ==> TempIncrName in ForkingDisk(d, a, e).files
  {
    hide RotatedAof, RotatedDisk, FlushedAof, FlushedDisk;
    FlushedShape(Unselected(a), e.written);
    RotatedDir(FlushedDisk(d, Unselected(a), e.written), FlushedAof(Unselected(a), e.written), e.openOk, e.persistOk);
    if a.state == WaitRewrite && e.openOk {
      TempOpened(FlushedDisk(d, Unselected(a), e.written), FlushedAof(Unselected(a), e.written), e.persistOk);
    }
  }

  lemma TempOpened(d: Disk, a: Aof, persistOk: bool)
    requires a.state == WaitRewrite
    ensures TempIncrName in RotatedDisk(d, a, true, persistOk).files
  {
  }

  lemma ForkHazardOnlyOn(d: Disk, a: Aof, e: Env)
    ensures ForkHazard(d, a, e) ==> a.state == On && Rotates(a, e)
  {
  }

  // What goes wrong at a fork: the rotation itself, or the snapshot taken after it.
  lemma ForkHazardIs(d: Disk, a: Aof, child: Child, data: Dataset, g: Oath, e: Env)
    requires Core(d, a, child, data, g)
    ensures g.intact && a.state == On && Rotates(a, e) ==>
              (ForkHazard(d, a, e) <==>
               || !RotatesSafely(FlushedDisk(d, Unselected(a), e.written), FlushedAof(Unselected(a), e.written))
               || (e.forkOk && FlushedAof(Unselected(a), e.written).buf != []))
    ensures !(a.state == On && Rotates(a, e)) ==> !ForkHazard(d, a, e)
  {
  }

  lemma ForkedInv(d: Disk, a: Aof, data: Dataset, b: Backup, g: Oath, e: Env)
    requires Sound(d, a) && Rotates(a, e) && b.state != Snapshotting && b.state != Incrementing
    requires Inv(ForkingDisk(d, a, e), ForkingAof(d, a, e), NoChild, data, b, g)
    ensures Inv(ForkingDisk(d, a, e), ForkingAof(d, a, e), AofChild(data), data, b,
                g.(intact := g.intact && (a.state == On ==> ForkingAof(d, a, e).buf == [])))
  {
    hide Inv, RotatedDisk, RotatedAof, FlushedDisk, FlushedAof;
    var d1, a1 := FlushedDisk(d, Unselected(a), e.written), FlushedAof(Unselected(a), e.written);
    FlushedShape(Unselected(a), e.written);
    FlushSound(d, Unselected(a), e.written);
    RotatedDir(d1, a1, e.openOk, e.persistOk);
    ForkInv(d1, a1, data, b, g, e.openOk, e.persistOk);
  }

  // Flushing changes the open file and no name.
  lemma FlushedDir(d: Disk, a: Aof, written: nat)
    ensures var d' := FlushedDisk(d, a, written); d' == d.(store := d'.store)
  {
  }

  lemma OffOwesTheSame(d: Disk, a: Aof, durable: Dataset, written: nat)
    ensures a.state != On ==> FlushedPromise(d, a, durable, written) == durable
    ensures durable <= FlushedPromise(d, a, durable, written)
  {
  }

  lemma FlushedShape(a: Aof, written: nat)
    ensures var a' := FlushedAof(a, written);
            Tail(a'.buf, a.buf) && a' == a.(buf := a'.buf) && (a.fd.Some? ==> |a'.buf| == |a.buf| - Min(written, |a.buf|))
  {
  }

  // The disk after a rotation with AOF on, whether or not the log survives it.
  lemma RotatedServes(d: Disk, a: Aof, child: Child, data: Dataset, g: Oath)
    requires Core(d, a, child, data, g) && g.intact && a.state == On && !child.AofChild?
    ensures var d', a' := RotatedDisk(d, a, true, true), RotatedAof(d, a, true, true);
            && DiskServes(d', a'.manifest, g.durable)
            && LastIncr(a'.manifest).name in d'.files && a'.fd == Some(d'.files[LastIncr(a'.manifest).name])
            && a'.fd.value in d'.store && d'.store[a'.fd.value] == Log([])
  {
    hide Core, DiskServes, LogOk;
    CoreParts(d, a, child, data, g);
    CreatedFile(d, a);
    CreateCore(d, a, child, data, g);
    var r := CreateEmpty(d, RotationName(a));
    ListCore(r.0, a, child, data, g, r.1);
  }

  // A flush makes everything durable exactly when it writes the whole buffer.
  lemma FlushAllIff(d: Disk, a: Aof, child: Child, data: Dataset, durable: Dataset, written: nat)
    requires LogOk(d, a, child, data, durable) && a.state == On
    ensures FlushedPromise(d, a, durable, written) == data <==> written >= |a.buf|
  {
    var es, buf, k := OpenEntries(d, a), a.buf, Min(written, |a.buf|);
    MoveReplay(es, buf, k);
    LeftoverReplays(buf[k..], DbAfter(es + buf[..k], 0));
    var x, y := Replay(buf[..k], DbAfter(es, 0)), Replay(buf[k..], DbAfter(es + buf[..k], 0));
    assert durable + (x + y) == durable + x + y;
    if y != [] {
      assert |durable + x + y| > |durable + x|;
    } else {
      assert durable + x + y == durable + x;
    }
  }
}
