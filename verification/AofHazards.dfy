/**
 * What each hazard costs, on the server: for every hazard a sequence of operations after
 * which the disk recovers the dataset if and only if the guard is not met, and a concrete
 * run from a fresh server that loses data.
 */
module AofHazards {
  import opened Prelude
  import opened AofLog
  import opened AofDisk
  import opened AofInvariant
  import opened AofSteps
  import opened AofRewrite
  import opened AofBackup
  import opened AofRestart
  import opened AofServer

  // ---------- feeding and flushing ----------

  // The database remembered after feeding.
  function SelectedAfter(selected: int, calls: seq<Call>): int
    requires forall c <- calls :: WellFormedCall(c)
    decreases calls
  {
    if calls == [] then selected else SelectedAfter(FeedOne(selected, calls[0]).1, calls[1..])
  }

  // Feeding calls to a log that collects them.
  method FeedCalls(s: Server, calls: seq<Call>)
    requires s.Valid() && Collects(s.aof, s.child) && forall c <- calls :: WellFormedCall(c)
    modifies s`aof, s`data
    ensures s.Valid() && s.data == old(s.data) + calls
    ensures s.aof == old(s.aof).(buf := old(s.aof).buf + FeedAll(old(s.aof).selected, calls), selected := SelectedAfter(old(s.aof).selected, calls))
    decreases calls
  {
    hide Inv, FeedAll, FeedOne, SelectedAfter;
    FeedMore(s.data, s.aof.buf, s.aof.selected, calls);
    if calls == [] { return; }
    s.Feed(calls[0]);
    FeedCalls(s, calls[1..]);
  }

  lemma FeedMore(data: Dataset, buf: seq<Entry>, selected: int, calls: seq<Call>)
    requires forall c <- calls :: WellFormedCall(c)
    ensures calls == [] ==> data + calls == data && buf + FeedAll(selected, calls) == buf && SelectedAfter(selected, calls) == selected
    ensures calls != [] ==>
              var r, rest := FeedOne(selected, calls[0]), calls[1..];
              && data + [calls[0]] + rest == data + calls
              && buf + r.0 + FeedAll(r.1, rest) == buf + FeedAll(selected, calls)
              && SelectedAfter(r.1, rest) == SelectedAfter(selected, calls)
  {
    hide FeedOne;
    if calls != [] {
      assert [calls[0]] + calls[1..] == calls;
    }
  }

  // The open log as the listing sees it: its last INCR, with these entries.
  ghost predicate OpenLast(d: Disk, a: Aof, es: seq<Entry>) {
    && a.manifest.list.incrs != []
    && LastIncr(a.manifest).name in d.files && a.fd == Some(d.files[LastIncr(a.manifest).name])
    && a.fd.value in d.store && d.store[a.fd.value] == Log(es)
  }

  // Flushing everything adds the replay of the whole buffer to what is recovered.
  lemma FlushedRecovers(d: Disk, a: Aof, durable: Dataset, es: seq<Entry>)
    requires DiskOk(d) && DiskServes(d, a.manifest, durable) && OpenLast(d, a, es)
    ensures Recover(FlushedDisk(d, a, |a.buf|)) == Some(durable + Replay(a.buf, DbAfter(es, 0)))
  {
    hide DiskOk;
    if a.buf == [] {
      assert durable + [] == durable;
    } else {
      assert a.buf[..|a.buf|] == a.buf;
      AppendServes(d, a.manifest, durable, a.fd.value, a.buf);
    }
  }

  // ---------- a fork after a short flush ----------

  // A rewrite that finishes while AOF is on recovers the snapshot and what the INCR holds.
  lemma PublishServes(d: Disk, a: Aof, snapshot: Dataset, es: seq<Entry>, rdb: bool, gcDisabled: bool, persistOk: bool)
    requires DiskOk(d) && ManifestOk(a.manifest) && HistOld(a.manifest) && a.state == On && OpenLast(d, a, es)
    ensures var m := RewrittenManifest(a, rdb);
            var d' := CollectedDisk(PublishedDisk(d, a, snapshot, rdb), m, gcDisabled, persistOk);
            var a' := RewrittenAof(a, rdb).(manifest := CollectedManifest(m, gcDisabled));
            DiskOk(d') && DiskServes(d', a'.manifest, snapshot + Replay(es, 0)) && OpenLast(d', a', es)
  {
    hide ManifestOk, HistOld, CollectedDisk, CollectedManifest, RewrittenManifest, DiskOk, HistoryGone;
    var m := RewrittenManifest(a, rdb);
    var d1 := PublishedDisk(d, a, snapshot, rdb);
    RewrittenManifestOk(a, rdb);
    InstallOk(d, BaseName(a.manifest.baseSeq + 1, rdb), snapshot);
    LastIncrNamed(a.manifest);
    PublishedDiskOk(d, a, snapshot, rdb);
    RewrittenServes(Installed(d, a, snapshot, rdb), m, snapshot, es);
    CollectedServes(d1, m, snapshot + Replay(es, 0), gcDisabled, persistOk);
    CollectedKeepsLive(d1, m, gcDisabled, persistOk, LastIncr(m).name);
    CollectedShape(m, gcDisabled);
  }

  lemma PublishedDiskOk(d: Disk, a: Aof, snapshot: Dataset, rdb: bool)
    requires DiskOk(d) && a.state != WaitRewrite
    ensures PublishedDisk(d, a, snapshot, rdb) == ListDisk(Installed(d, a, snapshot, rdb), RewrittenManifest(a, rdb))
    ensures DiskOk(PublishedDisk(d, a, snapshot, rdb))
  {
    InstallOk(d, BaseName(a.manifest.baseSeq + 1, rdb), snapshot);
  }

  lemma CollectedKeepsLive(d: Disk, m: Manifest, gcDisabled: bool, persistOk: bool, n: Name)
    requires DiskOk(d) && ManifestOk(m) && n in d.files && LiveName(m.list, n)
    ensures var d' := CollectedDisk(d, m, gcDisabled, persistOk);
            DiskOk(d') && n in d'.files && d'.files[n] == d.files[n] && d'.store == d.store
  {
    hide CollectedDisk, ManifestOk, LiveName;
    var d' := CollectedDisk(d, m, gcDisabled, persistOk);
    CollectedGone(d, m, gcDisabled, persistOk);
    LiveFileKept(d, m, d', CollectedManifest(m, gcDisabled), n);
  }

  /**
   * A rewrite from fork to end, with any calls in between, everything flushed at the end:
   * the disk recovers the dataset if and only if the forced flush before the fork emptied
   * the buffer. Otherwise the leftovers come twice, from the snapshot and from the INCR.
   */
  method RewriteCycle(s: Server, e: Env, calls: seq<Call>, gcPersistOk: bool)
    requires s.Valid() && s.g.intact && s.aof.state == On && MayRewrite(s.child, s.bk)
    requires e.openOk && e.persistOk && e.forkOk && forall c <- calls :: WellFormedCall(c)
    modifies s
    ensures s.Valid() && s.aof.state == On && s.aof.buf == [] && s.data == old(s.data) + calls
    ensures Recover(s.disk) == Some(s.data) <==> e.written >= |old(s.aof).buf|
  {
    hide Inv, ForkingDisk, ForkingAof, RewrittenManifest, PublishedDisk, CollectedDisk, CollectedManifest, DoneHazard, ForkHazard, FlushedDisk, Grows,
         Sound, DiskOk, DiskServes, LogOk, RewrittenPromise, FlushedPromise, Recover, HistOld, ManifestOk, NextFree;
    ghost var data0, rest := s.data, FlushedAof(Unselected(s.aof), e.written).buf;
    ForkedShape(s.disk, s.aof, s.child, s.data, s.bk, s.g, e);
    var ok := s.RewriteBackground(e);
    FeedCalls(s, calls);
    SoundNow(s);
    ghost var d1, a1 := s.disk, s.aof;
    PublishServes(s.disk, s.aof, data0, [], s.rdbPreamble, s.gcDisabled, gcPersistOk);
    ok := s.RewriteDone(true, true, true, true, gcPersistOk, true, 0);
    FlushedRecovers(s.disk, s.aof, data0 + Replay([], 0), []);
    s.FlushBuffer(|s.aof.buf|);
    LeftoversRepeat(data0, rest, calls);
  }

  // The log at the fork: the leftovers are in the buffer and the new INCR is empty.
  lemma ForkedShape(d: Disk, a: Aof, child: Child, data: Dataset, b: Backup, g: Oath, e: Env)
    requires Inv(d, a, child, data, b, g) && g.intact && a.state == On && MayRewrite(child, b) && e.openOk && e.persistOk
    ensures var d', a' := ForkingDisk(d, a, e), ForkingAof(d, a, e);
            && a'.state == On && a'.selected == UNSELECTED
            && a'.buf == FlushedAof(Unselected(a), e.written).buf && EndsWithCommand(a'.buf) && (a'.buf == [] <==> e.written >= |a.buf|)
            && ManifestOk(a'.manifest) && HistOld(a'.manifest) && OpenLast(d', a', [])
  {
    hide Inv, Core, Starting, DiskServes, RotatedDisk, RotatedAof;
    var a0 := Unselected(a);
    UnselectInv(d, a, child, data, b, g);
    InvParts(d, a0, child, data, b, g);
    OnHasFd(d, a0, child, data, g.durable);
    FlushedNow(d, a0, child, data, g, e.written);
    var d1, a1 := FlushedDisk(d, a0, e.written), FlushedAof(a0, e.written);
    ghost var g1 :| Core(d1, a1, child, data, g1) && g1.intact;
    CoreParts(d1, a1, child, data, g1);
    RotatedServes(d1, a1, child, data, g1);
    RotatedManifest(d1, a1);
    RotatedDir(d1, a1, true, true);
    ServesManifest(RotatedDisk(d1, a1, true, true), RotatedAof(d1, a1, true, true).manifest, g1.durable);
  }

  lemma FlushedNow(d: Disk, a: Aof, child: Child, data: Dataset, g: Oath, written: nat)
    requires Core(d, a, child, data, g) && g.intact
    ensures exists g1: Oath :: Core(FlushedDisk(d, a, written), FlushedAof(a, written), child, data, g1) && g1.intact
  {
    hide Core;
    CoreParts(d, a, child, data, g);
    if Writes(d, a) {
      FlushCore(d, a, child, data, g, written);
    } else {
      assert FlushedAof(a, written) == a;
      assert Core(FlushedDisk(d, a, written), FlushedAof(a, written), child, data, g);
    }
  }

  lemma RotatedManifest(d: Disk, a: Aof)
    requires a.state == On && ManifestOk(a.manifest) && HistOld(a.manifest) && NextFree(a.manifest)
    ensures var m := RotatedAof(d, a, true, true).manifest; m == NewIncr(a.manifest) && HistOld(m) && m.list.incrs != []
  {
    NewIncrOk(a.manifest);
  }

  lemma ServesManifest(d: Disk, m: Manifest, durable: Dataset)
    requires DiskServes(d, m, durable)
    ensures ManifestOk(m)
  {
  }

  lemma SoundNow(s: Server)
    requires s.Valid()
    ensures DiskOk(s.disk) && FdOk(s.disk, s.aof.fd)
  {
  }

  lemma LeftoversRepeat(data: Dataset, rest: seq<Entry>, calls: seq<Call>)
    requires EndsWithCommand(rest) && forall c <- calls :: WellFormedCall(c)
    ensures Replay([], 0) == [] && DbAfter([], 0) == 0
    ensures data + Replay([], 0) + Replay(rest + FeedAll(UNSELECTED, calls), 0) == data + calls <==> rest == []
  {
    var fed := FeedAll(UNSELECTED, calls);
    ReplayConcat(rest, fed, 0);
    FeedAllReplays(UNSELECTED, calls, DbAfter(rest, 0));
    LeftoverReplays(rest, 0);
    if rest == [] {
      assert data + [] + ([] + calls) == data + calls;
    } else {
      assert |data + Replay([], 0) + (Replay(rest, 0) + calls)| > |data + calls|;
    }
  }

  // A call, a rewrite forked while it is still buffered, the end of the rewrite: the call
  // is recovered twice.
  method ShortFlushRun(c: Call, e: Env) returns (s: Server)
    requires WellFormedCall(c) && e.openOk && e.persistOk && e.forkOk && e.written == 0
    ensures s.Valid() && s.aof.state == On && s.aof.buf == [] && s.data == [c]
    ensures Recover(s.disk) != Some(s.data)
  {
    hide Inv;
    s := new Server(true, false, true);
    s.Boot();
    s.Feed(c);
    assert |s.aof.buf| > 0;
    RewriteCycle(s, e, [], true);
  }

  // ---------- an INCR kept although it was rewritten ----------

  /**
   * A rewrite that finishes with AOF off and a descriptor left open: the disk recovers the
   * snapshot if and only if the INCR that stays listed replays to nothing.
   */
  method StaleIncrIff(s: Server, gcPersistOk: bool)
    requires s.Valid() && s.g.intact && s.aof.state == Off && s.child.AofChild? && s.bk.state != Snapshotting
    requires s.aof.fd.Some? && s.aof.manifest.list.incrs != []
    modifies s
    ensures s.Valid() && s.data == old(s.data) && s.aof.state == Off && s.child == NoChild
    ensures Recover(s.disk) == Some(old(s.child).snapshot) <==> Blank(old(s.disk), LastIncr(old(s.aof).manifest).name)
  {
    hide Inv, RewrittenManifest, PublishedDisk, CollectedDisk, CollectedManifest, Grows, Sound, DiskServes, LogOk, Recover, HistOld, ManifestOk, NextFree,
         BackupOk, Core, Starting;
    InvParts(s.disk, s.aof, s.child, s.data, s.bk, s.g);
    LastIncrPresent(s.disk, s.aof.manifest, s.g.durable);
    StalePublished(s.disk, s.aof, s.child.snapshot, s.rdbPreamble, s.gcDisabled, gcPersistOk);
    var ok := s.RewriteDone(true, true, true, true, gcPersistOk, true, 0);
  }

  lemma StalePublished(d: Disk, a: Aof, snapshot: Dataset, rdb: bool, gcDisabled: bool, persistOk: bool)
    requires DiskOk(d) && ManifestOk(a.manifest) && HistOld(a.manifest) && a.state == Off && a.fd.Some? && a.manifest.list.incrs != []
    requires LastIncr(a.manifest).name in d.files
    ensures var d' := CollectedDisk(PublishedDisk(d, a, snapshot, rdb), RewrittenManifest(a, rdb), gcDisabled, persistOk);
            Recover(d') == Some(snapshot) <==> Blank(d, LastIncr(a.manifest).name)
  {
    hide ManifestOk, HistOld, CollectedDisk, CollectedManifest, RewrittenManifest, DiskServes;
    var m, n := RewrittenManifest(a, rdb), LastIncr(a.manifest).name;
    RewrittenManifestOk(a, rdb);
    LastIncrNamed(a.manifest);
    PublishedDiskOk(d, a, snapshot, rdb);
    InstallOk(d, BaseName(a.manifest.baseSeq + 1, rdb), snapshot);
    var es := d.store[d.files[n]].entries;
    RewrittenServes(Installed(d, a, snapshot, rdb), m, snapshot, es);
    CollectedServes(PublishedDisk(d, a, snapshot, rdb), m, snapshot + Replay(es, 0), gcDisabled, persistOk);
    ServesRecover(CollectedDisk(PublishedDisk(d, a, snapshot, rdb), m, gcDisabled, persistOk), CollectedManifest(m, gcDisabled),
                  snapshot + Replay(es, 0));
    if Replay(es, 0) == [] {
      assert snapshot + [] == snapshot;
    } else {
      assert |snapshot + Replay(es, 0)| > |snapshot|;
    }
  }

  // One call with AOF on; AOF off; an attempt to turn it on again whose fork fails; a
  // rewrite with AOF off: the call is recovered twice.
  method StaleIncrRun(c: Call) returns (s: Server)
    requires WellFormedCall(c)
    ensures s.Valid() && s.data == [c] && s.aof.state == Off && s.child == NoChild
    ensures Recover(s.disk) != Some(s.data)
  {
    hide Inv, Grows, CollectedDisk, CollectedManifest, PublishedDisk, RewrittenManifest, Recover, StartManifest, DiskOk, Blank, FlushedDisk, LeavesGap;
    s := new Server(true, false, true);
    s.Boot();
    s.Feed(c);
    FedLast(s, c);
    ghost var n := LastIncr(s.aof.manifest).name;
    s.SetEnabled(false, Env(|s.aof.buf|, true, true, true), false);
    SoundNow(s);
    TempElsewhere(s.disk, s.aof, n);
    s.SetEnabled(true, Env(0, true, true, false), false);
    OffForks(s.disk, s.aof, Env(0, true, true, true));
    var ok := s.RewriteBackground(Env(0, true, true, true));
    StaleIncrIff(s, true);
  }

  // With AOF on, flushing a buffer that holds a call leaves the last INCR not blank.
  lemma FedLast(s: Server, c: Call)
    requires s.Valid() && s.g.intact && s.aof.state == On && s.aof.buf != []
    ensures s.aof.fd.Some? && s.aof.manifest.list.incrs != [] && LastIncr(s.aof.manifest).name.IncrName?
    ensures !Blank(FlushedDisk(s.disk, s.aof, |s.aof.buf|), LastIncr(s.aof.manifest).name)
  {
    var d, a := s.disk, s.aof;
    InvParts(d, a, s.child, s.data, s.bk, s.g);
    LastIncrNamed(a.manifest);
    assert a.buf[..|a.buf|] == a.buf;
    LeftoverReplays(OpenEntries(d, a) + a.buf, 0);
  }

  // With AOF off a fork leaves the disk as it is.
  lemma OffForks(d: Disk, a: Aof, e: Env)
    requires a.state == Off && a.buf == []
    ensures ForkingDisk(d, a, e) == d && ForkingAof(d, a, e) == Unselected(a)
  {
  }

  // Opening the temporary INCR leaves every other file alone.
  lemma TempElsewhere(d: Disk, a: Aof, n: Name)
    requires DiskOk(d) && n.IncrName? && a.buf == []
    ensures var e := Env(0, true, true, false);
            var d' := ForkingDisk(d, a.(state := WaitRewrite), e);
            && Blank(d', n) == Blank(d, n) && ForkingAof(d, a.(state := WaitRewrite), e).fd.Some?
            && ForkingAof(d, a.(state := WaitRewrite), e).manifest == a.manifest && ForkingAof(d, a.(state := WaitRewrite), e).buf == []
  {
    CreateEmptyOk(d, TempIncrName);
  }

  // ---------- the database kept at a seal ----------

  /**
   * BACKUP SEAL with AOF enabled, then any calls, everything flushed: the disk recovers
   * what was there and the replay of the calls as a fresh file holds them. By
   * FreshFileRoutesIff that is right for all calls if and only if the database remembered
   * at the seal is the one a fresh file starts in.
   */
  method SealCycle(s: Server, e: Env, calls: seq<Call>)
    requires s.Valid() && s.g.intact && s.bk.state == Incrementing && s.enabled
    requires e.openOk && e.persistOk && e.written >= |s.aof.buf| && forall c <- calls :: WellFormedCall(c)
    modifies s
    ensures s.Valid() && s.aof.state == On && s.aof.buf == [] && s.bk.state == Sealed && s.data == old(s.data) + calls
    ensures Recover(s.disk) == Some(old(s.data) + Replay(FeedAll(old(s.aof).selected, calls), 0))
    ensures Routed(old(s.aof).selected, 0) ==> Recover(s.disk) == Some(s.data)
    ensures !Routed(old(s.aof).selected, 0) && calls != [] && calls[0].db == old(s.aof).selected ==> Recover(s.disk) != Some(s.data)
  {
    hide Inv, Grows, Sound, DiskServes, LogOk, Recover, BackupOk, Core, Starting, DiskOk, RotatedDisk, FlushedDisk, FlushedPromise, ManifestOk, HistOld,
         NextFree, SealHazard, RecoverBackup;
    ghost var data0, selected := s.data, s.aof.selected;
    InvParts(s.disk, s.aof, s.child, s.data, s.bk, s.g);
    IncrementingFacts(s.disk, s.aof, s.child, s.data, s.bk, s.g);
    FlushAllIff(s.disk, s.aof, s.child, s.data, s.g.durable, e.written);
    var ok := s.Seal(e, true, true, true);
    FeedCalls(s, calls);
    SoundNow(s);
    FlushedRecovers(s.disk, s.aof, data0, []);
    s.FlushBuffer(|s.aof.buf|);
    assert [] + FeedAll(selected, calls) == FeedAll(selected, calls);
    if Routed(selected, 0) {
      FeedAllReplays(selected, calls, 0);
    } else if calls != [] && calls[0].db == selected {
      FirstMisrouted(selected, calls);
      Apart(data0, Replay(FeedAll(selected, calls), 0), calls);
    }
  }

  lemma Apart(data: Dataset, x: seq<Call>, y: seq<Call>)
    requires x != y
    ensures data + x != data + y
  {
    assert (data + x)[|data|..] == x && (data + y)[|data|..] == y;
  }

  lemma {:induction false} ReplayFirst(c: Cmd, es: seq<Entry>, db: nat)
    ensures var r := Replay([Exec(c, false)] + es, db); r != [] && r[0] == Call(db, c)
  {
    ReplayConcat([Exec(c, false)], es, db);
    assert [Exec(c, false)][..0] == [];
  }

  lemma FirstMisrouted(selected: int, calls: seq<Call>)
    requires (forall c <- calls :: WellFormedCall(c)) && calls != [] && calls[0].db == selected && !Routed(selected, 0)
    ensures Replay(FeedAll(selected, calls), 0) != calls
  {
    ReplayFirst(calls[0].cmd, FeedAll(selected, calls[1..]), 0);
  }

  // A backup, a call in database 1, the seal, the call again: the second one comes back in
  // database 0.
  method SealRun(cmd: Cmd) returns (s: Server)
    ensures s.Valid() && s.aof.state == On && s.aof.buf == [] && s.data == [Call(1, cmd), Call(1, cmd)]
    ensures Recover(s.disk) != Some(s.data)
  {
    hide Inv, Grows, ForkingDisk, CollectedDisk, CollectedManifest, PublishedDisk, RewrittenManifest, Recover, StartManifest, RewrittenPromise,
         RecoverBackup;
    var e, c := Env(0, true, true, true), Call(1, cmd);
    s := new Server(true, false, true);
    s.Boot();
    ForkingShape(s.disk, s.aof, e);
    var ok := s.StartBackup(e, false);
    ok := s.RewriteDone(true, true, true, true, true, true, 0);
    IncrementingOn(s);
    s.Feed(c);
    SealCycle(s, Env(|s.aof.buf|, true, true, true), [c]);
  }

  lemma IncrementingOn(s: Server)
    requires s.Valid() && s.g.intact && s.bk.state == Incrementing
    ensures s.aof.state == On
  {
  }

  // ---------- AOF turned on inside a transaction ----------

  // What a rewrite started with AOF off, and ended after it was turned on, recovers. With
  // no descriptor open even the temporary INCR is moved to history.
  function GapRecovers(d: Disk, a: Aof, snapshot: Dataset): Dataset
    requires TempIncrName in d.files && d.files[TempIncrName] in d.store && d.store[d.files[TempIncrName]].Log?
  {
    if a.fd.Some? then snapshot + Replay(d.store[d.files[TempIncrName]].entries, 0) else snapshot
  }

  /**
   * CONFIG SET appendonly yes inside EXEC while a child forked with AOF off is running, a
   * temporary INCR lying about, and the end of that child: AOF is on, and the disk recovers
   * the dataset if and only if that INCR happens to hold what came after the fork.
   */
  method GapCycle(s: Server, e: Env, gcPersistOk: bool)
    requires s.Valid() && s.g.intact && s.aof.state == Off && s.child.AofChild? && s.bk.state != Snapshotting && TempIncrName in s.disk.files
    modifies s
    ensures s.Valid() && s.aof.state == On && s.aof.buf == [] && s.data == old(s.data)
    ensures var d := old(s.disk);
            && d.files[TempIncrName] in d.store && d.store[d.files[TempIncrName]].Log?
            && (Recover(s.disk) == Some(s.data) <==> s.data == GapRecovers(d, old(s.aof), old(s.child).snapshot))
  {
    hide Inv, RewrittenManifest, PublishedDisk, CollectedDisk, CollectedManifest, Grows, Sound, DiskServes, LogOk, Recover, HistOld, ManifestOk, NextFree,
         BackupOk, Core, Starting, LeavesGap, DoneHazard, RewrittenPromise;
    InvParts(s.disk, s.aof, s.child, s.data, s.bk, s.g);
    OffBuffer(s.disk, s.aof, s.child, s.data, s.g.durable);
    GapPublished(s.disk, s.aof.(state := WaitRewrite), s.child.snapshot, s.rdbPreamble, s.gcDisabled, gcPersistOk);
    s.SetEnabled(true, e, true);
    var ok := s.RewriteDone(true, true, true, true, gcPersistOk, true, 0);
  }

  lemma OffBuffer(d: Disk, a: Aof, child: Child, data: Dataset, durable: Dataset)
    requires LogOk(d, a, child, data, durable) && a.state == Off
    ensures a.buf == []
  {
  }

  lemma GapPublished(d: Disk, a: Aof, snapshot: Dataset, rdb: bool, gcDisabled: bool, persistOk: bool)
    requires DiskOk(d) && ManifestOk(a.manifest) && HistOld(a.manifest) && a.state == WaitRewrite && TempIncrName in d.files
    ensures d.files[TempIncrName] in d.store && d.store[d.files[TempIncrName]].Log?
    ensures var d' := CollectedDisk(PublishedDisk(d, a, snapshot, rdb), RewrittenManifest(a, rdb), gcDisabled, persistOk);
            Recover(d') == Some(GapRecovers(d, a, snapshot))
  {
    hide ManifestOk, HistOld, CollectedDisk, CollectedManifest, RewrittenManifest, DiskServes, DiskOk, Recover;
    TempIsLog(d);
    var m, x := RewrittenManifest(a, rdb), GapRecovers(d, a, snapshot);
    var d1 := PublishedDisk(d, a, snapshot, rdb);
    GapListed(d, a, snapshot, rdb);
    CollectedServes(d1, m, x, gcDisabled, persistOk);
    ServesRecover(CollectedDisk(d1, m, gcDisabled, persistOk), CollectedManifest(m, gcDisabled), x);
  }

  lemma TempIsLog(d: Disk)
    requires DiskOk(d) && TempIncrName in d.files
    ensures d.files[TempIncrName] in d.store && d.store[d.files[TempIncrName]].Log?
  {
  }

  // The files of a rewrite that is about to be listed.
  lemma GapFiles(d: Disk, a: Aof, snapshot: Dataset, rdb: bool)
    requires DiskOk(d) && a.state == WaitRewrite && TempIncrName in d.files
    requires d.files[TempIncrName] in d.store && d.store[d.files[TempIncrName]].Log?
    ensures var d' := Renamed(Installed(d, a, snapshot, rdb), a);
            && DiskOk(d') && Read(d'.files, d'.store, BaseName(a.manifest.baseSeq + 1, rdb)) == Some(Snapshot(snapshot))
            && Read(d'.files, d'.store, IncrName(a.manifest.incrSeq + 1)) == Some(d.store[d.files[TempIncrName]])
  {
    hide DiskOk;
    InstallOk(d, BaseName(a.manifest.baseSeq + 1, rdb), snapshot);
    RenameOk(Installed(d, a, snapshot, rdb), IncrName(a.manifest.incrSeq + 1));
  }

  lemma GapListed(d: Disk, a: Aof, snapshot: Dataset, rdb: bool)
    requires DiskOk(d) && ManifestOk(a.manifest) && HistOld(a.manifest) && a.state == WaitRewrite && TempIncrName in d.files
    requires d.files[TempIncrName] in d.store && d.store[d.files[TempIncrName]].Log?
    ensures DiskOk(PublishedDisk(d, a, snapshot, rdb))
    ensures DiskServes(PublishedDisk(d, a, snapshot, rdb), RewrittenManifest(a, rdb), GapRecovers(d, a, snapshot))
  {
    hide ManifestOk, HistOld, RewrittenManifest, DiskServes, DiskOk, Renamed, Installed, Read;
    var m, es := RewrittenManifest(a, rdb), d.store[d.files[TempIncrName]].entries;
    RewrittenManifestOk(a, rdb);
    GapFiles(d, a, snapshot, rdb);
    var d2 := Renamed(Installed(d, a, snapshot, rdb), a);
    ListedDiskOk(d2, m);
    if a.fd.Some? {
      RewrittenServes(d2, m, snapshot, es);
    } else {
      AllToHistory(a, rdb);
      RewrittenServesAlone(d2, m, snapshot);
    }
  }

  lemma ListedDiskOk(d: Disk, m: Manifest)
    requires DiskOk(d)
    ensures DiskOk(ListDisk(d, m))
  {
  }

  lemma AllToHistory(a: Aof, rdb: bool)
    requires a.fd.None?
    ensures RewrittenManifest(a, rdb).list.incrs == []
  {
  }

  // An attempt to turn AOF on whose fork fails; a rewrite with AOF off; a call; AOF turned
  // on inside a transaction; the end of the rewrite: AOF is on and the call is not on disk.
  method GapRun(c: Call) returns (s: Server)
    requires WellFormedCall(c)
    ensures s.Valid() && s.aof.state == On && s.aof.buf == [] && s.data == [c]
    ensures Recover(s.disk) != Some(s.data)
  {
    hide Inv, Grows, Recover;
    s := new Server(false, false, true);
    s.Boot();
    EmptyTemp(s.disk, s.aof);
    s.SetEnabled(true, Env(0, true, true, false), false);
    OffForks(s.disk, s.aof, Env(0, true, true, true));
    var ok := s.RewriteBackground(Env(0, true, true, true));
    s.Feed(c);
    GapCycle(s, Env(0, true, true, true), true);
  }

  lemma EmptyTemp(d: Disk, a: Aof)
    requires a.buf == []
    ensures var e := Env(0, true, true, false);
            var d', a' := ForkingDisk(d, a.(state := WaitRewrite), e), ForkingAof(d, a.(state := WaitRewrite), e);
            && a'.fd.Some? && a'.buf == [] && TempIncrName in d'.files && d'.files[TempIncrName] in d'.store
            && d'.store[d'.files[TempIncrName]] == Log([])
  {
  }

  // ---------- a directory removed under its user ----------

  /**
   * Aborting a backup with AOF on and enabled, everything flushed afterwards: the disk
   * recovers the dataset if and only if the backup does not own the directory, or there
   * was nothing to lose.
   */
  method AbortIff(s: Server, e: Env)
    requires s.Valid() && s.g.intact && s.aof.state == On && s.enabled && InProgress(s.bk.state)
    modifies s
    ensures s.data == old(s.data) && s.aof.state == On && s.enabled
    ensures Recover(s.disk) == Some(s.data) <==> !LosesDir(old(s.bk), old(s.aof), true) || s.data == []
  {
    hide Inv, Grows, FlushedPromise, LogOk, DiskServes, BackupOk, Core, Starting, Sound;
    InvParts(s.disk, s.aof, s.child, s.data, s.bk, s.g);
    FlushAllIff(s.disk, s.aof, s.child, s.data, s.g.durable, |s.aof.buf|);
    var ok := s.AbortBackup(e);
    if s.g.intact {
      InvParts(s.disk, s.aof, s.child, s.data, s.bk, s.g);
      FlushAllIff(s.disk, s.aof, s.child, s.data, s.g.durable, |s.aof.buf|);
    }
    s.FlushBuffer(|s.aof.buf|);
    if s.g.intact {
      InvParts(s.disk, s.aof, s.child, s.data, s.bk, s.g);
      ServesRecover(s.disk, s.aof.manifest, s.g.durable);
    }
  }

  // A backup with AOF off; CONFIG SET appendonly yes once its snapshot is done; a call;
  // BACKUP ABORT: AOF is on and enabled, and its directory is gone.
  method AbortAfterEnable(c: Call, e: Env) returns (s: Server)
    requires WellFormedCall(c) && e.openOk && e.forkOk
    ensures s.enabled && s.aof.state == On && s.data == [c]
    ensures Recover(s.disk) == Some([])
  {
    hide Inv, Grows, CollectedDisk, CollectedManifest, PublishedDisk, RewrittenManifest, RewrittenPromise;
    s := new Server(false, false, true);
    s.Boot();
    var ok := s.StartBackup(e, false);
    ok := s.RewriteDone(true, true, true, true, true, true, 0);
    IncrementingOn(s);
    s.SetEnabled(true, e, false);
    s.Feed(c);
    ok := s.AbortBackup(e);
  }

  // ---------- a restart on leftovers ----------

  /**
   * AOF on, then off, a rewrite that leaves no INCR listed and the old INCR 1 in history, a
   * crash, and a start with AOF on: INCR 1 is listed again and deleted. The exact condition
   * is AofRestart.StartKeepsIff, which Restart promises.
   */
  method RestartRun(e: Env) returns (s: Server)
    requires e.openOk && e.forkOk && e.persistOk
    ensures s.aof.state == On && Recover(s.disk) != Some(s.data)
  {
    hide Inv, Grows, Recover, CollectedDisk, RewrittenPromise, RestartsSafely;
    s := new Server(true, true, true);
    s.Boot();
    s.SetEnabled(false, e, false);
    var ok := s.RewriteBackground(e);
    ghost var d := PublishedDisk(s.disk, s.aof, s.child.snapshot, true);
    CollectNot(d, RewrittenManifest(s.aof, true), true);
    ok := s.RewriteDone(true, true, true, true, true, true, 0);
    FirstIncrInHistory(s.disk);
    ok := s.Restart(true, false, [], true);
  }

  lemma FirstIncrInHistory(d: Disk)
    requires d.manifest.Some? && d.manifest.value.hist != [] && d.manifest.value.incrs == []
    requires IncrName(1) == d.manifest.value.hist[0].name
    ensures !StartKeeps(d, false)
  {
    assert InHistory(ListingOf(d), IncrName(1));
  }

  // A number of rotations with AOF on.
  function RotateTimes(d: Disk, m: Manifest, n: nat): (Disk, Manifest) {
    if n == 0 then (d, m)
    else
      var r := RotateTimes(d, m, n - 1);
      (ListDisk(CreateEmpty(r.0, IncrName(r.1.incrSeq + 1)).0, NewIncr(r.1)), NewIncr(r.1))
  }

  lemma {:induction false} RotateTimesShape(d: Disk, m: Manifest, n: nat)
    ensures var r := RotateTimes(d, m, n);
            && r.1.list.hist == m.list.hist && r.1.incrSeq == m.incrSeq + n
            && (n > 0 ==> r.0.manifest == Some(r.1.list) && r.1.list.incrs != [] && LastIncr(r.1).name == IncrName(m.incrSeq + n))
  {
    if n > 0 {
      RotateTimesShape(d, m, n - 1);
    }
  }

  /**
   * Why kept history must be old: an INCR listed as history whose number is still to come
   * is rotated to after as many rotations, and deleting history then deletes the live log.
   */
  lemma YoungHistoryLoses(d: Disk, m: Manifest, h: Info, persistOk: bool)
    requires h in m.list.hist && h.name.IncrName? && h.name.num > m.incrSeq
    ensures var r := RotateTimes(d, m, h.name.num - m.incrSeq);
            Recover(CollectedDisk(r.0, r.1, false, persistOk)) == None
  {
    var r := RotateTimes(d, m, h.name.num - m.incrSeq);
    RotateTimesShape(d, m, h.name.num - m.incrSeq);
    var d' := CollectedDisk(r.0, r.1, false, persistOk);
    assert LastIncr(r.1).name !in d'.files;
    MissingLast(d', d'.manifest.value);
  }
}
