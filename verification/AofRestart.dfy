/**
 * Restarting on the disk a crash left behind: loading the manifest and the files,
 * opening an INCR for the writes to come, and deleting what is listed as history.
 */
module AofRestart {
  import opened Prelude
  import opened AofLog
  import opened AofDisk
  import opened AofInvariant
  import opened AofSteps
  import opened AofRewrite

  // ---------- when a restart is safe ----------

  function ListingOf(d: Disk): Listing {
    if d.manifest.Some? then d.manifest.value else Listing(None, [], [])
  }

  predicate InHistory(l: Listing, n: Name) {
    exists i | 0 <= i < |l.hist| :: l.hist[i].name == n
  }

  /**
   * The manifest does not record the last INCR number once no INCR is listed, so INCR 1
   * comes next again, and it is opened for appending without looking whether the name is
   * taken. The dataset survives the start exactly when some INCR is listed, or INCR 1 is
   * not about to be deleted as history and what is in it, if it exists, replays to nothing.
   */
  predicate StartKeeps(d: Disk, gcDisabled: bool) {
    var l := ListingOf(d);
    l.incrs != [] || ((gcDisabled || !InHistory(l, IncrName(1))) && (IncrName(1) in d.files ==> Blank(d, IncrName(1))))
  }

  // No INCR listed as history has a number that will be handed out again.
  predicate HistoryIsOld(l: Listing) {
    forall h <- l.hist :: h.name.IncrName? ==> h.name.num <= if l.incrs != [] then l.incrs[|l.incrs| - 1].num else 0
  }

  // The start and everything after it: history that is kept must also be old.
  predicate RestartsSafely(d: Disk, enabled: bool, gcDisabled: bool) {
    (enabled ==> StartKeeps(d, gcDisabled)) && (gcDisabled ==> HistoryIsOld(ListingOf(d)))
  }

  // A disk that serves one manifest serves the one that is loaded from it.
  lemma LoadedServes(d: Disk, m: Manifest, durable: Dataset)
    requires DiskServes(d, m, durable)
    ensures Loaded(d).Some? && DiskServes(d, Loaded(d).value, durable)
    ensures Loaded(d).value.list == ListingOf(d)
    ensures HistoryIsOld(ListingOf(d)) ==> HistOld(Loaded(d).value)
    ensures ListingOf(d).incrs == [] ==> Loaded(d).value.incrSeq == 0
  {
    if d.manifest.Some? {
      var l := d.manifest.value;
      assert forall i <- l.incrs :: i.name.IncrName?;
      PersistedLoads(m.(list := l));
    }
  }

  // ---------- opening an INCR ----------

  // The manifest aofOpenIfNeededOnServerStart settles on.
  function StartManifest(m: Manifest, rdb: bool): (r: Manifest)
    ensures r.list.incrs != []
  {
    var m1 := if m.list.base.None? && m.list.incrs == [] then NewBase(m, rdb) else m;
    if m1.list.incrs == [] then NewIncr(m1) else m1
  }

  // open(O_APPEND|O_CREAT): an existing file of that name is continued.
  function OpenForAppend(d: Disk, n: Name): (Disk, Inode) {
    if n in d.files then (d, d.files[n]) else CreateEmpty(d, n)
  }

  // With an empty manifest the start writes a BASE first.
  function StartDisk(d: Disk, m: Manifest, rdb: bool, data: Dataset): Disk {
    if m.list.base.None? && m.list.incrs == [] then Install(d, BaseName(m.baseSeq + 1, rdb), Snapshot(data)) else d
  }

  // The disk once the INCR is opened and listed.
  function OpenedDisk(d: Disk, m: Manifest, rdb: bool, data: Dataset): Disk {
    var m' := StartManifest(m, rdb);
    ListDisk(OpenForAppend(StartDisk(d, m, rdb, data), LastIncr(m').name).0, m')
  }

  // Before anything new is listed, the disk still recovers what it did.
  lemma StartDiskServes(d: Disk, m: Manifest, durable: Dataset, rdb: bool, data: Dataset)
    requires DiskOk(d)
    ensures DiskOk(StartDisk(d, m, rdb, data))
    ensures DiskServes(d, m, durable) ==> DiskServes(StartDisk(d, m, rdb, data), m, durable)
    ensures var d' := StartDisk(d, m, rdb, data);
            forall n: Name | !n.BaseName? :: (n in d'.files <==> n in d.files) && Read(d'.files, d'.store, n) == Read(d.files, d.store, n)
    ensures m.list.base.None? && m.list.incrs == [] ==>
              var d' := StartDisk(d, m, rdb, data); Read(d'.files, d'.store, BaseName(m.baseSeq + 1, rdb)) == Some(Snapshot(data))
  {
    if m.list.base.None? && m.list.incrs == [] {
      InstallOk(d, BaseName(m.baseSeq + 1, rdb), data);
      if DiskServes(d, m, durable) {
        NewNames(m, rdb);
        OtherFileKeepsServing(d, StartDisk(d, m, rdb, data), m, durable, BaseName(m.baseSeq + 1, rdb));
      }
    }
  }

  lemma OpenForAppendOk(d: Disk, n: Name)
    requires DiskOk(d) && n.IncrName?
    ensures var r := OpenForAppend(d, n);
            && DiskOk(r.0) && n in r.0.files && r.0.files[n] == r.1 && r.1 in r.0.store && r.0.store[r.1].Log?
            && r.0.manifest == d.manifest && r.0.backup == d.backup && r.0.backupManifest == d.backupManifest
            && (forall x: Name | x != n :: Read(r.0.files, r.0.store, x) == Read(d.files, d.store, x))
            && (if n in d.files then r.0 == d else r.0.store[r.1] == Log([]))
  {
    CreateEmptyOk(d, n);
  }

  lemma OpenForAppendServes(d: Disk, m: Manifest, durable: Dataset)
    requires DiskOk(d) && DiskServes(d, m, durable) && m.list.incrs == []
    ensures DiskServes(OpenForAppend(d, IncrName(m.incrSeq + 1)).0, m, durable)
  {
    var n := IncrName(m.incrSeq + 1);
    NewNames(m, true);
    if n !in d.files {
      OtherFileKeepsServing(d, CreateEmpty(d, n).0, m, durable, n);
    }
  }

  lemma LastIncrPresent(d: Disk, m: Manifest, durable: Dataset)
    requires DiskServes(d, m, durable) && m.list.incrs != []
    ensures LastIncr(m).name in d.files && LastIncr(m).name.IncrName?
  {
    var l := d.manifest.value;
    assert LiveName(l, l.incrs[|l.incrs| - 1].name);
    LiveFilesReadable(l, d.files, d.store, LastIncr(m).name);
  }

  // Relisting what is listed already changes nothing but history.
  lemma StartRelisted(d: Disk, m: Manifest, durable: Dataset)
    requires DiskServes(d, m, durable) && m.list.incrs != []
    ensures DiskServes(ListDisk(d, m), m, durable)
  {
    RecoverFrame(m.list, d.manifest.value, d.files, d.store, d.files, d.store);
  }

  lemma StartIncrName(m: Manifest, rdb: bool)
    ensures LastIncr(StartManifest(m, rdb)).name == if m.list.incrs == [] then IncrName(m.incrSeq + 1) else LastIncr(m).name
    ensures m.list.incrs != [] ==> StartManifest(m, rdb) == m
    ensures HistOld(m) && NextFree(m) && ManifestOk(m) ==> HistOld(StartManifest(m, rdb))
  {
  }

  // What the listed start recovers: the dataset, and what the continued INCR adds to it.
  lemma StartRecovers(d: Disk, m: Manifest, durable: Dataset, rdb: bool, es: seq<Entry>)
    requires DiskServes(d, m, durable) && m.list.incrs == []
    requires m.list.base.None? ==> Read(d.files, d.store, BaseName(m.baseSeq + 1, rdb)) == Some(Snapshot(durable))
    requires Read(d.files, d.store, IncrName(m.incrSeq + 1)) == Some(Log(es))
    ensures RecoverListing(d.files, d.store, StartManifest(m, rdb).list) == Some(durable + Replay(es, 0))
  {
    var m' := StartManifest(m, rdb);
    var i := Info(IncrName(m.incrSeq + 1), m.incrSeq + 1);
    var none: seq<Call> := [];
    assert RecoverIncrs(d.files, d.store, []) == Some(none);
    var l := m'.list.(incrs := []);
    assert RecoverListing(d.files, d.store, l) == Some(durable) by {
      if m.list.base.Some? {
        RecoverFrame(m.list, d.manifest.value, d.files, d.store, d.files, d.store);
      } else {
        assert durable + none == durable;
      }
    }
    RecoverAddIncr(l, d.files, d.store, i);
    assert m'.list == l.(incrs := l.incrs + [i]);
  }

  lemma StartManifestOk(m: Manifest, rdb: bool)
    requires ManifestOk(m) && (m.list.incrs == [] ==> NextFree(m))
    ensures ManifestOk(StartManifest(m, rdb))
  {
    NewBaseOk(m, rdb);
    if m.list.incrs == [] {
      NewIncrOk(if m.list.base.None? then NewBase(m, rdb) else m);
    }
  }

  // Opening the INCR keeps the promise, and so does listing it.
  lemma Opened(d: Disk, m: Manifest, durable: Dataset, rdb: bool)
    requires DiskOk(d) && DiskServes(d, m, durable)
    requires m.list.incrs == [] ==> NextFree(m) && (IncrName(m.incrSeq + 1) in d.files ==> Blank(d, IncrName(m.incrSeq + 1)))
    requires m.list.incrs == [] && m.list.base.None? ==>
               Read(d.files, d.store, BaseName(m.baseSeq + 1, rdb)) == Some(Snapshot(durable))
    ensures var m' := StartManifest(m, rdb);
            var o := OpenForAppend(d, LastIncr(m').name);
            DiskServes(o.0, m, durable) && DiskServes(ListDisk(o.0, m'), m', durable)
  {
    hide DiskOk, StartManifest, ManifestOk, OpenForAppend;
    StartIncrName(m, rdb);
    if m.list.incrs != [] {
      LastIncrPresent(d, m, durable);
      OpenForAppendOk(d, LastIncr(m).name);
      StartRelisted(d, m, durable);
    } else {
      var n := IncrName(m.incrSeq + 1);
      OpenForAppendServes(d, m, durable);
      OpenForAppendOk(d, n);
      StartManifestOk(m, rdb);
      var o := OpenForAppend(d, n).0;
      StartRecovers(o, m, durable, rdb, Read(o.files, o.store, n).value.entries);
      assert durable + [] == durable;
      StartSynced(o, m, rdb, durable);
    }
  }

  lemma StartSynced(d: Disk, m: Manifest, rdb: bool, durable: Dataset)
    requires ManifestOk(StartManifest(m, rdb)) && RecoverListing(d.files, d.store, StartManifest(m, rdb).list) == Some(durable)
    ensures DiskServes(ListDisk(d, StartManifest(m, rdb)), StartManifest(m, rdb), durable)
  {
  }

  lemma EmptyStarts(rdb: bool)
    ensures var d := Disk(map[], None, map[], None, map[], 0);
            Starting(d, Aof(EMPTY_MANIFEST, Off, None, [], UNSELECTED), NoChild, [], Oath([], [], true, []))
    ensures NextFree(EMPTY_MANIFEST) && HistOld(EMPTY_MANIFEST) && HistOld(StartManifest(EMPTY_MANIFEST, rdb))
  {
    var d := Disk(map[], None, map[], None, map[], 0);
    assert DiskServes(d, EMPTY_MANIFEST, []);
    BootStarting(d, EMPTY_MANIFEST, [], Oath([], [], true, []));
  }

  // A server that has just loaded: nothing buffered, no descriptor.
  lemma BootStarting(d: Disk, m: Manifest, data: Dataset, g: Oath)
    requires DiskOk(d) && TrailOk(g.trail) && (g.intact ==> DiskServes(d, m, g.durable))
    ensures Starting(d, Aof(m, Off, None, [], UNSELECTED), NoChild, data, g)
  {
  }

  // Once the INCR is listed, disk alone is the dataset.
  lemma StartedStarting(d: Disk, m: Manifest, i: Inode, data: Dataset, g: Oath)
    requires DiskOk(d) && TrailOk(g.trail) && i in d.store && d.store[i].Log?
    requires g.intact ==> DiskServes(d, m, g.durable) && data == g.durable && m.list.incrs != []
                          && LastIncr(m).name in d.files && d.files[LastIncr(m).name] == i
    ensures Starting(d, Aof(m, On, Some(i), [], UNSELECTED), NoChild, data, g)
  {
    assert data + [] == data;
  }

  lemma ListOk(d: Disk, m: Manifest, i: Inode)
    requires DiskOk(d) && i in d.store && d.store[i].Log?
    ensures DiskOk(ListDisk(d, m)) && i in ListDisk(d, m).store && ListDisk(d, m).store[i].Log?
  {
  }

  // With no backup to look after, old history is all that is missing to a started server.
  lemma StartedInv(d: Disk, a: Aof, child: Child, data: Dataset, b: Backup, g: Oath)
    requires Starting(d, a, child, data, g) && b.state == Idle && (g.intact ==> HistOld(a.manifest))
    ensures Inv(d, a, child, data, b, g)
  {
  }

  // A safe start finds the next INCR name free, or taken by a file that adds nothing.
  lemma SafeStart(d: Disk, durable: Dataset, gcDisabled: bool)
    requires RestartsSafely(d, true, gcDisabled) && Loaded(d).Some? && DiskServes(d, Loaded(d).value, durable)
    ensures var m := Loaded(d).value;
            m.list.incrs == [] ==> NextFree(m) && (IncrName(m.incrSeq + 1) in d.files ==> Blank(d, IncrName(m.incrSeq + 1)))
  {
    var m := Loaded(d).value;
    LoadedServes(d, m, durable);
    if m.list.incrs == [] {
      assert m.incrSeq == 0;
      forall h <- m.list.hist
        ensures h.name != IncrName(1)
      {
        var i :| 0 <= i < |m.list.hist| && m.list.hist[i] == h;
        assert gcDisabled || ListingOf(d).hist[i].name != IncrName(1);
      }
    }
  }

  // Writing the first BASE leaves the next INCR name as it was.
  lemma StartKeepsBlank(d: Disk, m: Manifest, rdb: bool, data: Dataset)
    requires DiskOk(d)
    ensures var d', n := StartDisk(d, m, rdb, data), IncrName(m.incrSeq + 1);
            (n in d'.files <==> n in d.files) && Blank(d', n) == Blank(d, n) && d'.backup == d.backup && d'.backupManifest == d.backupManifest
  {
  }

  lemma StartRecoverable(d: Disk, a: Aof, data: Dataset, g: Oath)
    requires DiskOk(d) && TrailOk(g.trail) && (g.intact ==> DiskServes(d, a.manifest, g.durable))
    ensures Recoverable(d, a, data, g, false)
  {
  }

  // After a safe start the history is old: it was, or it is gone.
  lemma StartedHistOld(d: Disk, durable: Dataset, enabled: bool, gcDisabled: bool, rdb: bool)
    requires RestartsSafely(d, enabled, gcDisabled) && Loaded(d).Some? && DiskServes(d, Loaded(d).value, durable)
    ensures var m := Loaded(d).value;
            HistOld(CollectedManifest(if enabled then StartManifest(m, rdb) else m, gcDisabled))
  {
    hide DiskServes, Blank;
    LoadedServes(d, Loaded(d).value, durable);
    if gcDisabled {
      LoadedManifestOk(d, Loaded(d).value, durable);
      StartIncrName(Loaded(d).value, rdb);
    }
  }

  lemma LoadedManifestOk(d: Disk, m: Manifest, durable: Dataset)
    requires DiskServes(d, m, durable)
    ensures ManifestOk(m)
  {
  }

  // ---------- the exact condition ----------

  // An INCR that is listed but was deleted is fatal.
  lemma MissingLast(d: Disk, l: Listing)
    requires l.incrs != [] && l.incrs[|l.incrs| - 1].name !in d.files
    ensures RecoverListing(d.files, d.store, l) == None
  {
  }

  // The files the started manifest names, BASE and INCR, after history was deleted.
  lemma CollectKeepsStart(d: Disk, d2: Disk, m: Manifest, rdb: bool, gcDisabled: bool, persistOk: bool)
    requires ManifestOk(m) && m.list.incrs == []
    requires gcDisabled || forall h <- m.list.hist :: h.name != IncrName(m.incrSeq + 1)
    requires d2 == CollectedDisk(d, StartManifest(m, rdb), gcDisabled, persistOk)
    ensures d2.manifest == d.manifest || (d2.manifest.Some? && d2.manifest.value == WithoutHistory(StartManifest(m, rdb)).list)
    ensures SameLiveFiles(StartManifest(m, rdb).list, d.files, d.store, d2.files, d2.store)
  {
    var m' := StartManifest(m, rdb);
    assert m'.list.hist == m.list.hist;
    forall n: Name | LiveName(m'.list, n)
      ensures Read(d.files, d.store, n) == Read(d2.files, d2.store, n)
    {
      if !gcDisabled {
        assert forall h <- m.list.hist :: h.name != n;
      }
    }
  }

  /**
   * The whole start, exactly: what the disk recovers once the INCR is open and listed and
   * history is deleted is the loaded dataset if and only if StartKeeps held of the disk
   * before.
   */
  lemma StartKeepsIff(d: Disk, durable: Dataset, rdb: bool, gcDisabled: bool, persistOk: bool)
    requires DiskOk(d) && Loaded(d).Some? && DiskServes(d, Loaded(d).value, durable)
    ensures var m := Loaded(d).value;
            Recover(CollectedDisk(OpenedDisk(d, m, rdb, durable), StartManifest(m, rdb), gcDisabled, persistOk)) == Some(durable)
            <==> StartKeeps(d, gcDisabled)
  {
    hide DiskOk, Blank, LoadManifest, CollectedDisk, Recover, RecoverListing;
    var m := Loaded(d).value;
    LoadedServes(d, m, durable);
    StartIncrName(m, rdb);
    StartDiskServes(d, m, durable, rdb, durable);
    if m.list.incrs != [] {
      ListedStart(d, durable, rdb, gcDisabled, persistOk);
    } else {
      FirstIncrStart(d, durable, rdb, gcDisabled, persistOk);
    }
  }

  lemma ListedStart(d: Disk, durable: Dataset, rdb: bool, gcDisabled: bool, persistOk: bool)
    requires DiskOk(d) && Loaded(d).Some? && DiskServes(d, Loaded(d).value, durable) && Loaded(d).value.list.incrs != []
    ensures var m := Loaded(d).value;
            Recover(CollectedDisk(OpenedDisk(d, m, rdb, durable), StartManifest(m, rdb), gcDisabled, persistOk)) == Some(durable)
    ensures StartKeeps(d, gcDisabled)
  {
    hide DiskOk, Blank, LoadManifest, CollectedDisk, Recover;
    var m := Loaded(d).value;
    LoadedServes(d, m, durable);
    StartIncrName(m, rdb);
    Opened(d, m, durable, rdb);
    var d1 := OpenedDisk(d, m, rdb, durable);
    LastIncrPresent(d, m, durable);
    OpenForAppendOk(d, LastIncr(m).name);
    ListOk(d, m, OpenForAppend(d, LastIncr(m).name).1);
    CollectedServes(d1, m, durable, gcDisabled, persistOk);
    ServesRecover(CollectedDisk(d1, m, gcDisabled, persistOk), CollectedManifest(m, gcDisabled), durable);
  }

  lemma ServesRecover(d: Disk, m: Manifest, durable: Dataset)
    requires DiskServes(d, m, durable)
    ensures Recover(d) == Some(durable)
  {
  }

  lemma FirstIncrStart(d: Disk, durable: Dataset, rdb: bool, gcDisabled: bool, persistOk: bool)
    requires DiskOk(d) && Loaded(d).Some? && DiskServes(d, Loaded(d).value, durable) && Loaded(d).value.list.incrs == []
    ensures var m := Loaded(d).value;
            Recover(CollectedDisk(OpenedDisk(d, m, rdb, durable), StartManifest(m, rdb), gcDisabled, persistOk)) == Some(durable)
            <==> StartKeeps(d, gcDisabled)
  {
    hide DiskOk, LoadManifest, CollectedDisk, RecoverListing, StartManifest, OpenForAppend, StartDisk, ManifestOk, Synced;
    var m := Loaded(d).value;
    var m', n := StartManifest(m, rdb), IncrName(1);
    LoadedServes(d, m, durable);
    StartIncrName(m, rdb);
    StartDiskServes(d, m, durable, rdb, durable);
    var d0 := StartDisk(d, m, rdb, durable);
    OpenForAppendOk(d0, n);
    OpenForAppendServes(d0, m, durable);
    var d1 := OpenForAppend(d0, n).0;
    var es := Read(d1.files, d1.store, n).value.entries;
    StartRecovers(d1, m, durable, rdb, es);
    var d3 := CollectedDisk(ListDisk(d1, m'), m', gcDisabled, persistOk);
    if gcDisabled || !InHistory(m.list, n) {
      NotInHistory(m, n, gcDisabled);
      CollectKeepsStart(ListDisk(d1, m'), d3, m, rdb, gcDisabled, persistOk);
      RecoverFrame(m'.list, d3.manifest.value, d1.files, d1.store, d3.files, d3.store);
      if Replay(es, 0) == [] {
        assert durable + [] == durable;
      } else {
        assert |durable + Replay(es, 0)| > |durable|;
      }
    } else {
      DeletedAtStart(ListDisk(d1, m'), m, rdb, persistOk, n);
      MissingLast(d3, d3.manifest.value);
    }
  }

  lemma NotInHistory(m: Manifest, n: Name, gcDisabled: bool)
    requires gcDisabled || !InHistory(m.list, n)
    ensures gcDisabled || forall h <- m.list.hist :: h.name != n
  {
    if !gcDisabled {
      forall h <- m.list.hist
        ensures h.name != n
      {
        var i :| 0 <= i < |m.list.hist| && m.list.hist[i] == h;
      }
    }
  }

  // A file that is history and has just been listed as INCR is deleted.
  lemma DeletedAtStart(d: Disk, m: Manifest, rdb: bool, persistOk: bool, n: Name)
    requires m.list.incrs == [] && n == IncrName(m.incrSeq + 1) && InHistory(m.list, n)
    requires d.manifest == Some(StartManifest(m, rdb).list)
    ensures var d' := CollectedDisk(d, StartManifest(m, rdb), false, persistOk);
            && d'.manifest.Some? && d'.manifest.value.incrs == StartManifest(m, rdb).list.incrs
            && LastIncr(StartManifest(m, rdb)).name == n && n !in d'.files
  {
    var i :| 0 <= i < |m.list.hist| && m.list.hist[i].name == n;
    var m' := StartManifest(m, rdb);
    assert m.list.base.None? || m'.list.hist == m.list.hist;
    assert m'.list.hist[|m'.list.hist| - |m.list.hist| + i].name == n;
    assert m'.list.hist[|m'.list.hist| - |m.list.hist| + i] in m'.list.hist;
  }
}
