/**
 * The append-only directory as the file system sees it, the manifest that names
 * its files, and what a restarting server recovers from them.
 *
 * Directory entries name inodes; a hard link gives one inode a second name, a
 * rename moves a name, and removing a name leaves the inode to whoever else holds
 * it. A crash keeps exactly the Disk value of that moment.
 */
module AofDisk {
  import opened Prelude
  import opened AofLog

  type Inode = nat

  datatype Name = BaseName(num: nat, rdb: bool) | IncrName(num: nat) | TempIncrName

  datatype Content = Snapshot(data: Dataset) | Log(entries: seq<Entry>)

  datatype Info = Info(name: Name, num: nat)

  // What a manifest file says.
  datatype Listing = Listing(base: Option<Info>, hist: seq<Info>, incrs: seq<Info>)

  // The in-memory manifest: a listing and the last sequence numbers handed out.
  datatype Manifest = Manifest(list: Listing, baseSeq: nat, incrSeq: nat)

  const EMPTY_MANIFEST := Manifest(Listing(None, [], []), 0, 0)

  datatype Disk = Disk(
    files: map<Name, Inode>,        // the append-only directory
    manifest: Option<Listing>,      // its manifest file
    backup: map<Name, Inode>,       // the backup directory
    backupManifest: Option<Listing>,
    store: map<Inode, Content>,     // contents, by inode
    next: Inode)                    // a bound on the inodes in use

  // ---------- recovery ----------

  function Read(dir: map<Name, Inode>, store: map<Inode, Content>, n: Name): Option<Content> {
    if n in dir && dir[n] in store then Some(store[dir[n]]) else None
  }

  // Replaying the INCR files in order; a listed file that is missing is fatal.
  function RecoverIncrs(dir: map<Name, Inode>, store: map<Inode, Content>, incrs: seq<Info>): Option<seq<Call>> {
    if incrs == [] then Some([])
    else
      var init := RecoverIncrs(dir, store, incrs[..|incrs| - 1]);
      var last := Read(dir, store, incrs[|incrs| - 1].name);
      if init.Some? && last.Some? && last.value.Log? then Some(init.value + Replay(last.value.entries, 0))
      else None
  }

  function RecoverBase(dir: map<Name, Inode>, store: map<Inode, Content>, base: Option<Info>): Option<Dataset> {
    if base.None? then Some([])
    else
      var c := Read(dir, store, base.value.name);
      if c.Some? && c.value.Snapshot? then Some(c.value.data) else None
  }

  function RecoverListing(dir: map<Name, Inode>, store: map<Inode, Content>, l: Listing): Option<Dataset> {
    var b := RecoverBase(dir, store, l.base);
    var i := RecoverIncrs(dir, store, l.incrs);
    if b.Some? && i.Some? then Some(b.value + i.value) else None
  }

  // What a server restarting on this disk loads.
  function Recover(d: Disk): Option<Dataset> {
    if d.manifest.None? then Some([]) else RecoverListing(d.files, d.store, d.manifest.value)
  }

  // What someone restoring the backup directory loads.
  function RecoverBackup(d: Disk): Option<Dataset> {
    if d.backupManifest.None? then None else RecoverListing(d.backup, d.store, d.backupManifest.value)
  }

  // ---------- manifest edits ----------

  // A new BASE name; the previous BASE becomes HISTORY.
  function NewBase(m: Manifest, rdb: bool): Manifest {
    var s := m.baseSeq + 1;
    var hist := if m.list.base.Some? then [m.list.base.value] + m.list.hist else m.list.hist;
    Manifest(m.list.(base := Some(Info(BaseName(s, rdb), s)), hist := hist), s, m.incrSeq)
  }

  function NewIncr(m: Manifest): Manifest {
    var s := m.incrSeq + 1;
    Manifest(m.list.(incrs := m.list.incrs + [Info(IncrName(s), s)]), m.baseSeq, s)
  }

  function LastIncr(m: Manifest): Info
    requires m.list.incrs != []
  {
    m.list.incrs[|m.list.incrs| - 1]
  }

  // Every INCR but the one being written (the last, when a descriptor is open)
  // becomes HISTORY.
  function RewrittenToHistory(m: Manifest, fdOpen: bool): Manifest {
    var n := |m.list.incrs|;
    if n == 0 then m
    else
      var k := if fdOpen then n - 1 else n;
      m.(list := m.list.(hist := m.list.incrs[..k] + m.list.hist, incrs := m.list.incrs[k..]))
  }

  lemma MoveOne(xs: seq<Info>, k: nat, top: nat, keep: seq<Info>, hist: seq<Info>)
    requires 0 < k <= top <= |xs|
    ensures var incrs := xs[..k] + keep;
            && incrs[k - 1] == xs[k - 1]
            && incrs[..k - 1] + incrs[k..] == xs[..k - 1] + keep
            && [xs[k - 1]] + (xs[k..top] + hist) == xs[k - 1..top] + hist
  {
    var incrs := xs[..k] + keep;
    assert incrs[..k - 1] == xs[..k - 1] && incrs[k..] == keep;
  }

  // The source walks the INCR list backwards, moving one entry at a time.
  method MarkRewrittenIncrAsHistory(m: Manifest, fdOpen: bool) returns (r: Manifest)
    ensures r == RewrittenToHistory(m, fdOpen)
  {
    r := m;
    var xs := m.list.incrs;
    if xs == [] { return; }
    var top := if fdOpen then |xs| - 1 else |xs|;
    ghost var keep := xs[top..];
    var k, incrs, hist := top, xs, m.list.hist;
    assert xs[..top] + keep == xs;
    while k > 0
      invariant 0 <= k <= top
      invariant incrs == xs[..k] + keep
      invariant hist == xs[k..top] + m.list.hist
    {
      MoveOne(xs, k, top, keep, m.list.hist);
      hist := [incrs[k - 1]] + hist;
      incrs := incrs[..k - 1] + incrs[k..];
      k := k - 1;
    }
    assert xs[..0] + keep == xs[top..] && xs[0..top] == xs[..top];
    r := m.(list := m.list.(hist := hist, incrs := incrs));
  }

  // aofLoadManifestFromFile: the counters come from the BASE line and the last INCR
  // line; INCR sequence numbers must be positive and strictly increasing.
  function LoadManifest(l: Listing): Option<Manifest> {
    if (l.base.Some? ==> l.base.value.num > 0) && (forall h <- l.hist :: h.num > 0) && Increasing(l.incrs) then
      Some(Manifest(l,
                    if l.base.Some? then l.base.value.num else 0,
                    if l.incrs != [] then l.incrs[|l.incrs| - 1].num else 0))
    else None
  }

  predicate Increasing(incrs: seq<Info>) {
    && (forall i | 0 <= i < |incrs| :: incrs[i].num > 0)
    && (forall i, j | 0 <= i < j < |incrs| :: incrs[i].num < incrs[j].num)
  }

  // What aofLoadManifestFromDisk puts in memory. Only names of the server's own naming
  // scheme are modelled.
  function Loaded(d: Disk): (r: Option<Manifest>)
    ensures r.Some? ==> forall i <- r.value.list.incrs :: i.name.IncrName?
  {
    if d.manifest.None? then Some(EMPTY_MANIFEST)
    else if forall i <- d.manifest.value.incrs :: i.name.IncrName? then LoadManifest(d.manifest.value)
    else None
  }

  // ---------- names ----------

  predicate LiveName(l: Listing, n: Name) {
    || (l.base.Some? && l.base.value.name == n)
    || (exists i | 0 <= i < |l.incrs| :: l.incrs[i].name == n)
  }

  // Live names carry their own sequence number, and the counters cover them.
  predicate LiveOk(l: Listing, baseSeq: nat, incrSeq: nat) {
    && (l.base.Some? ==>
          && l.base.value.name.BaseName?
          && l.base.value.name.num == l.base.value.num
          && 0 < l.base.value.num <= baseSeq)
    && Increasing(l.incrs)
    && (forall i | 0 <= i < |l.incrs| :: l.incrs[i].name == IncrName(l.incrs[i].num) && l.incrs[i].num <= incrSeq)
  }

  // History files are numbered below the BASE and apart from every listed INCR, so none
  // is live.
  predicate HistOk(hist: seq<Info>, l: Listing) {
    forall h <- hist ::
      && h.num > 0
      && !h.name.TempIncrName?
      && (h.name.BaseName? ==> h.name.num == h.num && l.base.Some? && h.num < l.base.value.num)
      && (h.name.IncrName? ==> h.name.num == h.num && forall i <- l.incrs :: h.num != i.num)
  }

  predicate ManifestOk(m: Manifest) {
    && LiveOk(m.list, m.baseSeq, m.incrSeq)
    && HistOk(m.list.hist, m.list)
  }

  // The INCR counter covers history too: no name it hands out is taken by history.
  predicate HistOld(m: Manifest) {
    forall h <- m.list.hist :: h.name.IncrName? ==> h.name.num <= m.incrSeq
  }

  // The name the next INCR gets is not a history name.
  predicate NextFree(m: Manifest) {
    forall h <- m.list.hist :: h.name != IncrName(m.incrSeq + 1)
  }

  // Deleting history never deletes a file still named as BASE or INCR.
  lemma HistoryIsNotLive(hist: seq<Info>, l: Listing, baseSeq: nat, incrSeq: nat, h: Info)
    requires LiveOk(l, baseSeq, incrSeq) && HistOk(hist, l) && h in hist
    ensures !LiveName(l, h.name)
  {
    forall i | 0 <= i < |l.incrs|
      ensures l.incrs[i].name != h.name
    {
      assert l.incrs[i] in l.incrs;
    }
  }

  lemma NewBaseOk(m: Manifest, rdb: bool)
    requires ManifestOk(m)
    ensures ManifestOk(NewBase(m, rdb))
    ensures HistOld(m) ==> HistOld(NewBase(m, rdb))
    ensures forall h <- m.list.hist :: h in NewBase(m, rdb).list.hist
  {
  }

  lemma NewIncrOk(m: Manifest)
    requires ManifestOk(m) && NextFree(m)
    ensures ManifestOk(NewIncr(m))
    ensures HistOld(m) ==> HistOld(NewIncr(m))
  {
    var r := NewIncr(m);
    forall h <- r.list.hist
      ensures h.name.IncrName? ==> forall i <- r.list.incrs :: h.num != i.num
    {
      assert h in m.list.hist;
    }
  }

  // A history entry after a rewrite was one before, or an INCR that went.
  lemma HistoryCameFrom(m: Manifest, fdOpen: bool, h: Info)
    requires h in RewrittenToHistory(m, fdOpen).list.hist
    ensures h in m.list.hist || exists x | 0 <= x < |m.list.incrs| - (if fdOpen then 1 else 0) :: m.list.incrs[x] == h
  {
    var k := |m.list.incrs| - if fdOpen then 1 else 0;
    if m.list.incrs != [] && h in m.list.incrs[..k] {
      var x :| 0 <= x < k && m.list.incrs[..k][x] == h;
      assert m.list.incrs[x] == h;
    }
  }

  lemma RewrittenToHistoryOk(m: Manifest, fdOpen: bool)
    requires ManifestOk(m)
    ensures ManifestOk(RewrittenToHistory(m, fdOpen))
    ensures HistOld(m) ==> HistOld(RewrittenToHistory(m, fdOpen))
  {
    var r := RewrittenToHistory(m, fdOpen);
    var k := if m.list.incrs == [] then 0 else |m.list.incrs| - if fdOpen then 1 else 0;
    assert r.list.incrs == m.list.incrs[k..];
    forall h <- r.list.hist
      ensures HistOk([h], r.list) && (HistOld(m) && h.name.IncrName? ==> h.name.num <= m.incrSeq)
    {
      HistoryCameFrom(m, fdOpen, h);
      if h in m.list.hist {
        assert forall i <- r.list.incrs :: i in m.list.incrs;
      } else {
        var x :| 0 <= x < k && m.list.incrs[x] == h;
        assert forall i <- r.list.incrs :: exists j | k <= j < |m.list.incrs| :: m.list.incrs[j] == i;
      }
    }
    assert HistOk(r.list.hist, r.list) by {
      forall h <- r.list.hist
        ensures HistOk([h], r.list) && h in [h]
      {
      }
    }
  }

  // A persisted manifest always loads, with counters that cover the live names.
  lemma PersistedLoads(m: Manifest)
    requires ManifestOk(m)
    ensures LoadManifest(m.list).Some? && ManifestOk(LoadManifest(m.list).value)
  {
  }

  // ---------- disk operations ----------

  // Distinct names have distinct inodes, snapshots sit under BASE names and logs
  // under the others.
  ghost predicate DiskOk(d: Disk) {
    && (forall i <- d.store :: i < d.next)
    && (forall n <- d.files :: d.files[n] in d.store && (d.store[d.files[n]].Snapshot? <==> n.BaseName?))
    && (forall a, b | a in d.files && b in d.files && d.files[a] == d.files[b] :: a == b)
    && (forall n <- d.backup :: d.backup[n] in d.store)
  }

  // open(O_TRUNC|O_CREAT): an existing file of that name is emptied in place.
  function CreateEmpty(d: Disk, n: Name): (r: (Disk, Inode)) {
    if n in d.files then (d.(store := d.store[d.files[n] := Log([])]), d.files[n])
    else (d.(files := d.files[n := d.next], store := d.store[d.next := Log([])], next := d.next + 1), d.next)
  }

  // rename() of a finished file from outside the directory.
  function Install(d: Disk, n: Name, c: Content): Disk {
    d.(files := d.files[n := d.next], store := d.store[d.next := c], next := d.next + 1)
  }

  function Unlink(d: Disk, n: Name): Disk {
    d.(files := d.files - {n})
  }

  function Rename(d: Disk, from: Name, to: Name): Disk
    requires from in d.files
  {
    d.(files := (d.files - {from})[to := d.files[from]])
  }

  function Append(d: Disk, i: Inode, es: seq<Entry>): Disk
    requires i in d.store && d.store[i].Log?
  {
    d.(store := d.store[i := Log(d.store[i].entries + es)])
  }

  // ---------- recovery under disk changes ----------

  // Recovery reads only the live files: agreeing on them is enough.
  lemma {:induction false} RecoverIncrsFrame(dir: map<Name, Inode>, store: map<Inode, Content>,
                                             dir': map<Name, Inode>, store': map<Inode, Content>, incrs: seq<Info>)
    requires forall i <- incrs :: Read(dir, store, i.name) == Read(dir', store', i.name)
    ensures RecoverIncrs(dir, store, incrs) == RecoverIncrs(dir', store', incrs)
  {
    if incrs != [] {
      RecoverIncrsFrame(dir, store, dir', store', incrs[..|incrs| - 1]);
      assert incrs[|incrs| - 1] in incrs;
    }
  }

  ghost predicate SameLiveFiles(l: Listing, dir: map<Name, Inode>, store: map<Inode, Content>,
                                dir': map<Name, Inode>, store': map<Inode, Content>)
  {
    forall n: Name | LiveName(l, n) :: Read(dir, store, n) == Read(dir', store', n)
  }

  lemma RecoverFrame(l: Listing, l': Listing, dir: map<Name, Inode>, store: map<Inode, Content>,
                     dir': map<Name, Inode>, store': map<Inode, Content>)
    requires l.base == l'.base && l.incrs == l'.incrs
    requires SameLiveFiles(l, dir, store, dir', store')
    ensures RecoverListing(dir, store, l) == RecoverListing(dir', store', l')
  {
    forall i <- l.incrs
      ensures Read(dir, store, i.name) == Read(dir', store', i.name)
    {
      var k :| 0 <= k < |l.incrs| && l.incrs[k] == i;
      assert LiveName(l, l.incrs[k].name);
    }
    RecoverIncrsFrame(dir, store, dir', store', l.incrs);
    if l.base.Some? {
      assert LiveName(l, l.base.value.name);
    }
  }

  // Adding a trailing INCR adds its replay.
  lemma RecoverAddIncr(l: Listing, dir: map<Name, Inode>, store: map<Inode, Content>, i: Info)
    requires RecoverListing(dir, store, l).Some?
    requires Read(dir, store, i.name).Some? && Read(dir, store, i.name).value.Log?
    ensures RecoverListing(dir, store, l.(incrs := l.incrs + [i])) ==
            Some(RecoverListing(dir, store, l).value + Replay(Read(dir, store, i.name).value.entries, 0))
  {
    var incrs := l.incrs + [i];
    assert incrs[..|incrs| - 1] == l.incrs;
    var b, p := RecoverBase(dir, store, l.base).value, RecoverIncrs(dir, store, l.incrs).value;
    var t := Replay(Read(dir, store, i.name).value.entries, 0);
    assert b + (p + t) == b + p + t;
  }

  // Splitting off the last INCR.
  lemma RecoverSplitLast(l: Listing, dir: map<Name, Inode>, store: map<Inode, Content>)
    requires l.incrs != [] && RecoverListing(dir, store, l).Some?
    ensures var n := |l.incrs| - 1;
            var last := Read(dir, store, l.incrs[n].name);
            && last.Some? && last.value.Log?
            && RecoverListing(dir, store, l.(incrs := l.incrs[..n])).Some?
            && RecoverListing(dir, store, l).value ==
               RecoverListing(dir, store, l.(incrs := l.incrs[..n])).value + Replay(last.value.entries, 0)
  {
  }

  // Every live file of a recoverable listing can be read.
  lemma {:induction false} LiveFilesReadable(l: Listing, dir: map<Name, Inode>, store: map<Inode, Content>, n: Name)
    requires RecoverListing(dir, store, l).Some? && LiveName(l, n)
    ensures Read(dir, store, n).Some?
    decreases |l.incrs|
  {
    if l.incrs != [] && l.incrs[|l.incrs| - 1].name != n {
      RecoverSplitLast(l, dir, store);
      var l' := l.(incrs := l.incrs[..|l.incrs| - 1]);
      if !(l.base.Some? && l.base.value.name == n) {
        var i :| 0 <= i < |l.incrs| && l.incrs[i].name == n;
        assert l'.incrs[i].name == n;
      }
      LiveFilesReadable(l', dir, store, n);
    }
  }
}
