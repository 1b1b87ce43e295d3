/**
 * The server's side of blocking on keys, changed in place: the index, the counters and
 * the ready queues, with the walk over a waiting list that is edited while walked.
 */
module BlockedServer {
  import opened Prelude
  import opened BlockedIndex
  import opened BlockedRuns

  // The position of a node in a list that holds it.
  function Find(q: seq<Node>, id: nat): (i: nat)
    requires exists j :: 0 <= j < |q| && q[j].id == id
    ensures i < |q| && q[i].id == id
  {
    if q[0].id == id then 0 else
      assert forall j | 1 <= j < |q| :: q[j] == q[1..][j - 1];
      1 + Find(q[1..], id)
  }

  class Server {
    var clients: map<Client, Blocked>
    var waiters: map<Key, seq<Node>>
    var nokeys: map<Key, nat>
    var next: nat
    var counts: map<Kind, nat>
    var ready: seq<Key>
    var batch: seq<Key>
    var flags: set<Key>

    ghost function Ix(): Index
      reads this
    {
      Index(clients, waiters, nokeys, next)
    }

    ghost function View(): State
      reads this
    {
      State(Ix(), counts, ready, batch, flags)
    }

    ghost predicate Valid()
      reads this
    {
      Inv(View())
    }

    constructor ()
      ensures Valid() && View() == Init()
    {
      clients, waiters, nokeys, next, counts := map[], map[], map[], 0, map[];
      ready, batch, flags := [], [], {};
      new;
      RunInv([]);
    }

    // One key of blockForKeys.
    method AddWaiter(c: Client, k: Key)
      requires c in clients
      modifies this`clients, this`waiters, this`nokeys, this`next
      ensures c in clients && Ix() == AddKey(old(Ix()), c, k)
    {
      if k in clients[c].keys {
        return;
      }
      var q := if k in waiters then waiters[k] else [];
      waiters := waiters[k := q + [Node(next, c)]];
      clients := clients[c := clients[c].(keys := clients[c].keys[k := next])];
      next := next + 1;
      if clients[c].nokey {
        nokeys := nokeys[k := (if k in nokeys then nokeys[k] else 0) + 1];
      }
    }

    // blockForKeys, then blockClient.
    method BlockForKeys(c: Client, kind: Kind, keys: seq<Key>, onNokey: bool)
      requires Valid() && c !in clients
      modifies this`clients, this`waiters, this`nokeys, this`next, this`counts
      ensures Valid() && View() == Step(old(View()), BlockOn(c, kind, keys, onNokey))
    {
      hide Inv, AddKey;
      ghost var s := View();
      StepInv(s, BlockOn(c, kind, keys, onNokey));
      clients := clients[c := Blocked(kind, map[], onNokey)];
      ghost var start := Ix();
      assert keys[..0] == [];
      var j := 0;
      while j < |keys|
        invariant 0 <= j <= |keys|
        invariant c in clients && c in start.clients && counts == s.counts
        invariant Ix() == AddKeys(start, c, keys[..j])
      {
        assert keys[..j + 1][..j] == keys[..j];
        AddWaiter(c, keys[j]);
        j := j + 1;
      }
      assert keys[..j] == keys;
      counts := counts[kind := (if kind in counts then counts[kind] else 0) + 1];
    }

    // releaseBlockedEntry: both of its assertions hold.
    method ReleaseEntry(c: Client, k: Key)
      requires BlockedIndex.Valid(Ix()) && c in clients && k in clients[c].keys
      modifies this`clients, this`waiters, this`nokeys
      ensures Ix() == DropKey(old(Ix()), c, k)
    {
      EntryThere(Ix(), c, k);
      hide BlockedIndex.Valid;
      assert k in waiters;
      var left := Unlinked(waiters[k], clients[c].keys[k]);
      if left == [] {
        waiters := waiters - {k};
        nokeys := nokeys - {k};
      } else {
        waiters := waiters[k := left];
        if clients[c].nokey {
          assert k in nokeys;
          if nokeys[k] == 1 {
            nokeys := nokeys - {k};
          } else {
            nokeys := nokeys[k := nokeys[k] - 1];
          }
        }
      }
      clients := clients[c := clients[c].(keys := clients[c].keys - {k})];
    }

    // unblockClientWaitingData: every key the client waits for, in any order.
    method ReleaseAll(c: Client)
      requires BlockedIndex.Valid(Ix()) && c in clients
      modifies this`clients, this`waiters, this`nokeys
      ensures BlockedIndex.Valid(Ix()) && c in clients && clients[c].keys == map[] && clients[c].kind == old(clients[c].kind)
      ensures Unblock(Ix(), c) == Unblock(old(Ix()), c)
    {
      hide BlockedIndex.Valid, Unblock;
      while clients[c].keys != map[]
        invariant BlockedIndex.Valid(Ix()) && c in clients && clients[c].kind == old(clients[c].kind)
        invariant Unblock(Ix(), c) == Unblock(old(Ix()), c)
        decreases |clients[c].keys|
      {
        var k :| k in clients[c].keys;
        DropKeyValid(Ix(), c, k);
        DropOnTheWay(Ix(), c, k);
        ReleaseEntry(c, k);
      }
    }

    // unblockClient for a client blocked on keys.
    method UnblockClient(c: Client)
      requires Valid() && c in clients
      modifies this`clients, this`waiters, this`nokeys, this`counts
      ensures Valid() && View() == Step(old(View()), Free(c))
    {
      ghost var s := View();
      StepInv(s, Free(c));
      KindCounted(s, c);
      hide Inv, BlockedIndex.Valid, Unblock;
      ReleaseAll(c);
      DropEnds(Ix(), c);
      var kind := clients[c].kind;
      clients := clients - {c};
      counts := counts[kind := counts[kind] - 1];
    }

    // signalKeyAsReadyLogic.
    method SignalKey(k: Key, served: Option<Kind>, deleted: bool)
      requires Valid()
      modifies this`ready, this`flags
      ensures Valid() && View() == Step(old(View()), Signal(k, served, deleted))
    {
      StepInv(View(), Signal(k, served, deleted));
      hide Inv;
      if served.None? {
        return;
      }
      var t := served.value;
      if !SomeoneServed(counts, t) {
        return;
      }
      if deleted {
        if k !in nokeys {
          return;
        }
      } else if k !in waiters {
        return;
      }
      if k in flags {
        return;
      }
      flags := flags + {k};
      ready := ready + [k];
    }

    // The next key to handle, no longer flagged, so that it can be signalled again.
    method NextReady() returns (k: Option<Key>)
      requires Valid()
      modifies this`ready, this`batch, this`flags
      ensures Valid() && Ix() == old(Ix()) && counts == old(counts)
      ensures k.None? <==> old(batch + ready) == []
      ensures k.Some? ==> old(batch + ready) == [k.value] + (batch + ready) && k.value !in flags && k.value !in batch + ready
    {
      ghost var s := View();
      if batch == [] {
        StepInv(s, Grab);
        batch, ready := ready, [];
      }
      if batch == [] {
        return None;
      }
      ghost var t := View();
      StepInv(t, Next);
      k := Some(batch[0]);
      ghost var q := batch + ready;
      assert q == old(batch + ready);
      flags := flags - {batch[0]};
      batch := batch[1..];
      assert View() == Step(t, Next);
      assert q == [k.value] + (batch + ready);
    }

    /**
     * handleClientsBlockedOnKey. The iterator saves the next node before each visit; the
     * initial length bounds the walk. It visits exactly the waiters present at the start,
     * in blocking order, and never follows a node that is gone.
     */
    method HandleKey(k: Key, visits: seq<Visit>) returns (visited: seq<Client>)
      requires Valid() && |visits| >= |Queue(Ix(), k)|
      modifies this`clients, this`waiters, this`nokeys, this`next, this`counts
      ensures Valid() && visited == Names(Queue(old(Ix()), k))
      ensures View() == Pass(old(View()), Queue(old(Ix()), k), visits, |Queue(old(Ix()), k)|)
      ensures forall i | 0 <= i < |visited| :: Treated(old(clients), clients, visited[i], visits[i])
      ensures forall c | c !in visited :: (c in clients <==> c in old(clients)) && (c in clients ==> clients[c] == old(clients[c]))
    {
      hide Treated;
      hide Inv, Walked, Kept, Rejoined, Distinct, Waits, VisitOne, Pass, Names, Apart;
      visited := [];
      if k !in waiters {
        NoWalk(View(), visits);
        return;
      }
      ghost var s, init := View(), waiters[k];
      StartWalk(s, k, init, visits);
      var at := Some(waiters[k][0].id);
      var count := |waiters[k]|;
      var i := 0;
      ghost var back: seq<Node> := [];
      ghost var ahead := init[0];
      while at.Some? && count > 0
        invariant 0 <= i <= |init| && count == |init| - i
        invariant Valid() && View() == Pass(s, init, visits, i) && visited == Names(init[..i])
        invariant Walked(s, k, init, visits, i, Queue(Ix(), k), back)
        invariant i < |init| ==> at == Some(init[i].id)
        invariant at.Some? ==> ahead in Queue(Ix(), k) && ahead.id == at.value
      {
        ghost var t := View();
        var q := if k in waiters then waiters[k] else [];
        NodeIndex(q, ahead, at.value);
        var p := Find(q, at.value);
        var n := q[p];
        at := if p + 1 < |q| then Some(q[p + 1].id) else None;
        count := count - 1;
        visited := visited + [n.client];
        ahead := if p + 1 < |q| then q[p + 1] else n;
        back := Advance(s, k, init, visits, i, t, back, p);
        PassNext(s, init, visits, i);
        VisitNode(n.client, k, visits[i]);
        i := i + 1;
      }
      assert init[..|init|] == init;
      AllTreated(s, init, visits);
    }

    // One receiver: served if it waits for what the key now holds, passed over if not.
    method VisitNode(c: Client, k: Key, v: Visit)
      requires Valid() && c in clients && k in clients[c].keys
      modifies this`clients, this`waiters, this`nokeys, this`next, this`counts
      ensures Valid() && View() == VisitOne(old(View()), c, v)
    {
      hide Inv, Freed, BlockedState;
      if Matches(clients[c], v.found) {
        Serve(c, k, v.again);
      }
    }

    // unblockClientOnKey with the retry of the client's command.
    method Serve(c: Client, k: Key, again: Option<Retry>)
      requires Valid() && c in clients && k in clients[c].keys
      modifies this`clients, this`waiters, this`nokeys, this`next, this`counts
      ensures Valid()
      ensures
        var u := Freed(old(View()), c);
        View() == if again.None? then u else BlockedState(u, c, again.value.kind, again.value.keys, again.value.nokey)
    {
      hide Inv, Unblock, Block;
      UnblockClient(c);
      ClientGone(old(View()), c);
      if again.Some? {
        BlockForKeys(c, again.value.kind, again.value.keys, again.value.nokey);
      }
    }
  }

  lemma AllTreated(s: State, init: seq<Node>, visits: seq<Visit>)
    requires Apart(s, init) && |init| <= |visits|
    ensures
      var now, visited := Pass(s, init, visits, |init|).ix.clients, Names(init);
      && |visited| == |init|
      && (forall i | 0 <= i < |init| :: Treated(s.ix.clients, now, visited[i], visits[i]))
      && (forall c | c !in visited :: (c in now <==> c in s.ix.clients) && (c in now ==> now[c] == s.ix.clients[c]))
  {
    hide Treated, Pass;
    var visited := Names(init);
    forall i | 0 <= i < |init|
      ensures Treated(s.ix.clients, Pass(s, init, visits, |init|).ix.clients, visited[i], visits[i])
    {
      PassTreats(s, init, visits, |init|, i);
    }
    forall c | c !in visited
      ensures
        var now := Pass(s, init, visits, |init|).ix.clients;
        (c in now <==> c in s.ix.clients) && (c in now ==> now[c] == s.ix.clients[c])
    {
      assert forall j | 0 <= j < |init| :: visited[j] == init[j].client;
      PassOthers(s, init, visits, |init|, c);
    }
  }

  lemma ClientGone(s: State, c: Client)
    requires c in s.ix.clients
    ensures c !in Freed(s, c).ix.clients
  {
  }

  // The index entries a release relies on.
  lemma EntryThere(s: Index, c: Client, k: Key)
    requires BlockedIndex.Valid(s) && c in s.clients && k in s.clients[c].keys
    ensures k in s.waiters && (s.clients[c].nokey ==> k in s.nokey && s.nokey[k] > 0)
  {
    var n := Node(s.clients[c].keys[k], c);
    assert n in Queue(s, k);
    if s.clients[c].nokey {
      FlaggedSome(Queue(s, k), n, s.clients);
      assert NokeyCount(s, k) > 0;
    }
  }

  lemma KindCounted(s: State, c: Client)
    requires Inv(s) && c in s.ix.clients
    ensures BlockedIndex.Valid(s.ix)
    ensures s.ix.clients[c].kind in s.counts && s.counts[s.ix.clients[c].kind] > 0
  {
    assert c in OfKind(s.ix.clients, s.ix.clients[c].kind);
    assert CountOf(s.counts, s.ix.clients[c].kind) > 0;
  }

  lemma ListThere(s: State, k: Key)
    requires Inv(s)
    ensures k in s.ix.waiters ==> s.ix.waiters[k] != []
    ensures Queue(s.ix, k) != [] ==> k in s.ix.waiters
  {
  }

  lemma NodeIndex(q: seq<Node>, n: Node, id: nat)
    requires n in q && n.id == id
    ensures exists j :: 0 <= j < |q| && q[j].id == id
  {
  }

  lemma OnlyAt(q: seq<Node>, i: nat, j: nat)
    requires Distinct(q) && i < |q| && j < |q| && q[i].id == q[j].id
    ensures i == j
  {
  }

  lemma WaitsMeans(s: State, k: Key, n: Node)
    requires Inv(s) && n in Queue(s.ix, k)
    ensures n.client in s.ix.clients && k in s.ix.clients[n.client].keys
  {
    assert Waits(s.ix.clients, k, n);
  }

  lemma StartWalk(s: State, k: Key, init: seq<Node>, visits: seq<Visit>)
    requires Inv(s) && k in s.ix.waiters && init == s.ix.waiters[k]
    ensures init != [] && Walked(s, k, init, visits, 0, init, []) && Pass(s, init, visits, 0) == s && Names(init[..0]) == []
    ensures Apart(s, init)
  {
    ListThere(s, k);
    hide Inv;
    WaitersDiffer(s, k, init);
    WalkStart(s, k, init, visits);
  }

  lemma NoWalk(s: State, visits: seq<Visit>)
    ensures Pass(s, [], visits, 0) == s && Names([]) == []
  {
  }

  lemma PassNext(s: State, init: seq<Node>, visits: seq<Visit>, i: nat)
    requires i < |init| && i < |visits|
    ensures Pass(s, init, visits, i + 1) == VisitOne(Pass(s, init, visits, i), init[i].client, visits[i])
    ensures Names(init[..i + 1]) == Names(init[..i]) + [init[i].client]
  {
  }

  // One visit of the walk: it is at the right waiter, and what it saved stays good.
  lemma Advance(s: State, k: Key, init: seq<Node>, visits: seq<Visit>, i: nat, t: State, back: seq<Node>, p: nat)
    returns (more: seq<Node>)
    requires Inv(s) && Inv(t) && i < |init| && i < |visits|
    requires Apart(s, init)
    requires t == Pass(s, init, visits, i) && Walked(s, k, init, visits, i, Queue(t.ix, k), back)
    requires p < |Queue(t.ix, k)| && Queue(t.ix, k)[p].id == init[i].id
    ensures Queue(t.ix, k)[p] == init[i] && init[i].client in t.ix.clients && k in t.ix.clients[init[i].client].keys
    ensures
      var q, n := Queue(t.ix, k), VisitOne(t, init[i].client, visits[i]);
      && Walked(s, k, init, visits, i + 1, Queue(n.ix, k), more)
      && (i + 1 < |init| ==> p + 1 < |q| && q[p + 1] == init[i + 1])
      && (p + 1 < |q| ==> q[p + 1] in Queue(n.ix, k))
  {
    hide Inv, Walked, Kept, Rejoined, Distinct, Waits, VisitOne, Pass, Queue;
    var q := Queue(t.ix, k);
    PassInv(s, init, visits, i);
    QueueDistinct(t, k);
    Here(s, k, init, visits, i, q, back);
    OnlyAt(q, p, |Kept(s, init, visits, i)|);
    WaitsMeans(t, k, q[p]);
    more := WalkOne(s, k, init, visits, i, q, back, t);
    if p + 1 < |q| {
      Ahead(s, k, init, visits, i + 1, Queue(VisitOne(t, init[i].client, visits[i]).ix, k), more, q[p + 1]);
    }
  }
}
