/**
 * Clients blocked on keys: a two-way index between clients and the waiting lists of
 * keys, with the number of waiters per key that also wake when the key disappears, and
 * the number of blocked clients per kind.
 */
module BlockedIndex {

  type Client = nat
  type Key = string

  // The native kinds a client blocks for.
  datatype Kind = List | ListGrowth | SortedSet | Stream

  // A node of a waiting list, with its identity.
  datatype Node = Node(id: nat, client: Client)

  // keys: the node at which the client waits, for each key. nokey: wakes on deletion too.
  datatype Blocked = Blocked(kind: Kind, keys: map<Key, nat>, nokey: bool)

  datatype Index = Index(
    clients: map<Client, Blocked>, waiters: map<Key, seq<Node>>, nokey: map<Key, nat>, next: nat)

  // ---------- lists of nodes ----------

  function Unlinked(q: seq<Node>, id: nat): seq<Node> {
    if q == [] then []
    else Unlinked(q[..|q| - 1], id) + if q[|q| - 1].id == id then [] else [q[|q| - 1]]
  }

  function Without(q: seq<Node>, c: Client): seq<Node> {
    if q == [] then []
    else Without(q[..|q| - 1], c) + if q[|q| - 1].client == c then [] else [q[|q| - 1]]
  }

  predicate WakesOnNokey(clients: map<Client, Blocked>, n: Node) {
    n.client in clients && clients[n.client].nokey
  }

  // The waiters of a list that wake when the key disappears.
  function Flagged(q: seq<Node>, clients: map<Client, Blocked>): nat {
    if q == [] then 0
    else Flagged(q[..|q| - 1], clients) + if WakesOnNokey(clients, q[|q| - 1]) then 1 else 0
  }

  ghost predicate Distinct(q: seq<Node>) {
    forall i, j | 0 <= i < j < |q| :: q[i].id != q[j].id
  }

  lemma {:induction false} UnlinkedFacts(q: seq<Node>, id: nat)
    ensures forall n :: n in Unlinked(q, id) <==> n in q && n.id != id
    ensures Distinct(q) ==> Distinct(Unlinked(q, id))
  {
    if q != [] {
      var l := |q| - 1;
      UnlinkedFacts(q[..l], id);
      assert q == q[..l] + [q[l]];
      var u := Unlinked(q[..l], id);
      if Distinct(q) {
        assert forall n <- q[..l] :: n.id != q[l].id;
        assert forall i | 0 <= i < |u| :: u[i] in u;
      }
    }
  }

  // Taking out a node that occurs once takes one from the count if it was counted.
  lemma {:induction false} UnlinkedCount(q: seq<Node>, n: Node, clients: map<Client, Blocked>)
    requires Distinct(q) && n in q
    ensures Flagged(q, clients) == Flagged(Unlinked(q, n.id), clients) + (if WakesOnNokey(clients, n) then 1 else 0)
  {
    var l := |q| - 1;
    var init, u := q[..l], Unlinked(q[..l], n.id);
    if q[l] == n {
      NothingUnlinked(init, n.id);
      assert Unlinked(q, n.id) == init;
    } else {
      assert q == init + [q[l]];
      assert q[l].id != n.id by {
        var i :| 0 <= i < |q| && q[i] == n;
      }
      UnlinkedCount(init, n, clients);
      assert (u + [q[l]])[..|u|] == u;
    }
  }

  lemma {:induction false} NothingUnlinked(q: seq<Node>, id: nat)
    requires forall i | 0 <= i < |q| :: q[i].id != id
    ensures Unlinked(q, id) == q
  {
    if q != [] {
      NothingUnlinked(q[..|q| - 1], id);
      assert q == q[..|q| - 1] + [q[|q| - 1]];
    }
  }

  lemma {:induction false} FlaggedFrame(q: seq<Node>, m: map<Client, Blocked>, n: map<Client, Blocked>)
    requires forall i | 0 <= i < |q| :: WakesOnNokey(m, q[i]) == WakesOnNokey(n, q[i])
    ensures Flagged(q, m) == Flagged(q, n)
  {
    if q != [] {
      FlaggedFrame(q[..|q| - 1], m, n);
    }
  }

  // Where a client waits at one known node, unlinking that node takes the client out.
  lemma {:induction false} UnlinkedIsWithout(q: seq<Node>, c: Client, id: nat)
    requires forall i | 0 <= i < |q| :: q[i].client == c <==> q[i].id == id
    ensures Unlinked(q, id) == Without(q, c)
  {
    if q != [] {
      UnlinkedIsWithout(q[..|q| - 1], c, id);
    }
  }

  // ---------- the index ----------

  function Queue(s: Index, k: Key): seq<Node> {
    if k in s.waiters then s.waiters[k] else []
  }

  function NokeyCount(s: Index, k: Key): nat {
    if k in s.nokey then s.nokey[k] else 0
  }

  // A node of a key's list is where its client waits for that key.
  predicate Waits(clients: map<Client, Blocked>, k: Key, n: Node) {
    n.client in clients && k in clients[n.client].keys && clients[n.client].keys[k] == n.id
  }

  ghost predicate Lists(s: Index) {
    forall k <- s.waiters :: s.waiters[k] != [] && Distinct(s.waiters[k])
  }

  ghost predicate Backward(s: Index) {
    forall k, n | n in Queue(s, k) :: Waits(s.clients, k, n) && n.id < s.next
  }

  ghost predicate Forward(s: Index) {
    forall c, k | c in s.clients && k in s.clients[c].keys :: Node(s.clients[c].keys[k], c) in Queue(s, k)
  }

  // A client lists a key exactly when it occurs, once, at the stored node of its list.
  ghost predicate Linked(s: Index) {
    Lists(s) && Backward(s) && Forward(s)
  }

  ghost predicate Counted(s: Index) {
    && (forall k :: NokeyCount(s, k) == Flagged(Queue(s, k), s.clients))
    && (forall k <- s.nokey :: s.nokey[k] > 0)
  }

  ghost predicate Valid(s: Index) {
    Linked(s) && Counted(s)
  }

  // One key of blockForKeys: a key the client already lists is passed over.
  function AddKey(s: Index, c: Client, k: Key): Index
    requires c in s.clients
  {
    var b := s.clients[c];
    if k in b.keys then s
    else Index(
      s.clients[c := b.(keys := b.keys[k := s.next])],
      s.waiters[k := Queue(s, k) + [Node(s.next, c)]],
      if b.nokey then s.nokey[k := NokeyCount(s, k) + 1] else s.nokey,
      s.next + 1)
  }

  // releaseBlockedEntry.
  function DropKey(s: Index, c: Client, k: Key): Index
    requires c in s.clients && k in s.clients[c].keys
  {
    var b := s.clients[c];
    var left := Unlinked(Queue(s, k), b.keys[k]);
    Index(
      s.clients[c := b.(keys := b.keys - {k})],
      if left == [] then s.waiters - {k} else s.waiters[k := left],
      if left == [] then s.nokey - {k}
      else if !b.nokey then s.nokey
      else if NokeyCount(s, k) <= 1 then s.nokey - {k}
      else s.nokey[k := NokeyCount(s, k) - 1],
      s.next)
  }

  lemma AddKeyLinked(s: Index, c: Client, k: Key)
    requires Linked(s) && c in s.clients
    ensures Linked(AddKey(s, c, k))
  {
    if k !in s.clients[c].keys {
      AddKeyLists(s, c, k);
      AddKeyBackward(s, c, k);
      AddKeyForward(s, c, k);
    }
  }

  lemma AddKeyLists(s: Index, c: Client, k: Key)
    requires Lists(s) && Backward(s) && c in s.clients && k !in s.clients[c].keys
    ensures Lists(AddKey(s, c, k))
  {
    var q := Queue(s, k);
    assert forall i | 0 <= i < |q| :: q[i] in q;
  }

  lemma AddKeyBackward(s: Index, c: Client, k: Key)
    requires Backward(s) && c in s.clients && k !in s.clients[c].keys
    ensures Backward(AddKey(s, c, k))
  {
    var n := AddKey(s, c, k);
    forall j, x | x in Queue(n, j)
      ensures Waits(n.clients, j, x) && x.id < n.next
    {
      if j == k && x == Node(s.next, c) {
      } else {
        assert x in Queue(s, j);
        assert Waits(s.clients, j, x);
      }
    }
  }

  lemma AddKeyForward(s: Index, c: Client, k: Key)
    requires Forward(s) && c in s.clients && k !in s.clients[c].keys
    ensures Forward(AddKey(s, c, k))
  {
    var n := AddKey(s, c, k);
    forall d, j | d in n.clients && j in n.clients[d].keys
      ensures Node(n.clients[d].keys[j], d) in Queue(n, j)
    {
      if d == c && j == k {
        assert n.waiters[k][|Queue(s, k)|] == Node(s.next, c);
      } else {
        assert Node(s.clients[d].keys[j], d) in Queue(s, j);
      }
    }
  }

  lemma AddKeyCounted(s: Index, c: Client, k: Key)
    requires Counted(s) && c in s.clients
    ensures Counted(AddKey(s, c, k))
  {
    var n := AddKey(s, c, k);
    if k !in s.clients[c].keys {
      forall j
        ensures NokeyCount(n, j) == Flagged(Queue(n, j), n.clients)
      {
        FlaggedFrame(Queue(s, j), s.clients, n.clients);
        if j == k {
          assert n.waiters[k][..|Queue(s, k)|] == Queue(s, k);
        }
      }
    }
  }

  lemma QueueAfterDrop(s: Index, c: Client, k: Key, j: Key)
    requires c in s.clients && k in s.clients[c].keys
    ensures Queue(DropKey(s, c, k), j) == if j == k then Unlinked(Queue(s, k), s.clients[c].keys[k]) else Queue(s, j)
  {
  }

  lemma DropKeyLinked(s: Index, c: Client, k: Key)
    requires Linked(s) && c in s.clients && k in s.clients[c].keys
    ensures Linked(DropKey(s, c, k))
  {
    UnlinkedFacts(Queue(s, k), s.clients[c].keys[k]);
    DropKeyBackward(s, c, k);
    DropKeyForward(s, c, k);
  }

  lemma DropKeyBackward(s: Index, c: Client, k: Key)
    requires Backward(s) && c in s.clients && k in s.clients[c].keys
    ensures Backward(DropKey(s, c, k))
  {
    var n := DropKey(s, c, k);
    UnlinkedFacts(Queue(s, k), s.clients[c].keys[k]);
    forall j, x | x in Queue(n, j)
      ensures Waits(n.clients, j, x) && x.id < n.next
    {
      QueueAfterDrop(s, c, k, j);
      assert Waits(s.clients, j, x);
    }
  }

  lemma DropKeyForward(s: Index, c: Client, k: Key)
    requires Linked(s) && c in s.clients && k in s.clients[c].keys
    ensures Forward(DropKey(s, c, k))
  {
    var n := DropKey(s, c, k);
    UnlinkedFacts(Queue(s, k), s.clients[c].keys[k]);
    forall d, j | d in n.clients && j in n.clients[d].keys
      ensures Node(n.clients[d].keys[j], d) in Queue(n, j)
    {
      QueueAfterDrop(s, c, k, j);
      assert Node(s.clients[d].keys[j], d) in Queue(s, j);
      if j == k {
        DistinctClients(s, k, c, d);
      }
    }
  }

  // Two clients waiting for a key wait at different nodes.
  lemma DistinctClients(s: Index, k: Key, c: Client, d: Client)
    requires Linked(s) && c in s.clients && d in s.clients && c != d
    requires k in s.clients[c].keys && k in s.clients[d].keys
    ensures s.clients[c].keys[k] != s.clients[d].keys[k]
  {
    var q := Queue(s, k);
    var x, y := Node(s.clients[c].keys[k], c), Node(s.clients[d].keys[k], d);
    var i :| 0 <= i < |q| && q[i] == x;
    var j :| 0 <= j < |q| && q[j] == y;
    assert i != j;
  }

  lemma DropKeyCounted(s: Index, c: Client, k: Key)
    requires Valid(s) && c in s.clients && k in s.clients[c].keys
    ensures Counted(DropKey(s, c, k))
  {
    var n := DropKey(s, c, k);
    var x := Node(s.clients[c].keys[k], c);
    var q := Queue(s, k);
    assert x in q;
    UnlinkedCount(q, x, s.clients);
    hide Lists, Backward, Forward;
    forall j
      ensures NokeyCount(n, j) == Flagged(Queue(n, j), n.clients)
    {
      FlaggedFrame(Queue(s, j), s.clients, n.clients);
      FlaggedFrame(Unlinked(q, x.id), s.clients, n.clients);
    }
  }

  // ---------- blocking and unblocking a client ----------

  function Enter(s: Index, c: Client, kind: Kind, nokey: bool): Index {
    s.(clients := s.clients[c := Blocked(kind, map[], nokey)])
  }

  function AddKeys(s: Index, c: Client, keys: seq<Key>): (r: Index)
    requires c in s.clients
    ensures c in r.clients
  {
    if keys == [] then s else AddKey(AddKeys(s, c, keys[..|keys| - 1]), c, keys[|keys| - 1])
  }

  function Block(s: Index, c: Client, kind: Kind, keys: seq<Key>, nokey: bool): Index {
    AddKeys(Enter(s, c, kind, nokey), c, keys)
  }

  // The index without a client: every list keeps the order of the others.
  function Unblock(s: Index, c: Client): Index {
    Index(
      s.clients - {c},
      map k | k in s.waiters && Without(s.waiters[k], c) != [] :: Without(s.waiters[k], c),
      map k | k in s.waiters && Flagged(Without(s.waiters[k], c), s.clients) > 0 :: Flagged(Without(s.waiters[k], c), s.clients),
      s.next)
  }

  lemma NotWaiting(s: Index, c: Client, k: Key)
    requires Backward(s) && (c !in s.clients || k !in s.clients[c].keys)
    ensures forall n <- Queue(s, k) :: n.client != c
  {
    forall n <- Queue(s, k)
      ensures n.client != c
    {
      assert Waits(s.clients, k, n);
    }
  }

  lemma EnterValid(s: Index, c: Client, kind: Kind, nokey: bool)
    requires Valid(s) && c !in s.clients
    ensures Valid(Enter(s, c, kind, nokey))
  {
    var n := Enter(s, c, kind, nokey);
    forall k
      ensures NokeyCount(n, k) == Flagged(Queue(n, k), n.clients)
      ensures forall x <- Queue(n, k) :: Waits(n.clients, k, x) && x.id < n.next
    {
      NotWaiting(s, c, k);
      FlaggedFrame(Queue(s, k), s.clients, n.clients);
      assert forall x <- Queue(s, k) :: Waits(s.clients, k, x);
    }
    forall d, k | d in n.clients && k in n.clients[d].keys
      ensures Node(n.clients[d].keys[k], d) in Queue(n, k)
    {
      assert Node(s.clients[d].keys[k], d) in Queue(s, k);
    }
  }

  lemma {:induction false} AddKeysValid(s: Index, c: Client, keys: seq<Key>)
    requires Valid(s) && c in s.clients
    ensures Valid(AddKeys(s, c, keys))
  {
    if keys != [] {
      var n := |keys| - 1;
      AddKeysValid(s, c, keys[..n]);
      AddKeyLinked(AddKeys(s, c, keys[..n]), c, keys[n]);
      AddKeyCounted(AddKeys(s, c, keys[..n]), c, keys[n]);
    }
  }

  /**
   * Blocking keeps the index consistent, and adds the client at the end of exactly the
   * lists of the keys it names, once each however often a key is repeated.
   */
  lemma BlockValid(s: Index, c: Client, kind: Kind, keys: seq<Key>, nokey: bool)
    requires Valid(s) && c !in s.clients
    ensures Valid(Block(s, c, kind, keys, nokey))
  {
    EnterValid(s, c, kind, nokey);
    AddKeysValid(Enter(s, c, kind, nokey), c, keys);
  }

  // `q` is `was` with one node of `c` at the end, or `was` itself.
  predicate Joins(was: seq<Node>, q: seq<Node>, c: Client, joins: bool) {
    if joins then |q| == |was| + 1 && q[..|was|] == was && q[|was|].client == c else q == was
  }

  lemma AddKeyQueue(s: Index, c: Client, k: Key, j: Key)
    requires c in s.clients
    ensures Joins(Queue(s, j), Queue(AddKey(s, c, k), j), c, j == k && k !in s.clients[c].keys)
  {
  }

  lemma {:induction false} AddKeysClients(s: Index, c: Client, keys: seq<Key>)
    requires c in s.clients && s.clients[c].keys == map[]
    ensures
      var n := AddKeys(s, c, keys);
      && n.clients.Keys == s.clients.Keys
      && n.clients[c].keys.Keys == (set k | k in keys)
      && n.clients[c].kind == s.clients[c].kind && n.clients[c].nokey == s.clients[c].nokey
      && forall d <- s.clients | d != c :: n.clients[d] == s.clients[d]
  {
    if keys != [] {
      var n := |keys| - 1;
      AddKeysClients(s, c, keys[..n]);
      assert keys == keys[..n] + [keys[n]];
    }
  }

  lemma {:induction false} AddKeysQueues(s: Index, c: Client, keys: seq<Key>, k: Key)
    requires c in s.clients && s.clients[c].keys == map[]
    ensures Joins(Queue(s, k), Queue(AddKeys(s, c, keys), k), c, k in keys)
  {
    if keys != [] {
      var n := |keys| - 1;
      AddKeysQueues(s, c, keys[..n], k);
      AddKeysClients(s, c, keys[..n]);
      AddKeyQueue(AddKeys(s, c, keys[..n]), c, keys[n], k);
      hide AddKey;
      assert keys == keys[..n] + [keys[n]];
    }
  }

  // What blocking a client does to the table of clients.
  lemma BlockClients(s: Index, c: Client, kind: Kind, keys: seq<Key>, nokey: bool)
    ensures
      var n := Block(s, c, kind, keys, nokey);
      && n.clients.Keys == s.clients.Keys + {c}
      && n.clients[c].kind == kind && n.clients[c].nokey == nokey && n.clients[c].keys.Keys == (set k | k in keys)
      && forall d <- s.clients | d != c :: n.clients[d] == s.clients[d]
  {
    AddKeysClients(Enter(s, c, kind, nokey), c, keys);
  }

  // And to each key's list.
  lemma BlockQueue(s: Index, c: Client, kind: Kind, keys: seq<Key>, nokey: bool, k: Key)
    ensures Joins(Queue(s, k), Queue(Block(s, c, kind, keys, nokey), k), c, k in keys)
  {
    AddKeysQueues(Enter(s, c, kind, nokey), c, keys, k);
  }

  lemma {:induction false} WithoutFacts(q: seq<Node>, c: Client)
    ensures forall n :: n in Without(q, c) <==> n in q && n.client != c
    ensures |Without(q, c)| <= |q|
  {
    if q != [] {
      WithoutFacts(q[..|q| - 1], c);
      assert q == q[..|q| - 1] + [q[|q| - 1]];
    }
  }

  lemma {:induction false} WithoutNone(q: seq<Node>, c: Client)
    requires forall i | 0 <= i < |q| :: q[i].client != c
    ensures Without(q, c) == q
  {
    if q != [] {
      WithoutNone(q[..|q| - 1], c);
      assert q == q[..|q| - 1] + [q[|q| - 1]];
    }
  }

  lemma WithoutTwice(q: seq<Node>, c: Client)
    ensures Without(Without(q, c), c) == Without(q, c)
  {
    WithoutFacts(q, c);
    var w := Without(q, c);
    assert forall i | 0 <= i < |w| :: w[i] in w;
    WithoutNone(w, c);
  }

  // A client's own node is the one its entry stores.
  lemma OwnNode(s: Index, c: Client, k: Key)
    requires Linked(s) && c in s.clients && k in s.clients[c].keys
    ensures Unlinked(Queue(s, k), s.clients[c].keys[k]) == Without(Queue(s, k), c)
  {
    var q, id := Queue(s, k), s.clients[c].keys[k];
    forall i | 0 <= i < |q|
      ensures q[i].client == c <==> q[i].id == id
    {
      assert q[i] in q && Waits(s.clients, k, q[i]);
      if q[i].client != c {
        DistinctClients(s, k, c, q[i].client);
      }
    }
    UnlinkedIsWithout(q, c, id);
  }

  // Lists are never empty and counts never zero, so an index is what it says of each key.
  predicate Tidy(s: Index) {
    (forall k <- s.waiters :: s.waiters[k] != []) && forall k <- s.nokey :: s.nokey[k] > 0
  }

  lemma SameIndex(s: Index, t: Index)
    requires Tidy(s) && Tidy(t) && s.clients == t.clients && s.next == t.next
    requires forall k :: Queue(s, k) == Queue(t, k) && NokeyCount(s, k) == NokeyCount(t, k)
    ensures s == t
  {
    assert forall k :: k in s.waiters <==> Queue(s, k) != [];
    assert forall k :: k in t.waiters <==> Queue(t, k) != [];
    assert s.waiters == t.waiters;
    assert forall k :: k in s.nokey <==> NokeyCount(s, k) > 0;
    assert forall k :: k in t.nokey <==> NokeyCount(t, k) > 0;
    assert s.nokey == t.nokey;
  }

  lemma AfterUnblock(s: Index, c: Client, k: Key)
    ensures Queue(Unblock(s, c), k) == Without(Queue(s, k), c)
    ensures NokeyCount(Unblock(s, c), k) == Flagged(Without(Queue(s, k), c), s.clients)
  {
  }

  lemma UnblockTidy(s: Index, c: Client)
    ensures Tidy(Unblock(s, c))
  {
  }

  lemma DropClients(s: Index, c: Client, k: Key)
    requires c in s.clients && k in s.clients[c].keys
    ensures DropKey(s, c, k).clients - {c} == s.clients - {c} && DropKey(s, c, k).next == s.next
    ensures forall n :: WakesOnNokey(DropKey(s, c, k).clients, n) == WakesOnNokey(s.clients, n)
  {
  }

  lemma DropQueue(s: Index, c: Client, k: Key, j: Key)
    requires Linked(s) && c in s.clients && k in s.clients[c].keys
    ensures Without(Queue(DropKey(s, c, k), j), c) == Without(Queue(s, j), c)
    ensures Flagged(Without(Queue(s, j), c), DropKey(s, c, k).clients) == Flagged(Without(Queue(s, j), c), s.clients)
  {
    OwnNode(s, c, k);
    hide Linked, DropKey;
    WithoutTwice(Queue(s, k), c);
    QueueAfterDrop(s, c, k, j);
    DropClients(s, c, k);
    FlaggedFrame(Without(Queue(s, j), c), s.clients, DropKey(s, c, k).clients);
  }

  // Releasing one of the client's keys is on the way to releasing them all.
  lemma DropOnTheWay(s: Index, c: Client, k: Key)
    requires Linked(s) && c in s.clients && k in s.clients[c].keys
    ensures Unblock(DropKey(s, c, k), c) == Unblock(s, c)
  {
    var n, u, v := DropKey(s, c, k), Unblock(DropKey(s, c, k), c), Unblock(s, c);
    UnblockTidy(s, c);
    UnblockTidy(n, c);
    DropClients(s, c, k);
    assert u.clients == v.clients && u.next == v.next;
    hide Linked, Unblock, DropKey, Tidy, Queue, NokeyCount;
    forall j
      ensures Queue(u, j) == Queue(v, j) && NokeyCount(u, j) == NokeyCount(v, j)
    {
      AfterUnblock(s, c, j);
      AfterUnblock(n, c, j);
      DropQueue(s, c, k, j);
    }
    SameIndex(u, v);
  }

  lemma DropEnds(s: Index, c: Client)
    requires Valid(s) && c in s.clients && s.clients[c].keys == map[]
    ensures s.(clients := s.clients - {c}) == Unblock(s, c)
  {
    var n, u := s.(clients := s.clients - {c}), Unblock(s, c);
    assert Tidy(n) && Tidy(u) && n.clients == u.clients && n.next == u.next;
    hide Unblock, Forward;
    forall k
      ensures Queue(n, k) == Queue(u, k) && NokeyCount(n, k) == NokeyCount(u, k)
    {
      NotWaiting(s, c, k);
      assert forall i | 0 <= i < |Queue(s, k)| :: Queue(s, k)[i] in Queue(s, k);
      WithoutNone(Queue(s, k), c);
      AfterUnblock(s, c, k);
    }
    SameIndex(n, u);
  }

  lemma LeaveValid(s: Index, c: Client)
    requires Valid(s) && c in s.clients && s.clients[c].keys == map[]
    ensures Valid(s.(clients := s.clients - {c}))
  {
    var n := s.(clients := s.clients - {c});
    forall k
      ensures NokeyCount(n, k) == Flagged(Queue(n, k), n.clients)
      ensures forall x <- Queue(n, k) :: Waits(n.clients, k, x) && x.id < n.next
    {
      NotWaiting(s, c, k);
      FlaggedFrame(Queue(s, k), s.clients, n.clients);
      assert forall x <- Queue(s, k) :: Waits(s.clients, k, x);
    }
    forall d, k | d in n.clients && k in n.clients[d].keys
      ensures Node(n.clients[d].keys[k], d) in Queue(n, k)
    {
      assert Node(s.clients[d].keys[k], d) in Queue(s, k);
    }
  }

  // Taking a client out, whatever keys it waits for, keeps the index consistent.
  lemma {:induction false} UnblockValid(s: Index, c: Client)
    requires Valid(s) && c in s.clients
    ensures Valid(Unblock(s, c))
    decreases |s.clients[c].keys|
  {
    hide Valid, Unblock, DropKey;
    if s.clients[c].keys == map[] {
      DropEnds(s, c);
      LeaveValid(s, c);
    } else {
      var k :| k in s.clients[c].keys;
      DropKeyValid(s, c, k);
      DropOnTheWay(s, c, k);
      UnblockValid(DropKey(s, c, k), c);
    }
  }

  lemma DropKeyValid(s: Index, c: Client, k: Key)
    requires Valid(s) && c in s.clients && k in s.clients[c].keys
    ensures Valid(DropKey(s, c, k)) && Linked(s)
    ensures c in DropKey(s, c, k).clients && DropKey(s, c, k).clients[c].keys == s.clients[c].keys - {k}
    ensures |s.clients[c].keys - {k}| < |s.clients[c].keys|
  {
    DropKeyLinked(s, c, k);
    DropKeyCounted(s, c, k);
    var m := s.clients[c].keys;
    assert (m - {k}).Keys == m.Keys - {k};
    assert |m.Keys| == |m| && |(m - {k}).Keys| == |m - {k}|;
  }
}
