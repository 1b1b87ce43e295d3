/**
 * Runs of blocking, unblocking, signalling and serving: the index with its per-kind
 * counters and the queues of ready keys.
 */
module BlockedRuns {
  import opened Prelude
  import opened BlockedIndex

  // ready: server.ready_keys. batch: the list being drained. flags: db->ready_keys.
  datatype State = State(ix: Index, counts: map<Kind, nat>, ready: seq<Key>, batch: seq<Key>, flags: set<Key>)

  datatype Action =
    | BlockOn(c: Client, kind: Kind, keys: seq<Key>, nokey: bool)
    | Free(c: Client)
    | Signal(k: Key, served: Option<Kind>, deleted: bool)
    | Grab
    | Next

  predicate Enabled(s: State, a: Action) {
    match a
    case BlockOn(c, _, _, _) => c !in s.ix.clients
    case Free(c) => c in s.ix.clients
    case Signal(_, _, _) => true
    case Grab => s.batch == []
    case Next => s.batch != []
  }

  function CountOf(counts: map<Kind, nat>, t: Kind): nat {
    if t in counts then counts[t] else 0
  }

  // A new list serves those waiting for any list; growth serves only its own waiters.
  predicate Serves(signal: Kind, waiter: Kind) {
    waiter == signal || (signal.List? && waiter.ListGrowth?)
  }

  predicate SomeoneServed(counts: map<Kind, nat>, t: Kind) {
    CountOf(counts, t) > 0 || (t.List? && CountOf(counts, ListGrowth) > 0)
  }

  // signalKeyAsReadyLogic.
  function Signalled(s: State, k: Key, served: Option<Kind>, deleted: bool): State {
    if served.None? || !SomeoneServed(s.counts, served.value) then s
    else if (if deleted then k !in s.ix.nokey else k !in s.ix.waiters) then s
    else if k in s.flags then s
    else s.(flags := s.flags + {k}, ready := s.ready + [k])
  }

  function BlockedState(s: State, c: Client, kind: Kind, keys: seq<Key>, nokey: bool): State {
    s.(ix := Block(s.ix, c, kind, keys, nokey), counts := s.counts[kind := CountOf(s.counts, kind) + 1])
  }

  function Freed(s: State, c: Client): State
    requires c in s.ix.clients
  {
    var t := s.ix.clients[c].kind;
    s.(ix := Unblock(s.ix, c), counts := s.counts[t := if CountOf(s.counts, t) > 0 then CountOf(s.counts, t) - 1 else 0])
  }

  function Step(s: State, a: Action): State
    requires Enabled(s, a)
  {
    match a
    case BlockOn(c, kind, keys, nokey) => BlockedState(s, c, kind, keys, nokey)
    case Free(c) => Freed(s, c)
    case Signal(k, served, deleted) => Signalled(s, k, served, deleted)
    case Grab => s.(batch := s.ready, ready := [])
    case Next => s.(flags := s.flags - {s.batch[0]}, batch := s.batch[1..])
  }

  // ---------- what every step keeps ----------

  function OfKind(clients: map<Client, Blocked>, t: Kind): set<Client> {
    set c | c in clients && clients[c].kind == t
  }

  ghost predicate Typed(s: State) {
    forall t: Kind :: CountOf(s.counts, t) == |OfKind(s.ix.clients, t)|
  }

  ghost predicate NoRepeat(q: seq<Key>) {
    forall i, j | 0 <= i < j < |q| :: q[i] != q[j]
  }

  // A key is flagged exactly while it is queued, and queued at most once.
  ghost predicate Queued(s: State) {
    NoRepeat(s.batch + s.ready) && forall k :: k in s.flags <==> k in s.batch + s.ready
  }

  ghost predicate Inv(s: State) {
    Valid(s.ix) && Typed(s) && Queued(s)
  }

  lemma OneMoreOfKind(m: map<Client, Blocked>, n: map<Client, Blocked>, c: Client, kind: Kind, t: Kind)
    requires c !in m && n.Keys == m.Keys + {c} && n[c].kind == kind && forall d <- m | d != c :: n[d] == m[d]
    ensures |OfKind(n, t)| == |OfKind(m, t)| + (if t == kind then 1 else 0)
  {
    assert OfKind(n, t) == if t == kind then OfKind(m, t) + {c} else OfKind(m, t);
  }

  lemma BlockTyped(s: State, c: Client, kind: Kind, keys: seq<Key>, nokey: bool)
    requires Typed(s) && c !in s.ix.clients
    ensures Typed(BlockedState(s, c, kind, keys, nokey))
  {
    var n := BlockedState(s, c, kind, keys, nokey);
    BlockClients(s.ix, c, kind, keys, nokey);
    hide Block;
    forall t: Kind
      ensures CountOf(n.counts, t) == |OfKind(n.ix.clients, t)|
    {
      OneMoreOfKind(s.ix.clients, n.ix.clients, c, kind, t);
    }
  }

  lemma FreeTyped(s: State, c: Client)
    requires Typed(s) && c in s.ix.clients
    ensures Typed(Freed(s, c))
  {
    var n := Freed(s, c);
    forall t: Kind
      ensures CountOf(n.counts, t) == |OfKind(n.ix.clients, t)|
    {
      assert OfKind(n.ix.clients, t) == OfKind(s.ix.clients, t) - {c};
      assert c in OfKind(s.ix.clients, s.ix.clients[c].kind);
    }
  }

  lemma SignalQueued(s: State, k: Key, served: Option<Kind>, deleted: bool)
    requires Queued(s)
    ensures Queued(Signalled(s, k, served, deleted))
  {
    var n := Signalled(s, k, served, deleted);
    if n != s {
      var q := s.batch + s.ready;
      assert n.batch + n.ready == q + [k];
      assert forall i | 0 <= i < |q| :: q[i] in q;
    }
  }

  lemma NextQueued(s: State)
    requires Queued(s) && s.batch != []
    ensures Queued(Step(s, Next))
  {
    var n := Step(s, Next);
    var q := s.batch + s.ready;
    assert q == [s.batch[0]] + (n.batch + n.ready);
    forall i, j | 0 <= i < j < |n.batch + n.ready|
      ensures (n.batch + n.ready)[i] != (n.batch + n.ready)[j]
    {
      assert q[i + 1] != q[j + 1];
    }
    forall i | 0 <= i < |n.batch + n.ready|
      ensures (n.batch + n.ready)[i] != s.batch[0]
    {
      assert q[0] != q[i + 1];
    }
  }

  lemma StepInv(s: State, a: Action)
    requires Inv(s) && Enabled(s, a)
    ensures Inv(Step(s, a))
  {
    match a {
      case BlockOn(c, kind, keys, nokey) =>
        hide Valid, Typed, Queued, Block;
        BlockValid(s.ix, c, kind, keys, nokey);
        BlockTyped(s, c, kind, keys, nokey);
        SameQueues(s, Step(s, a));
      case Free(c) =>
        hide Valid, Typed, Queued, Unblock;
        UnblockValid(s.ix, c);
        FreeTyped(s, c);
        SameQueues(s, Step(s, a));
      case Signal(k, served, deleted) =>
        hide Valid, Queued;
        SignalQueued(s, k, served, deleted);
      case Grab =>
        hide Valid;
        assert s.batch + s.ready == Step(s, a).batch + Step(s, a).ready;
      case Next =>
        hide Valid, Queued;
        NextQueued(s);
    }
  }

  lemma SameQueues(s: State, t: State)
    requires Queued(s) && s.ready == t.ready && s.batch == t.batch && s.flags == t.flags
    ensures Queued(t)
  {
  }

  function Init(): State {
    State(Index(map[], map[], map[], 0), map[], [], [], {})
  }

  function After(s: State, run: seq<Action>): State {
    if run == [] then s
    else
      var t, a := After(s, run[..|run| - 1]), run[|run| - 1];
      if Enabled(t, a) then Step(t, a) else t
  }

  // The index, the counters and the ready queues are right after every run.
  lemma {:induction false} RunInv(run: seq<Action>)
    ensures Inv(After(Init(), run))
  {
    if run == [] {
      assert forall t: Kind :: OfKind(map[], t) == {};
    } else {
      hide Inv, Enabled, Step;
      var n := |run| - 1;
      RunInv(run[..n]);
      if Enabled(After(Init(), run[..n]), run[n]) {
        StepInv(After(Init(), run[..n]), run[n]);
      }
    }
  }

  /**
   * A signal on a key that some waiter is waiting for always leaves the key queued; for
   * a deleted key, a waiter that wakes on deletion.
   */
  lemma SignalIsNotLost(s: State, k: Key, t: Kind, deleted: bool, n: Node)
    requires Inv(s) && n in Queue(s.ix, k) && Serves(t, s.ix.clients[n.client].kind)
    requires deleted ==> s.ix.clients[n.client].nokey
    ensures k in Signalled(s, k, Some(t), deleted).flags
    ensures k in Signalled(s, k, Some(t), deleted).batch + Signalled(s, k, Some(t), deleted).ready
  {
    assert Waits(s.ix.clients, k, n);
    var w := s.ix.clients[n.client].kind;
    assert n.client in OfKind(s.ix.clients, w);
    assert CountOf(s.counts, w) > 0;
    if deleted {
      FlaggedSome(Queue(s.ix, k), n, s.ix.clients);
      assert NokeyCount(s.ix, k) > 0;
    }
    SignalQueued(s, k, Some(t), deleted);
  }

  lemma {:induction false} FlaggedSome(q: seq<Node>, n: Node, clients: map<Client, Blocked>)
    requires n in q && WakesOnNokey(clients, n)
    ensures Flagged(q, clients) > 0
  {
    if q[|q| - 1] != n {
      FlaggedSome(q[..|q| - 1], n, clients);
    }
  }

  /**
   * Exactly which signals queue a key that is not queued yet: those of a kind some client
   * is blocked for (a new list also serves those waiting for growth), on a key somebody
   * waits for; for a deleted key, somebody who wakes on deletion.
   */
  lemma SignalQueuesIff(s: State, k: Key, t: Kind, deleted: bool)
    requires Inv(s) && k !in s.batch + s.ready
    ensures
      var n := Signalled(s, k, Some(t), deleted);
      var wanted :=
        && (exists c :: c in s.ix.clients && (s.ix.clients[c].kind == t || (t == List && s.ix.clients[c].kind == ListGrowth)))
        && (exists c :: c in s.ix.clients && k in s.ix.clients[c].keys && (deleted ==> s.ix.clients[c].nokey));
      && n.batch == s.batch
      && n.ready == (if wanted then s.ready + [k] else s.ready)
      && n.flags == (if wanted then s.flags + {k} else s.flags)
  {
    CountedSome(s, t);
    CountedSome(s, ListGrowth);
    WaitedFor(s.ix, k);
    hide Valid, Typed;
  }

  lemma CountedSome(s: State, t: Kind)
    requires Typed(s)
    ensures CountOf(s.counts, t) > 0 <==> exists c :: c in s.ix.clients && s.ix.clients[c].kind == t
  {
    if CountOf(s.counts, t) > 0 {
      var c :| c in OfKind(s.ix.clients, t);
    }
    if c :| c in s.ix.clients && s.ix.clients[c].kind == t {
      assert c in OfKind(s.ix.clients, t);
    }
  }

  lemma WaitedFor(x: Index, k: Key)
    requires Valid(x)
    ensures k in x.waiters <==> exists c :: c in x.clients && k in x.clients[c].keys
    ensures k in x.nokey <==> exists c :: c in x.clients && k in x.clients[c].keys && x.clients[c].nokey
  {
    if k in x.waiters {
      var n := x.waiters[k][0];
      assert n in Queue(x, k) && Waits(x.clients, k, n);
    }
    if k in x.nokey {
      assert NokeyCount(x, k) > 0;
      var n := SomeFlagged(Queue(x, k), x.clients);
      assert Waits(x.clients, k, n);
    }
    forall c | c in x.clients && k in x.clients[c].keys
      ensures k in x.waiters && (x.clients[c].nokey ==> k in x.nokey)
    {
      var n := Node(x.clients[c].keys[k], c);
      assert n in Queue(x, k);
      if x.clients[c].nokey {
        FlaggedSome(Queue(x, k), n, x.clients);
        assert NokeyCount(x, k) > 0;
      }
    }
  }

  lemma {:induction false} SomeFlagged(q: seq<Node>, clients: map<Client, Blocked>) returns (n: Node)
    requires Flagged(q, clients) > 0
    ensures n in q && WakesOnNokey(clients, n)
  {
    n := q[|q| - 1];
    if !WakesOnNokey(clients, n) {
      n := SomeFlagged(q[..|q| - 1], clients);
    }
  }

  // ---------- one pass over the waiters of a ready key ----------

  datatype Retry = Retry(kind: Kind, keys: seq<Key>, nokey: bool)

  // What a visit finds: the kind of object under the key, and, if the client is served,
  // whether its command blocks again.
  datatype Visit = Visit(found: Option<Kind>, again: Option<Retry>)

  predicate Matches(b: Blocked, found: Option<Kind>) {
    (found.Some? && Serves(found.value, b.kind)) || b.nokey
  }

  function VisitOne(s: State, c: Client, v: Visit): State {
    if c !in s.ix.clients || !Matches(s.ix.clients[c], v.found) then s
    else
      var u := Freed(s, c);
      if v.again.None? then u else BlockedState(u, c, v.again.value.kind, v.again.value.keys, v.again.value.nokey)
  }

  // The first `i` of the waiters `init`, visited in order.
  function Pass(s: State, init: seq<Node>, visits: seq<Visit>, i: nat): State
    requires i <= |init| && i <= |visits|
  {
    if i == 0 then s else VisitOne(Pass(s, init, visits, i - 1), init[i - 1].client, visits[i - 1])
  }

  predicate ServedAt(s: State, init: seq<Node>, visits: seq<Visit>, i: nat)
    requires i < |init| && i < |visits|
  {
    init[i].client in s.ix.clients && Matches(s.ix.clients[init[i].client], visits[i].found)
  }

  // Waiters passed over, in order.
  function Kept(s: State, init: seq<Node>, visits: seq<Visit>, i: nat): seq<Node>
    requires i <= |init| && i <= |visits|
  {
    if i == 0 then []
    else Kept(s, init, visits, i - 1) + if ServedAt(s, init, visits, i - 1) then [] else [init[i - 1]]
  }

  // Clients served whose command blocks on the key again, in order.
  function Rejoined(s: State, k: Key, init: seq<Node>, visits: seq<Visit>, i: nat): seq<Client>
    requires i <= |init| && i <= |visits|
  {
    if i == 0 then []
    else
      var comesBack := ServedAt(s, init, visits, i - 1) && visits[i - 1].again.Some? && k in visits[i - 1].again.value.keys;
      Rejoined(s, k, init, visits, i - 1) + if comesBack then [init[i - 1].client] else []
  }

  function Names(q: seq<Node>): seq<Client> {
    seq(|q|, i requires 0 <= i < |q| => q[i].client)
  }

  lemma VisitInv(s: State, c: Client, v: Visit)
    requires Inv(s)
    ensures Inv(VisitOne(s, c, v))
  {
    hide Inv, Block, Unblock;
    if c in s.ix.clients && Matches(s.ix.clients[c], v.found) {
      StepInv(s, Free(c));
      FreedClients(s, c);
      if v.again.Some? {
        var r := v.again.value;
        StepInv(Freed(s, c), BlockOn(c, r.kind, r.keys, r.nokey));
      }
    }
  }

  lemma FreedClients(s: State, c: Client)
    requires c in s.ix.clients
    ensures Freed(s, c).ix.clients == s.ix.clients - {c}
  {
  }

  lemma VisitOthers(s: State, c: Client, v: Visit)
    ensures forall d | d != c :: d in VisitOne(s, c, v).ix.clients <==> d in s.ix.clients
    ensures forall d <- s.ix.clients | d != c :: VisitOne(s, c, v).ix.clients[d] == s.ix.clients[d]
  {
    hide Block, Unblock;
    if c in s.ix.clients && Matches(s.ix.clients[c], v.found) {
      FreedClients(s, c);
      if v.again.Some? {
        var r := v.again.value;
        BlockClients(Freed(s, c).ix, c, r.kind, r.keys, r.nokey);
      }
    }
  }

  // A list in which a client stands once, with it taken out.
  lemma {:induction false} WithoutMiddle(pre: seq<Node>, n: Node, post: seq<Node>)
    requires (forall i | 0 <= i < |pre| :: pre[i].client != n.client) && forall i | 0 <= i < |post| :: post[i].client != n.client
    ensures Without(pre + [n] + post, n.client) == pre + post
  {
    if post == [] {
      assert (pre + [n] + post)[..|pre|] == pre;
      WithoutNone(pre, n.client);
    } else {
      var l := |post| - 1;
      WithoutMiddle(pre, n, post[..l]);
      assert (pre + [n] + post)[..|pre| + 1 + l] == pre + [n] + post[..l];
      assert pre + post == pre + post[..l] + [post[l]];
    }
  }

  // Each client stands once in a list.
  lemma OnceInQueue(s: Index, k: Key, pre: seq<Node>, n: Node, post: seq<Node>)
    requires Valid(s) && Queue(s, k) == pre + [n] + post
    ensures (forall i | 0 <= i < |pre| :: pre[i].client != n.client) && forall i | 0 <= i < |post| :: post[i].client != n.client
    ensures n.client in s.clients
  {
    var q := Queue(s, k);
    assert q[|pre|] == n && Waits(s.clients, k, n);
    forall i | 0 <= i < |q| && i != |pre|
      ensures q[i].client != n.client
    {
      assert q[i] in q && Waits(s.clients, k, q[i]);
      assert q[i].id != n.id;
    }
    assert forall i | 0 <= i < |pre| :: q[i] == pre[i];
    assert forall i | 0 <= i < |post| :: q[|pre| + 1 + i] == post[i];
  }

  // What a visit does to the list being walked.
  lemma VisitQueue(s: State, k: Key, pre: seq<Node>, n: Node, post: seq<Node>, v: Visit)
    requires Inv(s) && Queue(s.ix, k) == pre + [n] + post
    ensures n.client in s.ix.clients
    ensures !Matches(s.ix.clients[n.client], v.found) ==> VisitOne(s, n.client, v) == s
    ensures Matches(s.ix.clients[n.client], v.found) ==>
      Joins(pre + post, Queue(VisitOne(s, n.client, v).ix, k), n.client, v.again.Some? && k in v.again.value.keys)
  {
    OnceInQueue(s.ix, k, pre, n, post);
    hide Inv, Block, Unblock;
    WithoutMiddle(pre, n, post);
    AfterUnblock(s.ix, n.client, k);
    if v.again.Some? && Matches(s.ix.clients[n.client], v.found) {
      var r := v.again.value;
      BlockQueue(Unblock(s.ix, n.client), n.client, r.kind, r.keys, r.nokey, k);
    }
  }

  // The list after `i` visits: those passed over, those still to come, those that came back.
  ghost predicate Walked(s: State, k: Key, init: seq<Node>, visits: seq<Visit>, i: nat, q: seq<Node>, back: seq<Node>)
    requires i <= |init| && i <= |visits|
  {
    q == Kept(s, init, visits, i) + init[i..] + back && Names(back) == Rejoined(s, k, init, visits, i)
  }

  // Different blocked clients.
  ghost predicate Apart(s: State, init: seq<Node>) {
    && (forall j | 0 <= j < |init| :: init[j].client in s.ix.clients)
    && (forall i, j | 0 <= i < j < |init| :: init[i].client != init[j].client)
  }

  lemma WaitersDiffer(s: State, k: Key, init: seq<Node>)
    requires Inv(s) && init == Queue(s.ix, k)
    ensures Apart(s, init)
  {
    forall j | 0 <= j < |init|
      ensures Waits(s.ix.clients, k, init[j])
    {
      assert init[j] in init;
    }
  }

  // Waiters still to be visited are blocked as they were at the start.
  lemma {:induction false} PassInv(s: State, init: seq<Node>, visits: seq<Visit>, i: nat)
    requires Inv(s) && i <= |init| && i <= |visits|
    requires Apart(s, init)
    ensures Inv(Pass(s, init, visits, i))
    ensures forall j | i <= j < |init| ::
      init[j].client in Pass(s, init, visits, i).ix.clients
        && Pass(s, init, visits, i).ix.clients[init[j].client] == s.ix.clients[init[j].client]
  {
    hide Inv, VisitOne;
    if i > 0 {
      PassInv(s, init, visits, i - 1);
      VisitInv(Pass(s, init, visits, i - 1), init[i - 1].client, visits[i - 1]);
      VisitOthers(Pass(s, init, visits, i - 1), init[i - 1].client, visits[i - 1]);
    }
  }

  lemma WalkStart(s: State, k: Key, init: seq<Node>, visits: seq<Visit>)
    ensures Walked(s, k, init, visits, 0, init, [])
  {
    assert [] + init[0..] + [] == init;
  }

  lemma {:induction false} PassQueue(s: State, k: Key, init: seq<Node>, visits: seq<Visit>, i: nat) returns (back: seq<Node>)
    requires Inv(s) && init == Queue(s.ix, k) && i <= |init| && i <= |visits|
    ensures Walked(s, k, init, visits, i, Queue(Pass(s, init, visits, i).ix, k), back)
  {
    hide Inv, VisitOne, Walked, Queue, Kept, Rejoined;
    WaitersDiffer(s, k, init);
    if i == 0 {
      WalkStart(s, k, init, visits);
      back := [];
    } else {
      PassInv(s, init, visits, i - 1);
      back := PassQueue(s, k, init, visits, i - 1);
      var p := Pass(s, init, visits, i - 1);
      back := WalkOne(s, k, init, visits, i - 1, Queue(p.ix, k), back, p);
    }
  }

  lemma WalkOne(s: State, k: Key, init: seq<Node>, visits: seq<Visit>, i: nat, q: seq<Node>, back: seq<Node>, p: State)
    returns (more: seq<Node>)
    requires i < |init| && i < |visits| && Walked(s, k, init, visits, i, q, back) && Inv(p) && q == Queue(p.ix, k)
    requires init[i].client in s.ix.clients && init[i].client in p.ix.clients
    requires p.ix.clients[init[i].client] == s.ix.clients[init[i].client]
    ensures Walked(s, k, init, visits, i + 1, Queue(VisitOne(p, init[i].client, visits[i]).ix, k), more) && back <= more
  {
    var kept := Kept(s, init, visits, i);
    assert init[i..] == [init[i]] + init[i + 1..];
    assert q == kept + [init[i]] + (init[i + 1..] + back);
    hide Inv, VisitOne, Queue, Walked, Kept, Rejoined;
    VisitQueue(p, k, kept, init[i], init[i + 1..] + back, visits[i]);
    more := WalkList(s, k, init, visits, i, q, back, Queue(VisitOne(p, init[i].client, visits[i]).ix, k));
  }

  lemma WalkList(s: State, k: Key, init: seq<Node>, visits: seq<Visit>, i: nat, q: seq<Node>, back: seq<Node>, n: seq<Node>)
    returns (more: seq<Node>)
    requires i < |init| && i < |visits| && Walked(s, k, init, visits, i, q, back)
    requires !ServedAt(s, init, visits, i) ==> n == q
    requires ServedAt(s, init, visits, i) ==>
      Joins(Kept(s, init, visits, i) + (init[i + 1..] + back), n, init[i].client,
            visits[i].again.Some? && k in visits[i].again.value.keys)
    ensures Walked(s, k, init, visits, i + 1, n, more) && back <= more
  {
    var kept, rest := Kept(s, init, visits, i), init[i + 1..];
    assert init[i..] == [init[i]] + rest;
    if !ServedAt(s, init, visits, i) {
      more := back;
      assert q == (kept + [init[i]]) + rest + back;
    } else if visits[i].again.Some? && k in visits[i].again.value.keys {
      var last := n[|n| - 1];
      more := back + [last];
      assert n == n[..|n| - 1] + [last];
      assert kept + (rest + back) + [last] == kept + rest + more;
      assert Names(more) == Names(back) + [init[i].client];
    } else {
      more := back;
      assert kept + (rest + back) == kept + rest + back;
    }
  }

  /**
   * A whole pass over a ready key: the waiters that did not match keep their order at
   * the front, those served and blocked again stand behind them in the order they were
   * served, and everyone else is gone.
   */
  lemma PassOutcome(s: State, k: Key, visits: seq<Visit>)
    requires Inv(s) && |visits| >= |Queue(s.ix, k)|
    ensures
      var init := Queue(s.ix, k);
      Names(Queue(Pass(s, init, visits, |init|).ix, k))
        == Names(Kept(s, init, visits, |init|)) + Rejoined(s, k, init, visits, |init|)
  {
    var init := Queue(s.ix, k);
    hide Inv, Pass, Queue, Walked;
    var back := PassQueue(s, k, init, visits, |init|);
    WalkEnd(s, k, init, visits, Queue(Pass(s, init, visits, |init|).ix, k), back);
  }

  lemma WalkEnd(s: State, k: Key, init: seq<Node>, visits: seq<Visit>, q: seq<Node>, back: seq<Node>)
    requires |visits| >= |init| && Walked(s, k, init, visits, |init|, q, back)
    ensures Names(q) == Names(Kept(s, init, visits, |init|)) + Rejoined(s, k, init, visits, |init|)
  {
    hide Kept, Rejoined;
    var kept := Kept(s, init, visits, |init|);
    assert q == kept + back;
    assert Names(kept + back) == Names(kept) + Names(back);
  }

  /**
   * What a pass does to one waiter. Served are those waiting for the kind of object found,
   * those waiting for growth when a list is found, and those that wake on deletion: they
   * are blocked no more, or as their command blocked again. Any other is blocked as before.
   */
  ghost predicate Treated(was: map<Client, Blocked>, now: map<Client, Blocked>, c: Client, v: Visit) {
    && c in was
    && var b := was[c];
       var served := v.found == Some(b.kind) || (v.found == Some(List) && b.kind == ListGrowth) || b.nokey;
       if !served then c in now && now[c] == b
       else if v.again.None? then c !in now
       else
         && c in now
         && now[c].kind == v.again.value.kind
         && now[c].nokey == v.again.value.nokey
         && now[c].keys.Keys == set k | k in v.again.value.keys
  }

  lemma VisitTreats(s: State, c: Client, v: Visit)
    requires c in s.ix.clients
    ensures Treated(s.ix.clients, VisitOne(s, c, v).ix.clients, c, v)
  {
    hide Block, Unblock;
    FreedClients(s, c);
    if v.again.Some? {
      var r := v.again.value;
      BlockClients(Freed(s, c).ix, c, r.kind, r.keys, r.nokey);
    }
  }

  // Only the client's own entries matter.
  lemma TreatedSame(was: map<Client, Blocked>, mid: map<Client, Blocked>, now: map<Client, Blocked>, c: Client, v: Visit, early: bool)
    requires if early then Treated(was, mid, c, v) else Treated(mid, now, c, v) && c in was && was[c] == mid[c]
    requires early ==> (c in mid <==> c in now) && (c in mid ==> mid[c] == now[c])
    ensures Treated(was, now, c, v)
  {
  }

  // A client not visited is blocked as before.
  lemma {:induction false} PassOthers(s: State, init: seq<Node>, visits: seq<Visit>, i: nat, c: Client)
    requires i <= |init| && i <= |visits| && forall j | 0 <= j < i :: init[j].client != c
    ensures
      var now := Pass(s, init, visits, i).ix.clients;
      (c in now <==> c in s.ix.clients) && (c in now ==> now[c] == s.ix.clients[c])
  {
    if i > 0 {
      hide VisitOne;
      PassOthers(s, init, visits, i - 1, c);
      VisitOthers(Pass(s, init, visits, i - 1), init[i - 1].client, visits[i - 1]);
    }
  }

  // A visited one has been treated.
  lemma {:induction false} PassTreats(s: State, init: seq<Node>, visits: seq<Visit>, i: nat, j: nat)
    requires Apart(s, init) && j < i <= |init| && i <= |visits|
    ensures Treated(s.ix.clients, Pass(s, init, visits, i).ix.clients, init[j].client, visits[j])
  {
    hide VisitOne, Treated;
    var p, c := Pass(s, init, visits, i - 1), init[i - 1].client;
    if j == i - 1 {
      PassOthers(s, init, visits, j, c);
      VisitTreats(p, c, visits[j]);
    } else {
      PassTreats(s, init, visits, i - 1, j);
      VisitOthers(p, c, visits[i - 1]);
    }
    TreatedSame(s.ix.clients, p.ix.clients, VisitOne(p, c, visits[i - 1]).ix.clients, init[j].client, visits[j], j < i - 1);
  }

  // ---------- the iterator ----------

  // Where the next waiter stands, and what the iterator will point to after it.
  lemma Here(s: State, k: Key, init: seq<Node>, visits: seq<Visit>, i: nat, q: seq<Node>, back: seq<Node>)
    requires i < |init| && i < |visits| && Walked(s, k, init, visits, i, q, back)
    ensures
      var p := |Kept(s, init, visits, i)|;
      && p < |q| && q[p] == init[i]
      && (i + 1 < |init| ==> p + 1 < |q| && q[p + 1] == init[i + 1])
      && (i + 1 == |init| && p + 1 < |q| ==> back != [] && q[p + 1] == back[0])
  {
    hide Kept, Rejoined;
    assert init[i..][0] == init[i];
  }

  // The node the iterator saved is still in the list.
  lemma Ahead(s: State, k: Key, init: seq<Node>, visits: seq<Visit>, i: nat, q: seq<Node>, back: seq<Node>, n: Node)
    requires i <= |init| && i <= |visits| && Walked(s, k, init, visits, i, q, back)
    requires if i < |init| then n == init[i] else back != [] && n == back[0]
    ensures n in q
  {
    hide Kept, Rejoined;
    assert i < |init| ==> init[i] in init[i..];
    assert i == |init| ==> back[0] in back;
  }

  lemma QueueDistinct(s: State, k: Key)
    requires Inv(s)
    ensures Distinct(Queue(s.ix, k)) && forall n <- Queue(s.ix, k) :: Waits(s.ix.clients, k, n)
  {
  }
}
