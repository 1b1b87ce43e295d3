/**
 * The doubly linked list: a memory of nodes and list headers that point into it,
 * against the sequence of nodes a header stands for.
 */
module AdList {

  // Addresses; 0 is NULL.
  type Ref = nat
  const NULL: Ref := 0

  datatype Node = Node(prev: Ref, next: Ref, value: nat)
  type Memory = map<Ref, Node>

  datatype Header = Header(head: Ref, tail: Ref, len: nat)

  function First(s: seq<Ref>): Ref {
    if s == [] then NULL else s[0]
  }

  function Last(s: seq<Ref>): Ref {
    if s == [] then NULL else s[|s| - 1]
  }

  function Before(s: seq<Ref>, i: nat): Ref
    requires i < |s|
  {
    if i == 0 then NULL else s[i - 1]
  }

  function After(s: seq<Ref>, i: nat): Ref
    requires i < |s|
  {
    if i + 1 == |s| then NULL else s[i + 1]
  }

  ghost predicate Nodes(m: Memory, s: seq<Ref>) {
    && (forall i | 0 <= i < |s| :: s[i] in m && s[i] != NULL)
    && (forall i, j | 0 <= i < j < |s| :: s[i] != s[j])
  }

  ghost predicate Linked(m: Memory, s: seq<Ref>) {
    Nodes(m, s) && forall i | 0 <= i < |s| :: m[s[i]].prev == Before(s, i) && m[s[i]].next == After(s, i)
  }

  // The header stands for the sequence of nodes `s`.
  ghost predicate Is(m: Memory, h: Header, s: seq<Ref>) {
    Linked(m, s) && h == Header(First(s), Last(s), |s|)
  }

  function SetPrev(m: Memory, r: Ref, p: Ref): Memory {
    if r in m then m[r := m[r].(prev := p)] else m
  }

  function SetNext(m: Memory, r: Ref, n: Ref): Memory {
    if r in m then m[r := m[r].(next := n)] else m
  }

  // Nothing but links changed, and only in the given nodes.
  ghost predicate OnlyLinks(m: Memory, n: Memory, s: set<Ref>) {
    && n.Keys == m.Keys
    && (forall r <- m :: n[r].value == m[r].value)
    && (forall r <- m | r !in s :: n[r] == m[r])
  }

  // ---------- two chains made one, one chain cut in two ----------

  // The last node of one chain and the first of the other, tied together.
  function Tie(m: Memory, a: Ref, b: Ref): Memory {
    SetPrev(SetNext(m, a, b), b, a)
  }

  lemma TieAt(m: Memory, a: Ref, b: Ref)
    requires a in m && b in m && a != b
    ensures Tie(m, a, b).Keys == m.Keys
    ensures Tie(m, a, b)[a] == m[a].(next := b) && Tie(m, a, b)[b] == m[b].(prev := a)
    ensures forall r <- m | r != a && r != b :: Tie(m, a, b)[r] == m[r]
  {
  }

  lemma TieChains(m: Memory, s: seq<Ref>, t: seq<Ref>)
    requires Linked(m, s) && Linked(m, t) && Nodes(m, s + t) && s != [] && t != []
    ensures Linked(Tie(m, Last(s), First(t)), s + t) && OnlyLinks(m, Tie(m, Last(s), First(t)), {Last(s), First(t)})
  {
    hide Tie;
    Parts(m, s, t);
    var n, u := Tie(m, Last(s), First(t)), s + t;
    TieAt(m, Last(s), First(t));
    assert Nodes(n, u);
    TieFront(m, n, s, t);
    TieBack(m, n, s, t);
    forall i | 0 <= i < |u|
      ensures n[u[i]].prev == Before(u, i) && n[u[i]].next == After(u, i)
    {
      if i < |s| {
        assert u[i] == s[i];
      } else {
        assert u[i] == t[i - |s|];
      }
    }
  }

  lemma TieFront(m: Memory, n: Memory, s: seq<Ref>, t: seq<Ref>)
    requires Linked(m, s) && s != [] && t != [] && n.Keys == m.Keys && (forall i | 0 <= i < |s| :: s[i] != t[0])
    requires n[Last(s)] == m[Last(s)].(next := t[0]) && forall r <- m | r != Last(s) && r != t[0] :: n[r] == m[r]
    ensures forall i | 0 <= i < |s| :: n[s[i]].prev == Before(s + t, i) && n[s[i]].next == After(s + t, i)
  {
  }

  lemma TieBack(m: Memory, n: Memory, s: seq<Ref>, t: seq<Ref>)
    requires Linked(m, t) && s != [] && t != [] && n.Keys == m.Keys && (forall j | 0 <= j < |t| :: t[j] != Last(s))
    requires n[t[0]] == m[t[0]].(prev := Last(s)) && forall r <- m | r != Last(s) && r != t[0] :: n[r] == m[r]
    ensures forall i | |s| <= i < |s + t| :: n[t[i - |s|]].prev == Before(s + t, i) && n[t[i - |s|]].next == After(s + t, i)
  {
    forall i | |s| <= i < |s + t|
      ensures n[t[i - |s|]].prev == Before(s + t, i) && n[t[i - |s|]].next == After(s + t, i)
    {
      var j := i - |s|;
      assert t[j] in m;
      assert j > 0 ==> t[j] != t[0];
    }
  }

  lemma Parts(m: Memory, s: seq<Ref>, t: seq<Ref>)
    requires Nodes(m, s + t)
    ensures Nodes(m, s) && Nodes(m, t) && forall i, j | 0 <= i < |s| && 0 <= j < |t| :: s[i] != t[j]
  {
    var u := s + t;
    assert forall i | 0 <= i < |s| :: u[i] == s[i];
    assert forall j | 0 <= j < |t| :: u[|s| + j] == t[j];
  }

  // A chain cut between two of its nodes.
  function Cut(m: Memory, a: Ref, b: Ref): Memory {
    SetPrev(SetNext(m, a, NULL), b, NULL)
  }

  lemma CutAt(m: Memory, a: Ref, b: Ref)
    requires a in m && b in m && a != b
    ensures Cut(m, a, b).Keys == m.Keys && OnlyLinks(m, Cut(m, a, b), {a, b})
    ensures Cut(m, a, b)[a] == m[a].(next := NULL) && Cut(m, a, b)[b] == m[b].(prev := NULL)
    ensures forall r <- m | r != a && r != b :: Cut(m, a, b)[r] == m[r]
  {
  }

  lemma CutChain(m: Memory, s: seq<Ref>, t: seq<Ref>)
    requires Linked(m, s + t) && s != [] && t != []
    ensures
      var n := Cut(m, Last(s), First(t));
      Linked(n, s) && Linked(n, t) && Nodes(n, s + t) && OnlyLinks(m, n, {Last(s), First(t)})
  {
    hide Cut, OnlyLinks;
    Parts(m, s, t);
    CutAt(m, Last(s), First(t));
    var n := Cut(m, Last(s), First(t));
    CutFront(m, n, s, t);
    CutBack(m, n, s, t);
  }

  lemma CutFront(m: Memory, n: Memory, s: seq<Ref>, t: seq<Ref>)
    requires Linked(m, s + t) && s != [] && t != [] && n.Keys == m.Keys && (forall i | 0 <= i < |s| :: s[i] != t[0])
    requires Last(s) in m && n[Last(s)] == m[Last(s)].(next := NULL) && forall r <- m | r != Last(s) && r != t[0] :: n[r] == m[r]
    ensures Linked(n, s)
  {
    Parts(m, s, t);
    var u := s + t;
    forall i | 0 <= i < |s|
      ensures n[s[i]].prev == Before(s, i) && n[s[i]].next == After(s, i)
    {
      assert u[i] == s[i];
      assert i + 1 < |s| ==> s[i] != Last(s);
    }
  }

  lemma CutBack(m: Memory, n: Memory, s: seq<Ref>, t: seq<Ref>)
    requires Linked(m, s + t) && s != [] && t != [] && n.Keys == m.Keys && (forall j | 0 <= j < |t| :: t[j] != Last(s))
    requires t[0] in m && n[t[0]] == m[t[0]].(prev := NULL) && forall r <- m | r != Last(s) && r != t[0] :: n[r] == m[r]
    ensures Linked(n, t)
  {
    Parts(m, s, t);
    var u := s + t;
    forall j | 0 <= j < |t|
      ensures n[t[j]].prev == Before(t, j) && n[t[j]].next == After(t, j)
    {
      assert u[|s| + j] == t[j];
      assert j > 0 ==> t[j] != t[0];
    }
  }

  // ---------- nodes on their own ----------

  function Alone(m: Memory, r: Ref): Memory {
    if r in m then m[r := m[r].(prev := NULL, next := NULL)] else m
  }

  lemma AloneIsChain(m: Memory, r: Ref, s: seq<Ref>)
    requires Linked(m, s) && r in m && r != NULL && r !in s
    ensures Linked(Alone(m, r), [r]) && Linked(Alone(m, r), s)
    ensures Nodes(Alone(m, r), s + [r]) && Nodes(Alone(m, r), [r] + s)
  {
    var n := Alone(m, r);
    hide Linked, Nodes;
    LinkedFrame(m, n, s);
    OneIsChain(n, r);
    NodesJoin(n, s, [r]);
    NodesJoin(n, [r], s);
  }

  lemma OneIsChain(m: Memory, r: Ref)
    requires r in m && r != NULL && m[r].prev == NULL && m[r].next == NULL
    ensures Linked(m, [r]) && Nodes(m, [r])
  {
  }

  // A chain whose nodes did not change is still a chain.
  lemma LinkedFrame(m: Memory, n: Memory, s: seq<Ref>)
    requires Linked(m, s) && forall r <- s | r in m :: r in n && n[r] == m[r]
    ensures Linked(n, s) && Nodes(n, s)
  {
    assert forall i | 0 <= i < |s| :: s[i] in s;
  }

  lemma NodesJoin(m: Memory, s: seq<Ref>, t: seq<Ref>)
    requires Nodes(m, s) && Nodes(m, t) && forall r <- s :: r !in t
    ensures Nodes(m, s + t)
  {
    var u := s + t;
    forall i, j | 0 <= i < j < |u|
      ensures u[i] != u[j]
    {
      if i < |s| <= j {
        assert s[i] in s && t[j - |s|] in t;
      }
    }
  }

  // ---------- the operations on memory ----------

  // What linking a node in front does to memory.
  lemma HeadLinked(m: Memory, h: Header, s: seq<Ref>, r: Ref)
    requires Is(m, h, s) && r in m && r != NULL && r !in s
    ensures s != [] ==> Linked(Tie(Alone(m, r), r, First(s)), [r] + s) && OnlyLinks(m, Tie(Alone(m, r), r, First(s)), {r, First(s)})
    ensures s == [] ==> Linked(Alone(m, r), [r])
  {
    hide Linked, Tie;
    AloneIsChain(m, r, s);
    if s != [] {
      TieChains(Alone(m, r), [r], s);
    }
  }

  lemma TailLinked(m: Memory, h: Header, s: seq<Ref>, r: Ref)
    requires Is(m, h, s) && r in m && r != NULL && r !in s
    ensures s != [] ==> Linked(Tie(Alone(m, r), Last(s), r), s + [r]) && OnlyLinks(m, Tie(Alone(m, r), Last(s), r), {r, Last(s)})
    ensures s == [] ==> Linked(Alone(m, r), [r])
  {
    hide Linked, Tie;
    AloneIsChain(m, r, s);
    if s != [] {
      TieChains(Alone(m, r), s, [r]);
    }
  }

  // ---------- taking a node out ----------

  // The updates of listUnlinkNode.
  function UnlinkedIn(m: Memory, node: Ref): Memory
    requires node in m
  {
    var p, q := m[node].prev, m[node].next;
    var m1 := if p != NULL then SetNext(m, p, q) else m;
    var m2 := if q != NULL then SetPrev(m1, q, p) else m1;
    Alone(m2, node)
  }

  lemma Neighbours(m: Memory, a: seq<Ref>, node: Ref, b: seq<Ref>)
    requires Linked(m, a + [node] + b)
    ensures node in m && node != NULL && m[node].prev == Last(a) && m[node].next == First(b)
    ensures a != [] ==> Last(a) in m && Last(a) != NULL && Last(a) != node
    ensures b != [] ==> First(b) in m && First(b) != NULL && First(b) != node
    ensures a != [] && b != [] ==> Last(a) != First(b)
  {
    var u := a + [node] + b;
    assert u[|a|] == node;
    assert a != [] ==> u[|a| - 1] == Last(a);
    assert b != [] ==> u[|a| + 1] == First(b);
  }

  lemma UnlinkChains(m: Memory, a: seq<Ref>, node: Ref, b: seq<Ref>)
    requires Linked(m, a + [node] + b)
    ensures node in m && Linked(UnlinkedIn(m, node), a + b) && OnlyLinks(m, UnlinkedIn(m, node), {Last(a), node, First(b)})
    ensures UnlinkedIn(m, node)[node] == m[node].(prev := NULL, next := NULL)
  {
    hide Linked, Nodes, OnlyLinks, UnlinkedIn;
    Neighbours(m, a, node, b);
    UnlinkLinks(m, Last(a), node, First(b));
    if a == [] && b == [] {
      NoChain(UnlinkedIn(m, node));
      assert a + b == [];
    } else if b == [] {
      assert a + [node] + b == a + [node] && a + b == a;
      CutChain(m, a, [node]);
      SameUnlinkLast(m, Last(a), node);
    } else if a == [] {
      assert a + [node] + b == [node] + b && a + b == b;
      CutChain(m, [node], b);
      SameUnlinkFirst(m, node, First(b));
    } else {
      UnlinkMiddle(m, a, node, b);
    }
  }

  lemma UnlinkLinks(m: Memory, p: Ref, node: Ref, q: Ref)
    requires node in m && m[node].prev == p && m[node].next == q && p != node && q != node
    ensures OnlyLinks(m, UnlinkedIn(m, node), {p, node, q})
    ensures UnlinkedIn(m, node)[node] == m[node].(prev := NULL, next := NULL)
  {
  }

  lemma SameUnlinkLast(m: Memory, p: Ref, node: Ref)
    requires node in m && p in m && p != node && p != NULL && m[node].prev == p && m[node].next == NULL
    ensures UnlinkedIn(m, node) == Cut(m, p, node)
  {
  }

  lemma SameUnlinkFirst(m: Memory, node: Ref, q: Ref)
    requires node in m && q in m && q != node && q != NULL && m[node].prev == NULL && m[node].next == q
    ensures UnlinkedIn(m, node) == Cut(m, node, q)
  {
  }

  lemma NoChain(m: Memory)
    ensures Linked(m, [])
  {
  }

  lemma UnlinkMiddle(m: Memory, a: seq<Ref>, node: Ref, b: seq<Ref>)
    requires Linked(m, a + [node] + b) && a != [] && b != []
    ensures node in m && Linked(UnlinkedIn(m, node), a + b)
  {
    Neighbours(m, a, node, b);
    hide Linked, Nodes, OnlyLinks;
    var rest := [node] + b;
    assert a + [node] + b == a + rest;
    CutChain(m, a, rest);
    var m1 := Cut(m, Last(a), node);
    KeepNodes(m1, a, node, b);
    CutChain(m1, [node], b);
    var m2 := Cut(m1, node, First(b));
    ApartFrom(m1, a, rest);
    LinkedFrame(m1, m2, a);
    KeepNodes(m2, a, node, b);
    TieChains(m2, a, b);
    SameUnlink(m, Last(a), node, First(b));
  }

  lemma KeepNodes(m: Memory, a: seq<Ref>, node: Ref, b: seq<Ref>)
    ensures Nodes(m, a + ([node] + b)) ==> Nodes(m, a + b)
  {
    if Nodes(m, a + ([node] + b)) {
      hide Nodes;
      Parts(m, a, [node] + b);
      Parts(m, [node], b);
      ApartFrom(m, a, [node] + b);
      assert forall r <- b :: r in [node] + b;
      NodesJoin(m, a, b);
    }
  }

  // No node of one chain is in the other.
  lemma ApartFrom(m: Memory, a: seq<Ref>, t: seq<Ref>)
    requires Nodes(m, a + t)
    ensures forall r <- a :: r !in t
  {
    Parts(m, a, t);
  }

  lemma SameUnlink(m: Memory, p: Ref, node: Ref, q: Ref)
    requires node in m && p in m && q in m && p != node && q != node && p != q && p != NULL && q != NULL
    requires m[node].prev == p && m[node].next == q
    ensures UnlinkedIn(m, node) == Tie(Cut(Cut(m, p, node), node, q), p, q)
  {
  }

  // ---------- putting a node in ----------

  // The updates of listInsertNode, between `p` and `q`.
  function InsertedIn(m: Memory, p: Ref, node: Ref, q: Ref): Memory
    requires node in m
  {
    var m1 := m[node := m[node].(prev := p, next := q)];
    var m2 := if p != NULL then SetNext(m1, p, node) else m1;
    if q != NULL then SetPrev(m2, q, node) else m2
  }

  // A node created with its links in place, or created alone and then linked.
  lemma SameCells(c: Memory, node: Ref, value: nat, p: Ref, q: Ref)
    ensures
      var m := c[node := Node(NULL, NULL, value)];
      var m1 := c[node := Node(p, q, value)];
      var m2 := if p != NULL then SetNext(m1, p, node) else m1;
      var m3 := if q != NULL then SetPrev(m2, q, node) else m2;
      && m3 == InsertedIn(m, p, node, q)
      && m3.Keys == m1.Keys && forall r <- m3 :: m3[r].value == m1[r].value
  {
    var m := c[node := Node(NULL, NULL, value)];
    assert m[node := Node(p, q, value)] == c[node := Node(p, q, value)];
  }

  lemma InsertChains(m: Memory, a: seq<Ref>, node: Ref, b: seq<Ref>)
    requires Linked(m, a + b) && node in m && node != NULL && node !in a + b
    ensures Linked(InsertedIn(m, Last(a), node, First(b)), a + [node] + b)
  {
    hide Linked, Nodes, OnlyLinks;
    var n := Alone(m, node);
    AloneIsChain(m, node, a + b);
    EndsInside(m, a, b);
    if a == [] && b == [] {
      assert a + [node] + b == [node];
    } else if a == [] {
      assert a + b == b && a + [node] + b == [node] + b;
      TieChains(n, [node], b);
      SameInsertFirst(m, node, First(b));
    } else if b == [] {
      assert a + b == a && a + [node] + b == a + [node];
      TieChains(n, a, [node]);
      SameInsertLast(m, Last(a), node);
    } else {
      InsertMiddle(m, a, node, b);
    }
  }

  lemma EndsInside(m: Memory, a: seq<Ref>, b: seq<Ref>)
    requires Linked(m, a + b)
    ensures a != [] ==> Last(a) in m && Last(a) != NULL && Last(a) in a + b
    ensures b != [] ==> First(b) in m && First(b) != NULL && First(b) in a + b
    ensures a != [] && b != [] ==> Last(a) != First(b)
  {
    var u := a + b;
    assert a != [] ==> u[|a| - 1] == Last(a);
    assert b != [] ==> u[|a|] == First(b);
  }

  lemma SameInsertFirst(m: Memory, node: Ref, q: Ref)
    requires node in m && q in m && q != node && q != NULL
    ensures InsertedIn(m, NULL, node, q) == Tie(Alone(m, node), node, q)
  {
  }

  lemma SameInsertLast(m: Memory, p: Ref, node: Ref)
    requires node in m && p in m && p != node && p != NULL
    ensures InsertedIn(m, p, node, NULL) == Tie(Alone(m, node), p, node)
  {
  }

  lemma SameInsert(m: Memory, p: Ref, node: Ref, q: Ref)
    requires node in m && p in m && q in m && p != node && q != node && p != q && p != NULL && q != NULL
    ensures InsertedIn(m, p, node, q) == Tie(Tie(Cut(Alone(m, node), p, q), p, node), node, q)
  {
  }

  lemma InsertMiddle(m: Memory, a: seq<Ref>, node: Ref, b: seq<Ref>)
    requires Linked(m, a + b) && a != [] && b != [] && node in m && node != NULL && node !in a + b
    ensures Linked(InsertedIn(m, Last(a), node, First(b)), a + [node] + b)
  {
    hide Linked, Nodes;
    EndsInside(m, a, b);
    var m1 := Alone(m, node);
    AloneIsChain(m, node, a + b);
    CutChain(m1, a, b);
    var m2 := Cut(m1, Last(a), First(b));
    LinkedFrame(m1, m2, [node]);
    Parts(m2, a, b);
    ApartFrom(m2, a, b);
    assert forall r <- a :: r in a + b;
    assert forall r <- b :: r in a + b;
    NodesJoin(m2, a, [node]);
    TieChains(m2, a, [node]);
    var m3 := Tie(m2, Last(a), node);
    assert forall r <- b :: r != Last(a) && r != node by {
      assert Last(a) in a;
    }
    LinkedFrame(m2, m3, b);
    LinkedNodes(m3, a + [node]);
    NodesJoin(m3, a + [node], b);
    TieChains(m3, a + [node], b);
    SameInsert(m, Last(a), node, First(b));
  }

  lemma LinkedNodes(m: Memory, s: seq<Ref>)
    requires Linked(m, s)
    ensures Nodes(m, s)
  {
  }

  // ---------- rotating ----------

  lemma RotateChains(m: Memory, a: seq<Ref>, b: seq<Ref>)
    requires Linked(m, a + b) && a != [] && b != []
    ensures Linked(Tie(Cut(m, Last(a), First(b)), Last(b), First(a)), b + a)
    ensures Last(b) in m && First(a) in m && Last(b) != First(a)
  {
    hide Linked, Nodes, OnlyLinks;
    CutChain(m, a, b);
    var n := Cut(m, Last(a), First(b));
    Parts(n, a, b);
    ApartFrom(n, a, b);
    NodesJoin(n, b, a);
    TieChains(n, b, a);
    LinkedNodes(m, a + b);
    RotateEnds(m, a, b);
  }

  lemma SameRotateTail(m: Memory, first: Ref, last: Ref, x: Ref)
    requires first in m && last in m && x in m && x != first && x != last
    ensures SetNext(SetPrev(SetPrev(SetNext(m, last, NULL), first, x), x, NULL), x, first) == Tie(Cut(m, last, x), x, first)
    ensures OnlyLinks(m, Tie(Cut(m, last, x), x, first), {first, last, x})
  {
  }

  lemma SameRotateHead(m: Memory, x: Ref, first: Ref, last: Ref)
    requires first in m && last in m && x in m && x != first && x != last
    ensures SetPrev(SetNext(SetNext(SetPrev(m, first, NULL), last, x), x, NULL), x, last) == Tie(Cut(m, x, first), last, x)
    ensures OnlyLinks(m, Tie(Cut(m, x, first), last, x), {first, last, x})
  {
  }

  lemma RotateEnds(m: Memory, a: seq<Ref>, b: seq<Ref>)
    requires Nodes(m, a + b) && a != [] && b != []
    ensures Last(b) in m && First(a) in m && Last(b) != First(a) && Last(a) != First(b) && Last(a) in m && First(b) in m
    ensures Last(b) != NULL && First(a) != NULL && Last(a) != NULL && First(b) != NULL
  {
    Parts(m, a, b);
  }

  // The nodes that were not deleted.
  function Kept(s: seq<Ref>, deletes: seq<bool>): seq<Ref>
    requires |s| == |deletes|
  {
    if s == [] then []
    else
      var n := |s| - 1;
      Kept(s[..n], deletes[..n]) + if deletes[n] then [] else [s[n]]
  }

  lemma KeptMore(s: seq<Ref>, deletes: seq<bool>, i: nat)
    requires |s| == |deletes| && i < |s|
    ensures Kept(s[..i + 1], deletes[..i + 1]) == Kept(s[..i], deletes[..i]) + if deletes[i] then [] else [s[i]]
  {
    assert s[..i + 1][..i] == s[..i] && deletes[..i + 1][..i] == deletes[..i];
  }

  lemma {:induction false} KeptConcat(s: seq<Ref>, d: seq<bool>, t: seq<Ref>, e: seq<bool>)
    requires |s| == |d| && |t| == |e|
    ensures Kept(s + t, d + e) == Kept(s, d) + Kept(t, e)
  {
    if t == [] {
      assert s + t == s && d + e == d;
    } else {
      var n := |t| - 1;
      KeptConcat(s, d, t[..n], e[..n]);
      assert (s + t)[..|s| + n] == s + t[..n] && (d + e)[..|d| + n] == d + e[..n];
    }
  }

  lemma KeptBefore(s: seq<Ref>, deletes: seq<bool>, i: nat)
    requires |s| == |deletes| && i < |s|
    ensures Kept(s[i..], deletes[i..]) == (if deletes[i] then [] else [s[i]]) + Kept(s[i + 1..], deletes[i + 1..])
  {
    KeptConcat([s[i]], [deletes[i]], s[i + 1..], deletes[i + 1..]);
    assert s[i..] == [s[i]] + s[i + 1..] && deletes[i..] == [deletes[i]] + deletes[i + 1..];
    assert Kept([s[i]], [deletes[i]]) == if deletes[i] then [] else [s[i]];
  }

  lemma ListNodes(m: Memory, h: Header, a: seq<Ref>, node: Ref, b: seq<Ref>)
    requires Is(m, h, a + [node] + b)
    ensures node in m && node !in a + b
  {
    var u := a + [node] + b;
    assert u[|a|] == node;
    forall r | r in a + b
      ensures r != node
    {
      if r in a {
        var i :| 0 <= i < |a| && a[i] == r;
        assert u[i] == r;
      } else {
        var i :| 0 <= i < |b| && b[i] == r;
        assert u[|a| + 1 + i] == r;
      }
    }
  }

  // Giving back the memory of a node outside the list does not touch the list.
  lemma FreedKeeps(m: Memory, n: Memory, g: Header, s: seq<Ref>, node: Ref)
    requires Is(m, g, s) && node !in s && n == m - {node}
    ensures Is(n, g, s)
  {
    LinkedFrame(m, n, s);
  }

  lemma SweepStart(m: Memory, h: Header, s: seq<Ref>, deletes: seq<bool>)
    requires Is(m, h, s) && |deletes| == |s|
    ensures h.head == First(s[0..]) && [] + s[0..] == s && Kept(s[..0], deletes[..0]) == []
  {
  }

  lemma SweepHere(m: Memory, g: Header, kept: seq<Ref>, s: seq<Ref>, i: nat)
    requires i <= |s| && Is(m, g, kept + s[i..]) && First(s[i..]) != NULL
    ensures i < |s| && s[i] in m && First(s[i..]) == s[i] && m[s[i]].next == First(s[i + 1..])
    ensures kept + s[i..] == kept + [s[i]] + s[i + 1..] && s[..i + 1] == s[..i] + [s[i]]
  {
    hide Is, Linked;
    IsMeans(m, g, kept + s[i..]);
    assert s[i..] == [s[i]] + s[i + 1..];
    assert kept + s[i..] == kept + [s[i]] + s[i + 1..];
    Neighbours(m, kept, s[i], s[i + 1..]);
  }

  lemma SweepEnd(m: Memory, g: Header, kept: seq<Ref>, s: seq<Ref>, i: nat)
    requires i <= |s| && Is(m, g, kept + s[i..]) && First(s[i..]) == NULL
    ensures i == |s| && kept + s[i..] == kept
  {
    hide Is, Linked;
    IsMeans(m, g, kept + s[i..]);
    EndsInside(m, kept, s[i..]);
  }

  lemma SweepBackStart(m: Memory, h: Header, s: seq<Ref>, deletes: seq<bool>)
    requires Is(m, h, s) && |deletes| == |s|
    ensures s[..|s|] == s && s[..|s|] + [] == s && h.tail == Last(s[..|s|]) && Kept(s[|s|..], deletes[|s|..]) == []
  {
  }

  lemma SweepBackHere(m: Memory, g: Header, s: seq<Ref>, i: nat, kept: seq<Ref>)
    requires i <= |s| && Is(m, g, s[..i] + kept) && Last(s[..i]) != NULL
    ensures i > 0 && s[i - 1] in m && Last(s[..i]) == s[i - 1] && m[s[i - 1]].prev == Last(s[..i - 1])
    ensures s[..i] + kept == s[..i - 1] + [s[i - 1]] + kept && s[..i] + kept == s[..i - 1] + ([s[i - 1]] + kept)
  {
    hide Is, Linked;
    IsMeans(m, g, s[..i] + kept);
    assert s[..i] == s[..i - 1] + [s[i - 1]];
    assert s[..i] + kept == s[..i - 1] + [s[i - 1]] + kept;
    Neighbours(m, s[..i - 1], s[i - 1], kept);
  }

  lemma SweepBackEnd(m: Memory, g: Header, s: seq<Ref>, i: nat, kept: seq<Ref>)
    requires i <= |s| && Is(m, g, s[..i] + kept) && Last(s[..i]) == NULL
    ensures i == 0 && s[..i] + kept == kept
  {
    hide Is, Linked;
    IsMeans(m, g, s[..i] + kept);
    EndsInside(m, s[..i], kept);
  }

  class Heap {
    var cells: Memory

    // listLinkNodeHead.
    method LinkHead(h: Header, node: Ref, ghost s: seq<Ref>) returns (g: Header)
      requires Is(cells, h, s) && node in cells && node != NULL && node !in s
      modifies this
      ensures Is(cells, g, [node] + s) && OnlyLinks(old(cells), cells, {node, First(s)})
    {
      HeadLinked(cells, h, s, node);
      IsMeans(cells, h, s);
      hide Linked, Is;
      if h.len == 0 {
        g := Header(node, node, 1);
        cells := SetNext(SetPrev(cells, node, NULL), node, NULL);
        assert [node] + s == [node];
      } else {
        cells := SetPrev(cells, node, NULL);
        cells := SetNext(cells, node, h.head);
        cells := SetPrev(cells, h.head, node);
        g := Header(node, h.tail, h.len + 1);
        assert cells == Tie(Alone(old(cells), node), node, First(s));
      }
      HeaderIs(cells, g, [node] + s);
    }

    // listLinkNodeTail.
    method LinkTail(h: Header, node: Ref, ghost s: seq<Ref>) returns (g: Header)
      requires Is(cells, h, s) && node in cells && node != NULL && node !in s
      modifies this
      ensures Is(cells, g, s + [node]) && OnlyLinks(old(cells), cells, {node, Last(s)})
    {
      TailLinked(cells, h, s, node);
      IsMeans(cells, h, s);
      hide Linked, Is;
      if h.len == 0 {
        g := Header(node, node, 1);
        cells := SetNext(SetPrev(cells, node, NULL), node, NULL);
        assert s + [node] == [node];
      } else {
        cells := SetPrev(cells, node, h.tail);
        cells := SetNext(cells, node, NULL);
        cells := SetNext(cells, h.tail, node);
        g := Header(h.head, node, h.len + 1);
        assert cells == Tie(Alone(old(cells), node), Last(s), node);
      }
      HeaderIs(cells, g, s + [node]);
    }

    // listUnlinkNode.
    method Unlink(h: Header, node: Ref, ghost a: seq<Ref>, ghost b: seq<Ref>) returns (g: Header)
      requires Is(cells, h, a + [node] + b)
      modifies this
      ensures Is(cells, g, a + b) && OnlyLinks(old(cells), cells, {Last(a), node, First(b)})
      ensures node in cells && cells[node].prev == NULL && cells[node].next == NULL
    {
      hide Linked, Is, OnlyLinks;
      IsMeans(cells, h, a + [node] + b);
      Neighbours(cells, a, node, b);
      UnlinkChains(cells, a, node, b);
      EndsOf(a, node, b);
      var p, q := cells[node].prev, cells[node].next;
      g := h;
      if p != NULL {
        cells := SetNext(cells, p, q);
      } else {
        g := g.(head := q);
      }
      if q != NULL {
        cells := SetPrev(cells, q, p);
      } else {
        g := g.(tail := p);
      }
      cells := SetPrev(SetNext(cells, node, NULL), node, NULL);
      g := g.(len := g.len - 1);
      assert cells == UnlinkedIn(old(cells), node);
      HeaderIs(cells, g, a + b);
    }

    // listInsertNode: a new node before or after an old one.
    method Insert(h: Header, at: Ref, node: Ref, value: nat, after: bool, ghost a: seq<Ref>, ghost b: seq<Ref>) returns (g: Header)
      requires Is(cells, h, a + b) && node !in cells && node != NULL
      requires if after then a != [] && at == Last(a) else b != [] && at == First(b)
      modifies this
      ensures Is(cells, g, a + [node] + b) && node in cells && cells[node].value == value
      ensures cells.Keys == old(cells).Keys + {node} && forall r <- old(cells) :: cells[r].value == old(cells)[r].value
    {
      hide Linked, Is, SetPrev, SetNext;
      IsMeans(cells, h, a + b);
      NotMine(cells, a + b, node);
      EndsInside(cells, a, b);
      EndsOf(a, node, b);
      NodeEnds(cells, a, b);
      ghost var m := cells[node := Node(NULL, NULL, value)];
      LinkedFrame(cells, m, a + b);
      InsertChains(m, a, node, b);
      g := h;
      var p, q;
      if after {
        p, q := at, cells[at].next;
        if h.tail == at {
          g := g.(tail := node);
        }
      } else {
        p, q := cells[at].prev, at;
        if h.head == at {
          g := g.(head := node);
        }
      }
      cells := cells[node := Node(p, q, value)];
      if p != NULL {
        cells := SetNext(cells, p, node);
      }
      if q != NULL {
        cells := SetPrev(cells, q, node);
      }
      g := g.(len := g.len + 1);
      SameCells(old(cells), node, value, p, q);
      HeaderIs(cells, g, a + [node] + b);
    }

    // listRotateTailToHead.
    method RotateTailToHead(h: Header, ghost a: seq<Ref>, ghost x: Ref) returns (g: Header)
      requires Is(cells, h, a + [x])
      modifies this
      ensures Is(cells, g, [x] + a)
      ensures cells.Keys == old(cells).Keys && forall r <- cells :: cells[r].value == old(cells)[r].value
    {
      hide Linked, Is, SetPrev, SetNext, Tie, Cut;
      IsMeans(cells, h, a + [x]);
      if h.len <= 1 {
        assert a == [] && a + [x] == [x] + a;
        return h;
      }
      LinkedNodes(cells, a + [x]);
      RotateEnds(cells, a, [x]);
      RotateChains(cells, a, [x]);
      EndsTwo(cells, a, x);
      var tail := h.tail;
      var newTail := cells[tail].prev;
      cells := SetNext(cells, newTail, NULL);
      cells := SetPrev(cells, h.head, tail);
      cells := SetPrev(cells, tail, NULL);
      cells := SetNext(cells, tail, h.head);
      g := Header(tail, newTail, h.len);
      SameRotateTail(old(cells), First(a), Last(a), x);
      HeaderIs(cells, g, [x] + a);
    }

    // listRotateHeadToTail.
    method RotateHeadToTail(h: Header, ghost x: Ref, ghost b: seq<Ref>) returns (g: Header)
      requires Is(cells, h, [x] + b)
      modifies this
      ensures Is(cells, g, b + [x])
      ensures cells.Keys == old(cells).Keys && forall r <- cells :: cells[r].value == old(cells)[r].value
    {
      hide Linked, Is, SetPrev, SetNext, Tie, Cut;
      IsMeans(cells, h, [x] + b);
      if h.len <= 1 {
        assert b == [] && [x] + b == b + [x];
        return h;
      }
      LinkedNodes(cells, [x] + b);
      RotateEnds(cells, [x], b);
      RotateChains(cells, [x], b);
      StartsTwo(cells, x, b);
      var head := h.head;
      var newHead := cells[head].next;
      cells := SetPrev(cells, newHead, NULL);
      cells := SetNext(cells, h.tail, head);
      cells := SetNext(cells, head, NULL);
      cells := SetPrev(cells, head, h.tail);
      g := Header(newHead, head, h.len);
      SameRotateHead(old(cells), x, First(b), Last(b));
      HeaderIs(cells, g, b + [x]);
    }

    // listDelNode: the node is unlinked and its memory given back.
    method Delete(h: Header, node: Ref, ghost a: seq<Ref>, ghost b: seq<Ref>) returns (g: Header)
      requires Is(cells, h, a + [node] + b)
      modifies this
      ensures Is(cells, g, a + b) && cells.Keys == old(cells).Keys - {node}
    {
      hide Is;
      ListNodes(cells, h, a, node, b);
      g := Unlink(h, node, a, b);
      ghost var m := cells;
      cells := cells - {node};
      FreedKeeps(m, cells, g, a + b, node);
    }

    /**
     * Walking with listNext from the head while any of the visited nodes are deleted:
     * every node of the original list is visited once, in order, and those not deleted
     * stay in order.
     */
    method Sweep(h: Header, deletes: seq<bool>, ghost s: seq<Ref>) returns (g: Header, visited: seq<Ref>)
      requires Is(cells, h, s) && |deletes| == |s|
      modifies this
      ensures visited == s && Is(cells, g, Kept(s, deletes))
    {
      hide Is, Kept;
      g, visited := h, [];
      var iter, i := h.head, 0;
      ghost var kept: seq<Ref> := [];
      SweepStart(cells, h, s, deletes);
      while iter != NULL
        invariant 0 <= i <= |s| && visited == s[..i] && kept == Kept(s[..i], deletes[..i])
        invariant Is(cells, g, kept + s[i..]) && iter == First(s[i..])
        decreases |s| - i
      {
        var current := iter;
        SweepHere(cells, g, kept, s, i);
        iter := cells[current].next;
        visited := visited + [current];
        KeptMore(s, deletes, i);
        if deletes[i] {
          g := Delete(g, current, kept, s[i + 1..]);
        } else {
          kept := kept + [current];
        }
        i := i + 1;
      }
      SweepEnd(cells, g, kept, s, i);
      assert s[..i] == s && deletes[..i] == deletes;
    }

    // The same from the tail.
    method SweepBack(h: Header, deletes: seq<bool>, ghost s: seq<Ref>) returns (g: Header, visited: seq<Ref>)
      requires Is(cells, h, s) && |deletes| == |s|
      modifies this
      ensures |visited| == |s| && (forall i | 0 <= i < |s| :: visited[i] == s[|s| - 1 - i])
      ensures Is(cells, g, Kept(s, deletes))
    {
      hide Is, Kept;
      g, visited := h, [];
      var iter, i := h.tail, |deletes|;
      ghost var kept: seq<Ref> := [];
      SweepBackStart(cells, h, s, deletes);
      while iter != NULL
        invariant 0 <= i <= |s| && |visited| == |s| - i && kept == Kept(s[i..], deletes[i..])
        invariant forall j | 0 <= j < |visited| :: visited[j] == s[|s| - 1 - j]
        invariant Is(cells, g, s[..i] + kept) && iter == Last(s[..i])
        decreases i
      {
        var current := iter;
        SweepBackHere(cells, g, s, i, kept);
        i := i - 1;
        iter := cells[current].prev;
        visited := visited + [current];
        KeptBefore(s, deletes, i);
        if deletes[i] {
          g := Delete(g, current, s[..i], kept);
        } else {
          kept := [current] + kept;
        }
      }
      SweepBackEnd(cells, g, s, i, kept);
      assert s[i..] == s && deletes[i..] == deletes;
    }

    // listJoin: the second list is left empty.
    method Join(l: Header, o: Header, ghost s: seq<Ref>, ghost t: seq<Ref>) returns (l': Header, o': Header)
      requires Is(cells, l, s) && Is(cells, o, t) && Nodes(cells, s + t)
      modifies this
      ensures Is(cells, l', s + t) && Is(cells, o', []) && OnlyLinks(old(cells), cells, {Last(s), First(t)})
    {
      hide Linked, Is, Nodes, OnlyLinks;
      IsMeans(cells, l, s);
      IsMeans(cells, o, t);
      NoLinks(cells, {Last(s), First(t)});
      if o.len == 0 {
        assert s + t == s;
        return l, o;
      }
      if s != [] {
        TieChains(cells, s, t);
        LastNotFirst(cells, s, t);
      }
      HeadPrev(cells, t);
      cells := SetPrev(cells, o.head, l.tail);
      var head := l.head;
      if l.tail != NULL {
        cells := SetNext(cells, l.tail, o.head);
        assert cells == Tie(old(cells), Last(s), First(t));
      } else {
        head := o.head;
        assert s + t == t && cells == old(cells);
      }
      l', o' := Header(head, o.tail, l.len + o.len), Header(NULL, NULL, 0);
      HeaderIs(cells, l', s + t);
      EmptyIs(cells, o');
    }
  }

  lemma EndsOf(a: seq<Ref>, node: Ref, b: seq<Ref>)
    ensures First(a + [node] + b) == (if a == [] then node else First(a)) && Last(a + [node] + b) == (if b == [] then node else Last(b))
    ensures First(a + b) == (if a == [] then First(b) else First(a)) && Last(a + b) == (if b == [] then Last(a) else Last(b))
    ensures |a + [node] + b| == |a + b| + 1
  {
  }

  lemma NotMine(m: Memory, s: seq<Ref>, node: Ref)
    requires Linked(m, s) && node !in m
    ensures node !in s
  {
    assert forall i | 0 <= i < |s| :: s[i] in m;
  }

  // The neighbours across the place where `a` ends and `b` begins.
  lemma NodeEnds(m: Memory, a: seq<Ref>, b: seq<Ref>)
    requires Linked(m, a + b)
    ensures a != [] ==> Last(a) in m && m[Last(a)].next == First(b) && (Last(a) == Last(a + b) <==> b == [])
    ensures b != [] ==> First(b) in m && m[First(b)].prev == Last(a) && (First(b) == First(a + b) <==> a == [])
  {
    var u := a + b;
    assert a != [] ==> u[|a| - 1] == Last(a);
    assert b != [] ==> u[|a|] == First(b);
  }

  lemma EndsTwo(m: Memory, a: seq<Ref>, x: Ref)
    requires Linked(m, a + [x]) && a != []
    ensures x in m && m[x].prev == Last(a) && m[x].next == NULL && Last(a + [x]) == x && First(a + [x]) == First(a)
    ensures m[First(a)].prev == NULL && m[Last(a)].next == x
  {
    var u := a + [x];
    assert u[|a|] == x && u[|a| - 1] == Last(a) && u[0] == First(a);
  }

  lemma StartsTwo(m: Memory, x: Ref, b: seq<Ref>)
    requires Linked(m, [x] + b) && b != []
    ensures x in m && m[x].next == First(b) && m[x].prev == NULL && First([x] + b) == x && Last([x] + b) == Last(b)
    ensures First(b) in m && m[First(b)].prev == x && Last(b) in m && m[Last(b)].next == NULL
  {
    var u := [x] + b;
    assert u[0] == x && u[1] == First(b) && u[|b|] == Last(b);
  }

  lemma NoLinks(m: Memory, s: set<Ref>)
    ensures OnlyLinks(m, m, s)
  {
  }

  lemma LastNotFirst(m: Memory, s: seq<Ref>, t: seq<Ref>)
    requires Nodes(m, s + t) && s != [] && t != []
    ensures Last(s) != First(t)
  {
    Parts(m, s, t);
  }

  lemma HeadPrev(m: Memory, t: seq<Ref>)
    requires Linked(m, t) && t != []
    ensures m[t[0]].prev == NULL
  {
  }

  lemma IsMeans(m: Memory, h: Header, s: seq<Ref>)
    requires Is(m, h, s)
    ensures Linked(m, s) && h.len == |s| && h.head == First(s) && h.tail == Last(s)
    ensures s != [] ==> First(s) in m && Last(s) in m && First(s) != NULL && Last(s) != NULL && First(s) in s && Last(s) in s
  {
  }

  lemma HeaderIs(m: Memory, h: Header, s: seq<Ref>)
    requires Linked(m, s) && h.head == First(s) && h.tail == Last(s) && h.len == |s|
    ensures Is(m, h, s)
  {
  }

  lemma EmptyIs(m: Memory, h: Header)
    requires h == Header(NULL, NULL, 0)
    ensures Is(m, h, [])
  {
  }
}
