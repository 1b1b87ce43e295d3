/**
 * A slot moves from a source node to a target node while clients keep using it. Each
 * node routes by itself (`SlotRouting.Route`); the two together behave as one store.
 *
 * Assumed of the outside: the operator opens the slot on the source before moving keys
 * and closes it only when the source holds none, every MIGRATE reply arrives, keys do
 * not expire, and a client sends ASKING only with a command it was told to ASK for.
 */
module SlotMigration {
  import opened Prelude
  import opened SlotRouting

  const SOURCE: Id := 1
  const TARGET: Id := 2

  // MIGRATE blocks the source: keys still to be restored, and replies not yet read.
  datatype Transfer = Idle | Moving(queue: seq<(Key, Value)>, replies: seq<(Key, bool)>, replace: bool)

  // asked: the commands some client was told to ASK the target for.
  datatype State = State(slot: nat, a: Node, b: Node, asked: set<seq<seq<Key>>>, move: Transfer)

  datatype Action =
    | SetImporting
    | SetMigrating
    | ServeAtSource(q: Query, put: map<Key, Value>, del: set<Key>)
    | ServeAtTarget(q: Query, put: map<Key, Value>, del: set<Key>)
    | Redirect(q: Query)
    | StartMove(keys: seq<Key>, replace: bool)
    | Restore
    | Acknowledge
    | FinishTarget
    | FinishSource

  function KeySet(commands: seq<seq<Key>>): set<Key> {
    set k | k in AllKeys(commands)
  }

  // A command a client sends about keys of the slot.
  predicate About(s: State, q: Query) {
    NeedsRouting(q) && !q.migrate && AllKeys(q.commands) != [] && forall k <- AllKeys(q.commands) :: k.slot == s.slot
  }

  predicate WritesOnly(q: Query, put: map<Key, Value>, del: set<Key>) {
    put.Keys <= KeySet(q.commands) && del <= KeySet(q.commands) && put.Keys !! del
  }

  // What a command leaves of a store: any of its keys set, any deleted.
  function Written(db: map<Key, Value>, put: map<Key, Value>, del: set<Key>): map<Key, Value> {
    (db - del) + put
  }

  // RESTORE-ASKING of one key.
  function RestoreQuery(k: Key): Query {
    Query([[k]], false, false, true, false)
  }

  function Found(db: map<Key, Value>, keys: seq<Key>): seq<(Key, Value)> {
    if keys == [] then []
    else Found(db, keys[..|keys| - 1]) + if keys[|keys| - 1] in db then [(keys[|keys| - 1], db[keys[|keys| - 1]])] else []
  }

  ghost predicate Shape(s: State) {
    s.a.id == SOURCE && s.b.id == TARGET && s.slot in s.a.slots && s.slot in s.b.slots
  }

  function ViewA(s: State): SlotView
    requires s.slot in s.a.slots
  {
    s.a.slots[s.slot]
  }

  function ViewB(s: State): SlotView
    requires s.slot in s.b.slots
  {
    s.b.slots[s.slot]
  }

  ghost predicate Enabled(s: State, x: Action)
    requires Shape(s)
  {
    match x
    case SetImporting => ViewB(s).owner == SOURCE
    case SetMigrating => ViewA(s).owner == SOURCE
    case ServeAtSource(q, put, del) => s.move.Idle? && About(s, q) && WritesOnly(q, put, del) && Route(s.a, q) == ServeHere
    case ServeAtTarget(q, put, del) =>
      About(s, q) && WritesOnly(q, put, del) && Route(s.b, q) == ServeHere && (q.asking ==> q.commands in s.asked)
    case Redirect(q) => s.move.Idle? && About(s, q) && Route(s.a, q).Ask?
    case StartMove(keys, _) => s.move.Idle? && Migrating(s.a, ViewA(s)) && Found(s.a.db, keys) != [] && forall k <- keys :: k.slot == s.slot
    case Restore => s.move.Moving? && s.move.queue != []
    case Acknowledge => s.move.Moving? && s.move.replies != []
    case FinishTarget => s.move.Idle? && Migrating(s.a, ViewA(s)) && s.a.db == map[]
    case FinishSource => s.move.Idle? && Migrating(s.a, ViewA(s)) && s.a.db == map[]
  }

  function Accepted(s: State): bool
    requires s.move.Moving? && s.move.queue != []
  {
    var k := s.move.queue[0].0;
    Route(s.b, RestoreQuery(k)) == ServeHere && (k !in s.b.db || s.move.replace)
  }

  function SetView(n: Node, slot: nat, v: SlotView): Node {
    n.(slots := n.slots[slot := v])
  }

  function Step(s: State, x: Action): State
    requires Shape(s) && Enabled(s, x)
  {
    match x
    case SetImporting => s.(b := SetView(s.b, s.slot, ViewB(s).(importingFrom := Some(SOURCE))))
    case SetMigrating => s.(a := SetView(s.a, s.slot, ViewA(s).(migratingTo := Some(TARGET))))
    case ServeAtSource(_, put, del) => s.(a := s.a.(db := Written(s.a.db, put, del)))
    case ServeAtTarget(_, put, del) => s.(b := s.b.(db := Written(s.b.db, put, del)))
    case Redirect(q) => s.(asked := s.asked + {q.commands})
    case StartMove(keys, replace) => s.(move := Moving(Found(s.a.db, keys), [], replace))
    case Restore =>
      var (k, v) := s.move.queue[0];
      var ok := Accepted(s);
      s.(b := if ok then s.b.(db := s.b.db[k := v]) else s.b,
         move := s.move.(queue := s.move.queue[1..], replies := s.move.replies + [(k, ok)]))
    case Acknowledge =>
      var (k, ok) := s.move.replies[0];
      s.(a := if ok then s.a.(db := s.a.db - {k}) else s.a,
         move := if |s.move.replies| == 1 && s.move.queue == [] then Idle
                 else s.move.(replies := s.move.replies[1..]))
    case FinishTarget => s.(b := SetView(s.b, s.slot, SlotView(TARGET, None, None)))
    case FinishSource => s.(a := SetView(s.a, s.slot, SlotView(TARGET, None, None)))
  }

  // The slot's keys as one store.
  function Store(s: State): map<Key, Value> {
    s.b.db + s.a.db
  }

  // ---------- what every step keeps ----------

  // The source creates no keys: it is migrating the slot, or no longer owns it.
  predicate Leaving(s: State)
    requires s.slot in s.a.slots
  {
    Migrating(s.a, ViewA(s)) || ViewA(s).owner == TARGET
  }

  predicate InQueue(m: Transfer, k: Key) {
    m.Moving? && exists i :: 0 <= i < |m.queue| && m.queue[i].0 == k
  }

  predicate InReplies(m: Transfer, k: Key) {
    m.Moving? && exists i :: 0 <= i < |m.replies| && m.replies[i].0 == k && m.replies[i].1
  }

  ghost predicate Views(s: State) {
    && Shape(s)
    && (ViewA(s).owner == SOURCE || ViewA(s).owner == TARGET)
    && (ViewB(s).owner == SOURCE || ViewB(s).owner == TARGET)
    && (ViewA(s).migratingTo.Some? ==> ViewA(s).migratingTo == Some(TARGET))
    && ViewA(s).importingFrom.None? && ViewB(s).migratingTo.None?
    && (ViewA(s).owner == TARGET || ViewB(s).owner == TARGET ==> s.a.db == map[] && s.move.Idle? && Leaving(s))
    && (!Leaving(s) ==> s.b.db == map[] && s.asked == {} && s.move.Idle?)
  }

  // Commands told to ASK name no key that the source holds or is moving.
  ghost predicate AskedGone(s: State) {
    forall c, k | c in s.asked && k in KeySet(c) :: k !in s.a.db && !InQueue(s.move, k) && !InReplies(s.move, k)
  }

  // A key is on both nodes only between its restore and the reading of the reply.
  ghost predicate OneCopy(s: State) {
    forall k | k in s.a.db && k in s.b.db :: InReplies(s.move, k) && s.a.db[k] == s.b.db[k]
  }

  // What is being moved is the stored value; what was restored is there.
  ghost predicate Carried(s: State) {
    && (s.move.Moving? ==> forall i | 0 <= i < |s.move.queue| ::
          && s.move.queue[i].0.slot == s.slot
          && s.move.queue[i].0 in Store(s) && Store(s)[s.move.queue[i].0] == s.move.queue[i].1)
    && (forall k | InReplies(s.move, k) :: k in s.b.db)
  }

  ghost predicate Inv(s: State) {
    Views(s) && AskedGone(s) && OneCopy(s) && Carried(s)
  }

  // ---------- routing facts ----------

  lemma RouteAbout(s: State, n: Node, q: Query)
    requires About(s, q) && s.slot in n.slots
    ensures Route(n, q) == RouteInSlot(n, n.slots[s.slot], AllKeys(q.commands), q.asking, false)
  {
    var keys := AllKeys(q.commands);
    assert forall i | 0 <= i < |keys| :: keys[i] in keys;
    FirstIsPart(q.commands);
  }

  lemma {:induction false} FirstIsPart(commands: seq<seq<Key>>)
    ensures forall k <- FirstWithKeys(commands) :: k in AllKeys(commands)
    ensures Crossing(FirstWithKeys(commands)) ==> Crossing(AllKeys(commands))
  {
    if commands != [] {
      var n := |commands| - 1;
      FirstIsPart(commands[..n]);
      if AllKeys(commands[..n]) == [] {
        assert AllKeys(commands) == commands[n];
      } else if Crossing(FirstWithKeys(commands)) {
        CrossingMore(AllKeys(commands[..n]), AllKeys(commands));
      }
    }
  }

  // The source serves a command only if it holds all its keys, or the target has none.
  lemma SourceServes(s: State, q: Query)
    requires Inv(s) && About(s, q) && Route(s.a, q) == ServeHere
    ensures Leaving(s) ==> forall k <- KeySet(q.commands) :: k in s.a.db
    ensures ViewA(s).owner == SOURCE
  {
    RouteAbout(s, s.a, q);
  }

  // The target serves a command only if none of its keys is on the source or on its way.
  lemma TargetServes(s: State, q: Query)
    requires Inv(s) && About(s, q) && Route(s.b, q) == ServeHere && (q.asking ==> q.commands in s.asked)
    ensures forall k <- KeySet(q.commands) :: k !in s.a.db && !InQueue(s.move, k) && !InReplies(s.move, k)
    ensures Leaving(s)
  {
    RouteAbout(s, s.b, q);
    if ViewB(s).owner == TARGET {
    } else {
      assert q.asking;
    }
  }

  // ---------- one step ----------

  lemma WrittenOutside(db: map<Key, Value>, put: map<Key, Value>, del: set<Key>, keys: set<Key>)
    requires put.Keys <= keys && del <= keys
    ensures forall k | k !in keys :: (k in Written(db, put, del) <==> k in db) && (k in db ==> Written(db, put, del)[k] == db[k])
    ensures forall k | k in Written(db, put, del) :: k in db || k in keys
  {
  }

  // Writing on the side that holds the keys is writing the one store.
  lemma WrittenStore(a: map<Key, Value>, b: map<Key, Value>, put: map<Key, Value>, del: set<Key>)
    ensures (forall k <- put.Keys + del :: k !in b) ==> b + Written(a, put, del) == Written(b + a, put, del)
    ensures (forall k <- put.Keys + del :: k !in a) ==> Written(b, put, del) + a == Written(b + a, put, del)
  {
  }

  lemma ServeSourceInv(s: State, x: Action)
    requires Inv(s) && Enabled(s, x) && x.ServeAtSource?
    ensures Inv(Step(s, x)) && Store(Step(s, x)) == Written(Store(s), x.put, x.del)
  {
    SourceServes(s, x.q);
    NothingMoving(s.move);
    hide Route, About, Written, InQueue, InReplies, Leaving;
    assert Leaving(s) == Leaving(Step(s, x)) by {
      SameLeaving(s, Step(s, x));
    }
    var keys := KeySet(x.q.commands);
    WrittenOutside(s.a.db, x.put, x.del, keys);
    assert forall k <- keys :: k !in s.b.db;
    WrittenStore(s.a.db, s.b.db, x.put, x.del);
  }

  lemma NothingMoving(m: Transfer)
    requires m.Idle?
    ensures forall k :: !InQueue(m, k) && !InReplies(m, k)
  {
  }

  lemma SameLeaving(s: State, t: State)
    requires s.slot == t.slot && s.a.id == t.a.id && s.a.slots == t.a.slots && s.slot in s.a.slots
    ensures Leaving(s) == Leaving(t)
  {
  }

  lemma ServeTargetInv(s: State, x: Action)
    requires Inv(s) && Enabled(s, x) && x.ServeAtTarget?
    ensures Inv(Step(s, x)) && Store(Step(s, x)) == Written(Store(s), x.put, x.del)
  {
    TargetServes(s, x.q);
    hide Route, About, Written, InQueue, InReplies;
    var keys := KeySet(x.q.commands);
    WrittenOutside(s.b.db, x.put, x.del, keys);
    WrittenStore(s.a.db, s.b.db, x.put, x.del);
    TargetCarried(s, x.put, x.del, keys);
  }

  lemma TargetCarried(s: State, put: map<Key, Value>, del: set<Key>, keys: set<Key>)
    requires Carried(s) && put.Keys <= keys && del <= keys && forall k <- keys :: !InQueue(s.move, k) && !InReplies(s.move, k)
    ensures Carried(s.(b := s.b.(db := Written(s.b.db, put, del))))
  {
    if s.move.Moving? {
      forall i | 0 <= i < |s.move.queue|
        ensures s.move.queue[i].0 !in keys
      {
        assert InQueue(s.move, s.move.queue[i].0);
      }
    }
  }

  lemma RedirectInv(s: State, x: Action)
    requires Inv(s) && Enabled(s, x) && x.Redirect?
    ensures Inv(Step(s, x)) && Store(Step(s, x)) == Store(s)
  {
    RouteAbout(s, s.a, x.q);
  }

  lemma {:induction false} FoundThere(db: map<Key, Value>, keys: seq<Key>)
    ensures forall i | 0 <= i < |Found(db, keys)| ::
              Found(db, keys)[i].0 in keys && Found(db, keys)[i].0 in db && db[Found(db, keys)[i].0] == Found(db, keys)[i].1
  {
    if keys != [] {
      FoundThere(db, keys[..|keys| - 1]);
    }
  }

  lemma StartMoveInv(s: State, x: Action)
    requires Inv(s) && Enabled(s, x) && x.StartMove?
    ensures Inv(Step(s, x)) && Store(Step(s, x)) == Store(s)
  {
    FoundThere(s.a.db, x.keys);
    assert Found(s.a.db, x.keys)[0].0 in s.a.db;
  }

  lemma RestoreInv(s: State)
    requires Inv(s) && Enabled(s, Restore)
    ensures Inv(Step(s, Restore)) && Store(Step(s, Restore)) == Store(s)
  {
    hide Route;
    var n := Step(s, Restore);
    var (k, v) := s.move.queue[0];
    var ok := Accepted(s);
    assert InQueue(s.move, k);
    forall x
      ensures InQueue(n.move, x) ==> InQueue(s.move, x)
      ensures InReplies(n.move, x) <==> InReplies(s.move, x) || (x == k && ok)
    {
      RestoreMoves(s.move, n.move, k, v, ok, x);
    }
    assert Store(n) == Store(s);
    assert forall i | 0 <= i < |n.move.queue| :: n.move.queue[i] == s.move.queue[i + 1];
  }

  lemma RestoreMoves(m: Transfer, n: Transfer, k: Key, v: Value, ok: bool, x: Key)
    requires m.Moving? && m.queue != [] && m.queue[0] == (k, v)
    requires n == m.(queue := m.queue[1..], replies := m.replies + [(k, ok)])
    ensures InQueue(n, x) ==> InQueue(m, x)
    ensures InReplies(n, x) <==> InReplies(m, x) || (x == k && ok)
  {
    if InQueue(n, x) {
      var i :| 0 <= i < |n.queue| && n.queue[i].0 == x;
      assert m.queue[i + 1].0 == x;
    }
    if InReplies(m, x) {
      var i :| 0 <= i < |m.replies| && m.replies[i].0 == x && m.replies[i].1;
      assert n.replies[i] == m.replies[i];
    }
    assert n.replies[|m.replies|] == (k, ok);
  }

  lemma AcknowledgeInv(s: State)
    requires Inv(s) && Enabled(s, Acknowledge)
    ensures Inv(Step(s, Acknowledge)) && Store(Step(s, Acknowledge)) == Store(s)
  {
    hide Route;
    var n := Step(s, Acknowledge);
    var (k, ok) := s.move.replies[0];
    forall x
      ensures InQueue(n.move, x) ==> InQueue(s.move, x)
      ensures InReplies(n.move, x) ==> InReplies(s.move, x)
      ensures InReplies(s.move, x) ==> InReplies(n.move, x) || (x == k && ok)
    {
      AcknowledgeMoves(s.move, n.move, k, ok, x);
    }
    assert ok ==> InReplies(s.move, k);
    assert Store(n) == Store(s);
  }

  lemma AcknowledgeMoves(m: Transfer, n: Transfer, k: Key, ok: bool, x: Key)
    requires m.Moving? && m.replies != [] && m.replies[0] == (k, ok)
    requires n == if |m.replies| == 1 && m.queue == [] then Idle else m.(replies := m.replies[1..])
    ensures InQueue(n, x) ==> InQueue(m, x)
    ensures InReplies(n, x) ==> InReplies(m, x)
    ensures InReplies(m, x) ==> InReplies(n, x) || (x == k && ok)
  {
    if InReplies(n, x) {
      var i :| 0 <= i < |n.replies| && n.replies[i].0 == x && n.replies[i].1;
      assert m.replies[i + 1] == n.replies[i];
    }
    if InReplies(m, x) {
      var i :| 0 <= i < |m.replies| && m.replies[i].0 == x && m.replies[i].1;
      if i > 0 {
        assert n.replies[i - 1] == m.replies[i];
      }
    }
  }

  lemma ConfigInv(s: State, x: Action)
    requires Inv(s) && Enabled(s, x) && (x.SetImporting? || x.SetMigrating? || x.FinishTarget? || x.FinishSource?)
    ensures Inv(Step(s, x)) && Store(Step(s, x)) == Store(s)
  {
  }

  // What an action does to the one store the two nodes stand for.
  function Effect(db: map<Key, Value>, x: Action): map<Key, Value> {
    if x.ServeAtSource? || x.ServeAtTarget? then Written(db, x.put, x.del) else db
  }

  lemma StepInv(s: State, x: Action)
    requires Inv(s) && Enabled(s, x)
    ensures Inv(Step(s, x)) && Store(Step(s, x)) == Effect(Store(s), x)
  {
    hide Inv, Enabled, Store, Step, Written;
    match x {
      case ServeAtSource(_, _, _) => ServeSourceInv(s, x);
      case ServeAtTarget(_, _, _) => ServeTargetInv(s, x);
      case Redirect(_) => RedirectInv(s, x);
      case StartMove(_, _) => StartMoveInv(s, x);
      case Restore => RestoreInv(s);
      case Acknowledge => AcknowledgeInv(s);
      case _ => ConfigInv(s, x);
    }
  }

  // ---------- every run ----------

  // A slot the source owns, with no migration begun.
  ghost predicate Start(s: State) {
    && Shape(s) && ViewA(s) == SlotView(SOURCE, None, None) && ViewB(s) == SlotView(SOURCE, None, None)
    && s.b.db == map[] && s.asked == {} && s.move.Idle?
  }

  ghost function After(s: State, run: seq<Action>): State {
    if run == [] then s
    else
      var t, x := After(s, run[..|run| - 1]), run[|run| - 1];
      if Shape(t) && Enabled(t, x) then Step(t, x) else t
  }

  // The same run on a single store: the commands served, in order.
  ghost function Serial(s: State, run: seq<Action>): map<Key, Value> {
    if run == [] then Store(s)
    else
      var t, x := After(s, run[..|run| - 1]), run[|run| - 1];
      var db := Serial(s, run[..|run| - 1]);
      if Shape(t) && Enabled(t, x) then Effect(db, x) else db
  }

  /**
   * In every run the two nodes hold between them exactly what one store would after the
   * same commands.
   */
  lemma {:induction false} RunInv(s: State, run: seq<Action>)
    requires Start(s)
    ensures Inv(After(s, run)) && Store(After(s, run)) == Serial(s, run)
  {
    if run != [] {
      hide Inv, Enabled, Step, Store, Effect;
      var n := |run| - 1;
      RunInv(s, run[..n]);
      var t := After(s, run[..n]);
      if Shape(t) && Enabled(t, run[n]) {
        StepInv(t, run[n]);
      }
    }
  }

  /**
   * A served command sees, on the node that serves it, every one of its keys that exists
   * anywhere, with the value of the one store.
   */
  lemma ServedSeesAll(s: State, run: seq<Action>, x: Action, k: Key)
    requires Start(s) && Shape(After(s, run)) && Enabled(After(s, run), x)
    requires (x.ServeAtSource? || x.ServeAtTarget?) && k in KeySet(x.q.commands)
    ensures
      var t := After(s, run);
      var db := if x.ServeAtSource? then t.a.db else t.b.db;
      (k in Serial(s, run) <==> k in db) && (k in db ==> db[k] == Serial(s, run)[k])
  {
    RunInv(s, run);
    var t := After(s, run);
    SeesAll(t, x, k);
  }

  lemma SeesAll(t: State, x: Action, k: Key)
    requires Inv(t) && Enabled(t, x) && (x.ServeAtSource? || x.ServeAtTarget?) && k in KeySet(x.q.commands)
    ensures
      var db := if x.ServeAtSource? then t.a.db else t.b.db;
      (k in Store(t) <==> k in db) && (k in db ==> db[k] == Store(t)[k])
  {
    if x.ServeAtSource? {
      SourceServes(t, x.q);
    } else {
      TargetServes(t, x.q);
    }
  }

  // While a MIGRATE is not waiting for replies, no key is on both nodes.
  lemma NeverOnBoth(s: State, run: seq<Action>)
    requires Start(s) && After(s, run).move.Idle?
    ensures After(s, run).a.db.Keys !! After(s, run).b.db.Keys
  {
    RunInv(s, run);
  }

  // Once the slot is leaving, the source's keys only get fewer.
  lemma SourceShrinks(s: State, run: seq<Action>, x: Action)
    requires Start(s) && Shape(After(s, run)) && Enabled(After(s, run), x) && Leaving(After(s, run))
    ensures Step(After(s, run), x).a.db.Keys <= After(s, run).a.db.Keys
  {
    RunInv(s, run);
    var t := After(s, run);
    if x.ServeAtSource? {
      SourceServes(t, x.q);
    }
  }

  // RESTORE finds its key on the target only if the same MIGRATE named it twice.
  lemma RestoreNotBusy(s: State, run: seq<Action>)
    requires Start(s) && Shape(After(s, run)) && Enabled(After(s, run), Restore)
    requires After(s, run).move.queue[0].0 in After(s, run).b.db
    ensures After(s, run).move.queue[0].0 !in After(s, run).a.db || InReplies(After(s, run).move, After(s, run).move.queue[0].0)
  {
    RunInv(s, run);
  }

  /**
   * A command about one key is never stuck between the nodes: the source serves it, or
   * sends it to a target that serves it once it imports or owns the slot.
   */
  lemma SingleKeyServed(s: State, run: seq<Action>, q: Query)
    requires Start(s) && About(After(s, run), q) && forall k <- AllKeys(q.commands) :: k == AllKeys(q.commands)[0]
    ensures
      var t := After(s, run);
      Shape(t) && (Route(t.a, q) == ServeHere
        || (Route(t.a, q) in {Ask(TARGET), Moved(TARGET)}
            && (ViewB(t).importingFrom.Some? || ViewB(t).owner == TARGET ==> Route(t.b, q.(asking := true)) == ServeHere)))
  {
    RunInv(s, run);
    var t := After(s, run);
    RouteAbout(t, t.a, q);
    RouteAbout(t, t.b, q.(asking := true));
  }

  // ---------- a connection lost during MIGRATE ----------

  // The source reads no more replies, but it wrote all its RESTOREs before reading the
  // first one: the target may still execute the next n of them.
  ghost function AfterCut(t: State, n: nat): (r: State)
    requires Shape(t) && t.move.Moving? && n <= |t.move.queue|
    ensures Shape(r) && r.slot == t.slot && r.a == t.a && r.b.slots == t.b.slots
    ensures r.move.Moving? && r.move.queue == t.move.queue[n..]
  {
    if n == 0 then t else Step(AfterCut(t, n - 1), Restore)
  }

  // The target takes keys of the slot in: it imports the slot or owns it already.
  predicate TakesIn(t: State)
    requires t.slot in t.b.slots
  {
    Importing(t.b, ViewB(t)) || ViewB(t).owner == TARGET
  }

  lemma RestoreRoute(s: State, k: Key)
    requires Shape(s) && k.slot == s.slot && ViewB(s).migratingTo.None?
    ensures Route(s.b, RestoreQuery(k)) == ServeHere <==> TakesIn(s)
  {
    var q := RestoreQuery(k);
    assert q.commands[..0] == [] && AllKeys(q.commands) == [k];
    assert About(s, q);
    RouteAbout(s, s.b, q);
  }

  // Once a restore of k was executed by a target that takes it in, k is there.
  lemma Executed(t: State, n: nat)
    requires Inv(t) && t.move.Moving? && n < |t.move.queue|
    ensures var u, r, k := AfterCut(t, n), AfterCut(t, n + 1), t.move.queue[n].0;
            && (TakesIn(t) ==> k in r.b.db)
            && (forall x | x in r.b.db && x !in u.b.db :: x == k && TakesIn(t))
            && (forall x | x in u.b.db :: x in r.b.db)
  {
    hide Route, RouteInSlot;
    var u := AfterCut(t, n);
    assert u.move.queue[0] == t.move.queue[n];
    RestoreRoute(u, t.move.queue[n].0);
  }

  lemma {:induction false} NoCopyAfterCut(t: State, n: nat)
    requires Inv(t) && t.move.Moving? && n <= |t.move.queue|
    requires forall k | InReplies(t.move, k) || (InQueue(t.move, k) && TakesIn(t)) :: k !in t.a.db
    ensures t.a.db.Keys !! AfterCut(t, n).b.db.Keys
  {
    if n == 0 {
      assert forall k | k in t.a.db && k in t.b.db :: InReplies(t.move, k);
    } else {
      NoCopyAfterCut(t, n - 1);
      Executed(t, n - 1);
      assert InQueue(t.move, t.move.queue[n - 1].0);
    }
  }

  /**
   * Without the acknowledgements the claim fails. A connection lost during MIGRATE never
   * leaves a key on both nodes, however many of the RESTOREs already sent the target goes
   * on to execute, if and only if the source holds no key whose accepted restore was not
   * acknowledged, and none whose restore is still to come to a target that takes it in.
   */
  lemma LostConnectionIff(s: State, run: seq<Action>)
    requires Start(s) && After(s, run).move.Moving?
    ensures
      var t := After(s, run);
      Shape(t) &&
      ((forall n | 0 <= n <= |t.move.queue| :: AfterCut(t, n).a.db.Keys !! AfterCut(t, n).b.db.Keys)
       <==> forall k | InReplies(t.move, k) || (InQueue(t.move, k) && TakesIn(t)) :: k !in t.a.db)
  {
    RunInv(s, run);
    var t := After(s, run);
    if forall k | InReplies(t.move, k) || (InQueue(t.move, k) && TakesIn(t)) :: k !in t.a.db {
      forall n | 0 <= n <= |t.move.queue|
        ensures AfterCut(t, n).a.db.Keys !! AfterCut(t, n).b.db.Keys
      {
        NoCopyAfterCut(t, n);
      }
    } else {
      var k :| (InReplies(t.move, k) || (InQueue(t.move, k) && TakesIn(t))) && k in t.a.db;
      CopyAfterCut(t, k);
    }
  }

  // A number of restores after which such a key is on both nodes.
  lemma CopyAfterCut(t: State, k: Key)
    requires Inv(t) && t.move.Moving? && k in t.a.db && (InReplies(t.move, k) || (InQueue(t.move, k) && TakesIn(t)))
    ensures exists n: nat :: n <= |t.move.queue| && k in AfterCut(t, n).a.db.Keys && k in AfterCut(t, n).b.db.Keys
  {
    if InReplies(t.move, k) {
      assert AfterCut(t, 0) == t;
      assert k in AfterCut(t, 0).a.db.Keys && k in AfterCut(t, 0).b.db.Keys;
    } else {
      var i :| 0 <= i < |t.move.queue| && t.move.queue[i].0 == k;
      Executed(t, i);
      assert k in AfterCut(t, i + 1).a.db.Keys && k in AfterCut(t, i + 1).b.db.Keys;
    }
  }

  lemma AfterOneMore(s: State, run: seq<Action>, x: Action)
    requires Shape(After(s, run)) && Enabled(After(s, run), x)
    ensures After(s, run + [x]) == Step(After(s, run), x)
  {
    assert (run + [x])[..|run|] == run;
  }

  // The shortest such run: one key is sent, and the connection is lost before its reply.
  lemma LostConnectionRun(s: State, k: Key)
    requires Start(s) && k in s.a.db && k.slot == s.slot
    ensures
      var t := After(s, [SetImporting, SetMigrating] + [StartMove([k], false)]);
      && Shape(t) && t.move.Moving?
      && exists n: nat :: n <= |t.move.queue| && k in AfterCut(t, n).a.db.Keys && k in AfterCut(t, n).b.db.Keys
  {
    hide Route, RouteInSlot;
    var s1 := Step(s, SetImporting);
    AfterOneMore(s, [], SetImporting);
    assert [] + [SetImporting] == [SetImporting];
    var s2 := Step(s1, SetMigrating);
    AfterOneMore(s, [SetImporting], SetMigrating);
    assert [SetImporting] + [SetMigrating] == [SetImporting, SetMigrating];
    assert Found(s2.a.db, [k]) == [(k, s2.a.db[k])] by {
      assert [k][..0] == [] && Found(s2.a.db, []) == [];
    }
    AfterOneMore(s, [SetImporting, SetMigrating], StartMove([k], false));
    var t := Step(s2, StartMove([k], false));
    RunInv(s, [SetImporting, SetMigrating] + [StartMove([k], false)]);
    assert t.move.queue[0].0 == k;
    CopyAfterCut(t, k);
  }
}
