/**
 * The command log of an append-only file, one level above its bytes.
 *
 * A live server executes calls: a command in a database, or a database-neutral
 * command. The log records the commands and, only where the database changes, a
 * SELECT. Replaying a file starts with a fresh client, hence in database 0.
 *
 * A dataset is represented by the calls that built it. Two equal call histories
 * build equal datasets whatever the commands mean, so every equality proved here
 * carries over to real datasets (SnapshotThenLog).
 */
module AofLog {

  // Arguments are byte strings, one character a byte.
  datatype Cmd = Cmd(argv: seq<string>)

  // db == NEUTRAL marks a database-neutral command (MULTI, EXEC, FUNCTION, ...).
  const NEUTRAL: int := -1

  // aof_selected_db == UNSELECTED forces the next command to be preceded by SELECT.
  const UNSELECTED: int := -1

  datatype Call = Call(db: int, cmd: Cmd)

  predicate WellFormedCall(c: Call) {
    c.db >= NEUTRAL
  }

  type Dataset = seq<Call>

  datatype Entry = Select(db: nat) | Exec(cmd: Cmd, neutral: bool)

  // ---------- replay ----------

  // The database a replaying client is in after the entries.
  function DbAfter(es: seq<Entry>, db: nat): nat {
    if es == [] then db
    else
      var last := es[|es| - 1];
      if last.Select? then last.db else DbAfter(es[..|es| - 1], db)
  }

  // The calls a replaying client makes.
  function Replay(es: seq<Entry>, db: nat): seq<Call> {
    if es == [] then []
    else
      var init, last := es[..|es| - 1], es[|es| - 1];
      match last
      case Select(_) => Replay(init, db)
      case Exec(cmd, neutral) => Replay(init, db) + [Call(if neutral then NEUTRAL else DbAfter(init, db), cmd)]
  }

  lemma {:induction false} ReplayConcat(a: seq<Entry>, b: seq<Entry>, db: nat)
    ensures Replay(a + b, db) == Replay(a, db) + Replay(b, DbAfter(a, db))
    ensures DbAfter(a + b, db) == DbAfter(b, DbAfter(a, db))
  {
    if b == [] {
      assert a + b == a;
    } else {
      var init := b[..|b| - 1];
      assert (a + b)[..|a + b| - 1] == a + init;
      ReplayConcat(a, init, db);
    }
  }

  // ---------- feeding ----------

  // What feedAppendOnlyFile appends for one call, and the selected database after it.
  function FeedOne(selected: int, c: Call): (r: (seq<Entry>, int))
    requires WellFormedCall(c)
  {
    if c.db == NEUTRAL then ([Exec(c.cmd, true)], selected)
    else if c.db != selected then ([Select(c.db), Exec(c.cmd, false)], c.db)
    else ([Exec(c.cmd, false)], selected)
  }

  function FeedAll(selected: int, calls: seq<Call>): seq<Entry>
    requires forall c <- calls :: WellFormedCall(c)
    decreases calls
  {
    if calls == [] then []
    else
      var r := FeedOne(selected, calls[0]);
      r.0 + FeedAll(r.1, calls[1..])
  }

  // The writer's idea of the selected database agrees with the file it appends to.
  predicate Routed(selected: int, db: nat) {
    selected == UNSELECTED || selected == db
  }

  lemma FeedOneReplays(selected: int, c: Call, db: nat)
    requires WellFormedCall(c) && Routed(selected, db)
    ensures var r := FeedOne(selected, c);
            && Replay(r.0, db) == [c]
            && Routed(r.1, DbAfter(r.0, db))
  {
    var r := FeedOne(selected, c);
    if |r.0| == 2 {
      assert r.0[..1] == [Select(c.db)];
      assert Replay(r.0[..1], db) == [];
    } else {
      assert r.0[..0] == [];
    }
  }

  lemma {:induction false} FeedAllReplays(selected: int, calls: seq<Call>, db: nat)
    requires forall c <- calls :: WellFormedCall(c)
    requires Routed(selected, db)
    ensures Replay(FeedAll(selected, calls), db) == calls
    decreases calls
  {
    if calls != [] {
      var r := FeedOne(selected, calls[0]);
      FeedOneReplays(selected, calls[0], db);
      ReplayConcat(r.0, FeedAll(r.1, calls[1..]), db);
      FeedAllReplays(r.1, calls[1..], DbAfter(r.0, db));
      assert [calls[0]] + calls[1..] == calls;
    }
  }

  ghost predicate ReplaysEveryFuture(selected: int, db: nat) {
    forall calls: seq<Call> | (forall c <- calls :: WellFormedCall(c)) ::
      Replay(FeedAll(selected, calls), db) == calls
  }

  /**
   * A file opened while the writer remembers `selected` replays every possible
   * future correctly exactly when nothing is remembered or the remembered database
   * is the one a fresh client starts in. Opening a new INCR keeps the remembered
   * database, so this decides which rotations are safe.
   */
  lemma FreshFileRoutesIff(selected: int, db: nat)
    requires selected >= UNSELECTED
    ensures ReplaysEveryFuture(selected, db) <==> Routed(selected, db)
  {
    if Routed(selected, db) {
      forall calls: seq<Call> | (forall c <- calls :: WellFormedCall(c))
        ensures Replay(FeedAll(selected, calls), db) == calls
      {
        FeedAllReplays(selected, calls, db);
      }
    } else {
      var c := Call(selected, Cmd([]));
      var calls := [c];
      assert FeedAll(selected, calls) == [Exec(Cmd([]), false)] by {
        assert calls[1..] == [];
      }
      assert Replay([Exec(Cmd([]), false)], db) == [Call(db, Cmd([]))] by {
        assert [Exec(Cmd([]), false)][..0] == [];
      }
      assert Replay(FeedAll(selected, calls), db) != calls;
    }
  }

  // A buffer is empty or ends with a command: SELECT is fed only before one.
  predicate EndsWithCommand(buf: seq<Entry>) {
    buf != [] ==> buf[|buf| - 1].Exec?
  }

  // What is left of a buffer still replays to something.
  lemma LeftoverReplays(buf: seq<Entry>, db: nat)
    requires EndsWithCommand(buf)
    ensures Replay(buf, db) == [] <==> buf == []
  {
    if buf != [] {
      assert |Replay(buf, db)| > 0;
    }
  }

  lemma FedEndsWithCommand(selected: int, c: Call)
    requires WellFormedCall(c)
    ensures var es := FeedOne(selected, c).0; es != [] && EndsWithCommand(es)
  {
  }

  // ---------- from call histories to datasets ----------

  function Build<D>(apply: (D, Call) -> D, init: D, calls: seq<Call>): D {
    if calls == [] then init
    else apply(Build(apply, init, calls[..|calls| - 1]), calls[|calls| - 1])
  }

  // Loading a snapshot and then a log builds what executing everything built.
  lemma {:induction false} SnapshotThenLog<D>(apply: (D, Call) -> D, init: D, snapshot: seq<Call>, tail: seq<Call>)
    ensures Build(apply, Build(apply, init, snapshot), tail) == Build(apply, init, snapshot + tail)
  {
    if tail == [] {
      assert snapshot + tail == snapshot;
    } else {
      SnapshotThenLog(apply, init, snapshot, tail[..|tail| - 1]);
      assert (snapshot + tail)[..|snapshot + tail| - 1] == snapshot + tail[..|tail| - 1];
    }
  }
}
