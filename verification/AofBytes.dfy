/**
 * The log of the protocol as bytes. A write can stop at any byte; the loader cuts off the
 * unfinished command, so what a restart finds is what some whole number of entries wrote.
 */
module AofBytes {
  import opened AofLog
  import opened AofDisk
  import opened AofInvariant
  import opened AofSteps
  import AofStream

  type Argv = AofStream.Argv

  // feedAppendOnlyFile writes a SELECT as a command like any other.
  function ArgvOf(e: Entry): Argv {
    match e
    case Select(db) => ["SELECT", AofStream.Decimal(db)]
    case Exec(cmd, _) => cmd.argv
  }

  function Argvs(es: seq<Entry>): (r: seq<Argv>)
    ensures |r| == |es|
  {
    if es == [] then [] else [ArgvOf(es[0])] + Argvs(es[1..])
  }

  function Text(es: seq<Entry>): string {
    AofStream.PrintAll(Argvs(es))
  }

  predicate IsSelect(argv: Argv) {
    |argv| == 2 && AofStream.Named(argv, "select")
  }

  // What the loader's client does with the commands it reads, in which database.
  // `neutral` says of a command whether it belongs to no database.
  function DbOf(cmds: seq<Argv>, db: nat): nat {
    if cmds == [] then db
    else
      var last := cmds[|cmds| - 1];
      if IsSelect(last) then AofStream.Number(last[1]) else DbOf(cmds[..|cmds| - 1], db)
  }

  function CallsOf(cmds: seq<Argv>, db: nat, neutral: Argv -> bool): seq<Call> {
    if cmds == [] then []
    else
      var init, last := cmds[..|cmds| - 1], cmds[|cmds| - 1];
      if IsSelect(last) then CallsOf(init, db, neutral)
      else CallsOf(init, db, neutral) + [Call(if neutral(last) then NEUTRAL else DbOf(init, db), Cmd(last))]
  }

  // Commands outside transactions, told apart from SELECT by their name.
  predicate PlainEntry(e: Entry, neutral: Argv -> bool) {
    e.Exec? ==>
      && e.cmd.argv != [] && !IsSelect(e.cmd.argv) && e.neutral == neutral(e.cmd.argv)
      && !AofStream.IsMulti(e.cmd.argv) && !AofStream.IsExec(e.cmd.argv)
  }

  predicate PlainLog(es: seq<Entry>, neutral: Argv -> bool) {
    forall i | 0 <= i < |es| :: PlainEntry(es[i], neutral)
  }

  // How many entries the first n bytes hold.
  function WholeEntries(es: seq<Entry>, n: nat): (k: nat)
    ensures k <= |es|
  {
    if es == [] || n < |AofStream.Print(ArgvOf(es[0]))| then 0
    else 1 + WholeEntries(es[1..], n - |AofStream.Print(ArgvOf(es[0]))|)
  }

  // ---------- sequences of entries ----------

  lemma {:induction false} ArgvsAt(es: seq<Entry>, i: nat)
    requires i < |es|
    ensures Argvs(es)[i] == ArgvOf(es[i])
  {
    if i > 0 {
      ArgvsAt(es[1..], i - 1);
    }
  }

  lemma ArgvsParts(es: seq<Entry>, k: nat)
    requires k <= |es|
    ensures Argvs(es[..k]) == Argvs(es)[..k]
  {
    forall i | 0 <= i < k
      ensures Argvs(es[..k])[i] == Argvs(es)[i]
    {
      ArgvsAt(es[..k], i);
      ArgvsAt(es, i);
    }
  }

  lemma ArgvsConcat(a: seq<Entry>, b: seq<Entry>)
    ensures Argvs(a + b) == Argvs(a) + Argvs(b)
  {
    forall i | 0 <= i < |a + b|
      ensures Argvs(a + b)[i] == (Argvs(a) + Argvs(b))[i]
    {
      ArgvsAt(a + b, i);
      if i < |a| {
        ArgvsAt(a, i);
      } else {
        ArgvsAt(b, i - |a|);
      }
    }
  }

  lemma TextConcat(a: seq<Entry>, b: seq<Entry>)
    ensures Text(a + b) == Text(a) + Text(b)
  {
    ArgvsConcat(a, b);
    AofStream.PrintAllConcat(Argvs(a), Argvs(b));
  }

  lemma SelectIsSelect(db: nat)
    ensures IsSelect(["SELECT", AofStream.Decimal(db)])
    ensures !AofStream.IsMulti(["SELECT", AofStream.Decimal(db)]) && !AofStream.IsExec(["SELECT", AofStream.Decimal(db)])
    ensures AofStream.Number(AofStream.Decimal(db)) == db
  {
    AofStream.NumberOfDecimal(db);
  }

  // Reading the commands back replays the entries.
  lemma {:induction false} ReadBack(es: seq<Entry>, neutral: Argv -> bool)
    requires PlainLog(es, neutral)
    ensures CallsOf(Argvs(es), 0, neutral) == Replay(es, 0) && DbOf(Argvs(es), 0) == DbAfter(es, 0)
  {
    if es != [] {
      var n := |es| - 1;
      ReadBack(es[..n], neutral);
      ArgvsParts(es, n);
      ArgvsAt(es, n);
      if es[n].Select? {
        SelectIsSelect(es[n].db);
      }
    }
  }

  // Plain commands are all applied.
  lemma {:induction false} AllApplied(x: AofStream.Progress, cmds: seq<Argv>)
    requires x.queued.None? && AofStream.Plain(cmds)
    ensures var r := AofStream.RanAll(x, cmds); r.queued.None? && r.applied == x.applied + cmds
    decreases |cmds|
  {
    if cmds == [] {
      assert x.applied + cmds == x.applied;
    } else {
      AllApplied(AofStream.Ran(x, cmds[0], x.valid + |AofStream.Print(cmds[0])|), cmds[1..]);
      assert x.applied + [cmds[0]] + cmds[1..] == x.applied + cmds by {
        assert [cmds[0]] + cmds[1..] == cmds;
      }
    }
  }

  lemma PlainArgvs(es: seq<Entry>, neutral: Argv -> bool)
    requires PlainLog(es, neutral)
    ensures AofStream.Plain(Argvs(es)) && AofStream.Commands(Argvs(es))
  {
    forall i | 0 <= i < |es|
      ensures var a := Argvs(es)[i]; a != [] && !AofStream.IsMulti(a) && !AofStream.IsExec(a)
    {
      ArgvsAt(es, i);
      if es[i].Select? {
        SelectIsSelect(es[i].db);
      }
    }
  }

  // ---------- a write that stops anywhere ----------

  lemma TextCons(es: seq<Entry>)
    ensures es != [] ==> Text(es) == AofStream.Print(ArgvOf(es[0])) + Text(es[1..])
    ensures es == [] ==> Text(es) == ""
  {
  }

  lemma PrefixPast(p: string, q: string, n: nat)
    requires n <= |p| + |q|
    ensures (p + q)[..n] == if n < |p| then p[..n] else p + q[..n - |p|]
  {
  }

  // The bytes that got through are whole entries and the start of one more.
  lemma {:induction false} WholeAndPart(es: seq<Entry>, n: nat) returns (part: string)
    requires n <= |Text(es)|
    ensures var k := WholeEntries(es, n);
            && Text(es)[..n] == Text(es[..k]) + part
            && (if k == |es| then part == "" else part < AofStream.Print(ArgvOf(es[k])))
  {
    hide AofStream.Print, Text;
    TextCons(es);
    if es == [] {
      assert es[..0] == es;
      part := "";
      return;
    }
    var p, rest := AofStream.Print(ArgvOf(es[0])), es[1..];
    PrefixPast(p, Text(rest), n);
    if n < |p| {
      TextCons(es[..0]);
      part := p[..n];
    } else {
      part := WholeAndPart(rest, n - |p|);
      ghost var k := WholeEntries(rest, n - |p|);
      TextCons(es[..k + 1]);
      assert es[..k + 1][1..] == rest[..k];
      assert p + (Text(rest[..k]) + part) == p + Text(rest[..k]) + part;
    }
  }

  // Loading whole plain entries and an unfinished one.
  lemma LoadWholeAndPart(whole: seq<Entry>, part: string, next: Argv, neutral: Argv -> bool)
    requires PlainLog(whole, neutral) && (part == "" || (next != [] && part < AofStream.Print(next)))
    ensures var r := AofStream.Load(Text(whole) + part, true);
            && r.status != AofStream.Failed && r.file == Text(whole) && r.applied == Argvs(whole)
  {
    hide AofStream.Load, AofStream.RanAll, AofStream.PrintAll, AofStream.Print, PlainLog;
    var cmds := Argvs(whole);
    PlainArgvs(whole, neutral);
    AllApplied(AofStream.Start, cmds);
    assert [] + cmds == cmds;
    if part == "" {
      assert Text(whole) + part == Text(whole);
      AofStream.LoadWhole(cmds, true);
    } else {
      AofStream.LoadCut(cmds, next, part);
    }
  }

  /**
   * A file of whole entries, then the first n bytes of a buffer: loading with
   * aof-load-truncated runs exactly the calls of the entries that got through whole, and
   * leaves a file that holds exactly those.
   */
  lemma CrashAtAnyByte(es: seq<Entry>, buf: seq<Entry>, n: nat, neutral: Argv -> bool)
    requires PlainLog(es, neutral) && PlainLog(buf, neutral) && n <= |Text(buf)|
    ensures var r := AofStream.Load(Text(es) + Text(buf)[..n], true);
            var whole := es + buf[..WholeEntries(buf, n)];
            && r.status != AofStream.Failed && r.file == Text(whole)
            && CallsOf(r.applied, 0, neutral) == Replay(whole, 0)
  {
    hide AofStream.Load, Text, PlainEntry, AofStream.Print, CallsOf, Replay, ArgvOf, Argvs, WholeEntries;
    var k := WholeEntries(buf, n);
    var whole := es + buf[..k];
    var part := WholeAndPart(buf, n);
    TextConcat(es, buf[..k]);
    assert Text(es) + (Text(buf[..k]) + part) == Text(whole) + part;
    ReadBack(whole, neutral);
    if k < |buf| {
      PlainArgvs(buf, neutral);
      ArgvsAt(buf, k);
      LoadWholeAndPart(whole, part, ArgvOf(buf[k]), neutral);
    } else {
      LoadWholeAndPart(whole, part, [], neutral);
    }
  }

  /**
   * On the server: with AOF on, a crash at any byte of a flush recovers, after the loader's
   * cut, the promise of the crash point at which that many whole entries were written.
   */
  lemma CrashInsideFlush(d: Disk, a: Aof, before: Dataset, durable: Dataset, n: nat, neutral: Argv -> bool)
    requires a.state == On && Writes(d, a) && durable == before + Replay(OpenEntries(d, a), 0)
    requires PlainLog(OpenEntries(d, a), neutral) && PlainLog(a.buf, neutral) && n <= |Text(a.buf)|
    ensures var r := AofStream.Load(Text(OpenEntries(d, a)) + Text(a.buf)[..n], true);
            var k := WholeEntries(a.buf, n);
            && r.status != AofStream.Failed && r.file == Text(OpenEntries(FlushedDisk(d, a, k), a))
            && before + CallsOf(r.applied, 0, neutral) == FlushedPromise(d, a, durable, k)
  {
    hide AofStream.Load, Text, PlainLog, CallsOf, Replay, DbAfter, WholeEntries;
    var es, k := OpenEntries(d, a), WholeEntries(a.buf, n);
    CrashAtAnyByte(es, a.buf, n, neutral);
    ReplayConcat(es, a.buf[..k], 0);
    assert before + (Replay(es, 0) + Replay(a.buf[..k], DbAfter(es, 0))) == before + Replay(es, 0) + Replay(a.buf[..k], DbAfter(es, 0));
  }
}
