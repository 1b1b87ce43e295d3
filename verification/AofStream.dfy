/**
 * The text of an append-only file: commands printed as arrays of length-prefixed
 * strings, and the loader that reads them back and cuts off an unfinished tail.
 */
module AofStream {
  import opened Prelude

  type Argv = seq<string>

  // ---------- printing ----------

  function Digit(d: nat): char
    requires d < 10
  {
    ('0' as int + d) as char
  }

  function Decimal(n: nat): (s: string)
    ensures s != ""
  {
    if n < 10 then [Digit(n)] else Decimal(n / 10) + [Digit(n % 10)]
  }

  const CRLF := "\r\n"

  function Header(mark: char, n: nat): string {
    [mark] + Decimal(n) + CRLF
  }

  function PrintArg(a: string): string {
    Header('$', |a|) + a + CRLF
  }

  function PrintArgs(argv: Argv): string {
    if argv == [] then "" else PrintArg(argv[0]) + PrintArgs(argv[1..])
  }

  function Print(argv: Argv): string {
    Header('*', |argv|) + PrintArgs(argv)
  }

  lemma {:induction false} PrintArgsMore(argv: Argv, a: string)
    ensures PrintArgs(argv + [a]) == PrintArgs(argv) + PrintArg(a)
  {
    hide PrintArg;
    if argv == [] {
      assert ([a])[1..] == [] && argv + [a] == [a];
    } else {
      PrintArgsMore(argv[1..], a);
      assert (argv + [a])[1..] == argv[1..] + [a];
    }
  }

  // catAppendOnlyGenericCommand.
  method Append(dst: string, argv: Argv) returns (r: string)
    ensures r == dst + Print(argv)
  {
    hide PrintArgs, Header, PrintArg;
    r := dst + Header('*', |argv|);
    ghost var base := r;
    NoArgs(base);
    assert argv[..0] == [];
    var j := 0;
    while j < |argv|
      invariant 0 <= j <= |argv|
      invariant r == base + PrintArgs(argv[..j])
    {
      OneMoreArg(base, argv, j);
      r := r + Header('$', |argv[j]|);
      r := r + argv[j];
      r := r + CRLF;
      j := j + 1;
    }
    assert argv[..j] == argv;
    AppendedWhole(dst, argv);
  }

  lemma NoArgs(base: string)
    ensures base + PrintArgs([]) == base
  {
  }

  lemma OneMoreArg(base: string, argv: Argv, j: nat)
    requires j < |argv|
    ensures base + PrintArgs(argv[..j]) + Header('$', |argv[j]|) + argv[j] + CRLF == base + PrintArgs(argv[..j + 1])
  {
    hide Header, PrintArgs;
    PrintArgsMore(argv[..j], argv[j]);
    assert argv[..j + 1] == argv[..j] + [argv[j]];
    Regroup(base, PrintArgs(argv[..j]), Header('$', |argv[j]|), argv[j]);
  }

  lemma Regroup(base: string, done: string, head: string, a: string)
    ensures base + done + head + a + CRLF == base + (done + (head + a + CRLF))
  {
  }

  lemma AppendedWhole(dst: string, argv: Argv)
    ensures dst + Header('*', |argv|) + PrintArgs(argv) == dst + Print(argv)
  {
    hide Header, PrintArgs;
  }

  // ---------- reading ----------

  // fgets: up to and with the first line feed, or all that is left.
  function LineEnd(s: string): (e: nat)
    ensures e <= |s|
  {
    if s == "" then 0 else if s[0] == '\n' then 1 else 1 + LineEnd(s[1..])
  }

  predicate IsDigit(c: char) {
    '0' <= c <= '9'
  }

  function DigitValue(c: char): nat {
    if IsDigit(c) then c as int - '0' as int else 0
  }

  // atoi and strtol on the digits at the start.
  function NumberFrom(s: string, acc: nat): nat {
    if s == "" || !IsDigit(s[0]) then acc else NumberFrom(s[1..], 10 * acc + DigitValue(s[0]))
  }

  function Number(s: string): nat {
    NumberFrom(s, 0)
  }

  datatype Parsed = Done(argv: Argv, rest: string) | Note(rest: string) | Eof | Bad

  function ReadArg(s: string): Parsed {
    if s == "" then Eof
    else if s[0] != '$' then Bad
    else
      var e := LineEnd(s);
      var len, data := Number(s[1..e]), s[e..];
      if |data| < len + 2 then Eof else Done([data[..len]], data[len + 2..])
  }

  function ReadArgs(s: string, n: nat): Parsed {
    if n == 0 then Done([], s)
    else
      var a := ReadArg(s);
      if !a.Done? then a
      else
        var more := ReadArgs(a.rest, n - 1);
        if more.Done? then Done(a.argv + more.argv, more.rest) else more
  }

  // One round of the loading loop, on what is left of the file.
  function ReadCommand(s: string): Parsed
    requires s != ""
  {
    var e := LineEnd(s);
    if s[0] == '#' then Note(s[e..])
    else if s[0] != '*' then Bad
    else if e == 1 then Eof
    else
      var argc := Number(s[1..e]);
      if argc < 1 then Bad else ReadArgs(s[e..], argc)
  }

  lemma {:induction false} ReadArgShrinks(s: string)
    requires ReadArg(s).Done?
    ensures |ReadArg(s).rest| < |s|
  {
  }

  lemma {:induction false} ReadArgsShrinks(s: string, n: nat)
    ensures !ReadArgs(s, n).Note? && (ReadArgs(s, n).Done? ==> |ReadArgs(s, n).rest| <= |s|)
  {
    if n > 0 && ReadArg(s).Done? {
      ReadArgShrinks(s);
      ReadArgsShrinks(ReadArg(s).rest, n - 1);
    }
  }

  lemma ReadCommandShrinks(s: string)
    requires s != ""
    ensures ReadCommand(s).Done? || ReadCommand(s).Note? ==> |ReadCommand(s).rest| < |s|
  {
    assert LineEnd(s) >= 1;
    assert |s[LineEnd(s)..]| < |s|;
    ReadArgsShrinks(s[LineEnd(s)..], Number(s[1..LineEnd(s)]));
  }

  // ---------- printing then reading ----------

  predicate IsDigits(s: string) {
    forall i | 0 <= i < |s| :: IsDigit(s[i])
  }

  lemma {:induction false} DecimalDigits(n: nat)
    ensures IsDigits(Decimal(n)) && (n > 0 ==> Decimal(n)[0] != '0')
  {
    if n >= 10 {
      DecimalDigits(n / 10);
    }
  }

  lemma {:induction false} NumberOfDigits(s: string, d: char, acc: nat)
    requires IsDigits(s) && IsDigit(d)
    ensures NumberFrom(s + [d], acc) == 10 * NumberFrom(s, acc) + DigitValue(d)
  {
    if s == "" {
      assert s + [d] == [d] && [d][1..] == "";
    } else {
      assert (s + [d])[1..] == s[1..] + [d];
      NumberOfDigits(s[1..], d, 10 * acc + DigitValue(s[0]));
    }
  }

  lemma {:induction false} NumberOfDecimal(n: nat)
    ensures Number(Decimal(n)) == n
  {
    if n < 10 {
      var d := [Digit(n)];
      assert DigitValue(d[0]) == n && d[1..] == "";
      assert NumberFrom(d[1..], n) == n;
    } else {
      NumberOfDecimal(n / 10);
      DecimalDigits(n / 10);
      NumberOfDigits(Decimal(n / 10), Digit(n % 10), 0);
      assert DigitValue(Digit(n % 10)) == n % 10;
    }
  }

  // What follows the digits does not matter.
  lemma {:induction false} NumberStops(s: string, tail: string, acc: nat)
    requires IsDigits(s) && (tail == "" || !IsDigit(tail[0]))
    ensures NumberFrom(s + tail, acc) == NumberFrom(s, acc)
  {
    if s == "" {
      assert s + tail == tail;
    } else {
      assert (s + tail)[1..] == s[1..] + tail;
      NumberStops(s[1..], tail, 10 * acc + DigitValue(s[0]));
    }
  }

  lemma {:induction false} NumberGrows(s: string, acc: nat)
    ensures NumberFrom(s, acc) >= acc
  {
    if s != "" && IsDigit(s[0]) {
      NumberGrows(s[1..], 10 * acc + DigitValue(s[0]));
    }
  }

  predicate OneLine(s: string) {
    forall i | 0 <= i < |s| :: s[i] != '\n'
  }

  lemma {:induction false} LineEndOf(s: string, rest: string)
    requires OneLine(s)
    ensures LineEnd(s + "\n" + rest) == |s| + 1 && LineEnd(s) == |s|
  {
    if s == "" {
      assert (s + "\n" + rest)[0] == '\n';
    } else {
      assert (s + "\n" + rest)[1..] == s[1..] + "\n" + rest;
      LineEndOf(s[1..], rest);
    }
  }

  // A header is one line, and its number is read back.
  lemma HeaderRead(mark: char, n: nat, rest: string)
    requires mark != '\n'
    ensures
      var s := Header(mark, n) + rest;
      s[0] == mark && LineEnd(s) == |Header(mark, n)| > 1 && Number(s[1..LineEnd(s)]) == n && s[LineEnd(s)..] == rest
  {
    DecimalDigits(n);
    var line := [mark] + Decimal(n) + "\r";
    assert OneLine(line);
    LineEndOf(line, rest);
    var s := Header(mark, n) + rest;
    assert s == line + "\n" + rest;
    assert s[1..|line| + 1] == Decimal(n) + CRLF;
    NumberStops(Decimal(n), CRLF, 0);
    NumberOfDecimal(n);
  }

  lemma ReadPrintedArg(a: string, rest: string)
    ensures ReadArg(PrintArg(a) + rest) == Done([a], rest)
  {
    var s, data := PrintArg(a) + rest, a + CRLF + rest;
    assert s == Header('$', |a|) + data;
    HeaderRead('$', |a|, data);
    assert data[..|a|] == a && data[|a| + 2..] == rest;
  }

  lemma {:induction false} ReadPrintedArgs(argv: Argv, rest: string)
    ensures ReadArgs(PrintArgs(argv) + rest, |argv|) == Done(argv, rest)
  {
    if argv == [] {
      assert PrintArgs(argv) + rest == rest;
    } else {
      assert PrintArgs(argv) + rest == PrintArg(argv[0]) + (PrintArgs(argv[1..]) + rest);
      ReadPrintedArg(argv[0], PrintArgs(argv[1..]) + rest);
      ReadPrintedArgs(argv[1..], rest);
      assert [argv[0]] + argv[1..] == argv;
    }
  }

  // Reading a printed command gives it back, whatever bytes it holds and what follows.
  lemma ReadPrinted(argv: Argv, rest: string)
    requires argv != []
    ensures Print(argv) != "" && ReadCommand(Print(argv) + rest) == Done(argv, rest)
  {
    var s := Print(argv) + rest;
    assert s == Header('*', |argv|) + (PrintArgs(argv) + rest);
    HeaderRead('*', |argv|, PrintArgs(argv) + rest);
    ReadPrintedArgs(argv, rest);
  }

  // ---------- an unfinished command ----------

  // A proper beginning of a header, read as a line.
  lemma HeaderCut(mark: char, n: nat, t: string)
    requires mark != '\n' && t < Header(mark, n) && t != ""
    ensures t[0] == mark && LineEnd(t) == |t| && t[|t|..] == ""
    ensures |t| > 1 && n > 0 ==> Number(t[1..]) >= 1
  {
    HeaderChars(mark, n);
    CutLine(Header(mark, n), t, n);
  }

  lemma CutLine(h: string, t: string, n: nat)
    requires |h| > 1 && t < h && t != "" && (forall i | 0 <= i < |h| - 1 :: h[i] != '\n')
    requires n > 0 ==> IsDigit(h[1]) && h[1] != '0'
    ensures t[0] == h[0] && LineEnd(t) == |t| && t[|t|..] == ""
    ensures |t| > 1 && n > 0 ==> Number(t[1..]) >= 1
  {
    assert OneLine(t) by {
      assert forall i | 0 <= i < |t| :: t[i] == h[i];
    }
    LineEndOf(t, "");
    if |t| > 1 && n > 0 {
      var u := t[1..];
      assert u[0] == h[1] && DigitValue(u[0]) >= 1;
      NumberGrows(u[1..], DigitValue(u[0]));
    }
  }

  lemma HeaderChars(mark: char, n: nat)
    requires mark != '\n'
    ensures forall i | 0 <= i < |Header(mark, n)| - 1 :: Header(mark, n)[i] != '\n'
    ensures n > 0 ==> IsDigit(Header(mark, n)[1]) && Header(mark, n)[1] != '0'
  {
    DecimalDigits(n);
    var d := Decimal(n);
    assert Header(mark, n) == [mark] + d + "\r" + "\n";
    assert forall i | 0 <= i < |d| :: IsDigit(d[i]);
  }

  // Either the cut falls inside `s`, or `s` is whole and the cut is in what follows.
  lemma CutWhere(t: string, s: string, u: string)
    requires t < s + u
    ensures t < s || (s <= t && t == s + t[|s|..] && t[|s|..] < u)
  {
    if |t| >= |s| {
      assert forall i | 0 <= i < |s| :: t[i] == (s + u)[i] == s[i];
      assert forall i | 0 <= i < |t| - |s| :: t[|s|..][i] == (s + u)[|s| + i] == u[i];
    } else {
      assert forall i | 0 <= i < |t| :: t[i] == (s + u)[i] == s[i];
    }
  }

  lemma ReadCutArg(a: string, t: string)
    requires t < PrintArg(a)
    ensures ReadArg(t) == Eof
  {
    var h := Header('$', |a|);
    assert PrintArg(a) == h + (a + CRLF);
    CutWhere(t, h, a + CRLF);
    if t != "" {
      if t < h {
        HeaderCut('$', |a|, t);
      } else {
        HeaderRead('$', |a|, t[|h|..]);
      }
    }
  }

  lemma {:induction false} ReadCutArgs(argv: Argv, t: string)
    requires t < PrintArgs(argv)
    ensures ReadArgs(t, |argv|) == Eof
  {
    var first := PrintArg(argv[0]);
    CutWhere(t, first, PrintArgs(argv[1..]));
    if t < first {
      ReadCutArg(argv[0], t);
    } else {
      ReadPrintedArg(argv[0], t[|first|..]);
      ReadCutArgs(argv[1..], t[|first|..]);
    }
  }

  // Every proper beginning of a command ends in an unexpected end of file, never in a
  // format error.
  lemma ReadCut(argv: Argv, t: string)
    requires argv != [] && t < Print(argv) && t != ""
    ensures ReadCommand(t) == Eof
  {
    var h := Header('*', |argv|);
    CutWhere(t, h, PrintArgs(argv));
    if t < h {
      HeaderCut('*', |argv|, t);
      if |t| > 1 {
        assert t[1..|t|] == t[1..];
        assert ReadArgs("", Number(t[1..])) == Eof;
      }
    } else {
      HeaderRead('*', |argv|, t[|h|..]);
      ReadCutArgs(argv, t[|h|..]);
    }
  }

  // ---------- loading ----------

  predicate Named(argv: Argv, name: string) {
    argv != [] && |argv[0]| == |name| && forall i | 0 <= i < |name| :: LowerChar(argv[0][i]) == name[i]
  }

  predicate IsMulti(argv: Argv) {
    Named(argv, "multi")
  }

  predicate IsExec(argv: Argv) {
    Named(argv, "exec")
  }

  // applied: commands run so far. queued: those of an open transaction. valid: the end
  // of the last whole command. before: the end of the one before the last MULTI.
  datatype Progress = Progress(applied: seq<Argv>, queued: Option<seq<Argv>>, valid: nat, before: nat)

  const Start := Progress([], None, 0, 0)

  function Ran(x: Progress, argv: Argv, end: nat): Progress {
    var before := if IsMulti(argv) then x.valid else x.before;
    if x.queued.Some? then
      if IsExec(argv) then Progress(x.applied + x.queued.value, None, end, before)
      else Progress(x.applied, Some(x.queued.value + [argv]), end, before)
    else if IsMulti(argv) then Progress(x.applied, Some([]), end, before)
    else if IsExec(argv) then Progress(x.applied, None, end, before)
    else Progress(x.applied + [argv], None, end, before)
  }

  datatype Status = Fine | Truncated | Failed

  datatype Loaded = Loaded(status: Status, applied: seq<Argv>, file: string)

  // uxeof: with aof-load-truncated the file is cut and loaded anyway.
  function Cut(file: string, x: Progress, at: nat, tolerant: bool): Loaded {
    if tolerant && at <= |file| then Loaded(Truncated, x.applied, file[..at]) else Loaded(Failed, x.applied, file)
  }

  function Scan(file: string, rest: string, x: Progress, tolerant: bool): Loaded
    requires |rest| <= |file|
    decreases |rest|
  {
    if rest == "" then
      if x.queued.Some? then Cut(file, x, x.before, tolerant) else Loaded(Fine, x.applied, file)
    else
      var r := ReadCommand(rest);
      ReadCommandShrinks(rest);
      match r
      case Note(more) => Scan(file, more, x, tolerant)
      case Done(argv, more) => Scan(file, more, Ran(x, argv, |file| - |more|), tolerant)
      case Eof => Cut(file, x, x.valid, tolerant)
      case Bad => Loaded(Failed, x.applied, file)
  }

  function Load(file: string, tolerant: bool): Loaded {
    Scan(file, file, Start, tolerant)
  }

  // loadSingleAppendOnlyFile, for a file without an RDB preamble.
  method LoadFile(file: string, tolerant: bool) returns (r: Loaded)
    ensures r == Load(file, tolerant)
  {
    hide ReadCommand, Ran, Cut;
    var rest, x := file, Start;
    while rest != ""
      invariant |rest| <= |file| && Scan(file, rest, x, tolerant) == Load(file, tolerant)
      decreases |rest|
    {
      ReadCommandShrinks(rest);
      match ReadCommand(rest)
      case Note(more) => rest := more;
      case Bad => return Loaded(Failed, x.applied, file);
      case Eof => return Cut(file, x, x.valid, tolerant);
      case Done(argv, more) =>
        x := Ran(x, argv, |file| - |more|);
        rest := more;
    }
    if x.queued.Some? {
      return Cut(file, x, x.before, tolerant);
    }
    r := Loaded(Fine, x.applied, file);
  }

  // ---------- whole and cut files ----------

  function PrintAll(cmds: seq<Argv>): string {
    if cmds == [] then "" else Print(cmds[0]) + PrintAll(cmds[1..])
  }

  function RanAll(x: Progress, cmds: seq<Argv>): Progress
    decreases |cmds|
  {
    if cmds == [] then x else RanAll(Ran(x, cmds[0], x.valid + |Print(cmds[0])|), cmds[1..])
  }

  predicate Commands(cmds: seq<Argv>) {
    forall i | 0 <= i < |cmds| :: cmds[i] != []
  }

  // Whole commands at the front are run one after the other.
  lemma {:induction false} ScanPrinted(file: string, x: Progress, cmds: seq<Argv>, tail: string, tolerant: bool)
    requires Commands(cmds) && |file| == x.valid + |PrintAll(cmds)| + |tail|
    ensures RanAll(x, cmds).valid == x.valid + |PrintAll(cmds)|
    ensures Scan(file, PrintAll(cmds) + tail, x, tolerant) == Scan(file, tail, RanAll(x, cmds), tolerant)
    decreases |cmds|
  {
    hide Print, ReadCommand, Ran, Scan;
    if cmds == [] {
      assert PrintAll(cmds) + tail == tail;
    } else {
      var rest := PrintAll(cmds[1..]) + tail;
      ScanOne(file, x, cmds[0], rest, tolerant);
      var y := Ran(x, cmds[0], x.valid + |Print(cmds[0])|);
      assert PrintAll(cmds) + tail == Print(cmds[0]) + rest;
      RanValid(x, cmds[0], x.valid + |Print(cmds[0])|);
      ScanPrinted(file, y, cmds[1..], tail, tolerant);
    }
  }

  lemma ScanOne(file: string, x: Progress, c: Argv, rest: string, tolerant: bool)
    requires c != [] && |file| == x.valid + |Print(c)| + |rest|
    ensures Scan(file, Print(c) + rest, x, tolerant) == Scan(file, rest, Ran(x, c, x.valid + |Print(c)|), tolerant)
  {
    hide Print, ReadCommand, Ran;
    ReadPrinted(c, rest);
  }

  lemma RanValid(x: Progress, argv: Argv, end: nat)
    ensures Ran(x, argv, end).valid == end
  {
  }

  lemma LoadPrinted(cmds: seq<Argv>, tail: string, tolerant: bool)
    requires Commands(cmds)
    ensures RanAll(Start, cmds).valid == |PrintAll(cmds)|
    ensures Load(PrintAll(cmds) + tail, tolerant) == Scan(PrintAll(cmds) + tail, tail, RanAll(Start, cmds), tolerant)
  {
    ScanPrinted(PrintAll(cmds) + tail, Start, cmds, tail, tolerant);
  }

  // A file of whole commands with no open transaction loads as it is.
  lemma LoadWhole(cmds: seq<Argv>, tolerant: bool)
    requires Commands(cmds) && RanAll(Start, cmds).queued.None?
    ensures Load(PrintAll(cmds), tolerant) == Loaded(Fine, RanAll(Start, cmds).applied, PrintAll(cmds))
  {
    hide PrintAll, RanAll;
    LoadPrinted(cmds, "", tolerant);
    assert PrintAll(cmds) + "" == PrintAll(cmds);
  }

  /**
   * A file that stops inside a command is cut right after the last whole one, wherever
   * in the command it stops.
   */
  lemma LoadCut(cmds: seq<Argv>, c: Argv, t: string)
    requires Commands(cmds) && c != [] && t != "" && t < Print(c)
    ensures Load(PrintAll(cmds) + t, true) == Loaded(Truncated, RanAll(Start, cmds).applied, PrintAll(cmds))
  {
    LoadPrinted(cmds, t, true);
    ReadCut(c, t);
    hide PrintAll, RanAll, ReadCommand;
    assert (PrintAll(cmds) + t)[..|PrintAll(cmds)|] == PrintAll(cmds);
  }

  lemma {:induction false} PrintAllConcat(a: seq<Argv>, b: seq<Argv>)
    ensures PrintAll(a + b) == PrintAll(a) + PrintAll(b)
  {
    hide Print;
    if a == [] {
      assert a + b == b && PrintAll(a) + PrintAll(b) == PrintAll(b);
    } else {
      PrintAllConcat(a[1..], b);
      assert (a + b)[0] == a[0] && (a + b)[1..] == a[1..] + b;
      assert PrintAll(a + b) == Print(a[0]) + (PrintAll(a[1..]) + PrintAll(b));
    }
  }

  lemma {:induction false} RanAllConcat(x: Progress, a: seq<Argv>, b: seq<Argv>)
    ensures RanAll(x, a + b) == RanAll(RanAll(x, a), b)
    decreases |a|
  {
    if a == [] {
      assert a + b == b;
    } else {
      assert (a + b)[1..] == a[1..] + b;
      RanAllConcat(Ran(x, a[0], x.valid + |Print(a[0])|), a[1..], b);
    }
  }

  predicate Plain(cmds: seq<Argv>) {
    forall i | 0 <= i < |cmds| :: !IsMulti(cmds[i]) && !IsExec(cmds[i])
  }

  lemma {:induction false} Queueing(x: Progress, cmds: seq<Argv>)
    requires x.queued.Some? && Plain(cmds)
    ensures
      var r := RanAll(x, cmds);
      r.applied == x.applied && r.before == x.before && r.queued.Some?
    decreases |cmds|
  {
    if cmds != [] {
      Queueing(Ran(x, cmds[0], x.valid + |Print(cmds[0])|), cmds[1..]);
    }
  }

  // The state after an open transaction is the state before it.
  lemma OpenTransaction(pre: seq<Argv>, multi: Argv, queue: seq<Argv>)
    requires Commands(pre) && RanAll(Start, pre).queued.None? && IsMulti(multi) && Plain(queue)
    ensures
      var x, r := RanAll(Start, pre), RanAll(Start, pre + [multi] + queue);
      r.applied == x.applied && r.queued.Some? && r.before == |PrintAll(pre)|
  {
    RanAllConcat(Start, pre + [multi], queue);
    RanAllConcat(Start, pre, [multi]);
    LoadPrinted(pre, "", true);
    var x := RanAll(Start, pre);
    var y := Ran(x, multi, x.valid + |Print(multi)|);
    assert RanAll(x, [multi]) == y by {
      assert [multi][1..] == [];
    }
    MultiIsNotExec(multi);
    Queueing(y, queue);
  }

  lemma MultiIsNotExec(argv: Argv)
    requires IsMulti(argv)
    ensures !IsExec(argv)
  {
  }

  /**
   * A file that ends inside a transaction, between commands, is cut before its MULTI;
   * loading the cut file again changes nothing and gives the same commands.
   */
  lemma LoadOpenTransaction(pre: seq<Argv>, multi: Argv, queue: seq<Argv>)
    requires Commands(pre) && Commands(queue) && RanAll(Start, pre).queued.None? && IsMulti(multi) && Plain(queue)
    ensures
      var r := Load(PrintAll(pre + [multi] + queue), true);
      r == Loaded(Truncated, RanAll(Start, pre).applied, PrintAll(pre))
        && Load(r.file, true) == Loaded(Fine, r.applied, r.file)
  {
    hide IsMulti, IsExec, RanAll, PrintAll;
    var all := pre + [multi] + queue;
    assert Commands(all) by {
      assert multi != [] by {
        MultiNotEmpty(multi);
      }
    }
    OpenTransaction(pre, multi, queue);
    LoadPrinted(all, "", true);
    assert PrintAll(all) + "" == PrintAll(all);
    PrintAllConcat(pre, [multi] + queue);
    assert all == pre + ([multi] + queue);
    assert PrintAll(all)[..|PrintAll(pre)|] == PrintAll(pre);
    LoadWhole(pre, true);
  }

  lemma MultiNotEmpty(argv: Argv)
    requires IsMulti(argv)
    ensures argv != []
  {
  }

  /**
   * Cutting a half-written command is not always enough: the cut file is one that loads
   * cleanly exactly when the half-written command was not inside a transaction.
   */
  lemma CutIsCleanIff(cmds: seq<Argv>, c: Argv, t: string)
    requires Commands(cmds) && c != [] && t != "" && t < Print(c)
    ensures Load(Load(PrintAll(cmds) + t, true).file, true).status == Fine <==> RanAll(Start, cmds).queued.None?
  {
    hide RanAll, PrintAll, Print;
    LoadCut(cmds, c, t);
    LoadPrinted(cmds, "", true);
    assert PrintAll(cmds) + "" == PrintAll(cmds);
  }

  /**
   * And then what the server writes next is lost: a command appended to the cut file is
   * there at the next load exactly when the cut was not inside a transaction.
   */
  lemma AppendedAfterCutIff(cmds: seq<Argv>, c: Argv, t: string, next: Argv)
    requires Commands(cmds) && c != [] && t != "" && t < Print(c) && next != [] && !IsMulti(next) && !IsExec(next)
    ensures
      var cut := Load(PrintAll(cmds) + t, true).file;
      Load(cut + Print(next), true).applied == RanAll(Start, cmds).applied + [next] <==> RanAll(Start, cmds).queued.None?
  {
    hide Print, IsMulti, IsExec;
    LoadCut(cmds, c, t);
    var all := cmds + [next];
    PrintAllConcat(cmds, [next]);
    assert [next][1..] == [] && PrintAll([next]) == Print(next) + "";
    assert Print(next) + "" == Print(next);
    LoadPrinted(all, "", true);
    assert PrintAll(all) + "" == PrintAll(all);
    RanAllConcat(Start, cmds, [next]);
    var x := RanAll(Start, cmds);
    assert RanAll(x, [next]) == Ran(x, next, x.valid + |Print(next)|);
    assert x.applied + [next] != x.applied by {
      assert |x.applied + [next]| != |x.applied|;
    }
  }

  // ---------- transactions ----------

  // What a server writes: a command by itself, or commands between MULTI and EXEC.
  datatype Piece = Single(argv: Argv) | Transaction(multi: Argv, queue: seq<Argv>, exec: Argv)

  predicate Written(p: Piece) {
    match p
    case Single(argv) => argv != [] && Plain([argv])
    case Transaction(multi, queue, exec) => IsMulti(multi) && IsExec(exec) && Plain(queue) && Commands(queue)
  }

  predicate AllWritten(ps: seq<Piece>) {
    forall i | 0 <= i < |ps| :: Written(ps[i])
  }

  // The commands as they stand in the file, and those that are to be run.
  function InFile(ps: seq<Piece>): seq<Argv> {
    if ps == [] then []
    else
      InFile(ps[..|ps| - 1]) +
      match ps[|ps| - 1]
      case Single(argv) => [argv]
      case Transaction(multi, queue, exec) => [multi] + queue + [exec]
  }

  function ToRun(ps: seq<Piece>): seq<Argv> {
    if ps == [] then []
    else
      ToRun(ps[..|ps| - 1]) +
      match ps[|ps| - 1]
      case Single(argv) => [argv]
      case Transaction(_, queue, _) => queue
  }

  // A queue grows by each plain command.
  lemma {:induction false} QueueGrows(x: Progress, queue: seq<Argv>)
    requires x.queued.Some? && Plain(queue)
    ensures var r := RanAll(x, queue); r.applied == x.applied && r.queued == Some(x.queued.value + queue)
    decreases |queue|
  {
    if queue == [] {
      assert x.queued.value + queue == x.queued.value;
    } else {
      var y := Ran(x, queue[0], x.valid + |Print(queue[0])|);
      QueueGrows(y, queue[1..]);
      assert x.queued.value + [queue[0]] + queue[1..] == x.queued.value + queue by {
        assert [queue[0]] + queue[1..] == queue;
      }
    }
  }

  lemma RanOne(x: Progress, c: Argv)
    ensures RanAll(x, [c]) == Ran(x, c, x.valid + |Print(c)|)
  {
    assert [c][1..] == [];
  }

  // A whole transaction is run at its EXEC, in order.
  lemma RanTransaction(x: Progress, multi: Argv, queue: seq<Argv>, exec: Argv)
    requires x.queued.None? && IsMulti(multi) && IsExec(exec) && Plain(queue)
    ensures var r := RanAll(x, [multi] + queue + [exec]); r.queued.None? && r.applied == x.applied + queue
  {
    hide Print, RanAll, IsMulti, IsExec;
    MultiIsNotExec(multi);
    RanAllConcat(x, [multi] + queue, [exec]);
    RanAllConcat(x, [multi], queue);
    RanOne(x, multi);
    var y := RanAll(x, [multi]);
    assert y.queued == Some([]) && y.applied == x.applied;
    QueueGrows(y, queue);
    assert [] + queue == queue;
    RanOne(RanAll(y, queue), exec);
  }

  lemma {:induction false} RanPieces(ps: seq<Piece>)
    requires AllWritten(ps)
    ensures var r := RanAll(Start, InFile(ps)); r.queued.None? && r.applied == ToRun(ps)
    ensures Commands(InFile(ps))
  {
    hide Print, IsMulti, IsExec, Ran;
    if ps != [] {
      var n := |ps| - 1;
      RanPieces(ps[..n]);
      var x := RanAll(Start, InFile(ps[..n]));
      match ps[n] {
        case Single(argv) =>
          RanAllConcat(Start, InFile(ps[..n]), [argv]);
          RanOne(x, argv);
          RanPlain(x, argv);
        case Transaction(multi, queue, exec) =>
          MultiNotEmpty(multi);
          ExecNotEmpty(exec);
          RanAllConcat(Start, InFile(ps[..n]), [multi] + queue + [exec]);
          RanTransaction(x, multi, queue, exec);
      }
    }
  }

  lemma RanPlain(x: Progress, argv: Argv)
    requires x.queued.None? && Plain([argv])
    ensures var r := Ran(x, argv, x.valid + |Print(argv)|); r.queued.None? && r.applied == x.applied + [argv]
  {
    assert [argv][0] == argv;
  }

  // A list of commands without MULTI and EXEC.
  function Bare(cmds: seq<Argv>): seq<Argv> {
    if cmds == [] then []
    else Bare(cmds[..|cmds| - 1]) + if IsMulti(cmds[|cmds| - 1]) || IsExec(cmds[|cmds| - 1]) then [] else [cmds[|cmds| - 1]]
  }

  lemma {:induction false} BareConcat(a: seq<Argv>, b: seq<Argv>)
    ensures Bare(a + b) == Bare(a) + Bare(b)
  {
    hide IsMulti, IsExec;
    if b == [] {
      assert a + b == a;
    } else {
      BareConcat(a, b[..|b| - 1]);
      assert (a + b)[..|a + b| - 1] == a + b[..|b| - 1];
    }
  }

  lemma {:induction false} BarePlain(cmds: seq<Argv>)
    requires Plain(cmds)
    ensures Bare(cmds) == cmds
  {
    hide IsMulti, IsExec;
    if cmds != [] {
      BarePlain(cmds[..|cmds| - 1]);
    }
  }

  lemma BareOne(c: Argv)
    ensures Bare([c]) == if IsMulti(c) || IsExec(c) then [] else [c]
  {
    assert [c][..0] == [];
  }

  lemma BareTransaction(multi: Argv, queue: seq<Argv>, exec: Argv)
    requires IsMulti(multi) && IsExec(exec) && Plain(queue)
    ensures Bare([multi] + queue + [exec]) == queue
  {
    hide IsMulti, IsExec, Bare;
    BareConcat([multi] + queue, [exec]);
    BareConcat([multi], queue);
    BarePlain(queue);
    BareOne(multi);
    BareOne(exec);
    assert [] + queue + [] == queue;
  }

  lemma {:induction false} BareFile(ps: seq<Piece>)
    requires AllWritten(ps)
    ensures Bare(InFile(ps)) == ToRun(ps)
  {
    hide IsMulti, IsExec, Bare;
    if ps == [] {
      BarePlain([]);
    } else {
      var n := |ps| - 1;
      BareFile(ps[..n]);
      match ps[n] {
        case Single(argv) =>
          BareConcat(InFile(ps[..n]), [argv]);
          BarePlain([argv]);
        case Transaction(multi, queue, exec) =>
          BareConcat(InFile(ps[..n]), [multi] + queue + [exec]);
          BareTransaction(multi, queue, exec);
      }
    }
  }

  // An annotation line is skipped.
  lemma NoteSkipped(note: string, rest: string)
    requires OneLine(note)
    ensures ReadCommand("#" + note + "\n" + rest) == Note(rest)
  {
    var line := "#" + note;
    assert OneLine(line);
    LineEndOf(line, rest);
    assert (line + "\n" + rest)[0] == '#' && (line + "\n" + rest)[|line| + 1..] == rest;
  }

  lemma ExecNotEmpty(argv: Argv)
    requires IsExec(argv)
    ensures argv != []
  {
  }

  /**
   * A file of single commands and closed transactions loads whole, and what is run is every
   * command in it but MULTI and EXEC, in order.
   */
  lemma LoadTransactions(ps: seq<Piece>, tolerant: bool)
    requires AllWritten(ps)
    ensures Load(PrintAll(InFile(ps)), tolerant) == Loaded(Fine, ToRun(ps), PrintAll(InFile(ps)))
    ensures ToRun(ps) == Bare(InFile(ps))
  {
    BareFile(ps);
    RanPieces(ps);
    LoadWhole(InFile(ps), tolerant);
  }

  // The two words are told by their letters in any case, and are nothing but one word.
  lemma MultiAndExec(argv: Argv)
    ensures IsMulti(["MULTI"]) && IsMulti(["multi"]) && IsExec(["EXEC"]) && IsExec(["Exec"])
    ensures !IsMulti(["EXEC"]) && !IsExec(["MULTI"]) && !IsMulti(["SET"]) && !IsExec(["SET"]) && !IsMulti([]) && !IsExec([])
    ensures IsMulti(argv) <==> argv != [] && Lower(argv[0]) == "multi"
    ensures IsExec(argv) <==> argv != [] && Lower(argv[0]) == "exec"
  {
    assert Lower("MULTI") == "multi" && Lower("EXEC") == "exec" && Lower("Exec") == "exec" && Lower("SET") == "set";
    assert Lower("multi") == "multi";
  }

  /**
   * What makes a load fail, with the file left alone: bytes that start no command and no
   * annotation, whatever the option, and a command cut short without aof-load-truncated.
   */
  lemma LoadRefused(cmds: seq<Argv>, tail: string, c: Argv, t: string, tolerant: bool)
    requires Commands(cmds) && tail != "" && tail[0] !in {'*', '#'}
    requires c != [] && t != "" && t < Print(c)
    ensures
      var garbage, short := Load(PrintAll(cmds) + tail, tolerant), Load(PrintAll(cmds) + t, false);
      && garbage.status == Failed && garbage.file == PrintAll(cmds) + tail
      && short.status == Failed && short.file == PrintAll(cmds) + t
  {
    LoadPrinted(cmds, tail, tolerant);
    LoadPrinted(cmds, t, false);
    ReadCut(c, t);
    hide PrintAll, RanAll;
  }

  // The bytes of a command in the file.
  lemma BytesOfGet()
    ensures Print(["GET", "k"]) == "*2\r\n$3\r\nGET\r\n$1\r\nk\r\n" && Decimal(120) == "120"
  {
    assert Decimal(12) == "12";
    Digits();
    var key := ["k"];
    assert ["GET", "k"][1..] == key && key[1..] == [];
    hide Decimal;
    assert PrintArg("GET") == "$3\r\nGET\r\n" && PrintArgs(key) == "$1\r\nk\r\n";
    assert Print(["GET", "k"]) == Header('*', 2) + ("$3\r\nGET\r\n" + "$1\r\nk\r\n");
  }

  lemma Digits()
    ensures Decimal(1) == "1" && Decimal(2) == "2" && Decimal(3) == "3"
  {
  }
}
