/**
 * Slot ranges as text, "1000-2000 3000-4000": printing, and parsing through 64-bit
 * numbers into 16-bit fields.
 */
module SlotText {
  import opened Prelude
  import opened SlotRanges
  import AclText
  import AofStream

  const LLONG_MAX := 0x7fff_ffff_ffff_ffff
  const USHORT := 65536

  // ---------- printing ----------

  function PrintRange(r: Range): string {
    AofStream.Decimal(r.start) + "-" + AofStream.Decimal(r.end)
  }

  function Printed(s: seq<Range>): seq<string> {
    seq(|s|, i requires 0 <= i < |s| => PrintRange(s[i]))
  }

  // slotRangeArrayToString: each range with a space, the last space taken off.
  method ToString(s: seq<Range>) returns (r: string)
    ensures r == AclText.Join(Printed(s))
  {
    hide Printed, PrintRange, AclText.Join, AclText.Lead;
    r := "";
    PrintedStart(s);
    if s == [] {
      return;
    }
    var i := 0;
    while i < |s|
      invariant 0 <= i <= |s| && r == AclText.Lead(Printed(s[..i]))
    {
      PrintedMore(s, i);
      r := r + (PrintRange(s[i]) + " ");
      i := i + 1;
    }
    assert s[..i] == s;
    PrintedMore(s, i - 1);
    r := r[..|r| - 1];
  }

  lemma PrintedStart(s: seq<Range>)
    ensures AclText.Lead(Printed(s[..0])) == "" && (s == [] ==> AclText.Join(Printed(s)) == "")
  {
    assert s[..0] == [];
  }

  lemma PrintedMore(s: seq<Range>, i: nat)
    requires i < |s|
    ensures AclText.Lead(Printed(s[..i + 1])) == AclText.Lead(Printed(s[..i])) + (PrintRange(s[i]) + " ")
    ensures AclText.Lead(Printed(s[..i + 1])) == AclText.Join(Printed(s[..i + 1])) + " "
  {
    assert Printed(s[..i + 1]) == Printed(s[..i]) + [PrintRange(s[i])];
    AclText.LeadMore(Printed(s[..i]), PrintRange(s[i]));
  }

  // ---------- parsing ----------

  // sdssplitlen on single spaces.
  function Pieces(s: string): seq<string>
    decreases |s|
  {
    var e := AclText.SpaceAt(s, 0);
    if e == |s| then [s] else [s[..e]] + Pieces(s[e + 1..])
  }

  // string2ll: digits without a leading zero, or a sign before such digits.
  function Digits(s: string): Option<nat> {
    if s == "" || s[0] == '0' || !AofStream.IsDigits(s) || AofStream.Number(s) > LLONG_MAX then None
    else Some(AofStream.Number(s))
  }

  function Long(s: string): Option<int> {
    if s == "0" then Some(0)
    else if s != "" && s[0] == '-' then
      var d := Digits(s[1..]);
      if d.None? then None else Some(0 - d.value)
    else
      var d := Digits(s);
      if d.None? then None else Some(d.value)
  }

  // The first dash, as strchr finds it.
  function Dash(s: string): (e: nat)
    ensures e <= |s| && (e < |s| ==> s[e] == '-') && forall i | 0 <= i < e :: s[i] != '-'
  {
    if s == "" || s[0] == '-' then 0
    else
      var e := Dash(s[1..]);
      assert forall i | 1 <= i < 1 + e :: s[i] == s[1..][i - 1];
      1 + e
  }

  // A number stored in an unsigned short.
  function Short(n: int): nat {
    n % USHORT
  }

  function ParsePiece(p: string): Option<Range> {
    var d := Dash(p);
    if d == |p| then None
    else
      var a, b := Long(p[..d]), Long(p[d + 1..]);
      if a.None? || b.None? then None else Some(Range(Short(a.value), Short(b.value)))
  }

  function ParsePieces(ps: seq<string>): Option<seq<Range>> {
    if ps == [] then Some([])
    else
      var r, more := ParsePiece(ps[0]), ParsePieces(ps[1..]);
      if r.None? || more.None? then None else Some([r.value] + more.value)
  }

  // The ranges slotRangeArrayFromString reads, before it normalizes them.
  function Parse(s: string): Option<seq<Range>> {
    if s == "" then None else ParsePieces(Pieces(s))
  }

  // ---------- round trip ----------

  lemma LongOfDecimal(n: nat)
    requires n <= LLONG_MAX
    ensures Long(AofStream.Decimal(n)) == Some(n)
  {
    var s := AofStream.Decimal(n);
    AofStream.DecimalDigits(n);
    AofStream.NumberOfDecimal(n);
    assert AofStream.IsDigit(s[0]);
    if n == 0 {
      assert s == "0";
    } else {
      assert s[0] != '0';
    }
  }

  lemma DashOfRange(a: string, b: string)
    requires forall i | 0 <= i < |a| :: a[i] != '-'
    ensures
      var s := a + "-" + b;
      Dash(s) == |a| && s[..|a|] == a && s[|a| + 1..] == b
  {
    var s := a + "-" + b;
    assert s[|a|] == '-' && forall i | 0 <= i < |a| :: s[i] == a[i];
  }

  /**
   * A printed range is read back with both numbers cut to sixteen bits, so it comes back
   * as itself exactly when both were below 65536.
   */
  lemma PieceIff(r: Range)
    requires r.start <= LLONG_MAX && r.end <= LLONG_MAX
    ensures ParsePiece(PrintRange(r)) == Some(Range(r.start % USHORT, r.end % USHORT))
    ensures ParsePiece(PrintRange(r)) == Some(r) <==> r.start < USHORT && r.end < USHORT
  {
    var a, b := AofStream.Decimal(r.start), AofStream.Decimal(r.end);
    AofStream.DecimalDigits(r.start);
    assert forall i | 0 <= i < |a| :: AofStream.IsDigit(a[i]);
    DashOfRange(a, b);
    LongOfDecimal(r.start);
    LongOfDecimal(r.end);
  }

  predicate Spaceless(s: string) {
    forall i | 0 <= i < |s| :: s[i] != ' '
  }

  lemma PrintedSpaceless(r: Range)
    ensures Spaceless(PrintRange(r)) && PrintRange(r) != ""
  {
    AofStream.DecimalDigits(r.start);
    AofStream.DecimalDigits(r.end);
    var a, b := AofStream.Decimal(r.start), AofStream.Decimal(r.end);
    assert forall i | 0 <= i < |a| :: AofStream.IsDigit(a[i]);
    assert forall i | 0 <= i < |b| :: AofStream.IsDigit(b[i]);
  }

  lemma PieceFirst(t: string, rest: string)
    requires Spaceless(t)
    ensures Pieces(t) == [t] && Pieces(t + " " + rest) == [t] + Pieces(rest)
  {
    var s := t + " " + rest;
    assert s[|t|] == ' ' && forall i | 0 <= i < |t| :: s[i] == t[i];
    assert AclText.SpaceAt(s, 0) == |t|;
    assert s[..|t|] == t && s[|t| + 1..] == rest;
  }

  lemma {:induction false} PiecesOfJoin(ts: seq<string>)
    requires ts != [] && forall i | 0 <= i < |ts| :: Spaceless(ts[i])
    ensures Pieces(AclText.Join(ts)) == ts
  {
    if |ts| == 1 {
      PieceFirst(ts[0], "");
    } else {
      PieceFirst(ts[0], AclText.Join(ts[1..]));
      PiecesOfJoin(ts[1..]);
      assert ts == [ts[0]] + ts[1..];
    }
  }

  lemma {:induction false} ParsePrinted(s: seq<Range>)
    requires InBounds(s)
    ensures ParsePieces(Printed(s)) == Some(s)
  {
    hide PrintRange, ParsePiece;
    if s != [] {
      ParsePrinted(s[1..]);
      PieceIff(s[0]);
      PrintedRest(s);
      assert s == [s[0]] + s[1..];
    }
  }

  lemma PrintedRest(s: seq<Range>)
    requires s != []
    ensures |Printed(s)| == |s| && Printed(s)[0] == PrintRange(s[0]) && Printed(s)[1..] == Printed(s[1..])
  {
    hide PrintRange;
  }

  // Normalizing leaves a canonical array alone.
  lemma CanonicalStays(s: seq<Range>, t: seq<Range>)
    requires Canonical(s) && SortOf(s, t)
    ensures Merge(t) == s && Disjoint(s)
  {
    forall x: nat
      ensures Count(s, x) <= 1
    {
      CanonicalOnce(s, x);
    }
    SortMerge(s, t);
    CanonicalUnique(Merge(t), s);
  }

  /**
   * Printing a non-empty canonical array and parsing the text gives the same array,
   * through sorting, merging and validation.
   */
  lemma RoundTrip(s: seq<Range>, t: seq<Range>)
    requires s != [] && Canonical(s) && InBounds(s) && SortOf(s, t)
    ensures Parse(AclText.Join(Printed(s))) == Some(s)
    ensures Merge(t) == s && Accepts(|s|, Merge(t))
  {
    var ts := Printed(s);
    forall i | 0 <= i < |ts|
      ensures Spaceless(ts[i]) && ts[i] != ""
    {
      PrintedSpaceless(s[i]);
    }
    PiecesOfJoin(ts);
    ParsePrinted(s);
    CanonicalStays(s, t);
    CanonicalIsShort(s);
    assert AclText.Join(ts) != "" by {
      assert |ts| == 1 ==> AclText.Join(ts) == ts[0];
      assert |ts| > 1 ==> AclText.Join(ts) == ts[0] + " " + AclText.Join(ts[1..]);
    }
  }
}
