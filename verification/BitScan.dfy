/**
 * BITCOUNT and BITPOS over a range of bytes or bits, against counting and searching bit
 * by bit. The bits of a string are numbered from the most significant of its first byte.
 */
module BitScan {
  import opened Bitfield
  import opened BitCount
  import BitOp
  import BitWord

  // ---------- counting ----------

  function Total(s: seq<Byte>): nat {
    if s == [] then 0 else Total(s[..|s| - 1]) + Ones(s[|s| - 1])
  }

  lemma {:induction false} TotalConcat(s: seq<Byte>, t: seq<Byte>)
    ensures Total(s + t) == Total(s) + Total(t)
  {
    hide Ones;
    if t == [] {
      assert s + t == s;
    } else {
      TotalConcat(s, t[..|t| - 1]);
      assert (s + t)[..|s + t| - 1] == s + t[..|t| - 1];
    }
  }

  lemma TotalFour(s: seq<Byte>, i: nat)
    requires i + 4 <= |s|
    ensures Total(s[i..i + 4]) == Ones(s[i]) + Ones(s[i + 1]) + Ones(s[i + 2]) + Ones(s[i + 3])
  {
    hide Ones, Total;
    TotalMiddle(s, i, i + 3, i + 4);
    TotalMiddle(s, i, i + 2, i + 3);
    TotalMiddle(s, i, i + 1, i + 2);
    TotalOne(s, i);
    TotalOne(s, i + 1);
    TotalOne(s, i + 2);
    TotalOne(s, i + 3);
  }

  // A 32-bit word of the string.
  function LoadWord(s: seq<Byte>, i: nat): nat
    requires i + 4 <= |s|
  {
    Word(Num(s[i]), Num(s[i + 1]), Num(s[i + 2]), Num(s[i + 3]))
  }

  // Four sums side by side, none of them near overflowing a byte.
  datatype Sums4 = Sums4(a: nat, b: nat, c: nat, d: nat)

  function WordOf(t: Sums4): nat {
    Word(t.a, t.b, t.c, t.d)
  }

  ghost predicate AtMost(t: Sums4, n: nat) {
    t.a <= n && t.b <= n && t.c <= n && t.d <= n
  }

  function AddCount(acc: nat, w: nat): nat {
    (acc + Counted(w)) % W32
  }

  lemma SumsStart()
    ensures AtMost(Sums4(0, 0, 0, 0), 0) && WordOf(Sums4(0, 0, 0, 0)) == 0
  {
  }

  lemma SumsEnd(t: Sums4)
    requires AtMost(t, 56)
    ensures AddBytes(WordOf(t)) == t.a + t.b + t.c + t.d
  {
    hide AddBytes, Word;
    AddBytesPacked(t.a, t.b, t.c, t.d);
  }

  lemma OnesSmall(b: Byte)
    ensures Ones(b) <= 8
  {
  }

  // One more word added to the running sums.
  lemma AddWord(s: seq<Byte>, i: nat, t: Sums4, n: nat) returns (u: Sums4)
    requires i + 4 <= |s| && AtMost(t, n) && n <= 48
    ensures AtMost(u, n + 8) && WordOf(u) == AddCount(WordOf(t), LoadWord(s, i))
    ensures u.a + u.b + u.c + u.d == t.a + t.b + t.c + t.d + Total(s[i..i + 4])
  {
    hide Ones, Num, Counted, OnesOf, Total;
    var a, b, c, d := s[i], s[i + 1], s[i + 2], s[i + 3];
    OnesOfNum(a);
    OnesOfNum(b);
    OnesOfNum(c);
    OnesOfNum(d);
    OnesSmall(a);
    OnesSmall(b);
    OnesSmall(c);
    OnesSmall(d);
    CountedPacked(Num(a), Num(b), Num(c), Num(d));
    TotalFour(s, i);
    u := Sums4(t.a + Ones(a), t.b + Ones(b), t.c + Ones(c), t.d + Ones(d));
    Fits(u.a, u.b, u.c, u.d);
  }

  /**
   * redisPopcount without the POPCNT instruction: bytes up to an alignment that the
   * address decides, seven words at a time, then the rest.
   */
  method Popcount(s: seq<Byte>, unaligned: nat) returns (bits: nat)
    ensures bits == Total(s)
  {
    hide Ones, Counted, AddBytes, LoadWord, Total;
    bits := 0;
    var i := 0;
    TotalStart(s);
    while i < |s| && i < unaligned
      invariant 0 <= i <= |s| && bits == Total(s[..i])
    {
      TotalNext(s, i, 1);
      TotalOne(s, i);
      bits := bits + Ones(s[i]);
      i := i + 1;
    }
    while |s| - i >= 28
      invariant 0 <= i <= |s| && bits == Total(s[..i])
    {
      var n := Seven(s, i);
      TotalNext(s, i, 28);
      bits := bits + n;
      i := i + 28;
    }
    while i < |s|
      invariant 0 <= i <= |s| && bits == Total(s[..i])
    {
      TotalNext(s, i, 1);
      TotalOne(s, i);
      bits := bits + Ones(s[i]);
      i := i + 1;
    }
    assert s[..i] == s;
  }

  // Seven words: the byte sums stay below 57 and their sum below 225.
  method Seven(s: seq<Byte>, i: nat) returns (n: nat)
    requires i + 28 <= |s|
    ensures n == Total(s[i..i + 28])
  {
    hide AddBytes, LoadWord, Total, AddCount, AtMost, WordOf;
    var acc, j := 0, 0;
    ghost var t := Sums4(0, 0, 0, 0);
    TotalNone(s, i);
    SumsStart();
    while j < 7
      invariant 0 <= j <= 7
      invariant AtMost(t, 8 * j) && acc == WordOf(t) && t.a + t.b + t.c + t.d == Total(s[i..i + 4 * j])
    {
      t := AddWord(s, i + 4 * j, t, 8 * j);
      TotalMiddle(s, i, i + 4 * j, i + 4 * j + 4);
      acc := AddCount(acc, LoadWord(s, i + 4 * j));
      j := j + 1;
    }
    SumsEnd(t);
    n := AddBytes(acc);
  }

  lemma TotalStart(s: seq<Byte>)
    ensures Total(s[..0]) == 0
  {
  }

  lemma TotalNone(s: seq<Byte>, i: nat)
    requires i <= |s|
    ensures Total(s[i..i]) == 0
  {
  }

  lemma TotalOne(s: seq<Byte>, i: nat)
    requires i < |s|
    ensures Total(s[i..i + 1]) == Ones(s[i])
  {
    hide Ones;
    assert s[i..i + 1] == [s[i]] && [s[i]][..0] == [];
  }

  lemma TotalNext(s: seq<Byte>, i: nat, n: nat)
    requires i + n <= |s|
    ensures Total(s[..i + n]) == Total(s[..i]) + Total(s[i..i + n])
  {
    TotalConcat(s[..i], s[i..i + n]);
    assert s[..i + n] == s[..i] + s[i..i + n];
  }

  lemma TotalMiddle(s: seq<Byte>, i: nat, j: nat, k: nat)
    requires i <= j <= k <= |s|
    ensures Total(s[i..k]) == Total(s[i..j]) + Total(s[j..k])
  {
    TotalConcat(s[i..j], s[j..k]);
    assert s[i..k] == s[i..j] + s[j..k];
  }

  // ---------- set bits in a range ----------

  // Set bits among the `n` from position `lo` on.
  function SetBits(s: seq<Byte>, lo: nat, n: nat): nat {
    if n == 0 then 0 else SetBits(s, lo, n - 1) + if BitAt(s, lo + n - 1) then 1 else 0
  }

  lemma {:induction false} SetBitsAdd(s: seq<Byte>, lo: nat, n: nat, m: nat)
    ensures SetBits(s, lo, n + m) == SetBits(s, lo, n) + SetBits(s, lo + n, m)
  {
    hide BitAt;
    if m > 0 {
      SetBitsAdd(s, lo, n, m - 1);
    }
  }

  lemma BitInByte(s: seq<Byte>, i: nat, k: nat)
    requires i < |s| && k < 8
    ensures BitAt(s, 8 * i + k) == BitOf(s[i], 7 - k)
  {
    hide BitOf;
    assert (8 * i + k) / 8 == i && (8 * i + k) % 8 == k;
  }

  // The first `r` bits of a byte.
  function Lead(b: Byte, r: nat): nat
    requires r <= 8
  {
    if r == 0 then 0 else Lead(b, r - 1) + if BitOf(b, 8 - r) then 1 else 0
  }

  lemma {:induction false} SetBitsLead(s: seq<Byte>, i: nat, r: nat)
    requires i < |s| && r <= 8
    ensures SetBits(s, 8 * i, r) == Lead(s[i], r)
  {
    hide BitAt, BitOf;
    if r > 0 {
      SetBitsLead(s, i, r - 1);
      BitInByte(s, i, r - 1);
    }
  }

  lemma LeadAll(b: Byte)
    ensures Lead(b, 8) == Ones(b)
  {
    hide BitOf, Bit;
    BitIs(b);
    assert Lead(b, 1) == Bit(b, 128);
    assert Lead(b, 2) == Lead(b, 1) + Bit(b, 64);
    assert Lead(b, 3) == Lead(b, 2) + Bit(b, 32);
    assert Lead(b, 4) == Lead(b, 3) + Bit(b, 16);
    assert Lead(b, 5) == Lead(b, 4) + Bit(b, 8);
    assert Lead(b, 6) == Lead(b, 5) + Bit(b, 4);
    assert Lead(b, 7) == Lead(b, 6) + Bit(b, 2);
    assert Lead(b, 8) == Lead(b, 7) + Bit(b, 1);
  }

  function One(x: bool): nat {
    if x then 1 else 0
  }

  lemma BitIs(b: Byte)
    ensures Bit(b, 1) == One(BitOf(b, 0)) && Bit(b, 2) == One(BitOf(b, 1)) && Bit(b, 4) == One(BitOf(b, 2))
    ensures Bit(b, 8) == One(BitOf(b, 3)) && Bit(b, 16) == One(BitOf(b, 4)) && Bit(b, 32) == One(BitOf(b, 5))
    ensures Bit(b, 64) == One(BitOf(b, 6)) && Bit(b, 128) == One(BitOf(b, 7))
  {
  }

  lemma {:induction false} SetBitsBytes(s: seq<Byte>, a: nat, m: nat)
    requires a + m <= |s|
    ensures SetBits(s, 8 * a, 8 * m) == Total(s[a..a + m])
  {
    hide Ones, SetBits, Lead;
    if m == 0 {
      SetBitsNone(s, 8 * a);
    } else {
      SetBitsBytes(s, a, m - 1);
      SetBitsAdd(s, 8 * a, 8 * (m - 1), 8);
      SetBitsLead(s, a + m - 1, 8);
      LeadAll(s[a + m - 1]);
      assert s[a..a + m][..m - 1] == s[a..a + m - 1];
    }
  }

  lemma SetBitsNone(s: seq<Byte>, lo: nat)
    ensures SetBits(s, lo, 0) == 0
  {
  }

  // The masks for the bits before and after the range in its first and last byte.
  function Before(r: nat): Byte {
    match r
    case 0 => 0
    case 1 => 0x80
    case 2 => 0xc0
    case 3 => 0xe0
    case 4 => 0xf0
    case 5 => 0xf8
    case 6 => 0xfc
    case _ => 0xfe
  }

  function Behind(q: nat): Byte {
    match q
    case 0 => 0
    case 1 => 0x01
    case 2 => 0x03
    case 3 => 0x07
    case 4 => 0x0f
    case 5 => 0x1f
    case 6 => 0x3f
    case _ => 0x7f
  }

  lemma MaskBits(r: nat, k: nat)
    requires r < 8 && k < 8
    ensures BitOf(Before(r), 7 - k) == (k < r)
    ensures BitOf(Behind(r), 7 - k) == (k >= 8 - r)
  {
  }

  lemma {:induction false} LeadBefore(b: Byte, r: nat, n: nat)
    requires r < 8 && n <= 8
    ensures Lead(BitOp.Both(b, Before(r)), n) == Lead(b, if n < r then n else r)
  {
    hide BitOf, BitOp.Both, Before;
    if n > 0 {
      LeadBefore(b, r, n - 1);
      BitOp.BitOps(b, Before(r), 8 - n);
      MaskBits(r, n - 1);
    }
  }

  lemma {:induction false} LeadBehind(b: Byte, q: nat, n: nat)
    requires q < 8 && n <= 8
    ensures Lead(BitOp.Both(b, Behind(q)), n) + Lead(b, if n < 8 - q then n else 8 - q) == Lead(b, n)
  {
    hide BitOf, BitOp.Both, Behind;
    if n > 0 {
      LeadBehind(b, q, n - 1);
      BitOp.BitOps(b, Behind(q), 8 - n);
      MaskBits(q, n - 1);
    }
  }

  // Negative indexes count from the end; the range is cut to the string.
  function Lo(start: int, total: nat): nat {
    if start >= 0 then start else if total + start < 0 then 0 else total + start
  }

  function Hi(end: int, total: nat): int {
    var e := Lo(end, total);
    if e >= total then total - 1 else e
  }

  // Both negative and the wrong way round: empty even where both fall before the start.
  predicate Backwards(start: int, end: int) {
    start < 0 && end < 0 && start > end
  }

  // The bits before and behind the range, in its first and last byte.
  lemma EdgeBits(s: seq<Byte>, lo: nat, hi: nat)
    requires lo <= hi < 8 * |s|
    ensures
      var a, b, r, q := lo / 8, hi / 8, lo % 8, 7 - hi % 8;
      SetBits(s, lo, hi - lo + 1) + Ones(BitOp.Both(s[a], Before(r))) + Ones(BitOp.Both(s[b], Behind(q))) == Total(s[a..b + 1])
  {
    hide SetBits, Lead, Ones, BitOp.Both, Before, Behind, Total;
    var a, b, r, q := lo / 8, hi / 8, lo % 8, 7 - hi % 8;
    var x, y := BitOp.Both(s[a], Before(r)), BitOp.Both(s[b], Behind(q));
    SetBitsBytes(s, a, b + 1 - a);
    SetBitsAdd(s, 8 * a, r, hi - lo + 1);
    SetBitsAdd(s, 8 * a, r + (hi - lo + 1), q);
    LeadAll(x);
    LeadBefore(s[a], r, 8);
    SetBitsLead(s, a, r);
    LeadAll(y);
    LeadBehind(s[b], q, 8);
    SetBitsLead(s, b, 8);
    SetBitsLead(s, b, 8 - q);
    SetBitsAdd(s, 8 * b, 8 - q, q);
  }

  /**
   * The bits a client asks for, between two positions of bytes or bits: a negative one
   * counts from the end. An end before the string still takes in its first byte or bit.
   */
  ghost predicate Asked(s: seq<Byte>, start: int, end: int, isBit: bool, p: nat) {
    var total, q := if isBit then 8 * |s| else |s|, if isBit then p else p / 8;
    && p < 8 * |s|
    && (if start >= 0 then start <= q else total + start <= q)
    && (if end >= 0 then q <= end else q <= total + end || q == 0)
  }

  lemma AskedIff(s: seq<Byte>, start: int, end: int, isBit: bool, p: nat)
    ensures
      var unit, total := if isBit then 1 else 8, if isBit then 8 * |s| else |s|;
      Asked(s, start, end, isBit, p) <==> unit * Lo(start, total) <= p < unit * (Hi(end, total) + 1)
  {
  }

  lemma {:induction false} SetBitsCard(s: seq<Byte>, lo: nat, n: nat)
    ensures SetBits(s, lo, n) == |set p: nat | lo <= p < lo + n && BitAt(s, p)|
  {
    hide BitAt;
    var all := set p: nat | lo <= p < lo + n && BitAt(s, p);
    if n == 0 {
      assert all == {};
    } else {
      SetBitsCard(s, lo, n - 1);
      var less := set p: nat | lo <= p < lo + (n - 1) && BitAt(s, p);
      assert all == if BitAt(s, lo + n - 1) then less + {lo + n - 1} else less;
    }
  }

  // The range counted holds exactly the bits asked for.
  lemma CountsAsked(s: seq<Byte>, start: int, end: int, isBit: bool)
    ensures
      var unit, total := if isBit then 1 else 8, if isBit then 8 * |s| else |s|;
      var lo, hi := Lo(start, total), Hi(end, total);
      (if lo > hi then 0 else SetBits(s, unit * lo, unit * (hi - lo + 1)))
        == |set p: nat | p < 8 * |s| && Asked(s, start, end, isBit, p) && BitAt(s, p)|
  {
    hide BitAt, Asked, SetBits;
    var unit, total := if isBit then 1 else 8, if isBit then 8 * |s| else |s|;
    var lo, hi := Lo(start, total), Hi(end, total);
    var all := set p: nat | p < 8 * |s| && Asked(s, start, end, isBit, p) && BitAt(s, p);
    forall p: nat
      ensures Asked(s, start, end, isBit, p) <==> unit * lo <= p < unit * (hi + 1)
    {
      AskedIff(s, start, end, isBit, p);
    }
    if lo > hi {
      assert all == {};
    } else {
      SetBitsCard(s, unit * lo, unit * (hi - lo + 1));
      assert all == set p: nat | unit * lo <= p < unit * lo + unit * (hi - lo + 1) && BitAt(s, p);
    }
  }

  /**
   * BITCOUNT with a range in bytes or bits: the number of set bits in it, counted in
   * whole bytes less what the edge masks pick out.
   */
  method CountRange(s: seq<Byte>, start: int, end: int, isBit: bool) returns (n: int)
    ensures
      var unit := if isBit then 1 else 8;
      var total := if isBit then 8 * |s| else |s|;
      n == if Backwards(start, end) || Lo(start, total) > Hi(end, total) then 0
           else SetBits(s, unit * Lo(start, total), unit * (Hi(end, total) - Lo(start, total) + 1))
    ensures n == if start < 0 && end < 0 && start > end then 0 else |set p: nat | p < 8 * |s| && Asked(s, start, end, isBit, p) && BitAt(s, p)|
  {
    CountsAsked(s, start, end, isBit);
    hide Asked, BitAt;
    hide SetBits, Ones, BitOp.Both, Before, Behind, Total;
    if start < 0 && end < 0 && start > end {
      return 0;
    }
    var total := if isBit then 8 * |s| else |s|;
    var lo, hi := start, end;
    if lo < 0 {
      lo := total + lo;
    }
    if hi < 0 {
      hi := total + hi;
    }
    if lo < 0 {
      lo := 0;
    }
    if hi < 0 {
      hi := 0;
    }
    if hi >= total {
      hi := total - 1;
    }
    if lo > hi {
      return 0;
    }
    if !isBit {
      var c := Popcount(s[lo..hi + 1], 0);
      SetBitsBytes(s, lo, hi + 1 - lo);
      return c;
    }
    var first, last := Before(lo % 8), Behind(7 - hi % 8);
    var a, b := lo / 8, hi / 8;
    n := Popcount(s[a..b + 1], 0);
    EdgeBits(s, lo, hi);
    NoMask(s[a], s[b]);
    if first != 0 || last != 0 {
      var x := if first != 0 then BitOp.Both(s[a], first) else 0;
      var y := if last != 0 then BitOp.Both(s[b], last) else 0;
      var extra := Popcount([x, y], 0);
      TotalTwo(x, y);
      n := n - extra;
    }
  }

  lemma NoMask(a: Byte, b: Byte)
    ensures Ones(BitOp.Both(a, 0)) == 0 && Ones(BitOp.Both(b, 0)) == 0 && Ones(0) == 0
  {
  }

  lemma TotalTwo(x: Byte, y: Byte)
    ensures Total([x, y]) == Ones(x) + Ones(y)
  {
    hide Ones;
    assert [x, y][..1] == [x] && [x][..0] == [];
    assert Total([x]) == Ones(x);
  }

  // ---------- searching ----------

  // A byte of zeros or of ones holds no bit of the other kind.
  lemma PlainByte(bit: bool, k: nat)
    ensures BitOf(if bit then 0 else 0xff, k) != bit
  {
  }

  lemma SkipByte(s: seq<Byte>, i: nat, bit: bool)
    requires i < |s| && s[i] == (if bit then 0 else 0xff)
    ensures forall x: nat | 8 * i <= x < 8 * i + 8 :: BitAt(s, x) != bit
  {
    hide BitOf;
    forall x: nat | 8 * i <= x < 8 * i + 8
      ensures BitAt(s, x) != bit
    {
      PlainByte(bit, 7 - x % 8);
    }
  }

  // A byte that is not all zeros, or not all ones, holds a bit of the kind searched.
  lemma OtherByte(s: seq<Byte>, i: nat, bit: bool)
    requires i < |s| && s[i] != (if bit then 0 else 0xff)
    ensures exists x: nat :: 8 * i <= x < 8 * i + 8 && BitAt(s, x) == bit
  {
    SomeBit(s[i], bit);
    var k: nat :| k < 8 && BitOf(s[i], k) == bit;
    BitInByte(s, i, 7 - k);
  }

  lemma SomeBit(b: Byte, bit: bool)
    requires b != (if bit then 0 else 0xff)
    ensures exists k: nat :: k < 8 && BitOf(b, k) == bit
  {
    if BitOf(b, 0) != bit && BitOf(b, 1) != bit && BitOf(b, 2) != bit && BitOf(b, 3) != bit
      && BitOf(b, 4) != bit && BitOf(b, 5) != bit && BitOf(b, 6) != bit {
      assert BitOf(b, 7) == bit;
    }
  }

  ghost predicate Skipped(s: seq<Byte>, i: nat, bit: bool) {
    forall x: nat | x < 8 * i :: BitAt(s, x) != bit
  }

  // Eight bytes, a word, equal to the value to skip.
  predicate PlainWord(s: seq<Byte>, i: nat, bit: bool)
    requires i + 8 <= |s|
  {
    forall j | i <= j < i + 8 :: s[j] == if bit then 0 else 0xff
  }

  lemma SkipMore(s: seq<Byte>, i: nat, n: nat, bit: bool)
    requires i + n <= |s| && Skipped(s, i, bit) && forall j | i <= j < i + n :: s[j] == if bit then 0 else 0xff
    ensures Skipped(s, i + n, bit)
  {
    hide BitAt;
    forall x: nat | x < 8 * (i + n)
      ensures BitAt(s, x) != bit
    {
      if x >= 8 * i {
        SkipByte(s, x / 8, bit);
      }
    }
  }

  /**
   * redisBitpos: skips bytes up to an alignment, then words, then loads the next eight
   * bytes, padded with zeros, and looks at them through a bit that is shifted down. The first bit of the kind searched in the
   * zero-padded string, or -1 when there is no one; it always stops at a bit.
   */
  method BitPos(s: seq<Byte>, unaligned: nat, bit: bool) returns (pos: int)
    ensures pos >= 0 ==> BitAt(s, pos) == bit && forall x: nat | x < pos :: BitAt(s, x) != bit
    ensures pos < 0 ==> pos == -1 && bit && forall x: nat :: !BitAt(s, x)
  {
    hide BitAt, BitOf, Skipped, PlainWord;
    var plain: Byte := if bit then 0 else 0xff;
    var i, found := 0, false;
    SkipNone(s, bit);
    while i < |s| && i < unaligned && !found
      invariant 0 <= i <= |s| && Skipped(s, i, bit) && (found ==> i < |s| && s[i] != plain)
      decreases |s| - i, !found
    {
      if s[i] != plain {
        found := true;
      } else {
        SkipMore(s, i, 1, bit);
        i := i + 1;
      }
    }
    if !found {
      while |s| - i >= 8 && PlainWord(s, i, bit)
        invariant 0 <= i <= |s| && Skipped(s, i, bit)
      {
        WordPlain(s, i, bit);
        SkipMore(s, i, 8, bit);
        i := i + 8;
      }
    }
    assert Stopped(s, i, bit, found);
    hide Stopped, Zeros;
    hide BitWord.Loaded, BitWord.Lamp, BitWord.Lit;
    var word := BitWord.Load(s, i);
    ZerosIs(s, i);
    if bit && word == 0 {
      AllZero(s, i, found);
      return -1;
    }
    ghost var here := Window(s, i, bit, found);
    SkippedMeans(s, i, bit);
    BitWord.LampBit(s, i, here - 8 * i);
    var t := BitWord.FirstInWord(word, bit);
    FirstIsFirst(s, i, t, bit);
    pos := 8 * i + t;
  }

  // The first bit of the word is the first of the string once what precedes it is skipped.
  lemma FirstIsFirst(s: seq<Byte>, i: nat, t: nat, bit: bool)
    requires t < 64 && BitWord.Lit(BitWord.Loaded(s, i, 8), BitWord.Lamp(t)) == bit
    requires forall x: nat | x < t :: BitWord.Lit(BitWord.Loaded(s, i, 8), BitWord.Lamp(x)) != bit
    requires forall x: nat | x < 8 * i :: BitAt(s, x) != bit
    ensures BitAt(s, 8 * i + t) == bit && forall x: nat | x < 8 * i + t :: BitAt(s, x) != bit
  {
    hide BitWord.Loaded, BitWord.Lamp, BitWord.Lit, BitAt;
    BitWord.LampBit(s, i, t);
    forall x: nat | 8 * i <= x < 8 * i + t
      ensures BitAt(s, x) != bit
    {
      BitWord.LampBit(s, i, x - 8 * i);
    }
  }

  lemma ZerosIs(s: seq<Byte>, i: nat)
    ensures BitWord.Loaded(s, i, 8) == 0 <==> Zeros(s, i, 8)
  {
    hide BitWord.Loaded;
    BitWord.LoadedZero(s, i);
  }

  lemma SkipNone(s: seq<Byte>, bit: bool)
    ensures Skipped(s, 0, bit)
  {
  }

  lemma SkippedMeans(s: seq<Byte>, i: nat, bit: bool)
    requires Skipped(s, i, bit)
    ensures forall x: nat | x < 8 * i :: BitAt(s, x) != bit
  {
  }

  lemma WordPlain(s: seq<Byte>, i: nat, bit: bool)
    requires i + 8 <= |s| && PlainWord(s, i, bit)
    ensures forall j | i <= j < i + 8 :: s[j] == if bit then 0 else 0xff
  {
  }

  // The first `n` bytes from `i`, as far as the string goes, are zero.
  ghost predicate Zeros(s: seq<Byte>, i: nat, n: nat) {
    forall j | i <= j < i + n && j < |s| :: s[j] == 0
  }

  // Where the skipping stopped: at a byte or a word that is not plain, or near the end.
  ghost predicate Stopped(s: seq<Byte>, i: nat, bit: bool, found: bool) {
    && i <= |s|
    && (found ==> i < |s| && s[i] != (if bit then 0 else 0xff))
    && (!found ==> |s| - i < 8 || !PlainWord(s, i, bit))
  }

  lemma AllZero(s: seq<Byte>, i: nat, found: bool)
    requires Stopped(s, i, true, found) && Zeros(s, i, 8) && Skipped(s, i, true)
    ensures forall x: nat :: !BitAt(s, x)
  {
    assert |s| - i < 8;
    SkipMore(s, i, |s| - i, true);
    hide BitOf;
  }

  // The next eight bytes hold a bit of the kind searched.
  lemma Window(s: seq<Byte>, i: nat, bit: bool, found: bool) returns (x: nat)
    requires Stopped(s, i, bit, found) && !(bit && Zeros(s, i, 8))
    ensures x < 8 * i + 64 && BitAt(s, x) == bit && x >= 8 * i
  {
    hide BitAt;
    if found {
      x := InByte(s, i, bit);
    } else if |s| - i >= 8 {
      var j :| i <= j < i + 8 && s[j] != if bit then 0 else 0xff;
      x := InByte(s, j, bit);
    } else if bit {
      var j :| i <= j < i + 8 && j < |s| && s[j] != 0;
      x := InByte(s, j, bit);
    } else {
      x := 8 * |s|;
      PastEnd(s, x);
    }
  }

  lemma PastEnd(s: seq<Byte>, x: nat)
    requires x >= 8 * |s|
    ensures !BitAt(s, x)
  {
  }

  lemma InByte(s: seq<Byte>, i: nat, bit: bool) returns (x: nat)
    requires i < |s| && s[i] != (if bit then 0 else 0xff)
    ensures 8 * i <= x < 8 * i + 8 && BitAt(s, x) == bit
  {
    OtherByte(s, i, bit);
    x :| 8 * i <= x < 8 * i + 8 && BitAt(s, x) == bit;
  }

  // ---------- BITPOS on a range ----------

  // A byte in which the bits under the mask are made to look unlike `bit`.
  function Masked(b: Byte, m: Byte, bit: bool): Byte {
    if bit then BitOp.Both(b, BitOp.Flip(m)) else BitOp.Either(b, m)
  }

  lemma MaskedBit(b: Byte, m: Byte, bit: bool, k: nat)
    ensures BitOf(Masked(b, m, bit), k) == bit <==> !BitOf(m, k) && BitOf(b, k) == bit
  {
    hide BitOf, BitOp.Both, BitOp.Flip, BitOp.Either;
    BitOp.BitOps(b, m, k);
    BitOp.BitOps(m, m, k);
    BitOp.BitOps(b, BitOp.Flip(m), k);
  }

  // Bit `k` of a byte, from the most significant on, is not under the mask.
  predicate Open(m: Byte, k: nat)
    requires k < 8
  {
    !BitOf(m, 7 - k)
  }

  ghost predicate NoBit(s: seq<Byte>, lo: nat, hi: nat, bit: bool) {
    forall x: nat | lo <= x < hi :: BitAt(s, x) != bit
  }

  // `pos` is the first of its kind from `lo` on, before `hi`.
  ghost predicate IsFirst(s: seq<Byte>, lo: nat, hi: nat, bit: bool, pos: int) {
    lo <= pos < hi && BitAt(s, pos) == bit && NoBit(s, lo, pos, bit)
  }

  // What a search that found nothing in `n` bytes returns.
  function Missing(bit: bool, n: nat): int {
    if bit then -1 else 8 * n
  }

  // One masked byte: the bits from `lo` up to `hi` of byte `i` are in the range.
  method InOneByte(s: seq<Byte>, i: nat, m: Byte, lo: nat, hi: nat, bit: bool) returns (pos: int)
    requires i < |s| && 8 * i <= lo <= hi <= 8 * i + 8
    requires forall k: nat | k < 8 :: Open(m, k) <==> lo <= 8 * i + k < hi
    ensures pos == Missing(bit, 1) || 0 <= pos < 8
    ensures 0 <= pos < 8 ==> IsFirst(s, lo, hi, bit, 8 * i + pos)
    ensures !(0 <= pos < 8) ==> NoBit(s, lo, hi, bit)
  {
    hide BitOf, BitAt, Masked;
    var tmp := Masked(s[i], m, bit);
    pos := BitPos([tmp], 0, bit);
    forall k: nat | k < 8
      ensures BitAt([tmp], k) == bit <==> lo <= 8 * i + k < hi && BitAt(s, 8 * i + k) == bit
    {
      assert Open(m, k) <==> !BitOf(m, 7 - k);
      MaskedBit(s[i], m, bit, 7 - k);
      BitInByte([tmp], 0, k);
      BitInByte(s, i, k);
    }
    PastEnd([tmp], 8);
    assert pos > 8 ==> BitAt([tmp], 8) != bit;
    forall x: nat | lo <= x < hi && (pos < 0 || x < 8 * i + pos)
      ensures BitAt(s, x) != bit
    {
      var k := x - 8 * i;
      assert BitAt([tmp], k) != bit;
    }
    if pos >= 8 {
      PastOnly([tmp], pos);
    }
  }

  lemma PastOnly(s: seq<Byte>, pos: nat)
    requires pos >= 8 * |s|
    ensures !BitAt(s, pos)
  {
    PastEnd(s, pos);
  }

  // Whole bytes from `i` on, searched at once.
  method InBytes(s: seq<Byte>, i: nat, n: nat, bit: bool) returns (pos: int)
    requires i + n <= |s|
    ensures pos == Missing(bit, n) || 0 <= pos < 8 * n
    ensures 0 <= pos < 8 * n ==> IsFirst(s, 8 * i, 8 * (i + n), bit, 8 * i + pos)
    ensures !(0 <= pos < 8 * n) ==> NoBit(s, 8 * i, 8 * (i + n), bit)
  {
    hide BitOf, BitAt;
    var t := s[i..i + n];
    pos := BitPos(t, 0, bit);
    forall x: nat | x < 8 * n
      ensures BitAt(t, x) == BitAt(s, 8 * i + x)
    {
      SameBit(s, i, n, x);
    }
    PastEnd(t, 8 * n);
    forall x: nat | 8 * i <= x < 8 * (i + n) && (pos < 0 || x < 8 * i + pos)
      ensures BitAt(s, x) != bit
    {
      assert BitAt(t, x - 8 * i) != bit;
    }
    if pos >= 8 * n {
      PastEnd(t, pos);
    }
  }

  lemma SameBit(s: seq<Byte>, i: nat, n: nat, x: nat)
    requires i + n <= |s| && x < 8 * n
    ensures BitAt(s[i..i + n], x) == BitAt(s, 8 * i + x)
  {
    hide BitOf;
    assert (8 * i + x) / 8 == i + x / 8 && (8 * i + x) % 8 == x % 8;
  }

  // The answer for the bits from `lo` up to `hi`: the first of its kind, and if there is
  // none -1, or the position behind when the string is taken to go on with zeros.
  ghost predicate Answers(s: seq<Byte>, lo: nat, hi: nat, bit: bool, exact: bool, pos: int) {
    && (NoBit(s, lo, hi, bit) ==> pos == if bit || exact then -1 else hi)
    && (!NoBit(s, lo, hi, bit) ==> IsFirst(s, lo, hi, bit, pos))
  }

  // The end of the command: a search from byte `i` over `n` bytes came back with `pos`.
  function Reply(pos: int, i: nat, n: nat, bit: bool, exact: bool): int {
    if exact && !bit && pos == 8 * n then -1 else if pos != -1 then pos + 8 * i else -1
  }

  lemma FoundReply(s: seq<Byte>, lo: nat, mid: nat, hi: nat, bit: bool, exact: bool, pos: int, i: nat, n: nat, top: nat)
    requires NoBit(s, lo, mid, bit) && IsFirst(s, mid, top, bit, 8 * i + pos) && lo <= mid && top <= hi && 0 <= pos < 8 * n
    ensures Answers(s, lo, hi, bit, exact, Reply(pos, i, n, bit, exact))
  {
    hide BitAt;
  }

  lemma MissedReply(s: seq<Byte>, lo: nat, mid: nat, hi: nat, bit: bool, exact: bool, i: nat, n: nat)
    requires NoBit(s, lo, mid, bit) && NoBit(s, mid, hi, bit) && hi <= 8 * (i + n) && (exact || hi == 8 * (i + n))
    ensures Answers(s, lo, hi, bit, exact, Reply(Missing(bit, n), i, n, bit, exact))
  {
    hide BitAt;
  }

  lemma NoBitJoin(s: seq<Byte>, lo: nat, mid: nat, hi: nat, bit: bool)
    requires NoBit(s, lo, mid, bit) && NoBit(s, mid, hi, bit)
    ensures NoBit(s, lo, hi, bit)
  {
    hide BitAt;
  }

  lemma RangeMasks(lo: nat, hi: nat, i: nat)
    requires 8 * i <= lo && lo < 8 * i + 8
    ensures forall k: nat | k < 8 :: Open(Before(lo % 8), k) <==> lo <= 8 * i + k
  {
    hide BitOf, Before;
    forall k: nat | k < 8
      ensures Open(Before(lo % 8), k) <==> lo <= 8 * i + k
    {
      MaskBits(lo % 8, k);
    }
  }

  lemma RangeEndMask(hi: nat, i: nat, m: Byte)
    requires 8 * i < hi <= 8 * i + 8 && m == Behind(8 * i + 8 - hi)
    ensures forall k: nat | k < 8 :: Open(m, k) <==> 8 * i + k < hi
  {
    hide BitOf, Behind;
    forall k: nat | k < 8
      ensures Open(m, k) <==> 8 * i + k < hi
    {
      MaskBits(8 * i + 8 - hi, k);
    }
  }

  lemma BothMasks(m: Byte, n: Byte, k: nat)
    requires k < 8
    ensures Open(BitOp.Either(m, n), k) == (Open(m, k) && Open(n, k))
  {
    BitOp.BitOps(m, n, 7 - k);
  }

  /**
   * The search of BITPOS in bytes `a` to `b`, of which the bits from `lo` up to `hi`
   * are in the range: the first byte under its mask, whole bytes, the last byte under
   * its mask.
   */
  method SearchBits(s: seq<Byte>, lo: nat, hi: nat, bit: bool, exact: bool) returns (pos: int)
    requires lo < hi <= 8 * |s| && (exact || (lo % 8 == 0 && hi % 8 == 0))
    ensures Answers(s, lo, hi, bit, exact, pos)
  {
    hide Open, BitAt, NoBit, IsFirst, Answers, Before, Behind, BitOp.Either, Reply;
    var a, b := lo / 8, (hi - 1) / 8;
    var first, last := Before(lo % 8), Behind(8 * b + 8 - hi);
    var i, n, mid := a, b - a + 1, lo;
    NoBitYet(s, lo, bit);
    RangeMasks(lo, hi, a);
    RangeEndMask(hi, b, last);
    EdgeMasks(lo, hi, a, b);
    if first != 0 {
      var m, top := first, 8 * a + 8;
      if last != 0 && n == 1 {
        m, top := BitOp.Either(first, last), hi;
        forall k: nat | k < 8
          ensures Open(m, k) <==> lo <= 8 * a + k < hi
        {
          BothMasks(first, last, k);
        }
      }
      assert n == 1 ==> top == hi;
      var p := InOneByte(s, a, m, lo, top, bit);
      if n == 1 || (p != -1 && p != 8) {
        if 0 <= p < 8 {
          FoundReply(s, lo, lo, hi, bit, exact, p, a, n, top);
        } else {
          MissedReply(s, lo, lo, hi, bit, exact, a, n);
        }
        return Reply(p, a, n, bit, exact);
      }
      i, n, mid := i + 1, n - 1, 8 * a + 8;
    }
    var whole := if last != 0 then n - 1 else n;
    if whole > 0 {
      var p := InBytes(s, i, whole, bit);
      if n == whole || (p != -1 && p != 8 * whole) {
        if 0 <= p < 8 * whole {
          FoundReply(s, lo, mid, hi, bit, exact, p, i, n, 8 * (i + whole));
        } else {
          MissedReply(s, lo, mid, hi, bit, exact, i, n);
        }
        return Reply(p, i, n, bit, exact);
      }
      NoBitJoin(s, lo, mid, 8 * (i + whole), bit);
      i, n, mid := i + whole, n - whole, 8 * (i + whole);
    }
    var p := InOneByte(s, b, last, 8 * b, hi, bit);
    if 0 <= p < 8 {
      FoundReply(s, lo, mid, hi, bit, exact, p, b, n, hi);
    } else {
      MissedReply(s, lo, mid, hi, bit, exact, b, n);
    }
    pos := Reply(p, i, n, bit, exact);
  }

  lemma NoBitYet(s: seq<Byte>, lo: nat, bit: bool)
    ensures NoBit(s, lo, lo, bit)
  {
  }

  // No mask means the range starts, or ends, at the edge of its byte.
  lemma EdgeMasks(lo: nat, hi: nat, a: nat, b: nat)
    requires a == lo / 8 && lo < hi && b == (hi - 1) / 8
    ensures Before(lo % 8) == 0 <==> lo == 8 * a
    ensures Behind(8 * b + 8 - hi) == 0 <==> hi == 8 * b + 8
  {
  }

  // The same answer, of the bits asked for; without an end the range goes to the last bit.
  ghost predicate FirstAsked(s: seq<Byte>, bit: bool, start: int, last: int, endGiven: bool, isBit: bool, pos: int) {
    && ((exists p: nat :: Asked(s, start, last, isBit, p) && BitAt(s, p) == bit) ==>
          && 0 <= pos && Asked(s, start, last, isBit, pos) && BitAt(s, pos) == bit
          && forall p: nat | Asked(s, start, last, isBit, p) && p < pos :: BitAt(s, p) != bit)
    && ((forall p: nat | Asked(s, start, last, isBit, p) :: BitAt(s, p) != bit) ==>
          pos == if !bit && !endGiven && exists p: nat :: Asked(s, start, last, isBit, p) then 8 * |s| else -1)
  }

  lemma AnswersAsked(s: seq<Byte>, bit: bool, start: int, end: int, endGiven: bool, isBit: bool, pos: int)
    requires isBit ==> endGiven
    requires
      var unit := if isBit then 1 else 8;
      var total := if isBit then 8 * |s| else |s|;
      var lo, hi := Lo(start, total), if endGiven then Hi(end, total) else total - 1;
      if lo > hi then pos == -1 else Answers(s, unit * lo, unit * (hi + 1), bit, endGiven, pos)
    ensures FirstAsked(s, bit, start, if endGiven then end else -1, endGiven, isBit, pos)
  {
    hide BitAt, Asked;
    var unit, total := if isBit then 1 else 8, if isBit then 8 * |s| else |s|;
    var last := if endGiven then end else -1;
    var lo, hi := Lo(start, total), Hi(last, total);
    forall p: nat
      ensures Asked(s, start, last, isBit, p) <==> unit * lo <= p < unit * (hi + 1)
    {
      AskedIff(s, start, last, isBit, p);
    }
    if lo <= hi {
      var from, to := unit * lo, unit * (hi + 1);
      assert !endGiven ==> to == 8 * |s|;
      assert Asked(s, start, last, isBit, from);
      if NoBit(s, from, to, bit) {
        assert forall p: nat | Asked(s, start, last, isBit, p) :: BitAt(s, p) != bit;
      } else {
        assert IsFirst(s, from, to, bit, pos);
        assert Asked(s, start, last, isBit, pos);
      }
    }
  }

  /**
   * BITPOS: the first bit of the kind asked for in the range. An explicit end makes the
   * range exact; without one a search for a zero may answer the position behind it.
   */
  method PosRange(s: seq<Byte>, bit: bool, start: int, end: int, endGiven: bool, isBit: bool) returns (pos: int)
    requires isBit ==> endGiven
    ensures
      var unit := if isBit then 1 else 8;
      var total := if isBit then 8 * |s| else |s|;
      var lo, hi := Lo(start, total), if endGiven then Hi(end, total) else total - 1;
      if lo > hi then pos == -1 else Answers(s, unit * lo, unit * (hi + 1), bit, endGiven, pos)
    ensures FirstAsked(s, bit, start, if endGiven then end else -1, endGiven, isBit, pos)
  {
    hide Answers, FirstAsked;
    var total := if isBit then 8 * |s| else |s|;
    var lo, hi := start, if endGiven then end else total - 1;
    if lo < 0 {
      lo := total + lo;
    }
    if hi < 0 {
      hi := total + hi;
    }
    if lo < 0 {
      lo := 0;
    }
    if hi < 0 {
      hi := 0;
    }
    if hi >= total {
      hi := total - 1;
    }
    if lo > hi {
      AnswersAsked(s, bit, start, end, endGiven, isBit, -1);
      return -1;
    }
    if isBit {
      pos := SearchBits(s, lo, hi + 1, bit, endGiven);
    } else {
      pos := SearchBits(s, 8 * lo, 8 * (hi + 1), bit, endGiven);
    }
    AnswersAsked(s, bit, start, end, endGiven, isBit, pos);
  }
}
