/**
 * The set bits of a string, seven 32-bit words at a time: counts of pairs, nibbles and
 * bytes kept side by side in a word, as 32-bit unsigned arithmetic.
 */
module BitCount {
  import opened Bitfield

  // ---------- one byte ----------

  // Bit `k` of a number.
  function B(n: nat, k: nat): (x: nat)
    ensures x < 2
  {
    if k == 0 then n % 2 else B(n / 2, k - 1)
  }

  function OnesOf(n: nat): nat {
    B(n, 0) + B(n, 1) + B(n, 2) + B(n, 3) + B(n, 4) + B(n, 5) + B(n, 6) + B(n, 7)
  }

  function Bit(b: Byte, m: Byte): nat {
    if b & m != 0 then 1 else 0
  }

  // bitsinbyte.
  function Ones(b: Byte): nat {
    Bit(b, 1) + Bit(b, 2) + Bit(b, 4) + Bit(b, 8) + Bit(b, 16) + Bit(b, 32) + Bit(b, 64) + Bit(b, 128)
  }

  function Num(b: Byte): nat {
    Bit(b, 1) + 2 * Bit(b, 2) + 4 * Bit(b, 4) + 8 * Bit(b, 8) + 16 * Bit(b, 16) + 32 * Bit(b, 32) + 64 * Bit(b, 64) + 128 * Bit(b, 128)
  }

  // The number with the given bits, and the bits of a number.
  function FromBits(xs: seq<nat>): nat {
    if xs == [] then 0 else xs[0] + 2 * FromBits(xs[1..])
  }

  function BitsOfNum(n: nat, k: nat): (xs: seq<nat>)
    ensures |xs| == k
  {
    if k == 0 then [] else [n % 2] + BitsOfNum(n / 2, k - 1)
  }

  lemma {:induction false} BitsAreB(n: nat, k: nat, i: nat)
    requires i < k
    ensures BitsOfNum(n, k)[i] == B(n, i)
  {
    if i > 0 {
      BitsAreB(n / 2, k - 1, i - 1);
    }
  }

  lemma {:induction false} Rebuild(n: nat, k: nat)
    requires n < BitRange.Pow2(k)
    ensures FromBits(BitsOfNum(n, k)) == n
  {
    if k > 0 {
      Rebuild(n / 2, k - 1);
      assert BitsOfNum(n, k)[1..] == BitsOfNum(n / 2, k - 1);
    }
  }

  lemma {:induction false} BitsOfSum(xs: seq<nat>, k: nat)
    requires (forall i | 0 <= i < |xs| :: xs[i] < 2) && k < |xs|
    ensures B(FromBits(xs), k) == xs[k]
  {
    var h := FromBits(xs[1..]);
    assert (xs[0] + 2 * h) / 2 == h && (xs[0] + 2 * h) % 2 == xs[0];
    if k > 0 {
      BitsOfSum(xs[1..], k - 1);
    }
  }

  lemma Unfold4(xs: seq<nat>)
    requires |xs| >= 4
    ensures FromBits(xs) == xs[0] + 2 * xs[1] + 4 * xs[2] + 8 * xs[3] + 16 * FromBits(xs[4..])
  {
    assert xs[1..][1..] == xs[2..] && xs[2..][1..] == xs[3..] && xs[3..][1..] == xs[4..];
    assert FromBits(xs[3..]) == xs[3] + 2 * FromBits(xs[4..]);
    assert FromBits(xs[2..]) == xs[2] + 2 * FromBits(xs[3..]);
    assert FromBits(xs[1..]) == xs[1] + 2 * FromBits(xs[2..]);
  }

  lemma Unfold8(xs: seq<nat>)
    requires |xs| == 8
    ensures FromBits(xs) == xs[0] + 2 * xs[1] + 4 * xs[2] + 8 * xs[3] + 16 * xs[4] + 32 * xs[5] + 64 * xs[6] + 128 * xs[7]
  {
    hide FromBits;
    Unfold4(xs);
    Unfold4(xs[4..]);
    assert xs[4..][4..] == [];
    NoBits();
  }

  lemma NoBits()
    ensures FromBits([]) == 0
  {
  }

  lemma BitsOfByte(b: Byte)
    ensures B(Num(b), 0) == Bit(b, 1) && B(Num(b), 1) == Bit(b, 2) && B(Num(b), 2) == Bit(b, 4) && B(Num(b), 3) == Bit(b, 8)
    ensures B(Num(b), 4) == Bit(b, 16) && B(Num(b), 5) == Bit(b, 32) && B(Num(b), 6) == Bit(b, 64) && B(Num(b), 7) == Bit(b, 128)
    ensures Num(b) < 256
  {
    hide B, FromBits, Bit;
    BitSmall(b);
    var xs := [Bit(b, 1), Bit(b, 2), Bit(b, 4), Bit(b, 8), Bit(b, 16), Bit(b, 32), Bit(b, 64), Bit(b, 128)];
    Unfold8(xs);
    assert Num(b) == FromBits(xs);
    forall k | 0 <= k < 8
      ensures B(Num(b), k) == xs[k]
    {
      BitsOfSum(xs, k);
    }
  }

  lemma OnesOfNum(b: Byte)
    ensures OnesOf(Num(b)) == Ones(b) && Num(b) < 256
  {
    hide B, Bit, Num;
    BitsOfByte(b);
  }

  lemma BitSmall(b: Byte)
    ensures forall m: Byte :: Bit(b, m) < 2
  {
  }

  // (n >> 1) & 0x55, the odd bits moved down.
  function Odd8(n: nat): nat {
    B(n, 1) + 4 * B(n, 3) + 16 * B(n, 5) + 64 * B(n, 7)
  }

  // n & 0x33 and (n >> 2) & 0x33, by pairs of bits.
  function Low8(n: nat): nat {
    n % 4 + 16 * ((n / 16) % 4)
  }

  function High8(n: nat): nat {
    (n / 4) % 4 + 16 * ((n / 64) % 4)
  }

  lemma Decompose(n: nat)
    requires n < 256
    ensures n == B(n, 0) + 2 * B(n, 1) + 4 * B(n, 2) + 8 * B(n, 3) + 16 * B(n, 4) + 32 * B(n, 5) + 64 * B(n, 6) + 128 * B(n, 7)
  {
    var xs := BitsOfNum(n, 8);
    assert BitRange.Pow2(8) == 256;
    Rebuild(n, 8);
    hide B, FromBits, BitsOfNum;
    Unfold8(xs);
    forall k | 0 <= k < 8
      ensures xs[k] == B(n, k)
    {
      BitsAreB(n, 8, k);
    }
  }

  // n - ((n >> 1) & 0x55): the counts of the four pairs.
  function Pairs8(n: nat): nat {
    if Odd8(n) <= n then n - Odd8(n) else 0
  }

  lemma PairsOf(n: nat)
    requires n < 256
    ensures Odd8(n) <= n && Pairs8(n) < 256
    ensures Pairs8(n) == (B(n, 0) + B(n, 1)) + 4 * (B(n, 2) + B(n, 3)) + 16 * (B(n, 4) + B(n, 5)) + 64 * (B(n, 6) + B(n, 7))
  {
    Decompose(n);
    hide B;
  }

  lemma Quarter(d: nat, rest: nat)
    requires d < 4
    ensures (d + 4 * rest) % 4 == d && (d + 4 * rest) / 4 == rest
  {
  }

  lemma QuartersOf(d0: nat, d1: nat, d2: nat, d3: nat)
    requires d0 < 4 && d1 < 4 && d2 < 4 && d3 < 4
    ensures
      var n := d0 + 4 * d1 + 16 * d2 + 64 * d3;
      Low8(n) == d0 + 16 * d2 && High8(n) == d1 + 16 * d3 && n < 256
  {
    var r3, r2 := d3, d2 + 4 * d3;
    var r1 := d1 + 4 * r2;
    var n := d0 + 4 * r1;
    Quarter(d0, r1);
    Quarter(d1, r2);
    Quarter(d2, r3);
    assert n / 16 == r2 && n / 64 == r3;
  }

  function Nibbles8(n: nat): nat {
    Low8(n) + High8(n)
  }

  lemma NibblesFrom(p: nat, d0: nat, d1: nat, d2: nat, d3: nat)
    requires d0 < 4 && d1 < 4 && d2 < 4 && d3 < 4 && p == d0 + 4 * d1 + 16 * d2 + 64 * d3
    ensures Nibbles8(p) == (d0 + d1) + 16 * (d2 + d3)
  {
    QuartersOf(d0, d1, d2, d3);
  }

  // The first two steps on one byte leave the counts of its halves.
  lemma NibblesOf(n: nat)
    requires n < 256
    ensures Pairs8(n) < 256
    ensures Nibbles8(Pairs8(n)) == (B(n, 0) + B(n, 1) + B(n, 2) + B(n, 3)) + 16 * (B(n, 4) + B(n, 5) + B(n, 6) + B(n, 7))
  {
    hide B, Nibbles8, Odd8, Pairs8;
    PairsOf(n);
    NibblesFrom(Pairs8(n), B(n, 0) + B(n, 1), B(n, 2) + B(n, 3), B(n, 4) + B(n, 5), B(n, 6) + B(n, 7));
  }

  // ---------- words ----------

  const W32: nat := 0x1_0000_0000

  // A word from its bytes, least significant first.
  function Word(a: nat, b: nat, c: nat, d: nat): nat {
    a + 256 * b + 65536 * c + 16777216 * d
  }

  function Byte0(w: nat): nat { w % 256 }
  function Byte1(w: nat): nat { (w / 256) % 256 }
  function Byte2(w: nat): nat { (w / 256 / 256) % 256 }
  function Byte3(w: nat): nat { (w / 256 / 256 / 256) % 256 }

  lemma Peel(x: nat, rest: nat)
    requires x < 256
    ensures (x + 256 * rest) % 256 == x && (x + 256 * rest) / 256 == rest
  {
  }

  lemma BytesOf(a: nat, b: nat, c: nat, d: nat)
    requires a < 256 && b < 256 && c < 256 && d < 256
    ensures
      var w := Word(a, b, c, d);
      w < W32 && Byte0(w) == a && Byte1(w) == b && Byte2(w) == c && Byte3(w) == d
  {
    var r2, w := c + 256 * d, Word(a, b, c, d);
    var r1 := b + 256 * r2;
    assert w == a + 256 * r1;
    Peel(a, r1);
    Peel(b, r2);
    Peel(c, d);
  }

  // Masks whose bytes are all the same act on each byte.
  function OddW(w: nat): nat { Word(Odd8(Byte0(w)), Odd8(Byte1(w)), Odd8(Byte2(w)), Odd8(Byte3(w))) }
  function LowW(w: nat): nat { Word(Low8(Byte0(w)), Low8(Byte1(w)), Low8(Byte2(w)), Low8(Byte3(w))) }
  function HighW(w: nat): nat { Word(High8(Byte0(w)), High8(Byte1(w)), High8(Byte2(w)), High8(Byte3(w))) }
  function LowNibblesW(w: nat): nat { Word(Byte0(w) % 16, Byte1(w) % 16, Byte2(w) % 16, Byte3(w) % 16) }

  // Unsigned subtraction wraps around below zero.
  function Minus(v: nat, w: nat): nat { if w <= v then v - w else W32 + v - w % W32 }

  // The three steps, in 32-bit arithmetic. Two words under the mask 0x33333333 add up
  // without leaving 32 bits.
  function Pairs(w: nat): nat { Minus(w, OddW(w)) }
  function Nibbles(w: nat): nat { LowW(w) + HighW(w) }
  function Sums(w: nat): nat { LowNibblesW((w + w / 16) % W32) }
  function Counted(w: nat): nat { Sums(Nibbles(Pairs(w))) }

  lemma Fits(a: nat, b: nat, c: nat, d: nat)
    requires a < 256 && b < 256 && c < 256 && d < 256
    ensures Word(a, b, c, d) % W32 == Word(a, b, c, d)
  {
  }

  lemma WordAdd(a: nat, b: nat, c: nat, d: nat, e: nat, f: nat, g: nat, h: nat)
    ensures Word(a, b, c, d) + Word(e, f, g, h) == Word(a + e, b + f, c + g, d + h)
  {
  }

  lemma PairsPacked(a: nat, b: nat, c: nat, d: nat)
    requires a < 256 && b < 256 && c < 256 && d < 256
    ensures Pairs(Word(a, b, c, d)) == Word(Pairs8(a), Pairs8(b), Pairs8(c), Pairs8(d))
  {
    hide Odd8, Byte0, Byte1, Byte2, Byte3, B, Word;
    BytesOf(a, b, c, d);
    PairsOf(a);
    PairsOf(b);
    PairsOf(c);
    PairsOf(d);
    WordAdd(Pairs8(a), Pairs8(b), Pairs8(c), Pairs8(d), Odd8(a), Odd8(b), Odd8(c), Odd8(d));
  }

  lemma NibblesPacked(a: nat, b: nat, c: nat, d: nat)
    requires a < 256 && b < 256 && c < 256 && d < 256
    ensures Nibbles(Word(a, b, c, d)) == Word(Nibbles8(a), Nibbles8(b), Nibbles8(c), Nibbles8(d))
  {
    hide Low8, High8, Byte0, Byte1, Byte2, Byte3, Word;
    BytesOf(a, b, c, d);
    SmallNibbles(a);
    SmallNibbles(b);
    SmallNibbles(c);
    SmallNibbles(d);
    WordAdd(Low8(a), Low8(b), Low8(c), Low8(d), High8(a), High8(b), High8(c), High8(d));
  }

  lemma SmallNibbles(n: nat)
    ensures Low8(n) <= 51 && High8(n) <= 51
  {
  }

  // Halves that count at most four each add up without touching the next byte.
  lemma SumsPacked(p0: nat, q0: nat, p1: nat, q1: nat, p2: nat, q2: nat, p3: nat, q3: nat)
    requires p0 <= 4 && q0 <= 4 && p1 <= 4 && q1 <= 4 && p2 <= 4 && q2 <= 4 && p3 <= 4 && q3 <= 4
    ensures Sums(Word(p0 + 16 * q0, p1 + 16 * q1, p2 + 16 * q2, p3 + 16 * q3)) == Word(p0 + q0, p1 + q1, p2 + q2, p3 + q3)
  {
    hide Byte0, Byte1, Byte2, Byte3, Word;
    var w := Word(p0 + 16 * q0, p1 + 16 * q1, p2 + 16 * q2, p3 + 16 * q3);
    var l0, l1, l2, l3 := p0 + q0 + 16 * (q0 + p1), p1 + q1 + 16 * (q1 + p2), p2 + q2 + 16 * (q2 + p3), p3 + q3 + 16 * q3;
    ShiftedSum(p0, q0, p1, q1, p2, q2, p3, q3);
    BytesOf(l0, l1, l2, l3);
    Fits(l0, l1, l2, l3);
    LowNibble(p0 + q0, q0 + p1);
    LowNibble(p1 + q1, q1 + p2);
    LowNibble(p2 + q2, q2 + p3);
    LowNibble(p3 + q3, q3);
  }

  lemma ShiftedSum(p0: nat, q0: nat, p1: nat, q1: nat, p2: nat, q2: nat, p3: nat, q3: nat)
    requires p0 < 16
    ensures
      var w := Word(p0 + 16 * q0, p1 + 16 * q1, p2 + 16 * q2, p3 + 16 * q3);
      w + w / 16 == Word(p0 + q0 + 16 * (q0 + p1), p1 + q1 + 16 * (q1 + p2), p2 + q2 + 16 * (q2 + p3), p3 + q3 + 16 * q3)
  {
    var w := Word(p0 + 16 * q0, p1 + 16 * q1, p2 + 16 * q2, p3 + 16 * q3);
    Sixteenth(p0, q0 + 16 * (p1 + 16 * q1) + 4096 * (p2 + 16 * q2) + 1048576 * (p3 + 16 * q3), w);
  }

  lemma Sixteenth(low: nat, rest: nat, w: nat)
    requires low < 16 && w == low + 16 * rest
    ensures w / 16 == rest
  {
  }

  lemma LowNibble(p: nat, q: nat)
    requires p < 16
    ensures (p + 16 * q) % 16 == p
  {
  }

  /**
   * The count of a word: each of its bytes holds the number of ones of that byte.
   */
  lemma CountedPacked(a: nat, b: nat, c: nat, d: nat)
    requires a < 256 && b < 256 && c < 256 && d < 256
    ensures Counted(Word(a, b, c, d)) == Word(OnesOf(a), OnesOf(b), OnesOf(c), OnesOf(d))
  {
    hide B, Odd8, Low8, High8, Pairs, Nibbles, Sums, Pairs8, Nibbles8, Word;
    PairsPacked(a, b, c, d);
    NibblesOf(a);
    NibblesOf(b);
    NibblesOf(c);
    NibblesOf(d);
    NibblesPacked(Pairs8(a), Pairs8(b), Pairs8(c), Pairs8(d));
    SumsPacked(B(a, 0) + B(a, 1) + B(a, 2) + B(a, 3), B(a, 4) + B(a, 5) + B(a, 6) + B(a, 7),
               B(b, 0) + B(b, 1) + B(b, 2) + B(b, 3), B(b, 4) + B(b, 5) + B(b, 6) + B(b, 7),
               B(c, 0) + B(c, 1) + B(c, 2) + B(c, 3), B(c, 4) + B(c, 5) + B(c, 6) + B(c, 7),
               B(d, 0) + B(d, 1) + B(d, 2) + B(d, 3), B(d, 4) + B(d, 5) + B(d, 6) + B(d, 7));
  }

  // ---------- the masks as the code has them ----------

  function Pack(a: Byte, b: Byte, c: Byte, d: Byte): bv32 {
    (a as bv32) | ((b as bv32) << 8) | ((c as bv32) << 16) | ((d as bv32) << 24)
  }

  // The four bytes of a word, least significant first, as a number.
  function Number(x: bv32): nat {
    Word(Num((x & 0xff) as Byte), Num(((x >> 8) & 0xff) as Byte), Num(((x >> 16) & 0xff) as Byte), Num(((x >> 24) & 0xff) as Byte))
  }

  lemma NumberOfPack(a: Byte, b: Byte, c: Byte, d: Byte)
    ensures Number(Pack(a, b, c, d)) == Word(Num(a), Num(b), Num(c), Num(d))
  {
    hide Num;
    assert (Pack(a, b, c, d) & 0xff) as Byte == a && ((Pack(a, b, c, d) >> 8) & 0xff) as Byte == b;
    assert ((Pack(a, b, c, d) >> 16) & 0xff) as Byte == c && ((Pack(a, b, c, d) >> 24) & 0xff) as Byte == d;
  }

  // On the whole word a shift brings in bits of the next byte; the mask takes them out.
  lemma OddBytes(a: Byte, b: Byte, c: Byte, d: Byte)
    ensures (Pack(a, b, c, d) >> 1) & 0x5555_5555 == Pack((a >> 1) & 0x55, (b >> 1) & 0x55, (c >> 1) & 0x55, (d >> 1) & 0x55)
  {
  }

  lemma LowBytes(a: Byte, b: Byte, c: Byte, d: Byte)
    ensures Pack(a, b, c, d) & 0x3333_3333 == Pack(a & 0x33, b & 0x33, c & 0x33, d & 0x33)
  {
  }

  lemma HighBytes(a: Byte, b: Byte, c: Byte, d: Byte)
    ensures (Pack(a, b, c, d) >> 2) & 0x3333_3333 == Pack((a >> 2) & 0x33, (b >> 2) & 0x33, (c >> 2) & 0x33, (d >> 2) & 0x33)
  {
  }

  lemma NibbleBytes(a: Byte, b: Byte, c: Byte, d: Byte)
    ensures Pack(a, b, c, d) & 0x0F0F_0F0F == Pack(a & 0x0F, b & 0x0F, c & 0x0F, d & 0x0F)
  {
  }

  // Masked bits of one byte, as numbers.
  lemma OddByte(b: Byte)
    ensures Num((b >> 1) & 0x55) == Bit(b, 2) + 4 * Bit(b, 8) + 16 * Bit(b, 32) + 64 * Bit(b, 128)
  {
  }

  lemma LowByte(b: Byte)
    ensures Num(b & 0x33) == Bit(b, 1) + 2 * Bit(b, 2) + 16 * (Bit(b, 16) + 2 * Bit(b, 32))
    ensures Num(b & 0x0F) == Bit(b, 1) + 2 * Bit(b, 2) + 4 * Bit(b, 4) + 8 * Bit(b, 8)
  {
  }

  lemma HighByte(b: Byte)
    ensures Num((b >> 2) & 0x33) == Bit(b, 4) + 2 * Bit(b, 8) + 16 * (Bit(b, 64) + 2 * Bit(b, 128))
  {
  }

  lemma OddMask(b: Byte)
    ensures Num((b >> 1) & 0x55) == Odd8(Num(b))
  {
    hide B, Bit, Num;
    OddByte(b);
    BitsOfByte(b);
  }

  lemma OtherMasks(b: Byte)
    ensures Num(b & 0x33) == Low8(Num(b)) && Num((b >> 2) & 0x33) == High8(Num(b)) && Num(b & 0x0F) == Num(b) % 16
  {
    hide Bit, Low8, High8, Num;
    BitSmall(b);
    LowByte(b);
    HighByte(b);
    NumIs(b);
    QuartersOf(Bit(b, 1) + 2 * Bit(b, 2), Bit(b, 4) + 2 * Bit(b, 8), Bit(b, 16) + 2 * Bit(b, 32), Bit(b, 64) + 2 * Bit(b, 128));
    LowNibble(Num(b & 0x0F), Bit(b, 16) + 2 * Bit(b, 32) + 4 * Bit(b, 64) + 8 * Bit(b, 128));
  }

  lemma NumIs(b: Byte)
    ensures Num(b) == Bit(b, 1) + 2 * Bit(b, 2) + 4 * (Bit(b, 4) + 2 * Bit(b, 8)) + 16 * (Bit(b, 16) + 2 * Bit(b, 32)) + 64 * (Bit(b, 64) + 2 * Bit(b, 128))
  {
    hide Bit;
  }

  /**
   * The masking steps on numbers are those of the 32-bit code.
   */
  lemma MasksAreCode(a: Byte, b: Byte, c: Byte, d: Byte)
    ensures var x := Pack(a, b, c, d);
            && Number((x >> 1) & 0x5555_5555) == OddW(Number(x))
            && Number(x & 0x3333_3333) == LowW(Number(x))
            && Number((x >> 2) & 0x3333_3333) == HighW(Number(x))
            && Number(x & 0x0F0F_0F0F) == LowNibblesW(Number(x))
  {
    hide Num, Pack, Number, Odd8, Low8, High8, Word, Byte0, Byte1, Byte2, Byte3;
    OddBytes(a, b, c, d);
    LowBytes(a, b, c, d);
    HighBytes(a, b, c, d);
    NibbleBytes(a, b, c, d);
    NumberOfPack(a, b, c, d);
    NumberOfPack((a >> 1) & 0x55, (b >> 1) & 0x55, (c >> 1) & 0x55, (d >> 1) & 0x55);
    NumberOfPack(a & 0x33, b & 0x33, c & 0x33, d & 0x33);
    NumberOfPack((a >> 2) & 0x33, (b >> 2) & 0x33, (c >> 2) & 0x33, (d >> 2) & 0x33);
    NumberOfPack(a & 0x0F, b & 0x0F, c & 0x0F, d & 0x0F);
    OnesOfNum(a);
    OnesOfNum(b);
    OnesOfNum(c);
    OnesOfNum(d);
    BytesOf(Num(a), Num(b), Num(c), Num(d));
    OddMask(a);
    OtherMasks(a);
    OddMask(b);
    OtherMasks(b);
    OddMask(c);
    OtherMasks(c);
    OddMask(d);
    OtherMasks(d);
  }

  // Multiplying by 0x01010101 and shifting right by 24.
  function AddBytes(w: nat): nat { ((w * 0x0101_0101) % W32) / 16777216 }

  // Seven counts of at most eight: no byte, and not the sum of four, overflows.
  lemma AddBytesPacked(a: nat, b: nat, c: nat, d: nat)
    requires a <= 56 && b <= 56 && c <= 56 && d <= 56
    ensures AddBytes(Word(a, b, c, d)) == a + b + c + d
  {
    var low := Word(a, a + b, a + b + c, a + b + c + d);
    var high := Word(b + c + d, c + d, d, 0);
    assert Word(a, b, c, d) * 0x0101_0101 == low + W32 * high;
    BytesOf(a, a + b, a + b + c, a + b + c + d);
    CutHigh(low, high);
    TopByte(a, a + b, a + b + c, a + b + c + d);
  }

  lemma CutHigh(low: nat, high: nat)
    requires low < W32
    ensures (low + W32 * high) % W32 == low
  {
  }

  lemma TopByte(a: nat, b: nat, c: nat, d: nat)
    requires a < 256 && b < 256 && c < 256
    ensures Word(a, b, c, d) / 16777216 == d
  {
  }
}
