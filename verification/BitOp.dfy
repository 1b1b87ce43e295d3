/**
 * BITOP: eight operations on any number of strings of any lengths, each string taken
 * as zero-padded. A path over four words at a time and a tail over single bytes that
 * may stop early, against the definition of one bit.
 */
module BitOp {
  import opened Bitfield

  datatype Op = And | Or | Xor | Not | Diff | Diff1 | AndOr | One

  // ---------- one bit ----------

  function Ones(bits: seq<bool>): nat {
    if bits == [] then 0 else Ones(bits[..|bits| - 1]) + if bits[|bits| - 1] then 1 else 0
  }

  // The definition: `bits` are the bits of the first key and of the others.
  predicate Def(op: Op, bits: seq<bool>)
    requires bits != []
  {
    match op
    case And => Ones(bits) == |bits|
    case Or => Ones(bits) > 0
    case Xor => Ones(bits) % 2 == 1
    case Not => !bits[0]
    case Diff => bits[0] && Ones(bits[1..]) == 0
    case Diff1 => !bits[0] && Ones(bits[1..]) > 0
    case AndOr => bits[0] && Ones(bits[1..]) > 0
    case One => Ones(bits) == 1
  }

  // What the loops carry for one bit: output, disjunction of the later keys, and whether
  // two keys had it.
  datatype Lane<T> = Lane(o: T, d: T, c: T)

  function BitStart(op: Op, b: bool): Lane<bool> {
    Lane(if op.Not? then !b else b, false, false)
  }

  function BitStep(op: Op, l: Lane<bool>, b: bool): Lane<bool> {
    match op
    case And => l.(o := l.o && b)
    case Or => l.(o := l.o || b)
    case Xor => l.(o := l.o != b)
    case Not => l
    case Diff | Diff1 | AndOr => l.(d := l.d || b)
    case One =>
      var c := l.c || (l.o && b);
      l.(o := (l.o != b) && !c, c := c)
  }

  function BitEnd(op: Op, l: Lane<bool>): bool {
    match op
    case Diff => l.o && !l.d
    case Diff1 => !l.o && l.d
    case AndOr => l.o && l.d
    case _ => l.o
  }

  function BitFold(op: Op, bits: seq<bool>): Lane<bool>
    requires bits != []
  {
    if |bits| == 1 then BitStart(op, bits[0]) else BitStep(op, BitFold(op, bits[..|bits| - 1]), bits[|bits| - 1])
  }

  // The invariant of the loop over keys, for one bit.
  lemma {:induction false} BitFoldMeans(op: Op, bits: seq<bool>)
    requires bits != []
    ensures
      var l, n := BitFold(op, bits), Ones(bits);
      && (op.And? ==> l.o == (n == |bits|))
      && (op.Or? ==> l.o == (n > 0))
      && (op.Xor? ==> l.o == (n % 2 == 1))
      && (op.Not? ==> l.o == !bits[0])
      && (op.Diff? || op.Diff1? || op.AndOr? ==> l.o == bits[0] && l.d == (Ones(bits[1..]) > 0))
      && (op.One? ==> l.o == (n == 1) && l.c == (n >= 2))
    ensures Ones(bits) <= |bits|
  {
    if |bits| == 1 {
      assert bits[..0] == [] && bits[1..] == [];
    } else {
      var n := |bits| - 1;
      BitFoldMeans(op, bits[..n]);
      assert bits[1..][..n - 1] == bits[..n][1..] && bits[1..][n - 1] == bits[n];
    }
  }

  lemma BitFoldIsDef(op: Op, bits: seq<bool>)
    requires bits != []
    ensures BitEnd(op, BitFold(op, bits)) == Def(op, bits)
  {
    BitFoldMeans(op, bits);
  }

  // ---------- one byte ----------

  // The machine's operations on bytes.
  function Both(a: Byte, b: Byte): Byte { a & b }
  function Either(a: Byte, b: Byte): Byte { a | b }
  function Differ(a: Byte, b: Byte): Byte { a ^ b }
  function Flip(a: Byte): Byte { !a }

  function ByteStart(op: Op, b: Byte): Lane<Byte> {
    Lane(if op.Not? then Flip(b) else b, 0, 0)
  }

  function ByteStep(op: Op, l: Lane<Byte>, b: Byte): Lane<Byte> {
    match op
    case And => l.(o := Both(l.o, b))
    case Or => l.(o := Either(l.o, b))
    case Xor => l.(o := Differ(l.o, b))
    case Not => l
    case Diff | Diff1 | AndOr => l.(d := Either(l.d, b))
    case One =>
      var c := Either(l.c, Both(l.o, b));
      l.(o := Both(Differ(l.o, b), Flip(c)), c := c)
  }

  function ByteEnd(op: Op, l: Lane<Byte>): Byte {
    match op
    case Diff => Both(l.o, Flip(l.d))
    case Diff1 => Both(Flip(l.o), l.d)
    case AndOr => Both(l.o, l.d)
    case _ => l.o
  }

  function ByteFold(op: Op, bytes: seq<Byte>): Lane<Byte>
    requires bytes != []
  {
    if |bytes| == 1 then ByteStart(op, bytes[0]) else ByteStep(op, ByteFold(op, bytes[..|bytes| - 1]), bytes[|bytes| - 1])
  }

  predicate SingleBit(m: Byte) {
    m == 1 || m == 2 || m == 4 || m == 8 || m == 16 || m == 32 || m == 64 || m == 128
  }

  lemma MaskIsSingle(k: nat)
    ensures SingleBit(Mask(k))
  {
  }

  lemma MaskedOps(a: Byte, b: Byte, m: Byte)
    requires SingleBit(m)
    ensures (Both(a, b) & m != 0) == (a & m != 0 && b & m != 0)
    ensures (Either(a, b) & m != 0) == (a & m != 0 || b & m != 0)
    ensures (Differ(a, b) & m != 0) == ((a & m != 0) != (b & m != 0))
    ensures (Flip(a) & m != 0) == !(a & m != 0)
  {
  }

  lemma BitOps(a: Byte, b: Byte, k: nat)
    ensures BitOf(Both(a, b), k) == (BitOf(a, k) && BitOf(b, k))
    ensures BitOf(Either(a, b), k) == (BitOf(a, k) || BitOf(b, k))
    ensures BitOf(Differ(a, b), k) == (BitOf(a, k) != BitOf(b, k))
    ensures BitOf(Flip(a), k) == !BitOf(a, k)
  {
    hide Mask, Both, Either, Differ, Flip;
    MaskIsSingle(k);
    MaskedOps(a, b, Mask(k));
  }

  function LaneBit(l: Lane<Byte>, k: nat): Lane<bool> {
    Lane(BitOf(l.o, k), BitOf(l.d, k), BitOf(l.c, k))
  }

  lemma ByteStepBits(op: Op, l: Lane<Byte>, b: Byte, k: nat)
    ensures LaneBit(ByteStep(op, l, b), k) == BitStep(op, LaneBit(l, k), BitOf(b, k))
  {
    hide BitOf, Both, Either, Differ, Flip;
    BitOps(l.o, b, k);
    BitOps(l.d, b, k);
    var c := Either(l.c, Both(l.o, b));
    BitOps(l.c, Both(l.o, b), k);
    BitOps(c, c, k);
    BitOps(Differ(l.o, b), Flip(c), k);
  }

  lemma ByteEndBits(op: Op, l: Lane<Byte>, k: nat)
    ensures BitOf(ByteEnd(op, l), k) == BitEnd(op, LaneBit(l, k))
  {
    hide BitOf, Both, Either, Differ, Flip;
    BitOps(l.o, l.d, k);
    BitOps(l.d, l.d, k);
    BitOps(l.o, Flip(l.d), k);
    BitOps(Flip(l.o), l.d, k);
  }

  function BitsAt(bytes: seq<Byte>, k: nat): seq<bool> {
    seq(|bytes|, i requires 0 <= i < |bytes| => BitOf(bytes[i], k))
  }

  lemma {:induction false} ByteFoldBits(op: Op, bytes: seq<Byte>, k: nat)
    requires bytes != []
    ensures LaneBit(ByteFold(op, bytes), k) == BitFold(op, BitsAt(bytes, k))
  {
    hide BitOf;
    if |bytes| == 1 {
      StartBits(op, bytes[0], k);
    } else {
      var n := |bytes| - 1;
      ByteFoldBits(op, bytes[..n], k);
      ByteStepBits(op, ByteFold(op, bytes[..n]), bytes[n], k);
      assert BitsAt(bytes, k)[..n] == BitsAt(bytes[..n], k);
    }
  }

  lemma StartBits(op: Op, b: Byte, k: nat)
    ensures LaneBit(ByteStart(op, b), k) == BitStart(op, BitOf(b, k))
  {
    BitOps(b, b, k);
    ZeroByte(k);
  }

  // A whole byte of the result, bit by bit.
  ghost predicate Right(op: Op, bytes: seq<Byte>, r: Byte)
    requires bytes != []
  {
    forall k: nat | k < 8 :: BitOf(r, k) == Def(op, BitsAt(bytes, k))
  }

  lemma ByteFoldRight(op: Op, bytes: seq<Byte>)
    requires bytes != []
    ensures Right(op, bytes, ByteEnd(op, ByteFold(op, bytes)))
  {
    hide BitOf, ByteEnd, ByteFold;
    forall k: nat | k < 8
      ensures BitOf(ByteEnd(op, ByteFold(op, bytes)), k) == Def(op, BitsAt(bytes, k))
    {
      ByteFoldBits(op, bytes, k);
      ByteEndBits(op, ByteFold(op, bytes), k);
      BitFoldIsDef(op, BitsAt(bytes, k));
    }
  }

  // ---------- stopping early ----------

  // The byte loop stops when no later key can change the result.
  predicate Stops(op: Op, l: Lane<Byte>) {
    match op
    case And => l.o == 0
    case Or => l.o == 0xff
    case Diff | Diff1 | AndOr => l.d == 0xff
    case One => l.c == 0xff && l.o == 0
    case _ => false
  }

  lemma StopStays(op: Op, l: Lane<Byte>, b: Byte)
    requires Stops(op, l)
    ensures Stops(op, ByteStep(op, l, b)) && ByteEnd(op, ByteStep(op, l, b)) == ByteEnd(op, l)
  {
  }

  lemma {:induction false} StopIsFinal(op: Op, bytes: seq<Byte>, i: nat)
    requires 0 < i <= |bytes| && Stops(op, ByteFold(op, bytes[..i]))
    ensures Stops(op, ByteFold(op, bytes)) && ByteEnd(op, ByteFold(op, bytes)) == ByteEnd(op, ByteFold(op, bytes[..i]))
  {
    hide Stops, ByteStep, ByteEnd;
    if i == |bytes| {
      assert bytes[..i] == bytes;
    } else {
      var n := |bytes| - 1;
      assert bytes[..n][..i] == bytes[..i];
      StopIsFinal(op, bytes[..n], i);
      StopStays(op, ByteFold(op, bytes[..n]), bytes[n]);
    }
  }

  // A ONE lane whose common bits are all set has no output bit left.
  lemma AllCommon(l: Lane<Byte>, b: Byte)
    requires ByteStep(One, l, b).c == 0xff
    ensures ByteStep(One, l, b).o == 0
  {
  }

  // ---------- the strings ----------

  function At(key: seq<Byte>, j: nat): Byte {
    if |key| <= j then 0 else key[j]
  }

  // The bytes of all keys at one position.
  function Column(keys: seq<seq<Byte>>, j: nat): seq<Byte> {
    seq(|keys|, i requires 0 <= i < |keys| => At(keys[i], j))
  }

  lemma FoldMore(op: Op, bytes: seq<Byte>, i: nat)
    requires 0 < i < |bytes|
    ensures ByteFold(op, bytes[..i + 1]) == ByteStep(op, ByteFold(op, bytes[..i]), bytes[i])
  {
    assert bytes[..i + 1][..i] == bytes[..i];
  }

  // The byte at `j`: the loop over the keys, with its early exit.
  method OneByte(op: Op, keys: seq<seq<Byte>>, j: nat) returns (r: Byte)
    requires keys != []
    ensures Right(op, Column(keys, j), r)
  {
    hide Right, ByteStart, ByteFold, ByteEnd, Stops;
    ghost var bytes := Column(keys, j);
    var l := ByteStart(op, At(keys[0], j));
    FoldFirst(op, bytes);
    var i := 1;
    while i < |keys|
      invariant 1 <= i <= |keys| && l == ByteFold(op, bytes[..i])
    {
      var byte := At(keys[i], j);
      FoldMore(op, bytes, i);
      ghost var was := l;
      l := ByteStep(op, l, byte);
      i := i + 1;
      if Enough(op, l) {
        StopsHere(op, was, byte);
        StopIsFinal(op, bytes, i);
        break;
      }
    }
    assert i == |keys| ==> bytes[..i] == bytes;
    ByteFoldRight(op, bytes);
    r := ByteEnd(op, l);
  }

  // The test of the byte loop.
  predicate Enough(op: Op, l: Lane<Byte>) {
    match op
    case And => l.o == 0
    case Or => l.o == 0xff
    case Diff | Diff1 | AndOr => l.d == 0xff
    case One => l.c == 0xff
    case _ => false
  }

  lemma StopsHere(op: Op, l: Lane<Byte>, b: Byte)
    requires Enough(op, ByteStep(op, l, b))
    ensures Stops(op, ByteStep(op, l, b))
  {
    if op.One? {
      AllCommon(l, b);
    }
  }

  lemma FoldFirst(op: Op, bytes: seq<Byte>)
    requires bytes != []
    ensures ByteFold(op, bytes[..1]) == ByteStart(op, bytes[0])
  {
  }

  // ---------- one word ----------

  type Word = bv64

  function Low(w: Word): Byte {
    (w & 0xff) as bv8
  }

  function Shifted(w: Word, i: nat): Word {
    if i == 0 then w else Shift8(Shifted(w, i - 1))
  }

  function Shift8(w: Word): Word {
    w >> 8
  }

  function WordByte(w: Word, i: nat): Byte {
    Low(Shifted(w, i))
  }

  function Pack(b0: Byte, b1: Byte, b2: Byte, b3: Byte, b4: Byte, b5: Byte, b6: Byte, b7: Byte): Word {
    (b0 as bv64) | ((b1 as bv64) << 8) | ((b2 as bv64) << 16) | ((b3 as bv64) << 24)
      | ((b4 as bv64) << 32) | ((b5 as bv64) << 40) | ((b6 as bv64) << 48) | ((b7 as bv64) << 56)
  }

  function Load(s: seq<Byte>, off: nat): Word
    requires off + 8 <= |s|
  {
    Pack(s[off], s[off + 1], s[off + 2], s[off + 3], s[off + 4], s[off + 5], s[off + 6], s[off + 7])
  }

  lemma PackBytes(b0: Byte, b1: Byte, b2: Byte, b3: Byte, b4: Byte, b5: Byte, b6: Byte, b7: Byte)
    ensures
      var w := Pack(b0, b1, b2, b3, b4, b5, b6, b7);
      && WordByte(w, 0) == b0 && WordByte(w, 1) == b1 && WordByte(w, 2) == b2 && WordByte(w, 3) == b3
      && WordByte(w, 4) == b4 && WordByte(w, 5) == b5 && WordByte(w, 6) == b6 && WordByte(w, 7) == b7
  {
  }

  lemma LoadByte(s: seq<Byte>, off: nat, i: nat)
    requires off + 8 <= |s| && i < 8
    ensures WordByte(Load(s, off), i) == s[off + i]
  {
    hide WordByte, Pack;
    PackBytes(s[off], s[off + 1], s[off + 2], s[off + 3], s[off + 4], s[off + 5], s[off + 6], s[off + 7]);
  }

  function BothW(a: Word, b: Word): Word { a & b }
  function EitherW(a: Word, b: Word): Word { a | b }
  function DifferW(a: Word, b: Word): Word { a ^ b }
  function FlipW(a: Word): Word { !a }

  lemma LowBoth(a: Word, b: Word)
    ensures Low(BothW(a, b)) == Both(Low(a), Low(b))
  {
  }

  lemma Shift8Both(a: Word, b: Word)
    ensures Shift8(BothW(a, b)) == BothW(Shift8(a), Shift8(b))
  {
  }

  lemma {:induction false} ShiftBoth(a: Word, b: Word, i: nat)
    ensures Shifted(BothW(a, b), i) == BothW(Shifted(a, i), Shifted(b, i))
  {
    hide BothW, Shift8;
    if i > 0 {
      ShiftBoth(a, b, i - 1);
      Shift8Both(Shifted(a, i - 1), Shifted(b, i - 1));
    }
  }

  lemma BothBytes(a: Word, b: Word, i: nat)
    ensures WordByte(BothW(a, b), i) == Both(WordByte(a, i), WordByte(b, i))
  {
    hide BothW, Both, Low, Shifted;
    ShiftBoth(a, b, i);
    LowBoth(Shifted(a, i), Shifted(b, i));
  }

  lemma LowEither(a: Word, b: Word)
    ensures Low(EitherW(a, b)) == Either(Low(a), Low(b))
  {
  }

  lemma Shift8Either(a: Word, b: Word)
    ensures Shift8(EitherW(a, b)) == EitherW(Shift8(a), Shift8(b))
  {
  }

  lemma {:induction false} ShiftEither(a: Word, b: Word, i: nat)
    ensures Shifted(EitherW(a, b), i) == EitherW(Shifted(a, i), Shifted(b, i))
  {
    hide EitherW, Shift8;
    if i > 0 {
      ShiftEither(a, b, i - 1);
      Shift8Either(Shifted(a, i - 1), Shifted(b, i - 1));
    }
  }

  lemma EitherBytes(a: Word, b: Word, i: nat)
    ensures WordByte(EitherW(a, b), i) == Either(WordByte(a, i), WordByte(b, i))
  {
    hide EitherW, Either, Low, Shifted;
    ShiftEither(a, b, i);
    LowEither(Shifted(a, i), Shifted(b, i));
  }

  lemma LowDiffer(a: Word, b: Word)
    ensures Low(DifferW(a, b)) == Differ(Low(a), Low(b))
  {
  }

  lemma Shift8Differ(a: Word, b: Word)
    ensures Shift8(DifferW(a, b)) == DifferW(Shift8(a), Shift8(b))
  {
  }

  lemma {:induction false} ShiftDiffer(a: Word, b: Word, i: nat)
    ensures Shifted(DifferW(a, b), i) == DifferW(Shifted(a, i), Shifted(b, i))
  {
    hide DifferW, Shift8;
    if i > 0 {
      ShiftDiffer(a, b, i - 1);
      Shift8Differ(Shifted(a, i - 1), Shifted(b, i - 1));
    }
  }

  lemma DifferBytes(a: Word, b: Word, i: nat)
    ensures WordByte(DifferW(a, b), i) == Differ(WordByte(a, i), WordByte(b, i))
  {
    hide DifferW, Differ, Low, Shifted;
    ShiftDiffer(a, b, i);
    LowDiffer(Shifted(a, i), Shifted(b, i));
  }

  const ALL: Word := 0xffff_ffff_ffff_ffff

  lemma FlipIsXor(a: Word, b: Byte)
    ensures FlipW(a) == DifferW(a, ALL) && Flip(b) == Differ(b, 0xff)
  {
  }

  lemma AllOnes(i: nat)
    requires i < 8
    ensures WordByte(ALL, i) == 0xff
  {
    assert Shifted(ALL, 1) == 0xff_ffff_ffff_ffff;
    assert Shifted(ALL, 2) == 0xffff_ffff_ffff;
    assert Shifted(ALL, 3) == 0xff_ffff_ffff;
    assert Shifted(ALL, 4) == 0xffff_ffff;
    assert Shifted(ALL, 5) == 0xff_ffff;
    assert Shifted(ALL, 6) == 0xffff;
    assert Shifted(ALL, 7) == 0xff;
  }

  lemma FlipBytes(a: Word, i: nat)
    requires i < 8
    ensures WordByte(FlipW(a), i) == Flip(WordByte(a, i))
  {
    hide WordByte, DifferW, FlipW, Differ, Flip;
    FlipIsXor(a, WordByte(a, i));
    AllOnes(i);
    DifferBytes(a, ALL, i);
  }

  // Operations on words are operations on each of their bytes.
  lemma WordOps(a: Word, b: Word, i: nat)
    requires i < 8
    ensures WordByte(BothW(a, b), i) == Both(WordByte(a, i), WordByte(b, i))
    ensures WordByte(EitherW(a, b), i) == Either(WordByte(a, i), WordByte(b, i))
    ensures WordByte(DifferW(a, b), i) == Differ(WordByte(a, i), WordByte(b, i))
    ensures WordByte(FlipW(a), i) == Flip(WordByte(a, i))
  {
    hide WordByte, BothW, EitherW, DifferW, FlipW, Both, Either, Differ, Flip;
    BothBytes(a, b, i);
    EitherBytes(a, b, i);
    DifferBytes(a, b, i);
    FlipBytes(a, i);
  }

  function BitOfWord(w: Word, i: nat, k: nat): bool {
    BitOf(WordByte(w, i), k)
  }

  lemma WordBitOps(a: Word, b: Word, i: nat, k: nat)
    requires i < 8
    ensures BitOfWord(BothW(a, b), i, k) == (BitOfWord(a, i, k) && BitOfWord(b, i, k))
    ensures BitOfWord(EitherW(a, b), i, k) == (BitOfWord(a, i, k) || BitOfWord(b, i, k))
    ensures BitOfWord(DifferW(a, b), i, k) == (BitOfWord(a, i, k) != BitOfWord(b, i, k))
    ensures BitOfWord(FlipW(a), i, k) == !BitOfWord(a, i, k)
  {
    hide WordByte, BitOf, BothW, EitherW, DifferW, FlipW, Both, Either, Differ, Flip;
    WordOps(a, b, i);
    BitOps(WordByte(a, i), WordByte(b, i), k);
  }

  // ---------- the loop over words ----------

  predicate Combines(op: Op) {
    op.Diff? || op.Diff1? || op.AndOr?
  }

  // Unlike the byte loop, ONE takes the common bits out once, at the end, and NOT flips
  // at the end.
  function WordStep(op: Op, l: Lane<Word>, w: Word): Lane<Word> {
    match op
    case And => l.(o := BothW(l.o, w))
    case Or => l.(o := EitherW(l.o, w))
    case Xor => l.(o := DifferW(l.o, w))
    case Not => l
    case Diff | Diff1 | AndOr => l.(d := EitherW(l.d, w))
    case One => l.(c := EitherW(l.c, BothW(l.o, w)), o := DifferW(l.o, w))
  }

  function WordEnd(op: Op, l: Lane<Word>): Word {
    match op
    case Diff => BothW(l.o, FlipW(l.d))
    case Diff1 => BothW(FlipW(l.o), l.d)
    case AndOr => BothW(l.o, l.d)
    case Not => FlipW(l.o)
    case One => BothW(l.o, FlipW(l.c))
    case _ => l.o
  }

  function WordFold(op: Op, ws: seq<Word>): Lane<Word>
    requires ws != []
  {
    if |ws| == 1 then Lane(ws[0], 0, 0) else WordStep(op, WordFold(op, ws[..|ws| - 1]), ws[|ws| - 1])
  }

  function FastStep(op: Op, l: Lane<bool>, b: bool): Lane<bool> {
    match op
    case One => l.(c := l.c || (l.o && b), o := l.o != b)
    case _ => BitStep(op, l, b)
  }

  function FastEnd(op: Op, l: Lane<bool>): bool {
    match op
    case Not => !l.o
    case One => l.o && !l.c
    case _ => BitEnd(op, l)
  }

  function FastFold(op: Op, bits: seq<bool>): Lane<bool>
    requires bits != []
  {
    if |bits| == 1 then Lane(bits[0], false, false) else FastStep(op, FastFold(op, bits[..|bits| - 1]), bits[|bits| - 1])
  }

  lemma {:induction false} FastFoldMeans(op: Op, bits: seq<bool>)
    requires bits != []
    ensures op.One? ==> FastFold(op, bits).o == (Ones(bits) % 2 == 1) && FastFold(op, bits).c == (Ones(bits) >= 2)
    ensures op.Not? ==> FastFold(op, bits).o == bits[0]
    ensures !op.One? && !op.Not? ==> FastFold(op, bits) == BitFold(op, bits)
  {
    if |bits| == 1 {
      assert bits[..0] == [];
    } else {
      FastFoldMeans(op, bits[..|bits| - 1]);
    }
  }

  lemma FastIsDef(op: Op, bits: seq<bool>)
    requires bits != []
    ensures FastEnd(op, FastFold(op, bits)) == Def(op, bits)
  {
    FastFoldMeans(op, bits);
    BitFoldIsDef(op, bits);
  }

  function LaneWord(l: Lane<Word>, i: nat, k: nat): Lane<bool> {
    Lane(BitOfWord(l.o, i, k), BitOfWord(l.d, i, k), BitOfWord(l.c, i, k))
  }

  lemma WordStepBits(op: Op, l: Lane<Word>, w: Word, i: nat, k: nat)
    requires i < 8
    ensures LaneWord(WordStep(op, l, w), i, k) == FastStep(op, LaneWord(l, i, k), BitOfWord(w, i, k))
  {
    hide BitOfWord, BothW, EitherW, DifferW, FlipW;
    WordBitOps(l.o, w, i, k);
    WordBitOps(l.d, w, i, k);
    WordBitOps(l.c, BothW(l.o, w), i, k);
  }

  lemma WordEndBits(op: Op, l: Lane<Word>, i: nat, k: nat)
    requires i < 8
    ensures BitOfWord(WordEnd(op, l), i, k) == FastEnd(op, LaneWord(l, i, k))
  {
    hide BitOfWord, BothW, EitherW, DifferW, FlipW;
    WordBitOps(l.o, l.d, i, k);
    WordBitOps(l.d, l.d, i, k);
    WordBitOps(l.c, l.c, i, k);
    WordBitOps(l.o, FlipW(l.d), i, k);
    WordBitOps(FlipW(l.o), l.d, i, k);
    WordBitOps(l.o, FlipW(l.c), i, k);
  }

  function WordBits(ws: seq<Word>, i: nat, k: nat): seq<bool> {
    seq(|ws|, x requires 0 <= x < |ws| => BitOfWord(ws[x], i, k))
  }

  lemma ZeroWord(i: nat, k: nat)
    requires i < 8
    ensures !BitOfWord(0, i, k)
  {
    assert Shifted(0, i) == 0 by {
      ZeroShifted(i);
    }
    ZeroByte(k);
  }

  lemma {:induction false} ZeroShifted(i: nat)
    ensures Shifted(0, i) == 0
  {
    if i > 0 {
      ZeroShifted(i - 1);
    }
  }

  lemma {:induction false} WordFoldBits(op: Op, ws: seq<Word>, i: nat, k: nat)
    requires ws != [] && i < 8
    ensures LaneWord(WordFold(op, ws), i, k) == FastFold(op, WordBits(ws, i, k))
  {
    hide BitOfWord, WordStep;
    if |ws| == 1 {
      ZeroWord(i, k);
    } else {
      var n := |ws| - 1;
      WordFoldBits(op, ws[..n], i, k);
      WordStepBits(op, WordFold(op, ws[..n]), ws[n], i, k);
      assert WordBits(ws, i, k)[..n] == WordBits(ws[..n], i, k);
    }
  }

  function Loaded(keys: seq<seq<Byte>>, off: nat): seq<Word>
    requires forall x | 0 <= x < |keys| :: off + 8 <= |keys[x]|
  {
    seq(|keys|, x requires 0 <= x < |keys| => Load(keys[x], off))
  }

  // Each byte of a result word is right for its position.
  lemma WordRight(op: Op, keys: seq<seq<Byte>>, off: nat, i: nat)
    requires keys != [] && i < 8 && forall x | 0 <= x < |keys| :: off + 8 <= |keys[x]|
    ensures Right(op, Column(keys, off + i), WordByte(WordEnd(op, WordFold(op, Loaded(keys, off))), i))
  {
    hide BitOf, WordByte, WordEnd, WordFold, Load, Def, FastFold, FastEnd;
    var ws := Loaded(keys, off);
    var r := WordByte(WordEnd(op, WordFold(op, ws)), i);
    var bytes := Column(keys, off + i);
    forall k: nat | k < 8
      ensures BitOf(r, k) == Def(op, BitsAt(bytes, k))
    {
      WordFoldBits(op, ws, i, k);
      WordEndBits(op, WordFold(op, ws), i, k);
      FastIsDef(op, WordBits(ws, i, k));
      forall x | 0 <= x < |keys|
        ensures WordBits(ws, i, k)[x] == BitsAt(bytes, k)[x]
      {
        LoadByte(keys[x], off, i);
      }
      assert WordBits(ws, i, k) == BitsAt(bytes, k);
    }
  }
}
