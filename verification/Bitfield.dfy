/**
 * BITFIELD on a string of bytes: fields of any width at any bit offset, most significant
 * bit first, read and written bit by bit.
 */
module Bitfield {
  import opened Prelude
  import opened BitRange

  type Byte = bv8

  // ---------- bits of a byte ----------

  function Mask(k: nat): Byte {
    match k
    case 0 => 1
    case 1 => 2
    case 2 => 4
    case 3 => 8
    case 4 => 16
    case 5 => 32
    case 6 => 64
    case _ => 128
  }

  predicate BitOf(b: Byte, k: nat) {
    b & Mask(k) != 0
  }

  function WithBit(b: Byte, k: nat, v: bool): Byte {
    (b & !Mask(k)) | (if v then Mask(k) else 0)
  }

  lemma MaskedOnly(b: Byte, m: Byte, n: Byte, v: bool)
    requires m & n == 0 && m != 0
    ensures ((b & !m) | (if v then m else 0)) & n == b & n
    ensures (((b & !m) | (if v then m else 0)) & m != 0) == v
  {
  }

  lemma MasksApart(j: nat, k: nat)
    requires j < 8 && k < 8 && j != k
    ensures Mask(k) & Mask(j) == 0
  {
  }

  lemma WithBitFacts(b: Byte, k: nat, v: bool, j: nat)
    requires j < 8 && k < 8
    ensures BitOf(WithBit(b, k, v), j) == if j == k then v else BitOf(b, j)
  {
    if j != k {
      MasksApart(j, k);
    }
    MaskedOnly(b, Mask(k), if j == k then 0 else Mask(j), v);
  }

  // ---------- bits of a string ----------

  predicate BitAt(s: seq<Byte>, off: nat) {
    off / 8 < |s| && BitOf(s[off / 8], 7 - off % 8)
  }

  // A field, read with zeros past the end of the string.
  function Field(s: seq<Byte>, off: nat, bits: nat): (f: seq<bool>)
    ensures |f| == bits
  {
    seq(bits, i requires 0 <= i < bits => BitAt(s, off + i))
  }

  function Value(f: seq<bool>): nat {
    if f == [] then 0 else 2 * Value(f[..|f| - 1]) + (if f[|f| - 1] then 1 else 0)
  }

  function BitsOf(v: nat, n: nat): (f: seq<bool>)
    ensures |f| == n
  {
    seq(n, j requires 0 <= j < n => (v / Pow2(n - 1 - j)) % 2 == 1)
  }

  lemma {:induction false} ValueBound(f: seq<bool>)
    ensures Value(f) < Pow2(|f|)
  {
    if f != [] {
      ValueBound(f[..|f| - 1]);
    }
  }

  lemma HalfFirst(v: nat, p: nat)
    requires p > 0
    ensures v / (2 * p) == (v / 2) / p
  {
    var q := (v / 2) / p;
    var r := (v / 2) % p;
    assert v / 2 == q * p + r;
    assert v == q * (2 * p) + (2 * r + v % 2);
    DivUnique(v, 2 * p, q, 2 * r + v % 2);
  }

  lemma DivUnique(m: nat, n: nat, q: nat, r: nat)
    requires n > 0 && m == q * n + r && r < n
    ensures m / n == q && m % n == r
  {
    assert m == (m / n) * n + m % n;
    var d := m / n - q;
    assert d * n == (m / n) * n - q * n;
    NoMultiple(d, n, r - m % n);
    assert d == 0 by {
      assert d >= 1 ==> d * n >= n;
      assert d <= -1 ==> (-d) * n >= n;
    }
  }

  lemma BitsOfHalf(v: nat, n: nat)
    requires n > 0
    ensures BitsOf(v, n)[..n - 1] == BitsOf(v / 2, n - 1)
    ensures BitsOf(v, n)[n - 1] == (v % 2 == 1)
  {
    forall j | 0 <= j < n - 1
      ensures BitsOf(v, n)[j] == BitsOf(v / 2, n - 1)[j]
    {
      HalfFirst(v, Pow2(n - 2 - j));
      assert Pow2(n - 1 - j) == 2 * Pow2(n - 2 - j);
    }
    assert Pow2(0) == 1;
  }

  lemma RestHalf(v: nat, p: nat)
    requires p > 0
    ensures v % (2 * p) == 2 * ((v / 2) % p) + v % 2
  {
    var q, r := (v / 2) / p, (v / 2) % p;
    assert v / 2 == q * p + r;
    assert v == q * (2 * p) + (2 * r + v % 2);
    DivUnique(v, 2 * p, q, 2 * r + v % 2);
  }

  // Writing a number into a field and reading it back cuts it to the field.
  lemma {:induction false} ValueOfBits(v: nat, n: nat)
    ensures Value(BitsOf(v, n)) == v % Pow2(n)
  {
    if n == 0 {
      assert Pow2(0) == 1;
    } else {
      BitsOfHalf(v, n);
      ValueOfBits(v / 2, n - 1);
      RestHalf(v, Pow2(n - 1));
      hide BitsOf;
    }
  }

  // Bits are numbered from the most significant of each byte, and fields read most
  // significant bit first.
  lemma Numbering(s: seq<Byte>, i: nat, a: bool, b: bool)
    requires i < |s|
    ensures BitAt(s, 8 * i) <==> s[i] >= 128
    ensures BitAt(s, 8 * i + 7) <==> s[i] & 1 == 1
    ensures Value([a, b]) == (if a then 2 else 0) + (if b then 1 else 0)
  {
    TopBit(s[i]);
    assert Value([]) == 0;
    assert [a][..0] == [] && Value([a]) == if a then 1 else 0;
    assert [a, b][..1] == [a];
  }

  lemma TopBit(b: Byte)
    ensures b & 128 != 0 <==> b >= 128
    ensures b & 1 != 0 <==> b & 1 == 1
  {
  }

  // ---------- reading and writing ----------

  lemma FieldMore(s: seq<Byte>, offset: nat, j: nat)
    ensures Value(Field(s, offset, j + 1)) == 2 * Value(Field(s, offset, j)) + (if BitAt(s, offset + j) then 1 else 0)
  {
    hide BitAt;
    assert Field(s, offset, j + 1)[..j] == Field(s, offset, j);
  }

  // getUnsignedBitfield.
  method GetUnsigned(s: seq<Byte>, offset: nat, bits: nat) returns (v: nat)
    requires offset + bits <= 8 * |s|
    ensures v == Value(Field(s, offset, bits))
  {
    v := 0;
    var j, off := 0, offset;
    while j < bits
      invariant 0 <= j <= bits && off == offset + j && v == Value(Field(s, offset, j))
    {
      var bit := BitOf(s[off / 8], 7 - off % 8);
      assert BitAt(s, off) == bit;
      FieldMore(s, offset, j);
      v := 2 * v + (if bit then 1 else 0);
      off := off + 1;
      j := j + 1;
    }
  }

  // setUnsignedBitfield: the field holds the low bits of the value, no other bit changes.
  method SetUnsigned(p: array<Byte>, offset: nat, bits: nat, value: nat)
    requires offset + bits <= 8 * p.Length
    modifies p
    ensures Field(p[..], offset, bits) == BitsOf(value, bits)
    ensures forall o: nat | o < offset || o >= offset + bits :: BitAt(p[..], o) == BitAt(old(p[..]), o)
  {
    var j, off := 0, offset;
    while j < bits
      invariant 0 <= j <= bits && off == offset + j
      invariant forall i | 0 <= i < j :: BitAt(p[..], offset + i) == BitsOf(value, bits)[i]
      invariant forall o: nat | o < offset || o >= offset + j :: BitAt(p[..], o) == BitAt(old(p[..]), o)
    {
      var bit := (value / Pow2(bits - 1 - j)) % 2 == 1;
      ghost var was := p[..];
      p[off / 8] := WithBit(p[off / 8], 7 - off % 8, bit);
      OneBit(was, p[..], off, bit);
      off := off + 1;
      j := j + 1;
    }
  }

  lemma OneBit(s: seq<Byte>, t: seq<Byte>, off: nat, v: bool)
    requires off / 8 < |s| && t == s[off / 8 := WithBit(s[off / 8], 7 - off % 8, v)]
    ensures forall o: nat :: BitAt(t, o) == if o == off then v else BitAt(s, o)
  {
    hide WithBit, BitOf;
    forall o: nat
      ensures BitAt(t, o) == if o == off then v else BitAt(s, o)
    {
      if o / 8 == off / 8 {
        WithBitFacts(s[off / 8], 7 - off % 8, v, 7 - o % 8);
      }
    }
  }

  // GET through a nine-byte buffer, so that a field may reach past the end of the string.
  method GetPadded(src: seq<Byte>, offset: nat, bits: nat) returns (v: nat)
    requires bits <= 64
    ensures v == Value(Field(src, offset, bits))
  {
    hide BitAt, BitOf, Field, Value;
    var first := offset / 8;
    var buf := new Byte[9](_ => 0);
    var i := 0;
    while i < 9
      invariant 0 <= i <= 9 && (i > 0 ==> first + i - 1 < |src|)
      invariant forall k | 0 <= k < 9 :: buf[k] == if k < i then src[first + k] else 0
    {
      if i + first >= |src| {
        break;
      }
      buf[i] := src[i + first];
      i := i + 1;
    }
    BufferBits(buf[..], src, first);
    SameField(buf[..], src, first, offset, bits);
    v := GetUnsigned(buf[..], offset - first * 8, bits);
  }

  lemma SameField(b: seq<Byte>, src: seq<Byte>, first: nat, offset: nat, bits: nat)
    requires 8 * first <= offset && offset - 8 * first + bits <= 72
    requires forall o: nat | o < 72 :: BitAt(b, o) == BitAt(src, 8 * first + o)
    ensures Field(b, offset - first * 8, bits) == Field(src, offset, bits)
  {
    hide BitAt;
    forall i | 0 <= i < bits
      ensures Field(b, offset - first * 8, bits)[i] == Field(src, offset, bits)[i]
    {
      var o := offset - first * 8 + i;
      assert BitAt(b, o) == BitAt(src, 8 * first + o);
    }
  }

  lemma BufferBits(b: seq<Byte>, src: seq<Byte>, first: nat)
    requires |b| == 9 && forall k | 0 <= k < 9 :: b[k] == if first + k < |src| then src[first + k] else 0
    ensures forall o: nat | o < 72 :: BitAt(b, o) == BitAt(src, 8 * first + o)
  {
    hide BitOf;
    forall o: nat | o < 72
      ensures BitAt(b, o) == BitAt(src, 8 * first + o)
    {
      ZeroByte(7 - o % 8);
      assert (8 * first + o) / 8 == first + o / 8;
    }
  }

  lemma ZeroByte(k: nat)
    ensures !BitOf(0, k)
  {
  }

  // ---------- numbers in fields ----------

  // What the bits of a field stand for.
  function Meaning(sign: bool, bits: nat, u: nat): int
    requires bits >= 1
  {
    if sign && u >= Pow2(bits - 1) then u - Pow2(bits) else u
  }

  // getSignedBitfield's conversion and sign extension.
  function Extend(bits: nat, u: nat): int
    requires 1 <= bits <= 64
  {
    if bits == 64 then I64(u) else if u >= Pow2(bits - 1) then I64(u + (W - Pow2(bits))) else u
  }

  lemma ExtendMeans(bits: nat, u: nat)
    requires 1 <= bits <= 64 && u < Pow2(bits)
    ensures Extend(bits, u) == Meaning(true, bits, u) && InField(true, bits, Extend(bits, u))
  {
    Pow2Facts(bits);
    hide Pow2, I64;
    if bits == 64 {
      WholeSigned(u);
    } else {
      HighWord(u, Pow2(bits));
    }
  }

  lemma WholeSigned(u: nat)
    requires u < W
    ensures I64(u) == if u >= HALF then u - W else u
  {
  }

  function Stored(s: seq<Byte>, offset: nat, bits: nat, sign: bool): int
    requires bits >= 1
  {
    Meaning(sign, bits, Value(Field(s, offset, bits)))
  }

  lemma StoredInField(s: seq<Byte>, offset: nat, bits: nat, sign: bool)
    requires Width(sign, bits)
    ensures InField(sign, bits, Stored(s, offset, bits, sign))
  {
    ValueBound(Field(s, offset, bits));
    Pow2Facts(bits);
    hide Pow2, Field, Value;
  }

  // A value of the field, cast to unsigned and cut to the field, is stored as itself.
  lemma StoreKeeps(sign: bool, bits: nat, v: int)
    requires Width(sign, bits) && InField(sign, bits, v)
    ensures Meaning(sign, bits, U64(v) % Pow2(bits)) == v
  {
    CutUnsignedOrWhole(v, bits);
    Pow2Facts(bits);
    hide Pow2, U64;
    RestInField(v, Pow2(bits));
  }

  lemma RestInField(v: int, p: nat)
    requires -v <= p && v < p && p > 0
    ensures v % p == if v >= 0 then v else if v + p == 0 then 0 else v + p
  {
    if v < 0 {
      SameRest(v, v + p, -1, p);
      if v + p > 0 {
        Small(v + p, p);
      }
    } else {
      Small(v, p);
    }
  }

  lemma Small(v: int, p: nat)
    requires 0 <= v < p
    ensures v % p == v
  {
  }

  lemma CutUnsignedOrWhole(v: int, bits: nat)
    requires bits <= 64
    ensures U64(v) % Pow2(bits) == v % Pow2(bits)
  {
    if bits < 64 {
      CutUnsigned(v, bits);
      hide U64, Pow2;
      SmallRest(U64(v), Pow2(bits));
    } else {
      Pow2Doubles();
      hide Pow2;
      WordOnce(v);
    }
  }

  lemma WordOnce(v: int)
    ensures U64(v) % W == v % W
  {
  }

  // GET of a field, signed or not.
  method Get(src: seq<Byte>, offset: nat, bits: nat, sign: bool) returns (v: int)
    requires Width(sign, bits)
    ensures v == Stored(src, offset, bits, sign) && InField(sign, bits, v)
  {
    hide Field, Value, Pow2;
    var u := GetPadded(src, offset, bits);
    ValueBound(Field(src, offset, bits));
    StoredInField(src, offset, bits, sign);
    if sign {
      ExtendMeans(bits, u);
      v := Extend(bits, u);
    } else {
      v := u;
    }
  }

  /**
   * INCRBY. The reply is the value a later GET returns; no bit outside the field
   * changes. It is the exact sum if that fits; otherwise WRAP stores the congruent
   * value, SAT the nearest, and FAIL replies nothing and leaves every bit alone.
   */
  method IncrBy(p: array<Byte>, offset: nat, bits: nat, sign: bool, incr: int, ow: Policy) returns (reply: Option<int>)
    requires Width(sign, bits) && offset + bits <= 8 * p.Length && IsI64(incr)
    modifies p
    ensures
      var sum := Stored(old(p[..]), offset, bits, sign) + incr;
      var fits := InField(sign, bits, sum);
      && (reply.None? <==> !fits && ow.Fail?)
      && (reply.None? ==> p[..] == old(p[..]))
      && (reply.Some? ==> reply.value == Stored(p[..], offset, bits, sign))
      && (fits ==> reply == Some(sum))
      && (!fits && ow.Wrap? ==> Congruent(sum, reply.value, bits))
      && (!fits && ow.Sat? ==> reply.value == Nearest(sign, bits, sum))
    ensures forall o: nat | o < offset || o >= offset + bits :: BitAt(p[..], o) == BitAt(old(p[..]), o)
  {
    hide Field, Value, Pow2, CheckField, Congruent, Nearest, BitAt;
    var was := Get(p[..], offset, bits, sign);
    OverflowIff(sign, was, incr, bits, ow);
    var r := CheckField(sign, was, incr, bits, ow);
    if r.code != 0 && ow.Fail? {
      return None;
    }
    var v := if r.code != 0 then r.limit else was + incr;
    NearestFits(sign, bits, was + incr);
    StoreKeeps(sign, bits, v);
    SetUnsigned(p, offset, bits, U64(v));
    ValueOfBits(U64(v), bits);
    reply := Some(v);
  }

  lemma NearestFits(sign: bool, bits: nat, x: int)
    requires bits >= 1
    ensures InField(sign, bits, Nearest(sign, bits, x))
  {
  }
}
