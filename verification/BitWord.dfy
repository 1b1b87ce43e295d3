/**
 * Eight bytes as one word, the first the most significant, and a single bit moving down
 * through it.
 */
module BitWord {
  import opened Bitfield

  function Wide(b: Byte): bv64 {
    b as bv64
  }

  // A byte at place q of a word.
  function Spread(q: nat, b: Byte): bv64 {
    match q
    case 0 => Wide(b) << 56
    case 1 => Wide(b) << 48
    case 2 => Wide(b) << 40
    case 3 => Wide(b) << 32
    case 4 => Wide(b) << 24
    case 5 => Wide(b) << 16
    case 6 => Wide(b) << 8
    case _ => Wide(b)
  }

  function Concat(a: Byte, b: Byte, c: Byte, d: Byte, e: Byte, f: Byte, g: Byte, h: Byte): bv64 {
    Spread(0, a) | Spread(1, b) | Spread(2, c) | Spread(3, d) | Spread(4, e) | Spread(5, f) | Spread(6, g) | Spread(7, h)
  }

  // word <<= 8; word |= *c
  function Shifted(w: bv64, b: Byte): bv64 {
    (w << 8) | Wide(b)
  }

  lemma ShiftedIn(a: Byte, b: Byte, c: Byte, d: Byte, e: Byte, f: Byte, g: Byte, h: Byte)
    ensures Shifted(Shifted(Shifted(Shifted(Shifted(Shifted(Shifted(Shifted(0, a), b), c), d), e), f), g), h) == Concat(a, b, c, d, e, f, g, h)
  {
  }

  lemma ConcatZero(a: Byte, b: Byte, c: Byte, d: Byte, e: Byte, f: Byte, g: Byte, h: Byte)
    ensures Concat(a, b, c, d, e, f, g, h) == 0 <==> a == 0 && b == 0 && c == 0 && d == 0 && e == 0 && f == 0 && g == 0 && h == 0
  {
  }

  // The word has the one bit of `one`.
  predicate Lit(word: bv64, one: bv64) {
    one & word != 0
  }

  // One place at a time, so that every shift is by a constant.
  lemma ByteAt0(a: Byte, b: Byte, c: Byte, d: Byte, e: Byte, f: Byte, g: Byte, h: Byte, k: nat)
    ensures Lit(Concat(a, b, c, d, e, f, g, h), Spread(0, Mask(k))) <==> BitOf(a, k)
  {
    hide Mask;
  }

  lemma ByteAt1(a: Byte, b: Byte, c: Byte, d: Byte, e: Byte, f: Byte, g: Byte, h: Byte, k: nat)
    ensures Lit(Concat(a, b, c, d, e, f, g, h), Spread(1, Mask(k))) <==> BitOf(b, k)
  {
    hide Mask;
  }

  lemma ByteAt2(a: Byte, b: Byte, c: Byte, d: Byte, e: Byte, f: Byte, g: Byte, h: Byte, k: nat)
    ensures Lit(Concat(a, b, c, d, e, f, g, h), Spread(2, Mask(k))) <==> BitOf(c, k)
  {
    hide Mask;
  }

  lemma ByteAt3(a: Byte, b: Byte, c: Byte, d: Byte, e: Byte, f: Byte, g: Byte, h: Byte, k: nat)
    ensures Lit(Concat(a, b, c, d, e, f, g, h), Spread(3, Mask(k))) <==> BitOf(d, k)
  {
    hide Mask;
  }

  lemma ByteAt4(a: Byte, b: Byte, c: Byte, d: Byte, e: Byte, f: Byte, g: Byte, h: Byte, k: nat)
    ensures Lit(Concat(a, b, c, d, e, f, g, h), Spread(4, Mask(k))) <==> BitOf(e, k)
  {
    hide Mask;
  }

  lemma ByteAt5(a: Byte, b: Byte, c: Byte, d: Byte, e: Byte, f: Byte, g: Byte, h: Byte, k: nat)
    ensures Lit(Concat(a, b, c, d, e, f, g, h), Spread(5, Mask(k))) <==> BitOf(f, k)
  {
    hide Mask;
  }

  lemma ByteAt6(a: Byte, b: Byte, c: Byte, d: Byte, e: Byte, f: Byte, g: Byte, h: Byte, k: nat)
    ensures Lit(Concat(a, b, c, d, e, f, g, h), Spread(6, Mask(k))) <==> BitOf(g, k)
  {
    hide Mask;
  }

  lemma ByteAt7(a: Byte, b: Byte, c: Byte, d: Byte, e: Byte, f: Byte, g: Byte, h: Byte, k: nat)
    ensures Lit(Concat(a, b, c, d, e, f, g, h), Spread(7, Mask(k))) <==> BitOf(h, k)
  {
    hide Mask;
  }

  // A bit of a word is a bit of one of its bytes.
  lemma ConcatBit(a: Byte, b: Byte, c: Byte, d: Byte, e: Byte, f: Byte, g: Byte, h: Byte, q: nat, k: nat)
    requires q < 8
    ensures Lit(Concat(a, b, c, d, e, f, g, h), Spread(q, Mask(k))) <==> BitOf([a, b, c, d, e, f, g, h][q], k)
  {
    hide Lit, Concat, Spread, Mask, BitOf;
    match q {
      case 0 => ByteAt0(a, b, c, d, e, f, g, h, k);
      case 1 => ByteAt1(a, b, c, d, e, f, g, h, k);
      case 2 => ByteAt2(a, b, c, d, e, f, g, h, k);
      case 3 => ByteAt3(a, b, c, d, e, f, g, h, k);
      case 4 => ByteAt4(a, b, c, d, e, f, g, h, k);
      case 5 => ByteAt5(a, b, c, d, e, f, g, h, k);
      case 6 => ByteAt6(a, b, c, d, e, f, g, h, k);
      case _ => ByteAt7(a, b, c, d, e, f, g, h, k);
    }
  }

  // The bytes from place i on, zeros behind the end.
  function Padded(s: seq<Byte>, i: nat): Byte {
    if i < |s| then s[i] else 0
  }

  // The word after t bytes were shifted in.
  function Loaded(s: seq<Byte>, i: nat, t: nat): bv64 {
    if t == 0 then 0 else Shifted(Loaded(s, i, t - 1), Padded(s, i + t - 1))
  }

  lemma LoadedNothing(s: seq<Byte>, i: nat)
    ensures Loaded(s, i, 0) == 0
  {
  }

  lemma LoadedMore(s: seq<Byte>, i: nat, t: nat)
    ensures Loaded(s, i, t + 1) == (Loaded(s, i, t) << 8) | Wide(if i + t < |s| then s[i + t] else 0)
  {
  }

  lemma LoadedWord(s: seq<Byte>, i: nat)
    ensures Loaded(s, i, 8) == Concat(Padded(s, i), Padded(s, i + 1), Padded(s, i + 2), Padded(s, i + 3),
                                      Padded(s, i + 4), Padded(s, i + 5), Padded(s, i + 6), Padded(s, i + 7))
  {
    hide Shifted, Concat, Padded;
    assert Loaded(s, i, 1) == Shifted(Loaded(s, i, 0), Padded(s, i)) && Loaded(s, i, 0) == 0;
    assert Loaded(s, i, 4) == Shifted(Shifted(Shifted(Loaded(s, i, 1), Padded(s, i + 1)), Padded(s, i + 2)), Padded(s, i + 3)) by {
      assert Loaded(s, i, 2) == Shifted(Loaded(s, i, 1), Padded(s, i + 1));
      assert Loaded(s, i, 3) == Shifted(Loaded(s, i, 2), Padded(s, i + 2));
    }
    assert Loaded(s, i, 5) == Shifted(Loaded(s, i, 4), Padded(s, i + 4));
    assert Loaded(s, i, 6) == Shifted(Loaded(s, i, 5), Padded(s, i + 5));
    assert Loaded(s, i, 7) == Shifted(Loaded(s, i, 6), Padded(s, i + 6));
    ShiftedIn(Padded(s, i), Padded(s, i + 1), Padded(s, i + 2), Padded(s, i + 3),
              Padded(s, i + 4), Padded(s, i + 5), Padded(s, i + 6), Padded(s, i + 7));
  }

  function Window(s: seq<Byte>, i: nat): (w: seq<Byte>)
    ensures |w| == 8 && forall q | 0 <= q < 8 :: w[q] == Padded(s, i + q)
  {
    [Padded(s, i), Padded(s, i + 1), Padded(s, i + 2), Padded(s, i + 3), Padded(s, i + 4), Padded(s, i + 5), Padded(s, i + 6), Padded(s, i + 7)]
  }

  // Looking at the word through one bit is looking at one bit of one byte.
  lemma WordBit(s: seq<Byte>, i: nat, q: nat, k: nat)
    requires q < 8
    ensures Lit(Loaded(s, i, 8), Spread(q, Mask(k))) <==> BitOf(Padded(s, i + q), k)
  {
    hide Lit, Spread, Concat, Padded, Loaded, Mask, BitOf;
    LoadedWord(s, i);
    var w := Window(s, i);
    ConcatBit(w[0], w[1], w[2], w[3], w[4], w[5], w[6], w[7], q, k);
    assert [w[0], w[1], w[2], w[3], w[4], w[5], w[6], w[7]] == w;
  }

  function Down(w: bv64): bv64 {
    w >> 1
  }

  function Not(w: bv64): bv64 {
    !w
  }

  // The single bit t places below the top, or nothing once it has fallen out.
  function Lamp(t: nat): bv64 {
    if t < 64 then Spread(t / 8, Mask(7 - t % 8)) else 0
  }

  lemma SpreadShift(q: nat, k: nat)
    requires q < 8 && k < 8
    ensures Down(Spread(q, Mask(k))) == if k > 0 then Spread(q, Mask(k - 1)) else if q < 7 then Spread(q + 1, Mask(7)) else 0
    ensures Spread(q, Mask(k)) != 0
  {
  }

  lemma LampMoves(t: nat)
    requires t < 64
    ensures Lamp(t) != 0 && Down(Lamp(t)) == Lamp(t + 1)
  {
    hide Spread, Mask, Down;
    SpreadShift(t / 8, 7 - t % 8);
    if t % 8 == 7 {
      assert (t + 1) / 8 == t / 8 + 1 && (t + 1) % 8 == 0;
    } else {
      assert (t + 1) / 8 == t / 8 && (t + 1) % 8 == t % 8 + 1;
    }
  }

  // All bits set, moved down by one, inverted.
  lemma LampStarts()
    ensures Not(Down(0xFFFF_FFFF_FFFF_FFFF)) == Lamp(0)
  {
  }

  lemma LampEnds(t: nat)
    ensures Lamp(t) == 0 <==> t >= 64
  {
    hide Spread, Mask;
    if t < 64 {
      SpreadShift(t / 8, 7 - t % 8);
    }
  }

  lemma LampBit(s: seq<Byte>, i: nat, t: nat)
    requires t < 64
    ensures Lit(Loaded(s, i, 8), Lamp(t)) <==> BitAt(s, 8 * i + t)
  {
    hide Lit, Spread, Mask, Loaded, BitOf;
    WordBit(s, i, t / 8, 7 - t % 8);
    assert (8 * i + t) / 8 == i + t / 8 && (8 * i + t) % 8 == t % 8;
    NoBitOfZero(7 - t % 8);
  }

  lemma NoBitOfZero(k: nat)
    ensures !BitOf(0, k)
  {
  }

  lemma LoadedZero(s: seq<Byte>, i: nat)
    ensures Loaded(s, i, 8) == 0 <==> forall j | i <= j < i + 8 && j < |s| :: s[j] == 0
  {
    hide Concat, Loaded;
    LoadedWord(s, i);
    var w := Window(s, i);
    ConcatZero(w[0], w[1], w[2], w[3], w[4], w[5], w[6], w[7]);
    if forall q | 0 <= q < 8 :: w[q] == 0 {
      forall j | i <= j < i + 8 && j < |s|
        ensures s[j] == 0
      {
        assert w[j - i] == Padded(s, j);
      }
    } else {
      var q :| 0 <= q < 8 && w[q] != 0;
      assert i + q < |s| && s[i + q] != 0;
    }
  }

  // ---------- the two loops ----------

  // Load the next eight bytes, as many as there are, padding with zeros on the right.
  method Load(s: seq<Byte>, i: nat) returns (word: bv64)
    ensures word == Loaded(s, i, 8)
  {
    hide Loaded;
    word := 0;
    var t := 0;
    LoadedNothing(s, i);
    while t < 8
      invariant 0 <= t <= 8 && word == Loaded(s, i, t)
    {
      LoadedMore(s, i, t);
      word := (word << 8) | Wide(if i + t < |s| then s[i + t] else 0);
      t := t + 1;
    }
  }

  // The first bit of its kind in a word that has one: the loop never runs out of bits.
  method FirstInWord(word: bv64, bit: bool) returns (t: nat)
    requires exists x: nat :: x < 64 && Lit(word, Lamp(x)) == bit
    ensures t < 64 && Lit(word, Lamp(t)) == bit && forall x: nat | x < t :: Lit(word, Lamp(x)) != bit
  {
    hide Lamp, Lit, Down, Not;
    var one: bv64 := 0xFFFF_FFFF_FFFF_FFFF;
    one := Down(one);
    one := Not(one);
    LampStarts();
    t := 0;
    while one != 0
      invariant 0 <= t <= 64 && one == Lamp(t)
      invariant forall x: nat | x < t :: Lit(word, Lamp(x)) != bit
      decreases 64 - t
    {
      LampEnds(t);
      if Lit(word, one) == bit {
        return;
      }
      LampMoves(t);
      one := Down(one);
      t := t + 1;
    }
    LampEnds(t);
    assert false;
  }
}
