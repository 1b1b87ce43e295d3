/**
 * The arithmetic of bit fields: which sums overflow a field, and what each overflow
 * policy makes of them, in 64-bit machine arithmetic.
 */
module BitRange {

  function Pow2(k: nat): (r: nat)
    ensures r > 0
  {
    if k == 0 then 1 else 2 * Pow2(k - 1)
  }

  const W: int := 0x1_0000_0000_0000_0000
  const HALF: int := 0x8000_0000_0000_0000

  lemma {:induction false} Pow2Facts(k: nat)
    requires k <= 64
    ensures Pow2(64) == W && Pow2(63) == HALF
    ensures Pow2(k) <= W && (k < 64 ==> Pow2(k) <= HALF) && (k > 0 ==> Pow2(k) == 2 * Pow2(k - 1))
  {
    Pow2Doubles();
    Pow2Grows(k, 64);
    if k < 64 {
      Pow2Grows(k, 63);
    }
  }

  lemma {:induction false} Pow2Grows(j: nat, k: nat)
    requires j <= k
    ensures Pow2(j) <= Pow2(k)
  {
    if j < k {
      Pow2Grows(j, k - 1);
    }
  }

  lemma {:induction false} Pow2Add(j: nat, k: nat)
    ensures Pow2(j + k) == Pow2(j) * Pow2(k)
  {
    if j > 0 {
      Pow2Add(j - 1, k);
      assert Pow2(j + k) == 2 * Pow2(j - 1 + k);
    }
  }

  lemma Pow2Doubles()
    ensures Pow2(64) == W && Pow2(63) == HALF
  {
    assert Pow2(4) == 16;
    Pow2Add(4, 4);
    Pow2Add(8, 8);
    Pow2Add(16, 16);
    Pow2Add(32, 32);
    assert Pow2(64) == 2 * Pow2(63);
  }

  // Conversions to the 64-bit types.
  function U64(x: int): (r: int)
    ensures 0 <= r < W
  {
    x % W
  }

  function I64(x: int): (r: int)
    ensures -HALF <= r < HALF
  {
    (x + HALF) % W - HALF
  }

  predicate IsI64(x: int) {
    -HALF <= x < HALF
  }

  datatype Policy = Wrap | Sat | Fail

  // Unsigned fields of 1 to 63 bits, signed ones of 1 to 64.
  predicate Width(sign: bool, bits: nat) {
    1 <= bits <= (if sign then 64 else 63)
  }

  function Least(sign: bool, bits: nat): int
    requires bits >= 1
  {
    if sign then -(Pow2(bits - 1) as int) else 0
  }

  function Most(sign: bool, bits: nat): int
    requires bits >= 1
  {
    if sign then Pow2(bits - 1) - 1 else Pow2(bits) - 1
  }

  predicate InField(sign: bool, bits: nat, v: int)
    requires bits >= 1
  {
    Least(sign, bits) <= v <= Most(sign, bits)
  }

  // code: 0 if the sum fits; limit is what to store where it does not.
  datatype Check = Check(code: int, limit: int)

  // checkUnsignedBitfieldOverflow.
  function CheckUnsigned(value: int, incr: int, bits: nat, ow: Policy): Check
    requires Width(false, bits)
  {
    var max := Pow2(bits) - 1;
    var maxincr := I64(U64(max - value));
    var minincr := I64(U64(-value));
    var wrapped := U64(value + incr) % Pow2(bits);
    if value > max || (incr > 0 && incr > maxincr) then
      Check(1, match ow case Wrap => wrapped case Sat => max case Fail => 0)
    else if incr < 0 && incr < minincr then
      match ow case Wrap => Check(1, wrapped) case Sat => Check(-1, 0) case Fail => Check(-1, 0)
    else Check(0, 0)
  }

  // The sum cut to the field, with its sign bit spread above it.
  function WrapSigned(sum: int, bits: nat): int
    requires Width(true, bits)
  {
    var c := U64(sum);
    if bits == 64 then I64(c)
    else
      var low := c % Pow2(bits);
      if low >= Pow2(bits - 1) then I64(low + (W - Pow2(bits))) else low
  }

  // checkSignedBitfieldOverflow.
  function CheckSigned(value: int, incr: int, bits: nat, ow: Policy): Check
    requires Width(true, bits)
  {
    var max := Pow2(bits - 1) - 1;
    var min := -max - 1;
    var maxincr := I64(U64(max - value));
    var minincr := I64(U64(min - value));
    var wrapped := WrapSigned(value + incr, bits);
    if value > max || (bits != 64 && incr > maxincr) || (value >= 0 && incr > 0 && incr > maxincr) then
      Check(1, match ow case Wrap => wrapped case Sat => max case Fail => 0)
    else if value < min || (bits != 64 && incr < minincr) || (value < 0 && incr < 0 && incr < minincr) then
      match ow case Wrap => Check(1, wrapped) case Sat => Check(-1, min) case Fail => Check(-1, 0)
    else Check(0, 0)
  }

  // ---------- what the checks mean ----------

  // `v` is congruent to `x` in the field.
  predicate Congruent(x: int, v: int, bits: nat) {
    x % Pow2(bits) == v % Pow2(bits)
  }

  lemma SameRest(x: int, v: int, k: int, p: nat)
    requires p > 0 && x - v == k * p
    ensures x % p == v % p
  {
    var q := x / p - v / p - k;
    assert x == (x / p) * p + x % p;
    assert v == (v / p) * p + v % p;
    assert q * p == (x / p) * p - (v / p) * p - k * p;
    NoMultiple(q, p, v % p - x % p);
  }

  lemma NoMultiple(d: int, n: nat, v: int)
    requires n > 0 && d * n == v && v < n && -v < n
    ensures v == 0
  {
    assert d >= 1 ==> d * n >= n;
    assert d <= -1 ==> (-d) * n >= n;
  }

  // The nearest value of the field.
  function Nearest(sign: bool, bits: nat, x: int): int
    requires bits >= 1
  {
    if x < Least(sign, bits) then Least(sign, bits) else if x > Most(sign, bits) then Most(sign, bits) else x
  }

  function CheckField(sign: bool, value: int, incr: int, bits: nat, ow: Policy): Check
    requires Width(sign, bits)
  {
    if sign then CheckSigned(value, incr, bits, ow) else CheckUnsigned(value, incr, bits, ow)
  }

  lemma U64Sum(x: int)
    requires -W <= x < W
    ensures U64(x) == if x < 0 then x + W else x
  {
  }

  lemma CutUnsigned(x: int, bits: nat)
    requires bits < 64
    ensures 0 <= U64(x) % Pow2(bits) < Pow2(bits) && Congruent(x, U64(x) % Pow2(bits), bits)
  {
    hide Pow2;
    Pow2Add(bits, 64 - bits);
    Pow2Doubles();
    var p, h, c := Pow2(bits), Pow2(64 - bits), U64(x);
    assert x - c == (x / W) * W;
    assert (x / W) * W == ((x / W) * h) * p;
    SameRest(x, c, (x / W) * h, p);
    SmallRest(c, p);
  }

  lemma SmallRest(c: int, p: nat)
    requires p > 0
    ensures 0 <= c % p < p && (c % p) % p == c % p
  {
  }

  /**
   * For every stored value and every 64-bit increment: overflow is reported exactly when
   * the exact sum leaves the field; WRAP gives the value of the field congruent to it,
   * SAT the nearest one.
   */
  lemma OverflowIff(sign: bool, value: int, incr: int, bits: nat, ow: Policy)
    requires Width(sign, bits) && InField(sign, bits, value) && IsI64(incr)
    ensures
      var r := CheckField(sign, value, incr, bits, ow);
      && (r.code != 0 <==> !InField(sign, bits, value + incr))
      && (r.code != 0 && ow.Wrap? ==> InField(sign, bits, r.limit) && Congruent(value + incr, r.limit, bits))
      && (r.code != 0 && ow.Sat? ==> r.limit == Nearest(sign, bits, value + incr))
  {
    if sign {
      SignedIff(value, incr, bits, ow);
    } else {
      UnsignedIff(value, incr, bits, ow);
    }
  }

  lemma UnsignedIff(value: int, incr: int, bits: nat, ow: Policy)
    requires Width(false, bits) && InField(false, bits, value) && IsI64(incr)
    ensures
      var r := CheckUnsigned(value, incr, bits, ow);
      && (r.code != 0 <==> !InField(false, bits, value + incr))
      && (r.code != 0 && ow.Wrap? ==> InField(false, bits, r.limit) && Congruent(value + incr, r.limit, bits))
      && (r.code != 0 && ow.Sat? ==> r.limit == Nearest(false, bits, value + incr))
  {
    Pow2Facts(bits);
    CutUnsigned(value + incr, bits);
    hide Pow2, Congruent, U64, I64;
    var max := Pow2(bits) - 1;
    ToSigned(max - value);
    ToSigned(-value);
  }

  // A value that fits survives the round through the unsigned type.
  lemma ToSigned(x: int)
    requires IsI64(x)
    ensures I64(U64(x)) == x
  {
    U64Sum(x);
  }

  lemma SignedIff(value: int, incr: int, bits: nat, ow: Policy)
    requires Width(true, bits) && InField(true, bits, value) && IsI64(incr)
    ensures
      var r := CheckSigned(value, incr, bits, ow);
      && (r.code != 0 <==> !InField(true, bits, value + incr))
      && (r.code != 0 && ow.Wrap? ==> InField(true, bits, r.limit) && Congruent(value + incr, r.limit, bits))
      && (r.code != 0 && ow.Sat? ==> r.limit == Nearest(true, bits, value + incr))
  {
    Pow2Facts(bits);
    CutSigned(value + incr, bits);
    hide Pow2, Congruent, U64, I64, WrapSigned;
    if bits < 64 {
      Pow2Facts(bits - 1);
      SignedNarrow(value, incr, bits, ow);
    } else {
      SignedWide(value, incr, ow);
    }
  }

  // The comparisons against the room left on either side.
  lemma SignedNarrow(value: int, incr: int, bits: nat, ow: Policy)
    requires 1 <= bits < 64 && InField(true, bits, value) && Pow2(bits - 1) <= HALF / 2
    ensures
      var r := CheckSigned(value, incr, bits, ow);
      && (r.code != 0 <==> !InField(true, bits, value + incr))
      && (r.code != 0 && ow.Wrap? ==> r.limit == WrapSigned(value + incr, bits))
      && (r.code != 0 && ow.Sat? ==> r.limit == Nearest(true, bits, value + incr))
  {
    hide Pow2, U64, I64, WrapSigned;
    var max := Pow2(bits - 1) - 1;
    ToSigned(max - value);
    ToSigned(-max - 1 - value);
  }

  lemma SignedWide(value: int, incr: int, ow: Policy)
    requires InField(true, 64, value) && IsI64(incr) && Pow2(63) == HALF
    ensures
      var r := CheckSigned(value, incr, 64, ow);
      && (r.code != 0 <==> !InField(true, 64, value + incr))
      && (r.code != 0 && ow.Wrap? ==> r.limit == WrapSigned(value + incr, 64))
      && (r.code != 0 && ow.Sat? ==> r.limit == Nearest(true, 64, value + incr))
  {
    hide Pow2, U64, I64, WrapSigned;
    if value >= 0 {
      ToSigned(HALF - 1 - value);
    } else {
      ToSigned(-HALF - value);
    }
  }

  lemma CutSigned(x: int, bits: nat)
    requires Width(true, bits)
    ensures InField(true, bits, WrapSigned(x, bits)) && Congruent(x, WrapSigned(x, bits), bits)
  {
    Pow2Facts(bits);
    hide Pow2, U64, I64;
    if bits == 64 {
      WholeWord(x);
    } else {
      CutUnsigned(x, bits);
      var p, low := Pow2(bits), U64(x) % Pow2(bits);
      if low >= Pow2(bits - 1) {
        HighWord(low, p);
        SameRest(low, low - p, 1, p);
      }
    }
  }

  lemma WholeWord(x: int)
    ensures -HALF <= I64(U64(x)) < HALF && Congruent(x, I64(U64(x)), 64)
  {
    Pow2Doubles();
    hide Pow2;
    var c := U64(x);
    var d := (c + HALF) / W;
    assert c - I64(c) == d * W;
    SameRest(x, I64(c), x / W + d, Pow2(64));
  }

  lemma HighWord(low: int, p: nat)
    requires 0 < p <= HALF && 0 <= low < p
    ensures I64(low + (W - p)) == low - p
  {
  }
}
