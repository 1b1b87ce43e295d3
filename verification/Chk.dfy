/**
 * The Cuckoo Heavy Keeper tables: two tables of buckets, each with two heavy entries
 * and one lobby entry. An item is known by its fingerprint and its two candidate
 * buckets; a promoted lobby entry pushes a heavy one along its own candidates.
 *
 * Every random draw and every decayed counter is a free choice.
 */
module Chk {
  import opened Prelude
  import BitRange

  type Fp = nat
  type Address = nat

  // side: which of the two tables.
  datatype Place = Place(side: bool, at: Address)

  datatype Entry = Entry(fp: Fp, count: nat)

  datatype Bucket = Bucket(h0: Entry, h1: Entry, lobby: Entry)

  // A table has 2^bits buckets.
  datatype State = State(bits: nat, tables: map<Place, Bucket>, total: nat)

  // A fingerprint with its bucket in the first table.
  datatype Item = Item(fp: Fp, home: Address)

  const PROMOTION := 16
  const MAX_KICKS := 16
  // Counters and the total stay below the value that marks "no minimum yet".
  const LIMIT := 0xffff_ffff_ffff_ffff

  const Nobody := Entry(0, 0)

  function BucketAt(s: State, p: Place): Bucket {
    if p in s.tables then s.tables[p] else Bucket(Nobody, Nobody, Nobody)
  }

  function Put(s: State, p: Place, b: Bucket): State {
    s.(tables := s.tables[p := b])
  }

  // ---------- addresses ----------

  function Xor(a: nat, b: nat): nat {
    if a == 0 && b == 0 then 0 else 2 * Xor(a / 2, b / 2) + (a % 2 + b % 2) % 2
  }

  // generateAltIdx, for a power-of-two number of buckets.
  function Alt(bits: nat, fp: Fp, a: Address): Address {
    Xor(a, 0x5bd1e995 * fp) % BitRange.Pow2(bits)
  }

  lemma XorStep(a: nat, x: nat)
    ensures Xor(a, x) / 2 == Xor(a / 2, x / 2) && Xor(a, x) % 2 == (a % 2 + x % 2) % 2
  {
  }

  lemma {:induction false} XorTwice(a: nat, x: nat)
    ensures Xor(Xor(a, x), x) == a
    decreases a + x
  {
    if a != 0 || x != 0 {
      hide Xor;
      XorTwice(a / 2, x / 2);
      XorStep(a, x);
      var y := Xor(a, x);
      XorStep(y, x);
      SameHalves(Xor(y, x), a, a % 2, x % 2);
    }
  }

  lemma SameHalves(u: nat, v: nat, p: nat, q: nat)
    requires p < 2 && q < 2 && u / 2 == v / 2 && v % 2 == p && u % 2 == ((p + q) % 2 + q) % 2
    ensures u == v
  {
    assert p == 0 || p == 1;
    assert q == 0 || q == 1;
  }

  lemma ModStep(m: nat, k: nat)
    requires k > 0
    ensures m % BitRange.Pow2(k) == 2 * ((m / 2) % BitRange.Pow2(k - 1)) + m % 2
    ensures (m % BitRange.Pow2(k)) / 2 == (m / 2) % BitRange.Pow2(k - 1) && (m % BitRange.Pow2(k)) % 2 == m % 2
  {
    var h := BitRange.Pow2(k - 1);
    var q, r := (m / 2) / h, (m / 2) % h;
    assert m / 2 == q * h + r;
    assert m == q * (2 * h) + (2 * r + m % 2);
    ModUnique(m, 2 * h, q, 2 * r + m % 2);
  }

  lemma ModUnique(m: nat, n: nat, q: nat, r: nat)
    requires n > 0 && m == q * n + r && r < n
    ensures m % n == r
  {
    var d := m / n - q;
    assert d * n == r - m % n by {
      assert m == (m / n) * n + m % n;
    }
    Multiple(d, n, r - m % n);
  }

  lemma Multiple(d: int, n: nat, v: int)
    requires n > 0 && d * n == v && v < n && -v < n
    ensures v == 0
  {
    assert d >= 1 ==> d * n >= n;
    assert d <= -1 ==> (-d) * n >= n;
  }

  // Low bits of an exclusive or depend only on low bits.
  lemma {:induction false} XorMod(a: nat, x: nat, k: nat)
    ensures Xor(a, x) % BitRange.Pow2(k) == Xor(a % BitRange.Pow2(k), x % BitRange.Pow2(k))
    decreases k
  {
    if k > 0 {
      hide Xor, BitRange.Pow2;
      XorMod(a / 2, x / 2, k - 1);
      ModStep(a, k);
      ModStep(x, k);
      ModStep(Xor(a, x), k);
      XorStep(a, x);
      XorStep(a % BitRange.Pow2(k), x % BitRange.Pow2(k));
    }
  }

  lemma MaskedTwice(a: nat, x: nat, k: nat)
    requires a < BitRange.Pow2(k)
    ensures Xor(Xor(a, x) % BitRange.Pow2(k), x) % BitRange.Pow2(k) == a
  {
    hide Xor, BitRange.Pow2;
    var n, y := BitRange.Pow2(k), Xor(a, x);
    XorMod(y % n, x, k);
    XorMod(y, x, k);
    XorTwice(a, x);
    ModSmall(a, n);
    ModSmall(y % n, n);
  }

  lemma ModSmall(a: nat, n: nat)
    requires a < n
    ensures a % n == a
  {
  }

  // The alternative of the alternative is the address itself.
  lemma AltInvolution(bits: nat, fp: Fp, a: Address)
    requires a < BitRange.Pow2(bits)
    ensures Alt(bits, fp, Alt(bits, fp, a)) == a && Alt(bits, fp, a) < BitRange.Pow2(bits)
  {
    MaskedTwice(a, 0x5bd1e995 * fp, bits);
  }

  predicate InRange(s: State, p: Place) {
    p.at < BitRange.Pow2(s.bits)
  }

  // The other candidate of an entry found at `p`.
  function Other(s: State, p: Place, fp: Fp): Place {
    Place(!p.side, Alt(s.bits, fp, p.at))
  }

  lemma OtherBack(s: State, p: Place, fp: Fp)
    requires InRange(s, p)
    ensures Other(s, Other(s, p, fp), fp) == p && InRange(s, Other(s, p, fp)) && Other(s, p, fp) != p
  {
    hide Alt, BitRange.Pow2;
    AltInvolution(s.bits, fp, p.at);
  }

  function Home(s: State, p: Place, fp: Fp): Address {
    if p.side then Alt(s.bits, fp, p.at) else p.at
  }

  // ---------- which items are tracked ----------

  function Holds(e: Entry, fp: Fp): nat {
    if e.count > 0 && e.fp == fp then 1 else 0
  }

  function Inside(b: Bucket, fp: Fp): nat {
    Holds(b.h0, fp) + Holds(b.h1, fp) + Holds(b.lobby, fp)
  }

  // The live slots an item occupies, over both its buckets.
  function Slots(s: State, x: Item): nat {
    var p := Place(false, x.home);
    Inside(BucketAt(s, p), x.fp) + Inside(BucketAt(s, Other(s, p, x.fp)), x.fp)
  }

  predicate Valid(s: State, x: Item) {
    x.home < BitRange.Pow2(s.bits)
  }

  // ---------- heavy entries ----------

  function Heavy(b: Bucket, i: nat): Entry {
    if i == 0 then b.h0 else b.h1
  }

  function WithHeavy(b: Bucket, i: nat, e: Entry): Bucket {
    if i == 0 then b.(h0 := e) else b.(h1 := e)
  }

  predicate Full(b: Bucket) {
    b.h0.count > 0 && b.h1.count > 0
  }

  function Empty(b: Bucket): Option<nat> {
    if b.h0.count == 0 then Some(0) else if b.h1.count == 0 then Some(1) else None
  }

  // The heavy entry with the smaller count, the first of two equal ones.
  function Least(b: Bucket): nat {
    if b.h1.count < b.h0.count then 1 else 0
  }

  function Find(b: Bucket, fp: Fp): Option<nat> {
    if Holds(b.h0, fp) == 1 then Some(0) else if Holds(b.h1, fp) == 1 then Some(1) else None
  }

  function Candidate(s: State, x: Item, side: bool): Place {
    if side then Other(s, Place(false, x.home), x.fp) else Place(false, x.home)
  }

  function Added(b: Bucket, i: nat, w: nat): Bucket {
    WithHeavy(b, i, Heavy(b, i).(count := Heavy(b, i).count + w))
  }

  // checkHeavyEntries: bump the item, or give it the first empty heavy slot.
  function CheckHeavy(s: State, x: Item, w: nat): Option<State> {
    var p, q := Candidate(s, x, false), Candidate(s, x, true);
    var b, c := BucketAt(s, p), BucketAt(s, q);
    if Find(b, x.fp).Some? then Some(Put(s, p, Added(b, Find(b, x.fp).value, w)))
    else if Find(c, x.fp).Some? then Some(Put(s, q, Added(c, Find(c, x.fp).value, w)))
    else if Empty(b).Some? then Some(Put(s, p, WithHeavy(b, Empty(b).value, Entry(x.fp, w))))
    else if Empty(c).Some? then Some(Put(s, q, WithHeavy(c, Empty(c).value, Entry(x.fp, w))))
    else None
  }

  // ---------- evictions ----------

  // isHeavyHitter.
  predicate IsHeavy(total: nat, count: nat) {
    count as real >= total as real * 0.008
  }

  datatype Outcome = Outcome(s: State, lost: Option<Item>)

  // kickout: `e` was pushed out of `p`; at most `n` more pushes.
  function Kick(s: State, e: Entry, p: Place, n: nat): Outcome
    decreases n
  {
    if n == 0 || !IsHeavy(s.total, e.count) then Outcome(s, Some(Item(e.fp, Home(s, p, e.fp))))
    else
      var q := Other(s, p, e.fp);
      var b := BucketAt(s, q);
      if Empty(b).Some? then Outcome(Put(s, q, WithHeavy(b, Empty(b).value, e)), None)
      else Kick(Put(s, q, WithHeavy(b, Least(b), e)), Heavy(b, Least(b)), q, n - 1)
  }

  // The lobby entry takes the place, and the count, of the least heavy one.
  function Promoted(b: Bucket): Bucket {
    WithHeavy(b, Least(b), Heavy(b, Least(b)).(fp := b.lobby.fp)).(lobby := Nobody)
  }

  // tryPromoteAndKickout. None: the draw went against the promotion.
  function Promote(s: State, x: Item, count: nat, side: bool, lucky: bool): Option<Outcome> {
    var p := Candidate(s, x, side);
    var b := BucketAt(s, p);
    if Empty(b).Some? then Some(Outcome(Put(s, p, WithHeavy(b, Empty(b).value, Entry(x.fp, count))), None))
    else
      var out := Heavy(b, Least(b));
      if out.count > count && !lucky then None
      else
        Some(Kick(Put(s, p, Promoted(b)), out, p, MAX_KICKS))
  }

  // ---------- the lobby ----------

  // decayed: what chkDecayCounter returns. spent: the decay steps the old entry cost.
  datatype Choice = Choice(lucky: bool, decayed: nat, spent: nat)

  function SetLobby(s: State, p: Place, e: Entry): State {
    Put(s, p, BucketAt(s, p).(lobby := e))
  }

  // Promote the lobby entry at `side`, or leave it there with the count `stay`.
  function PromoteOr(s: State, x: Item, count: nat, side: bool, lucky: bool, stay: nat): State {
    var r := Promote(s, x, count, side, lucky);
    if r.Some? then r.value.s
    else
      var p := Candidate(s, x, side);
      SetLobby(s, p, BucketAt(s, p).lobby.(count := stay))
  }

  function LobbyHit(s: State, x: Item, w: nat, side: bool, lucky: bool): State {
    var p := Candidate(s, x, side);
    var e := BucketAt(s, p).lobby;
    if e.count + w < PROMOTION then SetLobby(s, p, e.(count := e.count + w))
    else PromoteOr(s, x, e.count + w, side, lucky, PROMOTION)
  }

  // An item not tracked takes an empty lobby slot.
  function LobbyEnter(s: State, x: Item, w: nat, side: bool, lucky: bool): State {
    var p := Candidate(s, x, side);
    if w < PROMOTION then SetLobby(s, p, Entry(x.fp, w))
    else PromoteOr(SetLobby(s, p, Entry(x.fp, 0)), x, w, side, lucky, PROMOTION)
  }

  function Min(a: nat, b: nat): nat {
    if a < b then a else b
  }

  // Both lobby slots taken by others: one of them decays, and may be replaced.
  function LobbyDecay(s: State, x: Item, w: nat, side: bool, ch: Choice): State {
    var p := Candidate(s, x, side);
    var e := BucketAt(s, p).lobby;
    var left :=
      if ch.decayed == 0 then Entry(x.fp, if ch.spent >= w then 1 else Min(255, w - ch.spent))
      else e.(count := ch.decayed);
    if left.count < PROMOTION then SetLobby(s, p, left)
    else PromoteOr(SetLobby(s, p, left), x, left.count, side, ch.lucky, left.count)
  }

  predicate InLobby(s: State, x: Item, side: bool) {
    Holds(BucketAt(s, Candidate(s, x, side)).lobby, x.fp) == 1
  }

  predicate LobbyFree(s: State, x: Item, side: bool) {
    BucketAt(s, Candidate(s, x, side)).lobby.count == 0
  }

  // chkTopKUpdate, on the tables.
  function Update(s: State, x: Item, w: nat, ch: Choice): State {
    if w == 0 then s
    else
      var t := s.(total := s.total + w);
      if CheckHeavy(t, x, w).Some? then CheckHeavy(t, x, w).value
      else if InLobby(t, x, false) then LobbyHit(t, x, w, false, ch.lucky)
      else if InLobby(t, x, true) then LobbyHit(t, x, w, true, ch.lucky)
      else if LobbyFree(t, x, false) then LobbyEnter(t, x, w, false, ch.lucky)
      else if LobbyFree(t, x, true) then LobbyEnter(t, x, w, true, ch.lucky)
      else LobbyDecay(t, x, w, x.fp % 2 == 1, ch)
  }

  // ---------- what every update keeps ----------

  // No item occupies two live slots.
  ghost predicate Once(s: State) {
    forall x: Item | Valid(s, x) :: Slots(s, x) <= 1
  }

  // A live lobby entry means both its buckets are full of heavy entries.
  ghost predicate LobbyLast(s: State) {
    forall p: Place | InRange(s, p) && BucketAt(s, p).lobby.count > 0 ::
      Full(BucketAt(s, p)) && Full(BucketAt(s, Other(s, p, BucketAt(s, p).lobby.fp)))
  }

  ghost predicate Below(s: State) {
    && s.total < LIMIT
    && (forall p :: BucketAt(s, p).h0.count <= s.total && BucketAt(s, p).h1.count <= s.total)
  }

  ghost predicate Inv(s: State) {
    Once(s) && LobbyLast(s) && Below(s)
  }

  // ---------- one bucket changes ----------

  lemma PutSlots(s: State, p: Place, b: Bucket, x: Item)
    requires InRange(s, p) && Valid(s, x)
    ensures Slots(Put(s, p, b), x) == Slots(s, x)
      + (if Home(s, p, x.fp) == x.home then Inside(b, x.fp) - Inside(BucketAt(s, p), x.fp) else 0)
  {
    hide Alt, BitRange.Pow2, Inside;
    var h := Place(false, x.home);
    OtherBack(s, p, x.fp);
    OtherBack(s, h, x.fp);
    assert p == h || p == Other(s, h, x.fp) <==> Home(s, p, x.fp) == x.home;
  }

  // The slots of one item when one heavy entry of a bucket is replaced.
  lemma HeavySlots(b: Bucket, i: nat, e: Entry, fp: Fp)
    ensures Inside(WithHeavy(b, i, e), fp) == Inside(b, fp) - Holds(Heavy(b, i), fp) + Holds(e, fp)
  {
  }

  function Is(e: Entry, home: Address, x: Item): nat {
    if e.fp == x.fp && home == x.home then 1 else 0
  }

  /**
   * An eviction chain conserves items: counting the one in hand, every item occupies as
   * many slots after the chain as before, but for the one the chain ends up losing.
   */
  lemma {:induction false} KickConserves(s: State, e: Entry, p: Place, n: nat, x: Item)
    requires InRange(s, p) && Valid(s, x) && e.count > 0
    ensures
      var r := Kick(s, e, p, n);
      && r.s.bits == s.bits
      && Slots(r.s, x) + (if r.lost == Some(x) then 1 else 0) == Slots(s, x) + Is(e, Home(s, p, e.fp), x)
    decreases n
  {
    hide Alt, BitRange.Pow2, IsHeavy;
    if n > 0 && IsHeavy(s.total, e.count) {
      var q := Other(s, p, e.fp);
      var b := BucketAt(s, q);
      OtherBack(s, p, e.fp);
      assert Home(s, q, e.fp) == Home(s, p, e.fp);
      if Empty(b).Some? {
        HeavySlots(b, Empty(b).value, e, x.fp);
        PutSlots(s, q, WithHeavy(b, Empty(b).value, e), x);
      } else {
        var i := Least(b);
        HeavySlots(b, i, e, x.fp);
        PutSlots(s, q, WithHeavy(b, i, e), x);
        KickConserves(Put(s, q, WithHeavy(b, i, e)), Heavy(b, i), q, n - 1, x);
      }
    }
  }

  // ---------- counts and full buckets ----------

  // Lobby entries only go, heavy slots only fill.
  ghost predicate Milder(s: State, t: State) {
    && t.bits == s.bits && t.total == s.total
    && (forall p :: Full(BucketAt(s, p)) ==> Full(BucketAt(t, p)))
    && (forall p | BucketAt(t, p).lobby.count > 0 ::
          BucketAt(s, p).lobby.count > 0 && BucketAt(s, p).lobby.fp == BucketAt(t, p).lobby.fp)
  }

  lemma MilderLobby(s: State, t: State)
    requires Milder(s, t) && LobbyLast(s)
    ensures LobbyLast(t)
  {
    hide Alt, BitRange.Pow2, Full;
    forall p: Place | InRange(t, p) && BucketAt(t, p).lobby.count > 0
      ensures Full(BucketAt(t, p)) && Full(BucketAt(t, Other(t, p, BucketAt(t, p).lobby.fp)))
    {
      assert InRange(s, p) && BucketAt(s, p).lobby.count > 0;
      assert Other(t, p, BucketAt(t, p).lobby.fp) == Other(s, p, BucketAt(s, p).lobby.fp);
    }
  }

  lemma MilderTrans(s: State, t: State, u: State)
    requires Milder(s, t) && Milder(t, u)
    ensures Milder(s, u)
  {
    hide Full;
  }

  lemma PutMilder(s: State, p: Place, b: Bucket)
    requires Full(BucketAt(s, p)) ==> Full(b)
    requires b.lobby.count > 0 ==> BucketAt(s, p).lobby.count > 0 && BucketAt(s, p).lobby.fp == b.lobby.fp
    ensures Milder(s, Put(s, p, b))
  {
  }

  lemma PutBelow(s: State, p: Place, b: Bucket)
    requires Below(s) && b.h0.count <= s.total && b.h1.count <= s.total
    ensures Below(Put(s, p, b))
  {
    var t := Put(s, p, b);
    forall q
      ensures BucketAt(t, q).h0.count <= t.total && BucketAt(t, q).h1.count <= t.total
    {
      BelowAt(s, q);
    }
  }

  lemma {:induction false} KickKeeps(s: State, e: Entry, p: Place, n: nat)
    requires Below(s) && 0 < e.count <= s.total
    ensures Milder(s, Kick(s, e, p, n).s) && Below(Kick(s, e, p, n).s)
    decreases n
  {
    hide Alt, IsHeavy, Below, Milder;
    if n > 0 && IsHeavy(s.total, e.count) {
      var q := Other(s, p, e.fp);
      var b := BucketAt(s, q);
      BelowAt(s, q);
      if Empty(b).Some? {
        PutMilder(s, q, WithHeavy(b, Empty(b).value, e));
        PutBelow(s, q, WithHeavy(b, Empty(b).value, e));
      } else {
        var t := Put(s, q, WithHeavy(b, Least(b), e));
        PutMilder(s, q, WithHeavy(b, Least(b), e));
        PutBelow(s, q, WithHeavy(b, Least(b), e));
        KickKeeps(t, Heavy(b, Least(b)), q, n - 1);
        MilderTrans(s, t, Kick(t, Heavy(b, Least(b)), q, n - 1).s);
      }
    } else {
      MilderSelf(s);
    }
  }

  lemma MilderSelf(s: State)
    ensures Milder(s, s)
  {
  }

  lemma BelowAt(s: State, p: Place)
    requires Below(s)
    ensures BucketAt(s, p).h0.count <= s.total && BucketAt(s, p).h1.count <= s.total
  {
  }

  // ---------- promotion ----------

  // No item twice, counting one more held in hand.
  ghost predicate OnceWith(s: State, fp: Fp, home: Address) {
    forall x: Item | Valid(s, x) :: Slots(s, x) + Is(Entry(fp, 1), home, x) <= 1
  }

  lemma KickOnce(s: State, e: Entry, p: Place, n: nat)
    requires InRange(s, p) && e.count > 0 && OnceWith(s, e.fp, Home(s, p, e.fp))
    ensures Once(Kick(s, e, p, n).s)
  {
    hide Alt, Slots, Kick, BitRange.Pow2;
    var t := Kick(s, e, p, n).s;
    KickConserves(s, e, p, n, Item(0, 0)) by {
      assert Valid(s, Item(0, 0));
    }
    forall x: Item | Valid(t, x)
      ensures Slots(t, x) <= 1
    {
      KickConserves(s, e, p, n, x);
    }
  }

  // The lobby entry at `p`, taken out, is tracked nowhere else.
  ghost predicate Waiting(s: State, p: Place) {
    OnceWith(SetLobby(s, p, Nobody), BucketAt(s, p).lobby.fp, Home(s, p, BucketAt(s, p).lobby.fp))
  }

  lemma PromotedSlots(b: Bucket, fp: Fp)
    requires Full(b)
    ensures Inside(Promoted(b), fp) + Holds(Heavy(b, Least(b)), fp)
      == Inside(b.(lobby := Nobody), fp) + (if b.lobby.fp == fp then 1 else 0)
  {
  }

  lemma PromotedOnce(s: State, p: Place)
    requires InRange(s, p) && Full(BucketAt(s, p)) && Waiting(s, p)
    ensures
      var out := Heavy(BucketAt(s, p), Least(BucketAt(s, p)));
      OnceWith(Put(s, p, Promoted(BucketAt(s, p))), out.fp, Home(s, p, out.fp))
  {
    hide Alt, BitRange.Pow2, Inside, Slots, Promoted;
    var b := BucketAt(s, p);
    var out := Heavy(b, Least(b));
    var t, bare := Put(s, p, Promoted(b)), SetLobby(s, p, Nobody);
    forall x: Item | Valid(t, x)
      ensures Slots(t, x) + Is(Entry(out.fp, 1), Home(s, p, out.fp), x) <= 1
    {
      PutSlots(s, p, Promoted(b), x);
      PutSlots(s, p, b.(lobby := Nobody), x);
      PromotedSlots(b, x.fp);
      assert Slots(bare, x) + Is(Entry(b.lobby.fp, 1), Home(s, p, b.lobby.fp), x) <= 1;
    }
  }

  /**
   * Promoting the lobby entry of a full bucket, whatever the draw, keeps every item in
   * one slot and every live lobby entry behind full buckets.
   */
  lemma PromoteInv(s: State, x: Item, count: nat, side: bool, lucky: bool)
    requires Valid(s, x) && Below(s) && Full(BucketAt(s, Candidate(s, x, side))) && Waiting(s, Candidate(s, x, side))
    requires LobbyLast(SetLobby(s, Candidate(s, x, side), Nobody))
    ensures Promote(s, x, count, side, lucky).Some? ==> Inv(Promote(s, x, count, side, lucky).value.s)
  {
    hide Alt, BitRange.Pow2, Below, Waiting, LobbyLast, Once, OnceWith, Kick, Promoted, Milder;
    CandidateInRange(s, x, side);
    var p := Candidate(s, x, side);
    var b := BucketAt(s, p);
    var out := Heavy(b, Least(b));
    if Promote(s, x, count, side, lucky).Some? {
      PromotedOnce(s, p);
      var t := Put(s, p, Promoted(b));
      KickOnce(t, out, p, MAX_KICKS);
      BelowAt(s, p);
      PromotedKeeps(s, p);
      KickKeeps(t, out, p, MAX_KICKS);
      MilderTrans(SetLobby(s, p, Nobody), t, Kick(t, out, p, MAX_KICKS).s);
      MilderLobby(SetLobby(s, p, Nobody), Kick(t, out, p, MAX_KICKS).s);
    }
  }

  lemma CandidateInRange(s: State, x: Item, side: bool)
    requires Valid(s, x)
    ensures InRange(s, Candidate(s, x, side)) && Home(s, Candidate(s, x, side), x.fp) == x.home
    ensures Candidate(s, x, !side) == Other(s, Candidate(s, x, side), x.fp)
  {
    hide Alt, BitRange.Pow2;
    OtherBack(s, Place(false, x.home), x.fp);
  }

  lemma PromotedKeeps(s: State, p: Place)
    requires Full(BucketAt(s, p)) && Below(s)
    ensures Below(Put(s, p, Promoted(BucketAt(s, p)))) && Milder(SetLobby(s, p, Nobody), Put(s, p, Promoted(BucketAt(s, p))))
  {
    BelowAt(s, p);
    PutBelow(s, p, Promoted(BucketAt(s, p)));
  }

  // ---------- the lobby slot ----------

  // The lobby slot at `p` may hold `fp`: it is tracked nowhere else and both its buckets
  // are full.
  ghost predicate Ready(s: State, p: Place, fp: Fp) {
    && OnceWith(SetLobby(s, p, Nobody), fp, Home(s, p, fp))
    && Full(BucketAt(s, p)) && Full(BucketAt(s, Other(s, p, fp)))
    && LobbyLast(SetLobby(s, p, Nobody)) && Below(s) && InRange(s, p)
  }

  lemma ReadySet(s: State, p: Place, fp: Fp, e: Entry)
    requires Ready(s, p, fp)
    ensures Ready(SetLobby(s, p, e), p, fp)
  {
    hide Alt, BitRange.Pow2, OnceWith, LobbyLast;
    var t := SetLobby(s, p, e);
    assert SetLobby(t, p, Nobody) == SetLobby(s, p, Nobody);
    BelowAt(s, p);
    PutBelow(s, p, BucketAt(s, p).(lobby := e));
  }

  lemma LobbySlots(s: State, p: Place, e: Entry, x: Item)
    requires InRange(s, p) && Valid(s, x) && e.count > 0
    ensures Slots(SetLobby(s, p, e), x) == Slots(SetLobby(s, p, Nobody), x) + Is(Entry(e.fp, 1), Home(s, p, e.fp), x)
  {
    hide Alt, BitRange.Pow2, Slots;
    PutSlots(s, p, BucketAt(s, p).(lobby := e), x);
    PutSlots(s, p, BucketAt(s, p).(lobby := Nobody), x);
  }

  lemma ReadyStay(s: State, p: Place, e: Entry)
    requires Ready(s, p, e.fp) && e.count > 0
    ensures Inv(SetLobby(s, p, e))
  {
    var t, bare := SetLobby(s, p, e), SetLobby(s, p, Nobody);
    BelowAt(s, p);
    PutBelow(s, p, BucketAt(s, p).(lobby := e));
    assert Once(t) by {
      hide Alt, BitRange.Pow2, Slots, LobbyLast;
      forall x: Item | Valid(t, x)
        ensures Slots(t, x) <= 1
      {
        LobbySlots(s, p, e, x);
        assert Valid(bare, x);
      }
    }
    LobbyAdded(s, p, e);
  }

  lemma LobbyAdded(s: State, p: Place, e: Entry)
    requires Full(BucketAt(s, p)) && Full(BucketAt(s, Other(s, p, e.fp))) && LobbyLast(SetLobby(s, p, Nobody)) && InRange(s, p)
    ensures LobbyLast(SetLobby(s, p, e))
  {
    hide Alt, BitRange.Pow2;
    var t, bare := SetLobby(s, p, e), SetLobby(s, p, Nobody);
    assert forall r :: Full(BucketAt(t, r)) == Full(BucketAt(bare, r)) == Full(BucketAt(s, r));
    forall r: Place | InRange(t, r) && BucketAt(t, r).lobby.count > 0
      ensures Full(BucketAt(t, r)) && Full(BucketAt(t, Other(t, r, BucketAt(t, r).lobby.fp)))
    {
      if r != p {
        assert InRange(bare, r) && BucketAt(bare, r).lobby.count > 0;
        assert Full(BucketAt(bare, Other(bare, r, BucketAt(bare, r).lobby.fp)));
      }
    }
  }

  lemma ReadyPromote(s: State, x: Item, count: nat, side: bool, lucky: bool, stay: nat)
    requires Valid(s, x) && stay > 0 && Ready(s, Candidate(s, x, side), BucketAt(s, Candidate(s, x, side)).lobby.fp)
    ensures Inv(PromoteOr(s, x, count, side, lucky, stay))
  {
    hide Alt, BitRange.Pow2, OnceWith, LobbyLast, Below, Inv, Promote, Full;
    var p := Candidate(s, x, side);
    if Promote(s, x, count, side, lucky).Some? {
      PromoteInv(s, x, count, side, lucky);
    } else {
      ReadyStay(s, p, BucketAt(s, p).lobby.(count := stay));
    }
  }

  // ---------- one update ----------

  // The tables with the total already raised by `w`.
  ghost predicate Raised(s: State, w: nat) {
    && Once(s) && LobbyLast(s) && s.total < LIMIT && w <= s.total
    && (forall p :: BucketAt(s, p).h0.count + w <= s.total && BucketAt(s, p).h1.count + w <= s.total)
  }

  lemma RaisedBelow(s: State, w: nat)
    requires Raised(s, w)
    ensures Below(s)
  {
    forall p
      ensures BucketAt(s, p).h0.count <= s.total && BucketAt(s, p).h1.count <= s.total
    {
      assert BucketAt(s, p).h0.count + w <= s.total;
    }
  }

  // What is known of an item's buckets when it is not heavy and finds no empty slot.
  lemma NotHeavy(s: State, x: Item, w: nat)
    requires CheckHeavy(s, x, w).None?
    ensures forall side :: Full(BucketAt(s, Candidate(s, x, side))) && Find(BucketAt(s, Candidate(s, x, side)), x.fp).None?
  {
    assert Full(BucketAt(s, Candidate(s, x, false))) && Full(BucketAt(s, Candidate(s, x, true)));
  }

  lemma SlotsOf(s: State, x: Item)
    ensures Slots(s, x) == Inside(BucketAt(s, Candidate(s, x, false)), x.fp) + Inside(BucketAt(s, Candidate(s, x, true)), x.fp)
  {
  }

  // An item in the lobby has no empty heavy slot, so one with an empty slot is new.
  lemma EmptyMeansNew(s: State, x: Item, side: bool)
    requires Valid(s, x) && LobbyLast(s) && !Full(BucketAt(s, Candidate(s, x, side)))
    requires forall d :: Find(BucketAt(s, Candidate(s, x, d)), x.fp).None?
    ensures Slots(s, x) == 0
  {
    hide Alt, BitRange.Pow2, Slots;
    SlotsOf(s, x);
    forall d: bool
      ensures Holds(BucketAt(s, Candidate(s, x, d)).lobby, x.fp) == 0
    {
      CandidateInRange(s, x, d);
      var p := Candidate(s, x, d);
      assert Candidate(s, x, side) == p || Candidate(s, x, side) == Other(s, p, x.fp);
    }
    assert Find(BucketAt(s, Candidate(s, x, false)), x.fp).None? && Find(BucketAt(s, Candidate(s, x, true)), x.fp).None?;
    assert Holds(BucketAt(s, Candidate(s, x, false)).lobby, x.fp) == 0 && Holds(BucketAt(s, Candidate(s, x, true)).lobby, x.fp) == 0;
  }

  // A heavy slot changes and no item ends up with two.
  lemma HeavyPut(s: State, p: Place, i: nat, e: Entry)
    requires Once(s) && LobbyLast(s) && Below(s) && InRange(s, p) && i < 2 && 0 < e.count <= s.total
    requires Holds(Heavy(BucketAt(s, p), i), e.fp) == 1 || (Heavy(BucketAt(s, p), i).count == 0 && Slots(s, Item(e.fp, Home(s, p, e.fp))) == 0)
    ensures Inv(Put(s, p, WithHeavy(BucketAt(s, p), i, e)))
  {
    var b := BucketAt(s, p);
    var t := Put(s, p, WithHeavy(b, i, e));
    BelowAt(s, p);
    PutBelow(s, p, WithHeavy(b, i, e));
    PutMilder(s, p, WithHeavy(b, i, e));
    MilderLobby(s, t);
    hide Alt, BitRange.Pow2, Slots, LobbyLast, Below;
    forall x: Item | Valid(t, x)
      ensures Slots(t, x) <= 1
    {
      HeavySlots(b, i, e, x.fp);
      PutSlots(s, p, WithHeavy(b, i, e), x);
      assert Valid(s, x);
    }
  }

  lemma HeavyInv(s: State, x: Item, w: nat)
    requires Raised(s, w) && Valid(s, x) && w > 0 && CheckHeavy(s, x, w).Some?
    ensures Inv(CheckHeavy(s, x, w).value)
  {
    RaisedBelow(s, w);
    hide Alt, BitRange.Pow2, Slots, Below, Inv, LobbyLast, Once;
    CandidateInRange(s, x, false);
    CandidateInRange(s, x, true);
    var p, q := Candidate(s, x, false), Candidate(s, x, true);
    var b, c := BucketAt(s, p), BucketAt(s, q);
    if Find(b, x.fp).Some? {
      var i := Find(b, x.fp).value;
      HeavyPut(s, p, i, Entry(x.fp, Heavy(b, i).count + w));
    } else if Find(c, x.fp).Some? {
      var i := Find(c, x.fp).value;
      HeavyPut(s, q, i, Entry(x.fp, Heavy(c, i).count + w));
    } else {
      assert forall d :: Find(BucketAt(s, Candidate(s, x, d)), x.fp).None?;
      if Empty(b).Some? {
        EmptyMeansNew(s, x, false);
        HeavyPut(s, p, Empty(b).value, Entry(x.fp, w));
      } else {
        EmptyMeansNew(s, x, true);
        HeavyPut(s, q, Empty(c).value, Entry(x.fp, w));
      }
    }
  }

  // Taking a lobby entry away leaves the rest as it was.
  lemma BareLobby(s: State, p: Place)
    requires LobbyLast(s)
    ensures LobbyLast(SetLobby(s, p, Nobody))
  {
    PutMilder(s, p, BucketAt(s, p).(lobby := Nobody));
    MilderLobby(s, SetLobby(s, p, Nobody));
  }

  lemma LiveReady(s: State, p: Place)
    requires Once(s) && LobbyLast(s) && Below(s) && InRange(s, p) && BucketAt(s, p).lobby.count > 0
    ensures Ready(s, p, BucketAt(s, p).lobby.fp)
  {
    var e := BucketAt(s, p).lobby;
    var bare := SetLobby(s, p, Nobody);
    BareLobby(s, p);
    assert Full(BucketAt(s, p)) && Full(BucketAt(s, Other(s, p, e.fp)));
    hide Alt, BitRange.Pow2, Slots, LobbyLast, Below;
    forall x: Item | Valid(bare, x)
      ensures Slots(bare, x) + Is(Entry(e.fp, 1), Home(s, p, e.fp), x) <= 1
    {
      PutSlots(s, p, BucketAt(s, p).(lobby := Nobody), x);
      assert Valid(s, x);
    }
  }

  lemma NewReady(s: State, x: Item, side: bool)
    requires Once(s) && LobbyLast(s) && Below(s) && Valid(s, x) && Slots(s, x) == 0
    requires forall d :: Full(BucketAt(s, Candidate(s, x, d)))
    ensures Ready(s, Candidate(s, x, side), x.fp)
  {
    var p := Candidate(s, x, side);
    var bare := SetLobby(s, p, Nobody);
    BareLobby(s, p);
    CandidateInRange(s, x, side);
    assert Full(BucketAt(s, Candidate(s, x, !side)));
    hide Alt, BitRange.Pow2, Slots, LobbyLast, Below;
    forall y: Item | Valid(bare, y)
      ensures Slots(bare, y) + Is(Entry(x.fp, 1), Home(s, p, x.fp), y) <= 1
    {
      PutSlots(s, p, BucketAt(s, p).(lobby := Nobody), y);
      assert Valid(s, y);
    }
  }

  lemma NowhereTracked(s: State, x: Item, w: nat)
    requires CheckHeavy(s, x, w).None? && !InLobby(s, x, false) && !InLobby(s, x, true)
    ensures Slots(s, x) == 0
  {
    hide Alt;
    NotHeavy(s, x, w);
    assert Find(BucketAt(s, Candidate(s, x, false)), x.fp).None? && Find(BucketAt(s, Candidate(s, x, true)), x.fp).None?;
  }

  lemma HitInv(s: State, x: Item, w: nat, side: bool, lucky: bool)
    requires Raised(s, w) && Valid(s, x) && InLobby(s, x, side)
    ensures Inv(LobbyHit(s, x, w, side, lucky))
  {
    RaisedBelow(s, w);
    var p := Candidate(s, x, side);
    var e := BucketAt(s, p).lobby;
    CandidateInRange(s, x, side);
    hide Alt, BitRange.Pow2, Slots, Once, LobbyLast, Below, Inv, Ready, PromoteOr;
    LiveReady(s, p);
    if e.count + w < PROMOTION {
      ReadyStay(s, p, e.(count := e.count + w));
    } else {
      ReadyPromote(s, x, e.count + w, side, lucky, PROMOTION);
    }
  }

  // The lobby slot gets `e`, and is promoted at once if it counts enough.
  lemma TakesSlot(s: State, x: Item, side: bool, e: Entry, count: nat, lucky: bool, stay: nat)
    requires Valid(s, x) && Ready(s, Candidate(s, x, side), e.fp) && stay > 0
    ensures e.count > 0 ==> Inv(SetLobby(s, Candidate(s, x, side), e))
    ensures Inv(PromoteOr(SetLobby(s, Candidate(s, x, side), e), x, count, side, lucky, stay))
  {
    hide Alt, BitRange.Pow2, Inv, Ready, PromoteOr;
    var p := Candidate(s, x, side);
    if e.count > 0 {
      ReadyStay(s, p, e);
    }
    ReadySet(s, p, e.fp, e);
    ReadyPromote(SetLobby(s, p, e), x, count, side, lucky, stay);
  }

  lemma EnterInv(s: State, x: Item, w: nat, side: bool, lucky: bool)
    requires Raised(s, w) && Valid(s, x) && w > 0 && Slots(s, x) == 0 && forall d :: Full(BucketAt(s, Candidate(s, x, d)))
    ensures Inv(LobbyEnter(s, x, w, side, lucky))
  {
    RaisedBelow(s, w);
    NewReady(s, x, side);
    hide Alt, BitRange.Pow2, Inv, Ready, PromoteOr, Raised;
    TakesSlot(s, x, side, Entry(x.fp, if w < PROMOTION then w else 0), w, lucky, PROMOTION);
  }

  lemma DecayInv(s: State, x: Item, w: nat, side: bool, ch: Choice)
    requires Raised(s, w) && Valid(s, x) && w > 0 && Slots(s, x) == 0 && forall d :: Full(BucketAt(s, Candidate(s, x, d)))
    requires !LobbyFree(s, x, side)
    ensures Inv(LobbyDecay(s, x, w, side, ch))
  {
    RaisedBelow(s, w);
    NewReady(s, x, side);
    CandidateInRange(s, x, side);
    var p := Candidate(s, x, side);
    LiveReady(s, p);
    hide Alt, BitRange.Pow2, Inv, Ready, PromoteOr, Raised, Once, LobbyLast, Below;
    var e := BucketAt(s, p).lobby;
    var left :=
      if ch.decayed == 0 then Entry(x.fp, if ch.spent >= w then 1 else Min(255, w - ch.spent))
      else e.(count := ch.decayed);
    TakesSlot(s, x, side, left, left.count, ch.lucky, left.count);
  }

  lemma TotalRaised(s: State, w: nat)
    requires Inv(s) && s.total + w < LIMIT
    ensures Raised(s.(total := s.total + w), w)
  {
    hide Alt, BitRange.Pow2;
    var t := s.(total := s.total + w);
    assert forall x :: Slots(t, x) == Slots(s, x);
    forall p
      ensures BucketAt(t, p) == BucketAt(s, p) && BucketAt(s, p).h0.count <= s.total && BucketAt(s, p).h1.count <= s.total
    {
    }
    forall p: Place | InRange(t, p) && BucketAt(t, p).lobby.count > 0
      ensures Full(BucketAt(t, p)) && Full(BucketAt(t, Other(t, p, BucketAt(t, p).lobby.fp)))
    {
      assert InRange(s, p);
    }
    assert forall x: Item | Valid(t, x) :: Valid(s, x);
  }

  /**
   * For every draw and every decay, an update keeps each item in at most one live slot
   * and each live lobby entry behind two full buckets.
   */
  lemma UpdateInv(s: State, x: Item, w: nat, ch: Choice)
    requires Inv(s) && Valid(s, x) && s.total + w < LIMIT
    ensures Inv(Update(s, x, w, ch)) && Update(s, x, w, ch).total == s.total + w
  {
    hide Alt, BitRange.Pow2, Inv, Raised, CheckHeavy, LobbyHit, LobbyEnter, LobbyDecay, Slots, InLobby, LobbyFree, Full, Find;
    UpdateTotal(s, x, w, ch);
    if w > 0 {
      TotalRaised(s, w);
      var t := s.(total := s.total + w);
      if CheckHeavy(t, x, w).Some? {
        HeavyInv(t, x, w);
      } else if InLobby(t, x, false) {
        HitInv(t, x, w, false, ch.lucky);
      } else if InLobby(t, x, true) {
        HitInv(t, x, w, true, ch.lucky);
      } else {
        NowhereTracked(t, x, w);
        NotHeavy(t, x, w);
        if LobbyFree(t, x, false) {
          EnterInv(t, x, w, false, ch.lucky);
        } else if LobbyFree(t, x, true) {
          EnterInv(t, x, w, true, ch.lucky);
        } else {
          DecayInv(t, x, w, x.fp % 2 == 1, ch);
        }
      }
    }
  }

  lemma {:induction false} KickTotal(s: State, e: Entry, p: Place, n: nat)
    ensures Kick(s, e, p, n).s.total == s.total && Kick(s, e, p, n).s.bits == s.bits
    decreases n
  {
    hide Alt, IsHeavy;
    if n > 0 && IsHeavy(s.total, e.count) {
      var q := Other(s, p, e.fp);
      var b := BucketAt(s, q);
      if Empty(b).None? {
        KickTotal(Put(s, q, WithHeavy(b, Least(b), e)), Heavy(b, Least(b)), q, n - 1);
      }
    }
  }

  lemma PromoteTotal(s: State, x: Item, count: nat, side: bool, lucky: bool, stay: nat)
    ensures PromoteOr(s, x, count, side, lucky, stay).total == s.total && PromoteOr(s, x, count, side, lucky, stay).bits == s.bits
  {
    hide Alt, Kick;
    var p := Candidate(s, x, side);
    var b := BucketAt(s, p);
    KickTotal(Put(s, p, Promoted(b)), Heavy(b, Least(b)), p, MAX_KICKS);
  }

  lemma UpdateTotal(s: State, x: Item, w: nat, ch: Choice)
    ensures Update(s, x, w, ch).total == s.total + w && Update(s, x, w, ch).bits == s.bits
  {
    hide Alt, PromoteOr;
    var t := s.(total := s.total + w);
    forall u: State, count: nat, side, stay: nat
      ensures PromoteOr(u, x, count, side, ch.lucky, stay).total == u.total
      ensures PromoteOr(u, x, count, side, ch.lucky, stay).bits == u.bits
    {
      PromoteTotal(u, x, count, side, ch.lucky, stay);
    }
  }

  // ---------- every run ----------

  datatype Record = Record(item: Item, weight: nat, choice: Choice)

  function After(s: State, run: seq<Record>): State {
    if run == [] then s
    else
      var r := run[|run| - 1];
      Update(After(s, run[..|run| - 1]), r.item, r.weight, r.choice)
  }

  function Weights(run: seq<Record>): nat {
    if run == [] then 0 else Weights(run[..|run| - 1]) + run[|run| - 1].weight
  }

  // From empty tables, as long as the recorded weights stay below the counters' limit.
  lemma {:induction false} RunInv(bits: nat, run: seq<Record>)
    requires Weights(run) < LIMIT && forall r <- run :: r.item.home < BitRange.Pow2(bits)
    ensures
      var s := After(State(bits, map[], 0), run);
      Inv(s) && s.total == Weights(run) && s.bits == bits
  {
    hide Alt, BitRange.Pow2, Update;
    if run != [] {
      var n := |run| - 1;
      RunInv(bits, run[..n]);
      var s := After(State(bits, map[], 0), run[..n]);
      UpdateInv(s, run[n].item, run[n].weight, run[n].choice);
      UpdateTotal(s, run[n].item, run[n].weight, run[n].choice);
    }
  }
}
