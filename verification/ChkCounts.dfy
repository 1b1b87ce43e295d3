/**
 * What an update does to the counts: to the one of the item recorded, and to everybody
 * else's.
 */
module ChkCounts {
  import opened Prelude
  import opened Chk
  import BitRange

  function Weight(e: Entry, fp: Fp): nat {
    if e.fp == fp then e.count else 0
  }

  function HeavyIn(b: Bucket, fp: Fp): nat {
    Weight(b.h0, fp) + Weight(b.h1, fp)
  }

  // What the heavy entries of its two buckets say about an item.
  function HeavyCount(s: State, x: Item): nat {
    var p := Place(false, x.home);
    HeavyIn(BucketAt(s, p), x.fp) + HeavyIn(BucketAt(s, Other(s, p, x.fp)), x.fp)
  }

  // And their lobby entries.
  function LobbyCount(s: State, x: Item): nat {
    var p := Place(false, x.home);
    Weight(BucketAt(s, p).lobby, x.fp) + Weight(BucketAt(s, Other(s, p, x.fp)).lobby, x.fp)
  }

  ghost predicate Same(s: State, t: State, x: Item) {
    HeavyCount(t, x) == HeavyCount(s, x) && LobbyCount(t, x) == LobbyCount(s, x)
  }

  ghost predicate OthersSame(s: State, t: State, x: Item) {
    forall y: Item | Valid(s, y) && y != x :: Same(s, t, y)
  }

  // One bucket changes.
  lemma PutCounts(s: State, p: Place, b: Bucket, x: Item)
    requires InRange(s, p) && Valid(s, x)
    ensures
      var t, mine := Put(s, p, b), Home(s, p, x.fp) == x.home;
      && HeavyCount(t, x) == HeavyCount(s, x) + (if mine then HeavyIn(b, x.fp) - HeavyIn(BucketAt(s, p), x.fp) else 0)
      && LobbyCount(t, x) == LobbyCount(s, x) + (if mine then Weight(b.lobby, x.fp) - Weight(BucketAt(s, p).lobby, x.fp) else 0)
  {
    hide Alt, BitRange.Pow2, HeavyIn, Weight;
    var h := Place(false, x.home);
    OtherBack(s, p, x.fp);
    OtherBack(s, h, x.fp);
    assert p == h || p == Other(s, h, x.fp) <==> Home(s, p, x.fp) == x.home;
  }

  lemma HeavyReplaced(b: Bucket, i: nat, e: Entry, fp: Fp)
    ensures HeavyIn(WithHeavy(b, i, e), fp) == HeavyIn(b, fp) - Weight(Heavy(b, i), fp) + Weight(e, fp)
    ensures WithHeavy(b, i, e).lobby == b.lobby
  {
  }

  // ---------- heavy entries ----------

  ghost predicate HeavyRoom(s: State, x: Item) {
    !Full(BucketAt(s, Candidate(s, x, false))) || !Full(BucketAt(s, Candidate(s, x, true)))
  }

  lemma HeavyAt(s: State, p: Place, i: nat, e: Entry, x: Item, y: Item)
    requires InRange(s, p) && Valid(s, x) && Valid(s, y) && Home(s, p, x.fp) == x.home && e.fp == x.fp
    requires Weight(Heavy(BucketAt(s, p), i), y.fp) == 0 || x.fp == y.fp
    ensures
      var t := Put(s, p, WithHeavy(BucketAt(s, p), i, e));
      && (y != x ==> Same(s, t, y))
      && LobbyCount(t, x) == LobbyCount(s, x)
      && HeavyCount(t, x) == HeavyCount(s, x) - Weight(Heavy(BucketAt(s, p), i), x.fp) + e.count
  {
    hide Alt, BitRange.Pow2, HeavyCount, LobbyCount, HeavyIn, Heavy, WithHeavy;
    var b := BucketAt(s, p);
    HeavyReplaced(b, i, e, x.fp);
    HeavyReplaced(b, i, e, y.fp);
    PutCounts(s, p, WithHeavy(b, i, e), x);
    PutCounts(s, p, WithHeavy(b, i, e), y);
  }

  lemma FoundIff(s: State, x: Item)
    ensures HeavyCount(s, x) > 0 <==> Find(BucketAt(s, Candidate(s, x, false)), x.fp).Some? || Find(BucketAt(s, Candidate(s, x, true)), x.fp).Some?
  {
    hide Alt;
  }

  // An item with a heavy entry counts `w` more; one without starts at `w` if there is room.
  lemma HeavyCounts(s: State, x: Item, w: nat)
    requires Valid(s, x)
    ensures CheckHeavy(s, x, w).Some? <==> HeavyCount(s, x) > 0 || HeavyRoom(s, x)
    ensures CheckHeavy(s, x, w).Some? ==>
      var t := CheckHeavy(s, x, w).value;
      HeavyCount(t, x) == HeavyCount(s, x) + w && LobbyCount(t, x) == LobbyCount(s, x) && OthersSame(s, t, x)
  {
    FoundIff(s, x);
    hide Alt, BitRange.Pow2, HeavyCount, LobbyCount, Same;
    CandidateInRange(s, x, false);
    CandidateInRange(s, x, true);
    var b, c := BucketAt(s, Candidate(s, x, false)), BucketAt(s, Candidate(s, x, true));
    if CheckHeavy(s, x, w).Some? {
      var side := Find(b, x.fp).None? && (Find(c, x.fp).Some? || Empty(b).None?);
      var p, d := Candidate(s, x, side), if side then c else b;
      var i := if Find(d, x.fp).Some? then Find(d, x.fp).value else Empty(d).value;
      var e := if Find(d, x.fp).Some? then Heavy(d, i).(count := Heavy(d, i).count + w) else Entry(x.fp, w);
      forall y: Item | Valid(s, y)
        ensures
          var t := CheckHeavy(s, x, w).value;
          && (y != x ==> Same(s, t, y))
          && LobbyCount(t, x) == LobbyCount(s, x)
          && HeavyCount(t, x) == HeavyCount(s, x) + w
      {
        HeavyAt(s, p, i, e, x, y);
      }
      assert Valid(s, x);
    }
  }

  // ---------- evictions ----------

  /**
   * An eviction chain moves counts and changes none: counting the entry in hand, every
   * item has the count it had, but for the one the chain ends up losing.
   */
  lemma {:induction false} KickCounts(s: State, e: Entry, p: Place, n: nat, x: Item)
    requires InRange(s, p) && Valid(s, x) && e.count > 0
    ensures
      var r := Kick(s, e, p, n);
      && LobbyCount(r.s, x) == LobbyCount(s, x)
      && (r.lost != Some(x) ==> HeavyCount(r.s, x) == HeavyCount(s, x) + Is(e, Home(s, p, e.fp), x) * e.count)
    decreases n
  {
    hide Alt, BitRange.Pow2, IsHeavy, HeavyCount, LobbyCount, HeavyIn;
    if n > 0 && IsHeavy(s.total, e.count) {
      var q := Other(s, p, e.fp);
      var b := BucketAt(s, q);
      OtherBack(s, p, e.fp);
      assert Home(s, q, e.fp) == Home(s, p, e.fp);
      var i := if Empty(b).Some? then Empty(b).value else Least(b);
      HeavyReplaced(b, i, e, x.fp);
      PutCounts(s, q, WithHeavy(b, i, e), x);
      if Empty(b).None? {
        KickCounts(Put(s, q, WithHeavy(b, i, e)), Heavy(b, i), q, n - 1, x);
      }
    }
  }

  // The least heavy count of a bucket.
  function LeastCount(b: Bucket): nat {
    Min(b.h0.count, b.h1.count)
  }

  /**
   * `x` moved from the lobby to the heavy entries and took over the count `least`; all
   * others count as before, but for one that may have been pushed out.
   */
  ghost predicate MovedUp(s: State, t: State, x: Item, least: nat, lost: Option<Item>) {
    && LobbyCount(t, x) == 0
    && HeavyCount(t, x) == (if lost == Some(x) then 0 else least)
    && (forall y: Item | Valid(s, y) && y != x ::
          LobbyCount(t, y) == LobbyCount(s, y) && HeavyCount(t, y) == if lost == Some(y) then 0 else HeavyCount(s, y))
  }

  lemma PromotedIn(b: Bucket, fp: Fp)
    ensures HeavyIn(Promoted(b), fp) == HeavyIn(b, fp) - Weight(Heavy(b, Least(b)), fp) + Weight(Entry(b.lobby.fp, LeastCount(b)), fp)
    ensures Promoted(b).lobby == Nobody && Heavy(b, Least(b)).count == LeastCount(b)
  {
  }

  // What the tables hold of an item with no slot.
  lemma NoSlotNoCount(s: State, x: Item)
    requires Slots(s, x) == 0
    ensures HeavyCount(s, x) == 0
  {
    hide Alt;
  }

  // One item's counts over a promotion with its eviction chain.
  lemma PromoteCount(s: State, p: Place, y: Item)
    requires Valid(s, y) && InRange(s, p) && Full(BucketAt(s, p)) && Waiting(s, p)
    ensures
      var b := BucketAt(s, p);
      var r := Kick(Put(s, p, Promoted(b)), Heavy(b, Least(b)), p, MAX_KICKS);
      var up := Is(b.lobby, Home(s, p, b.lobby.fp), y);
      && HeavyCount(r.s, y) == (if r.lost == Some(y) then 0 else HeavyCount(s, y) + up * LeastCount(b))
      && LobbyCount(r.s, y) == LobbyCount(s, y) - up * b.lobby.count
  {
    var b := BucketAt(s, p);
    var t, out := Put(s, p, Promoted(b)), Heavy(b, Least(b));
    PromotedIn(b, y.fp);
    hide Alt, BitRange.Pow2, HeavyCount, LobbyCount, Slots, Kick, HeavyIn, Promoted, Least, LeastCount, Waiting;
    PromotedOnce(s, p);
    PutCounts(s, p, Promoted(b), y);
    KickCounts(t, out, p, MAX_KICKS, y);
    KickConserves(t, out, p, MAX_KICKS, y);
    if Kick(t, out, p, MAX_KICKS).lost == Some(y) {
      assert Slots(t, y) + Is(Entry(out.fp, 1), Home(s, p, out.fp), y) <= 1;
      NoSlotNoCount(Kick(t, out, p, MAX_KICKS).s, y);
    }
  }

  // The lobby entry of `x` at `p`, counted up to `count`, is promoted or refused.
  lemma PromoteCounts(s: State, x: Item, count: nat, side: bool, lucky: bool)
    requires Valid(s, x) && HeavyCount(s, x) == 0
    requires
      var p := Candidate(s, x, side);
      var b := BucketAt(s, p);
      Full(b) && Waiting(s, p) && b.lobby.fp == x.fp && LobbyCount(s, x) == b.lobby.count
    ensures
      var r, least := Promote(s, x, count, side, lucky), LeastCount(BucketAt(s, Candidate(s, x, side)));
      && (r.Some? <==> lucky || least <= count)
      && (r.Some? ==> MovedUp(s, r.value.s, x, least, r.value.lost))
  {
    CandidateInRange(s, x, side);
    PromoteIs(s, x, count, side, lucky);
    hide Alt, BitRange.Pow2, HeavyCount, LobbyCount, Kick, Promoted, Least, LeastCount, Waiting, Candidate, Promote, MovedUp;
    if Promote(s, x, count, side, lucky).Some? {
      PromoteMoves(s, x, Candidate(s, x, side));
    }
  }

  lemma PromoteIs(s: State, x: Item, count: nat, side: bool, lucky: bool)
    requires Full(BucketAt(s, Candidate(s, x, side)))
    ensures
      var p := Candidate(s, x, side);
      var b := BucketAt(s, p);
      Promote(s, x, count, side, lucky) ==
        if lucky || LeastCount(b) <= count then Some(Kick(Put(s, p, Promoted(b)), Heavy(b, Least(b)), p, MAX_KICKS)) else None
  {
    hide Alt, Kick, Promoted;
  }

  lemma PromoteMoves(s: State, x: Item, p: Place)
    requires Valid(s, x) && InRange(s, p) && Full(BucketAt(s, p)) && Waiting(s, p)
    requires HeavyCount(s, x) == 0 && LobbyCount(s, x) == BucketAt(s, p).lobby.count
    requires BucketAt(s, p).lobby.fp == x.fp && Home(s, p, x.fp) == x.home
    ensures
      var b := BucketAt(s, p);
      var r := Kick(Put(s, p, Promoted(b)), Heavy(b, Least(b)), p, MAX_KICKS);
      MovedUp(s, r.s, x, LeastCount(b), r.lost)
  {
    hide Alt, BitRange.Pow2, HeavyCount, LobbyCount, Kick, Promoted, Least, LeastCount, Waiting, Home, BucketAt, Full, Put;
    var b := BucketAt(s, p);
    var r := Kick(Put(s, p, Promoted(b)), Heavy(b, Least(b)), p, MAX_KICKS);
    PromoteCount(s, p, x);
    forall y: Item | Valid(s, y) && y != x
      ensures LobbyCount(r.s, y) == LobbyCount(s, y) && HeavyCount(r.s, y) == if r.lost == Some(y) then 0 else HeavyCount(s, y)
    {
      PromoteCount(s, p, y);
    }
  }

  // ---------- the lobby ----------

  lemma StayCounts(s: State, x: Item, side: bool, n: nat)
    requires Valid(s, x)
    requires
      var e := BucketAt(s, Candidate(s, x, side)).lobby;
      e.count == 0 || e.fp == x.fp
    ensures
      var e, t := BucketAt(s, Candidate(s, x, side)).lobby, SetLobby(s, Candidate(s, x, side), Entry(x.fp, n));
      HeavyCount(t, x) == HeavyCount(s, x) && LobbyCount(t, x) == LobbyCount(s, x) - e.count + n && OthersSame(s, t, x)
  {
    CandidateInRange(s, x, side);
    var p := Candidate(s, x, side);
    hide Alt, BitRange.Pow2, HeavyCount, LobbyCount, Candidate;
    var b := BucketAt(s, p).(lobby := Entry(x.fp, n));
    forall y: Item | Valid(s, y)
      ensures y != x ==> Same(s, SetLobby(s, p, Entry(x.fp, n)), y)
    {
      PutCounts(s, p, b, y);
    }
    PutCounts(s, p, b, x);
  }

  // The lobby entry an item gets: its own, or the first empty one.
  predicate Joining(s: State, x: Item, side: bool) {
    InLobby(s, x, side) || (!InLobby(s, x, !side) && LobbyFree(s, x, side) && (side ==> !LobbyFree(s, x, false)))
  }

  /**
   * A lobby entry that counts `w` more: below the threshold it stays in the lobby, from
   * there on it moves up or stays at the threshold.
   */
  ghost predicate Joined(s: State, t: State, x: Item, w: nat, least: nat, lucky: bool) {
    var n := LobbyCount(s, x) + w;
    if n < 16 || (!lucky && n < least) then
      LobbyCount(t, x) == Min(n, 16) && HeavyCount(t, x) == 0 && OthersSame(s, t, x)
    else exists lost :: MovedUp(s, t, x, least, lost)
  }

  function AfterJoin(s: State, x: Item, w: nat, side: bool, lucky: bool): State {
    if InLobby(s, x, side) then LobbyHit(s, x, w, side, lucky) else LobbyEnter(s, x, w, side, lucky)
  }

  // A lobby entry of `x` counted up to `n`, at least the threshold.
  lemma PromoteOrCounts(s: State, x: Item, n: nat, side: bool, lucky: bool)
    requires Valid(s, x) && HeavyCount(s, x) == 0
    requires
      var p := Candidate(s, x, side);
      var b := BucketAt(s, p);
      Ready(s, p, x.fp) && b.lobby.fp == x.fp && LobbyCount(s, x) == b.lobby.count
    ensures
      var t, least := PromoteOr(s, x, n, side, lucky, PROMOTION), LeastCount(BucketAt(s, Candidate(s, x, side)));
      if lucky || least <= n then exists lost :: MovedUp(s, t, x, least, lost)
      else LobbyCount(t, x) == 16 && HeavyCount(t, x) == 0 && OthersSame(s, t, x)
  {
    hide Alt, BitRange.Pow2, HeavyCount, LobbyCount, Promote, MovedUp, OthersSame, LobbyLast, OnceWith, Below, LeastCount;
    PromoteCounts(s, x, n, side, lucky);
    StayCounts(s, x, side, PROMOTION);
    var r, least := Promote(s, x, n, side, lucky), LeastCount(BucketAt(s, Candidate(s, x, side)));
    if r.Some? {
      assert MovedUp(s, PromoteOr(s, x, n, side, lucky, PROMOTION), x, least, r.value.lost);
    }
  }

  // An entry of `x` set in the lobby before the step does not matter.
  lemma JoinedFrom(s: State, t: State, u: State, x: Item, least: nat, lucky: bool, n: nat)
    requires OthersSame(s, t, x) && s.bits == t.bits
    requires
      if lucky || least <= n then exists lost :: MovedUp(t, u, x, least, lost)
      else LobbyCount(u, x) == 16 && HeavyCount(u, x) == 0 && OthersSame(t, u, x)
    ensures
      if lucky || least <= n then exists lost :: MovedUp(s, u, x, least, lost)
      else LobbyCount(u, x) == 16 && HeavyCount(u, x) == 0 && OthersSame(s, u, x)
  {
    hide HeavyCount, LobbyCount, BitRange.Pow2;
    assert forall y: Item | Valid(s, y) && y != x :: Valid(t, y) && Same(s, t, y);
    if lucky || least <= n {
      var lost :| MovedUp(t, u, x, least, lost);
      assert MovedUp(s, u, x, least, lost);
    }
  }

  // Nothing else is tracked of an item than what its lobby entry says.
  lemma OnlyLobby(s: State, x: Item, side: bool)
    requires Once(s) && Valid(s, x) && Joining(s, x, side)
    requires forall d :: Find(BucketAt(s, Candidate(s, x, d)), x.fp).None?
    ensures HeavyCount(s, x) == 0
    ensures
      var e := BucketAt(s, Candidate(s, x, side)).lobby;
      LobbyCount(s, x) == e.count && (e.count > 0 ==> e.fp == x.fp)
  {
    FoundIff(s, x);
    SlotsOf(s, x);
    hide Alt;
    assert Slots(s, x) <= 1;
  }

  lemma JoinCounts(s: State, x: Item, w: nat, side: bool, lucky: bool)
    requires Once(s) && LobbyLast(s) && Below(s) && Valid(s, x) && Joining(s, x, side) && w > 0
    requires forall d :: Full(BucketAt(s, Candidate(s, x, d))) && Find(BucketAt(s, Candidate(s, x, d)), x.fp).None?
    ensures Joined(s, AfterJoin(s, x, w, side, lucky), x, w, LeastCount(BucketAt(s, Candidate(s, x, side))), lucky)
  {
    var p := Candidate(s, x, side);
    var e := BucketAt(s, p).lobby;
    var n := e.count + w;
    OnlyLobby(s, x, side);
    ReadyToJoin(s, x, side);
    AfterJoinIs(s, x, w, side, lucky);
    StayCounts(s, x, side, n);
    StayCounts(s, x, side, e.count);
    var t := SetLobby(s, p, Entry(x.fp, e.count));
    ReadySet(s, p, x.fp, Entry(x.fp, e.count));
    hide Alt, BitRange.Pow2, HeavyCount, LobbyCount, MovedUp, OthersSame, LobbyLast, Once, Below, LeastCount, Ready,
         AfterJoin, PromoteOr, Full, Find, Joining, Candidate;
    if n >= 16 {
      LeastStays(s, p, Entry(x.fp, e.count));
      SetCandidate(s, x, side, p, Entry(x.fp, e.count));
      PromoteOrCounts(t, x, n, side, lucky);
      JoinedFrom(s, t, AfterJoin(s, x, w, side, lucky), x, LeastCount(BucketAt(s, p)), lucky, n);
    }
  }

  lemma LeastStays(s: State, p: Place, e: Entry)
    ensures LeastCount(BucketAt(SetLobby(s, p, e), p)) == LeastCount(BucketAt(s, p)) && BucketAt(SetLobby(s, p, e), p).lobby == e
    ensures SetLobby(s, p, e).bits == s.bits
  {
  }

  lemma SetCandidate(s: State, x: Item, side: bool, p: Place, e: Entry)
    ensures Candidate(SetLobby(s, p, e), x, side) == Candidate(s, x, side)
    ensures Valid(s, x) ==> Valid(SetLobby(s, p, e), x)
  {
  }

  lemma ReadyToJoin(s: State, x: Item, side: bool)
    requires Once(s) && LobbyLast(s) && Below(s) && Valid(s, x) && Joining(s, x, side)
    requires forall d :: Full(BucketAt(s, Candidate(s, x, d))) && Find(BucketAt(s, Candidate(s, x, d)), x.fp).None?
    ensures Ready(s, Candidate(s, x, side), x.fp)
  {
    CandidateInRange(s, x, side);
    SlotsOf(s, x);
    hide Alt, BitRange.Pow2, Ready, Once, LobbyLast, Below;
    if InLobby(s, x, side) {
      LiveReady(s, Candidate(s, x, side));
    } else {
      assert forall d :: Find(BucketAt(s, Candidate(s, x, d)), x.fp).None?;
      assert Find(BucketAt(s, Candidate(s, x, false)), x.fp).None? && Find(BucketAt(s, Candidate(s, x, true)), x.fp).None?;
      NewReady(s, x, side);
    }
  }

  lemma AfterJoinIs(s: State, x: Item, w: nat, side: bool, lucky: bool)
    requires Joining(s, x, side)
    ensures
      var p := Candidate(s, x, side);
      var e := BucketAt(s, p).lobby;
      AfterJoin(s, x, w, side, lucky) ==
        if e.count + w < 16 then SetLobby(s, p, Entry(x.fp, e.count + w))
        else PromoteOr(SetLobby(s, p, Entry(x.fp, e.count)), x, e.count + w, side, lucky, PROMOTION)
  {
    hide Alt, PromoteOr;
    var p := Candidate(s, x, side);
    var e := BucketAt(s, p).lobby;
    if InLobby(s, x, side) {
      assert SetLobby(s, p, e) == s;
    }
  }

  // ---------- an update ----------

  /**
   * What an update does to all counts. An item with a heavy entry counts `w` more, one
   * without starts at `w` in an empty heavy slot, and nobody else changes; otherwise its
   * lobby entry counts `w` more and may move up.
   */
  ghost predicate Counted(s: State, t: State, x: Item, w: nat, lucky: bool) {
    && t.total == s.total + w
    && (w == 0 ==> t == s)
    && (w > 0 && (HeavyCount(s, x) > 0 || HeavyRoom(s, x)) ==>
          HeavyCount(t, x) == HeavyCount(s, x) + w && LobbyCount(t, x) == LobbyCount(s, x) && OthersSame(s, t, x))
    && (w > 0 && HeavyCount(s, x) == 0 && !HeavyRoom(s, x) ==> forall side | Joining(s, x, side) ::
          Joined(s, t, x, w, LeastCount(BucketAt(s, Candidate(s, x, side))), lucky))
  }

  // Only the tables matter.
  lemma TotalApart(s: State, x: Item, total: nat)
    ensures
      var t := s.(total := total);
      && (forall y :: Same(s, t, y))
      && (HeavyRoom(s, x) <==> HeavyRoom(t, x))
      && (forall side :: Joining(s, x, side) <==> Joining(t, x, side))
      && (forall side :: BucketAt(s, Candidate(s, x, side)) == BucketAt(t, Candidate(t, x, side)))
  {
    hide Alt;
  }

  lemma JoinedApart(s: State, t: State, u: State, x: Item, w: nat, least: nat, lucky: bool)
    requires s.bits == t.bits && (forall y :: Same(s, t, y)) && Joined(t, u, x, w, least, lucky)
    ensures Joined(s, u, x, w, least, lucky)
  {
    hide HeavyCount, LobbyCount, BitRange.Pow2;
    assert Same(s, t, x);
    OthersApart(s, t, u, x);
    var n := LobbyCount(s, x) + w;
    if !(n < 16 || (!lucky && n < least)) {
      var lost :| MovedUp(t, u, x, least, lost);
      assert forall y: Item | Valid(s, y) && y != x :: Valid(t, y) && Same(s, t, y);
      assert MovedUp(s, u, x, least, lost);
    }
  }

  lemma OthersApart(s: State, t: State, u: State, x: Item)
    requires s.bits == t.bits && forall y :: Same(s, t, y)
    ensures OthersSame(t, u, x) ==> OthersSame(s, u, x)
  {
    hide HeavyCount, LobbyCount, BitRange.Pow2;
    assert forall y: Item | Valid(s, y) && y != x :: Valid(t, y) && Same(s, t, y);
  }

  // The tables right after the total was raised.
  lemma RaisedCounts(t: State, x: Item, w: nat, ch: Choice)
    requires Raised(t, w) && Valid(t, x) && w > 0 && CheckHeavy(t, x, w).None?
    ensures forall side | Joining(t, x, side) ::
      && AfterJoin(t, x, w, side, ch.lucky) == (
           if InLobby(t, x, false) then LobbyHit(t, x, w, false, ch.lucky)
           else if InLobby(t, x, true) then LobbyHit(t, x, w, true, ch.lucky)
           else if LobbyFree(t, x, false) then LobbyEnter(t, x, w, false, ch.lucky)
           else LobbyEnter(t, x, w, true, ch.lucky))
      && (InLobby(t, x, false) || InLobby(t, x, true) || LobbyFree(t, x, side))
      && Joined(t, AfterJoin(t, x, w, side, ch.lucky), x, w, LeastCount(BucketAt(t, Candidate(t, x, side))), ch.lucky)
  {
    RaisedBelow(t, w);
    NotHeavy(t, x, w);
    LobbyOnce(t, x);
    hide Alt, BitRange.Pow2, Raised, CheckHeavy, LobbyHit, LobbyEnter, InLobby, LobbyFree, Full, Find, Joined, LeastCount, Candidate, Once, Below, LobbyLast;
    forall side | Joining(t, x, side)
      ensures Joined(t, AfterJoin(t, x, w, side, ch.lucky), x, w, LeastCount(BucketAt(t, Candidate(t, x, side))), ch.lucky)
    {
      JoinCounts(t, x, w, side, ch.lucky);
    }
  }

  lemma LobbyOnce(s: State, x: Item)
    requires Once(s) && Valid(s, x)
    ensures !(InLobby(s, x, false) && InLobby(s, x, true))
  {
    SlotsOf(s, x);
    hide Alt, BitRange.Pow2, Slots;
    assert Slots(s, x) <= 1;
  }

  lemma UpdateCounts(s: State, x: Item, w: nat, ch: Choice)
    requires Inv(s) && Valid(s, x) && s.total + w < LIMIT
    ensures Counted(s, Update(s, x, w, ch), x, w, ch.lucky)
  {
    hide Alt, BitRange.Pow2, Inv, Raised, CheckHeavy, LobbyHit, LobbyEnter, LobbyDecay, InLobby, LobbyFree, HeavyCount, LobbyCount,
         OthersSame, Joined, HeavyRoom, LeastCount, Candidate, Joining, AfterJoin;
    UpdateTotal(s, x, w, ch);
    if w > 0 {
      TotalRaised(s, w);
      var t := s.(total := s.total + w);
      var u := Update(s, x, w, ch);
      TotalApart(s, x, s.total + w);
      assert Same(s, t, x);
      OthersApart(s, t, u, x);
      HeavyCounts(t, x, w);
      if CheckHeavy(t, x, w).None? {
        RaisedCounts(t, x, w, ch);
        forall side | Joining(s, x, side)
          ensures Joined(s, u, x, w, LeastCount(BucketAt(s, Candidate(s, x, side))), ch.lucky)
        {
          assert Joining(t, x, side);
          JoinedApart(s, t, u, x, w, LeastCount(BucketAt(t, Candidate(t, x, side))), ch.lucky);
        }
      }
    }
  }
}
