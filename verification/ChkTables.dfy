/**
 * The tables changed in place, as the update routine does it.
 */
module ChkTables {
  import opened Prelude
  import opened Chk
  import opened ChkCounts

  class TopK {
    const bits: nat
    var tables: map<Place, Bucket>
    var total: nat

    ghost function View(): State
      reads this
    {
      State(bits, tables, total)
    }

    ghost predicate Valid()
      reads this
    {
      Inv(View())
    }

    constructor (k: nat)
      ensures Valid() && bits == k && View() == State(k, map[], 0)
    {
      bits, tables, total := k, map[], 0;
      new;
      RunInv(k, []);
    }

    function At(p: Place): (b: Bucket)
      reads this
      ensures b == BucketAt(View(), p)
    {
      if p in tables then tables[p] else Bucket(Nobody, Nobody, Nobody)
    }

    function Spot(x: Item, side: bool): (p: Place)
      ensures forall s: State | s.bits == bits :: p == Candidate(s, x, side)
    {
      if side then Place(true, Alt(bits, x.fp, x.home)) else Place(false, x.home)
    }

    // checkHeavyEntries: over both buckets and both slots, remembering the first empty slot.
    method CheckHeavyEntries(x: Item, w: nat) returns (found: bool)
      modifies this`tables
      ensures found == CheckHeavy(old(View()), x, w).Some?
      ensures View() == if found then CheckHeavy(old(View()), x, w).value else old(View())
    {
      hide Alt;
      var empty: Option<(Place, nat)> := None;
      var i := 0;
      while i < 2
        invariant 0 <= i <= 2 && View() == old(View())
        invariant i > 0 ==> Find(At(Spot(x, false)), x.fp).None?
        invariant i > 1 ==> Find(At(Spot(x, true)), x.fp).None?
        invariant empty == FirstEmpty(x, i)
      {
        var p := Spot(x, i == 1);
        var b := At(p);
        var j := 0;
        while j < 2
          invariant 0 <= j <= 2 && View() == old(View()) && b == At(p)
          invariant forall k: nat | k < j :: Holds(Heavy(b, k), x.fp) == 0
          invariant empty == if FirstEmpty(x, i).Some? then FirstEmpty(x, i)
            else if j > 0 && Empty(b).Some? && Empty(b).value < j then Some((p, Empty(b).value)) else None
        {
          var e := Heavy(b, j);
          if e.count > 0 {
            if e.fp == x.fp {
              assert j == 1 ==> Holds(Heavy(b, 0), x.fp) == 0;
              tables := tables[p := WithHeavy(b, j, e.(count := e.count + w))];
              return true;
            }
          } else if empty.None? {
            empty := Some((p, j));
          }
          j := j + 1;
        }
        assert Holds(Heavy(b, 0), x.fp) == 0 && Holds(Heavy(b, 1), x.fp) == 0;
        i := i + 1;
      }
      if empty.None? {
        return false;
      }
      var (p, j) := empty.value;
      tables := tables[p := WithHeavy(At(p), j, Entry(x.fp, w))];
      found := true;
    }

    // The first empty heavy slot of the first `i` candidates.
    ghost function FirstEmpty(x: Item, i: nat): Option<(Place, nat)>
      reads this
    {
      if i > 0 && Empty(At(Spot(x, false))).Some? then Some((Spot(x, false), Empty(At(Spot(x, false))).value))
      else if i > 1 && Empty(At(Spot(x, true))).Some? then Some((Spot(x, true), Empty(At(Spot(x, true))).value))
      else None
    }

    // kickout: the entry in hand takes the least place of its other bucket, again and again.
    method Kickout(entry: Entry, from: Place)
      modifies this`tables
      ensures View() == Kick(old(View()), entry, from, MAX_KICKS).s
    {
      hide Alt;
      var e, p := entry, from;
      var i := 0;
      while i < MAX_KICKS
        invariant 0 <= i <= MAX_KICKS
        invariant Kick(View(), e, p, MAX_KICKS - i).s == Kick(old(View()), entry, from, MAX_KICKS).s
      {
        if !IsHeavy(total, e.count) {
          return;
        }
        p := Place(!p.side, Alt(bits, e.fp, p.at));
        var b := At(p);
        if b.h0.count == 0 || b.h1.count == 0 {
          tables := tables[p := WithHeavy(b, if b.h0.count == 0 then 0 else 1, e)];
          return;
        }
        var least := if b.h1.count < b.h0.count then 1 else 0;
        tables := tables[p := WithHeavy(b, least, e)];
        e := Heavy(b, least);
        i := i + 1;
      }
    }

    // tryPromoteAndKickout.
    method TryPromote(x: Item, count: nat, side: bool, lucky: bool) returns (done: bool)
      modifies this`tables
      ensures done == Promote(old(View()), x, count, side, lucky).Some?
      ensures View() == if done then Promote(old(View()), x, count, side, lucky).value.s else old(View())
    {
      hide Alt, Kick;
      var p := Spot(x, side);
      var b := At(p);
      if b.h0.count == 0 || b.h1.count == 0 {
        tables := tables[p := WithHeavy(b, if b.h0.count == 0 then 0 else 1, Entry(x.fp, count))];
        return true;
      }
      var least := if b.h1.count < b.h0.count then 1 else 0;
      var out := Heavy(b, least);
      if out.count > count && !lucky {
        return false;
      }
      tables := tables[p := WithHeavy(b, least, out.(fp := b.lobby.fp)).(lobby := Nobody)];
      Kickout(out, p);
      done := true;
    }

    method SetLobbyEntry(p: Place, e: Entry)
      modifies this`tables
      ensures View() == SetLobby(old(View()), p, e)
    {
      tables := tables[p := At(p).(lobby := e)];
    }

    // Promote the lobby entry, or leave it with the count `stay`.
    method PromoteOrStay(x: Item, count: nat, side: bool, lucky: bool, stay: nat)
      modifies this`tables
      ensures View() == PromoteOr(old(View()), x, count, side, lucky, stay)
    {
      hide Alt, Promote;
      var done := TryPromote(x, count, side, lucky);
      if !done {
        var p := Spot(x, side);
        SetLobbyEntry(p, At(p).lobby.(count := stay));
      }
    }

    // checkLobbyEntries.
    method CheckLobbyEntries(x: Item, w: nat, lucky: bool) returns (found: bool)
      modifies this`tables
      ensures found == (InLobby(old(View()), x, false) || InLobby(old(View()), x, true))
      ensures View() == if found then LobbyHit(old(View()), x, w, !InLobby(old(View()), x, false), lucky) else old(View())
    {
      hide Alt, PromoteOr;
      var i := 0;
      while i < 2
        invariant 0 <= i <= 2 && View() == old(View())
        invariant i > 0 ==> !InLobby(View(), x, false)
        invariant i > 1 ==> !InLobby(View(), x, true)
      {
        var p := Spot(x, i == 1);
        var e := At(p).lobby;
        if e.fp == x.fp && e.count != 0 {
          if e.count + w < PROMOTION {
            SetLobbyEntry(p, e.(count := e.count + w));
          } else {
            PromoteOrStay(x, e.count + w, i == 1, lucky, PROMOTION);
          }
          return true;
        }
        i := i + 1;
      }
      found := false;
    }

    /**
     * chkTopKUpdate on the tables; `ch` stands for the random draws. No item is ever
     * tracked twice, whatever they are.
     */
    method Record(x: Item, w: nat, ch: Choice)
      requires Valid() && Chk.Valid(View(), x) && total + w < LIMIT
      modifies this`tables, this`total
      ensures Valid() && View() == Update(old(View()), x, w, ch)
      ensures Counted(old(View()), View(), x, w, ch.lucky)
    {
      hide Counted, Update, BucketAt, Candidate, Holds, Put;
      UpdateCounts(View(), x, w, ch);
      UpdateUnfolds(View(), x, w, ch);
      hide Alt, Inv, CheckHeavy, LobbyHit, PromoteOr, InLobby, LobbyFree, LobbyEnter, LobbyDecay;
      UpdateInv(View(), x, w, ch);
      if w == 0 {
        return;
      }
      total := total + w;
      var found := CheckHeavyEntries(x, w);
      if found {
        return;
      }
      found := CheckLobbyEntries(x, w, ch.lucky);
      if found {
        return;
      }
      EnterLobby(x, w, ch);
    }

    // An item tracked nowhere: an empty lobby slot, or the decay of a taken one.
    method EnterLobby(x: Item, w: nat, ch: Choice)
      modifies this`tables
      ensures View() ==
        if LobbyFree(old(View()), x, false) then LobbyEnter(old(View()), x, w, false, ch.lucky)
        else if LobbyFree(old(View()), x, true) then LobbyEnter(old(View()), x, w, true, ch.lucky)
        else LobbyDecay(old(View()), x, w, x.fp % 2 == 1, ch)
    {
      hide Alt, PromoteOr;
      var i := 0;
      while i < 2
        invariant 0 <= i <= 2 && View() == old(View())
        invariant i > 0 ==> !LobbyFree(View(), x, false)
        invariant i > 1 ==> !LobbyFree(View(), x, true)
      {
        var p := Spot(x, i == 1);
        if At(p).lobby.count == 0 {
          if w < PROMOTION {
            SetLobbyEntry(p, Entry(x.fp, w));
          } else {
            SetLobbyEntry(p, Entry(x.fp, 0));
            PromoteOrStay(x, w, i == 1, ch.lucky, PROMOTION);
          }
          return;
        }
        i := i + 1;
      }
      var side := x.fp % 2 == 1;
      var p := Spot(x, side);
      var e := At(p).lobby;
      if ch.decayed == 0 {
        e := Entry(x.fp, if ch.spent >= w then 1 else Min(255, w - ch.spent));
      } else {
        e := e.(count := ch.decayed);
      }
      SetLobbyEntry(p, e);
      if e.count >= PROMOTION {
        PromoteOrStay(x, e.count, side, ch.lucky, e.count);
      }
    }
  }

  lemma UpdateUnfolds(s: State, x: Item, w: nat, ch: Choice)
    ensures
      var t := s.(total := s.total + w);
      Update(s, x, w, ch) ==
        if w == 0 then s
        else if CheckHeavy(t, x, w).Some? then CheckHeavy(t, x, w).value
        else if InLobby(t, x, false) then LobbyHit(t, x, w, false, ch.lucky)
        else if InLobby(t, x, true) then LobbyHit(t, x, w, true, ch.lucky)
        else if LobbyFree(t, x, false) then LobbyEnter(t, x, w, false, ch.lucky)
        else if LobbyFree(t, x, true) then LobbyEnter(t, x, w, true, ch.lucky)
        else LobbyDecay(t, x, w, x.fp % 2 == 1, ch)
  {
    hide Alt, CheckHeavy, LobbyHit, InLobby, LobbyFree, LobbyEnter, LobbyDecay;
  }
}
