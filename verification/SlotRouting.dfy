/**
 * Which node may serve a command, as one node decides it from its own view of the slot
 * table and its own keys, and the hand-over of keys by MIGRATE.
 */
module SlotRouting {
  import opened Prelude

  type Id = nat
  type Value = nat

  // A key with the hash slot it falls in.
  datatype Key = Key(name: string, slot: nat)

  // A node's view of one slot.
  datatype SlotView = SlotView(owner: Id, migratingTo: Option<Id>, importingFrom: Option<Id>)

  datatype Node = Node(id: Id, slots: map<nat, SlotView>, db: map<Key, Value>)

  // One command, or the queue of a transaction that EXEC runs.
  datatype Query = Query(commands: seq<seq<Key>>, exec: bool, inMulti: bool, asking: bool, migrate: bool)

  datatype Reply = ServeHere | Moved(to: Id) | Ask(to: Id) | TryAgain | CrossSlot | Unbound

  function AllKeys(commands: seq<seq<Key>>): seq<Key> {
    if commands == [] then [] else AllKeys(commands[..|commands| - 1]) + commands[|commands| - 1]
  }

  // What preprocessing finds of a single command.
  predicate Crossing(keys: seq<Key>) {
    exists i, j :: 0 <= i < |keys| && 0 <= j < |keys| && keys[i].slot != keys[j].slot
  }

  // The first command that has keys decides which of two errors is reported.
  function FirstWithKeys(commands: seq<seq<Key>>): seq<Key> {
    if commands == [] then []
    else if AllKeys(commands[..|commands| - 1]) == [] then commands[|commands| - 1]
    else FirstWithKeys(commands[..|commands| - 1])
  }

  predicate Migrating(n: Node, v: SlotView) {
    v.owner == n.id && v.migratingTo.Some?
  }

  predicate Importing(n: Node, v: SlotView) {
    !Migrating(n, v) && v.importingFrom.Some?
  }

  // The decision for keys of one slot, on what the node holds of them.
  function RouteInSlot(n: Node, v: SlotView, keys: seq<Key>, asking: bool, migrate: bool): Reply
    requires keys != []
  {
    var missing := exists k <- keys :: k !in n.db;
    var existing := exists k <- keys :: k in n.db;
    var several := exists k <- keys :: k != keys[0];
    if (Migrating(n, v) || Importing(n, v)) && migrate then ServeHere
    else if Migrating(n, v) && missing then
      if existing then TryAgain else Ask(v.migratingTo.value)
    else if Importing(n, v) && asking then
      if several && missing then TryAgain else ServeHere
    else if v.owner == n.id then ServeHere
    else Moved(v.owner)
  }

  function Route(n: Node, q: Query): Reply {
    var keys := AllKeys(q.commands);
    if q.exec && !q.inMulti then ServeHere
    else if keys == [] then ServeHere
    else if Crossing(FirstWithKeys(q.commands)) then CrossSlot
    else if keys[0].slot !in n.slots then Unbound
    else if Crossing(keys) then CrossSlot
    else RouteInSlot(n, n.slots[keys[0].slot], keys, q.asking, q.migrate)
  }

  // The scan over keys seen so far.
  ghost predicate Scanned(n: Node, keys: seq<Key>, first: Option<Key>, several: bool, missing: nat, existing: nat) {
    && (first.None? <==> keys == [])
    && (first.Some? ==>
          && first.value == keys[0]
          && first.value.slot in n.slots
          && (forall k <- keys :: k.slot == first.value.slot)
          && var v := n.slots[first.value.slot];
             && (Importing(n, v) ==> (several <==> exists k <- keys :: k != keys[0]))
             && (Migrating(n, v) || Importing(n, v) ==>
                   && (missing > 0 <==> exists k <- keys :: k !in n.db)
                   && (existing > 0 <==> exists k <- keys :: k in n.db)))
    && (first.None? ==> !several && missing == 0 && existing == 0)
  }

  lemma ScanOne(n: Node, keys: seq<Key>, first: Option<Key>, several: bool, missing: nat, existing: nat, k: Key,
                several': bool, missing': nat, existing': nat)
    requires Scanned(n, keys, first, several, missing, existing) && k.slot in n.slots
    requires first.Some? ==> k.slot == first.value.slot
    requires
      var v := n.slots[k.slot];
      var open := Migrating(n, v) || Importing(n, v);
      && several' == (several || (first.Some? && Importing(n, v) && first.value != k))
      && missing' == missing + (if open && k !in n.db then 1 else 0)
      && existing' == existing + (if open && k in n.db then 1 else 0)
    ensures Scanned(n, keys + [k], Some(if first.Some? then first.value else k), several', missing', existing')
  {
    var more := keys + [k];
    assert forall x <- more :: x in keys || x == k;
    assert forall x <- keys :: x in more;
    assert k in more;
    if first.None? {
      assert more == [k];
    }
  }

  lemma FirstWithKeysStep(commands: seq<seq<Key>>, i: nat)
    requires i < |commands|
    ensures AllKeys(commands[..i + 1]) == AllKeys(commands[..i]) + commands[i]
    ensures FirstWithKeys(commands[..i + 1])
      == if AllKeys(commands[..i]) == [] then commands[i] else FirstWithKeys(commands[..i])
  {
    assert commands[..i + 1][..i] == commands[..i];
  }

  lemma {:induction false} FirstStays(commands: seq<seq<Key>>, i: nat)
    requires i <= |commands| && AllKeys(commands[..i]) != []
    ensures FirstWithKeys(commands) == FirstWithKeys(commands[..i]) && AllKeys(commands[..i]) <= AllKeys(commands)
  {
    if i == |commands| {
      assert commands[..i] == commands;
    } else {
      var n := |commands| - 1;
      assert commands[..n][..i] == commands[..i];
      FirstStays(commands[..n], i);
    }
  }

  lemma CrossingMore(keys: seq<Key>, more: seq<Key>)
    requires keys <= more && Crossing(keys)
    ensures Crossing(more)
  {
    var i, j :| 0 <= i < |keys| && 0 <= j < |keys| && keys[i].slot != keys[j].slot;
    assert more[i] == keys[i] && more[j] == keys[j];
  }

  predicate NeedsRouting(q: Query) {
    !q.exec || q.inMulti
  }

  // A command whose own keys cross slots stops the scan.
  lemma CrossHere(n: Node, q: Query, i: nat)
    requires NeedsRouting(q) && i < |q.commands| && Crossing(q.commands[i])
    requires
      var before := AllKeys(q.commands[..i]);
      before == [] || (before[0].slot in n.slots && !Crossing(FirstWithKeys(q.commands[..i])))
    ensures Route(n, q) == CrossSlot
  {
    FirstWithKeysStep(q.commands, i);
    var before, upTo := AllKeys(q.commands[..i]), AllKeys(q.commands[..i + 1]);
    FirstStays(q.commands, i + 1);
    assert Crossing(upTo) by {
      var x, y :| 0 <= x < |q.commands[i]| && 0 <= y < |q.commands[i]| && q.commands[i][x].slot != q.commands[i][y].slot;
      assert upTo[|before| + x] == q.commands[i][x] && upTo[|before| + y] == q.commands[i][y];
    }
    CrossingMore(upTo, AllKeys(q.commands));
  }

  lemma UnboundHere(n: Node, q: Query, i: nat)
    requires NeedsRouting(q) && i < |q.commands| && AllKeys(q.commands[..i]) == [] && q.commands[i] != []
    requires !Crossing(q.commands[i]) && q.commands[i][0].slot !in n.slots
    ensures Route(n, q) == Unbound
  {
    FirstWithKeysStep(q.commands, i);
    FirstStays(q.commands, i + 1);
  }

  lemma MismatchHere(n: Node, q: Query, i: nat, j: nat)
    requires NeedsRouting(q) && i < |q.commands| && j < |q.commands[i]|
    requires
      var seen := AllKeys(q.commands[..i]) + q.commands[i][..j];
      seen != [] && seen[0].slot in n.slots && seen[0].slot != q.commands[i][j].slot
    requires !Crossing(FirstWithKeys(q.commands[..i + 1]))
    ensures Route(n, q) == CrossSlot
  {
    FirstWithKeysStep(q.commands, i);
    var before, upTo := AllKeys(q.commands[..i]), AllKeys(q.commands[..i + 1]);
    FirstStays(q.commands, i + 1);
    assert upTo[0] == (before + q.commands[i][..j])[0] && upTo[|before| + j] == q.commands[i][j];
    CrossingMore(upTo, AllKeys(q.commands));
  }

  lemma RouteAfterScan(n: Node, q: Query, first: Option<Key>, several: bool, missing: nat, existing: nat)
    requires NeedsRouting(q) && Scanned(n, AllKeys(q.commands), first, several, missing, existing)
    requires first.Some? ==> !Crossing(FirstWithKeys(q.commands))
    ensures first.None? ==> Route(n, q) == ServeHere
    ensures first.Some? ==>
      && first.value.slot in n.slots && AllKeys(q.commands) != []
      && Route(n, q) == RouteInSlot(n, n.slots[first.value.slot], AllKeys(q.commands), q.asking, q.migrate)
  {
    var keys := AllKeys(q.commands);
    assert first.Some? ==> forall i | 0 <= i < |keys| :: keys[i] in keys;
  }

  // ---------- the answers, by what a client can see ----------

  ghost function Used(q: Query): set<Key> {
    set i, k | 0 <= i < |q.commands| && k in q.commands[i] :: k
  }

  ghost predicate SeveralSlots(keys: set<Key>) {
    exists k, l :: k in keys && l in keys && k.slot != l.slot
  }

  /**
   * The answer to a command with keys of one bound slot: each answer exactly under its
   * condition. MIGRATE stays here while the slot is open.
   */
  ghost predicate AnswersInSlot(n: Node, v: SlotView, keys: set<Key>, asking: bool, migrate: bool, r: Reply) {
    var leaving := v.owner == n.id && v.migratingTo.Some?;
    var arriving := !leaving && v.importingFrom.Some?;
    var allHere := forall k <- keys :: k in n.db;
    var noneHere := forall k <- keys :: k !in n.db;
    var several := exists k, l :: k in keys && l in keys && k != l;
    if migrate && (leaving || arriving) then r == ServeHere
    else
      && (r == TryAgain <==> (leaving && !allHere && !noneHere) || (arriving && asking && several && !allHere))
      && (forall to: Id :: r == Ask(to) <==> leaving && noneHere && v.migratingTo == Some(to))
      && (forall to: Id :: r == Moved(to) <==> v.owner == to && to != n.id && !(arriving && asking))
      && (r == ServeHere <==>
            || (v.owner == n.id && (leaving ==> allHere) && !(arriving && asking))
            || (arriving && asking && (several ==> allHere)))
  }

  /**
   * The answer to any command: without keys it is served here; keys of two slots are an
   * error, and so is a slot nobody owns, which is the error reported if the first command
   * that has keys has them in one slot.
   */
  ghost predicate Answers(n: Node, q: Query, r: Reply) {
    var keys := Used(q);
    if (q.exec && !q.inMulti) || keys == {} then r == ServeHere
    else if SeveralSlots(keys) then
      && (r == CrossSlot || r == Unbound)
      && (r == Unbound <==> exists i ::
            && 0 <= i < |q.commands| && q.commands[i] != []
            && (forall j | 0 <= j < i :: q.commands[j] == [])
            && (forall k <- q.commands[i] :: k.slot == q.commands[i][0].slot && k.slot !in n.slots))
    else forall k <- keys ::
      if k.slot !in n.slots then r == Unbound else AnswersInSlot(n, n.slots[k.slot], keys, q.asking, q.migrate, r)
  }

  lemma {:induction false} UsedAll(q: Query, k: Key)
    ensures k in AllKeys(q.commands) <==> k in Used(q)
    decreases |q.commands|
  {
    if q.commands != [] {
      var n := |q.commands| - 1;
      UsedAll(q.(commands := q.commands[..n]), k);
    }
  }

  // The first command that has keys.
  lemma {:induction false} FirstAt(commands: seq<seq<Key>>) returns (i: nat)
    requires AllKeys(commands) != []
    ensures i < |commands| && commands[i] != [] && forall j | 0 <= j < i :: commands[j] == []
    ensures FirstWithKeys(commands) == commands[i] && commands[i] <= AllKeys(commands)
  {
    var n := |commands| - 1;
    var before := AllKeys(commands[..n]);
    if before == [] {
      i := n;
      NoKeys(commands[..n]);
    } else {
      i := FirstAt(commands[..n]);
    }
  }

  lemma {:induction false} NoKeys(commands: seq<seq<Key>>)
    requires AllKeys(commands) == []
    ensures forall j | 0 <= j < |commands| :: commands[j] == []
  {
    if commands != [] {
      NoKeys(commands[..|commands| - 1]);
    }
  }

  lemma InSlotAnswers(n: Node, v: SlotView, keys: seq<Key>, used: set<Key>, asking: bool, migrate: bool)
    requires keys != [] && forall k :: k in used <==> k in keys
    ensures AnswersInSlot(n, v, used, asking, migrate, RouteInSlot(n, v, keys, asking, migrate))
  {
    assert keys[0] in used;
    assert (exists k <- keys :: k != keys[0]) <==> exists k, l :: k in used && l in used && k != l;
  }

  // The decision of the scan gives these answers.
  lemma RouteAnswers(n: Node, q: Query)
    ensures Answers(n, q, Route(n, q))
  {
    var keys, used := AllKeys(q.commands), Used(q);
    forall k
      ensures k in keys <==> k in used
    {
      UsedAll(q, k);
    }
    hide AllKeys, FirstWithKeys, RouteInSlot, AnswersInSlot;
    hide Used;
    if keys == [] {
      assert used == {};
    } else {
      assert keys[0] in used;
      CrossingUsed(keys, used);
      var i := FirstAt(q.commands);
      CrossingOne(q.commands[i]);
      assert keys[0] == q.commands[i][0];
      if !Crossing(keys) {
        assert forall k <- used :: k.slot == keys[0].slot;
        CrossingPart(q.commands[i], keys);
        if keys[0].slot in n.slots {
          InSlotAnswers(n, n.slots[keys[0].slot], keys, used, q.asking, q.migrate);
        }
      }
    }
  }

  lemma CrossingUsed(keys: seq<Key>, used: set<Key>)
    requires forall k :: k in used <==> k in keys
    ensures Crossing(keys) <==> SeveralSlots(used)
    ensures keys != [] && !Crossing(keys) ==> forall k <- keys :: k.slot == keys[0].slot
  {
    if SeveralSlots(used) {
      var k, l :| k in used && l in used && k.slot != l.slot;
      assert k in keys && l in keys;
    }
    if Crossing(keys) {
      var i, j :| 0 <= i < |keys| && 0 <= j < |keys| && keys[i].slot != keys[j].slot;
      assert keys[i] in used && keys[j] in used;
    }
  }

  lemma CrossingOne(keys: seq<Key>)
    requires keys != []
    ensures !Crossing(keys) <==> forall k <- keys :: k.slot == keys[0].slot
  {
    assert forall i | 0 <= i < |keys| :: keys[i] in keys;
  }

  lemma CrossingPart(part: seq<Key>, keys: seq<Key>)
    requires part <= keys && !Crossing(keys)
    ensures !Crossing(part)
  {
    if Crossing(part) {
      CrossingMore(part, keys);
    }
  }

  /**
   * getNodeByQuery: one scan over the keys of all commands with counters of missing and
   * present keys, equal to the decision on the set of keys.
   */
  method GetNodeByQuery(n: Node, q: Query) returns (r: Reply)
    ensures r == Route(n, q)
    ensures Answers(n, q, r)
  {
    RouteAnswers(n, q);
    hide Answers;
    hide Scanned, Route, AllKeys, FirstWithKeys, Crossing;
    if q.exec && !q.inMulti {
      RouteOutsideMulti(n, q);
      return ServeHere;
    }
    var first: Option<Key> := None;
    var several, missing, existing := false, 0, 0;
    var i := 0;
    ScanNothing(n, q);
    while i < |q.commands|
      invariant 0 <= i <= |q.commands|
      invariant Scanned(n, AllKeys(q.commands[..i]), first, several, missing, existing)
      invariant AllKeys(q.commands[..i]) != [] ==> !Crossing(FirstWithKeys(q.commands[..i]))
    {
      var keys := q.commands[i];
      ghost var before := AllKeys(q.commands[..i]);
      FirstWithKeysStep(q.commands, i);
      var j := 0;
      assert before + keys[..0] == before;
      while j < |keys|
        invariant 0 <= j <= |keys|
        invariant Scanned(n, before + keys[..j], first, several, missing, existing)
        invariant j > 0 ==> !Crossing(keys)
      {
        ScannedFirst(n, before + keys[..j], first, several, missing, existing);
        if Crossing(keys) {
          assert before + keys[..j] == before;
          CrossHere(n, q, i);
          return CrossSlot;
        }
        var k := keys[j];
        if first.None? {
          if k.slot !in n.slots {
            UnboundHere(n, q, i);
            return Unbound;
          }
        } else if k.slot != first.value.slot {
          MismatchHere(n, q, i, j);
          return CrossSlot;
        }
        ghost var was := (first, several, missing, existing);
        var v := n.slots[k.slot];
        if first.Some? && Importing(n, v) && !several && first.value != k {
          several := true;
        }
        if Migrating(n, v) || Importing(n, v) {
          if k !in n.db {
            missing := missing + 1;
          } else {
            existing := existing + 1;
          }
        }
        ScanOne(n, before + keys[..j], was.0, was.1, was.2, was.3, k, several, missing, existing);
        if first.None? {
          first := Some(k);
        }
        assert before + keys[..j] + [k] == before + keys[..j + 1];
        j := j + 1;
      }
      assert keys[..j] == keys;
      i := i + 1;
    }
    assert q.commands[..i] == q.commands;
    ScannedFirst(n, AllKeys(q.commands), first, several, missing, existing);
    RouteAfterScan(n, q, first, several, missing, existing);
    if first.None? {
      return ServeHere;
    }
    var v := n.slots[first.value.slot];
    ScannedCounts(n, AllKeys(q.commands), first, several, missing, existing);
    if (Migrating(n, v) || Importing(n, v)) && q.migrate {
      return ServeHere;
    }
    if Migrating(n, v) && missing > 0 {
      return if existing > 0 then TryAgain else Ask(v.migratingTo.value);
    }
    if Importing(n, v) && q.asking {
      return if several && missing > 0 then TryAgain else ServeHere;
    }
    return if v.owner == n.id then ServeHere else Moved(v.owner);
  }

  lemma RouteOutsideMulti(n: Node, q: Query)
    requires q.exec && !q.inMulti
    ensures Route(n, q) == ServeHere
  {
  }

  lemma ScanNothing(n: Node, q: Query)
    ensures AllKeys(q.commands[..0]) == [] && Scanned(n, [], None, false, 0, 0)
  {
  }

  lemma ScannedFirst(n: Node, keys: seq<Key>, first: Option<Key>, several: bool, missing: nat, existing: nat)
    requires Scanned(n, keys, first, several, missing, existing)
    ensures first.None? <==> keys == []
    ensures first.Some? ==> first.value == keys[0] && first.value.slot in n.slots
  {
  }

  lemma ScannedCounts(n: Node, keys: seq<Key>, first: Option<Key>, several: bool, missing: nat, existing: nat)
    requires Scanned(n, keys, first, several, missing, existing) && keys != []
    ensures first.Some? && first.value.slot in n.slots
    ensures
      var v := n.slots[first.value.slot];
      && (Importing(n, v) ==> (several <==> exists k <- keys :: k != keys[0]))
      && (Migrating(n, v) || Importing(n, v) ==>
            && (missing > 0 <==> exists k <- keys :: k !in n.db)
            && (existing > 0 <==> exists k <- keys :: k in n.db))
  {
  }

  // ---------- reading the replies of MIGRATE ----------

  // The keys whose restore was acknowledged.
  function Acknowledged(keys: seq<Key>, replies: seq<bool>): set<Key>
    requires |replies| <= |keys|
  {
    set j | 0 <= j < |replies| && replies[j] :: keys[j]
  }

  /**
   * The loop of migrateCommand over the replies: a key is deleted from the source, and
   * listed in the DEL that replicas get, only if its restore was acknowledged. A lost
   * connection ends the loop early, an error reply does not.
   */
  method HandOver(db: map<Key, Value>, keys: seq<Key>, replies: seq<bool>) returns (left: map<Key, Value>, deleted: seq<Key>)
    requires |replies| <= |keys|
    ensures left == db - Acknowledged(keys, replies)
    ensures forall k :: k in deleted <==> k in Acknowledged(keys, replies)
  {
    left, deleted := db, [];
    var j := 0;
    while j < |keys|
      invariant 0 <= j <= |replies|
      invariant left == db - Acknowledged(keys, replies[..j])
      invariant forall k :: k in deleted <==> k in Acknowledged(keys, replies[..j])
    {
      AcknowledgedMore(keys, replies, j);
      if j == |replies| {
        break;
      }
      if replies[j] {
        left := left - {keys[j]};
        deleted := deleted + [keys[j]];
      }
      j := j + 1;
    }
    assert replies[..j] == replies;
  }

  lemma AcknowledgedMore(keys: seq<Key>, replies: seq<bool>, j: nat)
    requires j <= |replies| <= |keys|
    ensures j < |replies| ==>
      Acknowledged(keys, replies[..j + 1]) == Acknowledged(keys, replies[..j]) + (if replies[j] then {keys[j]} else {})
  {
    if j < |replies| {
      var less, more := replies[..j], replies[..j + 1];
      assert forall i | 0 <= i < j :: less[i] == more[i];
      assert forall k <- Acknowledged(keys, less) :: k in Acknowledged(keys, more);
      assert more[j] == replies[j];
    }
  }
}
