/**
 * Arrays of slot ranges: sorting and merging in place, validation, comparison, and
 * building from single slots. How often an array covers each slot is what every
 * operation is measured by.
 */
module SlotRanges {

  const SLOTS := 16384

  datatype Range = Range(start: nat, end: nat)

  predicate In(r: Range, x: nat) {
    r.start <= x <= r.end
  }

  // How many ranges cover a slot.
  function Count(s: seq<Range>, x: nat): nat {
    if s == [] then 0 else Count(s[..|s| - 1], x) + if In(s[|s| - 1], x) then 1 else 0
  }

  ghost predicate SameCover(s: seq<Range>, t: seq<Range>) {
    forall x: nat :: Count(s, x) == Count(t, x)
  }

  predicate WellFormed(s: seq<Range>) {
    forall i | 0 <= i < |s| :: s[i].start <= s[i].end
  }

  ghost predicate Disjoint(s: seq<Range>) {
    forall x: nat :: Count(s, x) <= 1
  }

  predicate Sorted(s: seq<Range>) {
    forall i, j | 0 <= i < j < |s| :: s[i].start <= s[j].start
  }

  // qsort: any order of the same ranges by start.
  ghost predicate SortOf(s: seq<Range>, t: seq<Range>) {
    multiset(s) == multiset(t) && Sorted(t)
  }

  // In order, with a gap between neighbours.
  predicate Canonical(s: seq<Range>) {
    WellFormed(s) && forall i, j | 0 <= i < j < |s| :: s[i].end + 1 < s[j].start
  }

  // ---------- counting ----------

  lemma {:induction false} CountRemove(s: seq<Range>, k: nat, x: nat)
    requires k < |s|
    ensures Count(s, x) == Count(s[..k] + s[k + 1..], x) + (if In(s[k], x) then 1 else 0)
  {
    var n := |s| - 1;
    if k == n {
      assert s[..k] + s[k + 1..] == s[..n];
    } else {
      CountRemove(s[..n], k, x);
      var t := s[..k] + s[k + 1..];
      assert t[..n - 1] == s[..n][..k] + s[..n][k + 1..] && t[n - 1] == s[n];
    }
  }

  lemma {:induction false} CountOrder(s: seq<Range>, t: seq<Range>, x: nat)
    requires multiset(s) == multiset(t)
    ensures Count(s, x) == Count(t, x)
  {
    if s == [] {
      assert t == [] by {
        assert |multiset(t)| == |t|;
      }
    } else {
      var n := |s| - 1;
      var r := s[n];
      assert s == s[..n] + [r];
      assert r in multiset(t);
      var k :| 0 <= k < |t| && t[k] == r;
      var u := t[..k] + t[k + 1..];
      assert t == t[..k] + [r] + t[k + 1..];
      assert multiset(t) == multiset(u) + multiset{r};
      assert multiset(s) == multiset(s[..n]) + multiset{r};
      assert multiset(s[..n]) == multiset(s) - multiset{r} && multiset(u) == multiset(t) - multiset{r};
      CountOrder(s[..n], u, x);
      CountRemove(t, k, x);
    }
  }

  lemma {:induction false} CountSome(s: seq<Range>, i: nat, x: nat)
    requires i < |s| && In(s[i], x)
    ensures Count(s, x) >= 1
  {
    CountRemove(s, i, x);
  }

  lemma {:induction false} CountNone(s: seq<Range>, x: nat)
    requires forall i | 0 <= i < |s| :: !In(s[i], x)
    ensures Count(s, x) == 0
  {
    if s != [] {
      CountNone(s[..|s| - 1], x);
    }
  }

  lemma CountTwo(s: seq<Range>, i: nat, j: nat, x: nat)
    requires i < j < |s| && In(s[i], x) && In(s[j], x)
    ensures Count(s, x) >= 2
  {
    CountRemove(s, j, x);
    var t := s[..j] + s[j + 1..];
    assert t[i] == s[i];
    CountSome(t, i, x);
  }

  // ---------- merging ----------

  // One more range: stretch the last one if it is its neighbour.
  function Joined(m: seq<Range>, r: Range): seq<Range>
    requires m != []
  {
    var last := m[|m| - 1];
    if last.end + 1 == r.start then m[..|m| - 1] + [Range(last.start, r.end)] else m + [r]
  }

  function Merge(s: seq<Range>): (m: seq<Range>)
    ensures s != [] ==> m != []
  {
    if |s| <= 1 then s else Joined(Merge(s[..|s| - 1]), s[|s| - 1])
  }

  // The merged form ends where the ranges end, and keeps the first start.
  lemma {:induction false} MergeEnds(s: seq<Range>)
    requires s != []
    ensures Merge(s)[|Merge(s)| - 1].end == s[|s| - 1].end && Merge(s)[0].start == s[0].start && |Merge(s)| <= |s|
  {
    if |s| > 1 {
      MergeEnds(s[..|s| - 1]);
    }
  }

  lemma {:induction false} MergeWellFormed(s: seq<Range>)
    requires WellFormed(s)
    ensures WellFormed(Merge(s))
  {
    if |s| > 1 {
      MergeWellFormed(s[..|s| - 1]);
    }
  }

  // Merging neighbours covers every slot exactly as often as before.
  lemma {:induction false} MergeCounts(s: seq<Range>, x: nat)
    requires WellFormed(s)
    ensures Count(Merge(s), x) == Count(s, x)
  {
    if |s| > 1 {
      var n := |s| - 1;
      MergeCounts(s[..n], x);
      MergeWellFormed(s[..n]);
      JoinedCount(Merge(s[..n]), s[n], x);
    }
  }

  lemma JoinedCount(m: seq<Range>, r: Range, x: nat)
    requires WellFormed(m) && m != [] && r.start <= r.end
    ensures Count(Joined(m, r), x) == Count(m, x) + if In(r, x) then 1 else 0
  {
    var k := |m| - 1;
    var joined := Range(m[k].start, r.end);
    assert (m[..k] + [joined])[..k] == m[..k];
    assert (m + [r])[..|m|] == m;
  }

  // Sorted disjoint ranges follow one another.
  lemma Follow(s: seq<Range>, i: nat)
    requires WellFormed(s) && Sorted(s) && Disjoint(s) && i + 1 < |s|
    ensures s[i].end < s[i + 1].start
  {
    if s[i + 1].start <= s[i].end {
      CountTwo(s, i, i + 1, s[i + 1].start);
      assert false;
    }
  }

  lemma {:induction false} MergeCanonical(s: seq<Range>)
    requires WellFormed(s) && forall i | 0 <= i < |s| - 1 :: s[i].end < s[i + 1].start
    ensures Canonical(Merge(s))
  {
    if |s| > 1 {
      var n := |s| - 1;
      MergeCanonical(s[..n]);
      MergeEnds(s[..n]);
      CanonicalStep(Merge(s[..n]), s[n]);
    }
  }

  lemma CanonicalStep(m: seq<Range>, r: Range)
    requires Canonical(m) && m != [] && m[|m| - 1].end < r.start <= r.end
    ensures Canonical(Joined(m, r))
  {
  }

  lemma MergeMore(s: seq<Range>, i: nat)
    requires 0 < i < |s|
    ensures Merge(s[..i]) != [] && Merge(s[..i + 1]) == Joined(Merge(s[..i]), s[i])
  {
    assert s[..i + 1][..i] == s[..i];
  }

  /**
   * The loop of slotRangeArraySortAndMerge on the sorted array, in place; the result is
   * the first `m` entries.
   */
  method MergeInPlace(a: array<Range>, n: nat) returns (m: nat)
    requires n <= a.Length
    modifies a
    ensures m <= n && a[..m] == Merge(old(a[..n]))
  {
    hide Merge, Joined, Prefixes;
    ghost var s := a[..n];
    if n <= 1 {
      MergeShort(s);
      return n;
    }
    MergeFirst(a[..], n);
    var idx, i := 0, 1;
    while i < n
      invariant 1 <= i <= n && 0 <= idx < i
      invariant Prefixes(a[..], idx, Merge(s[..i]))
      invariant forall k | i <= k < n :: a[k] == s[k]
    {
      ghost var t, r := a[..], s[i];
      MergeMore(s, i);
      MergeStep(t, idx, Merge(s[..i]), r);
      if a[idx].end + 1 == a[i].start {
        a[idx] := Range(a[idx].start, a[i].end);
        assert a[..] == t[idx := Range(t[idx].start, r.end)];
      } else {
        idx := idx + 1;
        a[idx] := a[i];
        assert a[..] == t[idx := r];
      }
      i := i + 1;
    }
    assert s[..i] == s;
    PrefixIs(a[..], idx, Merge(s));
    m := idx + 1;
  }

  lemma MergeShort(s: seq<Range>)
    requires |s| <= 1
    ensures Merge(s) == s
  {
  }

  lemma PrefixIs(a: seq<Range>, idx: nat, m: seq<Range>)
    requires Prefixes(a, idx, m)
    ensures idx < |a| && m == a[..idx + 1]
  {
  }

  // `m` is the array up to and with `idx`.
  ghost predicate Prefixes(a: seq<Range>, idx: nat, m: seq<Range>) {
    idx < |a| && m == a[..idx + 1]
  }

  lemma MergeFirst(a: seq<Range>, n: nat)
    requires 0 < n <= |a|
    ensures Prefixes(a, 0, Merge(a[..n][..1]))
  {
    assert a[..n][..1] == a[..1];
  }

  lemma MergeStep(a: seq<Range>, idx: nat, m: seq<Range>, r: Range)
    requires Prefixes(a, idx, m)
    ensures idx < |a| && m != []
    ensures a[idx].end + 1 == r.start ==> Prefixes(a[idx := Range(a[idx].start, r.end)], idx, Joined(m, r))
    ensures a[idx].end + 1 != r.start && idx + 1 < |a| ==> Prefixes(a[idx + 1 := r], idx + 1, Joined(m, r))
  {
    assert m[|m| - 1] == a[idx];
    assert m[..|m| - 1] == a[..idx];
  }

  // Sorting and merging keeps the cover; for disjoint ranges it gives the canonical form.
  lemma SortMerge(s: seq<Range>, t: seq<Range>)
    requires WellFormed(s) && SortOf(s, t)
    ensures WellFormed(t) && SameCover(s, Merge(t)) && (Disjoint(s) ==> Canonical(Merge(t)))
  {
    forall i | 0 <= i < |t|
      ensures t[i].start <= t[i].end
    {
      assert t[i] in multiset(t);
      assert t[i] in multiset(s);
    }
    forall x: nat
      ensures Count(s, x) == Count(t, x) == Count(Merge(t), x)
    {
      CountOrder(s, t, x);
      MergeCounts(t, x);
    }
    if Disjoint(s) {
      forall i | 0 <= i < |t| - 1
        ensures t[i].end < t[i + 1].start
      {
        Follow(t, i);
      }
      MergeCanonical(t);
    }
  }

  // ---------- the canonical form is unique ----------

  lemma CanonicalCover(s: seq<Range>, x: nat)
    requires Canonical(s) && s != []
    ensures
      var r := s[|s| - 1];
      && (x >= r.start ==> (Count(s, x) > 0 <==> x <= r.end))
      && (x < r.start ==> Count(s, x) == Count(s[..|s| - 1], x))
      && (x + 1 == r.start ==> Count(s, x) == 0)
  {
    var n := |s| - 1;
    if x + 1 >= s[n].start {
      CountNone(s[..n], x);
    }
  }

  lemma {:induction false} CanonicalUnique(s: seq<Range>, t: seq<Range>)
    requires Canonical(s) && Canonical(t) && forall x: nat :: Count(s, x) > 0 <==> Count(t, x) > 0
    ensures s == t
  {
    if s == [] || t == [] {
      if s != [] {
        CanonicalCover(s, s[|s| - 1].end);
      }
      if t != [] {
        CanonicalCover(t, t[|t| - 1].end);
      }
    } else {
      LastAgrees(s, t);
      var s0, t0 := s[..|s| - 1], t[..|t| - 1];
      forall x: nat
        ensures Count(s0, x) > 0 <==> Count(t0, x) > 0
      {
        ButLast(s, x);
        ButLast(t, x);
      }
      CanonicalUnique(s0, t0);
      assert s == s0 + [s[|s| - 1]] && t == t0 + [t[|t| - 1]];
    }
  }

  lemma ButLast(s: seq<Range>, x: nat)
    requires Canonical(s) && s != []
    ensures Count(s[..|s| - 1], x) > 0 <==> Count(s, x) > 0 && x < s[|s| - 1].start
  {
    CanonicalCover(s, x);
    if x >= s[|s| - 1].start {
      CountNone(s[..|s| - 1], x);
    }
  }

  lemma LastAgrees(s: seq<Range>, t: seq<Range>)
    requires Canonical(s) && Canonical(t) && s != [] && t != [] && forall x: nat :: Count(s, x) > 0 <==> Count(t, x) > 0
    ensures s[|s| - 1] == t[|t| - 1]
  {
    var p, q := s[|s| - 1], t[|t| - 1];
    CanonicalCover(s, p.end);
    CanonicalCover(t, p.end);
    CanonicalCover(s, q.end);
    CanonicalCover(t, q.end);
    LastStart(s, t);
    LastStart(t, s);
  }

  // The last run of covered slots cannot start later in one than in the other.
  lemma LastStart(s: seq<Range>, t: seq<Range>)
    requires Canonical(s) && Canonical(t) && s != [] && t != [] && forall x: nat :: Count(s, x) > 0 <==> Count(t, x) > 0
    ensures s[|s| - 1].end == t[|t| - 1].end ==> s[|s| - 1].start <= t[|t| - 1].start
    ensures s[|s| - 1].end <= t[|t| - 1].end
  {
    var p, q := s[|s| - 1], t[|t| - 1];
    CanonicalCover(s, p.end);
    CanonicalCover(t, p.end);
    if p.start > 0 {
      CanonicalCover(s, p.start - 1);
      CanonicalCover(t, p.start - 1);
    }
  }

  /**
   * slotRangeArrayIsEqual on disjoint arrays, in whatever order they come: the merged
   * arrays are equal exactly when the same slots are covered.
   */
  lemma EqualIff(s: seq<Range>, s': seq<Range>, t: seq<Range>, t': seq<Range>)
    requires WellFormed(s) && WellFormed(t) && Disjoint(s) && Disjoint(t) && SortOf(s, s') && SortOf(t, t')
    ensures Merge(s') == Merge(t') <==> SameCover(s, t)
  {
    SortMerge(s, s');
    SortMerge(t, t');
    if SameCover(s, t) {
      forall x: nat
        ensures Count(Merge(s'), x) > 0 <==> Count(Merge(t'), x) > 0
      {
        assert Count(s, x) == Count(t, x);
      }
      CanonicalUnique(Merge(s'), Merge(t'));
    }
  }

  // ---------- validation ----------

  predicate InBounds(s: seq<Range>) {
    forall i | 0 <= i < |s| :: s[i].start < SLOTS && s[i].end < SLOTS
  }

  // The largest end is kept by merging, so bounds can be checked afterwards.
  lemma {:induction false} MergeBounds(s: seq<Range>)
    requires WellFormed(s)
    ensures InBounds(Merge(s)) <==> InBounds(s)
  {
    if |s| > 1 {
      hide InBounds, Joined;
      var n := |s| - 1;
      MergeBounds(s[..n]);
      MergeWellFormed(s[..n]);
      JoinedBounds(Merge(s[..n]), s[n]);
      BoundsSplit(s);
    }
  }

  lemma BoundsSplit(s: seq<Range>)
    requires WellFormed(s) && s != []
    ensures InBounds(s) <==> InBounds(s[..|s| - 1]) && s[|s| - 1].end < SLOTS
  {
  }

  lemma JoinedBounds(m: seq<Range>, r: Range)
    requires WellFormed(m) && m != [] && r.start <= r.end
    ensures InBounds(Joined(m, r)) <==> InBounds(m) && r.end < SLOTS
  {
    var k, j := |m| - 1, Joined(m, r);
    assert forall i | 0 <= i < k :: j[i] == m[i];
    assert m[k].end + 1 == r.start ==> j[k] == Range(m[k].start, r.end);
    assert m[k].end + 1 != r.start ==> j[k] == m[k] && j[k + 1] == r;
  }

  // What validation accepts, of an array of n ranges that was sorted and merged to m.
  ghost predicate Accepts(n: nat, m: seq<Range>) {
    0 < n < SLOTS && InBounds(m) && WellFormed(m) && Disjoint(m)
  }

  /**
   * slotRangeArrayNormalizeAndValidate, on an array of n ranges already sorted and merged
   * to `m`: bounds and order of each range, then every slot marked once.
   */
  method CheckRanges(n: nat, m: seq<Range>) returns (ok: bool)
    ensures ok <==> Accepts(n, m)
  {
    if n == 0 || n >= SLOTS {
      return false;
    }
    var used := new bool[SLOTS](_ => false);
    var i := 0;
    while i < |m|
      invariant 0 <= i <= |m|
      invariant InBounds(m[..i]) && WellFormed(m[..i])
      invariant forall x: nat | x < SLOTS :: Count(m[..i], x) == if used[x] then 1 else 0
    {
      var r := m[i];
      assert m[..i + 1][..i] == m[..i];
      if r.start >= SLOTS || r.end >= SLOTS || r.start > r.end {
        return false;
      }
      ghost var was := used[..];
      var j := r.start;
      while j <= r.end
        invariant r.start <= j <= r.end + 1
        invariant forall x: nat | x < SLOTS :: used[x] == (was[x] || r.start <= x < j)
        invariant forall x: nat | r.start <= x < j :: !was[x]
      {
        if used[j] {
          TwiceCovered(m, i, j);
          return false;
        }
        used[j] := true;
        j := j + 1;
      }
      i := i + 1;
    }
    assert m[..i] == m;
    forall x: nat
      ensures Count(m, x) <= 1
    {
      if x >= SLOTS {
        CountNone(m, x);
      }
    }
    ok := true;
  }

  lemma TwiceCovered(m: seq<Range>, i: nat, x: nat)
    requires i < |m| && In(m[i], x) && Count(m[..i], x) > 0
    ensures !Disjoint(m)
  {
    CountPrefix(m, i + 1, x);
    assert m[..i + 1][..i] == m[..i];
    assert Count(m, x) >= 2;
  }

  lemma {:induction false} CountPrefix(m: seq<Range>, i: nat, x: nat)
    requires i <= |m|
    ensures Count(m[..i], x) <= Count(m, x)
  {
    if i < |m| {
      var n := |m| - 1;
      CountPrefix(m[..n], i, x);
      assert m[..n][..i] == m[..i];
    } else {
      assert m[..i] == m;
    }
  }

  // For ranges the right way round, the check after sorting and merging accepts exactly
  // the arrays that were in bounds and disjoint to begin with.
  lemma ValidIff(s: seq<Range>, t: seq<Range>)
    requires WellFormed(s) && SortOf(s, t)
    ensures Accepts(|s|, Merge(t)) <==> 0 < |s| < SLOTS && InBounds(s) && Disjoint(s)
  {
    SortMerge(s, t);
    MergeBounds(t);
    MergeWellFormed(t);
    assert InBounds(s) <==> InBounds(t) by {
      assert forall i | 0 <= i < |s| :: s[i] in multiset(s) && s[i] in multiset(t);
      assert forall i | 0 <= i < |t| :: t[i] in multiset(t) && t[i] in multiset(s);
    }
    assert Disjoint(s) <==> Disjoint(Merge(t)) by {
      assert forall x: nat :: Count(s, x) == Count(Merge(t), x);
    }
  }

  // ---------- ranges the wrong way round ----------

  // Neighbours in the sorted array that merging joins, whatever they are.
  predicate Touch(t: seq<Range>, k: nat) {
    k + 1 < |t| && t[k].end + 1 == t[k + 1].start
  }

  // Where the run of touching ranges that k is in begins.
  function RunStart(t: seq<Range>, k: nat): nat
    requires k < |t|
  {
    if k > 0 && Touch(t, k - 1) then RunStart(t, k - 1) else t[k].start
  }

  // The run that k ends is the right way round and in bounds.
  predicate RunOk(t: seq<Range>, k: nat)
    requires k < |t|
  {
    RunStart(t, k) <= t[k].end < SLOTS
  }

  // Every run of the sorted array is, and leaves a gap to the next one.
  predicate RunsOk(t: seq<Range>) {
    && (forall k | 0 <= k < |t| - 1 && !Touch(t, k) :: RunOk(t, k) && t[k].end + 1 < t[k + 1].start)
    && (t != [] ==> RunOk(t, |t| - 1))
  }

  // A merged range that is good and leaves a gap to the next one.
  predicate Spaced(m: seq<Range>, i: nat) {
    i + 1 < |m| && m[i].start <= m[i].end < SLOTS && m[i].end + 1 < m[i + 1].start
  }

  predicate Closed(m: seq<Range>) {
    forall i | 0 <= i < |m| - 1 :: Spaced(m, i)
  }

  predicate NoneTouch(m: seq<Range>) {
    forall i | 0 <= i < |m| - 1 :: !Touch(m, i)
  }

  predicate ClosedRuns(t: seq<Range>, n: nat)
    requires n <= |t|
  {
    forall k | 0 <= k < n - 1 && !Touch(t, k) :: RunOk(t, k) && t[k].end + 1 < t[k + 1].start
  }

  // Merging turns runs into ranges.
  lemma {:induction false} MergeRuns(t: seq<Range>, n: nat)
    requires 0 < n <= |t|
    ensures var m := Merge(t[..n]);
            && m[|m| - 1] == Range(RunStart(t, n - 1), t[n - 1].end)
            && (Closed(m) <==> ClosedRuns(t, n)) && NoneTouch(m)
  {
    hide Merge, Closed, ClosedRuns, NoneTouch;
    if n == 1 {
      FirstRun(t);
    } else {
      MergeRuns(t, n - 1);
      MergeMore(t, n - 1);
      JoinedClosed(Merge(t[..n - 1]), t[n - 1]);
      RunsMore(t, n);
    }
  }

  lemma FirstRun(t: seq<Range>)
    requires t != []
    ensures Merge(t[..1]) == [t[0]] && Closed([t[0]]) && NoneTouch([t[0]]) && ClosedRuns(t, 1)
  {
    assert t[..1] == [t[0]];
  }

  lemma JoinedClosed(m: seq<Range>, r: Range)
    requires m != [] && NoneTouch(m)
    ensures var j, last := Joined(m, r), m[|m| - 1];
            && (Closed(j) <==> Closed(m) && (last.end + 1 != r.start ==> last.start <= last.end < SLOTS && last.end + 1 < r.start))
            && NoneTouch(j)
  {
    var j, k := Joined(m, r), |m| - 1;
    forall i | 0 <= i < k
      ensures Spaced(j, i) == Spaced(m, i) && Touch(j, i) == Touch(m, i)
    {
      SameNeighbours(m, j, i);
    }
    assert |j| == k + 2 ==> j[k] == m[k] && j[k + 1] == r;
    hide Joined, Touch;
    assert m[k].end + 1 != r.start ==> (Spaced(j, k) <==> m[k].start <= m[k].end < SLOTS && m[k].end + 1 < r.start);
  }

  lemma SameNeighbours(m: seq<Range>, j: seq<Range>, i: nat)
    requires i + 1 < |m| <= |j| && j[i] == m[i] && j[i + 1].start == m[i + 1].start
    ensures Spaced(j, i) == Spaced(m, i) && Touch(j, i) == Touch(m, i)
  {
  }

  lemma RunsMore(t: seq<Range>, n: nat)
    requires 1 < n <= |t|
    ensures ClosedRuns(t, n) <==>
            ClosedRuns(t, n - 1) && (!Touch(t, n - 2) ==> RunOk(t, n - 2) && t[n - 2].end + 1 < t[n - 1].start)
  {
  }

  // Sorted starts stay sorted.
  lemma {:induction false} MergeSorted(s: seq<Range>)
    requires Sorted(s) && s != []
    ensures Sorted(Merge(s)) && Merge(s)[|Merge(s)| - 1].start <= s[|s| - 1].start
  {
    if |s| > 1 {
      MergeSorted(s[..|s| - 1]);
    }
  }

  lemma {:induction false} GapsAdd(m: seq<Range>, i: nat, j: nat)
    requires WellFormed(m) && Closed(m) && i < j < |m|
    ensures m[i].end + 1 < m[j].start
  {
    assert Spaced(m, j - 1);
    if i + 1 < j {
      GapsAdd(m, i, j - 1);
    }
  }

  lemma ClosedGood(m: seq<Range>)
    requires m != [] && Closed(m) && m[|m| - 1].start <= m[|m| - 1].end < SLOTS
    ensures WellFormed(m) && InBounds(m)
  {
    forall i | 0 <= i < |m|
      ensures m[i].start <= m[i].end < SLOTS
    {
      assert i < |m| - 1 ==> Spaced(m, i);
    }
  }

  // Ranges that leave gaps are in canonical form, and cover no slot twice.
  lemma ClosedCanonical(m: seq<Range>)
    requires WellFormed(m) && Closed(m)
    ensures Canonical(m) && Disjoint(m)
  {
    forall i, j | 0 <= i < j < |m|
      ensures m[i].end + 1 < m[j].start
    {
      GapsAdd(m, i, j);
    }
    forall x: nat
      ensures Count(m, x) <= 1
    {
      CanonicalOnce(m, x);
    }
  }

  lemma {:induction false} CanonicalOnce(m: seq<Range>, x: nat)
    requires Canonical(m)
    ensures Count(m, x) <= 1
  {
    if m != [] {
      var n := |m| - 1;
      CanonicalOnce(m[..n], x);
      if In(m[n], x) {
        CountNone(m[..n], x);
      }
    }
  }

  /**
   * What validation accepts, for arrays of any ranges and any order the sort may choose,
   * told from the sorted array alone: runs of touching ranges, each ending no earlier than
   * it begins and in bounds, with a gap before the next.
   */
  lemma AcceptsIff(s: seq<Range>, t: seq<Range>)
    requires SortOf(s, t)
    ensures Accepts(|s|, Merge(t)) <==> 0 < |s| < SLOTS && RunsOk(t)
  {
    assert |s| == |t| by {
      assert |multiset(s)| == |s| && |multiset(t)| == |t|;
    }
    if t != [] {
      var m := Merge(t);
      assert t[..|t|] == t;
      MergeRuns(t, |t|);
      if RunsOk(t) {
        ClosedGood(m);
        ClosedCanonical(m);
      } else if InBounds(m) && WellFormed(m) && Disjoint(m) {
        AcceptedRuns(t);
      }
    }
  }

  lemma AcceptedRuns(t: seq<Range>)
    requires t != [] && Sorted(t) && InBounds(Merge(t)) && WellFormed(Merge(t)) && Disjoint(Merge(t))
    ensures RunsOk(t)
  {
    var m := Merge(t);
    assert t[..|t|] == t;
    MergeRuns(t, |t|);
    MergeSorted(t);
    forall i | 0 <= i < |m| - 1
      ensures Spaced(m, i)
    {
      Follow(m, i);
      assert !Touch(m, i);
    }
  }

  // A range the wrong way round that validation does not see: it ends a run before it, cut
  // short but still the right way round; or it is empty and leads into a range that starts
  // where it does.
  predicate Hidden(t: seq<Range>, k: nat)
    requires k < |t|
  {
    && t[k].start > t[k].end
    && if Touch(t, k) then t[k + 1].start == t[k].start else k > 0 && Touch(t, k - 1) && RunStart(t, k) <= t[k].end
  }

  lemma {:induction false} RunStartBelow(t: seq<Range>, k: nat)
    requires Sorted(t) && k < |t|
    ensures RunStart(t, k) <= t[k].start
  {
    if k > 0 && Touch(t, k - 1) {
      RunStartBelow(t, k - 1);
    }
  }

  lemma BackwardIsHidden(t: seq<Range>, k: nat)
    requires Sorted(t) && RunsOk(t) && k < |t| && t[k].start > t[k].end
    ensures Hidden(t, k)
  {
    if Touch(t, k) {
      assert t[k].start <= t[k + 1].start;
    } else {
      assert RunOk(t, k);
    }
  }

  /**
   * When validation is right: it accepts exactly the arrays of in-bounds disjoint ranges
   * the right way round, unless the sorted array is made of good runs and one of them
   * hides a range the wrong way round.
   */
  lemma ValidationRightIff(s: seq<Range>, t: seq<Range>)
    requires SortOf(s, t) && 0 < |s| < SLOTS
    ensures (Accepts(|s|, Merge(t)) <==> WellFormed(s) && InBounds(s) && Disjoint(s))
            <==> !(RunsOk(t) && exists k | 0 <= k < |t| :: Hidden(t, k))
  {
    AcceptsIff(s, t);
    if WellFormed(s) {
      ValidIff(s, t);
      SortMerge(s, t);
    } else {
      var i :| 0 <= i < |s| && s[i].start > s[i].end;
      assert s[i] in multiset(t);
      var k :| 0 <= k < |t| && t[k] == s[i];
      if RunsOk(t) {
        BackwardIsHidden(t, k);
      }
    }
  }

  lemma MergeTwo(p: Range, q: Range)
    ensures Merge([p, q]) == if p.end + 1 == q.start then [Range(p.start, q.end)] else [p, q]
    ensures p.start <= q.start ==> SortOf([p, q], [p, q])
  {
    assert [p, q][..1] == [p] && Merge([p]) == [p];
  }

  lemma AcceptsOne(r: Range, n: nat)
    requires r.start <= r.end < SLOTS && 0 < n < SLOTS
    ensures Accepts(n, [r])
  {
    assert Closed([r]);
    ClosedCanonical([r]);
  }

  // 1-4 and 5-2 pass as 1-2; 5-4 and 5-9 pass as 5-9.
  lemma BackwardRangeAccepted()
    ensures
      var s := [Range(1, 4), Range(5, 2)];
      SortOf(s, s) && !WellFormed(s) && Merge(s) == [Range(1, 2)] && Accepts(|s|, Merge(s))
    ensures
      var s := [Range(5, 4), Range(5, 9)];
      SortOf(s, s) && !WellFormed(s) && Merge(s) == [Range(5, 9)] && Accepts(|s|, Merge(s))
  {
    hide Accepts, Merge, SortOf;
    MergeTwo(Range(1, 4), Range(5, 2));
    MergeTwo(Range(5, 4), Range(5, 9));
    AcceptsOne(Range(1, 2), 2);
    AcceptsOne(Range(5, 9), 2);
    assert [Range(1, 4), Range(5, 2)][1].start == 5;
  }

  // A canonical array in bounds is far from the limit on ranges.
  lemma {:induction false} CanonicalIsShort(s: seq<Range>)
    requires Canonical(s) && s != []
    ensures s[|s| - 1].start >= 2 * (|s| - 1)
  {
    if |s| > 1 {
      CanonicalIsShort(s[..|s| - 1]);
    }
  }

  // ---------- building from slots ----------

  // slotRangeArrayAppend.
  function Append(s: seq<Range>, x: nat): seq<Range> {
    if s == [] then [Range(x, x)] else Joined(s, Range(x, x))
  }

  lemma AppendCanonical(s: seq<Range>, x: nat)
    requires Canonical(s) && (s != [] ==> s[|s| - 1].end < x)
    ensures Canonical(Append(s, x)) && Append(s, x)[|Append(s, x)| - 1].end == x
    ensures forall y: nat :: Count(Append(s, x), y) == Count(s, y) + if y == x then 1 else 0
  {
    if s != [] {
      CanonicalStep(s, Range(x, x));
      forall y: nat
        ensures Count(Append(s, x), y) == Count(s, y) + if y == x then 1 else 0
      {
        JoinedCount(s, Range(x, x), y);
      }
    } else {
      assert [Range(x, x)][..0] == [];
    }
  }

  /**
   * clusterGetNodeSlotRanges: the ranges of a node are the canonical form of the slots
   * it owns.
   */
  method NodeRanges(owned: seq<bool>) returns (s: seq<Range>)
    requires |owned| == SLOTS
    ensures Canonical(s) && forall x: nat :: Count(s, x) == if x < SLOTS && owned[x] then 1 else 0
  {
    hide Canonical, Count;
    s := [];
    NothingYet();
    var i := 0;
    while i < SLOTS
      invariant 0 <= i <= SLOTS
      invariant Canonical(s) && (s != [] ==> s[|s| - 1].end < i)
      invariant forall x: nat :: Count(s, x) == if x < i && owned[x] then 1 else 0
    {
      if owned[i] {
        AppendCanonical(s, i);
        s := Append(s, i);
      }
      i := i + 1;
    }
  }

  lemma NothingYet()
    ensures Canonical([]) && forall x: nat :: Count([], x) == 0
  {
  }
}
