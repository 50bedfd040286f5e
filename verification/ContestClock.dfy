/**
 The two clocks of a contest. Wall time and contest time are converted both ways
 around the removed intervals. Times are integers in milliseconds, the resolution
 of the stored absolute times.
 */
module ContestClock {
  import opened Numbers
  import opened StableSort

  datatype Interval = Interval(start: int, end: int)

  ghost predicate Proper(iv: Interval) {
    iv.start < iv.end
  }

  ghost predicate Disjoint(a: Interval, b: Interval) {
    a.end <= b.start || b.end <= a.start
  }

  /** Every interval is proper, and no two of them share a tick. */
  ghost predicate Separate(m: multiset<Interval>) {
    && (forall a :: a in m ==> Proper(a))
    && (forall a, b :: a in m && b in m - multiset{a} ==> Disjoint(a, b))
  }

  ghost predicate StartSorted(ivs: seq<Interval>) {
    forall i, j :: 0 <= i < j < |ivs| ==> ivs[i].start <= ivs[j].start
  }

  ghost predicate Contains(iv: Interval, tick: int) {
    iv.start <= tick < iv.end
  }

  ghost predicate Covered(ivs: seq<Interval>, tick: int) {
    exists iv :: iv in ivs && Contains(iv, tick)
  }

  // ----- what getContestTime subtracts and what getAbsoluteTime adds

  /** The part of one interval that lies before wall time w. */
  function Clip(iv: Interval, w: int): int {
    if iv.start < w then Min(w - iv.start, iv.end - iv.start) else 0
  }

  function Clipped(ivs: seq<Interval>, w: int): int {
    if ivs == [] then 0 else Clip(ivs[0], w) + Clipped(ivs[1..], w)
  }

  function ContestTime(start: int, ivs: seq<Interval>, w: int): int {
    w - start - Clipped(ivs, w)
  }

  /** Shift t past the intervals, in the order given. */
  function Cascade(ivs: seq<Interval>, t: int): int {
    if ivs == [] then t
    else Cascade(ivs[1..], if ivs[0].start <= t then t + (ivs[0].end - ivs[0].start) else t)
  }

  /** The wall time of contest time r when the intervals are visited in the order given. */
  function AbsoluteTime(start: int, order: seq<Interval>, r: int): int {
    Cascade(order, start + r)
  }

  // ----- usort with the comparator that truncates the difference to whole seconds

  function CompareStarts(a: Interval, b: Interval): int {
    var d := a.start - b.start;
    if d >= 0 then d / 1000 else -((-d) / 1000)
  }

  /** Starts less than a second apart compare as equal, others by their order. */
  lemma ComparesWholeSeconds(a: Interval, b: Interval)
    ensures CompareStarts(a, b) > 0 <==> a.start >= b.start + 1000
    ensures CompareStarts(a, b) < 0 <==> b.start >= a.start + 1000
    ensures CompareStarts(a, b) == -CompareStarts(b, a)
  {
  }

  function Usort(ivs: seq<Interval>): seq<Interval> {
    Sort(ivs, CompareStarts)
  }

  // ----- the definition both conversions refine

  /** The number of ticks in [start, w) that no removed interval covers. */
  ghost function Uncovered(start: int, ivs: seq<Interval>, w: int): nat
    decreases w - start
  {
    if w <= start then 0
    else Uncovered(start, ivs, w - 1) + (if Covered(ivs, w - 1) then 0 else 1)
  }

  lemma SeparateTail(ivs: seq<Interval>)
    requires Separate(multiset(ivs)) && ivs != []
    ensures Proper(ivs[0]) && Separate(multiset(ivs[1..]))
    ensures forall b :: b in ivs[1..] ==> Disjoint(ivs[0], b)
  {
    assert ivs == [ivs[0]] + ivs[1..];
    var m, t := multiset(ivs), multiset(ivs[1..]);
    assert m - multiset{ivs[0]} == t;
    assert ivs[0] in m;
    forall a, b | a in t && b in t - multiset{a} ensures Disjoint(a, b) {
      assert a in m && b in m - multiset{a};
    }
    forall a | a in t ensures Proper(a) {
      assert a in m;
    }
    forall b | b in ivs[1..] ensures Disjoint(ivs[0], b) {
      assert b in t;
    }
  }

  /** One more tick of wall time adds one removed tick exactly when that tick is covered. */
  lemma {:induction false} ClippedStep(ivs: seq<Interval>, w: int)
    requires Separate(multiset(ivs))
    ensures Clipped(ivs, w + 1) == Clipped(ivs, w) + (if Covered(ivs, w) then 1 else 0)
  {
    if ivs != [] {
      SeparateTail(ivs);
      ClippedStep(ivs[1..], w);
      var head, tail := ivs[0], ivs[1..];
      assert Covered(ivs, w) <==> Contains(head, w) || Covered(tail, w) by {
        if Covered(ivs, w) {
          var iv :| iv in ivs && Contains(iv, w);
          assert iv == head || iv in tail;
        }
        if Contains(head, w) {
          assert head in ivs;
        }
        if Covered(tail, w) {
          var iv :| iv in tail && Contains(iv, w);
          assert iv in ivs;
        }
      }
      assert !(Contains(head, w) && Covered(tail, w));
    }
  }

  lemma {:induction false} ClippedBefore(ivs: seq<Interval>, w: int)
    requires forall iv :: iv in ivs ==> w <= iv.start
    ensures Clipped(ivs, w) == 0
  {
    if ivs != [] {
      ClippedBefore(ivs[1..], w);
    }
  }

  /** For any storage order, contest time counts the uncovered ticks since the start. */
  lemma {:induction false} ContestTimeCountsUncoveredTicks(start: int, ivs: seq<Interval>, w: int)
    requires Separate(multiset(ivs))
    requires forall iv :: iv in ivs ==> start <= iv.start
    requires start <= w
    ensures ContestTime(start, ivs, w) == Uncovered(start, ivs, w)
    decreases w - start
  {
    if w == start {
      ClippedBefore(ivs, w);
    } else {
      ContestTimeCountsUncoveredTicks(start, ivs, w - 1);
      ClippedStep(ivs, w - 1);
    }
  }

  /** Contest time never runs backwards and never runs faster than the wall clock. */
  lemma {:induction false} ContestTimeMonotoneAndSlow(start: int, ivs: seq<Interval>, w: int, w': int)
    requires Separate(multiset(ivs))
    requires w <= w'
    ensures 0 <= ContestTime(start, ivs, w') - ContestTime(start, ivs, w) <= w' - w
    decreases w' - w
  {
    if w < w' {
      ContestTimeMonotoneAndSlow(start, ivs, w, w' - 1);
      ClippedStep(ivs, w' - 1);
    }
  }

  lemma {:induction false} ClippedFarBack(ivs: seq<Interval>, w: int) returns (w0: int)
    ensures w0 <= w && Clipped(ivs, w0) == 0 && forall iv :: iv in ivs ==> w0 <= iv.start
  {
    w0 := w;
    var i := 0;
    while i < |ivs|
      invariant 0 <= i <= |ivs| && w0 <= w
      invariant forall k :: 0 <= k < i ==> w0 <= ivs[k].start
    {
      w0 := Min(w0, ivs[i].start);
      i := i + 1;
    }
    ClippedBefore(ivs, w0);
  }

  /** Contest time does not depend on the order in which the intervals are stored. */
  lemma ContestTimePermutationInvariant(start: int, ivs: seq<Interval>, ivs': seq<Interval>, w: int)
    requires Separate(multiset(ivs)) && multiset(ivs) == multiset(ivs')
    ensures ContestTime(start, ivs, w) == ContestTime(start, ivs', w)
  {
    var w0 := ClippedFarBack(ivs, w);
    forall iv | iv in ivs' ensures iv in ivs {
      assert iv in multiset(ivs');
    }
    ClippedBefore(ivs', w0);
    ClippedSameOrderFree(ivs, ivs', w0, w);
  }

  lemma {:induction false} ClippedSameOrderFree(ivs: seq<Interval>, ivs': seq<Interval>, w0: int, w: int)
    requires Separate(multiset(ivs)) && multiset(ivs) == multiset(ivs')
    requires w0 <= w && Clipped(ivs, w0) == Clipped(ivs', w0)
    ensures Clipped(ivs, w) == Clipped(ivs', w)
    decreases w - w0
  {
    if w0 < w {
      ClippedSameOrderFree(ivs, ivs', w0, w - 1);
      ClippedStep(ivs, w - 1);
      ClippedStep(ivs', w - 1);
      assert Covered(ivs, w - 1) == Covered(ivs', w - 1) by {
        assert forall iv :: iv in ivs <==> iv in multiset(ivs);
        assert forall iv :: iv in ivs' <==> iv in multiset(ivs');
      }
    }
  }

  // ----- the Galois pair

  /** Contest time w <= r exactly when wall time w is at most the wall time of r. */
  ghost predicate GaloisPair(start: int, ivs: seq<Interval>, order: seq<Interval>) {
    forall w, r ::
      ContestTime(start, ivs, w) <= r <==> w <= AbsoluteTime(start, order, r)
  }

  /** In start order everything after the first interval starts when it has ended. */
  lemma TailStartsAfter(order: seq<Interval>)
    requires order != [] && Separate(multiset(order)) && StartSorted(order)
    ensures Proper(order[0]) && Separate(multiset(order[1..])) && StartSorted(order[1..])
    ensures forall iv :: iv in order[1..] ==> order[0].end <= iv.start
  {
    SeparateTail(order);
    var tail := order[1..];
    forall iv | iv in tail ensures order[0].end <= iv.start {
      var k :| 0 <= k < |tail| && tail[k] == iv;
      assert order[k + 1] == iv && iv in multiset(tail);
    }
  }

  /** Disjoint intervals that start at s or later remove at most the time since s. */
  lemma {:induction false} ClippedFitsAfter(order: seq<Interval>, s: int, w: int)
    requires Separate(multiset(order)) && StartSorted(order)
    requires forall iv :: iv in order ==> s <= iv.start
    ensures 0 <= Clipped(order, w) && (s <= w ==> Clipped(order, w) <= w - s)
    decreases |order|
  {
    if order != [] {
      var head, tail := order[0], order[1..];
      TailStartsAfter(order);
      assert head in order;
      ClippedFitsAfter(tail, head.end, w);
      if w < head.end {
        ClippedBefore(tail, w);
      }
    }
  }

  lemma {:induction false} CascadeBefore(order: seq<Interval>, x: int)
    requires forall iv :: iv in order ==> x < iv.start
    ensures Cascade(order, x) == x
  {
    if order != [] {
      CascadeBefore(order[1..], x);
    }
  }

  lemma {:induction false} GaloisSorted(order: seq<Interval>, w: int, x: int)
    requires Separate(multiset(order)) && StartSorted(order)
    ensures w - Clipped(order, w) <= x <==> w <= Cascade(order, x)
    decreases |order|
  {
    if order != [] {
      SeparateTail(order);
      var head, tail := order[0], order[1..];
      assert StartSorted(tail);
      forall iv | iv in tail ensures head.end <= iv.start {
        var k :| 0 <= k < |tail| && tail[k] == iv;
        assert order[k + 1] == iv && order[0].start <= iv.start;
        assert iv in multiset(tail);
      }
      if head.start <= x {
        GaloisSorted(tail, w, x + (head.end - head.start));
        if w < head.end {
          ClippedBefore(tail, w);
        }
      } else {
        CascadeBefore(tail, x);
        ClippedFitsAfter(order, head.start, w);
        if w <= head.start {
          ClippedBefore(order, w);
        }
      }
    }
  }

  // An order that is not sorted by start visits some interval b while one that starts earlier
  // is still to come. The cascade then never gets past b.

  ghost function LengthBefore(order: seq<Interval>, s: int): int {
    if order == [] then 0
    else (if order[0].start < s then order[0].end - order[0].start else 0) + LengthBefore(order[1..], s)
  }

  lemma {:induction false} LengthBeforePositive(order: seq<Interval>, s: int)
    requires forall iv :: iv in order ==> Proper(iv)
    ensures 0 <= LengthBefore(order, s)
    ensures (exists iv :: iv in order && iv.start < s) ==> 0 < LengthBefore(order, s)
  {
    if order != [] {
      var head, tail := order[0], order[1..];
      assert head in order && Proper(head);
      LengthBeforePositive(tail, s);
      if exists iv :: iv in order && iv.start < s {
        var iv :| iv in order && iv.start < s;
        assert iv == head || iv in tail;
      }
    }
  }

  /** Wherever b occurs, an interval that starts earlier follows. */
  ghost predicate FollowedByEarlier(order: seq<Interval>, b: Interval) {
    order != [] ==>
      && (order[0] == b ==> exists iv :: iv in order[1..] && iv.start < b.start)
      && FollowedByEarlier(order[1..], b)
  }

  lemma {:induction false} FollowedByEarlierAt(order: seq<Interval>, b: Interval, j: nat)
    requires j < |order| && order[j].start < b.start
    requires b !in order[j..]
    ensures FollowedByEarlier(order, b)
  {
    if j == 0 {
      NotThere(order, b);
    } else {
      assert order[1..][j - 1..] == order[j..];
      FollowedByEarlierAt(order[1..], b, j - 1);
      assert order[1..][j - 1] == order[j];
    }
  }

  lemma {:induction false} NotThere(order: seq<Interval>, b: Interval)
    requires b !in order
    ensures FollowedByEarlier(order, b)
  {
    if order != [] {
      NotThere(order[1..], b);
    }
  }

  lemma {:induction false} CascadeStuck(order: seq<Interval>, b: Interval, t: int)
    requires forall iv :: iv in order ==> Proper(iv) && (iv.start == b.start ==> iv == b)
    requires FollowedByEarlier(order, b)
    requires t + LengthBefore(order, b.start) <= b.start
    ensures Cascade(order, t) <= b.start
  {
    if order != [] {
      var head, tail := order[0], order[1..];
      LengthBeforePositive(tail, b.start);
      CascadeStuck(tail, b, if head.start <= t then t + (head.end - head.start) else t);
    }
  }

  lemma {:induction false} ClippedAtLeast(order: seq<Interval>, b: Interval)
    requires Proper(b)
    requires forall iv :: iv in order ==> Proper(iv) && (iv == b || Disjoint(iv, b))
    ensures LengthBefore(order, b.start) + (if b in order then b.end - b.start else 0) <= Clipped(order, b.end)
  {
    if order != [] {
      var head, tail := order[0], order[1..];
      assert head in order && Proper(head);
      ClippedAtLeast(tail, b);
      assert b in order ==> b == head || b in tail;
      assert order == [head] + tail;
      assert head != b ==> Disjoint(head, b);
    }
  }

  lemma SeparateFacts(order: seq<Interval>, i: nat, j: nat)
    requires Separate(multiset(order)) && i < j < |order|
    ensures Proper(order[i]) && Proper(order[j]) && Disjoint(order[i], order[j]) && order[i] != order[j]
  {
    var a, b := order[i], order[j];
    assert order == order[..i] + [a] + order[i + 1..j] + [b] + order[j + 1..];
    assert multiset(order) ==
        multiset(order[..i]) + multiset{a} + multiset(order[i + 1..j]) + multiset{b} + multiset(order[j + 1..]);
    assert a in multiset(order) && b in multiset(order) - multiset{a};
  }

  lemma UnsortedBreaksGalois(start: int, ivs: seq<Interval>, order: seq<Interval>, i: nat, j: nat)
    requires Separate(multiset(ivs)) && multiset(order) == multiset(ivs)
    requires i < j < |order| && order[j].start < order[i].start
    ensures !GaloisPair(start, ivs, order)
  {
    var b := order[i];
    forall iv | iv in order ensures Proper(iv) && (iv == b || Disjoint(iv, b)) && (iv.start == b.start ==> iv == b) {
      assert iv in multiset(order);
      var k :| 0 <= k < |order| && order[k] == iv;
      if k < i { SeparateFacts(order, k, i); } else if i < k { SeparateFacts(order, i, k); }
    }
    if b in order[j..] {
      var k :| 0 <= k < |order[j..]| && order[j..][k] == b;
      SeparateFacts(order, i, j + k);
    }
    FollowedByEarlierAt(order, b, j);
    var x := b.start - LengthBefore(order, b.start);
    CascadeStuck(order, b, x);
    ClippedAtLeast(order, b);
    var r := x - start;
    ContestTimePermutationInvariant(start, ivs, order, b.end);
    assert ContestTime(start, ivs, b.end) <= r;
    assert !(b.end <= AbsoluteTime(start, order, r));
  }

  lemma GaloisAt(start: int, ivs: seq<Interval>, order: seq<Interval>, w: int, r: int)
    requires Separate(multiset(ivs)) && multiset(order) == multiset(ivs) && StartSorted(order)
    ensures ContestTime(start, ivs, w) <= r <==> w <= AbsoluteTime(start, order, r)
  {
    ContestTimePermutationInvariant(start, ivs, order, w);
    GaloisSorted(order, w, start + r);
  }

  /**
   For separate intervals the two conversions form a Galois pair exactly when the
   conversion to wall time visits the intervals in order of their start.
   */
  lemma GaloisIffStartSorted(start: int, ivs: seq<Interval>, order: seq<Interval>)
    requires Separate(multiset(ivs)) && multiset(order) == multiset(ivs)
    ensures GaloisPair(start, ivs, order) <==> StartSorted(order)
  {
    if StartSorted(order) {
      forall w, r ensures ContestTime(start, ivs, w) <= r <==> w <= AbsoluteTime(start, order, r) {
        GaloisAt(start, ivs, order, w, r);
      }
    } else {
      var i, j :| 0 <= i < j < |order| && order[j].start < order[i].start;
      UnsortedBreaksGalois(start, ivs, order, i, j);
    }
  }

  // ----- consequences for the order that usort produces

  /** Interval b is stored after a, and a starts no later, or so much later that the comparator sees it. */
  predicate InOrderOrApart(a: Interval, b: Interval) {
    a.start <= b.start || a.start - b.start >= 1000
  }

  /** No interval is stored after one that starts less than a second later. */
  predicate Sortable(ivs: seq<Interval>) {
    forall i, j :: 0 <= i < j < |ivs| ==> InOrderOrApart(ivs[i], ivs[j])
  }

  lemma StartSortedAppend(s: seq<Interval>, x: Interval)
    ensures StartSorted(s + [x]) <==> StartSorted(s) && forall iv :: iv in s ==> iv.start <= x.start
  {
    var r := s + [x];
    if StartSorted(r) {
      forall i, j | 0 <= i < j < |s| ensures s[i].start <= s[j].start {
        assert r[i] == s[i] && r[j] == s[j];
      }
      forall iv | iv in s ensures iv.start <= x.start {
        var i :| 0 <= i < |s| && s[i] == iv;
        assert r[i] == iv && r[|s|] == x;
      }
    }
  }

  lemma LastLargest(s: seq<Interval>)
    requires s != [] && StartSorted(s)
    ensures forall iv :: iv in s ==> iv.start <= s[|s| - 1].start
  {
  }

  /** An insertion keeps the order exactly if it starts from one and x is sortable after everything. */
  lemma {:induction false} InsertSortedIff(s: seq<Interval>, x: Interval)
    ensures StartSorted(Insert(s, x, CompareStarts)) <==>
              StartSorted(s) && forall iv :: iv in s ==> InOrderOrApart(iv, x)
  {
    if s != [] {
      var front, z := s[..|s| - 1], s[|s| - 1];
      assert s == front + [z];
      StartSortedAppend(front, z);
      if CompareStarts(z, x) > 0 {
        InsertSortedIff(front, x);
        InsertElements(front, x, CompareStarts);
        StartSortedAppend(Insert(front, x, CompareStarts), z);
      } else {
        StartSortedAppend(s, x);
        if StartSorted(s) {
          LastLargest(s);
        }
      }
    }
  }

  lemma SortableAppend(front: seq<Interval>, x: Interval)
    ensures Sortable(front + [x]) <==> Sortable(front) && forall iv :: iv in front ==> InOrderOrApart(iv, x)
  {
    var r := front + [x];
    if Sortable(r) {
      forall i, j | 0 <= i < j < |front| ensures InOrderOrApart(front[i], front[j]) {
        assert r[i] == front[i] && r[j] == front[j];
      }
      forall iv | iv in front ensures InOrderOrApart(iv, x) {
        var i :| 0 <= i < |front| && front[i] == iv;
        assert r[i] == iv && r[|front|] == x;
      }
    }
  }

  /** usort puts the intervals in order of their start exactly if they are sortable. */
  lemma {:induction false} UsortSortedIff(ivs: seq<Interval>)
    ensures StartSorted(Usort(ivs)) <==> Sortable(ivs)
  {
    if ivs != [] {
      var front, x := ivs[..|ivs| - 1], ivs[|ivs| - 1];
      assert ivs == front + [x];
      UsortSortedIff(front);
      SortElements(front, CompareStarts);
      InsertSortedIff(Usort(front), x);
      SortableAppend(front, x);
    }
  }

  /** Going to wall time and back returns every contest time unchanged. */
  lemma ContestOfAbsolute(start: int, ivs: seq<Interval>, order: seq<Interval>, r: int)
    requires Separate(multiset(ivs)) && multiset(order) == multiset(ivs) && StartSorted(order)
    ensures ContestTime(start, ivs, AbsoluteTime(start, order, r)) == r
  {
    var w := AbsoluteTime(start, order, r);
    GaloisAt(start, ivs, order, w, r);
    GaloisAt(start, ivs, order, w + 1, r);
    ContestTimeMonotoneAndSlow(start, ivs, w, w + 1);
  }

  /** Going to contest time and back returns a wall time unchanged exactly when it is not removed. */
  lemma AbsoluteOfContest(start: int, ivs: seq<Interval>, order: seq<Interval>, w: int)
    requires Separate(multiset(ivs)) && multiset(order) == multiset(ivs) && StartSorted(order)
    ensures AbsoluteTime(start, order, ContestTime(start, ivs, w)) == w <==> !Covered(ivs, w)
  {
    var r := ContestTime(start, ivs, w);
    GaloisAt(start, ivs, order, w, r);
    GaloisAt(start, ivs, order, w + 1, r);
    ClippedStep(ivs, w);
  }

  /** Later contest times lie at later wall times. */
  lemma AbsoluteTimeStrictlyMonotone(start: int, ivs: seq<Interval>, order: seq<Interval>, r: int, r': int)
    requires Separate(multiset(ivs)) && multiset(order) == multiset(ivs) && StartSorted(order)
    ensures r < r' <==> AbsoluteTime(start, order, r) < AbsoluteTime(start, order, r')
  {
    ContestOfAbsolute(start, ivs, order, r);
    ContestOfAbsolute(start, ivs, order, r');
    var a, a' := AbsoluteTime(start, order, r), AbsoluteTime(start, order, r');
    if a <= a' {
      ContestTimeMonotoneAndSlow(start, ivs, a, a');
    } else {
      ContestTimeMonotoneAndSlow(start, ivs, a', a);
    }
  }

  /**
   The conversions as the code makes them form a Galois pair exactly if no interval is stored after one
   that starts less than a second later.
   */
  lemma UsortMakesGaloisPairIff(start: int, ivs: seq<Interval>)
    requires Separate(multiset(ivs))
    ensures GaloisPair(start, ivs, Usort(ivs)) <==> Sortable(ivs)
  {
    UsortSortedIff(ivs);
    SortPermutes(ivs, CompareStarts);
    GaloisIffStartSorted(start, ivs, Usort(ivs));
  }

  /** No two starts are closer than the whole second that the comparator can see. */
  ghost predicate SecondApart(ivs: seq<Interval>) {
    forall i, j :: 0 <= i < j < |ivs| ==> 1000 <= ivs[i].start - ivs[j].start || 1000 <= ivs[j].start - ivs[i].start
  }

  /** With starts at least a second apart the storage order does not matter. */
  lemma UsortMakesGaloisPair(start: int, ivs: seq<Interval>)
    requires Separate(multiset(ivs)) && SecondApart(ivs)
    ensures GaloisPair(start, ivs, Usort(ivs))
  {
    UsortMakesGaloisPairIff(start, ivs);
  }

  lemma UsortPair(a: Interval, b: Interval)
    ensures Usort([a, b]) == if CompareStarts(a, b) > 0 then [b, a] else [a, b]
  {
    assert [a, b][..1] == [a] && [a][..0] == [];
    assert Insert([], a, CompareStarts) == [a];
    assert Usort([a]) == Insert(Usort([]), a, CompareStarts) == [a];
    assert Usort([a, b]) == Insert([a], b, CompareStarts);
    assert [] + [b] == [b] && [b] + [a] == [b, a] && [a] + [b] == [a, b];
    assert Insert([], b, CompareStarts) == [b];
  }

  lemma PairTimes(a: Interval, b: Interval, t: int)
    ensures Clipped([a, b], t) == Clip(a, t) + Clip(b, t)
    ensures Cascade([a, b], t) == Cascade([b], Cascade([a], t))
    ensures Cascade([b], t) == if b.start <= t then t + (b.end - b.start) else t
    ensures Cascade([a], t) == if a.start <= t then t + (a.end - a.start) else t
  {
    assert [a, b][1..] == [b] && [b][1..] == [] && [a][1..] == [];
    assert Clipped([b], t) == Clip(b, t) + Clipped([], t);
  }

  lemma PairSeparate(a: Interval, b: Interval)
    requires Proper(a) && Proper(b) && Disjoint(a, b)
    ensures Separate(multiset([a, b]))
  {
    assert multiset([a, b]) == multiset{a, b};
  }

  /**
   Two disjoint intervals that start within one second and are stored in the wrong order
   stay so after sorting, and a contest time of 200 ms is sent into a removed interval.
   */
  lemma SubSecondStartsBreakRoundTrip()
    ensures var ivs := [Interval(950, 5000), Interval(0, 900)];
            && Separate(multiset(ivs)) && !StartSorted(Usort(ivs))
            && AbsoluteTime(0, Usort(ivs), 200) == 1100 && Covered(ivs, 1100)
            && ContestTime(0, ivs, 1100) == 50
  {
    var late, early := Interval(950, 5000), Interval(0, 900);
    var ivs := [late, early];
    UsortPair(late, early);
    assert Usort(ivs) == ivs;
    assert !StartSorted(ivs) by { assert ivs[1].start < ivs[0].start; }
    PairTimes(late, early, 1100);
    PairTimes(late, early, 200);
    assert Contains(late, 1100) && late in ivs;
    PairSeparate(late, early);
  }

  // ----- the overlap check made when one interval is validated against another

  /** The check on this interval: one of its end points falls inside the other. */
  predicate OverlapReported(self: Interval, other: Interval) {
    || (other.start <= self.start < other.end)
    || (other.start < self.end <= other.end)
  }

  /** The one-sided check misses exactly the case that self strictly contains other. */
  lemma OverlapCheckMissesContainment(self: Interval, other: Interval)
    requires Proper(self) && Proper(other)
    ensures OverlapReported(self, other) <==>
              !Disjoint(self, other) && !(self.start < other.start && other.end < self.end)
  {
  }

  lemma OtherIndex(ivs: seq<Interval>, i: nat, b: Interval) returns (j: nat)
    requires i < |ivs| && b in multiset(ivs) - multiset{ivs[i]}
    ensures j < |ivs| && j != i && ivs[j] == b
  {
    assert ivs == ivs[..i] + [ivs[i]] + ivs[i + 1..];
    assert multiset(ivs) - multiset{ivs[i]} == multiset(ivs[..i]) + multiset(ivs[i + 1..]);
    if b in multiset(ivs[..i]) {
      assert b in ivs[..i];
      j :| 0 <= j < i && ivs[..i][j] == b;
    } else {
      assert b in ivs[i + 1..];
      var k :| 0 <= k < |ivs| - i - 1 && ivs[i + 1..][k] == b;
      j := i + 1 + k;
    }
  }

  /** Separate, told by positions. */
  lemma SeparateIff(ivs: seq<Interval>)
    ensures Separate(multiset(ivs)) <==>
            (forall iv :: iv in ivs ==> Proper(iv)) && forall i, j :: 0 <= i < j < |ivs| ==> Disjoint(ivs[i], ivs[j])
  {
    var m := multiset(ivs);
    assert forall a :: a in m <==> a in ivs;
    if Separate(m) {
      forall i, j | 0 <= i < j < |ivs| ensures Disjoint(ivs[i], ivs[j]) {
        SeparateFacts(ivs, i, j);
      }
    }
    if forall i, j :: 0 <= i < j < |ivs| ==> Disjoint(ivs[i], ivs[j]) {
      forall a: Interval, b: Interval | a in m && b in m - multiset{a} ensures Disjoint(a, b) {
        var i :| 0 <= i < |ivs| && ivs[i] == a;
        var j := OtherIndex(ivs, i, b);
        assert if i < j then Disjoint(ivs[i], ivs[j]) else Disjoint(ivs[j], ivs[i]);
      }
    }
  }

  /** Validating a contest validates all its intervals: nothing is reported exactly if they are disjoint. */
  lemma ContestReportsAllOverlaps(ivs: seq<Interval>)
    requires forall iv :: iv in ivs ==> Proper(iv)
    ensures Separate(multiset(ivs)) <==>
            forall i, j :: 0 <= i < |ivs| && 0 <= j < |ivs| && i != j ==> !OverlapReported(ivs[i], ivs[j])
  {
    SeparateIff(ivs);
    assert forall i :: 0 <= i < |ivs| ==> ivs[i] in ivs;
    if forall i, j :: 0 <= i < |ivs| && 0 <= j < |ivs| && i != j ==> !OverlapReported(ivs[i], ivs[j]) {
      forall i, j | 0 <= i < j < |ivs| ensures Disjoint(ivs[i], ivs[j]) {
        assert !OverlapReported(ivs[i], ivs[j]) && !OverlapReported(ivs[j], ivs[i]);
      }
    }
  }

  // ----- adding intervals one at a time, which validates only the new one

  predicate StrictlyInside(inner: Interval, outer: Interval) {
    outer.start < inner.start && inner.end < outer.end
  }

  /** The new interval is reported neither for itself nor against a stored one. */
  predicate Accepted(ivs: seq<Interval>, n: Interval) {
    n.start < n.end && forall iv :: iv in ivs ==> !OverlapReported(n, iv)
  }

  /** An accepted interval keeps the stored ones disjoint exactly if none of them lies strictly inside it. */
  lemma AddingKeepsSeparateIff(ivs: seq<Interval>, n: Interval)
    requires Separate(multiset(ivs)) && Accepted(ivs, n)
    ensures Separate(multiset(ivs + [n])) <==> forall iv :: iv in ivs ==> !StrictlyInside(iv, n)
  {
    var r := ivs + [n];
    SeparateIff(ivs);
    SeparateIff(r);
    assert forall iv :: iv in r <==> iv in ivs || iv == n;
    assert forall i :: 0 <= i < |ivs| ==> r[i] == ivs[i] && ivs[i] in ivs;
    forall iv | iv in ivs ensures Disjoint(iv, n) <==> !StrictlyInside(iv, n) {
      OverlapCheckMissesContainment(n, iv);
    }
    if Separate(multiset(r)) {
      forall iv | iv in ivs ensures !StrictlyInside(iv, n) {
        var i :| 0 <= i < |ivs| && ivs[i] == iv;
        assert Disjoint(r[i], r[|ivs|]);
      }
    }
  }

  /** inContest: the interval lies between start and end of the contest, which is checked as well. */
  datatype Change = Add(interval: Interval, inContest: bool) | Remove(position: nat)

  /** What is stored after a request: an interval that is not accepted changes nothing. */
  function Changed(ivs: seq<Interval>, c: Change): seq<Interval> {
    match c
    case Add(n, inContest) => if inContest && Accepted(ivs, n) then ivs + [n] else ivs
    case Remove(k) => if k < |ivs| then ivs[..k] + ivs[k + 1..] else ivs
  }

  /** A change adds the one interval, if it is accepted, or takes the one away, and leaves the others as they are. */
  lemma ChangesOne(ivs: seq<Interval>, n: Interval, inContest: bool, k: nat)
    ensures Changed(ivs, Add(n, inContest)) == ivs + if inContest && Accepted(ivs, n) then [n] else []
    ensures k < |ivs| ==> multiset(Changed(ivs, Remove(k))) == multiset(ivs) - multiset{ivs[k]}
    ensures k >= |ivs| ==> Changed(ivs, Remove(k)) == ivs
  {
    assert ivs + [] == ivs;
    if k < |ivs| {
      TakeOut(ivs, k);
    }
  }

  lemma TakeOut(ivs: seq<Interval>, k: nat)
    requires k < |ivs|
    ensures multiset(ivs[..k] + ivs[k + 1..]) == multiset(ivs) - multiset{ivs[k]}
  {
    assert ivs == ivs[..k] + [ivs[k]] + ivs[k + 1..];
  }

  function ChangedAll(ivs: seq<Interval>, changes: seq<Change>): seq<Interval> {
    if changes == [] then ivs else Changed(ChangedAll(ivs, changes[..|changes| - 1]), changes[|changes| - 1])
  }

  /** Each interval was accepted against those stored before it. */
  ghost predicate AcceptedInTurn(ivs: seq<Interval>) {
    && (forall iv :: iv in ivs ==> Proper(iv))
    && (forall i, j :: 0 <= i < j < |ivs| ==> !OverlapReported(ivs[j], ivs[i]))
  }

  lemma RemovedInTurn(ivs: seq<Interval>, k: nat)
    requires AcceptedInTurn(ivs) && k < |ivs|
    ensures AcceptedInTurn(ivs[..k] + ivs[k + 1..])
  {
    var r := ivs[..k] + ivs[k + 1..];
    assert forall i :: 0 <= i < |r| ==> r[i] == ivs[if i < k then i else i + 1];
  }

  lemma AddedInTurn(ivs: seq<Interval>, n: Interval)
    requires AcceptedInTurn(ivs) && Accepted(ivs, n)
    ensures AcceptedInTurn(ivs + [n])
  {
    assert forall i :: 0 <= i < |ivs| ==> ivs[i] in ivs;
  }

  lemma {:induction false} ChangesInTurn(changes: seq<Change>)
    ensures AcceptedInTurn(ChangedAll([], changes))
  {
    if changes != [] {
      var before, c := ChangedAll([], changes[..|changes| - 1]), changes[|changes| - 1];
      ChangesInTurn(changes[..|changes| - 1]);
      match c
      case Add(n, inContest) =>
        if inContest && Accepted(before, n) {
          AddedInTurn(before, n);
        }
      case Remove(k) =>
        if k < |before| {
          RemovedInTurn(before, k);
        }
    }
  }

  /**
   After any additions and removals the stored intervals are disjoint exactly if none lies strictly
   inside one that was added later.
   */
  lemma StoredSeparateIff(changes: seq<Change>)
    ensures var ivs := ChangedAll([], changes);
            Separate(multiset(ivs)) <==> forall i, j :: 0 <= i < j < |ivs| ==> !StrictlyInside(ivs[i], ivs[j])
  {
    var ivs := ChangedAll([], changes);
    ChangesInTurn(changes);
    SeparateIff(ivs);
    forall i, j | 0 <= i < j < |ivs| ensures Disjoint(ivs[i], ivs[j]) <==> !StrictlyInside(ivs[i], ivs[j]) {
      assert ivs[i] in ivs && ivs[j] in ivs;
      OverlapCheckMissesContainment(ivs[j], ivs[i]);
    }
  }

  /** An interval is added around a stored one, and nothing is reported. */
  lemma ContainingIntervalAccepted()
    ensures var inner, outer := Interval(10, 20), Interval(0, 30);
            ChangedAll([], [Add(inner, true), Add(outer, true)]) == [inner, outer] &&
                !Separate(multiset([inner, outer]))
  {
    var inner, outer := Interval(10, 20), Interval(0, 30);
    var changes := [Add(inner, true), Add(outer, true)];
    assert changes[..1] == [Add(inner, true)] && [Add(inner, true)][..0] == [];
    assert ChangedAll([], [Add(inner, true)]) == Changed(ChangedAll([], []), Add(inner, true)) == [inner];
    assert Accepted([inner], outer);
    assert ChangedAll([], changes) == Changed([inner], Add(outer, true)) == [inner, outer];
    StoredSeparateIff(changes);
    assert StrictlyInside([inner, outer][0], [inner, outer][1]);
  }
}
