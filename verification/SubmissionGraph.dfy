/**
 The graph of submissions over contest time: which unit the axis uses, the buckets that submissions
 are counted in, and the ticks of the axis, which must coincide with buckets.
 */
module SubmissionGraph {
  import opened Numbers
  import opened Wrappers

  datatype Unit = Unit(name: string, convert: nat, step: nat)

  const UNITS: seq<Unit> := [
    Unit("seconds", 1, 60),
    Unit("minutes", 60, 15),
    Unit("hours", 3600, 6),
    Unit("days", 86400, 7),
    Unit("weeks", 604800, 1),
    Unit("years", 31536000, 1)]

  const MIN_BUCKETS: nat := 30
  const MAX_BUCKETS: nat := 301

  function Ceil(x: real): int {
    -((-x).Floor)
  }

  lemma CeilBounds(x: real)
    ensures Ceil(x) as real - 1.0 < x <= Ceil(x) as real
  {
  }

  function MinReal(a: real, b: real): real {
    if a < b then a else b
  }

  function CeilDiv(a: nat, b: nat): nat
    requires b > 0
  {
    (a + b - 1) / b
  }

  // ----- the unit

  predicate UnitOk(u: Unit) {
    u.convert > 0 && u.step > 0
  }

  /** The duration in whole units, rounded up. */
  function Steps(seconds: real, u: Unit): int
    requires UnitOk(u)
  {
    Ceil(seconds / (u.convert as real))
  }

  lemma DivideLarger(x: real, c: real, c': real)
    requires x >= 0.0 && 0.0 < c <= c'
    ensures x / c' <= x / c
  {
    var q, q' := x / c, x / c';
    assert q * c == x && q' * c' == x;
    assert q' >= 0.0;
    if q < q' {
      assert q * c <= q' * c;
      assert q' * c <= q' * c';
      MulStrict(q, q', c);
    }
  }

  lemma MulStrict(a: real, b: real, c: real)
    requires a < b && c > 0.0
    ensures a * c < b * c
  {
  }

  lemma CeilMonotone(x: real, y: real)
    requires x <= y
    ensures Ceil(x) <= Ceil(y)
  {
  }

  lemma StepsDecrease(seconds: real, j: nat, k: nat)
    requires seconds > 0.0 && j <= k < |UNITS|
    ensures UnitOk(UNITS[j]) && UnitOk(UNITS[k])
    ensures Steps(seconds, UNITS[k]) <= Steps(seconds, UNITS[j])
  {
    DivideLarger(seconds, UNITS[j].convert as real, UNITS[k].convert as real);
    CeilMonotone(seconds / (UNITS[k].convert as real), seconds / (UNITS[j].convert as real));
  }

  /** k is the coarsest unit that still gives more than 30 steps; seconds if there is none. */
  ghost predicate Coarsest(seconds: real, k: nat) {
    && k < |UNITS|
    && (forall j :: 0 <= j < |UNITS| ==> UnitOk(UNITS[j]))
    && (k == 0 || Steps(seconds, UNITS[k]) > MIN_BUCKETS)
    && (forall j :: k < j < |UNITS| ==> Steps(seconds, UNITS[j]) <= MIN_BUCKETS)
  }

  method ChooseUnit(seconds: real) returns (k: nat)
    requires seconds > 0.0
    ensures Coarsest(seconds, k)
  {
    k := 0;
    var i := 0;
    while i < |UNITS|
      invariant 0 <= i <= |UNITS| && k < |UNITS| && k <= i
      invariant i > 0 ==> k == i - 1
      invariant k == 0 || Steps(seconds, UNITS[k]) > MIN_BUCKETS
    {
      var newDuration := Steps(seconds, UNITS[i]);
      if newDuration > MIN_BUCKETS {
        k := i;
      } else {
        forall j | i <= j < |UNITS| ensures Steps(seconds, UNITS[j]) <= MIN_BUCKETS {
          StepsDecrease(seconds, i, j);
        }
        break;
      }
      i := i + 1;
    }
  }

  // ----- the buckets

  function BucketCount(duration: nat): nat {
    Min(duration + 1, MAX_BUCKETS)
  }

  /** The width of a bucket in units: whole units, wide enough for the last bucket to reach the end. */
  function BucketWidth(duration: nat): nat
    requires duration > 0
  {
    CeilDiv(duration, BucketCount(duration) - 1)
  }

  lemma CeilDivReaches(a: nat, b: nat)
    requires a > 0 && b > 0
    ensures CeilDiv(a, b) > 0 && a <= CeilDiv(a, b) * b
  {
    var n, q := a + b - 1, (a + b - 1) / b;
    assert n == q * b + n % b;
  }

  lemma BucketsReach(duration: nat)
    requires duration > 0
    ensures BucketWidth(duration) > 0
    ensures duration <= BucketWidth(duration) * (BucketCount(duration) - 1)
  {
    CeilDivReaches(duration, BucketCount(duration) - 1);
  }

  lemma CeilDivLeast(a: nat, b: nat, q: nat)
    requires a > 0 && b > 0 && q < CeilDiv(a, b)
    ensures q * b < a
  {
    var n, c := a + b - 1, (a + b - 1) / b;
    assert n == c * b + n % b;
    ScaleInt(q, c - 1, b);
    assert (c - 1) * b == c * b - b;
  }

  /**
   Up to 300 units every unit has a bucket of its own; beyond there are 301 buckets, and narrower ones would
   not reach the end of the contest.
   */
  lemma BucketsAreTight(duration: nat, width: nat)
    requires duration > 0
    ensures duration <= 300 ==> BucketCount(duration) == duration + 1 && BucketWidth(duration) == 1
    ensures duration > 300 ==> BucketCount(duration) == 301
    ensures width < BucketWidth(duration) ==> width * (BucketCount(duration) - 1) < duration
  {
    if width < BucketWidth(duration) {
      CeilDivLeast(duration, BucketCount(duration) - 1, width);
    }
    if duration <= 300 {
      var n := duration + duration - 1;
      assert n == 1 * duration + (duration - 1);
      BucketsReach(duration);
      if BucketWidth(duration) > 1 {
        CeilDivLeast(duration, duration, 1);
      }
    }
  }

  /** The bucket a submission falls in; it may lie outside the graph. */
  function Bucket(seconds: real, start: real, width: nat, u: Unit): int
    requires width > 0 && UnitOk(u)
  {
    ((seconds - start) / ((width * u.convert) as real)).Floor
  }

  lemma QuotientBetween(x: real, w: real, low: real, high: real)
    requires w > 0.0
    ensures low <= x / w < high <==> low * w <= x < high * w
  {
    var q := x / w;
    assert q * w == x;
    ScaleIff(low, q, w);
    ScaleIff(high, q, w);
  }

  lemma ScaleIff(a: real, b: real, c: real)
    requires c > 0.0
    ensures a <= b <==> a * c <= b * c
  {
    if a > b {
      MulStrict(b, a, c);
    } else {
      Scale(a, b, c);
    }
  }

  /** A bucket holds exactly the submissions from its coordinate up to that of the next one. */
  lemma BucketHolds(submitted: real, start: real, width: nat, u: Unit, b: int)
    requires width > 0 && UnitOk(u)
    ensures Bucket(submitted, start, width, u) == b <==>
              b as real * (width * u.convert) as real <= submitted - start
                < (b as real + 1.0) * (width * u.convert) as real
  {
    PositiveProduct(width, u.convert);
    QuotientBetween(submitted - start, (width * u.convert) as real, b as real, b as real + 1.0);
    FloorIs((submitted - start) / ((width * u.convert) as real), b);
  }

  lemma FloorIs(x: real, b: int)
    ensures x.Floor == b <==> b as real <= x < b as real + 1.0
  {
  }

  lemma FitsReal(x: real, k: real, d: real, w: real, l: real)
    requires k > 0.0 && w > 0.0 && d <= w * l
    requires 0.0 <= x <= d * k
    ensures w * k > 0.0 && 0.0 <= x / (w * k) <= l
  {
    Scale(d, w * l, k);
    RegroupReal(w, l, k);
    ProductPositive(w, k);
    QuotientAtMost(x, w * k, l);
  }

  lemma CastProduct(a: int, b: int)
    ensures (a * b) as real == a as real * b as real
  {
  }

  lemma FitsLast(x: real, c: int, duration: int, width: int, last: int)
    requires c > 0 && width > 0 && duration <= width * last
    requires 0.0 <= x <= duration as real * c as real
    ensures (width * c) as real > 0.0 && 0.0 <= x / ((width * c) as real) <= last as real
  {
    CastProduct(width, last);
    CastProduct(width, c);
    FitsReal(x, c as real, duration as real, width as real, last as real);
  }

  lemma RegroupReal(a: real, b: real, c: real)
    ensures (a * b) * c == b * (a * c)
  {
  }

  lemma StepsBound(seconds: real, u: Unit)
    requires UnitOk(u) && seconds > 0.0
    ensures Steps(seconds, u) > 0 && seconds <= Steps(seconds, u) as real * u.convert as real
  {
    var c := u.convert as real;
    var q := seconds / c;
    assert q * c == seconds;
    assert q > 0.0;
    CeilBounds(q);
    Scale(q, Steps(seconds, u) as real, c);
  }

  /** Every submission from the start to the end of the contest falls in a bucket of the graph. */
  lemma ContestFitsBuckets(submitted: real, start: real, contestSeconds: real, u: Unit)
    requires UnitOk(u) && contestSeconds > 0.0
    requires start <= submitted <= start + contestSeconds
    ensures var duration := Steps(contestSeconds, u);
            && duration > 0 && BucketWidth(duration) > 0
            && 0 <= Bucket(submitted, start, BucketWidth(duration), u) < BucketCount(duration)
  {
    StepsBound(contestSeconds, u);
    var duration := Steps(contestSeconds, u);
    BucketsReach(duration);
    var last := BucketCount(duration) - 1;
    FitsLast(submitted - start, u.convert, duration, BucketWidth(duration), last);
    FloorBetween((submitted - start) / ((BucketWidth(duration) * u.convert) as real), last);
  }

  lemma FloorBetween(x: real, last: int)
    requires 0.0 <= x <= last as real
    ensures 0 <= x.Floor <= last
  {
  }

  lemma Scale(a: real, b: real, c: real)
    requires a <= b && c > 0.0
    ensures a * c <= b * c
  {
  }

  lemma QuotientAtMost(x: real, s: real, l: real)
    requires s > 0.0 && 0.0 <= x <= l * s
    ensures 0.0 <= x / s <= l
  {
    var q := x / s;
    assert q * s == x;
    if q < 0.0 {
      MulStrict(q, 0.0, s);
    }
    if q > l {
      MulStrict(l, q, s);
    }
  }

  // ----- the ticks

  function MaxTicks(duration: nat, u: Unit): real
    requires UnitOk(u)
  {
    MinReal(MinReal(BucketCount(duration) as real, duration as real / (u.step as real)), MIN_BUCKETS as real)
  }

  function TickQuotient(d: nat, w: nat, m: real): int
    requires d > 0 && w > 0 && m > 0.0
  {
    ProductPositive(m, w as real);
    Ceil(d as real / (m * (w as real)))
  }

  /** How many buckets lie between two ticks. */
  function TickBuckets(duration: nat, u: Unit): int
    requires duration > 0 && UnitOk(u)
  {
    BucketsReach(duration);
    MaxTicksPositive(duration, u);
    TickQuotient(duration, BucketWidth(duration), MaxTicks(duration, u))
  }

  lemma ProductPositive(a: real, b: real)
    requires a > 0.0 && b > 0.0
    ensures a * b > 0.0
  {
  }

  lemma MaxTicksPositive(duration: nat, u: Unit)
    requires duration > 0 && UnitOk(u)
    ensures 0.0 < MaxTicks(duration, u) <= MIN_BUCKETS as real
  {
    var d, s := duration as real, u.step as real;
    var q := d / s;
    assert q * s == d;
    assert q > 0.0;
  }

  function TickDelta(duration: nat, u: Unit): int
    requires duration > 0 && UnitOk(u)
  {
    BucketWidth(duration) * TickBuckets(duration, u)
  }

  lemma CeilQuotient(d: real, w: int, m: real, q: int)
    requires d > 0.0 && w > 0 && m > 0.0 && m * (w as real) > 0.0 && q == Ceil(d / (m * (w as real)))
    ensures q > 0 && d <= q as real * (m * (w as real))
  {
    var p := m * (w as real);
    var x := d / p;
    assert x * p == d;
    if x <= 0.0 {
      Scale(x, 0.0, p);
    }
    CeilBounds(x);
    Scale(x, q as real, p);
  }

  lemma Rearrange(q: int, m: real, w: int)
    ensures q as real * (m * (w as real)) == (w * q) as real * m
  {
    assert (w * q) as real == w as real * q as real;
    var a, b := q as real, w as real;
    assert a * (m * b) == (b * a) * m;
  }

  lemma QuotientCovers(d: nat, w: nat, m: real)
    requires d > 0 && w > 0 && m > 0.0
    ensures var q := TickQuotient(d, w, m);
            q > 0 && w * q > 0 && d as real <= (w * q) as real * m
  {
    var q := TickQuotient(d, w, m);
    ProductPositive(m, w as real);
    CeilQuotient(d as real, w, m, q);
    Rearrange(q, m, w);
    PositiveProduct(w, q);
  }

  lemma TickDeltaPositive(duration: nat, u: Unit)
    requires duration > 0 && UnitOk(u)
    ensures TickBuckets(duration, u) > 0 && TickDelta(duration, u) > 0
    ensures duration as real <= TickDelta(duration, u) as real * MaxTicks(duration, u)
  {
    BucketsReach(duration);
    MaxTicksPositive(duration, u);
    QuotientCovers(duration, BucketWidth(duration), MaxTicks(duration, u));
  }

  lemma PositiveProduct(a: int, b: int)
    requires a > 0 && b > 0
    ensures a * b > 0
  {
  }

  /** Ticks at this distance: no more steps than 30 or buckets, and each at least the unit's step. */
  predicate TicksFit(duration: nat, u: Unit, delta: int) {
    duration <= delta * MIN_BUCKETS && duration <= delta * BucketCount(duration) && u.step <= delta
  }

  lemma StepFits(duration: nat, step: nat, delta: int)
    requires duration > 0 && step > 0 && delta > 0
    ensures duration as real <= delta as real * (duration as real / step as real) <==> step <= delta
  {
    var d, s, q := duration as real, step as real, duration as real / step as real;
    assert q * s == d;
    assert q > 0.0 by {
      if q <= 0.0 {
        Scale(q, 0.0, s);
      }
    }
    ScaleIff(s, delta as real, q);
    assert s * q == d && delta as real * q == q * delta as real;
  }

  lemma BoundFits(duration: nat, delta: int, n: nat)
    ensures duration as real <= delta as real * n as real <==> duration <= delta * n
  {
    CastProduct(delta, n);
  }

  lemma MinFits(d: real, delta: real, a: real, b: real)
    requires delta > 0.0
    ensures d <= delta * MinReal(a, b) <==> d <= delta * a && d <= delta * b
  {
    if a < b {
      MulStrict(a, b, delta);
    } else {
      Scale(b, a, delta);
    }
  }

  lemma MinOfThreeFits(d: real, delta: real, a: real, b: real, c: real)
    requires delta > 0.0
    ensures d <= delta * MinReal(MinReal(a, b), c) <==> d <= delta * a && d <= delta * b && d <= delta * c
  {
    MinFits(d, delta, a, b);
    MinFits(d, delta, MinReal(a, b), c);
  }

  lemma AllFit(duration: nat, step: nat, delta: int, count: nat, q: real)
    requires duration > 0 && step > 0 && delta > 0 && q == duration as real / step as real
    ensures duration as real <= delta as real * MinReal(MinReal(count as real, q), MIN_BUCKETS as real) <==>
              duration <= delta * count && step <= delta && duration <= delta * MIN_BUCKETS
  {
    var d, x := duration as real, delta as real;
    MinOfThreeFits(d, x, count as real, q, MIN_BUCKETS as real);
    BoundFits(duration, delta, count);
    BoundFits(duration, delta, MIN_BUCKETS);
    StepFits(duration, step, delta);
  }

  lemma TicksFitIff(duration: nat, u: Unit, delta: int)
    requires duration > 0 && UnitOk(u) && delta > 0
    ensures TicksFit(duration, u, delta) <==> duration as real <= delta as real * MaxTicks(duration, u)
  {
    AllFit(duration, u.step, delta, BucketCount(duration), duration as real / (u.step as real));
  }

  lemma QuotientLeast(d: nat, w: nat, m: real, q: int)
    requires d > 0 && w > 0 && m > 0.0 && q < TickQuotient(d, w, m)
    ensures d as real > (w * q) as real * m
  {
    var n := TickQuotient(d, w, m);
    ProductPositive(m, w as real);
    BelowQuotient(d as real, w, m, q, n);
    Rearrange(q, m, w);
  }

  lemma BelowQuotient(d: real, w: int, m: real, q: int, n: int)
    requires m * (w as real) > 0.0 && n == Ceil(d / (m * (w as real))) && q < n
    ensures q as real * (m * (w as real)) < d
  {
    var p := m * (w as real);
    var x := d / p;
    assert x * p == d;
    CeilBounds(x);
    MulStrict(q as real, x, p);
  }

  lemma FewerDoNotFit(duration: nat, u: Unit, w: nat, m: real, q: int)
    requires duration > 0 && UnitOk(u) && w > 0 && m == MaxTicks(duration, u) && m > 0.0
    requires 0 < q < TickQuotient(duration, w, m)
    ensures !TicksFit(duration, u, w * q)
  {
    QuotientLeast(duration, w, m, q);
    PositiveProduct(w, q);
    TicksFitIff(duration, u, w * q);
  }

  /** The distance of the ticks is the least multiple of the bucket width at which they fit. */
  lemma TickDeltaLeast(duration: nat, u: Unit)
    requires duration > 0 && UnitOk(u)
    ensures TickBuckets(duration, u) > 0 && TicksFit(duration, u, TickDelta(duration, u))
    ensures forall q :: 0 < q < TickBuckets(duration, u) ==> !TicksFit(duration, u, BucketWidth(duration) * q)
  {
    TickDeltaPositive(duration, u);
    TicksFitIff(duration, u, TickDelta(duration, u));
    BucketsReach(duration);
    MaxTicksPositive(duration, u);
    var w, m := BucketWidth(duration), MaxTicks(duration, u);
    forall q | 0 < q < TickQuotient(duration, w, m) ensures !TicksFit(duration, u, w * q) {
      FewerDoNotFit(duration, u, w, m, q);
    }
  }

  function TickCount(duration: nat, u: Unit): int
    requires duration > 0 && UnitOk(u)
  {
    TickDeltaPositive(duration, u);
    duration / TickDelta(duration, u) + 1
  }

  lemma QuotientFits(a: nat, b: nat)
    requires b > 0
    ensures 0 <= (a / b) * b <= a
  {
  }

  lemma OnGrid(i: int, m: int, w: int, q: int, duration: int, last: int)
    requires 0 <= i <= m && w > 0 && q > 0 && w * q > 0 && m * (w * q) <= duration && duration <= w * last
    ensures i * (w * q) == (i * q) * w && 0 <= i * q <= last && i * (w * q) <= duration
  {
    ScaleInt(i, m, w * q);
    Regroup(i, w, q);
    CancelInt(i * q, last, w);
    ScaleInt(0, i, q);
  }

  /** Every tick is the coordinate of a bucket of the graph and does not pass the end of the contest. */
  lemma TicksHitBuckets(duration: nat, u: Unit, i: nat)
    requires duration > 0 && UnitOk(u) && i < TickCount(duration, u)
    ensures var bucket := i * TickBuckets(duration, u);
            && 0 <= bucket < BucketCount(duration)
            && i * TickDelta(duration, u) == bucket * BucketWidth(duration)
    ensures i * TickDelta(duration, u) <= duration
  {
    TickDeltaPositive(duration, u);
    BucketsReach(duration);
    QuotientFits(duration, TickDelta(duration, u));
    OnGrid(i, duration / TickDelta(duration, u), BucketWidth(duration), TickBuckets(duration, u), duration,
        BucketCount(duration) - 1);
  }

  lemma Regroup(i: int, w: int, q: int)
    ensures i * (w * q) == (i * q) * w
  {
  }

  lemma ScaleInt(a: int, b: int, c: int)
    requires a <= b && c > 0
    ensures a * c <= b * c
  {
  }

  lemma CancelInt(a: int, b: int, c: int)
    requires a * c <= b * c && c > 0
    ensures a <= b
  {
    if a > b {
      ScaleInt(b + 1, a, c);
    }
  }

  lemma AtMostThirty(duration: nat, delta: nat, m: real)
    requires delta > 0 && m <= 30.0 && duration as real <= delta as real * m
    ensures 0 <= duration / delta <= 30
  {
    Scale(m, 30.0, delta as real);
    assert m * delta as real == delta as real * m;
    assert duration as real <= (delta * 30) as real;
    QuotientFits(duration, delta);
    CancelInt(duration / delta, 30, delta);
  }

  /** There is a tick at zero and there are at most 31 of them. */
  lemma FewTicks(duration: nat, u: Unit)
    requires duration > 0 && UnitOk(u)
    ensures 1 <= TickCount(duration, u) <= 31
  {
    TickDeltaPositive(duration, u);
    MaxTicksPositive(duration, u);
    AtMostThirty(duration, TickDelta(duration, u), MaxTicks(duration, u));
  }

  // ----- counting

  datatype Submission = Submission(submittime: real, result: string)

  /** The statistics row of a result: the last one with that key. */
  function StatIndex(keys: seq<string>, result: string): Option<nat> {
    if keys == [] then None
    else if keys[|keys| - 1] == result then Some(|keys| - 1)
    else StatIndex(keys[..|keys| - 1], result)
  }

  /** The cell of the table a submission is counted in. */
  function Cell(keys: seq<string>, start: real, width: nat, u: Unit, s: Submission): Option<(nat, int)>
    requires width > 0 && UnitOk(u)
  {
    match StatIndex(keys, s.result)
    case None => None
    case Some(row) => Some((row, Bucket(s.submittime, start, width, u)))
  }

  function Count(cells: seq<Option<(nat, int)>>, row: nat, bucket: int): nat {
    if cells == [] then 0
    else Count(cells[..|cells| - 1], row, bucket) + (if cells[|cells| - 1] == Some((row, bucket)) then 1 else 0)
  }

  function RowTotal(cells: seq<Option<(nat, int)>>, row: nat, buckets: nat): nat {
    if buckets == 0 then 0 else RowTotal(cells, row, buckets - 1) + Count(cells, row, buckets - 1)
  }

  function Total(cells: seq<Option<(nat, int)>>, rows: nat, buckets: nat): nat {
    if rows == 0 then 0 else Total(cells, rows - 1, buckets) + RowTotal(cells, rows - 1, buckets)
  }

  predicate InTable(cell: Option<(nat, int)>, rows: nat, buckets: nat) {
    cell.Some? && cell.value.0 < rows && 0 <= cell.value.1 < buckets
  }

  function Counted(cells: seq<Option<(nat, int)>>, rows: nat, buckets: nat): nat {
    if cells == [] then 0
    else Counted(cells[..|cells| - 1], rows, buckets) + (if InTable(cells[|cells| - 1], rows, buckets) then 1 else 0)
  }

  lemma {:induction false} RowTotalStep(cells: seq<Option<(nat, int)>>, row: nat, buckets: nat)
    requires cells != []
    ensures var front, c := cells[..|cells| - 1], cells[|cells| - 1];
            RowTotal(cells, row, buckets) == RowTotal(front, row, buckets)
              + (if c.Some? && c.value.0 == row && 0 <= c.value.1 < buckets then 1 else 0)
  {
    if buckets > 0 {
      RowTotalStep(cells, row, buckets - 1);
    }
  }

  lemma {:induction false} TotalStep(cells: seq<Option<(nat, int)>>, rows: nat, buckets: nat)
    requires cells != []
    ensures var front, c := cells[..|cells| - 1], cells[|cells| - 1];
            Total(cells, rows, buckets) == Total(front, rows, buckets) + (if InTable(c, rows, buckets) then 1 else 0)
  {
    if rows > 0 {
      RowTotalStep(cells, rows - 1, buckets);
      TotalStep(cells, rows - 1, buckets);
    }
  }

  lemma {:induction false} EmptyTotals(rows: nat, buckets: nat)
    ensures RowTotal([], rows, buckets) == 0 && Total([], rows, buckets) == 0
    decreases rows + buckets
  {
    if buckets > 0 {
      EmptyTotals(rows, buckets - 1);
    }
    if rows > 0 {
      EmptyTotals(rows - 1, buckets);
    }
  }

  /** The counts of all rows and buckets add up to the submissions with a known result and a bucket of the graph. */
  lemma {:induction false} CountsConserved(cells: seq<Option<(nat, int)>>, rows: nat, buckets: nat)
    ensures Total(cells, rows, buckets) == Counted(cells, rows, buckets)
  {
    if cells == [] {
      EmptyTotals(rows, buckets);
    } else {
      TotalStep(cells, rows, buckets);
      CountsConserved(cells[..|cells| - 1], rows, buckets);
    }
  }

  // ----- drawing the graph

  function Cells(keys: seq<string>, start: real, width: nat, u: Unit,
                 subs: seq<Submission>): (cells: seq<Option<(nat, int)>>)
    requires width > 0 && UnitOk(u)
    ensures |cells| == |subs|
  {
    if subs == [] then []
    else Cells(keys, start, width, u, subs[..|subs| - 1]) + [Cell(keys, start, width, u, subs[|subs| - 1])]
  }

  function BucketTotal(cells: seq<Option<(nat, int)>>, rows: nat, bucket: int): nat {
    if rows == 0 then 0 else BucketTotal(cells, rows - 1, bucket) + Count(cells, rows - 1, bucket)
  }

  /** How many of the cells lie in this bucket, whatever their row. */
  function InBucket(cells: seq<Option<(nat, int)>>, rows: nat, bucket: int): nat {
    if cells == [] then 0
    else
      var c := cells[|cells| - 1];
      InBucket(cells[..|cells| - 1], rows, bucket) +
        if c.Some? && c.value.0 < rows && c.value.1 == bucket then 1 else 0
  }

  lemma {:induction false} BucketTotalStep(cells: seq<Option<(nat, int)>>, rows: nat, bucket: int)
    requires cells != []
    ensures var front, c := cells[..|cells| - 1], cells[|cells| - 1];
            BucketTotal(cells, rows, bucket) == BucketTotal(front, rows, bucket)
              + (if c.Some? && c.value.0 < rows && c.value.1 == bucket then 1 else 0)
  {
    if rows > 0 {
      BucketTotalStep(cells, rows - 1, bucket);
    }
  }

  lemma {:induction false} EmptyBucketTotal(rows: nat, bucket: int)
    ensures BucketTotal([], rows, bucket) == 0
  {
    if rows > 0 {
      EmptyBucketTotal(rows - 1, bucket);
    }
  }

  /** The total of a bucket over all rows is the number of submissions with a row that fall in it. */
  lemma {:induction false} BucketTotalCounts(cells: seq<Option<(nat, int)>>, rows: nat, bucket: int)
    ensures BucketTotal(cells, rows, bucket) == InBucket(cells, rows, bucket)
  {
    if cells == [] {
      EmptyBucketTotal(rows, bucket);
    } else {
      BucketTotalStep(cells, rows, bucket);
      BucketTotalCounts(cells[..|cells| - 1], rows, bucket);
    }
  }

  lemma CountStep(cells: seq<Option<(nat, int)>>, cell: Option<(nat, int)>, row: nat, bucket: int)
    ensures Count(cells + [cell], row, bucket) == Count(cells, row, bucket) +
              if cell == Some((row, bucket)) then 1 else 0
  {
    assert (cells + [cell])[..|cells|] == cells;
  }

  lemma {:induction false} StatIndexBound(keys: seq<string>, result: string)
    ensures StatIndex(keys, result).Some? ==>
              StatIndex(keys, result).value < |keys| && keys[StatIndex(keys, result).value] == result
    ensures StatIndex(keys, result) == None <==> result !in keys
  {
    if keys != [] {
      StatIndexBound(keys[..|keys| - 1], result);
      assert keys == keys[..|keys| - 1] + [keys[|keys| - 1]];
    }
  }

  /** The map from result to statistics row; a later row of the same key replaces an earlier one. */
  method BuildStatMap(keys: seq<string>) returns (statMap: map<string, nat>)
    ensures forall k :: k in statMap <==> StatIndex(keys, k).Some?
    ensures forall k :: k in statMap ==> StatIndex(keys, k) == Some(statMap[k])
  {
    statMap := map[];
    var i := 0;
    while i < |keys|
      invariant 0 <= i <= |keys|
      invariant forall k :: k in statMap <==> StatIndex(keys[..i], k).Some?
      invariant forall k :: k in statMap ==> StatIndex(keys[..i], k) == Some(statMap[k])
    {
      assert keys[..i + 1][..i] == keys[..i];
      statMap := statMap[keys[i] := i];
      i := i + 1;
    }
    assert keys[..i] == keys;
  }

  /** Every entry of the table is the count of its cell. */
  ghost predicate Filled(values: array2<nat>, cells: seq<Option<(nat, int)>>)
    reads values
  {
    forall r, b :: 0 <= r < values.Length0 && 0 <= b < values.Length1 ==> values[r, b] == Count(cells, r, b)
  }

  ghost function RowSum(values: array2<nat>, row: nat, buckets: nat): nat
    requires row < values.Length0 && buckets <= values.Length1
    reads values
  {
    if buckets == 0 then 0 else RowSum(values, row, buckets - 1) + values[row, buckets - 1]
  }

  /** The sum of all entries in the first rows of the table. */
  ghost function TableSum(values: array2<nat>, rows: nat): nat
    requires rows <= values.Length0
    reads values
  {
    if rows == 0 then 0 else TableSum(values, rows - 1) + RowSum(values, rows - 1, values.Length1)
  }

  lemma {:induction false} RowSumIsTotal(values: array2<nat>, cells: seq<Option<(nat, int)>>, row: nat, buckets: nat)
    requires Filled(values, cells) && row < values.Length0 && buckets <= values.Length1
    ensures RowSum(values, row, buckets) == RowTotal(cells, row, buckets)
  {
    if buckets > 0 {
      RowSumIsTotal(values, cells, row, buckets - 1);
    }
  }

  lemma {:induction false} TableSumIsTotal(values: array2<nat>, cells: seq<Option<(nat, int)>>, rows: nat)
    requires Filled(values, cells) && rows <= values.Length0
    ensures TableSum(values, rows) == Total(cells, rows, values.Length1)
  {
    if rows > 0 {
      RowSumIsTotal(values, cells, rows - 1, values.Length1);
      TableSumIsTotal(values, cells, rows - 1);
    }
  }

  /** The number of submissions with a known result and a bucket of the graph. */
  function Graphed(keys: seq<string>, start: real, width: nat, u: Unit, subs: seq<Submission>, buckets: nat): nat
    requires width > 0 && UnitOk(u)
  {
    if subs == [] then 0
    else
      var s := subs[|subs| - 1];
      Graphed(keys, start, width, u, subs[..|subs| - 1], buckets)
      + (if s.result in keys && 0 <= Bucket(s.submittime, start, width, u) < buckets then 1 else 0)
  }

  lemma {:induction false} CountedIsGraphed(keys: seq<string>, start: real, width: nat, u: Unit, subs: seq<Submission>,
                                            buckets: nat)
    requires width > 0 && UnitOk(u)
    ensures Counted(Cells(keys, start, width, u, subs), |keys|, buckets) ==
              Graphed(keys, start, width, u, subs, buckets)
  {
    if subs != [] {
      CountedIsGraphed(keys, start, width, u, subs[..|subs| - 1], buckets);
      StatIndexBound(keys, subs[|subs| - 1].result);
    }
  }

  /** The entries of a filled table add up to the submissions with a known result and a bucket of the graph. */
  lemma TableConserves(values: array2<nat>, keys: seq<string>, start: real, width: nat, u: Unit, subs: seq<Submission>)
    requires width > 0 && UnitOk(u) && values.Length0 == |keys| && Filled(values, Cells(keys, start, width, u, subs))
    ensures TableSum(values, |keys|) == Graphed(keys, start, width, u, subs, values.Length1)
  {
    TableSumIsTotal(values, Cells(keys, start, width, u, subs), |keys|);
    CountsConserved(Cells(keys, start, width, u, subs), |keys|, values.Length1);
    CountedIsGraphed(keys, start, width, u, subs, values.Length1);
  }

  /** Counts one submission in the cell of its result and bucket, in place. */
  method CountOne(statMap: map<string, nat>, keys: seq<string>, start: real, width: nat, u: Unit, s: Submission,
                  values: array2<nat>, ghost cells: seq<Option<(nat, int)>>)
    requires width > 0 && UnitOk(u) && values.Length0 == |keys| && Filled(values, cells)
    requires forall k :: k in statMap <==> StatIndex(keys, k).Some?
    requires forall k :: k in statMap ==> StatIndex(keys, k) == Some(statMap[k])
    modifies values
    ensures Filled(values, cells + [Cell(keys, start, width, u, s)])
  {
    ghost var cell := Cell(keys, start, width, u, s);
    StatIndexBound(keys, s.result);
    forall r: nat, b: int ensures Count(cells + [cell], r, b) == Count(cells, r, b) +
        if cell == Some((r, b)) then 1 else 0 {
      CountStep(cells, cell, r, b);
    }
    var bucket := Bucket(s.submittime, start, width, u);
    if s.result in statMap && 0 <= bucket < values.Length1 {
      var row := statMap[s.result];
      values[row, bucket] := values[row, bucket] + 1;
    }
  }

  /** Counts every submission; the table then holds each that has a known result and a bucket once. */
  method CountSubmissions(keys: seq<string>, start: real, width: nat, u: Unit, subs: seq<Submission>,
                          values: array2<nat>)
    requires width > 0 && UnitOk(u) && values.Length0 == |keys|
    requires forall r, b :: 0 <= r < values.Length0 && 0 <= b < values.Length1 ==> values[r, b] == 0
    modifies values
    ensures Filled(values, Cells(keys, start, width, u, subs))
    ensures TableSum(values, |keys|) == Graphed(keys, start, width, u, subs, values.Length1)
  {
    var statMap := BuildStatMap(keys);
    var i := 0;
    while i < |subs|
      invariant 0 <= i <= |subs| && Filled(values, Cells(keys, start, width, u, subs[..i]))
    {
      assert subs[..i + 1][..i] == subs[..i];
      CountOne(statMap, keys, start, width, u, subs[i], values, Cells(keys, start, width, u, subs[..i]));
      i := i + 1;
    }
    assert subs[..i] == subs;
    TableConserves(values, keys, start, width, u, subs);
  }

  /** The largest number of submissions in one bucket, but at least one. */
  method MaxPerBucket(values: array2<nat>, ghost cells: seq<Option<(nat, int)>>) returns (most: nat)
    requires Filled(values, cells)
    ensures most >= 1 && forall b :: 0 <= b < values.Length1 ==> BucketTotal(cells, values.Length0, b) <= most
    ensures most == 1 || exists b :: 0 <= b < values.Length1 && BucketTotal(cells, values.Length0, b) == most
  {
    most := 1;
    var bucket := 0;
    while bucket < values.Length1
      invariant 0 <= bucket <= values.Length1 && most >= 1
      invariant forall b :: 0 <= b < bucket ==> BucketTotal(cells, values.Length0, b) <= most
      invariant most == 1 || exists b :: 0 <= b < bucket && BucketTotal(cells, values.Length0, b) == most
    {
      var sum := 0;
      var row := 0;
      while row < values.Length0
        invariant 0 <= row <= values.Length0 && sum == BucketTotal(cells, row, bucket)
      {
        sum := sum + values[row, bucket];
        row := row + 1;
      }
      if sum > most {
        most := sum;
      }
      bucket := bucket + 1;
    }
  }

  datatype Axis = Axis(unit: Unit, bucketCount: nat, width: nat, tickValues: seq<int>)

  /** The axis of the graph: its unit, the buckets with coordinates i * width, and the ticks. */
  method MakeAxis(seconds: real) returns (axis: Axis)
    requires seconds > 0.0
    ensures exists k: nat :: Coarsest(seconds, k) && axis.unit == UNITS[k]
    ensures UnitOk(axis.unit) && axis.width > 0 && 2 <= axis.bucketCount <= MAX_BUCKETS
    ensures axis.bucketCount == Min(Steps(seconds, axis.unit) + 1, 301)
    ensures 0 < Steps(seconds, axis.unit) <= axis.width * (axis.bucketCount - 1)
    ensures 1 <= |axis.tickValues| <= 31 && axis.tickValues[0] == 0
    ensures forall i :: 0 <= i < |axis.tickValues| ==> OnBucket(axis, axis.tickValues[i])
    ensures forall i :: 0 <= i < |axis.tickValues| ==> axis.tickValues[i] <= Steps(seconds, axis.unit)
    ensures forall start, t :: start <= t <= start + seconds ==>
              0 <= Bucket(t, start, axis.width, axis.unit) < axis.bucketCount
    ensures var d := Steps(seconds, axis.unit);
            var delta := TickDelta(d, axis.unit);
            && TicksFit(d, axis.unit, delta) && |axis.tickValues| == d / delta + 1
            && forall i :: 0 <= i < |axis.tickValues| ==> axis.tickValues[i] == i * delta
  {
    var k := ChooseUnit(seconds);
    var u := UNITS[k];
    StepsBound(seconds, u);
    var duration := Steps(seconds, u);
    BucketsReach(duration);
    var delta := TickDelta(duration, u);
    FewTicks(duration, u);
    TickDeltaLeast(duration, u);
    var ticks := TickCount(duration, u);
    axis := Axis(u, BucketCount(duration), BucketWidth(duration), []);
    var values := [];
    var i := 0;
    while i < ticks
      invariant 0 <= i <= ticks && |values| == i
      invariant forall j :: 0 <= j < i ==> values[j] == j * delta && values[j] <= duration && OnBucket(axis, values[j])
    {
      TicksHitBuckets(duration, u, i);
      assert IsBucket(axis, i * TickBuckets(duration, u), i * delta);
      values := values + [i * delta];
      i := i + 1;
    }
    axis := axis.(tickValues := values);
    forall j | 0 <= j < |values| ensures OnBucket(axis, values[j]) {
      var b :| IsBucket(axis.(tickValues := []), b, values[j]);
      assert IsBucket(axis, b, values[j]);
    }
    forall start, t | start <= t <= start + seconds
      ensures 0 <= Bucket(t, start, axis.width, axis.unit) < axis.bucketCount
    {
      ContestFitsBuckets(t, start, seconds, u);
    }
  }

  predicate IsBucket(axis: Axis, b: int, value: int) {
    0 <= b < axis.bucketCount && value == b * axis.width
  }

  /** The value is the coordinate of some bucket. */
  ghost predicate OnBucket(axis: Axis, value: int) {
    exists b :: IsBucket(axis, b, value)
  }
}
