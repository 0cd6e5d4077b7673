/** Trend chart buckets and the merge of grouped detection counts into them. */
module TrendBuckets {
  import opened Calendar
  import opened Counting
  import opened Defects
  import opened Wrappers

  ghost predicate Increasing(buckets: seq<Date>) {
    && (forall i :: 0 <= i < |buckets| ==> Valid(buckets[i]))
    && forall i, j :: 0 <= i < j < |buckets| ==> Ordinal(buckets[i]) < Ordinal(buckets[j])
  }

  /** A bucket start no earlier than the one holding `start` and no later than the one holding `end`. */
  ghost predicate InSpan(g: Granularity, start: Date, end: Date, b: Date)
    requires Valid(start) && Valid(end)
  {
    Valid(b) && IsBucketStart(g, b) && Ordinal(Trunc(g, start)) <= Ordinal(b) <= Ordinal(Trunc(g, end))
  }

  function NextStart(g: Granularity, b: Date): (n: Date)
    requires Valid(b) && IsBucketStart(g, b)
    ensures Valid(n)
  {
    OrdinalIsPositive(b);
    OrdinalIsPositive(Date(b.year, b.month, DaysInMonth(b.year, b.month)));
    match g
    case Day => AddDays(b, 1)
    case Week => AddDays(b, 7)
    case Month => AddDays(Date(b.year, b.month, DaysInMonth(b.year, b.month)), 1)
  }

  /** The loops' step reaches the very next bucket start: none is skipped. */
  lemma NextStartIsNext(g: Granularity, b: Date)
    requires Valid(b) && IsBucketStart(g, b)
    ensures IsBucketStart(g, NextStart(g, b)) && Ordinal(b) < Ordinal(NextStart(g, b))
    ensures forall c :: Valid(c) && IsBucketStart(g, c) && Ordinal(b) < Ordinal(c) ==>
            Ordinal(NextStart(g, b)) <= Ordinal(c)
  {
    match g
    case Day =>
    case Week => NextWeek(b);
    case Month => NextMonth(b);
  }

  lemma NextWeek(b: Date)
    requires Valid(b) && IsBucketStart(Week, b)
    ensures IsBucketStart(Week, NextStart(Week, b)) && Ordinal(b) < Ordinal(NextStart(Week, b))
    ensures forall c :: Valid(c) && IsBucketStart(Week, c) && Ordinal(b) < Ordinal(c) ==>
            Ordinal(NextStart(Week, b)) <= Ordinal(c)
  {
    hide Ordinal, Valid;
  }

  lemma NextMonth(b: Date)
    requires Valid(b) && IsBucketStart(Month, b)
    ensures IsBucketStart(Month, NextStart(Month, b)) && Ordinal(b) < Ordinal(NextStart(Month, b))
    ensures forall c :: Valid(c) && IsBucketStart(Month, c) && Ordinal(b) < Ordinal(c) ==>
            Ordinal(NextStart(Month, b)) <= Ordinal(c)
  {
    hide Ordinal;
    var last := Date(b.year, b.month, DaysInMonth(b.year, b.month));
    var n := if b.month < 12 then Date(b.year, b.month + 1, 1) else Date(b.year + 1, 1, 1);
    assert Next(last) == n;
    NextIsSuccessor(last);
    OrdinalIsLexicographic(n, NextStart(Month, b));
    OrdinalIsLexicographic(b, n);
    forall c | Valid(c) && IsBucketStart(Month, c) && Ordinal(b) < Ordinal(c) ensures Ordinal(n) <= Ordinal(c) {
      OrdinalIsLexicographic(b, c);
      OrdinalIsLexicographic(c, n);
    }
  }

  /** The list is exactly the bucket starts of the span, each once, in order, whatever the two dates. */
  method GenerateBuckets(start: Date, end: Date, g: Granularity) returns (buckets: seq<Date>)
    requires Valid(start) && Valid(end)
    ensures Increasing(buckets)
    ensures forall b :: b in buckets <==> InSpan(g, start, end, b)
  {
    hide Ordinal;
    if g.Day? {
      buckets := DayBuckets(start, end);
      return;
    }
    var current, last := Trunc(g, start), Trunc(g, end);
    TruncIsLastStart(g, start);
    buckets := [];
    while Ordinal(current) <= Ordinal(last)
      invariant Valid(current) && IsBucketStart(g, current)
      invariant Increasing(buckets)
      invariant forall b :: b in buckets ==> InSpan(g, start, end, b) && Ordinal(b) < Ordinal(current)
      invariant forall b :: InSpan(g, start, end, b) && Ordinal(b) < Ordinal(current) ==> b in buckets
      invariant Ordinal(Trunc(g, start)) <= Ordinal(current)
      decreases Ordinal(last) - Ordinal(current)
    {
      var next := NextStart(g, current);
      NextStartIsNext(g, current);
      forall b | InSpan(g, start, end, b) && Ordinal(b) < Ordinal(next) ensures b in buckets + [current] {
        if Ordinal(b) >= Ordinal(current) { OrdinalIsLexicographic(b, current); }
      }
      buckets := buckets + [current];
      current := next;
    }
  }

  method DayBuckets(start: Date, end: Date) returns (buckets: seq<Date>)
    requires Valid(start) && Valid(end)
    ensures Increasing(buckets)
    ensures forall b :: b in buckets <==> InSpan(Day, start, end, b)
  {
    hide Ordinal;
    OrdinalIsPositive(start);
    var span := Ordinal(end) - Ordinal(start);
    buckets := [];
    var offset := 0;
    while offset <= span
      invariant 0 <= offset && |buckets| == offset && (span >= -1 ==> offset <= span + 1) && (span < 0 ==> offset == 0)
      invariant forall i :: 0 <= i < offset ==> Valid(buckets[i]) && Ordinal(buckets[i]) == Ordinal(start) + i
    {
      buckets := buckets + [AddDays(start, offset)];
      offset := offset + 1;
    }
    forall b | InSpan(Day, start, end, b) ensures b in buckets {
      OrdinalIsLexicographic(b, buckets[Ordinal(b) - Ordinal(start)]);
    }
  }

  /** Every bucket of the span holds a day of the range exactly when the range runs forward, or spans no bucket at
      all. */
  lemma {:induction false} SpanIsImageExactlyWhen(g: Granularity, start: Date, end: Date)
    requires Valid(start) && Valid(end)
    ensures (forall b :: InSpan(g, start, end, b) <==> IsImage(g, start, end, b))
       <==> Ordinal(start) <= Ordinal(end) || Ordinal(Trunc(g, start)) > Ordinal(Trunc(g, end))
  {
    hide Ordinal, Trunc, IsBucketStart;
    forall b ensures IsImage(g, start, end, b) ==> InSpan(g, start, end, b) {
      if IsImage(g, start, end, b) {
        var d :| Valid(d) && Ordinal(start) <= Ordinal(d) <= Ordinal(end) && Trunc(g, d) == b;
        TruncIsLastStart(g, d);
        TruncMonotone(g, start, d);
        TruncMonotone(g, d, end);
      }
    }
    if Ordinal(start) <= Ordinal(end) {
      forall b | InSpan(g, start, end, b) ensures IsImage(g, start, end, b) { SpanIsCovered(g, start, end, b); }
    } else if Ordinal(Trunc(g, start)) <= Ordinal(Trunc(g, end)) {
      TruncIsLastStart(g, start);
      assert InSpan(g, start, end, Trunc(g, start)) && !IsImage(g, start, end, Trunc(g, start));
    }
  }

  ghost predicate IsImage(g: Granularity, start: Date, end: Date, b: Date)
    requires Valid(start) && Valid(end)
  {
    exists d :: Valid(d) && Ordinal(start) <= Ordinal(d) <= Ordinal(end) && Trunc(g, d) == b
  }

  lemma SpanIsCovered(g: Granularity, start: Date, end: Date, b: Date)
    requires Valid(start) && Valid(end) && Ordinal(start) <= Ordinal(end) && InSpan(g, start, end, b)
    ensures IsImage(g, start, end, b)
  {
    hide Ordinal, Trunc, IsBucketStart;
    TruncIsLastStart(g, start);
    TruncIsLastStart(g, end);
    if Ordinal(b) >= Ordinal(start) {
      TruncFixesStarts(g, b);
      assert Trunc(g, b) == b;
    } else {
      OrdinalIsLexicographic(b, Trunc(g, start));
      assert Trunc(g, start) == b;
    }
  }

  // ---- counts per bucket ----

  /** A detection joined with its image; instants are microseconds since the start of day 1, in UTC. */
  datatype Row = Row(isReported: bool, imageCompleted: bool, processedAt: Option<nat>, defectType: DefectType)

  const DAY_MICROS: nat := 86_400_000_000

  function DateOf(t: nat): (d: Date)
    ensures Valid(d)
  {
    OfOrdinal(t / DAY_MICROS + 1)
  }

  predicate Selected(r: Row, from: nat) {
    r.isReported && r.imageCompleted && r.processedAt.Some? && r.processedAt.value >= from
  }

  predicate FallsIn(r: Row, from: nat, g: Granularity, b: Date) {
    Selected(r, from) && Trunc(g, DateOf(r.processedAt.value)) == b
  }

  function CountCell(rows: seq<Row>, from: nat, g: Granularity, b: Date, ty: DefectType): nat {
    Count(rows, (r: Row) => FallsIn(r, from, g, b) && r.defectType == ty)
  }

  function CountBucket(rows: seq<Row>, from: nat, g: Granularity, b: Date): nat {
    Count(rows, (r: Row) => FallsIn(r, from, g, b))
  }

  /** One line of the grouped query. */
  datatype Group = Group(bucket: Date, defectType: DefectType, count: nat)

  /** The query's result, in any order: each non-empty (bucket, type) cell once, with its count. */
  ghost predicate IsGrouping(groups: seq<Group>, rows: seq<Row>, from: nat, g: Granularity) {
    && (forall i :: 0 <= i < |groups| ==>
          groups[i].count == CountCell(rows, from, g, groups[i].bucket, groups[i].defectType) > 0)
    && (forall i, j :: 0 <= i < j < |groups| ==>
          groups[i].bucket != groups[j].bucket || groups[i].defectType != groups[j].defectType)
    && (forall b, ty :: CountCell(rows, from, g, b, ty) > 0 ==> Listed(groups, b, ty))
  }

  ghost predicate Listed(groups: seq<Group>, b: Date, ty: DefectType) {
    exists k :: 0 <= k < |groups| && groups[k].bucket == b && groups[k].defectType == ty
  }

  type Table = map<Date, map<DefectType, nat>>

  function Cell(t: Table, b: Date, ty: DefectType): nat {
    if b in t && ty in t[b] then t[b][ty] else 0
  }

  datatype Point = Point(bucket: Date, total: nat, byType: map<DefectType, nat>)

  lemma ListedGrows(groups: seq<Group>, i: nat, b: Date, ty: DefectType)
    requires i < |groups|
    ensures Listed(groups[..i + 1], b, ty) <==>
            Listed(groups[..i], b, ty) || (groups[i].bucket == b && groups[i].defectType == ty)
  {
    var more := groups[..i + 1];
    if Listed(groups[..i], b, ty) {
      var k :| 0 <= k < i && groups[..i][k].bucket == b && groups[..i][k].defectType == ty;
      assert more[k] == groups[k];
    }
    assert more[i] == groups[i];
    assert forall k :: 0 <= k < i ==> more[k] == groups[..i][k];
  }

  method FillTable(groups: seq<Group>, ghost rows: seq<Row>, ghost from: nat, ghost g: Granularity)
        returns (table: Table)
    requires IsGrouping(groups, rows, from, g)
    ensures forall b, ty :: Cell(table, b, ty) == CountCell(rows, from, g, b, ty)
  {
    hide CountCell, Listed;
    table := map[];
    for i := 0 to |groups|
      invariant forall k :: 0 <= k < i ==> Cell(table, groups[k].bucket, groups[k].defectType) == groups[k].count
      invariant forall b, ty :: Cell(table, b, ty) > 0 ==> Listed(groups[..i], b, ty)
    {
      var r := groups[i];
      var inner := if r.bucket in table then table[r.bucket] else map[];
      ghost var before := table;
      table := table[r.bucket := inner[r.defectType := r.count]];
      forall b, ty | Cell(table, b, ty) > 0 ensures Listed(groups[..i + 1], b, ty) {
        if b != r.bucket || ty != r.defectType { assert Cell(before, b, ty) > 0; }
        ListedGrows(groups, i, b, ty);
      }
    }
    assert groups[..|groups|] == groups;
    forall b, ty ensures Cell(table, b, ty) == CountCell(rows, from, g, b, ty) {
      ListedCell(groups, b, ty);
    }
  }

  lemma ListedCell(groups: seq<Group>, b: Date, ty: DefectType)
    ensures Listed(groups, b, ty) ==>
            exists k :: 0 <= k < |groups| && groups[k].bucket == b && groups[k].defectType == ty
  {
  }

  /** Trend points: the generated buckets in order, each carrying the counts of the detections that fall in it. */
  method ComputeTrends(groups: seq<Group>, ghost rows: seq<Row>, from: nat, now: nat, g: Granularity)
        returns (points: seq<Point>)
    requires IsGrouping(groups, rows, from, g)
    ensures Increasing(BucketsOf(points))
    ensures forall b :: b in BucketsOf(points) <==> InSpan(g, DateOf(from), DateOf(now), b)
    ensures forall i :: 0 <= i < |points| ==> points[i].total == CountBucket(rows, from, g, points[i].bucket)
    ensures forall i, ty :: 0 <= i < |points| ==>
            At(points[i].byType, ty) == CountCell(rows, from, g, points[i].bucket, ty)
    ensures Total(points) == Count(rows, (r: Row) => NotAfterBucketOf(r, from, now, g))
  {
    hide CountCell, CountBucket, InSpan, Increasing, DateOf;
    var table := FillTable(groups, rows, from, g);
    var buckets := GenerateBuckets(DateOf(from), DateOf(now), g);
    points := [];
    for i := 0 to |buckets|
      invariant |points| == i && forall k :: 0 <= k < i ==> points[k].bucket == buckets[k]
      invariant forall k :: 0 <= k < i ==> points[k].total == CountBucket(rows, from, g, points[k].bucket)
      invariant forall k, ty :: 0 <= k < i ==>
                At(points[k].byType, ty) == CountCell(rows, from, g, points[k].bucket, ty)
    {
      var cells := if buckets[i] in table then table[buckets[i]] else map[];
      var total := SumCells(cells, table, rows, from, g, buckets[i]);
      points := points + [Point(buckets[i], total, cells)];
    }
    assert BucketsOf(points) == buckets;
    TotalsConserveDetections(points, rows, from, now, g);
  }

  method SumCells(cells: map<DefectType, nat>, ghost table: Table, ghost rows: seq<Row>, ghost from: nat,
                  ghost g: Granularity, ghost b: Date)
      returns (total: nat)
    requires cells == if b in table then table[b] else map[]
    requires forall ty :: Cell(table, b, ty) == CountCell(rows, from, g, b, ty)
    ensures total == CountBucket(rows, from, g, b)
    ensures forall ty :: At(cells, ty) == CountCell(rows, from, g, b, ty)
  {
    hide CountCell, CountBucket;
    assert forall ty :: At(cells, ty) == Cell(table, b, ty);
    BucketIsSumOfCells(rows, from, g, b);
    total := SumValues(cells);
  }

  function BucketsOf(points: seq<Point>): (bs: seq<Date>)
    ensures |bs| == |points| && forall i :: 0 <= i < |bs| ==> bs[i] == points[i].bucket
  {
    seq(|points|, i requires 0 <= i < |points| => points[i].bucket)
  }

  lemma {:induction false} BucketIsSumOfCells(rows: seq<Row>, from: nat, g: Granularity, b: Date)
    ensures CountBucket(rows, from, g, b)
         == CountCell(rows, from, g, b, MissingHole) + CountCell(rows, from, g, b, MouseBite)
          + CountCell(rows, from, g, b, OpenCircuit)
          + CountCell(rows, from, g, b, Short) + CountCell(rows, from, g, b, Spur)
          + CountCell(rows, from, g, b, SpuriousCopper)
  {
    hide FallsIn;
    if rows != [] { BucketIsSumOfCells(rows[1..], from, g, b); }
  }

  function Total(points: seq<Point>): nat {
    if points == [] then 0 else Total(points[..|points| - 1]) + points[|points| - 1].total
  }

  predicate FallsInAny(r: Row, from: nat, g: Granularity, buckets: seq<Date>) {
    Selected(r, from) && Trunc(g, DateOf(r.processedAt.value)) in buckets
  }

  lemma {:induction false} CountSplit(rows: seq<Row>, from: nat, g: Granularity, buckets: seq<Date>, b: Date)
    requires b !in buckets
    ensures Count(rows, (r: Row) => FallsInAny(r, from, g, buckets + [b]))
         == Count(rows, (r: Row) => FallsInAny(r, from, g, buckets)) + CountBucket(rows, from, g, b)
  {
    if rows != [] { CountSplit(rows[1..], from, g, buckets, b); }
  }

  lemma {:induction false} CountNone(rows: seq<Row>, from: nat, g: Granularity)
    ensures Count(rows, (r: Row) => FallsInAny(r, from, g, [])) == 0
  {
    if rows != [] { CountNone(rows[1..], from, g); }
  }

  lemma {:induction false} TotalCountsEachOnce(points: seq<Point>, rows: seq<Row>, from: nat, g: Granularity)
    requires Increasing(BucketsOf(points))
    requires forall i :: 0 <= i < |points| ==> points[i].total == CountBucket(rows, from, g, points[i].bucket)
    ensures Total(points) == Count(rows, (r: Row) => FallsInAny(r, from, g, BucketsOf(points)))
  {
    hide CountBucket, FallsInAny;
    if points == [] {
      CountNone(rows, from, g);
      assert BucketsOf(points) == [];
    } else {
      var n := |points| - 1;
      var buckets := BucketsOf(points[..n]);
      assert BucketsOf(points) == buckets + [points[n].bucket];
      assert forall i :: 0 <= i < n ==> buckets[i] == BucketsOf(points)[i];
      assert points[n].bucket == BucketsOf(points)[n];
      TotalCountsEachOnce(points[..n], rows, from, g);
      CountSplit(rows, from, g, buckets, points[n].bucket);
    }
  }

  predicate NotAfterBucketOf(r: Row, from: nat, now: nat, g: Granularity) {
    Selected(r, from) && Ordinal(Trunc(g, DateOf(r.processedAt.value))) <= Ordinal(Trunc(g, DateOf(now)))
  }

  lemma SelectedIsCovered(r: Row, from: nat, now: nat, g: Granularity, buckets: seq<Date>)
    requires forall b :: b in buckets <==> InSpan(g, DateOf(from), DateOf(now), b)
    ensures FallsInAny(r, from, g, buckets) <==> NotAfterBucketOf(r, from, now, g)
  {
    hide Ordinal, Trunc, IsBucketStart;
    if Selected(r, from) {
      var d := DateOf(r.processedAt.value);
      TruncMonotone(g, DateOf(from), d);
      TruncIsLastStart(g, d);
      assert Trunc(g, d) in buckets <==> InSpan(g, DateOf(from), DateOf(now), Trunc(g, d));
    }
  }

  /** No detection is lost or counted twice: the totals add up to the selected rows not past the current bucket. */
  lemma {:induction false} TotalsConserveDetections(points: seq<Point>, rows: seq<Row>, from: nat, now: nat,
                                                    g: Granularity)
    requires Increasing(BucketsOf(points))
    requires forall b :: b in BucketsOf(points) <==> InSpan(g, DateOf(from), DateOf(now), b)
    requires forall i :: 0 <= i < |points| ==> points[i].total == CountBucket(rows, from, g, points[i].bucket)
    ensures Total(points) == Count(rows, (r: Row) => NotAfterBucketOf(r, from, now, g))
    ensures (forall i :: 0 <= i < |rows| && rows[i].processedAt.Some? ==> rows[i].processedAt.value <= now)
        ==> Total(points) == Count(rows, (r: Row) =>
              r.isReported && r.imageCompleted && r.processedAt.Some? && r.processedAt.value >= from)
  {
    hide InSpan, FallsInAny, NotAfterBucketOf, CountBucket;
    var buckets := BucketsOf(points);
    TotalCountsEachOnce(points, rows, from, g);
    var inAny := (r: Row) => FallsInAny(r, from, g, buckets);
    var notAfter := (r: Row) => NotAfterBucketOf(r, from, now, g);
    forall i | 0 <= i < |rows| ensures inAny(rows[i]) == notAfter(rows[i]) {
      SelectedIsCovered(rows[i], from, now, g, buckets);
    }
    SameCount(rows, inAny, notAfter);
    if forall i :: 0 <= i < |rows| && rows[i].processedAt.Some? ==> rows[i].processedAt.value <= now {
      var selected := (r: Row) =>
        r.isReported && r.imageCompleted && r.processedAt.Some? && r.processedAt.value >= from;
      forall i | 0 <= i < |rows| ensures selected(rows[i]) == notAfter(rows[i]) {
        PastRowsCount(rows[i], from, now, g);
      }
      SameCount(rows, selected, notAfter);
    }
  }

  lemma PastRowsCount(r: Row, from: nat, now: nat, g: Granularity)
    requires r.processedAt.Some? ==> r.processedAt.value <= now
    ensures Selected(r, from) == NotAfterBucketOf(r, from, now, g)
  {
    if Selected(r, from) { TruncMonotone(g, DateOf(r.processedAt.value), DateOf(now)); }
  }

  /** Days are counted in UTC, from day 1. */
  lemma DateOfCountsDays(t: nat)
    ensures Ordinal(DateOf(t)) == t / (24 * 60 * 60 * 1_000_000) + 1
  {
  }

  /** The condition of the query for one cell, with the bucket read as the last start on or before the day. */
  ghost predicate InCell(r: Row, from: nat, g: Granularity, b: Date, ty: DefectType) {
    && r.isReported && r.imageCompleted && r.defectType == ty
    && r.processedAt.Some? && r.processedAt.value >= from && IsLastStart(g, DateOf(r.processedAt.value), b)
  }

  /** A cell counts the reported detections of its type, on completed images processed since the start of the period,
      whose day falls into its bucket. */
  lemma {:induction false} CellCountsItsDetections(rows: seq<Row>, from: nat, g: Granularity, b: Date, ty: DefectType)
    ensures CountCell(rows, from, g, b, ty) == Count(rows, (r: Row) => InCell(r, from, g, b, ty))
  {
    var cell := (r: Row) => FallsIn(r, from, g, b) && r.defectType == ty;
    var meant := (r: Row) => InCell(r, from, g, b, ty);
    forall i | 0 <= i < |rows| ensures cell(rows[i]) == meant(rows[i]) {
      if rows[i].processedAt.Some? { LastStartIsTrunc(g, DateOf(rows[i].processedAt.value), b); }
    }
    SameCount(rows, cell, meant);
  }

  lemma LastStartIsTrunc(g: Granularity, d: Date, b: Date)
    requires Valid(d)
    ensures IsLastStart(g, d, b) <==> b == Trunc(g, d)
  {
    hide Ordinal, Trunc, IsBucketStart;
    TruncIsLastStart(g, d);
    if IsLastStart(g, d, b) { OrdinalIsLexicographic(b, Trunc(g, d)); }
  }
}
