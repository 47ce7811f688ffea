/** Chart series (telemetry.py plan_range and series): buckets over a time range, entities
    averaged within a bucket before they are combined. Times are microseconds, spans and steps
    seconds. */
module Series {
  import opened Options
  import opened Telemetry

  const SECOND := 1_000_000
  const STEPS := [60, 300, 600, 900, 1800, 3600, 7200, 21600, 43200]

  function SpanOf(name: string): int {
    if name == "1h" then 3600
    else if name == "6h" then 6 * 3600
    else if name == "7d" then 7 * 86400
    else if name == "30d" then 30 * 86400
    else 86400
  }

  function MinuteResolution(span: int): bool { span <= 48 * 3600 }

  /** The first step that gives at most 200 points and is no finer than the rows. */
  function PickStep(steps: seq<int>, span: int, floor: int): (step: int)
    requires steps != []
    ensures step in steps
  {
    if |steps| == 1 || Fits(steps[0], span, floor) then steps[0] else PickStep(steps[1..], span, floor)
  }

  predicate Fits(step: int, span: int, floor: int) { 200 * step >= span && step >= floor }

  function FloorOf(span: int): int { if MinuteResolution(span) then 60 else 3600 }

  function StepOf(name: string): (step: int)
    ensures step > 0
  {
    PickStep(STEPS, SpanOf(name), FloorOf(SpanOf(name)))
  }

  lemma {:induction false} FirstThatFits(steps: seq<int>, span: int, floor: int, k: nat)
    requires k < |steps| && Fits(steps[k], span, floor)
    requires forall i :: 0 <= i < k ==> !Fits(steps[i], span, floor)
    ensures PickStep(steps, span, floor) == steps[k]
  {
    if k > 0 { FirstThatFits(steps[1..], span, floor, k - 1); }
  }

  lemma StepForSpan(span: int)
    requires span in {3600, 6 * 3600, 86400, 7 * 86400, 30 * 86400}
    ensures PickStep(STEPS, span, FloorOf(span)) ==
            if span == 3600 then 60 else if span == 6 * 3600 then 300 else if span == 86400 then 600
            else if span == 7 * 86400 then 3600 else 21600
  {
    FirstThatFits(STEPS, span, FloorOf(span),
      if span == 3600 then 0 else if span == 6 * 3600 then 1 else if span == 86400 then 2
      else if span == 7 * 86400 then 5 else 7);
  }

  lemma StepDividesSpan(name: string)
    ensures SpanOf(name) == SpanOf(name) / StepOf(name) * StepOf(name)
  {
    var span, step := SpanOf(name), StepOf(name);
    StepForSpan(span);
    if span == 3600 { Quotient(60, 60); }
    else if span == 6 * 3600 { Quotient(72, 300); }
    else if span == 86400 { Quotient(144, 600); }
    else if span == 7 * 86400 { Quotient(168, 3600); }
    else { Quotient(120, 21600); }
  }

  lemma Quotient(n: int, step: int)
    requires step > 0
    ensures n * step / step == n
  {
    QuotientUnique(n * step, n, 0, step);
  }

  // ------------------------------------------------- buckets

  /** The bucket of a time: its start in seconds. */
  function BucketOf(ts: int, step: int): int
    requires step > 0
  {
    ts / (step * SECOND) * step
  }

  /** A bucket starts on a multiple of its step in seconds and holds the times of the step after it. */
  lemma BucketIs(ts: int, step: int)
    requires step > 0
    ensures BucketOf(ts, step) * 1_000_000 <= ts < (BucketOf(ts, step) + step) * 1_000_000
    ensures BucketOf(ts, step) % step == 0
  {
    var d := step * SECOND;
    var q := ts / d;
    assert ts == q * d + ts % d;
    assert BucketOf(ts, step) * 1_000_000 == q * d && (BucketOf(ts, step) + step) * 1_000_000 == q * d + d;
    MultipleOf(q, step);
  }

  lemma MultipleOf(q: int, step: int)
    requires step > 0
    ensures q * step % step == 0
  {
    QuotientUnique(q * step, q, 0, step);
  }

  function FirstBucket(end: int, span: int, step: int): int
    requires step > 0
  {
    BucketOf(end - span * SECOND, step) + step
  }

  /** The points series emits: first, first + step, ... up to last. */
  function Points(first: int, last: int, step: int): (ps: seq<int>)
    requires step > 0
    decreases last - first
  {
    if first > last then [] else [first] + Points(first + step, last, step)
  }

  lemma {:induction false} PointsAre(first: int, n: nat, step: int)
    requires step > 0
    ensures var ps := Points(first, first + (n - 1) * step, step);
            |ps| == n && forall i :: 0 <= i < n ==> ps[i] == first + i * step
    decreases n
  {
    if n > 0 {
      PointsAre(first + step, n - 1, step);
      assert first + step + (n - 1 - 1) * step == first + (n - 1) * step;
      var ps, tail := Points(first, first + (n - 1) * step, step), Points(first + step, first + (n - 1) * step, step);
      MulNonNegative(n - 1, step);
      assert ps == [first] + tail;
      forall i | 0 <= i < n ensures ps[i] == first + i * step {
        if i > 0 { assert ps[i] == tail[i - 1] == first + step + (i - 1) * step; }
      }
    }
  }

  lemma MulNonNegative(a: int, b: int)
    requires a >= 0 && b >= 0
    ensures a * b >= 0
  {
  }

  lemma DivShift(x: int, k: int, d: int)
    requires d > 0
    ensures (x - k * d) / d == x / d - k
  {
    var q, r := x / d, x % d;
    assert x - k * d == (q - k) * d + r;
    QuotientUnique(x - k * d, q - k, r, d);
  }

  lemma QuotientUnique(x: int, q: int, r: int, d: int)
    requires d > 0 && x == q * d + r && 0 <= r < d
    ensures x / d == q
  {
    var q', r' := x / d, x % d;
    assert (q' - q) * d == r - r';
    if q' > q {
      MulAtLeast(q' - q, d);
    } else if q > q' {
      MulAtLeast(q - q', d);
    }
  }

  lemma MulAtLeast(a: int, d: int)
    requires a >= 1 && d > 0
    ensures a * d >= d
    ensures (0 - a) * d == 0 - a * d
  {
  }

  function AllPoints(end: int, span: int, step: int): seq<int>
    requires step > 0
  {
    Points(FirstBucket(end, span, step), BucketOf(end, step), step)
  }

  lemma PointsOf(end: int, n: nat, step: int)
    requires step > 0
    ensures var d, first := step * SECOND, FirstBucket(end, n * step, step);
            && first == (end / d - n + 1) * step
            && |AllPoints(end, n * step, step)| == n
            && forall i :: 0 <= i < n ==> AllPoints(end, n * step, step)[i] == first + i * step
  {
    var d := step * SECOND;
    var q := end / d;
    assert n * step * SECOND == n * d;
    DivShift(end, n, d);
    assert (q - n) * step + step == (q - n + 1) * step;
    assert (q - n + 1) * step + (n - 1) * step == q * step;
    PointsAre((q - n + 1) * step, n, step);
  }

  /** For every named range and every end time there are exactly span / step points, a step apart. */
  lemma PointCount(name: string, end: int)
    ensures var ps := AllPoints(end, SpanOf(name), StepOf(name));
            && |ps| == SpanOf(name) / StepOf(name)
            && forall i :: 0 <= i < |ps| ==> ps[i] == FirstBucket(end, SpanOf(name), StepOf(name)) + i * StepOf(name)
  {
    StepDividesSpan(name);
    PointsOf(end, SpanOf(name) / StepOf(name), StepOf(name));
  }

  lemma BucketAmongPoints(end: int, n: nat, step: int, ts: int)
    requires step > 0 && ts <= end
    ensures var ps := AllPoints(end, n * step, step);
            BucketOf(ts, step) in ps <==> ts >= FirstBucket(end, n * step, step) * SECOND
  {
    PointsOf(end, n, step);
    var d := step * SECOND;
    var b, k, first := ts / d, end / d - n + 1, FirstBucket(end, n * step, step);
    var ps := AllPoints(end, n * step, step);
    BucketAtLeast(ts, k, step);
    DivMonotone(ts, end, d);
    if b >= k {
      assert first + (b - k) * step == b * step;
      assert ps[b - k] == BucketOf(ts, step);
    } else {
      SmallerMultiple(b, k, step);
      forall i | 0 <= i < n ensures ps[i] != BucketOf(ts, step) { MulNonNegative(i, step); }
    }
  }

  lemma DivMonotone(x: int, y: int, d: int)
    requires d > 0 && x <= y
    ensures x / d <= y / d
  {
    DivAtLeast(x, x / d, d);
    DivAtLeast(y, x / d, d);
  }

  /** A sample no later than the end lies in exactly one point if it is not before the first
      bucket, and in none if it is. */
  lemma OnePointEach(name: string, end: int, ts: int)
    requires ts <= end
    ensures var span, step := SpanOf(name), StepOf(name);
            var ps := AllPoints(end, span, step);
            && (BucketOf(ts, step) in ps <==> ts >= FirstBucket(end, span, step) * SECOND)
            && forall i, j :: 0 <= i < j < |ps| ==> ps[i] != ps[j]
  {
    StepDividesSpan(name);
    PointCount(name, end);
    var step := StepOf(name);
    BucketAmongPoints(end, SpanOf(name) / step, step, ts);
    forall i, j | 0 <= i < j < |AllPoints(end, SpanOf(name), step)|
      ensures AllPoints(end, SpanOf(name), step)[i] != AllPoints(end, SpanOf(name), step)[j]
    {
      SmallerMultiple(i, j, step);
    }
  }

  lemma SmallerMultiple(a: int, b: int, d: int)
    requires a < b && d > 0
    ensures a * d < b * d
  {
    MulAtLeast(b - a, d);
    assert (b - a) * d == b * d - a * d;
  }

  lemma DivAtLeast(x: int, k: int, d: int)
    requires d > 0
    ensures x >= k * d <==> x / d >= k
  {
    var b := x / d;
    if b < k { MulAtLeast(k - b, d); assert (k - b) * d == k * d - b * d; }
    if b >= k { MulNonNegative(b - k, d); assert (b - k) * d == b * d - k * d; }
  }

  lemma BucketAtLeast(ts: int, k: int, step: int)
    requires step > 0
    ensures ts >= k * step * SECOND <==> ts / (step * SECOND) >= k
  {
    assert k * step * SECOND == k * (step * SECOND);
    DivAtLeast(ts, k, step * SECOND);
  }

  // ------------------------------------------------- one point

  function InBucket(rows: seq<Sample>, b: int, step: int): seq<Sample>
    requires step > 0
  {
    if rows == [] then []
    else (if BucketOf(rows[0].ts, step) == b then [rows[0]] else []) + InBucket(rows[1..], b, step)
  }

  function OfEntity(rows: seq<Sample>, entity: int): seq<Sample> {
    if rows == [] then [] else (if rows[0].entity == entity then [rows[0]] else []) + OfEntity(rows[1..], entity)
  }

  /** The entities of a bucket, in the order they are first seen. */
  function Entities(rows: seq<Sample>): seq<int> {
    if rows == [] then []
    else
      var before, e := Entities(rows[..|rows| - 1]), rows[|rows| - 1].entity;
      if e in before then before else before + [e]
  }

  function Mean(rows: seq<Sample>, field: string): Option<real> {
    if Count(rows, field) == 0 then None else Some(Sum(rows, field) / Count(rows, field) as real)
  }

  /** Sum and number of the entities' means. */
  function MeansOver(rows: seq<Sample>, entities: seq<int>, field: string): (real, nat) {
    if entities == [] then (0.0, 0)
    else
      var (sum, n) := MeansOver(rows, entities[1..], field);
      match Mean(OfEntity(rows, entities[0]), field)
      case None => (sum, n)
      case Some(m) => (sum + m, n + 1)
  }

  /** avg_ms is averaged over the entities, every rate is summed. */
  function PointValue(rows: seq<Sample>, field: string): Option<real> {
    Combined(MeansOver(rows, Entities(rows), field), field == "avg_ms")
  }

  /** Of the sum of so many means, nothing when there is none. */
  function Combined(means: (real, nat), average: bool): Option<real> {
    if means.1 == 0 then None else Some(if average then means.0 / means.1 as real else means.0)
  }

  lemma ConsAppend(rows: seq<Sample>, x: Sample)
    requires rows != []
    ensures (rows + [x])[0] == rows[0] && (rows + [x])[1..] == rows[1..] + [x]
  {
  }

  lemma Regroup(a: seq<Sample>, b: seq<Sample>, c: seq<Sample>)
    ensures a + (b + c) == a + b + c
  {
  }

  lemma {:induction false} OfEntityAppend(rows: seq<Sample>, x: Sample, entity: int)
    ensures OfEntity(rows + [x], entity) == OfEntity(rows, entity) + if x.entity == entity then [x] else []
  {
    if rows == [] {
      assert rows + [x] == [x];
    } else {
      OfEntityAppend(rows[1..], x, entity);
      ConsAppend(rows, x);
      Regroup(if rows[0].entity == entity then [rows[0]] else [], OfEntity(rows[1..], entity),
              if x.entity == entity then [x] else []);
    }
  }

  lemma {:induction false} SumAppend(rows: seq<Sample>, x: Sample, field: string)
    ensures Sum(rows + [x], field) == Sum(rows, field) + if field in x.values then x.values[field] else 0.0
    ensures Count(rows + [x], field) == Count(rows, field) + if field in x.values then 1 else 0
  {
    if rows == [] {
      assert rows + [x] == [x];
    } else {
      assert (rows + [x])[1..] == rows[1..] + [x];
      SumAppend(rows[1..], x, field);
    }
  }

  predicate SameValue(a: Sample, b: Sample, field: string) {
    if field in a.values then field in b.values && a.values[field] == b.values[field] else field !in b.values
  }

  lemma {:induction false} SumOfEqual(rows: seq<Sample>, x: Sample, field: string)
    requires forall r :: r in rows ==> SameValue(r, x, field)
    ensures Count(rows, field) == if field in x.values then |rows| else 0
    ensures field in x.values ==> Sum(rows, field) == x.values[field] * |rows| as real
  {
    if rows != [] {
      assert rows[0] in rows;
      SumOfEqual(rows[1..], x, field);
    }
  }

  lemma MeanOfEqual(rows: seq<Sample>, x: Sample, field: string)
    requires rows != [] && forall r :: r in rows ==> SameValue(r, x, field)
    ensures Mean(rows, field) == if field in x.values then Some(x.values[field]) else None
  {
    SumOfEqual(rows, x, field);
    if field in x.values {
      var v, n := x.values[field], |rows| as real;
      DivideBack(v, n);
      assert Sum(rows, field) / n == v;
    }
  }

  lemma DivideBack(x: real, n: real)
    requires n != 0.0
    ensures x * n / n == x
  {
  }

  lemma {:induction false} OfEntityAre(rows: seq<Sample>, entity: int)
    ensures forall r :: r in OfEntity(rows, entity) <==> r in rows && r.entity == entity
  {
    if rows != [] { OfEntityAre(rows[1..], entity); }
  }

  lemma {:induction false} EntitiesAre(rows: seq<Sample>)
    ensures forall e :: e in Entities(rows) <==> exists r :: r in rows && r.entity == e
  {
    if rows != [] {
      var n := |rows| - 1;
      EntitiesAre(rows[..n]);
      assert rows == rows[..n] + [rows[n]];
    }
  }

  lemma {:induction false} MeansOverSame(rows: seq<Sample>, rows': seq<Sample>, entities: seq<int>, field: string)
    requires forall e :: e in entities ==> Mean(OfEntity(rows, e), field) == Mean(OfEntity(rows', e), field)
    ensures MeansOver(rows, entities, field) == MeansOver(rows', entities, field)
  {
    if entities != [] { MeansOverSame(rows, rows', entities[1..], field); }
  }

  /** Repeating a sample of an entity that always said the same leaves the point unchanged: a
      chatty entity weighs no more than a quiet one. */
  lemma RepeatedSampleWeighsNothing(rows: seq<Sample>, x: Sample, field: string)
    requires x in rows && forall r :: r in rows && r.entity == x.entity ==> SameValue(r, x, field)
    ensures PointValue(rows + [x], field) == PointValue(rows, field)
  {
    RepeatKeepsEntities(rows, x);
    forall e | e in Entities(rows) ensures Mean(OfEntity(rows + [x], e), field) == Mean(OfEntity(rows, e), field) {
      RepeatKeepsMean(rows, x, e, field);
    }
    MeansOverSame(rows + [x], rows, Entities(rows), field);
  }

  lemma RepeatKeepsEntities(rows: seq<Sample>, x: Sample)
    requires x in rows
    ensures Entities(rows + [x]) == Entities(rows)
  {
    EntitiesAre(rows);
    assert (rows + [x])[..|rows + [x]| - 1] == rows;
    assert x.entity in Entities(rows);
  }

  lemma RepeatKeepsMean(rows: seq<Sample>, x: Sample, e: int, field: string)
    requires x in rows && forall r :: r in rows && r.entity == x.entity ==> SameValue(r, x, field)
    ensures Mean(OfEntity(rows + [x], e), field) == Mean(OfEntity(rows, e), field)
  {
    var mine := OfEntity(rows, e);
    OfEntityAppend(rows, x, e);
    OfEntityAre(rows, e);
    if e == x.entity {
      assert x in mine;
      MeanOfEqual(mine, x, field);
      MeanOfEqual(mine + [x], x, field);
    } else {
      assert mine + [] == mine;
    }
  }

  // ------------------------------------------------- what a point is made of

  predicate OfOnly(rows: seq<Sample>, entity: int) { rows != [] && forall r :: r in rows ==> r.entity == entity }

  lemma {:induction false} OfEntityAll(rows: seq<Sample>, entity: int)
    requires forall r :: r in rows ==> r.entity == entity
    ensures OfEntity(rows, entity) == rows
  {
    if rows != [] {
      assert rows[0] in rows && forall r :: r in rows[1..] ==> r in rows;
      OfEntityAll(rows[1..], entity);
    }
  }

  lemma ConcatFirst(a: seq<Sample>, b: seq<Sample>)
    requires a != []
    ensures (a + b)[0] == a[0] && (a + b)[1..] == a[1..] + b
  {
  }

  lemma {:induction false} OfEntityConcat(a: seq<Sample>, b: seq<Sample>, entity: int)
    ensures OfEntity(a + b, entity) == OfEntity(a, entity) + OfEntity(b, entity)
  {
    if a == [] {
      assert a + b == b;
    } else {
      ConcatFirst(a, b);
      OfEntityConcat(a[1..], b, entity);
      Regroup(if a[0].entity == entity then [a[0]] else [], OfEntity(a[1..], entity), OfEntity(b, entity));
    }
  }

  lemma {:induction false} OfEntityNone(rows: seq<Sample>, entity: int)
    requires forall r :: r in rows ==> r.entity != entity
    ensures OfEntity(rows, entity) == []
  {
    if rows != [] {
      assert rows[0] in rows && forall r :: r in rows[1..] ==> r in rows;
      OfEntityNone(rows[1..], entity);
    }
  }

  lemma {:induction false} EntitiesGrow(rows: seq<Sample>, more: seq<Sample>, entity: int)
    requires OfOnly(more, entity) && forall r :: r in rows ==> r.entity != entity
    ensures Entities(rows + more) == Entities(rows) + [entity]
    decreases |more|
  {
    var n := |more| - 1;
    var x := more[n];
    assert x in more && more == more[..n] + [x];
    assert (rows + more)[..|rows + more| - 1] == rows + more[..n] && (rows + more)[|rows + more| - 1] == x;
    EntitiesAre(rows);
    if n > 0 {
      assert forall r :: r in more[..n] ==> r in more;
      EntitiesGrow(rows, more[..n], entity);
    } else {
      assert rows + more[..n] == rows;
    }
  }

  lemma {:induction false} MeansOverConcat(rows: seq<Sample>, a: seq<int>, b: seq<int>, field: string)
    ensures MeansOver(rows, a + b, field).0 == MeansOver(rows, a, field).0 + MeansOver(rows, b, field).0
    ensures MeansOver(rows, a + b, field).1 == MeansOver(rows, a, field).1 + MeansOver(rows, b, field).1
  {
    if a == [] {
      assert a + b == b;
    } else {
      assert (a + b)[1..] == a[1..] + b;
      MeansOverConcat(rows, a[1..], b, field);
    }
  }

  /** What is said of an entity does not depend on the others. */
  lemma OthersMeansKept(rows: seq<Sample>, more: seq<Sample>, entity: int, field: string)
    requires OfOnly(more, entity) && forall r :: r in rows ==> r.entity != entity
    ensures forall e :: e in Entities(rows) ==>
              e != entity && Mean(OfEntity(rows + more, e), field) == Mean(OfEntity(rows, e), field)
  {
    EntitiesAre(rows);
    forall e | e in Entities(rows)
      ensures e != entity && Mean(OfEntity(rows + more, e), field) == Mean(OfEntity(rows, e), field)
    {
      OfEntityConcat(rows, more, e);
      OfEntityNone(more, e);
      assert OfEntity(rows, e) + [] == OfEntity(rows, e);
    }
  }

  lemma NewEntityMean(rows: seq<Sample>, more: seq<Sample>, entity: int)
    requires OfOnly(more, entity) && forall r :: r in rows ==> r.entity != entity
    ensures OfEntity(rows + more, entity) == more
  {
    OfEntityConcat(rows, more, entity);
    OfEntityNone(rows, entity);
    OfEntityAll(more, entity);
  }

  lemma MeanOfOne(rows: seq<Sample>, entity: int, field: string)
    ensures MeansOver(rows, [entity], field)
            == var m := Mean(OfEntity(rows, entity), field); if m.Some? then (m.value, 1) else (0.0, 0)
  {
    assert [entity][1..] == [];
  }

  /** A mean more, if there is one. */
  function WithMean(means: (real, nat), mean: Option<real>): (real, nat) {
    if mean.Some? then (means.0 + mean.value, means.1 + 1) else means
  }

  function AllMeans(rows: seq<Sample>, field: string): (real, nat) { MeansOver(rows, Entities(rows), field) }

  lemma OldMeans(rows: seq<Sample>, more: seq<Sample>, entity: int, field: string)
    requires OfOnly(more, entity) && forall r :: r in rows ==> r.entity != entity
    ensures MeansOver(rows + more, Entities(rows), field) == AllMeans(rows, field)
  {
    OthersMeansKept(rows, more, entity, field);
    MeansOverSame(rows + more, rows, Entities(rows), field);
  }

  lemma OneMeanMore(a: (real, nat), b: (real, nat), mean: Option<real>)
    requires b == if mean.Some? then (mean.value, 1) else (0.0, 0)
    ensures (a.0 + b.0, a.1 + b.1) == WithMean(a, mean)
  {
  }

  lemma OneEntityMore(rows: seq<Sample>, entities: seq<int>, entity: int, field: string)
    ensures MeansOver(rows, entities + [entity], field)
            == WithMean(MeansOver(rows, entities, field), Mean(OfEntity(rows, entity), field))
  {
    var a, b := MeansOver(rows, entities, field), MeansOver(rows, [entity], field);
    MeansOverConcat(rows, entities, [entity], field);
    MeanOfOne(rows, entity, field);
    OneMeanMore(a, b, Mean(OfEntity(rows, entity), field));
  }

  /** The means of the entities so far, and the new one's. */
  lemma MeansGrow(rows: seq<Sample>, more: seq<Sample>, entity: int, field: string)
    requires OfOnly(more, entity) && forall r :: r in rows ==> r.entity != entity
    ensures AllMeans(rows + more, field) == WithMean(AllMeans(rows, field), Mean(more, field))
  {
    EntitiesGrow(rows, more, entity);
    OneEntityMore(rows + more, Entities(rows), entity, field);
    OldMeans(rows, more, entity, field);
    NewEntityMean(rows, more, entity);
  }

  lemma CombinedSum(means: (real, nat), mean: Option<real>)
    requires means.1 == 0 ==> means.0 == 0.0
    ensures Combined(WithMean(means, mean), false) ==
              match (Combined(means, false), mean)
              case (Some(v), Some(m)) => Some(v + m)
              case (None, m) => m
              case (v, None) => v
  {
  }

  /** Another entity's mean is added to a rate. */
  lemma RateAdds(rows: seq<Sample>, more: seq<Sample>, entity: int, field: string)
    requires OfOnly(more, entity) && (forall r :: r in rows ==> r.entity != entity) && field != "avg_ms"
    ensures PointValue(rows + more, field) ==
              match (PointValue(rows, field), Mean(more, field))
              case (Some(v), Some(m)) => Some(v + m)
              case (None, m) => m
              case (v, None) => v
  {
    MeansGrow(rows, more, entity, field);
    CountedMeans(rows, Entities(rows), field);
    CombinedSum(AllMeans(rows, field), Mean(more, field));
  }

  lemma {:induction false} CountedMeans(rows: seq<Sample>, entities: seq<int>, field: string)
    ensures MeansOver(rows, entities, field).1 == 0 ==> MeansOver(rows, entities, field).0 == 0.0
  {
    if entities != [] { CountedMeans(rows, entities[1..], field); }
  }

  lemma TimesThen(sum: real, n: real)
    requires n != 0.0
    ensures sum / n * n == sum
  {
  }

  lemma CombinedAverage(means: (real, nat), mean: real)
    requires means.1 > 0
    ensures Combined(means, true).Some? && Combined(WithMean(means, Some(mean)), true).Some?
    ensures Combined(WithMean(means, Some(mean)), true).value * (means.1 + 1) as real
            == Combined(means, true).value * means.1 as real + mean
  {
    TimesThen(means.0, means.1 as real);
    TimesThen(means.0 + mean, (means.1 + 1) as real);
  }

  /** But avg_ms is averaged over the entities that have it: with one more, the average times their
      number grows by its mean. */
  lemma AverageAdds(rows: seq<Sample>, more: seq<Sample>, entity: int)
    requires OfOnly(more, entity) && forall r :: r in rows ==> r.entity != entity
    requires PointValue(rows, "avg_ms").Some? && Mean(more, "avg_ms").Some?
    ensures var n := AllMeans(rows, "avg_ms").1;
            && AllMeans(rows + more, "avg_ms").1 == n + 1 && PointValue(rows + more, "avg_ms").Some?
            && PointValue(rows + more, "avg_ms").value * (n + 1) as real
               == PointValue(rows, "avg_ms").value * n as real + Mean(more, "avg_ms").value
  {
    MeansGrow(rows, more, entity, "avg_ms");
    CombinedAverage(AllMeans(rows, "avg_ms"), Mean(more, "avg_ms").value);
  }

  lemma CombinedOne(mean: Option<real>, average: bool)
    ensures Combined(WithMean((0.0, 0), mean), average) == mean
  {
  }

  /** A point of one entity is its mean. */
  lemma PointOfOne(rows: seq<Sample>, entity: int, field: string)
    requires OfOnly(rows, entity)
    ensures PointValue(rows, field) == Mean(rows, field)
  {
    MeansGrow([], rows, entity, field);
    assert [] + rows == rows && AllMeans([], field) == (0.0, 0);
    CombinedOne(Mean(rows, field), field == "avg_ms");
  }

  // ------------------------------------------------- who reports

  predicate Reports(rows: seq<Sample>, entity: int) {
    var online := Mean(OfEntity(rows, entity), "online");
    online.Some? && online.value >= 0.5
  }

  function ReportingAmong(rows: seq<Sample>, entities: seq<int>): nat {
    if entities == [] then 0
    else (if Reports(rows, entities[0]) then 1 else 0) + ReportingAmong(rows, entities[1..])
  }

  /** The entities of a bucket that were online in at least half of their samples. */
  function Reporting(rows: seq<Sample>): nat { ReportingAmong(rows, Entities(rows)) }

  lemma {:induction false} ReportingSame(rows: seq<Sample>, rows': seq<Sample>, entities: seq<int>)
    requires forall e :: e in entities ==> Mean(OfEntity(rows, e), "online") == Mean(OfEntity(rows', e), "online")
    ensures ReportingAmong(rows, entities) == ReportingAmong(rows', entities)
  {
    if entities != [] {
      assert entities[0] in entities;
      ReportingSame(rows, rows', entities[1..]);
    }
  }

  /** Nor does repeating it change who reports. */
  lemma RepeatedSampleReportsNothing(rows: seq<Sample>, x: Sample)
    requires x in rows && forall r :: r in rows && r.entity == x.entity ==> SameValue(r, x, "online")
    ensures Reporting(rows + [x]) == Reporting(rows)
  {
    RepeatKeepsEntities(rows, x);
    forall e | e in Entities(rows)
      ensures Mean(OfEntity(rows + [x], e), "online") == Mean(OfEntity(rows, e), "online")
    {
      RepeatKeepsMean(rows, x, e, "online");
    }
    ReportingSame(rows + [x], rows, Entities(rows));
  }

  /** A new entity reports exactly when it was online in at least half of its samples that say. */
  lemma ReportingAdds(rows: seq<Sample>, more: seq<Sample>, entity: int)
    requires OfOnly(more, entity) && forall r :: r in rows ==> r.entity != entity
    ensures Reporting(rows + more) == Reporting(rows) +
              if Count(more, "online") > 0 && 2.0 * Sum(more, "online") >= Count(more, "online") as real then 1 else 0
  {
    EntitiesGrow(rows, more, entity);
    ReportingConcat(rows + more, Entities(rows), [entity]);
    NewEntityMean(rows, more, entity);
    OthersMeansKept(rows, more, entity, "online");
    ReportingSame(rows + more, rows, Entities(rows));
    if Count(more, "online") > 0 { HalfIff(Sum(more, "online"), Count(more, "online") as real); }
  }

  lemma HalfIff(sum: real, n: real)
    requires n > 0.0
    ensures sum / n >= 0.5 <==> 2.0 * sum >= n
  {
    TimesThen(sum, n);
    if sum / n >= 0.5 { TimesAtLeast(sum / n, 0.5, n); } else { TimesAtLeast(0.5, sum / n, n); }
  }

  lemma TimesAtLeast(x: real, y: real, n: real)
    requires n > 0.0 && x >= y
    ensures x * n >= y * n && (x > y ==> x * n > y * n)
  {
  }

  lemma {:induction false} ReportingConcat(rows: seq<Sample>, a: seq<int>, b: seq<int>)
    ensures ReportingAmong(rows, a + b) == ReportingAmong(rows, a) + ReportingAmong(rows, b)
  {
    if a == [] {
      assert a + b == b;
    } else {
      assert (a + b)[1..] == a[1..] + b;
      ReportingConcat(rows, a[1..], b);
    }
  }

  /** The charts: 60 points a minute apart for an hour, 72 of 5 minutes for six, 144 of 10 minutes for a
      day, 168 of an hour for a week and 120 of 6 hours for a month; the last two from the 1h rows. */
  lemma ChartShape(span: int, end: int, store: Store)
    requires span in {3600, 21600, 86400, 604800, 2592000}
    ensures var step := PickStep(STEPS, span, FloorOf(span));
            && step == (if span == 3600 then 60 else if span == 21600 then 300 else if span == 86400 then 600
                        else if span == 604800 then 3600 else 21600)
            && |AllPoints(end, span, step)|
               == (if span == 3600 then 60 else if span == 21600 then 72 else if span == 86400 then 144
                   else if span == 604800 then 168 else 120)
    ensures RowsFor(store, span) == if span >= 604800 then HourSamples(store.hours) else store.minutes
  {
    StepForSpan(span);
    if span == 3600 { PointsOf(end, 60, 60); }
    else if span == 21600 { PointsOf(end, 72, 300); }
    else if span == 86400 { PointsOf(end, 144, 600); }
    else if span == 604800 { PointsOf(end, 168, 3600); }
    else { PointsOf(end, 120, 21600); }
  }

  /** An unknown name is a day. */
  lemma SpansAre(name: string)
    ensures SpanOf(name) in {3600, 21600, 86400, 604800, 2592000}
    ensures SpanOf("1h") == 3600 && SpanOf("6h") == 21600 && SpanOf("7d") == 604800 && SpanOf("30d") == 2592000
    ensures name !in {"1h", "6h", "7d", "30d"} ==> SpanOf(name) == 86400
  {
  }

  // ------------------------------------------------- series

  datatype Point = Point(at: int, values: map<string, Option<real>>, reporting: nat)

  predicate Wanted(s: Sample, kind: string, entities: seq<int>, start: int, end: int) {
    s.kind == kind && s.entity in entities && start <= s.ts <= end
  }

  /** The rows series selects. */
  function Selected(rows: seq<Sample>, kind: string, entities: seq<int>, start: int, end: int): (kept: seq<Sample>)
    ensures forall s :: s in kept <==> s in rows && s.kind == kind && s.entity in entities && start <= s.ts <= end
  {
    if rows == [] then []
    else
      (if Wanted(rows[0], kind, entities, start, end) then [rows[0]] else [])
      + Selected(rows[1..], kind, entities, start, end)
  }

  function ValuesOf(rows: seq<Sample>, fields: seq<string>): map<string, Option<real>> {
    map field | field in fields :: PointValue(rows, field)
  }

  function PointFor(rows: seq<Sample>, at: int, step: int, fields: seq<string>): Point
    requires step > 0
  {
    Point(at, ValuesOf(InBucket(rows, at, step), fields), Reporting(InBucket(rows, at, step)))
  }

  method ReadValues(rows: seq<Sample>, fields: seq<string>) returns (values: map<string, Option<real>>)
    ensures values == ValuesOf(rows, fields)
  {
    values := map[];
    for i := 0 to |fields|
      invariant values == ValuesOf(rows, fields[..i])
    {
      values := values[fields[i] := PointValue(rows, fields[i])];
    }
    assert fields[..|fields|] == fields;
  }

  /** A 1h row as the series reads it. */
  function HourSamples(hours: seq<HourRow>): (rows: seq<Sample>)
    ensures |rows| == |hours|
    ensures forall i :: 0 <= i < |hours| ==>
              rows[i] == Sample(hours[i].group.start, hours[i].group.kind, hours[i].group.entity, hours[i].means)
  {
    seq(|hours|, i requires 0 <= i < |hours| =>
      Sample(hours[i].group.start, hours[i].group.kind, hours[i].group.entity, hours[i].means))
  }

  /** The rows of the resolution plan_range chooses for the span. */
  function RowsFor(store: Store, span: int): seq<Sample> {
    if MinuteResolution(span) then store.minutes else HourSamples(store.hours)
  }

  /** One point a bucket, and one bucket a point. */
  function PointsFor(rows: seq<Sample>, times: seq<int>, step: int, fields: seq<string>): (points: seq<Point>)
    requires step > 0
    ensures |points| == |times| && forall i :: 0 <= i < |times| ==> points[i] == PointFor(rows, times[i], step, fields)
  {
    seq(|times|, i requires 0 <= i < |times| => PointFor(rows, times[i], step, fields))
  }

  lemma OnePointMore(rows: seq<Sample>, times: seq<int>, i: nat, step: int, fields: seq<string>)
    requires step > 0 && i < |times|
    ensures PointsFor(rows, times[..i + 1], step, fields)
            == PointsFor(rows, times[..i], step, fields) + [PointFor(rows, times[i], step, fields)]
  {
  }

  /** The loop over the buckets. */
  method ReadPoints(rows: seq<Sample>, times: seq<int>, step: int, fields: seq<string>) returns (points: seq<Point>)
    requires step > 0
    ensures points == PointsFor(rows, times, step, fields)
  {
    var perBucket := ByBucket(rows, step);
    points := [];
    for i := 0 to |times|
      invariant points == PointsFor(rows, times[..i], step, fields)
    {
      var b := times[i];
      var mine := Bucket(perBucket, b);
      OnePointMore(rows, times, i, step, fields);
      var values := ReadValues(mine, fields);
      points := points + [Point(b, values, Reporting(mine))];
    }
    assert times[..|times|] == times;
  }

  /** series: of the rows of the right resolution the selected ones are grouped by bucket first, then
      the points of the axis PointCount describes are read off, with every field asked for. */
  method Build(name: string, end: int, kind: string, entities: seq<int>, store: Store, fields: seq<string>)
    returns (points: seq<Point>)
    ensures points ==
              PointsFor(Selected(RowsFor(store, SpanOf(name)), kind, entities, end - SpanOf(name) * SECOND, end),
                        AllPoints(end, SpanOf(name), StepOf(name)), StepOf(name), fields)
  {
    var span, step := SpanOf(name), StepOf(name);
    var rows := Selected(RowsFor(store, span), kind, entities, end - span * SECOND, end);
    points := ReadPoints(rows, AllPoints(end, span, step), step, fields);
  }

  function Bucket(m: map<int, seq<Sample>>, b: int): seq<Sample> { if b in m then m[b] else [] }

  lemma StoredInBucket(m: map<int, seq<Sample>>, rows: seq<Sample>, x: Sample, step: int)
    requires step > 0 && forall b :: Bucket(m, b) == InBucket(rows, b, step)
    ensures var b := BucketOf(x.ts, step);
            forall k :: Bucket(m[b := Bucket(m, b) + [x]], k) == InBucket(rows + [x], k, step)
  {
    var b := BucketOf(x.ts, step);
    forall k ensures Bucket(m[b := Bucket(m, b) + [x]], k) == InBucket(rows + [x], k, step) {
      InBucketAppend(rows, x, k, step);
    }
  }

  method ByBucket(rows: seq<Sample>, step: int) returns (perBucket: map<int, seq<Sample>>)
    requires step > 0
    ensures forall b :: Bucket(perBucket, b) == InBucket(rows, b, step)
  {
    perBucket := map[];
    var i := 0;
    while i < |rows|
      invariant i <= |rows|
      invariant forall b :: Bucket(perBucket, b) == InBucket(rows[..i], b, step)
    {
      var b := BucketOf(rows[i].ts, step);
      assert rows[..i + 1] == rows[..i] + [rows[i]];
      StoredInBucket(perBucket, rows[..i], rows[i], step);
      perBucket := perBucket[b := Bucket(perBucket, b) + [rows[i]]];
      i := i + 1;
    }
    assert rows[..i] == rows;
  }

  lemma {:induction false} InBucketAppend(rows: seq<Sample>, x: Sample, b: int, step: int)
    requires step > 0
    ensures InBucket(rows + [x], b, step) == InBucket(rows, b, step) + if BucketOf(x.ts, step) == b then [x] else []
  {
    if rows == [] {
      assert rows + [x] == [x] && [x][1..] == [];
    } else {
      ConsAppend(rows, x);
      InBucketAppend(rows[1..], x, b, step);
      var first := if BucketOf(rows[0].ts, step) == b then [rows[0]] else [];
      Regroup(first, InBucket(rows[1..], b, step), if BucketOf(x.ts, step) == b then [x] else []);
    }
  }
}
