/** What the averages mean (src/historian/SqliteHistoryStore.cpp): a minute row is the mean of the samples it
    stands for, an hour row is the mean of minute rows, and a bucket may have more than one row. */
module HistoryMeans {
  import opened HistoryRows
  import opened HistoryTables
  import opened HistoryPlacement

  function SampleSum(samples: seq<Sample>): real {
    if samples == [] then 0.0 else samples[0].value + SampleSum(samples[1..])
  }

  function Mean(samples: seq<Sample>): real
    requires samples != []
  {
    SampleSum(samples) / |samples| as real
  }

  /** A row as written: one sample and its value. */
  predicate Single(r: Row) {
    |r.lineage| == 1 && r.value == r.lineage[0].value
  }

  predicate MeanRow(r: Row) {
    r.lineage != [] && r.value == Mean(r.lineage)
  }

  predicate AllSingle(rows: seq<Row>) {
    forall r <- rows :: Single(r)
  }

  predicate AllMeans(rows: seq<Row>) {
    forall r <- rows :: MeanRow(r)
  }

  lemma {:induction false} SumConcat(a: seq<Sample>, b: seq<Sample>)
    ensures SampleSum(a + b) == SampleSum(a) + SampleSum(b)
  {
    if a == [] {
      assert a + b == b;
    } else {
      assert (a + b)[1..] == a[1..] + b;
      SumConcat(a[1..], b);
    }
  }

  // ----- minutes -----------------------------------------------------------------------------

  lemma {:induction false} SinglesSum(rows: seq<Row>)
    requires AllSingle(rows)
    ensures |Lineage(rows)| == |rows| && SampleSum(Lineage(rows)) == Sum(rows)
  {
    if rows != [] {
      assert Single(rows[0]) && rows[0].lineage == [rows[0].lineage[0]];
      SinglesSum(rows[1..]);
      SumConcat(rows[0].lineage, Lineage(rows[1..]));
      assert SampleSum(rows[0].lineage[1..]) == 0.0;
    }
  }

  lemma FoldedMeans(rows: seq<Row>, cutoff: int, bucket: int)
    requires bucket > 0 && AllSingle(rows)
    ensures AllMeans(Folded(rows, cutoff, bucket))
  {
    hide TruncDiv, Grouped, Older, Sum, Single, Lineage;
    var older := Older(rows, cutoff);
    var groups := Grouped(older, bucket);
    GroupedIsPartition(older, bucket);
    OlderIn(rows, cutoff);
    forall i | 0 <= i < |groups| ensures MeanRow(Promoted(groups, bucket)[i]) {
      GroupRowsIn(groups, groups[i]);
      forall r <- groups[i].rows ensures Single(r) {
        assert r in multiset(older);
      }
      assert GroupOk(groups[i], bucket);
      SinglesSum(groups[i].rows);
    }
  }

  lemma SweepMeans(t: Tables, now: int, keep: Retention)
    requires AllSingle(t.raw) && AllMeans(t.minute)
    ensures AllSingle(Swept(t, now, keep).raw) && AllMeans(Swept(t, now, keep).minute)
  {
    hide Folded, Older, Remaining, Single, MeanRow;
    FoldedMeans(t.raw, now - keep.raw, MINUTE);
    OlderIn(t.raw, now - keep.raw);
    OlderIn(t.minute + Folded(t.raw, now - keep.raw, MINUTE), now - keep.minute);
  }

  /** Over every run, every raw row is its sample and every minute row is the mean of the samples it
      stands for. */
  lemma {:induction false} RunMeans(actions: seq<Action>, keep: Retention)
    ensures AllSingle(AfterRun(actions, keep).raw) && AllMeans(AfterRun(actions, keep).minute)
    decreases |actions|
  {
    hide Swept, MeanRow, RowsOfSamples;
    if actions != [] {
      var before := actions[..|actions| - 1];
      RunMeans(before, keep);
      match actions[|actions| - 1] {
        case Write(samples) => WrittenSingle(samples);
        case Sweep(now) => SweepMeans(AfterRun(before, keep), now, keep);
      }
    }
  }

  lemma WrittenSingle(samples: seq<Sample>)
    ensures AllSingle(RowsOfSamples(samples))
  {
    forall r | r in RowsOfSamples(samples) ensures Single(r) {
      var i :| 0 <= i < |samples| && RowsOfSamples(samples)[i] == r;
      assert r == RowOf(samples[i]);
    }
  }

  // ----- hours -------------------------------------------------------------------------------

  /** The sum of the values, each as often as its row has samples. */
  function WeightedSum(rows: seq<Row>): real {
    if rows == [] then 0.0 else |rows[0].lineage| as real * rows[0].value + WeightedSum(rows[1..])
  }

  lemma {:induction false} MeansSum(rows: seq<Row>)
    requires AllMeans(rows)
    ensures SampleSum(Lineage(rows)) == WeightedSum(rows) && |Lineage(rows)| >= |rows|
  {
    if rows != [] {
      var r := rows[0];
      assert MeanRow(r);
      MeansSum(rows[1..]);
      WeightStep(rows);
      hide WeightedSum, SampleSum, Lineage, Sum;
      SumConcat(r.lineage, Lineage(rows[1..]));
      TimesQuotient(SampleSum(r.lineage), |r.lineage| as real);
    }
  }

  lemma TimesQuotient(a: real, n: real)
    requires n > 0.0
    ensures n * (a / n) == a
  {}

  /** An hour row is the mean of its samples exactly when weighting the minute means by their numbers of
      samples makes no difference. */
  lemma HourMeanExact(rows: seq<Row>)
    requires rows != [] && AllMeans(rows)
    ensures Lineage(rows) != []
    ensures Average(rows) == Mean(Lineage(rows)) <==>
      |rows| as real * WeightedSum(rows) == |Lineage(rows)| as real * Sum(rows)
  {
    hide Lineage, Sum, MeanRow;
    MeansSum(rows);
    SameQuotients(Sum(rows), |rows| as real, SampleSum(Lineage(rows)), |Lineage(rows)| as real);
  }

  lemma SameQuotients(a: real, m: real, b: real, n: real)
    requires m > 0.0 && n > 0.0
    ensures a / m == b / n <==> m * b == n * a
  {
    var (p, q) := (a / m, b / n);
    TimesQuotient(a, m);
    TimesQuotient(b, n);
    CrossDifference(m, n, p, q);
    PositiveFactor(m, n, q - p);
  }

  lemma CrossDifference(m: real, n: real, p: real, q: real)
    ensures m * (n * q) - n * (m * p) == m * n * (q - p)
  {}

  lemma PositiveFactor(m: real, n: real, d: real)
    requires m > 0.0 && n > 0.0
    ensures m * n * d == 0.0 <==> d == 0.0
  {
    var x := m * n;
    assert x > 0.0;
    if x * d == 0.0 {
      assert d == x * d / x;
    }
  }

  lemma {:induction false} EqualWeights(rows: seq<Row>, k: nat)
    requires forall r <- rows :: |r.lineage| == k
    ensures WeightedSum(rows) == k as real * Sum(rows) && |Lineage(rows)| == k * |rows|
  {
    if rows != [] {
      assert |rows[0].lineage| == k;
      EqualWeights(rows[1..], k);
      WeightStep(rows);
      hide WeightedSum, Sum, Lineage;
      Distribute(k as real, rows[0].value, Sum(rows[1..]));
      OneMoreTime(k, |rows[1..]|);
    }
  }

  lemma WeightStep(rows: seq<Row>)
    requires rows != []
    ensures WeightedSum(rows) == |rows[0].lineage| as real * rows[0].value + WeightedSum(rows[1..])
    ensures Sum(rows) == rows[0].value + Sum(rows[1..])
    ensures Lineage(rows) == rows[0].lineage + Lineage(rows[1..])
  {}

  /** So it is when the minutes have equally many samples. */
  lemma EvenMinutes(rows: seq<Row>, k: nat)
    requires rows != [] && AllMeans(rows) && forall r <- rows :: |r.lineage| == k
    ensures Lineage(rows) != [] && Average(rows) == Mean(Lineage(rows))
  {
    hide Lineage, Sum, WeightedSum, Mean, Average, MeanRow;
    HourMeanExact(rows);
    EqualWeights(rows, k);
    Reorder(|rows|, k, Sum(rows));
  }

  lemma Reorder(n: nat, k: nat, s: real)
    ensures n as real * (k as real * s) == (k * n) as real * s
  {
    assert (k * n) as real == k as real * n as real;
  }

  lemma Distribute(k: real, a: real, b: real)
    ensures k * (a + b) == k * a + k * b
  {}

  lemma OneMoreTime(k: nat, n: nat)
    ensures k * (1 + n) == k + k * n
  {}

  lemma SumOfTwo(a: Row, b: Row)
    ensures Sum([a, b]) == a.value + b.value && Lineage([a, b]) == a.lineage + b.lineage
    ensures WeightedSum([a, b]) == |a.lineage| as real * a.value + |b.lineage| as real * b.value
  {
    assert [a, b][1..] == [b];
    OfOne(b);
  }

  lemma OfOne(r: Row)
    ensures Sum([r]) == r.value && Lineage([r]) == r.lineage && WeightedSum([r]) == |r.lineage| as real * r.value
  {
    assert [r][1..] == [];
    assert Lineage([r]) == r.lineage + [];
  }

  /** For two minutes the hour is the mean exactly when they have equally many samples or one value. */
  lemma TwoMinutes(a: Row, b: Row)
    requires MeanRow(a) && MeanRow(b)
    ensures Lineage([a, b]) != []
    ensures Average([a, b]) == Mean(Lineage([a, b])) <==> |a.lineage| == |b.lineage| || a.value == b.value
  {
    hide Mean, Average, Sum, WeightedSum, Lineage;
    var (m, n) := (|a.lineage|, |b.lineage|);
    HourMeanExact([a, b]);
    SumOfTwo(a, b);
    TwoWeights(m as real, n as real, a.value, b.value);
  }

  lemma TwoWeights(m: real, n: real, x: real, y: real)
    ensures 2.0 * (m * x + n * y) == (m + n) * (x + y) <==> m == n || x == y
  {
    TwoDifference(m, n, x, y);
    if (m - n) * (x - y) == 0.0 && m != n {
      assert x - y == (m - n) * (x - y) / (m - n);
    }
  }

  lemma TwoDifference(m: real, n: real, x: real, y: real)
    ensures 2.0 * (m * x + n * y) - (m + n) * (x + y) == (m - n) * (x - y)
  {}

  // ----- rows per bucket ---------------------------------------------------------------------

  predicate OneOf(r: Row, ts: int, field: nat, entity: nat) {
    r.ts == ts && r.field == field && r.entity == entity
  }

  /** The rows of one series at one edge. */
  function RowsAt(rows: seq<Row>, ts: int, field: nat, entity: nat): nat {
    if rows == [] then 0
    else if OneOf(rows[0], ts, field, entity) then 1 + RowsAt(rows[1..], ts, field, entity)
    else RowsAt(rows[1..], ts, field, entity)
  }

  predicate InBucket(r: Row, bucket: int, index: int, field: nat, entity: nat)
    requires bucket > 0
  {
    TruncDiv(r.ts, bucket) == index && r.field == field && r.entity == entity
  }

  lemma {:induction false} RowsAtConcat(a: seq<Row>, b: seq<Row>, ts: int, field: nat, entity: nat)
    ensures RowsAt(a + b, ts, field, entity) == RowsAt(a, ts, field, entity) + RowsAt(b, ts, field, entity)
  {
    if a == [] {
      assert a + b == b;
    } else {
      assert (a + b)[1..] == a[1..] + b;
      RowsAtConcat(a[1..], b, ts, field, entity);
    }
  }

  predicate HasKey(g: Group, index: int, field: nat, entity: nat) {
    g.index == index && g.field == field && g.entity == entity
  }

  lemma SameEdge(i: int, j: int, bucket: int)
    requires bucket > 0
    ensures i * bucket == j * bucket <==> i == j
  {
    if i > j {
      LargerProduct(i, j, bucket);
    } else if j > i {
      LargerProduct(j, i, bucket);
    }
  }

  lemma LargerProduct(i: int, j: int, bucket: int)
    requires i > j && bucket > 0
    ensures i * bucket > j * bucket
  {}

  lemma {:induction false} GroupsAt(groups: seq<Group>, bucket: int, index: int, field: nat, entity: nat)
    requires bucket > 0 && KeysDistinct(groups) && forall g <- groups :: g.rows != []
    ensures RowsAt(Promoted(groups, bucket), index * bucket, field, entity) ==
      if exists g <- groups :: HasKey(g, index, field, entity) then 1 else 0
  {
    hide Sum, Lineage;
    if groups != [] {
      var (first, rest) := (groups[0], groups[1..]);
      assert Promoted(groups, bucket)[1..] == Promoted(rest, bucket);
      assert groups == [first] + rest;
      forall i, j | 0 <= i < j < |rest| ensures !SameKey(rest[i], rest[j]) {
        assert rest[i] == groups[i + 1] && rest[j] == groups[j + 1];
      }
      GroupsAt(rest, bucket, index, field, entity);
      SameEdge(first.index, index, bucket);
      if HasKey(first, index, field, entity) {
        forall g | g in rest ensures !HasKey(g, index, field, entity) {
          var j :| 0 <= j < |rest| && rest[j] == g;
          assert !SameKey(groups[0], groups[j + 1]);
        }
        assert first in groups;
      } else {
        assert Promoted(groups, bucket)[0].ts == first.index * bucket;
      }
    }
  }

  /** A demotion adds at most one row to a bucket of a series, and one exactly if it folds a row of it. */
  lemma FoldAddsOne(rows: seq<Row>, cutoff: int, bucket: int, index: int, field: nat, entity: nat)
    requires bucket > 0
    ensures RowsAt(Folded(rows, cutoff, bucket), index * bucket, field, entity) ==
      if exists r <- Older(rows, cutoff) :: InBucket(r, bucket, index, field, entity) then 1 else 0
  {
    hide Older, Promoted, RowsAt, Grouped, TruncDiv;
    var older := Older(rows, cutoff);
    var groups := Grouped(older, bucket);
    GroupedIsPartition(older, bucket);
    GroupsAt(groups, bucket, index, field, entity);
    if exists g <- groups :: HasKey(g, index, field, entity) {
      var g :| g in groups && HasKey(g, index, field, entity);
      assert GroupOk(g, bucket) && g.rows[0] in g.rows;
      GroupRowsIn(groups, g);
      assert Belongs(g.rows[0], g, bucket) && g.rows[0] in multiset(older);
      assert g.rows[0] in older && InBucket(g.rows[0], bucket, index, field, entity);
    }
    if exists r <- older :: InBucket(r, bucket, index, field, entity) {
      var r :| r in older && InBucket(r, bucket, index, field, entity);
      assert r in multiset(older);
      RowInGroup(groups, r);
    }
  }

  lemma {:induction false} RowInGroup(groups: seq<Group>, r: Row)
    requires r in RowsOf(groups)
    ensures exists g <- groups :: r in g.rows
  {
    if r !in multiset(groups[0].rows) {
      RowInGroup(groups[1..], r);
    }
  }

  lemma {:induction false} RemainingRowsAt(rows: seq<Row>, cutoff: int, ts: int, field: nat, entity: nat)
    ensures RowsAt(Remaining(rows, cutoff), ts, field, entity) == if ts >= cutoff then RowsAt(rows, ts, field, entity) else 0
  {
    if rows != [] {
      RemainingRowsAt(rows[1..], cutoff, ts, field, entity);
      if rows[0].ts >= cutoff {
        assert Remaining(rows, cutoff)[1..] == Remaining(rows[1..], cutoff);
      }
    }
  }

  predicate Folds(rows: seq<Row>, cutoff: int, index: int, field: nat, entity: nat) {
    exists r <- Older(rows, cutoff) :: InBucket(r, MINUTE, index, field, entity)
  }

  function OneIf(b: bool): nat {
    if b then 1 else 0
  }

  /** The rows of a minute count the sweeps that folded a sample of it: each such sweep adds one, as
      long as the minute is not demoted itself. */
  lemma SweepRowsAt(t: Tables, now: int, keep: Retention, index: int, field: nat, entity: nat)
    ensures RowsAt(Swept(t, now, keep).minute, index * MINUTE, field, entity) ==
      (if index * MINUTE < now - keep.minute then 0
       else RowsAt(t.minute, index * MINUTE, field, entity) + OneIf(Folds(t.raw, now - keep.raw, index, field, entity)))
  {
    hide RowsAt, Folded, Older, Remaining, InBucket;
    var folded := Folded(t.raw, now - keep.raw, MINUTE);
    RemainingRowsAt(t.minute + folded, now - keep.minute, index * MINUTE, field, entity);
    RowsAtConcat(t.minute, folded, index * MINUTE, field, entity);
    FoldAddsOne(t.raw, now - keep.raw, MINUTE, index, field, entity);
  }

  // ----- cutoffs on the edges ----------------------------------------------------------------

  /** Every write brings samples from the epoch on that the last sweep would have kept, and every
      sweep's raw cutoff is on a minute's edge, no earlier than the one before. */
  predicate Aligned(actions: seq<Action>, keep: Retention)
    decreases |actions|
  {
    actions == [] || (
      var before := actions[..|actions| - 1];
      && Aligned(before, keep)
      && match actions[|actions| - 1]
         case Write(samples) => forall s <- samples :: s.ts >= 0 && NotOlder(s.ts, LastSweepOf(before), keep)
         case Sweep(now) => (now - keep.raw) % MINUTE == 0 && NotAfter(LastSweepOf(before), now))
  }

  predicate NotOlder(ts: int, last: LastSweep, keep: Retention) {
    last.At? ==> ts >= last.now - keep.raw
  }

  /** Raw rows from the last cutoff on, minute rows before it, and no two of them at one edge. */
  ghost predicate OnePerBucket(t: Tables, last: LastSweep, keep: Retention) {
    && (forall r <- t.raw :: r.ts >= 0 && NotOlder(r.ts, last, keep))
    && (forall r <- t.minute :: last.At? && r.ts < last.now - keep.raw)
    && (last.At? ==> (last.now - keep.raw) % MINUTE == 0)
    && forall index, field, entity :: RowsAt(t.minute, index * MINUTE, field, entity) <= 1
  }

  /** Before an edge, the bucket's edge is before it too; from it on, not. */
  lemma EdgeSide(ts: int, cut: int)
    requires ts >= 0 && cut % MINUTE == 0
    ensures BucketStart(ts, MINUTE) < cut <==> ts < cut
  {
    assert cut == cut / MINUTE * MINUTE;
  }

  lemma {:induction false} NoRowsAt(rows: seq<Row>, ts: int, field: nat, entity: nat)
    requires forall r <- rows :: r.ts != ts
    ensures RowsAt(rows, ts, field, entity) == 0
  {
    if rows != [] {
      assert rows[0].ts != ts;
      NoRowsAt(rows[1..], ts, field, entity);
    }
  }

  lemma FoldedEdges(rows: seq<Row>, cutoff: int, r: Row)
    requires r in Folded(rows, cutoff, MINUTE)
    ensures exists x <- Older(rows, cutoff) :: BucketStart(x.ts, MINUTE) == r.ts
  {
    hide Older, Grouped, Sum, Lineage, TruncDiv;
    var older := Older(rows, cutoff);
    var groups := Grouped(older, MINUTE);
    GroupedIsPartition(older, MINUTE);
    var i :| 0 <= i < |groups| && Promoted(groups, MINUTE)[i] == r;
    assert GroupOk(groups[i], MINUTE) && groups[i].rows[0] in groups[i].rows;
    GroupRowsIn(groups, groups[i]);
    var x := groups[i].rows[0];
    assert Belongs(x, groups[i], MINUTE) && x in multiset(older);
    EdgeOfRow(x.ts, MINUTE, groups[i].index);
  }

  lemma SweepOnePer(t: Tables, last: LastSweep, now: int, keep: Retention)
    requires OnePerBucket(t, last, keep) && NotAfter(last, now) && (now - keep.raw) % MINUTE == 0
    ensures OnePerBucket(Swept(t, now, keep), At(now), keep)
  {
    hide Folded, Older, Remaining, RowsAt, BucketStart;
    var (cut, u) := (now - keep.raw, Swept(t, now, keep));
    var folded := Folded(t.raw, cut, MINUTE);
    OlderIn(t.raw, cut);
    OlderIn(t.minute + folded, now - keep.minute);
    forall r | r in u.minute ensures r.ts < cut {
      if r in folded {
        FoldedEdges(t.raw, cut, r);
        var x :| x in Older(t.raw, cut) && BucketStart(x.ts, MINUTE) == r.ts;
        EdgeSide(x.ts, cut);
      } else {
        assert r in t.minute;
      }
    }
    forall index, field, entity ensures RowsAt(u.minute, index * MINUTE, field, entity) <= 1 {
      SweepRowsAt(t, now, keep, index, field, entity);
      if Folds(t.raw, cut, index, field, entity) {
        NewBucket(t, last, cut, keep, index, field, entity);
      }
    }
  }

  /** A bucket that a sweep folds has no row yet. */
  lemma NewBucket(t: Tables, last: LastSweep, cut: int, keep: Retention, index: int, field: nat, entity: nat)
    requires OnePerBucket(t, last, keep)
    requires Folds(t.raw, cut, index, field, entity)
    ensures RowsAt(t.minute, index * MINUTE, field, entity) == 0
  {
    hide RowsAt, TruncDiv, Older;
    OlderIn(t.raw, cut);
    var r :| r in Older(t.raw, cut) && InBucket(r, MINUTE, index, field, entity);
    EdgeOfRow(r.ts, MINUTE, index);
    if last.At? {
      EdgeSide(r.ts, last.now - keep.raw);
    }
    NoRowsAt(t.minute, index * MINUTE, field, entity);
  }

  /** With cutoffs on the edges and no late writes a series has at most one row for each minute. */
  lemma {:induction false} AlignedRunsOnePer(actions: seq<Action>, keep: Retention)
    requires Aligned(actions, keep)
    ensures OnePerBucket(AfterRun(actions, keep), LastSweepOf(actions), keep)
    decreases |actions|
  {
    hide Swept, RowsAt, RowsOfSamples;
    if actions == [] {
      EmptyOnePer(keep);
    } else {
      var before := actions[..|actions| - 1];
      AlignedRunsOnePer(before, keep);
      match actions[|actions| - 1] {
        case Write(samples) => WriteOnePer(AfterRun(before, keep), LastSweepOf(before), keep, samples);
        case Sweep(now) => SweepOnePer(AfterRun(before, keep), LastSweepOf(before), now, keep);
      }
    }
  }

  lemma EmptyOnePer(keep: Retention)
    ensures OnePerBucket(Tables([], [], []), Never, keep)
  {}

  lemma WriteOnePer(t: Tables, last: LastSweep, keep: Retention, samples: seq<Sample>)
    requires OnePerBucket(t, last, keep)
    requires forall s <- samples :: s.ts >= 0 && NotOlder(s.ts, last, keep)
    ensures OnePerBucket(Inserted(t, samples), last, keep)
  {
    hide RowsAt;
    var u := Inserted(t, samples);
    forall r | r in u.raw ensures r.ts >= 0 && NotOlder(r.ts, last, keep) {
      if r !in t.raw {
        var i :| 0 <= i < |samples| && RowsOfSamples(samples)[i] == r;
        assert samples[i] in samples && r == RowOf(samples[i]);
      }
    }
  }

  /** Where a minute has two rows: the first sweep's cutoff falls inside it, and each row is the mean of
      only a part of its samples. */
  lemma SplitMinute(v: real, w: real)
    ensures var run := [Write([Sample(0, 0, 0, v), Sample(30_000, 0, 0, w)]), Sweep(10_000), Sweep(60_000)];
      RowsAt(AfterRun(run, Retention(0, 120_000)).minute, 0, 0, 0) == 2
  {
    hide RowsAt, Swept, Folds;
    var (a, b, keep) := (Sample(0, 0, 0, v), Sample(30_000, 0, 0, w), Retention(0, 120_000));
    var (write, first, second) := (Write([a, b]), Sweep(10_000), Sweep(60_000));
    var run := [write, first, second];
    assert run[..2] == [write, first] && [write, first][..1] == [write] && [write][..0] == [];
    var t0 := Inserted(Tables([], [], []), [a, b]);
    assert AfterRun([write], keep) == t0;
    var t1 := Swept(t0, 10_000, keep);
    assert AfterRun([write, first], keep) == t1;
    SweepRowsAt(t0, 10_000, keep, 0, 0, 0);
    SweepRowsAt(t1, 60_000, keep, 0, 0, 0);
    FirstFolds(a, b);
    SecondFolds(a, b, keep);
    NoRowsAt([], 0, 0, 0);
  }

  lemma TwoRows(a: Sample, b: Sample)
    ensures RowsOfSamples([a, b]) == [RowOf(a), RowOf(b)]
  {}

  lemma FirstFolds(a: Sample, b: Sample)
    requires a.ts == 0 && a.field == 0 && a.entity == 0
    ensures Folds(Inserted(Tables([], [], []), [a, b]).raw, 10_000, 0, 0, 0)
  {
    TwoRows(a, b);
    var rows := Inserted(Tables([], [], []), [a, b]).raw;
    assert rows == [RowOf(a), RowOf(b)];
    assert RowOf(a) in Older(rows, 10_000) && InBucket(RowOf(a), MINUTE, 0, 0, 0);
  }

  lemma SecondFolds(a: Sample, b: Sample, keep: Retention)
    requires a.ts == 0 && b.ts == 30_000 && b.field == 0 && b.entity == 0 && keep.raw == 0
    ensures Folds(Swept(Inserted(Tables([], [], []), [a, b]), 10_000, keep).raw, 60_000, 0, 0, 0)
  {
    TwoRows(a, b);
    var rows := Inserted(Tables([], [], []), [a, b]).raw;
    assert rows == [RowOf(a), RowOf(b)] && rows[1..] == [RowOf(b)] && [RowOf(b)][1..] == [];
    assert Remaining([RowOf(b)], 10_000) == [RowOf(b)];
    assert Swept(Inserted(Tables([], [], []), [a, b]), 10_000, keep).raw == [RowOf(b)];
    assert RowOf(b) in Older([RowOf(b)], 60_000) && InBucket(RowOf(b), MINUTE, 0, 0, 0);
  }
}
