/** The three-tier historian as values (src/historian/SqliteHistoryStore.cpp): what writing and demoting do
    to the tables, and that no sample is lost or counted twice. Tables are sequences of rows. */
module HistoryTables {
  import opened Sequences
  import opened HistoryRows

  const MINUTE: int := 60_000
  const HOUR: int := 3_600_000

  datatype Tier = Raw | Minute | Hour

  datatype Tables = Tables(raw: seq<Row>, minute: seq<Row>, hour: seq<Row>)

  function TableOf(t: Tables, tier: Tier): seq<Row> {
    match tier
    case Raw => t.raw
    case Minute => t.minute
    case Hour => t.hour
  }

  function WithTable(t: Tables, tier: Tier, rows: seq<Row>): Tables {
    match tier
    case Raw => t.(raw := rows)
    case Minute => t.(minute := rows)
    case Hour => t.(hour := rows)
  }

  // ----- what the statements do --------------------------------------------------------------

  function RowOf(s: Sample): Row {
    Row(s.ts, s.field, s.entity, s.value, [s])
  }

  function RowsOfSamples(samples: seq<Sample>): (rows: seq<Row>)
    ensures |rows| == |samples| && forall i :: 0 <= i < |rows| ==> rows[i] == RowOf(samples[i])
  {
    seq(|samples|, i requires 0 <= i < |samples| => RowOf(samples[i]))
  }

  /** WHERE ts < cutoff. */
  function Older(rows: seq<Row>, cutoff: int): seq<Row> {
    if rows == [] then []
    else if rows[0].ts < cutoff then [rows[0]] + Older(rows[1..], cutoff)
    else Older(rows[1..], cutoff)
  }

  function Remaining(rows: seq<Row>, cutoff: int): seq<Row> {
    if rows == [] then []
    else if rows[0].ts < cutoff then Remaining(rows[1..], cutoff)
    else [rows[0]] + Remaining(rows[1..], cutoff)
  }

  function Lineage(rows: seq<Row>): seq<Sample> {
    if rows == [] then [] else rows[0].lineage + Lineage(rows[1..])
  }

  /** SELECT (ts / bucket) * bucket, field, entity, AVG(value): one row for each group. */
  function Promoted(groups: seq<Group>, bucket: int): (rows: seq<Row>)
    requires bucket > 0 && forall g <- groups :: g.rows != []
    ensures |rows| == |groups|
  {
    seq(|groups|, i requires 0 <= i < |groups| =>
      Row(groups[i].index * bucket, groups[i].field, groups[i].entity, Average(groups[i].rows), Lineage(groups[i].rows)))
  }

  /** The rows one demotion inserts into the next tier. */
  function Folded(rows: seq<Row>, cutoff: int, bucket: int): seq<Row>
    requires bucket > 0
  {
    GroupedIsPartition(Older(rows, cutoff), bucket);
    Promoted(Grouped(Older(rows, cutoff), bucket), bucket)
  }

  function Demoted(t: Tables, src: Tier, dst: Tier, cutoff: int, bucket: int): Tables {
    if bucket <= 0 || src == dst then t
    else
      var inserted := WithTable(t, dst, TableOf(t, dst) + Folded(TableOf(t, src), cutoff, bucket));
      WithTable(inserted, src, Remaining(TableOf(inserted, src), cutoff))
  }

  datatype Retention = Retention(raw: int, minute: int)

  /** One sweep: raw to minute, then minute to hour, on one reading of the clock. */
  function Swept(t: Tables, now: int, keep: Retention): Tables {
    Demoted(Demoted(t, Raw, Minute, now - keep.raw, MINUTE), Minute, Hour, now - keep.minute, HOUR)
  }

  // ----- conservation ------------------------------------------------------------------------

  function Smallest(samples: seq<Sample>): real
    requires samples != []
  {
    if |samples| == 1 then samples[0].value
    else if samples[0].value < Smallest(samples[1..]) then samples[0].value else Smallest(samples[1..])
  }

  function Largest(samples: seq<Sample>): real
    requires samples != []
  {
    if |samples| == 1 then samples[0].value
    else if samples[0].value > Largest(samples[1..]) then samples[0].value else Largest(samples[1..])
  }

  /** A row stands for its lineage: same series, its ts is the bucket edge of every sample's own
      ts, and its value lies between the least and the greatest of them. */
  predicate RowOk(r: Row, bucket: int)
    requires bucket > 0
  {
    && r.lineage != []
    && (forall s <- r.lineage :: s.field == r.field && s.entity == r.entity && BucketStart(s.ts, bucket) == r.ts)
    && Within(r.value, Smallest(r.lineage), Largest(r.lineage))
  }

  predicate TableOk(rows: seq<Row>, bucket: int)
    requires bucket > 0
  {
    forall r <- rows :: RowOk(r, bucket)
  }

  /** Raw rows keep the sample's own ts, the other tiers its minute and hour edge. */
  predicate TablesOk(t: Tables) {
    TableOk(t.raw, 1) && TableOk(t.minute, MINUTE) && TableOk(t.hour, HOUR)
  }

  /** The samples a list of rows stands for, each as often as rows name it. */
  ghost function Total(rows: seq<Row>): multiset<Sample> {
    if rows == [] then multiset{} else multiset(rows[0].lineage) + Total(rows[1..])
  }

  /** Every sample with the number of rows it is in the lineage of, over all tiers. */
  ghost function Stored(t: Tables): multiset<Sample> {
    Total(t.raw) + Total(t.minute) + Total(t.hour)
  }

  lemma {:induction false} TotalConcat(a: seq<Row>, b: seq<Row>)
    ensures Total(a + b) == Total(a) + Total(b)
  {
    if a == [] {
      assert a + b == b;
    } else {
      assert (a + b)[1..] == a[1..] + b;
      TotalConcat(a[1..], b);
    }
  }

  lemma {:induction false} TotalIsLineage(rows: seq<Row>)
    ensures Total(rows) == multiset(Lineage(rows))
  {
    if rows != [] {
      TotalIsLineage(rows[1..]);
    }
  }

  lemma {:induction false} TotalSplits(rows: seq<Row>, cutoff: int)
    ensures Total(rows) == Total(Older(rows, cutoff)) + Total(Remaining(rows, cutoff))
  {
    if rows != [] {
      TotalSplits(rows[1..], cutoff);
      if rows[0].ts < cutoff {
        TotalCons(rows[0], Older(rows[1..], cutoff));
      } else {
        TotalCons(rows[0], Remaining(rows[1..], cutoff));
      }
    }
  }

  lemma TotalCons(r: Row, rows: seq<Row>)
    ensures Total([r] + rows) == multiset(r.lineage) + Total(rows)
  {
    assert ([r] + rows)[1..] == rows;
  }

  ghost function GroupTotal(groups: seq<Group>): multiset<Sample> {
    if groups == [] then multiset{} else Total(groups[0].rows) + GroupTotal(groups[1..])
  }

  lemma {:induction false} AddKeepsTotal(groups: seq<Group>, r: Row, bucket: int)
    requires bucket > 0
    ensures GroupTotal(AddToGroups(groups, r, bucket)) == GroupTotal(groups) + Total([r])
  {
    var t := AddToGroups(groups, r, bucket);
    if groups == [] {
      assert t[1..] == [];
    } else if Belongs(r, groups[0], bucket) {
      TotalConcat(groups[0].rows, [r]);
      assert t[1..] == groups[1..];
    } else {
      AddKeepsTotal(groups[1..], r, bucket);
      assert t[1..] == AddToGroups(groups[1..], r, bucket);
    }
  }

  lemma {:induction false} GroupingKeepsTotal(rows: seq<Row>, bucket: int)
    requires bucket > 0
    ensures GroupTotal(Grouped(rows, bucket)) == Total(rows)
    decreases |rows|
  {
    if rows != [] {
      var (before, last) := (rows[..|rows| - 1], rows[|rows| - 1]);
      assert Grouped(rows, bucket) == AddToGroups(Grouped(before, bucket), last, bucket);
      hide *;
      GroupingKeepsTotal(before, bucket);
      AddKeepsTotal(Grouped(before, bucket), last, bucket);
      TotalConcat(before, [last]);
      SplitLast(rows);
    }
  }

  lemma {:induction false} PromotingKeepsTotal(groups: seq<Group>, bucket: int)
    requires bucket > 0 && forall g <- groups :: g.rows != []
    ensures Total(Promoted(groups, bucket)) == GroupTotal(groups)
  {
    if groups != [] {
      PromotingKeepsTotal(groups[1..], bucket);
      TotalIsLineage(groups[0].rows);
      assert Promoted(groups, bucket)[1..] == Promoted(groups[1..], bucket);
    }
  }

  /** Folding keeps the lineage of the rows it folds. */
  lemma FoldedTotal(rows: seq<Row>, cutoff: int, bucket: int)
    requires bucket > 0
    ensures Total(Folded(rows, cutoff, bucket)) == Total(Older(rows, cutoff))
  {
    hide Total, Older, Promoted, Grouped;
    var older := Older(rows, cutoff);
    GroupedIsPartition(older, bucket);
    GroupingKeepsTotal(older, bucket);
    PromotingKeepsTotal(Grouped(older, bucket), bucket);
  }

  /** One demotion moves lineage between tiers and changes none of it. */
  lemma DemotionConserves(t: Tables, src: Tier, dst: Tier, cutoff: int, bucket: int)
    ensures Stored(Demoted(t, src, dst, cutoff, bucket)) == Stored(t)
  {
    if bucket > 0 && src != dst {
      var rows := TableOf(t, src);
      hide Total, Folded, Older, Remaining;
      TotalSplits(rows, cutoff);
      TotalConcat(TableOf(t, dst), Folded(rows, cutoff, bucket));
      FoldedTotal(rows, cutoff, bucket);
    }
  }

  // ----- statements that fail ----------------------------------------------------------------

  /** The first statement of a demotion that fails, if one does. All but the last are rolled back;
      after a failing DELETE step the code commits all the same. */
  datatype Fault = Fine | BeginFails | InsertFails | DeletePrepareFails | DeleteFails

  function DemotedUnder(t: Tables, src: Tier, dst: Tier, cutoff: int, bucket: int, fault: Fault): Tables {
    if bucket <= 0 || src == dst then t
    else
      match fault
      case Fine => Demoted(t, src, dst, cutoff, bucket)
      case DeleteFails => WithTable(t, dst, TableOf(t, dst) + Folded(TableOf(t, src), cutoff, bucket))
      case _ => t
  }

  /** A demotion conserves the samples exactly when its DELETE step does not fail, or has nothing to
      delete: otherwise every demoted sample is stored twice. */
  lemma FaultyDemotionConserves(t: Tables, src: Tier, dst: Tier, cutoff: int, bucket: int, fault: Fault, from: int)
    requires bucket > 0 && src != dst && from > 0 && TableOk(TableOf(t, src), from)
    ensures Stored(DemotedUnder(t, src, dst, cutoff, bucket, fault)) == Stored(t) <==>
      fault != DeleteFails || Older(TableOf(t, src), cutoff) == []
    ensures fault == DeleteFails ==>
      && Stored(DemotedUnder(t, src, dst, cutoff, bucket, fault)) == Stored(t) + Total(Older(TableOf(t, src), cutoff))
      && TableOf(DemotedUnder(t, src, dst, cutoff, bucket, fault), src) == TableOf(t, src)
  {
    hide Total, Folded, Older, RowOk, Demoted;
    DemotionConserves(t, src, dst, cutoff, bucket);
    if fault == DeleteFails {
      var older := Older(TableOf(t, src), cutoff);
      TotalConcat(TableOf(t, dst), Folded(TableOf(t, src), cutoff, bucket));
      FoldedTotal(TableOf(t, src), cutoff, bucket);
      OlderIn(TableOf(t, src), cutoff);
      NothingTotal();
      if older != [] {
        SomethingTotal(older, from);
        MoreIsMore(Stored(t), Total(older));
      }
    }
  }

  /** Nothing at all is changed by a demotion that is rolled back, of no width, or from a tier to itself;
      without a fault no row older than the cutoff is left, and the others stay. */
  lemma DemotionExact(t: Tables, src: Tier, dst: Tier, cutoff: int, bucket: int, fault: Fault)
    ensures bucket <= 0 || src == dst || fault in {BeginFails, InsertFails, DeletePrepareFails} ==>
      DemotedUnder(t, src, dst, cutoff, bucket, fault) == t
    ensures bucket > 0 && src != dst && fault == Fine ==> forall r ::
      multiset(TableOf(DemotedUnder(t, src, dst, cutoff, bucket, fault), src))[r]
      == if r.ts < cutoff then 0 else multiset(TableOf(t, src))[r]
  {
    hide Folded, Remaining;
    if bucket > 0 && src != dst && fault == Fine {
      var rows := TableOf(t, src);
      assert TableOf(DemotedUnder(t, src, dst, cutoff, bucket, fault), src) == Remaining(rows, cutoff);
      forall r ensures multiset(Remaining(rows, cutoff))[r] == if r.ts < cutoff then 0 else multiset(rows)[r] {
        RemainingExact(rows, cutoff, r);
      }
    }
  }

  lemma {:induction false} RemainingExact(rows: seq<Row>, cutoff: int, r: Row)
    ensures multiset(Remaining(rows, cutoff))[r] == if r.ts < cutoff then 0 else multiset(rows)[r]
  {
    if rows != [] {
      RemainingExact(rows[1..], cutoff, r);
      SplitFirst(rows);
    }
  }

  lemma MoreIsMore(a: multiset<Sample>, b: multiset<Sample>)
    requires b != multiset{}
    ensures a + b != a
  {
    var s :| s in b;
    assert (a + b)[s] == a[s] + b[s];
  }

  lemma NothingTotal()
    ensures Total([]) == multiset{}
  {}

  lemma SomethingTotal(rows: seq<Row>, bucket: int)
    requires rows != [] && bucket > 0 && RowOk(rows[0], bucket)
    ensures Total(rows) != multiset{}
  {
    assert rows[0].lineage[0] in multiset(rows[0].lineage);
    assert rows[0].lineage[0] in Total(rows);
  }

  // ----- rows stay honest --------------------------------------------------------------------

  lemma {:induction false} SmallestIsLeast(samples: seq<Sample>, part: seq<Sample>)
    requires part != [] && forall s <- part :: s in samples
    ensures samples != [] && Smallest(samples) <= Smallest(part) && Largest(part) <= Largest(samples)
  {
    assert part[0] in samples;
    SmallestBelow(samples, part[0]);
    if |part| > 1 {
      SmallestIsLeast(samples, part[1..]);
    }
  }

  lemma {:induction false} SmallestBelow(samples: seq<Sample>, s: Sample)
    requires s in samples
    ensures Smallest(samples) <= s.value <= Largest(samples)
  {
    if |samples| > 1 && s in samples[1..] {
      SmallestBelow(samples[1..], s);
    }
  }

  lemma {:induction false} LineageHas(rows: seq<Row>, r: Row)
    requires r in rows
    ensures forall s <- r.lineage :: s in Lineage(rows)
  {
    if r != rows[0] {
      LineageHas(rows[1..], r);
    }
  }

  lemma {:induction false} LineageFrom(rows: seq<Row>, s: Sample)
    requires s in Lineage(rows)
    ensures exists r <- rows :: s in r.lineage
  {
    if s !in rows[0].lineage {
      LineageFrom(rows[1..], s);
    }
  }

  /** Bucket edges nest: the hour of a minute's edge is the hour. */
  lemma EdgesNest(ts: int)
    ensures BucketStart(BucketStart(ts, 1), MINUTE) == BucketStart(ts, MINUTE)
    ensures BucketStart(BucketStart(ts, MINUTE), HOUR) == BucketStart(ts, HOUR)
  {
    FloorsNest(if ts >= 0 then ts else -ts);
    assert BucketStart(ts, 1) == ts;
  }

  lemma FloorsNest(n: nat)
    ensures n / MINUTE * MINUTE / HOUR == n / HOUR
    ensures n / MINUTE == 0 ==> n / HOUR == 0
  {
    var minutes := n / MINUTE;
    assert minutes == minutes / 60 * 60 + minutes % 60;
    assert n == minutes / 60 * HOUR + (minutes % 60 * MINUTE + n % MINUTE);
  }

  /** The edge is the floor exactly from the epoch on and on the edges themselves: the division
      truncates toward zero. */
  lemma EdgeIsFloor(ts: int, bucket: int)
    requires bucket > 0
    ensures BucketStart(ts, bucket) <= ts < BucketStart(ts, bucket) + bucket <==> ts >= 0 || ts % bucket == 0
  {
    if ts < 0 {
      var (n, q, r) := (-ts, (-ts) / bucket, (-ts) % bucket);
      assert n == q * bucket + r;
      assert BucketStart(ts, bucket) == -(q * bucket);
      if r == 0 {
        assert ts == -q * bucket;
        Remainder(ts, -q, 0, bucket);
      } else {
        assert ts == (-q - 1) * bucket + (bucket - r);
        Remainder(ts, -q - 1, bucket - r, bucket);
      }
    }
  }

  lemma Remainder(n: int, q: int, r: int, bucket: int)
    requires bucket > 0 && 0 <= r < bucket && n == q * bucket + r
    ensures n % bucket == r
  {
    var p := n / bucket;
    var s := n % bucket;
    assert n == p * bucket + s;
    SameQuotient(p, s, q, r, bucket);
  }

  lemma SameQuotient(p: int, s: int, q: int, r: int, bucket: int)
    requires 0 <= s < bucket && 0 <= r < bucket && p * bucket + s == q * bucket + r
    ensures r == s
  {
    var d := p - q;
    assert d * bucket == r - s;
    assert d >= 1 ==> d * bucket >= bucket;
    assert d <= -1 ==> d * bucket <= -bucket;
  }

  /** A millisecond before the epoch the edge lies after the timestamp. */
  lemma EdgeBeforeEpoch()
    ensures BucketStart(-1, MINUTE) == 0
  {}

  predicate Feeds(from: int, to: int) {
    (from, to) in {(1, MINUTE), (MINUTE, HOUR)}
  }

  lemma PromotedRowOk(g: Group, from: int, to: int)
    requires Feeds(from, to) && GroupOk(g, to) && TableOk(g.rows, from)
    ensures RowOk(Row(g.index * to, g.field, g.entity, Average(g.rows), Lineage(g.rows)), to)
  {
    hide BucketStart, TruncDiv, Average;
    var all := Lineage(g.rows);
    var first := g.rows[0];
    LineageHas(g.rows, first);
    assert first.lineage[0] in all;
    forall s <- all ensures s.field == g.field && s.entity == g.entity && BucketStart(s.ts, to) == g.index * to {
      LineageFrom(g.rows, s);
      var r :| r in g.rows && s in r.lineage;
      assert Belongs(r, g, to) && RowOk(r, from);
      EdgeOfRow(r.ts, to, g.index);
      EdgesNest(s.ts);
    }
    forall r <- g.rows ensures Within(r.value, Smallest(all), Largest(all)) {
      LineageHas(g.rows, r);
      assert RowOk(r, from);
      SmallestIsLeast(all, r.lineage);
    }
    AverageBounds(g.rows, Smallest(all), Largest(all));
  }

  lemma EdgeOfRow(ts: int, bucket: int, index: int)
    requires bucket > 0 && TruncDiv(ts, bucket) == index
    ensures BucketStart(ts, bucket) == index * bucket
  {}

  lemma {:induction false} OlderIn(rows: seq<Row>, cutoff: int)
    ensures forall r <- Older(rows, cutoff) :: r in rows && r.ts < cutoff
    ensures forall r <- Remaining(rows, cutoff) :: r in rows && r.ts >= cutoff
  {
    if rows != [] {
      OlderIn(rows[1..], cutoff);
    }
  }

  lemma {:induction false} GroupRowsIn(groups: seq<Group>, g: Group)
    requires g in groups
    ensures forall r <- g.rows :: r in RowsOf(groups)
  {
    if g != groups[0] {
      GroupRowsIn(groups[1..], g);
    }
  }

  lemma FoldedOk(rows: seq<Row>, cutoff: int, from: int, to: int)
    requires Feeds(from, to) && TableOk(rows, from)
    ensures TableOk(Folded(rows, cutoff, to), to)
  {
    hide BucketStart, TruncDiv, Average, RowOk, Grouped, Older;
    var older := Older(rows, cutoff);
    var groups := Grouped(older, to);
    GroupedIsPartition(older, to);
    OlderIn(rows, cutoff);
    forall i | 0 <= i < |groups| ensures RowOk(Promoted(groups, to)[i], to) {
      GroupRowsIn(groups, groups[i]);
      forall r <- groups[i].rows ensures r in rows {
        assert r in multiset(older);
      }
      PromotedRowOk(groups[i], from, to);
    }
  }

  /** One sweep: nothing lost, nothing counted twice, every row still stands for its lineage, and
      no raw or minute row is left older than its cutoff. */
  lemma SweepKeeps(t: Tables, now: int, keep: Retention)
    requires TablesOk(t)
    ensures var u := Swept(t, now, keep);
      && TablesOk(u) && Stored(u) == Stored(t)
      && (forall r <- u.raw :: r.ts >= now - keep.raw)
      && (forall r <- u.minute :: r.ts >= now - keep.minute)
  {
    hide RowOk, Folded, Total, Remaining;
    var mid := Demoted(t, Raw, Minute, now - keep.raw, MINUTE);
    DemotionConserves(t, Raw, Minute, now - keep.raw, MINUTE);
    DemotionConserves(mid, Minute, Hour, now - keep.minute, HOUR);
    FoldedOk(t.raw, now - keep.raw, 1, MINUTE);
    FoldedOk(mid.minute, now - keep.minute, MINUTE, HOUR);
    OlderIn(t.raw, now - keep.raw);
    OlderIn(mid.minute, now - keep.minute);
  }

  function Inserted(t: Tables, samples: seq<Sample>): Tables {
    t.(raw := t.raw + RowsOfSamples(samples))
  }

  lemma {:induction false} SamplesTotal(samples: seq<Sample>)
    ensures Total(RowsOfSamples(samples)) == multiset(samples)
  {
    if samples != [] {
      var (first, rest) := (samples[0], samples[1..]);
      SamplesTotal(rest);
      assert RowsOfSamples(samples) == [RowOf(first)] + RowsOfSamples(rest);
      hide Total, RowsOfSamples;
      TotalCons(RowOf(first), RowsOfSamples(rest));
      SplitFirst(samples);
    }
  }

  lemma SamplesOk(samples: seq<Sample>)
    ensures TableOk(RowsOfSamples(samples), 1)
  {
    forall i | 0 <= i < |samples| ensures RowOk(RowOf(samples[i]), 1) {
      assert BucketStart(samples[i].ts, 1) == samples[i].ts;
    }
  }

  lemma WriteKeeps(t: Tables, samples: seq<Sample>)
    requires TablesOk(t)
    ensures TablesOk(Inserted(t, samples)) && Stored(Inserted(t, samples)) == Stored(t) + multiset(samples)
  {
    hide RowOk, RowsOfSamples, Total;
    SamplesTotal(samples);
    SamplesOk(samples);
    TotalConcat(t.raw, RowsOfSamples(samples));
  }

  // ----- whole runs --------------------------------------------------------------------------

  datatype Action = Write(samples: seq<Sample>) | Sweep(now: int)

  function AfterRun(actions: seq<Action>, keep: Retention): Tables
    decreases |actions|
  {
    if actions == [] then Tables([], [], [])
    else
      var t := AfterRun(actions[..|actions| - 1], keep);
      match actions[|actions| - 1]
      case Write(samples) => Inserted(t, samples)
      case Sweep(now) => Swept(t, now, keep)
  }

  function Accepted(actions: seq<Action>): seq<Sample>
    decreases |actions|
  {
    if actions == [] then []
    else
      Accepted(actions[..|actions| - 1]) +
      match actions[|actions| - 1]
      case Write(samples) => samples
      case Sweep(_) => []
  }

  /** Conservation over any run of writes and sweeps, under any clock: every accepted sample is in
      the lineage of exactly one stored row, and every stored row stands for its lineage. */
  lemma {:induction false} RunConserves(actions: seq<Action>, keep: Retention)
    ensures TablesOk(AfterRun(actions, keep))
    ensures Stored(AfterRun(actions, keep)) == multiset(Accepted(actions))
    decreases |actions|
  {
    hide TablesOk, Stored, Inserted, Swept;
    if actions == [] {
      EmptyOk();
    } else {
      var n := |actions| - 1;
      var t := AfterRun(actions[..n], keep);
      RunConserves(actions[..n], keep);
      match actions[n] {
        case Write(samples) => WriteKeeps(t, samples);
        case Sweep(now) => SweepKeeps(t, now, keep);
      }
    }
  }

  lemma EmptyOk()
    ensures TablesOk(Tables([], [], [])) && Stored(Tables([], [], [])) == multiset{}
  {}
}
