/** Where a sample is after a sweep, and which samples a query sees. The minute and hour tables hold
    demoted samples only, so a range routed to them does not show the most recent ones. */
module HistoryPlacement {
  import opened HistoryRows
  import opened HistoryTables
  import opened HistoryQuery

  /** The clock of the last sweep of a run. */
  datatype LastSweep = Never | At(now: int)

  function LastSweepOf(actions: seq<Action>): LastSweep
    decreases |actions|
  {
    if actions == [] then Never
    else
      match actions[|actions| - 1]
      case Write(_) => LastSweepOf(actions[..|actions| - 1])
      case Sweep(now) => At(now)
  }

  predicate NotAfter(last: LastSweep, now: int) {
    last.At? ==> last.now <= now
  }

  /** The clock never runs backwards from one sweep to the next. */
  predicate ClockForward(actions: seq<Action>)
    decreases |actions|
  {
    actions == [] || (
      var before := actions[..|actions| - 1];
      && ClockForward(before)
      && (actions[|actions| - 1].Sweep? ==> NotAfter(LastSweepOf(before), actions[|actions| - 1].now)))
  }

  /** The tier a sample of this age is in after a sweep. */
  function TierOf(ts: int, now: int, keep: Retention): Tier {
    if ts >= now - keep.raw then Raw
    else if BucketStart(ts, MINUTE) >= now - keep.minute then Minute
    else Hour
  }

  function Width(tier: Tier): (w: int)
    ensures w > 0
  {
    match tier
    case Raw => 1
    case Minute => MINUTE
    case Hour => HOUR
  }

  ghost predicate AllIn(rows: seq<Row>, tier: Tier, now: int, keep: Retention) {
    forall s :: s in Total(rows) ==> TierOf(s.ts, now, keep) == tier
  }

  /** What the last sweep left of the two coarse tables. */
  ghost predicate Placed(t: Tables, last: LastSweep, keep: Retention) {
    match last
    case Never => t.minute == [] && t.hour == []
    case At(now) => AllIn(t.minute, Minute, now, keep) && AllIn(t.hour, Hour, now, keep)
  }

  // ----- lineage through one sweep -----------------------------------------------------------

  lemma {:induction false} TotalFrom(rows: seq<Row>, s: Sample)
    requires s in Total(rows)
    ensures exists r <- rows :: s in r.lineage
  {
    if s !in multiset(rows[0].lineage) {
      TotalFrom(rows[1..], s);
    }
  }

  /** A sample of an older row has an older edge, one of a remaining row has not. */
  lemma SplitEdges(rows: seq<Row>, cutoff: int, bucket: int, s: Sample)
    requires bucket > 0 && TableOk(rows, bucket)
    ensures s in Total(Older(rows, cutoff)) ==> BucketStart(s.ts, bucket) < cutoff
    ensures s in Total(Remaining(rows, cutoff)) ==> BucketStart(s.ts, bucket) >= cutoff
    ensures s in Total(rows) <==> s in Total(Older(rows, cutoff)) || s in Total(Remaining(rows, cutoff))
  {
    hide Total, Older, Remaining, BucketStart;
    TotalSplits(rows, cutoff);
    if s in Total(Older(rows, cutoff)) {
      TotalFrom(Older(rows, cutoff), s);
      OlderIn(rows, cutoff);
      var r :| r in Older(rows, cutoff) && s in r.lineage;
      assert RowOk(r, bucket);
    }
    if s in Total(Remaining(rows, cutoff)) {
      TotalFrom(Remaining(rows, cutoff), s);
      OlderIn(rows, cutoff);
      var r :| r in Remaining(rows, cutoff) && s in r.lineage;
      assert RowOk(r, bucket);
    }
  }

  lemma EdgeOfOne(ts: int)
    ensures BucketStart(ts, 1) == ts
  {}

  lemma MiddleTotal(t: Tables, cut: int, s: Sample)
    ensures s in Total(t.minute + Folded(t.raw, cut, MINUTE)) <==> s in Total(t.minute) || s in Total(Older(t.raw, cut))
  {
    hide Total, Folded, Older;
    TotalConcat(t.minute, Folded(t.raw, cut, MINUTE));
    FoldedTotal(t.raw, cut, MINUTE);
  }

  /** A sweep puts every sample into the tier of its age. */
  lemma SweepPlaces(t: Tables, last: LastSweep, now: int, keep: Retention)
    requires TablesOk(t) && Placed(t, last, keep) && NotAfter(last, now)
    ensures var u := Swept(t, now, keep);
      Placed(u, At(now), keep) && AllIn(u.raw, Raw, now, keep)
  {
    hide RowOk, Folded, Total, Remaining, Older, BucketStart, Placed;
    var (rawCut, minuteCut) := (now - keep.raw, now - keep.minute);
    var mid := t.minute + Folded(t.raw, rawCut, MINUTE);
    var u := Swept(t, now, keep);
    FoldedOk(t.raw, rawCut, 1, MINUTE);
    forall s ensures s in Total(u.raw) ==> TierOf(s.ts, now, keep) == Raw {
      SplitEdges(t.raw, rawCut, 1, s);
      EdgeOfOne(s.ts);
    }
    forall s ensures s in Total(u.minute) ==> TierOf(s.ts, now, keep) == Minute {
      MinutePlaced(t, last, now, keep, s);
    }
    forall s ensures s in Total(u.hour) ==> TierOf(s.ts, now, keep) == Hour {
      HourPlaced(t, last, now, keep, s);
    }
    PlacedAt(u, now, keep);
  }

  lemma PlacedAt(u: Tables, now: int, keep: Retention)
    requires AllIn(u.minute, Minute, now, keep) && AllIn(u.hour, Hour, now, keep)
    ensures Placed(u, At(now), keep)
  {}

  lemma MiddlePlaced(t: Tables, last: LastSweep, now: int, keep: Retention, s: Sample)
    requires TablesOk(t) && Placed(t, last, keep) && NotAfter(last, now)
    requires s in Total(t.minute + Folded(t.raw, now - keep.raw, MINUTE))
    ensures s.ts < now - keep.raw
  {
    hide Total, Folded, Older, BucketStart, RowOk;
    MiddleTotal(t, now - keep.raw, s);
    SplitEdges(t.raw, now - keep.raw, 1, s);
    EdgeOfOne(s.ts);
    NothingTotal();
  }

  lemma MinutePlaced(t: Tables, last: LastSweep, now: int, keep: Retention, s: Sample)
    requires TablesOk(t) && Placed(t, last, keep) && NotAfter(last, now)
    ensures s in Total(Swept(t, now, keep).minute) ==> TierOf(s.ts, now, keep) == Minute
  {
    hide Total, Folded, Older, Remaining, BucketStart, RowOk, Placed;
    var mid := t.minute + Folded(t.raw, now - keep.raw, MINUTE);
    if s in Total(Swept(t, now, keep).minute) {
      FoldedOk(t.raw, now - keep.raw, 1, MINUTE);
      SplitEdges(mid, now - keep.minute, MINUTE, s);
      MiddlePlaced(t, last, now, keep, s);
    }
  }

  lemma HourPlaced(t: Tables, last: LastSweep, now: int, keep: Retention, s: Sample)
    requires TablesOk(t) && Placed(t, last, keep) && NotAfter(last, now)
    ensures s in Total(Swept(t, now, keep).hour) ==> TierOf(s.ts, now, keep) == Hour
  {
    hide Total, Folded, Older, Remaining, BucketStart, RowOk;
    var mid := t.minute + Folded(t.raw, now - keep.raw, MINUTE);
    if s in Total(Swept(t, now, keep).hour) {
      FoldedOk(t.raw, now - keep.raw, 1, MINUTE);
      TotalConcat(t.hour, Folded(mid, now - keep.minute, HOUR));
      FoldedTotal(mid, now - keep.minute, HOUR);
      SplitEdges(mid, now - keep.minute, MINUTE, s);
      NothingTotal();
      if s in Total(Older(mid, now - keep.minute)) {
        MiddlePlaced(t, last, now, keep, s);
      }
    }
  }

  // ----- whole runs --------------------------------------------------------------------------

  lemma {:induction false} RunPlaced(actions: seq<Action>, keep: Retention)
    requires ClockForward(actions)
    ensures Placed(AfterRun(actions, keep), LastSweepOf(actions), keep)
    decreases |actions|
  {
    hide TablesOk, Swept, AllIn;
    if actions != [] {
      var before := actions[..|actions| - 1];
      RunPlaced(before, keep);
      RunConserves(before, keep);
      match actions[|actions| - 1] {
        case Write(samples) =>
        case Sweep(now) => SweepPlaces(AfterRun(before, keep), LastSweepOf(before), now, keep);
      }
    }
  }

  lemma EndsWithSweep(actions: seq<Action>, now: int, keep: Retention)
    ensures var run := actions + [Sweep(now)];
      && AfterRun(run, keep) == Swept(AfterRun(actions, keep), now, keep)
      && multiset(Accepted(run)) == multiset(Accepted(actions))
      && (ClockForward(run) <==> ClockForward(actions) && NotAfter(LastSweepOf(actions), now))
  {
    hide Swept;
    var run := actions + [Sweep(now)];
    assert run[..|run| - 1] == actions && run[|run| - 1] == Sweep(now);
    assert Accepted(run) == Accepted(actions);
  }

  lemma OneTier(t: Tables, accepted: multiset<Sample>, now: int, keep: Retention, tier: Tier, s: Sample)
    requires Stored(t) == accepted
    requires AllIn(t.raw, Raw, now, keep) && AllIn(t.minute, Minute, now, keep) && AllIn(t.hour, Hour, now, keep)
    ensures Total(TableOf(t, tier))[s] == if TierOf(s.ts, now, keep) == tier then accepted[s] else 0
  {
    hide Total, TierOf;
    assert Total(t.raw)[s] + Total(t.minute)[s] + Total(t.hour)[s] == accepted[s];
    assert s !in Total(t.raw) || TierOf(s.ts, now, keep) == Raw;
    assert s !in Total(t.minute) || TierOf(s.ts, now, keep) == Minute;
    assert s !in Total(t.hour) || TierOf(s.ts, now, keep) == Hour;
  }

  /** After any run under a clock that does not run backwards, ending with a sweep, each tier stands
      for exactly the accepted samples of its age band. */
  lemma TiersByAge(actions: seq<Action>, now: int, keep: Retention, tier: Tier, s: Sample)
    requires ClockForward(actions + [Sweep(now)])
    ensures Total(TableOf(AfterRun(actions + [Sweep(now)], keep), tier))[s] ==
      if TierOf(s.ts, now, keep) == tier then multiset(Accepted(actions))[s] else 0
  {
    hide Total, TierOf, Swept, TablesOk, AfterRun, Accepted, ClockForward, Stored, AllIn;
    EndsWithSweep(actions, now, keep);
    RunPlaced(actions, keep);
    RunConserves(actions, keep);
    RunConserves(actions + [Sweep(now)], keep);
    SweepPlaces(AfterRun(actions, keep), LastSweepOf(actions), now, keep);
    OneTier(AfterRun(actions + [Sweep(now)], keep), multiset(Accepted(actions)), now, keep, tier, s);
  }

  // ----- what a query sees -------------------------------------------------------------------

  /** The samples behind a query's rows are those of the series whose edges lie in the range. */
  lemma {:induction false} MatchingLineage(rows: seq<Row>, bucket: int, field: nat, entity: nat, from: int, to: int, s: Sample)
    requires bucket > 0 && TableOk(rows, bucket)
    ensures Total(Matching(rows, field, entity, from, to))[s] ==
      if s.field == field && s.entity == entity && from <= BucketStart(s.ts, bucket) <= to then Total(rows)[s] else 0
  {
    hide BucketStart;
    if rows != [] {
      assert RowOk(rows[0], bucket);
      MatchingLineage(rows[1..], bucket, field, entity, from, to, s);
      if Wanted(rows[0], field, entity, from, to) {
        TotalCons(rows[0], Matching(rows[1..], field, entity, from, to));
      }
      assert s in multiset(rows[0].lineage) <==> s in rows[0].lineage;
    }
  }

  /** Right after a sweep, a query without a limit stands for exactly the accepted samples of its
      series whose edge lies in the range and whose age puts them into the tier the range is
      routed to. Samples of the range in another tier are not in the answer. */
  lemma TierSees(actions: seq<Action>, now: int, keep: Retention, field: nat, entity: nat, from: int, to: int, s: Sample)
    requires ClockForward(actions + [Sweep(now)])
    ensures var tier := TierForRange(from, to);
      var answer := Matching(TableOf(AfterRun(actions + [Sweep(now)], keep), tier), field, entity, from, to);
      Total(answer)[s] ==
      if s.field == field && s.entity == entity && from <= BucketStart(s.ts, Width(tier)) <= to
         && TierOf(s.ts, now, keep) == tier
      then multiset(Accepted(actions))[s] else 0
  {
    hide Total, TierOf, BucketStart, Matching, Accepted, AfterRun, TierForRange;
    var tier := TierForRange(from, to);
    TiersByAge(actions, now, keep, tier, s);
    RunConserves(actions + [Sweep(now)], keep);
    var rows := TableOf(AfterRun(actions + [Sweep(now)], keep), tier);
    MatchingLineage(rows, Width(tier), field, entity, from, to, s);
  }

  /** Up to an hour is routed to the raw rows, up to a day to the minutes, more to the hours. */
  lemma RangeRouting(from: int, to: int)
    ensures TierForRange(from, to) == Raw <==> to - from <= 3_600_000
    ensures TierForRange(from, to) == Minute <==> 3_600_000 < to - from <= 86_400_000
    ensures TierForRange(from, to) == Hour <==> to - from > 86_400_000
  {}

  /** What a query without a limit stands for right after a sweep, in milliseconds: of the accepted
      samples of its series, over up to an hour those in the range that are not older than the raw
      cutoff; over up to a day those older than it whose minute is in the range and not older than the
      minute cutoff; over more those whose minute is older and whose hour is in the range. */
  lemma QuerySees(actions: seq<Action>, now: int, keep: Retention, field: nat, entity: nat, from: int, to: int, s: Sample)
    requires ClockForward(actions + [Sweep(now)])
    ensures var answer := Matching(TableOf(AfterRun(actions + [Sweep(now)], keep), TierForRange(from, to)), field, entity, from, to);
      var (minute, hour) := (BucketStart(s.ts, 60_000), BucketStart(s.ts, 3_600_000));
      var (rawKept, minuteKept) := (s.ts >= now - keep.raw, minute >= now - keep.minute);
      var shown :=
        if to - from <= 3_600_000 then from <= s.ts <= to && rawKept
        else if to - from <= 86_400_000 then from <= minute <= to && !rawKept && minuteKept
        else from <= hour <= to && !rawKept && !minuteKept;
      Total(answer)[s] == if s.field == field && s.entity == entity && shown then multiset(Accepted(actions))[s] else 0
  {
    hide Total, BucketStart, Matching, Accepted, AfterRun, TierForRange, ClockForward;
    TierSees(actions, now, keep, field, entity, from, to, s);
    RangeRouting(from, to);
    EdgeOfOne(s.ts);
  }

  /** A query of the last hour right after a sweep shows every accepted sample of that hour, if raw rows are
      kept for an hour or longer. */
  lemma LastHourComplete(actions: seq<Action>, now: int, keep: Retention, s: Sample)
    requires ClockForward(actions + [Sweep(now)]) && keep.raw >= 3_600_000
    requires s in Accepted(actions) && now - 3_600_000 <= s.ts <= now
    ensures var (from, t) := (now - 3_600_000, AfterRun(actions + [Sweep(now)], keep));
      Total(Matching(TableOf(t, TierForRange(from, now)), s.field, s.entity, from, now))[s] == multiset(Accepted(actions))[s] > 0
  {
    hide Total, BucketStart, Matching, Accepted, AfterRun, TierForRange, ClockForward;
    QuerySees(actions, now, keep, s.field, s.entity, now - 3_600_000, now, s);
    assert s in multiset(Accepted(actions));
  }

  /** A query of the last 24 hours finds nothing of a sample written just now: the range is routed
      to the minute table, and the sample is still in the raw one. */
  lemma LastDayMissesNow(s: Sample, keep: Retention)
    requires keep.raw >= 0
    ensures TierForRange(s.ts - ONE_DAY, s.ts) == Minute
    ensures Matching(AfterRun([Write([s]), Sweep(s.ts)], keep).minute, s.field, s.entity, s.ts - ONE_DAY, s.ts) == []
  {
    hide Matching, AfterRun, Total, Accepted, Swept, TableOk, ClockForward, TierOf;
    assert [Write([s]), Sweep(s.ts)] == [Write([s])] + [Sweep(s.ts)];
    MinuteTableEmpty(s, keep);
    NothingMatches(s.field, s.entity, s.ts - ONE_DAY, s.ts);
  }

  lemma MinuteTableEmpty(s: Sample, keep: Retention)
    requires keep.raw >= 0
    ensures AfterRun([Write([s])] + [Sweep(s.ts)], keep).minute == []
  {
    hide AfterRun, Total, Accepted, Swept, TableOk, ClockForward, BucketStart, TruncDiv;
    var run := [Write([s])] + [Sweep(s.ts)];
    var rows := AfterRun(run, keep).minute;
    RunConserves(run, keep);
    forall x ensures Total(rows)[x] == 0 {
      MinuteHasNone(s, keep, x);
    }
    NoSamplesNoRows(rows, MINUTE);
  }

  lemma MinuteHasNone(s: Sample, keep: Retention, x: Sample)
    requires keep.raw >= 0
    ensures Total(AfterRun([Write([s])] + [Sweep(s.ts)], keep).minute)[x] == 0
  {
    hide AfterRun, Total, Swept, BucketStart, ClockForward, Accepted;
    WriteOnly(s);
    EndsWithSweep([Write([s])], s.ts, keep);
    TiersByAge([Write([s])], s.ts, keep, Minute, x);
    assert multiset([s])[x] > 0 ==> x == s;
  }

  lemma WriteOnly(s: Sample)
    ensures ClockForward([Write([s])]) && LastSweepOf([Write([s])]) == Never && Accepted([Write([s])]) == [s]
  {
    assert [Write([s])][..0] == [];
    assert Accepted([]) == [];
  }

  lemma NothingMatches(field: nat, entity: nat, from: int, to: int)
    ensures Matching([], field, entity, from, to) == []
  {}

  lemma NoSamplesNoRows(rows: seq<Row>, bucket: int)
    requires bucket > 0 && TableOk(rows, bucket) && forall x :: Total(rows)[x] == 0
    ensures rows == []
  {
    if rows != [] {
      assert RowOk(rows[0], bucket);
      assert rows[0].lineage[0] in multiset(rows[0].lineage);
      assert Total(rows)[rows[0].lineage[0]] > 0;
    }
  }
}
