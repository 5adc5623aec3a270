/** Lineage is bookkeeping of the proof and not a column of the database: nothing that demotion keeps
    or inserts depends on it. */
module HistoryLineage {
  import opened HistoryRows
  import opened HistoryTables

  /** Equal in every column the database has. */
  predicate SameRow(r: Row, s: Row) {
    r.ts == s.ts && r.field == s.field && r.entity == s.entity && r.value == s.value
  }

  predicate SameColumns(a: seq<Row>, b: seq<Row>) {
    |a| == |b| && forall i :: 0 <= i < |a| ==> SameRow(a[i], b[i])
  }

  predicate SameGroup(g: Group, h: Group) {
    SameKey(g, h) && SameColumns(g.rows, h.rows)
  }

  predicate SameGroups(a: seq<Group>, b: seq<Group>) {
    |a| == |b| && forall i :: 0 <= i < |a| ==> SameGroup(a[i], b[i])
  }

  lemma SameCons(r: Row, s: Row, a: seq<Row>, b: seq<Row>)
    requires SameRow(r, s) && SameColumns(a, b)
    ensures SameColumns([r] + a, [s] + b)
  {
    hide SameRow;
  }

  lemma SameSnoc(a: seq<Row>, b: seq<Row>, r: Row, s: Row)
    requires SameRow(r, s) && SameColumns(a, b)
    ensures SameColumns(a + [r], b + [s])
  {
    hide SameRow;
  }

  lemma SameConsGroups(g: Group, h: Group, a: seq<Group>, b: seq<Group>)
    requires SameGroup(g, h) && SameGroups(a, b)
    ensures SameGroups([g] + a, [h] + b)
  {
    hide SameGroup;
  }

  lemma SameTails(a: seq<Group>, b: seq<Group>)
    requires SameGroups(a, b) && a != []
    ensures SameGroup(a[0], b[0]) && SameGroups(a[1..], b[1..])
  {
    hide SameGroup;
  }

  lemma {:induction false} AddIgnoresLineage(a: seq<Group>, b: seq<Group>, r: Row, s: Row, bucket: int)
    requires bucket > 0 && SameGroups(a, b) && SameRow(r, s)
    ensures SameGroups(AddToGroups(a, r, bucket), AddToGroups(b, s, bucket))
  {
    hide TruncDiv;
    if a == [] {
      SameSnoc([], [], r, s);
      SameConsGroups(Group(TruncDiv(r.ts, bucket), r.field, r.entity, [r]),
                     Group(TruncDiv(s.ts, bucket), s.field, s.entity, [s]), [], []);
    } else {
      SameTails(a, b);
      hide SameGroups, SameColumns;
      SameSnoc(a[0].rows, b[0].rows, r, s);
      AddIgnoresLineage(a[1..], b[1..], r, s, bucket);
    }
  }

  lemma {:induction false} GroupingIgnoresLineage(a: seq<Row>, b: seq<Row>, bucket: int)
    requires bucket > 0 && SameColumns(a, b)
    ensures SameGroups(Grouped(a, bucket), Grouped(b, bucket))
    decreases |a|
  {
    hide SameGroups, AddToGroups, SameRow;
    if a == [] {
      NoGroups();
    } else {
      var n := |a| - 1;
      GroupingIgnoresLineage(a[..n], b[..n], bucket);
      AddIgnoresLineage(Grouped(a[..n], bucket), Grouped(b[..n], bucket), a[n], b[n], bucket);
    }
  }

  lemma NoGroups()
    ensures SameGroups([], [])
  {}

  lemma {:induction false} SumIgnoresLineage(a: seq<Row>, b: seq<Row>)
    requires SameColumns(a, b)
    ensures Sum(a) == Sum(b)
  {
    if a != [] {
      SumIgnoresLineage(a[1..], b[1..]);
    }
  }

  lemma {:induction false} FilterIgnoresLineage(a: seq<Row>, b: seq<Row>, cutoff: int)
    requires SameColumns(a, b)
    ensures SameColumns(Older(a, cutoff), Older(b, cutoff)) && SameColumns(Remaining(a, cutoff), Remaining(b, cutoff))
  {
    if a != [] {
      assert SameRow(a[0], b[0]) && SameColumns(a[1..], b[1..]);
      FilterIgnoresLineage(a[1..], b[1..], cutoff);
      hide SameColumns;
      if a[0].ts < cutoff {
        SameCons(a[0], b[0], Older(a[1..], cutoff), Older(b[1..], cutoff));
      } else {
        SameCons(a[0], b[0], Remaining(a[1..], cutoff), Remaining(b[1..], cutoff));
      }
    }
  }

  /** Lineage is bookkeeping: what a demotion keeps and inserts, column for column, does not
      depend on it. */
  lemma DemotionIgnoresLineage(a: seq<Row>, b: seq<Row>, cutoff: int, bucket: int)
    requires bucket > 0 && SameColumns(a, b)
    ensures SameColumns(Folded(a, cutoff, bucket), Folded(b, cutoff, bucket))
    ensures SameColumns(Remaining(a, cutoff), Remaining(b, cutoff))
  {
    hide TruncDiv, Grouped, Older, Remaining, Promoted;
    FilterIgnoresLineage(a, b, cutoff);
    var x, y := Older(a, cutoff), Older(b, cutoff);
    GroupingIgnoresLineage(x, y, bucket);
    GroupedIsPartition(x, bucket);
    GroupedIsPartition(y, bucket);
    PromotionIgnoresLineage(Grouped(x, bucket), Grouped(y, bucket), bucket);
  }

  lemma PromotionIgnoresLineage(a: seq<Group>, b: seq<Group>, bucket: int)
    requires bucket > 0 && SameGroups(a, b) && (forall g <- a :: g.rows != []) && forall g <- b :: g.rows != []
    ensures SameColumns(Promoted(a, bucket), Promoted(b, bucket))
  {
    hide Sum, Lineage;
    forall i | 0 <= i < |a| ensures a[i].rows != [] && b[i].rows != [] && Sum(a[i].rows) == Sum(b[i].rows) {
      assert a[i] in a && b[i] in b;
      SumIgnoresLineage(a[i].rows, b[i].rows);
    }
  }
}
