/** Rows of the tiered historian and what demotion does to a table
    (src/historian/SqliteHistoryStore.cpp:294-383). Every row carries its lineage, the samples it
    stands for; no value is ever computed from it. */
module HistoryRows {

  datatype Sample = Sample(ts: int, field: nat, entity: nat, value: real)

  datatype Row = Row(ts: int, field: nat, entity: nat, value: real, lineage: seq<Sample>)

  /** SQLite's integer division rounds toward zero. */
  function TruncDiv(a: int, b: int): int
    requires b > 0
  {
    if a >= 0 then a / b else -((-a) / b)
  }

  /** `(ts / bucket) * bucket`: for ts >= 0, the floor of ts to a bucket edge. */
  function BucketStart(ts: int, bucket: int): int
    requires bucket > 0
  {
    TruncDiv(ts, bucket) * bucket
  }

  // ----- GROUP BY (ts / bucket), field, entity -----------------------------------------------

  datatype Group = Group(index: int, field: nat, entity: nat, rows: seq<Row>)

  predicate Belongs(r: Row, g: Group, bucket: int)
    requires bucket > 0
  {
    TruncDiv(r.ts, bucket) == g.index && r.field == g.field && r.entity == g.entity
  }

  function AddToGroups(groups: seq<Group>, r: Row, bucket: int): seq<Group>
    requires bucket > 0
  {
    if groups == [] then [Group(TruncDiv(r.ts, bucket), r.field, r.entity, [r])]
    else if Belongs(r, groups[0], bucket) then [groups[0].(rows := groups[0].rows + [r])] + groups[1..]
    else [groups[0]] + AddToGroups(groups[1..], r, bucket)
  }

  function Grouped(rows: seq<Row>, bucket: int): seq<Group>
    requires bucket > 0
    decreases |rows|
  {
    if rows == [] then [] else AddToGroups(Grouped(rows[..|rows| - 1], bucket), rows[|rows| - 1], bucket)
  }

  predicate GroupOk(g: Group, bucket: int)
    requires bucket > 0
  {
    g.rows != [] && forall r <- g.rows :: Belongs(r, g, bucket)
  }

  predicate SameKey(a: Group, b: Group) {
    a.index == b.index && a.field == b.field && a.entity == b.entity
  }

  predicate KeysDistinct(groups: seq<Group>) {
    forall i, j :: 0 <= i < j < |groups| ==> !SameKey(groups[i], groups[j])
  }

  ghost function RowsOf(groups: seq<Group>): multiset<Row> {
    if groups == [] then multiset{} else multiset(groups[0].rows) + RowsOf(groups[1..])
  }

  lemma {:induction false} AddKeepsGroups(groups: seq<Group>, r: Row, bucket: int)
    requires bucket > 0 && forall g <- groups :: GroupOk(g, bucket)
    ensures forall g <- AddToGroups(groups, r, bucket) :: GroupOk(g, bucket)
  {
    var t := AddToGroups(groups, r, bucket);
    if groups == [] {
      assert GroupOk(t[0], bucket);
    } else if Belongs(r, groups[0], bucket) {
      assert GroupOk(groups[0], bucket) && GroupOk(t[0], bucket);
    } else {
      AddKeepsGroups(groups[1..], r, bucket);
      assert t == [groups[0]] + AddToGroups(groups[1..], r, bucket);
    }
  }

  lemma {:induction false} AddKeepsRows(groups: seq<Group>, r: Row, bucket: int)
    requires bucket > 0
    ensures RowsOf(AddToGroups(groups, r, bucket)) == RowsOf(groups) + multiset{r}
  {
    var t := AddToGroups(groups, r, bucket);
    if groups == [] {
      assert t[1..] == [];
    } else if Belongs(r, groups[0], bucket) {
      assert t[1..] == groups[1..];
    } else {
      AddKeepsRows(groups[1..], r, bucket);
      assert t[1..] == AddToGroups(groups[1..], r, bucket);
    }
  }

  /** Adding a row keeps every key in place and adds at most the row's own, at the end. */
  lemma {:induction false} AddKeepsKeys(groups: seq<Group>, r: Row, bucket: int)
    requires bucket > 0
    ensures var t := AddToGroups(groups, r, bucket);
      && |groups| <= |t| <= |groups| + 1
      && (forall i :: 0 <= i < |groups| ==> SameKey(t[i], groups[i]))
      && (|t| > |groups| ==>
        && Belongs(r, t[|groups|], bucket)
        && forall i :: 0 <= i < |groups| ==> !SameKey(t[|groups|], groups[i]))
  {
    if groups != [] && !Belongs(r, groups[0], bucket) {
      AddKeepsKeys(groups[1..], r, bucket);
      var t, t1 := AddToGroups(groups, r, bucket), AddToGroups(groups[1..], r, bucket);
      assert t == [groups[0]] + t1;
      forall i | 0 <= i < |groups| ensures SameKey(t[i], groups[i]) {
        if i > 0 { assert SameKey(t1[i - 1], groups[1..][i - 1]); }
      }
      if |t| > |groups| {
        forall i | 0 <= i < |groups| ensures !SameKey(t[|groups|], groups[i]) {
          if i > 0 { assert !SameKey(t1[|groups[1..]|], groups[1..][i - 1]); }
        }
      }
    }
  }

  lemma AddKeepsDistinct(groups: seq<Group>, r: Row, bucket: int)
    requires bucket > 0 && KeysDistinct(groups)
    ensures KeysDistinct(AddToGroups(groups, r, bucket))
  {
    AddKeepsKeys(groups, r, bucket);
    var t := AddToGroups(groups, r, bucket);
    forall i, j | 0 <= i < j < |t| ensures !SameKey(t[i], t[j]) {
      assert SameKey(t[i], groups[i]);
      if j < |groups| {
        assert SameKey(t[j], groups[j]) && !SameKey(groups[i], groups[j]);
      } else {
        assert !SameKey(t[j], groups[i]);
      }
    }
  }

  /** Grouping is a partition by key: every selected row is in exactly one group, that of its own
      bucket and series, no group is empty and no key has two groups. */
  lemma {:induction false} GroupedIsPartition(rows: seq<Row>, bucket: int)
    requires bucket > 0
    ensures KeysDistinct(Grouped(rows, bucket)) && forall g <- Grouped(rows, bucket) :: GroupOk(g, bucket)
    ensures RowsOf(Grouped(rows, bucket)) == multiset(rows)
    decreases |rows|
  {
    if rows != [] {
      var n := |rows| - 1;
      GroupedIsPartition(rows[..n], bucket);
      AddKeepsGroups(Grouped(rows[..n], bucket), rows[n], bucket);
      AddKeepsRows(Grouped(rows[..n], bucket), rows[n], bucket);
      AddKeepsDistinct(Grouped(rows[..n], bucket), rows[n], bucket);
      assert rows == rows[..n] + [rows[n]];
    }
  }

  // ----- AVG(value) --------------------------------------------------------------------------

  function Sum(rows: seq<Row>): real {
    if rows == [] then 0.0 else rows[0].value + Sum(rows[1..])
  }

  function Average(rows: seq<Row>): real
    requires rows != []
  {
    Sum(rows) / (|rows| as real)
  }

  predicate Within(v: real, lo: real, hi: real) { lo <= v <= hi }

  lemma {:induction false} SumBounds(rows: seq<Row>, lo: real, hi: real)
    requires forall r <- rows :: Within(r.value, lo, hi)
    ensures (|rows| as real) * lo <= Sum(rows) <= (|rows| as real) * hi
  {
    if rows != [] {
      SumBounds(rows[1..], lo, hi);
      assert (|rows| as real) * lo == lo + (|rows[1..]| as real) * lo;
      assert (|rows| as real) * hi == hi + (|rows[1..]| as real) * hi;
    }
  }

  lemma QuotientBounds(sum: real, n: real, lo: real, hi: real)
    requires n > 0.0 && n * lo <= sum <= n * hi
    ensures lo <= sum / n <= hi
  {
    DivideMonotone(n * lo, sum, n);
    DivideMonotone(sum, n * hi, n);
    assert (n * lo) / n == lo && (n * hi) / n == hi;
  }

  lemma DivideMonotone(a: real, b: real, n: real)
    requires n > 0.0 && a <= b
    ensures a / n <= b / n
  {}

  lemma AverageBounds(rows: seq<Row>, lo: real, hi: real)
    requires rows != [] && forall r <- rows :: Within(r.value, lo, hi)
    ensures Within(Average(rows), lo, hi)
  {
    SumBounds(rows, lo, hi);
    QuotientBounds(Sum(rows), |rows| as real, lo, hi);
  }
}
