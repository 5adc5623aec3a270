/** Reading the historian (src/historian/SqliteHistoryStore.cpp): which tier answers a range, and the newest
    rows of it up to a limit, in ascending order. */
module HistoryQuery {
  import opened Sequences
  import opened HistoryRows
  import opened HistoryTables

  const ONE_HOUR: int := 3_600_000
  const ONE_DAY: int := 24 * ONE_HOUR

  function TierForRange(from: int, to: int): Tier {
    if to - from <= ONE_HOUR then Raw else if to - from <= ONE_DAY then Minute else Hour
  }

  /** WHERE field = ? AND entity = ? AND ts >= ? AND ts <= ?. */
  function Matching(rows: seq<Row>, field: nat, entity: nat, from: int, to: int): seq<Row> {
    if rows == [] then []
    else if Wanted(rows[0], field, entity, from, to) then [rows[0]] + Matching(rows[1..], field, entity, from, to)
    else Matching(rows[1..], field, entity, from, to)
  }

  predicate Wanted(r: Row, field: nat, entity: nat, from: int, to: int) {
    r.field == field && r.entity == entity && from <= r.ts <= to
  }

  /** The rows of one series inside the range, both ends included, each as often as the table has it. */
  lemma {:induction false} MatchingExact(rows: seq<Row>, field: nat, entity: nat, from: int, to: int, r: Row)
    ensures multiset(Matching(rows, field, entity, from, to))[r] ==
      if Wanted(r, field, entity, from, to) then multiset(rows)[r] else 0
  {
    if rows != [] {
      MatchingExact(rows[1..], field, entity, from, to, r);
      SplitFirst(rows);
    }
  }

  function InsertNewest(sorted: seq<Row>, r: Row): seq<Row> {
    if sorted == [] || sorted[0].ts <= r.ts then [r] + sorted else [sorted[0]] + InsertNewest(sorted[1..], r)
  }

  /** ORDER BY ts DESC. */
  function NewestFirst(rows: seq<Row>): seq<Row> {
    if rows == [] then [] else InsertNewest(NewestFirst(rows[1..]), rows[0])
  }

  /** LIMIT ?, where 0 asks for everything. */
  function Limited(rows: seq<Row>, limit: nat): seq<Row> {
    if limit == 0 || |rows| <= limit then rows else rows[..limit]
  }

  predicate Descending(rows: seq<Row>) {
    forall i, j :: 0 <= i < j < |rows| ==> rows[i].ts >= rows[j].ts
  }

  predicate Ascending(rows: seq<Row>) {
    forall i, j :: 0 <= i < j < |rows| ==> rows[i].ts <= rows[j].ts
  }

  lemma {:induction false} InsertKeepsBag(sorted: seq<Row>, r: Row)
    ensures multiset(InsertNewest(sorted, r)) == multiset(sorted) + multiset{r}
  {
    if sorted != [] && sorted[0].ts > r.ts {
      InsertKeepsBag(sorted[1..], r);
      SplitFirst(sorted);
    }
  }

  lemma {:induction false} InsertSorts(sorted: seq<Row>, r: Row)
    requires Descending(sorted)
    ensures Descending(InsertNewest(sorted, r))
  {
    if sorted != [] && sorted[0].ts > r.ts {
      InsertSorts(sorted[1..], r);
      var t := InsertNewest(sorted[1..], r);
      InsertKeepsBag(sorted[1..], r);
      forall i | 0 <= i < |t| ensures t[i].ts <= sorted[0].ts {
        assert t[i] in multiset(t);
      }
    }
  }

  lemma {:induction false} NewestFirstSorts(rows: seq<Row>)
    ensures Descending(NewestFirst(rows)) && multiset(NewestFirst(rows)) == multiset(rows)
  {
    if rows != [] {
      NewestFirstSorts(rows[1..]);
      InsertSorts(NewestFirst(rows[1..]), rows[0]);
      InsertKeepsBag(NewestFirst(rows[1..]), rows[0]);
      SplitFirst(rows);
    }
  }

  /** The newest rows of the range, oldest of them first: ascending, all matching, as many as the
      limit allows, and no matching row left out is newer than one returned. */
  ghost predicate NewestOf(out: seq<Row>, matching: seq<Row>, limit: nat) {
    && Ascending(out)
    && multiset(out) <= multiset(matching)
    && |out| == (if limit == 0 || |matching| <= limit then |matching| else limit)
    && forall r <- multiset(matching) - multiset(out), s <- out :: r.ts <= s.ts
  }

  function Reversed(rows: seq<Row>): (r: seq<Row>)
    ensures |r| == |rows| && forall i :: 0 <= i < |r| ==> r[i] == rows[|rows| - 1 - i]
  {
    seq(|rows|, i requires 0 <= i < |rows| => rows[|rows| - 1 - i])
  }

  lemma {:induction false} ReversedSame(rows: seq<Row>)
    ensures multiset(Reversed(rows)) == multiset(rows)
  {
    if rows != [] {
      ReversedSame(rows[1..]);
      assert Reversed(rows) == Reversed(rows[1..]) + [rows[0]];
      SplitFirst(rows);
    }
  }

  lemma ReversedSorts(rows: seq<Row>)
    requires Descending(rows)
    ensures Ascending(Reversed(rows)) && multiset(Reversed(rows)) == multiset(rows)
    ensures forall r :: r in Reversed(rows) <==> r in rows
  {
    ReversedSame(rows);
    forall r ensures r in Reversed(rows) <==> r in rows {
      assert r in Reversed(rows) <==> r in multiset(Reversed(rows));
      assert r in rows <==> r in multiset(rows);
    }
  }

  lemma SameBagSameLength(a: seq<Row>, b: seq<Row>)
    requires multiset(a) == multiset(b)
    ensures |a| == |b|
  {
    assert |multiset(a)| == |a|;
  }

  lemma RestOfBag(all: seq<Row>, n: nat)
    requires n <= |all|
    ensures multiset(all) - multiset(all[..n]) == multiset(all[n..]) && multiset(all[..n]) <= multiset(all)
  {
    assert all == all[..n] + all[n..];
  }

  lemma PrefixIsNewer(all: seq<Row>, n: nat, r: Row, s: Row)
    requires Descending(all) && n <= |all| && r in multiset(all[n..]) && s in all[..n]
    ensures r.ts <= s.ts
  {
    assert r in all[n..];
    var i :| 0 <= i < n && all[..n][i] == s;
    var j :| 0 <= j < |all| - n && all[n..][j] == r;
    assert all[i] == s && all[n + j] == r;
  }

  lemma LimitKeepsNewest(matching: seq<Row>, result: seq<Row>, limit: nat)
    requires result == Limited(NewestFirst(matching), limit)
    ensures Descending(result) && multiset(result) <= multiset(matching)
    ensures |result| == if limit == 0 || |matching| <= limit then |matching| else limit
    ensures forall r <- multiset(matching) - multiset(result), s <- result :: r.ts <= s.ts
  {
    NewestFirstSorts(matching);
    var all := NewestFirst(matching);
    hide NewestFirst;
    SameBagSameLength(all, matching);
    var n := |result|;
    assert result == all[..n];
    RestOfBag(all, n);
    forall r <- multiset(matching) - multiset(result), s <- result ensures r.ts <= s.ts {
      PrefixIsNewer(all, n, r, s);
    }
  }
}
