/** The store and the sweep as the code runs them (src/historian/SqliteHistoryStore.cpp,
    src/historian/HistorianMaintenance.cpp): tables changed in place, proved against their values. */
module HistoryStore {
  import opened HistoryRows
  import opened HistoryTables
  import opened HistoryQuery

  /** Which statements of a write succeed: none, or these inserts. */
  datatype Outcome = NotBegun | NotPrepared | Steps(ok: seq<bool>)

  /** The records whose insert succeeds. */
  function Kept(records: seq<Sample>, ok: seq<bool>): (kept: seq<Sample>)
    requires |ok| == |records|
    ensures |kept| <= |records| && ((forall i :: 0 <= i < |ok| ==> ok[i]) ==> kept == records)
  {
    if records == [] then []
    else if ok[0] then [records[0]] + Kept(records[1..], ok[1..])
    else Kept(records[1..], ok[1..])
  }

  lemma {:induction false} KeptSnoc(records: seq<Sample>, ok: seq<bool>, i: nat)
    requires |ok| == |records| && i < |records|
    ensures var (before, after) := (Kept(records[..i], ok[..i]), Kept(records[..i + 1], ok[..i + 1]));
      after == (if ok[i] then before + [records[i]] else before)
      && RowsOfSamples(after) == if ok[i] then RowsOfSamples(before) + [RowOf(records[i])] else RowsOfSamples(before)
  {
    if i > 0 {
      KeptSnoc(records[1..], ok[1..], i - 1);
      assert records[..i][1..] == records[1..][..i - 1] && ok[..i][1..] == ok[1..][..i - 1];
      assert records[..i + 1][1..] == records[1..][..i] && ok[..i + 1][1..] == ok[1..][..i];
    } else {
      assert records[..1][1..] == [] && ok[..1][1..] == [];
    }
  }

  /** How many of the inserts succeed. */
  function Successes(ok: seq<bool>): nat {
    if ok == [] then 0 else (if ok[0] then 1 else 0) + Successes(ok[1..])
  }

  /** Each record whose insert succeeds is kept, in its place, and no other is. */
  lemma {:induction false} KeptExact(records: seq<Sample>, ok: seq<bool>, i: nat)
    requires |ok| == |records| && i < |records|
    ensures |Kept(records, ok)| == Successes(ok)
    ensures ok[i] ==> Successes(ok[..i]) < Successes(ok) && Kept(records, ok)[Successes(ok[..i])] == records[i]
  {
    if |records| == 1 {
      assert ok[..0] == [] && records[1..] == [] && ok[1..] == [];
    } else if i == 0 {
      KeptExact(records[1..], ok[1..], 0);
      assert ok[..0] == [];
    } else {
      KeptExact(records[1..], ok[1..], i - 1);
      assert ok[..i][1..] == ok[1..][..i - 1];
    }
  }

  lemma NothingInserted(t: Tables)
    ensures Inserted(t, []) == t
  {}

  class SqliteHistoryStore {
    var isOpen: bool
    var raw: seq<Row>
    var minute: seq<Row>
    var hour: seq<Row>

    function Value(): Tables
      reads this
    {
      Tables(raw, minute, hour)
    }

    constructor ()
      ensures !isOpen && Value() == Tables([], [], [])
    {
      isOpen, raw, minute, hour := false, [], [], [];
    }

    /** Opens the database; its tables start empty. */
    method Initialize()
      modifies this
      ensures isOpen && Value() == old(Value())
    {
      isOpen := true;
    }

    /** One transaction of single inserts. `outcome` says which statements succeed. */
    method Write(records: seq<Sample>, outcome: Outcome) returns (accepted: nat)
      requires outcome.Steps? ==> |outcome.ok| == |records|
      modifies this`raw
      ensures var kept := if isOpen && outcome.Steps? then Kept(records, outcome.ok) else [];
        accepted == |kept| && Value() == Inserted(old(Value()), kept)
    {
      NothingInserted(Value());
      if records == [] || !isOpen || !outcome.Steps? {
        return 0;
      }
      accepted := 0;
      assert records[..0] == [] && outcome.ok[..0] == [];
      for i := 0 to |records|
        invariant accepted == |Kept(records[..i], outcome.ok[..i])|
        invariant raw == old(raw) + RowsOfSamples(Kept(records[..i], outcome.ok[..i]))
      {
        KeptSnoc(records, outcome.ok, i);
        if outcome.ok[i] {
          raw := raw + [RowOf(records[i])];
          accepted := accepted + 1;
        }
      }
      assert records[..|records|] == records && outcome.ok[..|records|] == outcome.ok;
    }

    method SetTable(tier: Tier, rows: seq<Row>)
      modifies this`raw, this`minute, this`hour
      ensures Value() == WithTable(old(Value()), tier, rows)
    {
      match tier
      case Raw => raw := rows;
      case Minute => minute := rows;
      case Hour => hour := rows;
    }

    method Rollback(begun: Tables)
      modifies this`raw, this`minute, this`hour
      ensures Value() == begun
    {
      raw, minute, hour := begun.raw, begun.minute, begun.hour;
    }

    method DemoteOlderThan(src: Tier, dst: Tier, cutoff: int, bucket: int, fault: Fault) returns (deleted: nat)
      modifies this`raw, this`minute, this`hour
      ensures Value() == if isOpen then DemotedUnder(old(Value()), src, dst, cutoff, bucket, fault) else old(Value())
      ensures deleted ==
        if isOpen && bucket > 0 && src != dst && fault == Fine then |Older(TableOf(old(Value()), src), cutoff)| else 0
    {
      hide Folded, Older, Remaining;
      if !isOpen || bucket <= 0 || src == dst {
        return 0;
      }
      if fault == BeginFails {
        return 0;
      }
      var begun := Value();
      var rows := TableOf(Value(), src);
      if fault == InsertFails {
        return 0;
      }
      SetTable(dst, TableOf(Value(), dst) + Folded(rows, cutoff, bucket));
      if fault == DeletePrepareFails {
        Rollback(begun);
        return 0;
      }
      deleted := 0;
      if fault != DeleteFails {
        deleted := |Older(rows, cutoff)|;
        SetTable(src, Remaining(TableOf(Value(), src), cutoff));
      }
    }

    /** `prepared` says whether the SELECT can be prepared. */
    method Query(field: nat, entity: nat, from: int, to: int, limit: nat, prepared: bool) returns (out: seq<Row>)
      ensures isOpen && prepared ==> NewestOf(out, Matching(TableOf(Value(), TierForRange(from, to)), field, entity, from, to), limit)
      ensures !isOpen || !prepared ==> out == []
    {
      out := [];
      if !isOpen || !prepared {
        return;
      }
      var table := TableOf(Value(), TierForRange(from, to));
      var matching := Matching(table, field, entity, from, to);
      var result := Limited(NewestFirst(matching), limit);
      NewestFirstSorts(matching);
      for i := 0 to |result|
        invariant out == result[..i]
      {
        out := out + [result[i]];
      }
      assert result[..|result|] == result;
      LimitKeepsNewest(matching, result, limit);
      out := Reversed(out);
      ReversedSorts(result);
    }

    method RowCount(tier: Tier, prepared: bool) returns (n: nat)
      ensures n == if isOpen && prepared then |TableOf(Value(), tier)| else 0
    {
      n := if isOpen && prepared then |TableOf(Value(), tier)| else 0;
    }
  }

  /** The worker's policy: one sweep of the store. */
  class HistorianMaintenance {
    const store: SqliteHistoryStore
    const keep: Retention

    constructor (store: SqliteHistoryStore, keep: Retention)
      ensures this.store == store && this.keep == keep
    {
      this.store, this.keep := store, keep;
    }

    method RunOnce(now: int, first: Fault, second: Fault)
      modifies store
      ensures store.isOpen == old(store.isOpen)
      ensures store.Value() == if store.isOpen then SweptUnder(old(store.Value()), now, keep, first, second) else old(store.Value())
      ensures store.isOpen && first == Fine && second == Fine ==> store.Value() == Swept(old(store.Value()), now, keep)
    {
      hide DemotedUnder;
      FineSweep(store.Value(), now, keep);
      var demotedRaw := store.DemoteOlderThan(Raw, Minute, now - keep.raw, MINUTE, first);
      var demotedMinute := store.DemoteOlderThan(Minute, Hour, now - keep.minute, HOUR, second);
    }
  }

  function SweptUnder(t: Tables, now: int, keep: Retention, first: Fault, second: Fault): Tables {
    DemotedUnder(DemotedUnder(t, Raw, Minute, now - keep.raw, MINUTE, first), Minute, Hour, now - keep.minute, HOUR, second)
  }

  /** With no statement failing this is the sweep that conserves. */
  lemma FineSweep(t: Tables, now: int, keep: Retention)
    ensures SweptUnder(t, now, keep, Fine, Fine) == Swept(t, now, keep)
  {
    hide Demoted;
  }
}
