/**
 The tick table and its batch insert.  A row is keyed by its trade plus its rank among equal
 trades of the same call, and an existing key wins over the incoming one.
 */
module TickTable {
  import opened Prelude
  import opened Rows

  datatype TickKey = TickKey(symbol: string, exchange: string, ts: Int64, price: int, size: Int64)

  /** One element of the batch insert: the unique key of the table and what is stored under it. */
  datatype Record = Record(key: TickKey, rank: nat, isBuy: bool)

  /** The stored table: (trade, rank) to aggressor side. */
  type Table = map<(TickKey, nat), bool>

  function KeyOf(r: TickRow): TickKey {
    TickKey(r.symbol, r.exchange, r.ts, r.price, r.size)
  }

  /** How often the trade `k` occurs in one batch. */
  function Occurrences(rows: seq<TickRow>, k: TickKey): nat {
    if rows == [] then 0
    else Occurrences(rows[..|rows| - 1], k) + (if KeyOf(rows[|rows| - 1]) == k then 1 else 0)
  }

  /** The batch with every row's rank: the number of equal trades before it in the batch. */
  function Ranked(rows: seq<TickRow>): (recs: seq<Record>)
    ensures |recs| == |rows|
  {
    if rows == [] then []
    else
      var front, r := rows[..|rows| - 1], rows[|rows| - 1];
      Ranked(front) + [Record(KeyOf(r), Occurrences(front, KeyOf(r)), r.isBuy)]
  }

  /** One record under ON CONFLICT DO NOTHING. */
  function InsertOne(t: Table, rec: Record): Table {
    if (rec.key, rec.rank) in t then t else t[(rec.key, rec.rank) := rec.isBuy]
  }

  function Insert(t: Table, recs: seq<Record>): Table {
    if recs == [] then t else InsertOne(Insert(t, recs[..|recs| - 1]), recs[|recs| - 1])
  }

  /** The table after one successful call. */
  function Write(t: Table, rows: seq<TickRow>): Table {
    Insert(t, Ranked(rows))
  }

  function WriteAll(t: Table, calls: seq<seq<TickRow>>): Table {
    if calls == [] then t else Write(WriteAll(t, calls[..|calls| - 1]), calls[|calls| - 1])
  }

  class TickDb {
    var ticks: Table

    /**
     Ranks the rows with a per-call counter for each trade and hands them to one insert.  The
     number returned is the number of rows that were new.
     */
    method WriteBatch(rows: seq<TickRow>) returns (inserted: nat)
      modifies this
      ensures ticks == Write(old(ticks), rows)
      ensures inserted == |ticks| - |old(ticks)|
    {
      if |rows| == 0 {
        return 0;
      }
      var seqRank: map<TickKey, nat> := map[];
      var recs: seq<Record> := [];
      for i := 0 to |rows|
        invariant recs == Ranked(rows[..i])
        invariant forall k :: (if k in seqRank then seqRank[k] else 0) == Occurrences(rows[..i], k)
        invariant ticks == old(ticks)
      {
        var k := KeyOf(rows[i]);
        var rank := if k in seqRank then seqRank[k] else 0;
        recs := recs + [Record(k, rank, rows[i].isBuy)];
        seqRank := seqRank[k := rank + 1];
        assert rows[..i + 1][..i] == rows[..i];
      }
      assert rows[..|rows|] == rows;
      inserted := Execute(recs);
    }

    /** The database applies the records in array order; the command tag counts the new ones. */
    method Execute(recs: seq<Record>) returns (inserted: nat)
      modifies this
      ensures ticks == Insert(old(ticks), recs)
      ensures inserted == |ticks| - |old(ticks)|
    {
      inserted := 0;
      for i := 0 to |recs|
        invariant ticks == Insert(old(ticks), recs[..i])
        invariant inserted == |ticks| - |old(ticks)|
      {
        assert recs[..i + 1][..i] == recs[..i];
        if (recs[i].key, recs[i].rank) !in ticks {
          ticks := ticks[(recs[i].key, recs[i].rank) := recs[i].isBuy];
          inserted := inserted + 1;
        }
      }
      assert recs[..|recs|] == recs;
    }
  }

  // ---------------------------------------------------------------- one call

  /** A trade is stored once for each rank below its multiplicity, on top of what was there. */
  lemma {:induction false} WrittenKeys(t: Table, rows: seq<TickRow>, k: TickKey, n: nat)
    ensures (k, n) in Write(t, rows) <==> (k, n) in t || n < Occurrences(rows, k)
  {
    if rows != [] {
      var front := rows[..|rows| - 1];
      assert Ranked(rows)[..|rows| - 1] == Ranked(front);
      WrittenKeys(t, front, k, n);
    }
  }

  /** What is stored under a key: the old value, or the side of the row that has that rank. */
  lemma {:induction false} WrittenValue(t: Table, rows: seq<TickRow>, i: nat)
    requires i < |rows|
    ensures var p := (KeyOf(rows[i]), Occurrences(rows[..i], KeyOf(rows[i])));
            p in Write(t, rows) && Write(t, rows)[p] == if p in t then t[p] else rows[i].isBuy
  {
    var front := rows[..|rows| - 1];
    var p := (KeyOf(rows[i]), Occurrences(rows[..i], KeyOf(rows[i])));
    assert Ranked(rows)[..|rows| - 1] == Ranked(front);
    WrittenKeys(t, rows, p.0, p.1);
    if i < |front| {
      assert front[..i] == rows[..i];
      WrittenValue(t, front, i);
    } else {
      assert rows[..i] == front;
      WrittenKeys(t, front, p.0, p.1);
      if p in t {
        KeptValue(t, front, p);
      }
    }
  }

  /** An insert never changes a value that is already stored. */
  lemma {:induction false} KeptValue(t: Table, rows: seq<TickRow>, p: (TickKey, nat))
    requires p in t
    ensures p in Write(t, rows) && Write(t, rows)[p] == t[p]
  {
    if rows != [] {
      assert Ranked(rows)[..|rows| - 1] == Ranked(rows[..|rows| - 1]);
      KeptValue(t, rows[..|rows| - 1], p);
    }
  }

  // ---------------------------------------------------------------- retries

  lemma {:induction false} InsertConcat(t: Table, a: seq<Record>, b: seq<Record>)
    ensures Insert(t, a + b) == Insert(Insert(t, a), b)
  {
    if b == [] {
      assert a + b == a;
    } else {
      var front := b[..|b| - 1];
      assert (a + b)[..|a + b| - 1] == a + front;
      InsertConcat(t, a, front);
    }
  }

  lemma {:induction false} InsertAgain(t: Table, a: seq<Record>)
    requires forall i :: 0 <= i < |a| ==> (a[i].key, a[i].rank) in t
    ensures Insert(t, a) == t
  {
    if a != [] {
      InsertAgain(t, a[..|a| - 1]);
    }
  }

  lemma {:induction false} InsertedKeys(t: Table, a: seq<Record>)
    ensures forall p :: p in t ==> p in Insert(t, a)
    ensures forall i :: 0 <= i < |a| ==> (a[i].key, a[i].rank) in Insert(t, a)
  {
    if a != [] {
      InsertedKeys(t, a[..|a| - 1]);
    }
  }

  /** Ranks are stable under extension of the batch. */
  lemma {:induction false} RankedPrefix(p: seq<TickRow>, q: seq<TickRow>)
    ensures Ranked(p) <= Ranked(p + q)
  {
    if q == [] {
      assert p + q == p;
    } else {
      assert (p + q)[..|p + q| - 1] == p + q[..|q| - 1];
      RankedPrefix(p, q[..|q| - 1]);
    }
  }

  /**
   Retrying with more rows: writing `p` and then `p + q` leaves exactly the table that writing
   `p + q` alone leaves.
   */
  lemma RetryWithMore(t: Table, p: seq<TickRow>, q: seq<TickRow>)
    ensures Write(Write(t, p), p + q) == Write(t, p + q)
  {
    RankedPrefix(p, q);
    var a := Ranked(p);
    var b := Ranked(p + q)[|a|..];
    assert Ranked(p + q) == a + b;
    InsertConcat(Write(t, p), a, b);
    InsertedKeys(t, a);
    InsertAgain(Write(t, p), a);
    InsertConcat(t, a, b);
  }

  // ---------------------------------------------------------------- the stored fields

  /** The key has the five fields of the row. */
  predicate SameFields(k: TickKey, r: TickRow) {
    k.symbol == r.symbol && k.exchange == r.exchange && k.ts == r.ts && k.price == r.price && k.size == r.size
  }

  /** How many rows have these five values. */
  function CountEqual(rows: seq<TickRow>, symbol: string, exchange: string, ts: Int64, price: int, size: Int64): nat {
    if rows == [] then 0
    else
      var r := rows[|rows| - 1];
      CountEqual(rows[..|rows| - 1], symbol, exchange, ts, price, size)
      + (if r.symbol == symbol && r.exchange == exchange && r.ts == ts && r.price == price && r.size == size then 1
         else 0)
  }

  lemma {:induction false} CountsFields(rows: seq<TickRow>, k: TickKey)
    ensures Occurrences(rows, k) == CountEqual(rows, k.symbol, k.exchange, k.ts, k.price, k.size)
  {
    if rows != [] {
      CountsFields(rows[..|rows| - 1], k);
    }
  }

  /** After a call every row of it is stored under its own five fields. */
  lemma RowsAreStored(t: Table, rows: seq<TickRow>, i: nat) returns (k: TickKey, n: nat)
    requires i < |rows|
    ensures (k, n) in Write(t, rows) && SameFields(k, rows[i])
    ensures (k, n) !in t ==> Write(t, rows)[(k, n)] == rows[i].isBuy
  {
    k, n := KeyOf(rows[i]), Occurrences(rows[..i], KeyOf(rows[i]));
    WrittenValue(t, rows, i);
  }

  /** And whatever is new in the table has the five fields of some row of the call. */
  lemma NewKeysAreRows(t: Table, rows: seq<TickRow>, k: TickKey, n: nat) returns (i: nat)
    requires (k, n) in Write(t, rows) && (k, n) !in t
    ensures i < |rows| && SameFields(k, rows[i])
  {
    WrittenKeys(t, rows, k, n);
    i := LastOccurrence(rows, k);
  }

  lemma {:induction false} LastOccurrence(rows: seq<TickRow>, k: TickKey) returns (i: nat)
    requires Occurrences(rows, k) > 0
    ensures i < |rows| && SameFields(k, rows[i])
  {
    i := |rows| - 1;
    if KeyOf(rows[i]) != k {
      i := LastOccurrence(rows[..i], k);
    }
  }

  /** The greatest number of rows with these five values in any single call. */
  function MaxEqual(
    calls: seq<seq<TickRow>>, symbol: string, exchange: string, ts: Int64, price: int, size: Int64): nat
  {
    if calls == [] then 0
    else
      Max(MaxEqual(calls[..|calls| - 1], symbol, exchange, ts, price, size),
          CountEqual(calls[|calls| - 1], symbol, exchange, ts, price, size))
  }

  lemma {:induction false} MaxCountsFields(calls: seq<seq<TickRow>>, k: TickKey)
    ensures MaxOccurrences(calls, k) == MaxEqual(calls, k.symbol, k.exchange, k.ts, k.price, k.size)
  {
    if calls != [] {
      MaxCountsFields(calls[..|calls| - 1], k);
      CountsFields(calls[|calls| - 1], k);
    }
  }

  /** The stored rows with given five values number as many as one call ever held of them. */
  lemma StoredWithFields(calls: seq<seq<TickRow>>, symbol: string, exchange: string, ts: Int64, price: int, size: Int64)
    ensures var stored := WriteAll(map[], calls);
            |set p | p in stored.Keys && p.0.symbol == symbol && p.0.exchange == exchange && p.0.ts == ts
                     && p.0.price == price && p.0.size == size|
            == MaxEqual(calls, symbol, exchange, ts, price, size)
  {
    var k := TickKey(symbol, exchange, ts, price, size);
    StoredIsMaximum(calls, k);
    MaxCountsFields(calls, k);
    var stored := WriteAll(map[], calls);
    assert (set p | p in stored.Keys && p.0.symbol == symbol && p.0.exchange == exchange && p.0.ts == ts
                    && p.0.price == price && p.0.size == size) == set p | p in stored.Keys && p.0 == k;
  }

  // ---------------------------------------------------------------- many calls

  /** The greatest multiplicity of `k` in any single call. */
  function MaxOccurrences(calls: seq<seq<TickRow>>, k: TickKey): nat {
    if calls == [] then 0
    else Max(MaxOccurrences(calls[..|calls| - 1], k), Occurrences(calls[|calls| - 1], k))
  }

  function TotalOccurrences(calls: seq<seq<TickRow>>, k: TickKey): nat {
    if calls == [] then 0
    else TotalOccurrences(calls[..|calls| - 1], k) + Occurrences(calls[|calls| - 1], k)
  }

  /** Number of rows stored for a trade. */
  ghost function StoredCount(t: Table, k: TickKey): nat {
    |set p | p in t.Keys && p.0 == k|
  }

  lemma {:induction false} CountRanks(s: set<(TickKey, nat)>, k: TickKey, c: nat)
    requires forall p :: p in s <==> p.0 == k && p.1 < c
    ensures |s| == c
  {
    if c == 0 {
      assert s == {};
    } else {
      assert (k, c - 1) in s;
      CountRanks(s - {(k, c - 1)}, k, c - 1);
    }
  }

  lemma {:induction false} StoredRanks(calls: seq<seq<TickRow>>, k: TickKey, n: nat)
    ensures (k, n) in WriteAll(map[], calls) <==> n < MaxOccurrences(calls, k)
  {
    if calls != [] {
      var front := calls[..|calls| - 1];
      StoredRanks(front, k, n);
      WrittenKeys(WriteAll(map[], front), calls[|calls| - 1], k, n);
    }
  }

  /** After any calls on an empty table a trade is stored as often as its busiest single call holds it. */
  lemma StoredIsMaximum(calls: seq<seq<TickRow>>, k: TickKey)
    ensures StoredCount(WriteAll(map[], calls), k) == MaxOccurrences(calls, k)
  {
    var t := WriteAll(map[], calls);
    forall n: nat
      ensures (k, n) in t <==> n < MaxOccurrences(calls, k)
    {
      StoredRanks(calls, k, n);
    }
    CountRanks((set p | p in t.Keys && p.0 == k), k, MaxOccurrences(calls, k));
  }

  /** The calls that carry a trade at all. */
  function CallsWith(calls: seq<seq<TickRow>>, k: TickKey): nat {
    if calls == [] then 0
    else CallsWith(calls[..|calls| - 1], k) + (if Occurrences(calls[|calls| - 1], k) > 0 then 1 else 0)
  }

  lemma {:induction false} MaxAgainstTotal(calls: seq<seq<TickRow>>, k: TickKey)
    ensures MaxOccurrences(calls, k) <= TotalOccurrences(calls, k)
    ensures MaxOccurrences(calls, k) == 0 <==> CallsWith(calls, k) == 0
    ensures MaxOccurrences(calls, k) == TotalOccurrences(calls, k) <==> CallsWith(calls, k) <= 1
  {
    if calls != [] {
      MaxAgainstTotal(calls[..|calls| - 1], k);
    }
  }

  /**
   Every delivered trade is stored exactly when no trade is spread over two calls: equal trades
   of one microsecond that arrive in different calls collapse.
   */
  lemma AllStoredIff(calls: seq<seq<TickRow>>, k: TickKey)
    ensures StoredCount(WriteAll(map[], calls), k) == TotalOccurrences(calls, k) <==> CallsWith(calls, k) <= 1
  {
    StoredIsMaximum(calls, k);
    MaxAgainstTotal(calls, k);
  }
}
