/**
 The top-of-book table and its merging insert: on a key conflict every column takes the new value
 when there is one and keeps the stored value otherwise.
 */
module BboTable {
  import opened Prelude
  import opened Rows
  import opened RowCodecs

  datatype BboKey = BboKey(symbol: string, exchange: string, ts: Int64)

  /** One stored row: six nullable columns. */
  datatype Columns = Columns(
    bidPrice: Option<int>, bidSize: Option<Int32>, bidOrders: Option<Int32>,
    askPrice: Option<int>, askSize: Option<Int32>, askOrders: Option<Int32>)

  type Table = map<BboKey, Columns>

  function KeyOf(r: BboRow): BboKey { BboKey(r.symbol, r.exchange, r.ts) }

  /** An absent side is NULL in price, size and order count alike. */
  function ToColumns(r: BboRow): Columns {
    var b, a := r.bidPrice.Some?, r.askPrice.Some?;
    Columns(r.bidPrice, if b then Some(r.bidSize) else None, if b then Some(r.bidOrders) else None,
            r.askPrice, if a then Some(r.askSize) else None, if a then Some(r.askOrders) else None)
  }

  function Coalesce<T>(a: Option<T>, b: Option<T>): Option<T> { if a.Some? then a else b }

  function Merge(new_: Columns, old_: Columns): Columns {
    Columns(Coalesce(new_.bidPrice, old_.bidPrice), Coalesce(new_.bidSize, old_.bidSize),
            Coalesce(new_.bidOrders, old_.bidOrders),
            Coalesce(new_.askPrice, old_.askPrice), Coalesce(new_.askSize, old_.askSize),
            Coalesce(new_.askOrders, old_.askOrders))
  }

  function MergeOne(t: Table, r: BboRow): Table {
    var k := KeyOf(r);
    t[k := if k in t then Merge(ToColumns(r), t[k]) else ToColumns(r)]
  }

  function MergeAll(t: Table, rows: seq<BboRow>): Table {
    if rows == [] then t else MergeOne(MergeAll(t, rows[..|rows| - 1]), rows[|rows| - 1])
  }

  predicate DistinctKeys(rows: seq<BboRow>) {
    forall i, j :: 0 <= i < j < |rows| ==> KeyOf(rows[i]) != KeyOf(rows[j])
  }

  /**
   One statement.  The database refuses to update a row twice in one statement, so a batch with a
   repeated key fails as a whole.
   */
  function Statement(t: Table, rows: seq<BboRow>): Option<Table> {
    if DistinctKeys(rows) then Some(MergeAll(t, rows)) else None
  }

  class BboDb {
    var bbo: Table

    /**
     One statement over the whole batch, with the effect the database gives it; `serverOk` says whether the
     server can execute a statement at all.  None: the statement failed and nothing changed.
     */
    method WriteBbo(rows: seq<BboRow>, serverOk: bool) returns (written: Option<nat>)
      modifies this
      ensures written.Some? <==> rows == [] || (serverOk && Statement(old(bbo), rows).Some?)
      ensures written.Some? ==> bbo == MergeAll(old(bbo), rows) && written.value == |rows|
      ensures written.None? ==> bbo == old(bbo)
    {
      if |rows| == 0 {
        return Some(0);
      }
      if !serverOk {
        return None;
      }
      var seen: set<BboKey> := {};
      for i := 0 to |rows|
        invariant forall k :: k in seen <==> exists j :: 0 <= j < i && KeyOf(rows[j]) == k
        invariant DistinctKeys(rows[..i])
        invariant bbo == old(bbo)
      {
        if KeyOf(rows[i]) in seen {
          return None;
        }
        seen := seen + {KeyOf(rows[i])};
      }
      assert rows[..|rows|] == rows;
      for i := 0 to |rows|
        invariant bbo == MergeAll(old(bbo), rows[..i])
      {
        assert rows[..i + 1][..i] == rows[..i];
        var k, cols := KeyOf(rows[i]), ToColumns(rows[i]);
        bbo := bbo[k := if k in bbo then Merge(cols, bbo[k]) else cols];
      }
      written := Some(|rows|);
    }
  }

  // ---------------------------------------------------------------- histories

  /** The rows of the statements that succeeded, in order. */
  function Accepted(calls: seq<seq<BboRow>>): seq<BboRow> {
    if calls == [] then []
    else
      var last := calls[|calls| - 1];
      Accepted(calls[..|calls| - 1]) + (if DistinctKeys(last) then last else [])
  }

  function Run(t: Table, calls: seq<seq<BboRow>>): Table {
    if calls == [] then t
    else
      var before := Run(t, calls[..|calls| - 1]);
      match Statement(before, calls[|calls| - 1])
      case Some(after) => after
      case None => before
  }

  /** The latest row for `k` that carries the side selected by `carries`. */
  function Latest(rows: seq<BboRow>, k: BboKey, carries: BboRow -> bool): Option<BboRow> {
    if rows == [] then None
    else
      var last := rows[|rows| - 1];
      if KeyOf(last) == k && carries(last) then Some(last) else Latest(rows[..|rows| - 1], k, carries)
  }

  predicate HasBid(r: BboRow) { r.bidPrice.Some? }

  predicate HasAsk(r: BboRow) { r.askPrice.Some? }

  predicate HasKey(r: BboRow) { true }

  /** The stored columns when each side is the whole triple of the latest row that carried it. */
  function WholeSides(rows: seq<BboRow>, k: BboKey): Columns {
    var b, a := Latest(rows, k, HasBid), Latest(rows, k, HasAsk);
    Columns(
      if b.Some? then b.value.bidPrice else None,
      if b.Some? then Some(b.value.bidSize) else None,
      if b.Some? then Some(b.value.bidOrders) else None,
      if a.Some? then a.value.askPrice else None,
      if a.Some? then Some(a.value.askSize) else None,
      if a.Some? then Some(a.value.askOrders) else None)
  }

  lemma {:induction false} MergedSides(rows: seq<BboRow>, k: BboKey)
    ensures k in MergeAll(map[], rows) <==> Latest(rows, k, HasKey).Some?
    ensures k in MergeAll(map[], rows) ==> MergeAll(map[], rows)[k] == WholeSides(rows, k)
    ensures k !in MergeAll(map[], rows) ==> WholeSides(rows, k) == Columns(None, None, None, None, None, None)
  {
    if rows != [] {
      MergedSides(rows[..|rows| - 1], k);
    }
  }

  lemma {:induction false} MergeConcat(t: Table, a: seq<BboRow>, b: seq<BboRow>)
    ensures MergeAll(t, a + b) == MergeAll(MergeAll(t, a), b)
  {
    if b == [] {
      assert a + b == a;
    } else {
      assert (a + b)[..|a + b| - 1] == a + b[..|b| - 1];
      MergeConcat(t, a, b[..|b| - 1]);
    }
  }

  lemma {:induction false} RunIsMerge(t: Table, calls: seq<seq<BboRow>>)
    ensures Run(t, calls) == MergeAll(t, Accepted(calls))
  {
    if calls != [] {
      var front, last := calls[..|calls| - 1], calls[|calls| - 1];
      RunIsMerge(t, front);
      if DistinctKeys(last) {
        MergeConcat(t, Accepted(front), last);
      } else {
        assert Accepted(front) + [] == Accepted(front);
      }
    }
  }

  /**
   Over any sequence of calls each stored side is the whole triple of the latest accepted row that
   carried it, never a mixture of two rows.
   */
  lemma SidesAreWhole(calls: seq<seq<BboRow>>, k: BboKey)
    ensures k in Run(map[], calls) <==> Latest(Accepted(calls), k, HasKey).Some?
    ensures k in Run(map[], calls) ==> Run(map[], calls)[k] == WholeSides(Accepted(calls), k)
  {
    RunIsMerge(map[], calls);
    MergedSides(Accepted(calls), k);
  }

  // ---------------------------------------------------------------- the stored fields

  /** The key has the row's own symbol, exchange and time stamp. */
  predicate SameInstant(k: BboKey, r: BboRow) { k.symbol == r.symbol && k.exchange == r.exchange && k.ts == r.ts }

  /** After a batch every row's instrument and instant are stored. */
  lemma RowsAreStored(t: Table, rows: seq<BboRow>, i: nat) returns (k: BboKey)
    requires i < |rows|
    ensures k in MergeAll(t, rows) && SameInstant(k, rows[i])
  {
    k := KeyOf(rows[i]);
    MergedOver(t, rows, k);
    LatestExists(rows, i);
  }

  lemma {:induction false} LatestExists(rows: seq<BboRow>, i: nat)
    requires i < |rows|
    ensures Latest(rows, KeyOf(rows[i]), HasKey).Some?
  {
    if i < |rows| - 1 {
      LatestExists(rows[..|rows| - 1], i);
    }
  }

  /** And whatever is new in the table is the instrument and instant of some row. */
  lemma NewKeysAreRows(t: Table, rows: seq<BboRow>, k: BboKey) returns (i: nat)
    requires k in MergeAll(t, rows) && k !in t
    ensures i < |rows| && SameInstant(k, rows[i])
  {
    MergedOver(t, rows, k);
    i := LatestIndex(rows, k);
  }

  lemma {:induction false} LatestIndex(rows: seq<BboRow>, k: BboKey) returns (i: nat)
    requires Latest(rows, k, HasKey).Some?
    ensures i < |rows| && SameInstant(k, rows[i])
  {
    i := |rows| - 1;
    if KeyOf(rows[i]) != k {
      i := LatestIndex(rows[..i], k);
    }
  }

  /** The latest row of the instrument at the instant that quotes a bid, or an ask. */
  function LatestBid(rows: seq<BboRow>, symbol: string, exchange: string, ts: Int64): Option<BboRow> {
    if rows == [] then None
    else
      var r := rows[|rows| - 1];
      if r.symbol == symbol && r.exchange == exchange && r.ts == ts && r.bidPrice.Some? then Some(r)
      else LatestBid(rows[..|rows| - 1], symbol, exchange, ts)
  }

  function LatestAsk(rows: seq<BboRow>, symbol: string, exchange: string, ts: Int64): Option<BboRow> {
    if rows == [] then None
    else
      var r := rows[|rows| - 1];
      if r.symbol == symbol && r.exchange == exchange && r.ts == ts && r.askPrice.Some? then Some(r)
      else LatestAsk(rows[..|rows| - 1], symbol, exchange, ts)
  }

  lemma {:induction false} LatestSides(rows: seq<BboRow>, k: BboKey)
    ensures Latest(rows, k, HasBid) == LatestBid(rows, k.symbol, k.exchange, k.ts)
    ensures Latest(rows, k, HasAsk) == LatestAsk(rows, k.symbol, k.exchange, k.ts)
  {
    if rows != [] {
      LatestSides(rows[..|rows| - 1], k);
    }
  }

  /** Each stored side is the triple of the latest accepted row of its own instrument and instant. */
  lemma StoredSides(calls: seq<seq<BboRow>>, k: BboKey)
    requires k in Run(map[], calls)
    ensures var c, rows := Run(map[], calls)[k], Accepted(calls);
            var bid, ask := LatestBid(rows, k.symbol, k.exchange, k.ts), LatestAsk(rows, k.symbol, k.exchange, k.ts);
            && (bid.Some? ==> c.bidPrice == bid.value.bidPrice && c.bidSize == Some(bid.value.bidSize)
                              && c.bidOrders == Some(bid.value.bidOrders))
            && (ask.Some? ==> c.askPrice == ask.value.askPrice && c.askSize == Some(ask.value.askSize)
                              && c.askOrders == Some(ask.value.askOrders))
            && (bid.None? ==> c.bidPrice.None? && c.bidSize.None? && c.bidOrders.None?)
            && (ask.None? ==> c.askPrice.None? && c.askSize.None? && c.askOrders.None?)
  {
    SidesAreWhole(calls, k);
    LatestSides(Accepted(calls), k);
  }

  // ---------------------------------------------------------------- retries

  const NO_COLUMNS: Columns := Columns(None, None, None, None, None, None)

  function Stored(t: Table, k: BboKey): Columns { if k in t then t[k] else NO_COLUMNS }

  /** On any table: each side is the latest one the rows carry, and the stored one where they carry none. */
  lemma {:induction false} MergedOver(t: Table, rows: seq<BboRow>, k: BboKey)
    ensures k in MergeAll(t, rows) <==> k in t || Latest(rows, k, HasKey).Some?
    ensures Stored(MergeAll(t, rows), k) == Merge(WholeSides(rows, k), Stored(t, k))
  {
    if rows != [] {
      MergedOver(t, rows[..|rows| - 1], k);
    }
  }

  /** Writing a batch again changes nothing. */
  lemma MergeAgain(t: Table, rows: seq<BboRow>)
    ensures MergeAll(MergeAll(t, rows), rows) == MergeAll(t, rows)
  {
    var once, twice := MergeAll(t, rows), MergeAll(MergeAll(t, rows), rows);
    forall k ensures (k in twice <==> k in once) && Stored(twice, k) == Stored(once, k) {
      MergedOver(t, rows, k);
      MergedOver(once, rows, k);
    }
    assert forall k :: k in once ==> twice[k] == Stored(twice, k) && once[k] == Stored(once, k);
  }

  /**
   Retrying with more rows: a flush of `p` that was stored but not committed, followed by a flush of
   `p + q`, leaves what the second flush alone leaves.
   */
  lemma RetryWithMore(t: Table, p: seq<BboRow>, q: seq<BboRow>)
    requires DistinctKeys(p + q)
    ensures Statement(t, p).Some?
    ensures Statement(Statement(t, p).value, p + q) == Statement(t, p + q)
  {
    assert forall i :: 0 <= i < |p| ==> (p + q)[i] == p[i];
    MergeConcat(t, p, q);
    MergeConcat(MergeAll(t, p), p, q);
    MergeAgain(t, p);
  }

  // ---------------------------------------------------------------- through the log

  /** What a batch becomes when it is replayed from the log instead of written directly. */
  function Replayed(rows: seq<BboRow>): seq<BboRow> {
    seq(|rows|, i requires 0 <= i < |rows| => ZeroAbsentSides(rows[i]))
  }

  lemma ReplayedFirst(rows: seq<BboRow>)
    requires rows != []
    ensures Replayed(rows) == [ZeroAbsentSides(rows[0])] + Replayed(rows[1..])
  {
  }

  /** Passing rows through the log codec does not change the table. */
  lemma {:induction false} ReplayedMerge(t: Table, rows: seq<BboRow>)
    ensures Statement(t, Replayed(rows)) == Statement(t, rows)
    ensures MergeAll(t, Replayed(rows)) == MergeAll(t, rows)
  {
    if rows != [] {
      assert Replayed(rows)[..|rows| - 1] == Replayed(rows[..|rows| - 1]);
      ReplayedMerge(t, rows[..|rows| - 1]);
      assert ToColumns(ZeroAbsentSides(rows[|rows| - 1])) == ToColumns(rows[|rows| - 1]);
    }
    assert forall i :: 0 <= i < |rows| ==> KeyOf(Replayed(rows)[i]) == KeyOf(rows[i]);
  }

  // ---------------------------------------------------------------- a batch that can never drain

  /** The pending rows after a number of further batches, none of which could be committed. */
  function Grown(pending: seq<BboRow>, batches: seq<seq<BboRow>>): seq<BboRow> {
    if batches == [] then pending
    else Grown(pending, batches[..|batches| - 1]) + batches[|batches| - 1]
  }

  lemma {:induction false} GrownKeepsPrefix(pending: seq<BboRow>, batches: seq<seq<BboRow>>)
    ensures pending <= Grown(pending, batches)
  {
    if batches != [] {
      GrownKeepsPrefix(pending, batches[..|batches| - 1]);
    }
  }

  /**
   The flush always writes everything pending, so once two pending rows share symbol, exchange and
   timestamp no later flush succeeds, whatever arrives and whatever the table holds.
   */
  lemma RepeatedKeyNeverDrains(t: Table, pending: seq<BboRow>, batches: seq<seq<BboRow>>)
    requires !DistinctKeys(pending)
    ensures Statement(t, Grown(pending, batches)) == None
  {
    GrownKeepsPrefix(pending, batches);
    var i, j :| 0 <= i < j < |pending| && KeyOf(pending[i]) == KeyOf(pending[j]);
    var all := Grown(pending, batches);
    assert all[i] == pending[i] && all[j] == pending[j];
  }
}
