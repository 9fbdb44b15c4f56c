/** The three log codecs, and what a log written with each of them gives back. */
module LogCodecs {
  import opened Prelude
  import opened Decimal
  import opened Csv
  import opened Rows
  import opened RowCodecs
  import opened WriteAheadLog
  import BboTable

  const TICKS: Codec<TickRow> := Codec(TickToLine, TickFromLine)
  const BBOS: Codec<BboRow> := Codec(BboToLine, BboFromLine)
  const DEPTHS: Codec<DepthRow> := Codec(DepthToLine, DepthFromLine)

  predicate NoEol(s: string) { forall i :: 0 <= i < |s| ==> !IsEol(s[i]) }

  lemma NumeralsHaveNoEol(v: int)
    ensures NoEol(IntText(v)) && NoEol(PriceText(v))
  {
    NumeralsAreClean(v);
  }

  lemma NoEolConcat(a: string, b: string)
    ensures NoEol(a + b) <==> NoEol(a) && NoEol(b)
  {
    if NoEol(a + b) {
      forall i | 0 <= i < |a|
        ensures !IsEol(a[i])
      {
        assert (a + b)[i] == a[i];
      }
      forall i | 0 <= i < |b|
        ensures !IsEol(b[i])
      {
        assert (a + b)[|a| + i] == b[i];
      }
    }
  }

  lemma NoEolField(a: string, b: string)
    ensures NoEol(a + "," + b) <==> NoEol(a) && NoEol(b)
  {
    NoEolConcat(a + ",", b);
    NoEolConcat(a, ",");
  }

  /** A tick is logged faithfully exactly when its texts are non-empty and hold no comma and no line end. */
  lemma TickFaithfulIff(r: TickRow)
    ensures Faithful(TICKS, r) <==> TickPrintable(r) && NoEol(r.symbol) && NoEol(r.exchange)
  {
    TickRoundTrip(r);
    NumeralsHaveNoEol(r.ts);
    NumeralsHaveNoEol(r.price);
    NumeralsHaveNoEol(r.size);
    var flag := if r.isBuy then "1" else "0";
    var l1 := IntText(r.ts) + "," + PriceText(r.price);
    var l2 := l1 + "," + IntText(r.size);
    var l3 := l2 + "," + flag;
    var l4 := l3 + "," + r.symbol;
    NoEolField(IntText(r.ts), PriceText(r.price));
    NoEolField(l1, IntText(r.size));
    NoEolField(l2, flag);
    NoEolField(l3, r.symbol);
    NoEolField(l4, r.exchange);
    assert TickToLine(r) == l4 + "," + r.exchange;
  }

  ghost predicate BboLoggable(r: BboRow) { BboPrintable(r) && LineSafe(BBOS, r) }

  /** A replayed top-of-book log is the batch with the sizes of absent sides zeroed. */
  lemma {:induction false} BboLogReplay(rows: seq<BboRow>)
    requires forall i :: 0 <= i < |rows| ==> BboLoggable(rows[i])
    ensures Replay(BBOS, Block(BBOS, rows)) == BboTable.Replayed(rows)
  {
    ReplayBlock(BBOS, rows);
    BboImages(rows);
  }

  lemma {:induction false} BboImages(rows: seq<BboRow>)
    requires forall i :: 0 <= i < |rows| ==> BboLoggable(rows[i])
    ensures Images(BBOS, rows) == BboTable.Replayed(rows)
  {
    if rows != [] {
      BboImage(rows[0]);
      BboImages(rows[1..]);
      BboTable.ReplayedFirst(rows);
    }
  }

  lemma BboImage(r: BboRow)
    requires BboPrintable(r)
    ensures BBOS.fromLine(BBOS.toLine(r)) == Some(ZeroAbsentSides(r))
  {
    BboRoundTrip(r);
  }

  /** Storing a replayed top-of-book log has the same outcome as storing the batch itself. */
  lemma BboLogTransparent(t: BboTable.Table, rows: seq<BboRow>)
    requires forall i :: 0 <= i < |rows| ==> BboLoggable(rows[i])
    ensures BboTable.Statement(t, Replay(BBOS, Block(BBOS, rows))) == BboTable.Statement(t, rows)
  {
    BboLogReplay(rows);
    BboTable.ReplayedMerge(t, rows);
  }

  ghost predicate DepthLoggable(r: DepthRow) {
    && CommaFree(r.orderId) && CommaFree(r.symbol) && CommaFree(r.exchange)
    && LineSafe(DEPTHS, r)
  }

  /** A depth log never gives a row back, however much was written to it. */
  lemma {:induction false} DepthLogRecoversNothing(rows: seq<DepthRow>)
    requires forall i :: 0 <= i < |rows| ==> DepthLoggable(rows[i])
    ensures Replay(DEPTHS, Block(DEPTHS, rows)) == []
  {
    ReplayBlock(DEPTHS, rows);
    DepthImages(rows);
  }

  lemma {:induction false} DepthImages(rows: seq<DepthRow>)
    requires forall i :: 0 <= i < |rows| ==> DepthLoggable(rows[i])
    ensures Images(DEPTHS, rows) == []
  {
    if rows != [] {
      DepthLineRejected(rows[0]);
      DepthImages(rows[1..]);
    }
  }
}
