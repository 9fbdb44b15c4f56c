/**
 The line codecs of the write-ahead log: one comma-separated line per row.  Empty fields stand
 for absent values; symbols, exchanges and order ids are printed as they are.
 */
module RowCodecs {
  import opened Prelude
  import opened Decimal
  import opened Csv
  import opened Rows

  function OptPriceText(p: Option<int>): string {
    match p
    case None => ""
    case Some(v) => PriceText(v)
  }

  function OptIntText(present: bool, v: int): string {
    if present then IntText(v) else ""
  }

  /** Outer None: the text is malformed. */
  function ParseOptPrice(s: string): Option<Option<int>> {
    if s == "" then Some(None)
    else match ParsePrice(s)
      case None => None
      case Some(v) => Some(Some(v))
  }

  function ParseInt64(s: string): (r: Option<Int64>) {
    ParseInt(s, INT64_MIN, INT64_MAX)
  }

  function ParseInt32(s: string): (r: Option<Int32>) {
    ParseInt(s, INT32_MIN, INT32_MAX)
  }

  /** An empty size or order count reads as zero. */
  function ParseInt32OrZero(s: string): Option<Int32> {
    if s == "" then Some(0) else ParseInt32(s)
  }

  /** `static_cast<int8_t>`: wraps modulo 256. */
  function ToInt8(v: int): Int8 {
    (v + 128) % 256 - 128
  }

  // ---------------------------------------------------------------- ticks

  function TickToLine(r: TickRow): string {
    TickHead(r) + r.exchange
  }

  /** Everything before the exchange, the last comma included. */
  function TickHead(r: TickRow): string {
    IntText(r.ts) + "," + PriceText(r.price) + "," + IntText(r.size) + ","
    + (if r.isBuy then "1" else "0") + "," + r.symbol + ","
  }

  function TickFromLine(line: string): Option<TickRow> {
    TickFromFields(Fields(line))
  }

  function TickFromFields(f: seq<string>): Option<TickRow> {
    if |f| < 6 then None
    else
      match (ParseInt64(f[0]), ParsePrice(f[1]), ParseInt64(f[2]))
      case (Some(ts), Some(price), Some(size)) =>
        if f[4] == "" || f[5] == "" then None
        else Some(TickRow(ts, price, size, f[3] == "1", f[4], f[5]))
      case _ => None
  }

  lemma NumeralsAreCommaFree(v: int)
    ensures CommaFree(IntText(v)) && CommaFree(PriceText(v))
  {
    NumeralsAreClean(v);
  }

  lemma AppendField(line: string, field: string)
    requires CommaFree(field)
    ensures Split(line + "," + field) == Split(line) + [field]
  {
    SplitConcat(line, field);
    SplitCommaFree(field);
  }

  lemma AppendFields3(line: string, a: string, b: string, c: string)
    requires CommaFree(a) && CommaFree(b) && CommaFree(c)
    ensures Split(line + "," + a + "," + b + "," + c) == Split(line) + [a, b, c]
  {
    AppendField(line, a);
    AppendField(line + "," + a, b);
    AppendField(line + "," + a + "," + b, c);
  }

  lemma SevenFields(a: string, b: string, c: string, d: string, e: string, f: string, g: string)
    requires CommaFree(a) && CommaFree(b) && CommaFree(c) && CommaFree(d)
    requires CommaFree(e) && CommaFree(f) && CommaFree(g)
    ensures Split(a + "," + b + "," + c + "," + d + "," + e + "," + f + "," + g) == [a, b, c, d, e, f, g]
  {
    SplitCommaFree(a);
    AppendFields3(a, b, c, d);
    AppendFields3(a + "," + b + "," + c + "," + d, e, f, g);
  }

  lemma AppendTexts(line: string, x: string, y: string, z: string)
    ensures Split(line + "," + x + "," + y + "," + z) == Split(line) + Split(x) + Split(y) + Split(z)
  {
    SplitConcat(line, x);
    SplitConcat(line + "," + x, y);
    SplitConcat(line + "," + x + "," + y, z);
  }

  lemma SevenFieldsAndTexts(a: string, b: string, c: string, d: string, e: string, f: string, g: string,
                            x: string, y: string)
    requires CommaFree(a) && CommaFree(b) && CommaFree(c) && CommaFree(d)
    requires CommaFree(e) && CommaFree(f) && CommaFree(g)
    ensures Split(a + "," + b + "," + c + "," + d + "," + e + "," + f + "," + g + "," + x + "," + y)
         == [a, b, c, d, e, f, g] + Split(x) + Split(y)
  {
    SevenFields(a, b, c, d, e, f, g);
    var front := a + "," + b + "," + c + "," + d + "," + e + "," + f + "," + g;
    SplitConcat(front, x);
    SplitConcat(front + "," + x, y);
  }

  lemma EightFieldsAndTexts(a: string, b: string, c: string, d: string, e: string, f: string, g: string, h: string,
                            x: string, y: string, z: string)
    requires CommaFree(a) && CommaFree(b) && CommaFree(c) && CommaFree(d)
    requires CommaFree(e) && CommaFree(f) && CommaFree(g) && CommaFree(h)
    ensures Split(a + "," + b + "," + c + "," + d + "," + e + "," + f + "," + g + "," + h
                  + "," + x + "," + y + "," + z)
         == [a, b, c, d, e, f, g, h] + Split(x) + Split(y) + Split(z)
  {
    SevenFields(a, b, c, d, e, f, g);
    var front := a + "," + b + "," + c + "," + d + "," + e + "," + f + "," + g;
    AppendField(front, h);
    AppendTexts(front + "," + h, x, y, z);
  }

  lemma TickHeadFields(r: TickRow)
    ensures Split(TickHead(r)[..|TickHead(r)| - 1]) ==
            [IntText(r.ts), PriceText(r.price), IntText(r.size), if r.isBuy then "1" else "0"] + Split(r.symbol)
  {
    var a, b, c, d := IntText(r.ts), PriceText(r.price), IntText(r.size), if r.isBuy then "1" else "0";
    NumeralsAreCommaFree(r.ts);
    NumeralsAreCommaFree(r.price);
    NumeralsAreCommaFree(r.size);
    FourFieldsAndText(a, b, c, d, r.symbol);
    DropComma(a + "," + b + "," + c + "," + d + "," + r.symbol);
  }

  lemma FourFieldsAndText(a: string, b: string, c: string, d: string, x: string)
    requires CommaFree(a) && CommaFree(b) && CommaFree(c) && CommaFree(d)
    ensures Split(a + "," + b + "," + c + "," + d + "," + x) == [a, b, c, d] + Split(x)
  {
    SplitCommaFree(a);
    AppendFields3(a, b, c, d);
    SplitConcat(a + "," + b + "," + c + "," + d, x);
  }

  lemma DropComma(s: string)
    ensures (s + ",")[..|s + ","| - 1] == s
  {
  }

  lemma TickFields(r: TickRow)
    ensures Fields(TickToLine(r)) ==
            [IntText(r.ts), PriceText(r.price), IntText(r.size), if r.isBuy then "1" else "0"]
            + Split(r.symbol) + Split(r.exchange)
  {
    TickHeadFields(r);
    var h := TickHead(r);
    SplitConcat(h[..|h| - 1], r.exchange);
    assert h == h[..|h| - 1] + ",";
  }

  /** The texts for which printing and reading back is the identity. */
  predicate TickPrintable(r: TickRow) {
    CommaFree(r.symbol) && CommaFree(r.exchange) && r.symbol != "" && r.exchange != ""
  }

  lemma TickNumbersRead(r: TickRow, f: seq<string>)
    requires |f| >= 6 && f[0] == IntText(r.ts) && f[1] == PriceText(r.price) && f[2] == IntText(r.size)
    requires f[3] == if r.isBuy then "1" else "0"
    ensures TickFromFields(f) ==
            if f[4] == "" || f[5] == "" then None else Some(r.(symbol := f[4], exchange := f[5]))
  {
    IntRoundTrip(r.ts, INT64_MIN, INT64_MAX);
    PriceRoundTrip(r.price);
    IntRoundTrip(r.size, INT64_MIN, INT64_MAX);
  }

  /** A tick row survives its line exactly when its texts are comma-free and non-empty. */
  lemma TickRoundTrip(r: TickRow)
    ensures TickFromLine(TickToLine(r)) == Some(r) <==> TickPrintable(r)
  {
    TickFields(r);
    TickNumbersRead(r, Fields(TickToLine(r)));
    SplitCommaFree(r.symbol);
    SplitCommaFree(r.exchange);
    assert Fields(TickToLine(r))[4] == Split(r.symbol)[0];
  }

  /**
   A torn tick line: a proper prefix parses exactly when it reaches into the exchange, and then
   it yields the row with a truncated exchange.
   */
  lemma TornTick(r: TickRow, k: nat)
    requires TickPrintable(r) && k <= |TickToLine(r)|
    ensures var got := TickFromLine(TickToLine(r)[..k]);
            if k > |TickHead(r)| then got == Some(r.(exchange := r.exchange[..k - |TickHead(r)|]))
            else got == None
  {
    var h := TickHead(r);
    var cut := TickToLine(r)[..k];
    if k > |h| {
      var r' := r.(exchange := r.exchange[..k - |h|]);
      assert cut == TickToLine(r');
      TickRoundTrip(r');
    } else if k == |h| {
      var r' := r.(exchange := "");
      assert cut == TickToLine(r');
      TickFields(r');
      SplitCommaFree(r.symbol);
    } else {
      var body := h[..|h| - 1];
      assert cut == body[..k];
      SplitPrefix(body, k);
      TickHeadFields(r);
      SplitCommaFree(r.symbol);
    }
  }

  // ---------------------------------------------------------------- top of book

  function BboToLine(r: BboRow): string {
    IntText(r.ts)
    + "," + OptPriceText(r.bidPrice) + "," + OptIntText(r.bidPrice.Some?, r.bidSize)
    + "," + OptIntText(r.bidPrice.Some?, r.bidOrders)
    + "," + OptPriceText(r.askPrice) + "," + OptIntText(r.askPrice.Some?, r.askSize)
    + "," + OptIntText(r.askPrice.Some?, r.askOrders)
    + "," + r.symbol + "," + r.exchange
  }

  function BboFromLine(line: string): Option<BboRow> {
    BboFromFields(Fields(line))
  }

  function BboFromFields(f: seq<string>): Option<BboRow> {
    if |f| < 9 then None
    else
      match (ParseInt64(f[0]), ParseOptPrice(f[1]), ParseInt32OrZero(f[2]), ParseInt32OrZero(f[3]),
             ParseOptPrice(f[4]), ParseInt32OrZero(f[5]), ParseInt32OrZero(f[6]))
      case (Some(ts), Some(bp), Some(bs), Some(bo), Some(ap), Some(asz), Some(ao)) =>
        if f[7] == "" || f[8] == "" then None
        else Some(BboRow(ts, bp, bs, bo, ap, asz, ao, f[7], f[8]))
      case _ => None
  }

  /** An absent side keeps nothing but its absence. */
  function ZeroAbsentSides(r: BboRow): BboRow {
    var r1 := if r.bidPrice.None? then r.(bidSize := 0, bidOrders := 0) else r;
    if r1.askPrice.None? then r1.(askSize := 0, askOrders := 0) else r1
  }

  predicate BboPrintable(r: BboRow) {
    CommaFree(r.symbol) && CommaFree(r.exchange) && r.symbol != "" && r.exchange != ""
  }

  function BboNumerals(r: BboRow): seq<string> {
    [IntText(r.ts),
     OptPriceText(r.bidPrice), OptIntText(r.bidPrice.Some?, r.bidSize), OptIntText(r.bidPrice.Some?, r.bidOrders),
     OptPriceText(r.askPrice), OptIntText(r.askPrice.Some?, r.askSize), OptIntText(r.askPrice.Some?, r.askOrders)]
  }

  lemma OptNumerals(p: Option<int>, v: Int32)
    ensures CommaFree(OptPriceText(p)) && CommaFree(OptIntText(p.Some?, v))
    ensures ParseOptPrice(OptPriceText(p)) == Some(p)
    ensures ParseInt32OrZero(OptIntText(p.Some?, v)) == Some(if p.Some? then v else 0)
  {
    NumeralsAreClean(v);
    IntRoundTrip(v, INT32_MIN, INT32_MAX);
    if p.Some? {
      NumeralsAreClean(p.value);
      PriceRoundTrip(p.value);
    }
  }

  lemma BboFields(r: BboRow)
    ensures Fields(BboToLine(r)) == BboNumerals(r) + Split(r.symbol) + Split(r.exchange)
  {
    var n := BboNumerals(r);
    NumeralsAreCommaFree(r.ts);
    OptNumerals(r.bidPrice, r.bidSize);
    OptNumerals(r.bidPrice, r.bidOrders);
    OptNumerals(r.askPrice, r.askSize);
    OptNumerals(r.askPrice, r.askOrders);
    SevenFieldsAndTexts(n[0], n[1], n[2], n[3], n[4], n[5], n[6], r.symbol, r.exchange);
  }

  /** The nine fields of a printed line, in order; an absent side leaves its three fields empty. */
  lemma BboLineFields(r: BboRow)
    requires BboPrintable(r)
    ensures var f := Fields(BboToLine(r));
            && |f| == 9 && f[0] == IntText(r.ts) && f[7] == r.symbol && f[8] == r.exchange
            && (r.bidPrice.Some? ==>
                  f[1] == PriceText(r.bidPrice.value) && f[2] == IntText(r.bidSize) && f[3] == IntText(r.bidOrders))
            && (r.bidPrice.None? ==> f[1] == "" && f[2] == "" && f[3] == "")
            && (r.askPrice.Some? ==>
                  f[4] == PriceText(r.askPrice.value) && f[5] == IntText(r.askSize) && f[6] == IntText(r.askOrders))
            && (r.askPrice.None? ==> f[4] == "" && f[5] == "" && f[6] == "")
  {
    BboFields(r);
    SplitCommaFree(r.symbol);
    SplitCommaFree(r.exchange);
  }

  lemma BboNumbersRead(r: BboRow, f: seq<string>)
    requires |f| >= 9 && f[..7] == BboNumerals(r)
    ensures BboFromFields(f) ==
            if f[7] == "" || f[8] == "" then None
            else Some(ZeroAbsentSides(r).(symbol := f[7], exchange := f[8]))
  {
    var n := BboNumerals(r);
    assert forall i :: 0 <= i < 7 ==> f[i] == n[i];
    IntRoundTrip(r.ts, INT64_MIN, INT64_MAX);
    OptNumerals(r.bidPrice, r.bidSize);
    OptNumerals(r.bidPrice, r.bidOrders);
    OptNumerals(r.askPrice, r.askSize);
    OptNumerals(r.askPrice, r.askOrders);
  }

  /** A top-of-book row survives its line up to the sizes of an absent side. */
  lemma BboRoundTrip(r: BboRow)
    ensures BboFromLine(BboToLine(r)) == Some(ZeroAbsentSides(r)) <==> BboPrintable(r)
  {
    BboFields(r);
    BboNumbersRead(r, Fields(BboToLine(r)));
    SplitCommaFree(r.symbol);
    SplitCommaFree(r.exchange);
  }

  // ---------------------------------------------------------------- depth by order

  function DepthToLine(r: DepthRow): string {
    IntText(r.ts) + "," + IntText(r.sourceNs) + "," + IntText(r.sequenceNumber)
    + "," + IntText(r.updateType) + "," + IntText(r.transactionType)
    + "," + PriceText(r.price) + "," + OptPriceText(r.prevPrice) + "," + IntText(r.size)
    + "," + r.orderId + "," + r.symbol + "," + r.exchange
  }

  /** The parser asks for twelve fields although it reads eleven. */
  const DEPTH_FIELDS: nat := 12

  function DepthFromLine(line: string): Option<DepthRow> {
    var f := Fields(line);
    if |f| < DEPTH_FIELDS then None
    else
      match (ParseInt64(f[0]), ParseInt64(f[1]), ParseInt64(f[2]), ParseInt32(f[3]), ParseInt32(f[4]),
             ParsePrice(f[5]), ParseOptPrice(f[6]), ParseInt32(f[7]))
      case (Some(ts), Some(src), Some(sq), Some(upd), Some(txn), Some(price), Some(prev), Some(size)) =>
        if f[9] == "" || f[10] == "" then None
        else Some(DepthRow(ts, src, sq, ToInt8(upd), ToInt8(txn), price, prev, size, f[8], f[9], f[10]))
      case _ => None
  }

  function DepthNumerals(r: DepthRow): seq<string> {
    [IntText(r.ts), IntText(r.sourceNs), IntText(r.sequenceNumber), IntText(r.updateType),
     IntText(r.transactionType), PriceText(r.price), OptPriceText(r.prevPrice), IntText(r.size)]
  }

  lemma DepthFields(r: DepthRow)
    ensures Fields(DepthToLine(r)) == DepthNumerals(r) + Split(r.orderId) + Split(r.symbol) + Split(r.exchange)
  {
    var n := DepthNumerals(r);
    NumeralsAreCommaFree(r.ts);
    NumeralsAreCommaFree(r.sourceNs);
    NumeralsAreCommaFree(r.sequenceNumber);
    NumeralsAreCommaFree(r.updateType);
    NumeralsAreCommaFree(r.transactionType);
    NumeralsAreCommaFree(r.price);
    OptNumerals(r.prevPrice, 0);
    NumeralsAreCommaFree(r.size);
    EightFieldsAndTexts(n[0], n[1], n[2], n[3], n[4], n[5], n[6], n[7], r.orderId, r.symbol, r.exchange);
  }

  /** The eleven fields of a printed line, in order. */
  lemma DepthLineFields(r: DepthRow)
    requires CommaFree(r.orderId) && CommaFree(r.symbol) && CommaFree(r.exchange)
    ensures Fields(DepthToLine(r)) ==
            [IntText(r.ts), IntText(r.sourceNs), IntText(r.sequenceNumber), IntText(r.updateType),
             IntText(r.transactionType), PriceText(r.price),
             if r.prevPrice.Some? then PriceText(r.prevPrice.value) else "", IntText(r.size),
             r.orderId, r.symbol, r.exchange]
  {
    DepthFields(r);
    SplitCommaFree(r.orderId);
    SplitCommaFree(r.symbol);
    SplitCommaFree(r.exchange);
  }

  /** A line with comma-free texts has eleven fields and is always rejected. */
  lemma DepthLineRejected(r: DepthRow)
    requires CommaFree(r.orderId) && CommaFree(r.symbol) && CommaFree(r.exchange)
    ensures DepthFromLine(DepthToLine(r)) == None
  {
    DepthFields(r);
    SplitCommaFree(r.orderId);
    SplitCommaFree(r.symbol);
    SplitCommaFree(r.exchange);
  }

  /** Whatever its texts hold, no depth row is ever read back from the line printed for it. */
  lemma DepthNeverRoundTrips(r: DepthRow)
    ensures DepthFromLine(DepthToLine(r)) != Some(r)
  {
    DepthFields(r);
    SplitCommaFree(r.orderId);
    SplitCommaFree(r.symbol);
    SplitCommaFree(r.exchange);
    var f := Fields(DepthToLine(r));
    var o, s, e := Split(r.orderId), Split(r.symbol), Split(r.exchange);
    assert f[8] == o[0];
    if |o| == 1 {
      assert f[9] == s[0];
      if |s| == 1 {
        assert f[10] == e[0];
      }
    }
  }
}
