/**
 Higher-timeframe aggregation of one-minute bars: a bar joins the forming bucket, and when its bucket
 differs from the forming one the forming bar is completed and the indicators advance by one step.
 */
module HtfAggregator {
  import opened Prelude

  datatype Bar = Bar(minute: nat, open: real, high: real, low: real, close: real, volume: int)

  /** An aggregated bar; no volume means that nothing was aggregated yet. */
  datatype Candle = Candle(open: real, high: real, low: real, close: real, volume: int)

  const NO_CANDLE: Candle := Candle(0.0, 0.0, 0.0, 0.0, 0)

  function MinReal(a: real, b: real): real { if b < a then b else a }

  function Abs(x: real): real { if x < 0.0 then -x else x }

  /** Exponential average, seeded with the first value. */
  function EmaNext(prev: Option<real>, x: real, len: nat): real {
    match prev
    case None => x
    case Some(p) =>
      var a := 2.0 / (len as real + 1.0);
      a * x + (1.0 - a) * p
  }

  /** Wilder's average, seeded with the first value. */
  function RmaNext(prev: Option<real>, x: real, len: nat): real
    requires len > 0
  {
    match prev
    case None => x
    case Some(p) => (p * (len as real - 1.0) + x) / len as real
  }

  const DONE_MAX: nat := 8

  datatype Config = Config(minutes: nat, lenFast: nat, lenSlow: nat, atrLen: nat) {
    predicate Ok() { minutes > 0 && atrLen > 0 }
  }

  /** What completed buckets have produced; nothing of it is touched while a bucket forms. */
  datatype Outputs = Outputs(
    done: seq<Candle>, emaFast: Option<real>, emaFastPrev: Option<real>, emaSlow: Option<real>,
    close: Option<real>, slope: Option<real>, atr: Option<real>)

  const NO_OUTPUTS: Outputs := Outputs([], None, None, None, None, None, None)

  datatype Agg = Agg(bucket: int, cur: Candle, out: Outputs)

  const FRESH: Agg := Agg(-1, NO_CANDLE, NO_OUTPUTS)

  function TrueRange(c: Candle, prevClose: Option<real>): real {
    match prevClose
    case None => c.high - c.low
    case Some(pc) => MaxReal(MaxReal(c.high - c.low, Abs(c.high - pc)), Abs(c.low - pc))
  }

  /** The close before the newest candle. */
  function PrevClose(done: seq<Candle>): Option<real> {
    if |done| >= 2 then Some(done[|done| - 2].close) else None
  }

  /** The last `DONE_MAX` candles. */
  function Recent(cs: seq<Candle>): seq<Candle> {
    if |cs| > DONE_MAX then cs[|cs| - DONE_MAX..] else cs
  }

  /** One bucket is completed. */
  function Complete(o: Outputs, c: Candle, cfg: Config): Outputs
    requires cfg.Ok()
  {
    var done := Recent(o.done + [c]);
    var fast := EmaNext(o.emaFast, c.close, cfg.lenFast);
    Outputs(
      done, Some(fast), o.emaFast, Some(EmaNext(o.emaSlow, c.close, cfg.lenSlow)), Some(c.close),
      if o.emaFast.Some? then Some(fast - o.emaFast.value) else None,
      Some(RmaNext(o.atr, TrueRange(c, PrevClose(done)), cfg.atrLen)))
  }

  /** A bar joins a candle. */
  function Join(c: Candle, b: Bar): Candle {
    var c1 := if c.volume == 0 then Candle(b.open, b.high, b.low, c.close, c.volume) else c;
    Candle(c1.open, MaxReal(c1.high, b.high), MinReal(c1.low, b.low), b.close, c1.volume + b.volume)
  }

  /** The bucket of a bar. */
  function Slot(b: Bar, minutes: nat): (s: nat)
    requires minutes > 0
    ensures minutes * s <= b.minute < minutes * (s + 1)
  {
    b.minute / minutes
  }

  function Update(a: Agg, b: Bar, cfg: Config): Agg
    requires cfg.Ok()
  {
    var bucket := Slot(b, cfg.minutes);
    var a1 := if a.bucket < 0 then a.(bucket := bucket) else a;
    var a2 := if bucket != a1.bucket then
                Agg(bucket, NO_CANDLE, if a1.cur.volume > 0 then Complete(a1.out, a1.cur, cfg) else a1.out)
              else a1;
    a2.(cur := Join(a2.cur, b))
  }

  function Feed(bars: seq<Bar>, cfg: Config): Agg
    requires cfg.Ok()
  {
    if bars == [] then FRESH else Update(Feed(bars[..|bars| - 1], cfg), bars[|bars| - 1], cfg)
  }

  class HtfAgg {
    const cfg: Config
    var bucket: int
    var cur: Candle
    var done: seq<Candle>
    var emaFast: Option<real>
    var emaFastPrev: Option<real>
    var emaSlow: Option<real>
    var cls: Option<real>
    var slope: Option<real>
    var atrRma: Option<real>

    ghost function State(): Agg
      reads this
    {
      Agg(bucket, cur, Outputs(done, emaFast, emaFastPrev, emaSlow, cls, slope, atrRma))
    }

    constructor (cfg: Config)
      ensures this.cfg == cfg && State() == FRESH
    {
      this.cfg := cfg;
      bucket, cur, done := -1, NO_CANDLE, [];
      emaFast, emaFastPrev, emaSlow, cls, slope, atrRma := None, None, None, None, None, None;
    }

    method OnBar(b: Bar)
      requires cfg.Ok() && |done| <= DONE_MAX
      modifies this
      ensures State() == Update(old(State()), b, cfg) && |done| <= DONE_MAX
    {
      var k := Slot(b, cfg.minutes);
      if bucket < 0 {
        bucket := k;
      }
      if k != bucket {
        if cur.volume > 0 {
          CompleteBucket();
        }
        cur := NO_CANDLE;
        bucket := k;
      }
      if cur.volume == 0 {
        cur := cur.(open := b.open, high := b.high, low := b.low);
      }
      if b.high > cur.high {
        cur := cur.(high := b.high);
      }
      if b.low < cur.low {
        cur := cur.(low := b.low);
      }
      cur := cur.(close := b.close, volume := cur.volume + b.volume);
    }

    method CompleteBucket()
      requires cfg.Ok() && |done| <= DONE_MAX
      modifies this
      ensures State() == old(State()).(out := Complete(old(State()).out, old(cur), cfg)) && |done| <= DONE_MAX
    {
      done := done + [cur];
      if |done| > DONE_MAX {
        done := done[1..];
      }
      assert done == Recent(old(done) + [cur]);
      AdvanceAverages();
      atrRma := Some(RmaNext(atrRma, TrueRange(cur, PrevClose(done)), cfg.atrLen));
    }

    method AdvanceAverages()
      modifies this`emaFast, this`emaFastPrev, this`emaSlow, this`cls, this`slope
      ensures emaFastPrev == old(emaFast) && cls == Some(cur.close)
      ensures emaFast == Some(EmaNext(old(emaFast), cur.close, cfg.lenFast))
      ensures emaSlow == Some(EmaNext(old(emaSlow), cur.close, cfg.lenSlow))
      ensures slope == if emaFastPrev.Some? then Some(emaFast.value - emaFastPrev.value) else None
    {
      emaFastPrev := emaFast;
      emaFast := Some(EmaNext(emaFast, cur.close, cfg.lenFast));
      emaSlow := Some(EmaNext(emaSlow, cur.close, cfg.lenSlow));
      cls := Some(cur.close);
      slope := if emaFastPrev.Some? then Some(emaFast.value - emaFastPrev.value) else None;
    }
  }

  // ---------------------------------------------------------------- the specification

  /** A bar joins the last group, or starts one when its bucket is another. */
  function Place(gs: seq<seq<Bar>>, b: Bar, minutes: nat): (hs: seq<seq<Bar>>)
    requires minutes > 0
    ensures hs != []
    ensures (forall i :: 0 <= i < |gs| ==> gs[i] != []) ==> forall i :: 0 <= i < |hs| ==> hs[i] != []
  {
    if gs != [] && BucketOf(gs[|gs| - 1], minutes) == Slot(b, minutes)
    then gs[..|gs| - 1] + [gs[|gs| - 1] + [b]]
    else gs + [[b]]
  }

  /** The bars grouped by bucket, in order. */
  function Groups(bars: seq<Bar>, minutes: nat): (gs: seq<seq<Bar>>)
    requires minutes > 0
    ensures bars != [] ==> gs != []
    ensures forall i :: 0 <= i < |gs| ==> gs[i] != []
  {
    if bars == [] then [] else Place(Groups(bars[..|bars| - 1], minutes), bars[|bars| - 1], minutes)
  }

  /** The bucket of a group: that of its last bar. */
  function BucketOf(g: seq<Bar>, minutes: nat): int
    requires minutes > 0
  {
    if g == [] then -1 else Slot(g[|g| - 1], minutes)
  }

  function Volume(g: seq<Bar>): int { if g == [] then 0 else Volume(g[..|g| - 1]) + g[|g| - 1].volume }

  /** First open, highest high, lowest low, last close, total volume. */
  ghost predicate IsCandleOf(c: Candle, g: seq<Bar>)
    requires g != []
  {
    && c.open == g[0].open && c.close == g[|g| - 1].close && c.volume == Volume(g)
    && (forall i :: 0 <= i < |g| ==> g[i].high <= c.high) && (exists i :: 0 <= i < |g| && c.high == g[i].high)
    && (forall i :: 0 <= i < |g| ==> c.low <= g[i].low) && (exists i :: 0 <= i < |g| && c.low == g[i].low)
  }

  function CandleOf(g: seq<Bar>): Candle {
    if g == [] then NO_CANDLE else Join(CandleOf(g[..|g| - 1]), g[|g| - 1])
  }

  predicate Traded(g: seq<Bar>) { forall i :: 0 <= i < |g| ==> g[i].volume > 0 }

  lemma {:induction false} CandleCorrect(g: seq<Bar>)
    requires g != [] && Traded(g)
    ensures IsCandleOf(CandleOf(g), g) && CandleOf(g).volume > 0
  {
    var front, b := g[..|g| - 1], g[|g| - 1];
    var c, c0 := CandleOf(g), CandleOf(front);
    if front == [] {
      assert c.high == g[0].high && c.low == g[0].low;
    } else {
      CandleCorrect(front);
      var i :| 0 <= i < |front| && c0.high == front[i].high;
      var j :| 0 <= j < |front| && c0.low == front[j].low;
      assert c.high == (if c0.high < b.high then g[|g| - 1].high else g[i].high);
      assert c.low == (if b.low < c0.low then g[|g| - 1].low else g[j].low);
    }
  }

  function Candles(gs: seq<seq<Bar>>): (cs: seq<Candle>)
    ensures |cs| == |gs|
  {
    if gs == [] then [] else Candles(gs[..|gs| - 1]) + [CandleOf(gs[|gs| - 1])]
  }

  /** The completed buckets: all groups but the forming one. */
  function Completed(bars: seq<Bar>, minutes: nat): seq<seq<Bar>>
    requires minutes > 0
  {
    var gs := Groups(bars, minutes);
    if gs == [] then [] else gs[..|gs| - 1]
  }

  /** The indicators as a fold over completed candles. */
  function Folded(cs: seq<Candle>, cfg: Config): Outputs
    requires cfg.Ok()
  {
    if cs == [] then NO_OUTPUTS else Complete(Folded(cs[..|cs| - 1], cfg), cs[|cs| - 1], cfg)
  }

  lemma CandlesSnoc(gs: seq<seq<Bar>>, g: seq<Bar>)
    ensures Candles(gs + [g]) == Candles(gs) + [CandleOf(g)]
  {
    assert (gs + [g])[..|gs|] == gs;
  }

  lemma FoldedSnoc(cs: seq<Candle>, c: Candle, cfg: Config)
    requires cfg.Ok()
    ensures Folded(cs + [c], cfg) == Complete(Folded(cs, cfg), c, cfg)
  {
    assert (cs + [c])[..|cs|] == cs;
  }

  lemma {:induction false} GroupsTraded(bars: seq<Bar>, minutes: nat)
    requires minutes > 0 && Traded(bars)
    ensures forall i :: 0 <= i < |Groups(bars, minutes)| ==> Traded(Groups(bars, minutes)[i])
  {
    if bars != [] {
      GroupsTraded(bars[..|bars| - 1], minutes);
    }
  }

  /** What the aggregator holds for given groups: the last one forming, the others folded. */
  ghost predicate Holds(a: Agg, gs: seq<seq<Bar>>, cfg: Config)
    requires cfg.Ok()
  {
    && gs != []
    && a.cur == CandleOf(gs[|gs| - 1])
    && a.bucket == BucketOf(gs[|gs| - 1], cfg.minutes)
    && a.out == Folded(Candles(gs[..|gs| - 1]), cfg)
  }

  lemma HoldsJoin(a: Agg, gs: seq<seq<Bar>>, b: Bar, cfg: Config)
    requires cfg.Ok() && Holds(a, gs, cfg) && a.bucket == Slot(b, cfg.minutes)
    ensures Holds(Update(a, b, cfg), Place(gs, b, cfg.minutes), cfg)
  {
    var g := gs[|gs| - 1];
    assert (g + [b])[..|g|] == g;
    var hs := Place(gs, b, cfg.minutes);
    assert hs[..|hs| - 1] == gs[..|gs| - 1];
    assert Update(a, b, cfg) == a.(cur := Join(a.cur, b));
  }

  lemma HoldsNew(a: Agg, gs: seq<seq<Bar>>, b: Bar, cfg: Config)
    requires cfg.Ok() && Holds(a, gs, cfg) && a.bucket != Slot(b, cfg.minutes)
    requires a.bucket >= 0 && a.cur.volume > 0
    ensures Holds(Update(a, b, cfg), Place(gs, b, cfg.minutes), cfg)
  {
    var front, g := gs[..|gs| - 1], gs[|gs| - 1];
    var hs := Place(gs, b, cfg.minutes);
    assert gs == front + [g] && hs[..|hs| - 1] == gs;
    CandlesSnoc(front, g);
    FoldedSnoc(Candles(front), CandleOf(g), cfg);
    NewBucket(a, b, cfg);
  }

  /**
   After any bars the forming candle is that of the last group, and everything else is the fold over the
   completed groups only.
   */
  lemma {:induction false} FeedIsFold(bars: seq<Bar>, cfg: Config)
    requires cfg.Ok() && bars != [] && Traded(bars)
    ensures Holds(Feed(bars, cfg), Groups(bars, cfg.minutes), cfg)
  {
    var front, b := bars[..|bars| - 1], bars[|bars| - 1];
    if front == [] {
      SingleBar(bars, cfg);
    } else {
      FeedIsFold(front, cfg);
      var gs, a := Groups(front, cfg.minutes), Feed(front, cfg);
      if a.bucket == Slot(b, cfg.minutes) {
        HoldsJoin(a, gs, b, cfg);
      } else {
        GroupsTraded(front, cfg.minutes);
        CandleCorrect(gs[|gs| - 1]);
        HoldsNew(a, gs, b, cfg);
      }
    }
  }

  lemma SingleBar(bars: seq<Bar>, cfg: Config)
    requires cfg.Ok() && |bars| == 1
    ensures Groups(bars, cfg.minutes) == [bars]
    ensures Feed(bars, cfg) == Agg(Slot(bars[0], cfg.minutes), CandleOf(bars), NO_OUTPUTS)
  {
    assert bars[..0] == [] && bars == [bars[0]];
    assert Groups(bars, cfg.minutes) == [] + [[bars[0]]];
  }

  lemma NewBucket(a: Agg, b: Bar, cfg: Config)
    requires cfg.Ok() && a.bucket >= 0 && Slot(b, cfg.minutes) != a.bucket && a.cur.volume > 0
    ensures Update(a, b, cfg) == Agg(Slot(b, cfg.minutes), CandleOf([b]), Complete(a.out, a.cur, cfg))
  {
    assert [b][..0] == [];
  }

  /** Each group within one bucket, neighbours in different ones. */
  ghost predicate CutAtBuckets(gs: seq<seq<Bar>>, minutes: nat)
    requires minutes > 0
  {
    && (forall i :: 0 <= i < |gs| ==> InBucket(gs[i], BucketOf(gs[i], minutes), minutes))
    && (forall i :: 0 < i < |gs| ==> BucketOf(gs[i - 1], minutes) != BucketOf(gs[i], minutes))
  }

  lemma PlaceCuts(gs: seq<seq<Bar>>, b: Bar, minutes: nat)
    requires minutes > 0 && CutAtBuckets(gs, minutes)
    ensures CutAtBuckets(Place(gs, b, minutes), minutes)
  {
    var hs, k := Place(gs, b, minutes), |gs| - 1;
    forall i | 0 <= i < |hs| ensures InBucket(hs[i], BucketOf(hs[i], minutes), minutes) {
      if i < k {
        assert hs[i] == gs[i];
      }
    }
    forall i | 0 < i < |hs| ensures BucketOf(hs[i - 1], minutes) != BucketOf(hs[i], minutes) {
      assert hs[i - 1] == gs[i - 1];
      assert i <= k ==> BucketOf(hs[i], minutes) == BucketOf(gs[i], minutes);
    }
  }

  lemma PlaceFlat(gs: seq<seq<Bar>>, b: Bar, minutes: nat)
    requires minutes > 0
    ensures Flat(Place(gs, b, minutes)) == Flat(gs) + [b]
  {
    if gs != [] && BucketOf(gs[|gs| - 1], minutes) == Slot(b, minutes) {
      var front, g := gs[..|gs| - 1], gs[|gs| - 1];
      FlatSnoc(front, g + [b]);
      assert Flat(front) + (g + [b]) == (Flat(front) + g) + [b];
    } else {
      FlatSnoc(gs, [b]);
    }
  }

  /** The groups are the bars, cut wherever the bucket changes and nowhere else. */
  lemma GroupsCutAtBuckets(bars: seq<Bar>, minutes: nat)
    requires minutes > 0
    ensures Flat(Groups(bars, minutes)) == bars && CutAtBuckets(Groups(bars, minutes), minutes)
  {
    GroupsFlat(bars, minutes);
    GroupsCut(bars, minutes);
  }

  lemma {:induction false} GroupsFlat(bars: seq<Bar>, minutes: nat)
    requires minutes > 0
    ensures Flat(Groups(bars, minutes)) == bars
  {
    if bars != [] {
      var front, b := bars[..|bars| - 1], bars[|bars| - 1];
      GroupsFlat(front, minutes);
      PlaceFlat(Groups(front, minutes), b, minutes);
      assert bars == front + [b];
    }
  }

  lemma {:induction false} GroupsCut(bars: seq<Bar>, minutes: nat)
    requires minutes > 0
    ensures CutAtBuckets(Groups(bars, minutes), minutes)
  {
    if bars != [] {
      var front, b := bars[..|bars| - 1], bars[|bars| - 1];
      GroupsCut(front, minutes);
      PlaceCuts(Groups(front, minutes), b, minutes);
      assert Groups(bars, minutes) == Place(Groups(front, minutes), b, minutes);
    }
  }

  function Flat(gs: seq<seq<Bar>>): seq<Bar> {
    if gs == [] then [] else Flat(gs[..|gs| - 1]) + gs[|gs| - 1]
  }

  lemma FlatSnoc(gs: seq<seq<Bar>>, g: seq<Bar>)
    ensures Flat(gs + [g]) == Flat(gs) + g
  {
    assert (gs + [g])[..|gs|] == gs;
  }

  ghost predicate Ascending(gs: seq<seq<Bar>>, minutes: nat)
    requires minutes > 0
  {
    forall i, j :: 0 <= i < j < |gs| ==> BucketOf(gs[i], minutes) < BucketOf(gs[j], minutes)
  }

  lemma PlaceAscending(gs: seq<seq<Bar>>, b: Bar, minutes: nat)
    requires minutes > 0 && gs != [] && Ascending(gs, minutes)
    requires BucketOf(gs[|gs| - 1], minutes) <= Slot(b, minutes)
    ensures Ascending(Place(gs, b, minutes), minutes)
  {
  }

  lemma {:induction false} LastBucket(bars: seq<Bar>, minutes: nat)
    requires minutes > 0 && bars != []
    ensures var gs := Groups(bars, minutes); BucketOf(gs[|gs| - 1], minutes) == Slot(bars[|bars| - 1], minutes)
  {
  }

  /** With nondecreasing minutes every bucket is one group: buckets strictly increase over the groups. */
  lemma {:induction false} OneGroupPerBucket(bars: seq<Bar>, minutes: nat)
    requires minutes > 0
    requires forall i, j :: 0 <= i < j < |bars| ==> bars[i].minute <= bars[j].minute
    ensures Ascending(Groups(bars, minutes), minutes)
  {
    if |bars| > 1 {
      var front, b := bars[..|bars| - 1], bars[|bars| - 1];
      OneGroupPerBucket(front, minutes);
      LastBucket(front, minutes);
      SlotsInOrder(front[|front| - 1], b, minutes);
      PlaceAscending(Groups(front, minutes), b, minutes);
    }
  }

  lemma SlotsInOrder(x: Bar, y: Bar, minutes: nat)
    requires minutes > 0 && x.minute <= y.minute
    ensures Slot(x, minutes) <= Slot(y, minutes)
  {
    MultiplesInOrder(Slot(x, minutes), Slot(y, minutes) + 1, minutes);
  }

  lemma MultiplesInOrder(q: nat, p: nat, m: nat)
    requires m > 0 && m * q < m * p
    ensures q < p
  {
  }

  lemma {:induction false} RecentDone(cs: seq<Candle>, cfg: Config)
    requires cfg.Ok()
    ensures Folded(cs, cfg).done == Recent(cs)
  {
    if cs != [] {
      var front := cs[..|cs| - 1];
      RecentDone(front, cfg);
      RecentSnoc(front, cs[|cs| - 1]);
      assert cs == front + [cs[|cs| - 1]];
    }
  }

  lemma RecentSnoc(cs: seq<Candle>, c: Candle)
    ensures Recent(Recent(cs) + [c]) == Recent(cs + [c])
  {
    if |cs| > DONE_MAX {
      assert Recent(cs) + [c] == (cs + [c])[|cs| - DONE_MAX..];
    }
  }

  lemma RecentCandle(gs: seq<seq<Bar>>, i: nat)
    requires i < |Recent(Candles(gs))|
    ensures var d := Recent(Candles(gs)); |d| <= |gs| && d[i] == CandleOf(gs[|gs| - |d| + i])
  {
    CandleAt(gs, |gs| - |Recent(Candles(gs))| + i);
  }

  /** The kept bars are the candles of the last completed buckets, each what its bucket's bars make it. */
  lemma DoneAreCandles(bars: seq<Bar>, cfg: Config, i: nat)
    requires cfg.Ok() && bars != [] && Traded(bars)
    requires i < |Feed(bars, cfg).out.done|
    ensures var gs, done := Completed(bars, cfg.minutes), Feed(bars, cfg).out.done;
            && |done| == Min(|gs|, 8)
            && gs[|gs| - |done| + i] != []
            && IsCandleOf(done[i], gs[|gs| - |done| + i])
  {
    var gs := Completed(bars, cfg.minutes);
    KeptAreRecent(bars, cfg);
    RecentCandle(gs, i);
    GroupsTraded(bars, cfg.minutes);
    CandleCorrect(gs[|gs| - |Recent(Candles(gs))| + i]);
  }

  lemma KeptAreRecent(bars: seq<Bar>, cfg: Config)
    requires cfg.Ok() && bars != [] && Traded(bars)
    ensures Feed(bars, cfg).out.done == Recent(Candles(Completed(bars, cfg.minutes)))
  {
    FeedIsFold(bars, cfg);
    RecentDone(Candles(Completed(bars, cfg.minutes)), cfg);
  }

  lemma {:induction false} CandleAt(gs: seq<seq<Bar>>, k: nat)
    requires k < |gs|
    ensures Candles(gs)[k] == CandleOf(gs[k])
  {
    if k < |gs| - 1 {
      CandleAt(gs[..|gs| - 1], k);
    }
  }

  // ---------------------------------------------------------------- the indicators

  /** An exponential average: the first value, then two parts of the new one to `len - 1` of the old. */
  predicate IsEma(next: Option<real>, prev: Option<real>, x: real, len: nat) {
    && next.Some?
    && (prev.None? ==> next.value == x)
    && (prev.Some? ==> next.value * (len as real + 1.0) == 2.0 * x + (len as real - 1.0) * prev.value)
  }

  /** Wilder's average: the first value, then one part of the new one to `len - 1` of the old. */
  predicate IsRma(next: Option<real>, prev: Option<real>, x: real, len: nat) {
    && next.Some?
    && (prev.None? ==> next.value == x)
    && (prev.Some? ==> next.value * len as real == x + (len as real - 1.0) * prev.value)
  }

  /** The largest of a candle's height and its distances from the close before it. */
  ghost predicate IsTrueRange(t: real, c: Candle, before: seq<Candle>) {
    if before == [] then t == c.high - c.low
    else
      var pc := before[|before| - 1].close;
      && t >= c.high - c.low && t >= c.high - pc && t >= pc - c.high && t >= c.low - pc && t >= pc - c.low
      && (t == c.high - c.low || t == c.high - pc || t == pc - c.high || t == c.low - pc || t == pc - c.low)
  }

  lemma EmaIs(prev: Option<real>, x: real, len: nat)
    ensures IsEma(Some(EmaNext(prev, x, len)), prev, x, len)
  {
    if prev.Some? { WeightsScale(len as real, x, prev.value); }
  }

  lemma WeightsScale(len: real, x: real, p: real)
    requires len >= 0.0
    ensures var a := 2.0 / (len + 1.0); (a * x + (1.0 - a) * p) * (len + 1.0) == 2.0 * x + (len - 1.0) * p
  {
    var a := 2.0 / (len + 1.0);
    assert a * (len + 1.0) == 2.0;
    assert (a * x + (1.0 - a) * p) * (len + 1.0) == (a * (len + 1.0)) * x + ((len + 1.0) - a * (len + 1.0)) * p;
  }

  lemma RmaIs(prev: Option<real>, x: real, len: nat)
    requires len > 0
    ensures IsRma(Some(RmaNext(prev, x, len)), prev, x, len)
  {
  }

  lemma TrueRangeIs(c: Candle, before: seq<Candle>)
    ensures IsTrueRange(TrueRange(c, PrevClose(Recent(before + [c]))), c, before)
  {
    if before != [] {
      var d := Recent(before + [c]);
      assert |d| >= 2 && d[|d| - 2] == before[|before| - 1];
    }
  }

  /** The indicators of completed candles after one more: their recurrences, each with its own length. */
  lemma IndicatorsFollow(cs: seq<Candle>, c: Candle, cfg: Config) returns (range: real)
    requires cfg.Ok()
    ensures var o, q := Folded(cs, cfg), Folded(cs + [c], cfg);
            && q.close == Some(c.close) && q.emaFastPrev == o.emaFast
            && IsEma(q.emaFast, o.emaFast, c.close, cfg.lenFast)
            && IsEma(q.emaSlow, o.emaSlow, c.close, cfg.lenSlow)
            && (q.slope.Some? <==> cs != [])
            && (q.slope.Some? ==> o.emaFast.Some? && q.slope.value == q.emaFast.value - o.emaFast.value)
            && IsTrueRange(range, c, cs) && IsRma(q.atr, o.atr, range, cfg.atrLen)
  {
    range := TrueRange(c, PrevClose(Recent(cs + [c])));
    var o := Folded(cs, cfg);
    FoldedSnoc(cs, c, cfg);
    RecentDone(cs, cfg);
    RecentSnoc(cs, c);
    Seeded(cs, cfg);
    EmaIs(o.emaFast, c.close, cfg.lenFast);
    EmaIs(o.emaSlow, c.close, cfg.lenSlow);
    TrueRangeIs(c, cs);
    RmaIs(o.atr, range, cfg.atrLen);
  }

  lemma {:induction false} Seeded(cs: seq<Candle>, cfg: Config)
    requires cfg.Ok()
    ensures var o := Folded(cs, cfg);
            (o.emaFast.Some? <==> cs != []) && (o.emaSlow.Some? <==> cs != []) && (o.atr.Some? <==> cs != [])
  {
  }

  predicate Within(c: Candle, lo: real, hi: real) { lo <= c.low <= c.high <= hi && lo <= c.close <= hi }

  /** A value is missing, or between two bounds. */
  predicate Bounded(x: Option<real>, lo: real, hi: real) { x.Some? ==> lo <= x.value <= hi }

  lemma EmaBounded(next: Option<real>, prev: Option<real>, x: real, len: nat, lo: real, hi: real)
    requires len > 0 && IsEma(next, prev, x, len) && lo <= x <= hi && Bounded(prev, lo, hi)
    ensures Bounded(next, lo, hi)
  {
    if prev.Some? { Average(next.value, 2.0, x, len as real - 1.0, prev.value, lo, hi); }
  }

  lemma RmaBounded(next: Option<real>, prev: Option<real>, x: real, len: nat, lo: real, hi: real)
    requires len > 0 && IsRma(next, prev, x, len) && lo <= x <= hi && Bounded(prev, lo, hi)
    ensures Bounded(next, lo, hi)
  {
    if prev.Some? { Average(next.value, 1.0, x, len as real - 1.0, prev.value, lo, hi); }
  }

  /** A weighted mean lies between the bounds of what it averages. */
  lemma Average(v: real, k: real, x: real, w: real, p: real, lo: real, hi: real)
    requires k > 0.0 && w >= 0.0 && v * (w + k) == k * x + w * p
    requires lo <= x <= hi && lo <= p <= hi
    ensures lo <= v <= hi
  {
    Product(k, x - lo);
    Product(w, p - lo);
    Product(k, hi - x);
    Product(w, hi - p);
    assert (v - lo) * (w + k) == k * (x - lo) + w * (p - lo);
    assert (hi - v) * (w + k) == k * (hi - x) + w * (hi - p);
    Factor(v - lo, w + k);
    Factor(hi - v, w + k);
  }

  lemma Product(a: real, b: real)
    requires a >= 0.0 && b >= 0.0
    ensures a * b >= 0.0
  {
  }

  lemma Factor(a: real, w: real)
    requires w > 0.0 && a * w >= 0.0
    ensures a >= 0.0
  {
  }

  /** Candles between two prices keep both averages between them and the range at most their distance. */
  lemma {:induction false} IndicatorsBounded(cs: seq<Candle>, cfg: Config, lo: real, hi: real)
    requires cfg.Ok() && cfg.lenFast > 0 && cfg.lenSlow > 0
    requires forall i :: 0 <= i < |cs| ==> Within(cs[i], lo, hi)
    ensures var o := Folded(cs, cfg);
            Bounded(o.emaFast, lo, hi) && Bounded(o.emaSlow, lo, hi) && Bounded(o.atr, 0.0, hi - lo)
  {
    if cs != [] {
      var front, c := cs[..|cs| - 1], cs[|cs| - 1];
      assert cs == front + [c] && Within(c, lo, hi);
      IndicatorsBounded(front, cfg, lo, hi);
      var range := IndicatorsFollow(front, c, cfg);
      RangeBounded(range, c, front, lo, hi);
      var o, q := Folded(front, cfg), Folded(cs, cfg);
      EmaBounded(q.emaFast, o.emaFast, c.close, cfg.lenFast, lo, hi);
      EmaBounded(q.emaSlow, o.emaSlow, c.close, cfg.lenSlow, lo, hi);
      RmaBounded(q.atr, o.atr, range, cfg.atrLen, 0.0, hi - lo);
    }
  }

  lemma RangeBounded(t: real, c: Candle, before: seq<Candle>, lo: real, hi: real)
    requires IsTrueRange(t, c, before) && Within(c, lo, hi)
    requires before != [] ==> Within(before[|before| - 1], lo, hi)
    ensures 0.0 <= t <= hi - lo
  {
  }

  predicate BarsWithin(bars: seq<Bar>, lo: real, hi: real) {
    forall i :: 0 <= i < |bars| ==> lo <= bars[i].low <= bars[i].close <= bars[i].high <= hi
  }

  lemma CandleWithin(c: Candle, g: seq<Bar>, lo: real, hi: real)
    requires g != [] && IsCandleOf(c, g) && BarsWithin(g, lo, hi)
    ensures Within(c, lo, hi)
  {
    assert c.low <= g[0].low && g[0].high <= c.high;
  }

  lemma {:induction false} GroupsWithin(bars: seq<Bar>, minutes: nat, lo: real, hi: real)
    requires minutes > 0 && BarsWithin(bars, lo, hi)
    ensures forall i :: 0 <= i < |Groups(bars, minutes)| ==> BarsWithin(Groups(bars, minutes)[i], lo, hi)
  {
    if bars != [] {
      GroupsWithin(bars[..|bars| - 1], minutes, lo, hi);
    }
  }

  /**
   Over any history of traded bars between two prices, both averages stay between them, and the average range
   is not negative and not above their distance.
   */
  lemma AveragesStayWithin(bars: seq<Bar>, cfg: Config, lo: real, hi: real)
    requires cfg.Ok() && cfg.lenFast > 0 && cfg.lenSlow > 0
    requires bars != [] && Traded(bars) && BarsWithin(bars, lo, hi)
    ensures var o := Feed(bars, cfg).out;
            Bounded(o.emaFast, lo, hi) && Bounded(o.emaSlow, lo, hi) && Bounded(o.atr, 0.0, hi - lo)
  {
    var gs := Completed(bars, cfg.minutes);
    var cs := Candles(gs);
    FeedIsFold(bars, cfg);
    GroupsTraded(bars, cfg.minutes);
    GroupsWithin(bars, cfg.minutes, lo, hi);
    forall i | 0 <= i < |cs| ensures Within(cs[i], lo, hi) {
      CandleAt(gs, i);
      CandleCorrect(gs[i]);
      CandleWithin(cs[i], gs[i], lo, hi);
    }
    IndicatorsBounded(cs, cfg, lo, hi);
  }

  /** A length of zero overshoots: the new average lies between the old one and the value exactly when it is not. */
  lemma EmaBetweenIff(p: real, x: real, len: nat)
    requires p != x
    ensures var e := EmaNext(Some(p), x, len); (p <= e <= x || x <= e <= p) <==> len > 0
  {
    var e := EmaNext(Some(p), x, len);
    EmaIs(Some(p), x, len);
    if len > 0 {
      EmaBounded(Some(e), Some(p), x, len, if p < x then p else x, if p < x then x else p);
    } else {
      assert e == 2.0 * x - p;
    }
  }

  // ---------------------------------------------------------------- no look-ahead

  /** Bars of one bucket, all in one. */
  ghost predicate InBucket(x: seq<Bar>, bucket: int, minutes: nat)
    requires minutes > 0
  {
    forall i :: 0 <= i < |x| ==> Slot(x[i], minutes) == bucket
  }

  /** Adding bars of one bucket completes at most what formed before. */
  lemma {:induction false} OneBucket(p: seq<Bar>, x: seq<Bar>, bucket: int, minutes: nat)
    requires minutes > 0 && x != [] && InBucket(x, bucket, minutes)
    ensures var gs := Groups(p, minutes);
            Completed(p + x, minutes) ==
            if gs != [] && BucketOf(gs[|gs| - 1], minutes) == bucket then gs[..|gs| - 1] else gs
    ensures BucketOf(Groups(p + x, minutes)[|Groups(p + x, minutes)| - 1], minutes) == bucket
  {
    var front := x[..|x| - 1];
    assert (p + x)[..|p + x| - 1] == p + front;
    if front == [] {
      assert p + front == p;
    } else {
      OneBucket(p, front, bucket, minutes);
    }
  }

  /** Two histories that differ only inside the forming bucket give identical outputs. */
  lemma NoLookAhead(p: seq<Bar>, x: seq<Bar>, y: seq<Bar>, bucket: int, cfg: Config)
    requires cfg.Ok() && x != [] && y != []
    requires Traded(p + x) && Traded(p + y)
    requires InBucket(x, bucket, cfg.minutes) && InBucket(y, bucket, cfg.minutes)
    ensures Feed(p + x, cfg).out == Feed(p + y, cfg).out
  {
    OneBucket(p, x, bucket, cfg.minutes);
    OneBucket(p, y, bucket, cfg.minutes);
    FeedIsFold(p + x, cfg);
    FeedIsFold(p + y, cfg);
  }

  // ---------------------------------------------------------------- roll-over by size

  /** A bucket was completed by bar `b`. */
  predicate RollsOver(a: Agg, b: Bar, cfg: Config)
    requires cfg.Ok()
  {
    a.bucket >= 0 && Slot(b, cfg.minutes) != a.bucket && a.cur.volume > 0
  }

  /** How the gap engine detects it: the number of kept bars changed. */
  predicate SizeChanged(a: Agg, b: Bar, cfg: Config)
    requires cfg.Ok()
  {
    |Update(a, b, cfg).out.done| != |a.out.done|
  }

  /** The detection is right exactly until the list of kept bars is full; from then on it never fires. */
  lemma SizeDetectsIff(bars: seq<Bar>, b: Bar, cfg: Config)
    requires cfg.Ok() && bars != [] && Traded(bars)
    ensures var a := Feed(bars, cfg);
            && (SizeChanged(a, b, cfg) <==> RollsOver(a, b, cfg) && |Completed(bars, cfg.minutes)| < 8)
            && (SizeChanged(a, b, cfg) == RollsOver(a, b, cfg) <==>
                !RollsOver(a, b, cfg) || |Completed(bars, cfg.minutes)| < 8)
  {
    var a := Feed(bars, cfg);
    FeedIsFold(bars, cfg);
    RecentDone(Candles(Completed(bars, cfg.minutes)), cfg);
  }
}
