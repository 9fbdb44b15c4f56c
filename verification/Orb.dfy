/**
 The opening-range breakout strategy: the range of the first minutes of the session is frozen, and a
 later tick that crosses it is an entry, subject to a position flag, a cooldown and daily limits.
 */
module Orb {
  import opened Prelude
  import Calendar

  datatype Config = Config(
    openMinute: int, orbMinutes: int, lastEntryMinute: int, maxDailyTrades: int, buffer: real,
    newsMinutes: int, cooldownSecs: int, eodHour: int, eodMinute: int)
  {
    function OrbEnd(): int { openMinute + orbMinutes }
    function Cooldown(): int { if cooldownSecs > 0 then cooldownSecs * 1_000_000 else 0 }
    predicate InWindow(et: int) { openMinute <= et < OrbEnd() }
  }

  datatype Range = Range(high: real, low: real)

  /** The forming minute: -1 before the first tick. */
  datatype Bar = Bar(minute: int, volume: int)

  const NO_BAR: Bar := Bar(-1, 0)

  datatype State = State(
    range: Option<Range>, orbSet: bool, trades: int, inPosition: bool, halted: bool,
    bar: Bar, lastPrice: real, lastTs: int, cooldownUntil: int, eodEmitted: bool, seeded: bool)

  const INITIAL: State := State(None, false, 0, false, false, NO_BAR, 0.0, 0, 0, false, false)

  datatype Signal = Buy(price: real) | Sell(price: real) | Flatten(price: real)

  /** What the host may do to the strategy from inside a signal callback. */
  datatype Call = Closed | Halt | Unhalt

  /**
   The events; a tick carries its Eastern minute of the day, and what the host does if it raises a signal.
   */
  datatype Event =
    | OnTick(ts: int, et: int, price: real, size: int, calls: seq<Call>)
    | CheckEod(hour: int, minute: int, calls: seq<Call>)
    | Notify(call: Call)
    | Reset
    | SeedTrades(n: int)
    | SeedRange(high: real, low: real)

  // ---------------------------------------------------------------- the steps

  function Wider(r: Option<Range>, price: real): Option<Range> {
    match r
    case None => Some(Range(price, price))
    case Some(Range(h, l)) => Some(Range(if price > h then price else h, if price < l then price else l))
  }

  function Apply(s: State, c: Call, cfg: Config): State {
    match c
    case Closed => s.(inPosition := false,
                      cooldownUntil := if cfg.cooldownSecs > 0 then s.lastTs + cfg.Cooldown() else s.cooldownUntil)
    case Halt => s.(halted := true)
    case Unhalt => s.(halted := false)
  }

  function ApplyAll(s: State, cs: seq<Call>, cfg: Config): State
    decreases |cs|
  {
    if cs == [] then s else ApplyAll(Apply(s, cs[0], cfg), cs[1..], cfg)
  }

  /** The minute of a tick. */
  function MinuteOf(ts: int): int { TruncDiv(TruncDiv(ts, 1_000_000), 60) }

  /** The range freezes when a traded minute closes after the window, if the window saw two prices. */
  predicate Freezes(s: State, et: int, cfg: Config) {
    s.bar.volume != 0 && !s.orbSet && et >= cfg.OrbEnd() && s.range.Some? && s.range.value.high > s.range.value.low
  }

  /** A tick closes the minute of earlier ticks. */
  predicate ClosesBar(s: State, minute: int) { s.bar.minute >= 0 && minute != s.bar.minute }

  function Ticked(s: State, ts: int, et: int, price: real, size: int, cfg: Config): State {
    var minute := MinuteOf(ts);
    var close := ClosesBar(s, minute);
    var volume := if close then 0 else s.bar.volume;
    s.(orbSet := s.orbSet || (close && Freezes(s, et, cfg)), bar := Bar(minute, volume + size),
       lastPrice := price, lastTs := ts)
  }

  /** Minutes of the day of the regular announcements: 08:30, 10:00, 14:00 and 14:30. */
  const NEWS: seq<int> := [510, 600, 840, 870]

  predicate NewsBlackout(et: int, minutes: int) {
    exists i :: 0 <= i < |NEWS| && NEWS[i] - minutes <= et <= NEWS[i] + minutes
  }

  /** The entry a tick makes, if any: `s` has seen the tick, `prev` is the price before it. */
  function Entry(s: State, et: int, price: real, prev: real, cfg: Config): Option<Signal> {
    if s.range.None? || s.trades >= cfg.maxDailyTrades || et >= cfg.lastEntryMinute
       || NewsBlackout(et, cfg.newsMinutes) || s.inPosition || s.lastTs < s.cooldownUntil
    then None
    else
      var up, down := s.range.value.high + cfg.buffer, s.range.value.low - cfg.buffer;
      if price > up && (prev <= 0.0 || prev <= up) then Some(Buy(price))
      else if price < down && (prev <= 0.0 || prev >= down) then Some(Sell(price))
      else None
  }

  predicate Late(hour: int, minute: int, cfg: Config) {
    hour > cfg.eodHour || (hour == cfg.eodHour && minute >= cfg.eodMinute)
  }

  /** The signal an event raises. */
  function Raises(s: State, e: Event, cfg: Config): Option<Signal> {
    match e
    case OnTick(ts, et, price, size, calls) =>
      var t := Ticked(s, ts, et, price, size, cfg);
      if s.halted || s.seeded || !t.orbSet then None else Entry(t, et, price, s.lastPrice, cfg)
    case CheckEod(hour, minute, _) =>
      if Late(hour, minute, cfg) && !s.eodEmitted then Some(Flatten(s.lastPrice)) else None
    case _ => None
  }

  function Step(s: State, e: Event, cfg: Config): State {
    match e
    case OnTick(ts, et, price, size, calls) =>
      var t := Ticked(s, ts, et, price, size, cfg);
      if s.halted then s
      else if s.seeded then t.(seeded := false)
      else if !t.orbSet then (if cfg.InWindow(et) then t.(range := Wider(t.range, price)) else t)
      else if Raises(s, e, cfg).Some? then
        var u := ApplyAll(t, calls, cfg);
        u.(inPosition := true, trades := u.trades + 1)
      else t
    case CheckEod(hour, minute, calls) =>
      if Raises(s, e, cfg).Some? then ApplyAll(s.(eodEmitted := true), calls, cfg) else s
    case Notify(c) => Apply(s, c, cfg)
    case Reset => INITIAL.(lastPrice := s.lastPrice, lastTs := s.lastTs)
    case SeedTrades(n) => s.(trades := n)
    case SeedRange(high, low) => s.(range := Some(Range(high, low)), orbSet := true, seeded := true)
  }

  /** The state before event `k`. */
  function At(s: State, es: seq<Event>, k: nat, cfg: Config): State
    requires k <= |es|
  {
    if k == 0 then s else Step(At(s, es, k - 1, cfg), es[k - 1], cfg)
  }

  /** The signal of event `k`. */
  function SignalAt(s: State, es: seq<Event>, k: nat, cfg: Config): Option<Signal>
    requires k < |es|
  {
    Raises(At(s, es, k, cfg), es[k], cfg)
  }

  predicate IsEntry(x: Option<Signal>) { x.Some? && !x.value.Flatten? }

  // ---------------------------------------------------------------- the object

  class OrbStrategy {
    const cfg: Config
    var range: Option<Range>
    var orbSet: bool
    var tradesToday: int
    var inPosition: bool
    var halted: bool
    var bar: Bar
    var lastPrice: real
    var lastTs: int
    var cooldownUntil: int
    var eodEmitted: bool
    var seeded: bool

    function Abs(): State
      reads this
    {
      State(range, orbSet, tradesToday, inPosition, halted, bar, lastPrice, lastTs, cooldownUntil, eodEmitted, seeded)
    }

    ghost predicate Valid()
      reads this
    {
      && (orbSet ==> range.Some?)
      && (bar.minute < 0 ==> bar.volume == 0)
    }

    constructor (cfg: Config)
      ensures Valid() && this.cfg == cfg && Abs() == INITIAL
    {
      this.cfg := cfg;
      range, orbSet, tradesToday, inPosition, halted := None, false, 0, false, false;
      bar, lastPrice, lastTs, cooldownUntil := NO_BAR, 0.0, 0, 0;
      eodEmitted, seeded := false, false;
    }

    method ResetSession()
      requires Valid()
      modifies this
      ensures Valid() && Abs() == Step(old(Abs()), Reset, cfg)
    {
      range, orbSet, tradesToday, inPosition, halted := None, false, 0, false, false;
      bar, eodEmitted, cooldownUntil, seeded := NO_BAR, false, 0, false;
    }

    /** One tick; the host's calls run inside the callback of the signal it raises, if it raises one. */
    method OnTick(ts: int, price: real, size: int, calls: seq<Call>) returns (signal: Option<Signal>)
      requires Valid() && ts >= 0
      modifies this
      ensures Valid()
      ensures var e := Event.OnTick(ts, EtMinute(ts), price, size, calls);
              Abs() == Step(old(Abs()), e, cfg) && signal == Raises(old(Abs()), e, cfg)
    {
      signal := None;
      if halted {
        return;
      }
      var et, prev := EtMinute(ts), lastPrice;
      RecordTick(ts, et, price, size);
      if seeded {
        seeded := false;
        return;
      }
      if !orbSet {
        if cfg.InWindow(et) {
          range := Wider(range, price);
        }
        return;
      }
      if tradesToday >= cfg.maxDailyTrades || et >= cfg.lastEntryMinute {
        return;
      }
      var news := IsNewsBlackout(et);
      if news {
        return;
      }
      signal := CheckBreakout(et, price, prev, calls);
    }

    /** Closes the minute before, if this tick starts another, and records the tick. */
    method RecordTick(ts: nat, et: int, price: real, size: int)
      requires Valid()
      modifies this`bar, this`orbSet, this`lastPrice, this`lastTs
      ensures Valid() && Abs() == Ticked(old(Abs()), ts, et, price, size, cfg)
    {
      var minute := MinuteOf(ts);
      if bar.minute < 0 {
        bar := bar.(minute := minute);
      }
      if minute != bar.minute {
        HandleCompletedBar(et);
        bar := NO_BAR.(minute := minute);
      }
      bar := bar.(volume := bar.volume + size);
      lastPrice, lastTs := price, ts;
    }

    method HandleCompletedBar(et: int)
      requires Valid()
      modifies this`orbSet
      ensures Valid() && orbSet == (old(orbSet) || Freezes(old(Abs()), et, cfg))
    {
      if bar.volume == 0 {
        return;
      }
      if !orbSet && et >= cfg.OrbEnd() {
        if range.Some? && range.value.high > range.value.low {
          orbSet := true;
        }
      }
    }

    method IsNewsBlackout(et: int) returns (b: bool)
      ensures b == NewsBlackout(et, cfg.newsMinutes)
    {
      for i := 0 to |NEWS|
        invariant forall k :: 0 <= k < i ==> !(NEWS[k] - cfg.newsMinutes <= et <= NEWS[k] + cfg.newsMinutes)
      {
        if et >= NEWS[i] - cfg.newsMinutes && et <= NEWS[i] + cfg.newsMinutes {
          return true;
        }
      }
      return false;
    }

    method CheckBreakout(et: int, price: real, prev: real, calls: seq<Call>) returns (signal: Option<Signal>)
      requires Valid() && range.Some?
      requires tradesToday < cfg.maxDailyTrades && et < cfg.lastEntryMinute && !NewsBlackout(et, cfg.newsMinutes)
      modifies this
      ensures Valid() && signal == Entry(old(Abs()), et, price, prev, cfg)
      ensures Abs() == if signal.None? then old(Abs())
                       else var u := ApplyAll(old(Abs()), calls, cfg); u.(inPosition := true, trades := u.trades + 1)
    {
      signal := None;
      if inPosition || lastTs < cooldownUntil {
        return;
      }
      var up, down := range.value.high + cfg.buffer, range.value.low - cfg.buffer;
      if price > up && (prev <= 0.0 || prev <= up) {
        signal := Some(Buy(price));
      } else if price < down && (prev <= 0.0 || prev >= down) {
        signal := Some(Sell(price));
      } else {
        return;
      }
      Callback(calls);
      inPosition := true;
      tradesToday := tradesToday + 1;
    }

    /** The host's code inside a signal callback. */
    method Callback(calls: seq<Call>)
      requires Valid()
      modifies this
      ensures Valid() && Abs() == ApplyAll(old(Abs()), calls, cfg)
    {
      for i := 0 to |calls|
        invariant Valid() && ApplyAll(Abs(), calls[i..], cfg) == ApplyAll(old(Abs()), calls, cfg)
      {
        assert calls[i..][0] == calls[i] && calls[i..][1..] == calls[i + 1..];
        Receive(calls[i]);
      }
    }

    /** A notification that a trade closed, or a halt, or its end. */
    method Receive(c: Call)
      requires Valid()
      modifies this
      ensures Valid() && Abs() == Apply(old(Abs()), c, cfg)
    {
      match c
      case Closed =>
        inPosition := false;
        if cfg.cooldownSecs > 0 {
          cooldownUntil := lastTs + cfg.cooldownSecs * 1_000_000;
        }
      case Halt => halted := true;
      case Unhalt => halted := false;
    }

    method EndOfDay(hour: int, minute: int, calls: seq<Call>) returns (signal: Option<Signal>)
      requires Valid()
      modifies this
      ensures Valid()
      ensures var e := CheckEod(hour, minute, calls);
              Abs() == Step(old(Abs()), e, cfg) && signal == Raises(old(Abs()), e, cfg)
    {
      signal := None;
      if hour > cfg.eodHour || (hour == cfg.eodHour && minute >= cfg.eodMinute) {
        if !eodEmitted {
          eodEmitted := true;
          signal := Some(Flatten(lastPrice));
          Callback(calls);
        }
      }
    }

    method SeedTradesToday(n: int)
      requires Valid()
      modifies this`tradesToday
      ensures Valid() && Abs() == Step(old(Abs()), SeedTrades(n), cfg)
    {
      tradesToday := n;
    }

    method SeedOrbRange(high: real, low: real)
      requires Valid()
      modifies this`range, this`orbSet, this`seeded
      ensures Valid() && Abs() == Step(old(Abs()), SeedRange(high, low), cfg)
    {
      range, orbSet, seeded := Some(Range(high, low)), true, true;
    }
  }

  /** The Eastern minute of the day. */
  function EtMinute(ts: nat): int {
    ClockMinute(ts / 1_000_000 - Calendar.OffsetAt(ts / 1_000_000) * 3600)
  }

  /** The minute of the day on a clock that shows `w` seconds, as the source computes it. */
  function ClockMinute(w: int): int {
    var hour := TruncMod(TruncDiv(w, 3600), 24);
    (if hour < 0 then hour + 24 else hour) * 60 + TruncDiv(TruncMod(w, 3600), 60)
  }

  lemma ClockParts(w: int)
    requires w >= 0
    ensures ClockMinute(w) == w % 86400 / 60
  {
    var d, r := w / 86400, w % 86400;
    assert w / 3600 == 24 * d + r / 3600;
    assert w % 3600 == r % 3600;
    assert (24 * d + r / 3600) % 24 == r / 3600;
    assert r == 3600 * (r / 3600) + r % 3600;
  }

  /** Before the clock's first midnight only whole minutes of a whole hour's distance come out right. */
  lemma ClockBefore(w: int)
    requires -18000 <= w < 0
    ensures ClockMinute(w) == w % 86400 / 60 <==> w <= -3600 && w % 60 == 0
  {
    var a, b := -w / 3600, -w % 3600;
    assert w % 86400 == w + 86400;
    ClockOf(a, b);
    DayLeft(a, b);
    assert -w == 3600 * a + b;
  }

  lemma ClockOf(a: int, b: int)
    requires 0 <= a <= 5 && 0 <= b < 3600
    ensures ClockMinute(-(3600 * a + b)) == (if a > 0 then 1440 - 60 * a else 0) - b / 60
  {
    var w := -(3600 * a + b);
    assert TruncDiv(w, 3600) == -a && TruncMod(w, 3600) == -b;
    assert TruncMod(-a, 24) == -a;
    assert TruncDiv(-b, 60) == -(b / 60);
  }

  lemma DayLeft(a: int, b: int)
    requires 0 <= a <= 5 && 0 <= b < 3600
    ensures (86400 - (3600 * a + b)) / 60 == 1440 - 60 * a - b / 60 - (if b % 60 == 0 then 0 else 1)
    ensures -(3600 * a + b) % 60 == 0 <==> b % 60 == 0
  {
  }

  /**
   The minute used is that of the Eastern clock exactly from its first midnight in 1970 on, and before it, in
   the five hours left, at whole minutes except in the last hour.
   */
  lemma EtMinuteIff(ts: nat)
    ensures var eastern := ts / 1_000_000 - 3600 * Calendar.OffsetAt(ts / 1_000_000);
            EtMinute(ts) == eastern % 86400 / 60 <==> eastern >= 0 || (eastern <= -3600 && eastern % 60 == 0)
  {
    var off := Calendar.OffsetAt(ts / 1_000_000);
    OffsetIsFourOrFive(ts / 1_000_000);
    ClockIff(ts / 1_000_000 - 3600 * off);
    assert EtMinute(ts) == ClockMinute(ts / 1_000_000 - 3600 * off);
  }

  lemma OffsetIsFourOrFive(t: nat)
    ensures Calendar.OffsetAt(t) == 4 || Calendar.OffsetAt(t) == 5
  {
    Calendar.OffsetBySwitches(t);
  }

  lemma ClockIff(w: int)
    requires w >= -18000
    ensures ClockMinute(w) == w % 86400 / 60 <==> w >= 0 || (w <= -3600 && w % 60 == 0)
  {
    if w >= 0 { ClockParts(w); } else { ClockBefore(w); }
  }

  // ---------------------------------------------------------------- the frozen range

  ghost predicate IsRange(r: Option<Range>, ps: seq<real>) {
    if ps == [] then r.None?
    else
      && r.Some?
      && (forall i :: 0 <= i < |ps| ==> r.value.low <= ps[i] <= r.value.high)
      && r.value.high in ps && r.value.low in ps
  }

  /** The prices of the ticks in the window that arrive while trading is not halted. */
  function WindowPrices(s: State, es: seq<Event>, k: nat, cfg: Config): seq<real>
    requires k <= |es|
  {
    if k == 0 then []
    else
      WindowPrices(s, es, k - 1, cfg)
      + (if es[k - 1].OnTick? && cfg.openMinute <= es[k - 1].et < cfg.openMinute + cfg.orbMinutes
            && !At(s, es, k - 1, cfg).halted
         then [es[k - 1].price] else [])
  }

  /** One day's events: no reset, no external range, and the clock does not run backward. */
  ghost predicate OneSession(es: seq<Event>) {
    && (forall i :: 0 <= i < |es| ==> !es[i].Reset? && !es[i].SeedRange?)
    && (forall i, j :: 0 <= i < j < |es| && es[i].OnTick? && es[j].OnTick? ==> es[i].et <= es[j].et)
  }

  lemma WiderIsRange(r: Option<Range>, ps: seq<real>, price: real)
    requires IsRange(r, ps)
    ensures IsRange(Wider(r, price), ps + [price])
  {
    var w, qs := Wider(r, price).value, ps + [price];
    assert qs[|ps|] == price;
    if ps != [] {
      assert r.value.high in qs && r.value.low in qs;
    }
  }

  lemma {:induction false} CallsKeep(s: State, cs: seq<Call>, cfg: Config)
    ensures var t := ApplyAll(s, cs, cfg);
            t == s.(inPosition := t.inPosition, cooldownUntil := t.cooldownUntil, halted := t.halted)
    decreases |cs|
  {
    if cs != [] {
      CallsKeep(Apply(s, cs[0], cfg), cs[1..], cfg);
    }
  }

  ghost predicate TwoPrices(r: Option<Range>) { r.Some? && r.value.high > r.value.low }

  ghost predicate JustFrozen(s: State, e: Event, cfg: Config) {
    e.OnTick? && e.et >= cfg.OrbEnd() && !s.halted && TwoPrices(s.range)
  }

  function RangeAfter(s: State, e: Event, cfg: Config): Option<Range> {
    if e.OnTick? && cfg.InWindow(e.et) && !s.halted then Wider(s.range, e.price) else s.range
  }

  /** How one event of a session changes the range and whether it is set. */
  lemma RangeStep(s: State, e: Event, cfg: Config)
    requires !e.Reset? && !e.SeedRange? && !s.seeded
    ensures var t := Step(s, e, cfg);
            && !t.seeded && (s.orbSet ==> t.orbSet && t.range == s.range)
            && (t.orbSet && !s.orbSet ==> t.range == s.range && JustFrozen(s, e, cfg))
            && (!t.orbSet ==> t.range == RangeAfter(s, e, cfg))
  {
    if e.OnTick? {
      CallsKeep(Ticked(s, e.ts, e.et, e.price, e.size, cfg), e.calls, cfg);
    } else if e.CheckEod? {
      CallsKeep(s.(eodEmitted := true), e.calls, cfg);
    }
  }

  ghost predicate PastWindow(es: seq<Event>, k: nat, cfg: Config) {
    forall j :: k <= j < |es| && es[j].OnTick? ==> es[j].et >= cfg.openMinute + cfg.orbMinutes
  }

  /**
   At every moment of a session the range is the highest and lowest price of the window's ticks, halted
   ones apart; and once it is set it spans two prices and every later tick is past the window.
   */
  lemma {:induction false} RangeIsWindow(s: State, es: seq<Event>, k: nat, cfg: Config)
    requires k <= |es| && OneSession(es) && s.range.None? && !s.orbSet && !s.seeded
    ensures var t := At(s, es, k, cfg);
            && IsRange(t.range, WindowPrices(s, es, k, cfg)) && !t.seeded
            && (t.orbSet ==> TwoPrices(t.range) && PastWindow(es, k, cfg))
  {
    if k > 0 {
      RangeIsWindow(s, es, k - 1, cfg);
      var u, e, ps := At(s, es, k - 1, cfg), es[k - 1], WindowPrices(s, es, k - 1, cfg);
      RangeStep(u, e, cfg);
      if e.OnTick? && cfg.InWindow(e.et) && !u.halted {
        WiderIsRange(u.range, ps, e.price);
      } else {
        assert ps + [] == ps;
      }
    }
  }

  // ---------------------------------------------------------------- entries

  /** The price of the last tick that arrived unhalted, or what the strategy held before. */
  function LastSeen(s: State, es: seq<Event>, k: nat, cfg: Config): real
    requires k <= |es|
  {
    if k == 0 then s.lastPrice
    else if es[k - 1].OnTick? && !At(s, es, k - 1, cfg).halted then es[k - 1].price
    else LastSeen(s, es, k - 1, cfg)
  }

  lemma {:induction false} LastPriceIsSeen(s: State, es: seq<Event>, k: nat, cfg: Config)
    requires k <= |es|
    ensures At(s, es, k, cfg).lastPrice == LastSeen(s, es, k, cfg)
  {
    if k > 0 {
      LastPriceIsSeen(s, es, k - 1, cfg);
      LastPriceStep(At(s, es, k - 1, cfg), es[k - 1], cfg);
    }
  }

  lemma LastPriceStep(s: State, e: Event, cfg: Config)
    ensures Step(s, e, cfg).lastPrice == if e.OnTick? && !s.halted then e.price else s.lastPrice
  {
    if e.OnTick? {
      CallsKeep(Ticked(s, e.ts, e.et, e.price, e.size, cfg), e.calls, cfg);
    } else if e.CheckEod? {
      CallsKeep(s.(eodEmitted := true), e.calls, cfg);
    }
  }

  /**
   Every entry is a tick that crossed a level: it lies outside, and the tick before it did not, or there was
   none with a positive price. The range it crossed was set before or by this very tick.
   */
  lemma EntriesCross(s: State, es: seq<Event>, k: nat, cfg: Config)
    requires k < |es| && IsEntry(SignalAt(s, es, k, cfg))
    ensures var e, prev, r := es[k], LastSeen(s, es, k, cfg), At(s, es, k, cfg).range;
            && e.OnTick? && r.Some? && e.et < cfg.lastEntryMinute && !NewsBlackout(e.et, cfg.newsMinutes)
            && (SignalAt(s, es, k, cfg) == Some(Buy(e.price))
                || SignalAt(s, es, k, cfg) == Some(Sell(e.price)))
            && (SignalAt(s, es, k, cfg).value.Buy? ==>
                  e.price > r.value.high + cfg.buffer && (prev <= r.value.high + cfg.buffer || prev <= 0.0))
            && (SignalAt(s, es, k, cfg).value.Sell? ==>
                  e.price < r.value.low - cfg.buffer && (prev >= r.value.low - cfg.buffer || prev <= 0.0))
  {
    LastPriceIsSeen(s, es, k, cfg);
  }

  // -- the tick before an entry

  /** No range yet, or one seeded from outside that no tick has anchored. */
  ghost predicate Untouched(s: State) { (s.range.None? && !s.orbSet) || s.seeded }

  /** Since the last reset a tick arrived unhalted. */
  predicate SeenToday(s: State, es: seq<Event>, k: nat, cfg: Config)
    requires k <= |es|
  {
    k > 0 && !es[k - 1].Reset?
    && ((es[k - 1].OnTick? && !At(s, es, k - 1, cfg).halted) || SeenToday(s, es, k - 1, cfg))
  }

  lemma UntouchedStep(s: State, e: Event, cfg: Config)
    requires e.Reset? || (Untouched(s) && !(e.OnTick? && !s.halted))
    ensures Untouched(Step(s, e, cfg))
  {
    if e.CheckEod? {
      CallsKeep(s.(eodEmitted := true), e.calls, cfg);
    }
  }

  lemma {:induction false} UnseenIsUntouched(s: State, es: seq<Event>, k: nat, cfg: Config)
    requires k <= |es| && Untouched(s) && !SeenToday(s, es, k, cfg)
    ensures Untouched(At(s, es, k, cfg))
  {
    if k > 0 {
      if !es[k - 1].Reset? {
        UnseenIsUntouched(s, es, k - 1, cfg);
      }
      UntouchedStep(At(s, es, k - 1, cfg), es[k - 1], cfg);
    }
  }

  lemma {:induction false} SeenIsPositive(s: State, es: seq<Event>, k: nat, cfg: Config)
    requires k <= |es| && SeenToday(s, es, k, cfg) && forall j :: 0 <= j < |es| && es[j].OnTick? ==> es[j].price > 0.0
    ensures LastSeen(s, es, k, cfg) > 0.0
  {
    if !(es[k - 1].OnTick? && !At(s, es, k - 1, cfg).halted) {
      SeenIsPositive(s, es, k - 1, cfg);
    }
  }

  /**
   A reset keeps the last price, but no entry is ever made against the day before: an entry has an unhalted
   tick of its own session before it.  With positive prices the branch for a missing price is therefore never
   taken, and every entry is a cross from inside the level.
   */
  lemma EntriesCrossToday(s: State, es: seq<Event>, k: nat, cfg: Config)
    requires Untouched(s) && k < |es| && IsEntry(SignalAt(s, es, k, cfg))
    requires forall j :: 0 <= j < |es| && es[j].OnTick? ==> es[j].price > 0.0
    ensures SeenToday(s, es, k, cfg)
    ensures var e, prev, r := es[k], LastSeen(s, es, k, cfg), At(s, es, k, cfg).range;
            && e.OnTick? && r.Some?
            && (SignalAt(s, es, k, cfg).value.Buy? ==> prev <= r.value.high + cfg.buffer < e.price)
            && (SignalAt(s, es, k, cfg).value.Sell? ==> e.price < r.value.low - cfg.buffer <= prev)
  {
    EntriesCross(s, es, k, cfg);
    if !SeenToday(s, es, k, cfg) {
      UnseenIsUntouched(s, es, k, cfg);
    }
    SeenIsPositive(s, es, k, cfg);
  }

  /** A close that the host reports outside the callback of an entry. */
  ghost predicate ClosesAt(s: State, es: seq<Event>, m: nat, cfg: Config)
    requires m < |es|
  {
    match es[m]
    case Notify(c) => c.Closed?
    case CheckEod(_, _, calls) => SignalAt(s, es, m, cfg).Some? && Closed in calls
    case _ => false
  }

  lemma {:induction false} CallsClose(s: State, cs: seq<Call>, cfg: Config)
    ensures var t := ApplyAll(s, cs, cfg);
            && (Closed in cs ==>
                !t.inPosition && (cfg.cooldownSecs > 0 ==> t.cooldownUntil == s.lastTs + cfg.Cooldown()))
            && (Closed !in cs ==> t.inPosition == s.inPosition && t.cooldownUntil == s.cooldownUntil)
            && (cfg.cooldownSecs <= 0 ==> t.cooldownUntil == s.cooldownUntil)
    decreases |cs|
  {
    if cs != [] {
      CallsClose(Apply(s, cs[0], cfg), cs[1..], cfg);
      assert cs == [cs[0]] + cs[1..];
    }
  }

  /** A close after entry `i` whose cooldown is still what holds entries back. */
  ghost predicate ClosedSince(s: State, es: seq<Event>, i: nat, m: nat, k: nat, cfg: Config)
    requires k <= |es|
  {
    && i < m < k && ClosesAt(s, es, m, cfg)
    && (cfg.cooldownSecs > 0 ==> At(s, es, k, cfg).cooldownUntil == At(s, es, m, cfg).lastTs + cfg.Cooldown())
  }

  /** What one event does to the position flag and the cooldown. */
  lemma PositionStep(s: State, e: Event, cfg: Config)
    requires !e.Reset?
    ensures var t := Step(s, e, cfg);
            if IsEntry(Raises(s, e, cfg)) then t.inPosition
            else if e == Notify(Closed) || (e.CheckEod? && Raises(s, e, cfg).Some? && Closed in e.calls) then
              !t.inPosition && (cfg.cooldownSecs > 0 ==> t.cooldownUntil == s.lastTs + cfg.Cooldown())
            else t.inPosition == s.inPosition && t.cooldownUntil == s.cooldownUntil
  {
    if e.CheckEod? {
      CallsClose(s.(eodEmitted := true), e.calls, cfg);
    }
  }

  /** After an entry the strategy stays in its position until a close is reported outside the callback. */
  lemma {:induction false} HeldUntilClosed(s: State, es: seq<Event>, i: nat, k: nat, cfg: Config) returns (m: nat)
    requires i < k <= |es| && IsEntry(SignalAt(s, es, i, cfg))
    requires forall j :: i < j < k ==> !es[j].Reset?
    ensures At(s, es, k, cfg).inPosition || ClosedSince(s, es, i, m, k, cfg)
  {
    var u, e := At(s, es, k - 1, cfg), es[k - 1];
    m := 0;
    PositionStep(u, e, cfg);
    if k > i + 1 {
      m := HeldUntilClosed(s, es, i, k - 1, cfg);
      if ClosesAt(s, es, k - 1, cfg) {
        m := k - 1;
      }
    }
  }

  /**
   Between two entries of one session the host reported a close after the first entry's callback returned,
   and the second came no earlier than the cooldown after the tick that preceded that close.
   */
  lemma EntriesSeparated(s: State, es: seq<Event>, i: nat, j: nat, cfg: Config) returns (m: nat)
    requires i < j < |es| && IsEntry(SignalAt(s, es, i, cfg)) && IsEntry(SignalAt(s, es, j, cfg))
    requires forall k :: i < k < j ==> !es[k].Reset?
    ensures i < m < j && ClosesAt(s, es, m, cfg)
    ensures cfg.cooldownSecs > 0 ==> es[j].ts >= At(s, es, m, cfg).lastTs + 1_000_000 * cfg.cooldownSecs
  {
    m := HeldUntilClosed(s, es, i, j, cfg);
  }

  /** The levels of a range, for entries that follow a price from inside; no positive price counts as inside. */
  predicate CrossesUp(r: Range, prev: real, price: real, cfg: Config) {
    price > r.high + cfg.buffer && (prev <= r.high + cfg.buffer || prev <= 0.0)
  }

  predicate CrossesDown(r: Range, prev: real, price: real, cfg: Config) {
    price < r.low - cfg.buffer && (prev >= r.low - cfg.buffer || prev <= 0.0)
  }

  /** Within some minutes of 08:30, 10:00, 14:00 or 14:30. */
  predicate NearNews(et: int, minutes: int) {
    -minutes <= et - 510 <= minutes || -minutes <= et - 600 <= minutes
    || -minutes <= et - 840 <= minutes || -minutes <= et - 870 <= minutes
  }

  lemma NewsIs(et: int, minutes: int)
    ensures NewsBlackout(et, minutes) <==> NearNews(et, minutes)
  {
    assert NEWS[0] == 510 && NEWS[1] == 600 && NEWS[2] == 840 && NEWS[3] == 870;
  }

  /**
   The range can be traded at a tick: it was set before, or the tick starts another minute, after the window,
   with volume in the minute it closes and two prices in the range.
   */
  predicate Tradable(s: State, ts: int, et: int, cfg: Config) {
    s.orbSet || (s.bar.minute >= 0 && s.bar.minute != ts / 60_000_000 && s.bar.volume != 0
                 && et >= cfg.openMinute + cfg.orbMinutes && s.range.Some? && s.range.value.low < s.range.value.high)
  }

  /** The strategy may enter at a tick, whatever the price. */
  predicate MayEnter(s: State, ts: int, et: int, cfg: Config) {
    && !s.halted && !s.seeded && !s.inPosition && Tradable(s, ts, et, cfg)
    && s.trades < cfg.maxDailyTrades && et < cfg.lastEntryMinute && !NearNews(et, cfg.newsMinutes)
    && ts >= s.cooldownUntil
  }

  /** The minute of a tick as the source computes it is its whole minutes since 1970. */
  lemma MinuteIs(ts: int)
    requires ts >= 0
    ensures MinuteOf(ts) == ts / 60_000_000
  {
  }

  /** An event is an entry exactly when the strategy may enter at it and its price crosses a level outward. */
  lemma EntryIff(s: State, e: Event, cfg: Config)
    requires e.OnTick? && e.ts >= 0 && (s.orbSet ==> s.range.Some?)
    ensures Raises(s, e, cfg) ==
            if !MayEnter(s, e.ts, e.et, cfg) then None
            else if CrossesUp(s.range.value, s.lastPrice, e.price, cfg) then Some(Buy(e.price))
            else if CrossesDown(s.range.value, s.lastPrice, e.price, cfg) then Some(Sell(e.price))
            else None
  {
    MinuteIs(e.ts);
    NewsIs(e.et, cfg.newsMinutes);
  }

  lemma {:induction false} SetHasRange(s: State, es: seq<Event>, k: nat, cfg: Config)
    requires k <= |es| && (s.orbSet ==> s.range.Some?)
    ensures At(s, es, k, cfg).orbSet ==> At(s, es, k, cfg).range.Some?
  {
    if k > 0 {
      SetHasRange(s, es, k - 1, cfg);
      var u, e := At(s, es, k - 1, cfg), es[k - 1];
      if e.OnTick? {
        CallsKeep(Ticked(u, e.ts, e.et, e.price, e.size, cfg), e.calls, cfg);
      } else if e.CheckEod? {
        CallsKeep(u.(eodEmitted := true), e.calls, cfg);
      }
    }
  }

  /**
   In any run a tick is an entry exactly when the strategy may enter at it, and its price lies beyond a level
   that the last price seen did not lie beyond.
   */
  lemma EnteredIff(s: State, es: seq<Event>, k: nat, cfg: Config)
    requires k < |es| && es[k].OnTick? && es[k].ts >= 0 && (s.orbSet ==> s.range.Some?)
    ensures MayEnter(At(s, es, k, cfg), es[k].ts, es[k].et, cfg) ==> At(s, es, k, cfg).range.Some?
    ensures var u, prev, e := At(s, es, k, cfg), LastSeen(s, es, k, cfg), es[k];
            SignalAt(s, es, k, cfg) ==
            if !MayEnter(u, e.ts, e.et, cfg) then None
            else if CrossesUp(u.range.value, prev, e.price, cfg) then Some(Buy(e.price))
            else if CrossesDown(u.range.value, prev, e.price, cfg) then Some(Sell(e.price))
            else None
  {
    SetHasRange(s, es, k, cfg);
    LastPriceIsSeen(s, es, k, cfg);
    EntryIff(At(s, es, k, cfg), es[k], cfg);
  }

  // -- the minute that forms

  /** The size of the unhalted ticks at the end of a session that fall into one minute. */
  function MinuteVolume(s: State, es: seq<Event>, k: nat, minute: int, cfg: Config): int
    requires k <= |es|
  {
    if k == 0 || es[k - 1].Reset? then 0
    else if es[k - 1].OnTick? && !At(s, es, k - 1, cfg).halted then
      (if es[k - 1].ts / 60_000_000 == minute then MinuteVolume(s, es, k - 1, minute, cfg) + es[k - 1].size else 0)
    else MinuteVolume(s, es, k - 1, minute, cfg)
  }

  /** The minute of the last unhalted tick of the session, -1 before it. */
  function LastMinute(s: State, es: seq<Event>, k: nat, cfg: Config): int
    requires k <= |es|
  {
    if k == 0 || es[k - 1].Reset? then -1
    else if es[k - 1].OnTick? && !At(s, es, k - 1, cfg).halted then es[k - 1].ts / 60_000_000
    else LastMinute(s, es, k - 1, cfg)
  }

  lemma BarStep(s: State, e: Event, cfg: Config)
    requires e.OnTick? ==> e.ts >= 0
    ensures Step(s, e, cfg).bar ==
            if e.Reset? then Bar(-1, 0)
            else if e.OnTick? && !s.halted then
              var m := e.ts / 60_000_000;
              Bar(m, if s.bar.minute < 0 || m == s.bar.minute then s.bar.volume + e.size else e.size)
            else s.bar
  {
    if e.OnTick? {
      MinuteIs(e.ts);
      CallsKeep(Ticked(s, e.ts, e.et, e.price, e.size, cfg), e.calls, cfg);
    } else if e.CheckEod? {
      CallsKeep(s.(eodEmitted := true), e.calls, cfg);
    }
  }

  /** At every moment the forming minute is that of the last tick, and its volume that of its own ticks. */
  lemma {:induction false} BarIsMinute(s: State, es: seq<Event>, k: nat, cfg: Config)
    requires k <= |es| && s.bar == Bar(-1, 0) && forall j :: 0 <= j < |es| && es[j].OnTick? ==> es[j].ts >= 0
    ensures var m := LastMinute(s, es, k, cfg);
            At(s, es, k, cfg).bar == Bar(m, MinuteVolume(s, es, k, m, cfg)) && m >= -1
    ensures LastMinute(s, es, k, cfg) == -1 ==> forall m :: MinuteVolume(s, es, k, m, cfg) == 0
    ensures forall m :: m != LastMinute(s, es, k, cfg) ==> MinuteVolume(s, es, k, m, cfg) == 0
  {
    if k > 0 {
      BarIsMinute(s, es, k - 1, cfg);
      BarStep(At(s, es, k - 1, cfg), es[k - 1], cfg);
    }
  }

  // -- what the history makes of the flags

  /** The host's calls an event delivers: its own notification, or those inside the callback of a signal. */
  function DeliveredBy(s: State, e: Event, cfg: Config): seq<Call> {
    match e
    case Notify(c) => [c]
    case OnTick(_, _, _, _, calls) => if Raises(s, e, cfg).Some? then calls else []
    case CheckEod(_, _, calls) => if Raises(s, e, cfg).Some? then calls else []
    case _ => []
  }

  function Delivered(s: State, es: seq<Event>, k: nat, cfg: Config): seq<Call>
    requires k < |es|
  {
    DeliveredBy(At(s, es, k, cfg), es[k], cfg)
  }

  /** Call `i` is a halt, and none after it takes it back. */
  predicate LastHalt(cs: seq<Call>, i: nat) { i < |cs| && cs[i].Halt? && Unhalt !in cs[i + 1..] }

  /** Calls leave the strategy halted: the last halt in them is not taken back, or an earlier one is not. */
  ghost predicate LeavesHalted(before: bool, cs: seq<Call>) {
    (exists i :: LastHalt(cs, i)) || (before && Unhalt !in cs)
  }

  lemma LeavesHaltedCons(before: bool, c: Call, cs: seq<Call>)
    ensures LeavesHalted(before, [c] + cs) <==>
            LeavesHalted(if c.Halt? then true else if c.Unhalt? then false else before, cs)
  {
    var all := [c] + cs;
    assert all[1..] == cs;
    forall i: nat ensures LastHalt(cs, i) <==> LastHalt(all, i + 1) {
      if i < |cs| { assert all[i + 1 + 1..] == cs[i + 1..]; }
    }
    if i: nat :| LastHalt(all, i) {
      assert i > 0 ==> LastHalt(cs, i - 1);
    }
    assert c.Halt? && Unhalt !in cs ==> LastHalt(all, 0);
  }

  lemma {:induction false} CallsHalt(s: State, cs: seq<Call>, cfg: Config)
    ensures ApplyAll(s, cs, cfg).halted <==> LeavesHalted(s.halted, cs)
    decreases |cs|
  {
    if cs != [] {
      CallsHalt(Apply(s, cs[0], cfg), cs[1..], cfg);
      LeavesHaltedCons(s.halted, cs[0], cs[1..]);
      assert cs == [cs[0]] + cs[1..];
    }
  }

  ghost predicate HaltedBy(s: State, es: seq<Event>, k: nat, cfg: Config)
    requires k <= |es|
  {
    if k == 0 then s.halted
    else !es[k - 1].Reset? && LeavesHalted(HaltedBy(s, es, k - 1, cfg), Delivered(s, es, k - 1, cfg))
  }

  /** An entry takes the position whatever its callback did; otherwise a close gives it up. */
  predicate Holds(s: State, es: seq<Event>, k: nat, cfg: Config)
    requires k <= |es|
  {
    if k == 0 then s.inPosition
    else if IsEntry(SignalAt(s, es, k - 1, cfg)) then true
    else !es[k - 1].Reset? && Closed !in Delivered(s, es, k - 1, cfg) && Holds(s, es, k - 1, cfg)
  }

  /** The time stamp of the last tick that arrived unhalted. */
  function LastTime(s: State, es: seq<Event>, k: nat, cfg: Config): int
    requires k <= |es|
  {
    if k == 0 then s.lastTs
    else if es[k - 1].OnTick? && !At(s, es, k - 1, cfg).halted then es[k - 1].ts
    else LastTime(s, es, k - 1, cfg)
  }

  /** Until when entries are held back: the cooldown after the last tick seen when a close came. */
  function CoolsUntil(s: State, es: seq<Event>, k: nat, cfg: Config): int
    requires k <= |es|
  {
    if k == 0 then s.cooldownUntil
    else if es[k - 1].Reset? then 0
    else if cfg.cooldownSecs > 0 && Closed in Delivered(s, es, k - 1, cfg)
    then LastTime(s, es, k, cfg) + 1_000_000 * cfg.cooldownSecs
    else CoolsUntil(s, es, k - 1, cfg)
  }

  function TradesSince(s: State, es: seq<Event>, k: nat, cfg: Config): int
    requires k <= |es|
  {
    if k == 0 then s.trades
    else if es[k - 1].Reset? then 0
    else if es[k - 1].SeedTrades? then es[k - 1].n
    else TradesSince(s, es, k - 1, cfg) + (if IsEntry(SignalAt(s, es, k - 1, cfg)) then 1 else 0)
  }

  lemma FlagsStep(s: State, e: Event, cfg: Config)
    ensures var t, cs := Step(s, e, cfg), DeliveredBy(s, e, cfg);
            && (t.halted <==> !e.Reset? && LeavesHalted(s.halted, cs))
            && (t.inPosition <==> IsEntry(Raises(s, e, cfg)) || (!e.Reset? && Closed !in cs && s.inPosition))
            && t.lastTs == (if e.OnTick? && !s.halted then e.ts else s.lastTs)
            && t.cooldownUntil == (if e.Reset? then 0
                                   else if cfg.cooldownSecs > 0 && Closed in cs then
                                     t.lastTs + 1_000_000 * cfg.cooldownSecs
                                   else s.cooldownUntil)
  {
    match e
    case OnTick(ts, et, price, size, calls) =>
      CallsFlag(Ticked(s, ts, et, price, size, cfg), DeliveredBy(s, e, cfg), cfg);
    case CheckEod(_, _, calls) => CallsFlag(s.(eodEmitted := true), DeliveredBy(s, e, cfg), cfg);
    case Notify(c) =>
      CallsFlag(s, [c], cfg);
      OneCall(s, e, cfg);
    case _ => CallsFlag(s, [], cfg);
  }

  lemma CallsFlag(s: State, cs: seq<Call>, cfg: Config)
    ensures var t := ApplyAll(s, cs, cfg);
            && (t.halted <==> LeavesHalted(s.halted, cs))
            && (t.inPosition <==> Closed !in cs && s.inPosition)
            && t.lastTs == s.lastTs
            && t.cooldownUntil == (if cfg.cooldownSecs > 0 && Closed in cs then s.lastTs + 1_000_000 * cfg.cooldownSecs
                                   else s.cooldownUntil)
    ensures cs == [] ==> (LeavesHalted(s.halted, cs) <==> s.halted)
  {
    CallsHalt(s, cs, cfg);
    CallsKeep(s, cs, cfg);
    CallsClose(s, cs, cfg);
  }

  lemma OneCall(s: State, e: Event, cfg: Config)
    ensures e.Notify? ==> ApplyAll(s, [e.call], cfg) == Apply(s, e.call, cfg)
  {
    if e.Notify? { assert [e.call][1..] == []; }
  }

  lemma TradesStep(s: State, e: Event, cfg: Config)
    ensures Step(s, e, cfg).trades ==
            if e.Reset? then 0 else if e.SeedTrades? then e.n
            else s.trades + (if IsEntry(Raises(s, e, cfg)) then 1 else 0)
  {
    if !e.Reset? && !e.SeedTrades? { CountStep(s, e, cfg); }
  }

  /** At every moment of any run the halt, the position, the cooldown and the count are what the history says. */
  lemma {:induction false} FlagsAreHistory(s: State, es: seq<Event>, k: nat, cfg: Config)
    requires k <= |es|
    ensures var t := At(s, es, k, cfg);
            && (t.halted <==> HaltedBy(s, es, k, cfg)) && (t.inPosition <==> Holds(s, es, k, cfg))
            && t.cooldownUntil == CoolsUntil(s, es, k, cfg) && t.lastTs == LastTime(s, es, k, cfg)
            && t.trades == TradesSince(s, es, k, cfg)
  {
    if k > 0 {
      FlagsAreHistory(s, es, k - 1, cfg);
      FlagsStep(At(s, es, k - 1, cfg), es[k - 1], cfg);
      TradesStep(At(s, es, k - 1, cfg), es[k - 1], cfg);
    }
  }

  /** A range given from outside is the range until a reset or another, and its first tick only anchors it. */
  lemma {:induction false} GivenRangeStays(s: State, es: seq<Event>, j: nat, k: nat, cfg: Config)
    requires j < k <= |es| && es[j].SeedRange? && forall i :: j < i < k ==> !es[i].Reset? && !es[i].SeedRange?
    ensures var t := At(s, es, k, cfg);
            && t.orbSet && t.range == Some(Range(es[j].high, es[j].low))
            && (t.seeded <==> forall i :: j < i < k && es[i].OnTick? ==> At(s, es, i, cfg).halted)
  {
    if k > j + 1 {
      GivenRangeStays(s, es, j, k - 1, cfg);
      var u, e := At(s, es, k - 1, cfg), es[k - 1];
      SetRangeStays(u, e, cfg);
    }
  }

  lemma SetRangeStays(s: State, e: Event, cfg: Config)
    requires s.orbSet && !e.Reset? && !e.SeedRange?
    ensures var t := Step(s, e, cfg);
            && t.orbSet && t.range == s.range && (t.seeded <==> s.seeded && (e.OnTick? ==> s.halted))
  {
    if e.OnTick? {
      CallsKeep(Ticked(s, e.ts, e.et, e.price, e.size, cfg), e.calls, cfg);
    } else if e.CheckEod? {
      CallsKeep(s.(eodEmitted := true), e.calls, cfg);
    }
  }

  /** A release made inside the callback of an entry is lost: the strategy holds a position all the same. */
  lemma ReleaseInsideIsLost(s: State, es: seq<Event>, k: nat, cfg: Config)
    requires k < |es| && IsEntry(SignalAt(s, es, k, cfg))
    ensures At(s, es, k + 1, cfg).inPosition
    ensures At(s, es, k + 1, cfg).trades == At(s, es, k, cfg).trades + 1
  {
    var u, e := At(s, es, k, cfg), es[k];
    CallsKeep(Ticked(u, e.ts, e.et, e.price, e.size, cfg), e.calls, cfg);
  }

  // ---------------------------------------------------------------- limits

  function CountEntries(s: State, es: seq<Event>, k: nat, cfg: Config): nat
    requires k <= |es|
  {
    if k == 0 then 0
    else CountEntries(s, es, k - 1, cfg) + (if IsEntry(SignalAt(s, es, k - 1, cfg)) then 1 else 0)
  }

  function CountFlattens(s: State, es: seq<Event>, k: nat, cfg: Config): nat
    requires k <= |es|
  {
    if k == 0 then 0
    else CountFlattens(s, es, k - 1, cfg)
         + (if SignalAt(s, es, k - 1, cfg).Some? && SignalAt(s, es, k - 1, cfg).value.Flatten? then 1 else 0)
  }

  lemma CountStep(s: State, e: Event, cfg: Config)
    requires !e.Reset? && !e.SeedTrades?
    ensures var t := Step(s, e, cfg);
            && t.trades == s.trades + (if IsEntry(Raises(s, e, cfg)) then 1 else 0)
            && (IsEntry(Raises(s, e, cfg)) ==> s.trades < cfg.maxDailyTrades)
            && (t.eodEmitted <==> s.eodEmitted || (e.CheckEod? && Late(e.hour, e.minute, cfg)))
            && (Raises(s, e, cfg).Some? && Raises(s, e, cfg).value.Flatten? <==>
                e.CheckEod? && Late(e.hour, e.minute, cfg) && !s.eodEmitted)
  {
    if e.OnTick? {
      CallsKeep(Ticked(s, e.ts, e.et, e.price, e.size, cfg), e.calls, cfg);
    } else if e.CheckEod? {
      CallsKeep(s.(eodEmitted := true), e.calls, cfg);
    }
  }

  /**
   The day's trades are the seeded ones plus the entries made, and never more than the limit, or the seed
   where that already was more.
   */
  lemma {:induction false} TradesBounded(s: State, es: seq<Event>, k: nat, cfg: Config)
    requires k <= |es| && forall j :: 0 <= j < |es| ==> !es[j].Reset? && !es[j].SeedTrades?
    ensures At(s, es, k, cfg).trades == s.trades + CountEntries(s, es, k, cfg)
    ensures At(s, es, k, cfg).trades <= Max(s.trades, cfg.maxDailyTrades)
    ensures CountEntries(s, es, k, cfg) <= Max(0, cfg.maxDailyTrades - s.trades)
  {
    if k > 0 {
      TradesBounded(s, es, k - 1, cfg);
      CountStep(At(s, es, k - 1, cfg), es[k - 1], cfg);
    }
  }

  /** A check at or after the closing time. */
  predicate FindsDayOver(e: Event, cfg: Config) {
    e.CheckEod? && (e.hour > cfg.eodHour || (e.hour == cfg.eodHour && e.minute >= cfg.eodMinute))
  }

  ghost predicate DayOver(es: seq<Event>, k: nat, cfg: Config)
    requires k <= |es|
  {
    exists j :: 0 <= j < k && FindsDayOver(es[j], cfg)
  }

  /** Between resets there is at most one end-of-day flatten: one exactly when some check found the day over. */
  lemma {:induction false} OneFlatten(s: State, es: seq<Event>, k: nat, cfg: Config)
    requires k <= |es| && !s.eodEmitted && forall j :: 0 <= j < |es| ==> !es[j].Reset? && !es[j].SeedTrades?
    ensures CountFlattens(s, es, k, cfg) == if DayOver(es, k, cfg) then 1 else 0
    ensures At(s, es, k, cfg).eodEmitted <==> DayOver(es, k, cfg)
  {
    if k > 0 {
      OneFlatten(s, es, k - 1, cfg);
      CountStep(At(s, es, k - 1, cfg), es[k - 1], cfg);
      assert DayOver(es, k, cfg) <==> DayOver(es, k - 1, cfg) || FindsDayOver(es[k - 1], cfg);
    }
  }
}
