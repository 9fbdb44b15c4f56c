/**
 The account's risk manager: running equity and its peak, the day's result, and a latched halt; and the
 recovery of its figures from the trade log when the process restarts.
 */
module Risk {
  import opened Prelude

  /** A non-positive `dailyLossLimit` bounds the day's loss; a positive or zero one switches the rule off. */
  datatype Config = Config(dailyLossLimit: real, drawdownCap: real, consistencyCap: real, cycleMode: bool)

  datatype Reason = NonFinitePnl | DailyLossLimit | DrawdownCap | ConsistencyCap | External(text: string)

  const DAILY_PREFIX: string := "daily_loss_limit"

  /** The halts a new day clears: those whose text starts with the daily rule's name. */
  predicate IsDaily(r: Reason) { r.DailyLossLimit? || (r.External? && DAILY_PREFIX <= r.text) }

  datatype Account = Account(
    equity: real, peak: real, total: real, daily: real, unrealized: real, halt: Option<Reason>)
  {
    function Drawdown(): real { peak - equity }
  }

  function New(start: real): Account { Account(start, start, 0.0, 0.0, 0.0, None) }

  predicate DailyBreached(a: Account, cfg: Config) {
    cfg.dailyLossLimit < 0.0 && a.daily <= cfg.dailyLossLimit
  }

  predicate Inconsistent(a: Account, cfg: Config) {
    var prior := a.total - a.daily;
    !cfg.cycleMode && prior >= 500.0 && a.daily > 0.0 && a.daily / prior > cfg.consistencyCap
  }

  predicate CanTrade(a: Account, cfg: Config) {
    && a.halt.None?
    && !DailyBreached(a, cfg)
    && a.peak - (a.equity + a.unrealized) < cfg.drawdownCap
  }

  /** The event alphabet; a figure that is not finite is `None`. */
  datatype Event =
    | Trade(pnl: Option<real>)
    | ResetDaily
    | ClearHalt
    | Unrealized(pnl: Option<real>)
    | HaltExternal(text: string)
    | SetEquity(eq: real)
    | SeedTotal(sum: real)
    | SeedDaily(sum: real)

  function Raised(peak: real, eq: real): real { if eq > peak then eq else peak }

  /** The money moves of one closed trade. */
  function Booked(a: Account, pnl: real): Account {
    a.(equity := a.equity + pnl, daily := a.daily + pnl, total := a.total + pnl,
       peak := Raised(a.peak, a.equity + pnl))
  }

  /** The first rule a booked trade breaks. */
  function Broken(a: Account, cfg: Config): Option<Reason> {
    if DailyBreached(a, cfg) then Some(DailyLossLimit)
    else if a.Drawdown() >= cfg.drawdownCap then Some(DrawdownCap)
    else if Inconsistent(a, cfg) then Some(ConsistencyCap)
    else None
  }

  function Step(a: Account, e: Event, cfg: Config): Account {
    match e
    case Trade(None) => a.(halt := Some(NonFinitePnl))
    case Trade(Some(pnl)) =>
      var b := Booked(a, pnl);
      if Broken(b, cfg).Some? then b.(halt := Broken(b, cfg)) else b
    case ResetDaily => a.(daily := 0.0, halt := if a.halt.Some? && IsDaily(a.halt.value) then None else a.halt)
    case ClearHalt => a.(halt := None)
    case Unrealized(None) => a
    case Unrealized(Some(u)) => a.(unrealized := u)
    case HaltExternal(text) => a.(halt := Some(External(text)))
    case SetEquity(eq) => a.(equity := eq, peak := Raised(a.peak, eq))
    case SeedTotal(sum) => a.(total := sum)
    case SeedDaily(sum) => a.(daily := sum)
  }

  function Run(a: Account, es: seq<Event>, cfg: Config): Account
    decreases |es|
  {
    if es == [] then a else Run(Step(a, es[0], cfg), es[1..], cfg)
  }

  class RiskManager {
    const cfg: Config
    var equity: real
    var peakEquity: real
    var totalProfit: real
    var dailyPnl: real
    var unrealizedPnl: real
    var halted: bool
    var haltReason: Option<Reason>

    predicate Valid()
      reads this
    {
      halted == haltReason.Some?
    }

    function State(): Account
      reads this
    {
      Account(equity, peakEquity, totalProfit, dailyPnl, unrealizedPnl, haltReason)
    }

    constructor (cfg: Config, startingEquity: real)
      ensures Valid() && this.cfg == cfg && State() == New(startingEquity)
    {
      this.cfg := cfg;
      equity, peakEquity, totalProfit, dailyPnl := startingEquity, startingEquity, 0.0, 0.0;
      unrealizedPnl, halted, haltReason := 0.0, false, None;
    }

    method Halt(r: Reason)
      modifies this`halted, this`haltReason
      ensures Valid() && haltReason == Some(r)
    {
      halted, haltReason := true, Some(r);
    }

    method OnTradePnl(pnl: Option<real>)
      requires Valid()
      modifies this
      ensures Valid() && State() == Step(old(State()), Trade(pnl), cfg)
    {
      if pnl.None? {
        Halt(NonFinitePnl);
        return;
      }
      equity := equity + pnl.value;
      dailyPnl := dailyPnl + pnl.value;
      totalProfit := totalProfit + pnl.value;
      if equity > peakEquity {
        peakEquity := equity;
      }
      if cfg.dailyLossLimit < 0.0 && dailyPnl <= cfg.dailyLossLimit {
        Halt(DailyLossLimit);
        return;
      }
      var drawdown := peakEquity - equity;
      if drawdown >= cfg.drawdownCap {
        Halt(DrawdownCap);
        return;
      }
      var prior := totalProfit - dailyPnl;
      if !cfg.cycleMode && prior >= 500.0 && dailyPnl > 0.0 {
        var fraction := dailyPnl / prior;
        if fraction > cfg.consistencyCap {
          Halt(ConsistencyCap);
        }
      }
    }

    method ResetDaily()
      requires Valid()
      modifies this
      ensures Valid() && State() == Step(old(State()), Event.ResetDaily, cfg)
    {
      dailyPnl := 0.0;
      if halted {
        if IsDaily(haltReason.value) {
          halted, haltReason := false, None;
        }
      }
    }

    method ClearHalt()
      requires Valid()
      modifies this
      ensures Valid() && State() == Step(old(State()), Event.ClearHalt, cfg)
    {
      if !halted {
        return;
      }
      halted, haltReason := false, None;
    }

    method UpdateUnrealized(pnl: Option<real>)
      requires Valid()
      modifies this
      ensures Valid() && State() == Step(old(State()), Unrealized(pnl), cfg)
    {
      if pnl.None? {
        return;
      }
      unrealizedPnl := pnl.value;
    }

    method SetEquity(eq: real)
      requires Valid()
      modifies this
      ensures Valid() && State() == Step(old(State()), Event.SetEquity(eq), cfg)
    {
      equity := eq;
      if eq > peakEquity {
        peakEquity := eq;
      }
    }

    /** The start-up seeding: total, peak, equity and the day, read from the trade log. */
    method Seed(start: real, log: TradeLog)
      requires Valid() && State() == New(start)
      modifies this
      ensures Valid() && State() == Run(New(start), SeedEvents(start, log), cfg)
    {
      ghost var es := SeedEvents(start, log);
      totalProfit := Sum(All(log));
      SetEquity(start + Top(All(log)));
      SetEquity(start + Sum(All(log)));
      dailyPnl := Sum(log.today);
      RunFour(New(start), es, cfg);
    }

    method Allowed() returns (ok: bool, reason: Option<Reason>)
      requires Valid()
      ensures ok == CanTrade(State(), cfg)
      ensures ok <==> reason.None?
      ensures haltReason.Some? ==> reason == haltReason
      ensures haltReason.None? && !ok ==>
                reason == Some(if cfg.dailyLossLimit < 0.0 && dailyPnl <= cfg.dailyLossLimit then DailyLossLimit
                               else DrawdownCap)
    {
      if halted {
        return false, haltReason;
      }
      if cfg.dailyLossLimit < 0.0 && dailyPnl <= cfg.dailyLossLimit {
        return false, Some(DailyLossLimit);
      }
      var drawdown := peakEquity - (equity + unrealizedPnl);
      if drawdown >= cfg.drawdownCap {
        return false, Some(DrawdownCap);
      }
      return true, None;
    }
  }

  // ---------------------------------------------------------------- the peak

  /** The equities an account passes through, the present one first. */
  function Equities(a: Account, es: seq<Event>, cfg: Config): (r: seq<real>)
    ensures |r| == |es| + 1 && r[0] == a.equity
    decreases |es|
  {
    if es == [] then [a.equity] else [a.equity] + Equities(Step(a, es[0], cfg), es[1..], cfg)
  }

  ghost predicate IsMax(m: real, xs: seq<real>) {
    (forall i :: 0 <= i < |xs| ==> xs[i] <= m) && exists i :: 0 <= i < |xs| && xs[i] == m
  }

  /** The peak is the greatest equity ever held, counting the peak the run started with. */
  lemma {:induction false} PeakIsRunningMax(a: Account, es: seq<Event>, cfg: Config)
    requires a.equity <= a.peak
    ensures IsMax(Run(a, es, cfg).peak, [a.peak] + Equities(a, es, cfg))
    ensures Run(a, es, cfg).equity == Equities(a, es, cfg)[|es|] <= Run(a, es, cfg).peak
    decreases |es|
  {
    var xs, m := [a.peak] + Equities(a, es, cfg), Run(a, es, cfg).peak;
    if es == [] {
      assert xs[0] == m;
    } else {
      var b := Step(a, es[0], cfg);
      PeakIsRunningMax(b, es[1..], cfg);
      var ys := [b.peak] + Equities(b, es[1..], cfg);
      assert forall i :: 2 <= i < |xs| ==> xs[i] == ys[i - 1];
      assert ys[0] <= m && a.peak <= b.peak;
      var k :| 0 <= k < |ys| && ys[k] == m;
      if k > 0 {
        assert xs[k + 1] == m;
      } else if b.peak == a.peak {
        assert xs[0] == m;
      } else {
        assert b.peak == b.equity && ys[1] == b.equity && xs[2] == m;
      }
    }
  }

  // ---------------------------------------------------------------- bounded loss

  /** What a run does between entries: an entry passes the gate, and a trade closes what an entry opened. */
  datatype Move = Enter | Close(pnl: Option<real>) | Other(e: Event)

  datatype Trader = Trader(a: Account, open: bool)

  function Act(t: Trader, m: Move, cfg: Config): Trader {
    match m
    case Enter => t.(open := true)
    case Close(pnl) => Trader(Step(t.a, Trade(pnl), cfg), false)
    case Other(e) => t.(a := Step(t.a, e, cfg))
  }

  /**
   An entry is made only when flat and allowed, with at most `gain` unrealized; a close follows an entry and
   loses at most `loss`; nothing else sets equity or the day's figure except a new day.
   */
  predicate Lawful(t: Trader, m: Move, loss: real, gain: real, cfg: Config) {
    match m
    case Enter => !t.open && CanTrade(t.a, cfg) && t.a.unrealized <= gain
    case Close(None) => t.open
    case Close(Some(pnl)) => t.open && pnl >= -loss
    case Other(e) => e.ResetDaily? || e.ClearHalt? || e.Unrealized? || e.HaltExternal?
  }

  ghost predicate Disciplined(t: Trader, ms: seq<Move>, loss: real, gain: real, cfg: Config)
    decreases |ms|
  {
    ms != [] ==> Lawful(t, ms[0], loss, gain, cfg) && Disciplined(Act(t, ms[0], cfg), ms[1..], loss, gain, cfg)
  }

  function Play(t: Trader, ms: seq<Move>, cfg: Config): Trader
    decreases |ms|
  {
    if ms == [] then t else Play(Act(t, ms[0], cfg), ms[1..], cfg)
  }

  /** With a trade open the limits hold outright; otherwise they hold within one loss. */
  ghost predicate Bounded(t: Trader, loss: real, gain: real, cfg: Config) {
    var slack := if t.open then 0.0 else loss;
    && t.a.equity <= t.a.peak
    && (cfg.dailyLossLimit < 0.0 ==> t.a.daily > cfg.dailyLossLimit - slack)
    && t.a.Drawdown() < cfg.drawdownCap + gain + slack
  }

  lemma ActKeepsBounds(t: Trader, m: Move, loss: real, gain: real, cfg: Config)
    requires loss >= 0.0 && gain >= 0.0 && Bounded(t, loss, gain, cfg) && Lawful(t, m, loss, gain, cfg)
    ensures Bounded(Act(t, m, cfg), loss, gain, cfg)
  {
  }

  /**
   In every disciplined run the day's loss stays within one trade of the limit and the drawdown within one
   trade, and the unrealized gain allowed at entry, of the cap.
   */
  lemma {:induction false} LossIsBounded(t: Trader, ms: seq<Move>, loss: real, gain: real, cfg: Config)
    requires loss >= 0.0 && gain >= 0.0 && Bounded(t, loss, gain, cfg) && Disciplined(t, ms, loss, gain, cfg)
    ensures Bounded(Play(t, ms, cfg), loss, gain, cfg)
    decreases |ms|
  {
    if ms != [] {
      ActKeepsBounds(t, ms[0], loss, gain, cfg);
      LossIsBounded(Act(t, ms[0], cfg), ms[1..], loss, gain, cfg);
    }
  }

  /** A gain not yet realized hides a breached cap from the gate, by exactly its amount. */
  lemma UnrealizedHidesIff(a: Account, cfg: Config)
    requires a.halt.None? && !DailyBreached(a, cfg)
    ensures CanTrade(a, cfg) && a.Drawdown() >= cfg.drawdownCap <==>
            a.unrealized > a.Drawdown() - cfg.drawdownCap >= 0.0
  {
  }

  // ---------------------------------------------------------------- halts

  /** One event ends a halt exactly when an operator clears it or a new day meets a daily one. */
  lemma HaltEndsIff(a: Account, e: Event, cfg: Config)
    requires a.halt.Some?
    ensures Step(a, e, cfg).halt.None? <==> e.ClearHalt? || (e.ResetDaily? && IsDaily(a.halt.value))
  {
  }

  /** The account before event `k`. */
  function At(a: Account, es: seq<Event>, k: nat, cfg: Config): Account
    requires k <= |es|
  {
    if k == 0 then a else Step(At(a, es, k - 1, cfg), es[k - 1], cfg)
  }

  /** The event breaks the day's limit, or reports so from outside. */
  predicate WritesDaily(a: Account, e: Event, cfg: Config) {
    match e
    case Trade(Some(pnl)) => DailyBreached(Booked(a, pnl), cfg)
    case HaltExternal(text) => "daily_loss_limit" <= text
    case _ => false
  }

  /** The event breaks a rule of the account and not the day's, or reports one. */
  predicate WritesOther(a: Account, e: Event, cfg: Config) {
    match e
    case Trade(None) => true
    case Trade(Some(pnl)) =>
      !DailyBreached(Booked(a, pnl), cfg)
      && (Booked(a, pnl).Drawdown() >= cfg.drawdownCap || Inconsistent(Booked(a, pnl), cfg))
    case HaltExternal(text) => !("daily_loss_limit" <= text)
    case _ => false
  }

  lemma ReasonStep(a: Account, e: Event, cfg: Config)
    requires a.halt.Some? && !e.ClearHalt?
    ensures var t := Step(a, e, cfg);
            if WritesDaily(a, e, cfg) then t.halt.Some? && IsDaily(t.halt.value)
            else if WritesOther(a, e, cfg) then t.halt.Some? && !IsDaily(t.halt.value)
            else if e.ResetDaily? && IsDaily(a.halt.value) then t.halt.None?
            else t.halt == a.halt
  {
  }

  ghost predicate HaltedUpTo(a: Account, es: seq<Event>, k: nat, cfg: Config)
    requires k <= |es|
  {
    forall j :: 0 <= j <= k ==> At(a, es, j, cfg).halt.Some?
  }

  datatype Breach = OfDay | OfAccount

  /** The latest breach among the first `k` events; it depends on the money and the events, not on halts. */
  function LastBreach(a: Account, es: seq<Event>, k: nat, cfg: Config): Option<Breach>
    requires k <= |es|
  {
    if k == 0 then None
    else if WritesDaily(At(a, es, k - 1, cfg), es[k - 1], cfg) then Some(OfDay)
    else if WritesOther(At(a, es, k - 1, cfg), es[k - 1], cfg) then Some(OfAccount)
    else LastBreach(a, es, k - 1, cfg)
  }

  /** A new day that finds the day's limit to be the latest breach. */
  predicate LiftsAt(a: Account, es: seq<Event>, r: nat, cfg: Config)
    requires r < |es|
  {
    es[r].ResetDaily? && LastBreach(a, es, r, cfg) == Some(OfDay)
  }

  ghost predicate NothingLifts(a: Account, es: seq<Event>, k: nat, cfg: Config)
    requires k <= |es|
  {
    forall r :: 0 <= r < k ==> !LiftsAt(a, es, r, cfg)
  }

  ghost predicate NoOperator(es: seq<Event>) { forall j :: 0 <= j < |es| ==> !es[j].ClearHalt? }

  /** An account halted for another reason, and still halted: its reason is the day's exactly after such a breach. */
  lemma {:induction false} DailyReasonIff(a: Account, es: seq<Event>, k: nat, cfg: Config)
    requires k <= |es| && HaltedUpTo(a, es, k, cfg) && NoOperator(es)
    requires a.halt.Some? && !IsDaily(a.halt.value)
    ensures At(a, es, k, cfg).halt.Some?
    ensures IsDaily(At(a, es, k, cfg).halt.value) <==> LastBreach(a, es, k, cfg) == Some(OfDay)
  {
    if k > 0 {
      assert HaltedUpTo(a, es, k - 1, cfg);
      DailyReasonIff(a, es, k - 1, cfg);
      ReasonStep(At(a, es, k - 1, cfg), es[k - 1], cfg);
    }
  }

  lemma UpToNext(a: Account, es: seq<Event>, k: nat, cfg: Config)
    requires k < |es|
    ensures HaltedUpTo(a, es, k + 1, cfg) <==> HaltedUpTo(a, es, k, cfg) && At(a, es, k + 1, cfg).halt.Some?
    ensures NothingLifts(a, es, k + 1, cfg) <==> NothingLifts(a, es, k, cfg) && !LiftsAt(a, es, k, cfg)
  {
  }

  lemma {:induction false} HaltedUntilLifted(a: Account, es: seq<Event>, k: nat, cfg: Config)
    requires k <= |es| && NoOperator(es) && a.halt.Some? && !IsDaily(a.halt.value)
    ensures HaltedUpTo(a, es, k, cfg) <==> NothingLifts(a, es, k, cfg)
  {
    if k > 0 {
      HaltedUntilLifted(a, es, k - 1, cfg);
      UpToNext(a, es, k - 1, cfg);
      if HaltedUpTo(a, es, k - 1, cfg) {
        DailyReasonIff(a, es, k - 1, cfg);
        HaltEndsIff(At(a, es, k - 1, cfg), es[k - 1], cfg);
      }
    }
  }

  /**
   Without an operator, a halt for anything but the day's loss lasts through the whole run exactly when no
   new day in it finds the day's limit to be the latest breach; and as long as it lasts nothing is traded.
   */
  lemma HaltSurvivesIff(a: Account, es: seq<Event>, cfg: Config)
    requires NoOperator(es) && a.halt.Some? && !IsDaily(a.halt.value)
    ensures HaltedUpTo(a, es, |es|, cfg) <==> NothingLifts(a, es, |es|, cfg)
    ensures NothingLifts(a, es, |es|, cfg) ==> forall k :: 0 <= k <= |es| ==> !CanTrade(At(a, es, k, cfg), cfg)
  {
    HaltedUntilLifted(a, es, |es|, cfg);
  }

  /** A trade whose figure is not finite, or a report from outside, stops all trading until a new day or an operator. */
  lemma {:induction false} StoppedUntilLifted(a: Account, e: Event, es: seq<Event>, k: nat, cfg: Config)
    requires e == Trade(None) || e.HaltExternal?
    requires k <= |es| && forall j :: 0 <= j < |es| ==> !es[j].ClearHalt? && !es[j].ResetDaily?
    ensures !CanTrade(At(Step(a, e, cfg), es, k, cfg), cfg)
    ensures At(Step(a, e, cfg), es, k, cfg).halt.Some?
    ensures SameMoney(Step(a, e, cfg), a)
  {
    if k > 0 {
      StoppedUntilLifted(a, e, es, k - 1, cfg);
      HaltEndsIff(At(Step(a, e, cfg), es, k - 1, cfg), es[k - 1], cfg);
    }
  }

  /** The last finite figure reported for the open position. */
  function LastReported(u: real, es: seq<Event>, k: nat): real
    requires k <= |es|
  {
    if k == 0 then u
    else if es[k - 1].Unrealized? && es[k - 1].pnl.Some? then es[k - 1].pnl.value
    else LastReported(u, es, k - 1)
  }

  lemma {:induction false} UnrealizedIsLast(a: Account, es: seq<Event>, k: nat, cfg: Config)
    requires k <= |es|
    ensures At(a, es, k, cfg).unrealized == LastReported(a.unrealized, es, k)
  {
    if k > 0 {
      UnrealizedIsLast(a, es, k - 1, cfg);
    }
  }

  /** A trade closed while halted, then a new day: the halt is gone exactly when that trade broke the day's limit. */
  lemma LateTradeFreesIff(a: Account, pnl: Option<real>, cfg: Config)
    requires a.halt.Some? && !IsDaily(a.halt.value)
    ensures Run(a, [Trade(pnl), ResetDaily], cfg).halt.None? <==>
            pnl.Some? && DailyBreached(Booked(a, pnl.value), cfg)
  {
    var es := [Trade(pnl), ResetDaily];
    assert es[1..] == [ResetDaily] && es[1..][1..] == [];
    var b := Step(a, Trade(pnl), cfg);
    assert Run(a, es, cfg) == Run(Step(b, ResetDaily, cfg), [], cfg);
  }

  // ---------------------------------------------------------------- restart

  /** The trade log in closing order: the trades of earlier days, and today's. */
  datatype TradeLog = TradeLog(before: seq<real>, today: seq<real>)

  function Sum(xs: seq<real>): real { if xs == [] then 0.0 else Sum(xs[..|xs| - 1]) + xs[|xs| - 1] }

  /** The greatest running sum, zero for an empty log. */
  function TopPrefix(xs: seq<real>): real {
    if xs == [] then 0.0
    else if |xs| == 1 then xs[0]
    else MaxReal(TopPrefix(xs[..|xs| - 1]), Sum(xs))
  }

  /** The greatest running sum, counting the empty one. */
  function Top(xs: seq<real>): real { MaxReal(0.0, TopPrefix(xs)) }

  function All(l: TradeLog): seq<real> { l.before + l.today }

  /** What start-up does with the log. */
  function SeedEvents(start: real, log: TradeLog): seq<Event> {
    [SeedTotal(Sum(All(log))), SetEquity(start + Top(All(log))), SetEquity(start + Sum(All(log))),
     SeedDaily(Sum(log.today))]
  }

  lemma RunFour(a: Account, es: seq<Event>, cfg: Config)
    requires |es| == 4
    ensures Run(a, es, cfg) ==
            Step(Step(Step(Step(a, es[0], cfg), es[1], cfg), es[2], cfg), es[3], cfg)
  {
    var r1, r2, r3 := es[1..], es[2..], es[3..];
    assert r1[1..] == r2 && r2[1..] == r3 && r3[1..] == [];
    var a1 := Step(a, es[0], cfg);
    var a2 := Step(a1, r1[0], cfg);
    var a3 := Step(a2, r2[0], cfg);
    assert Run(a, es, cfg) == Run(a1, r1, cfg) == Run(a2, r2, cfg) == Run(a3, r3, cfg);
    assert Run(a3, r3, cfg) == Run(Step(a3, r3[0], cfg), [], cfg);
  }

  /** The uninterrupted history: trades and new days in order. */
  datatype Past = TradeOf(pnl: real) | NewDay

  function Events(h: seq<Past>): (es: seq<Event>)
    ensures |es| == |h|
  {
    if h == [] then []
    else Events(h[..|h| - 1]) + [match h[|h| - 1] case TradeOf(p) => Trade(Some(p)) case NewDay => ResetDaily]
  }

  /** The log such a history leaves. */
  function LogOf(h: seq<Past>): TradeLog {
    if h == [] then TradeLog([], [])
    else
      var l := LogOf(h[..|h| - 1]);
      match h[|h| - 1]
      case TradeOf(p) => TradeLog(l.before, l.today + [p])
      case NewDay => TradeLog(l.before + l.today, [])
  }

  lemma {:induction false} RunSnoc(a: Account, es: seq<Event>, e: Event, cfg: Config)
    ensures Run(a, es + [e], cfg) == Step(Run(a, es, cfg), e, cfg)
    decreases |es|
  {
    if es == [] {
      assert [e][1..] == [] && es + [e] == [e];
    } else {
      assert (es + [e])[0] == es[0] && (es + [e])[1..] == es[1..] + [e];
      RunSnoc(Step(a, es[0], cfg), es[1..], e, cfg);
    }
  }

  /** The money of an account, without its halt. */
  ghost predicate SameMoney(a: Account, b: Account) {
    a.equity == b.equity && a.peak == b.peak && a.total == b.total && a.daily == b.daily
    && a.unrealized == b.unrealized
  }

  function Seeded(start: real, log: TradeLog, cfg: Config): Account {
    Run(New(start), SeedEvents(start, log), cfg)
  }

  lemma SeedsTo(start: real, total: real, today: real, top: real, cfg: Config)
    requires total <= top && 0.0 <= top
    ensures Step(Step(Step(Step(New(start), SeedTotal(total), cfg), SetEquity(start + top), cfg),
                      SetEquity(start + total), cfg), SeedDaily(today), cfg)
            == Account(start + total, start + top, total, today, 0.0, None)
  {
  }

  lemma SeededIs(start: real, log: TradeLog, cfg: Config)
    ensures var total, today, top := Sum(All(log)), Sum(log.today), Top(All(log));
            Seeded(start, log, cfg) == Account(start + total, start + top, total, today, 0.0, None)
  {
    var total, today, top := Sum(All(log)), Sum(log.today), Top(All(log));
    SumBelowTop(All(log));
    RunFour(New(start), SeedEvents(start, log), cfg);
    SeedsTo(start, total, today, top, cfg);
  }

  lemma {:induction false} SumBelowTop(xs: seq<real>)
    ensures Sum(xs) <= Top(xs)
  {
    if |xs| == 1 {
      assert xs[..0] == [];
      assert Sum(xs) == xs[0] == TopPrefix(xs);
    } else if |xs| > 1 {
      assert TopPrefix(xs) == MaxReal(TopPrefix(xs[..|xs| - 1]), Sum(xs));
    }
  }

  lemma SumSnoc(xs: seq<real>, x: real)
    ensures Sum(xs + [x]) == Sum(xs) + x
    ensures Top(xs + [x]) == MaxReal(Top(xs), Sum(xs) + x)
  {
    assert (xs + [x])[..|xs|] == xs;
    assert Sum(xs + [x]) == Sum(xs) + x;
  }

  /** The figures of an account that started with `start`. */
  ghost predicate Figures(a: Account, start: real, total: real, today: real, top: real) {
    && a.equity == start + total && a.total == total && a.daily == today
    && a.peak == start + top && a.unrealized == 0.0
  }

  lemma FiguresTrade(a: Account, start: real, total: real, today: real, top: real, pnl: real, cfg: Config)
    requires Figures(a, start, total, today, top)
    ensures Figures(Step(a, Trade(Some(pnl)), cfg), start, total + pnl, today + pnl, MaxReal(top, total + pnl))
  {
  }

  lemma AllSnoc(l: TradeLog, pnl: real)
    ensures All(TradeLog(l.before, l.today + [pnl])) == All(l) + [pnl]
    ensures All(TradeLog(l.before + l.today, [])) == All(l)
  {
  }

  ghost predicate FiguresOf(a: Account, start: real, l: TradeLog) {
    Figures(a, start, Sum(All(l)), Sum(l.today), Top(All(l)))
  }

  /** What feeding the whole history through the manager yields. */
  lemma {:induction false} LivedIs(start: real, h: seq<Past>, cfg: Config)
    ensures FiguresOf(Run(New(start), Events(h), cfg), start, LogOf(h))
  {
    if h == [] {
      LivedNothing(start, cfg);
    } else {
      var front, p := h[..|h| - 1], h[|h| - 1];
      assert h == front + [p];
      LivedIs(start, front, cfg);
      LivedOneMore(start, front, p, cfg);
    }
  }

  lemma LivedNothing(start: real, cfg: Config)
    ensures FiguresOf(Run(New(start), Events([]), cfg), start, LogOf([]))
  {
    assert All(TradeLog([], [])) == [];
  }

  lemma PastSnoc(h: seq<Past>, p: Past)
    ensures Events(h + [p]) ==
            Events(h) + [match p case TradeOf(pnl) => Trade(Some(pnl)) case NewDay => ResetDaily]
    ensures LogOf(h + [p]) ==
            match p
            case TradeOf(pnl) => TradeLog(LogOf(h).before, LogOf(h).today + [pnl])
            case NewDay => TradeLog(LogOf(h).before + LogOf(h).today, [])
  {
    assert (h + [p])[..|h|] == h;
  }

  lemma LivedTrade(a: Account, start: real, l: TradeLog, pnl: real, cfg: Config)
    requires FiguresOf(a, start, l)
    ensures FiguresOf(Step(a, Trade(Some(pnl)), cfg), start, TradeLog(l.before, l.today + [pnl]))
  {
    FiguresTrade(a, start, Sum(All(l)), Sum(l.today), Top(All(l)), pnl, cfg);
    AllSnoc(l, pnl);
    SumSnoc(All(l), pnl);
    SumSnoc(l.today, pnl);
  }

  lemma LivedDay(a: Account, start: real, l: TradeLog, cfg: Config)
    requires FiguresOf(a, start, l)
    ensures FiguresOf(Step(a, ResetDaily, cfg), start, TradeLog(l.before + l.today, []))
  {
    AllSnoc(l, 0.0);
  }

  lemma LivedOneMore(start: real, h: seq<Past>, p: Past, cfg: Config)
    requires FiguresOf(Run(New(start), Events(h), cfg), start, LogOf(h))
    ensures FiguresOf(Run(New(start), Events(h + [p]), cfg), start, LogOf(h + [p]))
  {
    var a, l := Run(New(start), Events(h), cfg), LogOf(h);
    PastSnoc(h, p);
    match p
    case TradeOf(pnl) =>
      RunSnoc(New(start), Events(h), Trade(Some(pnl)), cfg);
      LivedTrade(a, start, l, pnl, cfg);
    case NewDay =>
      RunSnoc(New(start), Events(h), ResetDaily, cfg);
      LivedDay(a, start, l, cfg);
  }

  /** Seeding from the log gives the figures that living through every trade would have given. */
  lemma RestartEquivalence(start: real, h: seq<Past>, cfg: Config)
    ensures SameMoney(Seeded(start, LogOf(h), cfg), Run(New(start), Events(h), cfg))
  {
    LivedIs(start, h, cfg);
    SeededIs(start, LogOf(h), cfg);
  }

  lemma {:induction false} SumConcat(xs: seq<real>, ys: seq<real>)
    ensures Sum(xs + ys) == Sum(xs) + Sum(ys)
  {
    if ys == [] {
      assert xs + ys == xs;
    } else {
      var front, y := ys[..|ys| - 1], ys[|ys| - 1];
      SumConcat(xs, front);
      SumSnoc(xs + front, y);
      assert xs + ys == (xs + front) + [y];
    }
  }

  /** One day outweighs the days before it: they earned at least 500, and it earned more than its share of them. */
  predicate Uneven(before: real, today: real, cfg: Config) {
    !cfg.cycleMode && before >= 500.0 && today > 0.0 && today > cfg.consistencyCap * before
  }

  lemma UnevenIff(a: Account, prior: real, cfg: Config)
    requires prior == a.total - a.daily
    ensures Inconsistent(a, cfg) <==> Uneven(prior, a.daily, cfg)
  {
    if prior >= 500.0 { QuotientExceeds(a.daily, prior, cfg.consistencyCap); }
  }

  lemma QuotientExceeds(x: real, y: real, c: real)
    requires y > 0.0
    ensures x / y > c <==> x > c * y
  {
    assert (x / y) * y == x;
    if x / y > c {
      assert (x / y - c) * y > 0.0;
    } else {
      assert (c - x / y) * y >= 0.0;
    }
  }

  /** The first rule that is broken, of the day, the fall from the peak and the days before; or what was. */
  function Verdict(before: real, today: real, fallen: real, was: Option<Reason>, cfg: Config): Option<Reason> {
    if cfg.dailyLossLimit < 0.0 && today <= cfg.dailyLossLimit then Some(DailyLossLimit)
    else if fallen >= cfg.drawdownCap then Some(DrawdownCap)
    else if Uneven(before, today, cfg) then Some(ConsistencyCap)
    else was
  }

  /** The verdict on a log and one more trade of today. */
  function VerdictOn(l: TradeLog, pnl: real, was: Option<Reason>, cfg: Config): Option<Reason> {
    var before, today, top := Sum(l.before), Sum(l.today) + pnl, Top(All(l) + [pnl]);
    Verdict(before, today, top - (before + today), was, cfg)
  }

  /** What one more trade does to the halt after any history, in terms of the trades themselves. */
  lemma TradeHalts(start: real, h: seq<Past>, pnl: real, cfg: Config)
    ensures Run(New(start), Events(h + [TradeOf(pnl)]), cfg).halt ==
            VerdictOn(LogOf(h), pnl, Run(New(start), Events(h), cfg).halt, cfg)
  {
    LivedIs(start, h, cfg);
    LivesOn(start, h, pnl, cfg);
    HaltFrom(Run(New(start), Events(h), cfg), start, LogOf(h), pnl, cfg);
  }

  lemma HaltFrom(a: Account, start: real, l: TradeLog, pnl: real, cfg: Config)
    requires FiguresOf(a, start, l)
    ensures Step(a, Trade(Some(pnl)), cfg).halt == VerdictOn(l, pnl, a.halt, cfg)
  {
    SumConcat(l.before, l.today);
    SumSnoc(All(l), pnl);
    HaltAfter(a, start, Sum(l.before), Sum(l.today), Top(All(l)), Top(All(l) + [pnl]), pnl, cfg);
  }

  lemma LivesOn(start: real, h: seq<Past>, pnl: real, cfg: Config)
    ensures Run(New(start), Events(h + [TradeOf(pnl)]), cfg) ==
            Step(Run(New(start), Events(h), cfg), Trade(Some(pnl)), cfg)
  {
    PastSnoc(h, TradeOf(pnl));
    RunSnoc(New(start), Events(h), Trade(Some(pnl)), cfg);
  }

  lemma HaltAfter(
    a: Account, start: real, before: real, today: real, top: real, newTop: real, pnl: real, cfg: Config)
    requires Figures(a, start, before + today, today, top) && newTop == MaxReal(top, before + today + pnl)
    ensures Step(a, Trade(Some(pnl)), cfg).halt ==
            Verdict(before, today + pnl, newTop - (before + (today + pnl)), a.halt, cfg)
  {
    UnevenIff(Booked(a, pnl), before, cfg);
  }

  /** What a fresh process holds once start-up has also reset the day. */
  function Restarted(start: real, log: TradeLog, cfg: Config): Account {
    Step(Seeded(start, log, cfg), ResetDaily, cfg)
  }

  /** The reset that follows the seeding loses the day's figure, exactly when there was one. */
  lemma DayIsLostIff(start: real, h: seq<Past>, cfg: Config)
    ensures var live, back := Run(New(start), Events(h), cfg), Restarted(start, LogOf(h), cfg);
            && back.equity == live.equity && back.peak == live.peak && back.total == live.total
            && (back.daily == live.daily <==> Sum(LogOf(h).today) == 0.0)
  {
    LivedIs(start, h, cfg);
    RestartEquivalence(start, h, cfg);
  }

  /**
   A restart permits trading exactly when the drawdown is below the cap: neither the day's loss nor any
   halt of the running process is recovered.
   */
  lemma RestartForgets(start: real, h: seq<Past>, cfg: Config)
    ensures var live, back := Run(New(start), Events(h), cfg), Restarted(start, LogOf(h), cfg);
            && (CanTrade(back, cfg) <==> live.Drawdown() < cfg.drawdownCap)
            && (CanTrade(live, cfg) ==> CanTrade(back, cfg))
            && (CanTrade(back, cfg) && !CanTrade(live, cfg) <==>
                live.Drawdown() < cfg.drawdownCap && (live.halt.Some? || DailyBreached(live, cfg)))
  {
    LivedIs(start, h, cfg);
    SeededIs(start, LogOf(h), cfg);
  }
}
