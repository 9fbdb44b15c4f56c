/**
 The bracket of one position: a protective stop and a profit target, set when the position opens,
 recomputed when the real fill price arrives, and tightened on every bar.
 */
module Bracket {
  import opened Prelude
  import GapList

  datatype Side = Long | Short

  datatype TargetMode = FixedRr | Opposing | OpposingCapRr

  datatype Config = Config(
    fixed: bool, slPoints: real, tpPoints: real, slAtrMult: real, rrRatio: real,
    useBreakeven: bool, beTriggerPctTp: real, useTrailing: bool, trailStartR: real, trailAtrMult: real,
    targetMode: TargetMode, tpMinDistAtr: real, tpBufferAtr: real,
    useLevels: bool, lvPd: bool, lvPw: bool, lvSess: bool, lvPdc: bool, tpFvg: bool, tpFvgCe: bool)

  // ---------------------------------------------------------------- sides

  /** `d` away from `px` in the direction that loses. */
  function Against(side: Side, px: real, d: real): real { if side == Long then px - d else px + d }

  /** `d` away from `px` in the direction that gains. */
  function Toward(side: Side, px: real, d: real): real { if side == Long then px + d else px - d }

  /** `a` is strictly on the gaining side of `b`. */
  predicate Beyond(side: Side, a: real, b: real) { if side == Long then a > b else a < b }

  predicate AtOrBeyond(side: Side, a: real, b: real) { if side == Long then a >= b else a <= b }

  /** The tighter of two stops, which is also the farther of two targets. */
  function Tighter(side: Side, a: real, b: real): real { if AtOrBeyond(side, a, b) then a else b }

  function Nearer(side: Side, a: real, b: real): real { if AtOrBeyond(side, a, b) then b else a }

  // ---------------------------------------------------------------- one leg

  /** The distances of a leg at a bar: risk, target, break-even trigger, trail trigger, trail. */
  datatype Dist = Dist(r: real, tp: real, be: real, start: real, trail: real)

  /** A multiple of the range. */
  function Times(x: real, atr: real): real { x * atr }

  function DistOf(entryAtr: real, atr: real, cfg: Config): Dist {
    var r := if cfg.fixed then cfg.slPoints else Times(cfg.slAtrMult, entryAtr);
    var tp := if cfg.fixed then cfg.tpPoints else Times(cfg.rrRatio, r);
    Dist(r, tp, Times(cfg.beTriggerPctTp, tp), Times(cfg.trailStartR, r),
         if cfg.fixed then cfg.slPoints else Times(cfg.trailAtrMult, atr))
  }

  datatype Leg = Leg(
    side: Side, entry: real, entryAtr: real, stop: real, tp: Option<real>, levelTp: Option<real>,
    beOn: bool, trailOn: bool, exitPending: bool)

  /** The target a bar aims at: the level, capped in one mode, or a multiple of the risk. */
  function Target(side: Side, entry: real, levelTp: Option<real>, tp: real, mode: TargetMode): real {
    match levelTp
    case None => Toward(side, entry, tp)
    case Some(l) => if mode == OpposingCapRr then Nearer(side, l, Toward(side, entry, tp)) else l
  }

  /** The level target of a new leg: the nearest level, if far enough, less a buffer. */
  function LevelTarget(side: Side, price: real, level: Option<real>, atr: real, cfg: Config): Option<real> {
    match level
    case None => None
    case Some(l) =>
      if cfg.targetMode != FixedRr && (if l < price then price - l else l - price) >= Times(cfg.tpMinDistAtr, atr)
      then Some(Against(side, l, Times(cfg.tpBufferAtr, atr))) else None
  }

  function Opened(side: Side, price: real, atr: real, level: Option<real>, cfg: Config): Leg {
    var d, l := DistOf(atr, atr, cfg), LevelTarget(side, price, level, atr, cfg);
    Leg(side, price, atr, Against(side, price, d.r), Some(Target(side, price, l, d.tp, cfg.targetMode)), l,
        false, false, false)
  }

  /** The fill price replaces the assumed one; a positive stop never retreats, and the cap is not applied. */
  function Refined(p: Leg, px: real, d: Dist): Leg {
    var base := Against(p.side, px, d.r);
    p.(entry := px,
       stop := if p.stop > 0.0 then Tighter(p.side, base, p.stop) else base,
       tp := Some(match p.levelTp case Some(l) => l case None => Toward(p.side, px, d.tp)))
  }

  function Tightened(p: Leg, close: real, d: Dist, cfg: Config): Leg {
    var be := p.beOn || (cfg.useBreakeven && Beyond(p.side, close, Toward(p.side, p.entry, d.be)));
    var trail := p.trailOn || (cfg.useTrailing && Beyond(p.side, close, Toward(p.side, p.entry, d.start)));
    var s0 := Against(p.side, p.entry, d.r);
    var s1 := if be then Tighter(p.side, s0, p.entry) else s0;
    var s2 := if trail then Tighter(p.side, s1, Against(p.side, close, d.trail)) else s1;
    p.(beOn := be, trailOn := trail, stop := Tighter(p.side, s2, p.stop),
       tp := if trail then None else Some(Target(p.side, p.entry, p.levelTp, d.tp, cfg.targetMode)))
  }

  /** A bar (with a market exit at its end or not), a fill notification, or an exit ordered elsewhere. */
  datatype Event = OnBar(close: real, atr: real, exit: bool) | OnFill(side: Side, px: real) | OnFlatten

  function Step(p: Leg, e: Event, cfg: Config): Leg {
    match e
    case OnBar(close, atr, exit) =>
      if p.exitPending then p else Tightened(p, close, DistOf(p.entryAtr, atr, cfg), cfg).(exitPending := exit)
    case OnFill(side, px) => if side == p.side then Refined(p, px, DistOf(p.entryAtr, p.entryAtr, cfg)) else p
    case OnFlatten => p.(exitPending := true)
  }

  function Run(p: Leg, es: seq<Event>, cfg: Config): Leg
    decreases |es|
  {
    if es == [] then p else Run(Step(p, es[0], cfg), es[1..], cfg)
  }

  // ---------------------------------------------------------------- the ratchet

  /** A bar never loosens the stop, whatever the distances. */
  lemma BarTightens(p: Leg, close: real, d: Dist, cfg: Config)
    ensures AtOrBeyond(p.side, Tightened(p, close, d, cfg).stop, p.stop)
  {
  }

  /** A fill loosens it exactly when the stop is not positive and the recomputed one is looser. */
  lemma FillLoosensIff(p: Leg, px: real, d: Dist)
    ensures !AtOrBeyond(p.side, Refined(p, px, d).stop, p.stop) <==>
            p.stop <= 0.0 && !AtOrBeyond(p.side, Against(p.side, px, d.r), p.stop)
  {
  }

  /** A fill that does not loosen the stop: the stop is positive, or the recomputed one is no looser. */
  predicate TightFill(p: Leg, e: Event, cfg: Config) {
    e.OnFill? && e.side == p.side ==>
      p.stop > 0.0 || AtOrBeyond(p.side, Against(p.side, e.px, DistOf(p.entryAtr, p.entryAtr, cfg).r), p.stop)
  }

  ghost predicate TightFills(p: Leg, es: seq<Event>, cfg: Config)
    decreases |es|
  {
    es != [] ==> TightFill(p, es[0], cfg) && TightFills(Step(p, es[0], cfg), es[1..], cfg)
  }

  lemma StepTightensIff(p: Leg, e: Event, cfg: Config)
    ensures Step(p, e, cfg).side == p.side
    ensures AtOrBeyond(p.side, Step(p, e, cfg).stop, p.stop) <==> TightFill(p, e, cfg)
  {
    match e
    case OnBar(close, atr, exit) => BarTightens(p, close, DistOf(p.entryAtr, atr, cfg), cfg);
    case OnFill(_, px) => FillLoosensIff(p, px, DistOf(p.entryAtr, p.entryAtr, cfg));
    case OnFlatten =>
  }

  /** What no event changes, and the flags no event takes back. */
  lemma {:induction false} FlagsLatch(p: Leg, es: seq<Event>, cfg: Config)
    ensures var q := Run(p, es, cfg);
            && q.side == p.side && q.entryAtr == p.entryAtr && q.levelTp == p.levelTp
            && (p.beOn ==> q.beOn) && (p.trailOn ==> q.trailOn) && (p.exitPending ==> q.exitPending)
    decreases |es|
  {
    if es != [] {
      FlagsLatch(Step(p, es[0], cfg), es[1..], cfg);
    }
  }

  /** Over a whole leg the stop only tightens and the break-even and trailing flags never unlatch. */
  lemma {:induction false} Ratchet(p: Leg, es: seq<Event>, cfg: Config)
    requires TightFills(p, es, cfg)
    ensures var q := Run(p, es, cfg);
            && q.side == p.side && AtOrBeyond(p.side, q.stop, p.stop)
            && (p.beOn ==> q.beOn) && (p.trailOn ==> q.trailOn) && (p.exitPending ==> q.exitPending)
    decreases |es|
  {
    FlagsLatch(p, es, cfg);
    if es != [] {
      StepTightensIff(p, es[0], cfg);
      Ratchet(Step(p, es[0], cfg), es[1..], cfg);
    }
  }

  /** No event of the leg loosens the stop. */
  ghost predicate NeverLoosens(p: Leg, es: seq<Event>, cfg: Config)
    decreases |es|
  {
    es != [] ==>
      AtOrBeyond(p.side, Step(p, es[0], cfg).stop, p.stop) && NeverLoosens(Step(p, es[0], cfg), es[1..], cfg)
  }

  /** The condition is exact: the stop tightens all along exactly when every fill is of that kind. */
  lemma {:induction false} RatchetIff(p: Leg, es: seq<Event>, cfg: Config)
    ensures NeverLoosens(p, es, cfg) <==> TightFills(p, es, cfg)
    decreases |es|
  {
    if es != [] {
      StepTightensIff(p, es[0], cfg);
      RatchetIff(Step(p, es[0], cfg), es[1..], cfg);
    }
  }

  lemma {:induction false} RunSplit(p: Leg, es: seq<Event>, k: nat, cfg: Config)
    requires k <= |es|
    ensures Run(p, es, cfg) == Run(Run(p, es[..k], cfg), es[k..], cfg)
    decreases k
  {
    if k > 0 {
      assert es[..k][0] == es[0] && es[..k][1..] == es[1..][..k - 1] && es[1..][k - 1..] == es[k..];
      RunSplit(Step(p, es[0], cfg), es[1..], k - 1, cfg);
    } else {
      assert es[..0] == [] && es[0..] == es;
    }
  }

  lemma {:induction false} TightLaterFills(p: Leg, es: seq<Event>, k: nat, cfg: Config)
    requires k <= |es| && TightFills(p, es, cfg)
    ensures TightFills(Run(p, es[..k], cfg), es[k..], cfg)
    decreases k
  {
    if k > 0 {
      assert es[..k][0] == es[0] && es[..k][1..] == es[1..][..k - 1] && es[1..][k - 1..] == es[k..];
      TightLaterFills(Step(p, es[0], cfg), es[1..], k - 1, cfg);
    } else {
      assert es[..0] == [] && es[0..] == es;
    }
  }

  /** Between any two moments of the leg. */
  lemma StopsNeverRetreat(p: Leg, es: seq<Event>, i: nat, j: nat, cfg: Config)
    requires i <= j <= |es| && TightFills(p, es, cfg)
    ensures AtOrBeyond(p.side, Run(p, es[..j], cfg).stop, Run(p, es[..i], cfg).stop)
  {
    assert es[..j][..i] == es[..i] && es[..j][i..] == es[i..][..j - i];
    RunSplit(p, es[..j], i, cfg);
    TightLaterFills(p, es, i, cfg);
    TightPrefix(Run(p, es[..i], cfg), es[i..], j - i, cfg);
    Ratchet(Run(p, es[..i], cfg), es[i..][..j - i], cfg);
    FlagsLatch(p, es[..i], cfg);
  }

  lemma {:induction false} TightPrefix(p: Leg, es: seq<Event>, k: nat, cfg: Config)
    requires k <= |es| && TightFills(p, es, cfg)
    ensures TightFills(p, es[..k], cfg)
    decreases k
  {
    if k > 0 {
      assert es[..k][0] == es[0] && es[..k][1..] == es[1..][..k - 1];
      TightPrefix(Step(p, es[0], cfg), es[1..], k - 1, cfg);
    }
  }

  /** A long leg needs only its first stop positive: the ratchet keeps it so. */
  lemma {:induction false} LongIsTight(p: Leg, es: seq<Event>, cfg: Config)
    requires p.side == Long && p.stop > 0.0
    ensures TightFills(p, es, cfg)
    decreases |es|
  {
    if es != [] {
      StepTightensIff(p, es[0], cfg);
      LongIsTight(Step(p, es[0], cfg), es[1..], cfg);
    }
  }

  /** A short leg needs positive prices and distances that are not negative. */
  ghost predicate PositivePrices(es: seq<Event>) {
    forall i :: 0 <= i < |es| ==>
      && (es[i].OnBar? ==> es[i].close > 0.0 && es[i].atr >= 0.0)
      && (es[i].OnFill? ==> es[i].px > 0.0)
  }

  predicate Risks(p: Leg, cfg: Config) {
    DistOf(p.entryAtr, p.entryAtr, cfg).r >= 0.0 && cfg.trailAtrMult >= 0.0 && cfg.slPoints >= 0.0
  }

  lemma TrailNotNegative(entryAtr: real, atr: real, cfg: Config)
    requires cfg.trailAtrMult >= 0.0 && cfg.slPoints >= 0.0 && atr >= 0.0
    ensures DistOf(entryAtr, atr, cfg).trail >= 0.0
    ensures DistOf(entryAtr, atr, cfg).r == DistOf(entryAtr, entryAtr, cfg).r
  {
  }

  lemma ShortStepPositive(p: Leg, close: real, d: Dist, cfg: Config)
    requires p.side == Short && p.stop > 0.0 && p.entry > 0.0 && close > 0.0 && d.r >= 0.0 && d.trail >= 0.0
    ensures Tightened(p, close, d, cfg).stop > 0.0
  {
  }

  lemma {:induction false} ShortIsTight(p: Leg, es: seq<Event>, cfg: Config)
    requires p.side == Short && p.stop > 0.0 && p.entry > 0.0 && Risks(p, cfg) && PositivePrices(es)
    ensures TightFills(p, es, cfg)
    decreases |es|
  {
    if es != [] {
      var e := es[0];
      if e.OnBar? {
        TrailNotNegative(p.entryAtr, e.atr, cfg);
        ShortStepPositive(p, e.close, DistOf(p.entryAtr, e.atr, cfg), cfg);
      }
      ShortIsTight(Step(p, e, cfg), es[1..], cfg);
    }
  }

  // ---------------------------------------------------------------- break-even and trailing

  /** After a bar a latched break-even has the stop at or beyond entry, and trailing has retired the target. */
  lemma BarSettles(p: Leg, close: real, d: Dist, cfg: Config)
    ensures var q := Tightened(p, close, d, cfg);
            && (q.beOn ==> AtOrBeyond(p.side, q.stop, q.entry))
            && (q.trailOn <==> q.tp.None?)
            && AtOrBeyond(p.side, q.stop, Against(p.side, q.entry, d.r))
  {
  }

  /**
   Once a bar has run with break-even latched, the position cannot be stopped out at a loss any more,
   as long as no further fill moves the entry.
   */
  lemma {:induction false} LockedIn(p: Leg, bar: Event, es: seq<Event>, cfg: Config)
    requires bar.OnBar? && !p.exitPending && Step(p, bar, cfg).beOn
    requires forall i :: 0 <= i < |es| ==> !es[i].OnFill?
    ensures var q := Run(Step(p, bar, cfg), es, cfg);
            q.entry == p.entry && q.beOn && AtOrBeyond(p.side, q.stop, p.entry)
  {
    var d := DistOf(p.entryAtr, bar.atr, cfg);
    BarSettles(p, bar.close, d, cfg);
    KeepsEntry(Step(p, bar, cfg), es, cfg);
    Ratchet(Step(p, bar, cfg), es, cfg);
  }

  lemma {:induction false} KeepsEntry(p: Leg, es: seq<Event>, cfg: Config)
    requires forall i :: 0 <= i < |es| ==> !es[i].OnFill?
    ensures Run(p, es, cfg).entry == p.entry && TightFills(p, es, cfg)
    decreases |es|
  {
    if es != [] {
      KeepsEntry(Step(p, es[0], cfg), es[1..], cfg);
    }
  }

  lemma TargetDistance(entryAtr: real, atr: real, cfg: Config)
    ensures DistOf(entryAtr, atr, cfg).tp == DistOf(entryAtr, entryAtr, cfg).tp
  {
  }

  // ---------------------------------------------------------------- the target over a leg

  /** An exit was ordered: bars are not evaluated any more. */
  predicate Ended(es: seq<Event>)
    decreases |es|
  {
    es != [] && (Ended(es[..|es| - 1]) || es[|es| - 1].OnFlatten? || (es[|es| - 1].OnBar? && es[|es| - 1].exit))
  }

  /** The last event that had an effect on the bracket was a fill of the leg's side. */
  predicate FilledLast(side: Side, es: seq<Event>)
    decreases |es|
  {
    es != [] &&
    var front, e := es[..|es| - 1], es[|es| - 1];
    if e.OnFill? && e.side == side then true
    else if e.OnBar? && !Ended(front) then false
    else FilledLast(side, front)
  }

  lemma RunSnoc(p: Leg, es: seq<Event>, e: Event, cfg: Config)
    ensures Run(p, es + [e], cfg) == Step(Run(p, es, cfg), e, cfg)
  {
    RunSplit(p, es + [e], |es|, cfg);
    assert (es + [e])[..|es|] == es && (es + [e])[|es|..] == [e] && [e][1..] == [];
  }

  /** What a leg's numbers are, given what happened last: the uncapped target of a fill, or that of a bar. */
  ghost predicate Settled(q: Leg, filledLast: bool, tp: real, mode: TargetMode) {
    if filledLast then
      q.tp == Some(match q.levelTp case Some(l) => l case None => Toward(q.side, q.entry, tp))
    else
      && q.tp == (if q.trailOn then None else Some(Target(q.side, q.entry, q.levelTp, tp, mode)))
      && (q.beOn ==> AtOrBeyond(q.side, q.stop, q.entry))
  }

  lemma SettledStep(q: Leg, ended: bool, filledLast: bool, e: Event, cfg: Config)
    requires q.exitPending == ended
    requires Settled(q, filledLast, DistOf(q.entryAtr, q.entryAtr, cfg).tp, cfg.targetMode)
    ensures var r := Step(q, e, cfg);
            && r.exitPending == (ended || e.OnFlatten? || (e.OnBar? && e.exit))
            && Settled(r, if e.OnFill? && e.side == q.side then true
                          else if e.OnBar? && !ended then false else filledLast,
                       DistOf(q.entryAtr, q.entryAtr, cfg).tp, cfg.targetMode)
  {
    if e.OnBar? {
      TargetDistance(q.entryAtr, e.atr, cfg);
      BarSettles(q, e.close, DistOf(q.entryAtr, e.atr, cfg), cfg);
    }
  }

  /**
   Over any run of a leg that starts settled, as an opened one does: the target is what the last effective
   event makes it.  After a bar it is capped, and retired while trailing is on, and a latched break-even has
   the stop at or beyond entry; after a fill it is neither, whatever is latched.
   */
  lemma {:induction false} SettledOverLeg(p: Leg, es: seq<Event>, cfg: Config)
    requires !p.exitPending && Settled(p, false, DistOf(p.entryAtr, p.entryAtr, cfg).tp, cfg.targetMode)
    ensures var q := Run(p, es, cfg);
            && q.exitPending == Ended(es) && q.entryAtr == p.entryAtr && q.side == p.side
            && Settled(q, FilledLast(p.side, es), DistOf(p.entryAtr, p.entryAtr, cfg).tp, cfg.targetMode)
    decreases |es|
  {
    if es != [] {
      var front, e := es[..|es| - 1], es[|es| - 1];
      SettledOverLeg(p, front, cfg);
      SettledStep(Run(p, front, cfg), Ended(front), FilledLast(p.side, front), e, cfg);
      RunSnoc(p, front, e, cfg);
      FlagsLatch(p, es, cfg);
      assert es == front + [e];
    }
  }

  lemma OpensSettled(side: Side, price: real, atr: real, level: Option<real>, cfg: Config)
    ensures var p := Opened(side, price, atr, level, cfg);
            !p.exitPending && Settled(p, false, DistOf(p.entryAtr, p.entryAtr, cfg).tp, cfg.targetMode)
  {
  }

  /**
   Trailing should have retired the target: from an opened leg, after any run, there is a target beside
   trailing exactly when the last effective event is a fill.
   */
  lemma TrailingTargetIff(side: Side, price: real, atr: real, level: Option<real>, es: seq<Event>, cfg: Config)
    ensures var q := Run(Opened(side, price, atr, level, cfg), es, cfg);
            q.trailOn ==> (q.tp.Some? <==> FilledLast(side, es))
  {
    OpensSettled(side, price, atr, level, cfg);
    SettledOverLeg(Opened(side, price, atr, level, cfg), es, cfg);
  }

  // ---------------------------------------------------------------- in terms of the configuration

  /** The risk of a leg, its target distance, and the trail distance of a bar. */
  function RiskOf(entryAtr: real, cfg: Config): real {
    if cfg.fixed then cfg.slPoints else cfg.slAtrMult * entryAtr
  }

  function TargetOf(entryAtr: real, cfg: Config): real {
    if cfg.fixed then cfg.tpPoints else cfg.rrRatio * RiskOf(entryAtr, cfg)
  }

  /** The gains that trigger the break-even stop and the trailing stop. */
  function BreakEvenOf(entryAtr: real, cfg: Config): real { cfg.beTriggerPctTp * TargetOf(entryAtr, cfg) }

  function TrailStartOf(entryAtr: real, cfg: Config): real { cfg.trailStartR * RiskOf(entryAtr, cfg) }

  function TrailOf(atr: real, cfg: Config): real {
    if cfg.fixed then cfg.slPoints else cfg.trailAtrMult * atr
  }

  /** A close has gained more than a distance over the entry. */
  predicate Gained(side: Side, entry: real, close: real, d: real) {
    if side == Long then close > entry + d else close < entry - d
  }

  predicate TriggersBreakEven(p: Leg, entry: real, close: real, cfg: Config) {
    cfg.useBreakeven && Gained(p.side, entry, close, BreakEvenOf(p.entryAtr, cfg))
  }

  predicate TriggersTrail(p: Leg, entry: real, close: real, cfg: Config) {
    cfg.useTrailing && Gained(p.side, entry, close, TrailStartOf(p.entryAtr, cfg))
  }

  /** The tightest of some stops: the highest of a long leg, the lowest of a short one. */
  ghost predicate IsTightest(side: Side, stop: real, stops: seq<real>) {
    stop in stops && forall i :: 0 <= i < |stops| ==> if side == Long then stops[i] <= stop else stops[i] >= stop
  }

  /** The stops one bar offers: the old one, the base one, the entry, and the trailing one. */
  function Offered(p: Leg, close: real, risk: real, trail: real, beOn: bool, trailOn: bool): seq<real> {
    [p.stop, if p.side == Long then p.entry - risk else p.entry + risk]
    + (if beOn then [p.entry] else [])
    + (if trailOn then [if p.side == Long then close - trail else close + trail] else [])
  }

  /**
   What an evaluated bar does, exactly: each latch is set when it was or its trigger is passed, and the stop
   is the tightest of those offered.
   */
  lemma BarExactly(p: Leg, close: real, atr: real, exit: bool, cfg: Config)
    requires !p.exitPending
    ensures var q := Step(p, OnBar(close, atr, exit), cfg);
            && (q.beOn <==> p.beOn || TriggersBreakEven(p, p.entry, close, cfg))
            && (q.trailOn <==> p.trailOn || TriggersTrail(p, p.entry, close, cfg))
            && IsTightest(p.side, q.stop,
                          Offered(p, close, RiskOf(p.entryAtr, cfg), TrailOf(atr, cfg), q.beOn, q.trailOn))
            && q.entry == p.entry && q.exitPending == exit
  {
    DistancesAre(p.entryAtr, atr, cfg);
    BarDistances(p, close, DistOf(p.entryAtr, atr, cfg), cfg);
  }

  lemma DistancesAre(entryAtr: real, atr: real, cfg: Config)
    ensures var d := DistOf(entryAtr, atr, cfg);
            && d.r == RiskOf(entryAtr, cfg) && d.tp == TargetOf(entryAtr, cfg) && d.trail == TrailOf(atr, cfg)
            && d.be == BreakEvenOf(entryAtr, cfg) && d.start == TrailStartOf(entryAtr, cfg)
  {
  }

  /** The same for any distances. */
  lemma BarDistances(p: Leg, close: real, d: Dist, cfg: Config)
    ensures var q := Tightened(p, close, d, cfg);
            && (q.beOn <==> p.beOn || (cfg.useBreakeven && Gained(p.side, p.entry, close, d.be)))
            && (q.trailOn <==> p.trailOn || (cfg.useTrailing && Gained(p.side, p.entry, close, d.start)))
            && IsTightest(p.side, q.stop, Offered(p, close, d.r, d.trail, q.beOn, q.trailOn))
            && q.entry == p.entry && q.side == p.side
  {
    var q := Tightened(p, close, d, cfg);
    OfferedAre(p, close, d.r, d.trail, q.beOn, q.trailOn);
  }

  lemma OfferedAre(p: Leg, close: real, risk: real, trail: real, beOn: bool, trailOn: bool)
    ensures var stops := Offered(p, close, risk, trail, beOn, trailOn);
            var base := if p.side == Long then p.entry - risk else p.entry + risk;
            var trailing := if p.side == Long then close - trail else close + trail;
            && p.stop in stops && base in stops && (beOn ==> p.entry in stops) && (trailOn ==> trailing in stops)
            && forall s :: s in stops ==>
                 s == p.stop || s == base || (beOn && s == p.entry) || (trailOn && s == trailing)
  {
    var stops := Offered(p, close, risk, trail, beOn, trailOn);
    assert stops[0] == p.stop && (beOn ==> stops[2] == p.entry);
    assert stops[1] == if p.side == Long then p.entry - risk else p.entry + risk;
    assert trailOn ==> stops[|stops| - 1] == if p.side == Long then close - trail else close + trail;
  }

  lemma {:induction false} EndedIs(p: Leg, es: seq<Event>, cfg: Config)
    ensures Run(p, es, cfg).exitPending == (p.exitPending || Ended(es))
    decreases |es|
  {
    if es != [] {
      var front, e := es[..|es| - 1], es[|es| - 1];
      EndedIs(p, front, cfg);
      RunSnoc(p, front, e, cfg);
      assert es == front + [e];
    }
  }

  /** The bar `i` is evaluated, and closes beyond the trigger seen from the entry of that moment. */
  predicate TrailTriggered(p: Leg, es: seq<Event>, i: nat, cfg: Config) {
    i < |es| && es[i].OnBar? && !Ended(es[..i])
    && TriggersTrail(p, EntryAfter(p.side, p.entry, es[..i]), es[i].close, cfg)
  }

  predicate BreakEvenTriggered(p: Leg, es: seq<Event>, i: nat, cfg: Config) {
    i < |es| && es[i].OnBar? && !Ended(es[..i])
    && TriggersBreakEven(p, EntryAfter(p.side, p.entry, es[..i]), es[i].close, cfg)
  }

  /** One event latches trailing, or break-even, when it is an evaluated bar that triggers it. */
  lemma StepLatches(q: Leg, e: Event, cfg: Config)
    ensures var t := Step(q, e, cfg);
            && (t.trailOn <==> q.trailOn || (e.OnBar? && !q.exitPending && TriggersTrail(q, q.entry, e.close, cfg)))
            && (t.beOn <==> q.beOn || (e.OnBar? && !q.exitPending && TriggersBreakEven(q, q.entry, e.close, cfg)))
  {
    if e.OnBar? && !q.exitPending { BarExactly(q, e.close, e.atr, e.exit, cfg); }
  }

  lemma LatchSnoc(p: Leg, front: seq<Event>, e: Event, cfg: Config)
    requires !p.exitPending
    ensures var q, t := Run(p, front, cfg), Run(p, front + [e], cfg);
            && (t.trailOn <==> q.trailOn || TrailTriggered(p, front + [e], |front|, cfg))
            && (t.beOn <==> q.beOn || BreakEvenTriggered(p, front + [e], |front|, cfg))
  {
    var q := Run(p, front, cfg);
    assert (front + [e])[..|front|] == front;
    RunSnoc(p, front, e, cfg);
    EndedIs(p, front, cfg);
    EntryIs(p, front, cfg);
    FlagsLatch(p, front, cfg);
    StepLatches(q, e, cfg);
    SameTriggers(p, q, q.entry, if e.OnBar? then e.close else 0.0, cfg);
  }

  lemma SameTriggers(p: Leg, q: Leg, entry: real, close: real, cfg: Config)
    requires p.side == q.side && p.entryAtr == q.entryAtr
    ensures TriggersTrail(p, entry, close, cfg) == TriggersTrail(q, entry, close, cfg)
    ensures TriggersBreakEven(p, entry, close, cfg) == TriggersBreakEven(q, entry, close, cfg)
  {
  }

  lemma TriggersInFront(p: Leg, front: seq<Event>, e: Event, i: nat, cfg: Config)
    requires i < |front|
    ensures TrailTriggered(p, front + [e], i, cfg) <==> TrailTriggered(p, front, i, cfg)
    ensures BreakEvenTriggered(p, front + [e], i, cfg) <==> BreakEvenTriggered(p, front, i, cfg)
  {
    assert (front + [e])[i] == front[i] && (front + [e])[..i] == front[..i];
  }

  /** Over any run trailing, and break-even, is latched exactly when an evaluated bar closed beyond its trigger. */
  lemma {:induction false} LatchedIff(p: Leg, es: seq<Event>, cfg: Config)
    requires !p.exitPending
    ensures Run(p, es, cfg).trailOn <==> p.trailOn || exists i :: TrailTriggered(p, es, i, cfg)
    ensures Run(p, es, cfg).beOn <==> p.beOn || exists i :: BreakEvenTriggered(p, es, i, cfg)
    decreases |es|
  {
    if es != [] {
      var front, e := es[..|es| - 1], es[|es| - 1];
      LatchedIff(p, front, cfg);
      LatchSnoc(p, front, e, cfg);
      assert es == front + [e];
      forall i: nat | i < |front|
        ensures TrailTriggered(p, es, i, cfg) <==> TrailTriggered(p, front, i, cfg)
        ensures BreakEvenTriggered(p, es, i, cfg) <==> BreakEvenTriggered(p, front, i, cfg)
      {
        TriggersInFront(p, front, e, i, cfg);
      }
    }
  }

  /**
   Once trailing is latched, the stop is from then on at or beyond the close less the trail distance of every
   bar evaluated since, and at or beyond the entry of such a bar once break-even is latched.
   */
  lemma TrailFollows(p: Leg, es: seq<Event>, i: nat, cfg: Config)
    requires !p.exitPending && TightFills(p, es, cfg)
    requires i < |es| && es[i].OnBar? && !Ended(es[..i])
    ensures var after, q := Run(p, es[..i + 1], cfg), Run(p, es, cfg);
            var trail, entry := TrailOf(es[i].atr, cfg), EntryAfter(p.side, p.entry, es[..i]);
            && (after.trailOn ==>
                if p.side == Long then q.stop >= es[i].close - trail else q.stop <= es[i].close + trail)
            && (after.beOn ==> if p.side == Long then q.stop >= entry else q.stop <= entry)
  {
    var front, e := es[..i], es[i];
    assert es[..i + 1] == front + [e] && es[..|es|] == es;
    RunSnoc(p, front, e, cfg);
    EndedIs(p, front, cfg);
    EntryIs(p, front, cfg);
    FlagsLatch(p, front, cfg);
    StopsNeverRetreat(p, es, i + 1, |es|, cfg);
    BarOffers(Run(p, front, cfg), e.close, e.atr, e.exit, cfg);
  }

  lemma BarOffers(p: Leg, close: real, atr: real, exit: bool, cfg: Config)
    requires !p.exitPending
    ensures var q := Step(p, OnBar(close, atr, exit), cfg);
            && (q.trailOn ==> if p.side == Long then q.stop >= close - TrailOf(atr, cfg)
                              else q.stop <= close + TrailOf(atr, cfg))
            && (q.beOn ==> if p.side == Long then q.stop >= p.entry else q.stop <= p.entry)
  {
    var q := Step(p, OnBar(close, atr, exit), cfg);
    BarExactly(p, close, atr, exit, cfg);
    OfferedAre(p, close, RiskOf(p.entryAtr, cfg), TrailOf(atr, cfg), q.beOn, q.trailOn);
  }

  /**
   A fill takes the trailing stop back exactly when that stop is not positive and the recomputed one lies
   behind it.
   */
  lemma TrailLostIff(p: Leg, close: real, atr: real, px: real, cfg: Config)
    requires !p.exitPending && Step(p, OnBar(close, atr, false), cfg).trailOn
    ensures var q, risk, trail := Step(p, OnBar(close, atr, false), cfg), RiskOf(p.entryAtr, cfg), TrailOf(atr, cfg);
            var t := Step(q, OnFill(p.side, px), cfg);
            && (p.side == Long ==> (t.stop < close - trail <==> q.stop <= 0.0 && px - risk < close - trail))
            && (p.side == Short ==> (t.stop > close + trail <==> q.stop <= 0.0 && px + risk > close + trail))
  {
    var q := Step(p, OnBar(close, atr, false), cfg);
    BarOffers(p, close, atr, false, cfg);
    FillsExactly(q, px, cfg);
    TightestOfTwo(p.side, Step(q, OnFill(p.side, px), cfg).stop, q.stop,
                  if p.side == Long then px - RiskOf(p.entryAtr, cfg) else px + RiskOf(p.entryAtr, cfg));
  }

  lemma TightestOfTwo(side: Side, stop: real, old_: real, base: real)
    ensures IsTightest(side, stop, [base, old_]) ==> if side == Long then stop >= old_ else stop <= old_
  {
    assert [base, old_][1] == old_;
  }

  /** As here: a long leg at a price of zero, with fixed distances, trails at -1/2 and is filled at -5. */
  lemma TrailLost(cfg: Config)
    requires cfg.fixed && cfg.slPoints == 1.0 && cfg.useTrailing && cfg.trailStartR == 0.0 && !cfg.useBreakeven
    ensures var q := Step(Opened(Long, 0.0, 1.0, None, cfg), OnBar(0.5, 1.0, false), cfg);
            q.trailOn && q.stop == -0.5 && Step(q, OnFill(Long, -5.0), cfg).stop == -6.0
  {
  }

  /** The nearest level is used: it is at least the minimum distance away, on either side. */
  predicate FarEnough(price: real, level: Option<real>, atr: real, cfg: Config) {
    level.Some? && cfg.targetMode != FixedRr && var m := cfg.tpMinDistAtr * atr;
    level.value >= price + m || level.value <= price - m
  }

  /** What opening a leg sets, exactly: the stop, the locked level less the buffer, and the target. */
  lemma OpensExactly(side: Side, price: real, atr: real, level: Option<real>, cfg: Config)
    ensures var p := Opened(side, price, atr, level, cfg);
            var risk, buffer := RiskOf(atr, cfg), cfg.tpBufferAtr * atr;
            && p.side == side && p.entry == price && p.entryAtr == atr && !p.beOn && !p.trailOn && !p.exitPending
            && p.stop == (if side == Long then price - risk else price + risk)
            && p.levelTp == (if !FarEnough(price, level, atr, cfg) then None
                             else Some(if side == Long then level.value - buffer else level.value + buffer))
            && p.tp == Some(Aimed(side, price, p.levelTp, TargetOf(atr, cfg), cfg))
  {
    DistancesAre(atr, atr, cfg);
    LevelTargetExactly(side, price, level, atr, cfg, cfg.tpMinDistAtr * atr, cfg.tpBufferAtr * atr);
  }

  /** The target of a leg: its level, but not beyond the multiple of the risk in the capped mode. */
  function Aimed(side: Side, entry: real, levelTp: Option<real>, target: real, cfg: Config): real {
    var multiple := if side == Long then entry + target else entry - target;
    if levelTp.None? then multiple
    else if cfg.targetMode != OpposingCapRr then levelTp.value
    else if side == Long then (if multiple < levelTp.value then multiple else levelTp.value)
    else (if multiple > levelTp.value then multiple else levelTp.value)
  }

  lemma LevelTargetExactly(
    side: Side, price: real, level: Option<real>, atr: real, cfg: Config, m: real, buffer: real)
    requires m == cfg.tpMinDistAtr * atr && buffer == cfg.tpBufferAtr * atr
    ensures LevelTarget(side, price, level, atr, cfg) ==
            if !FarEnough(price, level, atr, cfg) then None
            else Some(if side == Long then level.value - buffer else level.value + buffer)
  {
    if level.Some? {
      FarIff(level.value, price, m);
      assert m == Times(cfg.tpMinDistAtr, atr) && buffer == Times(cfg.tpBufferAtr, atr);
    }
  }

  lemma FarIff(l: real, price: real, m: real)
    ensures (if l < price then price - l else l - price) >= m <==> l >= price + m || l <= price - m
  {
  }

  /** What a fill of the leg's side sets, exactly. */
  lemma FillsExactly(p: Leg, px: real, cfg: Config)
    ensures var q := Step(p, OnFill(p.side, px), cfg);
            var risk, target := RiskOf(p.entryAtr, cfg), TargetOf(p.entryAtr, cfg);
            var base := if p.side == Long then px - risk else px + risk;
            && q.entry == px && q.beOn == p.beOn && q.trailOn == p.trailOn
            && (p.stop > 0.0 ==> IsTightest(p.side, q.stop, [base, p.stop]))
            && (p.stop <= 0.0 ==> q.stop == base)
            && q.tp == Some(if p.levelTp.Some? then p.levelTp.value
                            else if p.side == Long then px + target else px - target)
  {
    DistancesAre(p.entryAtr, p.entryAtr, cfg);
    var q := Step(p, OnFill(p.side, px), cfg);
    var base := if p.side == Long then px - RiskOf(p.entryAtr, cfg) else px + RiskOf(p.entryAtr, cfg);
    assert [base, p.stop][0] == base && [base, p.stop][1] == p.stop;
  }

  // ---------------------------------------------------------------- the opposing level

  /** The level target, when there is one, is a profit. */
  ghost predicate ProfitableOrNone(side: Side, price: real, l: real, atr: real, cfg: Config) {
    var t := LevelTarget(side, price, Some(l), atr, cfg);
    t.Some? ==> Beyond(side, t.value, price)
  }

  lemma LevelTargetIs(side: Side, price: real, l: real, atr: real, cfg: Config, m: real, b: real)
    requires cfg.targetMode != FixedRr && Beyond(side, l, price)
    requires m == Times(cfg.tpMinDistAtr, atr) && b == Times(cfg.tpBufferAtr, atr)
    ensures LevelTarget(side, price, Some(l), atr, cfg) ==
            if AtOrBeyond(side, Against(side, l, m), price) then Some(Against(side, l, b)) else None
  {
  }

  /** Every level ahead of the price gives a profitable target. */
  ghost predicate AllProfitable(side: Side, price: real, atr: real, cfg: Config) {
    forall l: real :: Beyond(side, l, price) ==> ProfitableOrNone(side, price, l, atr, cfg)
  }

  /**
   The level target lies on the profit side for every level ahead of the price exactly when the minimum
   distance exceeds the buffer, or there is no buffer.
   */
  lemma LevelTargetProfitsIff(side: Side, price: real, atr: real, cfg: Config)
    requires cfg.targetMode != FixedRr
    ensures AllProfitable(side, price, atr, cfg) <==>
            Times(cfg.tpMinDistAtr, atr) > Times(cfg.tpBufferAtr, atr) || Times(cfg.tpBufferAtr, atr) <= 0.0
  {
    var m, b := Times(cfg.tpMinDistAtr, atr), Times(cfg.tpBufferAtr, atr);
    if m > b || b <= 0.0 {
      forall l: real | Beyond(side, l, price) ensures ProfitableOrNone(side, price, l, atr, cfg) {
        LevelTargetIs(side, price, l, atr, cfg, m, b);
      }
    } else {
      var l := Toward(side, price, b);
      LevelTargetIs(side, price, l, atr, cfg, m, b);
      assert Beyond(side, l, price) && !ProfitableOrNone(side, price, l, atr, cfg);
    }
  }

  lemma TimesGrows(x: real, y: real, atr: real)
    requires x < y && atr > 0.0
    ensures Times(x, atr) < Times(y, atr)
  {
    assert Times(y, atr) - Times(x, atr) == (y - x) * atr;
  }

  /** With a positive range the two settings decide. */
  lemma MinDistanceGuards(side: Side, price: real, l: real, atr: real, cfg: Config)
    requires cfg.targetMode != FixedRr && atr > 0.0 && cfg.tpMinDistAtr > cfg.tpBufferAtr
    requires Beyond(side, l, price)
    ensures ProfitableOrNone(side, price, l, atr, cfg)
  {
    TimesGrows(cfg.tpBufferAtr, cfg.tpMinDistAtr, atr);
    LevelTargetProfitsIff(side, price, atr, cfg);
  }

  /** The entry price after some events: that of the last fill of the leg's side. */
  function EntryAfter(side: Side, price: real, es: seq<Event>): real
    decreases |es|
  {
    if es == [] then price
    else
      var e := es[|es| - 1];
      if e.OnFill? && e.side == side then e.px else EntryAfter(side, price, es[..|es| - 1])
  }

  lemma {:induction false} EntryIs(p: Leg, es: seq<Event>, cfg: Config)
    ensures Run(p, es, cfg).entry == EntryAfter(p.side, p.entry, es)
    decreases |es|
  {
    if es != [] {
      var front, e := es[..|es| - 1], es[|es| - 1];
      EntryIs(p, front, cfg);
      FlagsLatch(p, front, cfg);
      RunSnoc(p, front, e, cfg);
      assert es == front + [e];
    }
  }

  lemma SettledProfitsIff(q: Leg, filledLast: bool, tp: real, mode: TargetMode)
    requires Settled(q, filledLast, tp, mode) && tp > 0.0 && q.tp.Some?
    ensures Beyond(q.side, q.tp.value, q.entry) <==> (q.levelTp.Some? ==> Beyond(q.side, q.levelTp.value, q.entry))
    ensures mode == OpposingCapRr && !filledLast ==> !Beyond(q.side, q.tp.value, Toward(q.side, q.entry, tp))
  {
  }

  /**
   Over any run of a leg, fills included: while there is a target it lies on the profit side exactly when the
   last fill has not run past the locked level; and unless a fill came last it never lies past the cap.
   */
  lemma TargetProfitsIff(p: Leg, es: seq<Event>, cfg: Config)
    requires !p.exitPending && Settled(p, false, DistOf(p.entryAtr, p.entryAtr, cfg).tp, cfg.targetMode)
    requires DistOf(p.entryAtr, p.entryAtr, cfg).tp > 0.0 && Run(p, es, cfg).tp.Some?
    ensures var q, tp := Run(p, es, cfg), DistOf(p.entryAtr, p.entryAtr, cfg).tp;
            var entry := EntryAfter(p.side, p.entry, es);
            && (Beyond(p.side, q.tp.value, entry) <==> (p.levelTp.Some? ==> Beyond(p.side, p.levelTp.value, entry)))
            && (cfg.targetMode == OpposingCapRr && !FilledLast(p.side, es) ==>
                !Beyond(p.side, q.tp.value, Toward(p.side, entry, tp)))
  {
    var q := Run(p, es, cfg);
    SettledOverLeg(p, es, cfg);
    FlagsLatch(p, es, cfg);
    EntryIs(p, es, cfg);
    SettledProfitsIff(q, FilledLast(p.side, es), DistOf(p.entryAtr, p.entryAtr, cfg).tp, cfg.targetMode);
  }

  /** The level that opening a leg locks, from what the search over the admitted levels found. */
  ghost predicate Locks(all: Levels, side: Side, price: real, level: Option<real>, name: string, cfg: Config) {
    if cfg.targetMode == FixedRr then level.None? else Found(Admitted(all, side, cfg), side, price, level, name)
  }

  lemma LockedLevelAhead(all: Levels, side: Side, price: real, atr: real, level: Option<real>, name: string,
                         cfg: Config)
    requires Locks(all, side, price, level, name, cfg)
    requires cfg.targetMode == FixedRr || (atr > 0.0 && cfg.tpMinDistAtr > cfg.tpBufferAtr)
    ensures var l := LevelTarget(side, price, level, atr, cfg); l.Some? ==> Beyond(side, l.value, price)
  {
    if level.Some? {
      FoundIsAhead(Admitted(all, side, cfg), side, price, level, name);
      MinDistanceGuards(side, price, level.value, atr, cfg);
    }
  }

  /** No fill of the leg's side runs past a level. */
  ghost predicate FillsBefore(side: Side, level: Option<real>, es: seq<Event>) {
    forall i :: 0 <= i < |es| && es[i].OnFill? && es[i].side == side ==>
      level.Some? ==> Beyond(side, level.value, es[i].px)
  }

  lemma {:induction false} EntryBefore(side: Side, price: real, level: Option<real>, es: seq<Event>)
    requires (level.Some? ==> Beyond(side, level.value, price)) && FillsBefore(side, level, es)
    ensures level.Some? ==> Beyond(side, level.value, EntryAfter(side, price, es))
    decreases |es|
  {
    if es != [] {
      var front := es[..|es| - 1];
      assert forall i :: 0 <= i < |front| ==> front[i] == es[i];
      EntryBefore(side, price, level, front);
    }
  }

  /**
   A leg opened from the levels found keeps its target on the profit side, or has it retired, after every run
   in which no fill runs past the locked level; the minimum distance has to exceed the buffer.
   */
  lemma OpenedTargetStaysAhead(all: Levels, side: Side, price: real, atr: real, level: Option<real>, name: string,
                               es: seq<Event>, cfg: Config)
    requires Locks(all, side, price, level, name, cfg) && DistOf(atr, atr, cfg).tp > 0.0
    requires cfg.targetMode == FixedRr || (atr > 0.0 && cfg.tpMinDistAtr > cfg.tpBufferAtr)
    requires FillsBefore(side, LevelTarget(side, price, level, atr, cfg), es)
    ensures var q := Run(Opened(side, price, atr, level, cfg), es, cfg);
            q.tp.Some? ==> Beyond(side, q.tp.value, q.entry)
  {
    var p := Opened(side, price, atr, level, cfg);
    OpensSettled(side, price, atr, level, cfg);
    LockedLevelAhead(all, side, price, atr, level, name, cfg);
    EntryBefore(side, price, p.levelTp, es);
    EntryIs(p, es, cfg);
    if Run(p, es, cfg).tp.Some? {
      TargetProfitsIff(p, es, cfg);
    }
  }

  // ---------------------------------------------------------------- the nearest level

  datatype Level = Level(price: Option<real>, name: string)

  datatype Levels = Levels(
    pdh: Option<real>, pdl: Option<real>, pwh: Option<real>, pwl: Option<real>,
    psessH: Option<real>, psessL: Option<real>, pdc: Option<real>, bulls: seq<GapList.Gap>, bears: seq<GapList.Gap>)

  /** A gap's level: its middle, or its far edge. */
  function GapLevel(g: GapList.Gap, side: Side, ce: bool): Level {
    Level(Some(if ce then g.zone.Mid() else if side == Long then g.zone.top else g.zone.bot), "FVG")
  }

  function GapLevels(gs: seq<GapList.Gap>, side: Side, ce: bool): (r: seq<Level>)
    ensures |r| == |gs| && forall i :: 0 <= i < |gs| ==> r[i] == GapLevel(gs[i], side, ce)
  {
    seq(|gs|, i requires 0 <= i < |gs| => GapLevel(gs[i], side, ce))
  }

  /** The levels the configuration admits, in the order they are considered. */
  function Admitted(ls: Levels, side: Side, cfg: Config): seq<Level> {
    (if cfg.useLevels && cfg.lvPd then [Level(ls.pdh, "PDH"), Level(ls.pdl, "PDL")] else [])
    + (if cfg.useLevels && cfg.lvPw then [Level(ls.pwh, "PWH"), Level(ls.pwl, "PWL")] else [])
    + (if cfg.useLevels && cfg.lvSess then [Level(ls.psessH, "sessH"), Level(ls.psessL, "sessL")] else [])
    + (if cfg.useLevels && cfg.lvPdc then [Level(ls.pdc, "PDC")] else [])
    + (if cfg.tpFvg then GapLevels(ls.bulls, side, cfg.tpFvgCe) + GapLevels(ls.bears, side, cfg.tpFvgCe) else [])
  }

  /** The level a gap offers: its middle, or its top to a long leg and its bottom to a short one. */
  predicate OffersGap(g: GapList.Gap, l: Level, side: Side, ce: bool) {
    l == Level(Some(if ce then (g.zone.top + g.zone.bot) / 2.0 else if side == Long then g.zone.top else g.zone.bot),
               "FVG")
  }

  /** Which levels are admitted, each group by its own setting. */
  lemma AdmittedIff(ls: Levels, side: Side, cfg: Config, l: Level)
    ensures l in Admitted(ls, side, cfg) <==>
            || (cfg.useLevels && cfg.lvPd && (l == Level(ls.pdh, "PDH") || l == Level(ls.pdl, "PDL")))
            || (cfg.useLevels && cfg.lvPw && (l == Level(ls.pwh, "PWH") || l == Level(ls.pwl, "PWL")))
            || (cfg.useLevels && cfg.lvSess && (l == Level(ls.psessH, "sessH") || l == Level(ls.psessL, "sessL")))
            || (cfg.useLevels && cfg.lvPdc && l == Level(ls.pdc, "PDC"))
            || (cfg.tpFvg && exists g :: (g in ls.bulls || g in ls.bears) && OffersGap(g, l, side, cfg.tpFvgCe))
  {
    var a := if cfg.useLevels && cfg.lvPd then [Level(ls.pdh, "PDH"), Level(ls.pdl, "PDL")] else [];
    var b := if cfg.useLevels && cfg.lvPw then [Level(ls.pwh, "PWH"), Level(ls.pwl, "PWL")] else [];
    var c := if cfg.useLevels && cfg.lvSess then [Level(ls.psessH, "sessH"), Level(ls.psessL, "sessL")] else [];
    var d := if cfg.useLevels && cfg.lvPdc then [Level(ls.pdc, "PDC")] else [];
    var e := if cfg.tpFvg then GapLevels(ls.bulls, side, cfg.tpFvgCe) + GapLevels(ls.bears, side, cfg.tpFvgCe) else [];
    InSum(a, b, c, d, e, l);
    InGapLevels(ls.bulls, side, cfg.tpFvgCe, l);
    InGapLevels(ls.bears, side, cfg.tpFvgCe, l);
    var f := GapLevels(ls.bulls, side, cfg.tpFvgCe);
    var g := GapLevels(ls.bears, side, cfg.tpFvgCe);
    InPair(f, g, l);
  }

  lemma InPair(a: seq<Level>, b: seq<Level>, l: Level)
    ensures l in a + b <==> l in a || l in b
  {
  }

  lemma InSum(a: seq<Level>, b: seq<Level>, c: seq<Level>, d: seq<Level>, e: seq<Level>, l: Level)
    ensures l in a + b + c + d + e <==> l in a || l in b || l in c || l in d || l in e
  {
    InPair(a, b, l);
    InPair(a + b, c, l);
    InPair(a + b + c, d, l);
    InPair(a + b + c + d, e, l);
  }

  lemma InGapLevels(gs: seq<GapList.Gap>, side: Side, ce: bool, l: Level)
    ensures l in GapLevels(gs, side, ce) <==> exists g :: g in gs && OffersGap(g, l, side, ce)
  {
    var r := GapLevels(gs, side, ce);
    if l in r {
      var i :| 0 <= i < |r| && r[i] == l;
      assert OffersGap(gs[i], l, side, ce);
    }
    if g :| g in gs && OffersGap(g, l, side, ce) {
      var i :| 0 <= i < |gs| && gs[i] == g;
      assert r[i] == l;
    }
  }

  /** A level strictly ahead of the price. */
  predicate Ahead(l: Level, side: Side, px: real) { l.price.Some? && Beyond(side, l.price.value, px) }

  /** `k` is the first of the nearest levels ahead, among the first `n`. */
  ghost predicate IsNearest(ls: seq<Level>, n: nat, k: int, side: Side, px: real)
    requires n <= |ls|
  {
    && 0 <= k < n && Ahead(ls[k], side, px)
    && (forall i :: 0 <= i < n && Ahead(ls[i], side, px) ==>
          AtOrBeyond(side, ls[i].price.value, ls[k].price.value)
          && (i < k ==> ls[i].price.value != ls[k].price.value))
  }

  /** What a search over levels must yield: none exactly when none is ahead, else the first nearest one. */
  ghost predicate Found(ls: seq<Level>, side: Side, px: real, out: Option<real>, name: string) {
    match out
    case None => forall i :: 0 <= i < |ls| ==> !Ahead(ls[i], side, px)
    case Some(_) => exists k :: IsNearest(ls, |ls|, k, side, px) && out == ls[k].price && name == ls[k].name
  }

  lemma FoundIsAhead(ls: seq<Level>, side: Side, px: real, out: Option<real>, name: string)
    requires Found(ls, side, px, out, name) && out.Some?
    ensures Beyond(side, out.value, px)
  {
  }

  method Nearest(all: Levels, side: Side, px: real, cfg: Config) returns (out: Option<real>, name: string)
    ensures Found(Admitted(all, side, cfg), side, px, out, name)
  {
    out, name := NearestOf(Admitted(all, side, cfg), side, px);
  }

  method NearestOf(ls: seq<Level>, side: Side, px: real) returns (out: Option<real>, name: string)
    ensures Found(ls, side, px, out, name)
  {
    out, name := None, "";
    ghost var k := -1;
    for i := 0 to |ls|
      invariant out.None? ==> forall j :: 0 <= j < i ==> !Ahead(ls[j], side, px)
      invariant out.Some? ==> IsNearest(ls, i, k, side, px) && out == ls[k].price && name == ls[k].name
    {
      if Ahead(ls[i], side, px) && (out.None? || Beyond(side, out.value, ls[i].price.value)) {
        out, name := ls[i].price, ls[i].name;
        k := i;
      }
    }
  }

  // ---------------------------------------------------------------- the strategy's fields

  class Position {
    const cfg: Config
    var dir: int
    var entryPrice: Option<real>
    var entryAtr: Option<real>
    var curStop: Option<real>
    var curTp: Option<real>
    var lvTp: Option<real>
    var rUnit: real
    var beOn: bool
    var trailOn: bool
    var exitPending: bool

    /** A position is open with all of its numbers, or flat with none. */
    predicate Valid()
      reads this
    {
      if dir == 0 then entryPrice.None? && entryAtr.None? && curStop.None? && curTp.None? && lvTp.None?
                       && !beOn && !trailOn && !exitPending
      else dir in {-1, 1} && entryPrice.Some? && entryAtr.Some? && curStop.Some?
    }

    function AsLeg(): Leg
      requires Valid() && dir != 0
      reads this
    {
      Leg(if dir > 0 then Long else Short, entryPrice.value, entryAtr.value, curStop.value, curTp, lvTp,
          beOn, trailOn, exitPending)
    }

    constructor (cfg: Config)
      ensures Valid() && this.cfg == cfg && dir == 0
    {
      this.cfg := cfg;
      dir, rUnit := 0, 0.0;
      entryPrice, entryAtr, curStop, curTp, lvTp := None, None, None, None, None;
      beOn, trailOn, exitPending := false, false, false;
    }

    method ClearPosition()
      modifies this
      ensures Valid() && dir == 0
    {
      dir := 0;
      entryPrice, entryAtr, curStop, curTp, lvTp := None, None, None, None, None;
      beOn, trailOn, exitPending := false, false, false;
    }

    /**
     Opens a leg at an assumed price, replacing whatever leg there was; the level target is locked here.
     The ghost results are what the search found.
     */
    method OpenPosition(side: Side, price: real, atr: real, all: Levels)
      returns (ghost level: Option<real>, ghost name: string)
      modifies this
      ensures Valid() && dir == if side == Long then 1 else -1
      ensures AsLeg() == Opened(side, price, atr, level, cfg) && Locks(all, side, price, level, name, cfg)
    {
      dir := if side == Long then 1 else -1;
      entryPrice, entryAtr := Some(price), Some(atr);
      beOn, trailOn, exitPending := false, false, false;
      rUnit := if cfg.fixed then cfg.slPoints else Times(cfg.slAtrMult, atr);
      var tpDist := if cfg.fixed then cfg.tpPoints else Times(cfg.rrRatio, rUnit);
      level, name := LockLevel(side, price, atr, all);
      curStop := Some(if dir > 0 then price - rUnit else price + rUnit);
      curTp := Some(Target(side, price, lvTp, tpDist, cfg.targetMode));
    }

    method LockLevel(side: Side, price: real, atr: real, all: Levels)
      returns (ghost level: Option<real>, ghost name: string)
      modifies this`lvTp
      ensures lvTp == LevelTarget(side, price, level, atr, cfg) && Locks(all, side, price, level, name, cfg)
    {
      lvTp, level, name := None, None, "";
      if cfg.targetMode != FixedRr {
        var lv, nm := Nearest(all, side, price, cfg);
        if lv.Some? {
          var dist := if lv.value < price then price - lv.value else lv.value - price;
          if dist >= Times(cfg.tpMinDistAtr, atr) {
            lvTp := Some(Against(side, lv.value, Times(cfg.tpBufferAtr, atr)));
          }
        }
        level, name := lv, nm;
      }
    }

    /** The actual fill price arrives; a notification for the other side changes nothing. */
    method NotifyEntryFilled(side: Side, px: real)
      requires Valid()
      modifies this
      ensures Valid() && dir == old(dir)
      ensures dir != 0 ==> AsLeg() == Step(old(AsLeg()), OnFill(side, px), cfg)
      ensures dir == 0 ==> unchanged(this)
    {
      var d := if side == Long then 1 else -1;
      if d != dir {
        return;
      }
      entryPrice := Some(px);
      rUnit := if cfg.fixed then cfg.slPoints else Times(cfg.slAtrMult, entryAtr.value);
      var tpDist := if cfg.fixed then cfg.tpPoints else Times(cfg.rrRatio, rUnit);
      var newStop := if dir > 0 then px - rUnit else px + rUnit;
      if curStop.Some? && curStop.value > 0.0 {
        newStop := Tighter(side, newStop, curStop.value);
      }
      curStop := Some(newStop);
      curTp := if lvTp.Some? then lvTp else Some(if dir > 0 then px + tpDist else px - tpDist);
    }

    /** The exits of one bar after the entry bar. */
    method UpdateExits(close: real, atr: real, marketExit: bool)
      requires Valid()
      modifies this
      ensures Valid() && dir == old(dir)
      ensures dir != 0 ==> AsLeg() == Step(old(AsLeg()), OnBar(close, atr, marketExit), cfg)
      ensures dir == 0 ==> unchanged(this)
    {
      if dir == 0 || exitPending {
        return;
      }
      var side, avg := if dir > 0 then Long else Short, entryPrice.value;
      var d := DistOf(entryAtr.value, atr, cfg);
      rUnit := d.r;
      RatchetStop(side, avg, close, d);
      curTp := if trailOn then None else Some(Target(side, avg, lvTp, d.tp, cfg.targetMode));
      if marketExit {
        exitPending := true;
      }
    }

    /** Latches break-even and trailing, and tightens the stop to what they allow. */
    method RatchetStop(side: Side, avg: real, close: real, d: Dist)
      requires Valid() && dir != 0 && side == AsLeg().side && avg == AsLeg().entry
      modifies this`beOn, this`trailOn, this`curStop
      ensures Valid()
      ensures var q := Tightened(old(AsLeg()), close, d, cfg);
              beOn == q.beOn && trailOn == q.trailOn && curStop == Some(q.stop)
    {
      ghost var q := Tightened(AsLeg(), close, d, cfg);
      var ns := Against(side, avg, d.r);
      if cfg.useBreakeven && (beOn || Beyond(side, close, Toward(side, avg, d.be))) {
        beOn := true;
      }
      if beOn {
        ns := Tighter(side, ns, avg);
      }
      assert beOn == q.beOn;
      assert ns == if beOn then Tighter(side, Against(side, avg, d.r), avg) else Against(side, avg, d.r);
      if cfg.useTrailing && (trailOn || Beyond(side, close, Toward(side, avg, d.start))) {
        trailOn := true;
      }
      if trailOn {
        ns := Tighter(side, ns, Against(side, close, d.trail));
      }
      curStop := Some(Tighter(side, ns, curStop.value));
    }
  }
}
