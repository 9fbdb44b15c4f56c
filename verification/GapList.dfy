/**
 Fair-value gaps: price zones left open between the first and third of three bars. Each side keeps a short
 list that every bar prunes in place; a gap that price comes back to raises one retest.
 */
module GapList {
  import opened Prelude

  datatype Bar = Bar(high: real, low: real, close: real)

  datatype Side = Bull | Bear

  datatype Zone = Zone(top: real, bot: real) {
    function Mid(): real { (top + bot) / 2.0 }
  }

  /** A zone, the index of the bar that formed it, and whether it was retested. */
  datatype Gap = Gap(zone: Zone, bar: nat, used: bool)

  datatype Config = Config(maxKeep: nat, maxBars: int, midInvalidate: bool, minAtr: real, structMode: bool)

  /** The zone between the oldest and the newest of three bars, when it is wide enough. */
  function FormedZone(newest: Bar, oldest: Bar, side: Side, width: real): (z: Option<Zone>)
    ensures z.Some? ==> z.value.top > z.value.bot
  {
    match side
    case Bull =>
      if newest.low > oldest.high && newest.low - oldest.high >= width
      then Some(Zone(newest.low, oldest.high)) else None
    case Bear =>
      if newest.high < oldest.low && oldest.low - newest.high >= width
      then Some(Zone(oldest.low, newest.high)) else None
  }

  predicate Filled(z: Zone, bar: Bar, side: Side, cfg: Config) {
    match side
    case Bull => if cfg.midInvalidate then bar.close < z.Mid() else bar.low <= z.bot
    case Bear => if cfg.midInvalidate then bar.close > z.Mid() else bar.high >= z.top
  }

  /** Price entered the zone from outside and closed on the side the zone supports. */
  predicate Touches(z: Zone, bar: Bar, side: Side) {
    match side
    case Bull => bar.low <= z.top && bar.low > z.bot && bar.close >= z.Mid()
    case Bear => bar.high >= z.bot && bar.high < z.top && bar.close <= z.Mid()
  }

  predicate Dropped(g: Gap, bar: Bar, now: nat, side: Side, cfg: Config) {
    Filled(g.zone, bar, side, cfg) || now - g.bar > cfg.maxBars
  }

  /** The gap raises its retest at this bar. */
  predicate Raises(g: Gap, bar: Bar, now: nat, side: Side, cfg: Config) {
    !Dropped(g, bar, now, side, cfg) && !g.used && now > g.bar && Touches(g.zone, bar, side)
  }

  function Marked(g: Gap, bar: Bar, now: nat, side: Side, cfg: Config): Gap {
    if Raises(g, bar, now, side, cfg) then g.(used := true) else g
  }

  /** One bar's pruning: dropped gaps go, retested ones are marked, the order stays. */
  function Maintained(gs: seq<Gap>, bar: Bar, now: nat, side: Side, cfg: Config): seq<Gap> {
    if gs == [] then []
    else (if Dropped(gs[0], bar, now, side, cfg) then [] else [Marked(gs[0], bar, now, side, cfg)])
         + Maintained(gs[1..], bar, now, side, cfg)
  }

  /** The births of the gaps that raise a retest at this bar, oldest first. */
  function Raised(gs: seq<Gap>, bar: Bar, now: nat, side: Side, cfg: Config): seq<nat> {
    if gs == [] then []
    else (if Raises(gs[0], bar, now, side, cfg) then [gs[0].bar] else [])
         + Raised(gs[1..], bar, now, side, cfg)
  }

  /** The level of the oldest gap that raises a retest. */
  function RetestLevel(gs: seq<Gap>, bar: Bar, now: nat, side: Side, cfg: Config): Option<real> {
    if gs == [] then None
    else if Raises(gs[0], bar, now, side, cfg) then Some(gs[0].zone.Mid())
    else RetestLevel(gs[1..], bar, now, side, cfg)
  }

  /** The newest `keep` of a list. */
  function Newest<T>(xs: seq<T>, keep: nat): seq<T> {
    if |xs| > keep then xs[|xs| - keep..] else xs
  }

  // ---------------------------------------------------------------- runs of one side

  /** A bar and the zone it formed, if any. */
  datatype Tick = Tick(bar: Bar, zone: Option<Zone>)

  ghost predicate WellFormed(ts: seq<Tick>) {
    forall i :: 0 <= i < |ts| ==> ts[i].zone.Some? ==> ts[i].zone.value.top > ts[i].zone.value.bot
  }

  /** The list, and the births of all gaps that ever raised a retest. */
  datatype State = State(gaps: seq<Gap>, raised: seq<nat>)

  function WithNew(gs: seq<Gap>, z: Option<Zone>, now: nat): seq<Gap> {
    if z.Some? then gs + [Gap(z.value, now, false)] else gs
  }

  function Step(s: State, t: Tick, now: nat, side: Side, cfg: Config): State {
    var gs := WithNew(s.gaps, t.zone, now);
    State(Newest(Maintained(gs, t.bar, now, side, cfg), cfg.maxKeep),
          s.raised + Raised(gs, t.bar, now, side, cfg))
  }

  function Run(ts: seq<Tick>, side: Side, cfg: Config): State {
    if ts == [] then State([], [])
    else Step(Run(ts[..|ts| - 1], side, cfg), ts[|ts| - 1], |ts| - 1, side, cfg)
  }

  // ---------------------------------------------------------------- the list against its history

  ghost predicate Ascending(gs: seq<Gap>) {
    forall i, j :: 0 <= i < j < |gs| ==> gs[i].bar < gs[j].bar
  }

  /** No bar since the birth has filled the zone. */
  ghost predicate Unfilled(g: Gap, ts: seq<Tick>, side: Side, cfg: Config) {
    forall j :: g.bar <= j < |ts| ==> !Filled(g.zone, ts[j].bar, side, cfg)
  }

  ghost predicate WasTouched(g: Gap, ts: seq<Tick>, side: Side) {
    exists j :: g.bar < j < |ts| && Touches(g.zone, ts[j].bar, side)
  }

  /** Everything a kept gap says is what the bars since its birth say. */
  ghost predicate TrueGap(g: Gap, ts: seq<Tick>, side: Side, cfg: Config) {
    && g.bar < |ts| && ts[g.bar].zone == Some(g.zone)
    && |ts| - 1 - g.bar <= cfg.maxBars
    && Unfilled(g, ts, side, cfg)
    && (g.used <==> WasTouched(g, ts, side))
  }

  ghost predicate NoDuplicates(xs: seq<nat>) {
    forall i, j :: 0 <= i < j < |xs| ==> xs[i] != xs[j]
  }

  ghost predicate Inv(s: State, ts: seq<Tick>, side: Side, cfg: Config) {
    && Ascending(s.gaps) && |s.gaps| <= cfg.maxKeep
    && (forall i :: 0 <= i < |s.gaps| ==> TrueGap(s.gaps[i], ts, side, cfg))
    && LogAgrees(s.gaps, s.raised) && Logged(s.raised, |ts|)
  }

  ghost predicate LogAgrees(gs: seq<Gap>, raised: seq<nat>) {
    forall i :: 0 <= i < |gs| ==> (gs[i].used <==> gs[i].bar in raised)
  }

  ghost predicate Logged(raised: seq<nat>, now: nat) {
    NoDuplicates(raised) && forall i :: 0 <= i < |raised| ==> raised[i] < now
  }

  // -- what one pruning does

  /** Every gap left is the mark of an undropped one, and every undropped one is left. */
  lemma {:induction false} MaintainedIs(gs: seq<Gap>, bar: Bar, now: nat, side: Side, cfg: Config)
    ensures forall m :: m in Maintained(gs, bar, now, side, cfg) ==>
              exists g :: g in gs && !Dropped(g, bar, now, side, cfg) && m == Marked(g, bar, now, side, cfg)
    ensures forall g :: g in gs && !Dropped(g, bar, now, side, cfg) ==>
              Marked(g, bar, now, side, cfg) in Maintained(gs, bar, now, side, cfg)
  {
    if gs != [] {
      MaintainedIs(gs[1..], bar, now, side, cfg);
      assert gs == [gs[0]] + gs[1..];
    }
  }

  lemma {:induction false} MaintainedLater(gs: seq<Gap>, birth: int, bar: Bar, now: nat, side: Side, cfg: Config)
    requires forall i :: 0 <= i < |gs| ==> gs[i].bar > birth
    ensures forall m :: m in Maintained(gs, bar, now, side, cfg) ==> m.bar > birth
  {
    if gs != [] {
      MaintainedLater(gs[1..], birth, bar, now, side, cfg);
    }
  }

  /** Order is kept. */
  lemma {:induction false} MaintainedAscends(gs: seq<Gap>, bar: Bar, now: nat, side: Side, cfg: Config)
    requires Ascending(gs)
    ensures Ascending(Maintained(gs, bar, now, side, cfg))
  {
    if gs != [] {
      var rest := gs[1..];
      assert Ascending(rest);
      MaintainedAscends(rest, bar, now, side, cfg);
      MaintainedLater(rest, gs[0].bar, bar, now, side, cfg);
      ConsAscending(Marked(gs[0], bar, now, side, cfg), Maintained(rest, bar, now, side, cfg));
    }
  }

  lemma ConsAscending(g: Gap, gs: seq<Gap>)
    requires Ascending(gs) && forall h :: h in gs ==> h.bar > g.bar
    ensures Ascending([g] + gs)
  {
    var hs := [g] + gs;
    forall i, j | 0 <= i < j < |hs| ensures hs[i].bar < hs[j].bar {
      assert hs[j] == gs[j - 1] && gs[j - 1] in gs;
    }
  }

  /** The births logged at one bar are those of the raising gaps. */
  lemma {:induction false} RaisedIs(gs: seq<Gap>, bar: Bar, now: nat, side: Side, cfg: Config)
    ensures forall b :: b in Raised(gs, bar, now, side, cfg) ==>
              exists g :: g in gs && Raises(g, bar, now, side, cfg) && g.bar == b
    ensures forall g :: g in gs && Raises(g, bar, now, side, cfg) ==> g.bar in Raised(gs, bar, now, side, cfg)
  {
    if gs != [] {
      RaisedIs(gs[1..], bar, now, side, cfg);
      assert gs == [gs[0]] + gs[1..];
    }
  }

  /** Each is logged once. */
  lemma {:induction false} RaisedOnce(gs: seq<Gap>, bar: Bar, now: nat, side: Side, cfg: Config)
    requires Ascending(gs)
    ensures NoDuplicates(Raised(gs, bar, now, side, cfg))
  {
    if gs != [] {
      var rest := gs[1..];
      assert Ascending(rest);
      RaisedOnce(rest, bar, now, side, cfg);
      RaisedIs(rest, bar, now, side, cfg);
      var rr := Raised(rest, bar, now, side, cfg);
      forall b | b in rr ensures b > gs[0].bar {
        var h :| h in rest && Raises(h, bar, now, side, cfg) && h.bar == b;
        var k :| 0 <= k < |rest| && rest[k] == h;
        assert gs[k + 1] == h;
      }
      ConsDistinct(gs[0].bar, rr);
    }
  }

  lemma ConsDistinct(x: nat, xs: seq<nat>)
    requires NoDuplicates(xs) && x !in xs
    ensures NoDuplicates([x] + xs)
  {
    var ys := [x] + xs;
    forall i, j | 0 <= i < j < |ys| ensures ys[i] != ys[j] {
      assert ys[j] == xs[j - 1] && ys[j] in xs;
    }
  }

  lemma SameBirth(gs: seq<Gap>, g: Gap, h: Gap)
    requires Ascending(gs) && g in gs && h in gs && g.bar == h.bar
    ensures g == h
  {
    var i :| 0 <= i < |gs| && gs[i] == g;
    var j :| 0 <= j < |gs| && gs[j] == h;
    assert i == j;
  }

  // -- the step

  /** A gap that one more bar leaves in place still tells the truth. */
  lemma StaysTrue(g: Gap, ts: seq<Tick>, t: Tick, side: Side, cfg: Config)
    requires TrueGap(g, ts, side, cfg) && !Dropped(g, t.bar, |ts|, side, cfg)
    ensures TrueGap(Marked(g, t.bar, |ts|, side, cfg), ts + [t], side, cfg)
  {
    var us := ts + [t];
    forall j | g.bar <= j < |us| ensures !Filled(g.zone, us[j].bar, side, cfg) {
      assert j < |ts| ==> us[j] == ts[j];
    }
    if WasTouched(g, ts, side) {
      var j :| g.bar < j < |ts| && Touches(g.zone, ts[j].bar, side);
      assert us[j] == ts[j];
    } else if Touches(g.zone, t.bar, side) {
      assert us[|ts|] == t;
      assert Raises(g, t.bar, |ts|, side, cfg);
    } else {
      forall j | g.bar < j < |us| ensures !Touches(g.zone, us[j].bar, side) {
        assert j < |ts| ==> us[j] == ts[j];
      }
    }
  }

  /** So does one born at that bar. */
  lemma BornTrue(ts: seq<Tick>, t: Tick, side: Side, cfg: Config)
    requires t.zone.Some?
    ensures var g := Gap(t.zone.value, |ts|, false);
            !Dropped(g, t.bar, |ts|, side, cfg) ==>
            TrueGap(Marked(g, t.bar, |ts|, side, cfg), ts + [t], side, cfg)
  {
  }

  lemma KeptAreTrue(s: State, ts: seq<Tick>, t: Tick, side: Side, cfg: Config)
    requires Inv(s, ts, side, cfg)
    ensures var gs := WithNew(s.gaps, t.zone, |ts|);
            && Ascending(gs)
            && forall m :: m in Maintained(gs, t.bar, |ts|, side, cfg) ==> TrueGap(m, ts + [t], side, cfg)
  {
    var gs, n := WithNew(s.gaps, t.zone, |ts|), |ts|;
    assert Ascending(gs);
    MaintainedIs(gs, t.bar, n, side, cfg);
    forall m | m in Maintained(gs, t.bar, n, side, cfg) ensures TrueGap(m, ts + [t], side, cfg) {
      var g :| g in gs && !Dropped(g, t.bar, n, side, cfg) && m == Marked(g, t.bar, n, side, cfg);
      if g in s.gaps {
        StaysTrue(g, ts, t, side, cfg);
      } else {
        BornTrue(ts, t, side, cfg);
      }
    }
  }

  /** The log gains exactly the births of the gaps that turn used, none of which it held. */
  lemma LogGrows(s: State, t: Tick, now: nat, side: Side, cfg: Config)
    requires Ascending(s.gaps) && LogAgrees(s.gaps, s.raised) && Logged(s.raised, now)
    requires forall i :: 0 <= i < |s.gaps| ==> s.gaps[i].bar < now
    ensures var gs := WithNew(s.gaps, t.zone, now);
            var log := s.raised + Raised(gs, t.bar, now, side, cfg);
            Ascending(gs) && Logged(log, now + 1) && LogAgrees(Maintained(gs, t.bar, now, side, cfg), log)
  {
    var gs := WithNew(s.gaps, t.zone, now);
    assert Ascending(gs);
    var rs := Raised(gs, t.bar, now, side, cfg);
    RaisedIs(gs, t.bar, now, side, cfg);
    RaisedOnce(gs, t.bar, now, side, cfg);
    assert LogAgrees(gs, s.raised);
    LogStaysSingle(s.raised, rs, gs, t, now, side, cfg);
    LogMatchesMarks(gs, s.raised, rs, t, now, side, cfg);
  }

  lemma LogMatchesMarks(gs: seq<Gap>, raised: seq<nat>, rs: seq<nat>, t: Tick, now: nat, side: Side, cfg: Config)
    requires Ascending(gs) && LogAgrees(gs, raised) && rs == Raised(gs, t.bar, now, side, cfg)
    ensures LogAgrees(Maintained(gs, t.bar, now, side, cfg), raised + rs)
  {
    var ms := Maintained(gs, t.bar, now, side, cfg);
    MaintainedIs(gs, t.bar, now, side, cfg);
    forall i | 0 <= i < |ms| ensures ms[i].used <==> ms[i].bar in raised + rs {
      assert ms[i] in ms;
      var g :| g in gs && !Dropped(g, t.bar, now, side, cfg) && ms[i] == Marked(g, t.bar, now, side, cfg);
      LoggedIff(gs, g, t, now, side, cfg);
    }
  }

  lemma LoggedIff(gs: seq<Gap>, g: Gap, t: Tick, now: nat, side: Side, cfg: Config)
    requires Ascending(gs) && g in gs
    ensures g.bar in Raised(gs, t.bar, now, side, cfg) <==> Raises(g, t.bar, now, side, cfg)
  {
    RaisedIs(gs, t.bar, now, side, cfg);
    if g.bar in Raised(gs, t.bar, now, side, cfg) {
      var h :| h in gs && Raises(h, t.bar, now, side, cfg) && h.bar == g.bar;
      SameBirth(gs, g, h);
    }
  }

  lemma LogStaysSingle(raised: seq<nat>, rs: seq<nat>, gs: seq<Gap>, t: Tick, now: nat, side: Side, cfg: Config)
    requires Logged(raised, now) && NoDuplicates(rs) && LogAgrees(gs, raised)
    requires forall b :: b in rs ==> exists g :: g in gs && Raises(g, t.bar, now, side, cfg) && g.bar == b
    ensures Logged(raised + rs, now + 1)
  {
    forall k | 0 <= k < |rs| ensures rs[k] !in raised && rs[k] < now {
      assert rs[k] in rs;
      var g :| g in gs && Raises(g, t.bar, now, side, cfg) && g.bar == rs[k];
    }
    var log := raised + rs;
    forall i, j | 0 <= i < j < |log| ensures log[i] != log[j] {
      if i < |raised| <= j {
        assert log[i] in raised && log[j] == rs[j - |raised|];
      }
    }
  }

  lemma NewestOf(gs: seq<Gap>, keep: nat)
    ensures |Newest(gs, keep)| <= keep
    ensures forall g :: g in Newest(gs, keep) ==> g in gs
    ensures Ascending(gs) ==> Ascending(Newest(gs, keep))
  {
  }

  lemma StepKeepsInv(s: State, ts: seq<Tick>, t: Tick, side: Side, cfg: Config)
    requires Inv(s, ts, side, cfg)
    ensures Inv(Step(s, t, |ts|, side, cfg), ts + [t], side, cfg)
  {
    var gs := WithNew(s.gaps, t.zone, |ts|);
    var ms := Maintained(gs, t.bar, |ts|, side, cfg);
    KeptAreTrue(s, ts, t, side, cfg);
    LogGrows(s, t, |ts|, side, cfg);
    MaintainedAscends(gs, t.bar, |ts|, side, cfg);
    NewestOf(ms, cfg.maxKeep);
  }

  /**
   After every bar each side holds at most `maxKeep` gaps with strictly increasing births; each is a zone
   its birth bar formed, not too old, never filled since, and used exactly when a later bar touched it; and
   no gap ever raised two retests.
   */
  lemma {:induction false} GapHistory(ts: seq<Tick>, side: Side, cfg: Config)
    ensures Inv(Run(ts, side, cfg), ts, side, cfg)
  {
    if ts != [] {
      var front := ts[..|ts| - 1];
      GapHistory(front, side, cfg);
      StepKeepsInv(Run(front, side, cfg), front, ts[|ts| - 1], side, cfg);
      assert ts == front + [ts[|ts| - 1]];
    }
  }

  /** With mid-invalidation off, every low since a bull gap's birth stayed above its bottom, and mirrored. */
  lemma PriceNeverCrossed(ts: seq<Tick>, side: Side, cfg: Config, i: nat, j: nat)
    requires WellFormed(ts) && i < |Run(ts, side, cfg).gaps|
    requires Run(ts, side, cfg).gaps[i].bar <= j < |ts|
    ensures var z := Run(ts, side, cfg).gaps[i].zone;
            && z.top > z.bot
            && (!cfg.midInvalidate && side == Bull ==> ts[j].bar.low > z.bot)
            && (!cfg.midInvalidate && side == Bear ==> ts[j].bar.high < z.top)
            && (cfg.midInvalidate && side == Bull ==> ts[j].bar.close >= (z.top + z.bot) / 2.0)
            && (cfg.midInvalidate && side == Bear ==> ts[j].bar.close <= (z.top + z.bot) / 2.0)
  {
    GapHistory(ts, side, cfg);
    assert TrueGap(Run(ts, side, cfg).gaps[i], ts, side, cfg);
  }

  /** How many undropped gaps are newer than a given birth. */
  function NewerKept(ms: seq<Gap>, birth: nat): nat {
    if ms == [] then 0 else (if ms[0].bar > birth then 1 else 0) + NewerKept(ms[1..], birth)
  }

  lemma {:induction false} NewerKeptAt(ms: seq<Gap>, i: nat)
    requires Ascending(ms) && i < |ms|
    ensures NewerKept(ms, ms[i].bar) == |ms| - 1 - i
  {
    if i > 0 {
      assert Ascending(ms[1..]);
      NewerKeptAt(ms[1..], i - 1);
    } else {
      AllNewer(ms[1..], ms[0].bar);
    }
  }

  lemma {:induction false} AllNewer(ms: seq<Gap>, birth: nat)
    requires forall i :: 0 <= i < |ms| ==> ms[i].bar > birth
    ensures NewerKept(ms, birth) == |ms|
  {
    if ms != [] {
      AllNewer(ms[1..], birth);
    }
  }

  /** A bar fills a zone: it closes beyond the middle, or trades through to the far edge. */
  predicate Fills(z: Zone, bar: Bar, side: Side, byClose: bool) {
    var mid := (z.top + z.bot) / 2.0;
    if byClose then (if side == Bull then bar.close < mid else bar.close > mid)
    else if side == Bull then bar.low <= z.bot else bar.high >= z.top
  }

  /** A bar comes back into the zone from outside, without passing through it, and closes on its half. */
  predicate Retests(z: Zone, bar: Bar, side: Side) {
    if side == Bull then z.bot < bar.low <= z.top && bar.close >= (z.top + z.bot) / 2.0
    else z.bot <= bar.high < z.top && bar.close <= (z.top + z.bot) / 2.0
  }

  lemma DroppedIff(g: Gap, bar: Bar, now: nat, side: Side, cfg: Config)
    ensures Dropped(g, bar, now, side, cfg) <==>
            Fills(g.zone, bar, side, cfg.midInvalidate) || now > g.bar + cfg.maxBars
  {
  }

  lemma MarkedIs(g: Gap, bar: Bar, now: nat, side: Side, cfg: Config)
    requires !Dropped(g, bar, now, side, cfg)
    ensures Marked(g, bar, now, side, cfg) == g.(used := g.used || (now > g.bar && Retests(g.zone, bar, side)))
  {
  }

  /**
   Nothing else removes a gap: with its mark it stays exactly when the bar does not fill it, it is not too old
   and fewer than `maxKeep` newer ones stay.
   */
  lemma StaysIff(ts: seq<Tick>, t: Tick, side: Side, cfg: Config, g: Gap)
    requires g in WithNew(Run(ts, side, cfg).gaps, t.zone, |ts|)
    ensures var gs := WithNew(Run(ts, side, cfg).gaps, t.zone, |ts|);
            var ms := Maintained(gs, t.bar, |ts|, side, cfg);
            var kept := g.(used := g.used || (|ts| > g.bar && Retests(g.zone, t.bar, side)));
            kept in Run(ts + [t], side, cfg).gaps <==>
            && !Fills(g.zone, t.bar, side, cfg.midInvalidate) && |ts| <= g.bar + cfg.maxBars
            && NewerKept(ms, g.bar) < cfg.maxKeep
  {
    var n, s := |ts|, Run(ts, side, cfg);
    var gs := WithNew(s.gaps, t.zone, n);
    var ms, m := Maintained(gs, t.bar, n, side, cfg), Marked(g, t.bar, n, side, cfg);
    DroppedIff(g, t.bar, n, side, cfg);
    GapHistory(ts, side, cfg);
    KeptAreTrue(s, ts, t, side, cfg);
    MaintainedAscends(gs, t.bar, n, side, cfg);
    RunAdvances(ts, t, side, cfg);
    MarkedInIff(gs, g, t.bar, n, side, cfg);
    if m in ms {
      InNewestIff(ms, m, cfg.maxKeep);
    } else {
      NewestOf(ms, cfg.maxKeep);
    }
  }

  lemma MarkedInIff(gs: seq<Gap>, g: Gap, bar: Bar, now: nat, side: Side, cfg: Config)
    requires Ascending(gs) && g in gs
    ensures Marked(g, bar, now, side, cfg) in Maintained(gs, bar, now, side, cfg) <==> !Dropped(g, bar, now, side, cfg)
  {
    MaintainedIs(gs, bar, now, side, cfg);
    var m := Marked(g, bar, now, side, cfg);
    if m in Maintained(gs, bar, now, side, cfg) {
      var h :| h in gs && !Dropped(h, bar, now, side, cfg) && m == Marked(h, bar, now, side, cfg);
      SameBirth(gs, g, h);
    }
  }

  lemma InNewestIff(ms: seq<Gap>, m: Gap, keep: nat)
    requires Ascending(ms) && m in ms
    ensures m in Newest(ms, keep) <==> NewerKept(ms, m.bar) < keep
  {
    var i :| 0 <= i < |ms| && ms[i] == m;
    NewerKeptAt(ms, i);
    InSuffixIff(ms, i, if |ms| > keep then |ms| - keep else 0);
  }

  lemma InSuffixIff(ms: seq<Gap>, i: nat, d: nat)
    requires Ascending(ms) && i < |ms| && d <= |ms|
    ensures ms[i] in ms[d..] <==> i >= d
  {
    if i >= d {
      assert ms[d..][i - d] == ms[i];
    } else {
      forall h | h in ms[d..] ensures h.bar > ms[i].bar {
        var k :| 0 <= k < |ms[d..]| && ms[d..][k] == h;
        assert ms[d + k] == h;
      }
    }
  }

  // ---------------------------------------------------------------- the engine

  const HIST_MAX: nat := 4096

  /** What the structure timeframe offers at a bar: whether it rolled over, its kept bars, its range. */
  datatype Structure = Structure(rolled: bool, done: seq<Bar>, atr: Option<real>)

  /** The zone formed at the newest of `hist`, or of the completed structure bars. */
  function ZoneAt(hist: seq<Bar>, atr: real, st: Structure, side: Side, cfg: Config): (z: Option<Zone>)
    requires hist != []
    ensures z.Some? ==> z.value.top > z.value.bot
  {
    if !cfg.structMode then
      if |hist| >= 3 then FormedZone(hist[|hist| - 1], hist[|hist| - 3], side, cfg.minAtr * atr) else None
    else if st.rolled && |st.done| >= 3 && st.atr.Some? then
      FormedZone(st.done[|st.done| - 1], st.done[|st.done| - 3], side, cfg.minAtr * st.atr.value)
    else None
  }

  lemma {:induction false} PrunedSuffix(a: seq<Gap>, i: nat, bar: Bar, now: nat, side: Side, cfg: Config)
    requires i < |a|
    ensures Maintained(a[i..], bar, now, side, cfg) ==
            (if Dropped(a[i], bar, now, side, cfg) then [] else [Marked(a[i], bar, now, side, cfg)])
            + Maintained(a[i + 1..], bar, now, side, cfg)
    ensures RetestLevel(a[i..], bar, now, side, cfg) ==
            if Raises(a[i], bar, now, side, cfg) then Some(a[i].zone.Mid())
            else RetestLevel(a[i + 1..], bar, now, side, cfg)
  {
    assert a[i..][0] == a[i] && a[i..][1..] == a[i + 1..];
  }

  lemma KeepNewest<T>(xs: seq<T>, x: T, keep: nat)
    requires keep > 0
    ensures Newest(Newest(xs, keep) + [x], keep) == Newest(xs + [x], keep)
  {
  }

  lemma RunAdvances(ts: seq<Tick>, t: Tick, side: Side, cfg: Config)
    ensures Run(ts + [t], side, cfg).gaps ==
            Newest(Maintained(WithNew(Run(ts, side, cfg).gaps, t.zone, |ts|), t.bar, |ts|, side, cfg), cfg.maxKeep)
  {
    assert (ts + [t])[..|ts|] == ts;
  }

  lemma Around(was: seq<Gap>, i: nat, tail: seq<Gap>)
    requires i < |was|
    ensures var r := was[..i + 1] + tail;
            && r[i] == was[i] && r[..i] == was[..i] && r[i + 1..] == tail
            && r == was[..i] + ([was[i]] + tail)
            && (forall g :: was[..i] + [g] + tail == was[..i] + ([g] + tail))
  {
  }

  /** One bar as the engine is given it. */
  datatype Input = Input(bar: Bar, atr: real, st: Structure)

  /** The bars the engine still holds after some inputs. */
  function Held(inputs: seq<Input>): seq<Bar> { Newest(InputBars(inputs), HIST_MAX) }

  function InputBars(inputs: seq<Input>): (bs: seq<Bar>)
    ensures |bs| == |inputs|
  {
    if inputs == [] then [] else InputBars(inputs[..|inputs| - 1]) + [inputs[|inputs| - 1].bar]
  }

  /** The bars with the zones they formed. */
  function Ticks(inputs: seq<Input>, side: Side, cfg: Config): (ts: seq<Tick>)
    ensures |ts| == |inputs|
  {
    if inputs == [] then []
    else
      var i := inputs[|inputs| - 1];
      Ticks(inputs[..|inputs| - 1], side, cfg) + [Tick(i.bar, ZoneAt(Held(inputs), i.atr, i.st, side, cfg))]
  }

  lemma HeldAdvances(inputs: seq<Input>, i: Input)
    ensures Newest(Held(inputs) + [i.bar], HIST_MAX) == Held(inputs + [i])
  {
    assert (inputs + [i])[..|inputs|] == inputs;
    KeepNewest(InputBars(inputs), i.bar, HIST_MAX);
  }

  lemma TicksSnoc(inputs: seq<Input>, i: Input, side: Side, cfg: Config)
    ensures Ticks(inputs + [i], side, cfg) ==
            Ticks(inputs, side, cfg) + [Tick(i.bar, ZoneAt(Held(inputs + [i]), i.atr, i.st, side, cfg))]
  {
    assert (inputs + [i])[..|inputs|] == inputs;
  }

  lemma {:induction false} InputBarAt(inputs: seq<Input>, k: nat)
    requires k < |inputs|
    ensures InputBars(inputs)[k] == inputs[k].bar
  {
    if k < |inputs| - 1 { InputBarAt(inputs[..|inputs| - 1], k); }
  }

  lemma {:induction false} TickAt(inputs: seq<Input>, k: nat, side: Side, cfg: Config)
    requires k < |inputs|
    ensures var i := inputs[k];
            Ticks(inputs, side, cfg)[k] == Tick(i.bar, ZoneAt(Held(inputs[..k + 1]), i.atr, i.st, side, cfg))
  {
    if k < |inputs| - 1 {
      TickAt(inputs[..|inputs| - 1], k, side, cfg);
      assert inputs[..|inputs| - 1][..k + 1] == inputs[..k + 1];
    } else {
      assert inputs[..k + 1] == inputs;
    }
  }

  /** The newest held bar is the last one given; two before it stands the one given two bars earlier. */
  lemma HeldTail(inputs: seq<Input>)
    requires inputs != []
    ensures var h, n := Held(inputs), |inputs|;
            && h != [] && h[|h| - 1] == inputs[n - 1].bar && (|h| >= 3 <==> n >= 3)
            && (n >= 3 ==> h[|h| - 3] == inputs[n - 3].bar)
  {
    InputBarAt(inputs, |inputs| - 1);
    if |inputs| >= 3 { InputBarAt(inputs, |inputs| - 3); }
  }

  /** A zone is what two bars leave open between them, at least `width` wide. */
  predicate Opens(z: Zone, newest: Bar, oldest: Bar, width: real, side: Side) {
    && z.top > z.bot && z.top - z.bot >= width
    && (if side == Bull then z.top == newest.low && z.bot == oldest.high
        else z.top == oldest.low && z.bot == newest.high)
  }

  lemma FormedIff(newest: Bar, oldest: Bar, side: Side, width: real, z: Zone)
    ensures FormedZone(newest, oldest, side, width) == Some(z) <==> Opens(z, newest, oldest, width, side)
  {
  }

  /** The structure bars at a roll-over leave the zone open. */
  predicate OpensInStructure(z: Zone, st: Structure, side: Side, cfg: Config) {
    st.rolled && |st.done| >= 3 && st.atr.Some?
    && Opens(z, st.done[|st.done| - 1], st.done[|st.done| - 3], cfg.minAtr * st.atr.value, side)
  }

  lemma ChartZone(hist: seq<Bar>, atr: real, st: Structure, side: Side, cfg: Config, z: Zone)
    requires hist != [] && !cfg.structMode
    ensures ZoneAt(hist, atr, st, side, cfg) == Some(z) <==>
            |hist| >= 3 && Opens(z, hist[|hist| - 1], hist[|hist| - 3], cfg.minAtr * atr, side)
  {
    if |hist| >= 3 { FormedIff(hist[|hist| - 1], hist[|hist| - 3], side, cfg.minAtr * atr, z); }
  }

  lemma StructureZone(hist: seq<Bar>, atr: real, st: Structure, side: Side, cfg: Config, z: Zone)
    requires hist != [] && cfg.structMode
    ensures ZoneAt(hist, atr, st, side, cfg) == Some(z) <==> OpensInStructure(z, st, side, cfg)
  {
    if |st.done| >= 3 && st.atr.Some? {
      FormedIff(st.done[|st.done| - 1], st.done[|st.done| - 3], side, cfg.minAtr * st.atr.value, z);
    }
  }

  /** What bar `b` must be to form a zone: with the bar two before it, or by the structure bars. */
  predicate Forms(inputs: seq<Input>, b: nat, z: Zone, side: Side, cfg: Config)
    requires b < |inputs|
  {
    if cfg.structMode then OpensInStructure(z, inputs[b].st, side, cfg)
    else b >= 2 && Opens(z, inputs[b].bar, inputs[b - 2].bar, cfg.minAtr * inputs[b].atr, side)
  }

  lemma FormsIff(inputs: seq<Input>, b: nat, z: Zone, side: Side, cfg: Config)
    requires b < |inputs|
    ensures Ticks(inputs, side, cfg)[b].zone == Some(z) <==> Forms(inputs, b, z, side, cfg)
  {
    var i, h := inputs[b], Held(inputs[..b + 1]);
    TickAt(inputs, b, side, cfg);
    HeldTail(inputs[..b + 1]);
    if cfg.structMode {
      StructureZone(h, i.atr, i.st, side, cfg, z);
    } else {
      ChartZone(h, i.atr, i.st, side, cfg, z);
    }
  }

  /**
   Every gap the engine keeps, after any inputs, was left open by the bars at its birth, and is used exactly
   when a bar after its birth retested it.
   */
  lemma GapOrigin(inputs: seq<Input>, side: Side, cfg: Config, g: Gap)
    requires g in Run(Ticks(inputs, side, cfg), side, cfg).gaps
    ensures g.bar < |inputs| && |inputs| - 1 - g.bar <= cfg.maxBars
    ensures Forms(inputs, g.bar, g.zone, side, cfg)
    ensures g.used <==> exists j :: g.bar < j < |inputs| && Retests(g.zone, inputs[j].bar, side)
  {
    var ts := Ticks(inputs, side, cfg);
    GapHistory(ts, side, cfg);
    var i :| 0 <= i < |Run(ts, side, cfg).gaps| && Run(ts, side, cfg).gaps[i] == g;
    assert TrueGap(g, ts, side, cfg);
    FormsIff(inputs, g.bar, g.zone, side, cfg);
    TouchedIff(inputs, g, side, cfg);
  }

  lemma TouchedIff(inputs: seq<Input>, g: Gap, side: Side, cfg: Config)
    ensures WasTouched(g, Ticks(inputs, side, cfg), side) <==>
            exists j :: g.bar < j < |inputs| && Retests(g.zone, inputs[j].bar, side)
  {
    var ts := Ticks(inputs, side, cfg);
    forall j | g.bar < j < |inputs|
      ensures Retests(g.zone, inputs[j].bar, side) <==> Touches(g.zone, ts[j].bar, side)
    {
      TickAt(inputs, j, side, cfg);
      RetestsIff(g.zone, inputs[j].bar, side);
    }
  }

  lemma RetestsIff(z: Zone, bar: Bar, side: Side)
    ensures Retests(z, bar, side) <==> Touches(z, bar, side)
  {
  }

  /** The engine's zones are never empty. */
  lemma ZonesAreOpen(inputs: seq<Input>, side: Side, cfg: Config)
    ensures WellFormed(Ticks(inputs, side, cfg))
  {
    var ts := Ticks(inputs, side, cfg);
    forall i | 0 <= i < |ts| ensures ts[i].zone.Some? ==> ts[i].zone.value.top > ts[i].zone.value.bot {
      TickAt(inputs, i, side, cfg);
    }
  }

  /** One side of the engine; the source keeps both sides' lists in one object and feeds them the same bars. */
  class GapEngine {
    const side: Side
    const cfg: Config
    var hist: seq<Bar>
    var barIndex: int
    var gaps: seq<Gap>
    var retest: Option<real>
    ghost var inputs: seq<Input>

    ghost predicate Valid()
      reads this
    {
      && barIndex == |inputs| - 1
      && hist == Held(inputs)
      && gaps == Run(Ticks(inputs, side, cfg), side, cfg).gaps
    }

    constructor (side: Side, cfg: Config)
      ensures Valid() && this.side == side && this.cfg == cfg && inputs == []
    {
      this.side, this.cfg := side, cfg;
      hist, barIndex, gaps, retest, inputs := [], -1, [], None, [];
    }

    /** One completed bar. The retest level is that of the oldest gap retested, if any. */
    method OnBar(bar: Bar, atr: real, st: Structure)
      requires Valid()
      modifies this
      ensures Valid() && inputs == old(inputs) + [Input(bar, atr, st)]
      ensures var n, t := |old(inputs)|, Ticks(inputs, side, cfg)[|old(inputs)|];
              retest == RetestLevel(WithNew(old(gaps), t.zone, n), bar, n, side, cfg)
    {
      ghost var input, was := Input(bar, atr, st), Ticks(inputs, side, cfg);
      barIndex := barIndex + 1;
      HeldAdvances(inputs, input);
      PushBar(bar);
      TicksSnoc(inputs, input, side, cfg);
      var z := ZoneAt(hist, atr, st, side, cfg);
      inputs := inputs + [input];
      RunAdvances(was, Tick(bar, z), side, cfg);
      UpdateGaps(bar, z);
    }

    /** The new zone, the pruning, the cap. */
    method UpdateGaps(bar: Bar, z: Option<Zone>)
      requires barIndex >= 0
      modifies this`gaps, this`retest
      ensures gaps == Newest(Maintained(WithNew(old(gaps), z, barIndex), bar, barIndex, side, cfg), cfg.maxKeep)
      ensures retest == RetestLevel(WithNew(old(gaps), z, barIndex), bar, barIndex, side, cfg)
    {
      if z.Some? {
        gaps := gaps + [Gap(z.value, barIndex, false)];
      }
      assert gaps == WithNew(old(gaps), z, barIndex);
      Maintain(bar);
      Trim();
    }

    method PushBar(bar: Bar)
      requires |hist| <= HIST_MAX
      modifies this`hist
      ensures hist == Newest(old(hist) + [bar], HIST_MAX) != [] && hist[|hist| - 1] == bar
    {
      hist := hist + [bar];
      if |hist| > HIST_MAX {
        hist := hist[1..];
      }
    }

    method Trim()
      modifies this`gaps
      ensures gaps == Newest(old(gaps), cfg.maxKeep)
    {
      ghost var k := 0;
      while |gaps| > cfg.maxKeep
        invariant 0 <= k <= |old(gaps)| && gaps == old(gaps)[k..]
        invariant k == 0 || |gaps| >= cfg.maxKeep
      {
        gaps := gaps[1..];
        k := k + 1;
      }
    }

    /** Prunes from the newest gap to the oldest, erasing in place; the last level written is the oldest's. */
    method Maintain(bar: Bar)
      requires barIndex >= 0
      modifies this`gaps, this`retest
      ensures gaps == Maintained(old(gaps), bar, barIndex, side, cfg)
      ensures retest == RetestLevel(old(gaps), bar, barIndex, side, cfg)
    {
      ghost var was, now := gaps, barIndex;
      retest := None;
      var i := |gaps| - 1;
      while i >= 0
        invariant -1 <= i < |was|
        invariant gaps == was[..i + 1] + Maintained(was[i + 1..], bar, now, side, cfg)
        invariant retest == RetestLevel(was[i + 1..], bar, now, side, cfg)
      {
        ghost var tail := Maintained(was[i + 1..], bar, now, side, cfg);
        Around(was, i, tail);
        PrunedSuffix(was, i, bar, now, side, cfg);
        var g := gaps[i];
        if Filled(g.zone, bar, side, cfg) || barIndex - g.bar > cfg.maxBars {
          gaps := gaps[..i] + gaps[i + 1..];
        } else if !g.used && barIndex > g.bar && Touches(g.zone, bar, side) {
          gaps := gaps[..i] + [g.(used := true)] + gaps[i + 1..];
          retest := Some(g.zone.Mid());
        }
        i := i - 1;
      }
      assert was[0..] == was;
    }
  }

  /** Gap `i` is the oldest that raises. */
  ghost predicate Oldest(gs: seq<Gap>, i: nat, bar: Bar, now: nat, side: Side, cfg: Config) {
    i < |gs| && Raises(gs[i], bar, now, side, cfg) && forall k :: 0 <= k < i ==> !Raises(gs[k], bar, now, side, cfg)
  }

  /** A side's retest flag is up exactly when some gap raised, and the level is the oldest such gap's. */
  lemma {:induction false} LevelIsOldest(gs: seq<Gap>, bar: Bar, now: nat, side: Side, cfg: Config)
    returns (i: nat)
    ensures var l := RetestLevel(gs, bar, now, side, cfg);
            && (l.Some? <==> Raised(gs, bar, now, side, cfg) != [])
            && (l.Some? ==> Oldest(gs, i, bar, now, side, cfg) && l.value == (gs[i].zone.top + gs[i].zone.bot) / 2.0)
  {
    i := 0;
    if gs != [] && !Raises(gs[0], bar, now, side, cfg) {
      var k := LevelIsOldest(gs[1..], bar, now, side, cfg);
      i := k + 1;
    }
  }
}
