/**
 The paging cursor of the database feed: ticks are polled in pages behind a watermark, and quotes are
 merged into them from a second table.
 */
module FeedCursor {
  import opened Prelude

  datatype Stamped<+T> = Stamped(ts: int, v: T)

  const LIMIT: nat := 5000

  predicate Sorted<T>(v: seq<Stamped<T>>) {
    forall i, j :: 0 <= i <= j < |v| ==> v[i].ts <= v[j].ts
  }

  /** The number of leading rows that are not later than `wm`. */
  function Cut<T>(v: seq<Stamped<T>>, wm: int): (n: nat)
    ensures n <= |v|
    ensures forall i :: 0 <= i < n ==> v[i].ts <= wm
    ensures n < |v| ==> v[n].ts > wm
  {
    if v == [] || v[0].ts > wm then 0 else 1 + Cut(v[1..], wm)
  }

  /** In a sorted table the cut is determined by the rows on its two sides. */
  lemma CutIs<T>(v: seq<Stamped<T>>, wm: int, n: nat)
    requires Sorted(v) && n <= |v|
    requires n > 0 ==> v[n - 1].ts <= wm
    requires n < |v| ==> v[n].ts > wm
    ensures Cut(v, wm) == n
  {
  }

  /** One query: the first rows later than `wm`. */
  function Query<T>(v: seq<Stamped<T>>, wm: int): (page: seq<Stamped<T>>)
    ensures |page| <= LIMIT
  {
    var n := Cut(v, wm);
    v[n..Min(n + LIMIT, |v|)]
  }

  /** The rows later than `a` and not later than `b`. */
  function Between<T>(v: seq<Stamped<T>>, a: int, b: int): seq<Stamped<T>> {
    if Cut(v, a) <= Cut(v, b) then v[Cut(v, a)..Cut(v, b)] else []
  }

  /** Where the group of the page's last time stamp starts, looking no further back than `k`. */
  function GroupStart<T>(page: seq<Stamped<T>>, k: nat): (g: nat)
    requires 1 <= k <= |page|
    ensures 1 <= g <= k
    ensures forall i :: g <= i < k ==> page[i].ts == page[|page| - 1].ts
    ensures g > 1 ==> page[g - 1].ts != page[|page| - 1].ts
  {
    if k > 1 && page[k - 1].ts == page[|page| - 1].ts then GroupStart(page, k - 1) else k
  }

  /**
   The rows of a page that are used.  A full page may cut the group of its last time stamp, so that
   group is left for the next poll, unless it is the whole page.
   */
  function Usable<T>(page: seq<Stamped<T>>): (n: nat)
    ensures n <= |page| && (page != [] ==> n > 0)
  {
    if |page| < LIMIT then |page|
    else
      var k := GroupStart(page, |page|);
      if page[k - 1].ts != page[|page| - 1].ts then k else |page|
  }

  datatype Feed<T> = Feed(visible: seq<Stamped<T>>, wm: int, consumed: seq<Stamped<T>>)

  /** The table changes, a poll reads a page, or a poll fails. */
  datatype Event<T> = Change(visible: seq<Stamped<T>>) | Poll | PollFails

  function Step<T>(f: Feed<T>, e: Event<T>): Feed<T> {
    match e
    case Change(v) => f.(visible := v)
    case PollFails => f
    case Poll =>
      var page := Query(f.visible, f.wm);
      var n := Usable(page);
      if n == 0 then f else f.(wm := page[n - 1].ts, consumed := f.consumed + page[..n])
  }

  function Run<T>(f: Feed<T>, evs: seq<Event<T>>): Feed<T> {
    if evs == [] then f else Step(Run(f, evs[..|evs| - 1]), evs[|evs| - 1])
  }

  class PgFeed<T> {
    var watermark: int
    var consumed: seq<Stamped<T>>

    ghost function Abs(visible: seq<Stamped<T>>): Feed<T>
      reads this
    {
      Feed(visible, watermark, consumed)
    }

    constructor (start: int)
      ensures watermark == start && consumed == []
    {
      watermark, consumed := start, [];
    }

    /** One poll of the table as it is visible now. */
    method PollOnce(visible: seq<Stamped<T>>)
      modifies this
      ensures Abs(visible) == Step(old(Abs(visible)), Poll)
    {
      var page := Query(visible, watermark);
      var n := |page|;
      var use := n;
      if n == LIMIT {
        var last := page[n - 1].ts;
        var k := n;
        while k > 1 && page[k - 1].ts == last
          invariant 1 <= k <= n
          invariant GroupStart(page, n) == GroupStart(page, k)
        {
          k := k - 1;
        }
        if page[k - 1].ts != last {
          use := k;
        }
      }
      for i := 0 to use
        invariant watermark == if i == 0 then old(watermark) else page[i - 1].ts
        invariant consumed == old(consumed) + page[..i]
      {
        watermark := page[i].ts;
        consumed := consumed + [page[i]];
      }
    }
  }

  // ---------------------------------------------------------------- one poll

  /** More than a page of rows with one time stamp lies right behind the watermark. */
  ghost predicate Oversized<T>(v: seq<Stamped<T>>, wm: int) {
    var n := Cut(v, wm);
    n + LIMIT < |v| && v[n].ts == v[n + LIMIT].ts
  }

  lemma PageAt<T>(v: seq<Stamped<T>>, wm: int, i: nat)
    requires i < |Query(v, wm)|
    ensures Cut(v, wm) + i < |v| && Query(v, wm)[i] == v[Cut(v, wm) + i]
  {
  }

  lemma UsableCut<T>(page: seq<Stamped<T>>)
    requires |page| == LIMIT && Usable(page) < LIMIT
    ensures var u := Usable(page); 0 < u && page[u].ts == page[LIMIT - 1].ts != page[u - 1].ts
  {
  }

  /** A full page that ends inside a group: what is used ends before the group, and no group is too big. */
  lemma FullPageCut<T>(v: seq<Stamped<T>>, wm: int)
    requires Sorted(v) && |Query(v, wm)| == LIMIT && Usable(Query(v, wm)) < LIMIT
    ensures var n, u := Cut(v, wm), Usable(Query(v, wm));
            0 < u && n + u < |v| && v[n + u].ts != v[n + u - 1].ts && !Oversized(v, wm)
  {
    var page, n, u := Query(v, wm), Cut(v, wm), Usable(Query(v, wm));
    UsableCut(page);
    PageAt(v, wm, u);
    PageAt(v, wm, u - 1);
    assert v[n].ts <= v[n + u - 1].ts <= v[n + u].ts;
    assert n + LIMIT < |v| ==> v[n + u].ts <= v[n + LIMIT].ts;
  }

  /** A full page that is used whole is one group. */
  lemma FullPageGroup<T>(v: seq<Stamped<T>>, wm: int)
    requires Sorted(v) && |Query(v, wm)| == LIMIT && Usable(Query(v, wm)) == LIMIT
    ensures var n := Cut(v, wm); n + LIMIT <= |v| && v[n].ts == v[n + LIMIT - 1].ts
  {
    var page, n := Query(v, wm), Cut(v, wm);
    assert page[0] == v[n] && page[LIMIT - 1] == v[n + LIMIT - 1];
  }

  lemma PrefixOfSlice<T>(v: seq<T>, n: nat, m: nat, u: nat)
    requires n <= m <= |v| && 0 < u <= m - n
    ensures v[n..m][..u] == v[n..n + u] && v[n..m][u - 1] == v[n + u - 1]
  {
  }

  /** What is used of a page, as rows of the table. */
  lemma PageRows<T>(v: seq<Stamped<T>>, wm: int)
    requires Query(v, wm) != []
    ensures var page, n := Query(v, wm), Cut(v, wm);
            var u := Usable(page);
            && 0 < u <= |page| && n + |page| <= |v|
            && page[..u] == v[n..n + u] && page[u - 1] == v[n + u - 1]
  {
    PrefixOfSlice(v, Cut(v, wm), Cut(v, wm) + |Query(v, wm)|, Usable(Query(v, wm)));
  }

  /** The row behind what is used belongs to the same group exactly when a group is too big for a page. */
  lemma PageEnds<T>(v: seq<Stamped<T>>, wm: int, k: nat)
    requires Sorted(v) && Query(v, wm) != [] && k == Cut(v, wm) + Usable(Query(v, wm))
    ensures Cut(v, wm) < k <= |v|
    ensures k < |v| && v[k].ts == v[k - 1].ts <==> Oversized(v, wm)
  {
    var page := Query(v, wm);
    if |page| == LIMIT && Usable(page) < LIMIT {
      FullPageCut(v, wm);
    } else if |page| == LIMIT {
      FullPageGroup(v, wm);
    }
  }

  /** The rows between two cuts, when the later one lies at `k`. */
  lemma BetweenCut<T>(v: seq<Stamped<T>>, wm: int, next: int, k: nat)
    requires Sorted(v) && Cut(v, wm) < k <= |v| && next == v[k - 1].ts
    ensures if k < |v| && v[k].ts == next then |Between(v, wm, next)| > k - Cut(v, wm)
            else Between(v, wm, next) == v[Cut(v, wm)..k]
  {
    if k == |v| || v[k].ts != next {
      CutIs(v, next, k);
    } else {
      assert Cut(v, next) > k;
    }
  }

  /** A poll in terms of the table. */
  lemma PollIs<T>(f: Feed<T>)
    requires Query(f.visible, f.wm) != []
    ensures var n := Cut(f.visible, f.wm);
            var k := n + Usable(Query(f.visible, f.wm));
            n < k <= |f.visible|
            && Step(f, Poll) == f.(wm := f.visible[k - 1].ts, consumed := f.consumed + f.visible[n..k])
  {
    PageRows(f.visible, f.wm);
  }

  /**
   A poll consumes exactly the rows up to its new watermark, unless a single microsecond behind the old
   one holds more rows than a page; then it skips the rest of that group.
   */
  lemma PollExactIff<T>(f: Feed<T>)
    requires Sorted(f.visible) && Query(f.visible, f.wm) != []
    ensures var f' := Step(f, Poll);
            && f.wm < f'.wm
            && (f'.consumed == f.consumed + Between(f.visible, f.wm, f'.wm) <==> !Oversized(f.visible, f.wm))
  {
    var v, n := f.visible, Cut(f.visible, f.wm);
    var k := n + Usable(Query(v, f.wm));
    PollIs(f);
    PageEnds(v, f.wm, k);
    CutSplitsIff(v, f.wm, k);
    SameSuffix(f.consumed, v[n..k], Between(v, f.wm, v[k - 1].ts));
  }

  /** A cut that ends at `k` takes the rows up to there exactly when it splits no group. */
  lemma CutSplitsIff<T>(v: seq<Stamped<T>>, wm: int, k: nat)
    requires Sorted(v) && Cut(v, wm) < k <= |v|
    ensures wm < v[k - 1].ts
    ensures v[Cut(v, wm)..k] == Between(v, wm, v[k - 1].ts) <==> !(k < |v| && v[k].ts == v[k - 1].ts)
  {
    assert v[Cut(v, wm)].ts <= v[k - 1].ts;
    BetweenCut(v, wm, v[k - 1].ts, k);
    assert |v[Cut(v, wm)..k]| == k - Cut(v, wm);
  }

  lemma SameSuffix<T>(a: seq<T>, b: seq<T>, c: seq<T>)
    ensures a + b == a + c <==> b == c
  {
    if a + b == a + c {
      assert (a + b)[|a|..] == b && (a + c)[|a|..] == c;
    }
  }

  /** A page is the first five thousand rows later than the watermark, or all of them. */
  lemma PageIs<T>(v: seq<Stamped<T>>, wm: int, n: nat)
    requires Sorted(v) && n <= |v| && (n > 0 ==> v[n - 1].ts <= wm) && (n < |v| ==> v[n].ts > wm)
    ensures Query(v, wm) == if |v| - n > 5000 then v[n..n + 5000] else v[n..]
  {
    CutIs(v, wm, n);
  }

  /**
   Of a page a poll uses `u` rows and moves the watermark to the last one: all of them, unless the page is full
   and holds two time stamps; then exactly the rows before those of its last time stamp.
   */
  lemma PollUses<T>(f: Feed<T>) returns (u: nat)
    requires Sorted(f.visible) && Query(f.visible, f.wm) != []
    ensures var page := Query(f.visible, f.wm);
            && 0 < u <= |page|
            && Step(f, Poll) == f.(wm := page[u - 1].ts, consumed := f.consumed + page[..u])
            && (u < |page| <==> |page| >= 5000 && page[0].ts != page[|page| - 1].ts)
            && (u < |page| ==> page[u - 1].ts != page[u].ts == page[|page| - 1].ts)
  {
    var page := Query(f.visible, f.wm);
    u := Usable(page);
    PageSorted(f.visible, f.wm);
    if u < |page| {
      UsableCut(page);
    } else if |page| == LIMIT {
      FullPageGroup(f.visible, f.wm);
      PageAt(f.visible, f.wm, 0);
      PageAt(f.visible, f.wm, |page| - 1);
    }
  }

  lemma PageSorted<T>(v: seq<Stamped<T>>, wm: int)
    requires Sorted(v)
    ensures Sorted(Query(v, wm))
  {
  }

  // ---------------------------------------------------------------- whole histories

  /** No microsecond holds more rows than a page. */
  ghost predicate GroupsFit<T>(v: seq<Stamped<T>>) {
    forall i :: 0 <= i && i + LIMIT < |v| ==> v[i].ts != v[i + LIMIT].ts
  }

  /** What becomes visible is later than what was read: the table up to the watermark stays as it is. */
  ghost predicate LaterOnly<T>(f: Feed<T>, v: seq<Stamped<T>>) {
    Sorted(v) && GroupsFit(v) && v[..Cut(v, f.wm)] == f.visible[..Cut(f.visible, f.wm)]
  }

  ghost predicate Polite<T>(f: Feed<T>, evs: seq<Event<T>>)
    decreases |evs|
  {
    evs == [] ||
    (Polite(f, evs[..|evs| - 1]) &&
     (evs[|evs| - 1].Change? ==> LaterOnly(Run(f, evs[..|evs| - 1]), evs[|evs| - 1].visible)))
  }

  ghost predicate Inv<T>(f: Feed<T>, start: int) {
    && Sorted(f.visible) && GroupsFit(f.visible) && start <= f.wm
    && f.consumed == Between(f.visible, start, f.wm)
  }

  lemma CutMonotone<T>(v: seq<Stamped<T>>, a: int, b: int)
    requires Sorted(v) && a <= b
    ensures Cut(v, a) <= Cut(v, b)
  {
  }

  lemma BetweenConcat<T>(v: seq<Stamped<T>>, a: int, b: int, c: int)
    requires Sorted(v) && a <= b <= c
    ensures Between(v, a, c) == Between(v, a, b) + Between(v, b, c)
  {
    CutMonotone(v, a, b);
    CutMonotone(v, b, c);
    SliceConcat(v, Cut(v, a), Cut(v, b), Cut(v, c));
  }

  lemma SliceConcat<T>(v: seq<T>, i: nat, j: nat, k: nat)
    requires i <= j <= k <= |v|
    ensures v[i..k] == v[i..j] + v[j..k]
  {
  }

  lemma ChangeKeeps<T>(f: Feed<T>, v: seq<Stamped<T>>, start: int)
    requires Inv(f, start) && LaterOnly(f, v)
    ensures Inv(f.(visible := v), start)
  {
    SamePast(f.visible, v, start, f.wm);
  }

  /** Tables that agree up to a time agree between any earlier time and it. */
  lemma SamePast<T>(v: seq<Stamped<T>>, w: seq<Stamped<T>>, start: int, wm: int)
    requires Sorted(v) && Sorted(w) && start <= wm && w[..Cut(w, wm)] == v[..Cut(v, wm)]
    ensures Between(w, start, wm) == Between(v, start, wm)
  {
    var n, k := Cut(v, wm), Cut(v, start);
    assert Cut(w, wm) == n;
    CutMonotone(v, start, wm);
    CutMonotone(w, start, wm);
    SameHead(v, w, n);
    CutIs(w, start, k);
    SliceOfHead(v, w, k, n);
  }

  lemma SameHead<T>(v: seq<T>, w: seq<T>, n: nat)
    requires n <= |v| && n <= |w| && v[..n] == w[..n]
    ensures forall i :: 0 <= i < n ==> v[i] == w[i]
  {
    assert forall i :: 0 <= i < n ==> v[..n][i] == w[..n][i];
  }

  lemma SliceOfHead<T>(v: seq<T>, w: seq<T>, k: nat, n: nat)
    requires k <= n <= |v| && n <= |w| && v[..n] == w[..n]
    ensures v[k..n] == w[k..n]
  {
    assert v[k..n] == v[..n][k..] && w[k..n] == w[..n][k..];
  }

  lemma PollKeeps<T>(f: Feed<T>, start: int)
    requires Inv(f, start)
    ensures Inv(Step(f, Poll), start)
  {
    if Query(f.visible, f.wm) != [] {
      PollExactIff(f);
      BetweenConcat(f.visible, start, f.wm, Step(f, Poll).wm);
    }
  }

  lemma {:induction false} RunKeeps<T>(f: Feed<T>, evs: seq<Event<T>>, start: int)
    requires Inv(f, start) && Polite(f, evs)
    ensures Inv(Run(f, evs), start)
  {
    if evs != [] {
      var front, e := evs[..|evs| - 1], evs[|evs| - 1];
      RunKeeps(f, front, start);
      match e
      case Change(v) => ChangeKeeps(Run(f, front), v, start);
      case Poll => PollKeeps(Run(f, front), start);
      case PollFails =>
    }
  }

  lemma StartInv<T>(v: seq<Stamped<T>>, start: int)
    requires Sorted(v) && GroupsFit(v)
    ensures Inv(Feed(v, start, []), start)
  {
  }

  /**
   For every way of splitting the history into polls the rows consumed are exactly the ordered scan
   behind the start watermark, each once, up to the watermark reached.
   */
  lemma FeedIsScan<T>(v: seq<Stamped<T>>, start: int, evs: seq<Event<T>>)
    requires Sorted(v) && GroupsFit(v) && Polite(Feed(v, start, []), evs)
    ensures var f := Run(Feed(v, start, []), evs);
            f.consumed == Between(f.visible, start, f.wm)
  {
    StartInv(v, start);
    RunKeeps(Feed(v, start, []), evs, start);
  }

  /** A poll that does not fill its page has read everything that is visible. */
  lemma ShortPollDrains<T>(v: seq<Stamped<T>>, start: int, evs: seq<Event<T>>)
    requires Sorted(v) && GroupsFit(v) && Polite(Feed(v, start, []), evs)
    ensures var f := Run(Feed(v, start, []), evs);
            |Query(f.visible, f.wm)| < LIMIT ==>
              Step(f, Poll).consumed == f.visible[Cut(f.visible, start)..]
  {
    StartInv(v, start);
    RunKeeps(Feed(v, start, []), evs, start);
    var f := Run(Feed(v, start, []), evs);
    PollKeeps(f, start);
    if |Query(f.visible, f.wm)| < LIMIT {
      ShortPoll(f);
      AllRead(Step(f, Poll), start);
    }
  }

  lemma AllRead<T>(f: Feed<T>, start: int)
    requires Inv(f, start) && Cut(f.visible, f.wm) == |f.visible|
    ensures f.consumed == f.visible[Cut(f.visible, start)..]
  {
  }

  lemma ShortPoll<T>(f: Feed<T>)
    requires Sorted(f.visible) && |Query(f.visible, f.wm)| < LIMIT
    ensures Cut(f.visible, Step(f, Poll).wm) == |f.visible|
  {
    var v, page := f.visible, Query(f.visible, f.wm);
    if page != [] {
      assert page[|page| - 1] == v[|v| - 1];
      CutIs(v, v[|v| - 1].ts, |v|);
    }
  }
}
