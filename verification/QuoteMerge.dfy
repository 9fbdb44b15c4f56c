/**
 Merging quotes into the print stream: before each print the buffered quotes up to its time are applied
 to the book, and the buffer is refilled from the table only when it is empty.
 */
module QuoteMerge {
  import opened FeedCursor

  /** The valid quotes of a scan, in order. */
  function Valid<Q>(valid: Q -> bool, rows: seq<Stamped<Q>>): (r: seq<Stamped<Q>>)
    ensures |r| <= |rows|
  {
    if rows == [] then []
    else
      Valid(valid, rows[..|rows| - 1])
      + (if valid(rows[|rows| - 1].v) then [rows[|rows| - 1]] else [])
  }

  /** `wm` is the quote watermark, `buf` the buffered quotes, `applied` what the book has seen. */
  datatype Merge<!Q> = Merge(
    valid: Q -> bool, visible: seq<Stamped<Q>>, wm: int, buf: seq<Stamped<Q>>, applied: seq<Stamped<Q>>)

  function Refill<Q>(m: Merge<Q>): Merge<Q> {
    var page := Query(m.visible, m.wm);
    if page == [] then m
    else m.(wm := page[|page| - 1].ts, buf := m.buf + Valid(m.valid, page))
  }

  function Apply<Q>(m: Merge<Q>, ts: int): Merge<Q> {
    var k := Cut(m.buf, ts);
    m.(buf := m.buf[k..], applied := m.applied + m.buf[..k])
  }

  /** The quotes before a print at `ts`; `ok` says whether a query would succeed. */
  function FeedUntil<Q>(m: Merge<Q>, ts: int, ok: bool): Merge<Q> {
    Apply(if m.buf == [] && ok then Refill(m) else m, ts)
  }

  datatype MergeEvent<Q> = NewQuotes(visible: seq<Stamped<Q>>) | Print(ts: int, ok: bool)

  function MergeStep<Q>(m: Merge<Q>, e: MergeEvent<Q>): Merge<Q> {
    match e
    case NewQuotes(v) => m.(visible := v)
    case Print(ts, ok) => FeedUntil(m, ts, ok)
  }

  function MergeRun<Q>(m: Merge<Q>, evs: seq<MergeEvent<Q>>): Merge<Q> {
    if evs == [] then m else MergeStep(MergeRun(m, evs[..|evs| - 1]), evs[|evs| - 1])
  }

  lemma OneFurther<T>(all: seq<T>, k: nat)
    requires k < |all|
    ensures all[k..][1..] == all[k + 1..] && all[k..][0] == all[k] && all[..k] + [all[k]] == all[..k + 1]
  {
  }

  class QuoteFeed<Q> {
    const valid: Q -> bool
    var bboWatermark: int
    var qbuf: seq<Stamped<Q>>
    var applied: seq<Stamped<Q>>

    ghost function Abs(visible: seq<Stamped<Q>>): Merge<Q>
      reads this
    {
      Merge(valid, visible, bboWatermark, qbuf, applied)
    }

    constructor (valid: Q -> bool, start: int)
      ensures this.valid == valid && bboWatermark == start && qbuf == [] && applied == []
    {
      this.valid := valid;
      bboWatermark, qbuf, applied := start, [], [];
    }

    method FeedQuotesUntil(visible: seq<Stamped<Q>>, ts: int, ok: bool)
      modifies this
      ensures Abs(visible) == FeedUntil(old(Abs(visible)), ts, ok)
    {
      if |qbuf| == 0 && ok {
        ReadPage(visible);
      }
      Drain(ts);
    }

    /** One query: the watermark follows every row, the buffer takes the valid ones. */
    method ReadPage(visible: seq<Stamped<Q>>)
      requires qbuf == []
      modifies this`bboWatermark, this`qbuf
      ensures Abs(visible) == Refill(old(Abs(visible)))
    {
      var page := Query(visible, bboWatermark);
      for i := 0 to |page|
        invariant bboWatermark == if i == 0 then old(bboWatermark) else page[i - 1].ts
        invariant qbuf == Valid(valid, page[..i])
      {
        assert page[..i + 1][..i] == page[..i];
        bboWatermark := page[i].ts;
        if valid(page[i].v) {
          qbuf := qbuf + [page[i]];
        }
      }
      assert page[..|page|] == page && [] + Valid(valid, page) == Valid(valid, page);
    }

    method Drain(ts: int)
      modifies this`qbuf, this`applied
      ensures qbuf == old(qbuf)[Cut(old(qbuf), ts)..]
      ensures applied == old(applied) + old(qbuf)[..Cut(old(qbuf), ts)]
    {
      var all := qbuf;
      var k := 0;
      while |qbuf| != 0 && qbuf[0].ts <= ts
        invariant k <= |all| && qbuf == all[k..]
        invariant Cut(all, ts) == k + Cut(qbuf, ts)
        invariant applied == old(applied) + all[..k]
        decreases |qbuf|
      {
        OneFurther(all, k);
        applied := applied + [qbuf[0]];
        qbuf := qbuf[1..];
        k := k + 1;
      }
    }
  }

  // ---------------------------------------------------------------- equal time stamps

  /** A valid quote behind the page has the time stamp of the page's last row. */
  ghost predicate Skips<Q>(m: Merge<Q>)
    requires Query(m.visible, m.wm) != []
  {
    var k := Cut(m.visible, m.wm) + |Query(m.visible, m.wm)|;
    exists j :: k <= j < |m.visible| && m.visible[j].ts == m.visible[k - 1].ts && m.valid(m.visible[j].v)
  }

  lemma {:induction false} NoneValidIff<Q>(valid: Q -> bool, rows: seq<Stamped<Q>>)
    ensures Valid(valid, rows) == [] <==> forall i :: 0 <= i < |rows| ==> !valid(rows[i].v)
  {
    if rows != [] {
      NoneValidIff(valid, rows[..|rows| - 1]);
    }
  }

  lemma PageUpTo<Q>(v: seq<Stamped<Q>>, wm: int)
    requires Sorted(v) && Query(v, wm) != []
    ensures var page, k := Query(v, wm), Cut(v, wm) + |Query(v, wm)|;
            && 0 < k <= |v| && page == v[Cut(v, wm)..k] && page[|page| - 1] == v[k - 1]
            && k <= Cut(v, v[k - 1].ts)
            && Between(v, wm, v[k - 1].ts) == page + v[k..Cut(v, v[k - 1].ts)]
  {
    var n, k := Cut(v, wm), Cut(v, wm) + |Query(v, wm)|;
    assert v[k - 1].ts <= v[k - 1].ts;
    SliceConcat(v, n, k, Cut(v, v[k - 1].ts));
  }

  /** The rows behind the page that share its last time stamp. */
  function Behind<Q>(v: seq<Stamped<Q>>, wm: int): seq<Stamped<Q>>
    requires Sorted(v) && Query(v, wm) != []
  {
    PageUpTo(v, wm);
    var k := Cut(v, wm) + |Query(v, wm)|;
    v[k..Cut(v, v[k - 1].ts)]
  }

  /** `rest` is the rows from `k` on that share the time stamp of the row before `k`. */
  ghost predicate IsGroupBehind<Q>(v: seq<Stamped<Q>>, k: nat, rest: seq<Stamped<Q>>) {
    && 0 < k <= |v| && k + |rest| <= |v|
    && (forall i :: 0 <= i < |rest| ==> rest[i] == v[k + i])
    && (forall j :: k <= j < |v| ==> (v[j].ts == v[k - 1].ts <==> j < k + |rest|))
  }

  lemma BehindIs<Q>(v: seq<Stamped<Q>>, wm: int)
    requires Sorted(v) && Query(v, wm) != []
    ensures IsGroupBehind(v, Cut(v, wm) + |Query(v, wm)|, Behind(v, wm))
  {
    PageUpTo(v, wm);
    var k := Cut(v, wm) + |Query(v, wm)|;
    forall j | k <= j < |v| ensures v[j].ts == v[k - 1].ts <==> j < Cut(v, v[k - 1].ts) {
      assert v[k - 1].ts <= v[j].ts;
      assert j >= Cut(v, v[k - 1].ts) ==> v[Cut(v, v[k - 1].ts)].ts <= v[j].ts;
    }
  }

  lemma SkipsIff<Q>(m: Merge<Q>)
    requires Sorted(m.visible) && Query(m.visible, m.wm) != []
    ensures Skips(m) <==> Valid(m.valid, Behind(m.visible, m.wm)) != []
  {
    BehindIs(m.visible, m.wm);
    SomeValidIff(m.valid, m.visible, Cut(m.visible, m.wm) + |Query(m.visible, m.wm)|, Behind(m.visible, m.wm));
  }

  lemma SomeValidIff<Q>(valid: Q -> bool, v: seq<Stamped<Q>>, k: nat, rest: seq<Stamped<Q>>)
    requires IsGroupBehind(v, k, rest)
    ensures (exists j :: k <= j < |v| && v[j].ts == v[k - 1].ts && valid(v[j].v)) <==> Valid(valid, rest) != []
  {
    NoneValidIff(valid, rest);
    if j :| k <= j < |v| && v[j].ts == v[k - 1].ts && valid(v[j].v) {
      assert rest[j - k] == v[j];
    }
    if i: nat :| i < |rest| && valid(rest[i].v) {
      assert rest[i] == v[k + i];
    }
  }

  lemma RefillIs<Q>(m: Merge<Q>)
    requires Sorted(m.visible) && Query(m.visible, m.wm) != []
    ensures var page := Query(m.visible, m.wm);
            && Refill(m).buf == m.buf + Valid(m.valid, page)
            && Between(m.visible, m.wm, Refill(m).wm) == page + Behind(m.visible, m.wm)
  {
    PageUpTo(m.visible, m.wm);
  }

  lemma AddsNothingIff<T>(a: seq<T>, b: seq<T>, c: seq<T>)
    ensures a + b == a + (b + c) <==> c == []
  {
    assert |a + b| == |a + (b + c)| <==> c == [];
    assert c == [] ==> b + c == b;
  }

  /**
   Without distinct time stamps a refill is exact, buffering every valid quote up to its new watermark, exactly
   when the page ends no group in front of a valid quote.
   */
  lemma RefillExactIff<Q>(m: Merge<Q>)
    requires Sorted(m.visible) && Query(m.visible, m.wm) != []
    ensures Refill(m).buf == m.buf + Valid(m.valid, Between(m.visible, m.wm, Refill(m).wm)) <==> !Skips(m)
  {
    var page, rest := Query(m.visible, m.wm), Behind(m.visible, m.wm);
    RefillIs(m);
    SkipsIff(m);
    ValidConcat(m.valid, page, rest);
    AddsNothingIff(m.buf, Valid(m.valid, page), Valid(m.valid, rest));
  }

  /** And what it skips is never read: a query yields only rows later than the watermark. */
  lemma SkippedForGood<Q>(w: seq<Stamped<Q>>, wm: int, ts: int)
    requires Sorted(w) && ts <= wm
    ensures forall i :: 0 <= i < |Query(w, wm)| ==> Query(w, wm)[i].ts > ts
  {
    var n := Cut(w, wm);
    forall i | 0 <= i < |Query(w, wm)| ensures Query(w, wm)[i].ts > ts {
      assert Query(w, wm)[i] == w[n + i] && w[n].ts <= w[n + i].ts;
    }
  }

  // ---------------------------------------------------------------- what the book has seen

  /** Distinct time stamps, in order. */
  predicate Strict<Q>(v: seq<Stamped<Q>>) { forall i, j :: 0 <= i < j < |v| ==> v[i].ts < v[j].ts }

  lemma {:induction false} ValidConcat<Q>(valid: Q -> bool, a: seq<Stamped<Q>>, b: seq<Stamped<Q>>)
    ensures Valid(valid, a + b) == Valid(valid, a) + Valid(valid, b)
  {
    if b == [] {
      assert a + b == a;
    } else {
      assert (a + b)[..|a + b| - 1] == a + b[..|b| - 1];
      ValidConcat(valid, a, b[..|b| - 1]);
    }
  }

  lemma {:induction false} ValidWithin<Q>(valid: Q -> bool, rows: seq<Stamped<Q>>, lo: int, hi: int)
    requires Strict(rows) && forall i :: 0 <= i < |rows| ==> lo < rows[i].ts <= hi
    ensures Strict(Valid(valid, rows))
    ensures forall i :: 0 <= i < |Valid(valid, rows)| ==> lo < Valid(valid, rows)[i].ts <= hi
  {
    if rows != [] {
      var last := rows[|rows| - 1];
      ValidWithin(valid, rows[..|rows| - 1], lo, last.ts - 1);
    }
  }

  lemma BetweenRange<Q>(v: seq<Stamped<Q>>, a: int, b: int)
    requires Strict(v)
    ensures Strict(Between(v, a, b))
    ensures forall i :: 0 <= i < |Between(v, a, b)| ==> a < Between(v, a, b)[i].ts <= b
  {
  }

  ghost predicate Later<Q>(m: Merge<Q>, v: seq<Stamped<Q>>) {
    Strict(v) && v[..Cut(v, m.wm)] == m.visible[..Cut(m.visible, m.wm)]
  }

  /** New quotes are later than those read, and prints come in time order, `last` being the latest. */
  ghost predicate Orderly<Q>(m: Merge<Q>, evs: seq<MergeEvent<Q>>, last: int)
    decreases |evs|
  {
    evs == [] ||
    match evs[|evs| - 1]
    case NewQuotes(v) =>
      Orderly(m, evs[..|evs| - 1], last) && Later(MergeRun(m, evs[..|evs| - 1]), v)
    case Print(ts, _) => ts <= last && Orderly(m, evs[..|evs| - 1], ts)
  }

  ghost predicate MergeInv<Q>(m: Merge<Q>, start: int, last: int) {
    && Strict(m.visible) && start <= m.wm
    && m.applied + m.buf == Valid(m.valid, Between(m.visible, start, m.wm))
    && (forall i :: 0 <= i < |m.applied| ==> m.applied[i].ts <= last)
  }

  lemma PageIsBetween<Q>(v: seq<Stamped<Q>>, wm: int)
    requires Strict(v) && Query(v, wm) != []
    ensures var page := Query(v, wm);
            wm < page[|page| - 1].ts && Between(v, wm, page[|page| - 1].ts) == page
  {
    var page := Query(v, wm);
    CutIs(v, page[|page| - 1].ts, Cut(v, wm) + |page|);
  }

  /** Reading on from `wm` to `next` adds the valid quotes in between at the end. */
  lemma ValidFurther<Q>(valid: Q -> bool, v: seq<Stamped<Q>>, start: int, wm: int, next: int)
    requires Strict(v) && start <= wm <= next
    ensures Valid(valid, Between(v, start, next)) ==
            Valid(valid, Between(v, start, wm)) + Valid(valid, Between(v, wm, next))
  {
    BetweenConcat(v, start, wm, next);
    ValidConcat(valid, Between(v, start, wm), Between(v, wm, next));
  }

  lemma RefillKeeps<Q>(m: Merge<Q>, start: int, last: int)
    requires MergeInv(m, start, last)
    ensures MergeInv(Refill(m), start, last)
  {
    var page := Query(m.visible, m.wm);
    if page != [] {
      PageIsBetween(m.visible, m.wm);
      ValidFurther(m.valid, m.visible, start, m.wm, page[|page| - 1].ts);
      Regroup(m.applied, m.buf, Valid(m.valid, page));
    }
  }

  lemma Regroup<Q>(a: seq<Q>, b: seq<Q>, c: seq<Q>)
    ensures a + (b + c) == a + b + c
  {
  }

  lemma ApplyKeeps<Q>(m: Merge<Q>, start: int, last: int, ts: int)
    requires MergeInv(m, start, last) && last <= ts
    ensures MergeInv(Apply(m, ts), start, ts)
  {
    var k := Cut(m.buf, ts);
    assert m.applied + m.buf[..k] + m.buf[k..] == m.applied + m.buf;
  }

  lemma {:induction false} MergeRunKeeps<Q>(m: Merge<Q>, evs: seq<MergeEvent<Q>>, start: int, last: int)
    requires Strict(m.visible) && start == m.wm && m.buf == [] && m.applied == []
    requires Orderly(m, evs, last)
    ensures MergeInv(MergeRun(m, evs), start, last)
    decreases |evs|
  {
    if evs == [] {
      assert Between(m.visible, start, start) == [];
    } else {
      var front := evs[..|evs| - 1];
      match evs[|evs| - 1]
      case NewQuotes(v) =>
        MergeRunKeeps(m, front, start, last);
        var before := MergeRun(m, front);
        SamePast(before.visible, v, start, before.wm);
      case Print(ts, ok) =>
        MergeRunKeeps(m, front, start, ts);
        PrintKeeps(MergeRun(m, front), start, ts, ok);
    }
  }

  lemma PrintKeeps<Q>(m: Merge<Q>, start: int, ts: int, ok: bool)
    requires MergeInv(m, start, ts)
    ensures MergeInv(FeedUntil(m, ts, ok), start, ts)
  {
    RefillKeeps(m, start, ts);
    ApplyKeeps(if m.buf == [] && ok then Refill(m) else m, start, ts, ts);
  }

  /**
   Across every refill pattern the quotes applied to the book are a prefix of the valid quotes in time
   order, none twice and none skipped, and none is later than the latest print.
   */
  lemma BookIsPrefix<Q>(m: Merge<Q>, evs: seq<MergeEvent<Q>>, start: int, last: int)
    requires Strict(m.visible) && start == m.wm && m.buf == [] && m.applied == []
    requires Orderly(m, evs, last)
    ensures var r := MergeRun(m, evs);
            && r.applied <= Valid(r.valid, r.visible[Cut(r.visible, start)..])
            && (forall i :: 0 <= i < |r.applied| ==> r.applied[i].ts <= last)
            && Strict(r.applied)
  {
    MergeRunKeeps(m, evs, start, last);
    var r := MergeRun(m, evs);
    AllValidFrom(r.valid, r.visible, start, r.wm);
    AppliedStrict(r, start, last);
  }

  /** The valid quotes up to `wm` come first among all valid ones. */
  lemma AllValidFrom<Q>(valid: Q -> bool, v: seq<Stamped<Q>>, start: int, wm: int)
    requires Strict(v) && start <= wm
    ensures Valid(valid, Between(v, start, wm)) <= Valid(valid, v[Cut(v, start)..])
  {
    CutMonotone(v, start, wm);
    ValidPrefix(valid, v, Cut(v, start), Cut(v, wm));
  }

  lemma ValidPrefix<Q>(valid: Q -> bool, v: seq<Stamped<Q>>, i: nat, j: nat)
    requires i <= j <= |v|
    ensures Valid(valid, v[i..j]) <= Valid(valid, v[i..])
  {
    assert v[i..] == v[i..j] + v[j..];
    ValidConcat(valid, v[i..j], v[j..]);
  }

  lemma AppliedStrict<Q>(r: Merge<Q>, start: int, last: int)
    requires MergeInv(r, start, last)
    ensures Strict(r.applied)
  {
    ValidBetween(r.valid, r.visible, start, r.wm);
    assert forall i :: 0 <= i < |r.applied| ==> r.applied[i] == (r.applied + r.buf)[i];
  }

  /** The valid quotes of an interval lie inside it. */
  lemma ValidBetween<Q>(valid: Q -> bool, v: seq<Stamped<Q>>, lo: int, hi: int)
    requires Strict(v)
    ensures Strict(Valid(valid, Between(v, lo, hi)))
    ensures forall i :: 0 <= i < |Valid(valid, Between(v, lo, hi))| ==>
              lo < Valid(valid, Between(v, lo, hi))[i].ts <= hi
  {
    BetweenRange(v, lo, hi);
    ValidWithin(valid, Between(v, lo, hi), lo, hi);
  }

  /** After `Apply`, nothing buffered is due. */
  ghost predicate Applied<Q>(r: Merge<Q>, start: int, ts: int) {
    MergeInv(r, start, ts) && (r.buf != [] ==> r.buf[0].ts > ts)
  }

  lemma FedIsApplied<Q>(m: Merge<Q>, start: int, ts: int, ok: bool)
    requires MergeInv(m, start, ts)
    ensures Applied(FeedUntil(m, ts, ok), start, ts)
  {
    var r := if m.buf == [] && ok then Refill(m) else m;
    RefillKeeps(m, start, ts);
    AppliedUpTo(r, start, ts);
  }

  lemma AppliedUpTo<Q>(r: Merge<Q>, start: int, ts: int)
    requires MergeInv(r, start, ts)
    ensures Applied(Apply(r, ts), start, ts)
  {
    ApplyKeeps(r, start, ts, ts);
    var k := Cut(r.buf, ts);
    assert r.buf[k..] != [] ==> r.buf[k..][0] == r.buf[k];
  }

  lemma BufferWithin<Q>(r: Merge<Q>, start: int, last: int)
    requires MergeInv(r, start, last)
    ensures forall i :: 0 <= i < |r.buf| ==> start < r.buf[i].ts <= r.wm
  {
    ValidBetween(r.valid, r.visible, start, r.wm);
    assert forall i :: 0 <= i < |r.buf| ==> r.buf[i] == (r.applied + r.buf)[|r.applied| + i];
  }

  lemma CurrentBehind<Q>(r: Merge<Q>, start: int, ts: int)
    requires Applied(r, start, ts) && r.wm <= ts
    ensures r.buf == []
    ensures r.applied == Valid(r.valid, Between(r.visible, start, ts)) <==>
            Valid(r.valid, Between(r.visible, r.wm, ts)) == []
  {
    BufferWithin(r, start, ts);
    ValidFurther(r.valid, r.visible, start, r.wm, ts);
  }

  lemma CurrentAhead<Q>(r: Merge<Q>, start: int, ts: int)
    requires Applied(r, start, ts) && start <= ts < r.wm
    ensures r.applied == Valid(r.valid, Between(r.visible, start, ts))
    ensures Valid(r.valid, Between(r.visible, r.wm, ts)) == []
  {
    var early, late := Valid(r.valid, Between(r.visible, start, ts)), Valid(r.valid, Between(r.visible, ts, r.wm));
    assert r.applied + r.buf == early + late by {
      ValidFurther(r.valid, r.visible, start, ts, r.wm);
    }
    assert forall i :: 0 <= i < |early| ==> early[i].ts <= ts by {
      ValidBetween(r.valid, r.visible, start, ts);
    }
    assert forall i :: 0 <= i < |late| ==> late[i].ts > ts by {
      ValidBetween(r.valid, r.visible, ts, r.wm);
    }
    SamePrefix(r.applied, r.buf, early, late, ts);
    assert Between(r.visible, r.wm, ts) == [] by {
      CutMonotone(r.visible, ts, r.wm);
    }
  }

  /** The book against the watermark that the feed reached. */
  lemma CurrentAgainstReached<Q>(m: Merge<Q>, start: int, ts: int, ok: bool)
    requires MergeInv(m, start, ts) && start <= ts
    ensures var r := FeedUntil(m, ts, ok);
            r.applied == Valid(r.valid, Between(r.visible, start, ts)) <==>
            Valid(r.valid, Between(r.visible, r.wm, ts)) == []
  {
    FedIsApplied(m, start, ts, ok);
    var r := FeedUntil(m, ts, ok);
    if r.wm <= ts {
      CurrentBehind(r, start, ts);
    } else {
      CurrentAhead(r, start, ts);
    }
  }

  /**
   Before the feed: nothing valid and due lies beyond what will have been read.  With quotes buffered, or no
   connection, nothing more is read; otherwise one page is.
   */
  predicate NothingMissed<Q>(m: Merge<Q>, ts: int, ok: bool) {
    if m.buf != [] || !ok then Valid(m.valid, Between(m.visible, m.wm, ts)) == []
    else
      var page := Query(m.visible, m.wm);
      page == [] || Valid(m.valid, Between(m.visible, page[|page| - 1].ts, ts)) == []
  }

  lemma EmptyPage<Q>(v: seq<Stamped<Q>>, wm: int, ts: int)
    requires Strict(v) && Query(v, wm) == []
    ensures Between(v, wm, ts) == []
  {
    assert Cut(v, wm) == |v|;
  }

  /**
   When the book is current: every visible valid quote up to the print has been applied after the feed
   exactly when, before it, nothing valid was due behind the quote watermark while the buffer held quotes,
   or behind the page that an empty buffer makes it read.
   */
  lemma BookCurrentIff<Q>(m: Merge<Q>, start: int, ts: int, ok: bool)
    requires MergeInv(m, start, ts) && start <= ts
    ensures FeedUntil(m, ts, ok).applied == Valid(m.valid, Between(m.visible, start, ts)) <==> NothingMissed(m, ts, ok)
  {
    CurrentAgainstReached(m, start, ts, ok);
    if m.buf == [] && ok && Query(m.visible, m.wm) == [] {
      EmptyPage(m.visible, m.wm, ts);
    }
  }

  /** A page that is not full ends where the table ends. */
  lemma ShortPageSees<Q>(v: seq<Stamped<Q>>, wm: int, ts: int)
    requires Strict(v) && Query(v, wm) != [] && |Query(v, wm)| < LIMIT
    ensures var page := Query(v, wm); Between(v, page[|page| - 1].ts, ts) == []
  {
    var page := Query(v, wm);
    assert page[|page| - 1] == v[|v| - 1];
    CutIs(v, page[|page| - 1].ts, |v|);
    assert v[|v|..|v|] == [];
  }

  lemma ShortPageMisses<Q>(m: Merge<Q>, ts: int)
    requires Strict(m.visible) && m.buf == [] && |Query(m.visible, m.wm)| < LIMIT
    ensures NothingMissed(m, ts, true)
  {
    if Query(m.visible, m.wm) != [] {
      ShortPageSees(m.visible, m.wm, ts);
    }
  }

  /** An empty buffer and a page that is not full always leave the book current. */
  lemma ShortPageIsCurrent<Q>(m: Merge<Q>, start: int, ts: int)
    requires MergeInv(m, start, ts) && start <= ts && m.buf == [] && |Query(m.visible, m.wm)| < LIMIT
    ensures FeedUntil(m, ts, true).applied == Valid(m.valid, Between(m.visible, start, ts))
  {
    ShortPageMisses(m, ts);
    BookCurrentIff(m, start, ts, true);
  }

  /**
   A quote can be due and visible and still not be in the book: with one quote buffered, a print that
   empties the buffer does not look for the next one.
   */
  lemma StaleBook<Q>(valid: Q -> bool, q: Q)
    requires valid(q)
    ensures var early, late := Stamped(3, q), Stamped(4, q);
            var m := FeedUntil(Merge(valid, [early], 0, [], []), 1, true);
            FeedUntil(m.(visible := [early, late]), 5, true).applied == [early]
  {
    var early, late := Stamped(3, q), Stamped(4, q);
    var m0 := Merge(valid, [early], 0, [], []);
    assert [early][..0] == [] && Valid(valid, [early]) == [early];
    assert Query([early], 0) == [early];
    assert Refill(m0) == m0.(wm := 3, buf := [early]);
    var m := FeedUntil(m0, 1, true);
    assert m == m0.(wm := 3, buf := [early]);
    assert [early][1..] == [];
    assert Cut([early], 5) == 1;
  }

  /** Two splits of one sequence at the same time are the same split. */
  lemma SamePrefix<Q>(a: seq<Stamped<Q>>, b: seq<Stamped<Q>>, c: seq<Stamped<Q>>, d: seq<Stamped<Q>>, ts: int)
    requires a + b == c + d
    requires forall i :: 0 <= i < |a| ==> a[i].ts <= ts
    requires b != [] ==> b[0].ts > ts
    requires forall i :: 0 <= i < |c| ==> c[i].ts <= ts
    requires forall i :: 0 <= i < |d| ==> d[i].ts > ts
    ensures a == c
  {
    var s := a + b;
    assert forall i :: 0 <= i < |a| ==> s[i] == a[i];
    assert forall i :: 0 <= i < |c| ==> s[i] == c[i];
    assert b != [] ==> s[|a|] == b[0];
    assert d != [] ==> s[|c|] == d[0];
    assert |a| == |c|;
  }
}
