/** How often a trade can come to be stored: the bound over whole runs, and the retry that stores one twice. */
module Duplicates {
  import opened Rows
  import opened WriteAheadLog
  import opened TickTable
  import opened Durability
  import opened Provenance

  // ---------------------------------------------------------------- the bound

  /** The row, or the row with its exchange cut short, is the trade `k`. */
  ghost predicate CanRead(r: TickRow, k: TickKey) {
    exists n: nat :: n <= |r.exchange| && KeyOf(Cut(r, n)) == k
  }

  /** How many of the rows can read as the trade `k`. */
  ghost function Readable(rows: seq<TickRow>, k: TickKey): nat {
    if rows == [] then 0
    else Readable(rows[..|rows| - 1], k) + (if CanRead(rows[|rows| - 1], k) then 1 else 0)
  }

  lemma {:induction false} ReadableConcat(a: seq<TickRow>, b: seq<TickRow>, k: TickKey)
    ensures Readable(a + b, k) == Readable(a, k) + Readable(b, k)
  {
    if b == [] {
      assert a + b == a;
    } else {
      assert (a + b)[..|a + b| - 1] == a + b[..|b| - 1];
      ReadableConcat(a, b[..|b| - 1], k);
    }
  }

  lemma {:induction false} OccursReadable(rows: seq<TickRow>, k: TickKey)
    ensures Occurrences(rows, k) <= Readable(rows, k)
  {
    if rows != [] {
      var r := rows[|rows| - 1];
      OccursReadable(rows[..|rows| - 1], k);
      assert Cut(r, |r.exchange|) == r;
    }
  }

  /** A cut line yields at most its own row. */
  lemma CutLineOnce(codec: Codec<TickRow>, r: TickRow, j: nat, k: TickKey)
    requires TearsCleanly(codec, r) && j <= |codec.toLine(r)|
    ensures Occurrences(Replay(codec, codec.toLine(r)[..j]), k) <= Readable([r], k)
  {
    var cut := codec.toLine(r)[..j];
    var got := Replay(codec, cut);
    assert forall i :: 0 <= i < |cut| ==> cut[i] == codec.toLine(r)[i];
    ReplayUnbroken(codec, cut);
    assert |got| <= 1 && AllGenuine([r], got);
    assert [r][..0] == [] && got == (if got == [] then [] else [got[0]]);
    if got != [] {
      OneRead(r, got[0], k);
    }
  }

  lemma OneRead(r: TickRow, got: TickRow, k: TickKey)
    requires Genuine([r], got)
    ensures Occurrences([got], k) <= Readable([r], k)
  {
    assert [r][..0] == [] && [got][..0] == [];
    var i, n: nat :| 0 <= i < |[r]| && n <= |[r][i].exchange| && got == Cut([r][i], n);
    if KeyOf(got) == k {
      assert KeyOf(Cut(r, n)) == k;
    }
  }

  /** From any prefix of a block each row is read at most once. */
  lemma {:induction false} TornBlockOnce(codec: Codec<TickRow>, rows: seq<TickRow>, j: nat, k: TickKey)
    requires forall i :: 0 <= i < |rows| ==> TearsCleanly(codec, rows[i])
    requires j <= |Block(codec, rows)|
    ensures Occurrences(Replay(codec, Block(codec, rows)[..j]), k) <= Readable(rows, k)
  {
    if rows == [] {
      ReplayEmpty(codec);
    } else {
      var line, rest := codec.toLine(rows[0]), Block(codec, rows[1..]);
      ReadableConcat([rows[0]], rows[1..], k);
      assert [rows[0]] + rows[1..] == rows;
      if j <= |line| {
        assert (line + "\n" + rest)[..j] == line[..j];
        CutLineOnce(codec, rows[0], j, k);
      } else {
        var m := j - |line| - 1;
        TornBlockOnce(codec, rows[1..], m, k);
        CutLineOnce(codec, rows[0], |line|, k);
        assert line[..|line|] == line;
        assert (line + "\n" + rest)[..j] == line + "\n" + rest[..m];
        ReplayLine(codec, line, rest[..m]);
        OccurrencesConcat(Replay(codec, line), Replay(codec, rest[..m]), k);
      }
    }
  }

  /** No trade is pending, in the file, or stored, more often than the rows can read as it. */
  ghost predicate Bounded(rows: seq<TickRow>, s: System) {
    && (forall k :: Occurrences(s.pending, k) <= Readable(rows, k))
    && (forall k, n: nat :: (k, n) in s.db ==> n < Readable(rows, k))
    && FileBounded(rows, s)
    && (s.phase == Down ==> s.cache == s.stable)
  }

  ghost predicate FileBounded(rows: seq<TickRow>, s: System) {
    forall content, k :: Survives(s.cache, s.stable, content) ==>
      Occurrences(Replay(s.codec, content), k) <= Readable(rows, k)
  }

  lemma BoundGrows(rows: seq<TickRow>, more: seq<TickRow>, s: System)
    requires Bounded(rows, s)
    ensures Bounded(rows + more, s)
  {
    forall k ensures Readable(rows, k) <= Readable(rows + more, k) {
      ReadableConcat(rows, more, k);
    }
  }

  lemma ExtendBound(rows: seq<TickRow>, s: System, batch: seq<TickRow>, j: nat, k: TickKey)
    requires Bounded(rows, s) && Aligned(s.cache) && j <= |Block(s.codec, batch)|
    requires forall i :: 0 <= i < |batch| ==> TearsCleanly(s.codec, batch[i])
    ensures Occurrences(Replay(s.codec, s.cache + Block(s.codec, batch)[..j]), k) <= Readable(rows + batch, k)
  {
    var torn := Block(s.codec, batch)[..j];
    assert Survives(s.cache, s.stable, s.cache);
    ReplayConcat(s.codec, s.cache, torn);
    OccurrencesConcat(Replay(s.codec, s.cache), Replay(s.codec, torn), k);
    TornBlockOnce(s.codec, batch, j, k);
    ReadableConcat(rows, batch, k);
  }

  lemma AppendBounded(rows: seq<TickRow>, s: System, batch: seq<TickRow>)
    requires Bounded(rows, s) && s.phase == Idle && Aligned(s.cache)
    requires forall i :: 0 <= i < |batch| ==> TearsCleanly(s.codec, batch[i])
    ensures Bounded(rows + batch, Step(s, Append(batch)))
  {
    BoundGrows(rows, batch, s);
    if batch != [] {
      var s' := Step(s, Append(batch));
      var block := Block(s.codec, batch);
      assert block[..|block|] == block;
      forall k ensures Occurrences(s'.pending, k) <= Readable(rows + batch, k) {
        OccurrencesConcat(s.pending, batch, k);
        OccursReadable(batch, k);
        ReadableConcat(rows, batch, k);
      }
      forall content, k | Survives(s'.cache, s'.stable, content)
        ensures Occurrences(Replay(s.codec, content), k) <= Readable(rows + batch, k)
      {
        assert content == s.cache + block;
        ExtendBound(rows, s, batch, |block|, k);
      }
    }
  }

  lemma TornBounded(rows: seq<TickRow>, s: System, batch: seq<TickRow>, kept: nat)
    requires Bounded(rows, s) && s.phase == Idle && Aligned(s.cache)
    requires forall i :: 0 <= i < |batch| ==> TearsCleanly(s.codec, batch[i])
    ensures Bounded(rows + batch, Step(s, AppendFails(batch, kept)))
  {
    var s' := Step(s, AppendFails(batch, kept));
    var block := Block(s.codec, batch);
    BoundGrows(rows, batch, s);
    forall content, k | Survives(s'.cache, s'.stable, content)
      ensures Occurrences(Replay(s.codec, content), k) <= Readable(rows + batch, k)
    {
      if content == s.stable || content <= s.cache {
        assert Survives(s.cache, s.stable, content);
      } else {
        var j := |content| - |s.cache|;
        assert content == s.cache + block[..j];
        ExtendBound(rows, s, batch, j, k);
      }
    }
  }

  lemma OtherBounded(rows: seq<TickRow>, s: System, e: Event)
    requires Bounded(rows, s) && !e.Append? && !e.AppendFails?
    ensures Bounded(rows, Step(s, e))
  {
    forall k, n: nat | (k, n) in Write(s.db, s.pending) ensures n < Readable(rows, k) {
      WrittenKeys(s.db, s.pending, k, n);
    }
    if e.Reopen? {
      assert Survives(s.cache, s.stable, s.cache);
    } else if e.Commits? {
      ReplayEmpty(s.codec);
      assert Survives(s.cache, s.stable, s.stable);
    }
  }

  lemma {:induction false} RunBounded(codec: Codec<TickRow>, evs: seq<Event>)
    requires CleanRun(Start(codec), evs)
    ensures Bounded(Submitted(evs), Run(Start(codec), evs))
  {
    if evs == [] {
      ReplayEmpty(codec);
    } else {
      var front, e := evs[..|evs| - 1], evs[|evs| - 1];
      RunBounded(codec, front);
      var s, rows := Run(Start(codec), front), Submitted(front);
      if e.Append? || e.AppendFails? {
        if s.phase != Idle {
          BoundGrows(rows, e.rows, s);
        } else if e.Append? {
          AppendBounded(rows, s, e.rows);
        } else {
          TornBounded(rows, s, e.rows, e.kept);
        }
      } else {
        assert rows + [] == rows;
        OtherBounded(rows, s, e);
      }
    }
  }

  /**
   In a run whose appends start on an aligned file, no trade is stored more often than the rows given to
   appends, failed ones included, can read as it.
   */
  lemma StoredAtMostSubmitted(codec: Codec<TickRow>, evs: seq<Event>, k: TickKey)
    requires CleanRun(Start(codec), evs)
    ensures StoredCount(Run(Start(codec), evs).db, k) <= Readable(Submitted(evs), k)
  {
    RunBounded(codec, evs);
    CountBelow(Run(Start(codec), evs).db, k, Readable(Submitted(evs), k));
  }

  lemma CountBelow(t: Table, k: TickKey, c: nat)
    requires forall n: nat :: (k, n) in t ==> n < c
    ensures StoredCount(t, k) <= c
  {
    var stored := set p | p in t.Keys && p.0 == k;
    var all := set n: nat | n < c :: (k, n);
    assert stored <= all;
    CountRanks(all, k, c);
    SubsetSize(stored, all);
  }

  lemma {:induction false} SubsetSize<T>(a: set<T>, b: set<T>)
    requires a <= b
    ensures |a| <= |b|
    decreases |b|
  {
    if a != {} {
      var x :| x in a;
      SubsetSize(a - {x}, b - {x});
    }
  }

  // ---------------------------------------------------------------- the retry that stores a trade twice

  /** A failed append, its retry, a crash before the commit, a restart and a write. */
  function RetriedRun(codec: Codec<TickRow>, a: TickRow, kept: nat): seq<Event> {
    var torn := Take(Block(codec, [a]), kept);
    [AppendFails([a], kept)] + [Append([a])] + [Crash(torn + Block(codec, [a]))] + [Reopen(true)] + [DbWrites]
  }

  lemma RetriedState(codec: Codec<TickRow>, a: TickRow, kept: nat)
    ensures var s, block := Run(Start(codec), RetriedRun(codec, a, kept)), Block(codec, [a]);
            && s.acked == [[a]]
            && s.db == Write(map[], Replay(codec, Take(block, kept) + block))
  {
    var s0, block := Start(codec), Block(codec, [a]);
    var torn := Take(block, kept);
    var e1, e2, e3 := AppendFails([a], kept), Append([a]), Crash(torn + block);
    assert [e1] == [] + [e1];
    RunSnoc(s0, [], e1);
    RunSnoc(s0, [e1], e2);
    RunSnoc(s0, [e1] + [e2], e3);
    RunSnoc(s0, [e1] + [e2] + [e3], Reopen(true));
    RunSnoc(s0, [e1] + [e2] + [e3] + [Reopen(true)], DbWrites);
    var s1 := s0.(cache := torn);
    assert Step(s0, e1) == s1 by { assert "" + torn == torn; }
    var s2 := Step(s1, e2);
    assert s2.cache == s2.stable == torn + block && s2.acked == [] + [[a]] && s2.db == map[];
    RetriedRestart(s2, torn + block);
  }

  lemma RetriedRestart(s: System, content: string)
    requires s.phase == Logged && s.cache == s.stable == content && s.db == map[]
    ensures var t := Step(Step(Step(s, Crash(content)), Reopen(true)), DbWrites);
            t.acked == s.acked && t.db == Write(map[], Replay(s.codec, content))
  {
    var down := s.(phase := Down, pending := []);
    assert Step(s, Crash(content)) == down;
    var rows := Replay(s.codec, content);
    assert Write(map[], []) == map[];
  }

  /**
   A trade acknowledged once is stored twice by that run exactly when its failed append had reached the file as
   a whole, line break included.
   */
  lemma RetriedTickDoublesIff(codec: Codec<TickRow>, a: TickRow, kept: nat)
    requires Faithful(codec, a)
    ensures var s := Run(Start(codec), RetriedRun(codec, a, kept));
            s.acked == [[a]] && ((KeyOf(a), 1) in s.db <==> kept >= |Block(codec, [a])|)
  {
    var block := Block(codec, [a]);
    var torn := Take(block, kept);
    var rows := Replay(codec, torn + block);
    RetriedState(codec, a, kept);
    WrittenKeys(map[], rows, KeyOf(a), 1);
    if kept >= |block| {
      assert torn == block by { assert block[..|block|] == block; }
      BlockAligned(codec, [a]);
      ReplayConcat(codec, block, block);
      ReplayBlock(codec, [a]);
      FaithfulImages(codec, [a]);
      TwiceTheRow(a);
    } else {
      TornRead(codec, a, kept);
      AtMostOne(rows, KeyOf(a));
    }
  }

  lemma TwiceTheRow(a: TickRow)
    ensures Occurrences([a] + [a], KeyOf(a)) == 2
  {
    OccurrencesConcat([a], [a], KeyOf(a));
    assert [a][..0] == [];
  }

  lemma AtMostOne(rows: seq<TickRow>, k: TickKey)
    requires |rows| <= 1
    ensures Occurrences(rows, k) <= 1
  {
    if rows != [] {
      assert rows[..0] == [];
    }
  }

  /** A torn line and the whole line behind it read as one row at most. */
  lemma TornRead(codec: Codec<TickRow>, a: TickRow, kept: nat)
    requires Faithful(codec, a) && kept < |Block(codec, [a])|
    ensures var block := Block(codec, [a]); |Replay(codec, Take(block, kept) + block)| <= 1
  {
    var line := codec.toLine(a);
    var torn := line[..kept];
    assert [a][1..] == [] && Block(codec, [a]) == line + "\n" + "";
    assert Take(Block(codec, [a]), kept) == torn;
    assert forall i :: 0 <= i < kept ==> torn[i] == line[i];
    TailOfUnbroken(torn);
    ReplayAppend(codec, torn, [a]);
    ReplayEmpty(codec);
  }
}
