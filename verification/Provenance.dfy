/** What can reach the tick table at all: submitted rows, up to an exchange cut by a torn write. */
module Provenance {
  import opened Rows
  import opened RowCodecs
  import opened WriteAheadLog
  import opened TickTable
  import opened Durability
  import opened LogCodecs

  /** A row of `rows`, or such a row with its exchange cut short by a torn write. */
  ghost predicate Genuine(rows: seq<TickRow>, r: TickRow) {
    exists i, n: nat :: 0 <= i < |rows| && n <= |rows[i].exchange| && r == Cut(rows[i], n)
  }

  function Cut(r: TickRow, n: nat): TickRow
    requires n <= |r.exchange|
  {
    r.(exchange := r.exchange[..n])
  }

  ghost predicate AllGenuine(rows: seq<TickRow>, got: seq<TickRow>) {
    forall j :: 0 <= j < |got| ==> Genuine(rows, got[j])
  }

  lemma GenuineSelf(rows: seq<TickRow>)
    ensures AllGenuine(rows, rows)
  {
    forall j | 0 <= j < |rows|
      ensures Genuine(rows, rows[j])
    {
      assert rows[j] == Cut(rows[j], |rows[j].exchange|);
    }
  }

  lemma GenuineGrows(rows: seq<TickRow>, more: seq<TickRow>, r: TickRow)
    requires Genuine(rows, r)
    ensures Genuine(rows + more, r) && Genuine(more + rows, r)
  {
    var i, n: nat :| 0 <= i < |rows| && n <= |rows[i].exchange| && r == Cut(rows[i], n);
    assert (rows + more)[i] == rows[i] && (more + rows)[|more| + i] == rows[i];
  }

  /** Whatever part of the row's line reaches the disk, only a genuine row is read from it. */
  ghost predicate TearsCleanly(codec: Codec<TickRow>, r: TickRow) {
    && Faithful(codec, r)
    && forall k {:trigger codec.toLine(r)[..k]} :: 0 <= k <= |codec.toLine(r)| ==>
         AllGenuine([r], Replay(codec, codec.toLine(r)[..k]))
  }

  /** Whatever part of a block reaches the disk, only genuine rows are read from it. */
  lemma {:induction false} TornBlockGenuine(codec: Codec<TickRow>, rows: seq<TickRow>, k: nat)
    requires forall i :: 0 <= i < |rows| ==> TearsCleanly(codec, rows[i])
    requires k <= |Block(codec, rows)|
    ensures AllGenuine(rows, Replay(codec, Block(codec, rows)[..k]))
  {
    if rows == [] {
      ReplayEmpty(codec);
    } else {
      var line, rest := codec.toLine(rows[0]), Block(codec, rows[1..]);
      if k <= |line| {
        assert (line + "\n" + rest)[..k] == line[..k];
        GenuineHead(rows, Replay(codec, line[..k]));
      } else {
        var j := k - |line| - 1;
        TornBlockGenuine(codec, rows[1..], j);
        WholeLineGenuine(codec, rows, line, rest[..j]);
        assert (line + "\n" + rest)[..k] == line + "\n" + rest[..j];
      }
    }
  }

  lemma WholeLineGenuine(codec: Codec<TickRow>, rows: seq<TickRow>, line: string, rest: string)
    requires rows != [] && TearsCleanly(codec, rows[0]) && line == codec.toLine(rows[0])
    requires AllGenuine(rows[1..], Replay(codec, rest))
    ensures AllGenuine(rows, Replay(codec, line + "\n" + rest))
  {
    ReplayLine(codec, line, rest);
    assert line[..|line|] == line;
    GenuineHead(rows, Replay(codec, line));
    GenuineTail(rows, Replay(codec, rest));
  }

  /** Tick lines tear cleanly: only a cut inside the exchange leaves something that parses. */
  lemma TicksTearCleanly(r: TickRow)
    requires Faithful(TICKS, r)
    ensures TearsCleanly(TICKS, r)
  {
    forall k | 0 <= k <= |TICKS.toLine(r)|
      ensures AllGenuine([r], Replay(TICKS, TICKS.toLine(r)[..k]))
    {
      TornLineGenuine(r, k);
    }
  }

  lemma TornLineGenuine(r: TickRow, k: nat)
    requires Faithful(TICKS, r) && k <= |TickToLine(r)|
    ensures AllGenuine([r], Replay(TICKS, TickToLine(r)[..k]))
  {
    var cut := TickToLine(r)[..k];
    TickRoundTrip(r);
    TornTick(r, k);
    assert forall i :: 0 <= i < |cut| ==> cut[i] == TickToLine(r)[i];
    ReplayUnbroken(TICKS, cut);
    StripSafe(cut);
    if k > |TickHead(r)| {
      assert Replay(TICKS, cut) == [Cut([r][0], k - |TickHead(r)|)];
    } else if cut != "" {
      assert Replay(TICKS, cut) == [];
    }
  }

  lemma GenuineHead(rows: seq<TickRow>, got: seq<TickRow>)
    requires rows != [] && AllGenuine([rows[0]], got)
    ensures AllGenuine(rows, got)
  {
    forall j | 0 <= j < |got|
      ensures Genuine(rows, got[j])
    {
      GenuineGrows([rows[0]], rows[1..], got[j]);
      assert [rows[0]] + rows[1..] == rows;
    }
  }

  lemma GenuineTail(rows: seq<TickRow>, got: seq<TickRow>)
    requires rows != [] && AllGenuine(rows[1..], got)
    ensures AllGenuine(rows, got)
  {
    forall j | 0 <= j < |got|
      ensures Genuine(rows, got[j])
    {
      GenuineGrows(rows[1..], [rows[0]], got[j]);
      assert [rows[0]] + rows[1..] == rows;
    }
  }

  /** Every row that some append of the run was given. */
  function Submitted(evs: seq<Event>): seq<TickRow> {
    if evs == [] then []
    else
      var e := evs[|evs| - 1];
      Submitted(evs[..|evs| - 1]) + (if e.Append? || e.AppendFails? then e.rows else [])
  }

  /** Every append, failing ones included, starts at the beginning of a line. */
  ghost predicate CleanRun(s: System, evs: seq<Event>)
    decreases |evs|
  {
    evs == [] ||
    (CleanRun(s, evs[..|evs| - 1]) &&
     var e, before := evs[|evs| - 1], Run(s, evs[..|evs| - 1]);
     (e.Append? || e.AppendFails?) && before.phase == Idle ==>
       Aligned(before.cache) && forall i :: 0 <= i < |e.rows| ==> TearsCleanly(s.codec, e.rows[i]))
  }

  ghost predicate StoredGenuine(rows: seq<TickRow>, t: Table) {
    forall p :: p in t ==> exists r :: Genuine(rows, r) && KeyOf(r) == p.0
  }

  ghost predicate FileGenuine(rows: seq<TickRow>, s: System) {
    forall content :: Survives(s.cache, s.stable, content) ==> AllGenuine(rows, Replay(s.codec, content))
  }

  ghost predicate Clean(rows: seq<TickRow>, s: System) {
    && AllGenuine(rows, s.pending)
    && StoredGenuine(rows, s.db)
    && FileGenuine(rows, s)
    && (s.phase == Down ==> s.cache == s.stable)
  }

  lemma CleanGrows(rows: seq<TickRow>, more: seq<TickRow>, s: System)
    requires Clean(rows, s)
    ensures Clean(rows + more, s)
  {
    forall r | Genuine(rows, r)
      ensures Genuine(rows + more, r)
    {
      GenuineGrows(rows, more, r);
    }
  }

  lemma WriteGenuine(rows: seq<TickRow>, t: Table, batch: seq<TickRow>)
    requires StoredGenuine(rows, t) && AllGenuine(rows, batch)
    ensures StoredGenuine(rows, Write(t, batch))
  {
    forall p | p in Write(t, batch)
      ensures exists r :: Genuine(rows, r) && KeyOf(r) == p.0
    {
      WrittenKeys(t, batch, p.0, p.1);
      if p !in t {
        var i := OccurrenceAt(batch, p.0);
        assert Genuine(rows, batch[i]);
      }
    }
  }

  lemma {:induction false} OccurrenceAt(batch: seq<TickRow>, k: TickKey) returns (i: nat)
    requires Occurrences(batch, k) > 0
    ensures i < |batch| && KeyOf(batch[i]) == k
  {
    i := |batch| - 1;
    if KeyOf(batch[i]) != k {
      i := OccurrenceAt(batch[..i], k);
    }
  }

  lemma ExtendGenuine(rows: seq<TickRow>, s: System, batch: seq<TickRow>, k: nat)
    requires Clean(rows, s) && Aligned(s.cache)
    requires forall i :: 0 <= i < |batch| ==> TearsCleanly(s.codec, batch[i])
    requires k <= |Block(s.codec, batch)|
    ensures AllGenuine(rows + batch, Replay(s.codec, s.cache + Block(s.codec, batch)[..k]))
  {
    CleanGrows(rows, batch, s);
    assert Survives(s.cache, s.stable, s.cache);
    ReplayConcat(s.codec, s.cache, Block(s.codec, batch)[..k]);
    TornBlockGenuine(s.codec, batch, k);
    forall j | 0 <= j < |Replay(s.codec, Block(s.codec, batch)[..k])|
      ensures Genuine(rows + batch, Replay(s.codec, Block(s.codec, batch)[..k])[j])
    {
      GenuineGrows(batch, rows, Replay(s.codec, Block(s.codec, batch)[..k])[j]);
    }
  }

  lemma PendingGenuine(rows: seq<TickRow>, pending: seq<TickRow>, batch: seq<TickRow>)
    requires AllGenuine(rows, pending)
    ensures AllGenuine(rows + batch, pending + batch)
  {
    GenuineSelf(batch);
    forall j | 0 <= j < |pending + batch|
      ensures Genuine(rows + batch, (pending + batch)[j])
    {
      if j < |pending| {
        GenuineGrows(rows, batch, pending[j]);
      } else {
        GenuineGrows(batch, rows, batch[j - |pending|]);
      }
    }
  }

  lemma AppendClean(rows: seq<TickRow>, s: System, batch: seq<TickRow>)
    requires Clean(rows, s) && s.phase == Idle && Aligned(s.cache)
    requires forall i :: 0 <= i < |batch| ==> TearsCleanly(s.codec, batch[i])
    ensures Clean(rows + batch, Step(s, Append(batch)))
  {
    CleanGrows(rows, batch, s);
    if batch != [] {
      var block := Block(s.codec, batch);
      var f := s.cache + block;
      var s' := s.(phase := Logged, cache := f, stable := f, pending := s.pending + batch,
                   acked := s.acked + [batch]);
      ExtendGenuine(rows, s, batch, |block|);
      assert block[..|block|] == block;
      PendingGenuine(rows, s.pending, batch);
      OneContent(rows + batch, s');
    }
  }

  lemma OneContent(rows: seq<TickRow>, s: System)
    requires s.cache == s.stable && AllGenuine(rows, Replay(s.codec, s.cache))
    ensures FileGenuine(rows, s)
  {
    forall content | Survives(s.cache, s.stable, content)
      ensures content == s.cache
    {
    }
  }

  lemma TornClean(rows: seq<TickRow>, s: System, batch: seq<TickRow>, kept: nat)
    requires Clean(rows, s) && s.phase == Idle && Aligned(s.cache)
    requires forall i :: 0 <= i < |batch| ==> TearsCleanly(s.codec, batch[i])
    ensures Clean(rows + batch, Step(s, AppendFails(batch, kept)))
  {
    var s' := Step(s, AppendFails(batch, kept));
    var block := Block(s.codec, batch);
    CleanGrows(rows, batch, s);
    forall content | Survives(s'.cache, s'.stable, content)
      ensures AllGenuine(rows + batch, Replay(s.codec, content))
    {
      if content == s.stable || content <= s.cache {
        assert Survives(s.cache, s.stable, content);
      } else {
        var k := |content| - |s.cache|;
        assert content == s.cache + block[..k];
        ExtendGenuine(rows, s, batch, k);
      }
    }
  }

  lemma OtherClean(rows: seq<TickRow>, s: System, e: Event)
    requires Clean(rows, s) && !e.Append? && !e.AppendFails?
    ensures Clean(rows, Step(s, e))
  {
    WriteGenuine(rows, s.db, s.pending);
    if e.Reopen? {
      assert Survives(s.cache, s.stable, s.cache);
    } else if e.Commits? {
      ReplayEmpty(s.codec);
      assert Survives(s.cache, s.stable, s.stable);
    }
  }

  lemma {:induction false} RunClean(codec: Codec<TickRow>, evs: seq<Event>)
    requires CleanRun(Start(codec), evs)
    ensures Clean(Submitted(evs), Run(Start(codec), evs))
  {
    if evs == [] {
      ReplayEmpty(codec);
    } else {
      var front, e := evs[..|evs| - 1], evs[|evs| - 1];
      RunClean(codec, front);
      var s, rows := Run(Start(codec), front), Submitted(front);
      if e.Append? || e.AppendFails? {
        if s.phase != Idle {
          CleanGrows(rows, e.rows, s);
        } else if e.Append? {
          AppendClean(rows, s, e.rows);
        } else {
          TornClean(rows, s, e.rows, e.kept);
        }
      } else {
        assert rows + [] == rows;
        OtherClean(rows, s, e);
      }
    }
  }

  /**
   Nothing is invented: in a run whose appends all start on an aligned file, every stored or pending
   trade was submitted, up to an exchange cut short by a torn write.
   */
  lemma NothingInvented(codec: Codec<TickRow>, evs: seq<Event>)
    requires CleanRun(Start(codec), evs)
    ensures var s := Run(Start(codec), evs);
            StoredGenuine(Submitted(evs), s.db) && AllGenuine(Submitted(evs), s.pending)
  {
    RunClean(codec, evs);
  }
}
