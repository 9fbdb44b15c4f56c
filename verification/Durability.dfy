/**
 Durability of the tick stream over whole runs: appends, database writes, commits, failures of
 each of them, crashes and restarts, in any order.
 */
module Durability {
  import opened Rows
  import opened WriteAheadLog
  import opened TickTable

  /** Where the writer stands: between batches, logged, stored but not committed, or not running. */
  datatype Phase = Idle | Logged | Stored | Down

  /**
   `cache` is the log file as the process sees it and `stable` what is on stable storage;
   `acked` holds the batches whose append returned.  The line codec is a parameter of the run.
   */
  datatype System = System(
    codec: Codec<TickRow>, phase: Phase, cache: string, stable: string, pending: seq<TickRow>, db: Table,
    acked: seq<seq<TickRow>>)

  datatype Event =
    | Append(rows: seq<TickRow>)
    | AppendFails(rows: seq<TickRow>, kept: nat)
    | DbWrites
    | DbFails(applied: bool)
    | Commits(synced: bool)
    | CommitFails
    | Crash(content: string)
    | Reopen(readable: bool)

  function Start(codec: Codec<TickRow>): System { System(codec, Idle, "", "", [], map[], []) }

  function Take(s: string, k: nat): string { if k <= |s| then s[..k] else s }

  /** One event; an event that cannot occur in the current phase changes nothing. */
  function Step(s: System, e: Event): (s': System)
    ensures s'.codec == s.codec
  {
    match e
    case Append(rows) =>
      if s.phase != Idle then s
      else if rows == [] then s.(phase := Logged)
      else
        var f := s.cache + Block(s.codec, rows);
        s.(phase := Logged, cache := f, stable := f, pending := s.pending + rows, acked := s.acked + [rows])
    case AppendFails(rows, kept) =>
      if s.phase != Idle then s else s.(cache := s.cache + Take(Block(s.codec, rows), kept))
    case DbWrites =>
      if s.phase != Logged then s else s.(phase := Stored, db := Write(s.db, s.pending))
    case DbFails(applied) =>
      if s.phase != Logged then s
      else s.(phase := Idle, db := if applied then Write(s.db, s.pending) else s.db)
    case Commits(synced) =>
      if s.phase != Stored then s
      else s.(phase := Idle, cache := "", stable := if synced then "" else s.stable, pending := [])
    case CommitFails =>
      if s.phase != Stored then s else s.(phase := Idle)
    case Crash(content) =>
      if s.phase == Down || !Survives(s.cache, s.stable, content) then s
      else s.(phase := Down, cache := content, stable := content, pending := [])
    case Reopen(readable) =>
      if s.phase != Down then s
      else
        var recovered := if readable then Replay(s.codec, s.cache) else [];
        s.(phase := if recovered == [] then Idle else Logged, pending := recovered)
  }

  function Run(s: System, evs: seq<Event>): (s': System)
    ensures s'.codec == s.codec
  {
    if evs == [] then s else Step(Run(s, evs[..|evs| - 1]), evs[|evs| - 1])
  }

  lemma RunSnoc(s: System, evs: seq<Event>, e: Event)
    ensures Run(s, evs + [e]) == Step(Run(s, evs), e)
  {
    assert (evs + [e])[..|evs|] == evs;
  }

  lemma {:induction false} RunPrepend(s: System, e: Event, evs: seq<Event>)
    ensures Run(s, [e] + evs) == Run(Step(s, e), evs)
  {
    if evs == [] {
      assert ([e] + evs)[..0] == [];
    } else {
      assert ([e] + evs)[..|evs|] == [e] + evs[..|evs| - 1];
      RunPrepend(s, e, evs[..|evs| - 1]);
    }
  }

  /** A tick whose line is read back as it was written. */
  ghost predicate Loggable(s: System, r: TickRow) { Faithful(s.codec, r) }

  /**
   What an event asks for: an append that returns starts at the beginning of a line, and a restart reads the
   file, unless there is nothing in it to recover.
   */
  ghost predicate Sound(s: System, e: Event) {
    match e
    case Append(rows) =>
      s.phase == Idle ==> Aligned(s.cache) && forall i :: 0 <= i < |rows| ==> Loggable(s, rows[i])
    case Reopen(readable) => s.phase == Down ==> readable || Replay(s.codec, s.cache) == []
    case _ => true
  }

  ghost predicate SoundRun(s: System, evs: seq<Event>)
    decreases |evs|
  {
    evs == [] || (SoundRun(s, evs[..|evs| - 1]) && Sound(Run(s, evs[..|evs| - 1]), evs[|evs| - 1]))
  }

  /** The trade `k` of batch `b` is in the table as often as in the batch, or so often in `rows`. */
  ghost predicate Kept(db: Table, rows: seq<TickRow>, b: seq<TickRow>, k: TickKey) {
    || (forall n: nat :: n < Occurrences(b, k) ==> (k, n) in db)
    || Occurrences(b, k) <= Occurrences(rows, k)
  }

  ghost predicate AllKept(s: System, rows: seq<TickRow>) {
    forall i, k :: 0 <= i < |s.acked| ==> Kept(s.db, rows, s.acked[i], k)
  }

  /** The rows that are safe in a file: those in front of its last line break. */
  function SafeRows(s: System, content: string): seq<TickRow> { Replay(s.codec, Head(content)) }

  /** Whatever a crash leaves of the file keeps every acknowledged batch. */
  ghost predicate FileKeeps(s: System) {
    forall content :: Survives(s.cache, s.stable, content) ==> AllKept(s, SafeRows(s, content))
  }

  ghost predicate Inv(s: System) {
    && (s.phase != Down ==> AllKept(s, s.pending))
    && (s.phase == Down ==> s.cache == s.stable)
    && (s.phase == Stored ==> forall k, n: nat :: n < Occurrences(s.pending, k) ==> (k, n) in s.db)
    && FileKeeps(s)
  }

  lemma {:induction false} OccurrencesConcat(a: seq<TickRow>, b: seq<TickRow>, k: TickKey)
    ensures Occurrences(a + b, k) == Occurrences(a, k) + Occurrences(b, k)
  {
    if b == [] {
      assert a + b == a;
    } else {
      assert (a + b)[..|a + b| - 1] == a + b[..|b| - 1];
      OccurrencesConcat(a, b[..|b| - 1], k);
    }
  }

  /** More rows or a grown table keep whatever was kept. */
  lemma KeptGrows(s: System, rows: seq<TickRow>, s': System, more: seq<TickRow>)
    requires AllKept(s, rows) && s'.acked == s.acked
    requires rows <= more
    requires forall p :: p in s.db ==> p in s'.db
    ensures AllKept(s', more)
  {
    forall i, k | 0 <= i < |s.acked|
      ensures Kept(s'.db, more, s.acked[i], k)
    {
      assert Kept(s.db, rows, s.acked[i], k);
      assert more == rows + more[|rows|..];
      OccurrencesConcat(rows, more[|rows|..], k);
    }
  }

  /** The file condition does not depend on the phase, and survives growth of the table. */
  lemma SameFile(s: System, s': System)
    requires FileKeeps(s) && s'.codec == s.codec && s'.acked == s.acked && s'.cache == s.cache && s'.stable == s.stable
    requires forall p :: p in s.db ==> p in s'.db
    ensures FileKeeps(s')
  {
    forall content | Survives(s'.cache, s'.stable, content)
      ensures AllKept(s', SafeRows(s, content))
    {
      KeptGrows(s, SafeRows(s, content), s', SafeRows(s, content));
    }
  }

  lemma WriteGrows(t: Table, rows: seq<TickRow>)
    ensures forall p :: p in t ==> p in Write(t, rows)
    ensures forall k, n: nat :: n < Occurrences(rows, k) ==> (k, n) in Write(t, rows)
  {
    forall p | p in t
      ensures p in Write(t, rows)
    {
      WrittenKeys(t, rows, p.0, p.1);
    }
    forall k, n: nat | n < Occurrences(rows, k)
      ensures (k, n) in Write(t, rows)
    {
      WrittenKeys(t, rows, k, n);
    }
  }

  /** An acknowledged append adds the batch to what every crash leaves. */
  lemma AppendKeeps(s: System, rows: seq<TickRow>)
    requires Inv(s) && s.phase == Idle && Aligned(s.cache) && rows != []
    requires forall i :: 0 <= i < |rows| ==> Loggable(s, rows[i])
    ensures Inv(Step(s, Append(rows)))
  {
    var s' := Step(s, Append(rows));
    var block := Block(s.codec, rows);
    BlockAligned(s.codec, rows);
    assert Aligned(s.cache + block);
    ReplayConcat(s.codec, s.cache, block);
    ReplayBlock(s.codec, rows);
    FaithfulImages(s.codec, rows);
    assert SafeRows(s, s'.cache) == SafeRows(s, s.cache) + rows;
    assert Survives(s.cache, s.stable, s.cache);
    AppendedKept(s, s.pending, rows, s');
    AppendedKept(s, SafeRows(s, s.cache), rows, s');
  }

  lemma AppendedKept(s: System, rows: seq<TickRow>, batch: seq<TickRow>, s': System)
    requires AllKept(s, rows) && s'.acked == s.acked + [batch] && s'.db == s.db
    ensures AllKept(s', rows + batch)
  {
    KeptGrows(s, rows, s, rows + batch);
    forall i, k | 0 <= i < |s'.acked|
      ensures Kept(s'.db, rows + batch, s'.acked[i], k)
    {
      if i < |s.acked| {
        assert s'.acked[i] == s.acked[i];
      } else {
        OccurrencesConcat(rows, batch, k);
      }
    }
  }

  /** Torn bytes at the end of the file harm no row in front of the last line break. */
  lemma TornKeeps(s: System, junk: string)
    requires Inv(s) && s.phase == Idle
    ensures Inv(s.(cache := s.cache + junk))
  {
    var s' := s.(cache := s.cache + junk);
    forall content | Survives(s'.cache, s'.stable, content)
      ensures AllKept(s', SafeRows(s, content))
    {
      if content == s.stable || content <= s.cache {
        assert Survives(s.cache, s.stable, content);
      } else {
        assert Survives(s.cache, s.stable, s.cache);
        assert s.cache <= content;
        ReplayHeadGrows(s.codec, s.cache, content);
      }
      var base := if content == s.stable || content <= s.cache then content else s.cache;
      KeptGrows(s, SafeRows(s, base), s', SafeRows(s, content));
    }
  }

  lemma DbKeeps(s: System, phase: Phase)
    requires Inv(s) && s.phase == Logged && (phase == Stored || phase == Idle)
    ensures Inv(s.(phase := phase, db := Write(s.db, s.pending)))
  {
    var s' := s.(phase := phase, db := Write(s.db, s.pending));
    WriteGrows(s.db, s.pending);
    KeptGrows(s, s.pending, s', s.pending);
    SameFile(s, s');
  }

  /** Once everything pending is stored, nothing depends on the log any more. */
  lemma StoredNeedsNoLog(s: System, rows: seq<TickRow>)
    requires Inv(s) && s.phase == Stored
    ensures AllKept(s, rows)
  {
    forall i, k | 0 <= i < |s.acked|
      ensures Kept(s.db, rows, s.acked[i], k)
    {
      assert Kept(s.db, s.pending, s.acked[i], k);
    }
  }

  lemma CommitKeeps(s: System, synced: bool)
    requires Inv(s) && s.phase == Stored
    ensures Inv(Step(s, Commits(synced)))
  {
    var s' := Step(s, Commits(synced));
    StoredNeedsNoLog(s, []);
    KeptGrows(s, [], s', []);
    forall content | Survives(s'.cache, s'.stable, content)
      ensures AllKept(s', SafeRows(s, content))
    {
      StoredNeedsNoLog(s, SafeRows(s, content));
      KeptGrows(s, SafeRows(s, content), s', SafeRows(s, content));
    }
  }

  lemma CrashKeeps(s: System, content: string)
    requires Inv(s) && s.phase != Down && Survives(s.cache, s.stable, content)
    ensures Inv(Step(s, Crash(content)))
  {
    var s' := Step(s, Crash(content));
    KeptGrows(s, SafeRows(s, content), s', SafeRows(s, content));
    assert forall c :: Survives(content, content, c) ==> c == content;
  }

  lemma SafeRowsRecovered(s: System, content: string)
    ensures SafeRows(s, content) <= Replay(s.codec, content)
  {
    ReplaySplit(s.codec, content);
  }

  lemma RecoverKeeps(s: System, recovered: seq<TickRow>, phase: Phase)
    requires Inv(s) && s.phase == Down && SafeRows(s, s.cache) <= recovered
    requires phase == Idle || phase == Logged
    ensures Inv(s.(phase := phase, pending := recovered))
  {
    var s' := s.(phase := phase, pending := recovered);
    assert Survives(s.cache, s.stable, s.cache);
    KeptGrows(s, SafeRows(s, s.cache), s', recovered);
    SameFile(s, s');
  }

  lemma ReopenKeeps(s: System, readable: bool)
    requires Inv(s) && s.phase == Down && Sound(s, Reopen(readable))
    ensures Inv(Step(s, Reopen(readable)))
  {
    var recovered := Replay(s.codec, s.cache);
    SafeRowsRecovered(s, s.cache);
    RecoverKeeps(s, recovered, if recovered == [] then Idle else Logged);
  }

  lemma StepKeeps(s: System, e: Event)
    requires Inv(s) && Sound(s, e)
    ensures Inv(Step(s, e))
  {
    match e
    case Append(rows) =>
      if s.phase == Idle && rows != [] {
        AppendKeeps(s, rows);
      } else if s.phase == Idle {
        PhaseKeeps(s, Logged);
      }
    case AppendFails(rows, kept) =>
      if s.phase == Idle {
        TornKeeps(s, Take(Block(s.codec, rows), kept));
      }
    case DbWrites =>
      if s.phase == Logged {
        DbKeeps(s, Stored);
      }
    case DbFails(applied) =>
      if s.phase == Logged {
        if applied {
          DbKeeps(s, Idle);
        } else {
          PhaseKeeps(s, Idle);
        }
      }
    case Commits(synced) =>
      if s.phase == Stored {
        CommitKeeps(s, synced);
      }
    case CommitFails =>
      if s.phase == Stored {
        PhaseKeeps(s, Idle);
      }
    case Crash(content) =>
      if s.phase != Down && Survives(s.cache, s.stable, content) {
        CrashKeeps(s, content);
      }
    case Reopen(readable) =>
      if s.phase == Down {
        ReopenKeeps(s, readable);
      }
  }

  lemma PhaseKeeps(s: System, phase: Phase)
    requires Inv(s) && s.phase != Down && (phase == Idle || phase == Logged)
    ensures Inv(s.(phase := phase))
  {
    var s' := s.(phase := phase);
    KeptGrows(s, s.pending, s', s.pending);
    SameFile(s, s');
  }

  lemma {:induction false} RunKeeps(codec: Codec<TickRow>, evs: seq<Event>)
    requires SoundRun(Start(codec), evs)
    ensures Inv(Run(Start(codec), evs))
  {
    if evs == [] {
      assert AllKept(Start(codec), []);
    } else {
      RunKeeps(codec, evs[..|evs| - 1]);
      StepKeeps(Run(Start(codec), evs[..|evs| - 1]), evs[|evs| - 1]);
    }
  }

  /** The rows waiting for the next write, after a restart that reads the file if the process is down. */
  function Waiting(s: System): seq<TickRow> {
    if s.phase == Down then Step(s, Reopen(true)).pending else s.pending
  }

  /**
   Durability: after any run in which appends start on an aligned file and restarts read it, every trade of
   every acknowledged batch is in the table, or is pending, or would be pending after a restart, as many
   times as the batch holds it.
   */
  lemma Durable(codec: Codec<TickRow>, evs: seq<Event>)
    requires SoundRun(Start(codec), evs)
    ensures var s := Run(Start(codec), evs); AllKept(s, Waiting(s))
  {
    RunKeeps(codec, evs);
    var s := Run(Start(codec), evs);
    if s.phase == Down {
      ReopenKeeps(s, true);
    }
  }

  // ---------------------------------------------------------------- a restart that cannot read its file

  /** The next batch after a restart that left the file unread, stored and committed. */
  function AfterUnread(s: System, rows: seq<TickRow>, synced: bool): System {
    Step(Step(Step(Step(s, Reopen(false)), Append(rows)), DbWrites), Commits(synced))
  }

  lemma AfterUnreadIs(s: System, rows: seq<TickRow>, synced: bool)
    requires s.phase == Down
    ensures var t := AfterUnread(s, rows, synced);
            && t.db == Write(s.db, rows) && t.pending == [] && t.cache == "" && t.phase == Idle
            && t.acked == s.acked + (if rows == [] then [] else [rows])
            && (synced ==> t.stable == "")
  {
    var s1 := Step(s, Reopen(false));
    assert s1 == s.(phase := Idle, pending := []);
    var s2 := Step(s1, Append(rows));
    assert s2.pending == rows && s2.phase == Logged && s2.db == s.db by { assert [] + rows == rows; }
    assert Step(s2, DbWrites) == s2.(phase := Stored, db := Write(s.db, rows));
  }

  lemma KeptInTable(t: Table, rows: seq<TickRow>, b: seq<TickRow>, k: TickKey)
    ensures Kept(Write(t, rows), [], b, k) <==>
            forall n: nat :: n < Occurrences(b, k) ==> (k, n) in t || n < Occurrences(rows, k)
  {
    forall n: nat ensures (k, n) in Write(t, rows) <==> (k, n) in t || n < Occurrences(rows, k) {
      WrittenKeys(t, rows, k, n);
    }
  }

  /**
   The commit truncates rows that nobody read: an acknowledged trade is kept from then on exactly as far as
   the table already held it or the new batch does, and the file holds nothing.
   */
  lemma UnreadRestartKeepsIff(s: System, rows: seq<TickRow>, synced: bool, i: nat, k: TickKey)
    requires s.phase == Down && i < |s.acked|
    ensures var t := AfterUnread(s, rows, synced);
            && i < |t.acked| && t.acked[i] == s.acked[i] && t.pending == [] && t.cache == ""
            && (Kept(t.db, t.pending, t.acked[i], k) <==>
                forall n: nat :: n < Occurrences(s.acked[i], k) ==> (k, n) in s.db || n < Occurrences(rows, k))
  {
    AfterUnreadIs(s, rows, synced);
    KeptInTable(s.db, rows, s.acked[i], k);
  }
}
