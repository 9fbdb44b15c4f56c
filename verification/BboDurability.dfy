/**
 Durability of the top-of-book stream over whole runs: the same log, with a merging statement in place of the
 tick insert, and with a statement that a repeated key makes fail.
 */
module BboDurability {
  import opened Prelude
  import opened Rows
  import opened RowCodecs
  import opened WriteAheadLog
  import opened BboTable
  import opened LogCodecs
  import Durability

  type Phase = Durability.Phase

  datatype System = System(
    codec: Codec<BboRow>, phase: Phase, cache: string, stable: string, pending: seq<BboRow>, db: Table,
    acked: seq<BboRow>)

  datatype Event =
    | Append(rows: seq<BboRow>)
    | AppendFails(rows: seq<BboRow>, kept: nat)
    | DbWrites
    | DbFails(applied: bool)
    | Commits(synced: bool)
    | CommitFails
    | Crash(content: string)
    | Reopen(readable: bool)

  function Start(codec: Codec<BboRow>): System { System(codec, Durability.Idle, "", "", [], map[], []) }

  /** One event; an event that cannot occur in the current phase changes nothing. */
  function Step(s: System, e: Event): (s': System)
    ensures s'.codec == s.codec
  {
    match e
    case Append(rows) =>
      if s.phase != Durability.Idle then s
      else if rows == [] then s.(phase := Durability.Logged)
      else
        var f := s.cache + Block(s.codec, rows);
        s.(phase := Durability.Logged, cache := f, stable := f, pending := s.pending + rows, acked := s.acked + rows)
    case AppendFails(rows, kept) =>
      if s.phase != Durability.Idle then s
      else s.(cache := s.cache + Durability.Take(Block(s.codec, rows), kept))
    case DbWrites =>
      if s.phase != Durability.Logged then s
      else if Statement(s.db, s.pending).None? then s.(phase := Durability.Idle)
      else s.(phase := Durability.Stored, db := Statement(s.db, s.pending).value)
    case DbFails(applied) =>
      if s.phase != Durability.Logged then s
      else if applied && Statement(s.db, s.pending).Some? then
        s.(phase := Durability.Idle, db := Statement(s.db, s.pending).value)
      else s.(phase := Durability.Idle)
    case Commits(synced) =>
      if s.phase != Durability.Stored then s
      else s.(phase := Durability.Idle, cache := "", stable := if synced then "" else s.stable, pending := [])
    case CommitFails =>
      if s.phase != Durability.Stored then s else s.(phase := Durability.Idle)
    case Crash(content) =>
      if s.phase == Durability.Down || !Survives(s.cache, s.stable, content) then s
      else s.(phase := Durability.Down, cache := content, stable := content, pending := [])
    case Reopen(readable) =>
      if s.phase != Durability.Down then s
      else
        var recovered := if readable then Replay(s.codec, s.cache) else [];
        s.(phase := if recovered == [] then Durability.Idle else Durability.Logged, pending := recovered)
  }

  function Run(s: System, evs: seq<Event>): (s': System)
    ensures s'.codec == s.codec
  {
    if evs == [] then s else Step(Run(s, evs[..|evs| - 1]), evs[|evs| - 1])
  }

  // ---------------------------------------------------------------- what a row says

  /** What a row, or a table, can know of a key: that there is a row, a bid, an ask. */
  datatype Fact = AnyRow | BidKnown | AskKnown

  predicate Carries(r: BboRow, f: Fact) {
    match f
    case AnyRow => true
    case BidKnown => r.bidPrice.Some?
    case AskKnown => r.askPrice.Some?
  }

  ghost predicate InRows(rows: seq<BboRow>, k: BboKey, f: Fact) {
    exists i :: 0 <= i < |rows| && KeyOf(rows[i]) == k && Carries(rows[i], f)
  }

  predicate InTable(t: Table, k: BboKey, f: Fact) {
    k in t &&
    match f
    case AnyRow => true
    case BidKnown => t[k].bidPrice.Some?
    case AskKnown => t[k].askPrice.Some?
  }

  lemma InRowsGrows(a: seq<BboRow>, b: seq<BboRow>, k: BboKey, f: Fact)
    requires a <= b && InRows(a, k, f)
    ensures InRows(b, k, f)
  {
    var i :| 0 <= i < |a| && KeyOf(a[i]) == k && Carries(a[i], f);
    assert b[i] == a[i];
  }

  /** A statement adds to the table exactly what its rows say. */
  lemma {:induction false} MergeKnows(t: Table, rows: seq<BboRow>, k: BboKey, f: Fact)
    ensures InTable(MergeAll(t, rows), k, f) <==> InTable(t, k, f) || InRows(rows, k, f)
  {
    if rows == [] {
      assert !InRows(rows, k, f);
    } else {
      var front, last := rows[..|rows| - 1], rows[|rows| - 1];
      MergeKnows(t, front, k, f);
      RowsSnoc(front, last, k, f);
      assert rows == front + [last];
    }
  }

  lemma RowsSnoc(rows: seq<BboRow>, r: BboRow, k: BboKey, f: Fact)
    ensures InRows(rows + [r], k, f) <==> InRows(rows, k, f) || (KeyOf(r) == k && Carries(r, f))
  {
    if InRows(rows, k, f) {
      InRowsGrows(rows, rows + [r], k, f);
    }
    if KeyOf(r) == k && Carries(r, f) {
      assert (rows + [r])[|rows|] == r;
    }
  }

  // ---------------------------------------------------------------- the invariant

  /** A row whose line reads back as the row with absent sides zeroed. */
  ghost predicate Loggable(codec: Codec<BboRow>, r: BboRow) {
    LineSafe(codec, r) && codec.fromLine(codec.toLine(r)) == Some(ZeroAbsentSides(r))
  }

  /**
   What an event asks for: an append that returns starts at the beginning of a line, and a restart reads the
   file, unless there is nothing in it to recover.
   */
  ghost predicate Sound(s: System, e: Event) {
    match e
    case Append(rows) =>
      s.phase == Durability.Idle ==>
        Aligned(s.cache) && forall i :: 0 <= i < |rows| ==> Loggable(s.codec, rows[i])
    case Reopen(readable) => s.phase == Durability.Down ==> readable || Replay(s.codec, s.cache) == []
    case _ => true
  }

  ghost predicate SoundRun(s: System, evs: seq<Event>)
    decreases |evs|
  {
    evs == [] || (SoundRun(s, evs[..|evs| - 1]) && Sound(Run(s, evs[..|evs| - 1]), evs[|evs| - 1]))
  }

  /** Whatever a row says is in the table or in the rows. */
  ghost predicate Kept(db: Table, rows: seq<BboRow>, r: BboRow) {
    forall f :: Carries(r, f) ==> InTable(db, KeyOf(r), f) || InRows(rows, KeyOf(r), f)
  }

  ghost predicate AllKept(s: System, rows: seq<BboRow>) {
    forall i :: 0 <= i < |s.acked| ==> Kept(s.db, rows, s.acked[i])
  }

  function SafeRows(s: System, content: string): seq<BboRow> { Replay(s.codec, Head(content)) }

  ghost predicate FileKeeps(s: System) {
    forall content :: Survives(s.cache, s.stable, content) ==> AllKept(s, SafeRows(s, content))
  }

  ghost predicate Inv(s: System) {
    && (s.phase != Durability.Down ==> AllKept(s, s.pending))
    && (s.phase == Durability.Down ==> s.cache == s.stable)
    && (s.phase == Durability.Stored ==> forall k, f :: InRows(s.pending, k, f) ==> InTable(s.db, k, f))
    && FileKeeps(s)
  }

  ghost predicate Knows(t: Table, t': Table) { forall k, f :: InTable(t, k, f) ==> InTable(t', k, f) }

  lemma KeptGrows(s: System, rows: seq<BboRow>, s': System, more: seq<BboRow>)
    requires AllKept(s, rows) && s'.acked == s.acked && rows <= more && Knows(s.db, s'.db)
    ensures AllKept(s', more)
  {
    forall i | 0 <= i < |s.acked| ensures Kept(s'.db, more, s.acked[i]) {
      var r := s.acked[i];
      assert Kept(s.db, rows, r);
      forall f | Carries(r, f) ensures InTable(s'.db, KeyOf(r), f) || InRows(more, KeyOf(r), f) {
        if !InTable(s.db, KeyOf(r), f) {
          InRowsGrows(rows, more, KeyOf(r), f);
        }
      }
    }
  }

  lemma SameFile(s: System, s': System)
    requires FileKeeps(s) && s'.codec == s.codec && s'.acked == s.acked && s'.cache == s.cache && s'.stable == s.stable
    requires Knows(s.db, s'.db)
    ensures FileKeeps(s')
  {
    forall content | Survives(s'.cache, s'.stable, content)
      ensures AllKept(s', SafeRows(s, content))
    {
      KeptGrows(s, SafeRows(s, content), s', SafeRows(s, content));
    }
  }

  /** The images of a batch say what the batch says. */
  lemma {:induction false} ImagesSay(codec: Codec<BboRow>, rows: seq<BboRow>)
    requires forall i :: 0 <= i < |rows| ==> Loggable(codec, rows[i])
    ensures Images(codec, rows) == Replayed(rows)
  {
    if rows != [] {
      ImagesSay(codec, rows[1..]);
      ReplayedFirst(rows);
    }
  }

  lemma AppendedKept(s: System, rows: seq<BboRow>, batch: seq<BboRow>, logged: seq<BboRow>, s': System)
    requires AllKept(s, rows) && s'.acked == s.acked + batch && s'.db == s.db
    requires logged == batch || logged == Replayed(batch)
    ensures AllKept(s', rows + logged)
  {
    KeptGrows(s, rows, s, rows + logged);
    forall i | 0 <= i < |s'.acked| ensures Kept(s'.db, rows + logged, s'.acked[i]) {
      if i < |s.acked| {
        assert s'.acked[i] == s.acked[i];
      } else {
        var j := i - |s.acked|;
        assert s'.acked[i] == batch[j] && (rows + logged)[|rows| + j] == logged[j];
        assert KeyOf(logged[j]) == KeyOf(batch[j]);
        assert forall f :: Carries(batch[j], f) ==> Carries(logged[j], f);
      }
    }
  }

  lemma AppendKeeps(s: System, rows: seq<BboRow>)
    requires Inv(s) && s.phase == Durability.Idle && Aligned(s.cache) && rows != []
    requires forall i :: 0 <= i < |rows| ==> Loggable(s.codec, rows[i])
    ensures Inv(Step(s, Append(rows)))
  {
    var s' := Step(s, Append(rows));
    var block := Block(s.codec, rows);
    BlockAligned(s.codec, rows);
    assert Aligned(s.cache + block);
    ReplayConcat(s.codec, s.cache, block);
    ReplayBlock(s.codec, rows);
    ImagesSay(s.codec, rows);
    assert SafeRows(s, s'.cache) == SafeRows(s, s.cache) + Replayed(rows);
    assert Survives(s.cache, s.stable, s.cache);
    AppendedKept(s, s.pending, rows, rows, s');
    AppendedKept(s, SafeRows(s, s.cache), rows, Replayed(rows), s');
  }

  lemma TornKeeps(s: System, junk: string)
    requires Inv(s) && s.phase == Durability.Idle
    ensures Inv(s.(cache := s.cache + junk))
  {
    var s' := s.(cache := s.cache + junk);
    forall content | Survives(s'.cache, s'.stable, content)
      ensures AllKept(s', SafeRows(s, content))
    {
      var base := if content == s.stable || content <= s.cache then content else s.cache;
      assert Survives(s.cache, s.stable, base);
      if base != content {
        ReplayHeadGrows(s.codec, s.cache, content);
      }
      KeptGrows(s, SafeRows(s, base), s', SafeRows(s, content));
    }
  }

  lemma DbKeeps(s: System, phase: Phase)
    requires Inv(s) && s.phase == Durability.Logged && (phase == Durability.Stored || phase == Durability.Idle)
    ensures Inv(s.(phase := phase, db := MergeAll(s.db, s.pending)))
  {
    var s' := s.(phase := phase, db := MergeAll(s.db, s.pending));
    forall k, f ensures InTable(s'.db, k, f) <==> InTable(s.db, k, f) || InRows(s.pending, k, f) {
      MergeKnows(s.db, s.pending, k, f);
    }
    KeptGrows(s, s.pending, s', s.pending);
    SameFile(s, s');
  }

  lemma StoredNeedsNoLog(s: System, rows: seq<BboRow>)
    requires Inv(s) && s.phase == Durability.Stored
    ensures AllKept(s, rows)
  {
    forall i | 0 <= i < |s.acked| ensures Kept(s.db, rows, s.acked[i]) {
      assert Kept(s.db, s.pending, s.acked[i]);
    }
  }

  lemma CommitKeeps(s: System, synced: bool)
    requires Inv(s) && s.phase == Durability.Stored
    ensures Inv(Step(s, Commits(synced)))
  {
    var s' := Step(s, Commits(synced));
    StoredNeedsNoLog(s, []);
    KeptGrows(s, [], s', []);
    forall content | Survives(s'.cache, s'.stable, content)
      ensures AllKept(s', SafeRows(s, content))
    {
      StoredNeedsNoLog(s, SafeRows(s, content));
      KeptGrows(s, SafeRows(s, content), s', SafeRows(s, content));
    }
  }

  lemma CrashKeeps(s: System, content: string)
    requires Inv(s) && s.phase != Durability.Down && Survives(s.cache, s.stable, content)
    ensures Inv(Step(s, Crash(content)))
  {
    var s' := Step(s, Crash(content));
    KeptGrows(s, SafeRows(s, content), s', SafeRows(s, content));
    assert forall c :: Survives(content, content, c) ==> c == content;
  }

  lemma ReopenKeeps(s: System, readable: bool)
    requires Inv(s) && s.phase == Durability.Down && Sound(s, Reopen(readable))
    ensures Inv(Step(s, Reopen(readable)))
  {
    var s' := Step(s, Reopen(readable));
    ReplaySplit(s.codec, s.cache);
    assert Survives(s.cache, s.stable, s.cache);
    KeptGrows(s, SafeRows(s, s.cache), s', s'.pending);
    SameFile(s, s');
  }

  lemma PhaseKeeps(s: System, phase: Phase)
    requires Inv(s) && s.phase != Durability.Down && (phase == Durability.Idle || phase == Durability.Logged)
    ensures Inv(s.(phase := phase))
  {
    var s' := s.(phase := phase);
    KeptGrows(s, s.pending, s', s.pending);
    SameFile(s, s');
  }

  lemma StepKeeps(s: System, e: Event)
    requires Inv(s) && Sound(s, e)
    ensures Inv(Step(s, e))
  {
    match e
    case Append(rows) =>
      if s.phase == Durability.Idle && rows != [] {
        AppendKeeps(s, rows);
      } else if s.phase == Durability.Idle {
        PhaseKeeps(s, Durability.Logged);
      }
    case AppendFails(rows, kept) =>
      if s.phase == Durability.Idle {
        TornKeeps(s, Durability.Take(Block(s.codec, rows), kept));
      }
    case DbWrites =>
      if s.phase == Durability.Logged {
        DbKeeps(s, Durability.Stored);
        PhaseKeeps(s, Durability.Idle);
      }
    case DbFails(applied) =>
      if s.phase == Durability.Logged {
        DbKeeps(s, Durability.Idle);
        PhaseKeeps(s, Durability.Idle);
      }
    case Commits(synced) =>
      if s.phase == Durability.Stored {
        CommitKeeps(s, synced);
      }
    case CommitFails =>
      if s.phase == Durability.Stored {
        PhaseKeeps(s, Durability.Idle);
      }
    case Crash(content) =>
      if s.phase != Durability.Down && Survives(s.cache, s.stable, content) {
        CrashKeeps(s, content);
      }
    case Reopen(readable) =>
      if s.phase == Durability.Down {
        ReopenKeeps(s, readable);
      }
  }

  lemma {:induction false} RunKeeps(codec: Codec<BboRow>, evs: seq<Event>)
    requires SoundRun(Start(codec), evs)
    ensures Inv(Run(Start(codec), evs))
  {
    if evs == [] {
      assert AllKept(Start(codec), []);
    } else {
      RunKeeps(codec, evs[..|evs| - 1]);
      StepKeeps(Run(Start(codec), evs[..|evs| - 1]), evs[|evs| - 1]);
    }
  }

  /** The rows waiting for the next statement, after a restart if the process is down. */
  function Waiting(s: System): seq<BboRow> {
    if s.phase == Durability.Down then Step(s, Reopen(true)).pending else s.pending
  }

  /**
   Durability: after any run in which appends start on an aligned file and restarts read it, every side of
   every acknowledged row is in the table or waiting for it, whatever statements failed; and one successful
   statement over what is waiting has all of it stored.
   */
  lemma BboDurable(codec: Codec<BboRow>, evs: seq<Event>)
    requires SoundRun(Start(codec), evs)
    ensures var s := Run(Start(codec), evs);
            && AllKept(s, Waiting(s))
            && (Statement(s.db, Waiting(s)).Some? ==>
                  forall i, f :: 0 <= i < |s.acked| && Carries(s.acked[i], f) ==>
                    InTable(Statement(s.db, Waiting(s)).value, KeyOf(s.acked[i]), f))
  {
    RunKeeps(codec, evs);
    var s := Run(Start(codec), evs);
    if s.phase == Durability.Down {
      ReopenKeeps(s, true);
    }
    forall i, f | 0 <= i < |s.acked| && Carries(s.acked[i], f)
      ensures InTable(MergeAll(s.db, Waiting(s)), KeyOf(s.acked[i]), f)
    {
      assert Kept(s.db, Waiting(s), s.acked[i]);
      MergeKnows(s.db, Waiting(s), KeyOf(s.acked[i]), f);
    }
  }

  // ---------------------------------------------------------------- the statement that can never succeed

  /** An append that wrote its line and failed in the sync, its retry, a crash before the commit, a restart. */
  function RetriedRun(codec: Codec<BboRow>, r: BboRow): seq<Event> {
    [AppendFails([r], |Block(codec, [r])|)] + [Append([r])] + [Crash(Block(codec, [r]) + Block(codec, [r]))]
    + [Reopen(true)]
  }

  lemma RunSnoc(s: System, evs: seq<Event>, e: Event)
    ensures Run(s, evs + [e]) == Step(Run(s, evs), e)
  {
    assert (evs + [e])[..|evs|] == evs;
  }

  lemma RetriedState(codec: Codec<BboRow>, r: BboRow)
    ensures var s, b := Run(Start(codec), RetriedRun(codec, r)), Block(codec, [r]);
            s.acked == [r] && s.pending == Replay(codec, b + b) && s.db == map[]
  {
    var b, s0 := Block(codec, [r]), Start(codec);
    var e1, e2, e3 := AppendFails([r], |b|), Append([r]), Crash(b + b);
    assert [e1] == [] + [e1];
    RunSnoc(s0, [], e1);
    RunSnoc(s0, [e1], e2);
    RunSnoc(s0, [e1] + [e2], e3);
    RunSnoc(s0, [e1] + [e2] + [e3], Reopen(true));
    assert Step(s0, e1) == s0.(cache := b) by { assert "" + b == b && b[..|b|] == b; }
    var s2 := Step(s0.(cache := b), e2);
    assert s2 == s0.(phase := Durability.Logged, cache := b + b, stable := b + b, pending := [r], acked := [r]);
    assert Survives(s2.cache, s2.stable, b + b);
  }

  /**
   The excluded case, on an aligned file: a row whose failed append had reached the file is logged again by
   its retry.  If the process dies before the commit, the restart finds its key twice and no statement over
   the pending rows ever succeeds, whatever follows.
   */
  lemma RetriedAppendSticks(codec: Codec<BboRow>, r: BboRow, t: Table, batches: seq<seq<BboRow>>)
    requires Loggable(codec, r)
    ensures SoundRun(Start(codec), RetriedRun(codec, r))
    ensures var s := Run(Start(codec), RetriedRun(codec, r));
            s.acked == [r] && s.db == map[] && Statement(t, Grown(s.pending, batches)) == None
  {
    var b, z := Block(codec, [r]), ZeroAbsentSides(r);
    RetriedState(codec, r);
    RetriedIsSound(codec, r);
    BlockAligned(codec, [r]);
    ReplayConcat(codec, b, b);
    ReplayBlock(codec, [r]);
    ImagesSay(codec, [r]);
    assert Replay(codec, b) == [z];
    assert ([z] + [z])[0] == ([z] + [z])[1];
    assert !DistinctKeys([z] + [z]);
    RepeatedKeyNeverDrains(t, [z] + [z], batches);
  }

  lemma RetriedIsSound(codec: Codec<BboRow>, r: BboRow)
    requires Loggable(codec, r)
    ensures SoundRun(Start(codec), RetriedRun(codec, r))
  {
    var b, s0 := Block(codec, [r]), Start(codec);
    var e1, e2, e3 := AppendFails([r], |b|), Append([r]), Crash(b + b);
    BlockAligned(codec, [r]);
    assert SoundRun(s0, []);
    RunSnoc(s0, [], e1);
    assert Step(s0, e1) == s0.(cache := b) by { assert "" + b == b && b[..|b|] == b; }
    SoundSnoc(s0, [], e1);
    SoundSnoc(s0, [] + [e1], e2);
    SoundSnoc(s0, [] + [e1] + [e2], e3);
    SoundSnoc(s0, [] + [e1] + [e2] + [e3], Reopen(true));
    assert [] + [e1] == [e1];
  }

  lemma SoundSnoc(s: System, evs: seq<Event>, e: Event)
    requires SoundRun(s, evs) && Sound(Run(s, evs), e)
    ensures SoundRun(s, evs + [e])
  {
    assert (evs + [e])[..|evs|] == evs;
  }

  // ---------------------------------------------------------------- a restart that cannot read its file

  /** The next batch after a restart that left the file unread, stored and committed. */
  function AfterUnread(s: System, rows: seq<BboRow>, synced: bool): System {
    Step(Step(Step(Step(s, Reopen(false)), Append(rows)), DbWrites), Commits(synced))
  }

  /** What an acknowledged row says is kept from then on exactly as far as the table or the new batch says it. */
  lemma UnreadRestartKeepsIff(s: System, rows: seq<BboRow>, synced: bool, i: nat)
    requires s.phase == Durability.Down && i < |s.acked| && DistinctKeys(rows)
    ensures var t := AfterUnread(s, rows, synced);
            && i < |t.acked| && t.acked[i] == s.acked[i] && t.pending == [] && t.cache == ""
            && (Kept(t.db, t.pending, t.acked[i]) <==> Kept(s.db, rows, s.acked[i]))
  {
    AfterUnreadIs(s, rows, synced);
    KeptInTable(s.db, rows, s.acked[i]);
  }

  lemma AfterUnreadIs(s: System, rows: seq<BboRow>, synced: bool)
    requires s.phase == Durability.Down && DistinctKeys(rows)
    ensures var t := AfterUnread(s, rows, synced);
            && t.db == MergeAll(s.db, rows) && t.pending == [] && t.cache == "" && t.acked == s.acked + rows
  {
    var s1 := s.(phase := Durability.Idle, pending := []);
    assert Step(s, Reopen(false)) == s1;
    AppendToNothing(s1, rows);
    var s2 := Step(s1, Append(rows));
    DbWritesIs(s2, rows);
    var s3 := s2.(phase := Durability.Stored, db := MergeAll(s.db, rows));
    CommitsIs(s3, synced);
    assert AfterUnread(s, rows, synced) == Step(s3, Commits(synced));
  }

  lemma CommitsIs(s: System, synced: bool)
    requires s.phase == Durability.Stored
    ensures var t := Step(s, Commits(synced)); t.db == s.db && t.pending == [] && t.cache == "" && t.acked == s.acked
  {
  }

  lemma AppendToNothing(s: System, rows: seq<BboRow>)
    requires s.phase == Durability.Idle && s.pending == []
    ensures var t := Step(s, Append(rows));
            t.phase == Durability.Logged && t.pending == rows && t.db == s.db && t.acked == s.acked + rows
  {
    assert [] + rows == rows && s.acked + [] == s.acked;
  }

  lemma DbWritesIs(s: System, rows: seq<BboRow>)
    requires s.phase == Durability.Logged && s.pending == rows && DistinctKeys(rows)
    ensures Step(s, DbWrites) == s.(phase := Durability.Stored, db := MergeAll(s.db, rows))
  {
  }

  lemma KeptInTable(t: Table, rows: seq<BboRow>, r: BboRow)
    ensures Kept(MergeAll(t, rows), [], r) <==> Kept(t, rows, r)
  {
    forall f ensures InTable(MergeAll(t, rows), KeyOf(r), f) <==> InTable(t, KeyOf(r), f) || InRows(rows, KeyOf(r), f) {
      MergeKnows(t, rows, KeyOf(r), f);
    }
    assert forall f :: !InRows([], KeyOf(r), f);
  }

  // ---------------------------------------------------------------- the real codec

  /** Every row given to an append is one the top-of-book codec can log. */
  ghost predicate AllLoggable(evs: seq<Event>) {
    forall i :: 0 <= i < |evs| && evs[i].Append? ==> forall j :: 0 <= j < |evs[i].rows| ==> BboLoggable(evs[i].rows[j])
  }

  /** Appends start on an aligned file and restarts read it. */
  ghost predicate Steady(s: System, evs: seq<Event>)
    decreases |evs|
  {
    evs == [] ||
    (Steady(s, evs[..|evs| - 1]) &&
     var e, before := evs[|evs| - 1], Run(s, evs[..|evs| - 1]);
     && (e.Append? && before.phase == Durability.Idle ==> Aligned(before.cache))
     && (e.Reopen? && before.phase == Durability.Down ==> e.readable || Replay(s.codec, before.cache) == []))
  }

  lemma BboLoggableIs(r: BboRow)
    requires BboLoggable(r)
    ensures Loggable(BBOS, r)
  {
    BboImage(r);
  }

  lemma {:induction false} SteadyIsSound(s: System, evs: seq<Event>)
    requires s.codec == BBOS && Steady(s, evs) && AllLoggable(evs)
    ensures SoundRun(s, evs)
  {
    if evs != [] {
      var front, e := evs[..|evs| - 1], evs[|evs| - 1];
      assert forall i :: 0 <= i < |front| ==> front[i] == evs[i];
      SteadyIsSound(s, front);
      if e.Append? {
        forall j | 0 <= j < |e.rows| ensures Loggable(BBOS, e.rows[j]) {
          BboLoggableIs(e.rows[j]);
        }
      }
    }
  }

  /** Durability for the codec the collector uses. */
  lemma BbosDurable(evs: seq<Event>)
    requires Steady(Start(BBOS), evs) && AllLoggable(evs)
    ensures var s := Run(Start(BBOS), evs); AllKept(s, Waiting(s))
  {
    SteadyIsSound(Start(BBOS), evs);
    BboDurable(BBOS, evs);
  }
}
