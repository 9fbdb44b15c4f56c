/**
 The tick stream from acceptance to the table: the collector's two threads, whose writer works on the log and
 the database, through any number of crashes and restarts.
 */
module EndToEnd {
  import opened Prelude
  import opened Rows
  import opened WriteAheadLog
  import opened TickTable
  import D = Durability
  import C = CollectorModel

  /** What earlier lives of the process left behind. */
  datatype Past = Past(accepted: seq<TickRow>, dropped: seq<TickRow>, lost: seq<TickRow>, acked: seq<TickRow>)

  /** The collector's memory, and the log and table of its tick stream. */
  datatype Joint = Joint(c: C.State<TickRow>, d: D.System, past: Past)

  datatype Event =
    | Memory(e: C.Event<TickRow>)
    | Logs
    | LogFails(kept: nat)
    | Writes
    | WriteFails(applied: bool)
    | Commits(synced: bool)
    | CommitFails
    | Recovers(drain: D.Event)
    | Dies(content: string)
    | Restarts(readable: bool)

  function Start(codec: Codec<TickRow>): Joint { Joint(C.Init(), D.Start(codec), Past([], [], [], [])) }

  /** The writer holds a batch of ticks; or it has logged one. */
  predicate HoldsTicks(c: C.State<TickRow>) { c.writer.Holding? && c.writer.job.kind == C.Tick }

  predicate LoggedTicks(c: C.State<TickRow>) { c.writer == C.LoggedOne(C.Tick) }

  /** The events of the threads that touch neither the tick log nor its database writes. */
  predicate InMemory(c: C.State<TickRow>, e: C.Event<TickRow>) {
    && (e.LogFails? || e.LogsBatch? ==> !HoldsTicks(c))
    && (e.Stores? ==> !LoggedTicks(c))
  }

  /** What the event does to the log and the table; none, if it does nothing to them. */
  function OnLog(j: Joint, e: Event): Option<D.Event> {
    match e
    case Memory(_) => None
    case Logs => if HoldsTicks(j.c) && j.d.phase == D.Idle then Some(D.Append(j.c.writer.job.rows)) else None
    case LogFails(kept) =>
      if HoldsTicks(j.c) && j.d.phase == D.Idle then Some(D.AppendFails(j.c.writer.job.rows, kept)) else None
    case Writes => if LoggedTicks(j.c) then Some(D.DbWrites) else None
    case WriteFails(applied) => if LoggedTicks(j.c) && j.d.phase == D.Logged then Some(D.DbFails(applied)) else None
    case Commits(synced) => if LoggedTicks(j.c) && j.d.phase == D.Stored then Some(D.Commits(synced)) else None
    case CommitFails => if LoggedTicks(j.c) && j.d.phase == D.Stored then Some(D.CommitFails) else None
    case Recovers(drain) =>
      if j.c.writer == C.Waiting && (drain.DbWrites? || drain.DbFails? || drain.Commits? || drain.CommitFails?)
      then Some(drain) else None
    case Dies(content) =>
      if j.d.phase != D.Down && Survives(j.d.cache, j.d.stable, content) then Some(D.Crash(content)) else None
    case Restarts(readable) => if j.d.phase == D.Down then Some(D.Reopen(readable)) else None
  }

  /** What it does to the collector's memory, a crash apart. */
  function OnMemory(j: Joint, e: Event): Option<C.Event<TickRow>> {
    match e
    case Memory(ce) => if j.d.phase != D.Down && InMemory(j.c, ce) then Some(ce) else None
    case Logs => if OnLog(j, e).Some? then Some(C.LogsBatch) else None
    case LogFails(_) => if OnLog(j, e).Some? then Some(C.LogFails) else None
    case WriteFails(_) => if OnLog(j, e).Some? then Some(C.Stores(false)) else None
    case Commits(_) => if OnLog(j, e).Some? then Some(C.Stores(true)) else None
    case CommitFails => if OnLog(j, e).Some? then Some(C.Stores(false)) else None
    case _ => None
  }

  function Flat(batches: seq<seq<TickRow>>): seq<TickRow> {
    if batches == [] then [] else Flat(batches[..|batches| - 1]) + batches[|batches| - 1]
  }

  /** The ticks between acceptance and the log, oldest first. */
  function Travelling(c: C.State<TickRow>): seq<TickRow> {
    C.WriterRows(c.writer, C.Tick) + (C.QueuedRows(c.queue, C.Tick) + C.Front(c, C.Tick))
  }

  /** A process that dies takes its memory with it; the next one starts with none. */
  function Buried(j: Joint): Joint {
    j.(c := C.Init(),
       past := Past(j.past.accepted + j.c.accepted.tick, j.past.dropped + j.c.dropped.tick,
                    j.past.lost + Travelling(j.c), Flat(j.d.acked)))
  }

  function Step(j: Joint, e: Event): Joint {
    var c := if OnMemory(j, e).Some? then C.Step(j.c, OnMemory(j, e).value) else j.c;
    var d := if OnLog(j, e).Some? then D.Step(j.d, OnLog(j, e).value) else j.d;
    if e.Dies? && OnLog(j, e).Some? then Buried(j).(d := d) else Joint(c, d, j.past)
  }

  function Run(j: Joint, evs: seq<Event>): Joint {
    if evs == [] then j else Step(Run(j, evs[..|evs| - 1]), evs[|evs| - 1])
  }

  /** Appends start on an aligned file with rows the codec logs faithfully, and restarts read the file. */
  ghost predicate SoundRun(j: Joint, evs: seq<Event>)
    decreases |evs|
  {
    evs == [] ||
    (SoundRun(j, evs[..|evs| - 1]) &&
     var before := Run(j, evs[..|evs| - 1]);
     var e := OnLog(before, evs[|evs| - 1]);
     e.Some? ==> D.Sound(before.d, e.value))
  }

  // ---------------------------------------------------------------- the coupling

  /** The acknowledged ticks are those the collector's threads logged or committed in this life or before. */
  ghost predicate Coupled(j: Joint) {
    Flat(j.d.acked) == j.past.acked + (j.c.committed.tick + j.c.logs.tick)
  }

  lemma FlatSnoc(batches: seq<seq<TickRow>>, b: seq<TickRow>)
    ensures Flat(batches + [b]) == Flat(batches) + b
  {
    assert (batches + [b])[..|batches|] == batches;
  }

  /** Events of the threads that do not log or commit ticks leave what was logged and committed. */
  lemma LogUntouched(c: C.State<TickRow>, e: C.Event<TickRow>)
    requires InMemory(c, e) || e == C.LogFails || e == C.Stores(false)
    ensures C.Step(c, e).committed.tick == c.committed.tick && C.Step(c, e).logs.tick == c.logs.tick
  {
  }

  lemma AckedBy(d: D.System, e: D.Event)
    ensures D.Step(d, e).acked ==
            if e.Append? && d.phase == D.Idle && e.rows != [] then d.acked + [e.rows] else d.acked
  {
  }

  lemma CoupledLogs(j: Joint)
    requires Coupled(j) && HoldsTicks(j.c) && j.d.phase == D.Idle
    ensures Coupled(Step(j, Logs))
  {
    var rows := j.c.writer.job.rows;
    AckedBy(j.d, D.Append(rows));
    FlatSnoc(j.d.acked, rows);
    assert C.Step(j.c, C.LogsBatch).logs.tick == j.c.logs.tick + rows;
    Regroup(j.past.acked, j.c.committed.tick, j.c.logs.tick, rows);
    assert rows == [] ==> Flat(j.d.acked) + rows == Flat(j.d.acked);
  }

  lemma Regroup<T>(a: seq<T>, b: seq<T>, c: seq<T>, d: seq<T>)
    ensures (a + (b + c)) + d == a + (b + (c + d))
    ensures a + (b + c) == a + ((b + c) + [])
  {
  }

  lemma CoupledStep(j: Joint, e: Event)
    requires Coupled(j)
    ensures Coupled(Step(j, e))
  {
    if OnLog(j, e).Some? {
      AckedBy(j.d, OnLog(j, e).value);
    }
    match e
    case Logs =>
      if OnLog(j, e).Some? {
        CoupledLogs(j);
      }
    case Commits(_) => Regroup(j.past.acked, j.c.committed.tick, j.c.logs.tick, []);
    case Memory(ce) =>
      if OnMemory(j, e).Some? {
        LogUntouched(j.c, ce);
      }
    case LogFails(_) => LogUntouched(j.c, C.LogFails);
    case WriteFails(_) => LogUntouched(j.c, C.Stores(false));
    case CommitFails => LogUntouched(j.c, C.Stores(false));
    case Writes =>
    case Recovers(_) =>
    case Dies(_) => assert Flat(j.d.acked) + ([] + []) == Flat(j.d.acked);
    case Restarts(_) =>
  }

  // ---------------------------------------------------------------- accounts

  /** The measure of what earlier lives accepted is that of what they acknowledged, dropped and lost. */
  ghost predicate Settled(p: Past, w: seq<TickRow> -> int) {
    w(p.accepted) == w(p.acked) + w(p.dropped) + w(p.lost)
  }

  ghost predicate Inv(j: Joint, w: seq<TickRow> -> int) {
    && C.ModeInv(j.c) && C.Balanced(j.c, C.Tick, w) && Coupled(j) && Settled(j.past, w) && D.Inv(j.d)
  }

  lemma TravellingMeasure(c: C.State<TickRow>, w: seq<TickRow> -> int)
    requires C.Additive(w) && C.Balanced(c, C.Tick, w)
    ensures w(c.accepted.tick) ==
            w(c.committed.tick) + w(c.logs.tick) + w(Travelling(c)) + w(c.dropped.tick)
  {
    var writer, queue := C.WriterRows(c.writer, C.Tick), C.QueuedRows(c.queue, C.Tick);
    var out, hand := C.OutRows(c.mode, C.Tick), C.HandRows(c.hand, C.Tick);
    assert C.Front(c, C.Tick) == out + (hand + c.bufs.tick);
    assert w(Travelling(c)) == w(writer) + (w(queue) + (w(out) + (w(hand) + w(c.bufs.tick))));
  }

  /** The measure of all that was accepted is that of all places ticks can be in. */
  ghost predicate Accounted(j: Joint, w: seq<TickRow> -> int) {
    w(j.past.accepted + j.c.accepted.tick) ==
    w(Flat(j.d.acked)) + w(Travelling(j.c)) + w(j.past.dropped + j.c.dropped.tick) + w(j.past.lost)
  }

  lemma InvAccounts(j: Joint, w: seq<TickRow> -> int)
    requires C.Additive(w) && C.Balanced(j.c, C.Tick, w) && Coupled(j) && Settled(j.past, w)
    ensures Accounted(j, w)
  {
    TravellingMeasure(j.c, w);
  }

  lemma BuriedSettled(j: Joint, w: seq<TickRow> -> int)
    requires C.Additive(w) && C.Balanced(j.c, C.Tick, w) && Coupled(j) && Settled(j.past, w)
    ensures Settled(Buried(j).past, w)
  {
    TravellingMeasure(j.c, w);
  }

  lemma StepKeeps(j: Joint, e: Event, w: seq<TickRow> -> int)
    requires C.Additive(w) && Inv(j, w)
    requires OnLog(j, e).Some? ==> D.Sound(j.d, OnLog(j, e).value)
    ensures Inv(Step(j, e), w)
  {
    CoupledStep(j, e);
    if OnLog(j, e).Some? {
      D.StepKeeps(j.d, OnLog(j, e).value);
    }
    if OnMemory(j, e).Some? {
      C.ModeStep(j.c, OnMemory(j, e).value);
      C.StepBalanced(j.c, OnMemory(j, e).value, C.Tick, w);
    }
    BuriedSettled(j, w);
    C.InitBalanced<TickRow>(C.Tick, w);
  }

  lemma {:induction false} RunKeeps(codec: Codec<TickRow>, evs: seq<Event>, w: seq<TickRow> -> int)
    requires C.Additive(w) && SoundRun(Start(codec), evs)
    ensures Inv(Run(Start(codec), evs), w)
  {
    if evs == [] {
      C.InitBalanced<TickRow>(C.Tick, w);
      D.RunKeeps(codec, []);
    } else {
      RunKeeps(codec, evs[..|evs| - 1], w);
      StepKeeps(Run(Start(codec), evs[..|evs| - 1]), evs[|evs| - 1], w);
    }
  }

  /**
   From acceptance to the table: whatever the threads, the log, the database and the crashes do, every tick
   ever accepted is acknowledged, still travelling in memory, dropped at the full queue, or was travelling in
   the memory of a process that died; and every acknowledged one is in the table, pending, or recovered by
   a restart.
   */
  lemma AcceptedToStored(codec: Codec<TickRow>, evs: seq<Event>, w: seq<TickRow> -> int)
    requires C.Additive(w) && SoundRun(Start(codec), evs)
    ensures var j := Run(Start(codec), evs);
            Accounted(j, w) && D.AllKept(j.d, D.Waiting(j.d))
  {
    RunKeeps(codec, evs, w);
    var j := Run(Start(codec), evs);
    InvAccounts(j, w);
    if j.d.phase == D.Down {
      D.ReopenKeeps(j.d, true);
    }
  }

  /** In particular, for the number of times a trade was accepted. */
  lemma TradesAccounted(codec: Codec<TickRow>, evs: seq<Event>, k: TickKey)
    requires SoundRun(Start(codec), evs)
    ensures var j := Run(Start(codec), evs);
            && Occurrences(j.past.accepted + j.c.accepted.tick, k) ==
               Occurrences(Flat(j.d.acked), k) + Occurrences(Travelling(j.c), k)
               + Occurrences(j.past.dropped + j.c.dropped.tick, k) + Occurrences(j.past.lost, k)
            && forall i :: 0 <= i < |j.d.acked| ==> D.Kept(j.d.db, D.Waiting(j.d), j.d.acked[i], k)
  {
    var w := (rows: seq<TickRow>) => Occurrences(rows, k) as int;
    assert C.Additive(w) by {
      forall a: seq<TickRow>, b: seq<TickRow> ensures w(a + b) == w(a) + w(b) {
        D.OccurrencesConcat(a, b, k);
      }
    }
    AcceptedToStored(codec, evs, w);
  }
}
