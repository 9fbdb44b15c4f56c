/**
 The collector's two threads: the event loop fills a buffer per stream and hands batches to a
 bounded queue; the writer thread takes batches, logs them and stores them.  Every event below is
 one critical section, so a run is any interleaving of the two threads.
 */
module CollectorModel {
  import opened Prelude

  datatype Kind = Tick | Bbo | Depth

  datatype Job<R> = Job(kind: Kind, rows: seq<R>)

  /** One row sequence per stream. */
  datatype PerKind<R> = PerKind(tick: seq<R>, bbo: seq<R>, depth: seq<R>) {
    function Get(k: Kind): seq<R> {
      match k
      case Tick => tick
      case Bbo => bbo
      case Depth => depth
    }

    function Put(k: Kind, rows: seq<R>): (p: PerKind<R>)
      ensures p.Get(k) == rows
      ensures forall j :: j != k ==> p.Get(j) == Get(j)
    {
      match k
      case Tick => this.(tick := rows)
      case Bbo => this.(bbo := rows)
      case Depth => this.(depth := rows)
    }
  }

  const QUEUE_MAX: nat := 8192

  function FlushEvery(k: Kind): nat {
    match k
    case Tick => 5
    case Bbo => 5
    case Depth => 10
  }

  function KindAt(i: nat): Kind { if i == 0 then Tick else if i == 1 then Bbo else Depth }

  /**
   The event loop runs, or swaps out the buffers one after the other, or pushes what it swapped out;
   then it asks the writer to stop.
   */
  datatype Mode<R> = Running | Swapping(next: nat, out: seq<Job<R>>) | StopRequested

  /** The writer waits, holds a batch it took, or has logged a batch of some stream. */
  datatype Writer<R> = Waiting | Holding(job: Job<R>) | LoggedOne(kind: Kind) | Done

  datatype State<R> = State(
    bufs: PerKind<R>, hand: Option<Job<R>>, queue: seq<Job<R>>, mode: Mode<R>,
    writer: Writer<R>, logs: PerKind<R>, committed: PerKind<R>,
    accepted: PerKind<R>, dropped: PerKind<R>, failed: set<Kind>, shutdownJobs: nat)

  datatype Event<R> =
    | Accept(kind: Kind, row: R, elapsed: bool)
    | Enqueue
    | BeginShutdown
    | SwapOut
    | PushOut
    | RequestStop
    | TakeJob
    | LogFails
    | LogsBatch
    | Stores(ok: bool)
    | WriterExits

  function Empty<R>(): PerKind<R> { PerKind([], [], []) }

  function Init<R>(): State<R> {
    State(Empty(), None, [], Running, Waiting, Empty(), Empty(), Empty(), Empty(), {}, 0)
  }

  /** One critical section; an event that cannot happen now changes nothing. */
  function Step<R>(s: State<R>, e: Event<R>): State<R> {
    match e
    case Accept(k, row, elapsed) =>
      if s.mode != Running || s.hand.Some? then s
      else
        var buf := s.bufs.Get(k) + [row];
        var s1 := s.(accepted := s.accepted.Put(k, s.accepted.Get(k) + [row]));
        if |buf| >= FlushEvery(k) || elapsed then s1.(bufs := s.bufs.Put(k, []), hand := Some(Job(k, buf)))
        else s1.(bufs := s.bufs.Put(k, buf))
    case Enqueue =>
      if s.hand.None? then s
      else if |s.queue| >= QUEUE_MAX then
        var j := s.hand.value;
        s.(hand := None, dropped := s.dropped.Put(j.kind, s.dropped.Get(j.kind) + j.rows))
      else s.(hand := None, queue := s.queue + [s.hand.value])
    case BeginShutdown =>
      if s.mode != Running || s.hand.Some? then s else s.(mode := Swapping(0, []))
    case SwapOut =>
      if !s.mode.Swapping? || s.mode.next >= 3 then s
      else
        var k := KindAt(s.mode.next);
        var rows := s.bufs.Get(k);
        var out := if rows == [] then s.mode.out else s.mode.out + [Job(k, rows)];
        s.(bufs := s.bufs.Put(k, []), mode := Swapping(s.mode.next + 1, out))
    case PushOut =>
      if !s.mode.Swapping? || s.mode.next < 3 || s.mode.out == [] then s
      else
        s.(queue := s.queue + [s.mode.out[0]], mode := Swapping(s.mode.next, s.mode.out[1..]),
           shutdownJobs := s.shutdownJobs + 1)
    case RequestStop =>
      if !s.mode.Swapping? || s.mode.next < 3 || s.mode.out != [] then s else s.(mode := StopRequested)
    case TakeJob =>
      if s.writer != Waiting || s.queue == [] then s
      else s.(writer := Holding(s.queue[0]), queue := s.queue[1..])
    case LogFails =>
      if !s.writer.Holding? then s
      else
        var j := s.writer.job;
        s.(writer := Waiting, bufs := s.bufs.Put(j.kind, j.rows + s.bufs.Get(j.kind)),
           failed := s.failed + {j.kind})
    case LogsBatch =>
      if !s.writer.Holding? then s
      else
        var j := s.writer.job;
        s.(writer := LoggedOne(j.kind), logs := s.logs.Put(j.kind, s.logs.Get(j.kind) + j.rows))
    case Stores(ok) =>
      if !s.writer.LoggedOne? then s
      else if !ok then s.(writer := Waiting)
      else
        var k := s.writer.kind;
        s.(writer := Waiting, committed := s.committed.Put(k, s.committed.Get(k) + s.logs.Get(k)),
           logs := s.logs.Put(k, []))
    case WriterExits =>
      if s.writer != Waiting || s.queue != [] || s.mode != StopRequested then s else s.(writer := Done)
  }

  function Run<R>(s: State<R>, evs: seq<Event<R>>): State<R> {
    if evs == [] then s else Step(Run(s, evs[..|evs| - 1]), evs[|evs| - 1])
  }

  // ---------------------------------------------------------------- where the rows of a stream are

  function RowsOf<R>(j: Job<R>, k: Kind): seq<R> { if j.kind == k then j.rows else [] }

  function QueuedRows<R>(q: seq<Job<R>>, k: Kind): seq<R> {
    if q == [] then [] else QueuedRows(q[..|q| - 1], k) + RowsOf(q[|q| - 1], k)
  }

  function WriterRows<R>(w: Writer<R>, k: Kind): seq<R> { if w.Holding? then RowsOf(w.job, k) else [] }

  function HandRows<R>(h: Option<Job<R>>, k: Kind): seq<R> { if h.Some? then RowsOf(h.value, k) else [] }

  function OutRows<R>(m: Mode<R>, k: Kind): seq<R> { if m.Swapping? then QueuedRows(m.out, k) else [] }

  /** Stored, logged, and on the way through the two threads, oldest first. */
  function Flow<R>(s: State<R>, k: Kind): seq<R> {
    s.committed.Get(k)
    + (s.logs.Get(k)
       + (WriterRows(s.writer, k)
          + (QueuedRows(s.queue, k)
             + (OutRows(s.mode, k)
                + (HandRows(s.hand, k) + s.bufs.Get(k))))))
  }

  lemma {:induction false} QueuedConcat<R>(a: seq<Job<R>>, b: seq<Job<R>>, k: Kind)
    ensures QueuedRows(a + b, k) == QueuedRows(a, k) + QueuedRows(b, k)
  {
    if b == [] {
      assert a + b == a;
    } else {
      assert (a + b)[..|a + b| - 1] == a + b[..|b| - 1];
      QueuedConcat(a, b[..|b| - 1], k);
    }
  }

  lemma QueuedOne<R>(j: Job<R>, k: Kind)
    ensures QueuedRows([j], k) == RowsOf(j, k)
  {
    assert [j][..0] == [];
  }

  lemma QueuedFirst<R>(q: seq<Job<R>>, k: Kind)
    requires q != []
    ensures QueuedRows(q, k) == RowsOf(q[0], k) + QueuedRows(q[1..], k)
  {
    assert q == [q[0]] + q[1..];
    QueuedConcat([q[0]], q[1..], k);
    QueuedOne(q[0], k);
  }

  lemma Assoc<R>(a: seq<R>, b: seq<R>, c: seq<R>)
    ensures a + (b + c) == (a + b) + c
  {
  }

  /** The part of the flow behind the queue: what the event loop still has. */
  function Front<R>(s: State<R>, k: Kind): seq<R> {
    OutRows(s.mode, k) + (HandRows(s.hand, k) + s.bufs.Get(k))
  }

  /** The part of the flow in front of the queue: what the writer has. */
  function Back<R>(s: State<R>, k: Kind): seq<R> {
    s.committed.Get(k) + (s.logs.Get(k) + WriterRows(s.writer, k))
  }

  lemma FlowParts<R>(s: State<R>, k: Kind)
    ensures Flow(s, k) == Back(s, k) + (QueuedRows(s.queue, k) + Front(s, k))
  {
    var c, l, w := s.committed.Get(k), s.logs.Get(k), WriterRows(s.writer, k);
    var rest := QueuedRows(s.queue, k) + Front(s, k);
    Assoc(l, w, rest);
    Assoc(c, l + w, rest);
  }

  /** The shape of the event loop's state. */
  ghost predicate ModeInv<R>(s: State<R>) {
    && (s.hand.Some? ==> s.mode.Running?)
    && (s.mode.Swapping? ==> s.mode.next <= 3 && |s.mode.out| + s.shutdownJobs <= s.mode.next)
    && (s.mode.Running? ==> s.shutdownJobs == 0)
    && s.shutdownJobs <= 3
    && |s.queue| <= QUEUE_MAX + s.shutdownJobs
    && (s.writer.Done? ==> s.queue == [] && s.mode.StopRequested?)
  }

  lemma ModeStep<R>(s: State<R>, e: Event<R>)
    requires ModeInv(s)
    ensures ModeInv(Step(s, e))
  {
  }

  /** The events after which a stream's rows stand in the same order, an accepted row added last. */
  ghost predicate Keeps<R>(s: State<R>, e: Event<R>, k: Kind) {
    && (e.LogFails? && s.writer.Holding? ==> s.writer.job.kind != k)
    && (e.Enqueue? && s.hand.Some? && s.hand.value.kind == k ==> |s.queue| < QUEUE_MAX)
  }

  lemma AcceptStep<R>(s: State<R>, e: Event<R>, k: Kind)
    requires ModeInv(s) && e.Accept?
    ensures var s' := Step(s, e);
            && Back(s', k) == Back(s, k) && s'.queue == s.queue && s'.dropped == s.dropped
            && s.accepted.Get(k) <= s'.accepted.Get(k)
            && Front(s', k) == Front(s, k) + s'.accepted.Get(k)[|s.accepted.Get(k)|..]
  {
    var s' := Step(s, e);
    assert s'.accepted.Get(k)[|s.accepted.Get(k)|..] == if s' != s && k == e.kind then [e.row] else [];
  }

  lemma SwapStep<R>(s: State<R>, e: Event<R>, k: Kind)
    requires ModeInv(s) && (e.BeginShutdown? || e.SwapOut? || e.RequestStop?)
    ensures var s' := Step(s, e);
            && Back(s', k) == Back(s, k) && s'.queue == s.queue && s'.dropped == s.dropped
            && s'.accepted == s.accepted && Front(s', k) == Front(s, k)
  {
    if e.SwapOut? && s.mode.Swapping? && s.mode.next < 3 {
      SwapOutFront(s, k);
    }
  }

  /** A buffer that is swapped out stays where it was in the flow. */
  lemma SwapOutFront<R>(s: State<R>, k: Kind)
    requires ModeInv(s) && s.mode.Swapping? && s.mode.next < 3
    ensures Front(Step(s, SwapOut), k) == Front(s, k)
  {
    var kind := KindAt(s.mode.next);
    var rows := s.bufs.Get(kind);
    var s', out := Step(s, SwapOut), QueuedRows(s.mode.out, k);
    SwapOutParts(s);
    QueuedConcat(s.mode.out, JobsOf(kind, rows), k);
    JobsRows(kind, rows, k);
    var moved, left := if kind == k then rows else [], s'.bufs.Get(k);
    assert Front(s', k) == (out + moved) + ([] + left);
    assert Front(s, k) == out + ([] + s.bufs.Get(k));
    assert s.bufs.Get(k) == moved + left;
    Around(out, moved, left);
  }

  lemma SwapOutParts<R>(s: State<R>)
    requires s.mode.Swapping? && s.mode.next < 3
    ensures var kind, s' := KindAt(s.mode.next), Step(s, SwapOut);
            && s'.hand == s.hand && s'.bufs == s.bufs.Put(kind, [])
            && s'.mode == Swapping(s.mode.next + 1, s.mode.out + JobsOf(kind, s.bufs.Get(kind)))
  {
  }

  lemma JobsRows<R>(kind: Kind, rows: seq<R>, k: Kind)
    ensures QueuedRows(JobsOf(kind, rows), k) == if kind == k then rows else []
  {
    QueuedOne(Job(kind, rows), k);
  }

  lemma Around<R>(out: seq<R>, moved: seq<R>, left: seq<R>)
    ensures (out + moved) + ([] + left) == out + ([] + (moved + left))
  {
  }

  lemma QueueStep<R>(s: State<R>, e: Event<R>, k: Kind)
    requires ModeInv(s) && Keeps(s, e, k)
    requires e.Enqueue? || e.PushOut? || e.TakeJob?
    ensures var s' := Step(s, e);
            && s'.accepted == s.accepted && s'.dropped.Get(k) == s.dropped.Get(k)
            && Back(s', k) + (QueuedRows(s'.queue, k) + Front(s', k)) ==
               Back(s, k) + (QueuedRows(s.queue, k) + Front(s, k))
  {
    if e.Enqueue? && s.hand.Some? {
      EnqueueStep(s, k);
    } else if e.PushOut? && s.mode.Swapping? && s.mode.next == 3 && s.mode.out != [] {
      PushOutStep(s, k);
    } else if e.TakeJob? && s.writer == Waiting && s.queue != [] {
      TakeJobStep(s, k);
    }
  }

  lemma EnqueueStep<R>(s: State<R>, k: Kind)
    requires ModeInv(s) && s.hand.Some? && Keeps(s, Enqueue, k)
    ensures var s' := Step(s, Enqueue);
            && QueuedRows(s'.queue, k) + Front(s', k) == QueuedRows(s.queue, k) + Front(s, k)
            && s'.dropped.Get(k) == s.dropped.Get(k)
  {
    var s', j := Step(s, Enqueue), s.hand.value;
    var q := QueuedRows(s.queue, k);
    if |s.queue| < QUEUE_MAX {
      QueuedConcat(s.queue, [j], k);
      QueuedOne(j, k);
      assert QueuedRows(s'.queue, k) == q + RowsOf(j, k) && Front(s', k) == [] + ([] + s.bufs.Get(k));
      assert Front(s, k) == [] + (RowsOf(j, k) + s.bufs.Get(k));
      HandMoves(q, RowsOf(j, k), s.bufs.Get(k));
    } else {
      assert s'.queue == s.queue && RowsOf(j, k) == [];
    }
  }

  lemma HandMoves<R>(q: seq<R>, r: seq<R>, buf: seq<R>)
    ensures (q + r) + ([] + ([] + buf)) == q + ([] + (r + buf))
  {
  }

  lemma PushOutStep<R>(s: State<R>, k: Kind)
    requires ModeInv(s) && s.mode.Swapping? && s.mode.next == 3 && s.mode.out != []
    ensures var s' := Step(s, PushOut);
            QueuedRows(s'.queue, k) + Front(s', k) == QueuedRows(s.queue, k) + Front(s, k)
  {
    var job := s.mode.out[0];
    QueuedConcat(s.queue, [job], k);
    QueuedOne(job, k);
    QueuedFirst(s.mode.out, k);
    var s' := Step(s, PushOut);
    var rest, tail := QueuedRows(s.mode.out[1..], k), HandRows(s.hand, k) + s.bufs.Get(k);
    assert QueuedRows(s'.queue, k) == QueuedRows(s.queue, k) + RowsOf(job, k);
    assert Front(s', k) == rest + tail;
    assert Front(s, k) == (RowsOf(job, k) + rest) + tail;
    MoveLeft(QueuedRows(s.queue, k), RowsOf(job, k), rest, tail);
  }

  lemma MoveLeft<R>(q: seq<R>, r: seq<R>, rest: seq<R>, tail: seq<R>)
    ensures (q + r) + (rest + tail) == q + ((r + rest) + tail)
  {
  }

  lemma TakeJobStep<R>(s: State<R>, k: Kind)
    requires s.writer == Waiting && s.queue != []
    ensures var s' := Step(s, TakeJob);
            && Front(s', k) == Front(s, k)
            && Back(s', k) + (QueuedRows(s'.queue, k) + Front(s', k)) ==
               Back(s, k) + (QueuedRows(s.queue, k) + Front(s, k))
  {
    QueuedFirst(s.queue, k);
    var c, l := s.committed.Get(k), s.logs.Get(k);
    var j, q := RowsOf(s.queue[0], k), QueuedRows(s.queue[1..], k) + Front(s, k);
    Assoc(j, QueuedRows(s.queue[1..], k), Front(s, k));
    Assoc(c, l, j);
    Assoc(c + l, j, q);
    assert Back(s, k) == c + l;
  }

  lemma WriterStep<R>(s: State<R>, e: Event<R>, k: Kind)
    requires e.LogsBatch? || e.Stores? || e.WriterExits? || e.LogFails?
    requires Keeps(s, e, k)
    ensures var s' := Step(s, e);
            && s'.accepted == s.accepted && s'.dropped == s.dropped
            && Back(s', k) == Back(s, k) && s'.queue == s.queue && Front(s', k) == Front(s, k)
  {
    var s' := Step(s, e);
    assert s.logs.Get(k) + [] == s.logs.Get(k);
  }

  /** An event that keeps the order appends what it accepted to the flow and does nothing else to it. */
  lemma FlowStep<R>(s: State<R>, e: Event<R>, k: Kind)
    requires ModeInv(s) && Keeps(s, e, k)
    ensures var s' := Step(s, e);
            && s.accepted.Get(k) <= s'.accepted.Get(k) && s'.dropped.Get(k) == s.dropped.Get(k)
            && Flow(s', k) == Flow(s, k) + s'.accepted.Get(k)[|s.accepted.Get(k)|..]
  {
    var s' := Step(s, e);
    FlowParts(s, k);
    FlowParts(s', k);
    if e.Accept? || e.BeginShutdown? || e.SwapOut? || e.RequestStop? {
      if e.Accept? {
        AcceptStep(s, e, k);
      } else {
        SwapStep(s, e, k);
      }
      var new_ := s'.accepted.Get(k)[|s.accepted.Get(k)|..];
      Assoc(QueuedRows(s.queue, k), Front(s, k), new_);
      Assoc(Back(s, k), QueuedRows(s.queue, k) + Front(s, k), new_);
    } else if e.Enqueue? || e.PushOut? || e.TakeJob? {
      QueueStep(s, e, k);
    } else {
      WriterStep(s, e, k);
    }
  }

  // ---------------------------------------------------------------- conservation

  /** A measure of row sequences that adds up: a count of some row, a number of bytes, a volume. */
  ghost predicate Additive<R(!new)>(w: seq<R> -> int) {
    w([]) == 0 && forall a, b :: w(a + b) == w(a) + w(b)
  }

  /** The measure of everything that is on its way, logged or stored. */
  ghost function Present<R>(s: State<R>, k: Kind, w: seq<R> -> int): int {
    w(s.committed.Get(k)) + w(s.logs.Get(k)) + w(WriterRows(s.writer, k))
    + w(QueuedRows(s.queue, k)) + w(OutRows(s.mode, k))
    + w(HandRows(s.hand, k)) + w(s.bufs.Get(k))
  }

  /** Every accepted row is in exactly one place, or was dropped with a full queue. */
  ghost predicate Balanced<R>(s: State<R>, k: Kind, w: seq<R> -> int) {
    w(s.accepted.Get(k)) == Present(s, k, w) + w(s.dropped.Get(k))
  }

  lemma QueuedSum<R(!new)>(q: seq<Job<R>>, j: Job<R>, k: Kind, w: seq<R> -> int)
    requires Additive(w)
    ensures w(QueuedRows(q + [j], k)) == w(QueuedRows(q, k)) + w(RowsOf(j, k))
  {
    QueuedConcat(q, [j], k);
    QueuedOne(j, k);
  }

  lemma DequeuedSum<R(!new)>(q: seq<Job<R>>, k: Kind, w: seq<R> -> int)
    requires Additive(w) && q != []
    ensures w(QueuedRows(q, k)) == w(RowsOf(q[0], k)) + w(QueuedRows(q[1..], k))
  {
    QueuedFirst(q, k);
  }

  lemma AcceptBalanced<R(!new)>(s: State<R>, e: Event<R>, k: Kind, w: seq<R> -> int)
    requires Additive(w) && Balanced(s, k, w) && e.Accept?
    ensures Balanced(Step(s, e), k, w)
  {
    assert [] + [e.row] == [e.row];
  }

  lemma EnqueueBalanced<R(!new)>(s: State<R>, k: Kind, w: seq<R> -> int)
    requires Additive(w) && Balanced(s, k, w)
    ensures Balanced(Step(s, Enqueue), k, w)
  {
    if s.hand.Some? {
      QueuedSum(s.queue, s.hand.value, k, w);
    }
  }

  lemma ShutdownBalanced<R(!new)>(s: State<R>, e: Event<R>, k: Kind, w: seq<R> -> int)
    requires Additive(w) && ModeInv(s) && Balanced(s, k, w)
    requires e.BeginShutdown? || e.SwapOut? || e.PushOut? || e.RequestStop?
    ensures Balanced(Step(s, e), k, w)
  {
    if e.SwapOut? {
      SwapOutBalanced(s, k, w);
    } else if e.PushOut? {
      PushOutBalanced(s, k, w);
    }
  }

  lemma SwapOutBalanced<R(!new)>(s: State<R>, k: Kind, w: seq<R> -> int)
    requires Additive(w) && ModeInv(s) && Balanced(s, k, w)
    ensures Balanced(Step(s, SwapOut), k, w)
  {
    if s.mode.Swapping? && s.mode.next < 3 {
      var kind := KindAt(s.mode.next);
      QueuedSum(s.mode.out, Job(kind, s.bufs.Get(kind)), k, w);
    }
  }

  lemma PushOutBalanced<R(!new)>(s: State<R>, k: Kind, w: seq<R> -> int)
    requires Additive(w) && ModeInv(s) && Balanced(s, k, w)
    ensures Balanced(Step(s, PushOut), k, w)
  {
    if s.mode.Swapping? && s.mode.next == 3 && s.mode.out != [] {
      QueuedSum(s.queue, s.mode.out[0], k, w);
      DequeuedSum(s.mode.out, k, w);
    }
  }

  lemma WriterBalanced<R(!new)>(s: State<R>, e: Event<R>, k: Kind, w: seq<R> -> int)
    requires Additive(w) && Balanced(s, k, w)
    requires e.TakeJob? || e.LogFails? || e.LogsBatch? || e.Stores? || e.WriterExits?
    ensures Balanced(Step(s, e), k, w)
  {
    match e
    case TakeJob =>
      if s.queue != [] {
        DequeuedSum(s.queue, k, w);
      }
    case LogFails => LogFailsBalanced(s, k, w);
    case LogsBatch => LogsBalanced(s, k, w);
    case Stores(ok) => StoresBalanced(s, ok, k, w);
    case WriterExits =>
  }

  lemma LogFailsBalanced<R(!new)>(s: State<R>, k: Kind, w: seq<R> -> int)
    requires Additive(w) && Balanced(s, k, w)
    ensures Balanced(Step(s, LogFails), k, w)
  {
  }

  lemma LogsBalanced<R(!new)>(s: State<R>, k: Kind, w: seq<R> -> int)
    requires Additive(w) && Balanced(s, k, w)
    ensures Balanced(Step(s, LogsBatch), k, w)
  {
  }

  lemma StoresBalanced<R(!new)>(s: State<R>, ok: bool, k: Kind, w: seq<R> -> int)
    requires Additive(w) && Balanced(s, k, w)
    ensures Balanced(Step(s, Stores(ok)), k, w)
  {
  }

  lemma {:induction false} RunBalanced<R(!new)>(evs: seq<Event<R>>, k: Kind, w: seq<R> -> int)
    requires Additive(w)
    ensures ModeInv(Run(Init(), evs)) && Balanced(Run(Init(), evs), k, w)
  {
    if evs != [] {
      var s, e := Run(Init<R>(), evs[..|evs| - 1]), evs[|evs| - 1];
      RunBalanced(evs[..|evs| - 1], k, w);
      ModeStep(s, e);
      StepBalanced(s, e, k, w);
    } else {
      InitBalanced(k, w);
    }
  }

  lemma InitBalanced<R(!new)>(k: Kind, w: seq<R> -> int)
    requires Additive(w)
    ensures ModeInv(Init<R>()) && Balanced(Init<R>(), k, w)
  {
    assert QueuedRows<R>([], k) == [];
  }

  lemma StepBalanced<R(!new)>(s: State<R>, e: Event<R>, k: Kind, w: seq<R> -> int)
    requires Additive(w) && ModeInv(s) && Balanced(s, k, w)
    ensures Balanced(Step(s, e), k, w)
  {
    match e
    case Accept(_, _, _) => AcceptBalanced(s, e, k, w);
    case Enqueue => EnqueueBalanced(s, k, w);
    case BeginShutdown | SwapOut | PushOut | RequestStop => ShutdownBalanced(s, e, k, w);
    case _ => WriterBalanced(s, e, k, w);
  }

  /**
   In every interleaving nothing of a stream is lost or duplicated on its way: every additive measure
   of the accepted rows is the sum over the places where rows can be.
   */
  lemma Conservation<R(!new)>(evs: seq<Event<R>>, k: Kind, w: seq<R> -> int)
    requires Additive(w)
    ensures var s := Run(Init<R>(), evs);
            w(s.accepted.Get(k)) ==
            w(s.committed.Get(k)) + w(s.logs.Get(k)) + w(WriterRows(s.writer, k))
            + w(QueuedRows(s.queue, k)) + w(OutRows(s.mode, k))
            + w(HandRows(s.hand, k)) + w(s.bufs.Get(k)) + w(s.dropped.Get(k))
  {
    RunBalanced(evs, k, w);
  }

  /** In particular, every row is somewhere exactly as often as it was accepted. */
  lemma RowsConserved<R(!new)>(evs: seq<Event<R>>, k: Kind, x: R)
    ensures var s := Run(Init<R>(), evs);
            multiset(s.accepted.Get(k))[x] ==
            multiset(s.committed.Get(k))[x] + multiset(s.logs.Get(k))[x] + multiset(WriterRows(s.writer, k))[x]
            + multiset(QueuedRows(s.queue, k))[x] + multiset(OutRows(s.mode, k))[x]
            + multiset(HandRows(s.hand, k))[x] + multiset(s.bufs.Get(k))[x] + multiset(s.dropped.Get(k))[x]
  {
    var w := (rows: seq<R>) => multiset(rows)[x] as int;
    assert Additive(w);
    Conservation(evs, k, w);
  }

  lemma {:induction false} RunMode<R>(evs: seq<Event<R>>)
    ensures ModeInv(Run(Init<R>(), evs))
  {
    if evs != [] {
      RunMode(evs[..|evs| - 1]);
      ModeStep(Run(Init<R>(), evs[..|evs| - 1]), evs[|evs| - 1]);
    }
  }

  /** Capped enqueues stop at the limit, a shutdown adds at most three jobs, and the writer leaves none. */
  lemma QueueBounds<R>(evs: seq<Event<R>>)
    ensures var s := Run(Init<R>(), evs);
            && |s.queue| <= 8192 + s.shutdownJobs && s.shutdownJobs <= 3
            && (s.mode.Running? ==> |s.queue| <= 8192)
            && (s.writer.Done? ==> s.queue == [])
  {
    RunMode(evs);
  }

  // ---------------------------------------------------------------- when a buffer is handed over

  /** The buffer sizes at which the three streams are handed over. */
  function Threshold(k: Kind): nat {
    match k
    case Tick => 5
    case Bbo => 5
    case Depth => 10
  }

  ghost predicate SmallBuffers<R>(s: State<R>) {
    forall k :: k !in s.failed ==> |s.bufs.Get(k)| < Threshold(k)
  }

  lemma SmallStep<R>(s: State<R>, e: Event<R>)
    requires SmallBuffers(s)
    ensures SmallBuffers(Step(s, e))
  {
  }

  /** In every run a stream none of whose log appends failed buffers fewer than 5, 5 and 10 rows. */
  lemma {:induction false} BuffersStaySmall<R>(evs: seq<Event<R>>)
    ensures SmallBuffers(Run(Init<R>(), evs))
    ensures var s := Run(Init<R>(), evs);
            && (Tick !in s.failed ==> |s.bufs.tick| < 5)
            && (Bbo !in s.failed ==> |s.bufs.bbo| < 5)
            && (Depth !in s.failed ==> |s.bufs.depth| < 10)
  {
    if evs != [] {
      BuffersStaySmall(evs[..|evs| - 1]);
      SmallStep(Run(Init<R>(), evs[..|evs| - 1]), evs[|evs| - 1]);
    }
    var s := Run(Init<R>(), evs);
    assert s.bufs.Get(Tick) == s.bufs.tick && s.bufs.Get(Bbo) == s.bufs.bbo && s.bufs.Get(Depth) == s.bufs.depth;
  }

  /**
   An accepted row empties its buffer, the old buffer and the row being in hand, exactly when it makes the
   buffer full or the time has elapsed; otherwise it stays in the buffer.
   */
  lemma HandedOverIff<R>(s: State<R>, k: Kind, row: R, elapsed: bool)
    requires s.mode.Running? && s.hand.None?
    ensures var t, full := Step(s, Accept(k, row, elapsed)), s.bufs.Get(k) + [row];
            var over := elapsed || |full| >= (if k == Depth then 10 else 5);
            && (t.bufs.Get(k) == [] && t.hand == Some(Job(k, full)) <==> over)
            && (!over ==> t.bufs.Get(k) == full && t.hand == None)
            && t.accepted.Get(k) == s.accepted.Get(k) + [row]
            && forall j :: j != k ==> t.bufs.Get(j) == s.bufs.Get(j) && t.accepted.Get(j) == s.accepted.Get(j)
  {
  }

  /** The queue only gains at its end and loses at its front, and is refused to a batch exactly when it is full. */
  lemma QueueMoves<R>(s: State<R>, e: Event<R>)
    ensures var t := Step(s, e);
            && (t.queue == s.queue || (s.queue != [] && t.queue == s.queue[1..])
                || exists j :: t.queue == s.queue + [j])
            && (e.Enqueue? && s.hand.Some? ==>
                if |s.queue| >= 8192 then
                  t.queue == s.queue && t.dropped == s.dropped.Put(s.hand.value.kind,
                    s.dropped.Get(s.hand.value.kind) + s.hand.value.rows)
                else t.queue == s.queue + [s.hand.value] && t.dropped == s.dropped)
  {
    var t := Step(s, e);
    if e.Enqueue? && s.hand.Some? && |s.queue| < QUEUE_MAX {
      assert t.queue == s.queue + [s.hand.value];
    } else if e.PushOut? && t != s {
      assert t.queue == s.queue + [s.mode.out[0]];
    }
  }

  /**
   A batch that could not be logged goes in front of its buffer: if nothing of its stream is travelling in
   between, the order of the stream is kept.
   */
  lemma RequeueKeepsOrder<R>(s: State<R>)
    requires s.writer.Holding?
    requires var k := s.writer.job.kind;
             QueuedRows(s.queue, k) == [] && OutRows(s.mode, k) == [] && HandRows(s.hand, k) == []
    ensures var k, t := s.writer.job.kind, Step(s, LogFails);
            t.writer == Waiting && t.bufs.Get(k) == s.writer.job.rows + s.bufs.Get(k) && Flow(t, k) == Flow(s, k)
  {
    var k := s.writer.job.kind;
    var c, l, rows, buf := s.committed.Get(k), s.logs.Get(k), s.writer.job.rows, s.bufs.Get(k);
    assert Flow(s, k) == c + (l + (rows + ([] + ([] + ([] + buf)))));
    assert Flow(Step(s, LogFails), k) == c + (l + ([] + ([] + ([] + ([] + (rows + buf))))));
    EmptyParts(rows, buf);
  }

  lemma EmptyParts<R>(rows: seq<R>, buf: seq<R>)
    ensures rows + ([] + ([] + ([] + buf))) == [] + ([] + ([] + ([] + (rows + buf))))
  {
  }

  // ---------------------------------------------------------------- order

  ghost predicate Ordered<R>(s: State<R>, k: Kind) {
    k !in s.failed && s.dropped.Get(k) == [] ==> s.accepted.Get(k) == Flow(s, k)
  }

  lemma OrderedStep<R>(s: State<R>, e: Event<R>, k: Kind)
    requires ModeInv(s) && Ordered(s, k)
    requires s.hand.Some? ==> s.hand.value.rows != []
    ensures Ordered(Step(s, e), k)
  {
    var s' := Step(s, e);
    if Keeps(s, e, k) {
      FlowStep(s, e, k);
      var a, a' := s.accepted.Get(k), s'.accepted.Get(k);
      assert a' == a + a'[|a|..];
    }
  }

  lemma {:induction false} RunOrdered<R>(evs: seq<Event<R>>, k: Kind)
    ensures var s := Run(Init<R>(), evs);
            ModeInv(s) && Ordered(s, k) && (s.hand.Some? ==> s.hand.value.rows != [])
  {
    if evs != [] {
      var s, e := Run(Init<R>(), evs[..|evs| - 1]), evs[|evs| - 1];
      RunOrdered(evs[..|evs| - 1], k);
      ModeStep(s, e);
      OrderedStep(s, e, k);
    }
  }

  /**
   As long as no log append of a stream failed and none of its rows was dropped, they are stored in the order
   in which they were accepted, whatever happens to the other streams: stored, logged and travelling rows
   together are the accepted ones.
   */
  lemma StreamOrder<R>(evs: seq<Event<R>>, k: Kind)
    requires k !in Run(Init<R>(), evs).failed && Run(Init<R>(), evs).dropped.Get(k) == []
    ensures Run(Init<R>(), evs).accepted.Get(k) == Flow(Run(Init<R>(), evs), k)
    ensures Run(Init<R>(), evs).committed.Get(k) <= Run(Init<R>(), evs).accepted.Get(k)
  {
    RunOrdered(evs, k);
  }

  // ---------------------------------------------------------------- what a finished run leaves

  function IndexOfKind(k: Kind): nat {
    match k
    case Tick => 0
    case Bbo => 1
    case Depth => 2
  }

  ghost predicate Swapped<R>(s: State<R>) {
    forall k :: k !in s.failed ==>
      && (s.mode.StopRequested? ==> s.bufs.Get(k) == [])
      && (s.mode.Swapping? && IndexOfKind(k) < s.mode.next ==> s.bufs.Get(k) == [])
  }

  lemma SwappedStep<R>(s: State<R>, e: Event<R>)
    requires ModeInv(s) && Swapped(s)
    ensures Swapped(Step(s, e))
  {
  }

  lemma {:induction false} RunSwapped<R>(evs: seq<Event<R>>)
    ensures ModeInv(Run(Init<R>(), evs)) && Swapped(Run(Init<R>(), evs))
  {
    if evs != [] {
      RunSwapped(evs[..|evs| - 1]);
      ModeStep(Run(Init<R>(), evs[..|evs| - 1]), evs[|evs| - 1]);
      SwappedStep(Run(Init<R>(), evs[..|evs| - 1]), evs[|evs| - 1]);
    }
  }

  /**
   When the writer has stopped, every accepted row is stored, still in the log, dropped, or back in
   its buffer; the last only after a failed log append of its stream, and then nobody takes it out again.
   */
  lemma AfterShutdown<R(!new)>(evs: seq<Event<R>>, k: Kind, w: seq<R> -> int)
    requires Run(Init<R>(), evs).writer.Done? && Additive(w)
    ensures var s := Run(Init<R>(), evs);
            && w(s.accepted.Get(k)) ==
               w(s.committed.Get(k)) + w(s.logs.Get(k)) + w(s.bufs.Get(k)) + w(s.dropped.Get(k))
            && (k !in s.failed ==> s.bufs.Get(k) == [])
            && forall e :: Step(s, e) == s
  {
    RunSwapped(evs);
    Conservation(evs, k, w);
  }

  // ---------------------------------------------------------------- the code between two events

  /** The jobs a shutdown makes of what the buffers hold. */
  function Leftovers<R>(bufs: PerKind<R>): seq<Job<R>> {
    JobsOf(Tick, bufs.tick) + JobsOf(Bbo, bufs.bbo) + JobsOf(Depth, bufs.depth)
  }

  function JobsOf<R>(k: Kind, rows: seq<R>): seq<Job<R>> { if rows == [] then [] else [Job(k, rows)] }

  lemma Joined<T>(q: seq<T>, a: seq<T>, b: seq<T>, c: seq<T>)
    ensures ((q + a) + b) + c == q + (a + b + c)
  {
  }

  /** The shutdown events in program order, with nothing of the writer in between. */
  function SwapAll<R>(s: State<R>): State<R> {
    Step(Step(Step(Step(s, BeginShutdown), SwapOut), SwapOut), SwapOut)
  }

  function PushAll<R>(s: State<R>): State<R> {
    Step(Step(Step(Step(s, PushOut), PushOut), PushOut), RequestStop)
  }

  lemma SwapAllResult<R>(s: State<R>)
    requires s.mode.Running? && s.hand.None?
    ensures SwapAll(s) == s.(bufs := Empty(), mode := Swapping(3, Leftovers(s.bufs)))
  {
    var t, b := JobsOf(Tick, s.bufs.tick), JobsOf(Bbo, s.bufs.bbo);
    assert [] + [Job(Tick, s.bufs.tick)] == [Job(Tick, s.bufs.tick)];
    var s1 := s.(bufs := s.bufs.(tick := []), mode := Swapping(1, t));
    assert Step(Step(s, BeginShutdown), SwapOut) == s1;
    assert t + [] == t && t + b + [] == t + b;
    var s2 := s.(bufs := s.bufs.(tick := [], bbo := []), mode := Swapping(2, t + b));
    assert Step(s1, SwapOut) == s2;
    assert Step(s2, SwapOut) == s.(bufs := Empty(), mode := Swapping(3, Leftovers(s.bufs)));
  }

  lemma {:induction false} PushAllResult<R>(s: State<R>)
    requires s.mode.Swapping? && s.mode.next == 3 && |s.mode.out| <= 3
    ensures PushAll(s) == s.(queue := s.queue + s.mode.out, mode := StopRequested,
                             shutdownJobs := s.shutdownJobs + |s.mode.out|)
  {
    var q, out := s.queue, s.mode.out;
    if |out| >= 1 {
      assert q + [out[0]] == q + out[..1];
    }
    if |out| >= 2 {
      assert q + out[..1] + [out[1]] == q + out[..2];
    }
    if |out| >= 3 {
      assert q + out[..2] + [out[2]] == q + out[..3];
    }
    assert q + out[..|out|] == q + out;
  }

  /** The collector as one object; between two calls neither thread holds a batch. */
  class Collector<R> {
    var bufs: PerKind<R>
    var queue: seq<Job<R>>
    var droppedBatches: nat
    var writerStop: bool
    var logs: PerKind<R>
    ghost var committed: PerKind<R>
    ghost var accepted: PerKind<R>
    ghost var dropped: PerKind<R>
    ghost var failed: set<Kind>
    ghost var shutdownJobs: nat

    ghost function Abs(): State<R>
      reads this
    {
      State(bufs, None, queue, if writerStop then StopRequested else Running, Waiting, logs, committed,
            accepted, dropped, failed, shutdownJobs)
    }

    constructor ()
      ensures Abs() == Init()
    {
      bufs, queue, droppedBatches, writerStop, logs := Empty(), [], 0, false, Empty();
      committed, accepted, dropped, failed, shutdownJobs := Empty(), Empty(), Empty(), {}, 0;
    }

    method EnqueueJob(job: Job<R>, enforceCap: bool) returns (ok: bool)
      modifies this`queue
      ensures ok == !(enforceCap && |old(queue)| >= 8192)
      ensures queue == if ok then old(queue) + [job] else old(queue)
    {
      if enforceCap && |queue| >= QUEUE_MAX {
        return false;
      }
      queue := queue + [job];
      ok := true;
    }

    /** One incoming row: buffer it, and hand over the buffer when it is full or old. */
    method OnRow(k: Kind, row: R, elapsed: bool)
      requires !writerStop
      modifies this
      ensures Abs() == Step(Step(old(Abs()), Accept(k, row, elapsed)), Enqueue)
      ensures var full := old(bufs.Get(k)) + [row];
              bufs.Get(k) == if elapsed || |full| >= (if k == Depth then 10 else 5) then [] else full
      ensures droppedBatches == old(droppedBatches) + (if dropped != old(dropped) then 1 else 0)
    {
      var batch := BufferRow(k, row, elapsed);
      if |batch| != 0 {
        HandOver(k, batch);
      }
    }

    /** The buffer's critical section: the row goes in, and a buffer that is full or old comes out. */
    method BufferRow(k: Kind, row: R, elapsed: bool) returns (batch: seq<R>)
      requires !writerStop
      modifies this`accepted, this`bufs
      ensures Step(old(Abs()), Accept(k, row, elapsed)) ==
              Abs().(hand := if batch != [] then Some(Job(k, batch)) else None)
    {
      accepted := accepted.Put(k, accepted.Get(k) + [row]);
      batch := [];
      bufs := bufs.Put(k, bufs.Get(k) + [row]);
      if |bufs.Get(k)| >= FlushEvery(k) || elapsed {
        batch := bufs.Get(k);
        bufs := bufs.Put(k, []);
      }
    }

    /** The queue's critical section: the batch goes in, or is dropped and counted. */
    method HandOver(k: Kind, batch: seq<R>)
      requires batch != []
      modifies this`queue, this`droppedBatches, this`dropped
      ensures Abs() == Step(old(Abs()).(hand := Some(Job(k, batch))), Enqueue)
      ensures droppedBatches == old(droppedBatches) + (if dropped != old(dropped) then 1 else 0)
    {
      var ok := EnqueueJob(Job(k, batch), true);
      if !ok {
        droppedBatches := droppedBatches + 1;
        dropped := dropped.Put(k, dropped.Get(k) + batch);
        assert dropped.Get(k) != old(dropped).Get(k);
      }
    }

    /** Shutdown: swap out the three buffers, push what they held without the cap, ask for a stop. */
    method EnqueueRemaining()
      requires !writerStop
      modifies this
      ensures Abs() == PushAll(SwapAll(old(Abs())))
    {
      SwapAllResult(Abs());
      PushAllResult(SwapAll(Abs()));
      var ticks, bbo, depth := bufs.tick, bufs.bbo, bufs.depth;
      bufs := Empty();
      PushRows(Tick, ticks);
      PushRows(Bbo, bbo);
      PushRows(Depth, depth);
      Joined(old(queue), JobsOf(Tick, ticks), JobsOf(Bbo, bbo), JobsOf(Depth, depth));
      writerStop := true;
    }

    method PushRows(k: Kind, rows: seq<R>)
      modifies this`queue, this`shutdownJobs
      ensures queue == old(queue) + JobsOf(k, rows) && shutdownJobs == old(shutdownJobs) + |JobsOf(k, rows)|
    {
      if |rows| != 0 {
        var ok := EnqueueJob(Job(k, rows), false);
        shutdownJobs := shutdownJobs + 1;
      }
    }

    /** One turn of the writer loop on a non-empty queue, given how the log and the database behave. */
    method WriterTurn(logOk: bool, storeOk: bool)
      requires queue != []
      modifies this
      ensures Abs() ==
              if !logOk then Step(Step(old(Abs()), TakeJob), LogFails)
              else Step(Step(Step(old(Abs()), TakeJob), LogsBatch), Stores(storeOk))
    {
      var job := queue[0];
      queue := queue[1..];
      assert Step(old(Abs()), TakeJob) == Abs().(writer := Holding(job));
      WriteBatch(job, logOk, storeOk);
    }

    /** Log and store one batch, or put it back in front of its buffer. */
    method WriteBatch(job: Job<R>, logOk: bool, storeOk: bool)
      modifies this
      ensures var held := old(Abs()).(writer := Holding(job));
              Abs() == if !logOk then Step(held, LogFails) else Step(Step(held, LogsBatch), Stores(storeOk))
    {
      if !logOk {
        bufs := bufs.Put(job.kind, job.rows + bufs.Get(job.kind));
        failed := failed + {job.kind};
        return;
      }
      logs := logs.Put(job.kind, logs.Get(job.kind) + job.rows);
      if storeOk {
        committed := committed.Put(job.kind, committed.Get(job.kind) + logs.Get(job.kind));
        logs := logs.Put(job.kind, []);
      }
    }
  }
}
