/**
 The per-stream write queue: at most one asynchronous write is in flight, the rest waits in order.
 Completion handlers are arbitrary: while one runs it may submit, attach and detach again.  The calls
 that are waiting for a handler to return form a stack.
 */
module WriteQueue {
  import opened Prelude

  type Id = int

  /** Why a handler is running, that is, where the code continues when it returns. */
  datatype Frame =
    | Rejected                       // called at once by a submit without a stream
    | Completion(failed: bool)       // called for the finished write
    | Failing(afterError: bool)      // called by the loop that fails everything queued

  /**
   `started` and `finished` record the writes handed to the stream and those it completed; the stream
   completes them in order, so the writes in flight are what `started` has beyond `finished`, and nothing
   in this type limits their number.  `accepted` and `called` record the queued submissions and the handler
   calls for them, `rejected` the submissions answered at once, `mismatch` a completion that met an empty
   queue or another item than the one written.
   */
  datatype State = State(
    attached: bool, busy: bool, q: seq<Id>, started: seq<Id>, finished: seq<Id>, stack: seq<Frame>,
    accepted: seq<Id>, called: seq<Id>, rejected: seq<Id>, submitted: multiset<Id>, mismatch: bool)
  {
    function InFlight(): seq<Id> {
      if |finished| <= |started| then started[|finished|..] else []
    }
  }

  datatype Event = Submit(id: Id) | Attach | Detach | Written(failed: bool) | HandlerReturns

  const INIT: State := State(false, false, [], [], [], [], [], [], [], multiset{}, false)

  function Push(s: State, f: Frame): State { s.(stack := s.stack + [f]) }

  function Pop(s: State): State
    requires s.stack != []
  {
    s.(stack := s.stack[..|s.stack| - 1])
  }

  function Pump(s: State): State {
    if !s.attached || s.q == [] then s.(busy := false)
    else s.(busy := true, started := s.started + [s.q[0]])
  }

  /** Takes the front out of the queue and calls its handler. */
  function CallFront(s: State, f: Frame): State
    requires s.q != []
  {
    Push(s.(q := s.q[1..], called := s.called + [s.q[0]]), f)
  }

  /** One turn of the loop that fails everything queued; behind it a broken stream is no longer busy. */
  function FailNext(s: State, afterError: bool): State {
    if s.q != [] then CallFront(s, Failing(afterError))
    else if afterError then s.(busy := false)
    else s
  }

  /** The stream completes a write: one is in flight, and no handler is running. */
  predicate Completes(s: State, e: Event) { e.Written? && s.InFlight() != [] && s.stack == [] }

  /** One event; an event that cannot happen now changes nothing. */
  function Step(s: State, e: Event): State {
    match e
    case Submit(id) =>
      var s1 := s.(submitted := s.submitted + multiset{id});
      if !s.attached then Push(s1.(rejected := s.rejected + [id]), Rejected)
      else
        var s2 := s1.(q := s.q + [id], accepted := s.accepted + [id]);
        if s.busy then s2 else Pump(s2)
    case Attach => s.(attached := true)
    case Detach => FailNext(s.(attached := false), false)
    case Written(failed) =>
      if !Completes(s, e) then s
      else
        var done := s.InFlight()[0];
        var s1 := s.(finished := s.finished + [done], mismatch := s.mismatch || s.q == [] || s.q[0] != done);
        if s.q == [] then s1 else CallFront(s1, Completion(failed))
    case HandlerReturns =>
      if s.stack == [] then s
      else
        var s1 := Pop(s);
        match s.stack[|s.stack| - 1]
        case Rejected => s1
        case Completion(failed) => if failed then FailNext(s1, true) else Pump(s1)
        case Failing(afterError) => FailNext(s1, afterError)
  }

  function Run(s: State, evs: seq<Event>): State {
    if evs == [] then s else Step(Run(s, evs[..|evs| - 1]), evs[|evs| - 1])
  }

  /** The stream is never detached while a write is in flight. */
  ghost predicate Careful(evs: seq<Event>)
    decreases |evs|
  {
    evs == [] ||
    (Careful(evs[..|evs| - 1]) &&
     (evs[|evs| - 1].Detach? ==> Run(INIT, evs[..|evs| - 1]).InFlight() == []))
  }

  lemma RunSnoc(s: State, evs: seq<Event>, e: Event)
    ensures Run(s, evs + [e]) == Step(Run(s, evs), e)
  {
    assert (evs + [e])[..|evs|] == evs;
  }

  // ---------------------------------------------------------------- invariants

  predicate Finishing(f: Frame) { f.Completion? || f == Failing(true) }

  /** A finished write is still being dealt with: only at the bottom of the stack. */
  predicate Completing(s: State) { s.stack != [] && Finishing(s.stack[0]) }

  /** Every write started was finished, or is the only one in flight and the front of the queue. */
  ghost predicate AtMostOne(s: State) {
    s.started == s.finished || (s.q != [] && s.started == s.finished + [s.q[0]])
  }

  ghost predicate Inv(s: State) {
    && !s.mismatch && AtMostOne(s)
    && (s.started != s.finished ==> s.attached && !Completing(s))
    && (s.busy <==> s.started != s.finished || Completing(s))
    && (!s.busy ==> s.q == [])
    && (forall i :: 1 <= i < |s.stack| ==> !Finishing(s.stack[i]))
    && (!s.attached && s.q != [] ==> exists i :: 1 <= i < |s.stack| && s.stack[i] == Failing(false))
    && (forall i :: 0 <= i < |s.stack| && s.stack[i] == Failing(false) ==> i >= 1 && Finishing(s.stack[0]))
  }

  lemma InFlightIs(s: State)
    requires AtMostOne(s)
    ensures s.InFlight() == if s.started == s.finished then [] else [s.q[0]]
    ensures s.started == s.finished + s.InFlight()
  {
  }

  lemma SubmitKeeps(s: State, id: Id)
    requires Inv(s)
    ensures Inv(Step(s, Submit(id)))
  {
    var s' := Step(s, Submit(id));
    assert forall i :: 0 <= i < |s.stack| ==> s'.stack[i] == s.stack[i];
  }

  lemma DetachKeeps(s: State)
    requires Inv(s) && s.InFlight() == []
    ensures Inv(Step(s, Detach))
  {
    var s' := Step(s, Detach);
    InFlightIs(s);
    assert forall i :: 0 <= i < |s.stack| ==> s'.stack[i] == s.stack[i];
    if s.q != [] {
      assert s'.stack[|s.stack|] == Failing(false);
    }
  }

  lemma WrittenKeeps(s: State, failed: bool)
    requires Inv(s)
    ensures Inv(Step(s, Written(failed)))
  {
    InFlightIs(s);
  }

  lemma PoppedStack(s: State)
    requires Inv(s) && s.stack != []
    ensures forall i :: 0 <= i < |s.stack| - 1 ==> Pop(s).stack[i] == s.stack[i]
  {
  }

  lemma ReturnKeeps(s: State)
    requires Inv(s) && s.stack != []
    ensures Inv(Step(s, HandlerReturns))
  {
    PoppedStack(s);
    var top := s.stack[|s.stack| - 1];
    var s1, s' := Pop(s), Step(s, HandlerReturns);
    if top.Failing? && s.q != [] {
      assert s' == CallFront(s1, top);
      assert s'.stack == s.stack;
      if !s.attached {
        var i :| 1 <= i < |s.stack| && s.stack[i] == Failing(false);
        assert s'.stack[i] == Failing(false);
      }
    } else if top.Completion? {
      assert |s.stack| == 1;
      if top.failed && s.q != [] {
        assert s'.stack == [Failing(true)];
      }
    } else if top.Rejected? && !s.attached && s.q != [] {
      var i :| 1 <= i < |s.stack| && s.stack[i] == Failing(false);
      assert s1.stack[i] == Failing(false);
    }
  }

  lemma StepKeeps(s: State, e: Event)
    requires Inv(s) && (e.Detach? ==> s.InFlight() == [])
    ensures Inv(Step(s, e))
  {
    match e
    case Submit(id) => SubmitKeeps(s, id);
    case Attach =>
    case Detach => DetachKeeps(s);
    case Written(failed) => WrittenKeeps(s, failed);
    case HandlerReturns =>
      if s.stack != [] {
        ReturnKeeps(s);
      }
  }

  lemma {:induction false} RunKeeps(evs: seq<Event>)
    requires Careful(evs)
    ensures Inv(Run(INIT, evs))
  {
    if evs != [] {
      RunKeeps(evs[..|evs| - 1]);
      StepKeeps(Run(INIT, evs[..|evs| - 1]), evs[|evs| - 1]);
    }
  }

  /**
   In every run that never detaches with a write in flight: at most one write is in flight, every other one
   started was finished, the one in flight is the front of the queue, no completion meets a wrong item, and
   a queue that is not busy is empty.
   */
  lemma OneWriteAtTheFront(evs: seq<Event>)
    requires Careful(evs)
    ensures var s := Run(INIT, evs);
            && |s.InFlight()| <= 1 && s.started == s.finished + s.InFlight()
            && (s.InFlight() != [] ==> s.busy && s.attached && s.q != [] && s.InFlight() == [s.q[0]])
            && !s.mismatch
            && (!s.busy ==> s.q == [] && s.InFlight() == [])
            && (s.stack == [] && s.InFlight() == [] ==> !s.busy)
  {
    RunKeeps(evs);
    InFlightIs(Run(INIT, evs));
  }

  /** A write starts only when none is in flight, and no write is forgotten. */
  lemma NoOverlap(evs: seq<Event>, e: Event)
    requires Careful(evs + [e])
    ensures var s, s' := Run(INIT, evs), Run(INIT, evs + [e]);
            && s.started <= s'.started
            && (s'.started != s.started ==> s.InFlight() == [] && s'.InFlight() == s'.started[|s.started|..])
            && (s'.finished != s.finished ==> s'.InFlight() == [] && s'.finished == s.finished + s.InFlight())
  {
    assert (evs + [e])[..|evs|] == evs;
    RunKeeps(evs);
    RunSnoc(INIT, evs, e);
    OneStepOverlap(Run(INIT, evs), e);
  }

  lemma OneStepOverlap(s: State, e: Event)
    requires Inv(s) && (e.Detach? ==> s.InFlight() == [])
    ensures var s' := Step(s, e);
            && s.started <= s'.started
            && (s'.started != s.started ==> s.InFlight() == [] && s'.InFlight() == s'.started[|s.started|..])
            && (s'.finished != s.finished ==> s'.InFlight() == [] && s'.finished == s.finished + s.InFlight())
  {
    InFlightIs(s);
    LogsStep(s, e);
  }

  /** Which logs an event writes. */
  lemma LogsStep(s: State, e: Event)
    ensures var s' := Step(s, e);
            && s.started <= s'.started && |s'.started| <= |s.started| + 1
            && s'.finished == s.finished + (if Completes(s, e) then [s.InFlight()[0]] else [])
            && (Completes(s, e) ==> s'.started == s.started)
  {
    match e
    case Submit(id) =>
      if s.attached && !s.busy {
        PumpLogs(s.(submitted := s.submitted + multiset{id}, q := s.q + [id], accepted := s.accepted + [id]));
      }
    case HandlerReturns =>
      if s.stack != [] {
        PumpLogs(Pop(s));
      }
    case Written(failed) =>
    case Attach =>
    case Detach =>
  }

  lemma PumpLogs(s: State)
    ensures s.started <= Pump(s).started && |Pump(s).started| <= |s.started| + 1 && Pump(s).finished == s.finished
  {
  }

  // ---------------------------------------------------------------- writes in order, each once

  /** `a` is `b` with some elements left out. */
  ghost predicate Subsequence(a: seq<Id>, b: seq<Id>)
    decreases |b|
  {
    a == [] ||
    (b != [] &&
     ((a[|a| - 1] == b[|b| - 1] && Subsequence(a[..|a| - 1], b[..|b| - 1])) || Subsequence(a, b[..|b| - 1])))
  }

  lemma SubsequenceGrows(a: seq<Id>, b: seq<Id>, x: Id)
    requires Subsequence(a, b)
    ensures Subsequence(a, b + [x]) && Subsequence(a + [x], b + [x])
  {
    assert (b + [x])[..|b|] == b && (a + [x])[..|a|] == a;
  }

  lemma {:induction false} SubsequenceOfLonger(a: seq<Id>, b: seq<Id>, more: seq<Id>)
    requires Subsequence(a, b)
    ensures Subsequence(a, b + more)
    decreases |more|
  {
    if more == [] {
      assert b + more == b;
    } else {
      var front := more[..|more| - 1];
      SubsequenceOfLonger(a, b, front);
      SubsequenceGrows(a, b + front, more[|more| - 1]);
      assert b + more == (b + front) + [more[|more| - 1]];
    }
  }

  lemma FinishedStep(s: State, e: Event)
    requires Inv(s) && Subsequence(s.finished, s.called)
    ensures Subsequence(Step(s, e).finished, Step(s, e).called)
  {
    InFlightIs(s);
    LogsStep(s, e);
    CalledStep(s, e);
    if s.q != [] {
      SubsequenceGrows(s.finished, s.called, s.q[0]);
    }
  }

  lemma CalledStep(s: State, e: Event)
    ensures var s' := Step(s, e);
            && (s'.called == s.called || (s.q != [] && s'.called == s.called + [s.q[0]]))
            && (Completes(s, e) && s.q != [] ==> s'.called == s.called + [s.q[0]])
  {
  }

  lemma {:induction false} FinishedInOrder(evs: seq<Event>)
    requires Careful(evs)
    ensures Subsequence(Run(INIT, evs).finished, Run(INIT, evs).called)
  {
    if evs != [] {
      var front := evs[..|evs| - 1];
      FinishedInOrder(front);
      RunKeeps(front);
      FinishedStep(Run(INIT, front), evs[|evs| - 1]);
    }
  }

  /** Writes are started in the order of submission and each at most once; items failed unwritten are left out. */
  lemma StartedInOrder(evs: seq<Event>)
    requires Careful(evs)
    ensures Subsequence(Run(INIT, evs).started, Run(INIT, evs).accepted)
  {
    var s := Run(INIT, evs);
    RunKeeps(evs);
    InFlightIs(s);
    FinishedInOrder(evs);
    CalledInOrderOnce(evs);
    if s.started == s.finished {
      SubsequenceOfLonger(s.finished, s.called, s.q);
    } else {
      SubsequenceGrows(s.finished, s.called, s.q[0]);
      SubsequenceOfLonger(s.finished + [s.q[0]], s.called + [s.q[0]], s.q[1..]);
      FrontMoves(s.called, s.q);
    }
  }

  /** Nothing failed and nothing was detached. */
  ghost predicate Smooth(evs: seq<Event>) {
    forall i :: 0 <= i < |evs| ==> !evs[i].Detach? && evs[i] != Written(true)
  }

  ghost predicate SmoothState(s: State) {
    && s.finished == s.called
    && forall i :: 0 <= i < |s.stack| ==> !s.stack[i].Failing? && s.stack[i] != Completion(true)
  }

  lemma SmoothStep(s: State, e: Event)
    requires Inv(s) && SmoothState(s) && !e.Detach? && e != Written(true)
    ensures SmoothState(Step(s, e))
  {
    InFlightIs(s);
    LogsStep(s, e);
    CalledStep(s, e);
  }

  lemma {:induction false} SmoothRun(evs: seq<Event>)
    requires Smooth(evs)
    ensures Careful(evs) && SmoothState(Run(INIT, evs))
  {
    if evs != [] {
      var front := evs[..|evs| - 1];
      SmoothRun(front);
      RunKeeps(front);
      SmoothStep(Run(INIT, front), evs[|evs| - 1]);
    }
  }

  /** Then the finished writes, and the one in flight behind them, are a prefix of what was accepted. */
  lemma SmoothPrefix(evs: seq<Event>)
    requires Smooth(evs)
    ensures var s := Run(INIT, evs); s.finished <= s.started <= s.accepted
  {
    SmoothRun(evs);
    RunKeeps(evs);
    InFlightIs(Run(INIT, evs));
    CalledInOrderOnce(evs);
    var s := Run(INIT, evs);
    if s.started != s.finished {
      FrontMoves(s.called, s.q);
    }
  }

  // ---------------------------------------------------------------- every handler once, in order

  ghost predicate InOrder(s: State) { s.accepted == s.called + s.q }

  ghost predicate Answered(s: State) { s.submitted == multiset(s.accepted) + multiset(s.rejected) }

  lemma FrontMoves(called: seq<Id>, q: seq<Id>)
    requires q != []
    ensures called + q == (called + [q[0]]) + q[1..]
  {
  }

  lemma NewAtTheEnd(called: seq<Id>, q: seq<Id>, id: Id)
    ensures called + q + [id] == called + (q + [id])
  {
  }

  lemma InOrderStep(s: State, e: Event)
    requires InOrder(s)
    ensures InOrder(Step(s, e))
  {
    if e.Submit? {
      NewAtTheEnd(s.called, s.q, e.id);
    } else if s.q != [] {
      FrontMoves(s.called, s.q);
    }
  }

  lemma OneMore(a: seq<Id>, r: seq<Id>, id: Id)
    ensures multiset(a + [id]) + multiset(r) == multiset(a) + multiset(r) + multiset{id}
    ensures multiset(a) + multiset(r + [id]) == multiset(a) + multiset(r) + multiset{id}
  {
  }

  lemma AnsweredStep(s: State, e: Event)
    requires Answered(s)
    ensures Answered(Step(s, e))
  {
    if e.Submit? {
      OneMore(s.accepted, s.rejected, e.id);
    } else {
      SameAnswers(s, e);
    }
  }

  lemma SameAnswers(s: State, e: Event)
    requires !e.Submit?
    ensures var s' := Step(s, e);
            s'.submitted == s.submitted && s'.accepted == s.accepted && s'.rejected == s.rejected
  {
  }

  /**
   In every run handlers of queued submissions are called in the order of submission and each at most
   once: what was accepted is what was called followed by what is still queued; every submission is
   either accepted or answered at once.
   */
  lemma {:induction false} CalledInOrderOnce(evs: seq<Event>)
    ensures InOrder(Run(INIT, evs)) && Answered(Run(INIT, evs))
  {
    if evs != [] {
      CalledInOrderOnce(evs[..|evs| - 1]);
      InOrderStep(Run(INIT, evs[..|evs| - 1]), evs[|evs| - 1]);
      AnsweredStep(Run(INIT, evs[..|evs| - 1]), evs[|evs| - 1]);
    }
  }

  /** At rest, with no write in flight and no handler running, every submitted handler has been called. */
  lemma NothingLeftAtRest(evs: seq<Event>)
    requires Careful(evs)
    requires Run(INIT, evs).stack == [] && Run(INIT, evs).InFlight() == []
    ensures var s := Run(INIT, evs);
            s.called == s.accepted && s.submitted == multiset(s.called) + multiset(s.rejected)
  {
    OneWriteAtTheFront(evs);
    CalledInOrderOnce(evs);
    var s := Run(INIT, evs);
    assert s.called + [] == s.called;
  }

  // ---------------------------------------------------------------- after an error

  /** A failed write is being dealt with: it is at the bottom of the stack, and the queue is busy with nothing. */
  ghost predicate Breaking(s: State) {
    Inv(s) && s.stack != [] && (s.stack[0] == Completion(true) || s.stack[0] == Failing(true))
  }

  /** The broken stream has been given up: nothing is queued, and every handler was called. */
  ghost predicate GivenUp(s: State) { s.stack == [] && s.q == [] && !s.busy && s.called == s.accepted }

  lemma BreakingStep(s: State, e: Event)
    requires Breaking(s) && InOrder(s)
    ensures Step(s, e).started == s.started
    ensures Breaking(Step(s, e)) || GivenUp(Step(s, e))
  {
    InFlightIs(s);
    StepKeeps(s, e);
    InOrderStep(s, e);
    if e.HandlerReturns? {
      BreakingReturn(s);
    } else if !e.Written? {
      assert Step(s, e).stack != [] && Step(s, e).stack[0] == s.stack[0];
    }
  }

  lemma BreakingReturn(s: State)
    requires Breaking(s) && InOrder(s)
    ensures var t := Step(s, HandlerReturns);
            && t.started == s.started
            && (t.stack != [] ==> t.stack[0] == s.stack[0] || t.stack == [Failing(true)])
            && (t.stack == [] ==> GivenUp(t))
  {
    var top := s.stack[|s.stack| - 1];
    InOrderStep(s, HandlerReturns);
    if |s.stack| > 1 {
      assert !Finishing(top);
      assert Pop(s).stack[0] == s.stack[0];
    } else {
      assert top == s.stack[0] && Pop(s).stack == [];
      var t := Step(s, HandlerReturns);
      assert t.stack == [] ==> t.called + [] == t.called;
    }
  }

  /** The handlers have not all returned at any moment of `evs`, its end apart. */
  ghost predicate HandlersRunning(s: State, evs: seq<Event>)
    decreases |evs|
  {
    evs == [] || (HandlersRunning(s, evs[..|evs| - 1]) && Run(s, evs[..|evs| - 1]).stack != [])
  }

  lemma {:induction false} BreakingRun(s: State, evs: seq<Event>)
    requires Breaking(s) && InOrder(s) && HandlersRunning(s, evs)
    ensures var t := Run(s, evs); t.started == s.started && InOrder(t) && (Breaking(t) || GivenUp(t))
  {
    if evs != [] {
      var front := evs[..|evs| - 1];
      BreakingRun(s, front);
      BreakingStep(Run(s, front), evs[|evs| - 1]);
      InOrderStep(Run(s, front), evs[|evs| - 1]);
    }
  }

  /**
   After a write failed, in every careful run: whatever the handlers submit, attach or detach, no write is
   started until all of them have returned; and when they have, the queue is empty and idle, and every
   handler of a queued submission, those of the meantime included, has been called.
   */
  lemma ErrorFailsEverything(pre: seq<Event>, post: seq<Event>)
    requires Careful(pre) && Completes(Run(INIT, pre), Written(true))
    requires HandlersRunning(Run(INIT, pre + [Written(true)]), post)
    ensures var s, t := Run(INIT, pre), Run(INIT, pre + [Written(true)] + post);
            && t.started == s.started
            && (t.stack == [] ==> t.q == [] && !t.busy && t.called == t.accepted)
  {
    var s := Run(INIT, pre);
    RunKeeps(pre);
    CalledInOrderOnce(pre);
    InFlightIs(s);
    RunSnoc(INIT, pre, Written(true));
    var broken := Step(s, Written(true));
    StepKeeps(s, Written(true));
    InOrderStep(s, Written(true));
    assert broken.stack == [Completion(true)] && broken.started == s.started;
    BreakingRun(broken, post);
    RunConcat(INIT, pre + [Written(true)], post);
  }

  /** A write that succeeded is followed, once its handler has returned, by the next one in the queue, if any. */
  lemma SuccessStartsNext(pre: seq<Event>)
    requires Careful(pre) && Completes(Run(INIT, pre), Written(false))
    ensures NextStarted(Run(INIT, pre), Run(INIT, pre + [Written(false)] + [HandlerReturns]))
  {
    RunKeeps(pre);
    RunSnoc(INIT, pre, Written(false));
    RunSnoc(INIT, pre + [Written(false)], HandlerReturns);
    SuccessSteps(Run(INIT, pre));
  }

  /** The front is gone, and the item behind it, if any, was handed to the stream. */
  ghost predicate NextStarted(s: State, t: State) {
    && s.q != [] && t.stack == [] && t.q == s.q[1..] && (t.busy <==> t.q != [])
    && t.started == s.started + (if t.q != [] then [t.q[0]] else [])
  }

  lemma SuccessSteps(s: State)
    requires Inv(s) && Completes(s, Written(false))
    ensures NextStarted(s, Step(Step(s, Written(false)), HandlerReturns))
  {
    InFlightIs(s);
    var t := Step(s, Written(false));
    assert t.stack == [Completion(false)] && t.q == s.q[1..] && t.started == s.started;
    assert Pop(t).stack == [];
  }

  /** A submission to an idle attached queue is started at once, to a busy one it waits. */
  lemma SubmitStartsIffIdle(pre: seq<Event>, id: Id)
    requires Careful(pre) && Run(INIT, pre).attached
    ensures var s, t := Run(INIT, pre), Run(INIT, pre + [Submit(id)]);
            && t.q == s.q + [id] && t.busy
            && t.started == s.started + (if s.busy then [] else [id])
  {
    RunKeeps(pre);
    RunSnoc(INIT, pre, Submit(id));
  }

  // ---------------------------------------------------------------- the excluded case

  ghost predicate DistinctIds(evs: seq<Event>) {
    forall i, j :: 0 <= i < j < |evs| && evs[i].Submit? && evs[j].Submit? ==> evs[i].id != evs[j].id
  }

  ghost predicate NoRepeats(ids: seq<Id>) { forall i, j :: 0 <= i < j < |ids| ==> ids[i] != ids[j] }

  /**
   A write is in flight whose item has left the queue: `id` was taken out by a detach, the queue stays busy,
   and no completion is being dealt with.
   */
  ghost predicate Orphaned(s: State, id: Id) {
    && s.started == s.finished + [id] && s.busy && !s.mismatch && id !in s.q
    && forall i :: 0 <= i < |s.stack| ==> !Finishing(s.stack[i])
  }

  lemma DetachOrphans(s: State)
    requires Inv(s) && s.InFlight() != []
    requires NoRepeats(s.q)
    ensures Orphaned(Step(s, Detach), s.q[0])
  {
    InFlightIs(s);
    assert s.q[0] !in s.q[1..];
  }

  /** Only the completion ends it, and then it meets an empty queue or another item. */
  lemma OrphanedStep(s: State, id: Id, e: Event)
    requires Orphaned(s, id) && e != Submit(id)
    ensures if Completes(s, e) then Step(s, e).mismatch else Orphaned(Step(s, e), id)
  {
    assert s.InFlight() == [id];
    if e.HandlerReturns? && s.stack != [] {
      assert !Finishing(s.stack[|s.stack| - 1]);
    }
  }

  /** The completion of a write comes in `evs`, from state `s`. */
  ghost predicate Completed(s: State, evs: seq<Event>)
    decreases |evs|
  {
    evs != [] && (Completed(s, evs[..|evs| - 1]) || Completes(Run(s, evs[..|evs| - 1]), evs[|evs| - 1]))
  }

  lemma MismatchStays(s: State, e: Event)
    requires s.mismatch
    ensures Step(s, e).mismatch
  {
  }

  lemma {:induction false} OrphanedRun(s: State, id: Id, evs: seq<Event>)
    requires Orphaned(s, id) && forall i :: 0 <= i < |evs| ==> evs[i] != Submit(id)
    ensures Run(s, evs).mismatch <==> Completed(s, evs)
    ensures !Completed(s, evs) ==> Orphaned(Run(s, evs), id)
  {
    if evs != [] {
      var front, e := evs[..|evs| - 1], evs[|evs| - 1];
      OrphanedRun(s, id, front);
      if Completed(s, front) {
        MismatchStays(Run(s, front), e);
      } else {
        OrphanedStep(Run(s, front), id, e);
      }
    }
  }

  lemma {:induction false} RunConcat(s: State, a: seq<Event>, b: seq<Event>)
    ensures Run(s, a + b) == Run(Run(s, a), b)
  {
    if b == [] {
      assert a + b == a;
    } else {
      var front := b[..|b| - 1];
      assert (a + b)[..|a + b| - 1] == a + front;
      RunConcat(s, a, front);
    }
  }

  ghost predicate Known(s: State, evs: seq<Event>) {
    forall id :: id in s.accepted ==> Submit(id) in evs
  }

  /** With distinct submissions the accepted ones are distinct. */
  lemma {:induction false} AcceptedDistinct(evs: seq<Event>)
    requires DistinctIds(evs)
    ensures Known(Run(INIT, evs), evs) && NoRepeats(Run(INIT, evs).accepted)
  {
    if evs != [] {
      var front, e := evs[..|evs| - 1], evs[|evs| - 1];
      AcceptedDistinct(front);
      var s, s' := Run(INIT, front), Run(INIT, evs);
      assert evs == front + [e];
      if e.Submit? && s.attached {
        assert s'.accepted == s.accepted + [e.id];
        assert Submit(e.id) !in front;
      } else {
        SameAccepted(s, e);
      }
    }
  }

  lemma SameAccepted(s: State, e: Event)
    requires !e.Submit? || !s.attached
    ensures Step(s, e).accepted == s.accepted
  {
  }

  /** A detach with a write in flight, whatever handlers are running: the write is orphaned. */
  lemma OrphanedAt(pre: seq<Event>, post: seq<Event>) returns (id: Id)
    requires Careful(pre) && Run(INIT, pre).InFlight() != []
    requires DistinctIds(pre + [Detach] + post)
    ensures Orphaned(Run(INIT, pre + [Detach]), id)
    ensures forall i :: 0 <= i < |post| ==> post[i] != Submit(id)
  {
    var s, all := Run(INIT, pre), pre + [Detach] + post;
    RunKeeps(pre);
    InFlightIs(s);
    assert forall i :: 0 <= i < |pre| ==> all[i] == pre[i];
    id := s.q[0];
    QueuedDistinct(pre);
    DetachOrphans(s);
    RunSnoc(INIT, pre, Detach);
    NotAgain(pre, post, id);
  }

  lemma QueuedDistinct(pre: seq<Event>)
    requires DistinctIds(pre)
    ensures var s := Run(INIT, pre); NoRepeats(s.q) && forall id :: id in s.q ==> Submit(id) in pre
  {
    var s := Run(INIT, pre);
    CalledInOrderOnce(pre);
    AcceptedDistinct(pre);
    assert forall i :: 0 <= i < |s.q| ==> s.accepted[|s.called| + i] == s.q[i];
  }

  lemma NotAgain(pre: seq<Event>, post: seq<Event>, id: Id)
    requires DistinctIds(pre + [Detach] + post) && Submit(id) in pre
    ensures forall i :: 0 <= i < |post| ==> post[i] != Submit(id)
  {
    var all := pre + [Detach] + post;
    var k :| 0 <= k < |pre| && pre[k] == Submit(id);
    assert all[k] == Submit(id);
    assert forall i :: 0 <= i < |post| ==> all[|pre| + 1 + i] == post[i];
  }

  /**
   Detaching with a write in flight goes wrong exactly when the write completes: in every continuation,
   with any handlers running and anything attached or submitted meanwhile, its completion meets an empty
   queue or another item.
   */
  lemma DetachInFlightMismatch(pre: seq<Event>, post: seq<Event>)
    requires Careful(pre) && Run(INIT, pre).InFlight() != []
    requires DistinctIds(pre + [Detach] + post)
    ensures Run(INIT, pre + [Detach] + post).mismatch <==> Completed(Run(INIT, pre + [Detach]), post)
  {
    var id := OrphanedAt(pre, post);
    RunConcat(INIT, pre + [Detach], post);
    OrphanedRun(Run(INIT, pre + [Detach]), id, post);
  }

  // -- carefulness is exactly what is needed

  /** Handlers that return one after the other. */
  function Settle(n: nat): (evs: seq<Event>)
    ensures |evs| == n && forall i :: 0 <= i < n ==> evs[i] == HandlerReturns
  {
    seq(n, i => HandlerReturns)
  }

  lemma {:induction false} OrphanedSettles(s: State, id: Id, n: nat)
    requires Orphaned(s, id)
    ensures Orphaned(Run(s, Settle(n)), id)
    ensures var t := Run(s, Settle(n)); t.stack == [] || |t.q| + |t.stack| + n <= |s.q| + |s.stack|
  {
    if n > 0 {
      OrphanedSettles(s, id, n - 1);
      assert Settle(n)[..n - 1] == Settle(n - 1);
      var t := Run(s, Settle(n - 1));
      OrphanedStep(t, id, HandlerReturns);
      if t.stack != [] {
        assert !Finishing(t.stack[|t.stack| - 1]);
      }
    }
  }

  ghost predicate DetachFree(evs: seq<Event>) { forall i :: 0 <= i < |evs| ==> !evs[i].Detach? }

  lemma {:induction false} CarefulExtends(a: seq<Event>, b: seq<Event>)
    requires Careful(a) && DetachFree(b)
    ensures Careful(a + b)
    decreases |b|
  {
    if b == [] {
      assert a + b == a;
    } else {
      CarefulExtends(a, b[..|b| - 1]);
      assert (a + b)[..|a + b| - 1] == a + b[..|b| - 1];
    }
  }

  /** Where a careless run first detaches with a write in flight. */
  lemma {:induction false} FirstCareless(evs: seq<Event>) returns (k: nat)
    requires !Careful(evs)
    ensures k < |evs| && Careful(evs[..k]) && evs[k] == Detach && Run(INIT, evs[..k]).InFlight() != []
    decreases |evs|
  {
    var front := evs[..|evs| - 1];
    if Careful(front) {
      k := |evs| - 1;
    } else {
      k := FirstCareless(front);
      assert front[..k] == evs[..k];
    }
  }

  /** A careless run, however it went on, can go wrong without any further detach. */
  lemma CarelessGoesWrong(evs: seq<Event>) returns (post: seq<Event>)
    requires !Careful(evs) && DistinctIds(evs)
    ensures DetachFree(post) && DistinctIds(evs + post) && Run(INIT, evs + post).mismatch
  {
    var k := FirstCareless(evs);
    var pre, rest := evs[..k], evs[k + 1..];
    assert evs == pre + [Detach] + rest;
    var id := OrphanedAt(pre, rest);
    var s := Run(INIT, pre + [Detach]);
    RunConcat(INIT, pre + [Detach], rest);
    OrphanedRun(s, id, rest);
    if Completed(s, rest) {
      post := [];
      assert evs + post == evs;
    } else {
      post := OrphanFinishes(Run(s, rest), id);
      RunConcat(INIT, evs, post);
      StillDistinct(evs, post);
    }
  }

  /** An orphaned write goes wrong once the running handlers have returned. */
  lemma OrphanFinishes(t: State, id: Id) returns (post: seq<Event>)
    requires Orphaned(t, id)
    ensures DetachFree(post) && SubmitFree(post) && Run(t, post).mismatch
  {
    var n := |t.q| + |t.stack|;
    OrphanedSettles(t, id, n);
    post := Settle(n) + [Written(false)];
    OrphanedStep(Run(t, Settle(n)), id, Written(false));
    RunSnoc(t, Settle(n), Written(false));
  }

  ghost predicate SubmitFree(evs: seq<Event>) { forall i :: 0 <= i < |evs| ==> !evs[i].Submit? }

  lemma StillDistinct(evs: seq<Event>, post: seq<Event>)
    requires DistinctIds(evs) && SubmitFree(post)
    ensures DistinctIds(evs + post)
  {
    assert forall i :: 0 <= i < |evs| ==> (evs + post)[i] == evs[i];
    assert forall i :: |evs| <= i < |evs + post| ==> !(evs + post)[i].Submit?;
  }

  /**
   No completion can ever meet a wrong item, whatever happens without a further detach, exactly after a
   careful run.
   */
  lemma SafeIffCareful(evs: seq<Event>)
    requires DistinctIds(evs)
    ensures Careful(evs) <==>
            forall post :: DetachFree(post) && DistinctIds(evs + post) ==> !Run(INIT, evs + post).mismatch
  {
    if Careful(evs) {
      forall post | DetachFree(post) && DistinctIds(evs + post) ensures !Run(INIT, evs + post).mismatch {
        CarefulExtends(evs, post);
        RunKeeps(evs + post);
      }
    } else {
      var post := CarelessGoesWrong(evs);
    }
  }

  // ---------------------------------------------------------------- the code between two handler calls

  class WsWriteQueue {
    var attached: bool
    var busy: bool
    var q: seq<Id>
    ghost var started: seq<Id>
    ghost var finished: seq<Id>
    ghost var stack: seq<Frame>
    ghost var accepted: seq<Id>
    ghost var called: seq<Id>
    ghost var rejected: seq<Id>
    ghost var submitted: multiset<Id>
    ghost var mismatch: bool

    ghost function Abs(): State
      reads this
    {
      State(attached, busy, q, started, finished, stack, accepted, called, rejected, submitted, mismatch)
    }

    constructor ()
      ensures Abs() == INIT
    {
      attached, busy, q, started, finished, mismatch := false, false, [], [], [], false;
      stack, accepted, called, rejected, submitted := [], [], [], [], multiset{};
    }

    method AttachStream()
      modifies this
      ensures Abs() == Step(old(Abs()), Attach)
    {
      attached := true;
    }

    /** The handler to call now, if any. */
    method DetachStream() returns (call: Option<Id>)
      modifies this
      ensures Abs() == Step(old(Abs()), Detach)
      ensures call == if old(q) == [] then None else Some(old(q)[0])
    {
      attached := false;
      call := FailFront(false);
    }

    method SubmitWrite(id: Id) returns (call: Option<Id>)
      modifies this
      ensures Abs() == Step(old(Abs()), Submit(id))
      ensures call == if old(attached) then None else Some(id)
    {
      submitted := submitted + multiset{id};
      if !attached {
        rejected := rejected + [id];
        stack := stack + [Rejected];
        return Some(id);
      }
      q := q + [id];
      accepted := accepted + [id];
      if !busy {
        StartNext();
      }
      call := None;
    }

    method StartNext()
      modifies this`busy, this`started
      ensures Abs() == Pump(old(Abs()))
    {
      if !attached || |q| == 0 {
        busy := false;
        return;
      }
      busy := true;
      started := started + [q[0]];
    }

    method FailFront(ghost afterError: bool) returns (call: Option<Id>)
      modifies this`q, this`called, this`stack
      ensures old(q) == [] ==> call == None && Abs() == old(Abs())
      ensures old(q) != [] ==> call == Some(old(q)[0]) && Abs() == CallFront(old(Abs()), Failing(afterError))
    {
      if |q| == 0 {
        return None;
      }
      call := Some(q[0]);
      called := called + [q[0]];
      q := q[1..];
      stack := stack + [Failing(afterError)];
    }

    /** The oldest write in flight has finished: the front is taken out, whatever it is, and its handler called. */
    method OnWritten(ghost failed: bool) returns (call: Id)
      requires Completes(Abs(), Written(failed)) && q != []
      modifies this
      ensures Abs() == Step(old(Abs()), Written(failed))
      ensures call == old(q)[0]
    {
      ghost var done := Abs().InFlight()[0];
      mismatch := mismatch || q[0] != done;
      finished := finished + [done];
      call := q[0];
      called := called + [q[0]];
      q := q[1..];
      stack := stack + [Completion(failed)];
    }

    /** What follows the handler of a finished write. */
    method AfterCompletion(failed: bool) returns (call: Option<Id>)
      requires stack != [] && stack[|stack| - 1] == Completion(failed)
      modifies this
      ensures Abs() == Step(old(Abs()), HandlerReturns)
    {
      stack := stack[..|stack| - 1];
      call := None;
      if failed {
        call := FailFront(true);
        if call.None? {
          busy := false;
        }
      } else {
        StartNext();
      }
    }

    /** What follows a handler that the failing loop called. */
    method AfterFailed(afterError: bool) returns (call: Option<Id>)
      requires stack != [] && stack[|stack| - 1] == Failing(afterError)
      modifies this
      ensures Abs() == Step(old(Abs()), HandlerReturns)
    {
      stack := stack[..|stack| - 1];
      call := FailFront(afterError);
      if call.None? && afterError {
        busy := false;
      }
    }
  }
}
