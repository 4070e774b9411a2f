/** The fetch loop with its batches opened up: KafkaLoop's threads and KafkaBatch's goroutines under one
    scheduler (kafka/kafka.go:255-433). The batch runs while the loop is handling, its handlers share the
    ctx that Stop cancels, and the loop goes on only when the batch is over. */
module KafkaConsumer {
  import opened KafkaBatch
  import D = KafkaDelivery
  import L = KafkaLoop
  import opened Wrappers

  /** A batch and how far it has come. */
  datatype Work = Work(batch: Batch, state: State)

  /** The loop's machine, the batch it is handling if it is, and the batches it has finished. */
  datatype Consumer = Consumer(loop: L.State, now: Option<Work>, finished: seq<Work>)

  /** A step of the loop's machine, or of a goroutine of the batch. Beginning a batch says which. */
  datatype Move = Plain(step: L.Step) | Begin(batch: Batch) | Goroutine(move: Step)

  const START := Consumer(L.INIT, None, [])

  /** A batch begun when ctx is already cancelled sees it cancelled from the start. */
  function Fresh(b: Batch, cancelled: bool): State {
    Init(b).(cancelled := cancelled)
  }

  ghost predicate CanMove(c: Consumer, m: Move) {
    match m
    case Plain(step) =>
      && L.Enabled(c.loop, step)
      && (step.TestRefusal? ==> L.Refused(c.loop.loop.f))
      && (step.BatchOver? ==> c.now.Some? && Over(c.now.value.state))
    case Begin(b) => WellFormed(b) && L.Enabled(c.loop, L.TestRefusal) && !L.Refused(c.loop.loop.f)
    case Goroutine(step) =>
      && step != Cancel
      && c.now.Some? && WellFormed(c.now.value.batch)
           && |c.now.value.state.workers| == |c.now.value.state.calls| == |c.now.value.batch.parts|
      && Enabled(c.now.value.batch, c.now.value.state, step)
  }

  ghost function Moved(c: Consumer, m: Move): Consumer
    requires CanMove(c, m)
  {
    match m
    case Plain(step) =>
      var loop := L.After(c.loop, step);
      if step.BatchOver? then Consumer(loop, None, c.finished + [c.now.value])
      else if step.CancelCtx? && c.now.Some? then
        Consumer(loop, Some(c.now.value.(state := c.now.value.state.(cancelled := true))), c.finished)
      else c.(loop := loop)
    case Begin(b) => Consumer(L.After(c.loop, L.TestRefusal), Some(Work(b, Fresh(b, c.loop.shut.ctxCancelled))),
      c.finished)
    case Goroutine(step) => c.(now := Some(c.now.value.(state := After(c.now.value.batch, c.now.value.state, step))))
  }

  ghost function Run(moves: seq<Move>): Option<Consumer> {
    if moves == [] then Some(START)
    else
      var before := Run(moves[..|moves| - 1]);
      var m := moves[|moves| - 1];
      if before.Some? && CanMove(before.value, m) then Some(Moved(before.value, m)) else None
  }

  // --------------------------------------------------------------- invariant

  ghost predicate WorkOk(w: Work) {
    WellFormed(w.batch) && Inv(w.batch, w.state)
  }

  /** Stop has given up waiting and cancelled ctx. */
  predicate GaveUp(s: L.State) {
    (s.shut.stop.Closing? || s.shut.stop.Stopped?) && !s.shut.stop.ok
  }

  ghost predicate Ok(c: Consumer) {
    && L.Inv(c.loop)
    && (c.now.Some? <==> c.loop.loop.Handling?)
    && (c.now.Some? ==> WorkOk(c.now.value) && c.now.value.state.cancelled == c.loop.shut.ctxCancelled)
    && |c.finished| == c.loop.handed
    && (forall i :: 0 <= i < |c.finished| ==> WorkOk(c.finished[i]) && Over(c.finished[i].state))
    && (forall i :: 0 <= i < |c.finished| && c.finished[i].state.cancelled ==> GaveUp(c.loop))
  }

  lemma FreshInv(b: Batch, cancelled: bool)
    requires WellFormed(b)
    ensures Inv(b, Fresh(b, cancelled))
  {
    InitInv(b);
    if cancelled {
      CancelInv(b, Init(b));
    }
  }

  lemma CancelledInv(b: Batch, s: State)
    requires WellFormed(b) && Inv(b, s)
    ensures Inv(b, s.(cancelled := true))
  {
    if s.cancelled {
      assert s.(cancelled := true) == s;
    } else {
      CancelInv(b, s);
    }
  }

  lemma GaveUpStays(s: L.State, step: L.Step)
    requires L.Enabled(s, step) && GaveUp(s)
    ensures GaveUp(L.After(s, step))
  {
    if L.LoopStep(step) {
      hide L.After, L.Enabled;
      L.LoopFrame(s, step);
    } else {
      StopFrame(s, step);
    }
  }

  /** What a step of the loop's machine can change of what a batch sees. */
  lemma PlainFrame(s: L.State, step: L.Step)
    requires L.Inv(s) && L.Enabled(s, step)
    ensures var s2 := L.After(s, step);
            && (s2.shut.ctxCancelled <==> s.shut.ctxCancelled || step.CancelCtx?)
            && s2.handed == s.handed + (if step.BatchOver? then 1 else 0)
            && (s2.loop.Handling? <==>
                  (s.loop.Handling? && !step.BatchOver?) || (step.TestRefusal? && !L.Refused(s.loop.f)))
            && (s.loop.Handling? && s.shut.ctxCancelled ==> GaveUp(s))
  {
    hide L.Inv, L.After;
    if s.loop.Handling? && s.shut.ctxCancelled {
      Interrupted(s);
    }
    if L.LoopStep(step) {
      L.LoopFrame(s, step);
      HandlingFrame(s, step);
    } else {
      StopFrame(s, step);
      L.OtherFrame(s, step);
    }
  }

  lemma Interrupted(s: L.State)
    requires L.Inv(s) && s.loop.Handling? && s.shut.ctxCancelled
    ensures GaveUp(s)
  {
  }

  lemma HandlingFrame(s: L.State, step: L.Step)
    requires L.Enabled(s, step) && L.LoopStep(step)
    ensures var s2 := L.After(s, step);
            && s2.handed == s.handed + (if step.BatchOver? then 1 else 0)
            && (s2.loop.Handling? <==> step.TestRefusal? && !L.Refused(s.loop.f))
            && (s.loop.Handling? ==> step.BatchOver?)
  {
    match step
    case BatchOver =>
    case TestRefusal =>
    case LoopTop =>
    case PollReturns(_) =>
    case TestClosed =>
    case TestPollCtx =>
    case SetFatal =>
    case Send =>
  }

  lemma StopFrame(s: L.State, step: L.Step)
    requires L.Enabled(s, step) && !L.LoopStep(step)
    ensures var s2 := L.After(s, step);
            (s2.shut.ctxCancelled <==> s.shut.ctxCancelled || step.CancelCtx?) && (GaveUp(s) ==> GaveUp(s2))
  {
    match step
    case DrainSet =>
    case DrainCancel =>
    case StopSet =>
    case StopPollCancel =>
    case SeeDone =>
    case SeeExpiry =>
    case CancelCtx =>
    case CloseClient =>
    case Expire =>
    case Receive =>
  }

  lemma PlainOk(c: Consumer, step: L.Step)
    requires Ok(c) && CanMove(c, Plain(step))
    ensures Ok(Moved(c, Plain(step)))
  {
    L.StepInv(c.loop, step);
    PlainFrame(c.loop, step);
    hide Inv, L.Inv, L.Enabled, L.After, WellFormed;
    if GaveUp(c.loop) {
      GaveUpStays(c.loop, step);
    }
    if step.CancelCtx? && c.now.Some? {
      CancelledInv(c.now.value.batch, c.now.value.state);
    }
  }

  lemma BeginOk(c: Consumer, b: Batch)
    requires Ok(c) && CanMove(c, Begin(b))
    ensures Ok(Moved(c, Begin(b)))
  {
    L.StepInv(c.loop, L.TestRefusal);
    PlainFrame(c.loop, L.TestRefusal);
    FreshInv(b, c.loop.shut.ctxCancelled);
    hide Inv, L.Inv, L.Enabled, L.After;
    if GaveUp(c.loop) {
      GaveUpStays(c.loop, L.TestRefusal);
    }
  }

  lemma GoroutineOk(c: Consumer, step: Step)
    requires Ok(c) && CanMove(c, Goroutine(step))
    ensures Ok(Moved(c, Goroutine(step)))
  {
    var w := c.now.value;
    StepInv(w.batch, w.state, step);
    assert After(w.batch, w.state, step).cancelled == w.state.cancelled;
    hide Inv, L.Inv, After, Enabled, WellFormed;
  }

  lemma {:induction false} RunOk(moves: seq<Move>)
    requires Run(moves).Some?
    ensures Ok(Run(moves).value)
    decreases |moves|
  {
    hide Ok, Moved, CanMove;
    if moves == [] {
      StartOk();
    } else {
      var c, m := Run(moves[..|moves| - 1]).value, moves[|moves| - 1];
      RunOk(moves[..|moves| - 1]);
      match m
      case Plain(step) => PlainOk(c, step);
      case Begin(b) => BeginOk(c, b);
      case Goroutine(step) => GoroutineOk(c, step);
    }
  }

  lemma StartOk()
    ensures Ok(START)
  {
  }

  // ---------------------------------------------------------------- theorems

  /** Under every interleaving of the loop, its goroutines, Drain and Stop: every batch the loop has been
      through handed exactly its leading runs to commit, and only a Stop that gave up cut one short. */
  lemma EveryBatchCommitsItsRuns(moves: seq<Move>)
    requires Run(moves).Some?
    ensures var c := Run(moves).value;
            && |c.finished| == c.loop.handed
            && (forall i, p :: 0 <= i < |c.finished| && 0 <= p < |c.finished[i].batch.parts| ==>
                  RunCommitted(c.finished[i], p, GaveUp(c.loop)))
  {
    hide GaveUp, L.Inv, Inv, Over, RunCommitted, Run;
    RunOk(moves);
    var c := Run(moves).value;
    forall i, p | 0 <= i < |c.finished| && 0 <= p < |c.finished[i].batch.parts|
      ensures RunCommitted(c.finished[i], p, GaveUp(c.loop))
    {
      OverCommits(c.finished[i], p);
      MayCut(c.finished[i], p, GaveUp(c.loop));
    }
  }

  lemma MayCut(w: Work, p: nat, mayCut: bool)
    requires RunCommitted(w, p, w.state.cancelled) && (w.state.cancelled ==> mayCut)
    ensures RunCommitted(w, p, mayCut)
  {
    hide Leading, Done, Of, Output, Called, AllSucceeded;
    var n: nat :| n <= |w.batch.parts[p]|
      && PartitionRun(w.batch.parts[p], w.batch.outs[p], w.state.calls[p], n, w.state.cancelled)
      && GoodCut(w.batch.outs[p], n, w.state.cancelled)
      && Of(Output(w.state), w.batch.labels[p]) == w.batch.parts[p][..n] == Done(w.state.calls[p]);
    assert PartitionRun(w.batch.parts[p], w.batch.outs[p], w.state.calls[p], n, mayCut);
  }

  /** The Handler was called on the records of partition p in order and never after a failure, and those of
      them that succeeded are what the batch handed to commit: the leading run, whole unless cut. */
  ghost predicate RunCommitted(w: Work, p: nat, mayCut: bool) {
    && p < |w.batch.parts| && |w.batch.labels| == |w.batch.parts| == |w.batch.outs| == |w.state.calls|
    && exists n: nat :: n <= |w.batch.parts[p]|
         && PartitionRun(w.batch.parts[p], w.batch.outs[p], w.state.calls[p], n, mayCut)
         && GoodCut(w.batch.outs[p], n, mayCut)
         && Of(Output(w.state), w.batch.labels[p]) == w.batch.parts[p][..n] == Done(w.state.calls[p])
  }

  lemma OverCommits(w: Work, p: nat)
    requires WorkOk(w) && Over(w.state) && p < |w.batch.parts|
    ensures RunCommitted(w, p, w.state.cancelled)
  {
    hide Leading, Done, Of, Called, AllSucceeded;
    OverShowsRuns(w.batch, w.state, p);
  }

  /** Stop returns nil only once the loop has returned with every batch it began over and the whole of
      every partition's leading run handed to commit. */
  lemma {:induction false} CleanStopCommitsEverything(moves: seq<Move>)
    requires Run(moves).Some?
    ensures var c := Run(moves).value;
            c.loop.shut.stop == L.Stopped(true) ==>
            && c.loop.loop.Returned? && |c.finished| == c.loop.begun
            && (forall i, p :: 0 <= i < |c.finished| && 0 <= p < |c.finished[i].batch.parts| ==>
                  RunCommitted(c.finished[i], p, false))
  {
    hide Ok, Run, RunCommitted;
    RunOk(moves);
    EveryBatchCommitsItsRuns(moves);
    if Run(moves).value.loop.shut.stop == L.Stopped(true) {
      CleanlyStopped(Run(moves).value);
      assert !GaveUp(Run(moves).value.loop);
    }
  }

  lemma CleanlyStopped(c: Consumer)
    requires Ok(c) && c.loop.shut.stop == L.Stopped(true)
    ensures c.loop.loop.Returned? && |c.finished| == c.loop.begun
  {
  }

  // ------------------------------------------------ after Stop has given up

  /** Every batch so far, in order, the one in hand last. */
  function Works(c: Consumer): seq<Work> {
    c.finished + if c.now.Some? then [c.now.value] else []
  }

  /** The same batch later, with no more calls in any partition than were left to it. */
  ghost predicate CalledLittle(w: Work, w2: Work) {
    && w2.batch == w.batch
    && |w.state.calls| == |w.state.workers| == |w2.state.calls| == |w2.state.workers|
    && forall p :: 0 <= p < |w.state.calls| ==>
         |w2.state.calls[p]| + CallsLeft(w2.state.workers[p]) <= |w.state.calls[p]| + CallsLeft(w.state.workers[p])
  }

  /** A batch begun when ctx was cancelled already. */
  ghost predicate CalledOnce(w: Work) {
    && |w.state.calls| == |w.state.workers|
    && forall p :: 0 <= p < |w.state.calls| ==> |w.state.calls[p]| + CallsLeft(w.state.workers[p]) <= 1
  }

  ghost predicate CancelledSince(was: seq<Work>, now: seq<Work>) {
    && |was| <= |now|
    && (forall k :: 0 <= k < |was| ==> CalledLittle(was[k], now[k]))
    && (forall k :: |was| <= k < |now| ==> CalledOnce(now[k]))
  }

  lemma PlainKeepsWorks(c: Consumer, step: L.Step)
    requires Ok(c) && CanMove(c, Plain(step)) && c.loop.shut.ctxCancelled
    ensures var c2 := Moved(c, Plain(step)); c2.loop.shut.ctxCancelled && Works(c2) == Works(c)
  {
    PlainFrame(c.loop, step);
    NotCancelledTwice(c.loop, step);
    hide L.Enabled, L.After, L.Inv, Inv;
  }

  lemma NotCancelledTwice(s: L.State, step: L.Step)
    requires L.Inv(s) && L.Enabled(s, step) && s.shut.ctxCancelled
    ensures !step.CancelCtx?
  {
  }

  lemma BeginAddsWork(c: Consumer, b: Batch)
    requires Ok(c) && CanMove(c, Begin(b)) && c.loop.shut.ctxCancelled
    ensures var c2 := Moved(c, Begin(b));
            && c2.loop.shut.ctxCancelled
            && |Works(c2)| == |Works(c)| + 1 && Works(c2)[..|Works(c)|] == Works(c)
            && CalledOnce(Works(c2)[|Works(c)|])
  {
    PlainFrame(c.loop, L.TestRefusal);
    hide L.Inv, Inv;
  }

  lemma GoroutineCallsLittle(c: Consumer, step: Step)
    requires Ok(c) && CanMove(c, Goroutine(step)) && c.loop.shut.ctxCancelled
    ensures var c2 := Moved(c, Goroutine(step));
            && c2.loop.shut.ctxCancelled
            && |Works(c2)| == |Works(c)| > 0
            && (forall k :: 0 <= k < |Works(c)| - 1 ==> Works(c2)[k] == Works(c)[k])
            && CalledLittle(Works(c)[|Works(c)| - 1], Works(c2)[|Works(c)| - 1])
  {
    hide After, Enabled, WellFormed, L.Inv, WorkersOk, CallsLeft;
    var w := c.now.value;
    forall p | 0 <= p < |w.state.calls|
      ensures var s2 := After(w.batch, w.state, step);
              |s2.calls[p]| + CallsLeft(s2.workers[p]) <= |w.state.calls[p]| + CallsLeft(w.state.workers[p])
    {
      CancelledStep(w.batch, w.state, step, p);
    }
  }

  lemma {:induction false} CancelledWorks(before: seq<Move>, after: seq<Move>)
    requires Run(before).Some? && Run(before + after).Some? && Run(before).value.loop.shut.ctxCancelled
    ensures Run(before + after).value.loop.shut.ctxCancelled
    ensures CancelledSince(Works(Run(before).value), Works(Run(before + after).value))
    decreases |after|
  {
    hide Ok, Moved, CanMove, Works, CallsLeft;
    RunOk(before);
    if after == [] {
      assert before + after == before;
      SameWorks(Run(before).value);
    } else {
      var front, m := after[..|after| - 1], after[|after| - 1];
      assert (before + after)[..|before + after| - 1] == before + front;
      assert (before + after)[|before + after| - 1] == m;
      CancelledWorks(before, front);
      RunOk(before + front);
      var c := Run(before + front).value;
      match m
      case Plain(step) => PlainKeepsWorks(c, step);
      case Begin(b) => BeginAddsWork(c, b);
      case Goroutine(step) =>
        GoroutineCallsLittle(c, step);
        LastCalledLittle(Works(Run(before).value), Works(c), Works(Moved(c, m)));
    }
  }

  lemma LastCalledLittle(was: seq<Work>, mid: seq<Work>, now: seq<Work>)
    requires CancelledSince(was, mid) && |mid| == |now| > 0
    requires forall k :: 0 <= k < |mid| - 1 ==> now[k] == mid[k]
    requires CalledLittle(mid[|mid| - 1], now[|mid| - 1])
    ensures CancelledSince(was, now)
  {
    hide CallsLeft;
  }

  lemma SameWorks(c: Consumer)
    requires Ok(c)
    ensures CancelledSince(Works(c), Works(c))
  {
    hide L.Inv;
    forall k | 0 <= k < |Works(c)| ensures CalledLittle(Works(c)[k], Works(c)[k]) {
      WorkersCounted(Works(c)[k]);
    }
  }

  /** Once Stop has cancelled ctx, whatever else is scheduled: of each partition the batch in hand has, the
      Handler is called on at most one more record, and of a batch begun later on at most one at all. */
  lemma {:induction false} CancelStopsHandlers(before: seq<Move>, after: seq<Move>)
    requires Run(before).Some? && Run(before + after).Some? && Run(before).value.loop.shut.ctxCancelled
    ensures var was, now := Works(Run(before).value), Works(Run(before + after).value);
            && |was| <= |now|
            && (forall k, p :: 0 <= k < |was| && 0 <= p < |was[k].batch.parts| ==>
                  now[k].batch == was[k].batch && |was[k].state.calls| == |now[k].state.calls| == |was[k].batch.parts|
                  && |now[k].state.calls[p]| <= |was[k].state.calls[p]| + 1)
            && (forall k, p :: |was| <= k < |now| && 0 <= p < |now[k].state.calls| ==> |now[k].state.calls[p]| <= 1)
  {
    hide Run, Works;
    CancelledWorks(before, after);
    RunOk(before);
    var was, now := Works(Run(before).value), Works(Run(before + after).value);
    WorksOk(Run(before).value);
    forall k, p | 0 <= k < |was| && 0 <= p < |was[k].batch.parts|
      ensures now[k].batch == was[k].batch && |was[k].state.calls| == |now[k].state.calls| == |was[k].batch.parts|
      ensures |now[k].state.calls[p]| <= |was[k].state.calls[p]| + 1
    {
      assert CalledLittle(was[k], now[k]);
      WorkersCounted(was[k]);
    }
  }

  lemma WorksOk(c: Consumer)
    requires Ok(c)
    ensures forall k :: 0 <= k < |Works(c)| ==> WorkOk(Works(c)[k])
  {
    hide L.Inv, WorkOk;
  }

  // ------------------------------------------- at least once, end to end

  /** What one batch had for the partition that is followed: its entry if there was one, where in the log
      that started, and whether the commit went through. */
  datatype Reading = Reading(entry: Option<nat>, start: nat, commitOk: bool)

  /** The entry is the stretch of the partition's log from start on. */
  ghost predicate Reads(log: seq<int>, part: int, w: Work, r: Reading) {
    r.entry.Some? ==>
      var b, p := w.batch, r.entry.value;
      && p < |b.parts| && |b.labels| == |b.parts| == |b.outs| && b.labels[p] == part
      && r.start + |b.parts[p]| <= |log|
      && forall i :: 0 <= i < |b.parts[p]| ==> b.parts[p][i].offset == log[r.start + i]
  }

  /** The same batch as a poll of that one partition: the Handler calls its goroutine made, and what the
      batch handed to commit of the partition. */
  function PollOf(part: int, w: Work, r: Reading): D.Poll {
    if r.entry.Some? && r.entry.value < |w.batch.parts| && r.entry.value < |w.state.calls| then
      var p := r.entry.value;
      D.Poll(r.start, |w.batch.parts[p]|, w.state.calls[p], Of(Output(w.state), part), r.commitOk)
    else D.Poll(0, 0, [], [], false)
  }

  function Polls(part: int, finished: seq<Work>, readings: seq<Reading>): (polls: seq<D.Poll>)
    requires |readings| == |finished|
    ensures |polls| == |finished|
  {
    seq(|finished|, k requires 0 <= k < |finished| => PollOf(part, finished[k], readings[k]))
  }

  lemma WorkGivesPoll(log: seq<int>, part: int, w: Work, r: Reading)
    requires WorkOk(w) && Over(w.state) && Reads(log, part, w, r)
    ensures D.Possible(log, part, PollOf(part, w, r))
  {
    hide Inv, Over, Output, Of, Leading, Done, PartitionRun, GoodCut;
    if r.entry.Some? {
      var b, p := w.batch, r.entry.value;
      OverShowsRuns(b, w.state, p);
      WorkersCounted(w);
      D.RunGivesPoll(log, part, b.parts[p], b.outs[p], w.state.calls[p], w.state.workers[p].n, w.state.cancelled,
                     r.start, r.commitOk);
    } else {
      D.NothingPolled(log, part);
    }
  }

  lemma WorkersCounted(w: Work)
    requires WorkOk(w)
    ensures |w.state.workers| == |w.state.calls| == |w.batch.parts|
  {
  }

  /** Over any run, with any handler failing or panicking, any commit failing and any interleaving with
      Drain and Stop: everything below the partition's committed offset has had a Handler call that
      succeeded after every batch exactly when every batch that committed something had resumed no later
      than the first record without one. */
  lemma {:induction false} AtLeastOnceEndToEnd(moves: seq<Move>, log: seq<int>, part: int, base: nat, start: D.Progress,
                            readings: seq<Reading>)
    requires Run(moves).Some? && |readings| == |Run(moves).value.finished|
    requires forall k :: 0 <= k < |readings| ==> Reads(log, part, Run(moves).value.finished[k], readings[k])
    requires D.Increasing(log) && D.Covered(log, base, start)
    ensures var polls := Polls(part, Run(moves).value.finished, readings);
            && D.AllPossible(log, part, polls)
            && (D.AlwaysCovered(log, part, base, start, polls) <==> D.CommitsOnlyResumed(log, part, base, start, polls))
  {
    hide Run, WorkOk, Over, Reads, PollOf, D.Possible, Of, Output, L.Inv, GaveUp;
    RunOk(moves);
    var finished := Run(moves).value.finished;
    var polls := Polls(part, finished, readings);
    forall k | 0 <= k < |finished| ensures D.Possible(log, part, polls[k]) {
      WorkGivesPoll(log, part, finished[k], readings[k]);
    }
    D.AtLeastOnceIff(log, part, base, start, polls);
  }
}
