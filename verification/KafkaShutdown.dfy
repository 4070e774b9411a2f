/** The whole Kafka consumer lets go once both flags are set (kafka/kafka.go:262-285, 401-433): KafkaLoop's
    bound on the loop and KafkaBatch's on a batch, under the one scheduler of KafkaConsumer. */
module KafkaShutdown {
  import opened KafkaBatch
  import opened KafkaConsumer
  import B = KafkaBatch
  import C = KafkaConsumer
  import L = KafkaLoop

  /** A move of the loop, or of a goroutine of the batch it is handling. */
  predicate LoopMove(m: Move) {
    match m
    case Plain(step) => L.LoopStep(step)
    case Begin(_) => true
    case Goroutine(_) => true
  }

  function LoopMoves(moves: seq<Move>): nat {
    if moves == [] then 0
    else LoopMoves(moves[..|moves| - 1]) + if LoopMove(moves[|moves| - 1]) then 1 else 0
  }

  function Begins(moves: seq<Move>): nat {
    if moves == [] then 0
    else Begins(moves[..|moves| - 1]) + if moves[|moves| - 1].Begin? then 1 else 0
  }

  /** How many steps the batches begun in these moves can take at most. */
  function Brought(moves: seq<Move>): nat {
    if moves == [] then 0
    else
      var m := moves[|moves| - 1];
      Brought(moves[..|moves| - 1]) + if m.Begin? then Measure(m.batch, B.Init(m.batch)) else 0
  }

  /** How many steps the batch in hand can still take. */
  function InHand(c: Consumer): nat {
    if c.now.Some? && |c.now.value.state.workers| == |c.now.value.batch.parts|
    then Measure(c.now.value.batch, c.now.value.state) else 0
  }

  predicate FlagsSet(c: Consumer) {
    c.loop.shut.closing && c.loop.shut.pollCancelled
  }

  lemma FreshMeasure(b: Batch, cancelled: bool)
    ensures Measure(b, Fresh(b, cancelled)) <= Measure(b, B.Init(b))
  {
  }

  lemma PlainCounts(c: Consumer, step: L.Step)
    requires Ok(c) && CanMove(c, Plain(step)) && FlagsSet(c)
    ensures var c2 := Moved(c, Plain(step));
            FlagsSet(c2) && c2.loop.late == c.loop.late
            && L.Rank(c2.loop.loop) + InHand(c2) + (if L.LoopStep(step) then 1 else 0)
               <= L.Rank(c.loop.loop) + InHand(c)
  {
    L.StepCounts(c.loop, step);
    LateStays(c.loop, step);
    hide L.After, L.Enabled, L.Inv, L.Rank, WellFormed, B.Inv;
    if step.CancelCtx? && c.now.Some? {
      CancelLightens(c.now.value.batch, c.now.value.state);
    }
  }

  lemma CancelLightens(b: Batch, s: State)
    requires |s.workers| == |b.parts|
    ensures Measure(b, s.(cancelled := true)) <= Measure(b, s)
  {
  }

  lemma LateStays(s: L.State, step: L.Step)
    requires L.Enabled(s, step) && (step.TestRefusal? ==> L.Refused(s.loop.f))
    ensures L.After(s, step).late == s.late
  {
    if !L.LoopStep(step) {
      hide L.After, L.Enabled;
      L.OtherFrame(s, step);
    } else {
      match step
      case LoopTop =>
      case PollReturns(_) =>
      case TestClosed =>
      case TestPollCtx =>
      case TestRefusal =>
      case SetFatal =>
      case Send =>
      case BatchOver =>
    }
  }

  lemma BeginCounts(c: Consumer, b: Batch)
    requires Ok(c) && CanMove(c, Begin(b)) && FlagsSet(c)
    ensures var c2 := Moved(c, Begin(b));
            FlagsSet(c2) && c2.loop.late == c.loop.late + 1
            && L.Rank(c2.loop.loop) + InHand(c2) + 1 <= L.Rank(c.loop.loop) + InHand(c) + Measure(b, B.Init(b))
  {
    hide L.Inv, B.Inv, Measure;
    FreshMeasure(b, c.loop.shut.ctxCancelled);
  }

  lemma GoroutineCounts(c: Consumer, step: Step)
    requires Ok(c) && CanMove(c, Goroutine(step)) && FlagsSet(c)
    ensures var c2 := Moved(c, Goroutine(step));
            FlagsSet(c2) && c2.loop == c.loop && InHand(c2) + 1 <= InHand(c)
  {
    hide L.Inv, Measure, B.Inv, B.Enabled, B.After, WellFormed;
    StepsRunOut(c.now.value.batch, c.now.value.state, step);
  }

  lemma {:induction false} MovesCount(before: seq<Move>, after: seq<Move>)
    requires C.Run(before).Some? && C.Run(before + after).Some? && FlagsSet(C.Run(before).value)
    ensures var c0, c := C.Run(before).value, C.Run(before + after).value;
            && FlagsSet(c)
            && c.loop.late == c0.loop.late + Begins(after)
            && L.Rank(c.loop.loop) + InHand(c) + LoopMoves(after) <= L.Rank(c0.loop.loop) + InHand(c0) + Brought(after)
    decreases |after|
  {
    hide CanMove, Moved, Ok, InHand, L.Rank, FlagsSet, Measure;
    if after == [] {
      assert before + after == before;
    } else {
      var front, m := after[..|after| - 1], after[|after| - 1];
      assert (before + after)[..|before + after| - 1] == before + front;
      assert (before + after)[|before + after| - 1] == m;
      MovesCount(before, front);
      RunOk(before + front);
      var c := C.Run(before + front).value;
      match m
      case Plain(step) => PlainCounts(c, step);
      case Begin(b) => BeginCounts(c, b);
      case Goroutine(step) => GoroutineCounts(c, step);
    }
  }

  /** Until the loop has returned it, or a goroutine of its batch, can always move. */
  lemma NeverStuck(c: Consumer) returns (m: Move)
    requires Ok(c) && !c.loop.loop.Returned?
    ensures LoopMove(m) && CanMove(c, m)
  {
    hide B.Inv, Measure;
    match c.loop.loop
    case AtTop => m := Plain(L.LoopTop);
    case Polling => m := Plain(L.PollReturns(L.Fetch(false, [])));
    case Fetched(_) => m := Plain(L.TestClosed);
    case PastClosed(_) => m := Plain(L.TestPollCtx);
    case PastPollCtx(f) => m := if L.Refused(f) then Plain(L.TestRefusal) else Begin(Batch([], [], []));
    case Failing(_) => m := Plain(L.SetFatal);
    case Sending => m := Plain(L.Send);
    case Handling =>
      if Over(c.now.value.state) {
        m := Plain(L.BatchOver);
      } else {
        WorkersCounted(c.now.value);
        var step := B.NeverStuck(c.now.value.batch, c.now.value.state);
        m := Goroutine(step);
      }
  }

  /** Once Drain has set both flags, or Stop has, at most one more batch begins; the loop and its goroutines
      take at most eight moves more than their batches have steps; and until the loop has returned one of
      them can move. So the loop comes to its return whatever else is scheduled. */
  lemma FlagsEndTheConsumer(before: seq<Move>, after: seq<Move>)
    requires C.Run(before).Some? && C.Run(before + after).Some?
    requires var loop := C.Run(before).value.loop; loop.shut.drain.Drained? || loop.shut.stop.Selecting?
    ensures Begins(after) <= 1
    ensures LoopMoves(after) <= 8 + InHand(C.Run(before).value) + Brought(after)
    ensures var c := C.Run(before + after).value;
            !c.loop.loop.Returned? ==> exists m :: LoopMove(m) && CanMove(c, m)
  {
    hide C.Run, CanMove, InHand, Measure, WorkOk;
    RunOk(before);
    RunOk(before + after);
    MovesCount(before, after);
    var c := C.Run(before + after).value;
    if !c.loop.loop.Returned? {
      var m := NeverStuck(c);
    }
  }
}
