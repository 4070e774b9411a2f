/** The fetch loop of the Kafka consumer against Drain and Stop (kafka/kafka.go:255-307, 396-450).

    The loop, a Drain and a Stop are three threads of one machine; the cluster, the stop budget and
    the App reading the death channel are steps of their own. A schedule is any sequence of enabled
    steps. A batch is one step here; KafkaBatch says what happens inside it. The Component has been
    started: a Stop before that returns at once and touches nothing. */
module KafkaLoop {
  import opened Wrappers

  // ----------------------------------------------------------------- refusal

  /** One error of a fetch, as `refusal` tells them apart. */
  datatype FetchError = CtxCanceled | Retriable(code: int) | Transport | Broker(code: int)

  predicate NoneBefore(errs: seq<FetchError>, i: nat) {
    forall j :: 0 <= j < i && j < |errs| ==> !errs[j].Broker?
  }

  /** The first error of a fetch that the broker will not take back; everything else is retried. */
  function FirstRefusal(errs: seq<FetchError>): (r: Option<int>)
    ensures r.None? <==> forall i :: 0 <= i < |errs| ==> !errs[i].Broker?
    ensures r.Some? ==>
              exists i :: 0 <= i < |errs| && errs[i] == Broker(r.value) && NoneBefore(errs, i)
  {
    if errs == [] then None
    else
      var before := FirstRefusal(errs[..|errs| - 1]);
      if before.Some? then before
      else
        match errs[|errs| - 1]
        case Broker(code) => Some(code)
        case _ => None
  }

  method Refusal(errs: seq<FetchError>) returns (r: Option<int>)
    ensures r == FirstRefusal(errs)
  {
    for i := 0 to |errs|
      invariant forall j :: 0 <= j < i ==> !errs[j].Broker?
    {
      match errs[i]
      case CtxCanceled => continue;
      case Retriable(_) => continue;
      case Transport => continue;
      case Broker(code) => return Some(code);
    }
    return None;
  }

  // ------------------------------------------------------------- the machine

  /** What a poll came back with. */
  datatype Fetch = Fetch(clientClosed: bool, errs: seq<FetchError>)

  /** The broker refused it. */
  predicate Refused(f: Fetch) {
    FirstRefusal(f.errs).Some?
  }

  datatype Loop =
    | AtTop | Polling | Fetched(f: Fetch) | PastClosed(f: Fetch) | PastPollCtx(f: Fetch)
    | Failing(f: Fetch) | Sending | Handling | Returned

  datatype Drain = NotDrained | FlagSet | Drained

  datatype Stop = NotStopped | StopFlagSet | Selecting | Cancelling(ok: bool) | Closing(ok: bool) | Stopped(ok: bool)

  /** The Component's fields, the two channels, and a count of what has happened: batches begun and
      handed to commit, batches begun after pollCtx was cancelled (`late`), whether the loop was past
      its pollCtx check when that happened (`past`), and whether the handlers' ctx was cancelled while
      a batch was running (`interrupted`). */
  datatype State = State(loop: Loop, shut: Shutdown, polled: seq<Fetch>, fatal: Option<int>, queued: nat, sent: nat,
                         begun: nat, handed: nat, late: nat)

  datatype Shutdown = Shutdown(
    drain: Drain, stop: Stop,
    closing: bool, pollCancelled: bool, ctxCancelled: bool, clientClosed: bool, expired: bool,
    past: bool, interrupted: bool)

  datatype Step =
    | LoopTop | PollReturns(f: Fetch) | TestClosed | TestPollCtx | TestRefusal | SetFatal | Send | BatchOver
    | DrainSet | DrainCancel
    | StopSet | StopPollCancel | SeeDone | SeeExpiry | CancelCtx | CloseClient
    | Expire | Receive

  const INIT := State(AtTop, Shutdown(NotDrained, NotStopped, false, false, false, false, false, false, false), [],
    None, 0, 0, 0, 0, 0)

  /** The death channel holds one error. */
  const CAPACITY := 1

  predicate Enabled(s: State, step: Step) {
    match step
    case LoopTop => s.loop.AtTop?
    case PollReturns(f) => s.loop.Polling? && (f.clientClosed ==> s.shut.clientClosed)
    case TestClosed => s.loop.Fetched?
    case TestPollCtx => s.loop.PastClosed?
    case TestRefusal => s.loop.PastPollCtx?
    case SetFatal => s.loop.Failing?
    case Send => s.loop.Sending? && s.queued < CAPACITY
    case BatchOver => s.loop.Handling?
    case DrainSet => s.shut.drain.NotDrained?
    case DrainCancel => s.shut.drain.FlagSet?
    case StopSet => s.shut.stop.NotStopped?
    case StopPollCancel => s.shut.stop.StopFlagSet?
    case SeeDone => s.shut.stop.Selecting? && s.loop.Returned?
    case SeeExpiry => s.shut.stop.Selecting? && s.shut.expired
    case CancelCtx => s.shut.stop.Cancelling?
    case CloseClient => s.shut.stop.Closing?
    case Expire => !s.shut.expired
    case Receive => s.queued > 0
  }

  /** pollCancel: the first call is the one that counts. */
  function PollCancelled(s: State): Shutdown {
    if s.shut.pollCancelled then s.shut else s.shut.(pollCancelled := true, past := s.loop.PastPollCtx?)
  }

  function After(s: State, step: Step): State
    requires Enabled(s, step)
  {
    match step
    case LoopTop => s.(loop := if s.shut.closing then Returned else Polling)
    case PollReturns(f) => s.(loop := Fetched(f), polled := s.polled + [f])
    case TestClosed => s.(loop := if s.loop.f.clientClosed then Returned else PastClosed(s.loop.f))
    case TestPollCtx => s.(loop := if s.shut.pollCancelled then Returned else PastPollCtx(s.loop.f))
    case TestRefusal =>
      if Refused(s.loop.f) then s.(loop := Failing(s.loop.f))
      else s.(loop := Handling, begun := s.begun + 1, late := s.late + if s.shut.pollCancelled then 1 else 0)
    case SetFatal => s.(loop := Sending, fatal := FirstRefusal(s.loop.f.errs))
    case Send => s.(loop := Returned, queued := s.queued + 1, sent := s.sent + 1)
    case BatchOver => s.(loop := AtTop, handed := s.handed + 1)
    case DrainSet => s.(shut := s.shut.(drain := FlagSet, closing := true))
    case DrainCancel => s.(shut := PollCancelled(s).(drain := Drained))
    case StopSet => s.(shut := s.shut.(stop := StopFlagSet, closing := true))
    case StopPollCancel => s.(shut := PollCancelled(s).(stop := Selecting))
    case SeeDone => s.(shut := s.shut.(stop := Cancelling(true)))
    case SeeExpiry => s.(shut := s.shut.(stop := Cancelling(false)))
    case CancelCtx =>
      s.(shut := s.shut.(stop := Closing(s.shut.stop.ok), ctxCancelled := true,
                         interrupted := s.shut.interrupted || s.loop.Handling?))
    case CloseClient => s.(shut := s.shut.(stop := Stopped(s.shut.stop.ok), clientClosed := true))
    case Expire => s.(shut := s.shut.(expired := true))
    case Receive => s.(queued := s.queued - 1)
  }

  ghost function Run(schedule: seq<Step>): Option<State> {
    if schedule == [] then Some(INIT)
    else
      var before := Run(schedule[..|schedule| - 1]);
      var step := schedule[|schedule| - 1];
      if before.Some? && Enabled(before.value, step) then Some(After(before.value, step)) else None
  }

  // --------------------------------------------------------------- invariant

  /** The two flags are set in order, and Stop cancels only once the loop is gone or the budget is. */
  predicate FlagsOk(s: State) {
    && (s.shut.pollCancelled ==> s.shut.closing)
    && (s.shut.drain.FlagSet? || s.shut.drain.Drained? ==> s.shut.closing)
    && (s.shut.drain.Drained? ==> s.shut.pollCancelled)
    && (!s.shut.stop.NotStopped? ==> s.shut.closing)
    && (!s.shut.stop.NotStopped? && !s.shut.stop.StopFlagSet? ==> s.shut.pollCancelled)
    && (s.shut.stop.Cancelling? || s.shut.stop.Closing? || s.shut.stop.Stopped? ==>
          if s.shut.stop.ok then s.loop.Returned? else s.shut.expired)
    && (s.shut.ctxCancelled <==> s.shut.stop.Closing? || s.shut.stop.Stopped?)
    && (s.shut.clientClosed <==> s.shut.stop.Stopped?)
    && (s.shut.interrupted ==> s.shut.ctxCancelled && !s.shut.stop.ok)
  }

  /** Batches run one at a time, and each is handed to commit before the next turn. A batch begun after
      pollCtx was cancelled had passed the check before, and is the last. */
  predicate BatchesOk(s: State) {
    && s.begun == s.handed + (if s.loop.Handling? then 1 else 0)
    && (s.late > 0 ==>
         s.late == 1 && s.shut.past && s.shut.pollCancelled
           && (s.loop.Handling? || s.loop.AtTop? || s.loop.Returned?))
    && (s.late > 0 ==> s.shut.closing)
    && (s.shut.pollCancelled && s.loop.PastPollCtx? ==> s.shut.past)
  }

  /** The one death. */
  predicate DeathOk(s: State) {
    && s.queued <= s.sent <= 1
    && (s.sent == 1 ==> s.loop.Returned? && s.fatal.Some?)
    && (s.loop.Sending? ==> s.fatal.Some?)
    && (s.fatal.Some? ==> s.loop.Sending? || s.sent == 1)
    && (s.loop.Failing? ==> Refused(s.loop.f))
  }

  /** The fetch in hand is the last one polled, and what was fatal is its refusal. */
  predicate PolledOk(s: State) {
    && (InHand(s.loop) ==> s.polled != [] && s.polled[|s.polled| - 1] == s.loop.f)
    && (s.fatal.Some? ==> s.polled != [] && s.fatal == FirstRefusal(s.polled[|s.polled| - 1].errs))
    && (s.fatal.Some? ==> s.loop.Sending? || s.loop.Returned?)
  }

  predicate InHand(l: Loop) {
    l.Fetched? || l.PastClosed? || l.PastPollCtx? || l.Failing?
  }

  predicate Inv(s: State) {
    FlagsOk(s) && BatchesOk(s) && DeathOk(s) && PolledOk(s)
  }

  /** A step of the loop's own goroutine. */
  predicate LoopStep(step: Step) {
    match step
    case DrainSet => false
    case DrainCancel => false
    case StopSet => false
    case StopPollCancel => false
    case SeeDone => false
    case SeeExpiry => false
    case CancelCtx => false
    case CloseClient => false
    case Expire => false
    case Receive => false
    case _ => true
  }

  /** What the loop's own steps leave alone, */
  lemma LoopFrame(s: State, step: Step)
    requires Enabled(s, step) && LoopStep(step)
    ensures !s.loop.Returned? && After(s, step).shut == s.shut
  {
    match step
    case LoopTop =>
    case PollReturns(_) =>
    case TestClosed =>
    case TestPollCtx =>
    case TestRefusal =>
    case SetFatal =>
    case Send =>
    case BatchOver =>
  }

  /** and what all the others do. */
  lemma OtherFrame(s: State, step: Step)
    requires Enabled(s, step) && !LoopStep(step)
    ensures var s2 := After(s, step);
            && s2.loop == s.loop && s2.polled == s.polled && s2.fatal == s.fatal && s2.sent == s.sent
                 && s2.queued <= s.queued
            && s2.begun == s.begun && s2.handed == s.handed && s2.late == s.late
            && (s.shut.closing ==> s2.shut.closing) && (s.shut.pollCancelled ==> s2.shut.pollCancelled)
            && s2.shut.past ==
               if s2.shut.pollCancelled && !s.shut.pollCancelled then s.loop.PastPollCtx? else s.shut.past
  {
    match step
    case DrainSet =>
    case DrainCancel =>
    case StopSet =>
    case StopPollCancel =>
    case SeeDone =>
    case SeeExpiry =>
    case CancelCtx =>
    case CloseClient =>
    case Expire =>
    case Receive =>
  }

  lemma StepFlags(s: State, step: Step)
    requires FlagsOk(s) && Enabled(s, step)
    ensures FlagsOk(After(s, step))
  {
    if LoopStep(step) {
      hide After, Enabled;
      LoopFrame(s, step);
    } else {
      FlagsMove(s, step);
    }
  }

  lemma FlagsMove(s: State, step: Step)
    requires FlagsOk(s) && Enabled(s, step) && !LoopStep(step)
    ensures FlagsOk(After(s, step))
  {
    match step
    case DrainSet =>
    case DrainCancel =>
    case StopSet =>
    case StopPollCancel =>
    case SeeDone =>
    case SeeExpiry =>
    case CancelCtx =>
    case CloseClient =>
    case Expire =>
    case Receive =>
  }

  lemma StepBatches(s: State, step: Step)
    requires FlagsOk(s) && BatchesOk(s) && Enabled(s, step)
    ensures BatchesOk(After(s, step))
  {
    if LoopStep(step) {
      BatchesMove(s, step);
    } else {
      hide After, Enabled;
      OtherFrame(s, step);
    }
  }

  lemma BatchesMove(s: State, step: Step)
    requires FlagsOk(s) && BatchesOk(s) && Enabled(s, step) && LoopStep(step)
    ensures BatchesOk(After(s, step))
  {
    match step
    case LoopTop =>
    case PollReturns(_) =>
    case TestClosed =>
    case TestPollCtx =>
    case TestRefusal =>
    case SetFatal =>
    case Send =>
    case BatchOver =>
  }

  lemma StepDeath(s: State, step: Step)
    requires DeathOk(s) && Enabled(s, step)
    ensures DeathOk(After(s, step))
  {
    if LoopStep(step) {
      DeathMoves(s, step);
    } else {
      hide After, Enabled;
      OtherFrame(s, step);
    }
  }

  lemma DeathMoves(s: State, step: Step)
    requires DeathOk(s) && Enabled(s, step) && LoopStep(step)
    ensures DeathOk(After(s, step))
  {
    match step
    case LoopTop =>
    case PollReturns(_) =>
    case TestClosed =>
    case TestPollCtx =>
    case TestRefusal =>
    case SetFatal =>
    case Send =>
    case BatchOver =>
  }

  lemma StepPolled(s: State, step: Step)
    requires PolledOk(s) && DeathOk(s) && Enabled(s, step)
    ensures PolledOk(After(s, step))
  {
    hide FirstRefusal;
    if LoopStep(step) {
      match step
      case LoopTop =>
      case PollReturns(_) =>
      case TestClosed =>
      case TestPollCtx =>
      case TestRefusal =>
      case SetFatal =>
      case Send =>
      case BatchOver =>
    } else {
      OtherFrame(s, step);
      hide After, Enabled;
    }
  }

  lemma StepInv(s: State, step: Step)
    requires Inv(s) && Enabled(s, step)
    ensures Inv(After(s, step))
  {
    hide After, Enabled, FlagsOk, BatchesOk, DeathOk, PolledOk;
    StepFlags(s, step);
    StepBatches(s, step);
    StepDeath(s, step);
    StepPolled(s, step);
  }

  lemma {:induction false} RunInv(schedule: seq<Step>)
    requires Run(schedule).Some?
    ensures Inv(Run(schedule).value)
    decreases |schedule|
  {
    if schedule != [] {
      RunInv(schedule[..|schedule| - 1]);
      StepInv(Run(schedule[..|schedule| - 1]).value, schedule[|schedule| - 1]);
    }
  }

  /** Under every interleaving the handlers' ctx is cancelled only after the loop has returned or the
      stop budget is spent, and Stop reports the interruption of a running batch. */
  lemma {:induction false} CancelsLate(schedule: seq<Step>)
    requires Run(schedule).Some?
    ensures var s := Run(schedule).value;
            && (s.shut.ctxCancelled ==> s.loop.Returned? || s.shut.expired)
            && (s.shut.interrupted ==> s.shut.expired && s.shut.stop != Stopped(true))
  {
    RunInv(schedule);
  }

  /** Stop returns nil only once the loop has returned with every batch it began handed to commit. */
  lemma {:induction false} CleanStopMeansCommitted(schedule: seq<Step>)
    requires Run(schedule).Some? && Run(schedule).value.shut.stop == Stopped(true)
    ensures var s := Run(schedule).value; s.loop.Returned? && s.begun == s.handed && !s.shut.interrupted
  {
    RunInv(schedule);
  }

  /** After pollCtx is cancelled at most one more batch reaches the handlers, and only if the loop was
      already past its pollCtx check at that moment. */
  lemma {:induction false} AtMostOneLateBatch(schedule: seq<Step>)
    requires Run(schedule).Some?
    ensures var s := Run(schedule).value; s.late <= if s.shut.past then 1 else 0
    ensures Run(schedule).value.shut.drain.Drained? ==>
        Run(schedule).value.shut.closing && Run(schedule).value.shut.pollCancelled
  {
    RunInv(schedule);
  }

  /** The death channel is sent on at most once, so the send never waits for a reader; by then Check reports
      the error; and that is the refusal of the broker in the last fetch, so nothing else is a death. */
  lemma {:induction false} DeathNeverBlocks(schedule: seq<Step>)
    requires Run(schedule).Some?
    ensures var s := Run(schedule).value;
            && s.sent <= 1
            && (s.sent == 1 ==> s.fatal.Some? && s.loop.Returned?)
            && (s.loop.Sending? ==> s.fatal.Some? && Enabled(s, Send))
            && (s.fatal.Some? ==> s.polled != [] && s.fatal == FirstRefusal(s.polled[|s.polled| - 1].errs))
  {
    RunInv(schedule);
  }

  // ------------------------------------------------------ the loop lets go

  function Rank(l: Loop): nat {
    match l
    case Returned => 0
    case AtTop => 1
    case Handling => 2
    case Sending => 3
    case Failing(_) => 4
    case PastPollCtx(_) => 5
    case PastClosed(_) => 6
    case Fetched(_) => 7
    case Polling => 8
  }

  function LoopSteps(schedule: seq<Step>): nat {
    if schedule == [] then 0
    else LoopSteps(schedule[..|schedule| - 1]) + if LoopStep(schedule[|schedule| - 1]) then 1 else 0
  }

  lemma StepCounts(s: State, step: Step)
    requires Enabled(s, step) && s.shut.closing && s.shut.pollCancelled
    ensures var s2 := After(s, step);
            s2.shut.closing && s2.shut.pollCancelled
              && Rank(s2.loop) + (if LoopStep(step) then 1 else 0) <= Rank(s.loop)
  {
    if LoopStep(step) {
      LoopFrame(s, step);
      LoopCounts(s, step);
    } else {
      hide After, Enabled, LoopStep, Rank;
      OtherFrame(s, step);
    }
  }

  lemma LoopCounts(s: State, step: Step)
    requires Enabled(s, step) && s.shut.closing && s.shut.pollCancelled && LoopStep(step)
    ensures Rank(After(s, step).loop) + 1 <= Rank(s.loop)
  {
    match step
    case LoopTop =>
    case PollReturns(_) =>
    case TestClosed =>
    case TestPollCtx =>
    case TestRefusal =>
    case SetFatal =>
    case Send =>
    case BatchOver =>
  }

  lemma {:induction false} LoopOnlyCounts(before: seq<Step>, after: seq<Step>)
    requires Run(before).Some? && Run(before + after).Some?
    requires Run(before).value.shut.closing && Run(before).value.shut.pollCancelled
    ensures var s := Run(before + after).value;
            s.shut.closing && s.shut.pollCancelled
            && Rank(s.loop) + LoopSteps(after) <= Rank(Run(before).value.loop)
    decreases |after|
  {
    hide After, Enabled, Rank, LoopStep;
    if after == [] {
      assert before + after == before;
    } else {
      var front := after[..|after| - 1];
      assert (before + after)[..|before + after| - 1] == before + front;
      assert (before + after)[|before + after| - 1] == after[|after| - 1];
      LoopOnlyCounts(before, front);
      StepCounts(Run(before + front).value, after[|after| - 1]);
    }
  }

  /** Once both flags are set the loop takes at most eight more steps, whatever else is scheduled, and
      until it has returned it always has one to take. */
  lemma DrainEndsTheLoop(before: seq<Step>, after: seq<Step>)
    requires Run(before).Some? && Run(before + after).Some?
    requires Run(before).value.shut.drain.Drained? || Run(before).value.shut.stop.Selecting?
    ensures LoopSteps(after) <= 8
    ensures var s := Run(before + after).value; !s.loop.Returned? ==> exists step :: LoopStep(step) && Enabled(s, step)
  {
    RunInv(before);
    RunInv(before + after);
    LoopOnlyCounts(before, after);
    var s := Run(before + after).value;
    var step :=
      match s.loop
      case AtTop => LoopTop
      case Polling => PollReturns(Fetch(false, []))
      case Fetched(_) => TestClosed
      case PastClosed(_) => TestPollCtx
      case PastPollCtx(_) => TestRefusal
      case Failing(_) => SetFatal
      case Sending => Send
      case Handling => BatchOver
      case Returned => LoopTop;
    assert !s.loop.Returned? ==> LoopStep(step) && Enabled(s, step);
  }

  // ------------------------------------------------- a refused fetch is a death

  /** The loop has a fetch the broker refused and is on its way to end with it. */
  predicate Doomed(s: State, f: Fetch) {
    match s.loop
    case PastPollCtx(g) => g == f
    case Failing(g) => g == f
    case Sending => s.fatal == FirstRefusal(f.errs)
    case Returned => s.fatal == FirstRefusal(f.errs) && s.sent == 1
    case _ => false
  }

  function DoomLeft(l: Loop): nat {
    match l
    case PastPollCtx(_) => 3
    case Failing(_) => 2
    case Sending => 1
    case _ => 0
  }

  lemma DoomedStep(s: State, step: Step, f: Fetch)
    requires Doomed(s, f) && DeathOk(s) && Enabled(s, step) && exists i :: 0 <= i < |f.errs| && f.errs[i].Broker?
    ensures var s2 := After(s, step);
            && Doomed(s2, f) && s2.begun == s.begun
            && DoomLeft(s2.loop) + (if LoopStep(step) then 1 else 0) <= DoomLeft(s.loop)
  {
    if LoopStep(step) {
      hide FirstRefusal;
      match step
      case TestRefusal =>
      case SetFatal =>
      case Send =>
    } else {
      OtherFrame(s, step);
      hide After, Enabled, FirstRefusal;
    }
  }

  lemma {:induction false} DoomedRun(before: seq<Step>, after: seq<Step>, f: Fetch)
    requires Run(before).Some? && Run(before + after).Some? && Doomed(Run(before).value, f)
    requires exists i :: 0 <= i < |f.errs| && f.errs[i].Broker?
    ensures var s0, s := Run(before).value, Run(before + after).value;
            && Doomed(s, f) && s.begun == s0.begun
            && DoomLeft(s.loop) + LoopSteps(after) <= DoomLeft(s0.loop)
    decreases |after|
  {
    hide After, Enabled, Doomed, DoomLeft, FirstRefusal, LoopStep;
    if after == [] {
      assert before + after == before;
    } else {
      var front := after[..|after| - 1];
      assert (before + after)[..|before + after| - 1] == before + front;
      assert (before + after)[|before + after| - 1] == after[|after| - 1];
      DoomedRun(before, front, f);
      RunInv(before + front);
      DoomedStep(Run(before + front).value, after[|after| - 1], f);
    }
  }

  /** A fetch with an error the broker will not take back ends the loop with a death, whatever else is
      scheduled: no batch is begun any more, in at most three steps of the loop it has returned with that
      error on the death channel and in Check, and until then one of them is enabled. */
  lemma RefusedFetchDies(before: seq<Step>, after: seq<Step>)
    requires Run(before).Some? && Run(before + after).Some? && Run(before).value.loop.PastPollCtx?
    requires exists i :: 0 <= i < |Run(before).value.loop.f.errs| && Run(before).value.loop.f.errs[i].Broker?
    ensures var s0, s := Run(before).value, Run(before + after).value;
            && s.begun == s0.begun && LoopSteps(after) <= 3
            && (s.loop.Returned? ==> s.sent == 1 && s.fatal.Some? && s.fatal == FirstRefusal(s0.loop.f.errs))
            && (!s.loop.Returned? ==> exists step :: LoopStep(step) && Enabled(s, step))
  {
    hide Run, After, FirstRefusal;
    var f := Run(before).value.loop.f;
    DoomedRun(before, after, f);
    RunInv(before + after);
    var s := Run(before + after).value;
    var step := if s.loop.PastPollCtx? then TestRefusal else if s.loop.Failing? then SetFatal else Send;
    assert !s.loop.Returned? ==> LoopStep(step) && Enabled(s, step);
  }

  // --------------------------------------------------- where the loop gets off

  /** The loop is about to read something that tells it to return: closing at the top, a client that was closed
      in the fetch, or a cancelled pollCtx after it. */
  predicate GettingOff(s: State) {
    || (s.loop.AtTop? && s.shut.closing)
    || (s.loop.Fetched? && s.loop.f.clientClosed)
    || (s.loop.PastClosed? && s.shut.pollCancelled)
  }

  lemma GettingOffStep(s: State, step: Step)
    requires GettingOff(s) && Enabled(s, step)
    ensures var s2 := After(s, step);
            if LoopStep(step) then s2.loop.Returned? && s2.begun == s.begun && s2.sent == s.sent
            else GettingOff(s2) && s2.loop == s.loop && s2.begun == s.begun && s2.sent == s.sent
  {
    if LoopStep(step) {
      match step
      case LoopTop =>
      case TestClosed =>
      case TestPollCtx =>
    } else {
      OtherFrame(s, step);
      hide After, Enabled;
    }
  }

  lemma ReturnedStep(s: State, step: Step)
    requires s.loop.Returned? && Enabled(s, step)
    ensures !LoopStep(step) && !GettingOff(s)
  {
  }

  /** Wherever it is about to read one of these it takes one more step, whatever else is scheduled, and with it
      it has returned: no batch is begun and no death is sent. */
  lemma {:induction false} GetsOff(before: seq<Step>, after: seq<Step>)
    requires Run(before).Some? && Run(before + after).Some? && GettingOff(Run(before).value)
    ensures var s0, s := Run(before).value, Run(before + after).value;
            && s.begun == s0.begun && s.sent == s0.sent
            && LoopSteps(after) <= 1
            && (if LoopSteps(after) == 0 then s.loop == s0.loop && GettingOff(s) else s.loop.Returned?)
    decreases |after|
  {
    hide After, Enabled, GettingOff, LoopStep;
    if after == [] {
      assert before + after == before;
    } else {
      var front, step := after[..|after| - 1], after[|after| - 1];
      assert (before + after)[..|before + after| - 1] == before + front;
      assert (before + after)[|before + after| - 1] == step;
      GetsOff(before, front);
      var s := Run(before + front).value;
      if s.loop.Returned? {
        ReturnedStep(s, step);
        OtherFrame(s, step);
      } else {
        GettingOffStep(s, step);
      }
    }
  }

  /** What is left of Stop: cancelling pollCtx, the wait, cancelling ctx, closing the client. */
  function StopLeft(stop: Stop): nat {
    match stop
    case NotStopped => 5
    case StopFlagSet => 4
    case Selecting => 3
    case Cancelling(_) => 2
    case Closing(_) => 1
    case Stopped(_) => 0
  }

  lemma OneStopStep(s: State, step: Step)
    requires Enabled(s, step)
    requires step.StopPollCancel? || step.SeeDone? || step.SeeExpiry? || step.CancelCtx? || step.CloseClient?
    ensures StopLeft(After(s, step).shut.stop) == StopLeft(s.shut.stop) - 1
  {
    match step
    case StopPollCancel =>
    case SeeDone =>
    case SeeExpiry =>
    case CancelCtx =>
    case CloseClient =>
  }

  /** A Stop that has begun comes to its end: once the loop has returned or the budget is spent it always has a
      step to take, which brings what is left of it down. */
  lemma {:induction false} StopNeverStuck(s: State) returns (step: Step)
    requires var stop := s.shut.stop;
             !stop.NotStopped? && !stop.Stopped? && (stop.Selecting? ==> s.loop.Returned? || s.shut.expired)
    ensures Enabled(s, step) && !LoopStep(step)
    ensures StopLeft(After(s, step).shut.stop) < StopLeft(s.shut.stop)
  {
    step :=
      match s.shut.stop
      case StopFlagSet => StopPollCancel
      case Selecting => if s.loop.Returned? then SeeDone else SeeExpiry
      case Cancelling(_) => CancelCtx
      case _ => CloseClient;
    hide After;
    OneStopStep(s, step);
  }

  lemma Then(schedule: seq<Step>, step: Step)
    requires Run(schedule).Some? && Enabled(Run(schedule).value, step)
    ensures Run(schedule + [step]) == Some(After(Run(schedule).value, step))
  {
    assert (schedule + [step])[..|schedule|] == schedule;
  }

  /** A Stop whose budget runs out while it waits gives up: it cancels ctx and closes the client all the same,
      and does not return nil. */
  lemma {:induction false} GivesUp(schedule: seq<Step>)
    requires Run(schedule).Some?
    requires Run(schedule).value.shut.stop.Selecting? && !Run(schedule).value.shut.expired
    ensures var r := Run(schedule + [Expire] + [SeeExpiry] + [CancelCtx] + [CloseClient]);
            r.Some? && r.value.shut.stop == Stopped(false) && r.value.shut.ctxCancelled && r.value.shut.clientClosed
  {
    hide Run;
    Then(schedule, Expire);
    var one := schedule + [Expire];
    Then(one, SeeExpiry);
    var two := one + [SeeExpiry];
    Then(two, CancelCtx);
    Then(two + [CancelCtx], CloseClient);
  }

  /** Before any shutdown a poll may come back with any errors, and what it brings is tested: the loop is then
      about to look for a refusal. */
  lemma {:induction false} PollMayBring(schedule: seq<Step>, errs: seq<FetchError>)
    requires Run(schedule).Some? && Run(schedule).value.loop.AtTop?
    requires !Run(schedule).value.shut.closing && !Run(schedule).value.shut.pollCancelled
    ensures var r := Run(schedule + [LoopTop] + [PollReturns(Fetch(false, errs))] + [TestClosed] + [TestPollCtx]);
            r.Some? && r.value.loop == PastPollCtx(Fetch(false, errs))
  {
    hide Run, FirstRefusal;
    Then(schedule, LoopTop);
    var one := schedule + [LoopTop];
    Then(one, PollReturns(Fetch(false, errs)));
    var two := one + [PollReturns(Fetch(false, errs))];
    Then(two, TestClosed);
    Then(two + [TestClosed], TestPollCtx);
  }
}
