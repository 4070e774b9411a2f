/** How a shutdown of the RabbitMQ consumer takes hold (rabbit/rabbit.go:220-272, 325-379): which channel is held,
    what Stop does to the stream, and where the loop gets off. */
module RabbitStop {
  import opened Rabbit
  import opened Wrappers

  // ------------------------------------------------------- the channel held

  /** The loop has closed the broker and has no new stream yet. */
  predicate Unconnected(l: Loop) {
    l.Pausing? || l.TimerFired? || l.Dialing? || l.Refused? || l.Sending?
  }

  predicate HeldOk(s: State) {
    && (s.ch.Some? ==> s.ch == Some(s.stream))
    && (Unconnected(s.loop) ==> s.ch.None?)
    && (s.ch.None? ==> Unconnected(s.loop) || s.loop.Returned? || s.stop.Stopped?)
  }

  lemma LoopHolds(discardOnError: bool, s: State, step: Step)
    requires HeldOk(s) && Enabled(s, step) && LoopStep(step)
    ensures HeldOk(After(discardOnError, s, step))
  {
    match step
    case Take =>
    case StreamEnds =>
    case HandlerEnds(_) =>
    case Settle =>
    case ReadClosing =>
    case CloseBroker =>
    case SeeCtx =>
    case Timer =>
    case ReadClosingAgain =>
    case DialWorks =>
    case DialFails(_) =>
    case SetFatal =>
    case Send =>
  }

  lemma ClosingHolds(discardOnError: bool, s: State, step: Step)
    requires HeldOk(s) && Enabled(s, step) && ClosingStep(step)
    ensures HeldOk(After(discardOnError, s, step))
  {
    match step
    case BrokerSends(_) =>
    case BrokerGone =>
    case DrainSet =>
    case DrainRead =>
    case DrainCancel =>
    case StopSet =>
    case StopRead =>
    case StopCancel =>
  }

  lemma StoppingHolds(discardOnError: bool, s: State, step: Step)
    requires HeldOk(s) && Enabled(s, step) && !LoopStep(step) && !ClosingStep(step)
    ensures HeldOk(After(discardOnError, s, step))
  {
    match step
    case SeeDone =>
    case SeeExpiry =>
    case CancelCtx =>
    case StopClosesBroker =>
    case Expire =>
    case Receive =>
  }

  /** At every moment the channel held is that of the last stream, or none is. The loop holds none from the
      moment it has closed the broker until a dial has worked; a loop that has not holds one until Stop is
      over. */
  lemma {:induction false} ChannelHeld(discardOnError: bool, schedule: seq<Step>)
    requires Run(discardOnError, schedule).Some?
    ensures var s := Run(discardOnError, schedule).value;
            && (s.ch.Some? ==> s.ch == Some(s.stream))
            && (Unconnected(s.loop) ==> s.ch.None?)
            && (s.ch.None? ==> Unconnected(s.loop) || s.loop.Returned? || s.stop.Stopped?)
    decreases |schedule|
  {
    if schedule != [] {
      var front, step := schedule[..|schedule| - 1], schedule[|schedule| - 1];
      ChannelHeld(discardOnError, front);
      hide After, Enabled, LoopStep, ClosingStep, Unconnected;
      var s := Run(discardOnError, front).value;
      if LoopStep(step) {
        LoopHolds(discardOnError, s, step);
      } else if ClosingStep(step) {
        ClosingHolds(discardOnError, s, step);
      } else {
        StoppingHolds(discardOnError, s, step);
      }
    }
  }

  // ----------------------------------------------------- Stop and the stream

  /** When Stop has closed the broker nothing is held and no stream is open. */
  lemma StopCloses(discardOnError: bool, schedule: seq<Step>)
    requires Run(discardOnError, schedule + [StopClosesBroker]).Some?
    ensures var s := Run(discardOnError, schedule + [StopClosesBroker]).value;
            s.stop.Stopped? && s.ch.None? && !s.live
  {
    assert (schedule + [StopClosesBroker])[..|schedule|] == schedule;
    RunInv(discardOnError, schedule);
    hide LedgerOk, ArrivedOk, ShutdownOk, DeathOk, LateOk;
  }

  /** Stop has read which channel to cancel with no dial under way: it is that of the stream, if one is open. */
  predicate Aimed(s: State) {
    s.closing && s.stop.HasRead? && !s.loop.Dialing? && (s.live ==> s.stop.ch == Some(s.stream))
  }

  predicate Silenced(s: State) {
    s.closing && !s.live && !s.loop.Dialing?
  }

  lemma AimedStep(discardOnError: bool, s: State, step: Step)
    requires Enabled(s, step) && (Aimed(s) || Silenced(s))
    ensures var s2 := After(discardOnError, s, step);
            && (Silenced(s) || step.StopCancel? ==> Silenced(s2))
            && (Aimed(s) && !step.StopCancel? ==> Aimed(s2))
  {
    if LoopStep(step) {
      NeverDialsAgain(discardOnError, s, step);
      LoopFrame(discardOnError, s, step);
      StreamStays(discardOnError, s, step);
      hide After, Enabled, LoopStep;
    } else {
      OtherFrame(discardOnError, s, step);
      if Aimed(s) {
        StopAims(discardOnError, s, step);
      }
      hide After, Enabled, LoopStep;
    }
  }

  lemma StreamStays(discardOnError: bool, s: State, step: Step)
    requires Enabled(s, step) && LoopStep(step) && !s.loop.Dialing?
    ensures After(discardOnError, s, step).stream == s.stream && !step.DialWorks?
  {
    match step
    case Take =>
    case StreamEnds =>
    case HandlerEnds(_) =>
    case Settle =>
    case ReadClosing =>
    case CloseBroker =>
    case SeeCtx =>
    case Timer =>
    case ReadClosingAgain =>
    case SetFatal =>
    case Send =>
  }

  lemma StopAims(discardOnError: bool, s: State, step: Step)
    requires Enabled(s, step) && !LoopStep(step) && s.stop.HasRead?
    ensures var s2 := After(discardOnError, s, step);
            if step.StopCancel? then s.stop.ch == Some(s.stream) || !s.live ==> !s2.live else s2.stop == s.stop
  {
    match step
    case BrokerSends(_) =>
    case BrokerGone =>
    case DrainSet =>
    case DrainRead =>
    case DrainCancel =>
    case StopCancel =>
    case Expire =>
    case Receive =>
  }

  lemma {:induction false} AimedRun(discardOnError: bool, before: seq<Step>, after: seq<Step>)
    requires Run(discardOnError, before).Some? && Run(discardOnError, before + after).Some?
    requires Aimed(Run(discardOnError, before).value)
    ensures var s := Run(discardOnError, before + after).value;
            if StopCancel in after then Silenced(s) else Aimed(s)
    decreases |after|
  {
    hide After, Enabled, Aimed, Silenced;
    if after == [] {
      assert before + after == before;
    } else {
      var front, step := after[..|after| - 1], after[|after| - 1];
      assert (before + after)[..|before + after| - 1] == before + front;
      assert (before + after)[|before + after| - 1] == step;
      assert after == front + [step];
      AimedRun(discardOnError, before, front);
      AimedStep(discardOnError, Run(discardOnError, before + front).value, step);
    }
  }

  /** A Stop that reads the channel with no dial under way cancels the stream the loop is on, if it is on one:
      once it has, no stream is open and none is opened, whatever else is scheduled, even if no Drain came
      before. */
  lemma StopEndsTheStream(discardOnError: bool, before: seq<Step>, after: seq<Step>)
    requires Run(discardOnError, before + [StopRead]).Some? && Run(discardOnError, before + [StopRead] + after).Some?
    requires !Run(discardOnError, before + [StopRead]).value.loop.Dialing? && StopCancel in after
    ensures !Loose(Run(discardOnError, before + [StopRead] + after).value)
  {
    assert (before + [StopRead])[..|before|] == before;
    RunInv(discardOnError, before);
    hide LedgerOk, ArrivedOk, DeathOk, LateOk;
    AimedRun(discardOnError, before + [StopRead], after);
  }

  // --------------------------------------------------- where the loop gets off

  /** Closing is set and the loop has come to the end of a stream, or is on its way to dial again. */
  predicate GettingOff(s: State) {
    s.closing && (s.loop.StreamOver? || s.loop.Pausing? || s.loop.TimerFired?)
  }

  function OffLeft(l: Loop): nat {
    match l
    case Pausing => 2
    case StreamOver => 1
    case TimerFired => 1
    case _ => 0
  }

  /** It has got off without a death of its own making. */
  predicate Off(s: State, sent: nat) {
    s.sent == sent && (GettingOff(s) || s.loop.Returned?)
  }

  lemma OffStep(discardOnError: bool, s: State, step: Step, sent: nat)
    requires Off(s, sent) && Enabled(s, step)
    ensures var s2 := After(discardOnError, s, step);
            && Off(s2, sent) && s2.stream == s.stream
            && OffLeft(s2.loop) + (if LoopStep(step) then 1 else 0) <= OffLeft(s.loop)
  {
    if LoopStep(step) {
      match step
      case ReadClosing =>
      case SeeCtx =>
      case Timer =>
      case ReadClosingAgain =>
    } else {
      OtherFrame(discardOnError, s, step);
      hide After, Enabled, LoopStep;
    }
  }

  lemma {:induction false} OffRun(discardOnError: bool, before: seq<Step>, after: seq<Step>, sent: nat)
    requires Run(discardOnError, before).Some? && Run(discardOnError, before + after).Some?
    requires Off(Run(discardOnError, before).value, sent)
    ensures var s0, s := Run(discardOnError, before).value, Run(discardOnError, before + after).value;
            && Off(s, sent) && s.stream == s0.stream
            && OffLeft(s.loop) + LoopSteps(after) <= OffLeft(s0.loop)
    decreases |after|
  {
    hide After, Enabled, Off, OffLeft, LoopStep;
    if after == [] {
      assert before + after == before;
    } else {
      var front, step := after[..|after| - 1], after[|after| - 1];
      assert (before + after)[..|before + after| - 1] == before + front;
      assert (before + after)[|before + after| - 1] == step;
      OffRun(discardOnError, before, front, sent);
      OffStep(discardOnError, Run(discardOnError, before + front).value, step, sent);
    }
  }

  /** Once closing is set, a loop at the end of its stream returns with its next step, and one that is pausing
      before a dial with its next two, whatever else is scheduled: it does not dial, opens no stream and sends no
      death. Until it has returned it has a step to take, and if Stop has cancelled ctx the pause can end at
      once. */
  lemma {:induction false} ClosingGetsOff(discardOnError: bool, before: seq<Step>, after: seq<Step>)
    requires Run(discardOnError, before).Some? && Run(discardOnError, before + after).Some?
    requires GettingOff(Run(discardOnError, before).value)
    ensures var s0, s := Run(discardOnError, before).value, Run(discardOnError, before + after).value;
            && LoopSteps(after) <= (if s0.loop.Pausing? then 2 else 1)
            && s.stream == s0.stream && s.sent == s0.sent && !s.loop.Dialing?
            && (!s.loop.Returned? ==> exists step :: LoopStep(step) && Enabled(s, step))
            && (s.loop.Pausing? && s.ctxCancelled ==>
                  Enabled(s, SeeCtx) && After(discardOnError, s, SeeCtx).loop.Returned?)
  {
    hide Run;
    OffRun(discardOnError, before, after, Run(discardOnError, before).value.sent);
    var s := Run(discardOnError, before + after).value;
    var step := if s.loop.StreamOver? then ReadClosing else if s.loop.Pausing? then Timer else ReadClosingAgain;
    assert !s.loop.Returned? ==> LoopStep(step) && Enabled(s, step);
  }

  /** What is left of Stop: reading the channel, cancelling it, the wait, cancelling ctx, closing the broker. */
  function StopLeft(stop: Stop): nat {
    match stop
    case NotStopped => 6
    case FlagUp => 5
    case HasRead(_) => 4
    case Selecting => 3
    case Cancelling(_) => 2
    case Closing(_) => 1
    case Stopped(_) => 0
  }

  lemma OneStopStep(discardOnError: bool, s: State, step: Step)
    requires Enabled(s, step)
    requires step.StopRead? || step.StopCancel? || step.SeeDone? || step.SeeExpiry? || step.CancelCtx?
             || step.StopClosesBroker?
    ensures StopLeft(After(discardOnError, s, step).stop) == StopLeft(s.stop) - 1
  {
    match step
    case StopRead =>
    case StopCancel =>
    case SeeDone =>
    case SeeExpiry =>
    case CancelCtx =>
    case StopClosesBroker =>
  }

  /** A Stop that has begun comes to its end: once the loop has returned or the budget is spent it always has a
      step to take, which brings what is left of it down. */
  lemma {:induction false} StopNeverStuck(discardOnError: bool, s: State) returns (step: Step)
    requires !s.stop.NotStopped? && !s.stop.Stopped? && (s.stop.Selecting? ==> s.loop.Returned? || s.expired)
    ensures Enabled(s, step) && !LoopStep(step)
    ensures StopLeft(After(discardOnError, s, step).stop) < StopLeft(s.stop)
  {
    step :=
      match s.stop
      case FlagUp => StopRead
      case HasRead(_) => StopCancel
      case Selecting => if s.loop.Returned? then SeeDone else SeeExpiry
      case Cancelling(_) => CancelCtx
      case _ => StopClosesBroker;
    hide After;
    OneStopStep(discardOnError, s, step);
  }

  /** However the wait ended, Stop cancels ctx, closes the broker and returns what the wait ended with. */
  lemma {:induction false} WindsUp(discardOnError: bool, schedule: seq<Step>)
    requires Run(discardOnError, schedule).Some? && Run(discardOnError, schedule).value.stop.Cancelling?
    ensures var r := Run(discardOnError, schedule + [CancelCtx] + [StopClosesBroker]);
            r.Some? && r.value.stop == Stopped(Run(discardOnError, schedule).value.stop.ok) && r.value.ctxCancelled
  {
    hide Run;
    Then(discardOnError, schedule, CancelCtx);
    Then(discardOnError, schedule + [CancelCtx], StopClosesBroker);
  }

  /** If its budget runs out while it waits, that is not nil. */
  lemma GivesUp(discardOnError: bool, schedule: seq<Step>)
    requires Run(discardOnError, schedule).Some?
    requires Run(discardOnError, schedule).value.stop.Selecting? && !Run(discardOnError, schedule).value.expired
    ensures var r := Run(discardOnError, schedule + [Expire] + [SeeExpiry] + [CancelCtx] + [StopClosesBroker]);
            r.Some? && r.value.stop == Stopped(false) && r.value.ctxCancelled
  {
    hide Run;
    Then(discardOnError, schedule, Expire);
    Then(discardOnError, schedule + [Expire], SeeExpiry);
    hide Enabled;
    WindsUp(discardOnError, schedule + [Expire] + [SeeExpiry]);
  }

  // ----------------------------------------------------------- what may come

  /** On an open stream the broker may send at any moment, and a delivery that finds the loop waiting is taken,
      handled and settled in these steps, whatever the Handler makes of it. */
  lemma DeliveryIsSettled(discardOnError: bool, schedule: seq<Step>, tag: int, result: CallResult)
    requires Run(discardOnError, schedule).Some?
    requires var s := Run(discardOnError, schedule).value; s.loop.Ranging? && s.live && s.buffer == []
    ensures var s := Run(discardOnError, schedule).value;
            var r := Run(discardOnError, schedule + [BrokerSends(tag)] + [Take] + [HandlerEnds(result)] + [Settle]);
            && r.Some? && r.value.loop.Ranging?
            && r.value.ledger.settled == s.ledger.settled
               + [if result == ReturnedNil then Ack(tag) else Nack(tag, !discardOnError)]
  {
    hide Run;
    Then(discardOnError, schedule, BrokerSends(tag));
    var one := schedule + [BrokerSends(tag)];
    Then(discardOnError, one, Take);
    var two := one + [Take];
    Then(discardOnError, two, HandlerEnds(result));
    Then(discardOnError, two + [HandlerEnds(result)], Settle);
  }

  /** A dial may work or fail in any way, and when it works the loop is on a new stream that is open. */
  lemma DialMayComeTo(discardOnError: bool, schedule: seq<Step>, e: DialError)
    requires Run(discardOnError, schedule).Some? && Run(discardOnError, schedule).value.loop.Dialing?
    ensures Run(discardOnError, schedule + [DialFails(e)]).Some?
    ensures var s := Run(discardOnError, schedule).value;
            var r := Run(discardOnError, schedule + [DialWorks]);
            r.Some? && r.value.loop.Ranging? && r.value.live && r.value.stream == s.stream + 1
            && r.value.ch == Some(s.stream + 1)
  {
    hide Run;
    Then(discardOnError, schedule, DialFails(e));
    Then(discardOnError, schedule, DialWorks);
  }
}
