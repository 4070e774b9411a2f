/** The RabbitMQ consumer of rabbit/rabbit.go:218-379: the consume and redial loops, the settling of each
    delivery, Drain and Stop.

    The loop, a Drain and a Stop are threads of one machine; what the broker sends, the end of a
    connection, what a Handler or a dial comes to, the redial timer and the stop budget are steps of their
    own. A schedule is any sequence of enabled steps. The Component has been started. */
module Rabbit {
  import opened Wrappers

  // ------------------------------------------------------- one delivery after another

  /** One attempt to settle a delivery: Ack, or Nack with or without requeue. */
  datatype Settlement = Ack(tag: int) | Nack(tag: int, requeue: bool)

  /** Each delivery has had one attempt, in the order they were taken: an Ack exactly when its Handler
      returned nil without panicking, and otherwise a Nack that requeues unless errors are discarded. */
  predicate SettledAs(discardOnError: bool, taken: seq<int>, results: seq<CallResult>, settled: seq<Settlement>) {
    && |settled| <= |results| && |settled| <= |taken|
    && forall i :: 0 <= i < |settled| ==>
         && settled[i].tag == taken[i]
         && (settled[i].Ack? <==> results[i] == ReturnedNil)
         && (settled[i].Nack? ==> settled[i].requeue == !discardOnError)
  }

  /** The goroutine's part of the Component: what it has taken off streams, what the Handler made of it, and
      the attempts to settle it. */
  class Consumer {
    const discardOnError: bool
    var taken: seq<int>
    var results: seq<CallResult>
    var settled: seq<Settlement>

    ghost predicate Valid()
      reads this
    {
      |taken| == |results| == |settled| && SettledAs(discardOnError, taken, results, settled)
    }

    constructor (discardOnError: bool)
      ensures Valid() && this.discardOnError == discardOnError && taken == []
    {
      this.discardOnError := discardOnError;
      taken, results, settled := [], [], [];
    }

    /** handle: one delivery, whether or not the broker takes the settlement. */
    method Handle(tag: int, r: CallResult)
      requires Valid()
      modifies this
      ensures Valid() && taken == old(taken) + [tag] && results == old(results) + [r]
      ensures settled[..|old(settled)|] == old(settled)
    {
      taken, results := taken + [tag], results + [r];
      if !Success(r) {
        settled := settled + [Nack(tag, !discardOnError)];
        return;
      }
      settled := settled + [Ack(tag)];
    }

    /** The inner loop of consume: every delivery of one stream, one after the other. */
    method Range(tags: seq<int>, outs: seq<CallResult>)
      requires Valid() && |tags| == |outs|
      modifies this
      ensures Valid() && taken == old(taken) + tags && results == old(results) + outs
      ensures old(settled) <= settled
    {
      for i := 0 to |tags|
        invariant Valid() && taken == old(taken) + tags[..i] && results == old(results) + outs[..i]
        invariant old(settled) <= settled
      {
        Handle(tags[i], outs[i]);
      }
    }
  }

  /** What was taken and what the Handler made of it settle the settlements: a schedule of the machine below
      and the loop above that take the same deliveries make the same attempts. */
  lemma SettledOneWay(discardOnError: bool, taken: seq<int>, results: seq<CallResult>,
                      one: seq<Settlement>, two: seq<Settlement>)
    requires SettledAs(discardOnError, taken, results, one) && SettledAs(discardOnError, taken, results, two)
    requires |one| == |two|
    ensures one == two
  {
    forall i | 0 <= i < |one| ensures one[i] == two[i] {
      assert one[i].tag == taken[i] == two[i].tag;
      assert one[i].Ack? <==> two[i].Ack?;
    }
  }

  // ------------------------------------------------------------- the machine

  /** Why a dial failed: a reply of the broker with its code, or anything else. */
  datatype DialError = Reply(code: int) | Network

  /** Reply codes of AMQP 0-9-1. */
  const ACCESS_REFUSED := 403
  const NOT_FOUND := 404
  const NOT_ALLOWED := 530

  predicate Permanent(e: DialError) {
    e.Reply? && (e.code == ACCESS_REFUSED || e.code == NOT_FOUND || e.code == NOT_ALLOWED)
  }

  datatype Loop =
    | Ranging                       // waiting for a delivery
    | Calling(tag: int)             // in the Handler
    | Settling(tag: int, r: CallResult)
    | StreamOver                    // about to read closing
    | Redialing                     // in redial, about to close the broker
    | Pausing                       // waiting for the timer or ctx
    | TimerFired                    // about to read closing again
    | Dialing
    | Refused(e: DialError)         // redial returned an error
    | Sending(e: DialError)
    | Returned

  /** Drain sets closing, reads which channel there is, and cancels that one. */
  datatype Drain = NotDrained | FlagSet | Read(ch: Option<nat>) | Drained

  /** Stop begins with the same three steps. */
  datatype Stop =
    | NotStopped | FlagUp | HasRead(ch: Option<nat>) | Selecting
    | Cancelling(ok: bool) | Closing(ok: bool) | Stopped(ok: bool)

  /** What the loop has taken off streams, what the Handler made of it, and the settlements attempted. */
  datatype Ledger = Ledger(taken: seq<int>, results: seq<CallResult>, settled: seq<Settlement>)

  /** Streams are numbered as they are opened. `stream` is the one the loop ranges over or last did, `ch` the
      channel the Component holds, `live` whether the broker may still send on that stream, `arrived`
      everything it has sent and `buffer` what of it the loop has not taken. `late` counts the streams opened
      after closing was set, `dialing` is whether a dial was under way at that moment, and `missed` whether one
      was when Drain read the channel. */
  datatype State = State(
    loop: Loop, drain: Drain, stop: Stop,
    closing: bool, ctxCancelled: bool, expired: bool,
    stream: nat, ch: Option<nat>, live: bool, arrived: seq<int>, buffer: seq<int>,
    fatal: Option<DialError>, queued: nat, sent: nat,
    ledger: Ledger, late: nat, dialing: bool, missed: bool)

  datatype Step =
    | BrokerSends(tag: int) | BrokerGone
    | Take | StreamEnds | HandlerEnds(r: CallResult) | Settle
    | ReadClosing | CloseBroker | SeeCtx | Timer | ReadClosingAgain | DialWorks | DialFails(e: DialError)
    | SetFatal | Send
    | DrainSet | DrainRead | DrainCancel
    | StopSet | StopRead | StopCancel | SeeDone | SeeExpiry | CancelCtx | StopClosesBroker
    | Expire | Receive

  const INIT := State(Ranging, NotDrained, NotStopped, false, false, false, 0, Some(0), true, [], [],
                      None, 0, 0, Ledger([], [], []), 0, false, false)

  /** The death channel holds one error. */
  const CAPACITY := 1

  predicate Enabled(s: State, step: Step) {
    match step
    case BrokerSends(_) => s.live
    case BrokerGone => s.live
    case Take => s.loop.Ranging? && s.buffer != []
    case StreamEnds => s.loop.Ranging? && s.buffer == [] && !s.live
    case HandlerEnds(_) => s.loop.Calling?
    case Settle => s.loop.Settling?
    case ReadClosing => s.loop.StreamOver?
    case CloseBroker => s.loop.Redialing?
    case SeeCtx => s.loop.Pausing? && s.ctxCancelled
    case Timer => s.loop.Pausing?
    case ReadClosingAgain => s.loop.TimerFired?
    case DialWorks => s.loop.Dialing?
    case DialFails(_) => s.loop.Dialing?
    case SetFatal => s.loop.Refused?
    case Send => s.loop.Sending? && s.queued < CAPACITY
    case DrainSet => s.drain.NotDrained?
    case DrainRead => s.drain.FlagSet?
    case DrainCancel => s.drain.Read?
    case StopSet => s.stop.NotStopped?
    case StopRead => s.stop.FlagUp?
    case StopCancel => s.stop.HasRead?
    case SeeDone => s.stop.Selecting? && s.loop.Returned?
    case SeeExpiry => s.stop.Selecting? && s.expired
    case CancelCtx => s.stop.Cancelling?
    case StopClosesBroker => s.stop.Closing?
    case Expire => !s.expired
    case Receive => s.queued > 0
  }

  /** closing.Store(true): the first call is the one that counts. */
  function SetClosing(s: State): State {
    if s.closing then s else s.(closing := true, dialing := s.loop.Dialing?)
  }

  /** Cancelling the consumer on a channel: the broker sends no more on the stream of that channel, which
      closes once what was sent has been taken. A stale channel has no stream any more. */
  function CancelOn(s: State, ch: Option<nat>): State {
    if ch == Some(s.stream) then s.(live := false) else s
  }

  function After(discardOnError: bool, s: State, step: Step): State
    requires Enabled(s, step)
  {
    match step
    case BrokerSends(tag) => s.(arrived := s.arrived + [tag], buffer := s.buffer + [tag])
    case BrokerGone => s.(live := false)
    case Take =>
      s.(loop := Calling(s.buffer[0]), buffer := s.buffer[1..],
         ledger := s.ledger.(taken := s.ledger.taken + [s.buffer[0]]))
    case StreamEnds => s.(loop := StreamOver)
    case HandlerEnds(r) => s.(loop := Settling(s.loop.tag, r), ledger := s.ledger.(results := s.ledger.results + [r]))
    case Settle =>
      s.(loop := Ranging,
         ledger := s.ledger.(settled :=
           s.ledger.settled + [if Success(s.loop.r) then Ack(s.loop.tag) else Nack(s.loop.tag, !discardOnError)]))
    case ReadClosing => s.(loop := if s.closing then Returned else Redialing)
    case CloseBroker => s.(loop := Pausing, ch := None)
    case SeeCtx => s.(loop := Returned)
    case Timer => s.(loop := TimerFired)
    case ReadClosingAgain => s.(loop := if s.closing then Returned else Dialing)
    case DialWorks =>
      s.(loop := Ranging, stream := s.stream + 1, ch := Some(s.stream + 1), live := true, buffer := [],
         late := s.late + if s.closing then 1 else 0)
    case DialFails(e) => s.(loop := if Permanent(e) then Refused(e) else Pausing)
    case SetFatal => s.(loop := Sending(s.loop.e), fatal := Some(s.loop.e))
    case Send => s.(loop := Returned, queued := s.queued + 1, sent := s.sent + 1)
    case DrainSet => SetClosing(s).(drain := FlagSet)
    case DrainRead => s.(drain := Read(s.ch), missed := s.loop.Dialing?)
    case DrainCancel => CancelOn(s, s.drain.ch).(drain := Drained)
    case StopSet => SetClosing(s).(stop := FlagUp)
    case StopRead => s.(stop := HasRead(s.ch))
    case StopCancel => CancelOn(s, s.stop.ch).(stop := Selecting)
    case SeeDone => s.(stop := Cancelling(true))
    case SeeExpiry => s.(stop := Cancelling(false))
    case CancelCtx => s.(stop := Closing(s.stop.ok), ctxCancelled := true)
    case StopClosesBroker => CancelOn(s, s.ch).(stop := Stopped(s.stop.ok), ch := None)
    case Expire => s.(expired := true)
    case Receive => s.(queued := s.queued - 1)
  }

  ghost function Run(discardOnError: bool, schedule: seq<Step>): Option<State> {
    if schedule == [] then Some(INIT)
    else
      var before := Run(discardOnError, schedule[..|schedule| - 1]);
      var step := schedule[|schedule| - 1];
      if before.Some? && Enabled(before.value, step) then Some(After(discardOnError, before.value, step)) else None
  }

  // --------------------------------------------------------------- invariant

  /** The loop is between taking a delivery and settling it. */
  predicate Busy(l: Loop) {
    l.Calling? || l.Settling?
  }

  /** The ledger: what was taken is what was settled, in order, plus the one in hand. */
  ghost predicate LedgerOk(discardOnError: bool, s: State) {
    var l := s.ledger;
    && SettledAs(discardOnError, l.taken, l.results, l.settled)
    && |l.taken| == |l.settled| + (if Busy(s.loop) then 1 else 0)
    && |l.results| == |l.settled| + (if s.loop.Settling? then 1 else 0)
    && (Busy(s.loop) ==> s.loop.tag == l.taken[|l.taken| - 1])
    && (s.loop.Settling? ==> s.loop.r == l.results[|l.results| - 1])
  }

  /** Nothing that arrived is lost or overtaken: what was taken is the beginning of it and the rest is waiting. */
  predicate ArrivedOk(s: State) {
    && s.arrived == s.ledger.taken + s.buffer
    && (!s.loop.Ranging? && !Busy(s.loop) ==> s.buffer == [])
    && (s.live ==> s.loop.Ranging? || Busy(s.loop))
  }

  predicate ShutdownOk(s: State) {
    && (!s.drain.NotDrained? || !s.stop.NotStopped? ==> s.closing)
    && (s.stop.Cancelling? || s.stop.Closing? || s.stop.Stopped? ==> if s.stop.ok then s.loop.Returned? else s.expired)
    && (s.ctxCancelled <==> s.stop.Closing? || s.stop.Stopped?)
  }

  predicate DeathOk(s: State) {
    && s.queued <= s.sent <= 1
    && (s.sent == 1 ==> s.loop.Returned? && s.fatal.Some?)
    && (s.fatal.Some? ==> Permanent(s.fatal.value) && (s.sent == 1 || s.loop == Sending(s.fatal.value)))
    && (s.loop.Sending? ==> s.fatal == Some(s.loop.e))
    && (s.loop.Refused? ==> Permanent(s.loop.e))
    && (s.loop.Returned? && s.sent == 0 ==> s.closing)
  }

  predicate LateOk(s: State) {
    && (s.closing && s.loop.Dialing? ==> s.dialing)
    && (s.late > 0 ==> s.late == 1 && s.closing && s.dialing
                       && (s.loop.Ranging? || Busy(s.loop) || s.loop.StreamOver? || s.loop.Returned?))
  }

  /** The loop is on a stream that is still open, or is about to open one: nothing that has been done so far
      will end it. */
  predicate Loose(s: State) {
    s.live || s.loop.Dialing?
  }

  /** An open stream is the one the loop ranges over, its channel is the one held, and a Drain that has read
      the channel has read that one unless a dial was under way. */
  predicate StreamOk(s: State) {
    && (s.live ==> (s.loop.Ranging? || Busy(s.loop)) && s.ch == Some(s.stream))
    && (s.drain.Read? && Loose(s) ==> s.missed || s.drain.ch == Some(s.stream))
    && (s.drain.Read? && s.loop.Dialing? ==> s.missed)
    && (s.drain.Drained? && Loose(s) ==> s.missed)
  }

  ghost predicate Inv(discardOnError: bool, s: State) {
    LedgerOk(discardOnError, s) && ArrivedOk(s) && ShutdownOk(s) && DeathOk(s) && LateOk(s) && StreamOk(s)
  }

  /** A step of the loop's own goroutine. */
  predicate LoopStep(step: Step) {
    match step
    case BrokerSends(_) => false
    case BrokerGone => false
    case DrainSet => false
    case DrainRead => false
    case DrainCancel => false
    case StopSet => false
    case StopRead => false
    case StopCancel => false
    case SeeDone => false
    case SeeExpiry => false
    case CancelCtx => false
    case StopClosesBroker => false
    case Expire => false
    case Receive => false
    case _ => true
  }

  /** What the loop's own steps leave alone, */
  lemma LoopFrame(discardOnError: bool, s: State, step: Step)
    requires Enabled(s, step) && LoopStep(step)
    ensures var s2 := After(discardOnError, s, step);
            && !s.loop.Returned?
            && s2.drain == s.drain && s2.stop == s.stop && s2.closing == s.closing && s2.ctxCancelled == s.ctxCancelled
            && s2.expired == s.expired && s2.dialing == s.dialing && s2.missed == s.missed
            && (!step.DialWorks? ==> s2.late == s.late && s2.live == s.live)
  {
    match step
    case Take =>
    case StreamEnds =>
    case HandlerEnds(_) =>
    case Settle =>
    case ReadClosing =>
    case CloseBroker =>
    case SeeCtx =>
    case Timer =>
    case ReadClosingAgain =>
    case DialWorks =>
    case DialFails(_) =>
    case SetFatal =>
    case Send =>
  }

  /** A step of Drain, or one Stop shares with it, or of the broker. */
  predicate ClosingStep(step: Step) {
    step.BrokerSends? || step.BrokerGone? || step.DrainSet? || step.DrainRead? || step.DrainCancel? || step.StopSet?
    || step.StopRead? || step.StopCancel?
  }

  /** and what all the others do. */
  ghost predicate Framed(s: State, s2: State) {
    && s2.loop == s.loop && s2.ledger == s.ledger
    && s2.fatal == s.fatal && s2.sent == s.sent && s2.queued <= s.queued && s2.late == s.late
    && s2.stream == s.stream && (s.closing ==> s2.closing) && (s2.live ==> s.live)
    && s2.dialing == if s2.closing && !s.closing then s.loop.Dialing? else s.dialing
  }

  lemma OtherFrame(discardOnError: bool, s: State, step: Step)
    requires Enabled(s, step) && !LoopStep(step)
    ensures Framed(s, After(discardOnError, s, step))
  {
    hide After, Enabled, Framed, LoopStep;
    if ClosingStep(step) {
      ClosingFrame(discardOnError, s, step);
    } else {
      StoppingFrame(discardOnError, s, step);
    }
  }

  lemma ClosingFrame(discardOnError: bool, s: State, step: Step)
    requires Enabled(s, step) && ClosingStep(step)
    ensures Framed(s, After(discardOnError, s, step))
  {
    match step
    case BrokerSends(_) =>
    case BrokerGone =>
    case DrainSet =>
    case DrainRead =>
    case DrainCancel =>
    case StopSet =>
    case StopRead =>
    case StopCancel =>
  }

  lemma StoppingFrame(discardOnError: bool, s: State, step: Step)
    requires Enabled(s, step) && !LoopStep(step) && !ClosingStep(step)
    ensures Framed(s, After(discardOnError, s, step))
  {
    match step
    case SeeDone =>
    case SeeExpiry =>
    case CancelCtx =>
    case StopClosesBroker =>
    case Expire =>
    case Receive =>
  }

  lemma StepLedger(discardOnError: bool, s: State, step: Step)
    requires LedgerOk(discardOnError, s) && Enabled(s, step)
    ensures LedgerOk(discardOnError, After(discardOnError, s, step))
  {
    if step.Take? || step.HandlerEnds? || step.Settle? {
      LedgerMoves(discardOnError, s, step);
    } else if LoopStep(step) {
      LedgerStays(discardOnError, s, step);
    } else {
      hide SettledAs, After;
      OtherFrame(discardOnError, s, step);
    }
  }

  lemma LedgerMoves(discardOnError: bool, s: State, step: Step)
    requires LedgerOk(discardOnError, s) && Enabled(s, step) && (step.Take? || step.HandlerEnds? || step.Settle?)
    ensures LedgerOk(discardOnError, After(discardOnError, s, step))
  {
    match step
    case Take =>
    case HandlerEnds(_) =>
    case Settle =>
  }

  lemma LedgerStays(discardOnError: bool, s: State, step: Step)
    requires LedgerOk(discardOnError, s) && Enabled(s, step)
    requires LoopStep(step) && !step.Take? && !step.HandlerEnds? && !step.Settle?
    ensures LedgerOk(discardOnError, After(discardOnError, s, step))
  {
    hide SettledAs;
    match step
    case StreamEnds =>
    case ReadClosing =>
    case CloseBroker =>
    case SeeCtx =>
    case Timer =>
    case ReadClosingAgain =>
    case DialWorks =>
    case DialFails(_) =>
    case SetFatal =>
    case Send =>
  }

  lemma StepArrived(discardOnError: bool, s: State, step: Step)
    requires ArrivedOk(s) && Enabled(s, step)
    ensures ArrivedOk(After(discardOnError, s, step))
  {
    if LoopStep(step) {
      TakenInOrder(discardOnError, s, step);
    } else {
      OtherFrame(discardOnError, s, step);
      SentInOrder(discardOnError, s, step);
      hide After, Enabled, LoopStep;
    }
  }

  lemma TakenInOrder(discardOnError: bool, s: State, step: Step)
    requires ArrivedOk(s) && Enabled(s, step) && LoopStep(step)
    ensures ArrivedOk(After(discardOnError, s, step))
  {
    match step
    case Take =>
    case StreamEnds =>
    case HandlerEnds(_) =>
    case Settle =>
    case ReadClosing =>
    case CloseBroker =>
    case SeeCtx =>
    case Timer =>
    case ReadClosingAgain =>
    case DialWorks =>
    case DialFails(_) =>
    case SetFatal =>
    case Send =>
  }

  lemma SentInOrder(discardOnError: bool, s: State, step: Step)
    requires ArrivedOk(s) && Enabled(s, step) && !LoopStep(step)
    ensures var s2 := After(discardOnError, s, step);
            && s2.arrived == s.ledger.taken + s2.buffer
            && (!s.loop.Ranging? && !Busy(s.loop) ==> s2.buffer == [])
  {
    match step
    case BrokerSends(_) =>
    case BrokerGone =>
    case DrainSet =>
    case DrainRead =>
    case DrainCancel =>
    case StopSet =>
    case StopRead =>
    case StopCancel =>
    case SeeDone =>
    case SeeExpiry =>
    case CancelCtx =>
    case StopClosesBroker =>
    case Expire =>
    case Receive =>
  }

  lemma StepShutdown(discardOnError: bool, s: State, step: Step)
    requires ShutdownOk(s) && Enabled(s, step)
    ensures ShutdownOk(After(discardOnError, s, step))
  {
    if LoopStep(step) {
      hide After, Enabled;
      LoopFrame(discardOnError, s, step);
    } else {
      ShutdownMoves(discardOnError, s, step);
    }
  }

  lemma ShutdownMoves(discardOnError: bool, s: State, step: Step)
    requires ShutdownOk(s) && Enabled(s, step) && !LoopStep(step)
    ensures ShutdownOk(After(discardOnError, s, step))
  {
    match step
    case BrokerSends(_) =>
    case BrokerGone =>
    case DrainSet =>
    case DrainRead =>
    case DrainCancel =>
    case StopSet =>
    case StopRead =>
    case StopCancel =>
    case SeeDone =>
    case SeeExpiry =>
    case CancelCtx =>
    case StopClosesBroker =>
    case Expire =>
    case Receive =>
  }

  lemma StepDeath(discardOnError: bool, s: State, step: Step)
    requires ShutdownOk(s) && DeathOk(s) && Enabled(s, step)
    ensures DeathOk(After(discardOnError, s, step))
  {
    if LoopStep(step) {
      DeathMoves(discardOnError, s, step);
    } else {
      hide After, Enabled;
      OtherFrame(discardOnError, s, step);
    }
  }

  lemma DeathMoves(discardOnError: bool, s: State, step: Step)
    requires ShutdownOk(s) && DeathOk(s) && Enabled(s, step) && LoopStep(step)
    ensures DeathOk(After(discardOnError, s, step))
  {
    match step
    case Take =>
    case StreamEnds =>
    case HandlerEnds(_) =>
    case Settle =>
    case ReadClosing =>
    case CloseBroker =>
    case SeeCtx =>
    case Timer =>
    case ReadClosingAgain =>
    case DialWorks =>
    case DialFails(_) =>
    case SetFatal =>
    case Send =>
  }

  lemma StepLate(discardOnError: bool, s: State, step: Step)
    requires LateOk(s) && Enabled(s, step)
    ensures LateOk(After(discardOnError, s, step))
  {
    if LoopStep(step) {
      LateMoves(discardOnError, s, step);
    } else {
      hide After, Enabled;
      OtherFrame(discardOnError, s, step);
    }
  }

  lemma LateMoves(discardOnError: bool, s: State, step: Step)
    requires LateOk(s) && Enabled(s, step) && LoopStep(step)
    ensures LateOk(After(discardOnError, s, step))
  {
    match step
    case Take =>
    case StreamEnds =>
    case HandlerEnds(_) =>
    case Settle =>
    case ReadClosing =>
    case CloseBroker =>
    case SeeCtx =>
    case Timer =>
    case ReadClosingAgain =>
    case DialWorks =>
    case DialFails(_) =>
    case SetFatal =>
    case Send =>
  }

  lemma StepStream(discardOnError: bool, s: State, step: Step)
    requires ShutdownOk(s) && StreamOk(s) && Enabled(s, step)
    ensures StreamOk(After(discardOnError, s, step))
  {
    if LoopStep(step) {
      StreamMoves(discardOnError, s, step);
    } else {
      CancelMoves(discardOnError, s, step);
    }
  }

  lemma StreamMoves(discardOnError: bool, s: State, step: Step)
    requires ShutdownOk(s) && StreamOk(s) && Enabled(s, step) && LoopStep(step)
    ensures StreamOk(After(discardOnError, s, step))
  {
    match step
    case Take =>
    case StreamEnds =>
    case HandlerEnds(_) =>
    case Settle =>
    case ReadClosing =>
    case CloseBroker =>
    case SeeCtx =>
    case Timer =>
    case ReadClosingAgain =>
    case DialWorks =>
    case DialFails(_) =>
    case SetFatal =>
    case Send =>
  }

  lemma CancelMoves(discardOnError: bool, s: State, step: Step)
    requires StreamOk(s) && Enabled(s, step) && !LoopStep(step)
    ensures StreamOk(After(discardOnError, s, step))
  {
    hide After, Enabled, LoopStep, StreamOk;
    if ClosingStep(step) {
      ClosingStream(discardOnError, s, step);
    } else {
      StoppingStream(discardOnError, s, step);
    }
  }

  lemma ClosingStream(discardOnError: bool, s: State, step: Step)
    requires StreamOk(s) && Enabled(s, step) && ClosingStep(step)
    ensures StreamOk(After(discardOnError, s, step))
  {
    match step
    case BrokerSends(_) =>
    case BrokerGone =>
    case DrainSet =>
    case DrainRead =>
    case DrainCancel =>
    case StopSet =>
    case StopRead =>
    case StopCancel =>
  }

  lemma StoppingStream(discardOnError: bool, s: State, step: Step)
    requires StreamOk(s) && Enabled(s, step) && !LoopStep(step) && !ClosingStep(step)
    ensures StreamOk(After(discardOnError, s, step))
  {
    match step
    case SeeDone =>
    case SeeExpiry =>
    case CancelCtx =>
    case StopClosesBroker =>
    case Expire =>
    case Receive =>
  }

  lemma {:induction false} RunInv(discardOnError: bool, schedule: seq<Step>)
    requires Run(discardOnError, schedule).Some?
    ensures Inv(discardOnError, Run(discardOnError, schedule).value)
    decreases |schedule|
  {
    if schedule != [] {
      hide Enabled, After, LedgerOk, ArrivedOk, ShutdownOk, DeathOk, LateOk, StreamOk;
      var before, step := schedule[..|schedule| - 1], schedule[|schedule| - 1];
      RunInv(discardOnError, before);
      var s := Run(discardOnError, before).value;
      StepLedger(discardOnError, s, step);
      StepArrived(discardOnError, s, step);
      StepShutdown(discardOnError, s, step);
      StepDeath(discardOnError, s, step);
      StepLate(discardOnError, s, step);
      StepStream(discardOnError, s, step);
    } else {
      InitInv(discardOnError);
    }
  }

  lemma InitInv(discardOnError: bool)
    ensures Inv(discardOnError, INIT)
  {
  }

  /** Under every interleaving each delivery the loop takes is settled by exactly one attempt, in the order
      taken and one at a time, with an Ack exactly when the Handler returned nil without panicking; and they
      are taken in the order the broker sent them, none left out. */
  lemma {:induction false} SettledOnceInOrder(discardOnError: bool, schedule: seq<Step>)
    requires Run(discardOnError, schedule).Some?
    ensures var s := Run(discardOnError, schedule).value;
            && SettledAs(discardOnError, s.ledger.taken, s.ledger.results, s.ledger.settled)
            && |s.ledger.settled| <= |s.ledger.results| <= |s.ledger.taken| <= |s.ledger.settled| + 1
            && (|s.ledger.taken| > |s.ledger.settled| <==> Busy(s.loop))
            && s.arrived == s.ledger.taken + s.buffer
  {
    hide Run, SettledAs, ShutdownOk, DeathOk, LateOk, StreamOk;
    RunInv(discardOnError, schedule);
  }

  /** A death is reported at most once, without waiting for a reader, only for a refusal that will not fix
      itself, and Check shows it first; a loop that returns without one was told to close. */
  lemma {:induction false} DeathOnlyOnRefusal(discardOnError: bool, schedule: seq<Step>)
    requires Run(discardOnError, schedule).Some?
    ensures var s := Run(discardOnError, schedule).value;
            && s.sent <= 1
            && (s.sent == 1 ==> s.loop.Returned? && s.fatal.Some? && Permanent(s.fatal.value))
            && (s.loop.Sending? ==> s.fatal == Some(s.loop.e) && Enabled(s, Send))
            && (s.loop.Returned? && s.sent == 0 ==> s.closing)
  {
    hide Run, LedgerOk, ArrivedOk, ShutdownOk, LateOk, StreamOk;
    RunInv(discardOnError, schedule);
  }

  /** Stop cancels the Handler's ctx only once the loop has returned or the budget is spent, and returns nil
      only with every delivery taken settled. */
  lemma {:induction false} CleanStopMeansSettled(discardOnError: bool, schedule: seq<Step>)
    requires Run(discardOnError, schedule).Some?
    ensures var s := Run(discardOnError, schedule).value;
            && (s.ctxCancelled ==> s.loop.Returned? || s.expired)
            && (s.stop == Stopped(true) ==> s.loop.Returned? && |s.ledger.taken| == |s.ledger.settled|)
  {
    hide Run, SettledAs, ArrivedOk, DeathOk, LateOk, StreamOk;
    RunInv(discardOnError, schedule);
  }

  /** Once closing is set the loop opens at most one more stream, and only with a dial that was already under
      way then. */
  lemma {:induction false} AtMostOneLateStream(discardOnError: bool, schedule: seq<Step>)
    requires Run(discardOnError, schedule).Some?
    ensures var s := Run(discardOnError, schedule).value; s.late <= if s.dialing then 1 else 0
  {
    hide Run, LedgerOk, ArrivedOk, ShutdownOk, DeathOk, StreamOk;
    RunInv(discardOnError, schedule);
  }

  /** After a Drain the loop can be on an open stream, or opening one, only if a dial was under way when Drain
      read which channel to cancel. */
  lemma {:induction false} LooseOnlyIfMissed(discardOnError: bool, schedule: seq<Step>)
    requires Run(discardOnError, schedule).Some? && Run(discardOnError, schedule).value.drain.Drained?
    ensures Loose(Run(discardOnError, schedule).value) ==> Run(discardOnError, schedule).value.missed
  {
    hide Run, LedgerOk, ArrivedOk, ShutdownOk, DeathOk, LateOk;
    RunInv(discardOnError, schedule);
  }

  // --------------------------------------------- a permanent refusal is a death

  function LoopSteps(schedule: seq<Step>): nat {
    if schedule == [] then 0
    else LoopSteps(schedule[..|schedule| - 1]) + if LoopStep(schedule[|schedule| - 1]) then 1 else 0
  }

  /** The loop is on its way to end with this refusal. */
  predicate Doomed(s: State, e: DialError) {
    match s.loop
    case Refused(e2) => e2 == e
    case Sending(e2) => e2 == e && s.fatal == Some(e)
    case Returned => s.fatal == Some(e) && s.sent == 1
    case _ => false
  }

  function DoomLeft(l: Loop): nat {
    match l
    case Refused(_) => 2
    case Sending(_) => 1
    case _ => 0
  }

  lemma DoomedStep(discardOnError: bool, s: State, step: Step, e: DialError)
    requires Doomed(s, e) && DeathOk(s) && Enabled(s, step)
    ensures var s2 := After(discardOnError, s, step);
            && Doomed(s2, e) && s2.stream == s.stream
            && DoomLeft(s2.loop) + (if LoopStep(step) then 1 else 0) <= DoomLeft(s.loop)
  {
    if LoopStep(step) {
      match step
      case SetFatal =>
      case Send =>
    } else {
      OtherFrame(discardOnError, s, step);
      hide After, Enabled, LoopStep;
    }
  }

  lemma {:induction false} DoomedRun(discardOnError: bool, before: seq<Step>, after: seq<Step>, e: DialError)
    requires Run(discardOnError, before).Some? && Run(discardOnError, before + after).Some?
    requires Doomed(Run(discardOnError, before).value, e)
    ensures var s0, s := Run(discardOnError, before).value, Run(discardOnError, before + after).value;
            && Doomed(s, e) && s.stream == s0.stream
            && DoomLeft(s.loop) + LoopSteps(after) <= DoomLeft(s0.loop)
    decreases |after|
  {
    hide After, Enabled, Doomed, DoomLeft, LoopStep;
    if after == [] {
      assert before + after == before;
    } else {
      var front := after[..|after| - 1];
      assert (before + after)[..|before + after| - 1] == before + front;
      assert (before + after)[|before + after| - 1] == after[|after| - 1];
      DoomedRun(discardOnError, before, front, e);
      RunInv(discardOnError, before + front);
      DoomedStep(discardOnError, Run(discardOnError, before + front).value, after[|after| - 1], e);
    }
  }

  /** A dial the broker refuses for good, as refused (403), not found (404) or not allowed (530), ends the loop
      with a death, whatever else is scheduled: nothing is dialed and no stream opened any more, in at most
      two steps of the loop it has returned with that error on the death channel and in Check, and until then
      one of them is enabled. */
  lemma RefusalIsDeath(discardOnError: bool, before: seq<Step>, code: int, after: seq<Step>)
    requires code == 403 || code == 404 || code == 530
    requires Run(discardOnError, before + [DialFails(Reply(code))]).Some?
    requires Run(discardOnError, before + [DialFails(Reply(code))] + after).Some?
    ensures var s0 := Run(discardOnError, before + [DialFails(Reply(code))]).value;
            var s := Run(discardOnError, before + [DialFails(Reply(code))] + after).value;
            && LoopSteps(after) <= 2 && s.stream == s0.stream && !s.loop.Dialing?
            && (s.loop.Returned? ==> s.sent == 1 && s.fatal == Some(Reply(code)))
            && (!s.loop.Returned? ==> exists step :: LoopStep(step) && Enabled(s, step))
  {
    hide Run, After, Enabled, Doomed, DoomLeft, LoopStep;
    var failed := before + [DialFails(Reply(code))];
    FailedDial(discardOnError, before, Reply(code));
    DoomedRun(discardOnError, failed, after, Reply(code));
    RunInv(discardOnError, failed + after);
    DoomedGoesOn(Run(discardOnError, failed + after).value, Reply(code));
  }

  /** The dial has failed for good, */
  lemma FailedDial(discardOnError: bool, before: seq<Step>, e: DialError)
    requires Run(discardOnError, before + [DialFails(e)]).Some? && Permanent(e)
    ensures var s := Run(discardOnError, before + [DialFails(e)]).value; Doomed(s, e) && DoomLeft(s.loop) == 2
  {
    assert (before + [DialFails(e)])[..|before|] == before;
  }

  /** and there is a step to take until the loop has returned. */
  lemma DoomedGoesOn(s: State, e: DialError)
    requires Doomed(s, e) && DeathOk(s)
    ensures s.loop.Returned? ==> s.sent == 1 && s.fatal == Some(e)
    ensures !s.loop.Dialing?
    ensures !s.loop.Returned? ==> exists step :: LoopStep(step) && Enabled(s, step)
  {
    var step := if s.loop.Refused? then SetFatal else Send;
    assert !s.loop.Returned? ==> LoopStep(step) && Enabled(s, step);
  }

  /** Any other failure of a dial is no death: the loop pauses and tries again. */
  lemma OtherFailureRetries(discardOnError: bool, before: seq<Step>, e: DialError)
    requires Run(discardOnError, before + [DialFails(e)]).Some?
    requires e.Network? || (e.code != 403 && e.code != 404 && e.code != 530)
    ensures var s := Run(discardOnError, before + [DialFails(e)]).value;
            s.loop.Pausing? && s.fatal.None? && s.sent == 0
  {
    var failed := before + [DialFails(e)];
    assert failed[..|before|] == before;
    assert Run(discardOnError, before).value.loop.Dialing?;
    RunInv(discardOnError, failed);
    hide Run, After;
  }

  // --------------------------------------------- the dial that Drain misses

  lemma Then(discardOnError: bool, schedule: seq<Step>, step: Step)
    requires Run(discardOnError, schedule).Some? && Enabled(Run(discardOnError, schedule).value, step)
    ensures Run(discardOnError, schedule + [step])
        == Some(After(discardOnError, Run(discardOnError, schedule).value, step))
  {
    assert (schedule + [step])[..|schedule|] == schedule;
  }

  /** The connection is lost, and while the loop dials again Drain runs from end to end. */
  const TO_THE_DIAL: seq<Step> := [BrokerGone, StreamEnds, ReadClosing, CloseBroker, Timer, ReadClosingAgain]
  const PAST_THE_DRAIN: seq<Step> := [DrainRead, DrainCancel, DialWorks]

  lemma ReachesTheDial(discardOnError: bool)
    ensures var s := Run(discardOnError, TO_THE_DIAL + [DrainSet]);
            s.Some? && s.value.drain.FlagSet? && s.value.loop.Dialing? && s.value.late == 0 && s.value.closing
  {
    hide Run;
    LosesTheBroker(discardOnError);
    var most := [] + [BrokerGone] + [StreamEnds] + [ReadClosing] + [CloseBroker];
    Then(discardOnError, most, Timer);
    Then(discardOnError, most + [Timer], ReadClosingAgain);
    assert most + [Timer] + [ReadClosingAgain] == TO_THE_DIAL;
    Then(discardOnError, TO_THE_DIAL, DrainSet);
  }

  lemma LosesTheBroker(discardOnError: bool)
    ensures Run(discardOnError, [] + [BrokerGone] + [StreamEnds] + [ReadClosing] + [CloseBroker])
        == Some(INIT.(loop := Pausing, ch := None, live := false))
  {
    hide Run;
    assert Run(discardOnError, []) == Some(INIT) by {
      Starts(discardOnError);
    }
    Then(discardOnError, [], BrokerGone);
    Then(discardOnError, [] + [BrokerGone], StreamEnds);
    Then(discardOnError, [] + [BrokerGone] + [StreamEnds], ReadClosing);
    Then(discardOnError, [] + [BrokerGone] + [StreamEnds] + [ReadClosing], CloseBroker);
  }

  lemma Starts(discardOnError: bool)
    ensures Run(discardOnError, []) == Some(INIT)
  {
  }

  /** A Drain that reads the channel while a dial is under way is over before the dial is, and misses the
      stream the dial opens. */
  lemma PassesTheDrain(discardOnError: bool, before: seq<Step>)
    requires Run(discardOnError, before).Some?
    requires Run(discardOnError, before).value.drain.FlagSet? && Run(discardOnError, before).value.loop.Dialing?
    ensures var r := Run(discardOnError, before + PAST_THE_DRAIN);
            && r.Some? && r.value.drain.Drained? && r.value.live && r.value.missed
            && r.value.late == Run(discardOnError, before).value.late
               + if Run(discardOnError, before).value.closing then 1 else 0
  {
    hide Run;
    Then(discardOnError, before, DrainRead);
    Then(discardOnError, before + [DrainRead], DrainCancel);
    Then(discardOnError, before + [DrainRead] + [DrainCancel], DialWorks);
    assert before + [DrainRead] + [DrainCancel] + [DialWorks] == before + PAST_THE_DRAIN;
  }

  /** It happens: a run in which Drain has finished and the broker may go on sending, on a stream that was
      opened after closing was set. */
  lemma MissedDialHappens(discardOnError: bool)
    ensures var r := Run(discardOnError, TO_THE_DIAL + [DrainSet] + PAST_THE_DRAIN);
            r.Some? && r.value.drain.Drained? && r.value.live && r.value.late == 1 && r.value.missed
  {
    hide Run;
    ReachesTheDial(discardOnError);
    PassesTheDrain(discardOnError, TO_THE_DIAL + [DrainSet]);
  }

  /** Drain has set the flag with no dial under way, so it will not miss one. */
  predicate WillNotMiss(s: State) {
    s.closing && !s.loop.Dialing? && (s.drain.FlagSet? || ((s.drain.Read? || s.drain.Drained?) && !s.missed))
  }

  lemma StillNotMissed(discardOnError: bool, s: State, step: Step)
    requires WillNotMiss(s) && Enabled(s, step)
    ensures WillNotMiss(After(discardOnError, s, step))
  {
    if LoopStep(step) {
      NeverDialsAgain(discardOnError, s, step);
      LoopFrame(discardOnError, s, step);
      hide After, Enabled, LoopStep;
    } else {
      OtherFrame(discardOnError, s, step);
      DrainGoesOn(discardOnError, s, step);
      hide After, Enabled, LoopStep;
    }
  }

  lemma NeverDialsAgain(discardOnError: bool, s: State, step: Step)
    requires s.closing && !s.loop.Dialing? && Enabled(s, step) && LoopStep(step)
    ensures !After(discardOnError, s, step).loop.Dialing?
  {
    match step
    case Take =>
    case StreamEnds =>
    case HandlerEnds(_) =>
    case Settle =>
    case ReadClosing =>
    case CloseBroker =>
    case SeeCtx =>
    case Timer =>
    case ReadClosingAgain =>
    case SetFatal =>
    case Send =>
  }

  lemma DrainGoesOn(discardOnError: bool, s: State, step: Step)
    requires WillNotMiss(s) && Enabled(s, step) && !LoopStep(step)
    ensures var s2 := After(discardOnError, s, step);
            s2.drain.FlagSet? || ((s2.drain.Read? || s2.drain.Drained?) && !s2.missed)
  {
    match step
    case BrokerSends(_) =>
    case BrokerGone =>
    case DrainRead =>
    case DrainCancel =>
    case StopSet =>
    case StopRead =>
    case StopCancel =>
    case SeeDone =>
    case SeeExpiry =>
    case CancelCtx =>
    case StopClosesBroker =>
    case Expire =>
    case Receive =>
  }

  lemma {:induction false} NeverMissed(discardOnError: bool, before: seq<Step>, after: seq<Step>)
    requires Run(discardOnError, before).Some? && Run(discardOnError, before + after).Some?
    requires WillNotMiss(Run(discardOnError, before).value)
    ensures WillNotMiss(Run(discardOnError, before + after).value)
    decreases |after|
  {
    hide After, Enabled, WillNotMiss;
    if after == [] {
      assert before + after == before;
    } else {
      var front := after[..|after| - 1];
      assert (before + after)[..|before + after| - 1] == before + front;
      assert (before + after)[|before + after| - 1] == after[|after| - 1];
      NeverMissed(discardOnError, before, front);
      StillNotMissed(discardOnError, Run(discardOnError, before + front).value, after[|after| - 1]);
    }
  }

  predicate OfStop(step: Step) {
    step.StopSet? || step.StopRead? || step.StopCancel? || step.SeeDone? || step.SeeExpiry? || step.CancelCtx?
    || step.StopClosesBroker?
  }

  /** After these steps Drain is over, Stop has done nothing in them, and the loop is loose. */
  ghost predicate EndsLoose(discardOnError: bool, before: seq<Step>, after: seq<Step>) {
    && Run(discardOnError, before + after).Some?
    && (forall i :: 0 <= i < |after| ==> !OfStop(after[i]))
    && Run(discardOnError, before + after).value.drain.Drained? && Loose(Run(discardOnError, before + after).value)
  }

  /** The guard, at the moment Drain has set closing and is about to read the channel: it can leave the loop on
      an open stream, or dialing for one, if and only if a dial is under way. */
  lemma DrainMissesIff(discardOnError: bool, before: seq<Step>)
    requires Run(discardOnError, before).Some? && Run(discardOnError, before).value.drain.FlagSet?
    ensures (exists after: seq<Step> :: EndsLoose(discardOnError, before, after))
            <==> Run(discardOnError, before).value.loop.Dialing?
  {
    hide Run;
    var s := Run(discardOnError, before).value;
    if s.loop.Dialing? {
      PassesTheDrain(discardOnError, before);
      assert EndsLoose(discardOnError, before, PAST_THE_DRAIN);
    } else {
      assert WillNotMiss(s) by {
        RunInv(discardOnError, before);
      }
      forall after: seq<Step> | Run(discardOnError, before + after).Some?
        ensures !EndsLoose(discardOnError, before, after)
      {
        NeverMissed(discardOnError, before, after);
        if Run(discardOnError, before + after).value.drain.Drained? {
          LooseOnlyIfMissed(discardOnError, before + after);
        }
      }
    }
  }

  // ---------------------------------------------------- when the loop ends

  /** How many steps the loop has left when closing is set and nothing more can come. */
  function Rank(s: State): nat {
    match s.loop
    case Ranging => 3 * |s.buffer| + 2
    case Calling(_) => 3 * |s.buffer| + 4
    case Settling(_, _) => 3 * |s.buffer| + 3
    case StreamOver => 1
    case Redialing => 3
    case Pausing => 2
    case TimerFired => 1
    case Dialing => 4
    case Refused(_) => 2
    case Sending(_) => 1
    case Returned => 0
  }

  predicate Tight(s: State) {
    s.closing && !Loose(s)
  }

  /** Nothing makes a tight state loose, and every step of the loop uses up one of those it has left. */
  lemma TightStep(discardOnError: bool, s: State, step: Step)
    requires Tight(s) && Enabled(s, step)
    ensures var s2 := After(discardOnError, s, step);
            Tight(s2) && Rank(s2) + (if LoopStep(step) then 1 else 0) <= Rank(s)
  {
    if LoopStep(step) {
      TightMoves(discardOnError, s, step);
    } else {
      hide Enabled, LoopStep, Rank;
      TightStays(discardOnError, s, step);
    }
  }

  lemma TightMoves(discardOnError: bool, s: State, step: Step)
    requires Tight(s) && Enabled(s, step) && LoopStep(step)
    ensures var s2 := After(discardOnError, s, step); Tight(s2) && Rank(s2) + 1 <= Rank(s)
  {
    match step
    case Take =>
    case StreamEnds =>
    case HandlerEnds(_) =>
    case Settle =>
    case ReadClosing =>
    case CloseBroker =>
    case SeeCtx =>
    case Timer =>
    case ReadClosingAgain =>
    case SetFatal =>
    case Send =>
  }

  lemma TightStays(discardOnError: bool, s: State, step: Step)
    requires Tight(s) && Enabled(s, step) && !LoopStep(step)
    ensures var s2 := After(discardOnError, s, step); Tight(s2) && Rank(s2) == Rank(s)
  {
    OtherFrame(discardOnError, s, step);
    BufferKept(discardOnError, s, step);
    hide After, Enabled, LoopStep;
  }

  lemma BufferKept(discardOnError: bool, s: State, step: Step)
    requires Enabled(s, step) && !LoopStep(step) && !s.live
    ensures After(discardOnError, s, step).buffer == s.buffer
  {
    match step
    case DrainSet =>
    case DrainRead =>
    case DrainCancel =>
    case StopSet =>
    case StopRead =>
    case StopCancel =>
    case SeeDone =>
    case SeeExpiry =>
    case CancelCtx =>
    case StopClosesBroker =>
    case Expire =>
    case Receive =>
  }

  lemma {:induction false} TightRun(discardOnError: bool, before: seq<Step>, after: seq<Step>)
    requires Run(discardOnError, before).Some? && Run(discardOnError, before + after).Some?
    requires Tight(Run(discardOnError, before).value)
    ensures var s := Run(discardOnError, before + after).value;
            Tight(s) && Rank(s) + LoopSteps(after) <= Rank(Run(discardOnError, before).value)
    decreases |after|
  {
    hide After, Enabled, Rank, LoopStep, Tight;
    if after == [] {
      assert before + after == before;
    } else {
      var front := after[..|after| - 1];
      assert (before + after)[..|before + after| - 1] == before + front;
      assert (before + after)[|before + after| - 1] == after[|after| - 1];
      TightRun(discardOnError, before, front);
      TightStep(discardOnError, Run(discardOnError, before + front).value, after[|after| - 1]);
    }
  }

  /** From a loose state the loop can go on and be loose again, at once or when the broker has sent. */
  lemma LooseGoesOn(discardOnError: bool, s: State) returns (step: Step)
    requires Loose(s) && StreamOk(s) && !Starved(s)
    ensures LoopStep(step) && Enabled(s, step) && Loose(After(discardOnError, s, step))
  {
    step :=
      match s.loop
      case Dialing => DialWorks
      case Calling(_) => HandlerEnds(ReturnedNil)
      case Settling(_, _) => Settle
      case _ => Take;
  }

  predicate Starved(s: State) {
    s.loop.Ranging? && s.buffer == []
  }

  lemma Sends(discardOnError: bool, s: State)
    requires Loose(s) && Starved(s)
    ensures Enabled(s, BrokerSends(0))
    ensures var s2 := After(discardOnError, s, BrokerSends(0)); Loose(s2) && !Starved(s2)
  {
  }

  predicate DrainOrStop(step: Step) {
    step.DrainSet? || step.DrainRead? || step.DrainCancel? || step.StopSet? || step.StopRead? || step.StopCancel?
    || step.SeeDone? || step.SeeExpiry? || step.CancelCtx? || step.StopClosesBroker?
  }

  /** Nothing is done by Drain or Stop in it. */
  ghost predicate LeftAlone(schedule: seq<Step>) {
    forall i :: 0 <= i < |schedule| ==> !DrainOrStop(schedule[i])
  }

  lemma LooseStep(discardOnError: bool, before: seq<Step>, after: seq<Step>) returns (more: seq<Step>)
    requires Run(discardOnError, before + after).Some? && Loose(Run(discardOnError, before + after).value)
        && LeftAlone(after)
    ensures Run(discardOnError, before + more).Some? && Loose(Run(discardOnError, before + more).value)
        && LeftAlone(more)
    ensures LoopSteps(more) >= LoopSteps(after) + 1
  {
    hide Run, Enabled, After, Loose, StreamOk, LeftAlone, LoopSteps, Starved;
    more := after;
    if Starved(Run(discardOnError, before + after).value) {
      Sends(discardOnError, Run(discardOnError, before + after).value);
      more := Longer(discardOnError, before, after, BrokerSends(0));
    }
    StreamInvariant(discardOnError, before + more);
    var step := LooseGoesOn(discardOnError, Run(discardOnError, before + more).value);
    LoopAlone(step);
    more := Longer(discardOnError, before, more, step);
  }

  lemma LoopAlone(step: Step)
    requires LoopStep(step)
    ensures !DrainOrStop(step)
  {
  }

  lemma StreamInvariant(discardOnError: bool, schedule: seq<Step>)
    requires Run(discardOnError, schedule).Some?
    ensures StreamOk(Run(discardOnError, schedule).value)
  {
    hide Run, LedgerOk, ArrivedOk, ShutdownOk, DeathOk, LateOk, StreamOk;
    RunInv(discardOnError, schedule);
  }

  lemma Longer(discardOnError: bool, before: seq<Step>, after: seq<Step>, step: Step) returns (more: seq<Step>)
    requires Run(discardOnError, before + after).Some? && Enabled(Run(discardOnError, before + after).value, step)
    requires LeftAlone(after) && !DrainOrStop(step)
    ensures more == after + [step] && LeftAlone(more)
    ensures Run(discardOnError, before + more)
        == Some(After(discardOnError, Run(discardOnError, before + after).value, step))
    ensures LoopSteps(more) == LoopSteps(after) + if LoopStep(step) then 1 else 0
  {
    hide Run, Enabled, After, DrainOrStop, LoopStep;
    more := after + [step];
    assert more[..|after|] == after;
    assert before + more == before + after + [step];
    Then(discardOnError, before + after, step);
  }

  lemma {:induction false} LooseRunsOn(discardOnError: bool, before: seq<Step>, n: nat) returns (after: seq<Step>)
    requires Run(discardOnError, before).Some? && Loose(Run(discardOnError, before).value)
    ensures Run(discardOnError, before + after).Some? && Loose(Run(discardOnError, before + after).value)
        && LeftAlone(after)
    ensures LoopSteps(after) >= n
    decreases n
  {
    hide Run, Loose, LeftAlone;
    if n == 0 {
      after := [];
      assert before + after == before;
      Unmoved();
    } else {
      after := LooseRunsOn(discardOnError, before, n - 1);
      after := LooseStep(discardOnError, before, after);
    }
  }

  lemma Unmoved()
    ensures LeftAlone([])
  {
  }

  /** The loop takes at most this many more steps, whatever else is scheduled, as long as nothing more is done
      by Drain or Stop. */
  ghost predicate EndsWithin(discardOnError: bool, before: seq<Step>, bound: nat) {
    forall after: seq<Step> :: Run(discardOnError, before + after).Some? && LeftAlone(after) ==>
        LoopSteps(after) <= bound
  }

  /** Once closing is set, and as things then stand with Drain and Stop, the loop comes to its end if and only
      if it is neither on an open stream nor dialing. With LooseOnlyIfMissed: a Drain ends the loop unless a
      dial was under way when it read the channel and has not failed since. */
  lemma LoopEndsIff(discardOnError: bool, before: seq<Step>)
    requires Run(discardOnError, before).Some? && Run(discardOnError, before).value.closing
    ensures (exists bound: nat :: EndsWithin(discardOnError, before, bound))
        <==> !Loose(Run(discardOnError, before).value)
  {
    hide Run, Loose, LeftAlone, Rank;
    var s := Run(discardOnError, before).value;
    if Loose(s) {
      forall bound: nat ensures !EndsWithin(discardOnError, before, bound) {
        var after := LooseRunsOn(discardOnError, before, bound + 1);
      }
    } else {
      forall after: seq<Step> | Run(discardOnError, before + after).Some? && LeftAlone(after)
        ensures LoopSteps(after) <= Rank(s)
      {
        TightRun(discardOnError, before, after);
      }
      assert EndsWithin(discardOnError, before, Rank(s));
    }
  }

  /** And until it has returned it always has a step to take. */
  lemma TightNeverStuck(discardOnError: bool, schedule: seq<Step>) returns (step: Step)
    requires Run(discardOnError, schedule).Some? && !Run(discardOnError, schedule).value.loop.Returned?
    requires Tight(Run(discardOnError, schedule).value)
    ensures LoopStep(step) && Enabled(Run(discardOnError, schedule).value, step)
  {
    hide Run, LedgerOk, ArrivedOk, ShutdownOk, LateOk, StreamOk;
    RunInv(discardOnError, schedule);
    var s := Run(discardOnError, schedule).value;
    step :=
      match s.loop
      case Ranging => if s.buffer == [] then StreamEnds else Take
      case Calling(_) => HandlerEnds(ReturnedNil)
      case Settling(_, _) => Settle
      case StreamOver => ReadClosing
      case Redialing => CloseBroker
      case Pausing => Timer
      case TimerFired => ReadClosingAgain
      case Refused(_) => SetFatal
      case _ => Send;
  }
}
