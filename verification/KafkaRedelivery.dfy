/** What the Kafka consumer lets a client do (kafka/kafka.go:262-285): it takes whatever batches it is
    given, one after the other, wherever they start. So a client that does not go back to a failed record
    makes a run in which that record is lost. */
module KafkaRedelivery {
  import opened KafkaBatch
  import opened KafkaConsumer
  import opened Wrappers
  import B = KafkaBatch
  import C = KafkaConsumer
  import D = KafkaDelivery
  import L = KafkaLoop

  /** At the top of the loop with nothing said about stopping. */
  predicate Idle(c: Consumer) {
    c.loop.loop.AtTop? && !c.loop.shut.closing && !c.loop.shut.pollCancelled && !c.loop.shut.ctxCancelled && c.now.None?
  }

  lemma Then(moves: seq<Move>, m: Move)
    requires C.Run(moves).Some? && CanMove(C.Run(moves).value, m)
    ensures C.Run(moves + [m]) == Some(Moved(C.Run(moves).value, m))
  {
    assert (moves + [m])[..|moves|] == moves;
  }

  /** A batch in hand can be brought to its end. */
  lemma Finishes(moves: seq<Move>) returns (more: seq<Move>)
    requires C.Run(moves).Some? && C.Run(moves).value.now.Some?
    ensures C.Run(more).Some?
    ensures var c, c2 := C.Run(moves).value, C.Run(more).value;
            && c2.now.Some? && c2.now.value.batch == c.now.value.batch && Over(c2.now.value.state)
            && c2 == c.(now := c2.now)
    decreases var w := C.Run(moves).value.now.value;
              if |w.state.workers| == |w.batch.parts| then Measure(w.batch, w.state) else 0
  {
    hide C.Run, B.Inv, L.Inv, B.After, B.Enabled, Measure, WellFormed;
    RunOk(moves);
    var w := C.Run(moves).value.now.value;
    more := moves;
    if !Over(w.state) {
      WorkersCounted(w);
      var step := NeverStuck(w.batch, w.state);
      StepsRunOut(w.batch, w.state, step);
      Then(moves, Goroutine(step));
      more := Finishes(moves + [Goroutine(step)]);
    }
  }

  /** The plain moves from the top of the loop to a batch. */
  lemma Reaches(moves: seq<Move>, b: Batch) returns (more: seq<Move>)
    requires C.Run(moves).Some? && Idle(C.Run(moves).value) && WellFormed(b)
    ensures C.Run(more).Some?
    ensures var c, c2 := C.Run(moves).value, C.Run(more).value;
            && c2.loop.loop.Handling? && !c2.loop.shut.closing && !c2.loop.shut.pollCancelled
                 && !c2.loop.shut.ctxCancelled
            && c2.now == Some(Work(b, Fresh(b, false))) && c2.finished == c.finished
  {
    hide C.Run;
    Then(moves, Plain(L.LoopTop));
    more := moves + [Plain(L.LoopTop)];
    Then(more, Plain(L.PollReturns(L.Fetch(false, []))));
    more := more + [Plain(L.PollReturns(L.Fetch(false, [])))];
    Then(more, Plain(L.TestClosed));
    more := more + [Plain(L.TestClosed)];
    Then(more, Plain(L.TestPollCtx));
    more := more + [Plain(L.TestPollCtx)];
    Then(more, Begin(b));
    more := more + [Begin(b)];
  }

  lemma OneBatch(moves: seq<Move>, b: Batch) returns (more: seq<Move>)
    requires C.Run(moves).Some? && Idle(C.Run(moves).value) && WellFormed(b)
    ensures C.Run(more).Some? && Idle(C.Run(more).value)
    ensures var c, c2 := C.Run(moves).value, C.Run(more).value;
            && |c2.finished| == |c.finished| + 1 && c2.finished[..|c.finished|] == c.finished
            && WentThrough(c2.finished[|c.finished|], b)
  {
    hide C.Run, B.Inv, L.Inv, B.After, B.Enabled, WellFormed;
    more := Reaches(moves, b);
    more := Finishes(more);
    RunOk(more);
    Then(more, Plain(L.BatchOver));
    more := more + [Plain(L.BatchOver)];
  }

  /** The consumer has been through this batch and was not interrupted. */
  ghost predicate WentThrough(w: Work, b: Batch) {
    w.batch == b && WorkOk(w) && Over(w.state) && !w.state.cancelled
  }

  /** For any batches in any order, wherever they start, there is a run of the consumer that goes through
      exactly them and is interrupted by nothing. */
  lemma {:induction false} AnyBatches(bs: seq<Batch>) returns (moves: seq<Move>)
    requires forall k :: 0 <= k < |bs| ==> WellFormed(bs[k])
    ensures C.Run(moves).Some? && Idle(C.Run(moves).value)
    ensures var finished := C.Run(moves).value.finished;
            |finished| == |bs| && forall k :: 0 <= k < |bs| ==> WentThrough(finished[k], bs[k])
    decreases |bs|
  {
    if bs == [] {
      moves := [];
    } else {
      hide C.Run, Idle, WentThrough, WellFormed;
      var n := |bs| - 1;
      var front := AnyBatches(bs[..n]);
      moves := OneBatch(front, bs[n]);
      OneMore(bs, C.Run(front).value.finished, C.Run(moves).value.finished);
    }
  }

  lemma OneMore(bs: seq<Batch>, before: seq<Work>, after: seq<Work>)
    requires |bs| == |after| == |before| + 1 && after[..|before|] == before
    requires forall k :: 0 <= k < |before| ==> WentThrough(before[k], bs[..|before|][k])
    requires WentThrough(after[|before|], bs[|before|])
    ensures forall k :: 0 <= k < |bs| ==> WentThrough(after[k], bs[k])
  {
    hide WentThrough;
    forall k | 0 <= k < |bs| ensures WentThrough(after[k], bs[k]) {
      if k < |before| {
        assert after[k] == after[..|before|][k] == before[k];
      }
    }
  }

  /** A batch of one record of partition 0. */
  function Single(offset: int, out: CallResult): Batch {
    Batch([0], [[Record(0, offset)]], [[out]])
  }

  lemma SinglePoll(w: Work, offset: int, out: CallResult, start: nat)
    requires WentThrough(w, Single(offset, out))
    ensures PollOf(0, w, Reading(Some(0), start, true)) ==
            D.Poll(start, 1, [HandlerCall(Record(0, offset), out)],
                   if Success(out) then [Record(0, offset)] else [], true)
    ensures 0 <= start == offset <= 1 ==> Reads(D.TWO_RECORDS, 0, w, Reading(Some(0), start, true))
  {
    hide B.Inv, Over, Output, Of, Leading, GoodCut;
    OverShowsRuns(w.batch, w.state, 0);
    WorkersCounted(w);
    var calls := w.state.calls[0];
    assert calls == [HandlerCall(Record(0, offset), out)];
    assert calls[..0] == [];
  }

  /** A run of the consumer in which a record whose handler failed is passed over for good: the first batch
      brings it, the second starts behind it, and what the second commits covers it. */
  lemma CarryingOnHappens() returns (moves: seq<Move>, readings: seq<Reading>)
    ensures C.Run(moves).Some? && |readings| == |C.Run(moves).value.finished| == 2
    ensures var finished, log := C.Run(moves).value.finished, D.TWO_RECORDS;
            var polls := Polls(0, finished, readings);
            && (forall k :: 0 <= k < 2 ==> Reads(log, 0, finished[k], readings[k]))
            && polls[1].start == polls[0].start + polls[0].size
            && D.Progressed(log, 0, D.Progress({}, 0), polls).frontier == 2
            && !D.Covered(log, 0, D.Progressed(log, 0, D.Progress({}, 0), polls))
  {
    hide C.Run, Idle, WentThrough, PollOf, D.Progressed, D.Covered, D.Possible, Reads;
    moves := AnyBatches([Single(0, ReturnedError), Single(1, ReturnedNil)]);
    readings := [Reading(Some(0), 0, true), Reading(Some(0), 1, true)];
    var finished := C.Run(moves).value.finished;
    assert WentThrough(finished[0], Single(0, ReturnedError)) && WentThrough(finished[1], Single(1, ReturnedNil));
    SinglePoll(finished[0], 0, ReturnedError, 0);
    SinglePoll(finished[1], 1, ReturnedNil, 1);
    D.CarryingOnLosesARecord();
    assert Polls(0, finished, readings) == [D.FAILED, D.PASSED];
  }
}
