/** At-least-once delivery over any number of polls (kafka/kafka.go:90-98, 262-394).

    One partition is followed through a run. `log` is its records' offsets, increasing but with gaps
    allowed; a poll hands the loop a stretch of it. A record counts as handled when a Handler call on it
    succeeded, and what is committed is what the poll reports; that the two go together is what
    KafkaBatch proves of every batch. What the loop never does is tell the client where to resume, so
    where a poll starts is an input: the theorems say exactly what it has to be. */
module KafkaDelivery {
  import opened KafkaBatch
  import opened Wrappers

  /** One poll: where in the log it starts and how many records it brings, the Handler calls made on them,
      what was handed to commit, and whether the commit went through. */
  datatype Poll = Poll(start: nat, size: nat, calls: seq<HandlerCall>, reported: seq<Record>, commitOk: bool)

  /** The records of the log handled so far, by position, and the group's committed offset. */
  datatype Progress = Progress(handled: set<nat>, frontier: int)

  ghost predicate Increasing(log: seq<int>) {
    forall i, j :: 0 <= i < j < |log| ==> log[i] < log[j]
  }

  /** A stretch of the log of which the Handler was called on the first records in order, nothing after a
      failure, and the calls that succeeded are what is reported. */
  predicate Possible(log: seq<int>, part: int, p: Poll) {
    && p.start + p.size <= |log| && |p.calls| <= p.size
    && (forall k :: 0 <= k < |p.calls| ==> p.calls[k].rec == Record(part, log[p.start + k]))
    && (forall k :: 0 <= k < |p.calls| - 1 ==> Success(p.calls[k].result))
    && p.reported == Done(p.calls)
  }

  /** The positions of the log on which one of the calls succeeded. */
  ghost function HandledBy(log: seq<int>, part: int, calls: seq<HandlerCall>): set<nat> {
    set i: nat | i < |log| && exists c :: c in calls && c.rec == Record(part, log[i]) && Success(c.result)
  }

  /** Committing records moves a partition to just past the last of them. */
  function CommittedOffset(before: int, recs: seq<Record>): int {
    if recs == [] then before else recs[|recs| - 1].offset + 1
  }

  ghost function After(log: seq<int>, part: int, st: Progress, p: Poll): Progress {
    Progress(st.handled + HandledBy(log, part, p.calls),
             if p.commitOk then CommittedOffset(st.frontier, p.reported) else st.frontier)
  }

  /** Every record at or past `base` that the committed offset has left behind was handled. */
  ghost predicate Covered(log: seq<int>, base: nat, st: Progress) {
    forall i :: base <= i < |log| && log[i] < st.frontier ==> i in st.handled
  }

  /** Starting there is starting no later than the first record that has not been handled. */
  ghost predicate Resumes(base: nat, st: Progress, start: nat) {
    forall i :: base <= i < start ==> i in st.handled
  }

  /** The poll moves the committed offset. */
  predicate Moves(p: Poll) {
    p.commitOk && p.reported != []
  }

  ghost predicate AllPossible(log: seq<int>, part: int, polls: seq<Poll>) {
    forall k :: 0 <= k < |polls| ==> Possible(log, part, polls[k])
  }

  ghost function Progressed(log: seq<int>, part: int, start: Progress, polls: seq<Poll>): Progress {
    if polls == [] then start
    else After(log, part, Progressed(log, part, start, polls[..|polls| - 1]), polls[|polls| - 1])
  }

  /** What is reported is the stretch from the start, call by call; at most one call more was made and it
      failed. */
  lemma ReportedAre(log: seq<int>, part: int, p: Poll)
    requires Possible(log, part, p)
    ensures var n := |p.reported|;
            && n <= |p.calls| <= n + 1
            && (forall k :: 0 <= k < n ==>
                 Success(p.calls[k].result) && p.reported[k] == Record(part, log[p.start + k]))
            && (n < |p.calls| ==> !Success(p.calls[n].result))
  {
    if p.calls != [] {
      var last := |p.calls| - 1;
      var n := if Success(p.calls[last].result) then |p.calls| else last;
      var recs := seq(n, k requires 0 <= k < n => p.calls[k].rec);
      assert n < |p.calls| ==> Done(p.calls) == Done(p.calls[..last]);
      assert p.calls[..|p.calls|] == p.calls;
      DoneAll(p.calls[..n], recs);
      assert p.reported == recs;
    }
  }

  /** What a poll handles is what it reports, position by position. */
  lemma HandledIsReported(log: seq<int>, part: int, p: Poll, i: nat)
    requires Increasing(log) && Possible(log, part, p) && i < |log|
    ensures i in HandledBy(log, part, p.calls) <==> p.start <= i < p.start + |p.reported|
  {
    ReportedAre(log, part, p);
    if p.start <= i < p.start + |p.reported| {
      assert p.calls[i - p.start] in p.calls;
    }
    if i in HandledBy(log, part, p.calls) {
      var c :| c in p.calls && c.rec == Record(part, log[i]) && Success(c.result);
      var k :| 0 <= k < |p.calls| && p.calls[k] == c;
      assert log[p.start + k] == log[i];
      assert p.start + k == i;
    }
  }

  /** What a poll commits is the frontier it moves to: every earlier position lies below it, no later one. */
  lemma CommitReaches(log: seq<int>, part: int, st: Progress, p: Poll, i: nat)
    requires Increasing(log) && Possible(log, part, p) && Moves(p) && i < |log|
    ensures log[i] < After(log, part, st, p).frontier <==> i < p.start + |p.reported|
  {
    ReportedAre(log, part, p);
    var last := p.start + |p.reported| - 1;
    assert After(log, part, st, p).frontier == log[last] + 1;
    assert i < last ==> log[i] < log[last];
    assert last < i ==> log[last] < log[i];
  }

  /** One poll: coverage survives exactly when the poll either commits nothing or starts no later than
      the first record that was not handled. */
  lemma PollKeepsCoverage(log: seq<int>, part: int, base: nat, st: Progress, p: Poll)
    requires Increasing(log) && Possible(log, part, p) && Covered(log, base, st)
    ensures Covered(log, base, After(log, part, st, p)) <==> (Moves(p) ==> Resumes(base, st, p.start))
  {
    hide Possible, HandledBy;
    var st2 := After(log, part, st, p);
    forall i: nat | i < |log|
      ensures i in HandledBy(log, part, p.calls) <==> p.start <= i < p.start + |p.reported|
      ensures Moves(p) ==> (log[i] < st2.frontier <==> i < p.start + |p.reported|)
    {
      HandledIsReported(log, part, p, i);
      if Moves(p) {
        CommitReaches(log, part, st, p, i);
      }
    }
    if Moves(p) && Covered(log, base, st2) {
      InLog(log, part, p);
      forall i | base <= i < p.start ensures i in st.handled {
        assert log[i] < st2.frontier;
        assert i in st2.handled;
      }
    }
  }

  lemma InLog(log: seq<int>, part: int, p: Poll)
    requires Possible(log, part, p)
    ensures p.start + p.size <= |log|
  {
  }

  /** The guard a caller can apply before a poll: whatever the Handler then does and however the commit
      ends, a poll that brings something keeps coverage if and only if it starts no later than the first
      unhandled record. */
  lemma SafeStartIff(log: seq<int>, part: int, base: nat, st: Progress, start: nat, size: nat)
    requires Increasing(log) && Covered(log, base, st) && 0 < size && start + size <= |log|
    ensures (forall p: Poll :: Possible(log, part, p) && p.start == start && p.size == size ==>
               Covered(log, base, After(log, part, st, p)))
            <==> Resumes(base, st, start)
  {
    var call := HandlerCall(Record(part, log[start]), ReturnedNil);
    var p := Poll(start, size, [call], [call.rec], true);
    assert Done([call][..0]) == [];
    assert Possible(log, part, p) && Moves(p);
    PollKeepsCoverage(log, part, base, st, p);
    if Resumes(base, st, start) {
      forall q: Poll | Possible(log, part, q) && q.start == start && q.size == size
        ensures Covered(log, base, After(log, part, st, q))
      {
        PollKeepsCoverage(log, part, base, st, q);
      }
    }
  }

  /** At-least-once: for a poller that redelivers, that is whose every poll resumes no later than the
      first unhandled record, everything below the committed offset has been handled, whatever
      handlers fail or panic, whatever is cancelled and whatever commits fail. */
  lemma {:induction false} RedeliveryMeansAtLeastOnce(log: seq<int>, part: int, base: nat, start: Progress,
      polls: seq<Poll>)
    requires Increasing(log) && Covered(log, base, start) && AllPossible(log, part, polls)
    requires forall k :: 0 <= k < |polls| ==> Resumes(base, Progressed(log, part, start, polls[..k]), polls[k].start)
    ensures Covered(log, base, Progressed(log, part, start, polls))
    decreases |polls|
  {
    if polls != [] {
      var n := |polls| - 1;
      forall k | 0 <= k < n ensures polls[..n][..k] == polls[..k] && polls[..n][k] == polls[k] {
      }
      forall k | 0 <= k < n ensures Resumes(base, Progressed(log, part, start, polls[..n][..k]), polls[..n][k].start) {
      }
      RedeliveryMeansAtLeastOnce(log, part, base, start, polls[..n]);
      PollKeepsCoverage(log, part, base, Progressed(log, part, start, polls[..n]), polls[n]);
    }
  }

  ghost predicate AlwaysCovered(log: seq<int>, part: int, base: nat, start: Progress, polls: seq<Poll>)
    requires AllPossible(log, part, polls)
  {
    forall k :: 0 <= k <= |polls| ==> Covered(log, base, Progressed(log, part, start, polls[..k]))
  }

  ghost predicate CommitsOnlyResumed(log: seq<int>, part: int, base: nat, start: Progress, polls: seq<Poll>)
    requires AllPossible(log, part, polls)
  {
    forall k :: 0 <= k < |polls| && Moves(polls[k]) ==>
        Resumes(base, Progressed(log, part, start, polls[..k]), polls[k].start)
  }

  lemma LastPoll(log: seq<int>, part: int, base: nat, start: Progress, polls: seq<Poll>)
    requires polls != [] && AllPossible(log, part, polls)
    ensures var n := |polls| - 1;
            var front := polls[..n];
            && (AlwaysCovered(log, part, base, start, polls) <==>
                  AlwaysCovered(log, part, base, start, front)
                    && Covered(log, base, Progressed(log, part, start, polls)))
            && (CommitsOnlyResumed(log, part, base, start, polls) <==>
                  CommitsOnlyResumed(log, part, base, start, front)
                  && (Moves(polls[n]) ==> Resumes(base, Progressed(log, part, start, front), polls[n].start)))
  {
    hide Progressed, Covered, Resumes, Moves, Possible;
    var n := |polls| - 1;
    var front := polls[..n];
    assert polls[..n + 1] == polls;
    assert forall k :: 0 <= k <= n ==> front[..k] == polls[..k];
    assert forall k :: 0 <= k < n ==> front[k] == polls[k];
    if AlwaysCovered(log, part, base, start, polls) {
      forall k | 0 <= k <= n ensures Covered(log, base, Progressed(log, part, start, front[..k])) {
        assert front[..k] == polls[..k];
      }
      assert Covered(log, base, Progressed(log, part, start, polls[..n + 1]));
    }
    if AlwaysCovered(log, part, base, start, front) && Covered(log, base, Progressed(log, part, start, polls)) {
      forall k | 0 <= k <= |polls| ensures Covered(log, base, Progressed(log, part, start, polls[..k])) {
        if k <= n {
          assert front[..k] == polls[..k];
        }
      }
    }
    if CommitsOnlyResumed(log, part, base, start, polls) {
      forall k | 0 <= k < n && Moves(front[k])
        ensures Resumes(base, Progressed(log, part, start, front[..k]), front[k].start)
      {
        assert front[..k] == polls[..k];
      }
      assert polls[..n] == front;
    }
    if CommitsOnlyResumed(log, part, base, start, front)
       && (Moves(polls[n]) ==> Resumes(base, Progressed(log, part, start, front), polls[n].start))
    {
      forall k | 0 <= k < |polls| && Moves(polls[k])
        ensures Resumes(base, Progressed(log, part, start, polls[..k]), polls[k].start)
      {
        if k < n {
          assert front[..k] == polls[..k] && front[k] == polls[k];
        }
      }
    }
  }

  /** And it is needed: over a whole run, coverage holds after every poll exactly when every poll that
      commits something resumed no later than the first unhandled record. */
  lemma {:induction false} AtLeastOnceIff(log: seq<int>, part: int, base: nat, start: Progress, polls: seq<Poll>)
    requires Increasing(log) && Covered(log, base, start) && AllPossible(log, part, polls)
    ensures AlwaysCovered(log, part, base, start, polls) <==> CommitsOnlyResumed(log, part, base, start, polls)
    decreases |polls|
  {
    if polls == [] {
      assert polls[..0] == [];
      assert Covered(log, base, Progressed(log, part, start, []));
    } else {
      hide AlwaysCovered, CommitsOnlyResumed, Covered, Resumes, Moves, Possible;
      var n := |polls| - 1;
      assert forall k :: 0 <= k < n ==> polls[..n][k] == polls[k];
      AtLeastOnceIff(log, part, base, start, polls[..n]);
      LastPoll(log, part, base, start, polls);
      var mid := Progressed(log, part, start, polls[..n]);
      if AlwaysCovered(log, part, base, start, polls[..n]) {
        CoveredNow(log, part, base, start, polls[..n]);
        PollKeepsCoverage(log, part, base, mid, polls[n]);
      }
    }
  }

  lemma CoveredNow(log: seq<int>, part: int, base: nat, start: Progress, polls: seq<Poll>)
    requires AllPossible(log, part, polls) && AlwaysCovered(log, part, base, start, polls)
    ensures Covered(log, base, Progressed(log, part, start, polls))
  {
    assert polls[..|polls|] == polls;
  }

  /** The first record's handler fails, the second's does not. */
  const FAILED := Poll(0, 1, [HandlerCall(Record(0, 0), ReturnedError)], [], true)
  const PASSED := Poll(1, 1, [HandlerCall(Record(0, 1), ReturnedNil)], [Record(0, 1)], true)
  const TWO_RECORDS := [0, 1]

  lemma BothPossible()
    ensures Increasing(TWO_RECORDS) && Possible(TWO_RECORDS, 0, FAILED) && Possible(TWO_RECORDS, 0, PASSED)
  {
    assert FAILED.calls[..0] == [] && PASSED.calls[..0] == [];
  }

  lemma TwoPolls(log: seq<int>, part: int, start: Progress, p: Poll, q: Poll)
    ensures Progressed(log, part, start, [p, q]) == After(log, part, After(log, part, start, p), q)
  {
    hide After;
    assert [p, q][..1] == [p] && [p][..0] == [];
    assert Progressed(log, part, start, [p]) == After(log, part, start, p);
  }

  /** A client that carries on after what it last returned, as nothing in the loop prevents, commits past
      a record whose handler failed: it was never handled and lies below the committed offset.
      KafkaRedelivery.CarryingOnHappens is a run of the whole consumer that does this. */
  lemma CarryingOnLosesARecord()
    ensures var end := Progressed(TWO_RECORDS, 0, Progress({}, 0), [FAILED, PASSED]);
            && AllPossible(TWO_RECORDS, 0, [FAILED, PASSED]) && PASSED.start == FAILED.start + FAILED.size
            && end.frontier == 2 && 0 !in end.handled && !Covered(TWO_RECORDS, 0, end)
  {
    hide Possible, Progressed, HandledBy;
    BothPossible();
    var mid := After(TWO_RECORDS, 0, Progress({}, 0), FAILED);
    TwoPolls(TWO_RECORDS, 0, Progress({}, 0), FAILED, PASSED);
    HandledIsReported(TWO_RECORDS, 0, FAILED, 0);
    HandledIsReported(TWO_RECORDS, 0, PASSED, 0);
    CommitReaches(TWO_RECORDS, 0, mid, PASSED, 0);
  }

  /** A batch with no entry for the partition. */
  lemma NothingPolled(log: seq<int>, part: int)
    ensures Possible(log, part, Poll(0, 0, [], [], false))
  {
  }

  /** One goroutine's run of a stretch of the log is a poll that can be. */
  lemma RunGivesPoll(log: seq<int>, part: int, recs: seq<Record>, outs: seq<CallResult>, calls: seq<HandlerCall>,
                     n: nat, mayCut: bool, start: nat, commitOk: bool)
    requires PartitionRun(recs, outs, calls, n, mayCut) && start + |recs| <= |log|
    requires forall i :: 0 <= i < |recs| ==> recs[i] == Record(part, log[start + i])
    ensures Possible(log, part, Poll(start, |recs|, calls, Done(calls), commitOk))
  {
    hide Done;
    assert forall k :: 0 <= k < |calls| - 1 ==> calls[..n][k] == calls[k];
  }

  /** The link to the batch: the calls one goroutine of a finished batch made, with what the batch
      committed of its partition, are one poll that can be. */
  lemma BatchGivesPoll(log: seq<int>, start: nat, b: Batch, schedule: seq<Step>, p: nat, commitOk: bool)
    requires WellFormed(b) && Run(b, schedule).Some? && Over(Run(b, schedule).value) && p < |b.parts|
    requires start + |b.parts[p]| <= |log|
    requires forall i :: 0 <= i < |b.parts[p]| ==> b.parts[p][i].offset == log[start + i]
    ensures var s := Run(b, schedule).value;
            Possible(log, b.labels[p], Poll(start, |b.parts[p]|, s.calls[p], Of(Output(s), b.labels[p]), commitOk))
  {
    hide Run, Over, Output, Of, Leading, Done, PartitionRun, Inv;
    RunInv(b, schedule);
    var s := Run(b, schedule).value;
    OverShowsRuns(b, s, p);
    RunGivesPoll(log, b.labels[p], b.parts[p], b.outs[p], s.calls[p], s.workers[p].n, s.cancelled, start, commitOk);
  }
}
