/** One poll of the Kafka consumer: handleBatch and handlePartition (kafka/kafka.go:309-394).

    The goroutines are steps of one machine and a schedule is any sequence of enabled steps. The
    append to the shared slice is a read and a write of its own, so it is the mutex that keeps two
    of them from losing records. What each Handler call will come to is fixed per record in `Batch`
    (a panic counts as a failure); the theorems hold for every such table. */
module KafkaBatch {
  import opened Wrappers

  datatype Record = Record(partition: int, offset: int)

  // -------------------------------------------------------- handlePartition

  /** The length of the leading run of successes. */
  function Leading(outs: seq<CallResult>): (n: nat)
    ensures n <= |outs|
    ensures forall i :: 0 <= i < n ==> outs[i] == ReturnedNil
    ensures n < |outs| ==> outs[n] != ReturnedNil
  {
    if outs == [] || !Success(outs[0]) then 0 else 1 + Leading(outs[1..])
  }

  /** One call of the Handler: the record it was given and what the call came to. */
  datatype HandlerCall = HandlerCall(rec: Record, result: CallResult)

  /** The Handler was called on the first records in order, each once. */
  predicate Called(recs: seq<Record>, outs: seq<CallResult>, calls: seq<HandlerCall>) {
    && |calls| <= |recs| == |outs|
    && forall k :: 0 <= k < |calls| ==> calls[k] == HandlerCall(recs[k], outs[k])
  }

  predicate AllSucceeded(calls: seq<HandlerCall>) {
    forall k :: 0 <= k < |calls| ==> Success(calls[k].result)
  }

  /** The records of the calls that succeeded. */
  function Done(calls: seq<HandlerCall>): seq<Record> {
    if calls == [] then []
    else
      var last := calls[|calls| - 1];
      Done(calls[..|calls| - 1]) + if Success(last.result) then [last.rec] else []
  }

  /** What one partition's goroutine may do: the calls it made and the length of the run it reports. It
      reports the calls that succeeded; the last call may have failed and then nothing follows it; and if
      none failed it stopped at the end, or after a call if ctx was cancelled. */
  predicate PartitionRun(recs: seq<Record>, outs: seq<CallResult>, calls: seq<HandlerCall>, n: nat, mayCut: bool) {
    && Called(recs, outs, calls)
    && n <= |calls| <= n + 1 && AllSucceeded(calls[..n])
    && (|calls| == n + 1 ==> !Success(calls[n].result))
    && (|calls| == n ==> n == |recs| || (n > 0 && mayCut))
  }

  /** n is the leading run of successes, or as much of it as was done when ctx was cancelled. */
  predicate GoodCut(outs: seq<CallResult>, n: nat, cancelled: bool) {
    n <= Leading(outs) && (n == Leading(outs) || cancelled)
  }

  lemma {:induction false} LeadingIs(outs: seq<CallResult>, n: nat)
    requires n <= |outs| && (forall k :: 0 <= k < n ==> Success(outs[k])) && (n < |outs| ==> !Success(outs[n]))
    ensures Leading(outs) == n
    decreases n
  {
    if n > 0 {
      LeadingIs(outs[1..], n - 1);
    }
  }

  lemma {:induction false} DoneAll(calls: seq<HandlerCall>, recs: seq<Record>)
    requires |calls| == |recs| && AllSucceeded(calls) && forall k :: 0 <= k < |calls| ==> calls[k].rec == recs[k]
    ensures Done(calls) == recs
    decreases |calls|
  {
    if calls != [] {
      DoneAll(calls[..|calls| - 1], recs[..|recs| - 1]);
    }
  }

  /** The run a goroutine reports is exactly its successful calls, and it is the leading run of successes,
      cut only if it may be. */
  lemma ReportIsSuccesses(recs: seq<Record>, outs: seq<CallResult>, calls: seq<HandlerCall>, n: nat, mayCut: bool)
    requires PartitionRun(recs, outs, calls, n, mayCut)
    ensures n <= |recs| && Done(calls) == recs[..n]
    ensures GoodCut(outs, n, mayCut)
  {
    DoneAll(calls[..n], recs[..n]);
    assert calls[..|calls|] == calls;
    assert forall k :: 0 <= k < n ==> calls[..n][k].result == outs[k];
    if n == |recs| || |calls| == n + 1 {
      LeadingIs(outs, n);
    }
  }

  /** Runs the records in order. `outs` is what each call comes to and `cancelled` what ctx.Err shows
      after it. The goroutine that runs it makes these calls and reports `ok`, which is cut short only by
      a cancelled ctx, and then right after the call that saw it. */
  method HandlePartition(recs: seq<Record>, outs: seq<CallResult>, cancelled: seq<bool>)
    returns (ok: seq<Record>, calls: seq<HandlerCall>)
    requires |recs| == |outs| == |cancelled|
    ensures ok <= recs && PartitionRun(recs, outs, calls, |ok|, ok != [] && cancelled[|ok| - 1])
    ensures ok == Done(calls)
    ensures forall i :: 0 <= i < |ok| - 1 ==> !cancelled[i]
  {
    calls := [];
    for i := 0 to |recs|
      invariant |calls| == i && Called(recs, outs, calls) && AllSucceeded(calls)
      invariant forall j :: 0 <= j < i ==> !cancelled[j]
    {
      calls := calls + [HandlerCall(recs[i], outs[i])];
      if !Success(outs[i]) {
        ReportIsSuccesses(recs, outs, calls, i, false);
        return recs[..i], calls;
      }
      if cancelled[i] {
        ReportIsSuccesses(recs, outs, calls, i + 1, true);
        return recs[..i + 1], calls;
      }
    }
    ReportIsSuccesses(recs, outs, calls, |recs|, false);
    assert recs[..|recs|] == recs;
    return recs, calls;
  }

  // ------------------------------------------------------------ the machine

  /** One poll's entries: each partition's records, and what the Handler makes of each. */
  datatype Batch = Batch(labels: seq<int>, parts: seq<seq<Record>>, outs: seq<seq<CallResult>>)

  /** One entry per partition, each holding that partition's records. */
  ghost predicate WellFormed(b: Batch) {
    && |b.labels| == |b.parts| == |b.outs|
    && (forall p :: 0 <= p < |b.parts| ==> |b.outs[p]| == |b.parts[p]|)
    && (forall p, i :: 0 <= p < |b.parts| && 0 <= i < |b.parts[p]| ==> b.parts[p][i].partition == b.labels[p])
    && (forall p, q :: 0 <= p < q < |b.labels| ==> b.labels[p] != b.labels[q])
  }

  /** Where one partition's goroutine stands. n is the length of the run it reports. */
  datatype Worker =
    | Idle
    | Calling(i: nat)
    | Checking(i: nat)
    | Reporting(n: nat)
    | Holding(n: nat)
    | HasRead(n: nat, copy: seq<Record>)
    | HasWritten(n: nat)
    | Leaving(n: nat)
    | Gone(n: nat)

  datatype Main = Spawning(next: nat) | Waiting | Committed(records: seq<Record>) | NothingDone

  /** `calls` holds the Handler calls each goroutine has made, in order, and `appended` remembers which
      goroutines wrote to `done`, in order. */
  datatype State = State(main: Main, workers: seq<Worker>, calls: seq<seq<HandlerCall>>, holder: Option<nat>,
                         done: seq<Record>, wg: int, cancelled: bool, appended: seq<nat>)

  datatype Step =
    | Spawn | Call(p: nat) | CheckCtx(p: nat) | Lock(p: nat) | Read(p: nat) | Write(p: nat) | Unlock(p: nat)
    | Leave(p: nat) | WaitOver | Cancel

  function Init(b: Batch): State {
    State(Spawning(0), seq(|b.parts|, p => Idle), seq(|b.parts|, p => []), None, [], 0, false, [])
  }

  predicate Enabled(b: Batch, s: State, step: Step)
    requires WellFormed(b) && |s.workers| == |s.calls| == |b.parts|
  {
    match step
    case Spawn => s.main.Spawning?
    case Call(p) => p < |b.parts| && s.workers[p].Calling? && s.workers[p].i < |b.parts[p]|
    case CheckCtx(p) => p < |b.parts| && s.workers[p].Checking?
    case Lock(p) => p < |b.parts| && s.workers[p].Reporting? && s.workers[p].n > 0 && s.holder == None
    case Read(p) => p < |b.parts| && s.workers[p].Holding?
    case Write(p) => p < |b.parts| && s.workers[p].HasRead? && s.workers[p].n <= |b.parts[p]|
    case Unlock(p) => p < |b.parts| && s.workers[p].HasWritten?
    case Leave(p) => p < |b.parts| && (s.workers[p].Leaving? || (s.workers[p].Reporting? && s.workers[p].n == 0))
    case WaitOver => s.main.Waiting? && s.wg == 0
    case Cancel => !s.cancelled
  }

  function After(b: Batch, s: State, step: Step): (s2: State)
    requires WellFormed(b) && |s.workers| == |s.calls| == |b.parts| && Enabled(b, s, step)
    ensures |s2.workers| == |s2.calls| == |b.parts|
  {
    match step
    case Spawn =>
      var k := s.main.next;
      if k >= |b.parts| then s.(main := Waiting)
      else if b.parts[k] == [] then s.(main := Spawning(k + 1), workers := s.workers[k := Gone(0)])
      else s.(main := Spawning(k + 1), workers := s.workers[k := Calling(0)], wg := s.wg + 1)
    case Call(p) =>
      var i := s.workers[p].i;
      s.(workers := s.workers[p := if Success(b.outs[p][i]) then Checking(i) else Reporting(i)],
         calls := s.calls[p := s.calls[p] + [HandlerCall(b.parts[p][i], b.outs[p][i])]])
    case CheckCtx(p) =>
      var i := s.workers[p].i;
      s.(workers := s.workers[p := if s.cancelled || i + 1 >= |b.parts[p]| then Reporting(i + 1) else Calling(i + 1)])
    case Lock(p) => s.(workers := s.workers[p := Holding(s.workers[p].n)], holder := Some(p))
    case Read(p) => s.(workers := s.workers[p := HasRead(s.workers[p].n, s.done)])
    case Write(p) =>
      var n := s.workers[p].n;
      s.(workers := s.workers[p := HasWritten(n)],
         done := s.workers[p].copy + b.parts[p][..n],
         appended := s.appended + [p])
    case Unlock(p) => s.(workers := s.workers[p := Leaving(s.workers[p].n)], holder := None)
    case Leave(p) => s.(workers := s.workers[p := Gone(s.workers[p].n)], wg := s.wg - 1)
    case WaitOver => s.(main := if s.done == [] then NothingDone else Committed(s.done))
    case Cancel => s.(cancelled := true)
  }

  /** The state after a schedule, if every step of it was enabled. */
  ghost function Run(b: Batch, schedule: seq<Step>): (r: Option<State>)
    requires WellFormed(b)
    ensures r.Some? ==> |r.value.workers| == |r.value.calls| == |b.parts|
  {
    if schedule == [] then Some(Init(b))
    else
      var before := Run(b, schedule[..|schedule| - 1]);
      var step := schedule[|schedule| - 1];
      if before.Some? && Enabled(b, before.value, step) then Some(After(b, before.value, step)) else None
  }

  // --------------------------------------------------------------- invariant

  predicate Live(w: Worker) {
    !w.Idle? && !w.Gone?
  }

  function CountLive(ws: seq<Worker>): nat {
    if ws == [] then 0 else CountLive(ws[1..]) + if Live(ws[0]) then 1 else 0
  }

  predicate Locked(w: Worker) {
    w.Holding? || w.HasRead? || w.HasWritten?
  }

  predicate Wrote(w: Worker) {
    (w.HasWritten? || w.Leaving? || w.Gone?) && w.n > 0
  }

  /** The report of goroutine p is a run of its partition, made of the calls it made. */
  ghost predicate ReportOk(b: Batch, s: State, p: nat, n: nat)
    requires WellFormed(b) && |s.workers| == |s.calls| == |b.parts| && p < |b.parts|
  {
    PartitionRun(b.parts[p], b.outs[p], s.calls[p], n, s.cancelled)
  }

  /** What goroutine p has called so far, and that every call succeeded. */
  ghost predicate CallsOk(b: Batch, s: State, p: nat, made: nat)
    requires WellFormed(b) && |s.workers| == |s.calls| == |b.parts| && p < |b.parts|
  {
    |s.calls[p]| == made && Called(b.parts[p], b.outs[p], s.calls[p]) && AllSucceeded(s.calls[p])
  }

  ghost predicate WorkerOk(b: Batch, s: State, p: nat)
    requires WellFormed(b) && |s.workers| == |s.calls| == |b.parts| && p < |b.parts|
  {
    match s.workers[p]
    case Idle => s.main.Spawning? && s.main.next <= p && s.calls[p] == []
    case Calling(i) => i < |b.parts[p]| && CallsOk(b, s, p, i)
    case Checking(i) => CallsOk(b, s, p, i + 1)
    case HasRead(n, copy) => n > 0 && ReportOk(b, s, p, n) && copy == s.done
    case Holding(n) => n > 0 && ReportOk(b, s, p, n)
    case HasWritten(n) => n > 0 && ReportOk(b, s, p, n)
    case Leaving(n) => n > 0 && ReportOk(b, s, p, n)
    case Reporting(n) => ReportOk(b, s, p, n)
    case Gone(n) => ReportOk(b, s, p, n)
  }

  /** The runs of the goroutines of `order`, one after the other. */
  ghost function Concat(b: Batch, ws: seq<Worker>, order: seq<nat>): seq<Record>
    requires |ws| == |b.parts|
  {
    if order == [] then []
    else Concat(b, ws, order[..|order| - 1]) + RunOf(b, ws, order[|order| - 1])
  }

  ghost function RunOf(b: Batch, ws: seq<Worker>, p: nat): seq<Record>
    requires |ws| == |b.parts|
  {
    if p < |ws| && Wrote(ws[p]) && ws[p].n <= |b.parts[p]| then b.parts[p][..ws[p].n] else []
  }

  ghost predicate WorkersOk(b: Batch, s: State)
    requires WellFormed(b) && |s.workers| == |s.calls| == |b.parts|
  {
    && (forall p :: 0 <= p < |b.parts| ==> WorkerOk(b, s, p))
    && (s.main.Spawning? ==> s.main.next <= |b.parts|
                             && forall p :: s.main.next <= p < |b.parts| ==> s.workers[p].Idle?)
  }

  /** The mutex: held by exactly the goroutine that is between Lock and Unlock. */
  ghost predicate MutexOk(s: State) {
    && (s.holder.Some? ==> s.holder.value < |s.workers|)
    && forall p :: 0 <= p < |s.workers| ==> (Locked(s.workers[p]) <==> s.holder == Some(p))
  }

  /** The ledger: `done` is the runs of the goroutines that wrote, each once, in the order they wrote. */
  ghost predicate LedgerOk(b: Batch, s: State)
    requires |s.workers| == |b.parts|
  {
    && (forall p :: 0 <= p < |b.parts| ==> (Wrote(s.workers[p]) <==> p in s.appended))
    && (forall i :: 0 <= i < |s.appended| ==> s.appended[i] < |b.parts|)
    && (forall i, j :: 0 <= i < j < |s.appended| ==> s.appended[i] != s.appended[j])
    && s.done == Concat(b, s.workers, s.appended)
  }

  ghost predicate MainOk(s: State) {
    s.main.Committed? || s.main.NothingDone? ==>
      && (forall p :: 0 <= p < |s.workers| ==> s.workers[p].Gone?)
      && (s.main.Committed? ==> s.main.records == s.done && s.done != [])
      && (s.main.NothingDone? ==> s.done == [])
  }

  ghost predicate Inv(b: Batch, s: State)
    requires WellFormed(b)
  {
    && |s.workers| == |s.calls| == |b.parts|
    && WorkersOk(b, s)
    && s.wg == CountLive(s.workers)
    && MutexOk(s)
    && LedgerOk(b, s)
    && MainOk(s)
  }

  lemma {:induction false} CountUpdate(ws: seq<Worker>, p: nat, w: Worker)
    requires p < |ws|
    ensures CountLive(ws[p := w]) == CountLive(ws) - (if Live(ws[p]) then 1 else 0) + (if Live(w) then 1 else 0)
    decreases |ws|
  {
    if p == 0 {
      assert ws[p := w][1..] == ws[1..];
    } else {
      assert ws[p := w][1..] == ws[1..][p - 1 := w];
      CountUpdate(ws[1..], p - 1, w);
    }
  }

  lemma {:induction false} CountZero(ws: seq<Worker>)
    ensures CountLive(ws) == 0 <==> forall p :: 0 <= p < |ws| ==> !Live(ws[p])
    decreases |ws|
  {
    if ws != [] {
      CountZero(ws[1..]);
      assert forall p :: 1 <= p < |ws| ==> ws[p] == ws[1..][p - 1];
      assert forall p :: 0 <= p < |ws| - 1 ==> ws[1..][p] == ws[p + 1];
    }
  }

  /** Goroutines outside `order` do not enter into its runs. */
  lemma {:induction false} ConcatUntouched(b: Batch, ws: seq<Worker>, ws2: seq<Worker>, order: seq<nat>)
    requires |ws| == |ws2| == |b.parts|
    requires forall i :: 0 <= i < |order| ==> RunOf(b, ws, order[i]) == RunOf(b, ws2, order[i])
    ensures Concat(b, ws, order) == Concat(b, ws2, order)
    decreases |order|
  {
    if order != [] {
      ConcatUntouched(b, ws, ws2, order[..|order| - 1]);
    }
  }

  lemma InitInv(b: Batch)
    requires WellFormed(b)
    ensures Inv(b, Init(b))
  {
    CountZero(Init(b).workers);
  }

  lemma SameLedger(b: Batch, s: State, s2: State)
    requires |s.workers| == |s2.workers| == |b.parts| && LedgerOk(b, s)
    requires s2.done == s.done && s2.appended == s.appended
    requires forall p :: 0 <= p < |b.parts| ==> (Wrote(s2.workers[p]) <==> Wrote(s.workers[p]))
    requires forall p :: 0 <= p < |b.parts| && Wrote(s.workers[p]) && Wrote(s2.workers[p]) ==>
        s2.workers[p].n == s.workers[p].n
    ensures LedgerOk(b, s2)
  {
    ConcatUntouched(b, s.workers, s2.workers, s.appended);
  }

  /** A step of one goroutine that leaves main alone. */
  ghost predicate StepOf(b: Batch, s: State, step: Step, p: nat) {
    WellFormed(b) && |s.workers| == |s.calls| == |b.parts| && p < |b.parts| && Enabled(b, s, step)
    && (step == Call(p) || step == CheckCtx(p) || step == Lock(p) || step == Read(p) || step == Write(p)
        || step == Unlock(p) || step == Leave(p))
  }

  /** The goroutine that takes the step. */
  lemma StepOwn(b: Batch, s: State, step: Step, p: nat)
    requires StepOf(b, s, step, p) && WorkerOk(b, s, p)
    ensures WorkerOk(b, After(b, s, step), p)
  {
    if step.Call? || step.CheckCtx? {
      CallOwn(b, s, step, p);
    } else {
      hide PartitionRun, Called, AllSucceeded;
      match step
      case Lock(_) =>
      case Read(_) =>
      case Write(_) =>
      case Unlock(_) =>
      case Leave(_) =>
    }
  }

  lemma CallOwn(b: Batch, s: State, step: Step, p: nat)
    requires StepOf(b, s, step, p) && WorkerOk(b, s, p) && (step.Call? || step.CheckCtx?)
    ensures WorkerOk(b, After(b, s, step), p)
  {
    match step
    case Call(_) =>
    case CheckCtx(_) =>
  }

  /** The others: only what is shared could matter to them, and only the holder's copy depends on it. */
  lemma StepOther(b: Batch, s: State, step: Step, p: nat, q: nat)
    requires StepOf(b, s, step, p) && q < |b.parts| && p != q && WorkerOk(b, s, q)
    requires Locked(s.workers[p]) ==> !Locked(s.workers[q])
    ensures WorkerOk(b, After(b, s, step), q)
  {
    hide PartitionRun, Called, AllSucceeded;
    var s2 := After(b, s, step);
    assert s2.workers[q] == s.workers[q] && s2.calls[q] == s.calls[q] && s2.cancelled == s.cancelled
        && s2.main == s.main;
    assert s2.done == s.done || Locked(s.workers[p]);
  }

  lemma StepWorkers(b: Batch, s: State, step: Step, p: nat)
    requires StepOf(b, s, step, p) && WorkersOk(b, s) && MutexOk(s)
    ensures WorkersOk(b, After(b, s, step))
  {
    hide WorkerOk, After;
    assert forall q :: 0 <= q < |b.parts| ==> WorkerOk(b, s, q);
    StepOwn(b, s, step, p);
    forall q | 0 <= q < |b.parts| && q != p ensures WorkerOk(b, After(b, s, step), q) {
      assert Locked(s.workers[p]) <==> s.holder == Some(p);
      assert Locked(s.workers[q]) <==> s.holder == Some(q);
      StepOther(b, s, step, p, q);
    }
    StepKeepsMain(b, s, step, p);
  }

  lemma StepKeepsMain(b: Batch, s: State, step: Step, p: nat)
    requires StepOf(b, s, step, p)
    ensures var s2 := After(b, s, step);
            && s2.main == s.main
            && forall q :: 0 <= q < |b.parts| && q != p ==> s2.workers[q] == s.workers[q]
    ensures !s.workers[p].Idle?
  {
  }

  lemma StepMutex(b: Batch, s: State, step: Step, p: nat)
    requires StepOf(b, s, step, p) && WorkersOk(b, s) && MutexOk(s)
    ensures MutexOk(After(b, s, step))
  {
    hide Concat, CountLive, LedgerOk, WorkerOk;
    assert Locked(s.workers[p]) <==> s.holder == Some(p);
  }

  lemma WriteEffect(b: Batch, s: State, p: nat)
    requires WellFormed(b) && |s.workers| == |s.calls| == |b.parts| && Enabled(b, s, Write(p)) && WorkerOk(b, s, p)
    ensures p < |b.parts| && s.workers[p].HasRead? && After(b, s, Write(p)).workers[p] == HasWritten(s.workers[p].n)
    ensures var s2, n := After(b, s, Write(p)), s.workers[p].n;
            && !Wrote(s.workers[p]) && s2.workers == s.workers[p := HasWritten(n)] && 0 < n <= |b.parts[p]|
            && s2.appended == s.appended + [p] && s2.done == s.done + b.parts[p][..n]
  {
    hide Called, AllSucceeded;
  }

  /** One more goroutine at the end of the order adds its run at the end. */
  lemma ConcatGrows(b: Batch, ws: seq<Worker>, ws2: seq<Worker>, order: seq<nat>, p: nat)
    requires |ws| == |ws2| == |b.parts| && p !in order && p < |ws|
    requires ws2 == ws[p := ws2[p]]
    ensures Concat(b, ws2, order + [p]) == Concat(b, ws, order) + RunOf(b, ws2, p)
  {
    assert (order + [p])[..|order|] == order;
    forall i | 0 <= i < |order| ensures RunOf(b, ws, order[i]) == RunOf(b, ws2, order[i]) {
      assert order[i] != p;
    }
    ConcatUntouched(b, ws, ws2, order);
  }

  lemma WriteLedger(b: Batch, s: State, p: nat)
    requires WellFormed(b) && |s.workers| == |s.calls| == |b.parts| && Enabled(b, s, Write(p)) && WorkerOk(b, s, p)
        && LedgerOk(b, s)
    ensures LedgerOk(b, After(b, s, Write(p)))
  {
    hide CountLive, WellFormed, WorkerOk, After, Enabled, Concat;
    WriteEffect(b, s, p);
    var s2 := After(b, s, Write(p));
    assert p !in s.appended;
    ConcatGrows(b, s.workers, s2.workers, s.appended, p);
    assert RunOf(b, s2.workers, p) == b.parts[p][..s.workers[p].n];
  }

  lemma StepLedger(b: Batch, s: State, step: Step, p: nat)
    requires StepOf(b, s, step, p) && WorkerOk(b, s, p) && LedgerOk(b, s)
    ensures LedgerOk(b, After(b, s, step))
  {
    hide CountLive, Concat;
    if step.Write? {
      WriteLedger(b, s, p);
    } else {
      SameLedger(b, s, After(b, s, step));
    }
  }

  lemma WorkerAt(b: Batch, s: State, p: nat)
    requires WellFormed(b) && |s.workers| == |s.calls| == |b.parts| && p < |b.parts| && WorkersOk(b, s)
    ensures WorkerOk(b, s, p)
  {
  }

  lemma GoroutineInv(b: Batch, s: State, step: Step, p: nat)
    requires StepOf(b, s, step, p) && Inv(b, s)
    ensures Inv(b, After(b, s, step))
  {
    hide Concat, LedgerOk, WorkersOk, MutexOk;
    var s2 := After(b, s, step);
    CountUpdate(s.workers, p, s2.workers[p]);
    StepWorkers(b, s, step, p);
    StepMutex(b, s, step, p);
    assert WorkerOk(b, s, p) by {
      WorkerAt(b, s, p);
    }
    StepLedger(b, s, step, p);
  }

  lemma SpawnWorkers(b: Batch, s: State)
    requires WellFormed(b) && |s.workers| == |s.calls| == |b.parts| && WorkersOk(b, s) && Enabled(b, s, Spawn)
    ensures WorkersOk(b, After(b, s, Spawn))
  {
    hide Concat, CountLive, LedgerOk;
    var s2 := After(b, s, Spawn);
    forall q | 0 <= q < |b.parts| ensures WorkerOk(b, s2, q) {
      assert WorkerOk(b, s, q);
    }
  }

  /** The goroutine that is started, if one is, neither holds the mutex nor has written. */
  lemma SpawnRest(b: Batch, s: State)
    requires WellFormed(b) && |s.workers| == |s.calls| == |b.parts| && Enabled(b, s, Spawn)
    requires s.main.next < |b.parts| ==> s.workers[s.main.next].Idle?
    requires MutexOk(s) && LedgerOk(b, s)
    ensures MutexOk(After(b, s, Spawn)) && LedgerOk(b, After(b, s, Spawn))
  {
    hide Concat, LedgerOk;
    SameLedger(b, s, After(b, s, Spawn));
  }

  lemma SpawnInv(b: Batch, s: State)
    requires WellFormed(b) && Inv(b, s) && Enabled(b, s, Spawn)
    ensures Inv(b, After(b, s, Spawn))
  {
    hide Concat, WorkersOk, MutexOk, LedgerOk, WorkerOk;
    var s2 := After(b, s, Spawn);
    SpawnWorkers(b, s);
    if s.main.next < |b.parts| {
      NextIsIdle(b, s);
      CountUpdate(s.workers, s.main.next, s2.workers[s.main.next]);
    }
    SpawnRest(b, s);
  }

  lemma NextIsIdle(b: Batch, s: State)
    requires WellFormed(b) && |s.workers| == |s.calls| == |b.parts| && WorkersOk(b, s)
    requires s.main.Spawning? && s.main.next < |b.parts|
    ensures s.workers[s.main.next].Idle?
  {
    hide WorkerOk;
  }

  lemma WaitOverInv(b: Batch, s: State)
    requires WellFormed(b) && Inv(b, s) && Enabled(b, s, WaitOver)
    ensures Inv(b, After(b, s, WaitOver))
  {
    var s2 := After(b, s, WaitOver);
    CountZero(s.workers);
    forall q | 0 <= q < |b.parts| ensures s.workers[q].Gone? && WorkerOk(b, s2, q) {
      assert WorkerOk(b, s, q) && !Live(s.workers[q]);
    }
    SameLedger(b, s, s2);
  }

  lemma CancelInv(b: Batch, s: State)
    requires WellFormed(b) && Inv(b, s) && Enabled(b, s, Cancel)
    ensures Inv(b, After(b, s, Cancel))
  {
    var s2 := After(b, s, Cancel);
    forall q | 0 <= q < |b.parts| ensures WorkerOk(b, s2, q) {
      assert WorkerOk(b, s, q);
    }
    SameLedger(b, s, s2);
  }

  /** Every step keeps the invariant. */
  lemma StepInv(b: Batch, s: State, step: Step)
    requires WellFormed(b) && Inv(b, s) && Enabled(b, s, step)
    ensures Inv(b, After(b, s, step))
  {
    match step
    case Spawn => SpawnInv(b, s);
    case WaitOver => WaitOverInv(b, s);
    case Cancel => CancelInv(b, s);
    case _ => GoroutineInv(b, s, step, step.p);
  }

  lemma {:induction false} RunInv(b: Batch, schedule: seq<Step>)
    requires WellFormed(b) && Run(b, schedule).Some?
    ensures Inv(b, Run(b, schedule).value)
    decreases |schedule|
  {
    if schedule == [] {
      InitInv(b);
    } else {
      RunInv(b, schedule[..|schedule| - 1]);
      StepInv(b, Run(b, schedule[..|schedule| - 1]).value, schedule[|schedule| - 1]);
    }
  }

  // ------------------------------------------------------- what is committed

  /** The records of one partition, in the order they appear. */
  function Of(recs: seq<Record>, part: int): seq<Record> {
    if recs == [] then []
    else
      var last := recs[|recs| - 1];
      Of(recs[..|recs| - 1], part) + if last.partition == part then [last] else []
  }

  lemma {:induction false} OfAll(recs: seq<Record>, part: int, own: int)
    requires forall i :: 0 <= i < |recs| ==> recs[i].partition == own
    ensures Of(recs, part) == if part == own then recs else []
    decreases |recs|
  {
    if recs != [] {
      OfAll(recs[..|recs| - 1], part, own);
    }
  }

  lemma {:induction false} OfAppend(xs: seq<Record>, ys: seq<Record>, part: int)
    ensures Of(xs + ys, part) == Of(xs, part) + Of(ys, part)
    decreases |ys|
  {
    if ys == [] {
      assert xs + ys == xs;
    } else {
      assert (xs + ys)[..|xs + ys| - 1] == xs + ys[..|ys| - 1];
      OfAppend(xs, ys[..|ys| - 1], part);
    }
  }

  lemma RunOfLabelled(b: Batch, ws: seq<Worker>, q: nat, part: int)
    requires WellFormed(b) && |ws| == |b.parts| && q < |b.parts|
    ensures Of(RunOf(b, ws, q), part) == if part == b.labels[q] then RunOf(b, ws, q) else []
  {
    OfAll(RunOf(b, ws, q), part, b.labels[q]);
  }

  lemma LastOf(order: seq<nat>, p: nat)
    requires order != []
    requires forall i, j :: 0 <= i < j < |order| ==> order[i] != order[j]
    ensures p in order <==> p in order[..|order| - 1] || p == order[|order| - 1]
    ensures p == order[|order| - 1] ==> p !in order[..|order| - 1]
  {
    assert order == order[..|order| - 1] + [order[|order| - 1]];
  }

  /** In the concatenation each partition that wrote shows its own run and no more. */
  lemma {:induction false} OfConcat(b: Batch, ws: seq<Worker>, order: seq<nat>, p: nat)
    requires WellFormed(b) && |ws| == |b.parts| && p < |b.parts|
    requires forall i :: 0 <= i < |order| ==> order[i] < |b.parts|
    requires forall i, j :: 0 <= i < j < |order| ==> order[i] != order[j]
    ensures Of(Concat(b, ws, order), b.labels[p]) == if p in order then RunOf(b, ws, p) else []
    decreases |order|
  {
    if order != [] {
      var front, q := order[..|order| - 1], order[|order| - 1];
      OfConcat(b, ws, front, p);
      OfAppend(Concat(b, ws, front), RunOf(b, ws, q), b.labels[p]);
      RunOfLabelled(b, ws, q, b.labels[p]);
      LastOf(order, p);
    }
  }

  lemma {:induction false} ConcatLabels(b: Batch, ws: seq<Worker>, order: seq<nat>)
    requires WellFormed(b) && |ws| == |b.parts|
    ensures forall r :: r in Concat(b, ws, order) ==> r.partition in b.labels
    decreases |order|
  {
    if order != [] {
      ConcatLabels(b, ws, order[..|order| - 1]);
      var q := order[|order| - 1];
      forall r | r in RunOf(b, ws, q) ensures r.partition in b.labels {
        assert r in b.parts[q][..ws[q].n];
        assert r in b.parts[q];
        assert b.labels[q] in b.labels;
      }
    }
  }

  predicate Over(s: State) {
    s.main.Committed? || s.main.NothingDone?
  }

  /** What the batch handed to commit; nothing at all when no record succeeded. */
  function Output(s: State): seq<Record> {
    if s.main.Committed? then s.main.records else []
  }

  /** A batch that is over shows, for each partition, the run its goroutine reported. */
  lemma OverShowsRuns(b: Batch, s: State, p: nat)
    requires WellFormed(b) && Inv(b, s) && Over(s) && p < |b.parts|
    ensures s.workers[p].Gone? && GoodCut(b.outs[p], s.workers[p].n, s.cancelled)
    ensures PartitionRun(b.parts[p], b.outs[p], s.calls[p], s.workers[p].n, s.cancelled)
    ensures Of(Output(s), b.labels[p]) == b.parts[p][..s.workers[p].n] == Done(s.calls[p])
  {
    hide Concat, CountLive, Of, Leading, Done, PartitionRun, GoodCut;
    ReportIsSuccesses(b.parts[p], b.outs[p], s.calls[p], s.workers[p].n, s.cancelled) by {
      WorkerAt(b, s, p);
    }
    WorkerAt(b, s, p);
    OfConcat(b, s.workers, s.appended, p);
    assert Output(s) == s.done;
  }

  /** With no cancellation there is one thing a partition's goroutine can do, so the goroutine steps and
      HandlePartition make the same calls and report the same run. */
  lemma RunsAgree(recs: seq<Record>, outs: seq<CallResult>, calls: seq<HandlerCall>, n: nat,
                  calls2: seq<HandlerCall>, n2: nat)
    requires PartitionRun(recs, outs, calls, n, false) && PartitionRun(recs, outs, calls2, n2, false)
    ensures calls == calls2 && n == n2
  {
    hide Done;
    ReportIsSuccesses(recs, outs, calls, n, false);
    ReportIsSuccesses(recs, outs, calls2, n2, false);
    assert |calls| == |calls2|;
  }

  /** At every moment of every schedule, what the Handler has been called on in a partition is its first
      records in order, each once, and nothing after the first failure. */
  lemma CalledInOrder(b: Batch, schedule: seq<Step>, p: nat)
    requires WellFormed(b) && Run(b, schedule).Some? && p < |b.parts|
    ensures var calls := Run(b, schedule).value.calls[p];
            && Called(b.parts[p], b.outs[p], calls)
            && forall k :: 0 <= k < |calls| - 1 ==> Success(calls[k].result)
  {
    hide Run;
    RunInv(b, schedule);
    WorkerAt(b, Run(b, schedule).value, p);
    var calls, w := Run(b, schedule).value.calls[p], Run(b, schedule).value.workers[p];
    if !w.Idle? && !w.Calling? && !w.Checking? {
      assert forall k :: 0 <= k < |calls| - 1 ==> calls[..w.n][k] == calls[k];
    }
  }

  /** Under every schedule the records handed to commit are, partition by partition and in offset order,
      the leading run of successes, cut earlier only if ctx was cancelled; they are exactly the records
      whose Handler call succeeded; and they are nothing else. */
  lemma CommitsLeadingRuns(b: Batch, schedule: seq<Step>)
    requires WellFormed(b) && Run(b, schedule).Some? && Over(Run(b, schedule).value)
    ensures var s := Run(b, schedule).value;
            && (forall p :: 0 <= p < |b.parts| ==>
                  s.workers[p].Gone?
                  && GoodCut(b.outs[p], s.workers[p].n, s.cancelled)
                  && Of(Output(s), b.labels[p]) == b.parts[p][..s.workers[p].n] == Done(s.calls[p]))
            && (forall r :: r in Output(s) ==> r.partition in b.labels)
  {
    RunInv(b, schedule);
    var s := Run(b, schedule).value;
    ConcatLabels(b, s.workers, s.appended);
    forall p | 0 <= p < |b.parts|
      ensures s.workers[p].Gone? && GoodCut(b.outs[p], s.workers[p].n, s.cancelled)
      ensures Of(Output(s), b.labels[p]) == b.parts[p][..s.workers[p].n] == Done(s.calls[p])
    {
      OverShowsRuns(b, s, p);
    }
  }

  /** How many more records the Handler may be called on once ctx is cancelled: the one a goroutine is about
      to call it on, or would begin with. */
  function CallsLeft(w: Worker): nat {
    if w.Idle? || w.Calling? then 1 else 0
  }

  lemma CancelledStep(b: Batch, s: State, step: Step, p: nat)
    requires WellFormed(b) && |s.workers| == |s.calls| == |b.parts| && Enabled(b, s, step) && p < |b.parts|
    requires s.cancelled && WorkersOk(b, s)
    ensures var s2 := After(b, s, step);
            && s2.cancelled
            && |s.calls[p]| <= |s2.calls[p]|
            && |s2.calls[p]| + CallsLeft(s2.workers[p]) <= |s.calls[p]| + CallsLeft(s.workers[p])
  {
    hide WorkerOk, PartitionRun, Called, AllSucceeded;
    match step
    case Spawn =>
    case Call(_) =>
    case CheckCtx(_) =>
    case Lock(_) =>
    case Read(_) =>
    case Write(_) =>
    case Unlock(_) =>
    case Leave(_) =>
    case WaitOver =>
    case Cancel =>
  }

  /** A cancelled ctx stops every goroutine: from then on the Handler is called on at most one more record of
      each partition, and only where a goroutine was about to call it, or had not begun. */
  lemma {:induction false} CancelStopsCalls(b: Batch, before: seq<Step>, after: seq<Step>, p: nat)
    requires WellFormed(b) && Run(b, before).Some? && Run(b, before + after).Some? && p < |b.parts|
    requires Run(b, before).value.cancelled
    ensures var s, s2 := Run(b, before).value, Run(b, before + after).value;
            && s2.cancelled
            && |s2.calls[p]| + CallsLeft(s2.workers[p]) <= |s.calls[p]| + CallsLeft(s.workers[p])
            && |s2.calls[p]| <= |s.calls[p]| + 1
            && (|s2.calls[p]| > |s.calls[p]| ==> s.workers[p].Calling? || s.workers[p].Idle?)
    decreases |after|
  {
    hide After, Enabled, WellFormed, WorkerOk;
    if after == [] {
      assert before + after == before;
    } else {
      var front := after[..|after| - 1];
      assert (before + after)[..|before + after| - 1] == before + front;
      assert (before + after)[|before + after| - 1] == after[|after| - 1];
      CancelStopsCalls(b, before, front, p);
      RunInv(b, before + front);
      CancelledStep(b, Run(b, before + front).value, after[|after| - 1], p);
    }
  }

  lemma {:induction false} CountOf(recs: seq<Record>, r: Record)
    ensures multiset(recs)[r] == multiset(Of(recs, r.partition))[r]
    decreases |recs|
  {
    if recs != [] {
      var front, last := recs[..|recs| - 1], recs[|recs| - 1];
      CountOf(front, r);
      assert recs == front + [last];
    }
  }

  lemma OfNone(recs: seq<Record>, r: Record, labels: seq<int>)
    requires forall x :: x in recs ==> x.partition in labels
    requires r.partition !in labels
    ensures multiset(recs)[r] == 0
  {
  }

  /** With no cancellation the schedule does not matter: the same records, in the same order within each
      partition, are handed to commit. */
  lemma {:induction false} ScheduleFree(b: Batch, one: seq<Step>, two: seq<Step>)
    requires WellFormed(b) && Run(b, one).Some? && Run(b, two).Some?
    requires Over(Run(b, one).value) && Over(Run(b, two).value)
    requires !Run(b, one).value.cancelled && !Run(b, two).value.cancelled
    ensures forall p :: 0 <= p < |b.labels| ==>
              Of(Output(Run(b, one).value), b.labels[p]) == Of(Output(Run(b, two).value), b.labels[p])
              == b.parts[p][..Leading(b.outs[p])]
    ensures multiset(Output(Run(b, one).value)) == multiset(Output(Run(b, two).value))
  {
    CommitsLeadingRuns(b, one);
    CommitsLeadingRuns(b, two);
    var x, y := Output(Run(b, one).value), Output(Run(b, two).value);
    forall r ensures multiset(x)[r] == multiset(y)[r] {
      CountOf(x, r);
      CountOf(y, r);
      if r.partition in b.labels {
        var p :| 0 <= p < |b.labels| && b.labels[p] == r.partition;
        assert Of(x, b.labels[p]) == Of(y, b.labels[p]);
      } else {
        OfNone(x, r, b.labels);
        OfNone(y, r, b.labels);
      }
    }
  }

  // ------------------------------------------------------- the batch comes to an end

  function Weight(len: nat, w: Worker): nat {
    match w
    case Idle => 2 * len + 9
    case Calling(i) => if i <= len then 2 * (len - i) + 7 else 7
    case Checking(i) => if i <= len then 2 * (len - i) + 6 else 6
    case Reporting(_) => 5
    case Holding(_) => 4
    case HasRead(_, _) => 3
    case HasWritten(_) => 2
    case Leaving(_) => 1
    case Gone(_) => 0
  }

  function Weights(parts: seq<seq<Record>>, ws: seq<Worker>): nat
    requires |parts| == |ws|
  {
    if ws == [] then 0 else Weight(|parts[0]|, ws[0]) + Weights(parts[1..], ws[1..])
  }

  lemma {:induction false} WeightsUpdate(parts: seq<seq<Record>>, ws: seq<Worker>, p: nat, w: Worker)
    requires |parts| == |ws| && p < |ws|
    ensures Weights(parts, ws[p := w]) == Weights(parts, ws) - Weight(|parts[p]|, ws[p]) + Weight(|parts[p]|, w)
    decreases |ws|
  {
    if p == 0 {
      assert ws[p := w][1..] == ws[1..];
    } else {
      assert ws[p := w][1..] == ws[1..][p - 1 := w];
      WeightsUpdate(parts[1..], ws[1..], p - 1, w);
    }
  }

  /** How many steps are left at most. */
  function Measure(b: Batch, s: State): nat
    requires |s.workers| == |b.parts|
  {
    Weights(b.parts, s.workers)
    + (match s.main case Spawning(_) => 2 case Waiting => 1 case _ => 0)
    + if s.cancelled then 0 else 1
  }

  lemma StepLightens(b: Batch, s: State, step: Step, p: nat)
    requires StepOf(b, s, step, p) && WorkerOk(b, s, p)
    ensures Measure(b, After(b, s, step)) < Measure(b, s)
  {
    hide Concat, CountLive, LedgerOk, MutexOk, Weights;
    WeightsUpdate(b.parts, s.workers, p, After(b, s, step).workers[p]);
  }

  lemma StepsRunOut(b: Batch, s: State, step: Step)
    requires WellFormed(b) && Inv(b, s) && Enabled(b, s, step)
    ensures Measure(b, After(b, s, step)) < Measure(b, s)
  {
    hide Concat, CountLive, LedgerOk, MutexOk, Weights;
    if step.Spawn? {
      if s.main.next < |b.parts| {
        WorkerAt(b, s, s.main.next);
        WeightsUpdate(b.parts, s.workers, s.main.next, After(b, s, step).workers[s.main.next]);
      }
    } else if !step.WaitOver? && !step.Cancel? {
      WorkerAt(b, s, step.p);
      StepLightens(b, s, step, step.p);
    }
  }

  /** No schedule is longer than the first measure. */
  lemma {:induction false} SchedulesAreBounded(b: Batch, schedule: seq<Step>)
    requires WellFormed(b) && Run(b, schedule).Some?
    ensures |schedule| + Measure(b, Run(b, schedule).value) <= Measure(b, Init(b))
    decreases |schedule|
  {
    if schedule != [] {
      SchedulesAreBounded(b, schedule[..|schedule| - 1]);
      RunInv(b, schedule[..|schedule| - 1]);
      StepsRunOut(b, Run(b, schedule[..|schedule| - 1]).value, schedule[|schedule| - 1]);
    }
  }

  /** And no schedule gets stuck: until the batch is over some step other than a cancellation can be
      taken, so the WaitGroup always comes down to the commit. */
  lemma NeverStuck(b: Batch, s: State) returns (step: Step)
    requires WellFormed(b) && Inv(b, s) && !Over(s)
    ensures step != Cancel && Enabled(b, s, step)
  {
    if s.main.Spawning? {
      step := Spawn;
    } else if s.wg == 0 {
      step := WaitOver;
    } else {
      CountZero(s.workers);
      var p :| 0 <= p < |s.workers| && Live(s.workers[p]);
      if s.workers[p].Reporting? && s.holder.Some? {
        p := s.holder.value;
        assert Locked(s.workers[p]);
      }
      WorkerAt(b, s, p);
      var w := s.workers[p];
      step :=
        if w.Calling? then Call(p)
        else if w.Checking? then CheckCtx(p)
        else if w.Reporting? && w.n > 0 then Lock(p)
        else if w.Holding? then Read(p)
        else if w.HasRead? then Write(p)
        else if w.HasWritten? then Unlock(p)
        else Leave(p);
    }
  }
}
