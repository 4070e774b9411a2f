/** Which status and how much body a client gets (web/middleware.go:174-263, web/metrics/metrics.go:143-214),
    in numbers: told from the codes a handler calls WriteHeader with, and from nothing else. */
module Statuses {
  import opened Recorders
  import opened Middleware

  /** A call that settles the status: a body write, a flush, or a status that is not informational. */
  predicate Settles(c: Call) {
    match c
    case WriteHeader(code) => code == 101 || code >= 200
    case _ => true
  }

  /** The first such call, or the end. */
  function Settling(calls: seq<Call>): (i: nat)
    ensures i <= |calls|
    ensures forall j :: 0 <= j < i ==> calls[j].WriteHeader? && calls[j].code < 200 && calls[j].code != 101
    ensures i < |calls| && calls[i].WriteHeader? ==> calls[i].code >= 200 || calls[i].code == 101
  {
    if calls == [] || Settles(calls[0]) then 0 else 1 + Settling(calls[1..])
  }

  /** The status it settles on: the code it is given, and 200 for a write, a flush or no such call at all. */
  function StatusSent(calls: seq<Call>): int {
    var i := Settling(calls);
    if i < |calls| && calls[i].WriteHeader? then calls[i].code else 200
  }

  /** The bytes of every body write together. */
  function BodyTotal(calls: seq<Call>): nat {
    if calls == [] then 0 else (if calls[0].Write? then calls[0].taken else 0) + BodyTotal(calls[1..])
  }

  lemma PlayedOn(wire: Wire, calls: seq<Call>, c: Call)
    ensures var before := Played(wire, calls);
            Played(wire, calls + [c]) ==
              if c.Write? then BodySent(before, c.taken) else HeaderSent(before, if c.Flush? then OK else c.code)
  {
    assert (calls + [c])[..|calls|] == calls;
  }

  /** One more call settles the status if none has before. */
  lemma {:induction false} SettlingOn(calls: seq<Call>, c: Call)
    ensures Settling(calls + [c]) == if Settling(calls) < |calls| || Settles(c) then Settling(calls) else |calls| + 1
    decreases |calls|
  {
    var all := calls + [c];
    if calls == [] {
      assert all[1..] == [];
    } else {
      assert all[0] == calls[0] && all[1..] == calls[1..] + [c];
      SettlingOn(calls[1..], c);
    }
  }

  lemma {:induction false} TotalOn(calls: seq<Call>, c: Call)
    ensures BodyTotal(calls + [c]) == BodyTotal(calls) + if c.Write? then c.taken else 0
    decreases |calls|
  {
    var all := calls + [c];
    if calls == [] {
      assert all[1..] == [];
    } else {
      assert all[0] == calls[0] && all[1..] == calls[1..] + [c];
      TotalOn(calls[1..], c);
    }
  }

  /** What is on the wire after any calls of a handler: a final status exactly if some call settled it, and
      that one; the informational ones that were sent before it, in order; and every byte written. */
  lemma {:induction false} WireInNumbers(calls: seq<Call>)
    requires ValidCalls(calls)
    ensures var wire, i := Played(UNWRITTEN, calls), Settling(calls);
            && (wire.wrote <==> i < |calls|)
            && Final(wire) == StatusSent(calls)
            && |wire.infos| == i && (forall j :: 0 <= j < i ==> wire.infos[j] == calls[j].code)
            && wire.body == BodyTotal(calls)
    decreases |calls|
  {
    if calls != [] {
      hide Played, Settling, BodyTotal, StatusSent;
      var front, c := calls[..|calls| - 1], calls[|calls| - 1];
      assert calls == front + [c];
      WireInNumbers(front);
      OneMoreCall(front, c);
      PlayedOn(UNWRITTEN, front, c);
      TotalOn(front, c);
    }
  }

  /** One more call on a wire that agrees with the calls so far. */
  lemma OneMoreCall(calls: seq<Call>, c: Call)
    requires c.WriteHeader? ==> ValidCode(c.code)
    requires var wire, i := Played(UNWRITTEN, calls), Settling(calls);
             && (wire.wrote <==> i < |calls|)
             && Final(wire) == StatusSent(calls)
             && |wire.infos| == i && forall j :: 0 <= j < i ==> wire.infos[j] == calls[j].code
    ensures var wire, i := Played(UNWRITTEN, calls + [c]), Settling(calls + [c]);
            && (wire.wrote <==> i < |calls + [c]|)
            && Final(wire) == StatusSent(calls + [c])
            && |wire.infos| == i && forall j :: 0 <= j < i ==> wire.infos[j] == (calls + [c])[j].code
  {
    hide Played, Settling;
    PlayedOn(UNWRITTEN, calls, c);
    SettlingOn(calls, c);
    assert forall j :: 0 <= j < |calls| ==> (calls + [c])[j] == calls[j];
  }

  /** A recorder put on an unwritten response holds these numbers after any calls that went through it. */
  lemma {:induction false} WebInNumbers(rec: WebRecorder, calls: seq<Call>)
    requires ValidCalls(calls) && Chained(Web(rec)) && Agree(Web(rec)) && rec.from == 0
    requires Base(Web(rec)).wire == Played(UNWRITTEN, calls)
    ensures rec.wrote <==> Settling(calls) < |calls|
    ensures rec.status == StatusSent(calls) && rec.bytes == BodyTotal(calls)
  {
    WireInNumbers(calls);
  }

  lemma MetricsInNumbers(rec: MetricsRecorder, calls: seq<Call>)
    requires ValidCalls(calls) && Chained(Met(rec)) && Agree(Met(rec))
    requires Base(Met(rec)).wire == Played(UNWRITTEN, calls)
    ensures rec.wrote <==> Settling(calls) < |calls|
    ensures rec.status == StatusSent(calls)
  {
    WireInNumbers(calls);
  }

  /** A fresh recorder on an unwritten response, then the calls of a handler. */
  method RecordWeb(calls: seq<Call>, w: Writer) returns (rec: WebRecorder)
    requires Chained(w) && Agree(w) && Base(w).wire == UNWRITTEN && ValidCalls(calls)
    modifies Frame(w)
    ensures rec.status == StatusSent(calls) && rec.bytes == BodyTotal(calls)
    ensures rec.wrote <==> Settling(calls) < |calls|
  {
    hide Played, Settling, BodyTotal, ValidCalls;
    FrameAllocated(w);
    BaseInFrame(w);
    rec := new WebRecorder(w);
    WebFits(rec, w);
    Play(calls, Web(rec));
    WebInNumbers(rec, calls);
  }

  method RecordMetrics(calls: seq<Call>, w: Writer) returns (rec: MetricsRecorder)
    requires Chained(w) && Agree(w) && Base(w).wire == UNWRITTEN && ValidCalls(calls)
    modifies Frame(w)
    ensures rec.status == StatusSent(calls)
    ensures rec.wrote <==> Settling(calls) < |calls|
  {
    hide Played, Settling, BodyTotal, ValidCalls;
    FrameAllocated(w);
    BaseInFrame(w);
    rec := new MetricsRecorder(w);
    MetFits(rec, w);
    Play(calls, Met(rec));
    MetricsInNumbers(rec, calls);
  }

  /** What a request comes to in numbers. Unless it panics and some Recovery is there to answer, the client
      gets what the handler sent. A recovered panic adds a 500 and the problem document exactly if no call
      had settled the status before. */
  lemma ClientGets(h: Handler, script: Script)
    requires ValidCalls(Runs(h, script).calls)
    ensures var run, wire := Runs(h, script), WireOf(h, script, UNWRITTEN);
            if run.ending == Panics && HasRecovery(h) && Settling(run.calls) == |run.calls| then
              Final(wire) == 500 && wire.wrote && wire.body == script.problem
            else
              && Final(wire) == StatusSent(run.calls) && wire.body == BodyTotal(run.calls)
              && (wire.wrote <==> Settling(run.calls) < |run.calls|)
  {
    var run := Runs(h, script);
    WireInNumbers(run.calls);
    if Settling(run.calls) == |run.calls| {
      NothingWritten(run.calls);
    }
  }

  lemma {:induction false} NothingWritten(calls: seq<Call>)
    requires Settling(calls) == |calls|
    ensures BodyTotal(calls) == 0
    decreases |calls|
  {
    if calls != [] {
      NothingWritten(calls[1..]);
    }
  }

  /** How a request comes out of a chain none of whose entries answers it: an abort always comes out as an
      abort, and a panic as one exactly if there is no Recovery. */
  lemma {:induction false} HowItEnds(entries: seq<Entry>, script: Script)
    requires NoAnswers(entries)
    ensures var h := Chain(entries, Mux);
            && Runs(h, script) == script
            && (EndOf(h, script) == Aborts <==> script.ending == Aborts)
            && (EndOf(h, script) == Panics <==> script.ending == Panics && Recovery !in entries)
  {
    RunsBelow(entries, Mux, script);
    RecoveryInChain(entries);
  }

  /** And of one in which some entry does: what that entry sends is what goes out, and it returns. */
  lemma WhatAnswers(a: seq<Entry>, calls: seq<Call>, b: seq<Entry>, script: Script)
    requires NoAnswers(a)
    ensures var h := Chain(a + [Answers(calls)] + b, Mux);
            && Runs(h, script).calls == calls && EndOf(h, script) == Returns
            && WireOf(h, script, UNWRITTEN) == Played(UNWRITTEN, calls)
  {
    var tail := [Answers(calls)] + b;
    assert a + [Answers(calls)] + b == a + tail && tail[1..] == b;
    ChainAppend(a, tail, Mux);
    RunsBelow(a, Chain(tail, Mux), script);
  }

  predicate ProbePath(path: string) {
    path == "/livez" || path == "/readyz" || (|path| >= 10 && path[..10] == "/actuator/")
  }

  /** On the probe paths nothing is logged, however the chain is built; on any other path each Logging that a
      request gets to writes one line if what it gets to returns by itself. */
  lemma {:induction false} LinesCounted(h: Handler, script: Script, path: string, route: string, before: string)
    ensures ProbePath(path) ==> LinesOf(h, script, path, route, before) == []
    ensures !ProbePath(path) && Runs(h, script).ending == Returns ==>
              |LinesOf(h, script, path, route, before)| == CountOf(Reached(h), Logging)
  {
    if h.Wrapped? && !h.entry.Answers? {
      LinesCounted(h.next, script, path, route, before);
      assert Reached(h)[1..] == Reached(h.next);
    } else if h.Wrapped? {
      assert Reached(h)[1..] == [];
    }
  }

  /** Of a panic that the innermost Recovery answers, each Logging around that Recovery writes its line. */
  lemma {:induction false} LinesOfPanic(a: seq<Entry>, h: Handler, script: Script, path: string, route: string,
      before: string)
    requires NoAnswers(a) && !HasRecovery(h) && Runs(h, script).ending == Panics && !ProbePath(path)
    ensures |LinesOf(Chain(a, Wrapped(Recovery, h)), script, path, route, before)| == CountOf(a, Logging)
    ensures EndOf(Chain(a, Wrapped(Recovery, h)), script) == Returns
    decreases |a|
  {
    if a == [] {
      PanicUnrecovered(h, script, path, route, before);
    } else {
      LinesOfPanic(a[1..], h, script, path, route, before);
    }
  }
}
