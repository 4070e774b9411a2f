/** The middleware chain of web/web.go and what runs inside it: RequestID, Logging and Recovery of
    web/middleware.go and Middleware of web/metrics/metrics.go.

    A handler run is a list of writer calls and a way to end: a return, a panic, or a panic with
    http.ErrAbortHandler. A panic unwinds through each layer, where that layer's deferred code sees it. */
module Middleware {
  import opened Recorders
  import opened Wrappers

  /** An entry of the chain. `Other` hands on the writer it got and either the request it got or a copy;
      `Answers` answers this request by itself with these writer calls and hands nothing on, as CORS does
      with a preflight (security/cors.go:127-137) and authentication with a bad token
      (security/authn.go:162-181). Which of the two an entry does may depend on the request. */
  datatype Entry = RequestID | Logging | Recovery | Metrics | Other(copies: bool) | Answers(calls: seq<Call>)

  datatype Call = WriteHeader(code: int) | Write(taken: nat) | Flush

  datatype Ending = Returns | Panics | Aborts

  /** What happens on this request: the writer calls the routed handler makes and how it ends, the RPC
      status it leaves under the two header keys (empty when it leaves none), and how many bytes the
      connection would take of a problem document. */
  datatype Script = Script(calls: seq<Call>, ending: Ending, trailer: string, header: string, problem: nat)

  /** The status of a failed RPC, if the response carries one: the trailer's, else the header's. */
  function RpcStatus(script: Script): (code: Option<string>)
    ensures script.trailer != "" && script.trailer != "0" ==> code == Some(script.trailer)
    ensures script.trailer == "" && script.header != "" && script.header != "0" ==> code == Some(script.header)
    ensures code.None? <==> (script.trailer == "0" || (script.trailer == "" && script.header in ["", "0"]))
  {
    var code := if script.trailer == "" then script.header else script.trailer;
    if code != "" && code != "0" then Some(code) else None
  }

  /** The http.Handler a chain is: the mux, or an entry around another handler. */
  datatype Handler = Mux | Wrapped(entry: Entry, next: Handler)

  // ---------------------------------------------------------- building it

  /** The first entry outermost. */
  function Chain(entries: seq<Entry>, h: Handler): Handler {
    if entries == [] then h else Wrapped(entries[0], Chain(entries[1..], h))
  }

  /** The entries a request meets, in the order it meets them. */
  function EntriesOf(h: Handler): seq<Entry> {
    match h
    case Mux => []
    case Wrapped(e, next) => [e] + EntriesOf(next)
  }

  const DEFAULT: seq<Entry> := [RequestID, Logging, Recovery]

  class Server {
    var entries: seq<Entry>
    var handler: Handler

    constructor ()
      ensures entries == [] && handler == Mux
    {
      entries, handler := [], Mux;
    }

    method Use(more: seq<Entry>)
      modifies this`entries
      ensures entries == old(entries) + more
    {
      entries := entries + more;
    }

    /** The fold in Start. It wraps the mux, not the handler it left before, so a second Start leaves the
        same chain. */
    method Start()
      modifies this`handler
      ensures handler == Chain(entries, Mux)
    {
      var h := Mux;
      var i := |entries|;
      while i > 0
        invariant 0 <= i <= |entries|
        invariant h == Chain(entries[i..], Mux)
      {
        i := i - 1;
        h := Wrapped(entries[i], h);
        assert entries[i..][1..] == entries[i + 1..];
      }
      handler := h;
    }
  }

  lemma {:induction false} ChainAppend(a: seq<Entry>, b: seq<Entry>, h: Handler)
    ensures Chain(a + b, h) == Chain(a, Chain(b, h))
    decreases |a|
  {
    if a == [] {
      assert a + b == b;
    } else {
      assert (a + b)[1..] == a[1..] + b;
      ChainAppend(a[1..], b, h);
    }
  }

  /** Entries run in list order. */
  lemma {:induction false} ChainInOrder(entries: seq<Entry>)
    ensures EntriesOf(Chain(entries, Mux)) == entries
    decreases |entries|
  {
    if entries != [] {
      ChainInOrder(entries[1..]);
      assert entries == [entries[0]] + entries[1..];
    }
  }

  // ------------------------------------------------------ one request

  /** What the mux sees of a request; `pattern` is filled in on the request it was handed. */
  class Request {
    const path: string
    var pattern: string

    constructor (path: string, pattern: string)
      ensures this.path == path && this.pattern == pattern
    {
      this.path := path;
      this.pattern := pattern;
    }
  }

  /** One access line; `error` is whether it goes to ERROR rather than INFO. */
  datatype Line = Line(route: string, status: int, bytes: int, error: bool, rpcCode: Option<string>)

  datatype Sample = Sample(route: string, status: int)

  /** The access log, the panic log and the metric's counter. */
  class Records {
    var lines: seq<Line>
    var panics: seq<string>
    var samples: seq<Sample>

    constructor ()
      ensures lines == [] && panics == [] && samples == []
    {
      lines, panics, samples := [], [], [];
    }
  }

  predicate IsProbePath(p: string) {
    p == "/livez" || p == "/readyz" || "/actuator/" <= p
  }

  // -------------------------------------------------- what a run comes to

  function Played(wire: Wire, calls: seq<Call>): Wire {
    if calls == [] then wire
    else
      var before := Played(wire, calls[..|calls| - 1]);
      match calls[|calls| - 1]
      case WriteHeader(code) => HeaderSent(before, code)
      case Write(taken) => BodySent(before, taken)
      case Flush => HeaderSent(before, OK)
  }

  predicate HasRecovery(h: Handler) {
    match h
    case Mux => false
    case Wrapped(e, next) => e.Recovery? || HasRecovery(next)
  }

  /** What answers the request: the first entry that does so by itself, or the routed handler. */
  function Runs(h: Handler, script: Script): Script {
    match h
    case Mux => script
    case Wrapped(Answers(calls), _) => Script(calls, Returns, "", "", script.problem)
    case Wrapped(_, next) => Runs(next, script)
  }

  /** How a request leaves the handler: a recovered panic is a return, an abort goes right through. */
  function EndOf(h: Handler, script: Script): Ending {
    var run := Runs(h, script);
    if run.ending == Panics && HasRecovery(h) then Returns else run.ending
  }

  /** What is on the wire then. */
  function WireOf(h: Handler, script: Script, wire: Wire): Wire {
    var run := Runs(h, script);
    var played := Played(wire, run.calls);
    if run.ending == Panics && HasRecovery(h) && !played.wrote then
      BodySent(HeaderSent(played, 500), script.problem)
    else played
  }

  /** Below it the request that came in is not seen: it hands on a copy, or nothing. */
  predicate Hides(e: Entry) {
    e.Logging? || (e.Other? && e.copies) || e.Answers?
  }

  /** The mux is handed the request itself. */
  predicate Direct(h: Handler) {
    match h
    case Mux => true
    case Wrapped(e, next) => !Hides(e) && Direct(next)
  }

  /** The route read off the request after h has run. */
  function RouteOf(h: Handler, route: string, before: string): string {
    if Direct(h) then route else before
  }

  function LinesOf(h: Handler, script: Script, path: string, route: string, before: string): seq<Line> {
    match h
    case Mux => []
    case Wrapped(Answers(_), _) => []
    case Wrapped(e, next) =>
      LinesOf(next, script, path, route, before)
      + if e.Logging? && !IsProbePath(path) && EndOf(next, script) == Returns then
          var wire := WireOf(next, script, UNWRITTEN);
          var rpc := RpcStatus(Runs(next, script));
          [Line(RouteOf(next, route, before), Final(wire), wire.body, Final(wire) >= 500 || rpc.Some?, rpc)]
        else []
  }

  /** The label of the metric: the wire's status, or the 500 a recovery further out is about to send. */
  function LabelOf(next: Handler, script: Script): int {
    var wire := WireOf(next, script, UNWRITTEN);
    if EndOf(next, script) == Panics && !wire.wrote then 500 else Final(wire)
  }

  function SamplesOf(h: Handler, script: Script, route: string, before: string): seq<Sample> {
    match h
    case Mux => []
    case Wrapped(Answers(_), _) => []
    case Wrapped(e, next) =>
      SamplesOf(next, script, route, before)
      + if e.Metrics? && EndOf(next, script) != Aborts
        then [Sample(RouteOf(next, route, before), LabelOf(next, script))]
        else []
  }

  function PanicsOf(h: Handler, script: Script, route: string, before: string): seq<string> {
    match h
    case Mux => []
    case Wrapped(Answers(_), _) => []
    case Wrapped(e, next) =>
      PanicsOf(next, script, route, before)
      + if e.Recovery? && EndOf(next, script) == Panics then [RouteOf(next, route, before)] else []
  }

  predicate ValidCalls(calls: seq<Call>) {
    forall i :: 0 <= i < |calls| && calls[i].WriteHeader? ==> ValidCode(calls[i].code)
  }

  // ------------------------------------------------------------- running it

  /** The writer calls of the handler, through however many recorders there are. */
  method Play(calls: seq<Call>, w: Writer)
    requires Chained(w) && Agree(w) && ValidCalls(calls)
    modifies Frame(w)
    ensures Agree(w) && Base(w).wire == Played(old(Base(w).wire), calls)
  {
    for i := 0 to |calls|
      invariant Agree(w) && Base(w).wire == Played(old(Base(w).wire), calls[..i])
    {
      assert calls[..i + 1][..i] == calls[..i];
      match calls[i]
      case WriteHeader(code) => SendHeader(w, code);
      case Write(taken) => var _ := SendBody(w, taken);
      case Flush => SendFlush(w);
    }
    assert calls[..|calls|] == calls;
  }

  lemma FrameAllocated(w: Writer)
    requires Chained(w)
    ensures forall x :: x in Frame(w) ==> allocated(x)
    decreases Depth(w)
  {
    match w
    case Net(_) =>
    case Web(r) => FrameAllocated(r.inner);
    case Met(r) => FrameAllocated(r.inner);
  }

  /** What a recorder holds, spelled out. */
  lemma WebTells(rec: WebRecorder)
    requires Chained(Web(rec)) && Agree(Web(rec))
    ensures Chained(rec.inner) && Agree(rec.inner) && Base(rec.inner) == Base(Web(rec))
    ensures rec.wrote == Base(Web(rec)).wire.wrote && rec.status == Final(Base(Web(rec)).wire)
    ensures rec.bytes == Base(Web(rec)).wire.body - rec.from
  {
  }

  lemma MetTells(rec: MetricsRecorder)
    requires Chained(Met(rec)) && Agree(Met(rec))
    ensures Chained(rec.inner) && Agree(rec.inner) && Base(rec.inner) == Base(Met(rec))
    ensures rec.wrote == Base(Met(rec)).wire.wrote && rec.status == Final(Base(Met(rec)).wire)
  {
  }

  /** Putting a fresh recorder on an unwritten response. */
  lemma WebFits(rec: WebRecorder, w: Writer)
    requires Chained(w) && Agree(w) && Base(w).wire == UNWRITTEN
    requires rec.inner == w && rec.depth == Depth(w) + 1 && rec.from == 0
    requires rec.status == OK && rec.bytes == 0 && !rec.wrote
    ensures Chained(Web(rec)) && Agree(Web(rec)) && Base(Web(rec)) == Base(w) && Frame(Web(rec)) == {rec} + Frame(w)
  {
  }

  lemma MetFits(rec: MetricsRecorder, w: Writer)
    requires Chained(w) && Agree(w) && Base(w).wire == UNWRITTEN
    requires rec.inner == w && rec.depth == Depth(w) + 1 && rec.status == OK && !rec.wrote
    ensures var m := Met(rec);
            Chained(m) && Agree(m) && Base(m) == Base(w) && Frame(m) == {rec} + Frame(w)
  {
  }

  /** What the mux leaves behind, */
  lemma MuxLayer(script: Script, path: string, route: string)
    ensures EndOf(Mux, script) == script.ending && RouteOf(Mux, route, "") == route
    ensures LinesOf(Mux, script, path, route, "") == [] && SamplesOf(Mux, script, route, "") == []
  {
  }

  /** and an entry that only hands on adds nothing to what is below it. */
  lemma PlainLayer(e: Entry, next: Handler, script: Script, path: string, route: string, before: string)
    requires e.RequestID? || e.Other?
    ensures var h := Wrapped(e, next);
            && WireOf(h, script, UNWRITTEN) == WireOf(next, script, UNWRITTEN)
                 && EndOf(h, script) == EndOf(next, script)
            && LinesOf(h, script, path, route, before) == LinesOf(next, script, path, route, before)
            && SamplesOf(h, script, route, before) == SamplesOf(next, script, route, before)
  {
  }

  /** What Logging adds to what is below it. */
  lemma LoggingLayer(next: Handler, script: Script, path: string, route: string, before: string)
    ensures var h, wire := Wrapped(Logging, next), WireOf(next, script, UNWRITTEN);
            && WireOf(h, script, UNWRITTEN) == wire && EndOf(h, script) == EndOf(next, script)
            && RouteOf(h, route, before) == before
            && SamplesOf(h, script, route, before) == SamplesOf(next, script, route, before)
            && PanicsOf(h, script, route, before) == PanicsOf(next, script, route, before)
            && LinesOf(h, script, path, route, before) == LinesOf(next, script, path, route, before)
               + if IsProbePath(path) || EndOf(next, script) != Returns then []
                 else [Line(RouteOf(next, route, before), Final(wire), wire.body,
                            Final(wire) >= 500 || RpcStatus(Runs(next, script)).Some?, RpcStatus(Runs(next, script)))]
  {
  }

  /** What the metric adds. */
  lemma MetricsLayer(next: Handler, script: Script, path: string, route: string, before: string)
    ensures var h, wire := Wrapped(Metrics, next), WireOf(next, script, UNWRITTEN);
            && WireOf(h, script, UNWRITTEN) == wire && EndOf(h, script) == EndOf(next, script)
            && RouteOf(h, route, before) == RouteOf(next, route, before)
            && LinesOf(h, script, path, route, before) == LinesOf(next, script, path, route, before)
            && PanicsOf(h, script, route, before) == PanicsOf(next, script, route, before)
            && SamplesOf(h, script, route, before) == SamplesOf(next, script, route, before)
               + if EndOf(next, script) == Aborts then []
                 else [Sample(RouteOf(next, route, before),
                              if EndOf(next, script) == Panics && !wire.wrote then 500 else Final(wire))]
  {
  }

  /** What Recovery adds. */
  lemma RecoveryLayer(next: Handler, script: Script, path: string, route: string, before: string)
    ensures var h, wire, end := Wrapped(Recovery, next), WireOf(next, script, UNWRITTEN), EndOf(next, script);
            && EndOf(h, script) == (if end == Panics then Returns else end)
            && WireOf(h, script, UNWRITTEN) ==
               (if end == Panics && !wire.wrote then BodySent(HeaderSent(wire, 500), script.problem) else wire)
            && RouteOf(h, route, before) == RouteOf(next, route, before)
            && LinesOf(h, script, path, route, before) == LinesOf(next, script, path, route, before)
            && SamplesOf(h, script, route, before) == SamplesOf(next, script, route, before)
            && PanicsOf(h, script, route, before) == PanicsOf(next, script, route, before)
               + if end == Panics then [RouteOf(next, route, before)] else []
  {
  }

  /** One request through the chain, on a response nothing has been written to. Each layer adds its own
      recorder, and what it records is read off that recorder. */
  method Serve(h: Handler, w: Writer, r: Request, records: Records, script: Script, route: string) returns (end: Ending)
    requires Chained(w) && Agree(w) && Base(w).wire == UNWRITTEN && ValidCalls(Runs(h, script).calls)
    requires r !in Frame(w) && records !in Frame(w)
    modifies Frame(w), r, records
    ensures Agree(w) && Base(w).wire == WireOf(h, script, UNWRITTEN)
    ensures end == EndOf(h, script)
    ensures r.pattern == RouteOf(h, route, old(r.pattern))
    ensures records.lines == old(records.lines) + LinesOf(h, script, r.path, route, old(r.pattern))
    ensures records.samples == old(records.samples) + SamplesOf(h, script, route, old(r.pattern))
    ensures records.panics == old(records.panics) + PanicsOf(h, script, route, old(r.pattern))
    decreases h, 1
  {
    hide Agree, Frame, Base, Chained, Played, HeaderSent, BodySent;
    FrameAllocated(w);
    BaseInFrame(w);
    match h
    case Mux =>
      r.pattern := route;
      Play(script.calls, w);
      end := script.ending;
    case Wrapped(e, next) =>
      match e
      case Answers(calls) =>
        Play(calls, w);
        end := Returns;
      case RequestID =>
        end := Serve(next, w, r, records, script, route);
      case Other(copies) =>
        var r2 := r;
        if copies {
          r2 := new Request(r.path, r.pattern);
        }
        end := Serve(next, w, r2, records, script, route);
      case Logging =>
        end := ServeLogging(next, w, r, records, script, route);
      case Metrics =>
        end := ServeMetrics(next, w, r, records, script, route);
      case Recovery =>
        end := ServeRecovery(next, w, r, records, script, route);
  }

  /** Logging hands on a copy of the request and, off the probe paths, its own recorder; it writes its line
      only if the handler below returns. */
  method ServeLogging(next: Handler, w: Writer, r: Request, records: Records, script: Script, route: string)
    returns (end: Ending)
    requires Chained(w) && Agree(w) && Base(w).wire == UNWRITTEN && ValidCalls(Runs(next, script).calls)
    requires r !in Frame(w) && records !in Frame(w)
    modifies Frame(w), r, records
    ensures Agree(w) && Base(w).wire == WireOf(Wrapped(Logging, next), script, UNWRITTEN)
    ensures end == EndOf(Wrapped(Logging, next), script)
    ensures r.pattern == RouteOf(Wrapped(Logging, next), route, old(r.pattern))
    ensures records.lines == old(records.lines) + LinesOf(Wrapped(Logging, next), script, r.path, route, old(r.pattern))
    ensures records.samples == old(records.samples) + SamplesOf(Wrapped(Logging, next), script, route, old(r.pattern))
    ensures records.panics == old(records.panics) + PanicsOf(Wrapped(Logging, next), script, route, old(r.pattern))
    decreases Wrapped(Logging, next), 0
  {
    hide Agree, Frame, Base, Chained, Played, HeaderSent, BodySent, IsProbePath, RpcStatus, WireOf, EndOf, RouteOf,
      LinesOf, SamplesOf, PanicsOf;
    LoggingLayer(next, script, r.path, route, r.pattern);
    FrameAllocated(w);
    BaseInFrame(w);
    var r2 := new Request(r.path, r.pattern);
    if IsProbePath(r2.path) {
      end := Serve(next, w, r2, records, script, route);
      return;
    }
    var rec := new WebRecorder(w);
    WebFits(rec, w);
    end := Serve(next, Web(rec), r2, records, script, route);
    WebTells(rec);
    if end == Returns {
      var error := rec.status >= 500;
      var rpc := RpcStatus(Runs(next, script));
      if rpc.Some? {
        error := true;
      }
      records.lines := records.lines + [Line(r2.pattern, rec.status, rec.bytes, error, rpc)];
    }
  }

  /** The metric is recorded in a defer: on a return or a panic, but not on an abort, and the panic goes on. */
  method ServeMetrics(next: Handler, w: Writer, r: Request, records: Records, script: Script, route: string)
    returns (end: Ending)
    requires Chained(w) && Agree(w) && Base(w).wire == UNWRITTEN && ValidCalls(Runs(next, script).calls)
    requires r !in Frame(w) && records !in Frame(w)
    modifies Frame(w), r, records
    ensures Agree(w) && Base(w).wire == WireOf(Wrapped(Metrics, next), script, UNWRITTEN)
    ensures end == EndOf(Wrapped(Metrics, next), script)
    ensures r.pattern == RouteOf(Wrapped(Metrics, next), route, old(r.pattern))
    ensures records.lines == old(records.lines) + LinesOf(Wrapped(Metrics, next), script, r.path, route, old(r.pattern))
    ensures records.samples == old(records.samples) + SamplesOf(Wrapped(Metrics, next), script, route, old(r.pattern))
    ensures records.panics == old(records.panics) + PanicsOf(Wrapped(Metrics, next), script, route, old(r.pattern))
    decreases Wrapped(Metrics, next), 0
  {
    hide Agree, Frame, Base, Chained, Played, HeaderSent, BodySent, IsProbePath, RpcStatus, WireOf, EndOf, RouteOf,
      LinesOf, SamplesOf, PanicsOf;
    MetricsLayer(next, script, r.path, route, r.pattern);
    FrameAllocated(w);
    BaseInFrame(w);
    var rec := new MetricsRecorder(w);
    MetFits(rec, w);
    end := Serve(next, Met(rec), r, records, script, route);
    MetTells(rec);
    if end != Aborts {
      var code := if end == Panics && !rec.wrote then 500 else rec.status;
      records.samples := records.samples + [Sample(r.pattern, code)];
    }
  }

  /** Recovery reuses Logging's recorder when it is handed one. It lets an abort through, and after any
      other panic answers 500 unless a status has already gone out. */
  method ServeRecovery(next: Handler, w: Writer, r: Request, records: Records, script: Script, route: string)
    returns (end: Ending)
    requires Chained(w) && Agree(w) && Base(w).wire == UNWRITTEN && ValidCalls(Runs(next, script).calls)
    requires r !in Frame(w) && records !in Frame(w)
    modifies Frame(w), r, records
    ensures Agree(w) && Base(w).wire == WireOf(Wrapped(Recovery, next), script, UNWRITTEN)
    ensures end == EndOf(Wrapped(Recovery, next), script)
    ensures r.pattern == RouteOf(Wrapped(Recovery, next), route, old(r.pattern))
    ensures records.lines
        == old(records.lines) + LinesOf(Wrapped(Recovery, next), script, r.path, route, old(r.pattern))
    ensures records.samples == old(records.samples) + SamplesOf(Wrapped(Recovery, next), script, route, old(r.pattern))
    ensures records.panics == old(records.panics) + PanicsOf(Wrapped(Recovery, next), script, route, old(r.pattern))
    decreases Wrapped(Recovery, next), 0
  {
    hide Agree, Frame, Base, Chained, Played, HeaderSent, BodySent, IsProbePath, RpcStatus, WireOf, EndOf, RouteOf,
      LinesOf, SamplesOf, PanicsOf;
    RecoveryLayer(next, script, r.path, route, r.pattern);
    FrameAllocated(w);
    BaseInFrame(w);
    var rec;
    if w.Web? {
      rec := w.web;
    } else {
      rec := new WebRecorder(w);
      WebFits(rec, w);
    }
    end := Serve(next, Web(rec), r, records, script, route);
    WebTells(rec);
    if end == Panics {
      records.panics := records.panics + [r.pattern];
      if !rec.wrote {
        SendHeader(Web(rec), 500);
        var _ := SendBody(Web(rec), script.problem);
        WebTells(rec);
      }
      end := Returns;
    }
  }

  // ------------------------------------------------------ who says what

  /** A panic that no Recovery stops leaves no access line, and the metric says what is on the wire, or 500
      if nothing is, though then no status ever goes out. */
  lemma {:induction false} PanicUnrecovered(h: Handler, script: Script, path: string, route: string, before: string)
    requires EndOf(h, script) == Panics
    ensures LinesOf(h, script, path, route, before) == []
    ensures forall x :: x in SamplesOf(h, script, route, before) ==>
              x.status == var wire := WireOf(h, script, UNWRITTEN); if wire.wrote then wire.status else 500
  {
    if h.Wrapped? {
      PanicUnrecovered(h.next, script, path, route, before);
    }
  }

  /** The access log, the metric and the wire agree. However the handler ends and whatever the chain, if
      the request comes out of the chain as a return, every access line and every sample taken on the way
      carries the status the client receives, and the line its body size; and a line is at ERROR exactly
      when that status is a server error or the RPC in it failed. */
  lemma {:induction false} RecordsAgreeWithWire(h: Handler, script: Script, path: string, route: string, before: string)
    requires EndOf(h, script) == Returns
    ensures var wire := WireOf(h, script, UNWRITTEN);
            && (forall x :: x in LinesOf(h, script, path, route, before) ==>
                  x.status == Final(wire) && x.bytes == wire.body
                  && (x.error <==> Final(wire) >= 500 || RpcStatus(Runs(h, script)).Some?))
            && (forall x :: x in SamplesOf(h, script, route, before) ==> x.status == Final(wire))
  {
    match h
    case Mux =>
    case Wrapped(Answers(_), _) =>
    case Wrapped(e, next) =>
      hide LinesOf, SamplesOf, PanicsOf, WireOf, EndOf, RouteOf, RpcStatus;
      RunsNext(e, next, script);
      match e {
        case Logging => LoggingLayer(next, script, path, route, before);
        case Metrics => MetricsLayer(next, script, path, route, before);
        case Recovery => RecoveryLayer(next, script, path, route, before);
        case _ => PlainLayer(e, next, script, path, route, before);
      }
      if e.Recovery? && EndOf(next, script) == Panics {
        PanicUnrecovered(next, script, path, route, before);
      } else {
        RecordsAgreeWithWire(next, script, path, route, before);
      }
  }

  lemma RunsNext(e: Entry, next: Handler, script: Script)
    requires !e.Answers?
    ensures Runs(Wrapped(e, next), script) == Runs(next, script)
  {
  }

  /** An abort goes through every layer with nothing logged and nothing counted, and nothing is added to
      what the handler wrote. */
  lemma {:induction false} AbortLeavesNoTrace(h: Handler, script: Script, path: string, route: string, before: string)
    requires EndOf(h, script) == Aborts
    ensures WireOf(h, script, UNWRITTEN) == Played(UNWRITTEN, script.calls)
    ensures LinesOf(h, script, path, route, before) == []
    ensures SamplesOf(h, script, route, before) == [] && PanicsOf(h, script, route, before) == []
  {
    if h.Wrapped? {
      AbortLeavesNoTrace(h.next, script, path, route, before);
    }
  }

  function CountOf(entries: seq<Entry>, e: Entry): nat {
    if entries == [] then 0 else CountOf(entries[1..], e) + if entries[0] == e then 1 else 0
  }

  /** The entries a request gets to: those down to the first that answers it. */
  function Reached(h: Handler): seq<Entry> {
    match h
    case Mux => []
    case Wrapped(Answers(calls), _) => [Answers(calls)]
    case Wrapped(e, next) => [e] + Reached(next)
  }

  /** Every metric entry a request gets to counts it exactly once unless it is aborted; a panic that is
      recovered is logged once, by the innermost Recovery. */
  lemma {:induction false} CountedOnce(h: Handler, script: Script, route: string, before: string)
    requires EndOf(h, script) != Aborts
    ensures |SamplesOf(h, script, route, before)| == CountOf(Reached(h), Metrics)
    ensures |PanicsOf(h, script, route, before)| == if Runs(h, script).ending == Panics && HasRecovery(h) then 1 else 0
  {
    if h.Wrapped? && !h.entry.Answers? {
      CountedOnce(h.next, script, route, before);
      assert Reached(h)[1..] == Reached(h.next);
    } else if h.Wrapped? {
      assert Reached(h)[1..] == [];
    }
  }

  predicate NoAnswers(entries: seq<Entry>) {
    forall i :: 0 <= i < |entries| ==> !entries[i].Answers?
  }

  lemma {:induction false} ReachedInChain(a: seq<Entry>, h: Handler)
    requires NoAnswers(a)
    ensures Reached(Chain(a, h)) == a + Reached(h)
    decreases |a|
  {
    if a != [] {
      ReachedInChain(a[1..], h);
      assert a == [a[0]] + a[1..];
    }
  }

  lemma {:induction false} CountAppend(a: seq<Entry>, b: seq<Entry>, e: Entry)
    ensures CountOf(a + b, e) == CountOf(a, e) + CountOf(b, e)
    decreases |a|
  {
    if a == [] {
      assert a + b == b;
    } else {
      assert (a + b)[1..] == a[1..] + b;
      CountAppend(a[1..], b, e);
    }
  }

  /** So the metrics of a chain count a request that one entry answers exactly if they stand above it: all of
      them do if and only if none stands below. */
  lemma CountedAboveAnswer(a: seq<Entry>, calls: seq<Call>, b: seq<Entry>, script: Script, route: string)
    requires NoAnswers(a)
    ensures var h := Chain(a + [Answers(calls)] + b, Mux);
            && |SamplesOf(h, script, route, "")| == CountOf(a, Metrics)
            && (|SamplesOf(h, script, route, "")| == CountOf(EntriesOf(h), Metrics) <==> CountOf(b, Metrics) == 0)
  {
    var es := a + [Answers(calls)] + b;
    var h := Chain(es, Mux);
    var tail := Chain([Answers(calls)] + b, Mux);
    assert es == a + ([Answers(calls)] + b);
    ChainAppend(a, [Answers(calls)] + b, Mux);
    assert tail == Wrapped(Answers(calls), Chain(b, Mux)) by {
      assert ([Answers(calls)] + b)[1..] == b;
    }
    ReachedInChain(a, tail);
    RunsBelow(a, tail, script);
    CountedOnce(h, script, route, "");
    ChainInOrder(es);
    CountAppend(a + [Answers(calls)], b, Metrics);
    CountAppend(a, [Answers(calls)], Metrics);
    assert [Answers(calls)][1..] == [];
  }

  lemma {:induction false} RunsBelow(a: seq<Entry>, h: Handler, script: Script)
    ensures NoAnswers(a) ==> Runs(Chain(a, h), script) == Runs(h, script)
    ensures forall h2 :: Runs(h2, script) == Runs(h, script) ==> Runs(Chain(a, h2), script) == Runs(Chain(a, h), script)
    decreases |a|
  {
    if a != [] {
      RunsBelow(a[1..], h, script);
    }
  }

  lemma {:induction false} RecoveryInChain(entries: seq<Entry>)
    ensures HasRecovery(Chain(entries, Mux)) <==> Recovery in entries
    decreases |entries|
  {
    if entries != [] {
      RecoveryInChain(entries[1..]);
      assert entries == [entries[0]] + entries[1..];
    }
  }

  /** Which side of Recovery the metric is put on does not show: the wire is the same, and so is the status
      of every sample. */
  lemma PlacementDoesNotShow(a: seq<Entry>, b: seq<Entry>, script: Script, route: string, before: string)
    requires script.ending != Aborts
    ensures var inside, outside := Chain(a + [Recovery, Metrics] + b, Mux), Chain(a + [Metrics, Recovery] + b, Mux);
            var wire := WireOf(inside, script, UNWRITTEN);
            && WireOf(outside, script, UNWRITTEN) == wire
            && (forall x :: x in SamplesOf(inside, script, route, before) + SamplesOf(outside, script, route, before)
                  ==> x.status == Final(wire))
  {
    var inside, outside := a + [Recovery, Metrics] + b, a + [Metrics, Recovery] + b;
    assert inside[|a|] == Recovery && outside[|a| + 1] == Recovery;
    SwapRuns(a, b, script);
    RecoveryInChain(inside);
    RecoveryInChain(outside);
    NotAborted(Chain(inside, Mux), script);
    NotAborted(Chain(outside, Mux), script);
    RecordsAgreeWithWire(Chain(inside, Mux), script, "", route, before);
    RecordsAgreeWithWire(Chain(outside, Mux), script, "", route, before);
  }

  lemma {:induction false} NotAborted(h: Handler, script: Script)
    requires script.ending != Aborts
    ensures Runs(h, script).ending != Aborts
  {
    if h.Wrapped? {
      NotAborted(h.next, script);
    }
  }

  lemma SwapRuns(a: seq<Entry>, b: seq<Entry>, script: Script)
    ensures Runs(Chain(a + [Recovery, Metrics] + b, Mux), script)
        == Runs(Chain(a + [Metrics, Recovery] + b, Mux), script)
  {
    var one, two := [Recovery, Metrics] + b, [Metrics, Recovery] + b;
    assert a + [Recovery, Metrics] + b == a + one && a + [Metrics, Recovery] + b == a + two;
    ChainAppend(a, one, Mux);
    ChainAppend(a, two, Mux);
    assert one[1..] == [Metrics] + b && one[1..][1..] == b && two[1..] == [Recovery] + b && two[1..][1..] == b;
    var h := Chain(b, Mux);
    assert Chain(one[1..], Mux) == Wrapped(Metrics, h) && Chain(two[1..], Mux) == Wrapped(Recovery, h);
    assert Chain(one, Mux) == Wrapped(Recovery, Wrapped(Metrics, h));
    assert Chain(two, Mux) == Wrapped(Metrics, Wrapped(Recovery, h));
    assert Runs(Wrapped(Metrics, h), script) == Runs(h, script) == Runs(Wrapped(Recovery, h), script);
    assert Runs(Chain(one, Mux), script) == Runs(h, script) == Runs(Chain(two, Mux), script);
    RunsBelow(a, Chain(one, Mux), script);
  }

  lemma {:induction false} DirectIff(entries: seq<Entry>)
    ensures Direct(Chain(entries, Mux)) <==> NoneHides(entries)
    decreases |entries|
  {
    if entries != [] {
      DirectIff(entries[1..]);
      assert forall i :: 1 <= i < |entries| ==> entries[i] == entries[1..][i - 1];
      assert forall i :: 0 <= i < |entries| - 1 ==> entries[1..][i] == entries[i + 1];
    }
  }

  /** What the inner part of a chain records comes first, whatever is around it. */
  lemma {:induction false} InnerFirst(a: seq<Entry>, h: Handler, script: Script, path: string, route: string,
      before: string)
    requires NoAnswers(a)
    ensures LinesOf(h, script, path, route, before) <= LinesOf(Chain(a, h), script, path, route, before)
    ensures SamplesOf(h, script, route, before) <= SamplesOf(Chain(a, h), script, route, before)
    ensures PanicsOf(h, script, route, before) <= PanicsOf(Chain(a, h), script, route, before)
    decreases |a|
  {
    if a != [] {
      InnerFirst(a[1..], h, script, path, route, before);
    }
  }

  /** An entry that reads the route after next, and that the request gets to, sees the one that was matched
      exactly when no entry below it hands on a copy of the request or answers it, wherever it stands in the
      chain and whatever is around it. For the
      metric that is its sample, for Logging its access line, for Recovery its panic line: each time the
      one that follows those of the entries below. */
  lemma RouteSeenIff(a: seq<Entry>, b: seq<Entry>, script: Script, path: string, route: string)
    requires route != "" && NoAnswers(a)
    ensures var h, below := Chain(a + [Metrics] + b, Mux), Chain(b, Mux);
            var k := |SamplesOf(below, script, route, "")|;
            EndOf(below, script) != Aborts ==>
              && k < |SamplesOf(h, script, route, "")|
              && (SamplesOf(h, script, route, "")[k].route == route <==> NoneHides(b))
    ensures var h, below := Chain(a + [Logging] + b, Mux), Chain(b, Mux);
            var k := |LinesOf(below, script, path, route, "")|;
            !IsProbePath(path) && EndOf(below, script) == Returns ==>
              && k < |LinesOf(h, script, path, route, "")|
              && (LinesOf(h, script, path, route, "")[k].route == route <==> NoneHides(b))
    ensures var h, below := Chain(a + [Recovery] + b, Mux), Chain(b, Mux);
            var k := |PanicsOf(below, script, route, "")|;
            EndOf(below, script) == Panics ==>
              && k < |PanicsOf(h, script, route, "")|
              && (PanicsOf(h, script, route, "")[k] == route <==> NoneHides(b))
  {
    hide NoneHides, WireOf, IsProbePath, HasRecovery, RouteOf, Chain;
    RouteOfBelow(b, route);
    Around(a, Metrics, b, script, path, route);
    Around(a, Logging, b, script, path, route);
    Around(a, Recovery, b, script, path, route);
  }

  predicate NoneHides(entries: seq<Entry>) {
    forall i :: 0 <= i < |entries| ==> !Hides(entries[i])
  }

  lemma RouteOfBelow(b: seq<Entry>, route: string)
    requires route != ""
    ensures RouteOf(Chain(b, Mux), route, "") == route <==> NoneHides(b)
  {
    DirectIff(b);
  }

  lemma Around(a: seq<Entry>, e: Entry, b: seq<Entry>, script: Script, path: string, route: string)
    requires NoAnswers(a)
    ensures var h, here := Chain(a + [e] + b, Mux), Wrapped(e, Chain(b, Mux));
            && LinesOf(here, script, path, route, "") <= LinesOf(h, script, path, route, "")
            && SamplesOf(here, script, route, "") <= SamplesOf(h, script, route, "")
            && PanicsOf(here, script, route, "") <= PanicsOf(h, script, route, "")
  {
    hide LinesOf, SamplesOf, PanicsOf;
    assert a + [e] + b == a + ([e] + b);
    assert ([e] + b)[1..] == b;
    ChainAppend(a, [e] + b, Mux);
    InnerFirst(a, Wrapped(e, Chain(b, Mux)), script, path, route, "");
  }

  lemma DocumentedShape()
    ensures Chain(DEFAULT + [Metrics], Mux) ==
            Wrapped(RequestID, Wrapped(Logging, Wrapped(Recovery, Wrapped(Metrics, Mux))))
  {
    var es := DEFAULT + [Metrics];
    assert es[1..] == [Logging, Recovery, Metrics] && es[1..][1..] == [Recovery, Metrics];
    assert es[1..][1..][1..] == [Metrics] && es[1..][1..][1..][1..] == [];
    assert Chain(es[1..][1..][1..], Mux) == Wrapped(Metrics, Mux);
    assert Chain(es[1..][1..], Mux) == Wrapped(Recovery, Wrapped(Metrics, Mux));
    assert Chain(es[1..], Mux) == Wrapped(Logging, Wrapped(Recovery, Wrapped(Metrics, Mux)));
  }

  /** The documented wiring: DefaultMiddleware with the metric appended. One sample with its route, and off
      the probe paths one access line, both with the client's status. */
  lemma DocumentedWiring(script: Script, path: string, route: string)
    requires script.ending != Aborts && !IsProbePath(path)
    ensures var h := Chain(DEFAULT + [Metrics], Mux);
            var status := Final(WireOf(h, script, UNWRITTEN));
            && EndOf(h, script) == Returns
            && SamplesOf(h, script, route, "") == [Sample(route, status)]
            && |LinesOf(h, script, path, route, "")| == 1
            && var line := LinesOf(h, script, path, route, "")[0];
               line.route == route && line.status == status && line.bytes == WireOf(h, script, UNWRITTEN).body
  {
    hide LinesOf, SamplesOf, PanicsOf, WireOf, RouteOf, IsProbePath, RpcStatus, Played;
    DocumentedShape();
    var h1 := Wrapped(Metrics, Mux);
    var h2 := Wrapped(Recovery, h1);
    var h3 := Wrapped(Logging, h2);
    var h := Wrapped(RequestID, h3);
    MuxLayer(script, path, route);
    MetricsLayer(Mux, script, path, route, "");
    RecoveryLayer(h1, script, path, route, "");
    LoggingLayer(h2, script, path, route, "");
    PlainLayer(RequestID, h3, script, path, route, "");
    RecordsAgreeWithWire(h, script, path, route, "");
    assert SamplesOf(h, script, route, "")[0] in SamplesOf(h, script, route, "");
  }
}
