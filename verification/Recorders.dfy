/** The response recorders of web/middleware.go:217-263 and web/metrics/metrics.go:166-214, nested in
    any order around a net/http writer.

    The net/http writer is the machine of its own WriteHeader, Write and Flush, for a connection that is
    not hijacked and a writer that can flush; codes are 100 to 999. Informational statuses follow
    section 15.2 of RFC 9110, except that 101 is final, as in net/http. */
module Recorders {

  const OK := 200
  const SWITCHING_PROTOCOLS := 101

  predicate ValidCode(code: int) {
    100 <= code <= 999
  }

  predicate Informational(code: int) {
    100 <= code <= 199 && code != SWITCHING_PROTOCOLS
  }

  // ---------------------------------------------------------------- the wire

  /** What has gone out: whether a final status has, which one, the informational ones, and how many bytes
      of body were taken. */
  datatype Wire = Wire(wrote: bool, status: int, infos: seq<int>, body: nat)

  const UNWRITTEN := Wire(false, OK, [], 0)

  /** The status the client receives: an unwritten response goes out as 200. */
  function Final(wire: Wire): int {
    if wire.wrote then wire.status else OK
  }

  function HeaderSent(wire: Wire, code: int): Wire {
    if wire.wrote then wire
    else if Informational(code) then wire.(infos := wire.infos + [code])
    else wire.(wrote := true, status := code)
  }

  function BodySent(wire: Wire, taken: nat): Wire {
    var w := HeaderSent(wire, OK);
    w.(body := w.body + taken)
  }

  /** The net/http writer. */
  class NetWriter {
    var wire: Wire

    constructor ()
      ensures wire == UNWRITTEN
    {
      wire := UNWRITTEN;
    }

    method WriteHeader(code: int)
      modifies this
      ensures wire == HeaderSent(old(wire), code)
    {
      wire := HeaderSent(wire, code);
    }

    /** `taken` is how many bytes the connection took. */
    method Write(taken: nat) returns (n: nat)
      modifies this
      ensures wire == BodySent(old(wire), taken) && n == taken
    {
      wire := BodySent(wire, taken);
      n := taken;
    }

    method Flush()
      modifies this
      ensures wire == HeaderSent(old(wire), OK)
    {
      wire := HeaderSent(wire, OK);
    }
  }

  // ------------------------------------------------------------ the recorders

  /** An http.ResponseWriter: net/http's own, or one of the two recorders around another writer. */
  datatype Writer = Net(net: NetWriter) | Web(web: WebRecorder) | Met(met: MetricsRecorder)

  /** goboot/web's recorder. */
  class WebRecorder {
    const inner: Writer
    ghost const depth: nat
    ghost const from: nat
    var status: int
    var bytes: int
    var wrote: bool

    constructor (inner: Writer)
      requires Chained(inner)
      ensures this.inner == inner && depth == Depth(inner) + 1 && from == Base(inner).wire.body
      ensures status == OK && bytes == 0 && !wrote
    {
      this.inner := inner;
      depth := Depth(inner) + 1;
      from := Base(inner).wire.body;
      status, bytes, wrote := OK, 0, false;
    }

    method WriteHeader(code: int)
      requires Chained(Web(this)) && Agree(Web(this)) && ValidCode(code)
      modifies Frame(Web(this))
      ensures Agree(Web(this))
      ensures Base(Web(this)).wire == HeaderSent(old(Base(Web(this)).wire), code)
      ensures !old(wrote) && (code == 101 || code >= 200) ==> wrote && status == code
      ensures old(wrote) || (code != 101 && code < 200) ==> wrote == old(wrote) && status == old(status)
      decreases depth, 0
    {
      WebOutside(inner, this);
      BaseInFrame(inner);
      if Informational(code) {
        SendHeader(inner, code);
        return;
      }
      if wrote {
        return;
      }
      wrote := true;
      status := code;
      SendHeader(inner, code);
    }

    method Write(taken: nat) returns (n: nat)
      requires Chained(Web(this)) && Agree(Web(this))
      modifies Frame(Web(this))
      ensures Agree(Web(this)) && n == taken
      ensures wrote && status == if old(wrote) then old(status) else 200
      ensures Base(Web(this)).wire == BodySent(old(Base(Web(this)).wire), taken)
      decreases depth, 0
    {
      WebOutside(inner, this);
      BaseInFrame(inner);
      wrote := true;
      n := SendBody(inner, taken);
      bytes := bytes + n;
    }

    method Flush()
      requires Chained(Web(this)) && Agree(Web(this))
      modifies Frame(Web(this))
      ensures Agree(Web(this))
      ensures Base(Web(this)).wire == HeaderSent(old(Base(Web(this)).wire), OK)
      ensures wrote && status == if old(wrote) then old(status) else 200
      decreases depth, 0
    {
      WebOutside(inner, this);
      BaseInFrame(inner);
      wrote := true;
      SendFlush(inner);
    }
  }

  /** goboot/web/metrics' smaller copy. */
  class MetricsRecorder {
    const inner: Writer
    ghost const depth: nat
    var status: int
    var wrote: bool

    constructor (inner: Writer)
      requires Chained(inner)
      ensures this.inner == inner && depth == Depth(inner) + 1
      ensures status == OK && !wrote
    {
      this.inner := inner;
      depth := Depth(inner) + 1;
      status, wrote := OK, false;
    }

    method WriteHeader(code: int)
      requires Chained(Met(this)) && Agree(Met(this)) && ValidCode(code)
      modifies Frame(Met(this))
      ensures Agree(Met(this))
      ensures Base(Met(this)).wire == HeaderSent(old(Base(Met(this)).wire), code)
      ensures !old(wrote) && (code == 101 || code >= 200) ==> wrote && status == code
      ensures old(wrote) || (code != 101 && code < 200) ==> wrote == old(wrote) && status == old(status)
      decreases depth, 0
    {
      MetOutside(inner, this);
      BaseInFrame(inner);
      if Informational(code) {
        SendHeader(inner, code);
        return;
      }
      if wrote {
        return;
      }
      wrote := true;
      status := code;
      SendHeader(inner, code);
    }

    method Write(taken: nat) returns (n: nat)
      requires Chained(Met(this)) && Agree(Met(this))
      modifies Frame(Met(this))
      ensures Agree(Met(this)) && n == taken
      ensures wrote && status == if old(wrote) then old(status) else 200
      ensures Base(Met(this)).wire == BodySent(old(Base(Met(this)).wire), taken)
      decreases depth, 0
    {
      MetOutside(inner, this);
      BaseInFrame(inner);
      wrote := true;
      n := SendBody(inner, taken);
    }

    method Flush()
      requires Chained(Met(this)) && Agree(Met(this))
      modifies Frame(Met(this))
      ensures Agree(Met(this))
      ensures Base(Met(this)).wire == HeaderSent(old(Base(Met(this)).wire), OK)
      ensures wrote && status == if old(wrote) then old(status) else 200
      decreases depth, 0
    {
      MetOutside(inner, this);
      BaseInFrame(inner);
      wrote := true;
      SendFlush(inner);
    }
  }

  // ------------------------------------------------------------ the nesting

  ghost function Depth(w: Writer): nat {
    match w
    case Net(_) => 0
    case Web(r) => r.depth
    case Met(r) => r.depth
  }

  /** A finite nesting: every recorder is one deeper than what it wraps. */
  ghost predicate Chained(w: Writer)
    decreases Depth(w)
  {
    match w
    case Net(_) => true
    case Web(r) => r.depth == Depth(r.inner) + 1 && Chained(r.inner)
    case Met(r) => r.depth == Depth(r.inner) + 1 && Chained(r.inner)
  }

  ghost function Base(w: Writer): NetWriter
    requires Chained(w)
    decreases Depth(w)
  {
    match w
    case Net(n) => n
    case Web(r) => Base(r.inner)
    case Met(r) => Base(r.inner)
  }

  ghost function Frame(w: Writer): set<object>
    requires Chained(w)
    decreases Depth(w)
  {
    match w
    case Net(n) => {n}
    case Web(r) => {r} + Frame(r.inner)
    case Met(r) => {r} + Frame(r.inner)
  }

  /** Every recorder in the nesting tells the truth about the wire under it: whether a final status has
      gone out, which one the client gets, and for goboot/web's how many bytes have since. */
  ghost predicate Agree(w: Writer)
    requires Chained(w)
    reads Frame(w), Base(w)
    decreases Depth(w)
  {
    match w
    case Net(_) => true
    case Web(r) =>
      && Agree(r.inner)
      && r.wrote == Base(w).wire.wrote && r.status == Final(Base(w).wire)
      && r.bytes == Base(w).wire.body - r.from
    case Met(r) =>
      && Agree(r.inner)
      && r.wrote == Base(w).wire.wrote && r.status == Final(Base(w).wire)
  }

  lemma BaseInFrame(w: Writer)
    requires Chained(w)
    ensures Base(w) in Frame(w)
    decreases Depth(w)
  {
    match w
    case Net(_) =>
    case Web(r) => BaseInFrame(r.inner);
    case Met(r) => BaseInFrame(r.inner);
  }

  /** A recorder is not inside what it wraps. */
  lemma WebOutside(w: Writer, r: WebRecorder)
    requires Chained(w) && r.depth > Depth(w)
    ensures r !in Frame(w)
    decreases Depth(w)
  {
    match w
    case Net(_) =>
    case Web(x) => WebOutside(x.inner, r);
    case Met(x) => WebOutside(x.inner, r);
  }

  lemma MetOutside(w: Writer, r: MetricsRecorder)
    requires Chained(w) && r.depth > Depth(w)
    ensures r !in Frame(w)
    decreases Depth(w)
  {
    match w
    case Net(_) =>
    case Web(x) => MetOutside(x.inner, r);
    case Met(x) => MetOutside(x.inner, r);
  }

  /** The interface call w.WriteHeader(code). */
  method SendHeader(w: Writer, code: int)
    requires Chained(w) && Agree(w) && ValidCode(code)
    modifies Frame(w)
    ensures Agree(w) && Base(w).wire == HeaderSent(old(Base(w).wire), code)
    decreases Depth(w), 1
  {
    match w
    case Net(n) => n.WriteHeader(code);
    case Web(r) => r.WriteHeader(code);
    case Met(r) => r.WriteHeader(code);
  }

  /** The interface call w.Write(b). */
  method SendBody(w: Writer, taken: nat) returns (n: nat)
    requires Chained(w) && Agree(w)
    modifies Frame(w)
    ensures Agree(w) && n == taken && Base(w).wire == BodySent(old(Base(w).wire), taken)
    decreases Depth(w), 1
  {
    match w
    case Net(x) => n := x.Write(taken);
    case Web(r) => n := r.Write(taken);
    case Met(r) => n := r.Write(taken);
  }

  /** http.NewResponseController(w).Flush(). */
  method SendFlush(w: Writer)
    requires Chained(w) && Agree(w)
    modifies Frame(w)
    ensures Agree(w) && Base(w).wire == HeaderSent(old(Base(w).wire), OK)
    decreases Depth(w), 1
  {
    match w
    case Net(n) => n.Flush();
    case Web(r) => r.Flush();
    case Met(r) => r.Flush();
  }
}
