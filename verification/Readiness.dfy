/** Who says the pod is ready, and when: the App's flag (app.go), /readyz (actuator/actuator.go) and the
    gRPC health answer (grpc/health/health.go), at every moment of a Start/Stop cycle.

    A moment is a prefix of the App's trace. A probe reads both flags at one moment, and its Checks
    come out as the vector `up` says. */
module Readiness {
  import opened App

  const ACTUATOR := "actuator"

  // ---------------------------------------------------------- the Actuator

  datatype Body = Body(up: bool, checks: map<string, bool>)

  class Actuator {
    /** The Checks pulled in Start, by Component name. */
    var checks: set<string>
    var draining: bool
    const showDetails: bool

    constructor (showDetails: bool)
      ensures this.showDetails == showDetails && !draining && checks == {}
    {
      this.showDetails := showDetails;
      checks, draining := {}, false;
    }

    /** Start pulls every Check the App offers. */
    method Start(app: Application)
      modifies this`checks
      ensures checks == CheckNames(app.comps)
      ensures forall n :: n in checks <==>
                            exists i :: 0 <= i < |app.comps| && app.comps[i].name == n && app.comps[i].checks
    {
      var m := app.Checks();
      var todo := m.Keys;
      checks := {};
      while todo != {}
        invariant todo <= m.Keys && checks == m.Keys - todo
        decreases todo
      {
        var name :| name in todo;
        checks := checks + {name};
        todo := todo - {name};
      }
    }

    method Drain()
      modifies this`draining
      ensures draining
    {
      draining := true;
    }

    /** Every Check runs, in whatever order the map yields them, and every failure is reported. */
    method Readyz(app: Application, up: string -> bool) returns (code: int, body: Body)
      ensures code == 200 || code == 503
      ensures code == 200 <==> ReadyzOk(app.ready, draining, checks, up)
      ensures code == 200 <==> app.ready && !draining && forall n :: n in checks ==> up(n)
      ensures body.up <==> code == 200
      ensures app.ready && !draining && showDetails ==>
                body.checks.Keys == checks && forall n :: n in checks ==> body.checks[n] == up(n)
      ensures !showDetails || !app.ready || draining ==> body.checks == map[]
    {
      if !app.ready || draining {
        return 503, Body(false, map[]);
      }
      var status, out: map<string, bool> := true, map[];
      code := 200;
      var todo := checks;
      while todo != {}
        invariant todo <= checks && out.Keys == checks - todo
        invariant forall n :: n in out ==> out[n] == up(n)
        invariant code == 200 || code == 503
        invariant status <==> code == 200
        invariant code == 200 <==> forall n :: n in checks - todo ==> up(n)
        decreases todo
      {
        var n :| n in todo;
        todo := todo - {n};
        out := out[n := up(n)];
        if !up(n) {
          status, code := false, 503;
        }
      }
      body := Body(status, if showDetails then out else map[]);
    }
  }

  predicate ReadyzOk(ready: bool, draining: bool, checks: set<string>, up: string -> bool) {
    ready && !draining && forall n :: n in checks ==> up(n)
  }

  // ------------------------------------------------------ the health service

  datatype Answer = NotFound | NotServing | Serving

  predicate HealthOk(ready: bool, cs: seq<Component>, up: string -> bool) {
    ready && forall n :: n in CheckNames(cs) ==> up(n)
  }

  /** The health service asks the App each time and stops at the first failing Check. */
  method HealthCheck(app: Application, service: string, up: string -> bool) returns (a: Answer)
    ensures a == NotFound <==> service != ""
    ensures service == "" ==> (a == Serving <==> HealthOk(app.ready, app.comps, up))
    ensures service == "" ==>
              (a == Serving <==>
                app.ready && forall i :: 0 <= i < |app.comps| && app.comps[i].checks ==> up(app.comps[i].name))
  {
    if service != "" {
      return NotFound;
    }
    if !app.ready {
      return NotServing;
    }
    var m := app.Checks();
    var todo := m.Keys;
    while todo != {}
      invariant todo <= m.Keys
      invariant forall n :: n in m.Keys - todo ==> up(n)
      decreases todo
    {
      var n :| n in todo;
      todo := todo - {n};
      if !up(n) {
        return NotServing;
      }
    }
    return Serving;
  }

  // --------------------------------------------------------- every moment

  /** The pod at one moment: what has started, drained and stopped, and the two fields of the Actuator the
      App drives. The App's own flag at that moment is Application.flags. */
  datatype Moment = Moment(started: seq<Component>, drained: seq<Component>, stopped: seq<Component>,
                           pulled: bool, draining: bool)

  const START_OF_TIME := Moment([], [], [], false, false)

  function Advance(m: Moment, e: Event): Moment {
    match e
    case Started(c) => m.(started := m.started + [c], pulled := m.pulled || c.name == ACTUATOR)
    case Drained(c) => m.(drained := m.drained + [c], draining := m.draining || c.name == ACTUATOR)
    case Stopped(c) => m.(stopped := m.stopped + [c])
    case _ => m
  }

  function Replay(es: seq<Event>): Moment {
    if es == [] then START_OF_TIME else Advance(Replay(es[..|es| - 1]), es[|es| - 1])
  }

  /** The Checks the Actuator holds at a moment: all of the App's once its Start has pulled them, since
      nothing is added after Start. */
  function Held(cs: seq<Component>, m: Moment): set<string> {
    if m.pulled then CheckNames(cs) else {}
  }

  ghost predicate HasActuator(cs: seq<Component>) {
    exists i :: 0 <= i < |cs| && cs[i].name == ACTUATOR
  }

  /** Nothing in it turns readiness on. */
  predicate Quiet(es: seq<Event>) {
    forall i :: 0 <= i < |es| ==> !es[i].ReadyOn?
  }

  lemma QuietAppend(xs: seq<Event>, ys: seq<Event>)
    requires Quiet(xs) && Quiet(ys)
    ensures Quiet(xs + ys)
  {
  }

  lemma {:induction false} PhasesQuiet(cs: seq<Component>)
    ensures Quiet(Starts(cs)) && Quiet(Drains(cs)) && Quiet(Stops(cs))
    decreases |cs|
  {
    if cs != [] {
      var front, c := cs[..|cs| - 1], cs[|cs| - 1];
      var drained := if c.drains then [Drained(c)] else [];
      assert Quiet([Started(c)]) && Quiet(drained) && Quiet([Stopped(c)]);
      hide Quiet;
      PhasesQuiet(front);
      QuietAppend(Starts(front), [Started(c)]);
      QuietAppend(Drains(front), drained);
      QuietAppend([Stopped(c)], Stops(front));
    }
  }

  /** A quiet stretch that begins unready stays so. */
  lemma {:induction false} QuietStaysUnready(xs: seq<Event>, ys: seq<Event>)
    requires !ReadyAfter(xs) && Quiet(ys)
    ensures !ReadyAfter(xs + ys)
    decreases |ys|
  {
    if ys == [] {
      assert xs + ys == xs;
    } else {
      assert (xs + ys)[..|xs + ys| - 1] == xs + ys[..|ys| - 1];
      QuietStaysUnready(xs, ys[..|ys| - 1]);
    }
  }

  /** Everything after Start. */
  function Tail(cs: seq<Component>, n: nat): seq<Event> {
    if n == 0 then [] else Tail(cs, n - 1) + StopTrace(cs, n - 1)
  }

  lemma {:induction false} StartThenTail(cs: seq<Component>, n: nat)
    ensures WholeTrace(cs, n) == StartTrace(cs) + Tail(cs, n)
    decreases n
  {
    if n == 0 {
      hide StopTrace, StartTrace;
      assert StartTrace(cs) + [] == StartTrace(cs);
    } else {
      hide StopTrace, StartTrace;
      StartThenTail(cs, n - 1);
      assert StartTrace(cs) + (Tail(cs, n - 1) + StopTrace(cs, n - 1))
          == StartTrace(cs) + Tail(cs, n - 1) + StopTrace(cs, n - 1);
    }
  }

  lemma {:induction false} TailQuiet(cs: seq<Component>, n: nat)
    ensures Quiet(Tail(cs, n)) && (Tail(cs, n) != [] ==> Tail(cs, n)[0] == ReadyOff)
    decreases n
  {
    if n > 0 {
      hide StopTrace, Quiet;
      TailQuiet(cs, n - 1);
      StopQuiet(cs, n - 1);
      QuietAppend(Tail(cs, n - 1), StopTrace(cs, n - 1));
    }
  }

  lemma StopQuiet(cs: seq<Component>, k: nat)
    ensures Quiet(StopTrace(cs, k)) && StopTrace(cs, k) != [] && StopTrace(cs, k)[0] == ReadyOff
  {
    hide TierOrder, Startable, Drains, Stops, DistinctNames;
    PhasesQuiet(TierOrder(cs));
  }

  lemma FailedStartQuiet(cs: seq<Component>)
    requires !AllStart(cs)
    ensures Quiet(StartTrace(cs))
  {
    if DistinctNames(cs) {
      PhasesQuiet(TierOrder(cs)[..Startable(TierOrder(cs))]);
    }
  }

  /** The flag is on after exactly one prefix of the trace. */
  lemma ReadyPrefix(cs: seq<Component>, n: nat, es: seq<Event>)
    requires es <= WholeTrace(cs, n)
    ensures ReadyAfter(es) <==> AllStart(cs) && es == Starts(TierOrder(cs)) + [ReadyOn]
  {
    hide TierOrder, Startable, DistinctNames, Starts, Drains, Stops, WholeTrace, Tail, ReadyAfter;
    StartThenTail(cs, n);
    TailQuiet(cs, n);
    if AllStart(cs) {
      PhasesQuiet(TierOrder(cs));
      ReadyOnce(Starts(TierOrder(cs)), Tail(cs, n), es);
    } else {
      FailedStartQuiet(cs);
      QuietAppend(StartTrace(cs), Tail(cs, n));
      NeverReady(es);
    }
  }

  lemma NeverReady(es: seq<Event>)
    requires Quiet(es)
    ensures !ReadyAfter(es)
  {
    QuietStaysUnready([], es);
    assert [] + es == es;
  }

  /** A quiet stretch, readiness, then a quiet stretch that first takes it back. */
  lemma ReadyOnce(xs: seq<Event>, ys: seq<Event>, es: seq<Event>)
    requires Quiet(xs) && Quiet(ys) && (ys != [] ==> ys[0] == ReadyOff) && es <= xs + [ReadyOn] + ys
    ensures ReadyAfter(es) <==> es == xs + [ReadyOn]
  {
    var up := xs + [ReadyOn];
    if |es| < |up| {
      assert es == xs[..|es|];
      NeverReady(es);
    } else if |es| == |up| {
      assert es == up && up[..|xs|] == xs;
    } else {
      var down, rest := up + [ReadyOff], es[|up| + 1..];
      assert es == down + rest && down[..|up|] == up;
      assert rest == ys[1..|es| - |up|];
      QuietStaysUnready(down, rest);
    }
  }

  /** The flag the App stores is on at exactly one moment of whatever has happened to the App: after the last
      Start and before anything else. Until the last Component has started it is off. */
  lemma ReadyExactlyThen(app: Application, k: nat)
    requires app.Valid() && app.begun && k < |app.trace|
    ensures app.flags[k] <==> AllStart(app.comps) && app.trace[..k + 1] == Starts(TierOrder(app.comps)) + [ReadyOn]
  {
    hide ReadyAfter, WholeTrace, Starts, TierOrder, AllStart;
    ReadyPrefix(app.comps, app.stops, app.trace[..k + 1]);
  }

  lemma {:induction false} ReplayLists(es: seq<Event>)
    ensures Replay(es).started == StartedOf(es) && Replay(es).drained == DrainedOf(es)
        && Replay(es).stopped == StoppedOf(es)
    decreases |es|
  {
    if es != [] {
      ReplayLists(es[..|es| - 1]);
    }
  }

  lemma {:induction false} DrainingMeansDrained(es: seq<Event>)
    ensures Replay(es).draining ==> Replay(es).drained != []
    decreases |es|
  {
    if es != [] {
      DrainingMeansDrained(es[..|es| - 1]);
    }
  }

  /** The Actuator has pulled its Checks once it has been started, and is draining once it has been drained. */
  lemma {:induction false} ReplayFlags(es: seq<Event>)
    ensures Replay(es).pulled <==> exists i :: 0 <= i < |es| && es[i].Started? && es[i].c.name == ACTUATOR
    ensures Replay(es).draining <==> exists i :: 0 <= i < |es| && es[i].Drained? && es[i].c.name == ACTUATOR
    decreases |es|
  {
    if es != [] {
      var front := es[..|es| - 1];
      ReplayFlags(front);
      assert forall i :: 0 <= i < |front| ==> front[i] == es[i];
    }
  }

  lemma {:induction false} StartsPull(cs: seq<Component>)
    ensures Replay(Starts(cs)).pulled <==> HasActuator(cs)
    decreases |cs|
  {
    if cs != [] {
      var front := cs[..|cs| - 1];
      StartsPull(front);
      if HasActuator(front) {
        var i :| 0 <= i < |front| && front[i].name == ACTUATOR;
        assert cs[i].name == ACTUATOR;
      }
    }
  }

  lemma ReadyMoment(cs: seq<Component>, n: nat, es: seq<Event>)
    requires HasActuator(cs) && es <= WholeTrace(cs, n)
    ensures var m := Replay(es);
            && (ReadyAfter(es) ==> m.started == TierOrder(cs) && m.drained == [] && m.stopped == [] && m.pulled)
            && (m.draining ==> !ReadyAfter(es))
  {
    hide TierOrder, Startable, DistinctNames, Starts, Replay, StartedOf, DrainedOf, StoppedOf, ReadyAfter, WholeTrace;
    ReadyPrefix(cs, n, es);
    DrainingMeansDrained(es);
    if ReadyAfter(es) {
      var order := TierOrder(cs);
      ReplayLists(es);
      ProjectStarts(order);
      ShowsNothing([ReadyOn]);
      ProjectAppend(Starts(order), [ReadyOn]);
      OrderHasActuator(cs);
      StartsPull(order);
      ReadyKeepsPull(Starts(order));
    }
  }

  /** At every moment of whatever has happened to an App with an Actuator: if the stored flag is on, every
      Component has started and none has been drained or stopped; a draining Actuator means it is off; and
      /readyz answers 200 exactly when the health service answers SERVING, however the Checks come out. */
  lemma ProbesAgree(app: Application, k: nat, up: string -> bool)
    requires app.Valid() && app.begun && HasActuator(app.comps) && k < |app.trace|
    ensures var m, ready := Replay(app.trace[..k + 1]), app.flags[k];
            && (ready ==> m.started == TierOrder(app.comps) && m.drained == [] && m.stopped == [])
            && (m.draining ==> !ready)
            && (ReadyzOk(ready, m.draining, Held(app.comps, m), up) <==> HealthOk(ready, app.comps, up))
  {
    hide ReadyAfter, WholeTrace, TierOrder, Replay, CheckNames, HasActuator;
    ReadyMoment(app.comps, app.stops, app.trace[..k + 1]);
  }

  lemma OrderHasActuator(cs: seq<Component>)
    requires HasActuator(cs)
    ensures HasActuator(TierOrder(cs))
  {
    TierOrderIsStable(cs);
    var i :| 0 <= i < |cs| && cs[i].name == ACTUATOR;
    assert cs[i] in multiset(cs);
    assert cs[i] in multiset(TierOrder(cs));
    var j :| 0 <= j < |TierOrder(cs)| && TierOrder(cs)[j] == cs[i];
  }

  lemma ReadyKeepsPull(es: seq<Event>)
    ensures Replay(es + [ReadyOn]).pulled == Replay(es).pulled
  {
    assert (es + [ReadyOn])[..|es|] == es;
  }
}
