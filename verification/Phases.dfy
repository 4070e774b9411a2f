/** The order of the shutdown phases (app.go:164-220), read off whatever has happened to an App: kinds of
    events at positions of its trace, with no word about how the trace comes about. */
module Phases {
  import opened App

  /** Every Component can start. */
  ghost predicate AllUp(cs: seq<Component>) {
    DistinctNames(cs) && forall i :: 0 <= i < |cs| ==> cs[i].startErr.None?
  }

  /** A shutdown of an App that was up: readiness goes off at `off`, when every Component has started; then
      come all the drains; the delay is waited out at `delay`; then come all the stops. */
  ghost predicate DrainsThenStops(es: seq<Event>, off: nat, delay: nat) {
    && off < delay < |es| && es[off] == ReadyOff && es[delay] == Delay
    && (forall i :: 0 <= i < |es| && (es[i].Started? || es[i].ReadyOn?) ==> i < off)
    && (forall i :: 0 <= i < |es| && es[i].Drained? ==> off < i < delay && Started(es[i].c) in es[..off])
    && (forall i :: 0 <= i < |es| && es[i].Stopped? ==> delay < i && Started(es[i].c) in es[..off])
    && (forall i :: 0 <= i < |es| ==> !es[i].StartFailed?)
  }

  /** A failed Start: readiness goes off at `off`, after the one Start that failed at `failed`, and only then
      are the Components stopped that had started before it. Nothing is drained. */
  ghost predicate FailsThenStops(es: seq<Event>, failed: nat, off: nat) {
    && failed < off < |es| && es[failed].StartFailed? && es[off] == ReadyOff
    && (forall i :: 0 <= i < |es| && es[i].StartFailed? ==> i == failed)
    && (forall i :: 0 <= i < |es| && es[i].Started? ==> i < failed)
    && (forall i :: 0 <= i < |es| && es[i].Stopped? ==> off < i && Started(es[i].c) in es[..failed])
    && (forall i :: 0 <= i < |es| ==> !es[i].Drained? && !es[i].ReadyOn?)
  }

  ghost predicate OnlyFlags(es: seq<Event>) {
    forall i :: 0 <= i < |es| ==> es[i].ReadyOff? || es[i].Delay?
  }

  // --------------------------------------------------- what each phase holds

  lemma {:induction false} StartsHold(cs: seq<Component>)
    ensures |Starts(cs)| == |cs| && forall i :: 0 <= i < |cs| ==> Starts(cs)[i] == Started(cs[i])
    decreases |cs|
  {
    if cs != [] {
      StartsHold(cs[..|cs| - 1]);
    }
  }

  lemma {:induction false} StopsHold(cs: seq<Component>)
    ensures |Stops(cs)| == |cs| && forall i :: 0 <= i < |cs| ==> Stops(cs)[i] == Stopped(cs[|cs| - 1 - i])
    decreases |cs|
  {
    if cs != [] {
      StopsHold(cs[..|cs| - 1]);
    }
  }

  lemma {:induction false} DrainsHold(cs: seq<Component>)
    ensures forall i :: 0 <= i < |Drains(cs)| ==> Drains(cs)[i].Drained? && Drains(cs)[i].c in cs
    decreases |cs|
  {
    if cs != [] {
      var front, c := cs[..|cs| - 1], cs[|cs| - 1];
      DrainsHold(front);
      assert cs == front + [c];
      forall i | 0 <= i < |Drains(cs)| ensures Drains(cs)[i].Drained? && Drains(cs)[i].c in cs {
        if i < |Drains(front)| {
          assert Drains(front)[i].c in front;
        }
      }
    }
  }

  lemma StartedHere(cs: seq<Component>, c: Component)
    requires c in cs
    ensures Started(c) in Starts(cs)
  {
    StartsHold(cs);
    var i :| 0 <= i < |cs| && cs[i] == c;
    assert Starts(cs)[i] == Started(c);
  }

  // ------------------------------------------------------- the whole trace

  lemma UpThenDown(order: seq<Component>)
    ensures var up := Starts(order) + [ReadyOn];
            DrainsThenStops(up + ([ReadyOff, WatchClosed] + Drains(order) + [Delay] + Stops(order)),
                            |up|, |up| + 2 + |Drains(order)|)
  {
    hide Starts, Drains, Stops;
    StartsHold(order);
    DrainsHold(order);
    StopsHold(order);
    var up, ds, ts := Starts(order) + [ReadyOn], Drains(order), Stops(order);
    var es := up + ([ReadyOff, WatchClosed] + ds + [Delay] + ts);
    var off, delay := |up|, |up| + 2 + |ds|;
    assert es[..off] == up;
    assert es[off] == ReadyOff && es[off + 1] == WatchClosed && es[delay] == Delay;
    forall i | off + 2 <= i < delay ensures es[i].Drained? && Started(es[i].c) in es[..off] {
      assert es[i] == ds[i - off - 2];
      StartedHere(order, es[i].c);
    }
    forall i | delay < i < |es| ensures es[i].Stopped? && Started(es[i].c) in es[..off] {
      assert es[i] == ts[i - delay - 1];
      StartedHere(order, es[i].c);
    }
    forall i | 0 <= i < off ensures es[i].Started? || es[i].ReadyOn? {
      assert es[i] == up[i];
    }
  }

  lemma FailedShape(ss: seq<Event>, mid: seq<Event>, ts: seq<Event>)
    requires |mid| == 3 && mid[0].StartFailed? && mid[1].ReadyOff? && mid[2].WatchClosed?
    requires forall e :: e in ss ==> e.Started?
    requires forall e :: e in ts ==> e.Stopped? && Started(e.c) in ss
    ensures FailsThenStops(ss + mid + ts, |ss|, |ss| + 1)
  {
    var es := ss + mid + ts;
    assert es[..|ss|] == ss;
    assert es[|ss|] == mid[0] && es[|ss| + 1] == mid[1] && es[|ss| + 2] == mid[2];
    forall i | 0 <= i < |ss| ensures es[i].Started? {
      assert es[i] == ss[i] && ss[i] in ss;
    }
    forall i | |ss| + 3 <= i < |es| ensures es[i].Stopped? && Started(es[i].c) in ss {
      assert es[i] == ts[i - |ss| - 3] && es[i] in ts;
    }
  }

  lemma FailedThenDown(up: seq<Component>, c: Component)
    ensures FailsThenStops(Starts(up) + [StartFailed(c), ReadyOff, WatchClosed] + Stops(up), |up|, |up| + 1)
  {
    hide Starts, Stops;
    StartsHold(up);
    StopsHold(up);
    var ss, mid, ts := Starts(up), [StartFailed(c), ReadyOff, WatchClosed], Stops(up);
    forall e | e in ts ensures e.Stopped? && Started(e.c) in ss {
      StartedHere(up, e.c);
    }
    FailedShape(ss, mid, ts);
  }

  lemma OneMoreStop(es: seq<Event>, more: seq<Event>, a: nat, b: nat)
    requires OnlyFlags(more)
    ensures DrainsThenStops(es, a, b) ==> DrainsThenStops(es + more, a, b)
    ensures FailsThenStops(es, a, b) ==> FailsThenStops(es + more, a, b)
    ensures OnlyFlags(es) ==> OnlyFlags(es + more)
  {
    var all := es + more;
    assert forall i :: 0 <= i < |es| ==> all[i] == es[i];
    assert forall i :: |es| <= i < |all| ==> all[i] == more[i - |es|];
    if a <= |es| {
      assert all[..a] == es[..a];
    }
  }

  lemma {:induction false} TraceWentUp(cs: seq<Component>, n: nat)
    requires AllStart(cs) && n > 0
    ensures exists off, delay :: DrainsThenStops(WholeTrace(cs, n), off, delay)
    decreases n
  {
    hide Starts, Drains, Stops, TierOrder, Startable, DistinctNames, DrainsThenStops, FailsThenStops, OnlyFlags;
    if n == 1 {
      var order := TierOrder(cs);
      UpThenDown(order);
      assert WholeTrace(cs, 0) == Starts(order) + [ReadyOn];
      assert WholeTrace(cs, 1) == WholeTrace(cs, 0) + StopTrace(cs, 0);
      assert StopTrace(cs, 0) == [ReadyOff, WatchClosed] + Drains(order) + [Delay] + Stops(order);
    } else {
      TraceWentUp(cs, n - 1);
      var off, delay :| DrainsThenStops(WholeTrace(cs, n - 1), off, delay);
      FlagsAre();
      OneMoreStop(WholeTrace(cs, n - 1), StopTrace(cs, n - 1), off, delay);
      assert DrainsThenStops(WholeTrace(cs, n), off, delay);
    }
  }

  lemma FlagsAre()
    ensures OnlyFlags([ReadyOff, Delay]) && OnlyFlags([])
  {
  }

  lemma {:induction false} TraceFailed(cs: seq<Component>, n: nat)
    requires !AllStart(cs)
    ensures if DistinctNames(cs) then exists failed, off :: FailsThenStops(WholeTrace(cs, n), failed, off)
            else OnlyFlags(WholeTrace(cs, n))
    decreases n
  {
    hide Starts, Drains, Stops, TierOrder, DistinctNames, DrainsThenStops, FailsThenStops, OnlyFlags;
    FlagsAre();
    if n == 0 {
      if DistinctNames(cs) {
        var order := TierOrder(cs);
        FailedThenDown(order[..Startable(order)], order[Startable(order)]);
        SomeStart(cs, Startable(order));
      }
    } else {
      TraceFailed(cs, n - 1);
      if DistinctNames(cs) {
        var failed, off :| FailsThenStops(WholeTrace(cs, n - 1), failed, off);
        OneMoreStop(WholeTrace(cs, n - 1), StopTrace(cs, n - 1), failed, off);
        assert FailsThenStops(WholeTrace(cs, n), failed, off);
      } else {
        OneMoreStop(WholeTrace(cs, n - 1), StopTrace(cs, n - 1), 0, 0);
      }
    }
  }

  lemma AllStartIff(cs: seq<Component>)
    ensures AllStart(cs) <==> AllUp(cs)
  {
    hide TierOrder;
    TierOrderIsStable(cs);
    var order := TierOrder(cs);
    forall i | 0 <= i < |cs| ensures cs[i] in order {
      assert cs[i] in multiset(cs);
      assert cs[i] in multiset(order);
    }
    forall i | 0 <= i < |order| ensures order[i] in cs {
      assert order[i] in multiset(order);
      assert order[i] in multiset(cs);
    }
  }

  /** The phases of whatever has happened to an App. If every Component could start, a Stop takes readiness
      off, then drains, then waits out the delay, then stops; without one nothing is drained or stopped. If
      one could not, readiness goes off after it failed and before anything is stopped. An App with two
      Components of one name does nothing at all but answer Stop. */
  lemma PhasesInOrder(app: Application)
    requires app.Valid() && app.begun
    ensures AllUp(app.comps) && app.stops > 0 ==> exists off, delay :: DrainsThenStops(app.trace, off, delay)
    ensures AllUp(app.comps) && app.stops == 0 ==>
              forall i :: 0 <= i < |app.trace| ==> app.trace[i].Started? || app.trace[i].ReadyOn?
    ensures DistinctNames(app.comps) && !AllUp(app.comps) ==>
              exists failed, off :: FailsThenStops(app.trace, failed, off)
    ensures !DistinctNames(app.comps) ==> OnlyFlags(app.trace)
  {
    hide Starts, Drains, Stops, TierOrder, Startable, DrainsThenStops, FailsThenStops, OnlyFlags;
    AllStartIff(app.comps);
    if AllUp(app.comps) {
      StartsHold(TierOrder(app.comps));
      if app.stops > 0 {
        TraceWentUp(app.comps, app.stops);
      }
    } else {
      TraceFailed(app.comps, app.stops);
    }
  }

  // ------------------------------------------- what the lists and errors are

  lemma {:induction false} ReverseAt(cs: seq<Component>, i: nat)
    requires i < |cs|
    ensures |Reverse(cs)| == |cs| && Reverse(cs)[i] == cs[|cs| - 1 - i]
    decreases |cs|
  {
    if |cs| > 1 {
      ReverseAt(cs[..|cs| - 1], if i == 0 then 0 else i - 1);
    }
  }

  /** One Component alone. */
  lemma OfOne(c: Component)
    ensures Drainers([c]) == if c.drains then [c] else []
    ensures StopErrors([c]) == if c.stopErr.Some? then [StopError(c.name, c.stopErr.value)] else []
    ensures Drainers([]) == [] && StopErrors([]) == []
  {
    assert [c][..0] == [];
  }

  /** The Drainers of two lists are those of the first and then those of the second; so they are exactly the
      Components that drain, in the order of the list. */
  lemma {:induction false} DrainersSplit(a: seq<Component>, b: seq<Component>)
    ensures Drainers(a + b) == Drainers(a) + Drainers(b)
    decreases |b|
  {
    if b == [] {
      assert a + b == a;
    } else {
      assert (a + b)[..|a + b| - 1] == a + b[..|b| - 1];
      DrainersSplit(a, b[..|b| - 1]);
    }
  }

  /** What is stopped later has its error later: of two lists the second is stopped first. */
  lemma {:induction false} StopErrorsSplit(a: seq<Component>, b: seq<Component>)
    ensures StopErrors(a + b) == StopErrors(b) + StopErrors(a)
    decreases |b|
  {
    hide StopErrors;
    NothingToDo();
    if b == [] {
      assert a + b == a;
    } else {
      var front, last := b[..|b| - 1], b[|b| - 1];
      StopErrorsSplit(a, front);
      LastOne(front, last);
      LastOne(a + front, last);
      assert b == front + [last] && a + b == a + front + [last];
    }
  }

  lemma LastOne(cs: seq<Component>, c: Component)
    ensures StopErrors(cs + [c]) ==
            (if c.stopErr.Some? then [StopError(c.name, c.stopErr.value)] else []) + StopErrors(cs)
  {
    assert (cs + [c])[..|cs|] == cs;
  }

  /** A Start that fails says which Component failed, and why, before anything a Stop said. */
  lemma StartErrorsSay(cs: seq<Component>, c: Component)
    requires DistinctNames(cs) && StartFailed(c) in WholeTrace(cs, 0)
    ensures c in cs && c.startErr.Some?
    ensures StartErrors(cs) == [StartError(c.name, c.startErr.value)] + StopErrors(StartedOf(WholeTrace(cs, 0)))
  {
    hide TierOrder, Starts, Stops, StopErrors, StartedOf, StoppedOf, DrainedOf, DistinctNames;
    var order := TierOrder(cs);
    var n := Startable(order);
    var up := order[..n];
    StartsHold(up);
    StopsHold(up);
    StartsHold(order);
    TierOrderIsStable(cs);
    TraceByKind(cs, 0);
    if n < |order| {
      var es := Starts(up) + [StartFailed(order[n]), ReadyOff, WatchClosed] + Stops(up);
      assert WholeTrace(cs, 0) == es;
      assert c == order[n];
      assert c in multiset(order);
      assert c in multiset(cs);
    }
  }
}
