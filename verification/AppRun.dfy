/** Run put together with the watchers: the death that ends the wait is one they brought (app.go:111-118,
    143-162, 223-244). */
module AppRun {
  import opened App
  import opened Wrappers
  import W = Watchers

  lemma {:induction false} StartedAll(cs: seq<Component>, i: nat)
    requires i < |cs|
    ensures Started(cs[i]) in Starts(cs)
    decreases |cs|
  {
    if i < |cs| - 1 {
      StartedAll(cs[..|cs| - 1], i);
    }
  }

  /** Run over any schedule of its watchers that ends the wait, with a signal or a death. When every
      Component has started, a death that is joined with the stop errors is that of a Component that had
      started, as it died it, observed by its watcher; a signal joins nothing. */
  method Run(app: Application, schedule: seq<W.Step>) returns (err: seq<Error>)
    requires app.Valid() && !app.begun
    requires W.Run(|app.comps|, schedule).Some?
    requires W.Run(|app.comps|, schedule).value.run.Signalled? || W.Run(|app.comps|, schedule).value.run.GotDeath?
    modifies app
    ensures app.Valid() && app.begun && app.comps == old(app.comps)
    ensures app.stops == if AllStart(app.comps) then 1 else 0
    ensures DistinctNames(app.comps) && !AllStart(app.comps) ==> err == StartErrors(app.comps)
    ensures var s, order := W.Run(|app.comps|, schedule).value, TierOrder(app.comps);
            && (AllStart(app.comps) && s.run.Signalled? ==> err == StopErrors(order))
            && (AllStart(app.comps) && s.run.GotDeath? ==>
                  var d := s.run.death;
                  && d.who < |order| && Started(order[d.who]) in app.trace
                  && d.who in s.observed && d.who in s.fates && d.cause == s.fates[d.who]
                  && err == [Died(order[d.who].name, d.cause)] + StopErrors(order))
  {
    hide W.Run, TierOrder, StopErrors, StartErrors, Starts, AllStart, DistinctNames;
    var s := W.Run(|app.comps|, schedule).value;
    W.OneDeathNoneLost(|app.comps|, schedule);
    W.RunInv(|app.comps|, schedule);
    var order := TierOrder(app.comps);
    TierOrderIsStable(app.comps);
    var death := None;
    if s.run.GotDeath? {
      death := Some(Died(order[s.run.death.who].name, s.run.death.cause));
      StartedAll(order, s.run.death.who);
    }
    err := app.Run(death);
    if AllStart(app.comps) {
      TraceStarts(app.comps);
    }
  }

  lemma TraceStarts(cs: seq<Component>)
    requires AllStart(cs)
    ensures forall e :: e in Starts(TierOrder(cs)) ==> e in WholeTrace(cs, 1)
  {
    hide TierOrder, Startable, Starts, Stops, Drains, DistinctNames;
    assert WholeTrace(cs, 1) == StartTrace(cs) + StopTrace(cs, 0) by {
      OneStop(cs);
    }
  }

  lemma OneStop(cs: seq<Component>)
    ensures WholeTrace(cs, 1) == StartTrace(cs) + StopTrace(cs, 0)
  {
    hide StartTrace, StopTrace;
    assert WholeTrace(cs, 0) == StartTrace(cs);
  }
}
