/** The App lifecycle of app.go: Start, Stop and Run over a list of Components, with the trace of
    everything that happens to them.

    What each Component's Start and Stop come to is part of its value, so the theorems hold for every
    outcome. One goroutine drives the App and calls Start once (app.go:40-41). Timeouts only bound the
    context a Component is handed; a Start or Stop that ran out of time is one that failed. */
module App {
  import opened Wrappers

  /** What app.go can see of a Component: its name and Tier, whether it is a Drainer and a Checker, and
      what its Start and Stop return (None is nil). */
  datatype Component = Component(name: string, tier: int, drains: bool, checks: bool,
                                 startErr: Option<string>, stopErr: Option<string>)

  datatype Error = DuplicateName(name: string) | StartError(name: string, cause: string)
                 | StopError(name: string, cause: string) | Died(name: string, why: Option<string>)

  datatype Event =
    | Started(c: Component) | StartFailed(c: Component)
    | ReadyOn | ReadyOff | WatchClosed
    | Drained(c: Component) | Delay
    | Stopped(c: Component)

  // --------------------------------------------------------- the tier order

  function InsertByTier(c: Component, sorted: seq<Component>): seq<Component> {
    if sorted == [] || c.tier <= sorted[0].tier then [c] + sorted
    else [sorted[0]] + InsertByTier(c, sorted[1..])
  }

  /** slices.SortStableFunc by Tier. */
  function TierOrder(cs: seq<Component>): seq<Component> {
    if cs == [] then [] else InsertByTier(cs[0], TierOrder(cs[1..]))
  }

  function OfTier(cs: seq<Component>, t: int): seq<Component> {
    if cs == [] then [] else (if cs[0].tier == t then [cs[0]] else []) + OfTier(cs[1..], t)
  }

  ghost predicate ByTier(cs: seq<Component>) {
    forall i, j :: 0 <= i < j < |cs| ==> cs[i].tier <= cs[j].tier
  }

  /** Lowest Tier first, and within each Tier the order the Components were added in. */
  ghost predicate IsTierOrder(cs: seq<Component>, order: seq<Component>) {
    ByTier(order) && forall t :: OfTier(order, t) == OfTier(cs, t)
  }

  lemma {:induction false} InsertKeepsAll(c: Component, cs: seq<Component>)
    ensures multiset(InsertByTier(c, cs)) == multiset{c} + multiset(cs)
    decreases |cs|
  {
    if cs != [] && cs[0].tier < c.tier {
      InsertKeepsAll(c, cs[1..]);
      assert cs == [cs[0]] + cs[1..];
    }
  }

  lemma {:induction false} InsertInOrder(c: Component, cs: seq<Component>)
    requires ByTier(cs)
    ensures ByTier(InsertByTier(c, cs))
    decreases |cs|
  {
    if cs != [] && cs[0].tier < c.tier {
      InsertInOrder(c, cs[1..]);
      var rest := InsertByTier(c, cs[1..]);
      InsertKeepsAll(c, cs[1..]);
      forall j | 0 <= j < |rest| ensures cs[0].tier <= rest[j].tier {
        assert rest[j] in multiset(rest);
        assert rest[j] == c || rest[j] in cs[1..];
      }
    }
  }

  lemma OfTierCons(c: Component, cs: seq<Component>, t: int)
    ensures OfTier([c] + cs, t) == (if c.tier == t then [c] else []) + OfTier(cs, t)
  {
    assert ([c] + cs)[1..] == cs;
  }

  lemma {:induction false} InsertIsStable(c: Component, cs: seq<Component>, t: int)
    requires ByTier(cs)
    ensures OfTier(InsertByTier(c, cs), t) == (if c.tier == t then [c] else []) + OfTier(cs, t)
    decreases |cs|
  {
    hide OfTier;
    if cs == [] || c.tier <= cs[0].tier {
      OfTierCons(c, cs, t);
    } else {
      InsertIsStable(c, cs[1..], t);
      OfTierCons(cs[0], InsertByTier(c, cs[1..]), t);
      OfTierCons(cs[0], cs[1..], t);
      assert cs == [cs[0]] + cs[1..];
    }
  }

  lemma {:induction false} TierOrderIsStable(cs: seq<Component>)
    ensures IsTierOrder(cs, TierOrder(cs))
    ensures multiset(TierOrder(cs)) == multiset(cs) && |TierOrder(cs)| == |cs|
    decreases |cs|
  {
    if cs != [] {
      TierOrderIsStable(cs[1..]);
      forall t ensures OfTier(TierOrder(cs), t) == OfTier(cs, t) {
        InsertIsStable(cs[0], TierOrder(cs[1..]), t);
      }
      InsertInOrder(cs[0], TierOrder(cs[1..]));
      InsertKeepsAll(cs[0], TierOrder(cs[1..]));
      assert cs == [cs[0]] + cs[1..];
      assert |multiset(TierOrder(cs))| == |TierOrder(cs)|;
    }
  }

  lemma {:induction false} NoneOfTier(cs: seq<Component>, t: int)
    requires forall i :: 0 <= i < |cs| ==> cs[i].tier != t
    ensures OfTier(cs, t) == []
    decreases |cs|
  {
    if cs != [] {
      NoneOfTier(cs[1..], t);
    }
  }

  lemma NotBelow(one: seq<Component>, two: seq<Component>)
    requires one != [] && ByTier(two) && OfTier(one, one[0].tier) == OfTier(two, one[0].tier)
    ensures two != [] && two[0].tier <= one[0].tier
  {
    if two == [] || one[0].tier < two[0].tier {
      NoneOfTier(two, one[0].tier);
    }
  }

  /** Only one order is lowest Tier first with additions kept in order. */
  lemma {:induction false} TierOrderUnique(one: seq<Component>, two: seq<Component>)
    requires ByTier(one) && ByTier(two) && forall t :: OfTier(one, t) == OfTier(two, t)
    ensures one == two
    decreases |one|
  {
    if one == [] {
      if two != [] {
        NotBelow(two, one);
      }
    } else {
      NotBelow(one, two);
      NotBelow(two, one);
      assert OfTier(one, one[0].tier)[0] == one[0] && OfTier(two, two[0].tier)[0] == two[0];
      forall t ensures OfTier(one[1..], t) == OfTier(two[1..], t) {
        assert OfTier(one, t) == OfTier(two, t);
        var head := if one[0].tier == t then [one[0]] else [];
        assert OfTier(one[1..], t) == OfTier(one, t)[|head|..];
        assert OfTier(two[1..], t) == OfTier(two, t)[|head|..];
      }
      TierOrderUnique(one[1..], two[1..]);
      assert one == [one[0]] + one[1..] && two == [two[0]] + two[1..];
    }
  }

  // ------------------------------------------------- what the phases leave behind

  predicate DistinctNames(cs: seq<Component>) {
    forall i, j :: 0 <= i < j < |cs| ==> cs[i].name != cs[j].name
  }

  function Reverse(cs: seq<Component>): seq<Component> {
    if cs == [] then [] else [cs[|cs| - 1]] + Reverse(cs[..|cs| - 1])
  }

  function Starts(cs: seq<Component>): seq<Event> {
    if cs == [] then [] else Starts(cs[..|cs| - 1]) + [Started(cs[|cs| - 1])]
  }

  function Drains(cs: seq<Component>): seq<Event> {
    if cs == [] then []
    else Drains(cs[..|cs| - 1]) + if cs[|cs| - 1].drains then [Drained(cs[|cs| - 1])] else []
  }

  /** The last of cs first. */
  function Stops(cs: seq<Component>): seq<Event> {
    if cs == [] then [] else [Stopped(cs[|cs| - 1])] + Stops(cs[..|cs| - 1])
  }

  function StopErrors(cs: seq<Component>): seq<Error> {
    if cs == [] then []
    else
      var c := cs[|cs| - 1];
      (if c.stopErr.Some? then [StopError(c.name, c.stopErr.value)] else []) + StopErrors(cs[..|cs| - 1])
  }

  /** How many of the order start before the first that fails. */
  function Startable(cs: seq<Component>): (n: nat)
    ensures n <= |cs|
    ensures forall i :: 0 <= i < n ==> cs[i].startErr.None?
    ensures n < |cs| ==> cs[n].startErr.Some?
  {
    if cs == [] || cs[0].startErr.Some? then 0 else 1 + Startable(cs[1..])
  }

  /** Everything Start does to a list of Components. */
  function StartTrace(cs: seq<Component>): seq<Event> {
    if !DistinctNames(cs) then []
    else
      var order := TierOrder(cs);
      var n := Startable(order);
      if n == |order| then Starts(order) + [ReadyOn]
      else Starts(order[..n]) + [StartFailed(order[n]), ReadyOff, WatchClosed] + Stops(order[..n])
  }

  function StartErrors(cs: seq<Component>): seq<Error>
    requires DistinctNames(cs)
  {
    var order := TierOrder(cs);
    var n := Startable(order);
    if n == |order| then []
    else [StartError(order[n].name, order[n].startErr.value)] + StopErrors(order[..n])
  }

  predicate AllStart(cs: seq<Component>) {
    DistinctNames(cs) && Startable(TierOrder(cs)) == |TierOrder(cs)|
  }

  /** Everything the k-th Stop does: the first after a successful Start drains and stops, any other finds
      nothing to do. */
  function StopTrace(cs: seq<Component>, k: nat): seq<Event> {
    if k == 0 && AllStart(cs) then
      [ReadyOff, WatchClosed] + Drains(TierOrder(cs)) + [Delay] + Stops(TierOrder(cs))
    else [ReadyOff, Delay]
  }

  /** The trace of one Start and n Stops. */
  function WholeTrace(cs: seq<Component>, n: nat): seq<Event> {
    if n == 0 then StartTrace(cs) else WholeTrace(cs, n - 1) + StopTrace(cs, n - 1)
  }

  /** What the readiness flag has to be after these events. */
  function ReadyAfter(es: seq<Event>): bool {
    if es == [] then false
    else
      match es[|es| - 1]
      case ReadyOn => true
      case ReadyOff => false
      case _ => ReadyAfter(es[..|es| - 1])
  }

  // ------------------------------------------------------------------ the App

  class Application {
    var comps: seq<Component>
    var order: seq<Component>
    var started: nat
    var ready: bool
    /** stopWatch is non-nil, so the watchers are still watching. */
    var watching: bool
    /** Everything that has happened, and what the flag `ready` was at each of these moments. */
    ghost var trace: seq<Event>
    ghost var flags: seq<bool>
    /** Whether Start was called, and how often Stop was. */
    ghost var begun: bool
    ghost var stops: nat

    /** What was put down of the flag is what the events up to there make it. */
    ghost predicate Written()
      reads `trace, `flags
    {
      |flags| == |trace| && forall i :: 0 <= i < |flags| ==> flags[i] == ReadyAfter(trace[..i + 1])
    }

    /** And so is the flag the probes read. */
    ghost predicate Told()
      reads `trace, `flags, `ready
    {
      Written() && ready == ReadyAfter(trace)
    }

    /** Puts an event down with the flag as it stands, which must be what the event makes it. */
    ghost method Note(e: Event)
      requires Written() && ready == ReadyAfter(trace + [e])
      modifies `trace, `flags
      ensures Told() && trace == old(trace) + [e] && flags == old(flags) + [ready]
    {
      hide ReadyAfter;
      var es, seen := trace + [e], flags + [ready];
      forall i | 0 <= i < |seen| ensures seen[i] == ReadyAfter(es[..i + 1]) {
        assert i < |trace| ==> es[..i + 1] == trace[..i + 1];
        assert i == |trace| ==> es[..i + 1] == es;
      }
      trace, flags := es, seen;
    }

    /** An event that leaves the flag alone. */
    ghost method NotePlain(e: Event)
      requires Told() && !e.ReadyOn? && !e.ReadyOff?
      modifies `trace, `flags
      ensures Told() && trace == old(trace) + [e]
    {
      Noted(trace, e);
      Note(e);
    }

    /** The fields agree with what has happened, which after Start is the whole trace and nothing else. */
    ghost predicate Valid()
      reads this
    {
      && started <= |order| && Told()
      && (!begun ==> trace == [] && stops == 0 && started == 0 && !ready && !watching && order == [])
      && (begun ==> trace == WholeTrace(comps, stops))
      && (begun && DistinctNames(comps) ==> order == TierOrder(comps))
      && (begun && stops == 0 && AllStart(comps) ==> started == |order| && ready && watching)
      && (begun && !(stops == 0 && AllStart(comps)) ==> started == 0 && !ready && !watching)
    }

    constructor ()
      ensures Valid() && !begun && comps == []
    {
      comps, order, started, ready, watching := [], [], 0, false, false;
      trace, flags, begun, stops := [], [], false, 0;
    }

    method Add(cs: seq<Component>)
      requires Valid() && !begun
      modifies this`comps
      ensures Valid() && comps == old(comps) + cs
    {
      comps := comps + cs;
    }

    /** Finds the first Component whose name an earlier one has. */
    method RejectDuplicateNames() returns (err: Option<Error>)
      ensures err.None? <==> DistinctNames(comps)
      ensures err.Some? ==> exists j :: (0 <= j < |comps| && err.value == DuplicateName(comps[j].name)
                                         && DistinctNames(comps[..j]) && !DistinctNames(comps[..j + 1]))
    {
      var seen: set<string> := {};
      for j := 0 to |comps|
        invariant DistinctNames(comps[..j])
        invariant forall n :: n in seen <==> exists i :: 0 <= i < j && comps[i].name == n
      {
        if comps[j].name in seen {
          var i :| 0 <= i < j && comps[i].name == comps[j].name;
          assert comps[..j + 1][i].name == comps[..j + 1][j].name;
          return Some(DuplicateName(comps[j].name));
        }
        seen := seen + {comps[j].name};
      }
      assert comps[..|comps|] == comps;
      return None;
    }

    /** Starts the Components in Tier order; on a failure stops the started ones in reverse and returns
        the start error joined with theirs. The trace is exactly StartTrace. */
    method Start() returns (err: seq<Error>)
      requires Valid() && !begun
      modifies this
      ensures Valid() && begun && stops == 0 && comps == old(comps)
      ensures DistinctNames(comps) ==> err == StartErrors(comps)
      ensures !DistinctNames(comps) ==> |err| == 1 && err[0].DuplicateName?
    {
      hide TierOrder, Startable, Starts, Stops, StopErrors, DistinctNames, ReadyAfter, WholeTrace, StartErrors,
        AllStart, Written;
      begun := true;
      var dup := RejectDuplicateNames();
      if dup.Some? {
        NoneStart(comps);
        return [dup.value];
      }
      order := TierOrder(comps);
      watching := true;
      NothingToDo();
      assert order[..0] == [];
      for i := 0 to |order|
        invariant comps == old(comps) && order == TierOrder(comps) && begun && stops == 0
        invariant started == i && Told() && !ready && watching
        invariant forall j :: 0 <= j < i ==> order[j].startErr.None?
        invariant trace == Starts(order[..i])
      {
        NextStart(order, i);
        var c := order[i];
        if c.startErr.Some? {
          NotePlain(StartFailed(c));
          StartableIs(order, i);
          SomeStart(comps, i);
          BeginShutdown();
          var stopErrs := StopStarted();
          return [StartError(c.name, c.startErr.value)] + stopErrs;
        }
        NotePlain(Started(c));
        started := started + 1;
      }
      StartableIs(order, |order|);
      AllOfThemStart(comps);
      assert order[..|order|] == order;
      ready := true;
      Noted(trace, ReadyOn);
      Note(ReadyOn);
      err := [];
    }

    /** The shutdown phases in order; every stop error is joined. */
    method Stop() returns (err: seq<Error>)
      requires Valid() && begun
      modifies this
      ensures Valid() && begun && stops == old(stops) + 1 && comps == old(comps) && !ready
      ensures err == StopErrors(old(order[..started]))
    {
      hide TierOrder, Startable, Starts, Stops, StopErrors, DistinctNames, Drains, StartTrace, ReadyAfter;
      NothingToDo();
      assert order[..|order|] == order;
      BeginShutdown();
      DrainStarted();
      err := StopStarted();
      stops := stops + 1;
    }

    /** Closes stopWatch at most once however often it is called. */
    method BeginShutdown()
      requires Told()
      modifies this`ready, this`watching, this`trace, this`flags
      ensures Told() && !ready && !watching
      ensures trace == old(trace) + [ReadyOff] + if old(watching) then [WatchClosed] else []
    {
      ready := false;
      Noted(trace, ReadyOff);
      Note(ReadyOff);
      if watching {
        watching := false;
        NotePlain(WatchClosed);
      }
    }

    /** Every started Drainer in start order, then the delay. */
    method DrainStarted()
      requires started <= |order| && Told()
      modifies this`trace, this`flags
      ensures Told() && trace == old(trace) + Drains(order[..started]) + [Delay]
    {
      for i := 0 to started
        invariant Told() && trace == old(trace) + Drains(order[..i])
      {
        assert order[..i + 1][..i] == order[..i];
        if order[i].drains {
          NotePlain(Drained(order[i]));
        }
      }
      NotePlain(Delay);
    }

    /** The started Components, last started first. */
    method StopStarted() returns (err: seq<Error>)
      requires started <= |order| && Told()
      modifies this`started, this`trace, this`flags
      ensures Told() && started == 0
      ensures trace == old(trace) + Stops(order[..old(started)])
      ensures err == StopErrors(order[..old(started)])
    {
      hide Stops, StopErrors, ReadyAfter;
      err := [];
      NothingToDo();
      assert order[..0] == [];
      var i := started;
      while i > 0
        invariant 0 <= i <= started == old(started) && Told()
        invariant trace + Stops(order[..i]) == old(trace) + Stops(order[..started])
        invariant err + StopErrors(order[..i]) == StopErrors(order[..started])
      {
        i := i - 1;
        var c := order[i];
        NextStop(order, i);
        NotePlain(Stopped(c));
        if c.stopErr.Some? {
          err := err + [StopError(c.name, c.stopErr.value)];
        }
      }
      started := 0;
    }

    /** Start, wait for a signal or a death, Stop. `death` is what the wait ended with, None being a
        signal. A failed Start is returned as it is; otherwise the death is joined with the stop errors. */
    method Run(death: Option<Error>) returns (err: seq<Error>)
      requires Valid() && !begun
      modifies this
      ensures Valid() && begun && comps == old(comps)
      ensures stops == if AllStart(comps) then 1 else 0
      ensures AllStart(comps) ==> err == (if death.Some? then [death.value] else []) + StopErrors(TierOrder(comps))
      ensures DistinctNames(comps) && !AllStart(comps) ==> err == StartErrors(comps)
    {
      err := Start();
      if err != [] {
        return;
      }
      assert order[..|order|] == order;
      var stopErrs := Stop();
      err := (if death.Some? then [death.value] else []) + stopErrs;
    }

    /** The Components that offer a Check, by name. */
    method Checks() returns (m: map<string, Component>)
      ensures m.Keys == CheckNames(comps)
      ensures forall n :: n in m <==> exists i :: 0 <= i < |comps| && comps[i].name == n && comps[i].checks
      ensures forall n :: n in m ==> m[n] in comps && m[n].checks && m[n].name == n
    {
      m := map[];
      for i := 0 to |comps|
        invariant m.Keys == CheckNames(comps[..i])
        invariant forall n :: n in m ==> m[n] in comps && m[n].checks && m[n].name == n
      {
        assert comps[..i + 1][..i] == comps[..i];
        if comps[i].checks {
          m := m[comps[i].name := comps[i]];
        }
      }
      assert comps[..|comps|] == comps;
      forall n ensures n in m <==> exists i :: 0 <= i < |comps| && comps[i].name == n && comps[i].checks {
        CheckNamesAre(comps, n);
      }
    }
  }

  function CheckNames(cs: seq<Component>): set<string> {
    if cs == [] then {}
    else CheckNames(cs[..|cs| - 1]) + if cs[|cs| - 1].checks then {cs[|cs| - 1].name} else {}
  }

  /** A name is among them exactly if some Component of that name offers a Check. */
  lemma {:induction false} CheckNamesAre(cs: seq<Component>, n: string)
    ensures n in CheckNames(cs) <==> exists i :: 0 <= i < |cs| && cs[i].name == n && cs[i].checks
    decreases |cs|
  {
    if cs != [] {
      var front := cs[..|cs| - 1];
      CheckNamesAre(front, n);
      if n in CheckNames(front) {
        var i :| 0 <= i < |front| && front[i].name == n && front[i].checks;
        assert cs[i].name == n && cs[i].checks;
      }
      assert forall i :: 0 <= i < |front| ==> cs[i] == front[i];
    }
  }

  lemma NoneStart(cs: seq<Component>)
    requires !DistinctNames(cs)
    ensures WholeTrace(cs, 0) == [] && !AllStart(cs)
  {
  }

  lemma SomeStart(cs: seq<Component>, n: nat)
    requires DistinctNames(cs) && n == Startable(TierOrder(cs)) < |TierOrder(cs)|
    ensures var order := TierOrder(cs);
            && WholeTrace(cs, 0)
                 == Starts(order[..n]) + [StartFailed(order[n]), ReadyOff, WatchClosed] + Stops(order[..n])
            && StartErrors(cs) == [StartError(order[n].name, order[n].startErr.value)] + StopErrors(order[..n])
    ensures !AllStart(cs)
  {
  }

  lemma AllOfThemStart(cs: seq<Component>)
    requires DistinctNames(cs) && Startable(TierOrder(cs)) == |TierOrder(cs)|
    ensures WholeTrace(cs, 0) == Starts(TierOrder(cs)) + [ReadyOn] && StartErrors(cs) == [] && AllStart(cs)
  {
  }

  /** Only two events move the flag. */
  lemma Noted(es: seq<Event>, e: Event)
    ensures ReadyAfter(es + [e]) == if e.ReadyOn? then true else if e.ReadyOff? then false else ReadyAfter(es)
  {
    assert (es + [e])[..|es|] == es;
  }

  lemma NextStart(cs: seq<Component>, i: nat)
    requires i < |cs|
    ensures Starts(cs[..i + 1]) == Starts(cs[..i]) + [Started(cs[i])]
  {
    assert cs[..i + 1][..i] == cs[..i];
  }

  lemma NextStop(cs: seq<Component>, i: nat)
    requires i < |cs|
    ensures Stops(cs[..i + 1]) == [Stopped(cs[i])] + Stops(cs[..i])
    ensures StopErrors(cs[..i + 1]) ==
            (if cs[i].stopErr.Some? then [StopError(cs[i].name, cs[i].stopErr.value)] else []) + StopErrors(cs[..i])
  {
    assert cs[..i + 1][..i] == cs[..i];
  }

  lemma NothingToDo()
    ensures Starts([]) == [] && Drains([]) == [] && Stops([]) == [] && StopErrors([]) == []
  {
  }

  lemma {:induction false} StartableIs(cs: seq<Component>, n: nat)
    requires n <= |cs| && (forall i :: 0 <= i < n ==> cs[i].startErr.None?) && (n < |cs| ==> cs[n].startErr.Some?)
    ensures Startable(cs) == n
    decreases |cs|
  {
    if n > 0 {
      StartableIs(cs[1..], n - 1);
    }
  }

  // ------------------------------------------------------ what the trace says

  function StartedOf(es: seq<Event>): seq<Component> {
    if es == [] then []
    else StartedOf(es[..|es| - 1]) + if es[|es| - 1].Started? then [es[|es| - 1].c] else []
  }

  function StoppedOf(es: seq<Event>): seq<Component> {
    if es == [] then []
    else StoppedOf(es[..|es| - 1]) + if es[|es| - 1].Stopped? then [es[|es| - 1].c] else []
  }

  function DrainedOf(es: seq<Event>): seq<Component> {
    if es == [] then []
    else DrainedOf(es[..|es| - 1]) + if es[|es| - 1].Drained? then [es[|es| - 1].c] else []
  }

  function Drainers(cs: seq<Component>): seq<Component> {
    if cs == [] then []
    else Drainers(cs[..|cs| - 1]) + if cs[|cs| - 1].drains then [cs[|cs| - 1]] else []
  }

  lemma {:induction false} ProjectAppend(xs: seq<Event>, ys: seq<Event>)
    ensures StartedOf(xs + ys) == StartedOf(xs) + StartedOf(ys)
    ensures StoppedOf(xs + ys) == StoppedOf(xs) + StoppedOf(ys)
    ensures DrainedOf(xs + ys) == DrainedOf(xs) + DrainedOf(ys)
    decreases |ys|
  {
    if ys == [] {
      assert xs + ys == xs;
    } else {
      assert (xs + ys)[..|xs + ys| - 1] == xs + ys[..|ys| - 1];
      ProjectAppend(xs, ys[..|ys| - 1]);
    }
  }

  lemma ProjectOne(e: Event)
    ensures StartedOf([e]) == if e.Started? then [e.c] else []
    ensures StoppedOf([e]) == if e.Stopped? then [e.c] else []
    ensures DrainedOf([e]) == if e.Drained? then [e.c] else []
  {
    assert [e][..0] == [];
  }

  lemma {:induction false} ProjectStarts(cs: seq<Component>)
    ensures StartedOf(Starts(cs)) == cs && StoppedOf(Starts(cs)) == [] && DrainedOf(Starts(cs)) == []
    decreases |cs|
  {
    if cs != [] {
      hide StartedOf, StoppedOf, DrainedOf;
      var front, last := cs[..|cs| - 1], Started(cs[|cs| - 1]);
      ProjectStarts(front);
      ProjectAppend(Starts(front), [last]);
      ProjectOne(last);
      assert Starts(cs) == Starts(front) + [last];
      assert cs == front + [last.c];
    }
  }

  lemma {:induction false} ProjectDrains(cs: seq<Component>)
    ensures StartedOf(Drains(cs)) == [] && StoppedOf(Drains(cs)) == [] && DrainedOf(Drains(cs)) == Drainers(cs)
    decreases |cs|
  {
    if cs != [] {
      ProjectDrains(cs[..|cs| - 1]);
      if !cs[|cs| - 1].drains {
        assert Drains(cs) == Drains(cs[..|cs| - 1]);
      }
    }
  }

  lemma {:induction false} ProjectStops(cs: seq<Component>)
    ensures StartedOf(Stops(cs)) == [] && StoppedOf(Stops(cs)) == Reverse(cs) && DrainedOf(Stops(cs)) == []
    decreases |cs|
  {
    if cs != [] {
      var one := [Stopped(cs[|cs| - 1])];
      ProjectStops(cs[..|cs| - 1]);
      ProjectAppend(one, Stops(cs[..|cs| - 1]));
      assert Stops(cs) == one + Stops(cs[..|cs| - 1]);
      assert one[..0] == [];
      ProjectOne(one[0]);
    }
  }

  ghost predicate Shutdown(cs: seq<Component>, n: nat) {
    n > 0 || !AllStart(cs)
  }

  predicate Shows(es: seq<Event>, started: seq<Component>, stopped: seq<Component>, drained: seq<Component>) {
    StartedOf(es) == started && StoppedOf(es) == stopped && DrainedOf(es) == drained
  }

  lemma ShowsAppend(xs: seq<Event>, ys: seq<Event>, s1: seq<Component>, t1: seq<Component>, d1: seq<Component>,
                    s2: seq<Component>, t2: seq<Component>, d2: seq<Component>)
    requires Shows(xs, s1, t1, d1) && Shows(ys, s2, t2, d2)
    ensures Shows(xs + ys, s1 + s2, t1 + t2, d1 + d2)
  {
    ProjectAppend(xs, ys);
  }

  lemma {:induction false} ShowsNothing(es: seq<Event>)
    requires forall e :: e in es ==> !e.Started? && !e.Stopped? && !e.Drained?
    ensures Shows(es, [], [], [])
    decreases |es|
  {
    if es != [] {
      ShowsNothing(es[..|es| - 1]);
    }
  }

  lemma AllByKind(order: seq<Component>)
    ensures Shows(Starts(order) + [ReadyOn], order, [], [])
  {
    ProjectStarts(order);
    ShowsNothing([ReadyOn]);
    hide Starts, StartedOf, StoppedOf, DrainedOf;
    ShowsAppend(Starts(order), [ReadyOn], order, [], [], [], [], []);
  }

  lemma FailedByKind(up: seq<Component>, c: Component)
    ensures Shows(Starts(up) + [StartFailed(c), ReadyOff, WatchClosed] + Stops(up), up, Reverse(up), [])
  {
    hide Starts, Stops, Reverse, StartedOf, StoppedOf, DrainedOf;
    var failed := [StartFailed(c), ReadyOff, WatchClosed];
    ProjectStarts(up);
    ProjectStops(up);
    ShowsNothing(failed);
    ShowsAppend(Starts(up), failed, up, [], [], [], [], []);
    hide Shows;
    ShowsAppend(Starts(up) + failed, Stops(up), up, [], [], [], Reverse(up), []);
  }

  lemma StartByKind(cs: seq<Component>)
    requires DistinctNames(cs)
    ensures var up := TierOrder(cs)[..Startable(TierOrder(cs))];
            Shows(StartTrace(cs), up, if AllStart(cs) then [] else Reverse(up), [])
  {
    hide TierOrder, Startable, Starts, Stops, Reverse, Shows, DistinctNames;
    var order := TierOrder(cs);
    var n := Startable(order);
    if n == |order| {
      assert order[..n] == order;
      AllByKind(order);
    } else {
      FailedByKind(order[..n], order[n]);
    }
  }

  lemma StopByKind(cs: seq<Component>, k: nat)
    ensures if k == 0 && AllStart(cs) then Shows(StopTrace(cs, k), [], Reverse(TierOrder(cs)), Drainers(TierOrder(cs)))
            else Shows(StopTrace(cs, k), [], [], [])
  {
    var order := TierOrder(cs);
    hide TierOrder, Startable, Stops, Drains, Reverse, Drainers, StartedOf, StoppedOf, DrainedOf, DistinctNames;
    ShowsNothing([ReadyOff, Delay]);
    ShowsNothing([ReadyOff, WatchClosed]);
    ShowsNothing([Delay]);
    ProjectDrains(order);
    ProjectStops(order);
    var head := [ReadyOff, WatchClosed];
    ShowsAppend(head, Drains(order), [], [], [], [], [], Drainers(order));
    ShowsAppend(head + Drains(order), [Delay], [], [], Drainers(order), [], [], []);
    ShowsAppend(head + Drains(order) + [Delay], Stops(order), [], [], Drainers(order), [], Reverse(order), []);
  }

  /** What one Start and n Stops do, kind by kind: a prefix of the Tier order starts; once it is shut
      down exactly those are stopped, last first; and the Drainers among them are drained in start order,
      but only if every Component had started. */
  lemma {:induction false} TraceByKind(cs: seq<Component>, n: nat)
    requires DistinctNames(cs)
    ensures var order := TierOrder(cs);
            var up := order[..Startable(order)];
            && StartedOf(WholeTrace(cs, n)) == up
            && StoppedOf(WholeTrace(cs, n)) == (if Shutdown(cs, n) then Reverse(up) else [])
            && DrainedOf(WholeTrace(cs, n)) == (if n > 0 && AllStart(cs) then Drainers(order) else [])
    decreases n
  {
    hide TierOrder, Startable, Reverse, Drainers, StartedOf, StoppedOf, DrainedOf, DistinctNames, StartTrace, StopTrace;
    var order := TierOrder(cs);
    var up := order[..Startable(order)];
    if n == 0 {
      StartByKind(cs);
    } else {
      TraceByKind(cs, n - 1);
      StopByKind(cs, n - 1);
      ProjectAppend(WholeTrace(cs, n - 1), StopTrace(cs, n - 1));
      assert AllStart(cs) ==> up == order;
    }
  }

  lemma {:induction false} ReverseSameBag(cs: seq<Component>)
    ensures multiset(Reverse(cs)) == multiset(cs)
    decreases |cs|
  {
    if cs != [] {
      ReverseSameBag(cs[..|cs| - 1]);
      assert cs == cs[..|cs| - 1] + [cs[|cs| - 1]];
    }
  }

  lemma {:induction false} DistinctOnce(cs: seq<Component>, c: Component)
    requires DistinctNames(cs)
    ensures multiset(cs)[c] <= 1
    decreases |cs|
  {
    if cs != [] {
      var front := cs[..|cs| - 1];
      DistinctOnce(front, c);
      assert cs == front + [cs[|cs| - 1]];
      if c == cs[|cs| - 1] {
        assert c !in front;
      }
    }
  }

  /** However many Stops follow, a Component that started is stopped exactly once and one whose Start
      failed, or that was never reached, not at all. */
  lemma StoppedExactlyOnce(cs: seq<Component>, n: nat, c: Component)
    requires DistinctNames(cs) && Shutdown(cs, n)
    ensures multiset(StoppedOf(WholeTrace(cs, n)))[c] == multiset(StartedOf(WholeTrace(cs, n)))[c] <= 1
    ensures c.startErr.Some? ==> multiset(StoppedOf(WholeTrace(cs, n)))[c] == 0
  {
    hide TierOrder, Reverse, WholeTrace, StartedOf, StoppedOf, DrainedOf, DistinctNames, IsTierOrder;
    var order := TierOrder(cs);
    var up := order[..Startable(order)];
    TraceByKind(cs, n);
    ReverseSameBag(up);
    TierOrderIsStable(cs);
    DistinctOnce(cs, c);
    PrefixCount(order, Startable(order), c);
    assert c.startErr.Some? ==> c !in up;
  }

  lemma PrefixCount(cs: seq<Component>, n: nat, c: Component)
    requires n <= |cs|
    ensures multiset(cs[..n])[c] <= multiset(cs)[c]
  {
    assert cs == cs[..n] + cs[n..];
  }
}
