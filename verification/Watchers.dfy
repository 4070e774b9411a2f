/** The watcher goroutines of app.go:143-187 and the two channels they share with Run (app.go:223-244).

    Each started Component with a death channel has one watcher. Start starting the next Component, a
    Component dying, a signal, a shutdown and the goroutines themselves are steps, and a schedule is any
    sequence of enabled steps. */
module Watchers {
  import opened Wrappers

  /** One watcher: in its first select, holding a death it is about to forward, or gone, as where there never
      was one because the Component has no death channel. */
  datatype Watcher = Watching | Forwarding(cause: Option<string>) | Gone

  /** The Component of that number in Tier order died, with this error or none. */
  datatype Death = Death(who: nat, cause: Option<string>)

  datatype RunState = NotWaiting | Waiting | Signalled | GotDeath(death: Death)

  /** `due` is how many Components are still to be started, `watchers` has one entry for each that was and
      `channels` whether it has a death channel.
      `fates` is what came on a Component's own channel first, `deaths` the death channel's buffer, `open`
      whether stopWatch is still non-nil and `closed` whether it has been closed; `closes` counts the
      closings and `observed` the watchers that have taken a death. */
  datatype State = State(
    due: nat, channels: seq<bool>, watchers: seq<Watcher>, fates: map<nat, Option<string>>, deaths: seq<Death>,
    open: bool, closed: bool, closes: nat, run: RunState, observed: set<nat>)

  datatype Step =
    | StartNext(channel: bool) | Die(i: nat, cause: Option<string>) | Observe(i: nat)
    | Forward(i: nat) | SeeStop(i: nat)
    | RunWaits | RunSignalled | RunReceives | BeginShutdown

  const CAPACITY := 1

  function Init(n: nat): State {
    State(n, [], [], map[], [], true, false, 0, NotWaiting, {})
  }

  predicate Enabled(s: State, step: Step) {
    match step
    case StartNext(_) => s.due > 0 && s.open
    case Die(i, _) => i < |s.watchers|
    case Observe(i) => i < |s.watchers| && s.watchers[i].Watching? && i in s.fates
    case Forward(i) => i < |s.watchers| && s.watchers[i].Forwarding?
    case SeeStop(i) => i < |s.watchers| && s.watchers[i].Watching? && s.closed
    case RunWaits => s.due == 0 && s.run.NotWaiting?
    case RunSignalled => s.run.Waiting?
    case RunReceives => s.run.Waiting? && s.deaths != []
    case BeginShutdown => true
  }

  function After(s: State, step: Step): State
    requires Enabled(s, step)
  {
    match step
    case StartNext(channel) =>
      s.(due := s.due - 1, channels := s.channels + [channel],
         watchers := s.watchers + [if channel then Watching else Gone])
    case Die(i, cause) => if i in s.fates then s else s.(fates := s.fates[i := cause])
    case Observe(i) =>
      s.(watchers := s.watchers[i := Forwarding(s.fates[i])], observed := s.observed + {i})
    case Forward(i) =>
      // The inner select: send if the buffer has room, otherwise let this death go.
      s.(watchers := s.watchers[i := Gone],
         deaths := if |s.deaths| < CAPACITY then s.deaths + [Death(i, s.watchers[i].cause)] else s.deaths)
    case SeeStop(i) => s.(watchers := s.watchers[i := Gone])
    case RunWaits => s.(run := Waiting)
    case RunSignalled => s.(run := Signalled)
    case RunReceives => s.(run := GotDeath(s.deaths[0]), deaths := s.deaths[1..])
    case BeginShutdown => if s.open then s.(open := false, closed := true, closes := s.closes + 1) else s
  }

  function Run(n: nat, schedule: seq<Step>): Option<State> {
    if schedule == [] then Some(Init(n))
    else
      var before := Run(n, schedule[..|schedule| - 1]);
      var step := schedule[|schedule| - 1];
      if before.Some? && Enabled(before.value, step) then Some(After(before.value, step)) else None
  }

  predicate Finished(s: State, i: nat)
    requires i < |s.watchers|
  {
    s.watchers[i].Gone? && i in s.observed
  }

  /** A death as some started Component died it and its watcher took it. */
  predicate Real(s: State, d: Death) {
    d.who < |s.watchers| && d.who in s.observed && d.who in s.fates && s.fates[d.who] == d.cause
  }

  ghost predicate ChannelsOk(s: State) {
    && |s.deaths| <= CAPACITY
    && s.closes == (if s.open then 0 else 1)
    && (s.closed <==> !s.open)
    && (!s.run.NotWaiting? ==> s.due == 0)
  }

  ghost predicate DeathsOk(s: State) {
    && (forall i :: i in s.observed ==> i < |s.watchers|)
    && (forall i :: 0 <= i < |s.watchers| && s.watchers[i].Watching? ==> i !in s.observed)
    && (forall i :: 0 <= i < |s.watchers| && s.watchers[i].Forwarding? ==> Real(s, Death(i, s.watchers[i].cause)))
    && (forall d :: d in s.deaths ==> Real(s, d) && s.watchers[d.who].Gone?)
    && (s.run.GotDeath? ==> Real(s, s.run.death))
  }

  /** A Component with a death channel is watched until its death has been taken or shutdown has begun. */
  ghost predicate AllWatched(s: State) {
    && |s.channels| == |s.watchers|
    && (forall i :: 0 <= i < |s.channels| && s.channels[i] && i !in s.observed && !s.closed ==> s.watchers[i].Watching?)
    && (forall i :: 0 <= i < |s.channels| && !s.channels[i] ==> s.watchers[i].Gone? && i !in s.observed)
  }

  /** A death that has been forwarded is there for Run until Run has one. */
  ghost predicate NoneLost(s: State) {
    (exists i :: 0 <= i < |s.watchers| && Finished(s, i)) ==> s.deaths != [] || s.run.GotDeath?
  }

  ghost predicate Inv(n: nat, s: State) {
    |s.watchers| + s.due == n && ChannelsOk(s) && DeathsOk(s) && AllWatched(s) && NoneLost(s)
  }

  lemma StepDeaths(s: State, step: Step)
    requires DeathsOk(s) && Enabled(s, step)
    ensures DeathsOk(After(s, step))
  {
    if step.Observe? || step.Forward? || step.SeeStop? {
      WatcherDeaths(s, step);
    } else {
      OtherDeaths(s, step);
    }
  }

  lemma WatcherDeaths(s: State, step: Step)
    requires DeathsOk(s) && Enabled(s, step) && (step.Observe? || step.Forward? || step.SeeStop?)
    ensures DeathsOk(After(s, step))
  {
    match step
    case Observe(_) =>
    case Forward(_) =>
    case SeeStop(_) =>
  }

  lemma OtherDeaths(s: State, step: Step)
    requires DeathsOk(s) && Enabled(s, step) && !step.Observe? && !step.Forward? && !step.SeeStop?
    ensures DeathsOk(After(s, step))
  {
    match step
    case StartNext(_) =>
    case Die(_, _) =>
    case RunWaits =>
    case RunSignalled =>
    case RunReceives =>
    case BeginShutdown =>
  }

  lemma StepWatched(s: State, step: Step)
    requires AllWatched(s) && ChannelsOk(s) && DeathsOk(s) && Enabled(s, step)
    ensures AllWatched(After(s, step))
  {
    hide Real;
    match step
    case StartNext(_) => NewWatcher(s);
    case Die(_, _) =>
    case Observe(_) =>
    case Forward(_) =>
    case SeeStop(_) =>
    case RunWaits =>
    case RunSignalled =>
    case RunReceives =>
    case BeginShutdown =>
  }

  lemma NewWatcher(s: State)
    requires DeathsOk(s)
    ensures |s.watchers| !in s.observed
  {
  }

  lemma StepNoneLost(s: State, step: Step)
    requires DeathsOk(s) && NoneLost(s) && Enabled(s, step)
    ensures NoneLost(After(s, step))
  {
    hide Real;
    var s2 := After(s, step);
    if exists i :: 0 <= i < |s2.watchers| && Finished(s2, i) {
      var i :| 0 <= i < |s2.watchers| && Finished(s2, i);
      if !step.Forward? {
        assert i < |s.watchers| && Finished(s, i);
      }
    }
  }

  lemma StepInv(n: nat, s: State, step: Step)
    requires Inv(n, s) && Enabled(s, step)
    ensures Inv(n, After(s, step))
  {
    StepDeaths(s, step);
    StepWatched(s, step);
    StepNoneLost(s, step);
    hide DeathsOk, NoneLost, AllWatched;
  }

  lemma {:induction false} RunInv(n: nat, schedule: seq<Step>)
    requires Run(n, schedule).Some?
    ensures Inv(n, Run(n, schedule).value)
    decreases |schedule|
  {
    if schedule != [] {
      RunInv(n, schedule[..|schedule| - 1]);
      StepInv(n, Run(n, schedule[..|schedule| - 1]).value, schedule[|schedule| - 1]);
    }
  }

  /** Under every interleaving: the death channel never holds more than one death, stopWatch is closed at
      most once however often shutdown begins, and a death some watcher has taken is never lost before Run
      has one: it is in a watcher's hand on the way to the channel, or there is one in the channel. A watcher
      never waits to send, whatever the channel holds. What Run gets is a death that a started Component
      died and its watcher took; and until shutdown begins a Component with a death channel that dies has a
      watcher that can take its death. */
  lemma {:induction false} OneDeathNoneLost(n: nat, schedule: seq<Step>)
    requires Run(n, schedule).Some?
    ensures var s := Run(n, schedule).value;
            && |s.deaths| <= 1
            && s.closes <= 1
            && (s.observed != {} ==>
                  s.deaths != [] || s.run.GotDeath? || exists i :: 0 <= i < |s.watchers| && s.watchers[i].Forwarding?)
            && (forall i :: 0 <= i < |s.watchers| && s.watchers[i].Forwarding? ==>
                  Run(n, schedule + [Forward(i)]).Some? && Run(n, schedule + [Forward(i)]).value.watchers[i].Gone?)
            && (s.run.GotDeath? ==> s.due == 0 && Real(s, s.run.death))
            && (forall i :: 0 <= i < |s.channels| && s.channels[i] && i in s.fates && !s.closed ==>
                  i in s.observed || Enabled(s, Observe(i)))
  {
    RunInv(n, schedule);
    var s := Run(n, schedule).value;
    if s.observed != {} {
      var i :| i in s.observed;
      assert s.watchers[i].Gone? ==> Finished(s, i);
    }
    forall i | 0 <= i < |s.watchers| && s.watchers[i].Forwarding?
      ensures Run(n, schedule + [Forward(i)]).Some? && Run(n, schedule + [Forward(i)]).value.watchers[i].Gone?
    {
      assert (schedule + [Forward(i)])[..|schedule|] == schedule;
    }
  }

  /** stopWatch is closed exactly once a shutdown has begun, by the first that begins. */
  lemma {:induction false} ClosedByShutdown(n: nat, schedule: seq<Step>)
    requires Run(n, schedule).Some?
    ensures var s := Run(n, schedule).value;
            && (s.closed <==> BeginShutdown in schedule)
            && s.closes == if BeginShutdown in schedule then 1 else 0
    decreases |schedule|
  {
    if schedule != [] {
      var front, step := schedule[..|schedule| - 1], schedule[|schedule| - 1];
      ClosedByShutdown(n, front);
      RunInv(n, front);
      StepCloses(Run(n, front).value, step);
      hide After, Enabled, DeathsOk, AllWatched, NoneLost;
      assert schedule == front + [step];
    }
  }

  lemma StepCloses(s: State, step: Step)
    requires Enabled(s, step) && ChannelsOk(s)
    ensures var s2 := After(s, step);
            (s2.closed <==> s.closed || step.BeginShutdown?) && s2.closes == if s2.closed then 1 else 0
  {
    match step
    case StartNext(_) =>
    case Die(_, _) =>
    case Observe(_) =>
    case Forward(_) =>
    case SeeStop(_) =>
    case RunWaits =>
    case RunSignalled =>
    case RunReceives =>
    case BeginShutdown =>
  }

  lemma OneMore(n: nat, schedule: seq<Step>, step: Step)
    requires Run(n, schedule).Some? && Enabled(Run(n, schedule).value, step)
    ensures Run(n, schedule + [step]) == Some(After(Run(n, schedule).value, step))
  {
    assert (schedule + [step])[..|schedule|] == schedule;
  }

  /** While Run waits and no death has come, the death of any started Component that has a death channel gets
      to Run, with its cause, in these four steps, and nothing but a shutdown or another death can keep any of
      them from being taken. */
  lemma DeathReachesRun(n: nat, schedule: seq<Step>, i: nat, cause: Option<string>)
    requires Run(n, schedule).Some?
    requires var s := Run(n, schedule).value;
             && s.due == 0 && s.run.NotWaiting? && s.deaths == [] && !s.closed
             && i < |s.channels| && s.channels[i] && i !in s.fates && i !in s.observed
    ensures var all := schedule + [RunWaits] + [Die(i, cause)] + [Observe(i)] + [Forward(i)] + [RunReceives];
            Run(n, all).Some? && Run(n, all).value.run == GotDeath(Death(i, cause))
  {
    RunInv(n, schedule);
    hide Run;
    OneMore(n, schedule, RunWaits);
    var s1 := schedule + [RunWaits];
    OneMore(n, s1, Die(i, cause));
    var s2 := s1 + [Die(i, cause)];
    OneMore(n, s2, Observe(i));
    var s3 := s2 + [Observe(i)];
    OneMore(n, s3, Forward(i));
    OneMore(n, s3 + [Forward(i)], RunReceives);
  }

  // ----------------------------------------------- the watchers go away

  /** How many steps the watchers have left: two for one that may still take a death, one for one that
      holds it. */
  function Left(ws: seq<Watcher>): nat {
    if ws == [] then 0
    else Left(ws[..|ws| - 1]) + (match ws[|ws| - 1] case Watching => 2 case Forwarding(_) => 1 case Gone => 0)
  }

  lemma {:induction false} LeftUpdate(ws: seq<Watcher>, i: nat, w: Watcher)
    requires i < |ws|
    ensures Left(ws[i := w]) == Left(ws) - Left([ws[i]]) + Left([w])
    decreases |ws|
  {
    var front, n := ws[..|ws| - 1], |ws| - 1;
    assert [ws[i]][..0] == [] && [w][..0] == [];
    if i == n {
      assert ws[i := w][..n] == front;
    } else {
      LeftUpdate(front, i, w);
      assert ws[i := w][..n] == front[i := w];
    }
  }

  predicate WatcherStep(step: Step) {
    step.Observe? || step.Forward? || step.SeeStop?
  }

  /** Every step of a watcher brings the measure down and no other step raises it, but for a Component being
      started, which there is none of once shutdown has begun. */
  lemma WatchersRunOut(s: State, step: Step)
    requires Enabled(s, step)
    ensures if WatcherStep(step) then Left(After(s, step).watchers) < Left(s.watchers)
            else if step.StartNext? then s.open
            else Left(After(s, step).watchers) == Left(s.watchers)
  {
    if WatcherStep(step) {
      var w := After(s, step).watchers[step.i];
      LeftUpdate(s.watchers, step.i, w);
      assert [w][..0] == [] && [s.watchers[step.i]][..0] == [];
    }
  }

  lemma {:induction false} LeftZero(ws: seq<Watcher>)
    ensures Left(ws) == 0 <==> forall i :: 0 <= i < |ws| ==> ws[i].Gone?
    decreases |ws|
  {
    if ws != [] {
      LeftZero(ws[..|ws| - 1]);
    }
  }

  /** Once shutdown has begun, a watcher that is left always has a step to take, so with the measure they
      all go, whether or not their Components ever die. */
  lemma AfterShutdownTheyGo(n: nat, schedule: seq<Step>) returns (step: Step)
    requires Run(n, schedule).Some? && Run(n, schedule).value.closed
    ensures var s := Run(n, schedule).value;
            Left(s.watchers) > 0 ==> WatcherStep(step) && Enabled(s, step)
  {
    var s := Run(n, schedule).value;
    LeftZero(s.watchers);
    step := BeginShutdown;
    if Left(s.watchers) > 0 {
      var i :| 0 <= i < |s.watchers| && !s.watchers[i].Gone?;
      step := if s.watchers[i].Watching? then SeeStop(i) else Forward(i);
    }
  }
}
