/**
 * Which event schedules a restart, begins a start or spawns a child, and how often a crashing child comes back:
 * desktop/electron/runtime-manager.ts.
 */
module RestartProperties {
  import opened Text
  import opened RuntimeModel
  import opened RuntimeProperties

  // ----- What an exit does -----

  /** The slot is free, nothing runs, and the exit of the child has been seen. */
  function Gone(s: State, exited: nat): State {
    s.(child := None, running := false, live := s.live - {exited})
  }

  predicate MaySchedule(s: State, should: bool) {
    !s.stopping && should && s.attempts < 5
  }

  /** An exit with any code but 75 spawns nothing: it uses up an attempt and sets a timer, if there may be one more. */
  lemma CrashSchedules(s: State, exited: nat, code: int, should: bool, setup: Setup)
    requires exited in s.live && code != 75
    ensures var n := if MaySchedule(s, should) then 1 else 0;
            After(s, ChildExits(exited, code, should, setup))
            == Gone(s, exited).(attempts := s.attempts + n, timers := s.timers + n)
  {
  }

  /** An exit with code 75 relaunches at once, or joins a start that is under way, and never touches the timers. */
  lemma RequestedExitRelaunches(s: State, exited: nat, should: bool, setup: Setup)
    requires exited in s.live
    ensures var t := After(s, ChildExits(exited, 75, should, setup));
            && t.attempts == s.attempts && t.timers == s.timers && t.waits == s.waits
            && (s.startPending ==> t.spawned == s.spawned && t.flights == s.flights && t.child.None?)
            && (!s.startPending && setup.Ready? ==>
                  t.spawned == s.spawned + 1 && t.child == Some(s.spawned) && t.live == s.live - {exited} + {s.spawned}
                  && t.flights == s.flights + [Waiting(s.spawned)])
            && (!s.startPending && setup.NeedsSetup? ==>
                  t.spawned == s.spawned && t.child.None? && t.flights == s.flights + [Preparing])
            && (!s.startPending && setup.SpawnFails? ==>
                  t.spawned == s.spawned && t.child.None? && t.flights == s.flights + [Broken])
  {
    hide Scheduled;
  }

  // ----- Who schedules a restart -----

  /** What asks for an automatic restart, with the answer whether restarts are wanted. */
  predicate AsksForRestart(s: State, e: Event) {
    match e
    case ChildExits(_, code, should, _) => code != 75 && should
    case RetryLoses(should) => should
    case KillReturns(should) => should
    case TickProbes(healthy, should) => !healthy && s.child.None? && s.running && should
    case TickChecks(active, should) => !active && s.child.None? && should
    case _ => false
  }

  predicate SetsTimer(s: State, e: Event) {
    AsksForRestart(s, e) && !s.stopping && s.attempts < 5
  }

  /**
   * A restart timer is set exactly by an exit other than with code 75, a start that failed after a timer, a kill that
   * returned, or a tick that finds the child gone; not while stopping, not when unwanted, and not a sixth time.
   */
  lemma SchedulesExactly(s: State, e: Event)
    requires Enabled(s, e)
    ensures After(s, e).timers == s.timers + (if SetsTimer(s, e) then 1 else if e.TimerFires? then -1 else 0)
  {
    if e.UserStarts? || e.WaitEnds? || e.ChildExits? {
      StartEventsSchedule(s, e);
    } else if e.TickProbes? || e.TickChecks? {
      hide After;
      TicksSchedule(s, e);
    } else {
      hide Started, AfterExit, AfterWait, AfterProbe, AfterCheck;
    }
  }

  /** A start succeeds, other than by finding that a child is running already, or a stop ends. */
  predicate GivesBack(s: State, e: Event) {
    match e
    case StartSettles(ok) => ok && !(s.flights != [] && s.flights[0].Adopting? && s.running)
    case RetryWins => true
    case StopReleases => s.child.None?
    case StopDrains => true
    case _ => false
  }

  /** Each timer costs an attempt; only a successful start and the end of a stop give the attempts back. */
  lemma AttemptsExactly(s: State, e: Event)
    requires Enabled(s, e)
    ensures After(s, e).attempts == if GivesBack(s, e) then 0 else s.attempts + if SetsTimer(s, e) then 1 else 0
  {
    if e.UserStarts? || e.WaitEnds? || e.ChildExits? {
      StartEventsSchedule(s, e);
    } else if e.TickProbes? || e.TickChecks? {
      hide After;
      TicksSchedule(s, e);
    } else {
      hide Started, AfterExit, AfterWait, AfterProbe, AfterCheck;
    }
  }

  lemma StartEventsSchedule(s: State, e: Event)
    requires Enabled(s, e) && (e.UserStarts? || e.WaitEnds? || e.ChildExits?)
    ensures var n, t := if SetsTimer(s, e) then 1 else 0, After(s, e);
            t.timers == s.timers + n && t.attempts == s.attempts + n
  {
    hide Started;
    match e
    case UserStarts(setup) => StartingEffect(s, setup, false);
    case WaitEnds(_, setup) => StartingEffect(s.(waits := s.waits - 1), setup, true);
    case ChildExits(exited, code, should, setup) => StartingEffect(Gone(s, exited), setup, false);
  }

  lemma TicksSchedule(s: State, e: Event)
    requires Enabled(s, e) && (e.TickProbes? || e.TickChecks?)
    ensures var n, t := if SetsTimer(s, e) then 1 else 0, After(s, e);
            t.timers == s.timers + n && t.attempts == s.attempts + n
  {
    hide Started, AfterExit, AfterWait;
  }

  // ----- Who begins a start, and who spawns -----

  /** A call of start() that finds nothing running, no start under way and no child. */
  predicate StartsFresh(s: State, e: Event) {
    match e
    case UserStarts(_) => !s.running && !s.startPending && s.child.None?
    case ChildExits(_, code, _, _) => code == 75 && !s.startPending
    case WaitEnds(should, _) => should && !s.stopping && !s.running && !s.startPending && s.child.None?
    case _ => false
  }

  function SetupOf(e: Event): Setup
    requires e.UserStarts? || e.ChildExits? || e.WaitEnds? || e.SetupEnds?
  {
    e.setup
  }

  predicate Spawns(s: State, e: Event) {
    (StartsFresh(s, e) || e.SetupEnds?) && SetupOf(e).Ready?
  }

  /**
   * A child is spawned exactly by a fresh start whose environment is ready, and by the end of a setup that made it so.
   */
  lemma SpawnsExactly(s: State, e: Event)
    requires Enabled(s, e)
    ensures After(s, e).spawned == s.spawned + if Spawns(s, e) then 1 else 0
    ensures Spawns(s, e) ==> After(s, e).child == Some(s.spawned) && s.spawned in After(s, e).live
  {
    if e.UserStarts? || e.WaitEnds? || e.ChildExits? {
      StartEventsSpawn(s, e);
    } else if e.TickProbes? || e.TickChecks? {
      hide After;
      CheckEffects(s, e);
    } else {
      hide Started, AfterExit, AfterWait, AfterProbe, AfterCheck;
    }
  }

  lemma StartEventsSpawn(s: State, e: Event)
    requires Enabled(s, e) && (e.UserStarts? || e.WaitEnds? || e.ChildExits?)
    ensures After(s, e).spawned == s.spawned + if Spawns(s, e) then 1 else 0
    ensures Spawns(s, e) ==> After(s, e).child == Some(s.spawned) && s.spawned in After(s, e).live
  {
    hide AfterSetup, AfterSettling, AfterRelease, AfterTimer, AfterProbe, AfterCheck;
  }

  /** What a fresh start waits for. */
  function FlightFor(setup: Setup, child: nat): Flight {
    match setup
    case Ready => Waiting(child)
    case NeedsSetup => Preparing
    case SpawnFails => Broken
  }

  // ----- The other fields, each over all events -----

  lemma SchedulingFrame(s: State, should: bool)
    ensures var n := if MaySchedule(s, should) then 1 else 0;
            Scheduled(s, should) == s.(attempts := s.attempts + n, timers := s.timers + n)
  {
  }

  /** Health ticks concern neither stops, nor fired timers, nor the starts these asked for. */
  lemma TickFrame(s: State, e: Event)
    requires Enabled(s, e) && (e.TickProbes? || e.TickChecks?)
    ensures var t := After(s, e);
            && t.stopping == s.stopping && t.releasing == s.releasing && t.draining == s.draining
            && t.waits == s.waits && t.retries == s.retries && t.won == s.won && t.lost == s.lost
  {
    hide Scheduled;
    match e
    case TickProbes(_, should) => SchedulingFrame(FailureCounted(s.(probing := s.probing - 1)), should);
    case TickChecks(_, should) => SchedulingFrame(FailureCounted(s.(checking := s.checking - 1)), should);
  }

  /** A fired timer goes on to wait for idle agents only with no child, no stop under way and restarts wanted. */
  lemma WaitsExactly(s: State, e: Event)
    requires Enabled(s, e)
    ensures After(s, e).waits == s.waits
            + (if e.TimerFires? && s.child.None? && !s.stopping && e.should then 1 else if e.WaitEnds? then -1 else 0)
  {
    if e.TickProbes? || e.TickChecks? {
      hide After;
      TickFrame(s, e);
    } else {
      hide AfterProbe, AfterCheck;
    }
  }

  lemma StoppingExactly(s: State, e: Event)
    requires Enabled(s, e)
    ensures After(s, e).stopping == (e.StopBegins? || (s.stopping && !EndsStop(s, e)))
  {
    if e.TickProbes? || e.TickChecks? {
      TickFrame(s, e);
    } else {
      hide AfterProbe, AfterCheck;
    }
  }

  /** Whether the runtime counts as running: what its last start, exit, error, health tick or stop said. */
  predicate RunsAfter(s: State, e: Event) {
    match e
    case StartSettles(ok) => ok || s.running
    case ChildExits(_, _, _, _) => false
    case ChildErrors => false
    case TickProbes(healthy, _) => healthy || (s.running && s.child.Some?)
    case TickChecks(active, _) => active && s.running
    case StopReleases => s.child.Some? && s.running
    case StopDrains => false
    case _ => s.running
  }

  lemma RunningExactly(s: State, e: Event)
    requires Enabled(s, e)
    ensures After(s, e).running == RunsAfter(s, e)
  {
    if e.TickProbes? || e.TickChecks? {
      TickRuns(s, e);
    } else {
      hide AfterProbe, AfterCheck;
    }
  }

  lemma TickRuns(s: State, e: Event)
    requires Enabled(s, e) && (e.TickProbes? || e.TickChecks?)
    ensures After(s, e).running == RunsAfter(s, e)
  {
  }

  /** An exit, a forced kill and the end of a stop free the slot, and only a spawn fills it. */
  lemma SlotExactly(s: State, e: Event)
    requires Enabled(s, e)
    ensures After(s, e).child == if Spawns(s, e) then Some(s.spawned)
                                 else if e.ChildExits? || Kills(s, e) || e.StopDrains? then None else s.child
  {
    if e.TickProbes? || e.TickChecks? {
      TickSlot(s, e);
    } else {
      hide AfterProbe, AfterCheck, Scheduled;
      if e.ChildExits? { ScheduleTracksLive(Gone(s, e.exited), e.should); }
      if e.RetryLoses? { ScheduleTracksLive(s.(lost := s.lost - 1), e.should); }
      if e.KillReturns? { ScheduleTracksLive(s.(killing := s.killing - 1), e.should); }
    }
  }

  lemma TickSlot(s: State, e: Event)
    requires Enabled(s, e) && (e.TickProbes? || e.TickChecks?)
    ensures After(s, e).child == if Kills(s, e) then None else s.child
  {
  }

  /** Failed health ticks in a row: deferred ticks neither count nor reset. */
  function FailuresAfter(s: State, e: Event): nat {
    match e
    case StartSettles(ok) => if GivesBack(s, e) then 0 else s.failures
    case TickProbes(healthy, _) =>
      if healthy then 0 else if s.running && s.child.None? then s.failures + 1 else s.failures
    case TickChecks(active, _) => if active then s.failures else s.failures + 1
    case _ => s.failures
  }

  lemma FailuresExactly(s: State, e: Event)
    requires Enabled(s, e)
    ensures After(s, e).failures == FailuresAfter(s, e)
  {
    if e.TickProbes? || e.TickChecks? {
      TickFailures(s, e);
    } else {
      hide AfterProbe, AfterCheck;
    }
  }

  lemma TickFailures(s: State, e: Event)
    requires Enabled(s, e) && (e.TickProbes? || e.TickChecks?)
    ensures After(s, e).failures == FailuresAfter(s, e)
  {
  }

  /** A tick that is not healthy looks for agent activity exactly if a child is tracked. */
  lemma ChecksExactly(s: State, e: Event)
    requires Enabled(s, e)
    ensures After(s, e).checking == s.checking
            + (if e.TickProbes? && !e.healthy && s.child.Some? then 1 else if e.TickChecks? then -1 else 0)
  {
    if e.TickProbes? || e.TickChecks? {
      TickChecksOn(s, e);
    } else {
      hide AfterProbe, AfterCheck;
    }
  }

  lemma TickChecksOn(s: State, e: Event)
    requires Enabled(s, e) && (e.TickProbes? || e.TickChecks?)
    ensures After(s, e).checking == s.checking
            + (if e.TickProbes? && !e.healthy && s.child.Some? then 1 else if e.TickChecks? then -1 else 0)
  {
  }

  predicate WantsRestart(s: State, e: Event) {
    e.WaitEnds? && s.child.None? && !s.stopping && e.should
  }

  /**
   * A restart timer that asks for a start while the runtime runs has won, and one that finds a settled start has its
   * outcome.
   */
  predicate WinsAtOnce(s: State, e: Event) {
    WantsRestart(s, e)
    && (s.running || (s.startPending && s.settled == Some(true)))
  }

  predicate LosesAtOnce(s: State, e: Event) {
    WantsRestart(s, e) && !s.running && s.startPending && s.settled == Some(false)
  }

  /** Every restart timer that asked for a start learns its outcome once: it wins or it loses. */
  lemma OutcomesExactly(s: State, e: Event)
    requires Enabled(s, e)
    ensures var t := After(s, e);
            && t.won == s.won + (if WinsAtOnce(s, e) then 1 else 0)
                        + (if e.StartSettles? && e.ok then s.retries else if e.RetryWins? then -1 else 0)
            && t.lost == s.lost + (if LosesAtOnce(s, e) then 1 else 0)
                         + (if e.StartSettles? && !e.ok then s.retries else if e.RetryLoses? then -1 else 0)
            && t.retries == if e.StartSettles? then 0
                            else if WantsRestart(s, e) && !WinsAtOnce(s, e) && !LosesAtOnce(s, e)
                                then s.retries + 1
                            else s.retries
  {
    if e.TickProbes? || e.TickChecks? {
      TickFrame(s, e);
    } else {
      hide AfterProbe, AfterCheck;
    }
  }

  /** A stop waits for the child exactly if one is tracked when its leases are released. */
  lemma DrainsExactly(s: State, e: Event)
    requires Enabled(s, e)
    ensures After(s, e).draining == s.draining
            + (if e.StopReleases? && s.child.Some? then 1 else if e.StopDrains? then -1 else 0)
    ensures After(s, e).releasing == s.releasing + (if e.StopBegins? then 1 else if e.StopReleases? then -1 else 0)
  {
    if e.TickProbes? || e.TickChecks? {
      TickFrame(s, e);
    } else {
      hide AfterProbe, AfterCheck;
    }
  }

  /** The outcome of a settled start is kept until it is forgotten. */
  lemma SettledExactly(s: State, e: Event)
    requires Enabled(s, e)
    ensures After(s, e).settled == if e.StartSettles? then Some(e.ok) else if e.StartForgotten? then None else s.settled
  {
    if e.TickProbes? || e.TickChecks? {
      OthersLeaveStarts(s, e);
    } else {
      hide AfterProbe, AfterCheck;
    }
  }

  /** Besides a new one, the oldest start under way may end its wait for the environment, or settle. */
  function FlightsAfter(s: State, e: Event): seq<Flight>
    requires Enabled(s, e)
  {
    match e
    case SetupEnds(setup) => [if setup.Ready? then Waiting(s.spawned) else Broken] + s.flights[1..]
    case StartSettles(_) => s.flights[1..]
    case UserStarts(setup) => if Adopts(s, e) then s.flights + [Adopting] else FreshFlights(s, e)
    case WaitEnds(_, setup) => FreshFlights(s, e)
    case ChildExits(_, _, _, setup) => FreshFlights(s, e)
    case _ => s.flights
  }

  /** A user's start that finds a child which is not known to run yet waits for that one. */
  predicate Adopts(s: State, e: Event) {
    e.UserStarts? && !s.running && !s.startPending && s.child.Some?
  }

  function FreshFlights(s: State, e: Event): seq<Flight>
    requires e.UserStarts? || e.ChildExits? || e.WaitEnds?
  {
    s.flights + if StartsFresh(s, e) then [FlightFor(SetupOf(e), s.spawned)] else []
  }

  lemma FlightsExactly(s: State, e: Event)
    requires Enabled(s, e)
    ensures After(s, e).flights == FlightsAfter(s, e)
    ensures After(s, e).startPending == ((s.startPending && !e.StartForgotten?) || StartsFresh(s, e) || Adopts(s, e))
  {
    if e.UserStarts? || e.WaitEnds? || e.ChildExits? {
      hide Scheduled;
      if e.ChildExits? { SchedulingFrame(Gone(s, e.exited), e.should); }
    } else if e.SetupEnds? || e.StartSettles? || e.StartForgotten? {
      hide Started, AfterProbe, AfterCheck, AfterExit, AfterWait;
    } else {
      hide After;
      OthersLeaveStarts(s, e);
    }
  }

  /** Only exits that are seen end the life of a child. */
  lemma LiveExactly(s: State, e: Event)
    requires Enabled(s, e)
    ensures After(s, e).live == (if e.ChildExits? then s.live - {e.exited} else s.live)
                                + if Spawns(s, e) then {s.spawned} else {}
  {
    if e.TickProbes? || e.TickChecks? {
      TickLives(s, e);
    } else {
      hide AfterProbe, AfterCheck, Scheduled;
      if e.ChildExits? { SchedulingFrame(Gone(s, e.exited), e.should); }
      if e.RetryLoses? { SchedulingFrame(s.(lost := s.lost - 1), e.should); }
      if e.KillReturns? { SchedulingFrame(s.(killing := s.killing - 1), e.should); }
    }
  }

  lemma TickLives(s: State, e: Event)
    requires Enabled(s, e) && (e.TickProbes? || e.TickChecks?)
    ensures After(s, e).live == s.live
  {
    hide Scheduled;
    match e
    case TickProbes(_, should) => SchedulingFrame(FailureCounted(s.(probing := s.probing - 1)), should);
    case TickChecks(_, should) => SchedulingFrame(FailureCounted(s.(checking := s.checking - 1)), should);
  }

  // ----- How often a crashing child comes back -----

  /** Starts that may still spawn, and the timers and attempts that may still lead to one. */
  function Chances(s: State): int {
    s.timers + s.waits + CountPreparing(s.flights) + (5 - s.attempts)
  }

  function CountPreparing(flights: seq<Flight>): nat {
    if flights == [] then 0 else (if flights[0].Preparing? then 1 else 0) + CountPreparing(flights[1..])
  }

  /** Someone else restarts, or a restart succeeds, or a stop comes to its end. */
  predicate Renews(s: State, e: Event)
    requires Enabled(s, e)
  {
    e.UserStarts? || (e.ChildExits? && e.code == 75) || ResetsAttempts(s, e)
  }

  lemma {:induction false} PreparingAppended(flights: seq<Flight>, f: Flight)
    ensures CountPreparing(flights + [f]) == CountPreparing(flights) + if f.Preparing? then 1 else 0
  {
    if flights == [] {
      assert [f][1..] == [];
    } else {
      PreparingAppended(flights[1..], f);
      assert (flights + [f])[1..] == flights[1..] + [f];
    }
  }

  lemma StartUsesChance(s: State, setup: Setup)
    ensures var t := Started(s, setup, true);
            t.spawned + CountPreparing(t.flights) <= s.spawned + CountPreparing(s.flights) + 1
            && t.timers == s.timers && t.waits == s.waits && t.attempts == s.attempts
  {
    PreparingAppended(s.flights, Adopting);
    PreparingAppended(s.flights, Preparing);
    PreparingAppended(s.flights, Broken);
    PreparingAppended(s.flights, Waiting(s.spawned));
    hide CountPreparing;
  }

  lemma StepUsesChances(s: State, e: Event)
    requires Enabled(s, e) && !Renews(s, e)
    ensures After(s, e).spawned + Chances(After(s, e)) <= s.spawned + Chances(s)
  {
    match e
    case WaitEnds(_, setup) =>
      StartUsesChance(s.(waits := s.waits - 1), setup);
      hide Started, CountPreparing;
    case ChildExits(exited, code, should, setup) =>
      hide After, CountPreparing;
      CrashSchedules(s, exited, code, should, setup);
    case TickProbes(_, _) => TicksUseNoChance(s, e);
    case TickChecks(_, _) => TicksUseNoChance(s, e);
    case SetupEnds(setup) =>
      hide Started, AfterExit, AfterWait, AfterProbe, AfterCheck;
      SetupUsesChance(s.flights, Waiting(s.spawned));
      SetupUsesChance(s.flights, Broken);
      hide CountPreparing;
    case _ =>
      hide Started, AfterExit, AfterWait, AfterProbe, AfterCheck;
  }

  lemma SetupUsesChance(flights: seq<Flight>, f: Flight)
    requires flights != [] && flights[0].Preparing? && !f.Preparing?
    ensures CountPreparing([f] + flights[1..]) == CountPreparing(flights) - 1
  {
    assert ([f] + flights[1..])[1..] == flights[1..];
  }

  lemma TicksUseNoChance(s: State, e: Event)
    requires Enabled(s, e) && (e.TickProbes? || e.TickChecks?)
    ensures After(s, e).spawned + Chances(After(s, e)) == s.spawned + Chances(s)
  {
    CheckEffects(s, e);
    OthersLeaveStarts(s, e);
    TickFrame(s, e);
    hide After, CountPreparing;
  }

  predicate RenewsNowhere(s: State, events: seq<Event>)
    requires CanRun(s, events)
    decreases |events|
  {
    events == [] || (!Renews(s, events[0]) && RenewsNowhere(After(s, events[0]), events[1..]))
  }

  lemma {:induction false} ChancesRunOut(s: State, events: seq<Event>)
    requires CanRun(s, events) && RenewsNowhere(s, events)
    ensures AfterAll(s, events).spawned + Chances(AfterAll(s, events)) <= s.spawned + Chances(s)
    decreases |events|
  {
    if events != [] {
      StepUsesChances(s, events[0]);
      hide After, Renews, Chances;
      ChancesRunOut(After(s, events[0]), events[1..]);
    }
  }

  /**
   * A child that keeps crashing comes back a bounded number of times: after any run, until someone asks for a start, a
   * start succeeds or a stop ends, at most as many children are spawned as there are timers, fired timers, attempts
   * left of five, and a start that waits for its environment.
   */
  lemma CrashLoopEnds(before: seq<Event>, events: seq<Event>)
    requires CanRun(INITIAL, before) && CanRun(AfterAll(INITIAL, before), events)
    requires RenewsNowhere(AfterAll(INITIAL, before), events)
    ensures var s := AfterAll(INITIAL, before);
            AfterAll(s, events).spawned <= s.spawned + s.timers + s.waits + 6 - s.attempts
  {
    var s := AfterAll(INITIAL, before);
    AttemptsBounded(s, events) by { AttemptsBounded(INITIAL, before); }
    AtMostOneStart(INITIAL, before);
    ChancesRunOut(s, events);
    hide CanRun, AfterAll, RenewsNowhere;
    assert s.flights != [] ==> s.flights[1..] == [];
  }
}
