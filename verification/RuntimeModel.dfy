/**
 * The states and events of runtime supervision: desktop/electron/runtime-manager.ts. Each stretch of code between two
 * awaits is one event; what the process, the network and the user do is part of the event.
 */
module RuntimeModel {
  import opened Text

  const MAX_AUTO_RESTARTS := 5
  const MAX_HEALTH_FAILURES := 3
  const RESTART_EXIT_CODE := 75

  /** Where a running `startInternal` waits: for an existing child, for the environment, or for its own child. */
  datatype Flight = Adopting | Preparing | Waiting(child: nat) | Broken

  /** What starting a child meets. */
  datatype Setup = Ready | NeedsSetup | SpawnFails

  /** What health ticks did, for the record: a reset is the start of a new health check. */
  datatype Fact = Healthy | Counted | Deferred | Killed | Reset

  datatype State = State(
    child: Option<nat>,
    running: bool,
    startPending: bool,
    flights: seq<Flight>,
    settled: Option<bool>,
    stopping: bool,
    attempts: nat,
    failures: nat,
    // restart timers: pending, fired and waiting for idle agents, awaiting a start, and their outcomes
    timers: nat,
    waits: nat,
    retries: nat,
    won: nat,
    lost: nat,
    // health ticks: probing, checking for agent activity, after a forced kill
    probing: nat,
    checking: nat,
    killing: nat,
    // stop() calls: releasing leases, waiting for the child to exit
    releasing: nat,
    draining: nat,
    // children spawned so far, those whose exit has not been seen, and the record of health ticks
    spawned: nat,
    live: set<nat>,
    facts: seq<Fact>)

  const INITIAL := State(None, false, false, [], None, false, 0, 0, 0, 0, 0, 0, 0, 0, 0, 0, 0, 0, 0, {}, [])

  /** `should` is the answer of shouldAutoRestart() at that moment. */
  datatype Event =
    | UserStarts(setup: Setup)
    | SetupEnds(setup: Setup)
    | StartSettles(ok: bool)
    | StartForgotten
    | ChildExits(exited: nat, code: int, should: bool, setup: Setup)
    | ChildErrors
    | TimerFires(should: bool)
    | WaitEnds(should: bool, setup: Setup)
    | RetryWins
    | RetryLoses(should: bool)
    | StopBegins
    | StopReleases
    | StopDrains
    | TickBegins
    | TickProbes(healthy: bool, should: bool)
    | TickChecks(active: bool, should: bool)
    | KillReturns(should: bool)

  predicate Enabled(s: State, e: Event) {
    match e
    case SetupEnds(setup) => s.flights != [] && s.flights[0].Preparing? && !setup.NeedsSetup?
    case StartSettles(ok) => s.flights != [] && (ok ==> s.flights[0].Adopting? || s.flights[0].Waiting?)
    case StartForgotten => s.settled.Some?
    case ChildExits(exited, _, _, _) => exited in s.live
    case TimerFires(_) => s.timers > 0
    case WaitEnds(_, _) => s.waits > 0
    case RetryWins => s.won > 0
    case RetryLoses(_) => s.lost > 0
    case StopReleases => s.releasing > 0
    case StopDrains => s.draining > 0
    case TickProbes(_, _) => s.probing > 0
    case TickChecks(_, _) => s.checking > 0
    case KillReturns(_) => s.killing > 0
    case _ => true
  }

  // ----- Effects shared by several events -----

  function Recorded(s: State, f: Fact): State {
    s.(facts := s.facts + [f])
  }

  function Scheduled(s: State, should: bool): State {
    if s.stopping || !should || s.attempts >= MAX_AUTO_RESTARTS then s
    else s.(attempts := s.attempts + 1, timers := s.timers + 1)
  }

  function Spawned(s: State): State {
    s.(child := Some(s.spawned), spawned := s.spawned + 1, live := s.live + {s.spawned})
  }

  /** The first stretch of startInternal. */
  function Launched(s: State, setup: Setup): State {
    if s.child.Some? then s.(flights := s.flights + [Adopting])
    else
      match setup
      case NeedsSetup => s.(flights := s.flights + [Preparing])
      case Ready => Spawned(s).(flights := s.flights + [Waiting(s.spawned)])
      case SpawnFails => s.(flights := s.flights + [Broken])
  }

  /** A call of start() while a start is in flight. */
  function Joined(s: State, one: nat): State {
    match s.settled
    case None => s.(retries := s.retries + one)
    case Some(ok) => if ok then s.(won := s.won + one) else s.(lost := s.lost + one)
  }

  /** A call of start(), by a restart timer or by anyone else. */
  function Started(s: State, setup: Setup, byTimer: bool): State {
    var one := if byTimer then 1 else 0;
    if s.running then s.(won := s.won + one)
    else if s.startPending then Joined(s, one)
    else Launched(s.(startPending := true, retries := s.retries + one), setup)
  }

  function HealthCheckStarted(s: State): State {
    Recorded(s.(running := true, attempts := 0, failures := 0), Reset)
  }

  /** The restart timers that were waiting for a start learn its outcome. */
  function Answered(s: State, ok: bool): State {
    if ok then s.(won := s.won + s.retries, retries := 0) else s.(lost := s.lost + s.retries, retries := 0)
  }

  function Settled(s: State, ok: bool): State
    requires s.flights != []
  {
    Answered(s, ok).(flights := s.flights[1..], settled := Some(ok))
  }

  function StopFinished(s: State): State {
    s.(running := false, stopping := false, attempts := 0)
  }

  function FailureCounted(s: State): State {
    Recorded(s.(failures := s.failures + 1, running := false), Counted)
  }

  function HealthReported(s: State): State {
    Recorded(s.(failures := 0, running := true), Healthy)
  }

  function ForceKilled(s: State): State {
    Recorded(s.(child := None, running := false, killing := s.killing + 1), Killed)
  }

  function ChildForgotten(s: State, exited: nat): State {
    s.(child := None, running := false, live := s.live - {exited})
  }

  // ----- One function per event -----

  function AfterSetup(s: State, setup: Setup): State
    requires s.flights != []
  {
    if setup.Ready? then Spawned(s).(flights := [Waiting(s.spawned)] + s.flights[1..])
    else s.(flights := [Broken] + s.flights[1..])
  }

  function AfterSettling(s: State, ok: bool): State
    requires s.flights != []
  {
    Settled(if !ok || (s.flights[0].Adopting? && s.running) then s else HealthCheckStarted(s), ok)
  }

  function AfterExit(s: State, exited: nat, code: int, should: bool, setup: Setup): State {
    var t := ChildForgotten(s, exited);
    if code == RESTART_EXIT_CODE then Started(t, setup, false) else Scheduled(t, should)
  }

  predicate MayRestart(s: State, should: bool) {
    s.child.None? && !s.stopping && should
  }

  function AfterTimer(s: State, should: bool): State
    requires s.timers > 0
  {
    s.(timers := s.timers - 1, waits := s.waits + if MayRestart(s, should) then 1 else 0)
  }

  function AfterWait(s: State, should: bool, setup: Setup): State
    requires s.waits > 0
  {
    var t := s.(waits := s.waits - 1);
    if MayRestart(s, should) then Started(t, setup, true) else t
  }

  function AfterRelease(s: State): State
    requires s.releasing > 0
  {
    var t := s.(releasing := s.releasing - 1);
    if s.child.Some? then t.(draining := s.draining + 1) else StopFinished(t)
  }

  function AfterProbe(s: State, healthy: bool, should: bool): State
    requires s.probing > 0
  {
    var t := s.(probing := s.probing - 1);
    if healthy then HealthReported(t)
    else if s.child.Some? then t.(checking := s.checking + 1)
    else if !s.running then t
    else Scheduled(FailureCounted(t), should)
  }

  function AfterCheck(s: State, active: bool, should: bool): State
    requires s.checking > 0
  {
    var t := s.(checking := s.checking - 1);
    if active then Recorded(t, Deferred)
    else if s.child.None? then Scheduled(FailureCounted(t), should)
    else if s.failures + 1 >= MAX_HEALTH_FAILURES then ForceKilled(FailureCounted(t))
    else FailureCounted(t)
  }

  function After(s: State, e: Event): State
    requires Enabled(s, e)
  {
    match e
    case UserStarts(setup) => Started(s, setup, false)
    case SetupEnds(setup) => AfterSetup(s, setup)
    case StartSettles(ok) => AfterSettling(s, ok)
    case StartForgotten => s.(startPending := false, settled := None)
    case ChildExits(exited, code, should, setup) => AfterExit(s, exited, code, should, setup)
    case ChildErrors => s.(running := false)
    case TimerFires(should) => AfterTimer(s, should)
    case WaitEnds(should, setup) => AfterWait(s, should, setup)
    case RetryWins => s.(won := s.won - 1, attempts := 0)
    case RetryLoses(should) => Scheduled(s.(lost := s.lost - 1), should)
    case StopBegins => s.(stopping := true, releasing := s.releasing + 1)
    case StopReleases => AfterRelease(s)
    case StopDrains => StopFinished(s.(draining := s.draining - 1, child := None))
    case TickBegins => s.(probing := s.probing + 1)
    case TickProbes(healthy, should) => AfterProbe(s, healthy, should)
    case TickChecks(active, should) => AfterCheck(s, active, should)
    case KillReturns(should) => Scheduled(s.(killing := s.killing - 1), should)
  }
}
