/** The object that supervises the agent runtime process: desktop/electron/runtime-manager.ts. */
module RuntimeManager {
  import opened Text
  import opened RuntimeModel
  import opened RuntimeProperties

  /** Fields of the manager, and as counters the promises and timers that are pending. */
  class Manager {
    var process: Option<nat>
    var running: bool
    var startPromise: bool
    var settled: Option<bool>
    var flights: seq<Flight>
    var stoppingIntentionally: bool
    var autoRestartAttempts: nat
    var consecutiveHealthFailures: nat
    var timers: nat
    var waits: nat
    var retries: nat
    var won: nat
    var lost: nat
    var probing: nat
    var checking: nat
    var killing: nat
    var releasing: nat
    var draining: nat
    var spawned: nat
    var live: set<nat>
    var facts: seq<Fact>
    /** Everything that has happened to this object. */
    ghost var history: seq<Event>

    function View(): State
      reads this
    {
      State(process, running, startPromise, flights, settled, stoppingIntentionally, autoRestartAttempts,
            consecutiveHealthFailures, timers, waits, retries, won, lost, probing, checking, killing, releasing,
            draining, spawned, live, facts)
    }

    /**
     * The object is where its history leads, at most one start is in flight, and failures and kills are accounted for.
     */
    ghost predicate Valid()
      reads this
    {
      IsReachedBy(View(), history)
    }

    constructor ()
      ensures Valid() && history == [] && View() == INITIAL
    {
      hide IsReachedBy;
      process, running, startPromise, settled, flights := None, false, false, None, [];
      stoppingIntentionally, autoRestartAttempts, consecutiveHealthFailures := false, 0, 0;
      timers, waits, retries, won, lost := 0, 0, 0, 0, 0;
      probing, checking, killing, releasing, draining := 0, 0, 0, 0, 0;
      spawned, live, facts := 0, {}, [];
      history := [];
      new;
      StartsReached();
    }

    // ----- Pieces of an event -----

    method Record(f: Fact)
      modifies this
      ensures View() == Recorded(old(View()), f) && history == old(history)
    {
      facts := facts + [f];
    }

    method ScheduleAutoRestart(should: bool)
      modifies this
      ensures View() == Scheduled(old(View()), should) && history == old(history)
    {
      if stoppingIntentionally || !should {
        return;
      }
      if autoRestartAttempts >= MAX_AUTO_RESTARTS {
        return;
      }
      autoRestartAttempts := autoRestartAttempts + 1;
      timers := timers + 1;
    }

    /** Only into a free slot: the previous child must have been given up. */
    method SpawnChild()
      requires process.None?
      modifies this
      ensures View() == Spawned(old(View())) && history == old(history)
    {
      process := Some(spawned);
      live := live + {spawned};
      spawned := spawned + 1;
    }

    method StartInternal(setup: Setup)
      modifies this
      ensures View() == Launched(old(View()), setup) && history == old(history)
    {
      if process.Some? {
        flights := flights + [Adopting];
        return;
      }
      match setup
      case NeedsSetup => flights := flights + [Preparing];
      case SpawnFails => flights := flights + [Broken];
      case Ready =>
        SpawnChild();
        flights := flights + [Waiting(spawned - 1)];
    }

    /** A caller that finds a start in flight shares its outcome. */
    method JoinStart(one: nat)
      modifies this
      ensures View() == Joined(old(View()), one) && history == old(history)
    {
      if settled.None? {
        retries := retries + one;
      } else if settled.value {
        won := won + one;
      } else {
        lost := lost + one;
      }
    }

    method Start(setup: Setup, byTimer: bool)
      modifies this
      ensures View() == Started(old(View()), setup, byTimer) && history == old(history)
    {
      hide Launched, Joined;
      var one := if byTimer then 1 else 0;
      if running {
        won := won + one;
        return;
      }
      if startPromise {
        JoinStart(one);
        return;
      }
      startPromise := true;
      retries := retries + one;
      StartInternal(setup);
    }

    method StartHealthCheck()
      modifies this
      ensures View() == HealthCheckStarted(old(View())) && history == old(history)
    {
      running := true;
      autoRestartAttempts := 0;
      consecutiveHealthFailures := 0;
      Record(Reset);
    }

    method SettleStart(ok: bool)
      requires flights != []
      modifies this
      ensures View() == Settled(old(View()), ok) && history == old(history)
    {
      AnswerRetries(ok);
      flights, settled := flights[1..], Some(ok);
    }

    method AnswerRetries(ok: bool)
      modifies this
      ensures View() == Answered(old(View()), ok) && history == old(history)
    {
      if ok {
        won := won + retries;
      } else {
        lost := lost + retries;
      }
      retries := 0;
    }

    method ForgetChild(exited: nat)
      modifies this
      ensures View() == ChildForgotten(old(View()), exited) && history == old(history)
    {
      live := live - {exited};
      running := false;
      process := None;
    }

    method FinishStop()
      modifies this
      ensures View() == StopFinished(old(View())) && history == old(history)
    {
      running := false;
      stoppingIntentionally := false;
      autoRestartAttempts := 0;
    }

    method CountFailure()
      modifies this
      ensures View() == FailureCounted(old(View())) && history == old(history)
    {
      consecutiveHealthFailures := consecutiveHealthFailures + 1;
      running := false;
      Record(Counted);
    }

    method CountFailureAndSchedule(should: bool)
      modifies this
      ensures View() == Scheduled(FailureCounted(old(View())), should) && history == old(history)
    {
      hide Scheduled, FailureCounted;
      CountFailure();
      ScheduleAutoRestart(should);
    }

    method ReportHealthy()
      modifies this
      ensures View() == HealthReported(old(View())) && history == old(history)
    {
      consecutiveHealthFailures := 0;
      running := true;
      Record(Healthy);
    }

    /** Only after a third counted failure. */
    method ForceKillProcessTree()
      requires process.Some? && consecutiveHealthFailures >= MAX_HEALTH_FAILURES
      modifies this
      ensures View() == ForceKilled(old(View())) && history == old(history)
    {
      process := None;
      running := false;
      killing := killing + 1;
      Record(Killed);
    }

    // ----- One event -----

    /** Enters an event into the history once its effect is complete. */
    ghost method Happened(e: Event, before: State)
      requires IsReachedBy(before, history) && Enabled(before, e) && View() == After(before, e)
      modifies this`history
      ensures Valid() && history == old(history) + [e]
    {
      hide IsReachedBy, After;
      EventReaches(before, history, e);
      history := history + [e];
    }

    method OnUserStart(setup: Setup)
      requires Valid()
      modifies this
      ensures Valid() && history == old(history) + [UserStarts(setup)]
    {
      hide IsReachedBy;
      Start(setup, false);
      Happened(UserStarts(setup), old(View()));
    }

    method OnSetupEnds(setup: Setup)
      requires Valid() && Enabled(View(), SetupEnds(setup))
      modifies this
      ensures Valid() && history == old(history) + [SetupEnds(setup)]
    {
      PreparingHasNoChild(View(), history);
      hide IsReachedBy;
      if setup.Ready? {
        SpawnChild();
        flights := [Waiting(spawned - 1)] + flights[1..];
      } else {
        flights := [Broken] + flights[1..];
      }
      Happened(SetupEnds(setup), old(View()));
    }

    method OnStartSettles(ok: bool)
      requires Valid() && Enabled(View(), StartSettles(ok))
      modifies this
      ensures Valid() && history == old(history) + [StartSettles(ok)]
    {
      hide IsReachedBy;
      if ok && !(flights[0].Adopting? && running) {
        StartHealthCheck();
      }
      SettleStart(ok);
      Happened(StartSettles(ok), old(View()));
    }

    method OnStartForgotten()
      requires Valid() && Enabled(View(), StartForgotten)
      modifies this
      ensures Valid() && history == old(history) + [StartForgotten]
    {
      hide IsReachedBy;
      startPromise, settled := false, None;
      Happened(StartForgotten, old(View()));
    }

    method OnChildExits(exited: nat, code: int, should: bool, setup: Setup)
      requires Valid() && Enabled(View(), ChildExits(exited, code, should, setup))
      modifies this
      ensures Valid() && history == old(history) + [ChildExits(exited, code, should, setup)]
    {
      hide IsReachedBy, Started, Scheduled;
      ForgetChild(exited);
      if code == RESTART_EXIT_CODE {
        Start(setup, false);
      } else {
        ScheduleAutoRestart(should);
      }
      Happened(ChildExits(exited, code, should, setup), old(View()));
    }

    method OnChildError()
      requires Valid()
      modifies this
      ensures Valid() && history == old(history) + [ChildErrors]
    {
      hide IsReachedBy;
      running := false;
      Happened(ChildErrors, old(View()));
    }

    method OnTimerFires(should: bool)
      requires Valid() && Enabled(View(), TimerFires(should))
      modifies this
      ensures Valid() && history == old(history) + [TimerFires(should)]
    {
      hide IsReachedBy;
      timers := timers - 1;
      if process.None? && !stoppingIntentionally && should {
        waits := waits + 1;
      }
      Happened(TimerFires(should), old(View()));
    }

    method OnWaitEnds(should: bool, setup: Setup)
      requires Valid() && Enabled(View(), WaitEnds(should, setup))
      modifies this
      ensures Valid() && history == old(history) + [WaitEnds(should, setup)]
    {
      hide IsReachedBy, Started;
      waits := waits - 1;
      if process.None? && !stoppingIntentionally && should {
        Start(setup, true);
      }
      Happened(WaitEnds(should, setup), old(View()));
    }

    method OnRetryWins()
      requires Valid() && Enabled(View(), RetryWins)
      modifies this
      ensures Valid() && history == old(history) + [RetryWins]
    {
      hide IsReachedBy;
      won := won - 1;
      autoRestartAttempts := 0;
      Happened(RetryWins, old(View()));
    }

    method OnRetryLoses(should: bool)
      requires Valid() && Enabled(View(), RetryLoses(should))
      modifies this
      ensures Valid() && history == old(history) + [RetryLoses(should)]
    {
      hide IsReachedBy, Scheduled;
      lost := lost - 1;
      ScheduleAutoRestart(should);
      Happened(RetryLoses(should), old(View()));
    }

    method StopBegin()
      requires Valid()
      modifies this
      ensures Valid() && history == old(history) + [StopBegins]
    {
      hide IsReachedBy;
      stoppingIntentionally := true;
      releasing := releasing + 1;
      Happened(StopBegins, old(View()));
    }

    method StopAfterRelease()
      requires Valid() && Enabled(View(), StopReleases)
      modifies this
      ensures Valid() && history == old(history) + [StopReleases]
    {
      hide IsReachedBy;
      releasing := releasing - 1;
      if process.Some? {
        draining := draining + 1;
      } else {
        FinishStop();
      }
      Happened(StopReleases, old(View()));
    }

    method StopAfterDrain()
      requires Valid() && Enabled(View(), StopDrains)
      modifies this
      ensures Valid() && history == old(history) + [StopDrains]
    {
      hide IsReachedBy;
      draining := draining - 1;
      process := None;
      FinishStop();
      Happened(StopDrains, old(View()));
    }

    method OnTickBegins()
      requires Valid()
      modifies this
      ensures Valid() && history == old(history) + [TickBegins]
    {
      hide IsReachedBy;
      probing := probing + 1;
      Happened(TickBegins, old(View()));
    }

    method OnTickProbes(healthy: bool, should: bool)
      requires Valid() && Enabled(View(), TickProbes(healthy, should))
      modifies this
      ensures Valid() && history == old(history) + [TickProbes(healthy, should)]
    {
      hide IsReachedBy, Scheduled, FailureCounted;
      probing := probing - 1;
      if healthy {
        ReportHealthy();
      } else if !running && process.None? {
      } else if process.Some? {
        checking := checking + 1;
      } else {
        CountFailureAndSchedule(should);
      }
      Happened(TickProbes(healthy, should), old(View()));
    }

    method OnTickChecks(active: bool, should: bool)
      requires Valid() && Enabled(View(), TickChecks(active, should))
      modifies this
      ensures Valid() && history == old(history) + [TickChecks(active, should)]
    {
      hide IsReachedBy, Scheduled;
      checking := checking - 1;
      if active {
        Record(Deferred);
      } else {
        CountFailure();
        if process.None? {
          ScheduleAutoRestart(should);
        } else if consecutiveHealthFailures >= MAX_HEALTH_FAILURES {
          ForceKillProcessTree();
        }
      }
      Happened(TickChecks(active, should), old(View()));
    }

    method OnKillReturns(should: bool)
      requires Valid() && Enabled(View(), KillReturns(should))
      modifies this
      ensures Valid() && history == old(history) + [KillReturns(should)]
    {
      hide IsReachedBy, Scheduled;
      killing := killing - 1;
      ScheduleAutoRestart(should);
      Happened(KillReturns(should), old(View()));
    }

    /**
     * Whatever happens next, the object moves as the state machine does, and all that holds of its runs holds of it.
     */
    method Handle(e: Event)
      requires Valid() && Enabled(View(), e)
      modifies this
      ensures Valid() && history == old(history) + [e]
      ensures View() == After(old(View()), e)
    {
      EventReaches(View(), history, e);
      hide IsReachedBy;
      match e
      case UserStarts(setup) => OnUserStart(setup);
      case SetupEnds(setup) => OnSetupEnds(setup);
      case StartSettles(ok) => OnStartSettles(ok);
      case StartForgotten => OnStartForgotten();
      case ChildExits(exited, code, should, setup) => OnChildExits(exited, code, should, setup);
      case ChildErrors => OnChildError();
      case TimerFires(should) => OnTimerFires(should);
      case WaitEnds(should, setup) => OnWaitEnds(should, setup);
      case RetryWins => OnRetryWins();
      case RetryLoses(should) => OnRetryLoses(should);
      case StopBegins => StopBegin();
      case StopReleases => StopAfterRelease();
      case StopDrains => StopAfterDrain();
      case TickBegins => OnTickBegins();
      case TickProbes(healthy, should) => OnTickProbes(healthy, should);
      case TickChecks(active, should) => OnTickChecks(active, should);
      case KillReturns(should) => OnKillReturns(should);
      OnlyOneStateIsReached(old(View()), old(history), e, View());
    }
  }
}
