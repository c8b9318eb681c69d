/** Restarts, starts and kills over every run of the supervisor: desktop/electron/runtime-manager.ts. */
module RuntimeProperties {
  import opened Text
  import opened RuntimeModel

  // ----- Runs -----

  predicate CanRun(s: State, events: seq<Event>)
    decreases |events|
  {
    events == [] || (Enabled(s, events[0]) && CanRun(After(s, events[0]), events[1..]))
  }

  function AfterAll(s: State, events: seq<Event>): State
    requires CanRun(s, events)
    decreases |events|
  {
    if events == [] then s else AfterAll(After(s, events[0]), events[1..])
  }

  // ----- At most one start in flight, and children only spawned into an empty slot -----

  /** Exactly one of: no start, one start in flight, or a settled start not yet forgotten. */
  predicate IsCoalesced(s: State) {
    && (s.flights == [] || (|s.flights| == 1 && s.startPending && s.settled.None?))
    && (s.startPending ==> s.flights != [] || s.settled.Some?)
    && (s.settled.Some? ==> s.startPending)
    && (s.flights != [] && s.flights[0].Preparing? ==> s.child.None?)
    && (s.retries > 0 ==> s.flights != [])
  }

  lemma StartKeepsCoalesced(s: State, setup: Setup, byTimer: bool)
    requires IsCoalesced(s)
    ensures IsCoalesced(Started(s, setup, byTimer))
  {
  }

  lemma SettlingKeepsCoalesced(s: State, e: Event)
    requires IsCoalesced(s) && Enabled(s, e) && (e.SetupEnds? || e.StartSettles? || e.StartForgotten?)
    ensures IsCoalesced(After(s, e))
  {
    hide Started, AfterCheck, AfterProbe;
  }

  /** The parts of the state that starts depend on. */
  predicate LeavesStarts(s: State, t: State) {
    t.flights == s.flights && t.startPending == s.startPending && t.settled == s.settled && t.retries == s.retries
    && (s.child.None? ==> t.child.None?)
  }

  lemma OthersLeaveStarts(s: State, e: Event)
    requires Enabled(s, e)
    requires !(e.UserStarts? || e.SetupEnds? || e.StartSettles? || e.StartForgotten? || e.ChildExits? || e.WaitEnds?)
    ensures LeavesStarts(s, After(s, e))
  {
    hide Started, AfterSetup, AfterSettling, AfterExit, AfterWait, AfterProbe, AfterCheck;
    match e
    case TickProbes(healthy, should) => ProbeLeavesStarts(s, healthy, should);
    case TickChecks(active, should) => CheckLeavesStarts(s, active, should);
    case _ =>
  }

  lemma ProbeLeavesStarts(s: State, healthy: bool, should: bool)
    requires s.probing > 0
    ensures LeavesStarts(s, AfterProbe(s, healthy, should))
  {
  }

  lemma CheckLeavesStarts(s: State, active: bool, should: bool)
    requires s.checking > 0
    ensures LeavesStarts(s, AfterCheck(s, active, should))
  {
  }

  lemma StepKeepsCoalesced(s: State, e: Event)
    requires IsCoalesced(s) && Enabled(s, e)
    ensures IsCoalesced(After(s, e))
  {
    hide Started, AfterSetup, AfterSettling, AfterCheck, AfterProbe, AfterRelease, AfterTimer, StopFinished;
    match e
    case UserStarts(setup) => StartKeepsCoalesced(s, setup, false);
    case ChildExits(exited, code, _, setup) =>
      StartKeepsCoalesced(s.(child := None, running := false, live := s.live - {exited}), setup, false);
    case WaitEnds(_, setup) => StartKeepsCoalesced(s.(waits := s.waits - 1), setup, true);
    case SetupEnds(_) => SettlingKeepsCoalesced(s, e);
    case StartSettles(_) => SettlingKeepsCoalesced(s, e);
    case StartForgotten => SettlingKeepsCoalesced(s, e);
    case _ => OthersLeaveStarts(s, e);
  }

  /** In every interleaving at most one start is in flight, whoever asked for it and however often. */
  lemma {:induction false} AtMostOneStart(s: State, events: seq<Event>)
    requires IsCoalesced(s) && CanRun(s, events)
    ensures IsCoalesced(AfterAll(s, events)) && |AfterAll(s, events).flights| <= 1
    decreases |events|
  {
    if events != [] {
      StepKeepsCoalesced(s, events[0]);
      hide After;
      AtMostOneStart(After(s, events[0]), events[1..]);
    }
  }

  /** The slot an event leaves behind before it may spawn: a child that exits gives its slot up first. */
  predicate SlotIsFree(s: State, e: Event) {
    s.child.None? || e.ChildExits?
  }

  /** A child is spawned only when none is tracked, although the code checks before awaiting the environment. */
  lemma SpawnsIntoFreeSlot(events: seq<Event>, e: Event)
    requires CanRun(INITIAL, events) && Enabled(AfterAll(INITIAL, events), e)
    requires After(AfterAll(INITIAL, events), e).spawned > AfterAll(INITIAL, events).spawned
    ensures var s, t := AfterAll(INITIAL, events), After(AfterAll(INITIAL, events), e);
            SlotIsFree(s, e) && t.spawned == s.spawned + 1 && t.child == Some(s.spawned)
  {
    AtMostOneStart(INITIAL, events);
    SpawnNeedsFreeSlot(AfterAll(INITIAL, events), e);
  }

  lemma SpawnNeedsFreeSlot(s: State, e: Event)
    requires IsCoalesced(s) && Enabled(s, e) && After(s, e).spawned > s.spawned
    ensures SlotIsFree(s, e) && After(s, e).spawned == s.spawned + 1 && After(s, e).child == Some(s.spawned)
  {
    hide Scheduled, Started, AfterProbe, AfterCheck, AfterExit, AfterWait;
    EffectsOf(s, e);
    CheckEffects(s, e);
  }

  // ----- Automatic restarts cease -----

  /** What is left of the restart budget: timers that will fire and attempts that may still be scheduled. */
  function Budget(s: State): int {
    s.timers + (5 - s.attempts)
  }

  /** The attempts are reset: by a successful start or by the end of a stop. */
  predicate ResetsAttempts(s: State, e: Event)
    requires Enabled(s, e)
  {
    e.RetryWins? || (e.StartSettles? && e.ok) || e.StopDrains? || (e.StopReleases? && s.child.None?)
  }

  /** The failure count and the record of health ticks are untouched. */
  predicate LeavesHealth(s: State, t: State) {
    t.failures == s.failures && t.facts == s.facts
  }

  /** Scheduling a restart moves one unit from the attempts left to the timers, or does nothing. */
  lemma SchedulingEffect(s: State, should: bool)
    ensures var t := Scheduled(s, should);
            && Budget(t) == Budget(s)
            && (s.attempts <= 5 ==> t.attempts <= 5)
            && LeavesHealth(s, t) && t.spawned == s.spawned && t.killing == s.killing && t.child == s.child
  {
  }

  lemma StartingEffect(s: State, setup: Setup, byTimer: bool)
    ensures var t := Started(s, setup, byTimer);
            && t.timers == s.timers && t.attempts == s.attempts && LeavesHealth(s, t) && t.killing == s.killing
            && (t.spawned == s.spawned || (s.child.None? && t.spawned == s.spawned + 1 && t.child == Some(s.spawned)))
  {
  }

  /**
   * What starting and scheduling have in common: the budget, the health record, and at most one spawn into a free slot.
   */
  predicate StartsOrSchedules(s: State, e: Event, t: State) {
    && Budget(t) == Budget(s)
    && (s.attempts <= 5 ==> t.attempts <= 5)
    && LeavesHealth(s, t) && t.killing <= s.killing
    && (t.spawned == s.spawned || (SlotIsFree(s, e) && t.spawned == s.spawned + 1 && t.child == Some(s.spawned)))
  }

  lemma EffectsOf(s: State, e: Event)
    requires Enabled(s, e)
    ensures e.UserStarts? || e.ChildExits? || e.WaitEnds? || e.RetryLoses? || e.KillReturns? ==>
              StartsOrSchedules(s, e, After(s, e))
  {
    hide Scheduled, Started, AfterSetup, AfterSettling, AfterRelease, AfterProbe, AfterCheck, AfterTimer, StopFinished;
    match e
    case UserStarts(setup) => StartingEffect(s, setup, false);
    case ChildExits(exited, code, should, setup) =>
      var t := s.(child := None, running := false, live := s.live - {exited});
      StartingEffect(t, setup, false);
      SchedulingEffect(t, should);
    case WaitEnds(should, setup) => StartingEffect(s.(waits := s.waits - 1), setup, true);
    case RetryLoses(should) => SchedulingEffect(s.(lost := s.lost - 1), should);
    case KillReturns(should) => SchedulingEffect(s.(killing := s.killing - 1), should);
    case _ =>
  }

  /** What health ticks keep, and when they kill. */
  predicate TicksSafely(s: State, t: State) {
    && Budget(t) == Budget(s)
    && (s.attempts <= 5 ==> t.attempts <= 5)
    && t.spawned == s.spawned
  }

  lemma ProbeEffect(s: State, healthy: bool, should: bool)
    requires s.probing > 0
    ensures TicksSafely(s, AfterProbe(s, healthy, should)) && AfterProbe(s, healthy, should).killing == s.killing
  {
    hide Scheduled;
    SchedulingEffect(FailureCounted(s.(probing := s.probing - 1)), should);
  }

  lemma CheckEffect(s: State, active: bool, should: bool)
    requires s.checking > 0
    ensures var t := AfterCheck(s, active, should);
            TicksSafely(s, t) && (t.killing > s.killing ==> !active && s.child.Some? && t.child.None?)
  {
    hide Scheduled;
    SchedulingEffect(FailureCounted(s.(checking := s.checking - 1)), should);
  }

  lemma CheckEffects(s: State, e: Event)
    requires Enabled(s, e)
    ensures e.TickProbes? || e.TickChecks? ==> TicksSafely(s, After(s, e))
    ensures (e.TickProbes? || e.TickChecks?) && After(s, e).killing > s.killing ==>
              e.TickChecks? && !e.active && s.child.Some? && After(s, e).child.None?
  {
    hide AfterProbe, AfterCheck, AfterSettling, AfterExit, AfterWait, AfterSetup, AfterRelease;
    match e
    case TickProbes(healthy, should) => ProbeEffect(s, healthy, should);
    case TickChecks(active, should) => CheckEffect(s, active, should);
    case _ =>
  }

  lemma StepBoundsAttempts(s: State, e: Event)
    requires Enabled(s, e) && s.attempts <= 5
    ensures After(s, e).attempts <= 5
  {
    EffectsOf(s, e);
    CheckEffects(s, e);
    hide Scheduled, Started, AfterExit, AfterWait, AfterProbe, AfterCheck;
  }

  /** The attempts never exceed their maximum. */
  lemma {:induction false} AttemptsBounded(s: State, events: seq<Event>)
    requires s.attempts <= 5 && CanRun(s, events)
    ensures AfterAll(s, events).attempts <= 5
    decreases |events|
  {
    if events != [] {
      StepBoundsAttempts(s, events[0]);
      hide After;
      AttemptsBounded(After(s, events[0]), events[1..]);
    }
  }

  lemma StepSpendsBudget(s: State, e: Event)
    requires Enabled(s, e) && !ResetsAttempts(s, e)
    ensures Budget(After(s, e)) == Budget(s) - if e.TimerFires? then 1 else 0
  {
    EffectsOf(s, e);
    CheckEffects(s, e);
    hide Scheduled, Started, AfterExit, AfterWait, AfterProbe, AfterCheck;
  }

  predicate IsUneventful(s: State, events: seq<Event>)
    requires CanRun(s, events)
    decreases |events|
  {
    events == [] || (!ResetsAttempts(s, events[0]) && IsUneventful(After(s, events[0]), events[1..]))
  }

  function Fires(events: seq<Event>): nat {
    if events == [] then 0 else (if events[0].TimerFires? then 1 else 0) + Fires(events[1..])
  }

  /** Without a successful start or a stop, every restart timer that fires uses up one unit of the budget. */
  lemma {:induction false} FiresSpendBudget(s: State, events: seq<Event>)
    requires CanRun(s, events) && IsUneventful(s, events)
    ensures Budget(AfterAll(s, events)) + Fires(events) == Budget(s)
    decreases |events|
  {
    if events != [] {
      StepSpendsBudget(s, events[0]);
      hide After, ResetsAttempts;
      FiresSpendBudget(After(s, events[0]), events[1..]);
    }
  }

  /**
   * So automatic restarts cease: after any run, fewer than a fixed number of timers fire before a success or a stop.
   */
  lemma RestartsCease(before: seq<Event>, events: seq<Event>)
    requires CanRun(INITIAL, before) && CanRun(AfterAll(INITIAL, before), events)
    requires IsUneventful(AfterAll(INITIAL, before), events)
    ensures Fires(events) <= AfterAll(INITIAL, before).timers + 5
  {
    var s := AfterAll(INITIAL, before);
    AttemptsBounded(s, events) by { AttemptsBounded(INITIAL, before); }
    FiresSpendBudget(s, events);
  }

  // ----- Guarded kills -----

  /** Counted failures since the last healthy tick or start of a health check; deferred ticks change nothing. */
  function CountedRun(facts: seq<Fact>): nat {
    if facts == [] then 0
    else
      var earlier := CountedRun(facts[..|facts| - 1]);
      match facts[|facts| - 1]
      case Counted => earlier + 1
      case Healthy => 0
      case Reset => 0
      case _ => earlier
  }

  /** Every forced kill comes right after a failure that was counted, as the third or a later one in a row. */
  predicate KillsAreJustified(facts: seq<Fact>) {
    forall i :: 0 <= i < |facts| && facts[i].Killed? ==>
      i > 0 && facts[i - 1].Counted? && CountedRun(facts[..i]) >= 3
  }

  predicate IsAccounted(s: State) {
    s.failures == CountedRun(s.facts) && KillsAreJustified(s.facts)
  }

  lemma FactCounted(facts: seq<Fact>, f: Fact)
    ensures CountedRun(facts + [f]) ==
              match f
              case Counted => CountedRun(facts) + 1
              case Healthy => 0
              case Reset => 0
              case _ => CountedRun(facts)
  {
    assert (facts + [f])[..|facts|] == facts;
  }

  lemma KillsStayJustified(facts: seq<Fact>, f: Fact)
    requires KillsAreJustified(facts)
    requires f.Killed? ==> facts != [] && facts[|facts| - 1].Counted? && CountedRun(facts) >= 3
    ensures KillsAreJustified(facts + [f])
  {
    hide CountedRun;
    var more := facts + [f];
    forall i | 0 <= i < |more| && more[i].Killed?
      ensures i > 0 && more[i - 1].Counted? && CountedRun(more[..i]) >= 3
    {
      if i < |facts| {
        assert more[..i] == facts[..i];
      } else {
        assert more[..i] == facts;
      }
    }
  }

  lemma FactAppended(facts: seq<Fact>, f: Fact)
    requires KillsAreJustified(facts)
    requires f.Killed? ==> facts != [] && facts[|facts| - 1].Counted? && CountedRun(facts) >= 3
    ensures KillsAreJustified(facts + [f])
    ensures CountedRun(facts + [f]) ==
              match f
              case Counted => CountedRun(facts) + 1
              case Healthy => 0
              case Reset => 0
              case _ => CountedRun(facts)
  {
    hide KillsAreJustified, CountedRun;
    FactCounted(facts, f);
    KillsStayJustified(facts, f);
  }

  lemma ProbeKeepsAccounted(s: State, healthy: bool, should: bool)
    requires IsAccounted(s) && s.probing > 0
    ensures IsAccounted(AfterProbe(s, healthy, should))
  {
    hide CountedRun, KillsAreJustified, Scheduled;
    SchedulingEffect(FailureCounted(s.(probing := s.probing - 1)), should);
    FactAppended(s.facts, Healthy);
    FactAppended(s.facts, Counted);
  }

  lemma CheckKeepsAccounted(s: State, active: bool, should: bool)
    requires IsAccounted(s) && s.checking > 0
    ensures IsAccounted(AfterCheck(s, active, should))
  {
    hide CountedRun, KillsAreJustified, Scheduled;
    SchedulingEffect(FailureCounted(s.(checking := s.checking - 1)), should);
    FactAppended(s.facts, Deferred);
    FactAppended(s.facts, Counted);
    if s.failures + 1 >= 3 {
      FactAppended(s.facts + [Counted], Killed);
    }
  }

  lemma StepKeepsAccounted(s: State, e: Event)
    requires IsAccounted(s) && Enabled(s, e)
    ensures IsAccounted(After(s, e))
  {
    hide CountedRun, KillsAreJustified, Scheduled, Started, AfterProbe, AfterCheck, AfterExit, AfterWait;
    EffectsOf(s, e);
    match e
    case StartSettles(ok) => FactAppended(s.facts, Reset);
    case TickProbes(healthy, should) => ProbeKeepsAccounted(s, healthy, should);
    case TickChecks(active, should) => CheckKeepsAccounted(s, active, should);
    case _ =>
  }

  /**
   * In every interleaving of health ticks, a forced kill follows three counted failures with no healthy tick between.
   */
  lemma {:induction false} KillsOnlyAfterThreeFailures(s: State, events: seq<Event>)
    requires IsAccounted(s) && CanRun(s, events)
    ensures IsAccounted(AfterAll(s, events))
    decreases |events|
  {
    if events != [] {
      StepKeepsAccounted(s, events[0]);
      hide After, IsAccounted;
      KillsOnlyAfterThreeFailures(After(s, events[0]), events[1..]);
    }
  }

  /** A forced kill happens exactly in a tick that saw no agent activity and a tracked child, at the third failure. */
  predicate Kills(s: State, e: Event) {
    e.TickChecks? && !e.active && s.child.Some? && s.failures + 1 >= 3
  }

  lemma KillsNeedIdleAgents(s: State, e: Event)
    requires Enabled(s, e)
    ensures After(s, e).killing > s.killing <==> Kills(s, e)
    ensures Kills(s, e) ==> After(s, e).child.None?
  {
    hide Scheduled, Started, AfterProbe, AfterExit, AfterWait;
    EffectsOf(s, e);
    CheckEffects(s, e);
    match e
    case TickChecks(_, should) => SchedulingEffect(FailureCounted(s.(checking := s.checking - 1)), should);
    case _ =>
  }

  // ----- Stopping -----

  /** The stop that is under way, or one of several, comes to its end. */
  predicate EndsStop(s: State, e: Event) {
    e.StopDrains? || (e.StopReleases? && s.child.None?)
  }

  predicate StaysStopping(s: State, t: State) {
    t.stopping && t.timers <= s.timers && t.waits <= s.waits
  }

  lemma StartWhileStopping(s: State, e: Event)
    requires s.stopping && Enabled(s, e) && (e.UserStarts? || e.ChildExits? || e.WaitEnds?)
    ensures StaysStopping(s, After(s, e))
  {
    hide Started, AfterProbe, AfterCheck, AfterTimer, AfterRelease, AfterSetup, AfterSettling;
    if e.UserStarts? {
      StartLeavesTimers(s, e.setup, false);
    } else if e.ChildExits? {
      StartLeavesTimers(s.(child := None, running := false, live := s.live - {e.exited}), e.setup, false);
    }
  }

  lemma TickWhileStopping(s: State, e: Event)
    requires s.stopping && Enabled(s, e) && (e.TickProbes? || e.TickChecks? || e.TimerFires?)
    ensures StaysStopping(s, After(s, e))
  {
    hide Started, AfterExit, AfterWait, AfterRelease, AfterSetup, AfterSettling;
  }

  lemma StoppingStep(s: State, e: Event)
    requires s.stopping && Enabled(s, e) && !EndsStop(s, e)
    ensures StaysStopping(s, After(s, e))
  {
    if e.UserStarts? || e.ChildExits? || e.WaitEnds? {
      hide After;
      StartWhileStopping(s, e);
    } else if e.TickProbes? || e.TickChecks? || e.TimerFires? {
      hide After;
      TickWhileStopping(s, e);
    } else {
      hide Started, AfterExit, AfterWait, AfterProbe, AfterCheck, AfterTimer;
    }
  }

  lemma StartLeavesTimers(s: State, setup: Setup, byTimer: bool)
    ensures var t := Started(s, setup, byTimer); t.timers == s.timers && t.waits == s.waits && t.stopping == s.stopping
  {
  }

  predicate EndsNoStop(s: State, events: seq<Event>)
    requires CanRun(s, events)
    decreases |events|
  {
    events == [] || (!EndsStop(s, events[0]) && EndsNoStop(After(s, events[0]), events[1..]))
  }

  /** Until a stop ends, whatever exits or fails, no restart is scheduled and no timer that fires goes on to restart. */
  lemma {:induction false} StoppingSchedulesNothing(s: State, events: seq<Event>)
    requires s.stopping && CanRun(s, events) && EndsNoStop(s, events)
    ensures var t := AfterAll(s, events); t.stopping && t.timers <= s.timers && t.waits <= s.waits
    decreases |events|
  {
    if events != [] {
      StoppingStep(s, events[0]);
      hide After;
      StoppingSchedulesNothing(After(s, events[0]), events[1..]);
    }
  }

  // ----- Live children -----

  /** Every child that has not exited yet is the tracked one. */
  predicate TracksLive(s: State) {
    forall c :: c in s.live ==> s.child == Some(c)
  }

  /** A forced kill, or the end of stop(), gives up a child whose exit has not been seen. */
  predicate GivesUpLiveChild(s: State, e: Event) {
    s.child.Some? && s.child.value in s.live && (e.StopDrains? || Kills(s, e))
  }

  lemma StartTracksLive(s: State, setup: Setup, byTimer: bool)
    requires TracksLive(s)
    ensures TracksLive(Started(s, setup, byTimer))
  {
  }

  lemma ScheduleTracksLive(s: State, should: bool)
    ensures Scheduled(s, should).live == s.live && Scheduled(s, should).child == s.child
  {
  }

  lemma TicksTrackLive(s: State, e: Event)
    requires TracksLive(s) && Enabled(s, e) && (e.TickProbes? || e.TickChecks?)
    ensures TracksLive(After(s, e)) <==> !GivesUpLiveChild(s, e)
  {
    hide Scheduled, Started;
    match e
    case TickProbes(_, should) => ScheduleTracksLive(FailureCounted(s.(probing := s.probing - 1)), should);
    case TickChecks(_, should) => ScheduleTracksLive(FailureCounted(s.(checking := s.checking - 1)), should);
  }

  lemma StartingTracksLive(s: State, e: Event)
    requires TracksLive(s) && Enabled(s, e) && (e.UserStarts? || e.ChildExits? || e.WaitEnds?)
    ensures TracksLive(After(s, e)) && After(s, e).killing == s.killing
  {
    hide Scheduled, Started;
    match e
    case UserStarts(setup) =>
      StartTracksLive(s, setup, false);
      StartingEffect(s, setup, false);
    case ChildExits(exited, code, should, setup) =>
      var t := s.(child := None, running := false, live := s.live - {exited});
      StartTracksLive(t, setup, false);
      StartingEffect(t, setup, false);
      ScheduleTracksLive(t, should);
      SchedulingEffect(t, should);
    case WaitEnds(should, setup) =>
      StartTracksLive(s.(waits := s.waits - 1), setup, true);
      StartingEffect(s.(waits := s.waits - 1), setup, true);
  }

  lemma OthersTrackLive(s: State, e: Event)
    requires IsCoalesced(s) && TracksLive(s) && Enabled(s, e)
    requires !(e.UserStarts? || e.ChildExits? || e.WaitEnds? || e.TickProbes? || e.TickChecks? || e.StopDrains?)
    ensures TracksLive(After(s, e)) && After(s, e).killing <= s.killing
  {
    hide Scheduled, Started, AfterProbe, AfterCheck, AfterTimer, AfterExit, AfterWait;
    match e
    case RetryLoses(should) => SchedulingEffect(s.(lost := s.lost - 1), should);
      ScheduleTracksLive(s.(lost := s.lost - 1), should);
    case KillReturns(should) => SchedulingEffect(s.(killing := s.killing - 1), should);
      ScheduleTracksLive(s.(killing := s.killing - 1), should);
    case TimerFires(should) => TimerTracksLive(s, should);
    case _ =>
  }

  /** A live child escapes tracking exactly when it is given up before its exit is seen. */
  lemma StepTracksLive(s: State, e: Event)
    requires IsCoalesced(s) && TracksLive(s) && Enabled(s, e)
    ensures TracksLive(After(s, e)) <==> !GivesUpLiveChild(s, e)
  {
    if e.TickProbes? || e.TickChecks? {
      hide After, TracksLive, GivesUpLiveChild;
      TicksTrackLive(s, e);
    } else if e.StopDrains? {
    } else if e.UserStarts? || e.ChildExits? || e.WaitEnds? {
      hide After, TracksLive;
      StartingTracksLive(s, e);
    } else {
      hide After, TracksLive;
      OthersTrackLive(s, e);
    }
  }

  lemma TimerTracksLive(s: State, should: bool)
    requires s.timers > 0
    ensures var t := AfterTimer(s, should); t.live == s.live && t.child == s.child && t.killing == s.killing
  {
  }

  /** The state after the first `n` events. */
  function StateAt(s: State, events: seq<Event>, n: nat): State
    requires CanRun(s, events) && n <= |events|
    decreases n
  {
    if n == 0 then s else StateAt(After(s, events[0]), events[1..], n - 1)
  }

  lemma {:induction false} NextState(s: State, events: seq<Event>, n: nat)
    requires CanRun(s, events) && n < |events| && IsCoalesced(s)
    ensures Enabled(StateAt(s, events, n), events[n]) && IsCoalesced(StateAt(s, events, n))
    ensures StateAt(s, events, n + 1) == After(StateAt(s, events, n), events[n])
    decreases n
  {
    hide IsCoalesced, Enabled, After;
    if n > 0 {
      StepKeepsCoalesced(s, events[0]);
      NextState(After(s, events[0]), events[1..], n - 1);
    }
  }

  ghost predicate TracksThroughout(events: seq<Event>, n: nat)
    requires CanRun(INITIAL, events) && n <= |events|
  {
    forall k: nat :: k <= n ==> TracksLive(StateAt(INITIAL, events, k))
  }

  ghost predicate GivesUpNone(events: seq<Event>, n: nat)
    requires CanRun(INITIAL, events) && n <= |events|
  {
    forall k: nat :: k < n ==> !GivesUpLiveChild(StateAt(INITIAL, events, k), events[k])
  }

  /** Every live child stays the tracked one through a whole run exactly if none is given up before its exit is seen. */
  lemma {:induction false} RunTracksLive(events: seq<Event>, n: nat)
    requires CanRun(INITIAL, events) && n <= |events|
    ensures TracksThroughout(events, n) <==> GivesUpNone(events, n)
    decreases n
  {
    if n > 0 {
      RunTracksLive(events, n - 1);
      NextState(INITIAL, events, n - 1);
      var s := StateAt(INITIAL, events, n - 1);
      hide StateAt, After, Enabled, CanRun, TracksLive, IsCoalesced, GivesUpLiveChild;
      if TracksLive(s) {
        StepTracksLive(s, events[n - 1]);
      }
    }
  }

  const ABANDONING := [UserStarts(Ready), StopBegins, StopReleases, StopDrains]
  const STARTING_AGAIN := [StartSettles(false), StartForgotten, UserStarts(Ready)]

  lemma FirstEvent(s: State, e: Event, rest: seq<Event>)
    requires Enabled(s, e) && CanRun(After(s, e), rest)
    ensures CanRun(s, [e] + rest) && AfterAll(s, [e] + rest) == AfterAll(After(s, e), rest)
  {
    hide Enabled, After;
    assert ([e] + rest)[1..] == rest;
  }

  lemma FourEvents(s: State, a: Event, b: Event, c: Event, d: Event)
    requires Enabled(s, a) && Enabled(After(s, a), b) && Enabled(After(After(s, a), b), c)
    requires Enabled(After(After(After(s, a), b), c), d)
    ensures CanRun(s, [a, b, c, d]) && AfterAll(s, [a, b, c, d]) == After(After(After(After(s, a), b), c), d)
  {
    hide After, Enabled;
    var s1, s2, s3 := After(s, a), After(After(s, a), b), After(After(After(s, a), b), c);
    FirstEvent(s3, d, []);
    FirstEvent(s2, c, [d] + []);
    FirstEvent(s1, b, [c] + ([d] + []));
    FirstEvent(s, a, [b] + ([c] + ([d] + [])));
    assert [a, b, c, d] == [a] + ([b] + ([c] + ([d] + [])));
  }

  const STARTED := INITIAL.(startPending := true, flights := [Waiting(0)], child := Some(0), spawned := 1, live := {0})
  const STOPPING := STARTED.(stopping := true, releasing := 1)
  const STOPPED := STARTED.(child := None)

  lemma StartedByUser()
    ensures Enabled(INITIAL, UserStarts(Ready)) && After(INITIAL, UserStarts(Ready)) == STARTED
  {
    assert INITIAL.live + {0} == {0};
  }

  lemma StopStepEffects(s: State)
    ensures After(s, StopBegins) == s.(stopping := true, releasing := s.releasing + 1)
    ensures s.releasing > 0 && s.child.Some? ==>
              After(s, StopReleases) == s.(releasing := s.releasing - 1, draining := s.draining + 1)
    ensures s.draining > 0 ==>
              After(s, StopDrains) == s.(draining := s.draining - 1, child := None, running := false,
                  stopping := false, attempts := 0)
  {
    hide Started, Scheduled, AfterProbe, AfterCheck, AfterExit;
  }

  lemma StopReachesDrain()
    ensures Enabled(STARTED, StopBegins) && After(STARTED, StopBegins) == STOPPING
    ensures Enabled(STOPPING, StopReleases)
    ensures After(STOPPING, StopReleases) == STOPPING.(releasing := 0, draining := 1)
  {
    StopStepEffects(STARTED);
    StopStepEffects(STOPPING);
    hide After;
  }

  lemma DrainGivesUp()
    ensures var s := STOPPING.(releasing := 0, draining := 1);
            Enabled(s, StopDrains) && After(s, StopDrains) == STOPPED
  {
    StopStepEffects(STOPPING.(releasing := 0, draining := 1));
    hide After;
  }

  /** It happens: a child that outlives stop() is no longer tracked. */
  lemma StopAbandonsChild()
    ensures CanRun(INITIAL, ABANDONING) && AfterAll(INITIAL, ABANDONING) == STOPPED && !TracksLive(STOPPED)
  {
    hide CanRun, AfterAll, After, Enabled;
    assert 0 in STOPPED.live;
    StartedByUser();
    StopReachesDrain();
    DrainGivesUp();
    FourEvents(INITIAL, UserStarts(Ready), StopBegins, StopReleases, StopDrains);
  }

  lemma FailedStartEffect(s: State)
    requires s.flights != [] && s.retries == 0
    ensures After(s, StartSettles(false)) == s.(flights := s.flights[1..], settled := Some(false))
  {
    hide Started, Launched, Scheduled, AfterProbe, AfterCheck, AfterExit, AfterSetup;
  }

  lemma FreshStartEffect(s: State)
    requires !s.running && !s.startPending && s.child.None?
    ensures After(s, UserStarts(Ready)).live == s.live + {s.spawned}
    ensures After(s, UserStarts(Ready)).child == Some(s.spawned)
  {
    hide Scheduled, AfterProbe, AfterCheck, AfterExit, AfterSetup;
  }

  lemma StartsAgain()
    ensures var failed := STOPPED.(flights := [], settled := Some(false));
            var forgotten := STOPPED.(flights := [], startPending := false);
            && Enabled(STOPPED, StartSettles(false)) && After(STOPPED, StartSettles(false)) == failed
            && Enabled(failed, StartForgotten) && After(failed, StartForgotten) == forgotten
            && Enabled(forgotten, UserStarts(Ready))
            && After(forgotten, UserStarts(Ready)).live == {0} + {1}
            && After(forgotten, UserStarts(Ready)).child == Some(1)
  {
    hide Started, Launched, Scheduled, Settled, AfterProbe, AfterCheck, AfterExit, AfterSetup, AfterSettling;
    FailedStartEffect(STOPPED);
    FreshStartEffect(STOPPED.(flights := [], startPending := false));
  }

  /** And the next start spawns a second child beside it. */
  lemma SecondChildBesideAbandoned()
    ensures CanRun(STOPPED, STARTING_AGAIN)
    ensures var t := AfterAll(STOPPED, STARTING_AGAIN); t.live == {0} + {1} && t.child == Some(1)
  {
    var failed := STOPPED.(flights := [], settled := Some(false));
    var forgotten := STOPPED.(flights := [], startPending := false);
    StartsAgain();
    hide After, Enabled;
    FirstEvent(forgotten, UserStarts(Ready), []);
    FirstEvent(failed, StartForgotten, [UserStarts(Ready)] + []);
    FirstEvent(STOPPED, StartSettles(false), [StartForgotten] + ([UserStarts(Ready)] + []));
    assert STARTING_AGAIN == [StartSettles(false)] + ([StartForgotten] + ([UserStarts(Ready)] + []));
  }

  // ----- Reachable states -----

  /** A history leads to this state; what every run keeps is spelled out. */
  predicate IsReachedBy(s: State, history: seq<Event>) {
    CanRun(INITIAL, history) && AfterAll(INITIAL, history) == s
    && IsCoalesced(s) && IsAccounted(s) && s.attempts <= 5
  }

  lemma StartsReached()
    ensures IsReachedBy(INITIAL, [])
  {
  }

  lemma {:induction false} RunExtends(s: State, events: seq<Event>, e: Event)
    requires CanRun(s, events) && Enabled(AfterAll(s, events), e)
    ensures CanRun(s, events + [e]) && AfterAll(s, events + [e]) == After(AfterAll(s, events), e)
    decreases |events|
  {
    hide Enabled, After;
    if events == [] {
      assert [] + [e] == [e] && [e][1..] == [];
    } else {
      assert (events + [e])[1..] == events[1..] + [e];
      RunExtends(After(s, events[0]), events[1..], e);
    }
  }

  lemma EventReaches(s: State, history: seq<Event>, e: Event)
    requires IsReachedBy(s, history) && Enabled(s, e)
    ensures IsReachedBy(After(s, e), history + [e])
  {
    hide Enabled, After, CanRun, AfterAll, IsCoalesced, IsAccounted;
    RunExtends(INITIAL, history, e);
    StepKeepsCoalesced(s, e);
    StepKeepsAccounted(s, e);
    StepBoundsAttempts(s, e);
  }

  lemma OnlyOneStateIsReached(s: State, history: seq<Event>, e: Event, t: State)
    requires IsReachedBy(s, history) && Enabled(s, e) && IsReachedBy(t, history + [e])
    ensures t == After(s, e)
  {
    hide Enabled, After, CanRun, AfterAll, IsCoalesced, IsAccounted;
    RunExtends(INITIAL, history, e);
  }

  lemma PreparingHasNoChild(s: State, history: seq<Event>)
    requires IsReachedBy(s, history) && s.flights != [] && s.flights[0].Preparing?
    ensures s.child.None?
  {
  }
}
