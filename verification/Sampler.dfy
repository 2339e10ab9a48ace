/** The self-rearming SHT20 sampler (sensor_hub_sht20.c): its delayed work, one access to the shared
    configuration at a time, interleaved with serialised reconfigurations and the final removal. */
module Sampler {
  import opened Common

  const DEFAULT_PERIOD_MS: nat := 1000

  /** Where sh_sht20_workfn is. */
  datatype WorkPc = Idle | Checking | Sampling | TestingEnabled | TestingPeriod | Rearming

  /** Where the one caller of apply_cfg or remove is. The two cancel states are
      cancel_delayed_work_sync, during which the work cannot be queued again. */
  datatype CallerPc =
    | Outside
    | SettingEnabled(enabled: bool, periodMs: nat)
    | SettingPeriod(periodMs: nat)
    | Cancelling(removing: bool)
    | AwaitingWork(removing: bool)
    | Rescheduling
    | Gone

  datatype State = State(
    enabled: bool, periodMs: nat, pending: Option<nat>, work: WorkPc, caller: CallerPc, samples: nat)

  datatype Event =
    | TimerExpires
    | WorkMoves
    | CallApply(enabled: bool, periodMs: nat)
    | CallRemove
    | CallerMoves

  /** sh_sht20_register: enabled, one second, armed once. */
  const REGISTERED: State := State(true, DEFAULT_PERIOD_MS, Some(DEFAULT_PERIOD_MS), Idle, Outside, 0)

  function Schedule(s: State, delayMs: nat): State {
    if s.pending.Some? || s.caller.AwaitingWork? then s else s.(pending := Some(delayMs))
  }

  function WorkStep(s: State): State {
    match s.work
    case Idle => s
    case Checking => s.(work := if s.enabled then Sampling else Idle)
    case Sampling => s.(work := TestingEnabled, samples := s.samples + 1)
    case TestingEnabled => s.(work := if s.enabled then TestingPeriod else Idle)
    case TestingPeriod => s.(work := if s.periodMs != 0 then Rearming else Idle)
    case Rearming => Schedule(s, s.periodMs).(work := Idle)
  }

  function CallerStep(s: State): State {
    match s.caller
    case Outside => s
    case SettingEnabled(enabled, period) => s.(enabled := enabled, caller := SettingPeriod(period))
    case SettingPeriod(period) =>
      s.(periodMs := if period != 0 then period else DEFAULT_PERIOD_MS, caller := Cancelling(false))
    case Cancelling(removing) => s.(pending := None, caller := AwaitingWork(removing))
    case AwaitingWork(removing) =>
      if s.work != Idle then s else s.(caller := if removing then Gone else Rescheduling)
    case Rescheduling => (if s.enabled then Schedule(s, 0) else s).(caller := Outside)
    case Gone => s
  }

  function Step(s: State, e: Event): State {
    match e
    case TimerExpires =>
      if s.pending.Some? && s.work == Idle then s.(pending := None, work := Checking) else s
    case WorkMoves => WorkStep(s)
    case CallApply(enabled, period) =>
      if s.caller == Outside then s.(caller := SettingEnabled(enabled, period)) else s
    case CallRemove => if s.caller == Outside then s.(caller := Cancelling(true)) else s
    case CallerMoves => CallerStep(s)
  }

  function Run(s: State, events: seq<Event>): State
    decreases |events|
  {
    if events == [] then s else Run(Step(s, events[0]), events[1..])
  }

  // ---------------------------------------------------------------- what every interleaving keeps

  predicate Armed(s: State) {
    s.pending.Some? || s.work != Idle
  }

  predicate Inv(s: State) {
    && s.periodMs != 0
    && (s.caller == Outside ==> (Armed(s) <==> s.enabled))
    && (s.caller == Outside && s.pending.Some? ==> s.pending.value == 0 || s.pending.value == s.periodMs)
    && (s.caller.AwaitingWork? ==> s.pending == None)
    && (s.caller == Rescheduling || s.caller == Gone ==> !Armed(s))
  }

  lemma StepKeepsInv(s: State, e: Event)
    requires Inv(s)
    ensures Inv(Step(s, e))
  {
  }

  lemma {:induction false} RunKeepsInv(s: State, events: seq<Event>)
    requires Inv(s)
    ensures Inv(Run(s, events))
    decreases |events|
  {
    if events == [] {
    } else {
      StepKeepsInv(s, events[0]);
      RunKeepsInv(Step(s, events[0]), events[1..]);
    }
  }

  /** Whatever the interleaving: whenever no reconfiguration is in progress the sampler is pending
      or running exactly if it is enabled, and what is pending is due at once or after the current
      period, never an old one; the period is never zero; after a removal nothing is pending or
      running, for good. */
  lemma SamplerIsArmedExactlyWhenEnabled(events: seq<Event>)
    ensures var s := Run(REGISTERED, events);
            && s.periodMs != 0
            && (s.caller == Outside ==> (Armed(s) <==> s.enabled))
            && (s.caller == Outside && s.pending.Some? ==> s.pending.value == 0 || s.pending.value == s.periodMs)
            && (s.caller == Gone ==> !Armed(s))
  {
    RunKeepsInv(REGISTERED, events);
  }

  lemma {:induction false} RemovedStaysRemoved(s: State, events: seq<Event>)
    requires Inv(s) && s.caller == Gone
    ensures Run(s, events) == s
    decreases |events|
  {
    if events == [] {
    } else {
      RemovedStaysRemoved(Step(s, events[0]), events[1..]);
    }
  }

  // ---------------------------------------------------------------- progress

  /** Moves of the work itself until it is idle. */
  function WorkLeft(pc: WorkPc): nat {
    match pc
    case Idle => 0
    case Rearming => 1
    case TestingPeriod => 2
    case TestingEnabled => 3
    case Sampling => 4
    case Checking => 5
  }

  /** cancel_delayed_work_sync always comes back: every move of the work it waits for brings that
      work closer to idle, and then the caller's own next move ends the wait. */
  lemma CancelReturns(s: State)
    requires s.caller.AwaitingWork?
    ensures s.work != Idle ==>
              WorkLeft(Step(s, WorkMoves).work) < WorkLeft(s.work) && Step(s, WorkMoves).caller == s.caller
    ensures s.work == Idle ==> !Step(s, CallerMoves).caller.AwaitingWork?
  {
  }

  /** The sampler's own next move. */
  function OwnMove(s: State): Event {
    if s.work == Idle then TimerExpires else WorkMoves
  }

  function AfterOwnMoves(s: State, n: nat): State
    decreases n
  {
    if n == 0 then s else AfterOwnMoves(Step(s, OwnMove(s)), n - 1)
  }

  /** Moves until the next sample is taken, while enabled and left alone. */
  function UntilSample(s: State): nat {
    match s.work
    case Sampling => 1
    case Checking => 2
    case Idle => 3
    case Rearming => 4
    case TestingPeriod => 5
    case TestingEnabled => 6
  }

  /** An enabled sampler that is left alone takes its next sample within six of its own moves,
      whatever reconfigurations led up to this state; so it never dies out. */
  lemma {:induction false} NextSampleComes(s: State)
    requires Inv(s) && s.caller == Outside && s.enabled
    ensures 1 <= UntilSample(s) <= 6
    ensures AfterOwnMoves(s, UntilSample(s)).samples == s.samples + 1
    ensures AfterOwnMoves(s, UntilSample(s)).enabled && AfterOwnMoves(s, UntilSample(s)).caller == Outside
    decreases UntilSample(s)
  {
    var t := Step(s, OwnMove(s));
    StepKeepsInv(s, OwnMove(s));
    if s.work != Sampling {
      NextSampleComes(t);
    } else {
      assert AfterOwnMoves(t, 0) == t;
    }
  }

  // ---------------------------------------------------------------- what a rearm and a reconfiguration set

  /** A sample that finds the sampler enabled and nothing pending is followed by a rearm after the
      period in force, never at once. */
  lemma RearmWaitsForThePeriod(s: State)
    requires Inv(s) && s.work == TestingEnabled && s.enabled && s.pending == None && !s.caller.AwaitingWork?
    ensures var t := Run(s, [WorkMoves, WorkMoves, WorkMoves]);
            t.work == Idle && t.pending == Some(s.periodMs) && t.periodMs == s.periodMs
  {
    var s1, s2 := WorkStep(s), WorkStep(WorkStep(s));
    assert s1.work == TestingPeriod && s2.work == Rearming;
    assert [WorkMoves, WorkMoves, WorkMoves][1..] == [WorkMoves, WorkMoves];
    assert [WorkMoves, WorkMoves][1..] == [WorkMoves] && [WorkMoves][1..] == [];
    assert Run(s2, [WorkMoves]) == Run(WorkStep(s2), []);
  }

  /** A reconfiguration to these settings is under way; zero asks for the default period. */
  predicate Reconfiguring(s: State, enabled: bool, periodMs: nat) {
    var period := if periodMs == 0 then 1000 else periodMs;
    match s.caller
    case SettingEnabled(e, p) => e == enabled && p == periodMs
    case SettingPeriod(p) => s.enabled == enabled && p == periodMs
    case Cancelling(removing) => !removing && s.enabled == enabled && s.periodMs == period
    case AwaitingWork(removing) => !removing && s.enabled == enabled && s.periodMs == period
    case Rescheduling => s.enabled == enabled && s.periodMs == period
    case _ => false
  }

  /** It is over: the settings are in force and the next sample is due at once, or never. */
  predicate Reconfigured(s: State, enabled: bool, periodMs: nat) {
    && s.caller == Outside && s.enabled == enabled && s.periodMs == (if periodMs == 0 then 1000 else periodMs)
    && s.work == Idle && s.pending == if enabled then Some(0) else None
  }

  /** Under every interleaving with timer and work, a reconfiguration stays under way until the step
      that leaves exactly what it asked for. */
  lemma ReconfigurationTakesEffect(s: State, e: Event, enabled: bool, periodMs: nat)
    requires Inv(s)
    ensures s.caller == Outside ==> Reconfiguring(Step(s, CallApply(enabled, periodMs)), enabled, periodMs)
    ensures Reconfiguring(s, enabled, periodMs) ==>
              Reconfiguring(Step(s, e), enabled, periodMs) || Reconfigured(Step(s, e), enabled, periodMs)
  {
  }
}
