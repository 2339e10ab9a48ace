/** The one-shot PWM buzzer (sensor_hub_buzzer.c): configuration, trigger and stop actions, and the
    delayed work that silences it. Operations are serialised; every PWM call may fail, leaving the
    hardware as it was. */
module Buzzer {
  import opened Common
  import opened PwmTiming

  /** cfg.enabled and the three s32 parameters the buzzer reads. */
  datatype Cfg = Cfg(enabled: bool, freq: S32, duty: S32, duration: S32)

  datatype Pwm = Pwm(enabled: bool, periodNs: nat, dutyNs: nat)

  datatype Flag = FlagEnabled | FlagValid | FlagOnline | FlagActive

  datatype Value = Value(flags: set<Flag>, values: seq<int>)

  datatype Code = CodeEnable | CodeDisable | CodeOutputOn | CodeOutputOff | CodeAlert

  datatype Emitted = Emitted(code: Code, value: Value)

  /** deadline: when stop_work is due, if it is pending. */
  datatype State = State(
    cfg: Cfg, freqHz: nat, duty: nat, durationMs: nat, active: bool,
    deadline: Option<nat>, pwm: Pwm, value: Value, emitted: seq<Emitted>)

  datatype Action = ActStop | ActPulse | ActAlert | ActOther

  datatype Request = Request(action: Action, durationMs: U32, nvalues: nat, freq: S32, duty: S32)

  datatype Op =
    | Configure(cfg: Cfg, pwmOk: bool)
    | Dispatch(req: Request, now: nat, pwmOk: bool)
    | Expire(pwmOk: bool)                 // stop_work runs, if it is pending
    | Remove(pwmOk: bool)

  datatype Reply = Done | NotEnabled | BadAction | PwmFailed

  /** The casts (u32) and (s32). */
  function ToU32(n: S32): U32 {
    if n < 0 then n + TWO_TO_THE_32 else n
  }

  function ToS32(n: nat): S32 {
    var m := n % TWO_TO_THE_32;
    if m >= 0x8000_0000 then m - TWO_TO_THE_32 else m
  }

  function BuildValue(s: State): Value {
    Value({FlagValid, FlagOnline}
          + (if s.cfg.enabled then {FlagEnabled} else {}) + (if s.active then {FlagActive} else {}),
          [if s.active then 1 else 0, ToS32(s.freqHz), ToS32(s.durationMs), ToS32(s.duty)])
  }

  function Commit(s: State, code: Option<Code>): State {
    var v := BuildValue(s);
    s.(value := v, emitted := if code.Some? then s.emitted + [Emitted(code.value, v)] else s.emitted)
  }

  /** __sh_buzzer_stop after a successful PWM call. */
  function Silenced(s: State, code: Option<Code>): State {
    Commit(s.(active := false, pwm := s.pwm.(enabled := false)), code)
  }

  /** The tone a trigger asks for: the request where it says something, else the configuration. */
  function ToneFreq(s: State, req: Request): (hz: nat)
    ensures hz != 0
  {
    if req.nvalues > 0 && req.freq > 0 then req.freq else SanitizeFreq(ToU32(s.cfg.freq))
  }

  function ToneDuty(s: State, req: Request): nat {
    SanitizeDuty(if req.nvalues > 1 && req.duty > 0 then req.duty else SanitizeDuty(ToU32(s.cfg.duty)))
  }

  function ToneDuration(s: State, req: Request): (ms: nat)
    ensures ms != 0
  {
    if req.durationMs != 0 then req.durationMs else SanitizeDuration(ToU32(s.cfg.duration))
  }

  function Configured(s: State, cfg: Cfg): State {
    s.(cfg := cfg, freqHz := SanitizeFreq(ToU32(cfg.freq)), duty := SanitizeDuty(ToU32(cfg.duty)),
       durationMs := SanitizeDuration(ToU32(cfg.duration)), deadline := None)
  }

  function Sounding(s: State, req: Request, now: nat): State {
    var freq, duty, ms := ToneFreq(s, req), ToneDuty(s, req), ToneDuration(s, req);
    Commit(s.(freqHz := freq, duty := duty, durationMs := ms, active := true,
              pwm := Pwm(true, PeriodNs(freq), DutyNs(PeriodNs(freq), duty))),
           Some(if req.action.ActAlert? then CodeAlert else CodeOutputOn)).(deadline := Some(now + ms))
  }

  function Step(s: State, op: Op): (State, Reply) {
    match op
    case Configure(cfg, ok) =>
      var s1 := Configured(s, cfg);
      if s.active && !ok then (s1, PwmFailed)
      else (Commit(if s.active then Silenced(s1, None) else s1,
                   Some(if cfg.enabled then CodeEnable else CodeDisable)), Done)
    case Dispatch(req, now, ok) =>
      if !s.cfg.enabled then (s, NotEnabled)
      else if req.action.ActOther? then (s, BadAction)
      else if !ok then (s.(deadline := None), PwmFailed)
      else if req.action.ActStop? then (Silenced(s.(deadline := None), Some(CodeOutputOff)), Done)
      else (Sounding(s, req, now), Done)
    case Expire(ok) =>
      if s.deadline.None? then (s, Done)
      else if !ok then (s.(deadline := None), PwmFailed)
      else (Silenced(s.(deadline := None), Some(CodeOutputOff)), Done)
    case Remove(ok) =>
      if !ok then (s.(deadline := None), PwmFailed) else (Silenced(s.(deadline := None), None), Done)
  }

  /** Registration with an idle PWM; the defaults are the device-tree properties, sanitised. */
  function Registered(freq: nat, duty: nat, duration: nat): State {
    var f, d, ms := SanitizeFreq(freq), SanitizeDuty(duty), SanitizeDuration(duration);
    Commit(State(Cfg(true, ToS32(f), ToS32(d), ToS32(ms)), f, d, ms, false, None, Pwm(false, 0, 0), Value({}, []), []),
           Some(CodeEnable))
  }

  function Run(s: State, ops: seq<Op>): State
    decreases |ops|
  {
    if ops == [] then s else Step(Run(s, ops[..|ops| - 1]), ops[|ops| - 1]).0
  }

  // ---------------------------------------------------------------- what one operation does

  /** A configured parameter, read as unsigned, or its default when that is zero. */
  function Setting(param: S32, fallback: nat): nat {
    if param > 0 then param else if param == 0 then fallback else 0x1_0000_0000 + param
  }

  /** The same for a duty cycle, which is also replaced when it is over 1000. */
  function DutySetting(param: S32): nat {
    if 1 <= param <= 1000 then param else 500
  }

  predicate Published(v: Value, enabled: bool, active: bool, freq: nat, ms: nat, duty: nat) {
    && (FlagValid in v.flags && FlagOnline in v.flags)
    && (FlagEnabled in v.flags <==> enabled) && (FlagActive in v.flags <==> active)
    && v.values == [if active then 1 else 0, ToS32(freq), ToS32(ms), ToS32(duty)]
  }

  lemma SanitizedSettings(param: S32)
    ensures SanitizeFreq(ToU32(param)) == Setting(param, 2400)
    ensures SanitizeDuration(ToU32(param)) == Setting(param, 180)
    ensures SanitizeDuty(ToU32(param)) == DutySetting(param)
  {
  }

  /** The low 32 bits, as a signed number. */
  lemma ToS32Wraps(n: nat)
    ensures exists k: nat :: n == ToS32(n) + k * 0x1_0000_0000
  {
    var k := n / TWO_TO_THE_32;
    if n % TWO_TO_THE_32 < 0x8000_0000 {
      assert n == ToS32(n) + k * 0x1_0000_0000;
    } else {
      assert n == ToS32(n) + (k + 1) * 0x1_0000_0000;
    }
  }

  /** An accepted pulse or alert, by the fields of the request and the configuration: each of the
      three settings is the request's where it gives one, else the configured one, else the default.
      The stop is due one such duration from now, the PWM runs with that tone's timing, and the
      settings are published with the event of that action. */
  lemma ToneByTheFields(s: State, req: Request, now: nat)
    requires s.cfg.enabled && (req.action.ActPulse? || req.action.ActAlert?)
    ensures var (t, reply) := Step(s, Dispatch(req, now, true));
            var freq := if req.nvalues >= 1 && req.freq > 0 then req.freq else Setting(s.cfg.freq, 2400);
            var duty := if req.nvalues >= 2 && req.duty > 0 then DutySetting(req.duty) else DutySetting(s.cfg.duty);
            var ms := if req.durationMs != 0 then req.durationMs else Setting(s.cfg.duration, 180);
            && reply == Done && t.active && t.deadline == Some(now + ms) && t.cfg == s.cfg
            && t.freqHz == freq && t.duty == duty && t.durationMs == ms
            && freq > 0 && t.pwm.enabled
            && t.pwm.periodNs == (1_000_000_000 + freq / 2) / freq
            && t.pwm.dutyNs == (var share := (t.pwm.periodNs * duty + 500) / 1000;
                                if share == 0 then t.pwm.periodNs / 2 else share)
            && Published(t.value, true, true, freq, ms, duty)
            && t.emitted == s.emitted + [Emitted(if req.action.ActAlert? then CodeAlert else CodeOutputOn, t.value)]
  {
    SanitizedSettings(s.cfg.freq);
    SanitizedSettings(s.cfg.duty);
    SanitizedSettings(s.cfg.duration);
  }

  /** A stop action, and the stop work when it is due: silent at once, and an OUTPUT_OFF event. */
  lemma StopSilences(s: State, op: Op)
    requires op.pwmOk
    requires (op.Dispatch? && s.cfg.enabled && op.req.action.ActStop?) || (op.Expire? && s.deadline.Some?)
    ensures var (t, reply) := Step(s, op);
            && reply == Done && !t.active && t.deadline == None && t.pwm == s.pwm.(enabled := false)
            && t.cfg == s.cfg && t.freqHz == s.freqHz && t.duty == s.duty && t.durationMs == s.durationMs
            && Published(t.value, s.cfg.enabled, false, s.freqHz, s.durationMs, s.duty)
            && t.emitted == s.emitted + [Emitted(CodeOutputOff, t.value)]
  {
  }

  /** A reconfiguration takes the three settings from its parameters, silences the buzzer, cancels
      the pending stop and publishes, with an ENABLE or a DISABLE event. */
  lemma ConfigurationByTheFields(s: State, cfg: Cfg)
    ensures var (t, reply) := Step(s, Configure(cfg, true));
            && reply == Done && !t.active && t.deadline == None && t.cfg == cfg
            && t.pwm == (if s.active then s.pwm.(enabled := false) else s.pwm)
            && t.freqHz == Setting(cfg.freq, 2400) && t.duty == DutySetting(cfg.duty)
            && t.durationMs == Setting(cfg.duration, 180)
            && Published(t.value, cfg.enabled, false, t.freqHz, t.durationMs, t.duty)
            && |t.emitted| == |s.emitted| + 1 && s.emitted <= t.emitted
            && t.emitted[|s.emitted|] == Emitted(if cfg.enabled then CodeEnable else CodeDisable, t.value)
  {
    SanitizedSettings(cfg.freq);
    SanitizedSettings(cfg.duty);
    SanitizedSettings(cfg.duration);
  }

  /** Registration: enabled and silent, with the sanitised defaults in use, in the configuration and
      published, and one ENABLE event. */
  lemma RegisteredByTheFields(freq: U32, duty: U32, duration: U32)
    ensures var s := Registered(freq, duty, duration);
            && s.cfg.enabled && !s.active && !s.pwm.enabled && s.deadline == None
            && s.freqHz == (if freq == 0 then 2400 else freq)
            && s.duty == (if 1 <= duty <= 1000 then duty else 500)
            && s.durationMs == (if duration == 0 then 180 else duration)
            && s.cfg == Cfg(true, ToS32(s.freqHz), ToS32(s.duty), ToS32(s.durationMs))
            && Published(s.value, true, false, s.freqHz, s.durationMs, s.duty)
            && s.emitted == [Emitted(CodeEnable, s.value)]
  {
  }

  /** A refused or failing action, and a removal. */
  lemma RefusalsByTheFields(s: State, req: Request, now: nat, ok: bool)
    ensures !s.cfg.enabled ==> Step(s, Dispatch(req, now, ok)) == (s, NotEnabled)
    ensures s.cfg.enabled && req.action.ActOther? ==> Step(s, Dispatch(req, now, ok)) == (s, BadAction)
    ensures s.cfg.enabled && !req.action.ActOther? ==>
              Step(s, Dispatch(req, now, false)) == (s.(deadline := None), PwmFailed)
    ensures s.deadline.None? ==> Step(s, Expire(ok)) == (s, Done)
    ensures s.deadline.Some? ==> Step(s, Expire(false)) == (s.(deadline := None), PwmFailed)
    ensures var (t, reply) := Step(s, Remove(ok));
            && t.deadline == None && (reply == Done <==> ok) && t.emitted == s.emitted
            && (t.active <==> s.active && !ok) && (t.pwm.enabled <==> s.pwm.enabled && !ok)
  {
  }

  // ---------------------------------------------------------------- invariants

  /** The hardware, the driver's flag, the published ACTIVE flag and values[0] say the same. */
  predicate Agree(s: State) {
    && s.pwm.enabled == s.active
    && (FlagActive in s.value.flags <==> s.active)
    && |s.value.values| == 4 && s.value.values[0] == if s.active then 1 else 0
  }

  /** Sounding exactly while a stop is pending, and never while disabled. */
  predicate OneShot(s: State) {
    (s.active <==> s.deadline.Some?) && (!s.cfg.enabled ==> !s.active)
  }

  /** The operation reaches a PWM call and that call fails. */
  predicate PwmCallFails(s: State, op: Op) {
    match op
    case Configure(_, ok) => s.active && !ok
    case Dispatch(req, _, ok) => s.cfg.enabled && !req.action.ActOther? && !ok
    case Expire(ok) => s.deadline.Some? && !ok
    case Remove(ok) => !ok
  }

  lemma StepKeepsAgree(s: State, op: Op)
    requires Agree(s)
    ensures Agree(Step(s, op).0)
  {
  }

  /** Hardware and every published view of it agree after any run, PWM failures included. */
  lemma {:induction false} ViewsAlwaysAgree(freq: nat, duty: nat, duration: nat, ops: seq<Op>)
    ensures Agree(Run(Registered(freq, duty, duration), ops))
    decreases |ops|
  {
    if ops == [] {
    } else {
      var init := ops[..|ops| - 1];
      ViewsAlwaysAgree(freq, duty, duration, init);
      StepKeepsAgree(Run(Registered(freq, duty, duration), init), ops[|ops| - 1]);
    }
  }

  /** One operation keeps the one-shot property exactly unless it fails to reach the PWM of a
      sounding buzzer: the pending stop has been cancelled by then. */
  lemma OneShotKeptIff(s: State, op: Op)
    requires OneShot(s)
    ensures OneShot(Step(s, op).0) <==> !(s.active && PwmCallFails(s, op))
  {
  }

  /** So with a PWM that works, active <=> a stop is pending after every run. */
  lemma {:induction false} WorkingPwmIsOneShot(freq: nat, duty: nat, duration: nat, ops: seq<Op>)
    requires forall k :: 0 <= k < |ops| ==> ops[k].pwmOk
    ensures OneShot(Run(Registered(freq, duty, duration), ops))
    decreases |ops|
  {
    if ops == [] {
    } else {
      var init := ops[..|ops| - 1];
      WorkingPwmIsOneShot(freq, duty, duration, init);
      OneShotKeptIff(Run(Registered(freq, duty, duration), init), ops[|ops| - 1]);
    }
  }

  /** The operation starts a tone. */
  predicate Triggers(s: State, op: Op) {
    op.Dispatch? && s.cfg.enabled && (op.req.action.ActAlert? || op.req.action.ActPulse?) && op.pwmOk
  }

  /** A pending stop is due one duration after the latest tone started, and it has been pending,
      with the buzzer sounding, ever since: a retrigger replaces the deadline, nothing else sets it. */
  ghost predicate DueSince(s0: State, ops: seq<Op>, k: nat)
    requires k < |ops|
  {
    Triggers(At(s0, ops, k), ops[k]) && DueThrough(s0, ops, k, |ops|, StopTime(At(s0, ops, k), ops[k]))
  }

  ghost predicate DueThrough(s0: State, ops: seq<Op>, k: nat, n: nat, time: nat)
    requires n <= |ops|
  {
    forall j :: k < j <= n ==> DueAt(At(s0, ops, j), time)
  }

  /** The state after the first j operations. */
  function At(s0: State, ops: seq<Op>, j: nat): State
    requires j <= |ops|
  {
    Run(s0, ops[..j])
  }

  function StopTime(s: State, op: Op): nat {
    if op.Dispatch? then op.now + ToneDuration(s, op.req) else 0
  }

  predicate DueAt(s: State, time: nat) {
    s.active && s.deadline == Some(time)
  }

  lemma AtPrefix(s0: State, ops: seq<Op>, m: nat, j: nat)
    requires j <= m <= |ops|
    ensures At(s0, ops[..m], j) == At(s0, ops, j)
  {
    assert ops[..m][..j] == ops[..j];
  }

  lemma DueThroughPrefix(s0: State, ops: seq<Op>, k: nat, n: nat, time: nat)
    requires n <= |ops|
    ensures DueThrough(s0, ops[..n], k, n, time) == DueThrough(s0, ops, k, n, time)
  {
    forall j | 0 <= j <= n
      ensures At(s0, ops[..n], j) == At(s0, ops, j)
    {
      AtPrefix(s0, ops, n, j);
    }
  }

  lemma DueThroughNext(s0: State, ops: seq<Op>, k: nat, n: nat, time: nat)
    requires k <= n < |ops|
    ensures DueThrough(s0, ops, k, n + 1, time) <==>
            DueThrough(s0, ops, k, n, time) && DueAt(At(s0, ops, n + 1), time)
  {
  }

  lemma DueSinceStarts(s0: State, ops: seq<Op>, m: nat)
    requires m + 1 == |ops|
    ensures DueSince(s0, ops, m) <==>
            Triggers(Run(s0, ops[..m]), ops[m]) && DueAt(Run(s0, ops), StopTime(Run(s0, ops[..m]), ops[m]))
  {
    assert ops[..m + 1] == ops;
    DueThroughNext(s0, ops, m, m, StopTime(Run(s0, ops[..m]), ops[m]));
  }

  /** One more operation: the deadline has to be still the same, and the buzzer still sounding. */
  lemma DueSinceNext(s0: State, ops: seq<Op>, m: nat, k: nat)
    requires k < m && m + 1 == |ops|
    ensures DueSince(s0, ops, k) <==>
            DueSince(s0, ops[..m], k) && DueAt(Run(s0, ops), StopTime(At(s0, ops, k), ops[k]))
    ensures DueSince(s0, ops[..m], k) ==> DueAt(Run(s0, ops[..m]), StopTime(At(s0, ops, k), ops[k]))
  {
    var time := StopTime(At(s0, ops, k), ops[k]);
    assert ops[..m + 1] == ops && ops[..m][..m] == ops[..m];
    AtPrefix(s0, ops, m, k);
    DueThroughPrefix(s0, ops, k, m, time);
    DueThroughNext(s0, ops, k, m, time);
    if DueSince(s0, ops[..m], k) {
      assert DueAt(At(s0, ops[..m], m), time);
    }
  }

  lemma StepSetsDeadline(s: State, op: Op)
    requires (s.deadline.Some? ==> s.active)
    ensures var t := Step(s, op).0;
            && (t.deadline.Some? ==> t.active)
            && (Triggers(s, op) ==> t.active && t.deadline == Some(StopTime(s, op)))
            && (!Triggers(s, op) && t.deadline.Some? ==> t.deadline == s.deadline)
  {
  }

  lemma {:induction false} PendingMeansActive(s0: State, ops: seq<Op>)
    requires s0.deadline == None
    ensures Run(s0, ops).deadline.Some? ==> Run(s0, ops).active
    decreases |ops|
  {
    if ops == [] {
    } else {
      PendingMeansActive(s0, ops[..|ops| - 1]);
      StepSetsDeadline(Run(s0, ops[..|ops| - 1]), ops[|ops| - 1]);
    }
  }

  lemma {:induction false} DeadlineIsFromLatestTrigger(s0: State, ops: seq<Op>)
    requires s0.deadline == None
    ensures Run(s0, ops).deadline.Some? ==> exists k :: 0 <= k < |ops| && DueSince(s0, ops, k)
    decreases |ops|
  {
    if ops == [] {
    } else if Run(s0, ops).deadline.Some? {
      var m := |ops| - 1;
      PendingMeansActive(s0, ops[..m]);
      StepSetsDeadline(Run(s0, ops[..m]), ops[m]);
      if Triggers(Run(s0, ops[..m]), ops[m]) {
        DueSinceStarts(s0, ops, m);
      } else {
        DeadlineIsFromLatestTrigger(s0, ops[..m]);
        var k :| 0 <= k < m && DueSince(s0, ops[..m], k);
        DueSinceNext(s0, ops, m, k);
      }
    }
  }

  // ---------------------------------------------------------------- failures

  /** The three stored numbers are 32 bits wide, as the driver's fields are. */
  predicate Fits(s: State) {
    s.freqHz < TWO_TO_THE_32 && s.duty < TWO_TO_THE_32 && s.durationMs < TWO_TO_THE_32
  }

  /** A configuration that differs, once sanitised, from what the device shows. */
  predicate Changes(s: State, cfg: Cfg) {
    || cfg.enabled != s.cfg.enabled
    || SanitizeFreq(ToU32(cfg.freq)) != s.freqHz
    || SanitizeDuty(ToU32(cfg.duty)) != s.duty
    || SanitizeDuration(ToU32(cfg.duration)) != s.durationMs
  }

  lemma ToS32IsInjective(a: nat, b: nat)
    requires a < TWO_TO_THE_32 && b < TWO_TO_THE_32 && ToS32(a) == ToS32(b)
    ensures a == b
  {
  }

  lemma BuildValueIsInjective(s: State, t: State)
    requires Fits(s) && Fits(t) && s.active == t.active
    ensures BuildValue(s) == BuildValue(t) <==>
            s.cfg.enabled == t.cfg.enabled && s.freqHz == t.freqHz && s.duty == t.duty && s.durationMs == t.durationMs
  {
    var v, w := BuildValue(s), BuildValue(t);
    if v == w {
      assert FlagEnabled in v.flags <==> s.cfg.enabled;
      assert FlagEnabled in w.flags <==> t.cfg.enabled;
      assert v.values[1] == w.values[1] && v.values[2] == w.values[2] && v.values[3] == w.values[3];
      ToS32IsInjective(s.freqHz, t.freqHz);
      ToS32IsInjective(s.durationMs, t.durationMs);
      ToS32IsInjective(s.duty, t.duty);
    }
  }

  /** The published value is up to date after an operation exactly unless that is a reconfiguration of
      a sounding buzzer whose PWM call fails and whose settings differ from the ones in use. */
  lemma ValueUpToDateIff(s: State, op: Op)
    requires s.value == BuildValue(s) && Fits(s)
    ensures var t := Step(s, op).0;
            t.value == BuildValue(t) <==> !(op.Configure? && s.active && !op.pwmOk && Changes(s, op.cfg))
  {
    if op.Configure? && s.active && !op.pwmOk {
      BuildValueIsInjective(s, Configured(s, op.cfg));
    }
  }

  lemma StepKeepsFits(s: State, op: Op)
    requires Fits(s)
    ensures Fits(Step(s, op).0)
  {
    if op.Dispatch? {
      assert ToneFreq(s, op.req) < TWO_TO_THE_32 && ToneDuration(s, op.req) < TWO_TO_THE_32;
    }
  }

  lemma {:induction false} StoredNumbersFit(freq: U32, duty: U32, duration: U32, ops: seq<Op>)
    ensures Fits(Run(Registered(freq, duty, duration), ops))
    decreases |ops|
  {
    if ops == [] {
    } else {
      StoredNumbersFit(freq, duty, duration, ops[..|ops| - 1]);
      StepKeepsFits(Run(Registered(freq, duty, duration), ops[..|ops| - 1]), ops[|ops| - 1]);
    }
  }

  // ---------------------------------------------------------------- a tone that will not stop

  /** Sounding, disabled, and with no stop to come. */
  predicate Stuck(s: State) {
    s.active && s.pwm.enabled && !s.cfg.enabled && s.deadline == None
  }

  /** What a stuck tone outlasts: actions and stop work of any kind, and reconfigurations and removals
      that fail at the PWM, unless they enable the buzzer. */
  predicate LeavesStuck(op: Op) {
    match op
    case Configure(cfg, ok) => !cfg.enabled && !ok
    case Dispatch(_, _, _) => true
    case Expire(_) => true
    case Remove(ok) => !ok
  }

  lemma StuckStaysIff(s: State, op: Op)
    requires Stuck(s)
    ensures Stuck(Step(s, op).0) <==> LeavesStuck(op)
    ensures LeavesStuck(op) ==> Step(s, op).0.pwm == s.pwm
    ensures op.Dispatch? ==> Step(s, op) == (s, NotEnabled)
  {
  }

  ghost predicate StuckThrough(s: State, ops: seq<Op>, n: nat)
    requires n <= |ops|
  {
    forall j :: 0 <= j <= n ==> Stuck(At(s, ops, j))
  }

  predicate AllLeaveStuck(ops: seq<Op>) {
    forall k :: 0 <= k < |ops| ==> LeavesStuck(ops[k])
  }

  lemma StuckThroughPrefix(s: State, ops: seq<Op>, n: nat)
    requires n <= |ops|
    ensures StuckThrough(s, ops[..n], n) == StuckThrough(s, ops, n)
  {
    forall j | 0 <= j <= n
      ensures At(s, ops[..n], j) == At(s, ops, j)
    {
      AtPrefix(s, ops, n, j);
    }
  }

  /** One more operation of a run. */
  lemma StuckThroughNext(s: State, ops: seq<Op>, m: nat)
    requires m + 1 == |ops|
    ensures StuckThrough(s, ops, m + 1) <==> StuckThrough(s, ops[..m], m) && LeavesStuck(ops[m])
    ensures StuckThrough(s, ops, m + 1) ==> Run(s, ops).pwm == Run(s, ops[..m]).pwm
  {
    StuckThroughPrefix(s, ops, m);
    assert ops[..m + 1] == ops && At(s, ops, m + 1) == Step(At(s, ops, m), ops[m]).0;
    if StuckThrough(s, ops, m) {
      StuckStaysIff(At(s, ops, m), ops[m]);
    }
  }

  lemma AllLeaveStuckNext(ops: seq<Op>, m: nat)
    requires m + 1 == |ops|
    ensures AllLeaveStuck(ops) <==> AllLeaveStuck(ops[..m]) && LeavesStuck(ops[m])
  {
    assert forall k :: 0 <= k < m ==> ops[..m][k] == ops[k];
  }

  /** Over a run of any length the stuck state lasts throughout if and only if all operations are of
      that kind; then the same tone goes on. */
  lemma {:induction false} StuckToneGoesOnIff(s: State, ops: seq<Op>)
    requires Stuck(s)
    ensures StuckThrough(s, ops, |ops|) <==> AllLeaveStuck(ops)
    ensures AllLeaveStuck(ops) ==> Run(s, ops).pwm == s.pwm
    decreases |ops|
  {
    if ops == [] {
      assert At(s, ops, 0) == s;
    } else {
      var m := |ops| - 1;
      StuckToneGoesOnIff(s, ops[..m]);
      StuckThroughNext(s, ops, m);
      AllLeaveStuckNext(ops, m);
    }
  }

  /** Such a state is reached: a tone is started and the disabling reconfiguration fails at the PWM. */
  lemma FailedDisableSticks(freq: nat, duty: nat, duration: nat, req: Request, now: nat, cfg: Cfg)
    requires (req.action.ActPulse? || req.action.ActAlert?) && !cfg.enabled
    ensures Stuck(Run(Registered(freq, duty, duration), [Dispatch(req, now, true), Configure(cfg, false)]))
  {
    RunTwo(Registered(freq, duty, duration), Dispatch(req, now, true), Configure(cfg, false));
  }

  lemma RunTwo(s: State, a: Op, b: Op)
    ensures Run(s, [a, b]) == Step(Step(s, a).0, b).0
  {
    assert [a, b][..1] == [a] && [a][..0] == [];
    assert Run(s, []) == s && Run(s, [a]) == Step(s, a).0;
  }

  /** A stuck tone can be ended without a reconfiguration or removal that reaches the PWM: enabling
      the buzzer takes effect although its PWM call fails, and then actions are accepted again. A stop
      silences it, a new tone gets a stop of its own. */
  lemma FailedEnableLetsActionsThrough(s: State, cfg: Cfg, req: Request, now: nat)
    requires Stuck(s) && cfg.enabled && !req.action.ActOther?
    ensures var t := Run(s, [Configure(cfg, false), Dispatch(req, now, true)]);
            OneShot(t) && (req.action.ActStop? <==> !t.active) && (req.action.ActStop? <==> !t.pwm.enabled)
  {
    RunTwo(s, Configure(cfg, false), Dispatch(req, now, true));
  }

  /** From any state an operation that does reach a working PWM restores the one-shot property. */
  lemma WorkingPwmRecovers(s: State, op: Op)
    requires op.pwmOk
    requires op.Configure? || op.Remove? || (op.Dispatch? && s.cfg.enabled && !op.req.action.ActOther?)
    ensures OneShot(Step(s, op).0)
  {
  }

  // ---------------------------------------------------------------- the driver

  class BuzzerDevice {
    var cfg: Cfg
    var freqHz: nat
    var duty: nat
    var durationMs: nat
    var active: bool
    var deadline: Option<nat>
    var pwm: Pwm
    var value: Value
    var emitted: seq<Emitted>

    ghost function View(): State
      reads this
    {
      State(cfg, freqHz, duty, durationMs, active, deadline, pwm, value, emitted)
    }

    constructor (freq: nat, dutyPermille: nat, duration: nat)
      ensures View() == Registered(freq, dutyPermille, duration)
    {
      freqHz, duty, durationMs := SanitizeFreq(freq), SanitizeDuty(dutyPermille), SanitizeDuration(duration);
      cfg := Cfg(true, ToS32(SanitizeFreq(freq)), ToS32(SanitizeDuty(dutyPermille)), ToS32(SanitizeDuration(duration)));
      active, deadline, pwm := false, None, Pwm(false, 0, 0);
      value, emitted := Value({}, []), [];
      new;
      CommitState(Some(CodeEnable));
    }

    /** sh_buzzer_apply_pwm; `pwmOk` is how pwm_apply_state turns out. */
    method ApplyPwm(enable: bool, freq: nat, dutyPermille: nat, pwmOk: bool) returns (ok: bool)
      modifies this`pwm
      ensures ok <==> pwmOk && (enable ==> freq != 0)
      ensures pwm == if !ok then old(pwm)
                     else if enable then Pwm(true, PeriodNs(freq), DutyNs(PeriodNs(freq), SanitizeDuty(dutyPermille)))
                     else old(pwm).(enabled := false)
    {
      if enable && freq == 0 {
        return false;
      }
      if !pwmOk {
        return false;
      }
      if !enable {
        pwm := pwm.(enabled := false);
        return true;
      }
      var period := DivRoundClosest(1_000_000_000, freq);
      var share := DivRoundClosest(period * SanitizeDuty(dutyPermille), 1000);
      if share == 0 {
        share := period / 2;
      }
      pwm := Pwm(true, period, share);
      return true;
    }

    /** sh_buzzer_commit_state; None is SH_CODE_NONE. */
    method CommitState(code: Option<Code>)
      modifies this`value, this`emitted
      ensures View() == Commit(old(View()), code)
    {
      var flags := {FlagValid, FlagOnline};
      if cfg.enabled {
        flags := flags + {FlagEnabled};
      }
      if active {
        flags := flags + {FlagActive};
      }
      assert flags == BuildValue(View()).flags;
      value := Value(flags, [if active then 1 else 0, ToS32(freqHz), ToS32(durationMs), ToS32(duty)]);
      if code.Some? {
        emitted := emitted + [Emitted(code.value, value)];
      }
    }

    /** __sh_buzzer_stop. */
    method StopNow(code: Option<Code>, ok: bool)
      modifies this`pwm, this`active, this`value, this`emitted
      ensures View() == if ok then Silenced(old(View()), code) else old(View())
    {
      var silenced := ApplyPwm(false, 0, 0, ok);
      if !silenced {
        return;
      }
      active := false;
      CommitState(code);
    }

    /** sh_buzzer_apply_cfg. */
    method ApplyCfg(newCfg: Cfg, ok: bool) returns (reply: Reply)
      modifies this
      ensures (View(), reply) == Step(old(View()), Configure(newCfg, ok))
    {
      cfg := newCfg;
      freqHz := SanitizeFreq(ToU32(cfg.freq));
      duty := SanitizeDuty(ToU32(cfg.duty));
      durationMs := SanitizeDuration(ToU32(cfg.duration));
      deadline := None;
      if active {
        StopNow(None, ok);
        if !ok {
          return PwmFailed;
        }
      }
      CommitState(Some(if newCfg.enabled then CodeEnable else CodeDisable));
      return Done;
    }

    /** The parameters of a pulse or an alert: configured, then overridden, then sanitised. */
    method ChooseTone(req: Request) returns (freq: nat, dutyPermille: nat, ms: nat)
      ensures freq == ToneFreq(View(), req) && dutyPermille == ToneDuty(View(), req) && ms == ToneDuration(View(), req)
    {
      freq := SanitizeFreq(ToU32(cfg.freq));
      dutyPermille := SanitizeDuty(ToU32(cfg.duty));
      ms := SanitizeDuration(ToU32(cfg.duration));
      if req.nvalues > 0 && req.freq > 0 {
        freq := req.freq;
      }
      if req.nvalues > 1 && req.duty > 0 {
        dutyPermille := req.duty;
      }
      if req.durationMs != 0 {
        ms := req.durationMs;
      }
      freq, dutyPermille, ms := SanitizeFreq(freq), SanitizeDuty(dutyPermille), SanitizeDuration(ms);
    }

    /** The pulse and alert cases of sh_buzzer_dispatch. */
    method Sound(req: Request, now: nat, ok: bool) returns (reply: Reply)
      modifies this
      ensures (View(), reply) == if ok then (Sounding(old(View()), req, now), Done)
                                 else (old(View()).(deadline := None), PwmFailed)
    {
      var freq, dutyPermille, ms := ChooseTone(req);
      deadline := None;
      var sounds := ApplyPwm(true, freq, dutyPermille, ok);
      if !sounds {
        return PwmFailed;
      }
      freqHz, duty, durationMs, active := freq, dutyPermille, ms, true;
      CommitState(Some(if req.action.ActAlert? then CodeAlert else CodeOutputOn));
      if ms != 0 {
        deadline := Some(now + ms);
      }
      return Done;
    }

    /** sh_buzzer_dispatch. */
    method Act(req: Request, now: nat, ok: bool) returns (reply: Reply)
      modifies this
      ensures (View(), reply) == Step(old(View()), Dispatch(req, now, ok))
    {
      if !cfg.enabled {
        return NotEnabled;
      }
      if req.action.ActOther? {
        return BadAction;
      }
      if req.action.ActStop? {
        deadline := None;
        StopNow(Some(CodeOutputOff), ok);
        return if ok then Done else PwmFailed;
      }
      reply := Sound(req, now, ok);
    }

    /** sh_buzzer_stop_workfn. */
    method StopWork(ok: bool) returns (reply: Reply)
      modifies this
      ensures (View(), reply) == Step(old(View()), Expire(ok))
    {
      if deadline.None? {
        return Done;
      }
      deadline := None;
      StopNow(Some(CodeOutputOff), ok);
      return if ok then Done else PwmFailed;
    }

    /** sh_buzzer_remove. */
    method RemoveDevice(ok: bool) returns (reply: Reply)
      modifies this
      ensures (View(), reply) == Step(old(View()), Remove(ok))
    {
      deadline := None;
      StopNow(None, ok);
      return if ok then Done else PwmFailed;
    }
  }
}
