/** What holds of every run of the daemon's threads, from MonitorSafety's invariant. */
module MonitorTheorems {
  import opened Common
  import opened MjpegCache
  import opened MonitorProtocol
  import opened MonitorSafety

  lemma Reachable(start: Mode, events: seq<Event>)
    ensures Inv(Run(Init(start), events))
  {
    InitInv(start);
    RunKeepsInv(Init(start), events);
  }

  // ---------------------------------------------------------------- frames and workers

  /** Whenever no worker runs there is no frame to hand out; so none at a loop head in TRIGGER mode. */
  lemma NoWorkerNoFrame(start: Mode, events: seq<Event>)
    ensures var s := Run(Init(start), events);
            && (!s.crew.running ==> !s.store.cache.valid)
            && (s.main.pc == LoopTest && s.ctl.active == Trigger ==> !s.crew.running && !s.store.cache.valid)
  {
    Reachable(start, events);
  }

  ghost predicate Receives(s: State, e: Event, id: nat) {
    id in s.clients && id in Step(s, e).clients && Step(s, e).clients[id].got != s.clients[id].got
  }

  lemma ReceiptIsDecision(s: State, e: Event, id: nat)
    requires Receives(s, e, id) && WellFormed(s.store.cache)
    ensures s.store.cache.valid
    ensures Step(s, e).clients[id].got == s.clients[id].got + [Delivery(s.store.cache.seqno, s.store.cache.bytes)]
  {
  }

  /** Between s and t the client got one frame: the newest thing stored in the cache, while a live
      worker that has not cleared yet stands behind a streaming MONITOR camera. */
  ghost predicate ReceivedFromWorker(s: State, t: State, id: nat) {
    && s.crew.running && s.crew.tid < |s.crew.threads| && MayHavePublished(s.crew.threads[s.crew.tid])
    && s.main.camera == Streaming(Monitor) && !Quiet(s.main.pc, s.ctl)
    && s.store.log != [] && s.store.log[|s.store.log| - 1] == WasPublished(s.store.cache.bytes)
    && id in s.clients && id in t.clients
    && t.clients[id].got == s.clients[id].got + [Delivery(|s.store.log|, s.store.cache.bytes)]
  }

  lemma ReceiptNeedsWorker(s: State, e: Event, id: nat)
    requires Inv(s) && Receives(s, e, id)
    ensures ReceivedFromWorker(s, Step(s, e), id)
  {
    ReceiptIsDecision(s, e, id);
  }

  /** A frame changes hands only in that way: never without a worker, so never at a loop head whose
      active mode is TRIGGER, which is one of the quiet points. */
  lemma DeliveryNeedsWorker(start: Mode, events: seq<Event>, e: Event, id: nat)
    requires Receives(Run(Init(start), events), e, id)
    ensures var s := Run(Init(start), events); ReceivedFromWorker(s, Step(s, e), id)
  {
    Reachable(start, events);
    ReceiptNeedsWorker(Run(Init(start), events), e, id);
  }

  /** Each client's frames over a whole run: every one is the exact argument of the single publish
      that made its sequence number, and the numbers strictly increase. */
  lemma ClientsReceivePublishedFramesInOrder(start: Mode, events: seq<Event>, id: nat)
    requires id in Run(Init(start), events).clients
    ensures var s := Run(Init(start), events);
            PublishedInOrder(s.clients[id].got, s.store.log)
  {
    Reachable(start, events);
    ClientIsSound(Run(Init(start), events), id);
  }

  lemma ClientIsSound(s: State, id: nat)
    requires ClientsSound(s.clients, s.store) && id in s.clients
    ensures ClientSound(s.clients[id], s.store.log)
  {
  }

  /** While a client holds the cache lock nothing changes the cache, whoever moves. */
  lemma LockedCacheIsStill(s: State, e: Event)
    requires s.store.lock.Some?
    ensures Step(s, e).store.cache == s.store.cache && Step(s, e).store.log == s.store.log
  {
  }

  // ---------------------------------------------------------------- the camera

  /** The main thread's own uses of the camera context. */
  predicate MainUsesCamera(pc: MainPc) {
    pc.Opening? || pc.StartingStream? || pc.RollbackDeinit? || pc.SwitchDeinit? || pc.FinalDeinit? || pc.Capturing?
  }

  /** Never two workers on the camera, never a worker and main, and under a worker the camera is
      always the streaming MONITOR one. */
  lemma CameraIsExclusive(start: Mode, events: seq<Event>, i: nat, j: nat)
    requires var s := Run(Init(start), events);
             i < |s.crew.threads| && UsesCamera(s.crew.threads[i]) && j < |s.crew.threads|
    ensures var s := Run(Init(start), events);
            && (UsesCamera(s.crew.threads[j]) ==> i == j)
            && !MainUsesCamera(s.main.pc)
            && s.main.camera == Streaming(Monitor)
            && s.crew.running && s.crew.tid == i
  {
    Reachable(start, events);
  }

  /** At every loop head the camera streams with the active mode's parameters. */
  lemma LoopHeadHasActiveCamera(start: Mode, events: seq<Event>)
    ensures var s := Run(Init(start), events); s.main.pc == LoopTest ==> s.main.camera == Streaming(s.ctl.active)
  {
    Reachable(start, events);
  }

  /** The camera is never opened while it is open: the context was released, or its last camera_init
      failed in the same series of attempts. */
  lemma CameraIsReleasedBeforeOpening(start: Mode, events: seq<Event>)
    ensures var s := Run(Init(start), events);
            s.main.pc.Opening? ==> s.main.camera.Closed? || (s.main.camera.Broken? && s.main.pc.failures > 0)
  {
    Reachable(start, events);
  }

  /** At every loop head in MONITOR mode a worker has been started for it, and it is the one main
      would join; it may have left by itself since. */
  lemma LoopHeadHasItsWorker(start: Mode, events: seq<Event>)
    ensures var s := Run(Init(start), events);
            s.main.pc == LoopTest && s.ctl.active == Monitor ==>
              s.crew.threads != [] && s.crew.tid == |s.crew.threads| - 1
  {
    Reachable(start, events);
  }

  // ---------------------------------------------------------------- a mode switch is a transaction

  /** Whether the one worker of this attempt has been created. */
  function Created(s: State): nat {
    match s.main.pc
    case Committing => if s.ctl.requested == Monitor then 1 else 0
    case WritingBack => if s.ctl.active == Monitor then 1 else 0
    case LoopTest => if s.ctl.active == Monitor then 1 else 0
    case _ => 0
  }

  /** Threads were added between s0 and s exactly as far as the attempt has created its worker. */
  predicate CreatesOnce(s0: State, s: State) {
    |s.crew.threads| + Created(s0) == |s0.crew.threads| + Created(s)
  }

  ghost predicate InAttempt(s0: State, s: State) {
    && Switching(s.main.pc) && s.main.opens <= 6 && CreatesOnce(s0, s)
    && s.ctl.active == s0.ctl.active && s.ctl.requested == s0.ctl.requested
  }

  /** The three ways an attempt ends. Back at the loop head in MONITOR mode it has created exactly one
      worker thread, and none otherwise. */
  ghost predicate Resolved(s0: State, s: State) {
    && s.main.opens <= 6 && CreatesOnce(s0, s)
    && (|| (s.main.pc == LoopTest && s.ctl.active == s0.ctl.requested && s.main.camera == Streaming(s0.ctl.requested))
        || (s.main.pc == LoopTest && s.ctl.active == s0.ctl.active && s.main.camera == Streaming(s0.ctl.active)
            && s.ctl.mode == s0.ctl.active)
        || (s.main.pc == FinalTest && s.ctl.active == s0.ctl.active))
  }

  /** An attempt starts exactly when main reads a mode other than the active one; it starts with
      no opens made and runs towards the mode it read. */
  lemma AttemptStarts(s: State, ok: bool)
    requires Inv(s) && s.main.pc == ReadingMode
    ensures var t := Step(s, MainStep(ok));
            if s.ctl.mode == s.ctl.active then !Switching(t.main.pc)
            else InAttempt(t, t) && t.main.opens == 0 && t.ctl.requested == s.ctl.mode && t.ctl.active == s.ctl.active
  {
  }

  lemma MainMoveCreatesOnce(s: State, ok: bool)
    requires OneWorker(s.crew, s.main.pc) && (Quiet(s.main.pc, s.ctl) ==> NoLiveWorker(s.crew))
    requires Switching(s.main.pc) && CameraMatches(s.main, s.ctl)
    ensures CreatesOnce(s, MainMoves(s, ok))
  {
  }

  lemma MainMoveOfAttempt(s0: State, s: State, ok: bool)
    requires OneWorker(s.crew, s.main.pc) && (Quiet(s.main.pc, s.ctl) ==> NoLiveWorker(s.crew))
    requires CameraMatches(s.main, s.ctl) && OpensBounded(s.main) && InAttempt(s0, s)
    ensures var t := MainMoves(s, ok); InAttempt(s0, t) || Resolved(s0, t)
  {
    MainKeepsOpens(s, ok);
    MainMoveCreatesOnce(s, ok);
  }

  lemma StepOfAttempt(s0: State, s: State, e: Event)
    requires Inv(s) && InAttempt(s0, s)
    ensures InAttempt(s0, Step(s, e)) || Resolved(s0, Step(s, e))
  {
    if e.MainStep? {
      MainMoveOfAttempt(s0, s, e.ok);
    }
  }

  /** The first n events leave the attempt open. */
  ghost predicate OpenThrough(s0: State, events: seq<Event>, n: nat)
    requires n <= |events|
  {
    forall k :: 0 <= k <= n ==> InAttempt(s0, Run(s0, events[..k]))
  }

  /** Event number n ends the attempt, in one of the three ways. */
  ghost predicate EndsAt(s0: State, events: seq<Event>, n: nat)
    requires n < |events|
  {
    OpenThrough(s0, events, n) && Resolved(s0, Run(s0, events[..n + 1]))
  }

  lemma OpenThroughPrefix(s0: State, events: seq<Event>, m: nat, n: nat)
    requires n <= m <= |events|
    ensures OpenThrough(s0, events[..m], n) == OpenThrough(s0, events, n)
  {
    assert forall k :: 0 <= k <= n ==> events[..m][..k] == events[..k];
  }

  /** One more event of a run whose events so far leave the attempt open. */
  lemma AttemptGoesOn(s0: State, events: seq<Event>, m: nat)
    requires Inv(s0) && m + 1 == |events| && OpenThrough(s0, events, m)
    ensures OpenThrough(s0, events, m + 1) || EndsAt(s0, events, m)
  {
    assert InAttempt(s0, Run(s0, events[..m]));
    assert events[..m + 1] == events;
    RunKeepsInv(s0, events[..m]);
    StepOfAttempt(s0, Run(s0, events[..m]), events[m]);
  }

  /** Follow any run from inside a switch: either all of it is still the same attempt, or at some
      event the attempt ended in one of the three ways. It makes at most six opens either way. */
  lemma {:induction false} SwitchIsTransaction(s0: State, events: seq<Event>)
    requires Inv(s0) && InAttempt(s0, s0)
    ensures OpenThrough(s0, events, |events|) || exists n :: 0 <= n < |events| && EndsAt(s0, events, n)
    decreases |events|
  {
    if events == [] {
      assert events[..0] == events;
    } else {
      var m := |events| - 1;
      SwitchIsTransaction(s0, events[..m]);
      if OpenThrough(s0, events[..m], m) {
        OpenThroughPrefix(s0, events, m, m);
        AttemptGoesOn(s0, events, m);
      } else {
        var n :| 0 <= n < m && EndsAt(s0, events[..m], n);
        OpenThroughPrefix(s0, events, m, n);
        assert events[..m][..n + 1] == events[..n + 1];
        assert EndsAt(s0, events, n);
      }
    }
  }

  // ---------------------------------------------------------------- no switch is ever stuck

  /** Moves left to the main thread before the attempt ends. */
  function Left(pc: MainPc): nat {
    match pc
    case StopCheck(_) => 30
    case SettingStop(_) => 29
    case Joining(_) => 28
    case Resetting(_) => 27
    case ClearingAfterStop(_) => 26
    case SwitchDeinit => 25
    case Opening(Switch, k) => if k <= 2 then 24 - 2 * k else 19
    case StartingStream(Switch, k) => if k <= 2 then 23 - 2 * k else 19
    case ClearingBeforeStart(Switch) => 18
    case CheckingRunning(Switch) => 17
    case SettingRunning(Switch) => 16
    case Creating(Switch) => 15
    case RollbackDeinit => 14
    case Opening(_, k) => if k <= 2 then 13 - 2 * k else 8
    case StartingStream(_, k) => if k <= 2 then 12 - 2 * k else 8
    case ClearingBeforeStart(_) => 7
    case CheckingRunning(_) => 6
    case SettingRunning(_) => 5
    case Creating(_) => 4
    case _ => 1
  }

  /** Steps left to a worker that has been told to stop. */
  function Drain(pc: WorkerPc): nat {
    match pc
    case Dequeuing => 7
    case Encoding => 6
    case Publishing(_) => 5
    case Requeueing => 4
    case Starting => 4
    case LoopHead => 3
    case Clearing => 2
    case StoringStopped => 1
    case Finished => 0
  }

  lemma MainMoveUsesUpAttempt(s: State, ok: bool)
    requires OpensBounded(s.main) && Switching(s.main.pc) && !MainBlocked(s)
    ensures var t := MainMoves(s, ok); !Switching(t.main.pc) || Left(t.main.pc) < Left(s.main.pc)
  {
  }

  /** A stopped worker drains: each of its own steps brings it closer to the end, whatever its
      calls return, and it is held up only by a client that can release the cache lock at once. */
  lemma StoppedWorkerDrains(s: State, call: WorkerCall)
    requires Inv(s) && s.main.pc.Joining? && MainBlocked(s)
    ensures s.crew.tid < |s.crew.threads| && Live(s.crew.threads[s.crew.tid])
    ensures var i := s.crew.tid;
            if WorkerBlocked(s, i)
            then s.store.lock.Some? && ClientDecide(s, s.store.lock.value, true).store.lock == None
            else Drain(WorkerMoves(s, i, call).crew.threads[i]) < Drain(s.crew.threads[i])
  {
  }

  function LockHeld(s: State): nat {
    if s.store.lock.Some? then 1 else 0
  }

  function WorkLeft(s: State): nat {
    20 * Left(s.main.pc)
    + (if s.crew.tid < |s.crew.threads| && s.main.pc.Joining? then 2 * Drain(s.crew.threads[s.crew.tid]) else 0)
    + LockHeld(s)
  }

  /** The next event that brings an attempt forward; `ok` is how a call of the main thread turns out. */
  function Helpful(s: State, ok: bool): Event {
    if !MainBlocked(s) then MainStep(ok)
    else if s.store.lock.Some? then ClientDecides(s.store.lock.value, true)
    else WorkerStep(s.crew.tid, CallFails)
  }

  lemma HelpfulEventHelps(s: State, ok: bool)
    requires Inv(s) && Switching(s.main.pc)
    ensures var t := Step(s, Helpful(s, ok)); !Switching(t.main.pc) || WorkLeft(t) < WorkLeft(s)
  {
    if !MainBlocked(s) {
      MainMoveUsesUpAttempt(s, ok);
    } else if s.main.pc.Joining? && s.store.lock.None? {
      StoppedWorkerDrains(s, CallFails);
    }
  }

  /** Each main step among these events turns out as `outcome` says for the state it is taken in. */
  ghost predicate Follows(s: State, events: seq<Event>, outcome: State -> bool) {
    forall k :: 0 <= k < |events| && events[k].MainStep? ==> events[k].ok == outcome(Run(s, events[..k]))
  }

  lemma FollowsFromFirst(s: State, e: Event, rest: seq<Event>, outcome: State -> bool)
    requires e.MainStep? ==> e.ok == outcome(s)
    requires Follows(Step(s, e), rest, outcome)
    ensures Follows(s, [e] + rest, outcome)
  {
    var all := [e] + rest;
    forall k | 0 <= k < |all| && all[k].MainStep?
      ensures all[k].ok == outcome(Run(s, all[..k]))
    {
      if k == 0 {
        assert all[..0] == [] && Run(s, []) == s;
      } else {
        assert all[..k] == [e] + rest[..k - 1];
        RunFromFirst(s, e, rest[..k - 1]);
      }
    }
  }

  /** From every state a run can reach inside a switch, and however each call of the main thread
      turns out, some continuation ends the attempt: no deadlock on the join or on the cache lock. */
  lemma {:induction false} SwitchNeverStuck(s: State, outcome: State -> bool) returns (events: seq<Event>)
    requires Inv(s) && Switching(s.main.pc)
    ensures |events| <= WorkLeft(s) && !Switching(Run(s, events).main.pc)
    ensures Follows(s, events, outcome)
    decreases WorkLeft(s)
  {
    var e := Helpful(s, outcome(s));
    HelpfulEventHelps(s, outcome(s));
    StepKeepsInv(s, e);
    if Switching(Step(s, e).main.pc) {
      var rest := SwitchNeverStuck(Step(s, e), outcome);
      events := [e] + rest;
      RunFromFirst(s, e, rest);
      FollowsFromFirst(s, e, rest, outcome);
    } else {
      events := [e];
      RunFromFirst(s, e, []);
      assert [e] + [] == [e] && Run(Step(s, e), []) == Step(s, e);
      FollowsFromFirst(s, e, [], outcome);
    }
  }

  lemma {:induction false} RunFromFirst(s: State, e: Event, rest: seq<Event>)
    ensures Run(s, [e] + rest) == Run(Step(s, e), rest)
    decreases |rest|
  {
    var all := [e] + rest;
    if rest == [] {
      assert all[..0] == [] && Run(s, []) == s;
    } else {
      var m := |rest| - 1;
      assert all[..|all| - 1] == [e] + rest[..m];
      RunFromFirst(s, e, rest[..m]);
    }
  }
}
