/** What the daemon's threads can always achieve: start-up, a switch, a rollback and a shutdown run
    through when their calls succeed, and a frame from the camera reaches a waiting client. */
module MonitorProgress {
  import opened Common
  import opened MjpegCache
  import opened MonitorProtocol
  import opened MonitorSafety
  import opened MonitorTheorems

  /** A worker runs, and it is the one main would join. */
  predicate WorkerUp(s: State) {
    s.crew.running && s.crew.tid < |s.crew.threads| && Live(s.crew.threads[s.crew.tid])
  }

  /** The loop head in this mode as it should be: its camera streams, and there is a worker exactly
      if the mode is MONITOR. */
  predicate AtWork(s: State, mode: Mode) {
    && s.main.pc == LoopTest && s.ctl.active == mode && s.main.camera == Streaming(mode)
    && (WorkerUp(s) <==> mode == Monitor)
  }

  // ---------------------------------------------------------------- start-up

  /** Moves of main alone, whose calls succeed. */
  predicate MainCalls(events: seq<Event>) {
    forall k :: 0 <= k < |events| ==> events[k] == MainStep(true)
  }

  lemma RunSnoc(s: State, events: seq<Event>, e: Event)
    ensures Run(s, events + [e]) == Step(Run(s, events), e)
  {
    assert (events + [e])[..|events|] == events;
  }

  /** One more such move. */
  lemma MainCall(s: State, events: seq<Event>) returns (more: seq<Event>)
    requires MainCalls(events)
    ensures MainCalls(more) && |more| == |events| + 1 && Run(s, more) == MainMoves(Run(s, events), true)
  {
    more := events + [MainStep(true)];
    RunSnoc(s, events, MainStep(true));
  }

  lemma NoCall(s: State)
    ensures MainCalls([]) && Run(s, []) == s
  {
  }

  /** start_monitor_worker when no worker runs. */
  lemma WorkerIsCreated(s: State, why: Purpose) returns (events: seq<Event>)
    requires s.main.pc == CheckingRunning(why) && !s.crew.running
    ensures MainCalls(events) && |events| == 3
    ensures Run(s, events) == s.(main := s.main.(pc := AfterOpen(why)),
                                 crew := Crew(true, false, |s.crew.threads|, s.crew.threads + [Starting]))
  {
    NoCall(s);
    events := MainCall(s, []);
    assert Run(s, events) == s.(main := s.main.(pc := SettingRunning(why)));
    events := MainCall(s, events);
    assert Run(s, events) == s.(main := s.main.(pc := Creating(why)), crew := Crew(true, false, 0, s.crew.threads));
    events := MainCall(s, events);
  }

  lemma {:induction false} RunConcat(s: State, a: seq<Event>, b: seq<Event>)
    ensures Run(s, a + b) == Run(Run(s, a), b)
    decreases |a|
  {
    if a == [] {
      assert a + b == b;
    } else {
      var e, rest := a[0], a[1..];
      assert a == [e] + rest && a + b == [e] + (rest + b);
      RunFromFirst(s, e, rest + b);
      RunFromFirst(s, e, rest);
      RunConcat(Step(s, e), rest, b);
    }
  }

  /** From the start, when its calls succeed, main comes to the loop head of the start mode, with a
      worker if that is MONITOR. */
  lemma StartUpSucceeds(start: Mode) returns (events: seq<Event>)
    ensures MainCalls(events) && AtWork(Run(Init(start), events), start)
  {
    var s := Init(start);
    NoCall(s);
    events := MainCall(s, []);
    assert Run(s, events) == s.(main := MainThread(StartingStream(Startup, 0), Opened(start), 1));
    events := MainCall(s, events);
    assert Run(s, events) == s.(main := MainThread(AfterStream(Startup, start), Streaming(start), 1));
    if start == Monitor {
      var more := WorkerIsCreated(Run(s, events), Startup);
      RunConcat(s, events, more);
      events := events + more;
    }
  }

  // ---------------------------------------------------------------- pieces of a switch

  /** One attempt of camera_reopen_with_retry that fails: in camera_init, or in camera_start. */
  function AfterFailedAttempt(s: State, atStart: bool): State {
    if atStart then MainMoves(MainMoves(s, true), false) else MainMoves(s, false)
  }

  /** There are three attempts each way, wherever each of them fails, and then a switch is rolled
      back and a rollback ends the loop; start-up has one. */
  lemma ThreeAttempts(s: State, a: bool, b: bool, c: bool)
    requires s.main.pc.Opening? && s.main.pc.failures == 0
    ensures var s1 := AfterFailedAttempt(s, a);
            var s2 := AfterFailedAttempt(s1, b);
            var s3 := AfterFailedAttempt(s2, c);
            match s.main.pc.why
            case Startup => s1.main.pc == HttpStop && s1.main.opens == s.main.opens + 1
            case Switch => && s1.main.pc == Opening(Switch, 1) && s2.main.pc == Opening(Switch, 2)
                           && s3.main.pc == RollbackDeinit && s3.main.opens == s.main.opens + 3
            case Rollback => && s1.main.pc == Opening(Rollback, 1) && s2.main.pc == Opening(Rollback, 2)
                             && s3.main.pc == FinalTest && s3.main.opens == s.main.opens + 3
  {
    OneFailedAttempt(s, a);
    if s.main.pc.why != Startup {
      OneFailedAttempt(AfterFailedAttempt(s, a), b);
      OneFailedAttempt(AfterFailedAttempt(AfterFailedAttempt(s, a), b), c);
    }
  }

  lemma OneFailedAttempt(s: State, atStart: bool)
    requires s.main.pc.Opening?
    ensures AfterFailedAttempt(s, atStart).main
         == MainThread(AfterFailedOpen(s.main.pc.why, s.main.pc.failures), if atStart then Closed else Broken,
                       s.main.opens + 1)
  {
    if atStart {
      assert MainMoves(s, true).main.pc == StartingStream(s.main.pc.why, s.main.pc.failures);
    }
  }

  /** MONITOR is set up by a clear of the cache and a new worker, TRIGGER by the camera alone. */
  lemma ModeIsSetUp(s: State) returns (events: seq<Event>)
    requires s.main.pc.StartingStream? && s.main.pc.why != Startup && s.store.lock == None && !s.crew.running
    ensures MainCalls(events)
    ensures var target, t := Target(s.ctl, s.main.pc.why), Run(s, events);
            && t.main.pc == (if s.main.pc.why == Switch then Committing else WritingBack)
            && t.main.camera == Streaming(target) && t.ctl == s.ctl
            && if target == Monitor
               then && t.store == ClearStore(s.store)
                    && t.crew == Crew(true, false, |s.crew.threads|, s.crew.threads + [Starting])
               else t.store == s.store && t.crew == s.crew
  {
    var why, target := s.main.pc.why, Target(s.ctl, s.main.pc.why);
    NoCall(s);
    events := MainCall(s, []);
    assert Run(s, events) == s.(main := s.main.(pc := AfterStream(why, target), camera := Streaming(target)));
    if target == Monitor {
      events := MainCall(s, events);
      var t := s.(main := s.main.(pc := CheckingRunning(why), camera := Streaming(target)),
                  store := ClearStore(s.store));
      assert Run(s, events) == t;
      var more := WorkerIsCreated(t, why);
      RunConcat(s, events, more);
      events := events + more;
    }
  }

  lemma WorkerIsForgotten(s: State) returns (events: seq<Event>)
    requires s.main.pc == Joining(false)
    requires s.crew.tid < |s.crew.threads| && s.crew.threads[s.crew.tid] == Finished
    ensures MainCalls(events)
    ensures Run(s, events) == s.(main := s.main.(pc := ClearingAfterStop(false)),
                                 crew := Crew(false, false, 0, s.crew.threads))
  {
    NoCall(s);
    events := MainCall(s, []);
    assert Run(s, events) == s.(main := s.main.(pc := Resetting(false)));
    events := MainCall(s, events);
  }

  lemma CacheAndCameraAreReleased(s: State) returns (events: seq<Event>)
    requires s.main.pc == ClearingAfterStop(false) && s.store.lock == None
    ensures MainCalls(events)
    ensures Run(s, events) == s.(main := s.main.(pc := Opening(Switch, 0), camera := Closed),
                                 store := ClearStore(s.store))
  {
    NoCall(s);
    events := MainCall(s, []);
    assert Run(s, events) == s.(main := s.main.(pc := SwitchDeinit), store := ClearStore(s.store));
    events := MainCall(s, events);
  }

  /** MONITOR is torn down once the worker is gone: it is joined and forgotten, the cache cleared once
      more, and the camera released. */
  lemma MonitorIsTornDown(s: State) returns (events: seq<Event>)
    requires s.main.pc == Joining(false) && s.store.lock == None
    requires s.crew.tid < |s.crew.threads| && s.crew.threads[s.crew.tid] == Finished
    ensures MainCalls(events)
    ensures Run(s, events) == s.(main := s.main.(pc := Opening(Switch, 0), camera := Closed),
                                 crew := Crew(false, false, 0, s.crew.threads), store := ClearStore(s.store))
  {
    var first := WorkerIsForgotten(s);
    var second := CacheAndCameraAreReleased(Run(s, first));
    RunConcat(s, first, second);
    events := first + second;
  }

  // ---------------------------------------------------------------- a switch and a rollback

  predicate RollingBack(pc: MainPc) {
    match pc
    case RollbackDeinit => true
    case Opening(why, _) => why == Rollback
    case StartingStream(why, _) => why == Rollback
    case ClearingBeforeStart(why) => why == Rollback
    case CheckingRunning(why) => why == Rollback
    case SettingRunning(why) => why == Rollback
    case Creating(why) => why == Rollback
    case WritingBack => true
    case _ => false
  }

  /** Past the reopening of the camera for the new mode. */
  predicate Reopened(pc: MainPc) {
    match pc
    case StartingStream(why, _) => why == Switch
    case ClearingBeforeStart(why) => why == Switch
    case CheckingRunning(why) => why == Switch
    case SettingRunning(why) => why == Switch
    case Creating(why) => why == Switch
    case Committing => true
    case _ => false
  }

  /** All calls succeed, or, if not `forward`, all but those that open the camera for the new mode. */
  function CallsSucceed(forward: bool): State -> bool {
    (s: State) => forward || RollingBack(s.main.pc)
  }

  /** An attempt that is going to end as those calls make it. */
  predicate OnTheWay(s: State, forward: bool) {
    && Switching(s.main.pc)
    && (if forward then !RollingBack(s.main.pc) else !Reopened(s.main.pc))
    && (s.main.pc == Committing && s.ctl.requested == Monitor ==> WorkerUp(s))
    && (s.main.pc == WritingBack && s.ctl.active == Monitor ==> WorkerUp(s))
  }

  function EndMode(s: State, forward: bool): Mode {
    if forward then s.ctl.requested else s.ctl.active
  }

  /** How it ends: at the loop head of the new mode, or of the old one with that written back. */
  predicate Arrived(s: State, t: State, forward: bool) {
    && AtWork(t, EndMode(s, forward)) && CreatesOnce(s, t)
    && (!forward ==> t.ctl.mode == s.ctl.active)
  }

  predicate StillOnTheWay(s: State, t: State, forward: bool) {
    && OnTheWay(t, forward) && CreatesOnce(s, t)
    && EndMode(t, forward) == EndMode(s, forward) && t.ctl.active == s.ctl.active
  }

  lemma MainMovesOnTheWay(s: State, forward: bool)
    requires Inv(s) && OnTheWay(s, forward) && !MainBlocked(s)
    ensures var t := MainMoves(s, CallsSucceed(forward)(s)); StillOnTheWay(s, t, forward) || Arrived(s, t, forward)
  {
    MainMoveCreatesOnce(s, CallsSucceed(forward)(s));
  }

  lemma HelpfulMoveOnTheWay(s: State, forward: bool)
    requires Inv(s) && OnTheWay(s, forward)
    ensures var t := Step(s, Helpful(s, CallsSucceed(forward)(s)));
            StillOnTheWay(s, t, forward) || Arrived(s, t, forward)
  {
    if MainBlocked(s) {
      assert s.main.pc != Committing && s.main.pc != WritingBack;
    } else {
      MainMovesOnTheWay(s, forward);
    }
  }

  lemma {:induction false} AttemptRunsThrough(s: State, forward: bool) returns (events: seq<Event>)
    requires Inv(s) && OnTheWay(s, forward)
    ensures |events| <= WorkLeft(s) && Follows(s, events, CallsSucceed(forward))
    ensures Arrived(s, Run(s, events), forward)
    decreases WorkLeft(s)
  {
    var e := Helpful(s, CallsSucceed(forward)(s));
    var t := Step(s, e);
    HelpfulEventHelps(s, CallsSucceed(forward)(s));
    HelpfulMoveOnTheWay(s, forward);
    StepKeepsInv(s, e);
    var rest: seq<Event> := [];
    if StillOnTheWay(s, t, forward) {
      rest := AttemptRunsThrough(t, forward);
    } else {
      assert Run(t, []) == t;
    }
    events := [e] + rest;
    RunFromFirst(s, e, rest);
    FollowsFromFirst(s, e, rest, CallsSucceed(forward));
  }

  /** Whenever main reads a mode other than the active one, from any reachable state: if its calls
      succeed, the switch succeeds, with a running worker if the new mode is MONITOR; if only the new
      camera cannot be opened, the rollback succeeds, with a running worker if the old mode is MONITOR,
      and the old mode is written back. */
  lemma SwitchOrRollbackSucceeds(s: State, forward: bool) returns (events: seq<Event>)
    requires Inv(s) && s.main.pc == ReadingMode && s.ctl.mode != s.ctl.active
    ensures Follows(s, events, CallsSucceed(forward))
    ensures var t, mode := Run(s, events), if forward then s.ctl.mode else s.ctl.active;
            && AtWork(t, mode) && (!forward ==> t.ctl.mode == mode)
            && |t.crew.threads| == |s.crew.threads| + if mode == Monitor then 1 else 0
  {
    var e := MainStep(CallsSucceed(forward)(s));
    var t := Step(s, e);
    StepKeepsInv(s, e);
    var rest := AttemptRunsThrough(t, forward);
    events := [e] + rest;
    RunFromFirst(s, e, rest);
    FollowsFromFirst(s, e, rest, CallsSucceed(forward));
  }

  // ---------------------------------------------------------------- a frame

  /** This worker is at the head of its loop and has not been told to stop. */
  predicate Serves(s: State, i: nat) {
    i < |s.crew.threads| && s.crew.threads[i] == LoopHead && !s.crew.stop
  }

  function WithThread(s: State, i: nat, pc: WorkerPc): State
    requires i < |s.crew.threads|
  {
    s.(crew := s.crew.(threads := s.crew.threads[i := pc]))
  }

  /** A worker whose start-up calls succeed comes to the head of its loop, any other one stops. */
  lemma WorkerComesUp(s: State, i: nat, call: WorkerCall)
    requires i < |s.crew.threads| && s.crew.threads[i] == Starting
    ensures Step(s, WorkerStep(i, call)) == WithThread(s, i, if call.CallOk? then LoopHead else StoringStopped)
  {
  }

  /** It dequeues a frame and encodes it; `jpeg` is what comes out. */
  function CameraFrame(i: nat, jpeg: Frame): seq<Event> {
    [] + [WorkerStep(i, CallOk(jpeg, true))] + [WorkerStep(i, CallOk(jpeg, true))] + [WorkerStep(i, CallOk(jpeg, true))]
  }

  lemma WorkerEncodes(s: State, i: nat, jpeg: Frame)
    requires Serves(s, i)
    ensures Run(s, CameraFrame(i, jpeg)) == WithThread(s, i, Publishing(jpeg))
  {
    var e := WorkerStep(i, CallOk(jpeg, true));
    RunSnoc(s, [], e);
    RunSnoc(s, [] + [e], e);
    RunSnoc(s, [] + [e] + [e], e);
    assert Run(s, []) == s && Step(s, e) == WithThread(s, i, Dequeuing);
    assert Step(WithThread(s, i, Dequeuing), e) == WithThread(s, i, Encoding);
  }

  /** A worker that publishes: the frame is in the cache and in the log, and the buffer goes back. */
  lemma WorkerPublishes(s: State, i: nat, jpeg: Frame, publishOk: bool)
    requires i < |s.crew.threads| && s.crew.threads[i] == Publishing(jpeg) && s.store.lock == None
    requires |jpeg| > 0 && (|jpeg| <= s.store.cache.capacity || publishOk)
    ensures var t := Step(s, WorkerStep(i, CallOk(jpeg, publishOk)));
            && t.store.log == s.store.log + [WasPublished(jpeg)] && t.store.lock == None
            && t.store.cache.valid && t.store.cache.bytes == jpeg && t.store.cache.seqno == s.store.cache.seqno + 1
            && t.clients == s.clients && t.ctl == s.ctl && t.crew.threads == s.crew.threads[i := Requeueing]
  {
    PublishedFrameIsThere(s.store.cache, jpeg, publishOk);
  }

  /** A frame that cannot be encoded is skipped: nothing is stored, and the buffer goes back. */
  lemma WorkerSkips(s: State, i: nat, call: WorkerCall)
    requires i < |s.crew.threads| && s.crew.threads[i] == Encoding && !call.CallOk?
    ensures Step(s, WorkerStep(i, call)) == WithThread(s, i, Requeueing)
  {
  }

  /** Back to the head of the loop once the buffer is taken back; out of the loop if it is not, after
      a failed dequeue, or when told to stop; back after a dequeue that timed out. */
  lemma WorkerLoopsOrLeaves(s: State, i: nat, call: WorkerCall)
    requires i < |s.crew.threads|
    ensures s.crew.threads[i] == Requeueing ==>
              Step(s, WorkerStep(i, call)) == WithThread(s, i, if call.CallOk? then LoopHead else Clearing)
    ensures s.crew.threads[i] == Dequeuing && call.CallTimeout? ==>
              Step(s, WorkerStep(i, call)) == WithThread(s, i, LoopHead)
    ensures s.crew.threads[i] == Dequeuing && call.CallFails? ==>
              Step(s, WorkerStep(i, call)) == WithThread(s, i, Clearing)
    ensures s.crew.threads[i] == LoopHead && s.crew.stop ==>
              Step(s, WorkerStep(i, call)) == WithThread(s, i, Clearing)
  {
  }

  /** A client that waits in MONITOR mode on a running server. */
  predicate Waits(s: State, id: nat) {
    id in s.clients && s.clients[id].pc == Idle && s.ctl.mode == Monitor && s.ctl.http
  }

  /** It takes the lock, and on a valid frame newer than its last it takes the frame. */
  lemma ClientTakes(s: State, id: nat, copyOk: bool)
    requires Waits(s, id) && s.store.lock == None
    requires s.store.cache.valid && s.store.cache.seqno != s.clients[id].lastSeq
    requires |s.store.cache.bytes| <= s.clients[id].localCap || copyOk
    ensures var t := Step(Step(s, ClientLocks(id)), ClientDecides(id, copyOk));
            && id in t.clients && t.store == s.store
            && t.clients[id].got == s.clients[id].got + [Delivery(s.store.cache.seqno, s.store.cache.bytes)]
            && t.clients[id].pc == Idle && t.clients[id].lastSeq == s.store.cache.seqno
  {
  }

  /** From the camera to a client: a frame that the worker dequeues, encodes and can store reaches a
      waiting client that can hold it, byte for byte and under the next sequence number. */
  lemma FrameReachesClient(s: State, i: nat, id: nat, jpeg: Frame, publishOk: bool, copyOk: bool)
    requires Inv(s) && Serves(s, i) && Waits(s, id) && s.store.lock == None
    requires |jpeg| > 0 && (|jpeg| <= s.store.cache.capacity || publishOk)
    requires |jpeg| <= s.clients[id].localCap || copyOk
    ensures var t := Run(s, CameraFrame(i, jpeg) + [WorkerStep(i, CallOk(jpeg, publishOk))]
                            + [ClientLocks(id)] + [ClientDecides(id, copyOk)]);
            && id in t.clients
            && t.clients[id].got == s.clients[id].got + [Delivery(|s.store.log| + 1, jpeg)]
            && t.store.log == s.store.log + [WasPublished(jpeg)]
  {
    var events := CameraFrame(i, jpeg);
    var publish := WorkerStep(i, CallOk(jpeg, publishOk));
    WorkerEncodes(s, i, jpeg);
    RunSnoc(s, events, publish);
    var s1 := WithThread(s, i, Publishing(jpeg));
    WorkerPublishes(s1, i, jpeg, publishOk);
    RunSnoc(s, events + [publish], ClientLocks(id));
    RunSnoc(s, events + [publish] + [ClientLocks(id)], ClientDecides(id, copyOk));
    ClientTakes(Step(s1, publish), id, copyOk);
  }

  /** A waiting client closes when it finds the mode changed or the server stopping, and when a send
      fails; a new one has received nothing yet. */
  lemma ClientClosesOrConnects(s: State, id: nat, ok: bool)
    ensures id in s.clients && s.clients[id].pc == Idle && s.store.lock == None
            && !(s.ctl.mode == Monitor && s.ctl.http) ==>
              Step(s, ClientLocks(id)).clients == s.clients[id := s.clients[id].(pc := Gone)]
    ensures id in s.clients && s.clients[id].pc == Locked && !s.ctl.http ==>
              Step(s, ClientDecides(id, ok)).clients == s.clients[id := s.clients[id].(pc := Gone)]
    ensures id in s.clients && s.clients[id].pc == Idle ==>
              Step(s, ClientLeaves(id)).clients == s.clients[id := s.clients[id].(pc := Gone)]
    ensures id !in s.clients && s.ctl.http ==>
              Step(s, ClientConnects(id)).clients == s.clients[id := Client(Idle, 0, 0, [])]
  {
  }

  // ---------------------------------------------------------------- shutdown

  predicate ShuttingDown(s: State) {
    match s.main.pc
    case LoopTest => !s.ctl.alive
    case FinalTest => true
    case StopCheck(final) => final
    case SettingStop(final) => final
    case Joining(final) => final
    case Resetting(final) => final
    case ClearingAfterStop(final) => final
    case FinalDeinit => true
    case HttpStop => s.main.camera == Closed
    case _ => false
  }

  /** The end as it should be: no worker, no frame, the camera released and the server stopped. */
  ghost predicate EndedCleanly(s: State) {
    s.main.pc == Ended && s.main.camera == Closed && !s.ctl.http && NoLiveWorker(s.crew) && !s.store.cache.valid
  }

  function LeftToEnd(pc: MainPc): nat {
    match pc
    case LoopTest => 9
    case FinalTest => 8
    case StopCheck(_) => 7
    case SettingStop(_) => 6
    case Joining(_) => 5
    case Resetting(_) => 4
    case ClearingAfterStop(_) => 3
    case FinalDeinit => 2
    case HttpStop => 1
    case _ => 0
  }

  function EndWork(s: State): nat {
    20 * LeftToEnd(s.main.pc)
    + (if s.crew.tid < |s.crew.threads| && s.main.pc.Joining? then 2 * Drain(s.crew.threads[s.crew.tid]) else 0)
    + LockHeld(s)
  }

  lemma MainMoveEnds(s: State, ok: bool)
    requires ShuttingDown(s) && !MainBlocked(s)
    ensures var t := MainMoves(s, ok);
            if s.main.pc == HttpStop then t.main.pc == Ended && t.main.camera == Closed && !t.ctl.http
            else ShuttingDown(t) && LeftToEnd(t.main.pc) < LeftToEnd(s.main.pc) && t.store.lock == s.store.lock
  {
  }

  lemma HelpfulMoveEnds(s: State, ok: bool)
    requires Inv(s) && ShuttingDown(s)
    ensures var t := Step(s, Helpful(s, ok));
            || (ShuttingDown(t) && EndWork(t) < EndWork(s))
            || (t.main.pc == Ended && t.main.camera == Closed && !t.ctl.http)
  {
    if !MainBlocked(s) {
      MainMoveEnds(s, ok);
    } else if s.main.pc.Joining? && s.store.lock.None? {
      StoppedWorkerDrains(s, CallFails);
    }
  }

  /** After a signal, or a failed rollback, and however its calls turn out, main can come to a clean
      end: it never hangs on the worker or on the cache lock. */
  lemma {:induction false} ShutdownEndsCleanly(s: State, outcome: State -> bool) returns (events: seq<Event>)
    requires Inv(s) && ShuttingDown(s)
    ensures |events| <= EndWork(s) && Follows(s, events, outcome) && EndedCleanly(Run(s, events))
    decreases EndWork(s)
  {
    var e := Helpful(s, outcome(s));
    var t := Step(s, e);
    HelpfulMoveEnds(s, outcome(s));
    StepKeepsInv(s, e);
    var rest: seq<Event> := [];
    if t.main.pc == Ended {
      assert Run(t, []) == t;
    } else {
      rest := ShutdownEndsCleanly(t, outcome);
    }
    events := [e] + rest;
    RunFromFirst(s, e, rest);
    FollowsFromFirst(s, e, rest, outcome);
  }

  /** With no switch due, the loop goes round; in TRIGGER mode an event on the way makes it capture, as
      often as there are events. */
  lemma LoopGoesRound(s: State, ok: bool)
    requires s.ctl.mode == s.ctl.active
    ensures s.main.pc == ReadingMode ==> Step(s, MainStep(ok)).main == s.main.(pc := Serving)
    ensures s.main.pc == Serving ==>
              Step(s, MainStep(ok)).main == s.main.(pc := if s.ctl.active == Trigger && ok then Capturing else LoopTest)
    ensures s.main.pc == Capturing ==>
              Step(s, MainStep(ok)).main == s.main.(pc := if ok then Capturing else LoopTest)
  {
  }

  /** A signal is seen at the next loop head, a mode request at the next read of the mode. */
  lemma RequestsAreSeen(s: State, m: Mode, ok: bool)
    ensures s.main.pc == LoopTest ==> ShuttingDown(Step(s, Signal))
    ensures s.main.pc == ReadingMode ==>
              Step(Step(s, ModeRequest(m)), MainStep(ok)).ctl.requested == m
    ensures s.main.pc == LoopTest ==>
              Step(s, MainStep(ok)).main.pc == if s.ctl.alive then ReadingMode else FinalTest
  {
  }
}
