/** The inductive invariant of MonitorProtocol, and what it says about every run. */
module MonitorSafety {
  import opened Common
  import opened MjpegCache
  import opened MonitorProtocol

  /** The frame cache and the log of everything stored in it agree. */
  ghost predicate CacheLogged(t: Store) {
    && WellFormed(t.cache)
    && t.cache.seqno == |t.log|
    && (t.cache.valid ==> t.log != [] && t.log[|t.log| - 1] == WasPublished(t.cache.bytes))
  }

  /** The points of the main thread at which no worker may exist. */
  predicate Quiet(pc: MainPc, c: Control) {
    match pc
    case Opening(_, _) => true
    case StartingStream(_, _) => true
    case ClearingBeforeStart(_) => true
    case CheckingRunning(_) => true
    case SettingRunning(_) => true
    case Creating(_) => true
    case RollbackDeinit => true
    case Resetting(_) => true
    case ClearingAfterStop(_) => true
    case SwitchDeinit => true
    case FinalDeinit => true
    case HttpStop => true
    case Ended => true
    case Committing => c.requested == Trigger
    case _ => c.active == Trigger
  }

  /** At most one worker thread is live: the one main would join, and `running` is its flag. */
  ghost predicate OneWorker(w: Crew, pc: MainPc) {
    && (forall i :: 0 <= i < |w.threads| && Live(w.threads[i]) ==> i == w.tid && w.running)
    && (w.running ==> pc.Creating? || (w.tid < |w.threads| && Live(w.threads[w.tid])))
    && (pc.Creating? ==> w.running)
    && (pc.SettingStop? || pc.Joining? ==> w.tid < |w.threads|)
    && (w.stop <==> pc.Joining? || (pc.Resetting? && w.stop))
  }

  ghost predicate NoLiveWorker(w: Crew) {
    forall i :: 0 <= i < |w.threads| ==> !Live(w.threads[i])
  }

  /** The thread main would join is the newest one. */
  predicate NewestIsCurrent(w: Crew) {
    w.threads != [] && w.tid == |w.threads| - 1
  }

  /** Where a worker has to have been started: once MONITOR is streaming for good. */
  predicate WorkerStarted(w: Crew, pc: MainPc, c: Control) {
    match pc
    case Committing => c.requested == Monitor ==> NewestIsCurrent(w)
    case WritingBack => c.active == Monitor ==> NewestIsCurrent(w)
    case LoopTest => c.active == Monitor ==> NewestIsCurrent(w)
    case ReadingMode => c.active == Monitor ==> NewestIsCurrent(w)
    case Serving => c.active == Monitor ==> NewestIsCurrent(w)
    case Capturing => c.active == Monitor ==> NewestIsCurrent(w)
    case _ => true
  }

  /** Past the start-up calls and before its own clear. */
  predicate MayHavePublished(pc: WorkerPc) {
    Live(pc) && !pc.Starting? && !pc.StoringStopped?
  }

  /** A valid cache has a worker behind it that still has to pass its own clear. */
  ghost predicate WorkerBehindFrame(t: Store, w: Crew) {
    t.cache.valid ==> w.tid < |w.threads| && MayHavePublished(w.threads[w.tid])
  }

  /** What the camera context holds at each point of the main thread. */
  ghost predicate CameraMatches(m: MainThread, c: Control) {
    match m.pc
    case Opening(_, k) => m.camera.Closed? || (m.camera.Broken? && k > 0)
    case StartingStream(why, _) => m.camera == Opened(Target(c, why))
    case ClearingBeforeStart(why) => m.camera == Streaming(Monitor) && Target(c, why) == Monitor && why != Startup
    case CheckingRunning(why) => m.camera == Streaming(Monitor) && Target(c, why) == Monitor
    case SettingRunning(why) => m.camera == Streaming(Monitor) && Target(c, why) == Monitor
    case Creating(why) => m.camera == Streaming(Monitor) && Target(c, why) == Monitor
    case Committing => m.camera == Streaming(c.requested)
    case WritingBack => m.camera == Streaming(c.active)
    case LoopTest => m.camera == Streaming(c.active)
    case ReadingMode => m.camera == Streaming(c.active)
    case Serving => m.camera == Streaming(c.active)
    case Capturing => m.camera == Streaming(c.active) && c.active == Trigger
    case StopCheck(final) => c.active == Monitor && (!final ==> m.camera == Streaming(c.active))
    case SettingStop(final) => c.active == Monitor && (!final ==> m.camera == Streaming(c.active))
    case Joining(final) => c.active == Monitor && (!final ==> m.camera == Streaming(c.active))
    case _ => true
  }

  /** The points of a mode switch, from reading a new mode to the next loop head. */
  predicate Switching(pc: MainPc) {
    match pc
    case Opening(why, _) => why != Startup
    case StartingStream(why, _) => why != Startup
    case ClearingBeforeStart(why) => why != Startup
    case CheckingRunning(why) => why != Startup
    case SettingRunning(why) => why != Startup
    case Creating(why) => why != Startup
    case RollbackDeinit => true
    case WritingBack => true
    case Committing => true
    case StopCheck(final) => !final
    case SettingStop(final) => !final
    case Joining(final) => !final
    case Resetting(final) => !final
    case ClearingAfterStop(final) => !final
    case SwitchDeinit => true
    case _ => false
  }

  /** Camera opens of the current switch, point by point: at most three each way. */
  ghost predicate OpensBounded(m: MainThread) {
    match m.pc
    case Opening(why, k) =>
      k < AttemptLimit(why) && (why != Rollback ==> m.opens == k) && (why == Rollback ==> m.opens <= 3 + k)
    case StartingStream(why, k) =>
      k < AttemptLimit(why) && (why != Rollback ==> m.opens == k + 1) && (why == Rollback ==> m.opens <= 4 + k)
    case ClearingBeforeStart(why) => m.opens <= if why == Rollback then 6 else 3
    case CheckingRunning(why) => m.opens <= if why == Rollback then 6 else 3
    case SettingRunning(why) => m.opens <= if why == Rollback then 6 else 3
    case Creating(why) => m.opens <= if why == Rollback then 6 else 3
    case RollbackDeinit => m.opens <= 3
    case StopCheck(final) => m.opens <= if final then 6 else 0
    case SettingStop(final) => m.opens <= if final then 6 else 0
    case Joining(final) => m.opens <= if final then 6 else 0
    case Resetting(final) => m.opens <= if final then 6 else 0
    case ClearingAfterStop(final) => m.opens <= if final then 6 else 0
    case SwitchDeinit => m.opens == 0
    case _ => m.opens <= 6
  }

  /** Every frame is the argument of the publish that made its sequence number, and the sequence
      numbers strictly increase. */
  ghost predicate PublishedInOrder(got: seq<Delivery>, log: seq<CacheEvent>) {
    && (forall k :: 0 <= k < |got| ==>
          1 <= got[k].seqno <= |log| && log[got[k].seqno - 1] == WasPublished(got[k].frame))
    && (forall j, k :: 0 <= j < k < |got| ==> got[j].seqno < got[k].seqno)
  }

  ghost predicate ClientSound(c: Client, log: seq<CacheEvent>) {
    && PublishedInOrder(c.got, log)
    && c.lastSeq == (if c.got == [] then 0 else c.got[|c.got| - 1].seqno)
  }

  ghost predicate ClientsSound(clients: map<nat, Client>, t: Store) {
    && (forall id :: id in clients ==> ClientSound(clients[id], t.log))
    && (forall id :: id in clients ==> (clients[id].pc == Locked <==> t.lock == Some(id)))
    && (t.lock.Some? ==> t.lock.value in clients)
  }

  ghost predicate Inv(s: State) {
    && CacheLogged(s.store)
    && OneWorker(s.crew, s.main.pc)
    && (Quiet(s.main.pc, s.ctl) ==> NoLiveWorker(s.crew))
    && (s.main.camera != Streaming(Monitor) ==> NoLiveWorker(s.crew))
    && WorkerStarted(s.crew, s.main.pc, s.ctl)
    && WorkerBehindFrame(s.store, s.crew)
    && CameraMatches(s.main, s.ctl)
    && OpensBounded(s.main)
    && (Switching(s.main.pc) ==> s.ctl.requested != s.ctl.active)
    && ClientsSound(s.clients, s.store)
  }

  lemma InitInv(start: Mode)
    ensures Inv(Init(start))
  {
  }

  lemma MainKeepsStore(s: State, ok: bool)
    requires CacheLogged(s.store) && ClientsSound(s.clients, s.store)
    ensures var t := MainMoves(s, ok); CacheLogged(t.store) && ClientsSound(t.clients, t.store)
  {
  }

  lemma MainKeepsCrew(s: State, ok: bool)
    requires OneWorker(s.crew, s.main.pc) && (Quiet(s.main.pc, s.ctl) ==> NoLiveWorker(s.crew))
    ensures var t := MainMoves(s, ok); OneWorker(t.crew, t.main.pc)
  {
  }

  lemma MainKeepsWorkerStarted(s: State, ok: bool)
    requires OneWorker(s.crew, s.main.pc) && (Quiet(s.main.pc, s.ctl) ==> NoLiveWorker(s.crew))
    requires WorkerStarted(s.crew, s.main.pc, s.ctl)
    ensures var t := MainMoves(s, ok); WorkerStarted(t.crew, t.main.pc, t.ctl)
  {
  }

  lemma MainKeepsWorkerBehindFrame(s: State, ok: bool)
    requires WorkerBehindFrame(s.store, s.crew) && (Quiet(s.main.pc, s.ctl) ==> NoLiveWorker(s.crew))
    ensures var t := MainMoves(s, ok); WorkerBehindFrame(t.store, t.crew)
  {
  }

  lemma MainKeepsQuiet(s: State, ok: bool)
    requires OneWorker(s.crew, s.main.pc) && (Quiet(s.main.pc, s.ctl) ==> NoLiveWorker(s.crew))
    requires CameraMatches(s.main, s.ctl)
    ensures var t := MainMoves(s, ok); Quiet(t.main.pc, t.ctl) ==> NoLiveWorker(t.crew)
  {
  }

  lemma MainKeepsWorkerCamera(s: State, ok: bool)
    requires OneWorker(s.crew, s.main.pc) && (Quiet(s.main.pc, s.ctl) ==> NoLiveWorker(s.crew))
    requires CameraMatches(s.main, s.ctl) && (s.main.camera != Streaming(Monitor) ==> NoLiveWorker(s.crew))
    ensures var t := MainMoves(s, ok); t.main.camera != Streaming(Monitor) ==> NoLiveWorker(t.crew)
  {
  }

  lemma NextMatchesCamera(s: State, ok: bool)
    requires CameraMatches(s.main, s.ctl)
    ensures CameraMatches(MainNext(s, ok), ControlNext(s.main.pc, s.ctl))
  {
  }

  lemma MainKeepsCamera(s: State, ok: bool)
    requires CameraMatches(s.main, s.ctl)
    ensures var t := MainMoves(s, ok); CameraMatches(t.main, t.ctl)
  {
    NextMatchesCamera(s, ok);
  }

  lemma MainKeepsRequest(s: State, ok: bool)
    requires Switching(s.main.pc) ==> s.ctl.requested != s.ctl.active
    ensures var t := MainMoves(s, ok); Switching(t.main.pc) ==> t.ctl.requested != t.ctl.active
  {
  }

  lemma NextKeepsOpens(s: State, ok: bool)
    requires OpensBounded(s.main)
    ensures OpensBounded(MainNext(s, ok))
  {
  }

  lemma MainKeepsOpens(s: State, ok: bool)
    requires OpensBounded(s.main)
    ensures OpensBounded(MainMoves(s, ok).main)
  {
    NextKeepsOpens(s, ok);
  }

  lemma WorkerKeepsInv(s: State, i: nat, call: WorkerCall)
    requires Inv(s) && i < |s.crew.threads|
    ensures Inv(WorkerMoves(s, i, call))
  {
  }

  /** Replacing one client by a sound one whose pc agrees with the lock. */
  lemma ClientReplaced(clients: map<nat, Client>, t: Store, id: nat, c: Client, lock: Option<nat>)
    requires ClientsSound(clients, t) && ClientSound(c, t.log)
    requires t.lock == None || t.lock == Some(id)
    requires lock == if c.pc == Locked then Some(id) else None
    ensures ClientsSound(clients[id := c], t.(lock := lock))
  {
  }

  lemma DecisionIsSound(c: Client, t: Store, http: bool, ok: bool)
    requires CacheLogged(t) && ClientSound(c, t.log)
    ensures ClientSound(AfterDecision(c, t.cache, http, ok), t.log)
    ensures AfterDecision(c, t.cache, http, ok).pc != Locked
  {
    var d := AfterDecision(c, t.cache, http, ok);
    if d.got != c.got {
      assert |c.got| > 0 ==> c.got[|c.got| - 1].seqno == c.lastSeq;
    }
  }

  /** Replacing or adding one client that neither held the lock nor takes it. */
  lemma ClientOutsideLock(clients: map<nat, Client>, t: Store, id: nat, c: Client)
    requires ClientsSound(clients, t) && ClientSound(c, t.log) && c.pc != Locked
    requires id in clients ==> clients[id].pc != Locked
    ensures ClientsSound(clients[id := c], t)
  {
  }

  /** A client's step touches nothing but the clients and the lock. */
  lemma OnlyClientsMove(s: State, t: State)
    requires Inv(s) && t.crew == s.crew && t.ctl == s.ctl && t.main == s.main
    requires t.store.cache == s.store.cache && t.store.log == s.store.log
    requires ClientsSound(t.clients, t.store)
    ensures Inv(t)
  {
  }

  lemma ConnectKeepsInv(s: State, id: nat)
    requires Inv(s)
    ensures Inv(ClientConnect(s, id))
  {
    if id !in s.clients && s.ctl.http {
      ClientOutsideLock(s.clients, s.store, id, Client(Idle, 0, 0, []));
    }
    OnlyClientsMove(s, ClientConnect(s, id));
  }

  lemma LeaveKeepsInv(s: State, id: nat)
    requires Inv(s)
    ensures Inv(ClientLeave(s, id))
  {
    if id in s.clients && s.clients[id].pc == Idle {
      ClientOutsideLock(s.clients, s.store, id, s.clients[id].(pc := Gone));
    }
    OnlyClientsMove(s, ClientLeave(s, id));
  }

  lemma LockKeepsInv(s: State, id: nat)
    requires Inv(s)
    ensures Inv(ClientLock(s, id))
  {
    if id in s.clients && s.clients[id].pc == Idle && s.store.lock == None {
      var c := s.clients[id];
      var to: ClientPc := if !s.ctl.http || s.ctl.mode != Monitor then Gone else Locked;
      ClientReplaced(s.clients, s.store, id, c.(pc := to), if to == Locked then Some(id) else None);
    }
    OnlyClientsMove(s, ClientLock(s, id));
  }

  lemma DecideKeepsInv(s: State, id: nat, ok: bool)
    requires Inv(s)
    ensures Inv(ClientDecide(s, id, ok))
  {
    if id in s.clients && s.clients[id].pc == Locked {
      DecisionIsSound(s.clients[id], s.store, s.ctl.http, ok);
      ClientReplaced(s.clients, s.store, id, AfterDecision(s.clients[id], s.store.cache, s.ctl.http, ok), None);
    }
    OnlyClientsMove(s, ClientDecide(s, id, ok));
  }

  lemma MainKeepsInv(s: State, ok: bool)
    requires Inv(s)
    ensures Inv(MainMoves(s, ok))
  {
    MainKeepsStore(s, ok);
    MainKeepsCrew(s, ok);
    MainKeepsWorkerStarted(s, ok);
    MainKeepsWorkerBehindFrame(s, ok);
    MainKeepsQuiet(s, ok);
    MainKeepsWorkerCamera(s, ok);
    MainKeepsCamera(s, ok);
    MainKeepsRequest(s, ok);
    MainKeepsOpens(s, ok);
  }

  /** A mode request or a signal may change the flags it owns at any moment. */
  lemma OutsiderKeepsInv(s: State, c: Control)
    requires Inv(s) && c.active == s.ctl.active && c.requested == s.ctl.requested
    ensures Inv(s.(ctl := c))
  {
  }

  lemma StepKeepsInv(s: State, e: Event)
    requires Inv(s)
    ensures Inv(Step(s, e))
  {
    match e
    case MainStep(ok) =>
      MainKeepsInv(s, ok);
    case WorkerStep(i, call) =>
      if i < |s.crew.threads| {
        WorkerKeepsInv(s, i, call);
      }
    case ModeRequest(m) =>
      OutsiderKeepsInv(s, s.ctl.(mode := m));
    case Signal =>
      OutsiderKeepsInv(s, s.ctl.(alive := false));
    case ClientConnects(id) => ConnectKeepsInv(s, id);
    case ClientLocks(id) => LockKeepsInv(s, id);
    case ClientDecides(id, ok) => DecideKeepsInv(s, id, ok);
    case ClientLeaves(id) => LeaveKeepsInv(s, id);
  }

  lemma {:induction false} RunKeepsInv(s: State, events: seq<Event>)
    requires Inv(s)
    ensures Inv(Run(s, events))
    decreases |events|
  {
    if events == [] {
    } else {
      RunKeepsInv(s, events[..|events| - 1]);
      StepKeepsInv(Run(s, events[..|events| - 1]), events[|events| - 1]);
    }
  }
}
