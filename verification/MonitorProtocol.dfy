/** The daemon's threads as one transition system: the main loop with its mode switch, the camera
    worker, and any number of stream clients (main.c, http_server.c).

    A step is one critical section or one access to a shared variable of one thread. An event says
    which thread moves and how the call it makes turns out; an event that thread cannot take in
    the current state leaves the state as it is, so a run is any sequence of events at all. */
module MonitorProtocol {
  import opened Common
  import opened MjpegCache

  /** What the main thread's camera context holds. `Broken` is a context whose camera_init failed. */
  datatype Camera = Closed | Broken | Opened(mode: Mode) | Streaming(mode: Mode)

  datatype WorkerPc =
    | Starting            // tjInitCompress and the two allocations
    | LoopHead            // while (!worker->stop)
    | Dequeuing
    | Encoding            // reading the mapped planes of the dequeued buffer
    | Publishing(jpeg: Frame)
    | Requeueing
    | Clearing            // http_server_clear_mjpeg after the loop
    | StoringStopped      // worker->running = 0
    | Finished

  predicate Live(pc: WorkerPc) {
    pc != Finished
  }

  predicate UsesCamera(pc: WorkerPc) {
    pc.Starting? || pc.LoopHead? || pc.Dequeuing? || pc.Encoding? || pc.Publishing? || pc.Requeueing?
  }

  /** Why the main thread is opening a camera. */
  datatype Purpose = Startup | Switch | Rollback

  datatype MainPc =
    | Opening(why: Purpose, failures: nat)          // camera_init
    | StartingStream(why: Purpose, failures: nat)   // camera_start
    | ClearingBeforeStart(why: Purpose)
    | CheckingRunning(why: Purpose)                 // start_monitor_worker
    | SettingRunning(why: Purpose)
    | Creating(why: Purpose)
    | RollbackDeinit
    | WritingBack                                   // app_state_set_mode(&app, active_mode)
    | Committing                                    // active_mode = requested_mode
    | LoopTest                                      // while (g_running)
    | ReadingMode
    | Serving                                       // the loop body when no switch is due
    | Capturing                                     // handle_trigger
    | StopCheck(final: bool)                        // stop_monitor_worker
    | SettingStop(final: bool)
    | Joining(final: bool)
    | Resetting(final: bool)
    | ClearingAfterStop(final: bool)
    | SwitchDeinit
    | FinalTest
    | FinalDeinit
    | HttpStop
    | Ended

  datatype ClientPc = Idle | Locked | Gone

  datatype Delivery = Delivery(seqno: nat, frame: Frame)

  datatype Client = Client(pc: ClientPc, lastSeq: nat, localCap: nat, got: seq<Delivery>)

  /** One entry per sequence number the cache ever had. */
  datatype CacheEvent = WasPublished(jpeg: Frame) | WasCleared

  /** The cache with its mutex, and the log of everything ever stored in it. */
  datatype Store = Store(cache: Cache, log: seq<CacheEvent>, lock: Option<nat>)

  /** g_monitor, and every worker thread ever created. */
  datatype Crew = Crew(running: bool, stop: bool, tid: nat, threads: seq<WorkerPc>)

  /** The application mode, the two modes main keeps, and the two shutdown flags. */
  datatype Control = Control(mode: Mode, active: Mode, requested: Mode, alive: bool, http: bool)

  /** The main thread: where it is, its camera context, camera opens since the last switch began. */
  datatype MainThread = MainThread(pc: MainPc, camera: Camera, opens: nat)

  datatype State = State(store: Store, crew: Crew, ctl: Control, main: MainThread, clients: map<nat, Client>)

  datatype WorkerCall = CallOk(jpeg: Frame, reallocOk: bool) | CallTimeout | CallFails

  datatype Event =
    | MainStep(ok: bool)                      // outcome of the call made, where there is one
    | WorkerStep(thread: nat, call: WorkerCall)
    | ClientConnects(id: nat)
    | ClientLocks(id: nat)                    // takes the cache lock and reads the mode
    | ClientDecides(id: nat, reallocOk: bool) // rest of that pass; releases the lock
    | ClientLeaves(id: nat)                   // a send failed
    | ModeRequest(m: Mode)                    // POST /api/mode
    | Signal                                  // SIGINT or SIGTERM

  function Init(start: Mode): State {
    State(Store(EMPTY_CACHE, [], None),
          Crew(false, false, 0, []),
          Control(start, start, start, true, true),
          MainThread(Opening(Startup, 0), Closed, 0),
          map[])
  }

  // ---------------------------------------------------------------- the main thread

  function Target(c: Control, why: Purpose): Mode {
    if why == Switch then c.requested else c.active
  }

  function AttemptLimit(why: Purpose): nat {
    if why == Startup then 1 else 3
  }

  /** Where camera_reopen_with_retry goes after a failed attempt. */
  function AfterFailedOpen(why: Purpose, failures: nat): MainPc {
    if failures + 1 < AttemptLimit(why) then Opening(why, failures + 1)
    else match why
      case Startup => HttpStop
      case Switch => RollbackDeinit
      case Rollback => FinalTest
  }

  /** The camera streams and, for MONITOR, the worker is started. */
  function AfterOpen(why: Purpose): MainPc {
    match why
    case Startup => LoopTest
    case Switch => Committing
    case Rollback => WritingBack
  }

  function AfterStream(why: Purpose, target: Mode): MainPc {
    if target == Trigger then AfterOpen(why)
    else if why == Startup then CheckingRunning(why)
    else ClearingBeforeStart(why)
  }

  function AfterFailedStart(m: MainThread, why: Purpose): MainThread {
    match why
    case Startup => m.(camera := Closed, pc := HttpStop)
    case Switch => m.(pc := RollbackDeinit)
    case Rollback => m.(pc := FinalTest)
  }

  /** Can the main thread move at all? It blocks on the cache lock and in pthread_join. */
  predicate MainBlocked(s: State) {
    match s.main.pc
    case ClearingBeforeStart(_) => s.store.lock != None
    case ClearingAfterStop(_) => s.store.lock != None
    case Joining(_) => !(s.crew.tid < |s.crew.threads| && !Live(s.crew.threads[s.crew.tid]))
    case Ended => true
    case _ => false
  }

  function MainNext(s: State, ok: bool): MainThread {
    var m := s.main;
    match m.pc
    case Opening(why, k) =>
      if ok then MainThread(StartingStream(why, k), Opened(Target(s.ctl, why)), m.opens + 1)
      else MainThread(AfterFailedOpen(why, k), Broken, m.opens + 1)
    case StartingStream(why, k) =>
      if ok then m.(pc := AfterStream(why, Target(s.ctl, why)), camera := Streaming(Target(s.ctl, why)))
      else m.(pc := AfterFailedOpen(why, k), camera := Closed)
    case ClearingBeforeStart(why) => m.(pc := CheckingRunning(why))
    case CheckingRunning(why) => m.(pc := if s.crew.running then AfterOpen(why) else SettingRunning(why))
    case SettingRunning(why) => m.(pc := Creating(why))
    case Creating(why) => if ok then m.(pc := AfterOpen(why)) else AfterFailedStart(m, why)
    case RollbackDeinit => m.(pc := Opening(Rollback, 0), camera := Closed)
    case WritingBack => m.(pc := LoopTest)
    case Committing => m.(pc := LoopTest)
    case LoopTest => m.(pc := if s.ctl.alive then ReadingMode else FinalTest)
    case ReadingMode =>
      if s.ctl.mode == s.ctl.active then m.(pc := Serving)
      else m.(opens := 0, pc := if s.ctl.active == Monitor then StopCheck(false) else SwitchDeinit)
    case Serving => m.(pc := if s.ctl.active == Trigger && ok then Capturing else LoopTest)
    case Capturing => m.(pc := if ok then Capturing else LoopTest)
    case StopCheck(final) => m.(pc := if s.crew.running then SettingStop(final) else ClearingAfterStop(final))
    case SettingStop(final) => m.(pc := Joining(final))
    case Joining(final) => m.(pc := Resetting(final))
    case Resetting(final) => m.(pc := ClearingAfterStop(final))
    case ClearingAfterStop(final) => m.(pc := if final then FinalDeinit else SwitchDeinit)
    case SwitchDeinit => m.(pc := Opening(Switch, 0), camera := Closed)
    case FinalTest => m.(pc := if s.ctl.active == Monitor then StopCheck(true) else FinalDeinit)
    case FinalDeinit => m.(pc := HttpStop, camera := Closed)
    case HttpStop => m.(pc := Ended)
    case Ended => m
  }

  function ControlNext(pc: MainPc, c: Control): Control {
    match pc
    case WritingBack => c.(mode := c.active)
    case Committing => c.(active := c.requested)
    case ReadingMode => c.(requested := c.mode)
    case HttpStop => c.(http := false)
    case _ => c
  }

  function CrewNext(pc: MainPc, w: Crew, ok: bool): Crew {
    match pc
    case SettingRunning(_) => w.(running := true, stop := false, tid := 0)
    case Creating(_) => if ok then w.(tid := |w.threads|, threads := w.threads + [Starting]) else w.(running := false)
    case SettingStop(_) => w.(stop := true)
    case Resetting(_) => w.(running := false, stop := false, tid := 0)
    case _ => w
  }

  function ClearStore(t: Store): Store {
    t.(cache := Cleared(t.cache), log := t.log + [WasCleared])
  }

  function MainMoves(s: State, ok: bool): State {
    if MainBlocked(s) then s else
      var pc := s.main.pc;
      State(if pc.ClearingBeforeStart? || pc.ClearingAfterStop? then ClearStore(s.store) else s.store,
            CrewNext(pc, s.crew, ok), ControlNext(pc, s.ctl), MainNext(s, ok), s.clients)
  }

  // ---------------------------------------------------------------- the worker

  function WorkerNext(pc: WorkerPc, call: WorkerCall, stop: bool): WorkerPc {
    match pc
    case Starting => if call.CallOk? then LoopHead else StoringStopped
    case LoopHead => if stop then Clearing else Dequeuing
    case Dequeuing => (match call case CallOk(_, _) => Encoding case CallTimeout => LoopHead case CallFails => Clearing)
    case Encoding => if call.CallOk? then Publishing(call.jpeg) else Requeueing
    case Publishing(_) => Requeueing
    case Requeueing => if call.CallOk? then LoopHead else Clearing
    case Clearing => StoringStopped
    case StoringStopped => Finished
    case Finished => Finished
  }

  function PublishFrame(t: Store, jpeg: Frame, reallocOk: bool): Store {
    if Stores(t.cache, jpeg, reallocOk)
    then t.(cache := Published(t.cache, jpeg, reallocOk), log := t.log + [WasPublished(jpeg)])
    else t
  }

  function StoreAfterWorker(pc: WorkerPc, call: WorkerCall, t: Store): Store {
    match pc
    case Publishing(jpeg) => PublishFrame(t, jpeg, call.CallOk? && call.reallocOk)
    case Clearing => ClearStore(t)
    case _ => t
  }

  predicate WorkerBlocked(s: State, i: nat)
    requires i < |s.crew.threads|
  {
    var pc := s.crew.threads[i];
    !Live(pc) || ((pc.Publishing? || pc.Clearing?) && s.store.lock != None)
  }

  function WorkerMoves(s: State, i: nat, call: WorkerCall): State
    requires i < |s.crew.threads|
  {
    if WorkerBlocked(s, i) then s else
      var pc := s.crew.threads[i];
      s.(store := StoreAfterWorker(pc, call, s.store),
         crew := s.crew.(threads := s.crew.threads[i := WorkerNext(pc, call, s.crew.stop)],
                         running := s.crew.running && !pc.StoringStopped?))
  }

  // ---------------------------------------------------------------- the stream clients

  function WithClient(s: State, id: nat, c: Client, lock: Option<nat>): State {
    s.(store := s.store.(lock := lock), clients := s.clients[id := c])
  }

  function AfterDecision(c: Client, cache: Cache, http: bool, reallocOk: bool): Client {
    match Attempt(cache, c.lastSeq, c.localCap, Monitor, http, reallocOk)
    case Wait => c.(pc := Idle)
    case Copied =>
      Client(Idle, cache.seqno, if c.localCap < |cache.bytes| then |cache.bytes| else c.localCap,
             c.got + [Delivery(cache.seqno, cache.bytes)])
    case _ => c.(pc := Gone)
  }

  function ClientConnect(s: State, id: nat): State {
    if id in s.clients || !s.ctl.http then s else s.(clients := s.clients[id := Client(Idle, 0, 0, [])])
  }

  function ClientLock(s: State, id: nat): State {
    if id !in s.clients || s.clients[id].pc != Idle || s.store.lock != None then s
    else if !s.ctl.http || s.ctl.mode != Monitor then WithClient(s, id, s.clients[id].(pc := Gone), None)
    else WithClient(s, id, s.clients[id].(pc := Locked), Some(id))
  }

  function ClientDecide(s: State, id: nat, reallocOk: bool): State {
    if id !in s.clients || s.clients[id].pc != Locked then s
    else WithClient(s, id, AfterDecision(s.clients[id], s.store.cache, s.ctl.http, reallocOk), None)
  }

  function ClientLeave(s: State, id: nat): State {
    if id in s.clients && s.clients[id].pc == Idle
    then s.(clients := s.clients[id := s.clients[id].(pc := Gone)]) else s
  }

  function Step(s: State, e: Event): State {
    match e
    case MainStep(ok) => MainMoves(s, ok)
    case WorkerStep(i, call) => if i < |s.crew.threads| then WorkerMoves(s, i, call) else s
    case ClientConnects(id) => ClientConnect(s, id)
    case ClientLocks(id) => ClientLock(s, id)
    case ClientDecides(id, ok) => ClientDecide(s, id, ok)
    case ClientLeaves(id) => ClientLeave(s, id)
    case ModeRequest(m) => s.(ctl := s.ctl.(mode := m))
    case Signal => s.(ctl := s.ctl.(alive := false))
  }

  function Run(s: State, events: seq<Event>): State
    decreases |events|
  {
    if events == [] then s else Step(Run(s, events[..|events| - 1]), events[|events| - 1])
  }
}
