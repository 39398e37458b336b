/**
 * The sing-box process protocol as a step system: the main loop, connect and disconnect threads, the ticker and the
 * shutdown sequence, one step per lock-protected section. Starting a process is nondeterministic.
 */
module ProcessProtocol {
  import opened Wrappers
  import opened ProcessSlots

  type Tid = nat

  datatype Phase =
    | Waiting                     // for the coordinator
    | Taking                      // has it, about to take the retired processes
    | Stopping(list: seq<Pid>)    // stopping the taken processes, one by one
    | Checking                    // about to ask whether the attempt is still current
    | Starting                    // inside the start, no process yet
    | Running(pid: Pid)           // inside the start, the process runs but is not ready
    | Failed                      // the start failed, about to ask whether the attempt is still current
    | Sleeping                    // before the next start
    | GivingUp                    // about to report the failure
    | Started(pid: Pid)           // the start returned a process
    | Stale(pid: Pid)             // superseded meanwhile, about to stop the process
    | Installed(pid: Pid)         // the process is in the slot, about to report it
    | Done

  /** A connect thread has an attempt; a disconnect thread has none. */
  datatype Thread = Thread(attempt: Option<nat>, phase: Phase)

  datatype Request = NoRequest | ConnectRequest | DisconnectRequest | QuitRequest

  datatype Main =
    | Idle
    | Pending(request: Request, attempt: nat)
    | Leaving
    | Locking
    | Retiring
    | TakingAll
    | StoppingAll(list: seq<Pid>)
    | Exited
    | Released

  datatype Holder = Nobody | ByThread(tid: Tid) | ByMain

  datatype Message = Connected(attempt: nat, pid: Pid) | ConnectFailed(attempt: nat) | SingBoxExited(attempt: nat)

  /**
   * `live` are the running processes. The last three fields are history: the attempts given to connect threads, the
   * attempt that started each process, and the process each attempt put into the slot.
   */
  datatype State = State(
    slot: Slot,
    modelId: nat,
    main: Main,
    threads: map<Tid, Thread>,
    coordinator: Holder,
    live: set<Pid>,
    sent: seq<Message>,
    used: set<nat>,
    startedBy: map<Pid, nat>,
    installed: map<nat, Pid>)

  function Init(attempt: nat): State {
    State(Slot(attempt, None, []), attempt, Idle, map[], Nobody, {}, [], {}, map[], map[])
  }

  datatype Action =
    // the main loop
    | Handle(newId: nat, request: Request)
    | Bump(newId: nat)
    | DoConnect(tid: Tid)
    | DoDisconnect(tid: Tid)
    | DoQuit
    | Leave
    | Invalidate
    | LockForExit
    | RetireForExit
    | TakeForExit
    | StopForExit
    | FinishExit
    | ReleaseForExit
    // a thread
    | Acquire(tid: Tid)
    | Take(tid: Tid)
    | StopOne(tid: Tid)
    | StoppedAll(tid: Tid)
    | Check(tid: Tid)
    | Spawn(tid: Tid, pid: Pid)
    | SpawnFails(tid: Tid, again: bool)
    | Ready(tid: Tid)
    | Retry(tid: Tid, wanted: bool)
    | Wake(tid: Tid, cancelled: bool)
    | Report(tid: Tid)
    | Put(tid: Tid)
    | StopStale(tid: Tid)
    | Send(tid: Tid)
    // the world
    | Die(pid: Pid)
    | Poll

  function Move(s: State, tid: Tid, phase: Phase): State
    requires tid in s.threads
  {
    s.(threads := s.threads[tid := s.threads[tid].(phase := phase)])
  }

  /** The thread ends and lets go of the coordinator. */
  function Finish(s: State, tid: Tid): State
    requires tid in s.threads
  {
    Move(s, tid, Done).(coordinator := Nobody)
  }

  function MainStep(s: State, a: Action): Option<State> {
    match a
    case Handle(newId, request) =>
      // `update` never lowers the attempt id, and a connect request carries an id no earlier one had
      if s.main.Idle? && newId >= s.modelId && (request.ConnectRequest? ==> newId !in s.used) then
        Some(s.(modelId := newId, slot := s.slot.(attemptId := newId),
                main := if request.NoRequest? then Idle else Pending(request, newId)))
      else None
    case Bump(newId) =>
      if (s.main.Idle? || s.main.Pending?) && newId >= s.modelId then Some(s.(modelId := newId)) else None
    case DoConnect(tid) =>
      if s.main.Pending? && s.main.request.ConnectRequest? && tid !in s.threads then
        Some(s.(slot := Supersede(s.slot, s.main.attempt), main := Idle,
                threads := s.threads[tid := Thread(Some(s.main.attempt), Waiting)],
                used := s.used + {s.main.attempt}))
      else None
    case DoDisconnect(tid) =>
      if s.main.Pending? && s.main.request.DisconnectRequest? && tid !in s.threads then
        Some(s.(modelId := s.modelId + 1, slot := Supersede(s.slot, s.modelId + 1), main := Idle,
                threads := if s.slot.handle.Some? then s.threads[tid := Thread(None, Waiting)] else s.threads))
      else None
    case DoQuit =>
      if s.main.Pending? && s.main.request.QuitRequest? then
        Some(s.(modelId := s.modelId + 1, slot := s.slot.(attemptId := s.modelId + 1), main := Leaving))
      else None
    case Leave =>
      if s.main.Idle? then Some(s.(main := Leaving)) else None
    case Invalidate =>
      if s.main.Leaving? then Some(s.(slot := s.slot.(attemptId := s.slot.attemptId + 1), main := Locking)) else None
    case LockForExit =>
      if s.main.Locking? && s.coordinator.Nobody? then Some(s.(coordinator := ByMain, main := Retiring)) else None
    case RetireForExit =>
      if s.main.Retiring? then Some(s.(slot := Retire(s.slot), main := TakingAll)) else None
    case TakeForExit =>
      if s.main.TakingAll? then Some(s.(slot := s.slot.(retired := []), main := StoppingAll(s.slot.retired))) else None
    case StopForExit =>
      if s.main.StoppingAll? && s.main.list != [] then
        Some(s.(live := s.live - {s.main.list[0]}, main := StoppingAll(s.main.list[1..])))
      else None
    case FinishExit =>
      if s.main == StoppingAll([]) then Some(s.(main := Exited)) else None
    case ReleaseForExit =>
      if s.main.Exited? then Some(s.(coordinator := Nobody, main := Released)) else None
    case _ => None
  }

  function ThreadStep(s: State, tid: Tid, a: Action): Option<State>
    requires tid in s.threads
  {
    var thread := s.threads[tid];
    var phase := thread.phase;
    match a
    case Acquire(_) =>
      if phase.Waiting? && s.coordinator.Nobody? then Some(Move(s, tid, Taking).(coordinator := ByThread(tid))) else None
    case Take(_) =>
      if phase.Taking? then Some(Move(s, tid, Stopping(s.slot.retired)).(slot := s.slot.(retired := []))) else None
    case StopOne(_) =>
      if phase.Stopping? && phase.list != [] then
        Some(Move(s, tid, Stopping(phase.list[1..])).(live := s.live - {phase.list[0]}))
      else None
    case StoppedAll(_) =>
      if phase != Stopping([]) then None
      else if thread.attempt.Some? then Some(Move(s, tid, Checking)) else Some(Finish(s, tid))
    case _ => if thread.attempt.Some? then ConnectStep(s, tid, thread.attempt.value, a) else None
  }

  function ConnectStep(s: State, tid: Tid, attempt: nat, a: Action): Option<State>
    requires tid in s.threads
  {
    var phase := s.threads[tid].phase;
    var current := s.slot.attemptId == attempt;
    match a
    case Check(_) =>
      if !phase.Checking? then None
      else if current then Some(Move(s, tid, Starting)) else Some(Finish(s, tid))
    case Spawn(_, pid) =>
      if phase.Starting? && pid !in s.startedBy then
        Some(Move(s, tid, Running(pid)).(live := s.live + {pid}, startedBy := s.startedBy[pid := attempt]))
      else None
    case SpawnFails(_, again) =>
      // a failed start leaves no process; a taken port is tried again inside the same start
      if phase.Starting? then Some(Move(s, tid, if again then Starting else Failed))
      else if phase.Running? then
        Some(Move(s, tid, if again then Starting else Failed).(live := s.live - {phase.pid}))
      else None
    case Ready(_) =>
      if phase.Running? then Some(Move(s, tid, Started(phase.pid))) else None
    case Retry(_, wanted) =>
      if phase.Failed? then Some(Move(s, tid, if current && wanted then Sleeping else GivingUp)) else None
    case Wake(_, cancelled) =>
      if !phase.Sleeping? then None
      else if !cancelled then Some(Move(s, tid, Starting))
      else if !current then Some(Move(s, tid, GivingUp)) else None
    case Report(_) =>
      if !phase.GivingUp? then None
      else if current then Some(Finish(s, tid).(sent := s.sent + [ConnectFailed(attempt)])) else Some(Finish(s, tid))
    case Put(_) =>
      if !phase.Started? then None
      else if current then
        Some(Move(s, tid, Installed(phase.pid)).(slot := Install(s.slot, attempt, phase.pid),
                                                 installed := s.installed[attempt := phase.pid]))
      else Some(Move(s, tid, Stale(phase.pid)))
    case StopStale(_) =>
      if phase.Stale? then Some(Finish(s, tid).(live := s.live - {phase.pid})) else None
    case Send(_) =>
      if phase.Installed? then Some(Finish(s, tid).(sent := s.sent + [Connected(attempt, phase.pid)])) else None
    case _ => None
  }

  function ActionTid(a: Action): Option<Tid> {
    match a
    case Acquire(tid) => Some(tid)
    case Take(tid) => Some(tid)
    case StopOne(tid) => Some(tid)
    case StoppedAll(tid) => Some(tid)
    case Check(tid) => Some(tid)
    case Spawn(tid, _) => Some(tid)
    case SpawnFails(tid, _) => Some(tid)
    case Ready(tid) => Some(tid)
    case Retry(tid, _) => Some(tid)
    case Wake(tid, _) => Some(tid)
    case Report(tid) => Some(tid)
    case Put(tid) => Some(tid)
    case StopStale(tid) => Some(tid)
    case Send(tid) => Some(tid)
    case _ => None
  }

  /** The state after one step, or nothing when the step is not enabled. */
  function Next(s: State, a: Action): Option<State> {
    match ActionTid(a)
    case Some(tid) => if tid in s.threads then ThreadStep(s, tid, a) else None
    case None =>
      match a
      case Die(pid) => Some(s.(live := s.live - {pid}))
      case Poll =>
        if s.slot.handle.Some? && s.slot.handle.value !in s.live then
          Some(s.(slot := s.slot.(handle := None), sent := s.sent + [SingBoxExited(s.slot.attemptId)]))
        else None
      case _ => MainStep(s, a)
  }

  /** The state a run reaches; nothing when a step of it is not enabled. */
  function Run(s: State, actions: seq<Action>): Option<State>
    decreases |actions|
  {
    if actions == [] then Some(s)
    else
      var next := Next(s, actions[0]);
      if next.Some? then Run(next.value, actions[1..]) else None
  }
}
