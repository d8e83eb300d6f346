/**
 Threads, the scheduler, the kernel mutexes and the system call protocol as one state
 machine.

 A step is what runs between two points at which an interrupt can be taken: a handler, or
 the code under a MaskedInterruptGuard.  A thread is a number; destroyed threads keep
 theirs.  `Holders` counts the RefPtr objects that point to a thread.

 `called`, `taken`, `workers`, `returned`, `asked` and `granted` record history; no step
 reads them.
 */
module KernelState {
  import opened Wrappers

  type Tid = nat

  // The threads that exist before the scheduler runs
  const DUMMY: Tid := 0
  const DEFAULT: Tid := 1
  const FALLBACK: Tid := 2
  const SYSTEM: Tid := 3   // SystemHandler::m_thread
  const STARTUP: Tid := 4

  const CAPACITY: nat := 16   // of every CircularQueue of threads
  const DBGLN: nat := 0       // dbgln_mutex, which no code locks
  const SC_EXIT: int := 10

  datatype Kind = Ordinary | Worker | SystemHandler | Default | Fallback

  // What a thread does next
  datatype Phase =
    | Running                                        // its own code, or the top of its loop
    | InCall | Exited                                // a caller whose call has not returned
    | Take | Build | Add                             // SystemHandler: a call is waiting
    | Call | Unmask | Requeue | ExitCheck | Finished // a worker
    | Check | Drop                                   // the default thread: a thread to destroy
    | Dead                                           // called die

  datatype Thread = Thread(
    kind: Kind,
    alive: bool,
    masked: bool,            // m_masked_from_scheduler
    stash: Option<nat>,      // m_stashed_context
    phase: Phase,
    hold: Option<Tid>,       // a RefPtr<Thread> local to its program
    context: nat,            // a worker's reference into the stack of its caller
    caller: Tid,
    result: int,             // of a worker's system call
    entered: set<nat>)       // mutexes it locked and did not unlock, parked or not

  // A register context on the stack of its owner
  datatype Frame = Frame(owner: Tid, r0: int)

  datatype Mutex = Mutex(holder: Option<Tid>, waiting: seq<Tid>, asked: seq<Tid>, granted: seq<Tid>)

  datatype Return = Return(caller: Tid, worker: Tid, result: int)

  datatype State = State(
    threads: seq<Thread>,
    active: Option<Tid>,
    queued: seq<Tid>,
    dangling: seq<Tid>,
    waiting: seq<Tid>,       // SystemHandler::m_waiting_threads
    mutexes: seq<Mutex>,
    frames: seq<Frame>,
    r0: int,
    called: seq<Tid>,
    taken: seq<Tid>,
    workers: seq<Tid>,
    returned: seq<Return>)

  // ------------------------------------------------------------ RefPtr objects

  function Count(q: seq<Tid>, t: Tid): nat {
    multiset(q)[t]
  }

  function One(p: Option<Tid>, t: Tid): nat {
    if p == Some(t) then 1 else 0
  }

  function Parked(ms: seq<Mutex>, t: Tid): nat {
    if ms == [] then 0 else Count(ms[0].waiting, t) + Parked(ms[1..], t)
  }

  function Owned(ms: seq<Mutex>, t: Tid): nat {
    if ms == [] then 0 else One(ms[0].holder, t) + Owned(ms[1..], t)
  }

  function Held(ts: seq<Thread>, t: Tid): nat {
    if ts == [] then 0 else One(ts[0].hold, t) + Held(ts[1..], t)
  }

  // m_default_thread, m_fallback_thread, SystemHandler::m_thread and a local of Scheduler::loop
  function Permanent(t: Tid): nat {
    if t == DUMMY || t == DEFAULT || t == FALLBACK || t == SYSTEM then 1 else 0
  }

  // How often a thread is in each kind of place.  Its holder is not placed by a mutex.
  datatype Spots = Spots(active: nat, queued: nat, dangling: nat, waiting: nat, parked: nat, held: nat) {
    function Total(): nat { active + queued + dangling + waiting + parked + held }
  }

  function At(s: State, t: Tid): Spots {
    Spots(One(s.active, t), Count(s.queued, t), Count(s.dangling, t), Count(s.waiting, t),
          Parked(s.mutexes, t), Held(s.threads, t))
  }

  /** How many RefPtr objects point to thread t */
  function Holders(s: State, t: Tid): nat {
    At(s, t).Total() + Owned(s.mutexes, t) + Permanent(t)
  }

  // ----------------------------------------------------------------- schedule

  ghost function SetThread(s: State, t: Tid, th: Thread): State
    requires t < |s.threads|
  {
    s.(threads := s.threads[t := th])
  }

  ghost predicate HasActive(s: State) {
    s.active.Some? && s.active.value < |s.threads|
  }

  // stash_context on the active thread
  ghost function StashActive(s: State): State
    requires HasActive(s)
  {
    var t := s.active.value;
    s.(frames := s.frames + [Frame(t, s.r0)],
       threads := s.threads[t := s.threads[t].(stash := Some(|s.frames|))])
  }

  // The first half of schedule: the active thread goes where it belongs.
  ghost function ParkActive(s: State): State
    requires HasActive(s)
  {
    var t := s.active.value;
    var th, out := s.threads[t], s.(active := None);
    if th.masked then
      if Holders(s, t) >= 2 then out else out.(dangling := s.dangling + [t])
    else if th.kind.Default? || th.kind.Fallback? then out
    else out.(queued := s.queued + [t])
  }

  ghost function ChooseDefault(s: State): Tid
    requires DEFAULT < |s.threads|
  {
    if s.threads[DEFAULT].masked then FALLBACK else DEFAULT
  }

  ghost predicate FromQueue(s: State) {
    |s.dangling| == 0 && |s.queued| > 0
  }

  ghost function Next(s: State): Tid
    requires DEFAULT < |s.threads|
  {
    if FromQueue(s) then s.queued[0] else ChooseDefault(s)
  }

  ghost predicate CanDispatch(s: State) {
    && DEFAULT < |s.threads| && Next(s) < |s.threads|
    && s.threads[Next(s)].stash.Some? && s.threads[Next(s)].stash.value < |s.frames|
  }

  // The second half of schedule
  ghost function Choose(s: State): State
    requires DEFAULT < |s.threads|
  {
    s.(active := Some(Next(s)), queued := if FromQueue(s) then s.queued[1..] else s.queued)
  }

  // unstash_context, and the return from the handler
  ghost function Unstash(s: State): State
    requires HasActive(s) && s.threads[s.active.value].stash.Some?
    requires s.threads[s.active.value].stash.value < |s.frames|
  {
    var n := s.active.value;
    s.(r0 := s.frames[s.threads[n].stash.value].r0, threads := s.threads[n := s.threads[n].(stash := None)])
  }

  ghost function Dispatch(s: State): State
    requires CanDispatch(s)
  {
    Unstash(Choose(s))
  }

  ghost function Wakeup(s: State, t: Tid): State
    requires t < |s.threads|
  {
    if s.threads[t].masked then SetThread(s, t, s.threads[t].(masked := false)).(queued := s.queued + [t]) else s
  }

  // -------------------------------------------------------------------- steps

  datatype Event =
    | Compute(value: int)     // an instruction of the active thread
    | Tick                    // PendSV, from SysTick or Scheduler::trigger
    | Svc
    | Lock(mutex: nat) | Unlock(mutex: nat)
    | Die | Spawn
    | Poll | TakeCall | BuildWorker | AddWorker
    | RunCall(result: int) | UnmaskCaller | RequeueCaller | LeaveExited
    | TakeDangling | CheckLog | DropThread

  // The active thread is where its program does this.
  ghost predicate Enabled(s: State, e: Event) {
    && HasActive(s)
    && var th := s.threads[s.active.value];
       match e
       case Compute(_) => true
       case Tick => true
       case Svc => th.kind.Ordinary? && th.phase.Running?
       case Lock(m) => m < |s.mutexes| && m != DBGLN && !th.kind.Fallback? && !th.phase.Dead?
       case Unlock(m) => m < |s.mutexes| && m in th.entered && !th.kind.Fallback? && !th.phase.Dead?
       case Die => (th.kind.Ordinary? && th.phase.Running?) || (th.kind.Worker? && th.phase.Finished?)
       case Spawn => (th.kind.Ordinary? && th.phase.Running?) || (th.kind.Worker? && th.phase.Call?)
       case Poll => th.kind.SystemHandler? && th.phase.Running?
       case TakeCall => th.kind.SystemHandler? && th.phase.Take?
       case BuildWorker => th.kind.SystemHandler? && th.phase.Build?
       case AddWorker => th.kind.SystemHandler? && th.phase.Add?
       case RunCall(_) => th.kind.Worker? && th.phase.Call?
       case UnmaskCaller => th.kind.Worker? && th.phase.Unmask?
       case RequeueCaller => th.kind.Worker? && th.phase.Requeue?
       case LeaveExited => th.kind.Worker? && th.phase.ExitCheck?
       case TakeDangling => th.kind.Default? && th.phase.Running? && |s.dangling| > 0
       case CheckLog => th.kind.Default? && th.phase.Check?
       case DropThread => th.kind.Default? && th.phase.Drop?
  }

  // The parts of a step that come before the scheduler is entered

  ghost function Preempt(s: State): State
    requires HasActive(s)
  {
    ParkActive(StashActive(s))
  }

  // syscall and notify_worker_thread, up to the wakeup of the SystemHandler thread
  ghost function BlockCall(s: State): State
    requires HasActive(s)
  {
    var t := s.active.value;
    var stashed := StashActive(s);
    SetThread(stashed, t, stashed.threads[t].(masked := true, phase := InCall))
      .(active := None, waiting := s.waiting + [t], called := s.called + [t])
  }

  ghost function LockFree(s: State, m: nat): State
    requires HasActive(s) && m < |s.mutexes|
  {
    var t, mx := s.active.value, s.mutexes[m];
    SetThread(s, t, s.threads[t].(entered := s.threads[t].entered + {m}))
      .(mutexes := s.mutexes[m := Mutex(Some(t), mx.waiting, mx.asked + [t], mx.granted + [t])])
  }

  ghost function LockHeld(s: State, m: nat): State
    requires HasActive(s) && m < |s.mutexes|
  {
    var t, mx := s.active.value, s.mutexes[m];
    SetThread(s, t, s.threads[t].(masked := true, entered := s.threads[t].entered + {m}))
      .(mutexes := s.mutexes[m := mx.(waiting := mx.waiting + [t], asked := mx.asked + [t])])
  }

  // unlock up to m_holding_thread.clear(), which destroys a thread that nothing else refers to
  ghost function Leave(s: State, m: nat): State
    requires HasActive(s) && m < |s.mutexes|
  {
    SetThread(s, s.active.value, s.threads[s.active.value].(entered := s.threads[s.active.value].entered - {m}))
  }

  ghost function Unref(s: State, before: Option<Tid>): State {
    if before.Some? && before.value < |s.threads| && Holders(s, before.value) == 0 then
      SetThread(s, before.value, s.threads[before.value].(alive := false))
    else s
  }

  ghost function Release(s: State, m: nat): State
    requires m < |s.mutexes|
  {
    Unref(s.(mutexes := s.mutexes[m := s.mutexes[m].(holder := None)]), s.mutexes[m].holder)
  }

  // The thread that has waited longest becomes the holder.
  ghost function Grant(s: State, m: nat): State
    requires m < |s.mutexes| && |s.mutexes[m].waiting| > 0
  {
    var mx := s.mutexes[m];
    s.(mutexes := s.mutexes[m :=
      Mutex(Some(mx.waiting[0]), mx.waiting[1..], mx.asked, mx.granted + [mx.waiting[0]])])
  }

  ghost function Sleep(s: State): State
    requires HasActive(s)
  {
    SetThread(s, s.active.value, s.threads[s.active.value].(masked := true))
  }

  function NewThread(kind: Kind, phase: Phase, stash: nat, hold: Option<Tid>, context: nat, caller: Tid): Thread {
    Thread(kind, true, false, Some(stash), phase, hold, context, caller, 0, {})
  }

  ghost function SpawnThread(s: State): State {
    var n := |s.threads|;
    s.(threads := s.threads + [NewThread(Ordinary, Running, |s.frames|, None, 0, n)],
       frames := s.frames + [Frame(n, 0)],
       queued := s.queued + [n])
  }

  ghost function Take1(s: State): State
    requires HasActive(s) && |s.waiting| > 0
  {
    var c := s.waiting[0];
    SetThread(s, s.active.value, s.threads[s.active.value].(phase := Build, hold := Some(c)))
      .(waiting := s.waiting[1..], taken := s.taken + [c])
  }

  // The caller's context is not consumed: the worker keeps a reference to it.
  ghost function Build1(s: State): State
    requires HasActive(s) && s.threads[s.active.value].hold.Some?
    requires var c := s.threads[s.active.value].hold.value; c < |s.threads| && s.threads[c].stash.Some?
  {
    var t, n := s.active.value, |s.threads|;
    var c := s.threads[t].hold.value;
    var worker := NewThread(Worker, Call, |s.frames|, Some(c), s.threads[c].stash.value, c);
    s.(threads := s.threads[t := s.threads[t].(phase := Add, hold := Some(n))] + [worker],
       frames := s.frames + [Frame(n, 0)],
       workers := s.workers + [n])
  }

  ghost function Add1(s: State): State
    requires HasActive(s) && s.threads[s.active.value].hold.Some?
  {
    var t := s.active.value;
    SetThread(s, t, s.threads[t].(phase := Running, hold := None))
      .(queued := s.queued + [s.threads[t].hold.value])
  }

  ghost function Run1(s: State, result: int): State
    requires HasActive(s) && s.threads[s.active.value].context < |s.frames|
  {
    var t := s.active.value;
    var ctx := s.threads[t].context;
    var exit := s.frames[ctx].r0 == SC_EXIT;
    SetThread(s, t, s.threads[t].(result := result, phase := if exit then ExitCheck else Unmask))
      .(frames := s.frames[ctx := s.frames[ctx].(r0 := result)])
  }

  ghost predicate HoldsOther(s: State) {
    && HasActive(s)
    && var t := s.active.value;
       s.threads[t].hold.Some? && s.threads[t].hold.value < |s.threads| && s.threads[t].hold.value != t
  }

  ghost function Unmask1(s: State): State
    requires HoldsOther(s)
  {
    var t := s.active.value;
    var c := s.threads[t].hold.value;
    SetThread(SetThread(s, c, s.threads[c].(masked := false)), t, s.threads[t].(phase := Requeue))
  }

  ghost function Requeue1(s: State): State
    requires HoldsOther(s)
  {
    var t := s.active.value;
    var c := s.threads[t].hold.value;
    SetThread(SetThread(s, c, s.threads[c].(phase := Running)), t, s.threads[t].(phase := Finished, hold := None))
      .(queued := s.queued + [c], returned := s.returned + [Return(c, t, s.threads[t].result)])
  }

  // The closure on the worker's stack keeps its reference for ever.
  ghost function Exit1(s: State): State
    requires HoldsOther(s)
  {
    var t := s.active.value;
    var c := s.threads[t].hold.value;
    SetThread(SetThread(s, c, s.threads[c].(phase := Exited)), t, s.threads[t].(phase := Finished))
  }

  ghost function Dangling1(s: State): State
    requires HasActive(s) && |s.dangling| > 0
  {
    SetThread(s, s.active.value, s.threads[s.active.value].(phase := Check, hold := Some(s.dangling[0])))
      .(dangling := s.dangling[1..])
  }

  ghost function Drop1(s: State): State
    requires HoldsOther(s)
  {
    var t := s.active.value;
    var x := s.threads[t].hold.value;
    SetThread(SetThread(s, x, s.threads[x].(alive := false)), t, s.threads[t].(phase := Running, hold := None))
  }

  ghost function SetPhase(s: State, phase: Phase): State
    requires HasActive(s)
  {
    SetThread(s, s.active.value, s.threads[s.active.value].(phase := phase))
  }

  /**
   Every VERIFY and ASSERT that a step passes, including those of CircularQueue and RefPtr
   and the checks hidden in `must`.
   */
  ghost predicate ScheduleChecks(s: State) {
    && DEFAULT < |s.threads| && FALLBACK < |s.threads|
    && (FromQueue(s) || !s.threads[DEFAULT].masked || !s.threads[FALLBACK].masked)
    && CanDispatch(s)
  }

  ghost predicate ParkChecks(s: State)
    requires HasActive(s)
  {
    var t := s.active.value;
    if s.threads[t].masked then Holders(s, t) < 2 ==> |s.dangling| < CAPACITY
    else if s.threads[t].kind.Default? || s.threads[t].kind.Fallback? then Holders(s, t) >= 2
    else |s.queued| < CAPACITY
  }

  ghost predicate PendChecks(s: State) {
    && HasActive(s)
    && s.threads[s.active.value].stash.None?
    && ParkChecks(StashActive(s))
    && ScheduleChecks(Preempt(s))
  }

  ghost predicate WakeupChecks(s: State, t: Tid) {
    t < |s.threads| && s.active != Some(t) && (s.threads[t].masked ==> |s.queued| < CAPACITY)
  }

  ghost predicate Checks(s: State, e: Event)
    requires Enabled(s, e)
  {
    var t := s.active.value;
    var th := s.threads[t];
    match e
    case Compute(_) => true
    case Tick => PendChecks(s)
    case Svc =>
      && th.stash.None? && |s.waiting| < CAPACITY
      && WakeupChecks(BlockCall(s), SYSTEM)
      && ScheduleChecks(Wakeup(BlockCall(s), SYSTEM))
    case Lock(m) =>
      s.mutexes[m].holder.Some? ==> |s.mutexes[m].waiting| < CAPACITY && PendChecks(LockHeld(s, m))
    case Unlock(m) => |s.mutexes[m].waiting| > 0 ==> WakeupChecks(s, s.mutexes[m].waiting[0])
    case Die => true
    case Spawn => |s.queued| < CAPACITY
    case Poll => |s.waiting| == 0 ==> PendChecks(Sleep(s))
    case TakeCall => |s.waiting| > 0
    case BuildWorker => th.hold.Some? && th.hold.value < |s.threads| && s.threads[th.hold.value].stash.Some?
    case AddWorker => th.hold.Some? && |s.queued| < CAPACITY
    // The reference into the caller's stack is still its stash.
    case RunCall(_) => && HoldsOther(s) && s.threads[th.hold.value].stash == Some(th.context) && th.context < |s.frames|
    case UnmaskCaller => HoldsOther(s)
    case RequeueCaller => HoldsOther(s) && |s.queued| < CAPACITY
    case LeaveExited => HoldsOther(s) && s.threads[th.hold.value].masked
    case TakeDangling => |s.dangling| > 0
    case CheckLog => |s.mutexes| > DBGLN ==> s.mutexes[DBGLN].holder.None?
    case DropThread => HoldsOther(s) && Holders(s, th.hold.value) == 1
  }

  ghost function Step(s: State, e: Event): State
    requires Enabled(s, e) && Checks(s, e)
  {
    match e
    case Compute(v) => s.(r0 := v)
    case Tick => Dispatch(Preempt(s))
    case Svc => Dispatch(Wakeup(BlockCall(s), SYSTEM))
    case Lock(m) => if s.mutexes[m].holder.None? then LockFree(s, m) else Dispatch(Preempt(LockHeld(s, m)))
    case Unlock(m) =>
      if |s.mutexes[m].waiting| == 0 then Release(Leave(s, m), m)
      else Wakeup(Grant(Release(Leave(s, m), m), m), s.mutexes[m].waiting[0])
    case Die => SetPhase(Sleep(s), Dead)
    case Spawn => SpawnThread(s)
    case Poll => if |s.waiting| == 0 then Dispatch(Preempt(Sleep(s))) else SetPhase(s, Take)
    case TakeCall => Take1(s)
    case BuildWorker => Build1(s)
    case AddWorker => Add1(s)
    case RunCall(result) => Run1(s, result)
    case UnmaskCaller => Unmask1(s)
    case RequeueCaller => Requeue1(s)
    case LeaveExited => Exit1(s)
    case TakeDangling => Dangling1(s)
    case CheckLog => SetPhase(s, Drop)
    case DropThread => Drop1(s)
  }

  /** The moment at which the dummy thread first enters the scheduler */
  ghost function Boot(mutexes: nat): State {
    State(
      [ Thread(Ordinary, true, true, None, Dead, None, 0, DUMMY, 0, {}),
        Thread(Default, true, false, Some(0), Running, None, 0, DEFAULT, 0, {}),
        Thread(Fallback, true, false, Some(1), Running, None, 0, FALLBACK, 0, {}),
        Thread(SystemHandler, true, true, Some(2), Running, None, 0, SYSTEM, 0, {}),
        Thread(Ordinary, true, false, Some(3), Running, None, 0, STARTUP, 0, {}) ],
      Some(DUMMY), [STARTUP], [], [],
      seq(mutexes, _ => Mutex(None, [], [], [])),
      [Frame(DEFAULT, 0), Frame(FALLBACK, 0), Frame(SYSTEM, 0), Frame(STARTUP, 0)], 0,
      [], [], [], [])
  }
}
