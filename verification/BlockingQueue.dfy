/** The blocking queue of blocking_queue.h as a state machine over any number of threads.

    A step of a thread is one critical section of one mutex, with nested critical sections of the
    fair locks as steps of their own, or the half of a pthread_cond_wait that runs after the wait
    was signalled.  Assumptions about the threads library: there are no spurious wakeups, and a
    signal wakes one thread that waits and has not been signalled yet, or nobody if there is none. */
module BlockingQueue {
  import opened Wrappers
  import FL = FairLock

  datatype Side = Add | Get

  /** Refused is BQ_FULL on the add side and BQ_EMPTY on the get side. */
  datatype Result = Ok | Refused | Closed | Error

  /** Where a thread is.  The number carried along is the thread's fair-lock ticket. */
  datatype Pc =
    | Idle
    | Requesting                    // counted as active, about to ask for the fair lock
    | LockWait(n: nat)              // blocked inside the fair lock
    | Granted(n: nat)               // owns the fair lock, wants the main mutex
    | Checking(n: nat)              // owns the mutex as well
    | Blocking(n: nat)              // found no room / no element, about to block weak locks
    | Stuck(n: nat)                 // weak locks are blocked, about to give up or to wait
    | CondWait(n: nat)              // in the single wait on the shared condition
    | Opening(n: nat)               // may go ahead, about to allow the other side's weak locks
    | Transferring(n: nat)          // about to signal and to enqueue or dequeue
    | GivingUp(n: nat, r: Result)   // about to release the fair lock, still inside the mutex
    | Leaving(r: Result)            // about to release the mutex
    | Unlocking(n: nat)             // done, outside the mutex, about to release the fair lock
    | Exiting(r: Result)            // about to be uncounted and to return r
    | CloseEnter | CloseMutexed | CloseChecking | CloseLoop | CloseWait

  datatype Thread = Thread(pc: Pc, side: Side, async: bool, element: int)

  /** One side of the queue: its fair lock, the cached weak-lock flag, and the tickets served so far. */
  datatype Half = Half(lock: FL.Lock, flag: bool, served: seq<nat>)

  /** Everything apart from the two sides and the threads' own places. */
  datatype Shared = Shared(
    mutex: Option<nat>,
    closeMutex: Option<nat>,
    unsignalled: set<nat>,          // threads in the shared condition's wait
    signalled: set<nat>,
    destroyUnsignalled: set<nat>,   // threads in the destroy condition's wait
    destroySignalled: set<nat>,
    contents: seq<int>,
    capacity: nat,
    boundless: bool,
    closed: bool,
    count: int,
    overrun: bool,                  // an enqueue into a full or a dequeue from an empty buffer happened
    added: seq<int>,                // history: elements enqueued and elements handed out
    taken: seq<int>)

  datatype State = State(add: Half, get: Half, threads: seq<Thread>, g: Shared)

  predicate IsInitial(s: State) {
    && s.add == s.get == Half(FL.Initial, false, [])
    && (forall t :: 0 <= t < |s.threads| ==> s.threads[t].pc == Idle)
    && s.g == Shared(None, None, {}, {}, {}, {}, [], s.g.capacity, s.g.boundless, false, 0, false, [], [])
    && s.g.capacity > 0
  }

  function Other(side: Side): Side {
    if side == Add then Get else Add
  }

  function On(s: State, side: Side): Half {
    if side == Add then s.add else s.get
  }

  function With(s: State, side: Side, h: Half): State {
    if side == Add then s.(add := h) else s.(get := h)
  }

  function WithLock(s: State, side: Side, l: FL.Lock): State {
    With(s, side, On(s, side).(lock := l))
  }

  function At(s: State, t: nat, pc: Pc): State
    requires t < |s.threads|
  {
    s.(threads := s.threads[t := s.threads[t].(pc := pc)])
  }

  /** No room for an adder, nothing to take for a getter. */
  predicate Blocked(g: Shared, side: Side) {
    if side == Add then !g.boundless && |g.contents| == g.capacity else |g.contents| == 0
  }

  predicate SignalChoice(waiters: set<nat>, wake: Option<nat>) {
    if waiters == {} then wake == None else wake.Some? && wake.value in waiters
  }

  function Woken(wake: Option<nat>): set<nat> {
    if wake.Some? then {wake.value} else {}
  }

  function Signal(g: Shared, wake: Option<nat>): Shared {
    g.(unsignalled := g.unsignalled - Woken(wake), signalled := g.signalled + Woken(wake))
  }

  // ---- The steps of a caller ----

  function Call(s: State, t: nat, side: Side, async: bool, element: int): State
    requires t < |s.threads|
  {
    s.(g := s.g.(count := s.g.count + 1), threads := s.threads[t := Thread(Requesting, side, async, element)])
  }

  function Request(s: State, t: nat, outOfMemory: bool): State
    requires t < |s.threads|
  {
    var th := s.threads[t];
    var l := On(s, th.side).lock;
    var s' := WithLock(s, th.side, FL.Enter(l, t, th.async));
    match FL.EnterOutcome(l, th.async)
    case Refused => At(s, t, Exiting(Refused))
    case Queued => if outOfMemory then At(s, t, Exiting(Error)) else At(s', t, LockWait(|l.arrivals|))
    case Acquired => At(s', t, Granted(|l.arrivals|))
  }

  function LockResume(s: State, t: nat): State
    requires t < |s.threads| && s.threads[t].pc.LockWait?
  {
    var th := s.threads[t];
    var l := On(s, th.side).lock;
    var n := th.pc.n;
    At(WithLock(s, th.side, FL.Resume(l, n)), t, if n in l.abandoned then Exiting(Refused) else Granted(n))
  }

  function EnterMutex(s: State, t: nat): State
    requires t < |s.threads| && s.threads[t].pc.Granted?
  {
    At(s.(g := s.g.(mutex := Some(t))), t, Checking(s.threads[t].pc.n))
  }

  function Check(s: State, t: nat, outOfMemory: bool): State
    requires t < |s.threads| && s.threads[t].pc.Checking?
  {
    var th := s.threads[t];
    var n := th.pc.n;
    if s.g.closed then At(s, t, GivingUp(n, Closed))
    else if th.side == Add && |s.g.contents| == s.g.capacity && s.g.boundless then
      if outOfMemory then At(s, t, GivingUp(n, Error))
      else At(s.(g := s.g.(capacity := s.g.capacity * 2)), t, Opening(n))
    else if Blocked(s.g, th.side) then
      At(s, t, if On(s, th.side).flag then Stuck(n) else Blocking(n))
    else At(s, t, Opening(n))
  }

  function BlockWeak(s: State, t: nat): State
    requires t < |s.threads| && s.threads[t].pc.Blocking?
  {
    var th := s.threads[t];
    var h := On(s, th.side);
    At(With(s, th.side, h.(lock := FL.Block(h.lock), flag := true)), t, Stuck(th.pc.n))
  }

  function WaitOrGiveUp(s: State, t: nat): State
    requires t < |s.threads| && s.threads[t].pc.Stuck?
  {
    var n := s.threads[t].pc.n;
    if s.threads[t].async then At(s, t, GivingUp(n, Refused))
    else At(s.(g := s.g.(mutex := None, unsignalled := s.g.unsignalled + {t})), t, CondWait(n))
  }

  function CondResume(s: State, t: nat): State
    requires t < |s.threads| && s.threads[t].pc.CondWait?
  {
    var n := s.threads[t].pc.n;
    At(s.(g := s.g.(mutex := Some(t), signalled := s.g.signalled - {t})), t,
       if s.g.closed then GivingUp(n, Closed) else Opening(n))
  }

  function AllowWeak(s: State, t: nat): State
    requires t < |s.threads| && s.threads[t].pc.Opening?
  {
    var th := s.threads[t];
    var o := Other(th.side);
    var h := On(s, o);
    At(if h.flag then With(s, o, h.(lock := FL.Allow(h.lock), flag := false)) else s, t, Transferring(th.pc.n))
  }

  function Transfer(s: State, t: nat, wake: Option<nat>): State
    requires t < |s.threads| && s.threads[t].pc.Transferring?
  {
    var th := s.threads[t];
    var n := th.pc.n;
    var h := On(s, th.side);
    var s1 := With(s, th.side, h.(served := h.served + [n]));
    var g := Signal(s.g, wake).(mutex := None);
    if th.side == Add then
      At(s1.(g := g.(contents := g.contents + [th.element], added := g.added + [th.element],
                     overrun := g.overrun || |g.contents| >= g.capacity)), t, Unlocking(n))
    else if g.contents == [] then At(s1.(g := g.(overrun := true)), t, Unlocking(n))
    else
      s1.(g := g.(contents := g.contents[1..], taken := g.taken + [g.contents[0]]),
          threads := s.threads[t := th.(pc := Unlocking(n), element := g.contents[0])])
  }

  function GiveUp(s: State, t: nat): State
    requires t < |s.threads| && s.threads[t].pc.GivingUp?
  {
    var th := s.threads[t];
    At(WithLock(s, th.side, FL.Unlock(On(s, th.side).lock, th.pc.n)), t, Leaving(th.pc.r))
  }

  function Leave(s: State, t: nat): State
    requires t < |s.threads| && s.threads[t].pc.Leaving?
  {
    At(s.(g := s.g.(mutex := None)), t, Exiting(s.threads[t].pc.r))
  }

  function Release(s: State, t: nat): State
    requires t < |s.threads| && s.threads[t].pc.Unlocking?
  {
    var th := s.threads[t];
    At(WithLock(s, th.side, FL.Unlock(On(s, th.side).lock, th.pc.n)), t, Exiting(Ok))
  }

  function Exit(s: State, t: nat, wake: Option<nat>): State
    requires t < |s.threads|
  {
    At(s.(g := s.g.(count := s.g.count - 1, destroyUnsignalled := s.g.destroyUnsignalled - Woken(wake),
                    destroySignalled := s.g.destroySignalled + Woken(wake))), t, Idle)
  }

  // ---- The steps of a thread that closes the queue ----

  function CloseCheck(s: State, t: nat): State
    requires t < |s.threads|
  {
    if s.g.closed then At(s.(g := s.g.(mutex := None, closeMutex := None)), t, Idle)
    else At(s.(g := s.g.(closed := true, mutex := None)), t, CloseLoop)
  }

  function CloseTurn(s: State, t: nat, wake: Option<nat>): State
    requires t < |s.threads|
  {
    if s.g.count == 0 then At(s.(g := s.g.(closeMutex := None)), t, Idle)
    else At(s.(g := Signal(s.g, wake).(destroyUnsignalled := s.g.destroyUnsignalled + {t})), t, CloseWait)
  }

  // ---- The step relation ----

  datatype Action =
    | Begin(t: nat, side: Side, async: bool, element: int)
    | BeginClose(t: nat)
    | Go(t: nat, wake: Option<nat>, outOfMemory: bool)

  ghost predicate Enabled(s: State, a: Action) {
    && a.t < |s.threads|
    && var th := s.threads[a.t];
      match a
      case Begin(_, _, _, _) => th.pc == Idle
      case BeginClose(_) => th.pc == Idle
      case Go(t, wake, _) =>
        match th.pc
        case Idle => false
        case LockWait(n) => n in On(s, th.side).lock.woken || n in On(s, th.side).lock.abandoned
        case Granted(_) => s.g.mutex == None
        case CondWait(_) => t in s.g.signalled && s.g.mutex == None
        case Transferring(_) => SignalChoice(s.g.unsignalled, wake)
        case Exiting(_) => SignalChoice(s.g.destroyUnsignalled, wake)
        case CloseEnter => s.g.closeMutex == None
        case CloseMutexed => s.g.mutex == None
        case CloseLoop => s.g.count == 0 || SignalChoice(s.g.unsignalled, wake)
        case CloseWait => t in s.g.destroySignalled
        case _ => true
  }

  ghost function Next(s: State, a: Action): State
    requires Enabled(s, a)
  {
    match a
    case Begin(t, side, async, element) => Call(s, t, side, async, element)
    case BeginClose(t) => At(s, t, CloseEnter)
    case Go(t, wake, oom) =>
      match s.threads[t].pc
      case Requesting => Request(s, t, oom)
      case LockWait(_) => LockResume(s, t)
      case Granted(_) => EnterMutex(s, t)
      case Checking(_) => Check(s, t, oom)
      case Blocking(_) => BlockWeak(s, t)
      case Stuck(_) => WaitOrGiveUp(s, t)
      case CondWait(_) => CondResume(s, t)
      case Opening(_) => AllowWeak(s, t)
      case Transferring(_) => Transfer(s, t, wake)
      case GivingUp(_, _) => GiveUp(s, t)
      case Leaving(_) => Leave(s, t)
      case Unlocking(_) => Release(s, t)
      case Exiting(_) => Exit(s, t, wake)
      case CloseEnter => At(s.(g := s.g.(closeMutex := Some(t))), t, CloseMutexed)
      case CloseMutexed => At(s.(g := s.g.(mutex := Some(t))), t, CloseChecking)
      case CloseChecking => CloseCheck(s, t)
      case CloseLoop => CloseTurn(s, t, wake)
      case CloseWait => At(s.(g := s.g.(destroySignalled := s.g.destroySignalled - {t})), t, CloseLoop)
  }

  /** A run: any interleaving of enabled steps from an initial state. */
  ghost predicate IsRun(run: seq<State>, actions: seq<Action>) {
    && |run| == |actions| + 1
    && IsInitial(run[0])
    && forall i :: 0 <= i < |actions| ==> Enabled(run[i], actions[i]) && run[i + 1] == Next(run[i], actions[i])
  }
}
