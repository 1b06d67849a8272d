/** What every interleaving of the blocking queue keeps. */
module BlockingQueueSafety {
  import opened Wrappers
  import FL = FairLock
  import opened BlockingQueue

  // ---- Program-counter classes ----

  /** Owns the fair lock and has not yet enqueued or dequeued. */
  predicate Unserved(pc: Pc) {
    pc.Granted? || pc.Checking? || pc.Blocking? || pc.Stuck? || pc.CondWait? || pc.Opening? || pc.Transferring?
    || pc.GivingUp?
  }

  predicate OwnsLock(pc: Pc) {
    Unserved(pc) || pc.Unlocking?
  }

  predicate Ticketless(pc: Pc) {
    !OwnsLock(pc) && !pc.LockWait?
  }

  predicate HoldsMutex(pc: Pc) {
    pc.Checking? || pc.Blocking? || pc.Stuck? || pc.Opening? || pc.Transferring? || pc.GivingUp? || pc.Leaving?
    || pc.CloseChecking?
  }

  predicate HoldsCloseMutex(pc: Pc) {
    pc.CloseMutexed? || pc.CloseChecking? || pc.CloseLoop? || pc.CloseWait?
  }

  predicate InCall(pc: Pc) {
    !pc.Idle? && !pc.CloseEnter? && !HoldsCloseMutex(pc)
  }

  // ---- The invariant ----

  /** A thread that owns the fair lock, or waits in it, has a ticket that says so. */
  ghost predicate TicketOk(l: FL.Lock, th: Thread, t: nat) {
    && (OwnsLock(th.pc) ==> th.pc.n in l.holders && th.pc.n < |l.arrivals| && l.arrivals[th.pc.n].thread == t)
    && (th.pc.LockWait? ==>
          th.pc.n < |l.arrivals| && l.arrivals[th.pc.n] == FL.Request(t, th.async) && FL.Parked(l, th.pc.n))
  }

  /** And the other way round: a ticket in play belongs to a thread at the matching place. */
  ghost predicate HolderOk(l: FL.Lock, side: Side, ths: seq<Thread>, n: nat) {
    && n < |l.arrivals|
    && var t := l.arrivals[n].thread; t < |ths| && ths[t].side == side && OwnsLock(ths[t].pc) && ths[t].pc.n == n
  }

  ghost predicate ParkedOk(l: FL.Lock, side: Side, ths: seq<Thread>, n: nat) {
    && n < |l.arrivals|
    && var t := l.arrivals[n].thread; t < |ths| && ths[t].side == side && ths[t].pc == LockWait(n)
  }

  ghost predicate Tickets(l: FL.Lock, side: Side, ths: seq<Thread>) {
    && (forall t :: 0 <= t < |ths| && ths[t].side == side ==> TicketOk(l, ths[t], t))
    && (forall n: nat :: n in l.holders ==> HolderOk(l, side, ths, n))
    && (forall n: nat :: FL.Parked(l, n) ==> ParkedOk(l, side, ths, n))
  }

  /** There really is room for the adder, or an element for the getter. */
  predicate Ready(g: Shared, side: Side) {
    if side == Add then |g.contents| < g.capacity else |g.contents| > 0
  }

  ghost predicate StageOk(addFlag: bool, getFlag: bool, g: Shared, th: Thread, t: nat) {
    && (HoldsMutex(th.pc) <==> g.mutex == Some(t))
    && (HoldsCloseMutex(th.pc) <==> g.closeMutex == Some(t))
    && (th.pc.CondWait? <==> t in g.unsignalled || t in g.signalled)
    && (th.pc.CloseWait? <==> t in g.destroyUnsignalled || t in g.destroySignalled)
    && (th.pc.Blocking? || th.pc.Stuck? ==> Blocked(g, th.side) && !g.closed)
    && (th.pc.Stuck? ==> if th.side == Add then addFlag else getFlag)
    && (th.pc.Opening? || th.pc.Transferring? ==> Ready(g, th.side) && !g.closed)
    && (th.pc.Transferring? ==> if th.side == Add then !getFlag else !addFlag)
    && (th.pc.CloseLoop? || th.pc.CloseWait? ==> g.closed)
  }

  ghost predicate Stages(addFlag: bool, getFlag: bool, g: Shared, ths: seq<Thread>) {
    && (forall t :: 0 <= t < |ths| ==> StageOk(addFlag, getFlag, g, ths[t], t))
    && (g.mutex.Some? ==> g.mutex.value < |ths|)
    && (g.closeMutex.Some? ==> g.closeMutex.value < |ths|)
  }

  /** Blocked weak locks on a side mean that the side is full or empty. */
  ghost predicate FlagOk(h: Half, side: Side, g: Shared) {
    h.flag == h.lock.blockWeak && (h.flag ==> Blocked(g, side))
  }

  /** A waiter that has not been signalled is rightly waiting; a signalled one may go ahead. */
  ghost predicate Waiters(g: Shared, ths: seq<Thread>) {
    && g.unsignalled !! g.signalled
    && (forall t :: t in g.unsignalled ==> t < |ths| && Blocked(g, ths[t].side))
    && (forall t :: t in g.signalled ==> t < |ths| && (g.closed || Ready(g, ths[t].side)))
  }

  ghost predicate Buffer(g: Shared) {
    && 0 < g.capacity
    && |g.contents| <= g.capacity
    && g.added == g.taken + g.contents
    && !g.overrun
  }

  function CountCalls(ths: seq<Thread>): nat {
    if ths == [] then 0 else (if InCall(ths[0].pc) then 1 else 0) + CountCalls(ths[1..])
  }

  ghost predicate Closing(g: Shared, ths: seq<Thread>) {
    && g.count == CountCalls(ths)
    && g.destroyUnsignalled !! g.destroySignalled
    && (forall t :: t in g.destroyUnsignalled ==> t < |ths|)
    && (forall t :: t in g.destroySignalled ==> t < |ths|)
    && (g.destroyUnsignalled != {} ==> g.count > 0)
    && (g.closed && g.unsignalled != {} ==>
          g.closeMutex.Some? && g.closeMutex.value < |ths| && ths[g.closeMutex.value].pc == CloseLoop)
  }

  /** Transfers on a side happen in ticket order. */
  ghost predicate Served(h: Half, side: Side, ths: seq<Thread>) {
    && FL.Increasing(h.served)
    && (forall i :: 0 <= i < |h.served| ==> h.served[i] in h.lock.granted)
    && (forall t :: 0 <= t < |ths| && ths[t].side == side && Unserved(ths[t].pc) ==> ths[t].pc.n !in h.served)
  }

  ghost predicate HalfOk(h: Half, side: Side, ths: seq<Thread>) {
    FL.Inv(h.lock) && Tickets(h.lock, side, ths) && Served(h, side, ths)
  }

  ghost predicate SharedOk(s: State) {
    Stages(s.add.flag, s.get.flag, s.g, s.threads) && Waiters(s.g, s.threads) && Closing(s.g, s.threads)
  }

  ghost predicate Inv(s: State) {
    && HalfOk(s.add, Add, s.threads) && HalfOk(s.get, Get, s.threads)
    && SharedOk(s)
    && FlagOk(s.add, Add, s.g) && FlagOk(s.get, Get, s.g)
    && Buffer(s.g)
  }

  // ---- One side: its lock, its tickets, its served list ----

  lemma {:induction false} CountUpdate(ths: seq<Thread>, t: nat, th: Thread)
    requires t < |ths|
    ensures CountCalls(ths[t := th]) ==
            CountCalls(ths) - (if InCall(ths[t].pc) then 1 else 0) + (if InCall(th.pc) then 1 else 0)
  {
    if t == 0 {
      assert ths[t := th][1..] == ths[1..];
    } else {
      assert ths[t := th][1..] == ths[1..][t - 1 := th];
      CountUpdate(ths[1..], t - 1, th);
    }
  }

  lemma {:induction false} CountPositive(ths: seq<Thread>, t: nat)
    requires t < |ths| && InCall(ths[t].pc)
    ensures CountCalls(ths) > 0
  {
    if t > 0 {
      CountPositive(ths[1..], t - 1);
    }
  }

  /** Ticket e is the only one that may have moved, and it belongs to thread t. */
  ghost predicate MoveOk(l: FL.Lock, l': FL.Lock, th: Thread, th': Thread, t: nat, e: nat) {
    && FL.OthersUndisturbed(l, l', e)
    && (Ticketless(th.pc) || (th.pc.n == e && th.side == th'.side))
    && (e < |l'.arrivals| ==> l'.arrivals[e].thread == t)
    && (e in l'.holders <==> OwnsLock(th'.pc))
    && (FL.Parked(l', e) <==> th'.pc.LockWait?)
    && (Ticketless(th'.pc) || th'.pc.n == e < |l'.arrivals|)
    && (th'.pc.LockWait? ==> l'.arrivals[e] == FL.Request(t, th'.async))
  }

  lemma TicketsMove(l: FL.Lock, l': FL.Lock, side: Side, ths: seq<Thread>, t: nat, th': Thread, e: nat)
    requires Tickets(l, side, ths) && t < |ths| && th'.side == side && MoveOk(l, l', ths[t], th', t, e)
    ensures Tickets(l', side, ths[t := th'])
  {
    var ths' := ths[t := th'];
    forall u | 0 <= u < |ths'| && ths'[u].side == side ensures TicketOk(l', ths'[u], u) {
      if u != t {
        assert TicketOk(l, ths[u], u);
      }
    }
    forall n: nat | n in l'.holders ensures HolderOk(l', side, ths', n) {
      if n != e {
        assert HolderOk(l, side, ths, n);
      }
    }
    forall n: nat | FL.Parked(l', n) ensures ParkedOk(l', side, ths', n) {
      if n != e {
        assert FL.Parked(l, n) && ParkedOk(l, side, ths, n);
      }
    }
  }

  /** A move of thread t that keeps its ticket, seen from either side. */
  ghost predicate Keeps(th: Thread, th': Thread) {
    || (Ticketless(th.pc) && Ticketless(th'.pc))
    || (th.side == th'.side && OwnsLock(th.pc) && OwnsLock(th'.pc) && th'.pc.n == th.pc.n)
  }

  lemma TicketsStay(l: FL.Lock, side: Side, ths: seq<Thread>, t: nat, th': Thread)
    requires Tickets(l, side, ths) && t < |ths| && Keeps(ths[t], th')
    ensures Tickets(l, side, ths[t := th'])
  {
    var ths' := ths[t := th'];
    forall u | 0 <= u < |ths'| && ths'[u].side == side ensures TicketOk(l, ths'[u], u) {
      if ths[u].side == side {
        assert TicketOk(l, ths[u], u);
      }
    }
    forall n: nat | n in l.holders ensures HolderOk(l, side, ths', n) {
      assert HolderOk(l, side, ths, n);
    }
    forall n: nat | FL.Parked(l, n) ensures ParkedOk(l, side, ths', n) {
      assert ParkedOk(l, side, ths, n);
    }
  }

  lemma AllowTickets(l: FL.Lock, side: Side, ths: seq<Thread>)
    requires Tickets(l, side, ths)
    ensures Tickets(FL.Allow(l), side, ths)
  {
    var l' := FL.Allow(l);
    forall u | 0 <= u < |ths| && ths[u].side == side ensures TicketOk(l', ths[u], u) {
      assert TicketOk(l, ths[u], u);
    }
    forall n: nat | n in l'.holders ensures HolderOk(l', side, ths, n) {
      assert HolderOk(l, side, ths, n);
    }
    forall n: nat | FL.Parked(l', n) ensures ParkedOk(l', side, ths, n) {
      assert FL.Parked(l, n) && ParkedOk(l, side, ths, n);
    }
  }

  lemma ServedMove(h: Half, h': Half, side: Side, ths: seq<Thread>, t: nat, th': Thread)
    requires Served(h, side, ths) && t < |ths| && h'.served == h.served && h.lock.granted <= h'.lock.granted
    requires Unserved(th'.pc) && th'.side == side ==>
               || (Unserved(ths[t].pc) && th'.pc.n == ths[t].pc.n && ths[t].side == side)
               || th'.pc.n !in h.lock.granted
    ensures Served(h', side, ths[t := th'])
  {
    forall i | 0 <= i < |h'.served| ensures h'.served[i] in h'.lock.granted {
      assert h.served[i] in h.lock.granted;
    }
  }

  /** Nothing happens to this side's lock. */
  lemma HalfStay(h: Half, side: Side, ths: seq<Thread>, t: nat, th': Thread)
    requires HalfOk(h, side, ths) && t < |ths| && Keeps(ths[t], th')
    requires Unserved(th'.pc) ==> Unserved(ths[t].pc)
    ensures HalfOk(h, side, ths[t := th'])
  {
    hide FL.Inv, Tickets, Served;
    TicketsStay(h.lock, side, ths, t, th');
    ServedMove(h, h, side, ths, t, th');
  }

  /** Thread t of the other side moves. */
  lemma HalfOther(h: Half, side: Side, ths: seq<Thread>, t: nat, th': Thread)
    requires HalfOk(h, side, ths) && t < |ths| && ths[t].side == th'.side != side
    ensures HalfOk(h, side, ths[t := th'])
  {
    hide FL.Inv;
    var ths' := ths[t := th'];
    forall n: nat | n in h.lock.holders ensures HolderOk(h.lock, side, ths', n) {
      assert HolderOk(h.lock, side, ths, n);
    }
    forall n: nat | FL.Parked(h.lock, n) ensures ParkedOk(h.lock, side, ths', n) {
      assert ParkedOk(h.lock, side, ths, n);
    }
  }

  /** Thread t of this side moves, and with it the lock. */
  lemma HalfMove(h: Half, l': FL.Lock, side: Side, ths: seq<Thread>, t: nat, th': Thread, e: nat)
    requires HalfOk(h, side, ths) && t < |ths| && ths[t].side == th'.side == side
    requires FL.Inv(l') && MoveOk(h.lock, l', ths[t], th', t, e) && h.lock.granted <= l'.granted
    requires Unserved(th'.pc) ==> Unserved(ths[t].pc) || e !in h.lock.granted
    ensures HalfOk(h.(lock := l'), side, ths[t := th'])
  {
    hide FL.Inv, Tickets, Served;
    TicketsMove(h.lock, l', side, ths, t, th', e);
    hide FL.OthersUndisturbed, FL.Parked;
    ServedMove(h, h.(lock := l'), side, ths, t, th');
  }

  lemma HalfFlag(h: Half, flag: bool, side: Side, ths: seq<Thread>)
    requires HalfOk(h, side, ths)
    ensures HalfOk(h.(flag := flag), side, ths)
  {
  }

  /** What a thread's place says about its ticket. */
  lemma TicketLocal(l: FL.Lock, side: Side, ths: seq<Thread>, t: nat)
    requires Tickets(l, side, ths) && t < |ths| && ths[t].side == side
    ensures TicketOk(l, ths[t], t)
    ensures OwnsLock(ths[t].pc) ==> !FL.Parked(l, ths[t].pc.n)
    ensures ths[t].pc.LockWait? ==> ths[t].pc.n !in l.holders
  {
    assert !Ticketless(ths[t].pc) && FL.Parked(l, ths[t].pc.n) ==> ParkedOk(l, side, ths, ths[t].pc.n);
    assert !Ticketless(ths[t].pc) && ths[t].pc.n in l.holders ==> HolderOk(l, side, ths, ths[t].pc.n);
  }

  /** Two threads that own the same fair lock are the same thread. */
  lemma OneOwner(h: Half, side: Side, ths: seq<Thread>, t: nat, u: nat)
    requires HalfOk(h, side, ths) && t < |ths| && u < |ths| && ths[t].side == ths[u].side == side
    requires OwnsLock(ths[t].pc) && OwnsLock(ths[u].pc)
    ensures t == u
  {
    assert TicketOk(h.lock, ths[t], t) && TicketOk(h.lock, ths[u], u);
  }

  // ---- The shared part ----

  /** To the other threads, a step of t looks like this. */
  ghost predicate Quiet(g: Shared, g': Shared, t: nat) {
    && (g'.mutex == g.mutex || (g.mutex in {None, Some(t)} && g'.mutex in {None, Some(t)}))
    && (g'.closeMutex == g.closeMutex || (g.closeMutex in {None, Some(t)} && g'.closeMutex in {None, Some(t)}))
    && (forall u :: u != t ==> (u in g.unsignalled || u in g.signalled <==> u in g'.unsignalled || u in g'.signalled))
    && (forall u :: u != t ==> (u in g.destroyUnsignalled || u in g.destroySignalled <==>
                                u in g'.destroyUnsignalled || u in g'.destroySignalled))
    && (g.mutex == Some(t) ||
        (g'.contents == g.contents && g'.capacity == g.capacity && g'.boundless == g.boundless &&
          g'.closed == g.closed))
    && (g.closed ==> g'.closed)
  }

  lemma StagesMove(addFlag: bool, getFlag: bool, g: Shared, addFlag': bool, getFlag': bool, g': Shared,
                   ths: seq<Thread>, t: nat, th': Thread)
    requires Stages(addFlag, getFlag, g, ths) && t < |ths| && Quiet(g, g', t)
    requires g.mutex == Some(t) || (addFlag' == addFlag && getFlag' == getFlag)
    requires StageOk(addFlag', getFlag', g', th', t)
    ensures Stages(addFlag', getFlag', g', ths[t := th'])
  {
    var ths' := ths[t := th'];
    forall u | 0 <= u < |ths'| ensures StageOk(addFlag', getFlag', g', ths'[u], u) {
      if u != t {
        assert StageOk(addFlag, getFlag, g, ths[u], u);
      }
    }
  }

  /** Nobody starts to wait, and no waiter's situation changes for the worse. */
  lemma WaitersStay(g: Shared, g': Shared, ths: seq<Thread>, t: nat, th': Thread)
    requires Waiters(g, ths) && t < |ths|
    requires g'.unsignalled == g.unsignalled && g'.signalled <= g.signalled && (g.closed ==> g'.closed)
    requires (Blocked(g, Add) ==> Blocked(g', Add)) && (Ready(g, Add) ==> Ready(g', Add))
    requires (Blocked(g, Get) ==> Blocked(g', Get)) && (Ready(g, Get) ==> Ready(g', Get))
    requires th'.side == ths[t].side || (t !in g.unsignalled && t !in g.signalled)
    ensures Waiters(g', ths[t := th'])
  {
  }

  lemma ClosingStay(g: Shared, g': Shared, ths: seq<Thread>, t: nat, th': Thread)
    requires Closing(g, ths) && t < |ths|
    requires g'.count == g.count && InCall(th'.pc) == InCall(ths[t].pc)
    requires g'.destroyUnsignalled == g.destroyUnsignalled && g'.destroySignalled <= g.destroySignalled
    requires g'.closed && g'.unsignalled != {} ==>
               g.closed && g.unsignalled != {} && g'.closeMutex == g.closeMutex && !ths[t].pc.CloseLoop?
    ensures Closing(g', ths[t := th'])
  {
    CountUpdate(ths, t, th');
  }

  /** What a thread's place says about the shared part. */
  lemma StageLocal(s: State, t: nat)
    requires SharedOk(s) && t < |s.threads|
    ensures StageOk(s.add.flag, s.get.flag, s.g, s.threads[t], t)
    ensures t in s.g.signalled ==> t !in s.g.unsignalled && (s.g.closed || Ready(s.g, s.threads[t].side))
    ensures t in s.g.destroySignalled ==> t !in s.g.destroyUnsignalled
  {
  }

  /** At most one thread waits on the shared condition without having been signalled. */
  lemma OneUnsignalled(s: State, t: nat, u: nat)
    requires Inv(s) && t in s.g.unsignalled && u in s.g.unsignalled
    ensures t == u
  {
    hide HalfOk;
    assert StageOk(s.add.flag, s.get.flag, s.g, s.threads[t], t);
    assert StageOk(s.add.flag, s.get.flag, s.g, s.threads[u], u);
    if s.threads[t].side == s.threads[u].side {
      OneOwner(On(s, s.threads[t].side), s.threads[t].side, s.threads, t, u);
    }
  }

  // ---- Steps that do not touch the fair locks ----

  /** The step to state s' moves thread t to th' and touches nothing of the two sides. */
  ghost predicate PlainStep(s: State, s': State, t: nat, th': Thread) {
    && t < |s.threads| && s'.threads == s.threads[t := th'] && s'.add == s.add && s'.get == s.get
    && Keeps(s.threads[t], th') && (Unserved(th'.pc) ==> Unserved(s.threads[t].pc))
    && Quiet(s.g, s'.g, t)
    && StageOk(s'.add.flag, s'.get.flag, s'.g, th', t)
  }

  lemma PlainKeeps(s: State, s': State, t: nat, th': Thread)
    requires Inv(s) && PlainStep(s, s', t, th')
    ensures HalfOk(s'.add, Add, s'.threads) && HalfOk(s'.get, Get, s'.threads)
    ensures Stages(s'.add.flag, s'.get.flag, s'.g, s'.threads)
  {
    hide HalfOk, Stages, Waiters, Closing, Quiet;
    HalfStay(s.add, Add, s.threads, t, th');
    HalfStay(s.get, Get, s.threads, t, th');
    StagesMove(s.add.flag, s.get.flag, s.g, s'.add.flag, s'.get.flag, s'.g, s.threads, t, th');
  }

  lemma CallKeepsInv(s: State, t: nat, side: Side, async: bool, element: int)
    requires Inv(s) && t < |s.threads| && s.threads[t].pc == Idle
    ensures Inv(Call(s, t, side, async, element))
  {
    hide HalfOk, Stages, Waiters, Closing;
    var s', th' := Call(s, t, side, async, element), Thread(Requesting, side, async, element);
    StageLocal(s, t);
    PlainKeeps(s, s', t, th');
    WaitersStay(s.g, s'.g, s.threads, t, th');
    CallClosing(s.g, s.threads, t, th');
  }

  lemma CallClosing(g: Shared, ths: seq<Thread>, t: nat, th': Thread)
    requires Closing(g, ths) && t < |ths| && ths[t].pc == Idle && InCall(th'.pc)
    ensures Closing(g.(count := g.count + 1), ths[t := th'])
  {
    CountUpdate(ths, t, th');
  }

  lemma EnterMutexKeepsInv(s: State, t: nat)
    requires Inv(s) && t < |s.threads| && s.threads[t].pc.Granted? && s.g.mutex == None
    ensures Inv(EnterMutex(s, t))
  {
    hide HalfOk, Stages, Waiters, Closing;
    var s' := EnterMutex(s, t);
    var th' := s'.threads[t];
    StageLocal(s, t);
    PlainKeeps(s, s', t, th');
    WaitersStay(s.g, s'.g, s.threads, t, th');
    ClosingStay(s.g, s'.g, s.threads, t, th');
  }

  /** Doubling the buffer of a boundless queue. */
  lemma GrowKeepsInv(s: State, t: nat)
    requires Inv(s) && s.g.boundless && t < |s.threads| && s.g.mutex == Some(t)
    ensures Inv(s.(g := s.g.(capacity := s.g.capacity * 2)))
  {
    hide HalfOk, Stages, Waiters, Closing;
    var g, g', th := s.g, s.g.(capacity := s.g.capacity * 2), s.threads[t];
    StageLocal(s, t);
    assert s.threads[t := th] == s.threads;
    StagesMove(s.add.flag, s.get.flag, g, s.add.flag, s.get.flag, g', s.threads, t, th);
    WaitersStay(g, g', s.threads, t, th);
    GrowClosing(g, s.threads);
  }

  lemma GrowClosing(g: Shared, ths: seq<Thread>)
    requires Closing(g, ths)
    ensures Closing(g.(capacity := g.capacity * 2), ths)
  {
  }

  lemma PlaceKeepsInv(s: State, t: nat, pc: Pc)
    requires Inv(s) && t < |s.threads| && s.threads[t].pc.Checking?
    requires pc.GivingUp? || pc.Stuck? || pc.Blocking? || pc.Opening?
    requires pc.n == s.threads[t].pc.n && StageOk(s.add.flag, s.get.flag, s.g, s.threads[t].(pc := pc), t)
    ensures Inv(At(s, t, pc))
  {
    hide HalfOk, Stages, Waiters, Closing, StageOk;
    var s', th' := At(s, t, pc), s.threads[t].(pc := pc);
    PlainKeeps(s, s', t, th');
    WaitersStay(s.g, s'.g, s.threads, t, th');
    ClosingStay(s.g, s'.g, s.threads, t, th');
  }

  lemma CheckKeepsInv(s: State, t: nat, oom: bool)
    requires Inv(s) && t < |s.threads| && s.threads[t].pc.Checking?
    ensures Inv(Check(s, t, oom))
  {
    hide HalfOk, Stages, Waiters, Closing;
    StageLocal(s, t);
    var pc := Check(s, t, oom).threads[t].pc;
    if !s.g.closed && s.threads[t].side == Add && |s.g.contents| == s.g.capacity && s.g.boundless && !oom {
      GrowKeepsInv(s, t);
      PlaceKeepsInv(s.(g := s.g.(capacity := s.g.capacity * 2)), t, pc);
    } else {
      PlaceKeepsInv(s, t, pc);
    }
  }

  lemma WaitWaiters(g: Shared, ths: seq<Thread>, t: nat, th': Thread)
    requires Waiters(g, ths) && t < |ths| && Blocked(g, ths[t].side) && th'.side == ths[t].side
    requires t !in g.signalled
    ensures Waiters(g.(mutex := None, unsignalled := g.unsignalled + {t}), ths[t := th'])
  {
  }

  lemma WaitKeepsInv(s: State, t: nat)
    requires Inv(s) && t < |s.threads| && s.threads[t].pc.Stuck? && !s.threads[t].async
    ensures Inv(WaitOrGiveUp(s, t))
  {
    hide HalfOk, Stages, Waiters, Closing;
    var s' := WaitOrGiveUp(s, t);
    var th' := s'.threads[t];
    StageLocal(s, t);
    PlainKeeps(s, s', t, th');
    WaitWaiters(s.g, s.threads, t, th');
    ClosingStay(s.g, s'.g, s.threads, t, th');
  }

  lemma RefuseKeepsInv(s: State, t: nat)
    requires Inv(s) && t < |s.threads| && s.threads[t].pc.Stuck? && s.threads[t].async
    ensures Inv(WaitOrGiveUp(s, t))
  {
    hide HalfOk, Stages, Waiters, Closing;
    var s' := WaitOrGiveUp(s, t);
    var th' := s'.threads[t];
    StageLocal(s, t);
    PlainKeeps(s, s', t, th');
    WaitersStay(s.g, s'.g, s.threads, t, th');
    ClosingStay(s.g, s'.g, s.threads, t, th');
  }

  lemma CondResumeKeepsInv(s: State, t: nat)
    requires Inv(s) && t < |s.threads| && s.threads[t].pc.CondWait? && t in s.g.signalled && s.g.mutex == None
    ensures Inv(CondResume(s, t))
  {
    hide HalfOk, Stages, Waiters, Closing;
    var s' := CondResume(s, t);
    var th' := s'.threads[t];
    StageLocal(s, t);
    PlainKeeps(s, s', t, th');
    WaitersStay(s.g, s'.g, s.threads, t, th');
    ClosingStay(s.g, s'.g, s.threads, t, th');
  }

  lemma LeaveKeepsInv(s: State, t: nat)
    requires Inv(s) && t < |s.threads| && s.threads[t].pc.Leaving?
    ensures Inv(Leave(s, t))
  {
    hide HalfOk, Stages, Waiters, Closing;
    var s' := Leave(s, t);
    var th' := s'.threads[t];
    StageLocal(s, t);
    PlainKeeps(s, s', t, th');
    WaitersStay(s.g, s'.g, s.threads, t, th');
    ClosingStay(s.g, s'.g, s.threads, t, th');
  }

  lemma ExitClosing(s: State, t: nat, wake: Option<nat>)
    requires SharedOk(s) && t < |s.threads| && s.threads[t].pc.Exiting?
    requires SignalChoice(s.g.destroyUnsignalled, wake)
    ensures Closing(Exit(s, t, wake).g, Exit(s, t, wake).threads)
  {
    CountUpdate(s.threads, t, s.threads[t].(pc := Idle));
    forall u | u in s.g.destroyUnsignalled ensures u in Woken(wake) {
      StageLocal(s, u);
      StageLocal(s, wake.value);
    }
  }

  lemma ExitKeepsInv(s: State, t: nat, wake: Option<nat>)
    requires Inv(s) && t < |s.threads| && s.threads[t].pc.Exiting? && SignalChoice(s.g.destroyUnsignalled, wake)
    ensures Inv(Exit(s, t, wake))
  {
    hide HalfOk, Stages, Waiters, Closing;
    var s' := Exit(s, t, wake);
    var th' := s'.threads[t];
    StageLocal(s, t);
    PlainKeeps(s, s', t, th');
    WaitersStay(s.g, s'.g, s.threads, t, th');
    ExitClosing(s, t, wake);
  }

  lemma BeginCloseKeepsInv(s: State, t: nat)
    requires Inv(s) && t < |s.threads| && s.threads[t].pc.Idle?
    ensures Inv(At(s, t, CloseEnter))
  {
    hide HalfOk, Stages, Waiters, Closing;
    var s' := At(s, t, CloseEnter);
    var th' := s'.threads[t];
    StageLocal(s, t);
    PlainKeeps(s, s', t, th');
    WaitersStay(s.g, s'.g, s.threads, t, th');
    ClosingStay(s.g, s'.g, s.threads, t, th');
  }

  lemma CloseEnterClosing(g: Shared, ths: seq<Thread>, t: nat, th': Thread)
    requires Closing(g, ths) && t < |ths| && ths[t].pc.CloseEnter? && g.closeMutex == None && th'.pc == CloseMutexed
    ensures Closing(g.(closeMutex := Some(t)), ths[t := th'])
  {
    CountUpdate(ths, t, th');
  }

  lemma CloseEnterKeepsInv(s: State, t: nat)
    requires Inv(s) && t < |s.threads| && s.threads[t].pc.CloseEnter? && s.g.closeMutex == None
    ensures Inv(At(s.(g := s.g.(closeMutex := Some(t))), t, CloseMutexed))
  {
    hide HalfOk, Stages, Waiters, Closing;
    var s' := At(s.(g := s.g.(closeMutex := Some(t))), t, CloseMutexed);
    var th' := s'.threads[t];
    StageLocal(s, t);
    PlainKeeps(s, s', t, th');
    WaitersStay(s.g, s'.g, s.threads, t, th');
    CloseEnterClosing(s.g, s.threads, t, th');
  }

  lemma CloseMutexedKeepsInv(s: State, t: nat)
    requires Inv(s) && t < |s.threads| && s.threads[t].pc.CloseMutexed? && s.g.mutex == None
    ensures Inv(At(s.(g := s.g.(mutex := Some(t))), t, CloseChecking))
  {
    hide HalfOk, Stages, Waiters, Closing;
    var s' := At(s.(g := s.g.(mutex := Some(t))), t, CloseChecking);
    var th' := s'.threads[t];
    StageLocal(s, t);
    PlainKeeps(s, s', t, th');
    WaitersStay(s.g, s'.g, s.threads, t, th');
    ClosingStay(s.g, s'.g, s.threads, t, th');
  }

  lemma CloseCheckClosing(s: State, t: nat)
    requires SharedOk(s) && t < |s.threads| && s.threads[t].pc.CloseChecking?
    ensures Closing(CloseCheck(s, t).g, CloseCheck(s, t).threads)
  {
    StageLocal(s, t);
    CountUpdate(s.threads, t, CloseCheck(s, t).threads[t]);
  }

  lemma CloseAgainKeepsInv(s: State, t: nat)
    requires Inv(s) && t < |s.threads| && s.threads[t].pc.CloseChecking? && s.g.closed
    ensures Inv(CloseCheck(s, t))
  {
    hide HalfOk, Stages, Waiters, Closing;
    var s' := CloseCheck(s, t);
    var th' := s'.threads[t];
    StageLocal(s, t);
    PlainKeeps(s, s', t, th');
    WaitersStay(s.g, s'.g, s.threads, t, th');
    CloseCheckClosing(s, t);
  }

  lemma CloseFirstKeepsInv(s: State, t: nat)
    requires Inv(s) && t < |s.threads| && s.threads[t].pc.CloseChecking? && !s.g.closed
    ensures Inv(CloseCheck(s, t))
  {
    hide HalfOk, Stages, Waiters, Closing;
    var s' := CloseCheck(s, t);
    var th' := s'.threads[t];
    StageLocal(s, t);
    PlainKeeps(s, s', t, th');
    WaitersStay(s.g, s'.g, s.threads, t, th');
    CloseCheckClosing(s, t);
  }

  /** One signal from the closing thread is enough: afterwards nobody waits unsignalled. */
  lemma CloseTurnClosing(s: State, t: nat, wake: Option<nat>)
    requires Inv(s) && t < |s.threads| && s.threads[t].pc.CloseLoop?
    requires s.g.count == 0 || SignalChoice(s.g.unsignalled, wake)
    ensures Closing(CloseTurn(s, t, wake).g, CloseTurn(s, t, wake).threads)
    ensures Waiters(CloseTurn(s, t, wake).g, CloseTurn(s, t, wake).threads)
  {
    hide HalfOk;
    var s' := CloseTurn(s, t, wake);
    StageLocal(s, t);
    CountUpdate(s.threads, t, s'.threads[t]);
    if s.g.count == 0 {
      forall u | u in s.g.unsignalled ensures false {
        StageLocal(s, u);
        CountPositive(s.threads, u);
      }
    } else {
      forall u | u in s.g.unsignalled ensures u in Woken(wake) {
        OneUnsignalled(s, u, wake.value);
      }
    }
  }

  lemma CloseFinishKeepsInv(s: State, t: nat, wake: Option<nat>)
    requires Inv(s) && t < |s.threads| && s.threads[t].pc.CloseLoop? && s.g.count == 0
    ensures Inv(CloseTurn(s, t, wake))
  {
    hide HalfOk, Stages, Waiters, Closing;
    var s' := CloseTurn(s, t, wake);
    var th' := s'.threads[t];
    StageLocal(s, t);
    PlainKeeps(s, s', t, th');
    CloseTurnClosing(s, t, wake);
  }

  lemma CloseSignalQuiet(g: Shared, t: nat, wake: Option<nat>)
    requires SignalChoice(g.unsignalled, wake)
    ensures Quiet(g, Signal(g, wake).(destroyUnsignalled := g.destroyUnsignalled + {t}), t)
  {
  }

  lemma CloseSignalKeepsInv(s: State, t: nat, wake: Option<nat>)
    requires Inv(s) && t < |s.threads| && s.threads[t].pc.CloseLoop? && s.g.count != 0 &&
             SignalChoice(s.g.unsignalled, wake)
    ensures Inv(CloseTurn(s, t, wake))
  {
    hide HalfOk, Stages, Waiters, Closing, Quiet, StageOk;
    CloseSignalQuiet(s.g, t, wake);
    CloseSignalStage(s, t, wake);
    CloseTurnClosing(s, t, wake);
    PlainKeeps(s, CloseTurn(s, t, wake), t, s.threads[t].(pc := CloseWait));
  }

  lemma CloseSignalStage(s: State, t: nat, wake: Option<nat>)
    requires SharedOk(s) && t < |s.threads| && s.threads[t].pc.CloseLoop? && s.g.count != 0 &&
             SignalChoice(s.g.unsignalled, wake)
    ensures var s' := CloseTurn(s, t, wake); StageOk(s'.add.flag, s'.get.flag, s'.g, s'.threads[t], t)
  {
    StageLocal(s, t);
    hide Stages, Waiters, Closing;
  }

  lemma CloseResumeKeepsInv(s: State, t: nat)
    requires Inv(s) && t < |s.threads| && s.threads[t].pc.CloseWait? && t in s.g.destroySignalled
    ensures Inv(At(s.(g := s.g.(destroySignalled := s.g.destroySignalled - {t})), t, CloseLoop))
  {
    hide HalfOk, Stages, Waiters, Closing;
    var s' := At(s.(g := s.g.(destroySignalled := s.g.destroySignalled - {t})), t, CloseLoop);
    var th' := s'.threads[t];
    StageLocal(s, t);
    PlainKeeps(s, s', t, th');
    WaitersStay(s.g, s'.g, s.threads, t, th');
    ClosingStay(s.g, s'.g, s.threads, t, th');
  }

  // ---- Steps of a caller on its own fair lock ----

  /** Places between which a caller moves by an operation on its fair lock. */
  predicate Plain(pc: Pc) {
    pc.Requesting? || pc.LockWait? || pc.Granted? || pc.GivingUp? || pc.Leaving? || pc.Unlocking? || pc.Exiting?
  }

  function Moved(s: State, t: nat, l': FL.Lock, pc: Pc): State
    requires t < |s.threads|
  {
    At(WithLock(s, s.threads[t].side, l'), t, pc)
  }

  lemma MovedHalves(s: State, t: nat, l': FL.Lock, pc: Pc, e: nat)
    requires HalfOk(s.add, Add, s.threads) && HalfOk(s.get, Get, s.threads) && t < |s.threads| && FL.Inv(l')
    requires var th := s.threads[t]; var l := On(s, th.side).lock;
      && MoveOk(l, l', th, th.(pc := pc), t, e) && l.granted <= l'.granted
      && (Unserved(pc) ==> Unserved(th.pc) || e !in l.granted)
    ensures var s' := Moved(s, t, l', pc); HalfOk(s'.add, Add, s'.threads) && HalfOk(s'.get, Get, s'.threads)
  {
    hide HalfOk, MoveOk, FL.Inv;
    var th' := s.threads[t].(pc := pc);
    if s.threads[t].side == Add {
      HalfMove(s.add, l', Add, s.threads, t, th', e);
      HalfOther(s.get, Get, s.threads, t, th');
    } else {
      HalfMove(s.get, l', Get, s.threads, t, th', e);
      HalfOther(s.add, Add, s.threads, t, th');
    }
  }

  lemma PlainShared(s: State, t: nat, th': Thread)
    requires SharedOk(s) && t < |s.threads| && Plain(s.threads[t].pc) && Plain(th'.pc)
    requires th'.side == s.threads[t].side && HoldsMutex(s.threads[t].pc) == HoldsMutex(th'.pc)
    ensures SharedOk(s.(threads := s.threads[t := th']))
  {
    hide Stages, Waiters, Closing;
    StageLocal(s, t);
    StagesMove(s.add.flag, s.get.flag, s.g, s.add.flag, s.get.flag, s.g, s.threads, t, th');
    WaitersStay(s.g, s.g, s.threads, t, th');
    ClosingStay(s.g, s.g, s.threads, t, th');
  }

  lemma MoveKeepsInv(s: State, t: nat, l': FL.Lock, pc: Pc, e: nat)
    requires Inv(s) && t < |s.threads| && FL.Inv(l')
    requires var th := s.threads[t]; var l := On(s, th.side).lock;
      && Plain(th.pc) && Plain(pc) && HoldsMutex(th.pc) == HoldsMutex(pc)
      && MoveOk(l, l', th, th.(pc := pc), t, e) && l.granted <= l'.granted && l'.blockWeak == l.blockWeak
      && (Unserved(pc) ==> Unserved(th.pc) || e !in l.granted)
    ensures Inv(Moved(s, t, l', pc))
  {
    hide HalfOk, MoveOk, FL.Inv, Stages, Waiters, Closing;
    MovedHalves(s, t, l', pc, e);
    PlainShared(s, t, s.threads[t].(pc := pc));
  }

  lemma LockLocal(s: State, t: nat)
    requires Inv(s) && t < |s.threads|
    ensures var th := s.threads[t]; var l := On(s, th.side).lock;
      && FL.Inv(l) && TicketOk(l, th, t)
      && (OwnsLock(th.pc) ==> !FL.Parked(l, th.pc.n)) && (th.pc.LockWait? ==> th.pc.n !in l.holders)
  {
    TicketLocal(On(s, s.threads[t].side).lock, s.threads[t].side, s.threads, t);
  }

  lemma RequestKeepsInv(s: State, t: nat, oom: bool)
    requires Inv(s) && t < |s.threads| && s.threads[t].pc == Requesting
    ensures Inv(Request(s, t, oom))
  {
    hide Inv, FL.Inv, FL.Enter, FL.Parked, FL.OthersUndisturbed;
    var th := s.threads[t];
    var l := On(s, th.side).lock;
    var l', n := FL.Enter(l, t, th.async), |l.arrivals|;
    LockLocal(s, t);
    FL.EnterEffect(l, t, th.async);
    FL.EnterKeepsInv(l, t, th.async);
    match FL.EnterOutcome(l, th.async) {
      case Refused => GiveUpRequest(s, t, Refused);
      case Queued =>
        if oom {
          GiveUpRequest(s, t, Error);
        } else {
          MoveKeepsInv(s, t, l', LockWait(n), n);
        }
      case Acquired => MoveKeepsInv(s, t, l', Granted(n), n);
    }
  }

  lemma GiveUpRequest(s: State, t: nat, r: Result)
    requires Inv(s) && t < |s.threads| && s.threads[t].pc == Requesting
    ensures Inv(At(s, t, Exiting(r)))
  {
    hide HalfOk, Stages, Waiters, Closing;
    var th' := s.threads[t].(pc := Exiting(r));
    HalfStay(s.add, Add, s.threads, t, th');
    HalfStay(s.get, Get, s.threads, t, th');
    PlainShared(s, t, th');
  }

  lemma LockResumeKeepsInv(s: State, t: nat)
    requires Inv(s) && t < |s.threads| && s.threads[t].pc.LockWait?
    requires var l := On(s, s.threads[t].side).lock; s.threads[t].pc.n in l.woken || s.threads[t].pc.n in l.abandoned
    ensures Inv(LockResume(s, t))
  {
    hide Inv, FL.Inv, FL.Resume, FL.Parked, FL.OthersUndisturbed;
    var l, n := On(s, s.threads[t].side).lock, s.threads[t].pc.n;
    LockLocal(s, t);
    FL.ResumeEffect(l, n);
    FL.ResumeKeepsInv(l, n);
    TicketPrefix(l, FL.Resume(l, n), n);
    MoveKeepsInv(s, t, FL.Resume(l, n), if n in l.abandoned then Exiting(Refused) else Granted(n), n);
  }

  lemma UnlockKeepsInv(s: State, t: nat, pc: Pc)
    requires Inv(s) && t < |s.threads|
    requires (s.threads[t].pc.GivingUp? && pc.Leaving?) || (s.threads[t].pc.Unlocking? && pc.Exiting?)
    ensures Inv(Moved(s, t, FL.Unlock(On(s, s.threads[t].side).lock, s.threads[t].pc.n), pc))
  {
    hide Inv, FL.Inv, FL.Unlock, FL.Parked, FL.OthersUndisturbed, Moved;
    var l, n := On(s, s.threads[t].side).lock, s.threads[t].pc.n;
    LockLocal(s, t);
    FL.UnlockEffect(l, n);
    FL.UnlockKeepsInv(l, n);
    TicketPrefix(l, FL.Unlock(l, n), n);
    MoveKeepsInv(s, t, FL.Unlock(l, n), pc, n);
  }

  lemma TicketPrefix(l: FL.Lock, l': FL.Lock, e: nat)
    requires FL.OthersUndisturbed(l, l', e)
    ensures e < |l.arrivals| ==> e < |l'.arrivals| && l'.arrivals[e] == l.arrivals[e]
  {
  }

  /** Blocking weak locks: queued weak requests are abandoned, everybody keeps their tickets. */
  lemma BlockWeakKeepsInv(s: State, t: nat)
    requires Inv(s) && t < |s.threads| && s.threads[t].pc.Blocking?
    ensures Inv(BlockWeak(s, t))
  {
    hide HalfOk, Stages, Waiters, Closing, FL.Inv, FL.Block, FL.Parked, FL.OthersUndisturbed;
    var s' := BlockWeak(s, t);
    var l, n, th' := On(s, s.threads[t].side).lock, s.threads[t].pc.n, s'.threads[t];
    LockLocal(s, t);
    StageLocal(s, t);
    FL.BlockEffect(l, n);
    FL.BlockKeepsInv(l);
    TicketPrefix(l, FL.Block(l), n);
    MovedHalves(s, t, FL.Block(l), Stuck(n), n);
    BlockedHalves(s, t);
    BlockShared(s, t);
  }

  lemma BlockedHalves(s: State, t: nat)
    requires t < |s.threads| && s.threads[t].pc.Blocking?
    requires var m := Moved(s, t, FL.Block(On(s, s.threads[t].side).lock), Stuck(s.threads[t].pc.n));
      HalfOk(m.add, Add, m.threads) && HalfOk(m.get, Get, m.threads)
    ensures var s' := BlockWeak(s, t); HalfOk(s'.add, Add, s'.threads) && HalfOk(s'.get, Get, s'.threads)
  {
    hide HalfOk, FL.Block;
    var m := Moved(s, t, FL.Block(On(s, s.threads[t].side).lock), Stuck(s.threads[t].pc.n));
    HalfFlag(On(m, s.threads[t].side), true, s.threads[t].side, m.threads);
  }

  lemma BlockShared(s: State, t: nat)
    requires SharedOk(s) && t < |s.threads| && s.threads[t].pc.Blocking?
    ensures SharedOk(BlockWeak(s, t))
  {
    hide Stages, Waiters, Closing, FL.Block;
    var s' := BlockWeak(s, t);
    var th' := s'.threads[t];
    StageLocal(s, t);
    StagesMove(s.add.flag, s.get.flag, s.g, s'.add.flag, s'.get.flag, s.g, s.threads, t, th');
    WaitersStay(s.g, s.g, s.threads, t, th');
    ClosingStay(s.g, s.g, s.threads, t, th');
  }

  // ---- Going ahead ----

  lemma AllowHalf(h: Half, side: Side, ths: seq<Thread>)
    requires HalfOk(h, side, ths)
    ensures HalfOk(h.(lock := FL.Allow(h.lock), flag := false), side, ths)
  {
    hide Tickets;
    AllowTickets(h.lock, side, ths);
    FL.AllowKeepsInv(h.lock);
    hide FL.Inv;
  }

  lemma AllowWeakKeepsInv(s: State, t: nat)
    requires Inv(s) && t < |s.threads| && s.threads[t].pc.Opening?
    ensures Inv(AllowWeak(s, t))
  {
    hide HalfOk, Stages, Waiters, Closing, FL.Inv;
    var s' := AllowWeak(s, t);
    var th' := s'.threads[t];
    HalfStay(s.add, Add, s.threads, t, th');
    HalfStay(s.get, Get, s.threads, t, th');
    AllowHalf(On(s, Other(th'.side)), Other(th'.side), s'.threads);
    AllowShared(s, t);
  }

  lemma AllowShared(s: State, t: nat)
    requires SharedOk(s) && t < |s.threads| && s.threads[t].pc.Opening?
    ensures SharedOk(AllowWeak(s, t))
  {
    hide Stages, Waiters, Closing;
    var s' := AllowWeak(s, t);
    var th' := s'.threads[t];
    StageLocal(s, t);
    StagesMove(s.add.flag, s.get.flag, s.g, s'.add.flag, s'.get.flag, s.g, s.threads, t, th');
    WaitersStay(s.g, s.g, s.threads, t, th');
    ClosingStay(s.g, s.g, s.threads, t, th');
  }

  lemma LastGranted(l: FL.Lock, n: nat)
    requires FL.Inv(l) && n in l.holders
    ensures n in l.granted
    ensures forall m :: m in l.granted && m != n ==> m < n
  {
  }

  lemma ServeHalf(h: Half, side: Side, ths: seq<Thread>, t: nat, th': Thread)
    requires HalfOk(h, side, ths) && t < |ths| && ths[t].side == th'.side == side
    requires ths[t].pc.Transferring? && th'.pc == Unlocking(ths[t].pc.n)
    ensures HalfOk(h.(served := h.served + [ths[t].pc.n]), side, ths[t := th'])
  {
    var n, ths', served' := ths[t].pc.n, ths[t := th'], h.served + [ths[t].pc.n];
    HalfStay(h, side, ths, t, th');
    TicketLocal(h.lock, side, ths, t);
    LastGranted(h.lock, n);
    forall u | 0 <= u < |ths| && u != t && ths[u].side == side ensures !OwnsLock(ths[u].pc) {
      if OwnsLock(ths[u].pc) {
        OneOwner(h, side, ths, t, u);
      }
    }
    hide FL.Inv, Tickets;
    forall i | 0 <= i < |h.served| ensures h.served[i] < n {
      assert h.served[i] in h.lock.granted && h.served[i] in h.served;
    }
  }

  /** After a transfer nobody waits unsignalled, and whoever was signalled can go ahead. */
  lemma TransferWaiters(s: State, t: nat, wake: Option<nat>)
    requires Inv(s) && t < |s.threads| && s.threads[t].pc.Transferring? && SignalChoice(s.g.unsignalled, wake)
    ensures Waiters(Transfer(s, t, wake).g, Transfer(s, t, wake).threads)
    ensures Transfer(s, t, wake).g.unsignalled == {}
  {
    hide HalfOk, Closing;
    var s' := Transfer(s, t, wake);
    StageLocal(s, t);
    forall u | u in s.g.unsignalled ensures u in Woken(wake) {
      OneUnsignalled(s, u, wake.value);
    }
    forall u | u in s'.g.signalled ensures u < |s.threads| && s.threads[u].side != s.threads[t].side {
      StageLocal(s, u);
      if s.threads[u].side == s.threads[t].side {
        OneOwner(On(s, s.threads[t].side), s.threads[t].side, s.threads, u, t);
      }
    }
  }

  lemma TransferHalves(s: State, t: nat, wake: Option<nat>)
    requires HalfOk(s.add, Add, s.threads) && HalfOk(s.get, Get, s.threads)
    requires t < |s.threads| && s.threads[t].pc.Transferring?
    ensures var s' := Transfer(s, t, wake); HalfOk(s'.add, Add, s'.threads) && HalfOk(s'.get, Get, s'.threads)
  {
    hide HalfOk;
    var th' := Transfer(s, t, wake).threads[t];
    if th'.side == Add {
      ServeHalf(s.add, Add, s.threads, t, th');
      HalfOther(s.get, Get, s.threads, t, th');
    } else {
      ServeHalf(s.get, Get, s.threads, t, th');
      HalfOther(s.add, Add, s.threads, t, th');
    }
  }

  lemma TransferStages(s: State, t: nat, wake: Option<nat>)
    requires SharedOk(s) && t < |s.threads| && s.threads[t].pc.Transferring? && SignalChoice(s.g.unsignalled, wake)
    ensures var s' := Transfer(s, t, wake);
      Stages(s'.add.flag, s'.get.flag, s'.g, s'.threads) && Closing(s'.g, s'.threads)
  {
    hide Stages, Waiters, Closing;
    var s' := Transfer(s, t, wake);
    var th' := s'.threads[t];
    StageLocal(s, t);
    StagesMove(s.add.flag, s.get.flag, s.g, s'.add.flag, s'.get.flag, s'.g, s.threads, t, th');
    ClosingStay(s.g, s'.g, s.threads, t, th');
  }

  lemma TransferKeepsInv(s: State, t: nat, wake: Option<nat>)
    requires Inv(s) && t < |s.threads| && s.threads[t].pc.Transferring? && SignalChoice(s.g.unsignalled, wake)
    ensures Inv(Transfer(s, t, wake))
  {
    hide HalfOk, Stages, Waiters, Closing;
    var s' := Transfer(s, t, wake);
    StageLocal(s, t);
    TransferHalves(s, t, wake);
    TransferWaiters(s, t, wake);
    TransferStages(s, t, wake);
    assert s.g.contents != [] ==> s.g.contents == [s.g.contents[0]] + s.g.contents[1..];
    assert Buffer(s'.g);
  }

  // ---- Every step, every run ----

  lemma NextKeepsInv(s: State, a: Action)
    requires Inv(s) && Enabled(s, a)
    ensures Inv(Next(s, a))
  {
    hide Inv;
    match a {
      case Begin(t, side, async, element) => CallKeepsInv(s, t, side, async, element);
      case BeginClose(t) => BeginCloseKeepsInv(s, t);
      case Go(t, wake, oom) =>
        match s.threads[t].pc {
          case Idle =>
          case Requesting => RequestKeepsInv(s, t, oom);
          case LockWait(_) => LockResumeKeepsInv(s, t);
          case Granted(_) => EnterMutexKeepsInv(s, t);
          case Checking(_) => CheckKeepsInv(s, t, oom);
          case Blocking(_) => BlockWeakKeepsInv(s, t);
          case Stuck(_) => if s.threads[t].async { RefuseKeepsInv(s, t); } else { WaitKeepsInv(s, t); }
          case CondWait(_) => CondResumeKeepsInv(s, t);
          case Opening(_) => AllowWeakKeepsInv(s, t);
          case Transferring(_) => TransferKeepsInv(s, t, wake);
          case GivingUp(_, r) => UnlockKeepsInv(s, t, Leaving(r));
          case Leaving(_) => LeaveKeepsInv(s, t);
          case Unlocking(_) => UnlockKeepsInv(s, t, Exiting(Ok));
          case Exiting(_) => ExitKeepsInv(s, t, wake);
          case CloseEnter => CloseEnterKeepsInv(s, t);
          case CloseMutexed => CloseMutexedKeepsInv(s, t);
          case CloseChecking => if s.g.closed { CloseAgainKeepsInv(s, t); } else { CloseFirstKeepsInv(s, t); }
          case CloseLoop => if s.g.count == 0 { CloseFinishKeepsInv(s, t, wake); }
            else { CloseSignalKeepsInv(s, t, wake); }
          case CloseWait => CloseResumeKeepsInv(s, t);
        }
    }
  }

  lemma {:induction false} NoCalls(ths: seq<Thread>)
    requires forall t :: 0 <= t < |ths| ==> ths[t].pc == Idle
    ensures CountCalls(ths) == 0
  {
    if ths != [] {
      NoCalls(ths[1..]);
    }
  }

  lemma InitialHalf(side: Side, ths: seq<Thread>)
    requires forall t :: 0 <= t < |ths| ==> ths[t].pc == Idle
    ensures HalfOk(Half(FL.Initial, false, []), side, ths)
  {
  }

  lemma InitialInv(s: State)
    requires IsInitial(s)
    ensures Inv(s)
  {
    NoCalls(s.threads);
    InitialHalf(Add, s.threads);
    InitialHalf(Get, s.threads);
    hide HalfOk;
  }

  lemma {:induction false} RunKeepsInv(run: seq<State>, actions: seq<Action>, i: nat)
    requires IsRun(run, actions) && i < |run|
    ensures Inv(run[i])
  {
    hide Inv, Next, Enabled, IsInitial;
    if i == 0 {
      InitialInv(run[0]);
    } else {
      RunKeepsInv(run, actions, i - 1);
      NextKeepsInv(run[i - 1], actions[i - 1]);
      assert run[i] == Next(run[i - 1], actions[i - 1]);
    }
  }
}
