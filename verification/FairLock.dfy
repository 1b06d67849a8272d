/** The fair lock of fair_lock.h as a state machine.

    One step is one critical section of the lock's internal mutex, or the half of a
    pthread_cond_wait that runs after the signal.  Every request that is not refused
    on arrival gets a ticket, its arrival number; entries of the condition queue are
    represented by their tickets.  The last four fields are history: who asked, who was
    granted the lock (in order), who was abandoned, and who holds the lock now. */
module FairLock {

  datatype Request = Request(thread: nat, weak: bool)

  datatype Lock = Lock(
    acquired: bool,
    waiting: int,
    blockWeak: bool,
    queue: seq<nat>,         // the condition queue, front first
    woken: set<nat>,         // dequeued and signalled by unlock, not yet running again
    abandoned: set<nat>,     // taken out of the queue by block, not yet running again
    arrivals: seq<Request>,
    granted: seq<nat>,
    dropped: set<nat>,
    holders: set<nat>)

  const Initial := Lock(false, 0, false, [], {}, {}, [], [], {}, {})

  datatype Outcome = Refused | Queued | Acquired

  // ---- The critical sections ----

  function EnterOutcome(l: Lock, weak: bool): Outcome {
    if weak && l.blockWeak then Refused
    else if l.acquired || l.waiting > 0 then Queued
    else Acquired
  }

  function Enter(l: Lock, thread: nat, weak: bool): Lock {
    var n := |l.arrivals|;
    match EnterOutcome(l, weak)
    case Refused => l
    case Queued =>
      l.(waiting := l.waiting + 1, queue := l.queue + [n], arrivals := l.arrivals + [Request(thread, weak)])
    case Acquired =>
      l.(acquired := true, arrivals := l.arrivals + [Request(thread, weak)],
         granted := l.granted + [n], holders := l.holders + {n})
  }

  function Resume(l: Lock, n: nat): Lock {
    if n in l.abandoned then l.(abandoned := l.abandoned - {n})
    else l.(woken := l.woken - {n}, waiting := l.waiting - 1, acquired := true,
            granted := l.granted + [n], holders := l.holders + {n})
  }

  function Unlock(l: Lock, n: nat): Lock {
    if l.queue == [] then l.(acquired := false, holders := l.holders - {n})
    else l.(queue := l.queue[1..], woken := l.woken + {l.queue[0]}, acquired := false, holders := l.holders - {n})
  }

  predicate IsWeak(n: nat, arrivals: seq<Request>) {
    n < |arrivals| && arrivals[n].weak
  }

  /** The strong entries of a queue, in order. */
  function Strong(q: seq<nat>, arrivals: seq<Request>): (r: seq<nat>) {
    if q == [] then []
    else if IsWeak(q[0], arrivals) then Strong(q[1..], arrivals)
    else [q[0]] + Strong(q[1..], arrivals)
  }

  function Weak(q: seq<nat>, arrivals: seq<Request>): (r: set<nat>) {
    if q == [] then {}
    else if IsWeak(q[0], arrivals) then {q[0]} + Weak(q[1..], arrivals)
    else Weak(q[1..], arrivals)
  }

  function Block(l: Lock): Lock {
    var keep := Strong(l.queue, l.arrivals);
    var drop := Weak(l.queue, l.arrivals);
    l.(blockWeak := true, queue := keep, waiting := l.waiting - (|l.queue| - |keep|),
       abandoned := l.abandoned + drop, dropped := l.dropped + drop)
  }

  function Allow(l: Lock): Lock {
    l.(blockWeak := false)
  }

  // ---- Runs ----

  datatype Event =
    | EvEnter(thread: nat, weak: bool)
    | EvResume(n: nat)
    | EvUnlock(n: nat)
    | EvBlock
    | EvAllow

  /** What the lock demands of its callers: only a signalled waiter resumes, only a holder unlocks. */
  ghost predicate Enabled(l: Lock, e: Event) {
    match e
    case EvEnter(_, _) => true
    case EvResume(n) => n in l.woken || n in l.abandoned
    case EvUnlock(n) => n in l.holders
    case EvBlock => true
    case EvAllow => true
  }

  ghost function Apply(l: Lock, e: Event): Lock
    requires Enabled(l, e)
  {
    match e
    case EvEnter(t, w) => Enter(l, t, w)
    case EvResume(n) => Resume(l, n)
    case EvUnlock(n) => Unlock(l, n)
    case EvBlock => Block(l)
    case EvAllow => Allow(l)
  }

  /** A run: any interleaving of enabled critical sections from the initial lock. */
  ghost predicate IsRun(run: seq<Lock>, events: seq<Event>) {
    && |run| == |events| + 1
    && run[0] == Initial
    && forall i :: 0 <= i < |events| ==> Enabled(run[i], events[i]) && run[i + 1] == Apply(run[i], events[i])
  }

  // ---- The invariant ----

  ghost predicate Increasing(s: seq<nat>) {
    forall i, j :: 0 <= i < j < |s| ==> s[i] < s[j]
  }

  ghost predicate Below(s: seq<nat>, bound: nat) {
    forall i :: 0 <= i < |s| ==> s[i] < bound
  }

  ghost predicate AtMostOne(s: set<nat>) {
    forall a, b :: a in s && b in s ==> a == b
  }

  ghost predicate MutualExclusion(l: Lock) {
    && AtMostOne(l.holders)
    && AtMostOne(l.woken)
    && (l.acquired <==> l.holders != {})
    && (l.acquired ==> l.woken == {})
  }

  ghost predicate NobodyStranded(l: Lock) {
    && l.waiting == |l.queue| + |l.woken|
    && (l.queue != [] ==> l.acquired || l.woken != {})
  }

  /** Every ticket is in exactly one place, and places are ordered by arrival. */
  ghost predicate Ordered(l: Lock) {
    && Increasing(l.queue)
    && Increasing(l.granted)
    && (forall i, m :: 0 <= i < |l.granted| && m in l.woken ==> l.granted[i] < m)
    && (forall i, j :: 0 <= i < |l.granted| && 0 <= j < |l.queue| ==> l.granted[i] < l.queue[j])
    && (forall n, j :: n in l.woken && 0 <= j < |l.queue| ==> n < l.queue[j])
  }

  ghost predicate Accounted(l: Lock) {
    && Below(l.queue, |l.arrivals|)
    && Below(l.granted, |l.arrivals|)
    && (forall n :: n in l.woken ==> n < |l.arrivals|)
    && (forall n :: n in l.dropped ==> n < |l.arrivals| && l.arrivals[n].weak)
    && (forall n: nat :: n < |l.arrivals| ==> n in l.queue || n in l.granted || n in l.woken || n in l.dropped)
    && (forall n :: n in l.dropped ==> n !in l.queue && n !in l.granted && n !in l.woken)
    && l.abandoned <= l.dropped
    && (forall n :: n in l.holders ==> l.granted != [] && n == l.granted[|l.granted| - 1])
  }

  /** While weak locks are blocked, only strong requests wait in the queue. */
  ghost predicate WeakRefused(l: Lock) {
    l.blockWeak ==> forall i :: 0 <= i < |l.queue| ==> !IsWeak(l.queue[i], l.arrivals)
  }

  ghost predicate Inv(l: Lock) {
    MutualExclusion(l) && NobodyStranded(l) && Ordered(l) && Accounted(l) && WeakRefused(l)
  }

  // ---- Abandoning is an order-preserving filter ----

  /** Strong keeps exactly the strong entries, Weak exactly the others. */
  lemma {:induction false} FilterMembers(q: seq<nat>, arrivals: seq<Request>, n: nat)
    ensures n in Strong(q, arrivals) <==> n in q && !IsWeak(n, arrivals)
    ensures n in Weak(q, arrivals) <==> n in q && IsWeak(n, arrivals)
  {
    if q != [] {
      FilterMembers(q[1..], arrivals, n);
      assert q == [q[0]] + q[1..];
    }
  }

  /** Strong keeps the order of the queue. */
  lemma {:induction false} FilterKeepsOrder(q: seq<nat>, arrivals: seq<Request>, lo: nat)
    requires Below(q, |arrivals|) && Increasing(q)
    requires forall i :: 0 <= i < |q| ==> lo <= q[i]
    ensures var r := Strong(q, arrivals);
      Increasing(r) && Below(r, |arrivals|) && forall i :: 0 <= i < |r| ==> lo <= r[i]
  {
    if q != [] {
      var t := q[1..];
      assert forall i :: 0 <= i < |t| ==> t[i] == q[i + 1];
      FilterKeepsOrder(t, arrivals, q[0] + 1);
      var r, r' := Strong(q, arrivals), Strong(t, arrivals);
      if !IsWeak(q[0], arrivals) {
        assert r == [q[0]] + r';
        assert forall i :: 1 <= i < |r| ==> r[i] == r'[i - 1];
      }
    }
  }

  /** Nothing is counted twice or lost. */
  lemma {:induction false} FilterCounts(q: seq<nat>, arrivals: seq<Request>)
    requires Increasing(q)
    ensures |Strong(q, arrivals)| + |Weak(q, arrivals)| == |q|
  {
    if q != [] {
      FilterCounts(q[1..], arrivals);
      FilterMembers(q[1..], arrivals, q[0]);
    }
  }

  // ---- Every critical section keeps the invariant ----

  lemma EnterKeepsOrder(l: Lock, thread: nat, weak: bool)
    requires Inv(l)
    ensures Ordered(Enter(l, thread, weak)) && WeakRefused(Enter(l, thread, weak))
  {
    if EnterOutcome(l, weak) == Acquired {
      assert l.queue == [] && l.woken == {};
    }
  }

  lemma EnterKeepsAccounts(l: Lock, thread: nat, weak: bool)
    requires Accounted(l)
    ensures Accounted(Enter(l, thread, weak)) || EnterOutcome(l, weak) == Acquired
    ensures l.holders == {} ==> Accounted(Enter(l, thread, weak))
  {
  }

  lemma EnterKeepsInv(l: Lock, thread: nat, weak: bool)
    requires Inv(l)
    ensures Inv(Enter(l, thread, weak))
  {
    hide Ordered, Accounted, WeakRefused;
    EnterKeepsOrder(l, thread, weak);
    EnterKeepsAccounts(l, thread, weak);
  }

  lemma ResumeKeepsInv(l: Lock, n: nat)
    requires Inv(l) && (n in l.woken || n in l.abandoned)
    ensures Inv(Resume(l, n))
  {
    var l' := Resume(l, n);
    if n in l.woken {
      assert l.woken == {n};
      assert l'.woken == {};
      assert l'.holders == {n};
    }
  }

  lemma UnlockKeepsOrder(l: Lock, n: nat)
    requires Inv(l) && n in l.holders
    ensures var l' := Unlock(l, n); MutualExclusion(l') && NobodyStranded(l') && Ordered(l') && WeakRefused(l')
  {
    hide Accounted;
    var l' := Unlock(l, n);
    assert l.holders == {n};
    assert l'.holders == {};
    if l.queue != [] {
      assert l'.woken == {l.queue[0]};
      assert l.queue == [l.queue[0]] + l'.queue;
    }
  }

  lemma UnlockKeepsAccounts(l: Lock, n: nat)
    requires Inv(l) && n in l.holders
    ensures Accounted(Unlock(l, n))
  {
    hide NobodyStranded, WeakRefused;
    var l' := Unlock(l, n);
    assert l.holders == {n};
    if l.queue != [] {
      assert l.queue == [l.queue[0]] + l'.queue;
    }
  }

  lemma UnlockKeepsInv(l: Lock, n: nat)
    requires Inv(l) && n in l.holders
    ensures Inv(Unlock(l, n))
  {
    hide MutualExclusion, NobodyStranded, Ordered, Accounted, WeakRefused, Unlock;
    UnlockKeepsOrder(l, n);
    UnlockKeepsAccounts(l, n);
  }

  lemma BlockKeepsOrder(l: Lock)
    requires Inv(l)
    ensures Ordered(Block(l)) && NobodyStranded(Block(l))
  {
    FilterKeepsOrder(l.queue, l.arrivals, if l.queue == [] then 0 else l.queue[0]);
    FilterCounts(l.queue, l.arrivals);
  }

  lemma BlockKeepsAccounts(l: Lock)
    requires Inv(l)
    ensures Accounted(Block(l))
  {
    var l' := Block(l);
    FilterKeepsOrder(l.queue, l.arrivals, 0);
    forall n: nat ensures n < |l.arrivals| ==> n in l'.queue || n in l'.granted || n in l'.woken || n in l'.dropped {
      FilterMembers(l.queue, l.arrivals, n);
    }
    forall n | n in l'.dropped ensures IsWeak(n, l'.arrivals) && n !in l'.queue && n !in l'.granted && n !in l'.woken {
      FilterMembers(l.queue, l.arrivals, n);
    }
  }

  lemma BlockKeepsInv(l: Lock)
    requires Inv(l)
    ensures Inv(Block(l))
  {
    BlockKeepsOrder(l);
    BlockKeepsAccounts(l);
    var q := Block(l).queue;
    forall i | 0 <= i < |q| ensures !IsWeak(q[i], l.arrivals) {
      FilterMembers(l.queue, l.arrivals, q[i]);
    }
  }

  lemma AllowKeepsInv(l: Lock)
    requires Inv(l)
    ensures Inv(Allow(l))
  {
  }

  lemma ApplyKeepsInv(l: Lock, e: Event)
    requires Inv(l) && Enabled(l, e)
    ensures Inv(Apply(l, e))
  {
    match e
    case EvEnter(t, w) => EnterKeepsInv(l, t, w);
    case EvResume(n) => ResumeKeepsInv(l, n);
    case EvUnlock(n) => UnlockKeepsInv(l, n);
    case EvBlock => BlockKeepsInv(l);
    case EvAllow => AllowKeepsInv(l);
  }

  lemma {:induction false} RunKeepsInv(run: seq<Lock>, events: seq<Event>, i: nat)
    requires IsRun(run, events) && i < |run|
    ensures Inv(run[i])
  {
    if i > 0 {
      RunKeepsInv(run, events, i - 1);
      ApplyKeepsInv(run[i - 1], events[i - 1]);
    }
  }

  // ---- What a critical section leaves alone ----

  /** Waiting inside the lock: queued, or signalled and not yet running again. */
  ghost predicate Parked(l: Lock, n: nat) {
    n in l.queue || n in l.woken || n in l.abandoned
  }

  /** Apart from ticket e, everybody keeps what they have: the lock, or a place inside it. */
  ghost predicate OthersUndisturbed(l: Lock, l': Lock, e: nat) {
    && l.arrivals <= l'.arrivals
    && (forall n: nat :: n != e ==> (n in l.holders <==> n in l'.holders))
    && (forall n: nat :: n != e ==> (Parked(l, n) <==> Parked(l', n)))
  }

  lemma EnterEffect(l: Lock, thread: nat, weak: bool)
    requires Inv(l)
    ensures var n, l' := |l.arrivals|, Enter(l, thread, weak);
      && OthersUndisturbed(l, l', n)
      && n !in l.granted && n !in l.holders && !Parked(l, n)
      && (n in l'.holders <==> EnterOutcome(l, weak) == Acquired)
      && (Parked(l', n) <==> EnterOutcome(l, weak) == Queued)
      && l'.blockWeak == l.blockWeak && l.granted <= l'.granted
      && (EnterOutcome(l, weak) != Refused ==> |l'.arrivals| == n + 1 && l'.arrivals[n] == Request(thread, weak))
  {
  }

  lemma ResumeEffect(l: Lock, n: nat)
    requires Inv(l) && (n in l.woken || n in l.abandoned)
    ensures var l' := Resume(l, n);
      && OthersUndisturbed(l, l', n)
      && n !in l.granted && !Parked(l', n)
      && (n in l'.holders <==> n !in l.abandoned)
      && l'.blockWeak == l.blockWeak && l.granted <= l'.granted
  {
    if n in l.abandoned {
      assert n in l.dropped;
    }
  }

  lemma UnlockEffect(l: Lock, n: nat)
    requires Inv(l) && n in l.holders
    ensures var l' := Unlock(l, n);
      && OthersUndisturbed(l, l', n)
      && n !in l'.holders && (Parked(l', n) ==> Parked(l, n))
      && l'.blockWeak == l.blockWeak && l'.granted == l.granted
  {
    if l.queue != [] {
      assert l.queue == [l.queue[0]] + l.queue[1..];
    }
  }

  /** Blocking weak locks moves weak waiters from the queue to the abandoned ones, and disturbs nobody. */
  lemma BlockEffect(l: Lock, e: nat)
    ensures OthersUndisturbed(l, Block(l), e)
    ensures Parked(l, e) <==> Parked(Block(l), e)
    ensures Block(l).blockWeak && Block(l).granted == l.granted && Block(l).holders == l.holders
  {
    forall n: nat ensures Parked(l, n) <==> Parked(Block(l), n) {
      FilterMembers(l.queue, l.arrivals, n);
    }
  }

  // ---- Main results over all runs ----

  /** At every instant of every run: one owner at most, no owner while a handoff is pending, and a
      queued thread always has somebody who will wake it. */
  lemma MutualExclusionAlways(run: seq<Lock>, events: seq<Event>, i: nat)
    requires IsRun(run, events) && i < |run|
    ensures |run[i].holders| + |run[i].woken| <= 1
    ensures run[i].acquired <==> run[i].holders != {}
    ensures run[i].waiting == |run[i].queue| + |run[i].woken|
    ensures run[i].queue != [] ==> |run[i].holders| + |run[i].woken| == 1
  {
    RunKeepsInv(run, events, i);
    Singleton(run[i].holders);
    Singleton(run[i].woken);
  }

  lemma Singleton(s: set<nat>)
    requires AtMostOne(s)
    ensures |s| <= 1
    ensures s != {} ==> |s| == 1
  {
    if s != {} {
      var x :| x in s;
      assert s == {x};
    }
  }

  lemma {:induction false} GrantsOnlyGrow(run: seq<Lock>, events: seq<Event>, i: nat, j: nat)
    requires IsRun(run, events) && i <= j < |run|
    ensures run[i].granted <= run[j].granted
    decreases j
  {
    if i < j {
      GrantsOnlyGrow(run, events, i, j - 1);
      assert run[j] == Apply(run[j - 1], events[j - 1]);
    }
  }

  /** First come, first served: by the time ticket m has been granted, every earlier ticket has been
      granted before it, or was a weak request that was abandoned and never gets the lock. */
  lemma FirstComeFirstServed(run: seq<Lock>, events: seq<Event>, j: nat, n: nat, k: nat)
    requires IsRun(run, events) && j < |run|
    requires k < |run[j].granted| && n < run[j].granted[k]
    ensures n < |run[j].arrivals|
    ensures n in run[j].granted[..k] || (n in run[j].dropped && run[j].arrivals[n].weak)
    ensures n in run[j].granted ==> n !in run[j].dropped
  {
    RunKeepsInv(run, events, j);
    var l := run[j];
    var m := l.granted[k];
    assert m in l.granted;
    assert n < |l.arrivals|;
    if n in l.granted {
      var i :| 0 <= i < |l.granted| && l.granted[i] == n;
      assert i < k;
      assert n == l.granted[..k][i];
    }
  }
}
