/** The fair lock's linked data: the condition queue and the pool of entries, rewired in place.
    Every critical section of fair_lock.h is a method, proved to take the abstract lock one step further. */
module FairLockList {
  import FL = FairLock

  class Entry {
    var weak: bool
    var abandoned: bool
    var signalled: bool     // the entry's condition variable was signalled
    var next: Entry?
    ghost var ticket: nat

    constructor ()
      ensures next == null
    {
      next := null;
    }
  }

  /** The entries of s, linked in this order, starting at head and ending in null. */
  ghost predicate Chain(s: seq<Entry>, head: Entry?)
    reads s
  {
    && head == (if s == [] then null else s[0])
    && forall i {:trigger s[i].next} :: 0 <= i < |s| ==> s[i].next == if i + 1 < |s| then s[i + 1] else null
  }

  /** The entries of s, linked in this order, the last one to target. */
  ghost predicate Segment(s: seq<Entry>, target: Entry?)
    reads s
  {
    forall i {:trigger s[i].next} :: 0 <= i < |s| ==> s[i].next == if i + 1 < |s| then s[i + 1] else target
  }

  function Last(s: seq<Entry>): (e: Entry?) {
    if s == [] then null else s[|s| - 1]
  }

  ghost predicate Distinct(s: seq<Entry>) {
    forall i, j :: 0 <= i < j < |s| ==> s[i] != s[j]
  }

  ghost predicate Apart(s: seq<Entry>, p: seq<Entry>) {
    forall i, j :: 0 <= i < |s| && 0 <= j < |p| ==> s[i] != p[j]
  }

  /** The entries among the first i of q that are not marked weak in w. */
  ghost function Kept(q: seq<Entry>, w: seq<bool>, i: nat): (r: seq<Entry>)
    requires i <= |q| == |w|
    ensures |r| <= i
  {
    if i == 0 then [] else if w[i - 1] then Kept(q, w, i - 1) else Kept(q, w, i - 1) + [q[i - 1]]
  }

  lemma KeptStart(q: seq<Entry>, w: seq<bool>)
    requires |q| == |w|
    ensures Kept(q, w, 0) == []
  {
  }

  lemma KeptStep(q: seq<Entry>, w: seq<bool>, i: nat)
    requires i < |q| == |w|
    ensures Kept(q, w, i + 1) == if w[i] then Kept(q, w, i) else Kept(q, w, i) + [q[i]]
    ensures q[i] == q[i..][0]
  {
  }

  lemma {:induction false} KeptDistinct(q: seq<Entry>, w: seq<bool>, i: nat)
    requires i <= |q| == |w| && Distinct(q)
    ensures Distinct(Kept(q, w, i)) && Apart(Kept(q, w, i), q[i..])
  {
    if i > 0 {
      KeptDistinct(q, w, i - 1);
      assert q[i - 1] == q[i - 1..][0];
      assert forall k :: 0 <= k < |q[i..]| ==> q[i..][k] == q[i - 1..][k + 1];
    }
  }

  /** The kept entries are entries of q in front of the i-th. */
  lemma KeptApart(q: seq<Entry>, w: seq<bool>, i: nat)
    requires i < |q| == |w| && Distinct(q)
    ensures Distinct(Kept(q, w, i)) && Apart(Kept(q, w, i), [q[i]]) && Apart(Kept(q, w, i), q[i + 1..])
    ensures Apart([q[i]], q[i + 1..]) && forall k :: 0 <= k < |q| && k != i ==> q[k] != q[i]
    ensures forall k :: 0 <= k < |Kept(q, w, i)| ==> Kept(q, w, i)[k] in q
  {
    KeptDistinct(q, w, i);
    assert q[i] == q[i..][0];
    assert q[i + 1..] == q[i..][1..];
    forall k | 0 <= k < |Kept(q, w, i)| ensures Kept(q, w, i)[k] in q {
      var m := KeptIndex(q, w, i, k);
    }
  }

  /** The k-th kept entry stands at a place of q that is not marked weak. */
  lemma {:induction false} KeptIndex(q: seq<Entry>, w: seq<bool>, i: nat, k: nat) returns (m: nat)
    requires i <= |q| == |w| && k < |Kept(q, w, i)|
    ensures m < i && !w[m] && Kept(q, w, i)[k] == q[m]
  {
    if w[i - 1] || k < |Kept(q, w, i)| - 1 {
      m := KeptIndex(q, w, i - 1, k);
    } else {
      m := i - 1;
    }
  }

  ghost function Dropped(q: seq<Entry>, w: seq<bool>): (d: set<Entry>)
    requires |q| == |w|
  {
    set i | 0 <= i < |w| && w[i] :: q[i]
  }

  /** Entries that were in one place only still are, when the dropped ones leave q and start to fly. */
  lemma KeptPlaces(q: seq<Entry>, w: seq<bool>, p: seq<Entry>, f: set<Entry>)
    requires |q| == |w| && Distinct(q) && Apart(q, p)
    requires (forall i :: 0 <= i < |q| ==> q[i] !in f) && (forall i :: 0 <= i < |p| ==> p[i] !in f)
    ensures var r, g := Kept(q, w, |w|), f + Dropped(q, w);
      && Distinct(r) && Apart(r, p)
      && (forall i :: 0 <= i < |r| ==> r[i] !in g) && (forall i :: 0 <= i < |p| ==> p[i] !in g)
  {
    hide Kept;
    KeptDistinct(q, w, |w|);
    var r, g := Kept(q, w, |w|), f + Dropped(q, w);
    forall k | 0 <= k < |r| ensures r[k] !in g && forall m :: 0 <= m < |p| ==> r[k] != p[m] {
      var m := KeptIndex(q, w, |w|, k);
    }
  }

  lemma {:induction false} StrongSnoc(ts: seq<nat>, x: nat, arrivals: seq<FL.Request>)
    ensures FL.Strong(ts + [x], arrivals) == FL.Strong(ts, arrivals) + (if FL.IsWeak(x, arrivals) then [] else [x])
  {
    if ts == [] {
      assert ts + [x] == [x];
    } else {
      StrongSnoc(ts[1..], x, arrivals);
      assert (ts + [x])[1..] == ts[1..] + [x];
    }
  }

  /** On tickets, keeping the unmarked entries is the order-preserving filter to the strong ones. */
  lemma {:induction false} KeptStrong(q: seq<Entry>, w: seq<bool>, ts: seq<nat>, arrivals: seq<FL.Request>, i: nat)
    requires i <= |q| == |w| == |ts|
    requires forall k :: 0 <= k < |w| ==> w[k] == FL.IsWeak(ts[k], arrivals)
    requires forall k :: 0 <= k < |q| ==> q[k].ticket == ts[k]
    ensures var r, s := Kept(q, w, i), FL.Strong(ts[..i], arrivals);
      |r| == |s| && forall k :: 0 <= k < |r| ==> r[k].ticket == s[k]
  {
    if i > 0 {
      KeptStrong(q, w, ts, arrivals, i - 1);
      StrongSnoc(ts[..i - 1], ts[i - 1], arrivals);
      assert ts[..i] == ts[..i - 1] + [ts[i - 1]];
    }
  }

  ghost function IndexOf(s: seq<nat>, n: nat): (i: nat)
    requires n in s
    ensures i < |s| && s[i] == n
  {
    var i :| 0 <= i < |s| && s[i] == n;
    i
  }

  /** The entries in flight are those of the woken and of the abandoned requests: each request has exactly one. */
  ghost predicate Matched(flying: set<Entry>, woken: set<nat>, abandoned: set<nat>)
    reads flying
  {
    && (forall e :: e in flying ==> e.signalled && if e.abandoned then e.ticket in abandoned else e.ticket in woken)
    && (forall e, f :: e in flying && f in flying && e.ticket == f.ticket ==> e == f)
    && (forall n :: n in woken || n in abandoned ==> exists e :: e in flying && e.ticket == n)
  }

  lemma MatchedMore(flying: set<Entry>, e: Entry, woken: set<nat>, abandoned: set<nat>)
    requires Matched(flying, woken, abandoned) && e.signalled && !e.abandoned && e.ticket !in woken &&
             e.ticket !in abandoned
    ensures Matched(flying + {e}, woken + {e.ticket}, abandoned)
  {
    forall n | n in woken + {e.ticket} || n in abandoned ensures exists f :: f in flying + {e} && f.ticket == n {
      if n != e.ticket {
        var f :| f in flying && f.ticket == n;
        assert f in flying + {e};
      } else {
        assert e in flying + {e};
      }
    }
  }

  class LinkedLock {
    var front: Entry?
    var rear: Entry?
    var pool: Entry?
    var acquired: bool
    var waiting: int
    var blockWeak: bool

    ghost var queue: seq<Entry>
    ghost var pooled: seq<Entry>
    ghost var flying: set<Entry>    // signalled entries whose threads have not run yet
    ghost var model: FL.Lock

    /** The two lists are what the pointers say, and no entry is in two places. */
    ghost predicate Linked()
      reads this`front, this`rear, this`pool, this`queue, this`pooled, this`flying, queue, pooled
    {
      && Chain(queue, front) && rear == (if queue == [] then null else queue[|queue| - 1])
      && Chain(pooled, pool)
      && Distinct(queue) && Distinct(pooled) && Apart(queue, pooled)
      && (forall i :: 0 <= i < |queue| ==> queue[i] !in flying)
      && (forall i :: 0 <= i < |pooled| ==> pooled[i] !in flying)
    }

    ghost predicate QueueAgrees()
      reads this`model, this`queue, queue
    {
      && |model.queue| == |queue|
      && (forall i :: 0 <= i < |queue| ==>
            && queue[i].ticket == model.queue[i] && !queue[i].abandoned
            && queue[i].weak == FL.IsWeak(model.queue[i], model.arrivals))
    }

    ghost predicate FlyingAgrees()
      reads this`model, this`flying, flying
    {
      Matched(flying, model.woken, model.abandoned)
    }

    ghost predicate Valid()
      reads this, queue, pooled, flying
    {
      && Linked() && QueueAgrees() && FlyingAgrees() && FL.Inv(model)
      && acquired == model.acquired && waiting == model.waiting && blockWeak == model.blockWeak
    }

    constructor ()
      ensures Valid() && model == FL.Initial && queue == [] && pooled == [] && flying == {}
    {
      front, rear, pool := null, null, null;
      acquired, waiting, blockWeak := false, 0, false;
      queue, pooled, flying, model := [], [], {}, FL.Initial;
    }

    /** The first part of enqueue_cond_queue_entry: an empty pool gets a new entry. */
    method Refill()
      requires Chain(pooled, pool) && Distinct(pooled) && Apart(queue, pooled)
      modifies this`pool, this`pooled
      ensures Chain(pooled, pool) && Distinct(pooled) && Apart(queue, pooled) && pooled != []
      ensures if old(pooled) == [] then |pooled| == 1 && fresh(pooled[0]) else pooled == old(pooled)
    {
      if pool == null {
        pool := new Entry();
        pooled := [pool];
      }
    }

    /** The second part: the pool's first entry is linked at the rear of the queue. */
    method LinkEntry(isWeak: bool, ghost n: nat) returns (e: Entry)
      requires Chain(queue, front) && rear == (if queue == [] then null else queue[|queue| - 1])
      requires Chain(pooled, pool) && Distinct(queue) && Distinct(pooled) && Apart(queue, pooled) && pooled != []
      modifies this`front, this`rear, this`pool, this`queue, this`pooled, queue`next, pooled
      ensures e == old(pooled)[0] && queue == old(queue) + [e] && pooled == old(pooled)[1..]
      ensures Chain(queue, front) && rear == e && Chain(pooled, pool)
      ensures e.weak == isWeak && !e.abandoned && e.ticket == n
    {
      e := pool;
      e.weak, e.abandoned, e.signalled, e.ticket := isWeak, false, false, n;
      if front != null {
        rear.next := e;
        rear := e;
      } else {
        front, rear := e, e;
      }
      pool := pool.next;
      rear.next := null;
      queue, pooled := queue + [e], pooled[1..];
    }

    /** The entries of q before the i-th that are weak by w, and no others, are marked and signalled. */
    ghost predicate Marked(q: seq<Entry>, w: seq<bool>, i: nat)
      requires |q| == |w|
      reads q
    {
      forall k :: 0 <= k < |q| ==>
        q[k].abandoned == (k < i && w[k]) && (k < i && w[k] ==> q[k].signalled)
    }

    /** Where the walk stands before the i-th entry of q, with the kept entries s behind it. */
    ghost predicate Walk(q: seq<Entry>, s: seq<Entry>, i: nat, first: Entry?, last: Entry?, current: Entry?)
      reads q, s
    {
      && i <= |q| && current == (if i < |q| then q[i] else null)
      && first == (if s == [] then null else s[0]) && last == Last(s)
      && Segment(s, current) && Segment(q[i..], null)
    }

    lemma WalkNext(q: seq<Entry>, s: seq<Entry>, i: nat, first: Entry?, last: Entry?, current: Entry)
      requires Walk(q, s, i, first, last, current)
      ensures i < |q| && current == q[i] && current.next == (if i + 1 < |q| then q[i + 1] else null)
      ensures Segment(s, current) && last == Last(s) && first == (if s == [] then null else s[0])
      ensures Segment(q[i + 1..], null)
    {
      assert q[i] == q[i..][0];
      assert q[i + 1..] == q[i..][1..];
    }

    /** The walk passes a strong entry: nothing changes. */
    lemma WalkOn(q: seq<Entry>, w: seq<bool>, s: seq<Entry>, i: nat, first: Entry?, last: Entry?, current: Entry)
      requires |q| == |w| && i < |q| && !w[i] && Walk(q, s, i, first, last, current) && Marked(q, w, i)
      ensures Walk(q, s + [current], i + 1, if first == null then current else first, current, current.next)
      ensures Marked(q, w, i + 1)
    {
      WalkNext(q, s, i, first, last, current);
    }

    lemma WalkStart(q: seq<Entry>, w: seq<bool>, head: Entry?)
      requires Chain(q, head) && |q| == |w| && forall k :: 0 <= k < |q| ==> !q[k].abandoned
      ensures Walk(q, [], 0, null, null, head) && Marked(q, w, 0)
    {
      assert q[0..] == q;
    }

    lemma WalkEnd(q: seq<Entry>, w: seq<bool>, s: seq<Entry>, i: nat, first: Entry?, last: Entry?)
      requires |q| == |w| && Walk(q, s, i, first, last, null) && Marked(q, w, i)
      ensures i == |q| && Chain(s, first) && last == Last(s)
      ensures forall k :: 0 <= k < |q| ==> q[k].abandoned == w[k] && (w[k] ==> q[k].signalled)
    {
    }

    /** The walk at a weak entry: it is unlinked, marked and signalled. */
    method AbandonEntry(ghost q: seq<Entry>, ghost w: seq<bool>, ghost s: seq<Entry>, ghost i: nat,
                        ghost first: Entry?, last: Entry?, current: Entry)
      requires |q| == |w| && Distinct(q) && i < |q| && w[i] && s == Kept(q, w, i)
      requires Walk(q, s, i, first, last, current) && Marked(q, w, i)
      modifies this`waiting, q`next, q`abandoned, q`signalled
      ensures Walk(q, s, i + 1, first, last, current.next) && Marked(q, w, i + 1)
      ensures waiting == old(waiting) - 1
    {
      hide Kept, Distinct;
      WalkNext(q, s, i, first, last, current);
      KeptApart(q, w, i);
      assert [current][0] == current;
      if last != null {
        last.next := current.next;
      }
      current.abandoned := true;
      waiting := waiting - 1;
      current.signalled := true;
    }

    /** abandone_weak_locks: one walk along the queue unlinks, marks and signals the weak entries. */
    method AbandonWeakLocks(ghost w: seq<bool>)
      requires Chain(queue, front) && Distinct(queue) && |w| == |queue|
      requires forall i :: 0 <= i < |queue| ==> queue[i].weak == w[i] && !queue[i].abandoned
      modifies this`front, this`rear, this`waiting, this`queue, queue`next, queue`abandoned, queue`signalled
      ensures queue == Kept(old(queue), w, |w|) && Chain(queue, front) && rear == Last(queue)
      ensures waiting == old(waiting) - (|old(queue)| - |queue|)
      ensures forall i :: 0 <= i < |w| ==> var e := old(queue)[i]; e.abandoned == w[i] && (w[i] ==> e.signalled)
    {
      hide Kept, Walk, Marked, Distinct;
      ghost var q, i := queue, 0;
      ghost var s: seq<Entry> := [];
      KeptStart(q, w);
      var current: Entry?, first: Entry?, last: Entry? := front, null, null;
      WalkStart(q, w, front);
      while current != null
        invariant i <= |q| && Walk(q, s, i, first, last, current) && Marked(q, w, i) && s == Kept(q, w, i)
        invariant waiting == old(waiting) - (i - |s|)
        decreases |q| - i
      {
        WalkNext(q, s, i, first, last, current);
        KeptStep(q, w, i);
        if current.weak {
          AbandonEntry(q, w, s, i, first, last, current);
        } else {
          WalkOn(q, w, s, i, first, last, current);
          if first == null {
            first := current;
          }
          last := current;
          s := s + [current];
        }
        current := current.next;
        i := i + 1;
      }
      WalkEnd(q, w, s, i, first, last);
      front := first;
      rear := last;
      queue := s;
    }

    /** enqueue_cond_queue_entry as a whole. */
    method EnqueueEntry(isWeak: bool, ghost n: nat) returns (e: Entry)
      requires Linked()
      modifies this`front, this`rear, this`pool, this`queue, this`pooled, queue`next, pooled
      ensures Linked() && queue == old(queue) + [e]
      ensures e.weak == isWeak && !e.abandoned && e.ticket == n
      ensures forall x :: x in flying ==> unchanged(x)
      ensures forall i :: 0 <= i < |old(queue)| ==> var x := old(queue)[i];
                x.weak == old(x.weak) && x.abandoned == old(x.abandoned) && x.ticket == old(x.ticket)
    {
      Refill();
      e := LinkEntry(isWeak, n);
    }

    method QueueUp(ghost thread: nat, isWeak: bool) returns (e: Entry)
      requires Linked() && QueueAgrees() && FlyingAgrees() && waiting == model.waiting
      requires FL.Below(model.queue, |model.arrivals|) && FL.EnterOutcome(model, isWeak) == FL.Queued
      modifies this`front, this`rear, this`pool, this`queue, this`pooled, this`waiting, this`model, queue`next, pooled
      ensures Linked() && QueueAgrees() && FlyingAgrees() && waiting == model.waiting
      ensures model == FL.Enter(old(model), thread, isWeak) && e in queue && e.ticket == |old(model.arrivals)|
    {
      hide Linked;
      waiting := waiting + 1;
      e := EnqueueEntry(isWeak, |model.arrivals|);
      model := FL.Enter(model, thread, isWeak);
    }

    /** _fair_lock_lock up to the wait: refuse, take the lock, or queue up with an entry to wait on. */
    method Enter(ghost thread: nat, isWeak: bool) returns (outcome: FL.Outcome, e: Entry?)
      requires Valid()
      modifies this, queue`next, pooled
      ensures Valid() && model == FL.Enter(old(model), thread, isWeak) && flying == old(flying)
      ensures outcome == FL.EnterOutcome(old(model), isWeak)
      ensures outcome == FL.Queued <==> e != null
      ensures e != null ==> e in queue && e.ticket == |old(model.arrivals)|
    {
      hide FL.Inv, Linked, QueueAgrees, FlyingAgrees;
      FL.EnterKeepsInv(model, thread, isWeak);
      e := null;
      if isWeak && blockWeak {
        outcome := FL.Refused;
      } else if acquired || waiting > 0 {
        outcome := FL.Queued;
        EnterBelow(model);
        e := QueueUp(thread, isWeak);
      } else {
        outcome := FL.Acquired;
        acquired := true;
        EnterBelow(model);
        Advance(thread, isWeak);
      }
    }

    ghost method Advance(thread: nat, isWeak: bool)
      requires QueueAgrees() && FlyingAgrees() && FL.EnterOutcome(model, isWeak) == FL.Acquired
      requires FL.Below(model.queue, |model.arrivals|)
      modifies this`model
      ensures QueueAgrees() && FlyingAgrees() && model == FL.Enter(old(model), thread, isWeak)
    {
      model := FL.Enter(model, thread, isWeak);
    }

    /** dequeue_cond_queue_entry. */
    method DequeueEntry() returns (target: Entry?)
      requires Linked()
      modifies this`front, this`rear, this`queue
      ensures Linked() && target == (if old(queue) == [] then null else old(queue)[0])
      ensures queue == if old(queue) == [] then [] else old(queue)[1..]
    {
      if front == null {
        return null;
      }
      target := front;
      if target == rear {
        rear := null;
      }
      front := target.next;
      queue := queue[1..];
    }

    /** release_cond_queue_entry. */
    method ReleaseEntry(e: Entry)
      requires Linked() && e in flying
      modifies this`pool, this`pooled, this`flying, e`next
      ensures Linked() && flying == old(flying) - {e} && pooled == [e] + old(pooled)
      ensures forall i :: 0 <= i < |queue| ==> unchanged(queue[i])
    {
      e.next := pool;
      pool := e;
      pooled := [e] + pooled;
      flying := flying - {e};
    }

    method Handoff()
      requires Linked()
      modifies this`front, this`rear, this`queue, this`flying, queue`signalled
      ensures Linked() && queue == if old(queue) == [] then [] else old(queue)[1..]
      ensures flying == old(flying) + (if old(queue) == [] then {} else {old(queue)[0]})
      ensures old(queue) != [] ==> old(queue)[0].signalled
      ensures forall x :: x in old(flying) ==> unchanged(x)
    {
      ghost var q := queue;
      var target := DequeueEntry();
      if target != null {
        assert forall i :: 0 <= i < |queue| ==> q[0] != queue[i];
        assert forall i :: 0 <= i < |pooled| ==> q[0] != pooled[i];
        target.signalled := true;
        flying := flying + {target};
      }
    }

    ghost predicate PlacesApart()
      reads this`model
    {
      && model.woken !! model.abandoned
      && forall i :: 0 <= i < |model.queue| ==> model.queue[i] !in model.woken && model.queue[i] !in model.abandoned
    }

    method HandoffStep(ghost n: nat)
      requires Linked() && QueueAgrees() && FlyingAgrees() && PlacesApart()
      modifies this`front, this`rear, this`queue, this`flying, this`model, queue`signalled
      ensures Linked() && QueueAgrees() && FlyingAgrees() && model == FL.Unlock(old(model), n)
      ensures flying == old(flying) + (if old(queue) == [] then {} else {old(queue)[0]})
    {
      hide Linked, Matched, QueueAgrees, PlacesApart;
      ghost var q, fl := queue, flying;
      QueuedOne();
      Handoff();
      assert Matched(fl, model.woken, model.abandoned);
      HandoffModel(q, fl, n);
    }

    lemma QueuedOne()
      requires QueueAgrees() && PlacesApart()
      ensures |model.queue| == |queue|
      ensures forall i :: 0 <= i < |queue| ==>
                && queue[i].ticket == model.queue[i] && !queue[i].abandoned
                && queue[i].weak == FL.IsWeak(model.queue[i], model.arrivals)
      ensures queue != [] ==> model.queue[0] !in model.woken && model.queue[0] !in model.abandoned
    {
    }

    /** The model of a hand-over, once the lists are done. */
    ghost method HandoffModel(q: seq<Entry>, fl: set<Entry>, n: nat)
      requires |model.queue| == |q| && queue == (if q == [] then [] else q[1..])
      requires forall i :: 0 <= i < |q| ==>
                 && q[i].ticket == model.queue[i] && !q[i].abandoned
                 && q[i].weak == FL.IsWeak(model.queue[i], model.arrivals)
      requires q != [] ==> q[0].signalled && model.queue[0] !in model.woken && model.queue[0] !in model.abandoned
      requires flying == fl + (if q == [] then {} else {q[0]}) && Matched(fl, model.woken, model.abandoned)
      modifies this`model
      ensures QueueAgrees() && FlyingAgrees() && model == FL.Unlock(old(model), n)
    {
      hide Matched;
      if q != [] {
        MatchedMore(fl, q[0], model.woken, model.abandoned);
      } else {
        assert fl + {} == fl;
      }
      model := FL.Unlock(model, n);
      assert forall i :: 0 <= i < |model.queue| ==> model.queue[i] == old(model.queue)[i + 1] && queue[i] == q[i + 1];
    }

    /** fair_lock_unlock by the holder of ticket n: hands the lock over to the front of the queue. */
    method Unlock(ghost n: nat)
      requires Valid() && n in model.holders
      modifies this, queue`signalled
      ensures Valid() && model == FL.Unlock(old(model), n)
      ensures flying == old(flying) + (if old(queue) == [] then {} else {old(queue)[0]})
    {
      hide FL.Inv, Linked, QueueAgrees, FlyingAgrees;
      FL.UnlockKeepsInv(model, n);
      TicketPlaces(model);
      HandoffStep(n);
      acquired := false;
    }

    method ResumeStep(e: Entry)
      requires Linked() && QueueAgrees() && FlyingAgrees() && PlacesApart() && e in flying
      modifies this`pool, this`pooled, this`flying, this`model, e`next
      ensures Linked() && QueueAgrees() && FlyingAgrees() && model == FL.Resume(old(model), old(e.ticket))
      ensures flying == old(flying) - {e}
      ensures e.abandoned <==> e.ticket in old(model).abandoned
    {
      hide Linked;
      ReleaseEntry(e);
      model := FL.Resume(model, e.ticket);
    }

    /** _fair_lock_lock after the wait on entry e. */
    method Resume(e: Entry) returns (abandoned: bool)
      requires Valid() && e in flying
      modifies this, e`next
      ensures Valid() && model == FL.Resume(old(model), old(e.ticket)) && flying == old(flying) - {e}
      ensures abandoned == (old(e.ticket) in old(model).abandoned)
    {
      hide FL.Inv, Linked, QueueAgrees, FlyingAgrees;
      ResumeInv(model, e);
      TicketPlaces(model);
      ResumeStep(e);
      if e.abandoned {
        abandoned := true;
      } else {
        abandoned := false;
        waiting := waiting - 1;
        acquired := true;
      }
    }

    lemma ResumeInv(l: FL.Lock, e: Entry)
      requires l == model && FL.Inv(l) && FlyingAgrees() && e in flying
      ensures FL.Inv(FL.Resume(l, e.ticket))
    {
      hide FL.Inv;
      FL.ResumeKeepsInv(l, e.ticket);
    }

    /** fair_lock_block_weak_locks on the lists: unlink, mark and signal, and note who was abandoned. */
    method AbandonLinked(ghost w: seq<bool>)
      requires Linked() && |w| == |queue| && forall i :: 0 <= i < |queue| ==>
               queue[i].weak == w[i] && !queue[i].abandoned
      modifies this`front, this`rear, this`waiting, this`queue, this`flying, queue`next, queue`abandoned,
               queue`signalled
      ensures Linked() && queue == Kept(old(queue), w, |w|)
      ensures waiting == old(waiting) - (|old(queue)| - |queue|)
      ensures flying == old(flying) + Dropped(old(queue), w)
      ensures forall i :: 0 <= i < |w| ==> var e := old(queue)[i]; e.abandoned == w[i] && (w[i] ==> e.signalled)
      ensures forall x :: x in old(flying) ==> unchanged(x)
    {
      hide Kept, Distinct;
      ghost var q := queue;
      KeptPlaces(q, w, pooled, flying);
      AbandonWeakLocks(w);
      flying := flying + Dropped(q, w);
    }

    ghost method BlockModel(q: seq<Entry>, w: seq<bool>)
      requires |q| == |w| == |model.queue| && queue == Kept(q, w, |w|)
      requires FL.Increasing(model.queue) && PlacesApart()
      requires forall i :: 0 <= i < |q| ==>
                 q[i].ticket == model.queue[i] && q[i].weak == w[i] == FL.IsWeak(model.queue[i], model.arrivals)
      requires forall i :: 0 <= i < |q| ==> q[i].abandoned == w[i] && (w[i] ==> q[i].signalled)
      modifies this`model
      ensures model == FL.Block(old(model)) && QueueAgrees() && |queue| == |model.queue|
    {
      model := FL.Block(model);
      KeptStrong(q, w, old(model).queue, model.arrivals, |w|);
      assert old(model).queue[..|w|] == old(model).queue;
      forall k | 0 <= k < |queue|
        ensures queue[k].ticket == model.queue[k] && !queue[k].abandoned &&
                queue[k].weak == FL.IsWeak(model.queue[k], model.arrivals)
      {
        var m := KeptIndex(q, w, |w|, k);
      }
    }

    /** After the abandoned entries joined the flying ones, the signalled entries still agree with the model. */
    lemma BlockFlying(was: FL.Lock, old_flying: set<Entry>, q: seq<Entry>, w: seq<bool>)
      requires |q| == |w| == |was.queue| && FL.Increasing(was.queue) && model == FL.Block(was)
      requires flying == old_flying + Dropped(q, w)
      requires forall i :: 0 <= i < |q| ==>
                 && q[i].ticket == was.queue[i] && w[i] == FL.IsWeak(was.queue[i], was.arrivals)
                 && (w[i] ==> q[i].abandoned && q[i].signalled)
      requires Matched(old_flying, was.woken, was.abandoned)
      requires forall i :: 0 <= i < |was.queue| ==> was.queue[i] !in was.woken && was.queue[i] !in was.abandoned
      ensures FlyingAgrees()
    {
      forall e | e in flying
        ensures e.signalled && (if e.abandoned then e.ticket in model.abandoned else e.ticket in model.woken)
      {
        FL.FilterMembers(was.queue, was.arrivals, e.ticket);
      }
      forall n | n in model.woken || n in model.abandoned ensures exists e :: e in flying && e.ticket == n {
        FL.FilterMembers(was.queue, was.arrivals, n);
        if n in was.queue && w[IndexOf(was.queue, n)] {
          assert q[IndexOf(was.queue, n)] in Dropped(q, w);
        } else {
          var e :| e in old_flying && e.ticket == n;
          assert e in flying;
        }
      }
    }

    method BlockStep()
      requires Linked() && QueueAgrees() && FlyingAgrees() && PlacesApart() && FL.Increasing(model.queue)
      requires waiting == model.waiting
      modifies this`front, this`rear, this`waiting, this`queue, this`flying, this`model, queue
      ensures Linked() && QueueAgrees() && FlyingAgrees() && model == FL.Block(old(model)) && waiting == model.waiting
      ensures old(flying) <= flying
    {
      hide Linked, FL.Strong, FL.Weak, Matched, Dropped, Kept;
      ghost var was, q, fl := model, queue, flying;
      ghost var w := seq(|queue|, i requires 0 <= i < |queue| reads this, queue => queue[i].weak);
      AbandonLinked(w);
      assert Matched(fl, was.woken, was.abandoned);
      BlockModel(q, w);
      BlockFlying(was, fl, q, w);
    }

    /** fair_lock_block_weak_locks. */
    method BlockWeakLocks()
      requires Valid()
      modifies this, queue
      ensures Valid() && model == FL.Block(old(model))
      ensures old(flying) <= flying
    {
      hide FL.Inv, Linked, QueueAgrees, FlyingAgrees, FL.Strong, FL.Weak;
      FL.BlockKeepsInv(model);
      TicketPlaces(model);
      QueueIncreasing(model);
      blockWeak := true;
      BlockStep();
    }

    /** fair_lock_allow_weak_locks. */
    method AllowWeakLocks()
      requires Valid()
      modifies this`blockWeak, this`model
      ensures Valid() && model == FL.Allow(old(model))
    {
      hide FL.Inv, Linked;
      FL.AllowKeepsInv(model);
      blockWeak := false;
      model := FL.Allow(model);
    }
  }

  lemma QueueIncreasing(l: FL.Lock)
    requires FL.Inv(l)
    ensures FL.Increasing(l.queue)
  {
  }

  lemma EnterBelow(l: FL.Lock)
    requires FL.Inv(l)
    ensures FL.Below(l.queue, |l.arrivals|)
  {
  }

  lemma TicketPlaces(l: FL.Lock)
    requires FL.Inv(l)
    ensures l.woken !! l.abandoned
    ensures forall i :: 0 <= i < |l.queue| ==> l.queue[i] !in l.woken && l.queue[i] !in l.abandoned
  {
  }
}
