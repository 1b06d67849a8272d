/** What the calls of the blocking queue give back, over every run: a call returns Ok exactly when it transferred, the
    p-th getter served returns what the p-th adder served was called with, and a blocking call is never refused. */
module BlockingQueueCalls {
  import opened Wrappers
  import FL = FairLock
  import opened BlockingQueue
  import S = BlockingQueueSafety
  import R = BlockingQueueResults

  // ---- Calls ----

  /** Since action b began it, thread t has been in one and the same call up to state m. */
  ghost predicate IsCall(run: seq<State>, actions: seq<Action>, t: nat, b: nat, m: nat) {
    && IsRun(run, actions) && b < m < |run| && actions[b].Begin? && actions[b].t == t
    && forall j :: b < j <= m ==> t < |run[j].threads| && S.InCall(run[j].threads[t].pc)
  }

  /** Action k is the one in which thread t enqueues or dequeues. */
  ghost predicate Moves(run: seq<State>, actions: seq<Action>, t: nat, k: nat)
    requires IsRun(run, actions)
  {
    && k < |actions| && actions[k].Go? && actions[k].t == t && t < |run[k].threads|
    && run[k].threads[t].pc.Transferring?
  }

  /** Past its transfer, on the way to return Ok. */
  predicate Done(pc: Pc) {
    pc.Unlocking? || R.Carries(pc, Ok)
  }

  // ---- One step ----

  /** A thread's own step inside a call. */
  ghost predicate OwnStep(s: State, s': State, t: nat)
    requires t < |s.threads| && t < |s'.threads|
  {
    var th, th' := s.threads[t], s'.threads[t];
    && th'.side == th.side && th'.async == th.async
    && (S.InCall(th'.pc) ==> (Done(th'.pc) <==> th.pc.Transferring? || Done(th.pc)))
    && (th.pc.Transferring? && th.side == Get ==> s.g.contents != [] ==> th'.element == s.g.contents[0])
    && (!(th.pc.Transferring? && th.side == Get) ==> th'.element == th.element)
  }

  /** On the way to the mutex. */
  predicate Arriving(pc: Pc) {
    pc.Requesting? || pc.LockWait? || pc.Granted?
  }

  lemma OwnArriving(s: State, a: Action)
    requires Enabled(s, a) && a.Go? && Arriving(s.threads[a.t].pc)
    ensures a.t < |Next(s, a).threads| && OwnStep(s, Next(s, a), a.t)
  {
    hide FL.Enter, FL.Block, FL.Unlock, FL.Allow, FL.Resume;
  }

  lemma OwnEarly(s: State, a: Action)
    requires Enabled(s, a) && a.Go? && S.InCall(s.threads[a.t].pc) && R.Early(s.threads[a.t].pc)
    requires !Arriving(s.threads[a.t].pc)
    ensures a.t < |Next(s, a).threads| && OwnStep(s, Next(s, a), a.t)
  {
    hide FL.Enter, FL.Block, FL.Unlock, FL.Allow, FL.Resume;
  }

  lemma OwnLate(s: State, a: Action)
    requires Enabled(s, a) && a.Go? && S.InCall(s.threads[a.t].pc) && !R.Early(s.threads[a.t].pc)
    ensures a.t < |Next(s, a).threads| && OwnStep(s, Next(s, a), a.t)
  {
    hide FL.Enter, FL.Block, FL.Unlock, FL.Allow, FL.Resume;
  }

  lemma Own(s: State, a: Action)
    requires Enabled(s, a) && a.Go? && S.InCall(s.threads[a.t].pc)
    ensures a.t < |Next(s, a).threads| && OwnStep(s, Next(s, a), a.t)
  {
    hide Next, OwnStep;
    if Arriving(s.threads[a.t].pc) { OwnArriving(s, a); }
    else if R.Early(s.threads[a.t].pc) { OwnEarly(s, a); }
    else { OwnLate(s, a); }
  }

  /** The records of a step: only a transfer adds to them. */
  ghost predicate Recorded(s: State, a: Action, s': State)
    requires a.t < |s.threads|
  {
    var th := s.threads[a.t];
    var moved := a.Go? && th.pc.Transferring?;
    && s'.g.added == (if moved && th.side == Add then s.g.added + [th.element] else s.g.added)
    && s'.g.taken ==
       (if moved && th.side == Get && s.g.contents != [] then s.g.taken + [s.g.contents[0]] else s.g.taken)
    && |s'.add.served| == |s.add.served| + (if moved && th.side == Add then 1 else 0)
    && |s'.get.served| == |s.get.served| + (if moved && th.side == Get then 1 else 0)
  }

  lemma RecordedEarly(s: State, a: Action)
    requires Enabled(s, a) && R.Early(s.threads[a.t].pc)
    ensures Recorded(s, a, Next(s, a))
  {
    hide FL.Enter, FL.Block, FL.Unlock, FL.Allow, FL.Resume;
  }

  lemma RecordedMiddle(s: State, a: Action)
    requires Enabled(s, a) && !R.Early(s.threads[a.t].pc) && !R.Closing(s.threads[a.t].pc)
    ensures Recorded(s, a, Next(s, a))
  {
    hide FL.Enter, FL.Block, FL.Unlock, FL.Allow, FL.Resume;
  }

  lemma RecordedClosing(s: State, a: Action)
    requires Enabled(s, a) && R.Closing(s.threads[a.t].pc)
    ensures Recorded(s, a, Next(s, a))
  {
    hide FL.Enter, FL.Block, FL.Unlock, FL.Allow, FL.Resume;
  }

  lemma StepRecorded(s: State, a: Action)
    requires Enabled(s, a)
    ensures Recorded(s, a, Next(s, a))
  {
    hide Next, Recorded;
    if R.Early(s.threads[a.t].pc) { RecordedEarly(s, a); }
    else if R.Closing(s.threads[a.t].pc) { RecordedClosing(s, a); }
    else { RecordedMiddle(s, a); }
  }

  /** The same for the step to state m, with what the others leave alone. */
  lemma RunStepped(run: seq<State>, actions: seq<Action>, m: nat, t: nat)
    requires IsRun(run, actions) && m < |actions| && t < |run[m].threads|
    ensures t < |run[m + 1].threads| && Enabled(run[m], actions[m]) && Recorded(run[m], actions[m], run[m + 1])
    ensures actions[m].t != t ==> run[m + 1].threads[t] == run[m].threads[t]
    ensures actions[m].t == t && S.InCall(run[m].threads[t].pc) ==> actions[m].Go? && OwnStep(run[m], run[m + 1], t)
    ensures actions[m].t == t && actions[m].Begin? ==>
              var a := actions[m]; run[m + 1].threads[t] == Thread(Requesting, a.side, a.async, a.element)
    ensures actions[m].t == t && !S.InCall(run[m].threads[t].pc) && S.InCall(run[m + 1].threads[t].pc) ==>
              actions[m].Begin?
    ensures actions[m].t == t && actions[m].Begin? ==> !S.InCall(run[m].threads[t].pc)
  {
    hide Next, OwnStep, Recorded;
    R.RunStep(run, actions, m);
    var s, a := run[m], actions[m];
    StepRecorded(s, a);
    R.OthersAbandon(s, a, Add);
    if a.t == t && S.InCall(s.threads[t].pc) {
      assert a.Go?;
      Own(s, a);
    } else if a.t == t {
      OwnStart(s, a);
    }
  }

  lemma OwnStart(s: State, a: Action)
    requires Enabled(s, a) && !S.InCall(s.threads[a.t].pc)
    ensures a.t < |Next(s, a).threads|
    ensures if a.Begin? then Next(s, a).threads[a.t] == Thread(Requesting, a.side, a.async, a.element)
            else !S.InCall(Next(s, a).threads[a.t].pc)
  {
  }

  // ---- Inside a call ----

  /** Whether the call has transferred, and what it holds: before the transfer, and always on the add side, the element
      it was called with; after it, on the get side, the element that was first in the queue. */
  ghost predicate Told(run: seq<State>, actions: seq<Action>, t: nat, b: nat, m: nat, k: nat)
    requires IsCall(run, actions, t, b, m)
  {
    var th, a := run[m].threads[t], actions[b];
    && th.side == a.side && th.async == a.async
    && (Done(th.pc) ==> b < k < m && Moves(run, actions, t, k))
    && (forall j :: b < j < m && Moves(run, actions, t, j) ==> Done(th.pc) && j == k)
    && (if Done(th.pc) && a.side == Get then
          run[k].g.contents != [] && th.element == run[k].g.contents[0]
        else th.element == a.element)
  }

  lemma {:induction false} CallTells(run: seq<State>, actions: seq<Action>, t: nat, b: nat, m: nat) returns (k: nat)
    requires IsCall(run, actions, t, b, m)
    ensures Told(run, actions, t, b, m, k)
  {
    hide OwnStep, Recorded, Enabled, Next;
    if m == b + 1 {
      k := 0;
      ThreadThere(run, actions, b, t);
      RunStepped(run, actions, b, t);
    } else {
      k := CallTells(run, actions, t, b, m - 1);
      k := ToldStep(run, actions, t, b, m - 1, k);
    }
  }

  lemma ToldStep(run: seq<State>, actions: seq<Action>, t: nat, b: nat, m: nat, k: nat) returns (k': nat)
    requires IsCall(run, actions, t, b, m) && Told(run, actions, t, b, m, k) && IsCall(run, actions, t, b, m + 1)
    ensures Told(run, actions, t, b, m + 1, k')
  {
    hide Recorded, Enabled, Next;
    RunStepped(run, actions, m, t);
    k' := k;
    if Moves(run, actions, t, m) {
      Transferable(run, actions, m, t);
      k' := m;
    }
  }

  lemma Transferable(run: seq<State>, actions: seq<Action>, i: nat, t: nat)
    requires IsRun(run, actions) && i < |run| && t < |run[i].threads| && run[i].threads[t].pc.Transferring?
    ensures run[i].threads[t].side == Get ==> run[i].g.contents != []
  {
    R.WaitingIsSafe(run, actions, i, t, t);
  }

  lemma ThreadThere(run: seq<State>, actions: seq<Action>, i: nat, t: nat)
    requires IsRun(run, actions) && i < |actions| && actions[i].t == t
    ensures t < |run[i].threads|
  {
  }

  /** A call returns Ok if and only if it transferred, and it transfers at most once. */
  lemma OkExactly(run: seq<State>, actions: seq<Action>, t: nat, b: nat, m: nat)
    requires IsCall(run, actions, t, b, m) && run[m].threads[t].pc.Exiting?
    ensures run[m].threads[t].pc.r == Ok <==> exists k :: b < k < m && Moves(run, actions, t, k)
    ensures forall j, k :: b < j < m && b < k < m && Moves(run, actions, t, j) && Moves(run, actions, t, k) ==> j == k
  {
    hide IsRun, Moves;
    var k := CallTells(run, actions, t, b, m);
  }

  /** A thread in a call began it. */
  lemma {:induction false} CallBegan(run: seq<State>, actions: seq<Action>, t: nat, m: nat) returns (b: nat)
    requires IsRun(run, actions) && m < |run| && t < |run[m].threads| && S.InCall(run[m].threads[t].pc)
    ensures IsCall(run, actions, t, b, m)
  {
    hide OwnStep, Recorded, Enabled, Next;
    if m > 0 {
      SameThreads(run, actions, m - 1);
      RunStepped(run, actions, m - 1, t);
      if S.InCall(run[m - 1].threads[t].pc) {
        b := CallBegan(run, actions, t, m - 1);
      } else {
        b := m - 1;
      }
    } else {
      assert false;
    }
  }

  lemma SameThreads(run: seq<State>, actions: seq<Action>, i: nat)
    requires IsRun(run, actions) && i < |actions|
    ensures |run[i + 1].threads| == |run[i].threads|
  {
    hide Next, Enabled;
    R.RunStep(run, actions, i);
    R.OthersAbandon(run[i], actions[i], Add);
  }

  /** As many callers have been served on each side as elements have passed there. */
  lemma {:induction false} ServedCounts(run: seq<State>, actions: seq<Action>, i: nat)
    requires IsRun(run, actions) && i < |run|
    ensures |run[i].add.served| == |run[i].g.added| && |run[i].get.served| == |run[i].g.taken|
  {
    hide Next, Enabled;
    if i > 0 {
      ServedCounts(run, actions, i - 1);
      var t := actions[i - 1].t;
      R.RunStep(run, actions, i - 1);
      ThreadThere(run, actions, i - 1, t);
      StepRecorded(run[i - 1], actions[i - 1]);
      if run[i - 1].threads[t].pc.Transferring? {
        Transferable(run, actions, i - 1, t);
      }
    }
  }

  /** The p-th element added is the one its adder was called with. */
  lemma {:induction false} AddedBy(run: seq<State>, actions: seq<Action>, i: nat, p: nat)
    returns (t: nat, b: nat, k: nat)
    requires IsRun(run, actions) && i < |run| && p < |run[i].g.added|
    ensures k < i && IsCall(run, actions, t, b, k) && Moves(run, actions, t, k)
    ensures actions[b].side == Add && |run[k].add.served| == p && run[i].g.added[p] == actions[b].element
  {
    hide Next, Enabled;
    if i == 0 {
      assert false;
    } else {
      t := actions[i - 1].t;
      R.RunStep(run, actions, i - 1);
      ThreadThere(run, actions, i - 1, t);
      StepRecorded(run[i - 1], actions[i - 1]);
      if p < |run[i - 1].g.added| {
        t, b, k := AddedBy(run, actions, i - 1, p);
      } else {
        k := i - 1;
        b := CallBegan(run, actions, t, k);
        var j := CallTells(run, actions, t, b, k);
        ServedCounts(run, actions, k);
      }
    }
  }

  /** When a getter that was served as the p-th returns, it returns the element that the p-th adder served was called
      with; that one was served before. */
  lemma Handover(run: seq<State>, actions: seq<Action>, t: nat, b: nat, m: nat)
    returns (k: nat, t': nat, b': nat, k': nat)
    requires IsCall(run, actions, t, b, m) && actions[b].side == Get && run[m].threads[t].pc == Exiting(Ok)
    ensures b < k < m && Moves(run, actions, t, k)
    ensures k' < k && IsCall(run, actions, t', b', k') && Moves(run, actions, t', k') && actions[b'].side == Add
    ensures |run[k'].add.served| == |run[k].get.served|
    ensures run[m].threads[t].element == actions[b'].element
  {
    hide IsRun, Moves, Next, Enabled;
    k := CallTells(run, actions, t, b, m);
    var p := |run[k].g.taken|;
    R.Conservation(run, actions, k);
    ServedCounts(run, actions, k);
    t', b', k' := AddedBy(run, actions, k, p);
  }

  // ---- Refusals ----

  lemma NotAbandoned(s: State, t: nat)
    requires S.Inv(s) && t < |s.threads| && s.threads[t].pc.LockWait? && !s.threads[t].async
    ensures s.threads[t].pc.n !in On(s, s.threads[t].side).lock.abandoned
  {
    var th := s.threads[t];
    assert S.HalfOk(On(s, th.side), th.side, s.threads);
    assert S.TicketOk(On(s, th.side).lock, th, t);
  }

  lemma OwnRefusals(s: State, a: Action)
    requires Enabled(s, a) && a.Go? && R.Early(s.threads[a.t].pc) && S.InCall(s.threads[a.t].pc)
    requires !s.threads[a.t].async && !R.Carries(s.threads[a.t].pc, Refused)
    requires var th := s.threads[a.t]; th.pc.LockWait? ==> th.pc.n !in On(s, th.side).lock.abandoned
    ensures !R.Carries(Next(s, a).threads[a.t].pc, Refused)
  {
    hide FL.Enter, FL.Block, FL.Unlock, FL.Allow, FL.Resume;
  }

  /** Past the wait a call keeps the result it carries. */
  lemma LateResults(s: State, a: Action, r: Result)
    requires Enabled(s, a) && a.Go? && !R.Early(s.threads[a.t].pc) && !R.Closing(s.threads[a.t].pc) && r != Ok
    requires !R.Carries(s.threads[a.t].pc, r)
    ensures !R.Carries(Next(s, a).threads[a.t].pc, r)
  {
    hide FL.Enter, FL.Block, FL.Unlock, FL.Allow, FL.Resume;
  }

  /** A blocking call never returns full or empty. */
  lemma {:induction false} NeverRefused(run: seq<State>, actions: seq<Action>, t: nat, b: nat, m: nat)
    requires IsCall(run, actions, t, b, m) && !actions[b].async
    ensures !R.Carries(run[m].threads[t].pc, Refused)
  {
    hide Next, OwnStep, Recorded, Enabled, S.Inv;
    if m == b + 1 {
      ThreadThere(run, actions, b, t);
      RunStepped(run, actions, b, t);
    } else {
      NeverRefused(run, actions, t, b, m - 1);
      var k := CallTells(run, actions, t, b, m - 1);
      RunStepped(run, actions, m - 1, t);
      R.RunStep(run, actions, m - 1);
      var s, a := run[m - 1], actions[m - 1];
      if a.t == t {
        S.RunKeepsInv(run, actions, m - 1);
        if s.threads[t].pc.LockWait? {
          NotAbandoned(s, t);
        }
        if R.Early(s.threads[t].pc) { OwnRefusals(s, a); } else { LateResults(s, a, Refused); }
      }
    }
  }

  lemma OwnErrors(s: State, a: Action)
    requires Enabled(s, a) && a.Go? && R.Early(s.threads[a.t].pc) && S.InCall(s.threads[a.t].pc)
    requires !R.Carries(s.threads[a.t].pc, Error) && !a.outOfMemory
    ensures !R.Carries(Next(s, a).threads[a.t].pc, Error)
  {
    hide FL.Enter, FL.Block, FL.Unlock, FL.Allow, FL.Resume;
  }

  /** A call returns an error only if memory ran out in one of its steps. */
  lemma {:induction false} ErrorsAreMemory(run: seq<State>, actions: seq<Action>, t: nat, b: nat, m: nat)
    returns (j: nat)
    requires IsCall(run, actions, t, b, m) && R.Carries(run[m].threads[t].pc, Error)
    ensures b < j < m && actions[j].Go? && actions[j].t == t && actions[j].outOfMemory
  {
    hide Next, OwnStep, Recorded, Enabled;
    if m == b + 1 {
      ThreadThere(run, actions, b, t);
      RunStepped(run, actions, b, t);
      assert false;
    } else {
      RunStepped(run, actions, m - 1, t);
      R.RunStep(run, actions, m - 1);
      var s, a := run[m - 1], actions[m - 1];
      if R.Carries(s.threads[t].pc, Error) {
        j := ErrorsAreMemory(run, actions, t, b, m - 1);
      } else {
        j := m - 1;
        if !a.outOfMemory {
          if R.Early(s.threads[t].pc) { OwnErrors(s, a); } else { LateResults(s, a, Error); }
          assert false;
        }
      }
    }
  }

  // ---- Growing ----

  lemma GrowsEarly(s: State, a: Action)
    requires Enabled(s, a) && R.Early(s.threads[a.t].pc)
    ensures var g, g' := s.g, Next(s, a).g;
            g'.capacity == g.capacity || (g.boundless && |g.contents| == g.capacity && g'.capacity == 2 * g.capacity)
  {
    hide FL.Enter, FL.Block, FL.Unlock, FL.Allow, FL.Resume;
  }

  lemma StaysLate(s: State, a: Action)
    requires Enabled(s, a) && !R.Early(s.threads[a.t].pc)
    ensures Next(s, a).g.capacity == s.g.capacity
  {
    hide FL.Enter, FL.Block, FL.Unlock, FL.Allow, FL.Resume;
  }

  /** Only a full boundless queue grows, and then to twice its capacity. */
  lemma GrowsWhenFull(run: seq<State>, actions: seq<Action>, i: nat)
    requires IsRun(run, actions) && i < |actions|
    ensures var g, g' := run[i].g, run[i + 1].g;
            g'.capacity == g.capacity || (g.boundless && |g.contents| == g.capacity && g'.capacity == 2 * g.capacity)
  {
    hide Next, Enabled;
    R.RunStep(run, actions, i);
    var s, a := run[i], actions[i];
    ThreadThere(run, actions, i, a.t);
    if R.Early(s.threads[a.t].pc) { GrowsEarly(s, a); } else { StaysLate(s, a); }
  }

  // ---- Closing ----

  lemma NoTransfer(run: seq<State>, actions: seq<Action>, i: nat)
    requires IsRun(run, actions) && i < |actions| && run[i].g.closed
    ensures run[i + 1].g.closed && forall t: nat :: !Moves(run, actions, t, i)
    ensures var g, g' := run[i].g, run[i + 1].g;
            g'.added == g.added && g'.taken == g.taken && g'.contents == g.contents
  {
    hide Next, Enabled, S.HalfOk, S.Stages, S.Waiters, S.Closing, IsInitial;
    S.RunKeepsInv(run, actions, i);
    S.RunKeepsInv(run, actions, i + 1);
    R.StaysClosed(run, actions, i, i + 1);
    R.RunStep(run, actions, i);
    ThreadThere(run, actions, i, actions[i].t);
    S.StageLocal(run[i], actions[i].t);
    StepRecorded(run[i], actions[i]);
    SameRest(run[i].g.taken, run[i].g.contents, run[i + 1].g.contents);
  }

  lemma SameRest(taken: seq<int>, a: seq<int>, b: seq<int>)
    ensures taken + a == taken + b ==> a == b
  {
    assert (taken + a)[|taken|..] == a && (taken + b)[|taken|..] == b;
  }

  /** Once the queue is closed, no call transfers any more, and what it holds stays in it. */
  lemma {:induction false} ClosedFreezes(run: seq<State>, actions: seq<Action>, i: nat, j: nat)
    requires IsRun(run, actions) && i <= j < |run| && run[i].g.closed
    ensures run[j].g.closed && run[j].g.contents == run[i].g.contents
    ensures run[j].g.added == run[i].g.added && run[j].g.taken == run[i].g.taken
    ensures forall t: nat, k: nat :: i <= k < j ==> !Moves(run, actions, t, k)
    decreases j
  {
    hide Next, Enabled, IsInitial, Moves;
    if i < j {
      ClosedFreezes(run, actions, i, j - 1);
      NoTransfer(run, actions, j - 1);
    }
  }
}
