/** The guarantees of the blocking queue over every run: safe waiting, conservation, order, honest
    refusals, and termination of a close. */
module BlockingQueueResults {
  import opened Wrappers
  import FL = FairLock
  import opened BlockingQueue
  import opened BlockingQueueSafety

  // ---- Safety ----

  /** The wait that is not repeated in a loop is safe: at every instant of every run at most one thread
      waits unsignalled, that thread's side really is full or empty, and a thread that is about to run
      on after a signal finds room or an element, unless the queue was closed.  The conditions that the
      code asserts only in comments never fail. */
  lemma WaitingIsSafe(run: seq<State>, actions: seq<Action>, i: nat, t: nat, u: nat)
    requires IsRun(run, actions) && i < |run| && t < |run[i].threads|
    ensures !run[i].g.overrun
    ensures t in run[i].g.unsignalled && u in run[i].g.unsignalled ==> t == u
    ensures t in run[i].g.unsignalled ==> Blocked(run[i].g, run[i].threads[t].side)
    ensures t in run[i].g.signalled && !run[i].g.closed ==> Ready(run[i].g, run[i].threads[t].side)
    ensures run[i].threads[t].pc.Transferring? ==> Ready(run[i].g, run[i].threads[t].side)
  {
    RunKeepsInv(run, actions, i);
    hide HalfOk, IsRun;
    StageLocal(run[i], t);
    if t in run[i].g.unsignalled && u in run[i].g.unsignalled {
      OneUnsignalled(run[i], t, u);
    }
  }

  /** Elements come out in the order they went in, none lost, none twice. */
  lemma Conservation(run: seq<State>, actions: seq<Action>, i: nat)
    requires IsRun(run, actions) && i < |run|
    ensures run[i].g.added == run[i].g.taken + run[i].g.contents
    ensures |run[i].g.contents| <= run[i].g.capacity
    ensures !run[0].g.boundless ==> run[i].g.capacity == run[0].g.capacity
  {
    RunKeepsInv(run, actions, i);
    hide Inv;
    CapacityFixed(run, actions, i);
  }

  lemma {:induction false} CapacityFixed(run: seq<State>, actions: seq<Action>, i: nat)
    requires IsRun(run, actions) && i < |run|
    ensures run[i].g.boundless == run[0].g.boundless
    ensures !run[0].g.boundless ==> run[i].g.capacity == run[0].g.capacity
  {
    if i > 0 {
      CapacityFixed(run, actions, i - 1);
      hide IsRun;
      NextCapacity(run[i - 1], actions[i - 1]);
      assert run[i] == Next(run[i - 1], actions[i - 1]) by { RunStep(run, actions, i - 1); }
    }
  }

  lemma RunStep(run: seq<State>, actions: seq<Action>, i: nat)
    requires IsRun(run, actions) && i < |actions|
    ensures Enabled(run[i], actions[i]) && run[i + 1] == Next(run[i], actions[i])
  {
  }

  lemma NextCapacity(s: State, a: Action)
    requires Enabled(s, a)
    ensures Next(s, a).g.boundless == s.g.boundless
    ensures !s.g.boundless ==> Next(s, a).g.capacity == s.g.capacity
  {
  }

  // ---- Order of service ----

  /** Callers of one side are served in the order of their tickets, and what has been served stays served. */
  lemma ServiceOrder(run: seq<State>, actions: seq<Action>, i: nat, side: Side)
    requires IsRun(run, actions) && i < |run|
    ensures FL.Increasing(On(run[i], side).served)
    ensures i + 1 < |run| ==> On(run[i], side).served <= On(run[i + 1], side).served
  {
    RunKeepsInv(run, actions, i);
    assert HalfOk(On(run[i], side), side, run[i].threads);
    hide Inv, FL.Inv, Tickets;
    if i + 1 < |run| {
      RunStep(run, actions, i);
      hide IsRun;
      NextServed(run[i], actions[i], side);
    }
  }

  lemma NextServed(s: State, a: Action, side: Side)
    requires Enabled(s, a)
    ensures On(s, side).served <= On(Next(s, a), side).served
  {
  }

  // ---- Honest refusals ----

  predicate Carries(pc: Pc, r: Result) {
    (pc.GivingUp? || pc.Leaving? || pc.Exiting?) && pc.r == r
  }

  /** On the way to return BQ_FULL or BQ_EMPTY, or bound to because the weak request was abandoned. */
  ghost predicate Refusing(s: State, t: nat) {
    && t < |s.threads|
    && var th := s.threads[t];
      Carries(th.pc, Refused) || (th.pc.LockWait? && th.pc.n in On(s, th.side).lock.abandoned)
  }

  ghost predicate BlockedFor(s: State, t: nat) {
    t < |s.threads| && InCall(s.threads[t].pc) && Blocked(s.g, s.threads[t].side)
  }

  /** The stages of a call up to the wait. */
  predicate Early(pc: Pc) {
    pc.Idle? || pc.Requesting? || pc.LockWait? || pc.Granted? || pc.Checking? || pc.Blocking? || pc.Stuck? ||
      pc.CondWait?
  }

  predicate Closing(pc: Pc) {
    pc.CloseEnter? || pc.CloseMutexed? || pc.CloseChecking? || pc.CloseLoop? || pc.CloseWait?
  }

  /** Another thread's step abandons a request only when the queue is full, respectively empty. */
  lemma OthersAbandonEarly(s: State, a: Action, side: Side)
    requires Enabled(s, a) && Early(s.threads[a.t].pc)
    ensures |Next(s, a).threads| == |s.threads|
    ensures forall t :: 0 <= t < |s.threads| && t != a.t ==> Next(s, a).threads[t] == s.threads[t]
    ensures || On(Next(s, a), side).lock.abandoned <= On(s, side).lock.abandoned
            || (a.Go? && s.threads[a.t].pc.Blocking? && s.threads[a.t].side == side && Next(s, a).g == s.g)
  {
  }

  lemma OthersAbandonLate(s: State, a: Action, side: Side)
    requires Enabled(s, a) && !Early(s.threads[a.t].pc)
    ensures |Next(s, a).threads| == |s.threads|
    ensures forall t :: 0 <= t < |s.threads| && t != a.t ==> Next(s, a).threads[t] == s.threads[t]
    ensures On(Next(s, a), side).lock.abandoned <= On(s, side).lock.abandoned
  {
  }

  lemma OthersAbandon(s: State, a: Action, side: Side)
    requires Enabled(s, a)
    ensures |Next(s, a).threads| == |s.threads|
    ensures forall t :: 0 <= t < |s.threads| && t != a.t ==> Next(s, a).threads[t] == s.threads[t]
    ensures || On(Next(s, a), side).lock.abandoned <= On(s, side).lock.abandoned
            || (a.Go? && s.threads[a.t].pc.Blocking? && s.threads[a.t].side == side && Next(s, a).g == s.g)
  {
    hide Next;
    if Early(s.threads[a.t].pc) { OthersAbandonEarly(s, a, side); } else { OthersAbandonLate(s, a, side); }
  }

  /** A thread's own step starts a refusal only when the queue is full, respectively empty. */
  lemma OwnRefusalEarly(s: State, a: Action)
    requires Enabled(s, a) && Refusing(Next(s, a), a.t)
    requires StageOk(s.add.flag, s.get.flag, s.g, s.threads[a.t], a.t)
    requires FlagOk(s.add, Add, s.g) && FlagOk(s.get, Get, s.g)
    requires var l := On(s, s.threads[a.t].side).lock; !FL.Parked(l, |l.arrivals|)
    requires Early(s.threads[a.t].pc)
    ensures BlockedFor(Next(s, a), a.t) || Refusing(s, a.t)
  {
    hide FL.Block, FL.Unlock, FL.Allow, FL.Resume;
  }

  lemma OwnRefusalLate(s: State, a: Action)
    requires Enabled(s, a) && Refusing(Next(s, a), a.t)
    requires StageOk(s.add.flag, s.get.flag, s.g, s.threads[a.t], a.t)
    requires FlagOk(s.add, Add, s.g) && FlagOk(s.get, Get, s.g)
    requires var l := On(s, s.threads[a.t].side).lock; !FL.Parked(l, |l.arrivals|)
    requires !Early(s.threads[a.t].pc)
    ensures BlockedFor(Next(s, a), a.t) || Refusing(s, a.t)
  {
    hide FL.Block, FL.Unlock, FL.Allow, FL.Resume;
  }

  lemma OwnRefusal(s: State, a: Action)
    requires Enabled(s, a) && Refusing(Next(s, a), a.t)
    requires StageOk(s.add.flag, s.get.flag, s.g, s.threads[a.t], a.t)
    requires FlagOk(s.add, Add, s.g) && FlagOk(s.get, Get, s.g)
    requires var l := On(s, s.threads[a.t].side).lock; !FL.Parked(l, |l.arrivals|)
    ensures BlockedFor(Next(s, a), a.t) || Refusing(s, a.t)
  {
    hide Next;
    if Early(s.threads[a.t].pc) { OwnRefusalEarly(s, a); } else { OwnRefusalLate(s, a); }
  }

  lemma NextRefusing(s: State, a: Action, t: nat)
    requires Inv(s) && Enabled(s, a) && Refusing(Next(s, a), t)
    ensures BlockedFor(Next(s, a), t) || Refusing(s, t)
  {
    LockLocal(s, a.t);
    hide Enabled, Next, FL.Inv, FL.Enter, FL.OthersUndisturbed, FL.Parked, HalfOk, Waiters, Closing, Stages;
    StageLocal(s, a.t);
    if t == a.t {
      FL.EnterEffect(On(s, s.threads[a.t].side).lock, a.t, s.threads[a.t].async);
      OwnRefusal(s, a);
    } else {
      OthersAbandon(s, a, Next(s, a).threads[t].side);
    }
  }

  lemma NextSideEarly(s: State, a: Action, t: nat)
    requires Enabled(s, a) && t < |s.threads| && InCall(s.threads[t].pc)
    requires Early(s.threads[a.t].pc)
    ensures t < |Next(s, a).threads| && Next(s, a).threads[t].side == s.threads[t].side
  {
  }

  lemma NextSideLate(s: State, a: Action, t: nat)
    requires Enabled(s, a) && t < |s.threads| && InCall(s.threads[t].pc)
    requires !Early(s.threads[a.t].pc)
    ensures t < |Next(s, a).threads| && Next(s, a).threads[t].side == s.threads[t].side
  {
  }

  lemma NextSide(s: State, a: Action, t: nat)
    requires Enabled(s, a) && t < |s.threads| && InCall(s.threads[t].pc)
    ensures t < |Next(s, a).threads| && Next(s, a).threads[t].side == s.threads[t].side
  {
    hide Next;
    if Early(s.threads[a.t].pc) { NextSideEarly(s, a, t); } else { NextSideLate(s, a, t); }
  }

  lemma StartsIdle(run: seq<State>, actions: seq<Action>)
    requires IsRun(run, actions)
    ensures forall t :: 0 <= t < |run[0].threads| ==> !Refusing(run[0], t)
  {
  }

  /** A refusal is the truth about some instant of the call: whenever a thread is about to return BQ_FULL
      or BQ_EMPTY there was an instant since which it has been in this very call, and at which the queue
      was full, respectively empty. */
  lemma {:induction false} RefusalsAreHonest(run: seq<State>, actions: seq<Action>, i: nat, t: nat)
    returns (k: nat)
    requires IsRun(run, actions) && i < |run| && Refusing(run[i], t)
    ensures k <= i && forall j :: k <= j <= i ==> t < |run[j].threads| && InCall(run[j].threads[t].pc)
    ensures Blocked(run[k].g, run[i].threads[t].side)
  {
    hide Inv, Next, Enabled, Blocked;
    if BlockedFor(run[i], t) {
      k := i;
    } else {
      StartsIdle(run, actions);
      RunKeepsInv(run, actions, i - 1);
      RunStep(run, actions, i - 1);
      NextRefusing(run[i - 1], actions[i - 1], t);
      k := RefusalsAreHonest(run, actions, i - 1, t);
      NextSide(run[i - 1], actions[i - 1], t);
    }
  }

  /** And BQ_CLOSED is returned only when the queue is closed. */
  ghost predicate ClosedIsTrue(s: State) {
    forall t :: 0 <= t < |s.threads| && Carries(s.threads[t].pc, Closed) ==> s.g.closed
  }

  lemma {:induction false} ClosedIsHonest(run: seq<State>, actions: seq<Action>, i: nat)
    requires IsRun(run, actions) && i < |run|
    ensures ClosedIsTrue(run[i])
  {
    if i > 0 {
      ClosedIsHonest(run, actions, i - 1);
      RunStep(run, actions, i - 1);
      hide IsRun;
      NextClosed(run[i - 1], actions[i - 1]);
    }
  }

  lemma NextClosedEarly(s: State, a: Action)
    requires ClosedIsTrue(s) && Enabled(s, a)
    requires Early(s.threads[a.t].pc)
    ensures ClosedIsTrue(Next(s, a))
  {
  }

  lemma NextClosedLate(s: State, a: Action)
    requires ClosedIsTrue(s) && Enabled(s, a)
    requires !Early(s.threads[a.t].pc)
    ensures ClosedIsTrue(Next(s, a))
  {
  }

  lemma NextClosed(s: State, a: Action)
    requires ClosedIsTrue(s) && Enabled(s, a)
    ensures ClosedIsTrue(Next(s, a))
  {
    hide Next;
    if Early(s.threads[a.t].pc) { NextClosedEarly(s, a); } else { NextClosedLate(s, a); }
  }

  // ---- Progress ----

  /** How many steps a thread can still take, with the extra turn that its exit gives to a closing thread. */
  function Rank(pc: Pc): nat {
    match pc
    case Idle => 0
    case Requesting => 13
    case LockWait(_) => 12
    case Granted(_) => 11
    case Checking(_) => 10
    case Blocking(_) => 9
    case Stuck(_) => 8
    case CondWait(_) => 7
    case Opening(_) => 6
    case Transferring(_) => 5
    case GivingUp(_, _) => 5
    case Leaving(_) => 4
    case Unlocking(_) => 4
    case Exiting(_) => 3
    case CloseEnter => 5
    case CloseMutexed => 4
    case CloseChecking => 3
    case CloseLoop => 2
    case CloseWait => 1
  }

  function Ranks(ths: seq<Thread>): nat {
    if ths == [] then 0 else Rank(ths[0].pc) + Ranks(ths[1..])
  }

  function Measure(s: State): nat {
    Ranks(s.threads) + 2 * |s.g.destroySignalled|
  }

  lemma {:induction false} RanksUpdate(ths: seq<Thread>, t: nat, th: Thread)
    requires t < |ths|
    ensures Ranks(ths[t := th]) == Ranks(ths) - Rank(ths[t].pc) + Rank(th.pc)
  {
    if t == 0 {
      assert ths[t := th][1..] == ths[1..];
    } else {
      assert ths[t := th][1..] == ths[1..][t - 1 := th];
      RanksUpdate(ths[1..], t - 1, th);
    }
  }

  lemma StepMovesOneEarly(s: State, t: nat, wake: Option<nat>, oom: bool)
    requires Enabled(s, Go(t, wake, oom))
    requires Early(s.threads[t].pc)
    ensures var s' := Next(s, Go(t, wake, oom));
      |s'.threads| == |s.threads| && s'.threads == s.threads[t := s'.threads[t]]
  {
    hide FL.Enter, FL.Block, FL.Unlock, FL.Allow, FL.Resume;
  }

  lemma StepMovesOneLate(s: State, t: nat, wake: Option<nat>, oom: bool)
    requires Enabled(s, Go(t, wake, oom))
    requires !Early(s.threads[t].pc)
    ensures var s' := Next(s, Go(t, wake, oom));
      |s'.threads| == |s.threads| && s'.threads == s.threads[t := s'.threads[t]]
  {
    hide FL.Enter, FL.Block, FL.Unlock, FL.Allow, FL.Resume;
  }

  lemma StepMovesOne(s: State, t: nat, wake: Option<nat>, oom: bool)
    requires Enabled(s, Go(t, wake, oom))
    ensures var s' := Next(s, Go(t, wake, oom));
      |s'.threads| == |s.threads| && s'.threads == s.threads[t := s'.threads[t]]
  {
    hide Next;
    if Early(s.threads[t].pc) { StepMovesOneEarly(s, t, wake, oom); } else { StepMovesOneLate(s, t, wake, oom); }
  }

  /** Only the closing thread's return from its wait goes up, by one, and it uses up a signal. */
  ghost predicate RankDrops(s: State, t: nat, s': State) {
    && t < |s.threads| && t < |s'.threads|
    && Rank(s'.threads[t].pc) < Rank(s.threads[t].pc) + (if s.threads[t].pc.CloseWait? then 2 else 0)
  }

  lemma RankLocking(s: State, t: nat, wake: Option<nat>, oom: bool)
    requires Enabled(s, Go(t, wake, oom))
    requires s.threads[t].pc.Requesting? || s.threads[t].pc.LockWait? || s.threads[t].pc.Granted?
    ensures RankDrops(s, t, Next(s, Go(t, wake, oom)))
  {
    hide FL.Enter, FL.Block, FL.Unlock, FL.Allow, FL.Resume;
  }

  lemma RankChecking(s: State, t: nat, wake: Option<nat>, oom: bool)
    requires Enabled(s, Go(t, wake, oom))
    requires s.threads[t].pc.Checking? || s.threads[t].pc.Blocking? || s.threads[t].pc.Stuck? ||
             s.threads[t].pc.CondWait?
    ensures RankDrops(s, t, Next(s, Go(t, wake, oom)))
  {
    hide FL.Enter, FL.Block, FL.Unlock, FL.Allow, FL.Resume;
  }

  lemma RankLeaving(s: State, t: nat, wake: Option<nat>, oom: bool)
    requires Enabled(s, Go(t, wake, oom))
    requires s.threads[t].pc.Opening? || s.threads[t].pc.Transferring? || s.threads[t].pc.GivingUp? ||
             s.threads[t].pc.Leaving? || s.threads[t].pc.Unlocking? || s.threads[t].pc.Exiting?
    ensures RankDrops(s, t, Next(s, Go(t, wake, oom)))
  {
    hide FL.Enter, FL.Block, FL.Unlock, FL.Allow, FL.Resume;
  }

  lemma RankClosing(s: State, t: nat, wake: Option<nat>, oom: bool)
    requires Enabled(s, Go(t, wake, oom))
    requires s.threads[t].pc.CloseEnter? || s.threads[t].pc.CloseMutexed? || s.threads[t].pc.CloseChecking? ||
             s.threads[t].pc.CloseLoop? || s.threads[t].pc.CloseWait?
    ensures RankDrops(s, t, Next(s, Go(t, wake, oom)))
  {
    hide FL.Enter, FL.Block, FL.Unlock, FL.Allow, FL.Resume;
  }

  lemma StepRank(s: State, t: nat, wake: Option<nat>, oom: bool)
    requires Enabled(s, Go(t, wake, oom))
    ensures RankDrops(s, t, Next(s, Go(t, wake, oom)))
  {
    hide Next, RankDrops;
    match s.threads[t].pc {
      case Idle =>
      case Requesting => RankLocking(s, t, wake, oom);
      case LockWait(_) => RankLocking(s, t, wake, oom);
      case Granted(_) => RankLocking(s, t, wake, oom);
      case Checking(_) => RankChecking(s, t, wake, oom);
      case Blocking(_) => RankChecking(s, t, wake, oom);
      case Stuck(_) => RankChecking(s, t, wake, oom);
      case CondWait(_) => RankChecking(s, t, wake, oom);
      case CloseEnter => RankClosing(s, t, wake, oom);
      case CloseMutexed => RankClosing(s, t, wake, oom);
      case CloseChecking => RankClosing(s, t, wake, oom);
      case CloseLoop => RankClosing(s, t, wake, oom);
      case CloseWait => RankClosing(s, t, wake, oom);
      case _ => RankLeaving(s, t, wake, oom);
    }
  }

  lemma StepDestroyEarly(s: State, t: nat, wake: Option<nat>, oom: bool)
    requires Enabled(s, Go(t, wake, oom)) && Early(s.threads[t].pc)
    ensures Next(s, Go(t, wake, oom)).g.destroySignalled == s.g.destroySignalled
  {
    hide FL.Enter, FL.Block, FL.Unlock, FL.Allow, FL.Resume;
  }

  lemma StepDestroyLate(s: State, t: nat, wake: Option<nat>, oom: bool)
    requires Enabled(s, Go(t, wake, oom)) && !Early(s.threads[t].pc)
    ensures Next(s, Go(t, wake, oom)).g.destroySignalled ==
            if s.threads[t].pc.Exiting? then s.g.destroySignalled + Woken(wake)
            else if s.threads[t].pc.CloseWait? then s.g.destroySignalled - {t}
            else s.g.destroySignalled
  {
    hide FL.Enter, FL.Block, FL.Unlock, FL.Allow, FL.Resume;
  }

  lemma StepDestroy(s: State, t: nat, wake: Option<nat>, oom: bool)
    requires Enabled(s, Go(t, wake, oom))
    ensures Next(s, Go(t, wake, oom)).g.destroySignalled ==
            if s.threads[t].pc.Exiting? then s.g.destroySignalled + Woken(wake)
            else if s.threads[t].pc.CloseWait? then s.g.destroySignalled - {t}
            else s.g.destroySignalled
  {
    hide Next;
    if Early(s.threads[t].pc) { StepDestroyEarly(s, t, wake, oom); } else { StepDestroyLate(s, t, wake, oom); }
  }

  lemma StepEnds(s: State, t: nat, wake: Option<nat>, oom: bool)
    requires Enabled(s, Go(t, wake, oom))
    ensures s.threads[t].pc.Exiting? ==> Next(s, Go(t, wake, oom)).threads[t].pc == Idle
    ensures s.threads[t].pc.CloseWait? ==> t in s.g.destroySignalled
  {
  }

  /** Every step other than the start of a new call decreases the measure, whatever the interleaving. */
  lemma StepDecreases(s: State, t: nat, wake: Option<nat>, oom: bool)
    requires Enabled(s, Go(t, wake, oom))
    ensures Measure(Next(s, Go(t, wake, oom))) < Measure(s)
  {
    hide Next, Enabled;
    var s' := Next(s, Go(t, wake, oom));
    StepMovesOne(s, t, wake, oom);
    StepRank(s, t, wake, oom);
    StepDestroy(s, t, wake, oom);
    StepEnds(s, t, wake, oom);
    RanksUpdate(s.threads, t, s'.threads[t]);
    assert |s.g.destroySignalled + Woken(wake)| <= |s.g.destroySignalled| + 1;
    assert t in s.g.destroySignalled ==> |s.g.destroySignalled - {t}| == |s.g.destroySignalled| - 1;
  }

  /** Nobody can move without somebody starting a new call. */
  ghost predicate Quiescent(s: State) {
    forall t, wake, oom :: !Enabled(s, Go(t, wake, oom))
  }

  ghost function Choose(waiters: set<nat>): (wake: Option<nat>)
    ensures SignalChoice(waiters, wake)
  {
    if waiters == {} then None else var w :| w in waiters; Some(w)
  }

  /** Whoever waits unsignalled is a blocking call, and weak locks of its side are blocked, except at the
      moment when the other side is just about to signal it. */
  ghost predicate Patient(s: State, t: nat) {
    && t < |s.threads| && !s.threads[t].async
    && (On(s, s.threads[t].side).flag ||
        (s.g.mutex.Some? && s.g.mutex.value < |s.threads| && s.threads[s.g.mutex.value].pc.Transferring?))
  }

  ghost predicate Patience(s: State) {
    forall t :: t in s.g.unsignalled ==> Patient(s, t)
  }

  /** The effect of a step on the flags and on those who wait. */
  lemma FlagEffectEarly(s: State, a: Action)
    requires Enabled(s, a) && Early(s.threads[a.t].pc)
    ensures var s', th := Next(s, a), s.threads[a.t];
      && (a.Go? && th.pc.Blocking? ==> (s.add.flag ==> s'.add.flag) && (s.get.flag ==> s'.get.flag))
      && (!(a.Go? && th.pc.Blocking?) ==> s'.add.flag == s.add.flag && s'.get.flag == s.get.flag)
  {
    hide FL.Enter, FL.Block, FL.Unlock, FL.Allow, FL.Resume;
  }

  lemma FlagEffectLate(s: State, a: Action)
    requires Enabled(s, a) && !Early(s.threads[a.t].pc)
    ensures var s', th := Next(s, a), s.threads[a.t];
      && (!(a.Go? && th.pc.Opening?) ==> s'.add.flag == s.add.flag && s'.get.flag == s.get.flag)
      && (a.Go? && th.pc.Opening? ==> s'.threads[a.t].pc.Transferring? && s'.g == s.g)
  {
    hide FL.Enter, FL.Block, FL.Unlock, FL.Allow, FL.Resume;
  }

  lemma FlagEffect(s: State, a: Action)
    requires Enabled(s, a)
    ensures var s', th := Next(s, a), s.threads[a.t];
      && (a.Go? && th.pc.Blocking? ==> (s.add.flag ==> s'.add.flag) && (s.get.flag ==> s'.get.flag))
      && (!(a.Go? && (th.pc.Blocking? || th.pc.Opening?)) ==> s'.add.flag == s.add.flag && s'.get.flag == s.get.flag)
      && (a.Go? && th.pc.Opening? ==> s'.threads[a.t].pc.Transferring? && s'.g == s.g)
  {
    hide Next;
    if Early(s.threads[a.t].pc) { FlagEffectEarly(s, a); } else { FlagEffectLate(s, a); }
  }

  lemma WaitEffectEarly(s: State, a: Action)
    requires Enabled(s, a)
    requires Early(s.threads[a.t].pc)
    ensures || Next(s, a).g.unsignalled <= s.g.unsignalled
            || (a.Go? && s.threads[a.t].pc.Stuck? && Next(s, a) == WaitOrGiveUp(s, a.t))
  {
    hide FL.Enter, FL.Block, FL.Unlock, FL.Allow, FL.Resume;
  }

  lemma WaitEffectMiddle(s: State, a: Action)
    requires Enabled(s, a)
    requires !Early(s.threads[a.t].pc) && !Closing(s.threads[a.t].pc)
    ensures Next(s, a).g.unsignalled <= s.g.unsignalled
  {
    hide FL.Enter, FL.Block, FL.Unlock, FL.Allow, FL.Resume;
  }

  lemma WaitEffectClosing(s: State, a: Action)
    requires Enabled(s, a)
    requires Closing(s.threads[a.t].pc)
    ensures Next(s, a).g.unsignalled <= s.g.unsignalled
  {
    hide FL.Enter, FL.Block, FL.Unlock, FL.Allow, FL.Resume;
  }

  lemma WaitEffect(s: State, a: Action)
    requires Enabled(s, a)
    ensures || Next(s, a).g.unsignalled <= s.g.unsignalled
            || (a.Go? && s.threads[a.t].pc.Stuck? && Next(s, a) == WaitOrGiveUp(s, a.t))
  {
    hide Next;
    if Early(s.threads[a.t].pc) { WaitEffectEarly(s, a); }
    else if Closing(s.threads[a.t].pc) { WaitEffectClosing(s, a); }
    else { WaitEffectMiddle(s, a); }
  }

  lemma MutexEffect(s: State, a: Action)
    requires Enabled(s, a)
    ensures Next(s, a).g.mutex == s.g.mutex || s.g.mutex == None || HoldsMutex(s.threads[a.t].pc)
    ensures a.Go? && s.threads[a.t].pc.CondWait? ==> a.t in s.g.signalled
    ensures !a.Go? ==> s.threads[a.t].pc.Idle?
    ensures a.Go? && s.threads[a.t].pc.Transferring? ==>
      SignalChoice(s.g.unsignalled, a.wake) && Next(s, a) == Transfer(s, a.t, a.wake)
  {
    hide FL.Enter, FL.Block, FL.Unlock, FL.Allow, FL.Resume;
  }

  lemma OtherStaysPatient(s: State, a: Action, t: nat)
    requires SharedOk(s) && Enabled(s, a) && t in s.g.unsignalled && Patient(s, t)
    requires !(a.Go? && s.threads[a.t].pc.Transferring?)
    ensures Patient(Next(s, a), t)
  {
    hide Next;
    MutexEffect(s, a);
    StageLocal(s, a.t);
    StageLocal(s, t);
    hide SharedOk;
    OthersAbandon(s, a, Add);
    FlagEffect(s, a);
  }

  lemma NextPatience(s: State, a: Action)
    requires Inv(s) && Patience(s) && Enabled(s, a)
    ensures Patience(Next(s, a))
  {
    hide Next, HalfOk;
    var s' := Next(s, a);
    MutexEffect(s, a);
    WaitEffect(s, a);
    if a.Go? && s.threads[a.t].pc.Transferring? {
      TransferWaiters(s, a.t, a.wake);
    } else {
      forall t | t in s'.g.unsignalled ensures Patient(s', t) {
        if t in s.g.unsignalled {
          OtherStaysPatient(s, a, t);
        } else {
          StageLocal(s, a.t);
        }
      }
    }
  }

  lemma {:induction false} RunKeepsPatience(run: seq<State>, actions: seq<Action>, i: nat)
    requires IsRun(run, actions) && i < |run|
    ensures Patience(run[i])
  {
    hide Inv, Next, Enabled;
    if i > 0 {
      RunKeepsPatience(run, actions, i - 1);
      RunKeepsInv(run, actions, i - 1);
      RunStep(run, actions, i - 1);
      NextPatience(run[i - 1], actions[i - 1]);
    }
  }

  // ---- Where threads are when nobody can move ----

  /** Places from which a thread can always go on. */
  predicate AlwaysMoves(pc: Pc) {
    pc.Requesting? || pc.Unlocking? || pc.Exiting? || pc.CloseLoop? || HoldsMutex(pc)
  }

  lemma MovesOn(s: State, t: nat)
    requires t < |s.threads| && AlwaysMoves(s.threads[t].pc)
    ensures !Quiescent(s)
  {
    var pc := s.threads[t].pc;
    var wake := if pc.Exiting? then Choose(s.g.destroyUnsignalled) else Choose(s.g.unsignalled);
    assert Enabled(s, Go(t, wake, false));
  }

  lemma MutexFree(s: State)
    requires SharedOk(s) && Quiescent(s)
    ensures s.g.mutex == None
  {
    if s.g.mutex.Some? {
      StageLocal(s, s.g.mutex.value);
      MovesOn(s, s.g.mutex.value);
    }
  }

  /** The places left in a quiescent state. */
  ghost predicate Resting(s: State, t: nat)
    requires t < |s.threads|
  {
    var th := s.threads[t];
    match th.pc
    case Idle => true
    case LockWait(n) => n !in On(s, th.side).lock.woken && n !in On(s, th.side).lock.abandoned
    case CondWait(_) => t !in s.g.signalled
    case CloseEnter => s.g.closeMutex != None
    case CloseWait => t !in s.g.destroySignalled
    case _ => false
  }

  lemma QuiescentRests(s: State, t: nat)
    requires SharedOk(s) && Quiescent(s) && t < |s.threads|
    ensures Resting(s, t)
  {
    MutexFree(s);
    var pc := s.threads[t].pc;
    if AlwaysMoves(pc) {
      MovesOn(s, t);
    } else {
      hide SharedOk;
      assert !Enabled(s, Go(t, None, false));
    }
  }

  lemma WokenIsRestless(h: Half, side: Side, s: State, m: nat)
    requires h == On(s, side) && HalfOk(h, side, s.threads) && m in h.lock.woken
    ensures exists v :: 0 <= v < |s.threads| && !Resting(s, v)
  {
    assert FL.Parked(h.lock, m) && ParkedOk(h.lock, side, s.threads, m);
    assert !Resting(s, h.lock.arrivals[m].thread);
  }

  /** A thread queued in the fair lock of a quiescent queue has an owner of that lock before it, who waits
      on the shared condition. */
  lemma QueuedBehindWaiter(h: Half, side: Side, s: State, t: nat) returns (u: nat)
    requires h == On(s, side) && HalfOk(h, side, s.threads)
    requires forall v :: 0 <= v < |s.threads| ==> Resting(s, v)
    requires t < |s.threads| && s.threads[t].side == side && s.threads[t].pc.LockWait?
    ensures u < |s.threads| && s.threads[u].side == side && s.threads[u].pc.CondWait?
    ensures h.lock.blockWeak ==> !s.threads[t].async
  {
    var l, n := h.lock, s.threads[t].pc.n;
    assert TicketOk(l, s.threads[t], t) && Resting(s, t);
    assert n in l.queue;
    if l.woken != {} {
      var m :| m in l.woken;
      WokenIsRestless(h, side, s, m);
    }
    assert l.holders != {};
    var m :| m in l.holders;
    assert HolderOk(l, side, s.threads, m);
    u := l.arrivals[m].thread;
    assert Resting(s, u);
  }

  /** With nobody at rest in a closed queue except idle threads: closing never leaves a waiter behind. */
  lemma ClosedHasNoWaiter(s: State)
    requires SharedOk(s) && Quiescent(s) && s.g.closed
    ensures s.g.unsignalled == {}
  {
    if s.g.unsignalled != {} {
      QuiescentRests(s, s.g.closeMutex.value);
    }
  }

  lemma CallersWait(s: State, t: nat)
    requires Inv(s) && Patience(s) && Quiescent(s) && t < |s.threads| && InCall(s.threads[t].pc)
    ensures Waiting(s, t)
  {
    var th := s.threads[t];
    forall v | 0 <= v < |s.threads| ensures Resting(s, v) {
      QuiescentRests(s, v);
    }
    assert Resting(s, t);
    if th.pc.CondWait? {
      WaiterRests(s, t);
    } else {
      var u := QueuedBehindWaiter(On(s, th.side), th.side, s, t);
      WaiterRests(s, u);
    }
  }

  lemma {:induction false} NobodyCounted(ths: seq<Thread>)
    requires forall t :: 0 <= t < |ths| ==> !InCall(ths[t].pc)
    ensures CountCalls(ths) == 0
  {
    if ths != [] {
      NobodyCounted(ths[1..]);
    }
  }

  lemma NoCloserLeft(s: State, t: nat)
    requires Inv(s) && Patience(s) && Quiescent(s) && t < |s.threads|
    ensures s.threads[t].pc != CloseWait
  {
    hide HalfOk;
    StageLocal(s, t);
    if s.threads[t].pc == CloseWait {
      forall u | 0 <= u < |s.threads| ensures !InCall(s.threads[u].pc) {
        if InCall(s.threads[u].pc) {
          CallersWait(s, u);
        }
      }
      NobodyCounted(s.threads);
      QuiescentRests(s, t);
    }
  }

  /** Nobody sleeps who should not: when no thread can move, every thread that is not idle is a blocking
      call on a side that really is full or empty, in a queue that is not closed. */
  lemma QuiescentMeansBlocked(s: State, t: nat)
    requires Inv(s) && Patience(s) && Quiescent(s) && t < |s.threads|
    ensures s.threads[t].pc.Idle? || (InCall(s.threads[t].pc) && Waiting(s, t))
  {
    if InCall(s.threads[t].pc) {
      CallersWait(s, t);
    } else {
      hide HalfOk;
      QuiescentRests(s, t);
      NoCloserLeft(s, t);
      if s.g.closeMutex.Some? {
        StageLocal(s, s.g.closeMutex.value);
        QuiescentRests(s, s.g.closeMutex.value);
        NoCloserLeft(s, s.g.closeMutex.value);
      }
    }
  }

  ghost predicate Waiting(s: State, t: nat)
    requires t < |s.threads|
  {
    !s.g.closed && !s.threads[t].async && Blocked(s.g, s.threads[t].side)
  }

  lemma WaiterRests(s: State, t: nat)
    requires Inv(s) && Patience(s) && Quiescent(s) && t < |s.threads| && s.threads[t].pc.CondWait?
    ensures Waiting(s, t) && On(s, s.threads[t].side).flag && On(s, s.threads[t].side).lock.blockWeak
  {
    hide HalfOk;
    QuiescentRests(s, t);
    StageLocal(s, t);
    MutexFree(s);
    assert Patient(s, t);
    if s.g.closed {
      ClosedHasNoWaiter(s);
    }
  }

  // ---- Closing terminates ----

  lemma StaysClosedEarly(s: State, a: Action)
    requires Enabled(s, a) && s.g.closed && Early(s.threads[a.t].pc)
    ensures Next(s, a).g.closed
  {
    hide FL.Enter, FL.Block, FL.Unlock, FL.Allow, FL.Resume;
  }

  lemma StaysClosedLate(s: State, a: Action)
    requires Enabled(s, a) && s.g.closed && !Early(s.threads[a.t].pc)
    ensures Next(s, a).g.closed
  {
    hide FL.Enter, FL.Block, FL.Unlock, FL.Allow, FL.Resume;
  }

  lemma NextStaysClosed(s: State, a: Action)
    requires Enabled(s, a) && s.g.closed
    ensures Next(s, a).g.closed
  {
    hide Next;
    if Early(s.threads[a.t].pc) { StaysClosedEarly(s, a); } else { StaysClosedLate(s, a); }
  }

  /** Once the queue is closed, nobody starts to wait on the shared condition. */
  lemma NoNewWaits(s: State, a: Action)
    requires Inv(s) && Enabled(s, a) && s.g.closed
    ensures Next(s, a).g.unsignalled <= s.g.unsignalled
  {
    hide Next, HalfOk;
    WaitEffect(s, a);
    StageLocal(s, a.t);
  }

  lemma {:induction false} StaysClosed(run: seq<State>, actions: seq<Action>, i: nat, j: nat)
    requires IsRun(run, actions) && i <= j < |run| && run[i].g.closed
    ensures run[j].g.closed
    decreases j
  {
    hide Next, Enabled, IsInitial;
    if i < j {
      StaysClosed(run, actions, i, j - 1);
      RunStep(run, actions, j - 1);
      NextStaysClosed(run[j - 1], actions[j - 1]);
    }
  }

  lemma {:induction false} MeasureDrops(run: seq<State>, actions: seq<Action>, i: nat, j: nat)
    requires IsRun(run, actions) && i <= j < |run|
    requires forall k :: i <= k < j ==> actions[k].Go?
    ensures Measure(run[j]) + (j - i) <= Measure(run[i])
    decreases j
  {
    hide Next, Enabled, IsInitial, Measure;
    if i < j {
      MeasureDrops(run, actions, i, j - 1);
      RunStep(run, actions, j - 1);
      var a := actions[j - 1];
      StepDecreases(run[j - 1], a.t, a.wake, a.outOfMemory);
    }
  }

  /** Closing terminates without a lost wakeup.  Once the queue is closed and no new calls start, only
      finitely many steps are left, whatever the interleaving; and when no step is left, every caller
      and the closing thread have returned and the count of active callers is zero. */
  lemma CloseDrains(run: seq<State>, actions: seq<Action>, i: nat, j: nat)
    requires IsRun(run, actions) && i <= j < |run| && run[i].g.closed
    requires forall k :: i <= k < j ==> actions[k].Go?
    ensures j - i <= Measure(run[i])
    ensures Quiescent(run[j]) ==> run[j].g.count == 0
    ensures Quiescent(run[j]) ==> forall t :: 0 <= t < |run[j].threads| ==> run[j].threads[t].pc == Idle
  {
    MeasureDrops(run, actions, i, j);
    StaysClosed(run, actions, i, j);
    RunKeepsInv(run, actions, j);
    RunKeepsPatience(run, actions, j);
    hide IsRun, Measure, Enabled, Next, HalfOk;
    if Quiescent(run[j]) {
      forall t | 0 <= t < |run[j].threads| ensures run[j].threads[t].pc == Idle {
        QuiescentMeansBlocked(run[j], t);
      }
      NoCalls(run[j].threads);
    }
  }
}
