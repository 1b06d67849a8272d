/** Interleaved trains of fragments that can be told apart are all reassembled, also when fragments are lost: on such
    histories the sixteen slots do what one accumulator per train would do. */
module IdaCompleteness {

  import opened IdaReassembly
  import opened IdaSoundness
  import opened Wrappers

  // ---- The ideal: one accumulator per train ----

  /** A train under way: its first frequency and direction, its last time and counter, and its payloads so far. */
  datatype Train = Train(uplink: bool, freq: real, last: nat, ctr: nat, data: seq<Byte>)

  datatype Ideal = Ideal(open: map<nat, Train>, out: seq<Message>)

  function Time(e: Event): nat {
    if e.Flush? then e.now else e.burst.time
  }

  /** The trains that can still go on at this time. */
  function Live(open: map<nat, Train>, now: nat): map<nat, Train> {
    map u | u in open && now <= open[u].last + 280000000 :: open[u]
  }

  /** The counter of the fragment that comes next. */
  function NextCtr(ctr: nat): nat {
    (ctr + 1) % 8
  }

  /** A payload is added only if the data then fit 256 bytes. */
  function Fill(data: seq<Byte>, payload: seq<Byte>): seq<Byte> {
    if |data| + |payload| <= 256 then data + payload else data
  }

  /** The burst at this event carries label t: it goes on with its train, begins a new one, or is lost. */
  function Step(s: Ideal, e: Event, t: nat): Ideal {
    var open := Live(s.open, Time(e));
    if e.Flush? || !e.burst.crcOk || e.burst.payload == [] then s.(open := open)
    else
      var b := e.burst;
      if t in open && b.ctr == NextCtr(open[t].ctr) then
        var data := Fill(open[t].data, b.payload);
        if b.cont then s.(open := open[t := open[t].(last := b.time, ctr := b.ctr, data := data)])
        else Ideal(open - {t}, s.out + [Message(data, b.time, open[t].freq, open[t].uplink)])
      else if b.ctr != 0 then s.(open := open)
      else if b.cont then s.(open := open[t := Train(b.uplink, b.freq, b.time, b.ctr, b.payload)])
      else Ideal(open - {t}, s.out + [Message(b.payload, b.time, b.freq, b.uplink)])
  }

  function IdealAfter(events: seq<Event>, labels: seq<nat>, n: nat): Ideal
    requires n <= |events| == |labels|
  {
    if n == 0 then Ideal(map[], []) else Step(IdealAfter(events, labels, n - 1), events[n - 1], labels[n - 1])
  }

  // ---- Histories that can be told apart ----

  /** A burst cannot be taken for a fragment of this train. */
  predicate Foreign(b: Burst, u: Train) {
    b.uplink != u.uplink || Abs(u.freq - b.freq) > 260.0
  }

  /** A fragment of a train under way: the next one, or one after a loss, that is not a first one. Or the first fragment
      of a new train, for which a slot is left; or any other fragment. */
  predicate Proper(b: Burst, t: nat, open: map<nat, Train>) {
    if t in open then
      !Foreign(b, open[t]) && (b.ctr == NextCtr(open[t].ctr) || b.ctr != 0)
    else
      b.ctr == 0 && b.cont ==> |open| < 16
  }

  ghost predicate BurstOk(e: Event, t: nat, open: map<nat, Train>) {
    e.Arrive? && e.burst.crcOk && e.burst.payload != [] ==>
      && Proper(e.burst, t, open)
      && forall u :: u in open && u != t ==> Foreign(e.burst, open[u])
  }

  /** Events in the order of their times, and every usable burst proper for its train and foreign to the others under
      way. Fragments may be missing or unusable, and trains may be left unfinished. */
  ghost predicate Orderly(events: seq<Event>, labels: seq<nat>)
    requires |events| == |labels|
  {
    && (forall i, j :: 0 <= i <= j < |events| ==> Time(events[i]) <= Time(events[j]))
    && (forall i: nat :: i < |events| ==>
          BurstOk(events[i], labels[i], Live(IdealAfter(events, labels, i).open, Time(events[i]))))
  }

  // ---- The slots hold the open trains ----

  predicate Same(s: Slot, u: Train) {
    s == Slot(true, u.uplink, u.freq, u.last, u.ctr, u.data)
  }

  /** The slot is in use, and its window is not over. */
  predicate InUse(s: Slot, now: nat) {
    s.active && now <= s.last + WINDOW
  }

  /** At this time slot k, when in use, holds the train owner[k]; every open train has a slot. */
  ghost predicate Sim(slots: seq<Slot>, owner: seq<nat>, open: map<nat, Train>, now: nat) {
    && |slots| == |owner| == SLOTS
    && (forall k :: 0 <= k < SLOTS && InUse(slots[k], now) ==> owner[k] in open && Same(slots[k], open[owner[k]]))
    && (forall k, l :: 0 <= k < l < SLOTS && InUse(slots[k], now) && InUse(slots[l], now) ==> owner[k] != owner[l])
    && (forall u :: u in open ==> exists k :: 0 <= k < SLOTS && InUse(slots[k], now) && owner[k] == u)
    && (forall u :: u in open ==> open[u].last <= now)
  }

  /** Time goes on: trains and slots run out together. */
  lemma LaterSim(slots: seq<Slot>, owner: seq<nat>, open: map<nat, Train>, was: nat, now: nat)
    requires Sim(slots, owner, open, was) && was <= now
    ensures Sim(slots, owner, Live(open, now), now)
  {
    forall u | u in Live(open, now) ensures exists k :: 0 <= k < SLOTS && InUse(slots[k], now) && owner[k] == u {
      var k :| 0 <= k < SLOTS && InUse(slots[k], was) && owner[k] == u;
      assert Same(slots[k], open[u]) && InUse(slots[k], now);
    }
    forall k | 0 <= k < SLOTS && InUse(slots[k], now) ensures InUse(slots[k], was) {
    }
  }

  lemma {:induction false} DistinctFill(owner: seq<nat>, s: set<nat>, n: nat)
    requires n <= |owner| && forall k :: 0 <= k < n ==> owner[k] in s
    requires forall k, l :: 0 <= k < l < n ==> owner[k] != owner[l]
    ensures |s| >= n
  {
    if n > 0 {
      DistinctFill(owner, s - {owner[n - 1]}, n - 1);
    }
  }

  /** With fewer than sixteen open trains, a new one gets a slot that is free or has run out. */
  lemma PlaceLeft(slots: seq<Slot>, owner: seq<nat>, open: map<nat, Train>, now: nat)
    requires Sim(slots, owner, open, now) && |open| < SLOTS
    ensures Place(slots) < SLOTS && !InUse(slots[Place(slots)], now)
  {
    if FirstFree(slots, 0) == SLOTS && InUse(slots[Place(slots)], now) {
      forall k | 0 <= k < SLOTS ensures InUse(slots[k], now) {
        assert slots[Place(slots)].last <= slots[k].last;
      }
      DistinctFill(owner, open.Keys, SLOTS);
    }
  }

  // ---- One event ----

  /** No slot takes a burst that is foreign to every other train and not the next of its own. */
  lemma NoMatch(slots: seq<Slot>, owner: seq<nat>, open: map<nat, Train>, b: Burst, t: nat)
    requires Sim(slots, owner, open, b.time) && forall u :: u in open && u != t ==> Foreign(b, open[u])
    requires t in open ==> b.ctr != NextCtr(open[t].ctr)
    ensures FirstMatch(slots, b, 0) == SLOTS
  {
    forall k | 0 <= k < SLOTS ensures !Matches(slots[k], b) {
      if InUse(slots[k], b.time) {
        assert Same(slots[k], open[owner[k]]);
      }
    }
  }

  /** The matching slot of the next fragment is the slot of its train. */
  lemma MatchIsOwner(slots: seq<Slot>, owner: seq<nat>, open: map<nat, Train>, b: Burst, t: nat, k: nat)
    requires Sim(slots, owner, open, b.time) && forall u :: u in open && u != t ==> Foreign(b, open[u])
    requires t in open && !Foreign(b, open[t]) && b.ctr == NextCtr(open[t].ctr)
    requires k < SLOTS && InUse(slots[k], b.time) && owner[k] == t
    ensures FirstMatch(slots, b, 0) == k
  {
    var f := FirstMatch(slots, b, 0);
    assert Same(slots[k], open[t]) && Matches(slots[k], b);
    assert f <= k;
    assert InUse(slots[f], b.time) && Same(slots[f], open[owner[f]]);
    assert !Foreign(b, open[owner[f]]);
  }

  lemma FlushStep(slots: seq<Slot>, owner: seq<nat>, open: map<nat, Train>, now: nat)
    requires Sim(slots, owner, open, now)
    ensures Sim(Flushed(slots, now), owner, open, now)
  {
    var slots' := Flushed(slots, now);
    forall k | 0 <= k < SLOTS ensures InUse(slots'[k], now) <==> InUse(slots[k], now) {
    }
    forall u | u in open ensures exists k :: 0 <= k < SLOTS && InUse(slots'[k], now) && owner[k] == u {
      var k :| 0 <= k < SLOTS && InUse(slots[k], now) && owner[k] == u;
      assert InUse(slots'[k], now);
    }
  }

  /** The other trains keep their slots when slot k changes. */
  lemma OthersStay(slots: seq<Slot>, owner: seq<nat>, open: map<nat, Train>, now: nat, k: nat, s: Slot, t: nat)
    requires Sim(slots, owner, open, now) && k < SLOTS && InUse(slots[k], now) && owner[k] == t
    ensures var slots' := slots[k := s];
            forall u :: u in open && u != t ==> exists l :: 0 <= l < SLOTS && InUse(slots'[l], now) && owner[l] == u
  {
    var slots' := slots[k := s];
    forall u | u in open && u != t ensures exists l :: 0 <= l < SLOTS && InUse(slots'[l], now) && owner[l] == u {
      var l :| 0 <= l < SLOTS && InUse(slots[l], now) && owner[l] == u;
      assert InUse(slots'[l], now);
    }
  }

  lemma ExtendStep(slots: seq<Slot>, owner: seq<nat>, open: map<nat, Train>, now: nat, k: nat, s: Slot, u: Train)
    requires Sim(slots, owner, open, now) && k < SLOTS && InUse(slots[k], now) && Same(s, u) && u.last == now
    ensures Sim(slots[k := s], owner, open[owner[k] := u], now)
  {
    OthersStay(slots, owner, open, now, k, s, owner[k]);
    var slots' := slots[k := s];
    assert InUse(slots'[k], now);
  }

  lemma CloseStep(slots: seq<Slot>, owner: seq<nat>, open: map<nat, Train>, now: nat, k: nat, s: Slot)
    requires Sim(slots, owner, open, now) && k < SLOTS && InUse(slots[k], now) && !s.active
    ensures Sim(slots[k := s], owner, open - {owner[k]}, now)
  {
    OthersStay(slots, owner, open, now, k, s, owner[k]);
  }

  lemma ContinueStep(slots: seq<Slot>, owner: seq<nat>, open: map<nat, Train>, b: Burst, t: nat, k: nat)
    requires |slots| == |owner| == SLOTS && Sim(slots, owner, open, b.time)
    requires t in open && k < SLOTS && InUse(slots[k], b.time) && owner[k] == t
    requires Same(slots[k], open[t])
    ensures var u := open[t].(last := b.time, ctr := b.ctr, data := Fill(open[t].data, b.payload));
            Sim(slots[k := Extended(slots[k], b)], owner, if b.cont then open[t := u] else open - {t}, b.time)
  {
    hide Sim;
    if b.cont {
      var u := open[t].(last := b.time, ctr := b.ctr, data := Fill(open[t].data, b.payload));
      ExtendStep(slots, owner, open, b.time, k, Extended(slots[k], b), u);
    } else {
      CloseStep(slots, owner, open, b.time, k, Extended(slots[k], b));
    }
  }

  lemma BeginStep(slots: seq<Slot>, owner: seq<nat>, open: map<nat, Train>, b: Burst, t: nat, k: nat)
    requires Sim(slots, owner, open, b.time) && t !in open && k < SLOTS && !InUse(slots[k], b.time)
    ensures Sim(slots[k := Started(b)], owner[k := t], open[t := Train(b.uplink, b.freq, b.time, b.ctr, b.payload)],
            b.time)
  {
    var now, slots', owner' := b.time, slots[k := Started(b)], owner[k := t];
    assert InUse(slots'[k], now) && owner'[k] == t;
    forall u | u in open ensures exists l :: 0 <= l < SLOTS && InUse(slots'[l], now) && owner'[l] == u {
      var l :| 0 <= l < SLOTS && InUse(slots[l], now) && owner[l] == u;
      assert InUse(slots'[l], now) && owner'[l] == u;
    }
  }

  function Plus(out: seq<Message>, m: Option<Message>): seq<Message> {
    if m.Some? then out + [m.value] else out
  }

  lemma SlotOf(slots: seq<Slot>, owner: seq<nat>, open: map<nat, Train>, t: nat, now: nat) returns (k: nat)
    requires Sim(slots, owner, open, now) && t in open
    ensures k < |slots| == |owner| == SLOTS && InUse(slots[k], now) && owner[k] == t && Same(slots[k], open[t])
  {
    k :| k < SLOTS && InUse(slots[k], now) && owner[k] == t;
  }

  /** The slots follow the ideal through a usable burst, and deliver the same. */
  lemma ArriveSim(slots: seq<Slot>, owner: seq<nat>, s: Ideal, b: Burst, t: nat) returns (owner': seq<nat>)
    requires |slots| == |owner| == SLOTS && Usable(b)
    requires var open := Live(s.open, b.time); Sim(slots, owner, open, b.time) && BurstOk(Arrive(b), t, open)
    ensures Sim(Next(slots, b), owner', Step(s, Arrive(b), t).open, b.time)
    ensures Step(s, Arrive(b), t).out == Plus(s.out, Emitted(slots, b))
  {
    hide Sim, Matches, Live, InUse;
    var open := Live(s.open, b.time);
    owner' := owner;
    if t in open && b.ctr == NextCtr(open[t].ctr) {
      var k := SlotOf(slots, owner, open, t, b.time);
      MatchIsOwner(slots, owner, open, b, t, k);
      ContinueStep(slots, owner, open, b, t, k);
    } else {
      NoMatch(slots, owner, open, b, t);
      assert t !in open ==> open - {t} == open;
      if b.ctr == 0 && b.cont {
        PlaceLeft(slots, owner, open, b.time);
        BeginStep(slots, owner, open, b, t, Place(slots));
        owner' := owner[Place(slots) := t];
      }
    }
  }

  /** The slots follow the ideal through one event, and deliver the same. */
  lemma StepSim(slots: seq<Slot>, owner: seq<nat>, s: Ideal, e: Event, t: nat, was: nat) returns (owner': seq<nat>)
    requires |slots| == |owner| == SLOTS && Sim(slots, owner, s.open, was) && was <= Time(e)
    requires BurstOk(e, t, Live(s.open, Time(e)))
    ensures e.Flush? ==> Sim(Flushed(slots, e.now), owner', Step(s, e, t).open, Time(e))
    ensures e.Arrive? ==> Sim(Next(slots, e.burst), owner', Step(s, e, t).open, Time(e))
    ensures e.Arrive? ==> Step(s, e, t).out == Plus(s.out, Emitted(slots, e.burst))
    ensures e.Flush? ==> Step(s, e, t).out == s.out
  {
    hide Sim, Matches, Live, Flushed, BurstOk;
    LaterSim(slots, owner, s.open, was, Time(e));
    owner' := owner;
    match e
    case Flush(now) => FlushStep(slots, owner, Live(s.open, now), now);
    case Arrive(b) =>
      if Usable(b) {
        owner' := ArriveSim(slots, owner, s, b, t);
      }
  }

  // ---- Whole histories ----

  function Messages(out: seq<Delivery>): (r: seq<Message>)
    ensures |r| == |out|
  {
    seq(|out|, i requires 0 <= i < |out| => out[i].message)
  }

  /** The time of the last of the first n events. */
  function Now(events: seq<Event>, n: nat): nat
    requires n <= |events|
  {
    if n == 0 then 0 else Time(events[n - 1])
  }

  /** Both machines at position n: the slots hold the open trains, and the same has been delivered. */
  ghost predicate Agree(events: seq<Event>, labels: seq<nat>, n: nat, owner: seq<nat>)
    requires n <= |events| == |labels|
  {
    && |owner| == SLOTS
    && Sim(After(events, n).slots, owner, IdealAfter(events, labels, n).open, Now(events, n))
    && Messages(After(events, n).out) == IdealAfter(events, labels, n).out
  }

  lemma AgreeAtStart(events: seq<Event>, labels: seq<nat>)
    requires |events| == |labels|
    ensures Agree(events, labels, 0, seq(SLOTS, i => 0))
  {
  }

  lemma MessagesMore(out: seq<Delivery>, out': seq<Delivery>, m: Message)
    requires |out'| == |out| + 1 && out'[..|out|] == out && out'[|out|].message == m
    ensures Messages(out') == Messages(out) + [m]
  {
    forall i | 0 <= i < |out'| ensures Messages(out')[i] == (Messages(out) + [m])[i] {
      if i < |out| {
        assert out'[..|out|][i] == out[i];
      }
    }
  }

  lemma AgreeStep(events: seq<Event>, labels: seq<nat>, n: nat, owner: seq<nat>) returns (owner': seq<nat>)
    requires n < |events| == |labels| && Orderly(events, labels) && Agree(events, labels, n, owner)
    ensures Agree(events, labels, n + 1, owner')
  {
    hide After, Next, Emitted, Flushed, Sim, Step, Messages, Proper, Foreign, Live, BurstOk;
    var r, r', s := After(events, n), After(events, n + 1), IdealAfter(events, labels, n);
    assert Now(events, n) <= Time(events[n]);
    owner' := StepSim(r.slots, owner, s, events[n], labels[n], Now(events, n));
    RunSteps(events, n);
    if events[n].Arrive? && Emitted(r.slots, events[n].burst).Some? {
      MessagesMore(r.out, r'.out, Emitted(r.slots, events[n].burst).value);
    }
    StillSixteen(r'.slots, owner', IdealAfter(events, labels, n + 1).open, Time(events[n]));
  }

  lemma StillSixteen(slots: seq<Slot>, owner: seq<nat>, open: map<nat, Train>, now: nat)
    requires Sim(slots, owner, open, now)
    ensures |owner| == SLOTS
  {
  }

  lemma {:induction false} RunSim(events: seq<Event>, labels: seq<nat>, n: nat) returns (owner: seq<nat>)
    requires n <= |events| == |labels| && Orderly(events, labels)
    ensures Agree(events, labels, n, owner)
  {
    hide Agree, Orderly;
    if n == 0 {
      AgreeAtStart(events, labels);
      owner := seq(SLOTS, i => 0);
    } else {
      owner := RunSim(events, labels, n - 1);
      owner := AgreeStep(events, labels, n - 1, owner);
    }
  }

  // ---- What the ideal delivers ----

  /** The last fragment of c announces another, and at this time it can still come. */
  predicate Unfinished(events: seq<Event>, c: seq<nat>, now: nat) {
    c != [] && c[|c| - 1] < |events| && events[c[|c| - 1]].Arrive? &&
    var b := events[c[|c| - 1]].burst; b.cont && now <= b.time + 280000000
  }

  /** The burst at position i is a usable one of train t. */
  predicate Heard(events: seq<Event>, labels: seq<nat>, i: nat, t: nat)
    requires i < |events| == |labels|
  {
    events[i].Arrive? && events[i].burst.crcOk && events[i].burst.payload != [] && labels[i] == t
  }

  /** The positions of the fragments of the latest train labelled t among the first n events: each comes in time
      after one that announced it, with the next counter; a first one has counter 0; and others are passed over. */
  function Trail(events: seq<Event>, labels: seq<nat>, n: nat, t: nat): (c: seq<nat>)
    requires n <= |events| == |labels|
    ensures forall j :: 0 <= j < |c| ==> c[j] < n && events[c[j]].Arrive? && labels[c[j]] == t
  {
    if n == 0 then []
    else
      var c := Trail(events, labels, n - 1, t);
      if !Heard(events, labels, n - 1, t) then c
      else
        var b := events[n - 1].burst;
        if Unfinished(events, c, b.time) && b.ctr == NextCtr(events[c[|c| - 1]].burst.ctr) then c + [n - 1]
        else if b.ctr == 0 then [n - 1]
        else c
  }

  /** The payloads at these positions, one after the other, as far as they fit. */
  function Payloads(events: seq<Event>, c: seq<nat>): seq<Byte>
    requires forall j :: 0 <= j < |c| ==> c[j] < |events| && events[c[j]].Arrive?
  {
    if c == [] then []
    else if |c| == 1 then events[c[0]].burst.payload
    else Fill(Payloads(events, c[..|c| - 1]), events[c[|c| - 1]].burst.payload)
  }

  lemma PayloadsMore(events: seq<Event>, c: seq<nat>, i: nat)
    requires c != [] && forall j :: 0 <= j < |c| ==> c[j] < |events| && events[c[j]].Arrive?
    requires i < |events| && events[i].Arrive?
    ensures Payloads(events, c + [i]) == Fill(Payloads(events, c), events[i].burst.payload)
  {
    assert (c + [i])[..|c|] == c;
  }

  lemma PayloadsOne(events: seq<Event>, i: nat)
    requires i < |events| && events[i].Arrive?
    ensures Payloads(events, [i]) == events[i].burst.payload
  {
  }

  /** The train of these fragments: direction and frequency of the first, time and counter of the last, and their
      payloads. */
  function TrainOf(events: seq<Event>, c: seq<nat>): Train
    requires c != [] && forall j :: 0 <= j < |c| ==> c[j] < |events| && events[c[j]].Arrive?
  {
    var first, last := events[c[0]].burst, events[c[|c| - 1]].burst;
    Train(first.uplink, first.freq, last.time, last.ctr, Payloads(events, c))
  }

  lemma TrainMore(events: seq<Event>, c: seq<nat>, i: nat)
    requires c != [] && forall j :: 0 <= j < |c| ==> c[j] < |events| && events[c[j]].Arrive?
    requires i < |events| && events[i].Arrive?
    ensures var u, b := TrainOf(events, c), events[i].burst;
            TrainOf(events, c + [i]) == u.(last := b.time, ctr := b.ctr, data := Fill(u.data, b.payload))
  {
    hide Payloads;
    PayloadsMore(events, c, i);
  }

  lemma TrainOne(events: seq<Event>, i: nat)
    requires i < |events| && events[i].Arrive?
    ensures var b := events[i].burst; TrainOf(events, [i]) == Train(b.uplink, b.freq, b.time, b.ctr, b.payload)
  {
    hide Payloads;
    PayloadsOne(events, i);
  }

  /** The last fragment is that of the train. */
  lemma TrainLast(events: seq<Event>, c: seq<nat>)
    requires c != [] && forall j :: 0 <= j < |c| ==> c[j] < |events| && events[c[j]].Arrive?
    ensures var b := events[c[|c| - 1]].burst; TrainOf(events, c).last == b.time && TrainOf(events, c).ctr == b.ctr
  {
  }

  /** The open train, if there is one, is the unfinished trail. */
  ghost predicate Trailed(events: seq<Event>, labels: seq<nat>, n: nat, t: nat)
    requires n <= |events| == |labels|
  {
    var c, open := Trail(events, labels, n, t), IdealAfter(events, labels, n).open;
    && (t in open <==> Unfinished(events, c, Now(events, n)))
    && (t in open ==> open[t] == TrainOf(events, c))
  }

  predicate InOrder(events: seq<Event>) {
    forall i, j :: 0 <= i <= j < |events| ==> Time(events[i]) <= Time(events[j])
  }

  /** A train is open exactly while its latest fragment announces another that can still come, and it holds its payloads
      so far. */
  lemma {:induction false} OpenTrail(events: seq<Event>, labels: seq<nat>, n: nat, t: nat)
    requires n <= |events| == |labels| && InOrder(events)
    ensures Trailed(events, labels, n, t)
  {
    if n > 0 {
      OpenTrail(events, labels, n - 1, t);
      TrailStep(events, labels, n - 1, t);
    }
  }

  lemma TrailStep(events: seq<Event>, labels: seq<nat>, n: nat, t: nat)
    requires n < |events| == |labels| && InOrder(events) && Trailed(events, labels, n, t)
    ensures Trailed(events, labels, n + 1, t)
  {
    hide TrainOf, IdealAfter, Trail, Step, Live;
    var c := Trail(events, labels, n, t);
    var s := IdealAfter(events, labels, n);
    LaterOpen(events, labels, n, t);
    TrailNext(events, labels, n, t);
    IdealNext(events, labels, n);
    if Heard(events, labels, n, t) {
      TrainOne(events, n);
      if c != [] {
        TrainMore(events, c, n);
        TrainLast(events, c);
      }
      OwnStep(s, events[n].burst, t);
    } else {
      OthersKept(s, events[n], labels[n], t);
    }
  }

  /** What a usable burst makes of its own train. */
  lemma OwnStep(s: Ideal, b: Burst, t: nat)
    requires Usable(b)
    ensures var open, live := Step(s, Arrive(b), t).open, Live(s.open, b.time);
            if t in live && b.ctr == NextCtr(live[t].ctr) then
              (t in open <==> b.cont) &&
              (b.cont ==> open[t] == live[t].(last := b.time, ctr := b.ctr, data := Fill(live[t].data, b.payload)))
            else if b.ctr == 0 then
              (t in open <==> b.cont) && (b.cont ==> open[t] == Train(b.uplink, b.freq, b.time, b.ctr, b.payload))
            else (t in open <==> t in live) && (t in open ==> open[t] == live[t])
  {
    hide Live;
  }

  lemma TrailNext(events: seq<Event>, labels: seq<nat>, n: nat, t: nat)
    requires n < |events| == |labels|
    ensures var c := Trail(events, labels, n, t);
            Trail(events, labels, n + 1, t) ==
              if !Heard(events, labels, n, t) then c
              else
                var b := events[n].burst;
                if Unfinished(events, c, b.time) && b.ctr == NextCtr(events[c[|c| - 1]].burst.ctr) then c + [n]
                else if b.ctr == 0 then [n]
                else c
  {
  }

  lemma IdealNext(events: seq<Event>, labels: seq<nat>, n: nat)
    requires n < |events| == |labels|
    ensures IdealAfter(events, labels, n + 1) == Step(IdealAfter(events, labels, n), events[n], labels[n])
  {
  }

  /** What is left of the open train at the time of the next event. */
  lemma LaterOpen(events: seq<Event>, labels: seq<nat>, n: nat, t: nat)
    requires n < |events| == |labels| && InOrder(events) && Trailed(events, labels, n, t)
    ensures var c, s := Trail(events, labels, n, t), IdealAfter(events, labels, n);
            var live := Live(s.open, Time(events[n]));
            && (t in live <==> Unfinished(events, c, Time(events[n])))
            && (t in live ==> live[t] == TrainOf(events, c))
  {
    hide TrainOf, IdealAfter, Trail;
    assert Now(events, n) <= Time(events[n]);
    if Trail(events, labels, n, t) != [] {
      TrainLast(events, Trail(events, labels, n, t));
    }
  }

  lemma OthersKept(s: Ideal, e: Event, l: nat, t: nat)
    requires !(e.Arrive? && Usable(e.burst) && l == t)
    ensures var open, live := Step(s, e, l).open, Live(s.open, Time(e));
            (t in open <==> t in live) && (t in open ==> open[t] == live[t])
  {
  }

  /** The burst at position i completes its train. */
  predicate Ends(events: seq<Event>, labels: seq<nat>, i: nat)
    requires i < |events| == |labels|
  {
    var c := Trail(events, labels, i + 1, labels[i]);
    c != [] && c[|c| - 1] == i && !events[i].burst.cont
  }

  /** What it delivers: all payloads of the train, in order, with the direction and frequency of its first fragment and
      the time of its last. */
  function Whole(events: seq<Event>, labels: seq<nat>, i: nat): Message
    requires i < |events| == |labels| && Ends(events, labels, i)
  {
    var u := TrainOf(events, Trail(events, labels, i + 1, labels[i]));
    Message(u.data, u.last, u.freq, u.uplink)
  }

  /** The positions below n that complete a train. */
  function Endings(events: seq<Event>, labels: seq<nat>, n: nat): (r: seq<nat>)
    requires n <= |events| == |labels|
    ensures forall k :: 0 <= k < |r| ==> r[k] < n && Ends(events, labels, r[k])
  {
    if n == 0 then []
    else Endings(events, labels, n - 1) + if Ends(events, labels, n - 1) then [n - 1] else []
  }

  /** The burst that completes a train delivers that train, and nothing else delivers anything. */
  lemma TrainMessage(events: seq<Event>, labels: seq<nat>, n: nat)
    requires n < |events| == |labels| && InOrder(events)
    ensures var out, out' := IdealAfter(events, labels, n).out, IdealAfter(events, labels, n + 1).out;
            if Ends(events, labels, n) then
              out' == out + [Whole(events, labels, n)]
            else out' == out
  {
    hide IdealAfter, Trail, TrainOf;
    var t := labels[n];
    OpenTrail(events, labels, n, t);
    LaterOpen(events, labels, n, t);
    TrailNext(events, labels, n, t);
    IdealNext(events, labels, n);
    if events[n].Arrive? {
      TrainOne(events, n);
      if Trail(events, labels, n, t) != [] {
        TrainMore(events, Trail(events, labels, n, t), n);
        TrainLast(events, Trail(events, labels, n, t));
      }
    }
  }

  lemma MessagesStep(events: seq<Event>, labels: seq<nat>, n: nat, out: seq<Message>, out': seq<Message>)
    requires n < |events| == |labels|
    requires var ends := Endings(events, labels, n);
             |out| == |ends| && forall k :: 0 <= k < |ends| ==> out[k] == Whole(events, labels, ends[k])
    requires if Ends(events, labels, n) then
               out' == out + [Whole(events, labels, n)]
             else out' == out
    ensures var ends := Endings(events, labels, n + 1);
            |out'| == |ends| && forall k :: 0 <= k < |ends| ==> out'[k] == Whole(events, labels, ends[k])
  {
    hide Whole, Ends;
  }

  lemma {:induction false} IdealMessages(events: seq<Event>, labels: seq<nat>, n: nat)
    requires n <= |events| == |labels| && InOrder(events)
    ensures var out, ends := IdealAfter(events, labels, n).out, Endings(events, labels, n);
            |out| == |ends| && forall k :: 0 <= k < |ends| ==> out[k] == Whole(events, labels, ends[k])
  {
    hide Whole, Ends, Step;
    if n > 0 {
      IdealMessages(events, labels, n - 1);
      TrainMessage(events, labels, n - 1);
      MessagesStep(events, labels, n - 1, IdealAfter(events, labels, n - 1).out, IdealAfter(events, labels, n).out);
    }
  }

  /** On an orderly history the k-th message delivered is that of the k-th train completed: exactly its payloads in
      their order, its first direction and frequency and its last time. Every completed train is delivered once, and
      nothing else is. */
  lemma TrainsAreDelivered(events: seq<Event>, labels: seq<nat>)
    requires |events| == |labels| && Orderly(events, labels)
    ensures var out, ends := Messages(After(events, |events|).out), Endings(events, labels, |events|);
            |out| == |ends| && forall k :: 0 <= k < |ends| ==> out[k] == Whole(events, labels, ends[k])
  {
    hide After, Sim, Whole, Endings, BurstOk;
    var owner := RunSim(events, labels, |events|);
    IdealMessages(events, labels, |events|);
  }
}
