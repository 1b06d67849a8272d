/** Interleaved trains of packets that can be told apart are all reassembled, also when packets are lost, and every
    packet of its own is passed on: on such histories the eight slots do what one accumulator per train would do. */
module SbdCompleteness {

  import opened SbdReassembly
  import S = SbdSoundness
  import opened Wrappers

  // ---- The ideal: one accumulator per train ----

  /** The packets that are passed on as they are: number 0 with data, and 1 of 1. */
  predicate Alone(p: Packet) {
    (p.no == 0 && p.data != []) || (p.no == 1 && p.cnt == 1)
  }

  /** The first packet of a train gives the count. */
  predicate Opens(p: Packet) {
    p.no > 0 && p.cnt > 1
  }

  predicate Carries(p: Packet) {
    p.no > 1 && p.cnt <= 1
  }

  /** At most the first 1024 bytes. */
  function Capped(data: seq<Byte>): seq<Byte> {
    if |data| <= 1024 then data else data[..1024]
  }

  /** A train under way: direction, count and signal of its first packet, number and time of its last, and all data. */
  datatype Train = Train(uplink: bool, cnt: int, signal: Signal, no: nat, time: nat, data: seq<Byte>)

  datatype Ideal = Ideal(open: map<nat, Train>, out: seq<Message>)

  /** The trains whose last packet is at most five seconds old. */
  function Live(open: map<nat, Train>, now: nat): map<nat, Train> {
    map u | u in open && now <= open[u].time + 5000000000 :: open[u]
  }

  predicate Waits(u: Train, p: Packet) {
    u.uplink == p.uplink && p.no == u.no + 1
  }

  function Opened(p: Packet): Train {
    Train(p.uplink, p.cnt, p.signal, p.no, p.time, p.data)
  }

  function Grown(u: Train, p: Packet): Train {
    u.(no := p.no, time := p.time, data := u.data + p.data)
  }

  /** What a finished train is passed on as. */
  function Finished(u: Train): Message {
    Message(Capped(u.data), u.uplink, u.time, u.signal)
  }

  function Single(p: Packet): Message {
    Message(p.data, p.uplink, p.time, p.signal)
  }

  /** This packet carries label t: it is passed on, begins a train, goes on with one, or is lost. */
  function Step(s: Ideal, p: Packet, t: nat): Ideal {
    var open := Live(s.open, p.time);
    if Alone(p) then Ideal(open, s.out + [Single(p)])
    else if Opens(p) then s.(open := open[t := Opened(p)])
    else if Carries(p) && t in open && Waits(open[t], p) then
      var u := Grown(open[t], p);
      if p.no == u.cnt then Ideal(open - {t}, s.out + [Finished(u)]) else s.(open := open[t := u])
    else s.(open := open)
  }

  function IdealAfter(packets: seq<Packet>, labels: seq<nat>, n: nat): Ideal
    requires n <= |packets| == |labels|
  {
    if n == 0 then Ideal(map[], []) else Step(IdealAfter(packets, labels, n - 1), packets[n - 1], labels[n - 1])
  }

  // ---- Histories that can be told apart ----

  /** A new train finds fewer than eight others alive, its own label not among them; and no train but its own waits for
      the number of a later packet in its direction. */
  ghost predicate Proper(p: Packet, t: nat, open: map<nat, Train>) {
    && (Opens(p) ==> t !in open && |open| < 8)
    && (Carries(p) ==> forall u :: u in open && u != t ==> !Waits(open[u], p))
  }

  predicate InOrder(packets: seq<Packet>) {
    forall i, j :: 0 <= i <= j < |packets| ==> packets[i].time <= packets[j].time
  }

  /** Packets in the order of their times, each proper for the trains alive. Packets may be missing, and trains may be
      left unfinished. */
  ghost predicate Orderly(packets: seq<Packet>, labels: seq<nat>)
    requires |packets| == |labels|
  {
    && InOrder(packets)
    && (forall i: nat :: i < |packets| ==>
          Proper(packets[i], labels[i], Live(IdealAfter(packets, labels, i).open, packets[i].time)))
  }

  // ---- The slots hold the open trains ----

  predicate Same(s: Slot, u: Train) {
    s == Slot(true, u.no, u.cnt, u.uplink, u.time, Capped(u.data), u.signal)
  }

  /** A slot in use holds the train owner[k]; every open train has a slot of its own. */
  ghost predicate Sim(slots: seq<Slot>, owner: seq<nat>, open: map<nat, Train>) {
    && |slots| == |owner| == SLOTS
    && (forall k :: 0 <= k < SLOTS && slots[k].active ==> owner[k] in open && Same(slots[k], open[owner[k]]))
    && (forall k, l :: 0 <= k < l < SLOTS && slots[k].active && slots[l].active ==> owner[k] != owner[l])
    && (forall u :: u in open ==> exists k :: 0 <= k < SLOTS && slots[k].active && owner[k] == u)
  }

  /** Time goes on: trains and slots run out together. */
  lemma ExpireSim(slots: seq<Slot>, owner: seq<nat>, open: map<nat, Train>, now: nat)
    requires Sim(slots, owner, open)
    ensures Sim(Expired(slots, now), owner, Live(open, now))
  {
    hide Same;
    var s, live := Expired(slots, now), Live(open, now);
    forall k | 0 <= k < SLOTS && slots[k].active
      ensures s[k].active <==> owner[k] in live
      ensures s[k].active ==> s[k] == slots[k]
    {
      SameTime(slots[k], open[owner[k]]);
    }
    forall u | u in live ensures exists k :: 0 <= k < SLOTS && s[k].active && owner[k] == u {
      var k :| 0 <= k < SLOTS && slots[k].active && owner[k] == u;
      assert s[k].active;
    }
  }

  lemma SameTime(s: Slot, u: Train)
    requires Same(s, u)
    ensures s.time == u.time
  {
  }

  lemma {:induction false} DistinctFill(owner: seq<nat>, s: set<nat>, n: nat)
    requires n <= |owner| && forall k :: 0 <= k < n ==> owner[k] in s
    requires forall k, l :: 0 <= k < l < n ==> owner[k] != owner[l]
    ensures |s| >= n
  {
    if n > 0 {
      DistinctFill(owner, s - {owner[n - 1]}, n - 1);
    }
  }

  /** With fewer than eight open trains there is a free slot for a new one. */
  lemma PlaceLeft(slots: seq<Slot>, owner: seq<nat>, open: map<nat, Train>)
    requires Sim(slots, owner, open) && |open| < 8
    ensures Place(slots) < SLOTS && !slots[Place(slots)].active
  {
    if FirstFree(slots, 0) == SLOTS {
      DistinctFill(owner, open.Keys, SLOTS);
    }
  }

  lemma BeginSim(slots: seq<Slot>, owner: seq<nat>, open: map<nat, Train>, p: Packet, t: nat, k: nat)
    requires Sim(slots, owner, open) && t !in open && k < SLOTS && !slots[k].active
    ensures Sim(slots[k := Started(p)], owner[k := t], open[t := Opened(p)])
  {
    hide Capped, Cut;
    CutIsCap(p.data);
    var slots', owner' := slots[k := Started(p)], owner[k := t];
    assert slots'[k].active && owner'[k] == t;
    forall u | u in open ensures exists l :: 0 <= l < SLOTS && slots'[l].active && owner'[l] == u {
      var l :| 0 <= l < SLOTS && slots[l].active && owner[l] == u;
      assert slots'[l].active && owner'[l] == u;
    }
  }

  lemma CutIsCap(data: seq<Byte>)
    ensures Cut(data) == Capped(data)
  {
  }

  lemma CapTwice(a: seq<Byte>, b: seq<Byte>)
    ensures Cut(Capped(a) + b) == Capped(a + b)
  {
  }

  /** No slot takes a packet that no train waits for. */
  lemma NoMatch(slots: seq<Slot>, owner: seq<nat>, open: map<nat, Train>, p: Packet, t: nat)
    requires Sim(slots, owner, open) && forall u :: u in open && u != t ==> !Waits(open[u], p)
    requires t in open ==> !Waits(open[t], p)
    ensures LastMatch(slots, p, SLOTS) == -1
  {
    hide Capped;
    forall k | 0 <= k < SLOTS ensures !Matches(slots[k], p) {
      if slots[k].active {
        assert Same(slots[k], open[owner[k]]);
      }
    }
  }

  lemma MatchIsOwner(slots: seq<Slot>, owner: seq<nat>, open: map<nat, Train>, p: Packet, t: nat, k: nat)
    requires Sim(slots, owner, open) && forall u :: u in open && u != t ==> !Waits(open[u], p)
    requires t in open && Waits(open[t], p) && k < SLOTS && slots[k].active && owner[k] == t
    ensures LastMatch(slots, p, SLOTS) == k
  {
    hide Capped;
    assert Same(slots[k], open[t]) && Matches(slots[k], p);
    forall l | 0 <= l < SLOTS && Matches(slots[l], p) ensures l == k {
      assert Same(slots[l], open[owner[l]]);
    }
  }

  lemma OthersStay(slots: seq<Slot>, owner: seq<nat>, open: map<nat, Train>, k: nat, s: Slot)
    requires Sim(slots, owner, open) && k < SLOTS && slots[k].active
    ensures var slots' := slots[k := s];
            forall u :: u in open && u != owner[k] ==> exists l :: 0 <= l < SLOTS && slots'[l].active && owner[l] == u
  {
    hide Same;
    var slots' := slots[k := s];
    forall u | u in open && u != owner[k] ensures exists l :: 0 <= l < SLOTS && slots'[l].active && owner[l] == u {
      var l :| 0 <= l < SLOTS && slots[l].active && owner[l] == u;
      assert slots'[l].active;
    }
  }

  lemma ExtendSim(slots: seq<Slot>, owner: seq<nat>, open: map<nat, Train>, k: nat, s: Slot, u: Train)
    requires Sim(slots, owner, open) && k < SLOTS && slots[k].active && Same(s, u)
    ensures Sim(slots[k := s], owner, open[owner[k] := u])
  {
    hide Same;
    OthersStay(slots, owner, open, k, s);
    var slots' := slots[k := s];
    assert slots'[k].active by { SameActive(s, u); }
  }

  lemma SameActive(s: Slot, u: Train)
    requires Same(s, u)
    ensures s.active
  {
  }

  lemma CloseSim(slots: seq<Slot>, owner: seq<nat>, open: map<nat, Train>, k: nat, s: Slot)
    requires Sim(slots, owner, open) && k < SLOTS && slots[k].active && !s.active
    ensures Sim(slots[k := s], owner, open - {owner[k]})
  {
    hide Same;
    OthersStay(slots, owner, open, k, s);
  }

  lemma SlotOf(slots: seq<Slot>, owner: seq<nat>, open: map<nat, Train>, t: nat) returns (k: nat)
    requires Sim(slots, owner, open) && t in open
    ensures k < |slots| == |owner| == SLOTS && slots[k].active && owner[k] == t && Same(slots[k], open[t])
  {
    k :| k < SLOTS && slots[k].active && owner[k] == t;
  }

  lemma GrownSame(s: Slot, u: Train, p: Packet)
    requires Same(s, u)
    ensures Cut(s.data + p.data) == Capped(Grown(u, p).data)
    ensures p.no != u.cnt ==> Same(Extended(s, p), Grown(u, p))
  {
    hide Capped, Cut;
    CapTwice(u.data, p.data);
  }

  function Plus(out: seq<Message>, m: Option<Message>): seq<Message> {
    if m.Some? then out + [m.value] else out
  }

  /** The slots follow the ideal through a packet that goes on with a train, or is lost. */
  lemma CarrySim(slots: seq<Slot>, owner: seq<nat>, s: Ideal, p: Packet, t: nat)
    requires |slots| == |owner| == SLOTS && Carries(p)
    requires var open := Live(s.open, p.time); Sim(Expired(slots, p.time), owner, open) && Proper(p, t, open)
    ensures Sim(Next(slots, p), owner, Step(s, p, t).open)
    ensures Step(s, p, t).out == Plus(s.out, Emitted(slots, p))
  {
    hide Sim, Matches, Live, Expired, Capped, Cut, Same, Extended;
    var open, x := Live(s.open, p.time), Expired(slots, p.time);
    if t in open && Waits(open[t], p) {
      var k := SlotOf(x, owner, open, t);
      MatchIsOwner(x, owner, open, p, t, k);
      GrownSame(x[k], open[t], p);
      SameParts(x[k], open[t]);
      if p.no == open[t].cnt {
        Closes(x[k], p);
        CloseSim(x, owner, open, k, Extended(x[k], p));
      } else {
        ExtendSim(x, owner, open, k, Extended(x[k], p), Grown(open[t], p));
      }
    } else {
      NoMatch(x, owner, open, p, t);
    }
  }

  lemma SameParts(s: Slot, u: Train)
    requires Same(s, u)
    ensures s.cnt == u.cnt && s.signal == u.signal && s.uplink == u.uplink
  {
  }

  lemma Closes(s: Slot, p: Packet)
    requires p.no == s.cnt
    ensures !Extended(s, p).active
  {
  }

  /** The slots follow the ideal through one packet, and deliver the same. */
  lemma StepSim(slots: seq<Slot>, owner: seq<nat>, s: Ideal, p: Packet, t: nat) returns (owner': seq<nat>)
    requires |slots| == |owner| == SLOTS && Sim(slots, owner, s.open) && Proper(p, t, Live(s.open, p.time))
    ensures Sim(Next(slots, p), owner', Step(s, p, t).open)
    ensures Step(s, p, t).out == Plus(s.out, Emitted(slots, p))
  {
    hide Sim, Matches, Live, Expired, Capped, Cut;
    ExpireSim(slots, owner, s.open, p.time);
    owner' := owner;
    var open, x := Live(s.open, p.time), Expired(slots, p.time);
    if Opens(p) {
      PlaceLeft(x, owner, open);
      BeginSim(x, owner, open, p, t, Place(x));
      owner' := owner[Place(x) := t];
    } else if Carries(p) {
      CarrySim(slots, owner, s, p, t);
    }
  }

  // ---- Whole histories ----

  function Messages(out: seq<S.Delivery>): (r: seq<Message>)
    ensures |r| == |out|
  {
    seq(|out|, i requires 0 <= i < |out| => out[i].message)
  }

  lemma MessagesMore(out: seq<S.Delivery>, out': seq<S.Delivery>, m: Message)
    requires |out'| == |out| + 1 && out'[..|out|] == out && out'[|out|].message == m
    ensures Messages(out') == Messages(out) + [m]
  {
    forall i | 0 <= i < |out'| ensures Messages(out')[i] == (Messages(out) + [m])[i] {
      if i < |out| {
        assert out'[..|out|][i] == out[i];
      }
    }
  }

  /** Both machines at position n: the slots hold the open trains, and the same has been delivered. */
  ghost predicate Agree(packets: seq<Packet>, labels: seq<nat>, n: nat, owner: seq<nat>)
    requires n <= |packets| == |labels|
  {
    && |owner| == SLOTS
    && Sim(S.After(packets, n).slots, owner, IdealAfter(packets, labels, n).open)
    && Messages(S.After(packets, n).out) == IdealAfter(packets, labels, n).out
  }

  lemma AgreeAtStart(packets: seq<Packet>, labels: seq<nat>)
    requires |packets| == |labels|
    ensures Agree(packets, labels, 0, seq(SLOTS, i => 0))
  {
  }

  lemma AgreeStep(packets: seq<Packet>, labels: seq<nat>, n: nat, owner: seq<nat>) returns (owner': seq<nat>)
    requires n < |packets| == |labels| && Orderly(packets, labels) && Agree(packets, labels, n, owner)
    ensures Agree(packets, labels, n + 1, owner')
  {
    hide S.After, Next, Emitted, Sim, Step, Messages, Proper, Live;
    var r, r', s := S.After(packets, n), S.After(packets, n + 1), IdealAfter(packets, labels, n);
    owner' := StepSim(r.slots, owner, s, packets[n], labels[n]);
    S.RunSteps(packets, n);
    if Emitted(r.slots, packets[n]).Some? {
      MessagesMore(r.out, r'.out, Emitted(r.slots, packets[n]).value);
    }
    StillEight(r'.slots, owner', IdealAfter(packets, labels, n + 1).open);
  }

  lemma StillEight(slots: seq<Slot>, owner: seq<nat>, open: map<nat, Train>)
    requires Sim(slots, owner, open)
    ensures |owner| == SLOTS
  {
  }

  lemma {:induction false} RunSim(packets: seq<Packet>, labels: seq<nat>, n: nat) returns (owner: seq<nat>)
    requires n <= |packets| == |labels| && Orderly(packets, labels)
    ensures Agree(packets, labels, n, owner)
  {
    hide Agree, Orderly;
    if n == 0 {
      AgreeAtStart(packets, labels);
      owner := seq(SLOTS, i => 0);
    } else {
      owner := RunSim(packets, labels, n - 1);
      owner := AgreeStep(packets, labels, n - 1, owner);
    }
  }

  // ---- What the ideal delivers ----

  /** These packets have reached the count. */
  predicate Complete(packets: seq<Packet>, c: seq<nat>)
    requires forall j :: 0 <= j < |c| ==> c[j] < |packets|
  {
    |c| > 1 && packets[c[|c| - 1]].no == packets[c[0]].cnt
  }

  /** They have not, and at this time the next one can still come. */
  predicate Unfinished(packets: seq<Packet>, c: seq<nat>, now: nat)
    requires forall j :: 0 <= j < |c| ==> c[j] < |packets|
  {
    c != [] && !Complete(packets, c) && now <= packets[c[|c| - 1]].time + 5000000000
  }

  /** The positions of the packets of the latest train labelled t among the first n: a first one, and others that come
      in time, in its direction and with the next number; packets that do not are passed over. */
  function Trail(packets: seq<Packet>, labels: seq<nat>, n: nat, t: nat): (c: seq<nat>)
    requires n <= |packets| == |labels|
    ensures forall j :: 0 <= j < |c| ==> c[j] < n
  {
    if n == 0 then []
    else
      var c, p := Trail(packets, labels, n - 1, t), packets[n - 1];
      if labels[n - 1] != t || Alone(p) then c
      else if Opens(p) then [n - 1]
      else if Carries(p) && Unfinished(packets, c, p.time) && p.uplink == packets[c[0]].uplink &&
              p.no == packets[c[|c| - 1]].no + 1
      then c + [n - 1]
      else c
  }

  /** The data at these positions, one after the other. */
  function Data(packets: seq<Packet>, c: seq<nat>): seq<Byte>
    requires forall j :: 0 <= j < |c| ==> c[j] < |packets|
  {
    if c == [] then [] else Data(packets, c[..|c| - 1]) + packets[c[|c| - 1]].data
  }

  function TrainOf(packets: seq<Packet>, c: seq<nat>): Train
    requires c != [] && forall j :: 0 <= j < |c| ==> c[j] < |packets|
  {
    var first, last := packets[c[0]], packets[c[|c| - 1]];
    Train(first.uplink, first.cnt, first.signal, last.no, last.time, Data(packets, c))
  }

  lemma TrainMore(packets: seq<Packet>, c: seq<nat>, i: nat)
    requires c != [] && i < |packets| && forall j :: 0 <= j < |c| ==> c[j] < |packets|
    ensures TrainOf(packets, c + [i]) == Grown(TrainOf(packets, c), packets[i])
    ensures Complete(packets, c + [i]) <==> packets[i].no == TrainOf(packets, c).cnt
  {
    assert (c + [i])[..|c|] == c;
  }

  lemma TrainOne(packets: seq<Packet>, i: nat)
    requires i < |packets|
    ensures TrainOf(packets, [i]) == Opened(packets[i])
  {
    assert [i][..0] == [];
    assert Data(packets, []) == [];
  }

  lemma TrainLast(packets: seq<Packet>, c: seq<nat>)
    requires c != [] && forall j :: 0 <= j < |c| ==> c[j] < |packets|
    ensures var u := TrainOf(packets, c);
            u.uplink == packets[c[0]].uplink && u.no == packets[c[|c| - 1]].no && u.time == packets[c[|c| - 1]].time
  {
  }

  /** The time of the last of the first n packets. */
  function Now(packets: seq<Packet>, n: nat): nat
    requires n <= |packets|
  {
    if n == 0 then 0 else packets[n - 1].time
  }

  /** The open train, if there is one, is the unfinished trail. */
  ghost predicate Trailed(packets: seq<Packet>, labels: seq<nat>, n: nat, t: nat)
    requires n <= |packets| == |labels|
  {
    var c, open := Trail(packets, labels, n, t), IdealAfter(packets, labels, n).open;
    && (t in open <==> Unfinished(packets, c, Now(packets, n)))
    && (t in open ==> open[t] == TrainOf(packets, c))
  }

  /** What is left of it at the time of the next packet. */
  lemma LaterOpen(packets: seq<Packet>, labels: seq<nat>, n: nat, t: nat)
    requires n < |packets| == |labels| && InOrder(packets) && Trailed(packets, labels, n, t)
    ensures var c, live := Trail(packets, labels, n, t), Live(IdealAfter(packets, labels, n).open, packets[n].time);
            && (t in live <==> Unfinished(packets, c, packets[n].time))
            && (t in live ==> live[t] == TrainOf(packets, c))
  {
    hide TrainOf, IdealAfter, Trail;
    assert Now(packets, n) <= packets[n].time;
    if Trail(packets, labels, n, t) != [] {
      TrainLast(packets, Trail(packets, labels, n, t));
    }
  }

  lemma TrailNext(packets: seq<Packet>, labels: seq<nat>, n: nat, t: nat)
    requires n < |packets| == |labels|
    ensures var c, p := Trail(packets, labels, n, t), packets[n];
            Trail(packets, labels, n + 1, t) ==
              if labels[n] != t || Alone(p) then c
              else if Opens(p) then [n]
              else if Carries(p) && Unfinished(packets, c, p.time) && p.uplink == packets[c[0]].uplink &&
                      p.no == packets[c[|c| - 1]].no + 1
              then c + [n]
              else c
  {
  }

  lemma IdealNext(packets: seq<Packet>, labels: seq<nat>, n: nat)
    requires n < |packets| == |labels|
    ensures IdealAfter(packets, labels, n + 1) == Step(IdealAfter(packets, labels, n), packets[n], labels[n])
  {
  }

  /** What a packet makes of the train with label t. */
  lemma OwnStep(s: Ideal, p: Packet, l: nat, t: nat)
    ensures var open, live := Step(s, p, l).open, Live(s.open, p.time);
            if l != t || Alone(p) then (t in open <==> t in live) && (t in open ==> open[t] == live[t])
            else if Opens(p) then t in open && open[t] == Opened(p)
            else if Carries(p) && t in live && Waits(live[t], p) then
              (t in open <==> p.no != live[t].cnt) && (t in open ==> open[t] == Grown(live[t], p))
            else (t in open <==> t in live) && (t in open ==> open[t] == live[t])
  {
    hide Live;
  }

  lemma TrailStep(packets: seq<Packet>, labels: seq<nat>, n: nat, t: nat)
    requires n < |packets| == |labels| && InOrder(packets) && Trailed(packets, labels, n, t)
    ensures Trailed(packets, labels, n + 1, t)
  {
    hide TrainOf, IdealAfter, Trail, Step, Live;
    var c := Trail(packets, labels, n, t);
    LaterOpen(packets, labels, n, t);
    TrailNext(packets, labels, n, t);
    IdealNext(packets, labels, n);
    OwnStep(IdealAfter(packets, labels, n), packets[n], labels[n], t);
    TrainOne(packets, n);
    if c != [] {
      TrainMore(packets, c, n);
      TrainLast(packets, c);
    }
  }

  /** A train is open exactly while it is unfinished and its next packet can still come, and it holds its data so
      far. */
  lemma {:induction false} OpenTrail(packets: seq<Packet>, labels: seq<nat>, n: nat, t: nat)
    requires n <= |packets| == |labels| && InOrder(packets)
    ensures Trailed(packets, labels, n, t)
  {
    if n > 0 {
      OpenTrail(packets, labels, n - 1, t);
      TrailStep(packets, labels, n - 1, t);
    }
  }

  /** The packet at position i completes its train. */
  predicate Ends(packets: seq<Packet>, labels: seq<nat>, i: nat)
    requires i < |packets| == |labels|
  {
    var c := Trail(packets, labels, i + 1, labels[i]);
    c != [] && c[|c| - 1] == i && Complete(packets, c)
  }

  /** What is passed on at position i: the packet itself, or the data of the whole train, cut at 1024 bytes, with the
      direction and signal of the first packet and the time of the last. */
  function Passed(packets: seq<Packet>, labels: seq<nat>, i: nat): (m: seq<Message>)
    requires i < |packets| == |labels|
  {
    var p := packets[i];
    if Alone(p) then [Message(p.data, p.uplink, p.time, p.signal)]
    else if Ends(packets, labels, i) then
      var c := Trail(packets, labels, i + 1, labels[i]);
      var first := packets[c[0]];
      [Message(Capped(Data(packets, c)), first.uplink, p.time, first.signal)]
    else []
  }

  function AllPassed(packets: seq<Packet>, labels: seq<nat>, n: nat): seq<Message>
    requires n <= |packets| == |labels|
  {
    if n == 0 then [] else AllPassed(packets, labels, n - 1) + Passed(packets, labels, n - 1)
  }

  /** The packet that completes a train passes on that train, one of its own passes on itself, and no other passes on
      anything. */
  lemma StepPasses(packets: seq<Packet>, labels: seq<nat>, n: nat)
    requires n < |packets| == |labels| && InOrder(packets)
    ensures IdealAfter(packets, labels, n + 1).out ==
            IdealAfter(packets, labels, n).out + Passed(packets, labels, n)
  {
    hide IdealAfter, Trail, TrainOf, Data, Live;
    var t := labels[n];
    var c := Trail(packets, labels, n, t);
    OpenTrail(packets, labels, n, t);
    LaterOpen(packets, labels, n, t);
    TrailNext(packets, labels, n, t);
    IdealNext(packets, labels, n);
    TrainOne(packets, n);
    if c != [] {
      TrainMore(packets, c, n);
      TrainLast(packets, c);
      TrainFields(packets, c + [n]);
    }
    var out := IdealAfter(packets, labels, n).out;
    assert out + [] == out;
  }

  lemma TrainFields(packets: seq<Packet>, c: seq<nat>)
    requires c != [] && forall j :: 0 <= j < |c| ==> c[j] < |packets|
    ensures var u, first := TrainOf(packets, c), packets[c[0]];
            u.data == Data(packets, c) && u.uplink == first.uplink && u.signal == first.signal
  {
  }

  lemma {:induction false} IdealPasses(packets: seq<Packet>, labels: seq<nat>, n: nat)
    requires n <= |packets| == |labels| && InOrder(packets)
    ensures IdealAfter(packets, labels, n).out == AllPassed(packets, labels, n)
  {
    hide Passed, Step;
    if n > 0 {
      IdealPasses(packets, labels, n - 1);
      StepPasses(packets, labels, n - 1);
    }
  }

  /** On an orderly history exactly the packets of their own and the completed trains are passed on, each once, in the
      order in which they are complete. */
  lemma TrainsArePassedOn(packets: seq<Packet>, labels: seq<nat>)
    requires |packets| == |labels| && Orderly(packets, labels)
    ensures Messages(S.After(packets, |packets|).out) == AllPassed(packets, labels, |packets|)
  {
    hide S.After, Sim, AllPassed, Proper, Messages;
    var owner := RunSim(packets, labels, |packets|);
    IdealPasses(packets, labels, |packets|);
  }

  /** A history of packets through sbd_extract, one after the other. */
  method Receive(packets: seq<Packet>, ghost labels: seq<nat>) returns (out: seq<Message>)
    requires |labels| == |packets|
    ensures Orderly(packets, labels) ==> out == AllPassed(packets, labels, |packets|)
  {
    hide S.After, Next, Emitted, AllPassed, Orderly, Messages;
    var context := new Context();
    out := [];
    StartsEmpty(packets);
    for i := 0 to |packets|
      invariant Fitting(context.slots) && context.slots == S.After(packets, i).slots
      invariant out == Messages(S.After(packets, i).out)
    {
      ghost var r, r' := S.After(packets, i), S.After(packets, i + 1);
      S.RunSteps(packets, i);
      var m := context.Extract(packets[i]);
      if m.Some? {
        MessagesMore(r.out, r'.out, m.value);
        out := out + [m.value];
      }
    }
    if Orderly(packets, labels) {
      TrainsArePassedOn(packets, labels);
    }
  }

  lemma StartsEmpty(packets: seq<Packet>)
    ensures S.After(packets, 0).slots == seq(SLOTS, i => EMPTY) && Messages(S.After(packets, 0).out) == []
  {
  }
}
