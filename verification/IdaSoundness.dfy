/** What every message delivered by reassembly is made of, over any history of bursts and flushes. */
module IdaSoundness {

  import opened IdaReassembly
  import opened Wrappers

  datatype Event = Arrive(burst: Burst) | Flush(now: nat)

  /** A message together with the positions of the bursts it was made of. */
  datatype Delivery = Delivery(chain: seq<nat>, message: Message)

  /** The slots, for each slot the positions of the bursts it holds, and what has been delivered. */
  datatype Run = Run(slots: seq<Slot>, chains: seq<seq<nat>>, out: seq<Delivery>)

  // ---- Runs ----

  function Start(): Run {
    Run(seq(SLOTS, i => EMPTY), seq(SLOTS, i => []), [])
  }

  function Sent(m: Option<Message>, chain: seq<nat>): seq<Delivery> {
    if m.Some? then [Delivery(chain, m.value)] else []
  }

  /** The effect of the event at position i. */
  function Advance(r: Run, e: Event, i: nat): Run
    requires |r.slots| == |r.chains| == SLOTS
  {
    match e
    case Flush(now) => r.(slots := Flushed(r.slots, now))
    case Arrive(b) =>
      var k := FirstMatch(r.slots, b, 0);
      var slots := Next(r.slots, b);
      var m := Emitted(r.slots, b);
      if !Usable(b) then r
      else if k < SLOTS then Run(slots, r.chains[k := r.chains[k] + [i]], r.out + Sent(m, r.chains[k] + [i]))
      else if b.ctr == 0 && b.cont then Run(slots, r.chains[Place(r.slots) := [i]], r.out)
      else Run(slots, r.chains, r.out + Sent(m, [i]))
  }

  function After(events: seq<Event>, n: nat): (r: Run)
    requires n <= |events|
    ensures |r.slots| == |r.chains| == SLOTS
  {
    if n == 0 then Start() else Advance(After(events, n - 1), events[n - 1], n - 1)
  }

  /** The slots and deliveries of a run are those of the two operations, called in the order of the events. */
  lemma RunSteps(events: seq<Event>, n: nat)
    requires n < |events|
    ensures var r, r' := After(events, n), After(events, n + 1);
            match events[n]
            case Flush(now) => r'.slots == Flushed(r.slots, now) && r'.out == r.out
            case Arrive(b) =>
              r'.slots == Next(r.slots, b) &&
              if Emitted(r.slots, b).None? then r'.out == r.out
              else
                |r'.out| == |r.out| + 1 && r'.out[..|r.out|] == r.out &&
                r'.out[|r.out|].message == Emitted(r.slots, b).value
  {
  }

  // ---- Chains ----

  /** A burst whose check is right and that carries something. */
  predicate IsBurst(events: seq<Event>, i: nat) {
    i < |events| && events[i].Arrive? && events[i].burst.crcOk && events[i].burst.payload != []
  }

  function BurstAt(events: seq<Event>, i: nat): Burst
    requires IsBurst(events, i)
  {
    events[i].burst
  }

  /** b may follow a, in a chain that began with first. */
  predicate Follows(first: Burst, a: Burst, b: Burst) {
    && a.cont
    && b.ctr == (a.ctr + 1) % 8
    && a.time <= b.time <= a.time + 280000000
    && b.uplink == first.uplink
    && Abs(first.freq - b.freq) <= 260.0
  }

  /** Usable bursts at increasing positions before n, the first with counter 0, each following the one before. */
  ghost predicate Chain(events: seq<Event>, c: seq<nat>, n: nat) {
    && c != []
    && (forall j :: 0 <= j < |c| ==> IsBurst(events, c[j]) && c[j] < n)
    && (forall j :: 0 <= j < |c| - 1 ==> c[j] < c[j + 1])
    && BurstAt(events, c[0]).ctr == 0
    && (forall j :: 0 <= j < |c| - 1 ==>
          Follows(BurstAt(events, c[0]), BurstAt(events, c[j]), BurstAt(events, c[j + 1])))
  }

  /** The payloads of a chain, without those that did not fit. */
  function Assembled(events: seq<Event>, c: seq<nat>): seq<Byte>
    requires c != [] && forall j :: 0 <= j < |c| ==> IsBurst(events, c[j])
  {
    if |c| == 1 then BurstAt(events, c[0]).payload
    else Append(Assembled(events, c[..|c| - 1]), BurstAt(events, c[|c| - 1]).payload)
  }

  /** An active slot holds a chain that is to be continued. */
  ghost predicate Holds(events: seq<Event>, n: nat, s: Slot, c: seq<nat>) {
    && Chain(events, c, n)
    && var first, last := BurstAt(events, c[0]), BurstAt(events, c[|c| - 1]);
       last.cont && s.uplink == first.uplink && s.freq == first.freq && s.last == last.time && s.ctr == last.ctr &&
         s.data == Assembled(events, c)
  }

  /** A delivery is a chain that ends with a burst without continuation. */
  ghost predicate Delivered(events: seq<Event>, n: nat, d: Delivery) {
    && Chain(events, d.chain, n)
    && var first, last := BurstAt(events, d.chain[0]), BurstAt(events, d.chain[|d.chain| - 1]);
       !last.cont && d.message == Message(Assembled(events, d.chain), last.time, first.freq, first.uplink)
  }

  predicate Apart(c: seq<nat>, d: seq<nat>) {
    forall i, j :: 0 <= i < |c| && 0 <= j < |d| ==> c[i] != d[j]
  }

  /** The deliveries are sound. */
  ghost predicate OutOk(events: seq<Event>, n: nat, out: seq<Delivery>) {
    && (forall p :: 0 <= p < |out| ==> Delivered(events, n, out[p]))
    && (forall p, q :: 0 <= p < q < |out| ==> Apart(out[p].chain, out[q].chain))
  }

  ghost predicate SlotsOk(events: seq<Event>, n: nat, slots: seq<Slot>, chains: seq<seq<nat>>)
    requires |slots| == |chains|
  {
    && (forall k :: 0 <= k < |slots| && slots[k].active ==> Holds(events, n, slots[k], chains[k]))
    && (forall k, l :: 0 <= k < l < |slots| && slots[k].active && slots[l].active ==> Apart(chains[k], chains[l]))
  }

  ghost predicate Separate(slots: seq<Slot>, chains: seq<seq<nat>>, out: seq<Delivery>)
    requires |slots| == |chains|
  {
    forall k, p :: 0 <= k < |slots| && slots[k].active && 0 <= p < |out| ==> Apart(chains[k], out[p].chain)
  }

  ghost predicate Inv(events: seq<Event>, n: nat, r: Run)
    requires |r.slots| == |r.chains|
  {
    OutOk(events, n, r.out) && SlotsOk(events, n, r.slots, r.chains) && Separate(r.slots, r.chains, r.out)
  }

  // ---- One step ----

  lemma Later(events: seq<Event>, n: nat, r: Run)
    requires |r.slots| == |r.chains| && Inv(events, n, r)
    ensures Inv(events, n + 1, r)
  {
    forall k | 0 <= k < |r.slots| && r.slots[k].active ensures Holds(events, n + 1, r.slots[k], r.chains[k]) {
      assert Holds(events, n, r.slots[k], r.chains[k]);
    }
    forall p | 0 <= p < |r.out| ensures Delivered(events, n + 1, r.out[p]) {
      assert Delivered(events, n, r.out[p]);
    }
  }

  /** A position not used before n. */
  lemma Fresh(events: seq<Event>, c: seq<nat>, n: nat)
    requires Chain(events, c, n)
    ensures Apart(c, [n]) && Apart([n], c)
  {
  }

  lemma ChainGrows(events: seq<Event>, n: nat, s: Slot, c: seq<nat>)
    requires Holds(events, n, s, c) && IsBurst(events, n) && s.active && Matches(s, BurstAt(events, n))
    ensures Chain(events, c + [n], n + 1)
    ensures Assembled(events, c + [n]) == Append(s.data, BurstAt(events, n).payload)
  {
    var d := c + [n];
    assert d[..|d| - 1] == c;
    var first, last := BurstAt(events, c[0]), BurstAt(events, c[|c| - 1]);
    forall j | 0 <= j < |d| - 1
      ensures d[j] < d[j + 1] && Follows(first, BurstAt(events, d[j]), BurstAt(events, d[j + 1]))
    {
      if j < |c| - 1 {
        assert d[j + 1] == c[j + 1];
      }
    }
  }

  lemma ChainBegins(events: seq<Event>, n: nat)
    requires IsBurst(events, n) && BurstAt(events, n).ctr == 0
    ensures Chain(events, [n], n + 1) && Assembled(events, [n]) == BurstAt(events, n).payload
  {
  }

  /** Replacing the contents of one slot. */
  lemma Replace(events: seq<Event>, n: nat, slots: seq<Slot>, chains: seq<seq<nat>>, out: seq<Delivery>, k: nat,
                s: Slot, c: seq<nat>)
    requires |slots| == |chains| && k < |slots| && SlotsOk(events, n, slots, chains) && Separate(slots, chains, out)
    requires s.active ==> Holds(events, n, s, c)
    requires s.active ==> forall l :: 0 <= l < |slots| && l != k && slots[l].active ==>
             Apart(c, chains[l]) && Apart(chains[l], c)
    requires s.active ==> forall p :: 0 <= p < |out| ==> Apart(c, out[p].chain)
    ensures SlotsOk(events, n, slots[k := s], chains[k := c]) && Separate(slots[k := s], chains[k := c], out)
  {
    hide Holds, Apart;
  }

  /** Delivering one more chain. */
  lemma Deliver(events: seq<Event>, n: nat, slots: seq<Slot>, chains: seq<seq<nat>>, out: seq<Delivery>, d: Delivery)
    requires |slots| == |chains| && OutOk(events, n, out) && Separate(slots, chains, out) && Delivered(events, n, d)
    requires forall p :: 0 <= p < |out| ==> Apart(out[p].chain, d.chain)
    requires forall l :: 0 <= l < |slots| && slots[l].active ==> Apart(chains[l], d.chain)
    ensures OutOk(events, n, out + [d]) && Separate(slots, chains, out + [d])
  {
    hide Delivered, Apart;
  }

  lemma ApartGrows(c: seq<nat>, d: seq<nat>, n: nat)
    requires Apart(c, d) && Apart([n], d)
    ensures Apart(c + [n], d) && Apart(d, c + [n])
  {
  }

  /** A grown chain shares nothing with the other slots or with what was delivered. */
  lemma GrownApart(events: seq<Event>, n: nat, r: Run, k: nat)
    requires |r.slots| == |r.chains| && Inv(events, n, r) && k < |r.slots| && r.slots[k].active
    ensures var c := r.chains[k] + [n];
            (forall l :: 0 <= l < |r.slots| && l != k && r.slots[l].active ==>
              Apart(c, r.chains[l]) && Apart(r.chains[l], c)) &&
            (forall p :: 0 <= p < |r.out| ==> Apart(c, r.out[p].chain) && Apart(r.out[p].chain, c))
  {
    var c := r.chains[k];
    forall l | 0 <= l < |r.slots| && l != k && r.slots[l].active
      ensures Apart(c + [n], r.chains[l]) && Apart(r.chains[l], c + [n]) {
      assert Holds(events, n, r.slots[l], r.chains[l]);
      Fresh(events, r.chains[l], n);
      Flip(r.chains[l], c);
      Flip(c, r.chains[l]);
      ApartGrows(c, r.chains[l], n);
    }
    forall p | 0 <= p < |r.out| ensures Apart(c + [n], r.out[p].chain) && Apart(r.out[p].chain, c + [n]) {
      assert Delivered(events, n, r.out[p]);
      Fresh(events, r.out[p].chain, n);
      ApartGrows(c, r.out[p].chain, n);
    }
  }

  lemma Flip(c: seq<nat>, d: seq<nat>)
    ensures Apart(c, d) <==> Apart(d, c)
  {
  }

  /** A new position shares nothing with any slot or delivery. */
  lemma NewApart(events: seq<Event>, n: nat, r: Run)
    requires |r.slots| == |r.chains| && Inv(events, n, r)
    ensures forall l :: 0 <= l < |r.slots| && r.slots[l].active ==> Apart([n], r.chains[l]) && Apart(r.chains[l], [n])
    ensures forall p :: 0 <= p < |r.out| ==> Apart([n], r.out[p].chain) && Apart(r.out[p].chain, [n])
  {
    forall l | 0 <= l < |r.slots| && r.slots[l].active ensures Apart([n], r.chains[l]) && Apart(r.chains[l], [n]) {
      assert Holds(events, n, r.slots[l], r.chains[l]);
      Fresh(events, r.chains[l], n);
    }
    forall p | 0 <= p < |r.out| ensures Apart([n], r.out[p].chain) && Apart(r.out[p].chain, [n]) {
      assert Delivered(events, n, r.out[p]);
      Fresh(events, r.out[p].chain, n);
    }
  }

  lemma FlushKeeps(events: seq<Event>, n: nat, r: Run, now: nat)
    requires |r.slots| == |r.chains| && Inv(events, n, r)
    ensures Inv(events, n, r.(slots := Flushed(r.slots, now)))
  {
    hide Apart, OutOk;
    var r' := r.(slots := Flushed(r.slots, now));
    assert forall k :: 0 <= k < |r.slots| && r'.slots[k].active ==> r'.slots[k] == r.slots[k];
  }

  lemma ExtendKeeps(events: seq<Event>, n: nat, r: Run, k: nat)
    requires |r.slots| == |r.chains| && Inv(events, n, r) && IsBurst(events, n) && k < |r.slots| &&
             Matches(r.slots[k], BurstAt(events, n))
    ensures var b, c := BurstAt(events, n), r.chains[k] + [n];
            var s := Extended(r.slots[k], b);
            var m := Message(Append(r.slots[k].data, b.payload), b.time, r.slots[k].freq, r.slots[k].uplink);
            Inv(events, n + 1, Run(r.slots[k := s], r.chains[k := c],
                                   r.out + Sent(if b.cont then None else Some(m), c)))
  {
    var b, c := BurstAt(events, n), r.chains[k] + [n];
    var s := Extended(r.slots[k], b);
    assert Holds(events, n, r.slots[k], r.chains[k]);
    ChainGrows(events, n, r.slots[k], r.chains[k]);
    assert c[|c| - 1] == n && c[0] == r.chains[k][0];
    GrownApart(events, n, r, k);
    Later(events, n, r);
    if b.cont {
      assert Holds(events, n + 1, s, c);
      hide Holds, Apart, Delivered, Chain;
      Replace(events, n + 1, r.slots, r.chains, r.out, k, s, c);
    } else {
      var d := Delivery(c, Message(Append(r.slots[k].data, b.payload), b.time, r.slots[k].freq, r.slots[k].uplink));
      assert Delivered(events, n + 1, d);
      hide Holds, Apart, Delivered, Chain;
      Replace(events, n + 1, r.slots, r.chains, r.out, k, s, c);
      Deliver(events, n + 1, r.slots[k := s], r.chains[k := c], r.out, d);
    }
  }

  lemma BeginKeeps(events: seq<Event>, n: nat, r: Run, k: nat)
    requires |r.slots| == |r.chains| && Inv(events, n, r) && IsBurst(events, n) && k < |r.slots|
    requires BurstAt(events, n).ctr == 0 && BurstAt(events, n).cont
    ensures Inv(events, n + 1, Run(r.slots[k := Started(BurstAt(events, n))], r.chains[k := [n]], r.out))
  {
    ChainBegins(events, n);
    assert Holds(events, n + 1, Started(BurstAt(events, n)), [n]);
    NewApart(events, n, r);
    Later(events, n, r);
    hide Holds, Apart, Delivered, Chain;
    Replace(events, n + 1, r.slots, r.chains, r.out, k, Started(BurstAt(events, n)), [n]);
  }

  lemma SingleKeeps(events: seq<Event>, n: nat, r: Run)
    requires |r.slots| == |r.chains| && Inv(events, n, r) && IsBurst(events, n)
    requires BurstAt(events, n).ctr == 0 && !BurstAt(events, n).cont
    ensures var b := BurstAt(events, n);
            Inv(events, n + 1, r.(out := r.out + [Delivery([n], Message(b.payload, b.time, b.freq, b.uplink))]))
  {
    var b := BurstAt(events, n);
    var d := Delivery([n], Message(b.payload, b.time, b.freq, b.uplink));
    ChainBegins(events, n);
    assert Delivered(events, n + 1, d);
    NewApart(events, n, r);
    Later(events, n, r);
    hide Holds, Apart, Delivered, Chain;
    Deliver(events, n + 1, r.slots, r.chains, r.out, d);
  }

  lemma AdvanceKeeps(events: seq<Event>, n: nat, r: Run)
    requires n < |events| && |r.slots| == |r.chains| == SLOTS && Inv(events, n, r)
    ensures Inv(events, n + 1, Advance(r, events[n], n))
  {
    Later(events, n, r);
    hide Inv;
    match events[n]
    case Flush(now) => FlushKeeps(events, n + 1, r, now);
    case Arrive(b) =>
      if Usable(b) {
        var k := FirstMatch(r.slots, b, 0);
        if k < SLOTS {
          ExtendKeeps(events, n, r, k);
        } else if b.ctr == 0 && b.cont {
          BeginKeeps(events, n, r, Place(r.slots));
        } else if b.ctr == 0 {
          SingleKeeps(events, n, r);
        } else {
          assert r.out + [] == r.out;
        }
      }
  }

  lemma StartOk(events: seq<Event>)
    ensures Inv(events, 0, Start())
  {
    assert forall k :: 0 <= k < SLOTS ==> !Start().slots[k].active;
  }

  lemma {:induction false} RunKeeps(events: seq<Event>, n: nat)
    requires n <= |events|
    ensures Inv(events, n, After(events, n))
  {
    hide Advance, Inv;
    if n == 0 {
      StartOk(events);
    } else {
      RunKeeps(events, n - 1);
      AdvanceKeeps(events, n - 1, After(events, n - 1));
    }
  }

  /** Over any history, every delivered message is the concatenation of the payloads that fit of a chain of usable
      bursts: counter 0 first and then consecutive modulo 8, continuation on all but the last, one direction, within
      260 Hz of the first burst, gaps of at most 280 ms; and no burst is used twice. */
  lemma DeliveriesAreSound(events: seq<Event>)
    ensures var out := After(events, |events|).out;
            (forall p :: 0 <= p < |out| ==> Delivered(events, |events|, out[p])) &&
            (forall p, q :: 0 <= p < q < |out| ==> Apart(out[p].chain, out[q].chain))
  {
    RunKeeps(events, |events|);
  }
}
