/** What every multi-packet message is made of, over any history of packets. */
module SbdSoundness {

  import opened SbdReassembly
  import opened Wrappers

  /** A message together with the positions of the packets it was made of. */
  datatype Delivery = Delivery(chain: seq<nat>, message: Message)

  datatype Run = Run(slots: seq<Slot>, chains: seq<seq<nat>>, out: seq<Delivery>)

  // ---- Runs ----

  function Start(): Run {
    Run(seq(SLOTS, i => EMPTY), seq(SLOTS, i => []), [])
  }

  function Sent(m: Option<Message>, chain: seq<nat>): seq<Delivery> {
    if m.Some? then [Delivery(chain, m.value)] else []
  }

  /** The effect of packet number i of the history. */
  function Advance(r: Run, p: Packet, i: nat): Run
    requires |r.slots| == |r.chains| == SLOTS
  {
    var s := Expired(r.slots, p.time);
    var k := LastMatch(s, p, SLOTS);
    var m := Emitted(r.slots, p);
    var slots := Next(r.slots, p);
    if First(p) then Run(slots, r.chains[Place(s) := [i]], r.out)
    else if More(p) && k >= 0 then Run(slots, r.chains[k := r.chains[k] + [i]], r.out + Sent(m, r.chains[k] + [i]))
    else Run(slots, r.chains, r.out + Sent(m, [i]))
  }

  function After(packets: seq<Packet>, n: nat): (r: Run)
    requires n <= |packets|
    ensures |r.slots| == |r.chains| == SLOTS
  {
    if n == 0 then Start() else Advance(After(packets, n - 1), packets[n - 1], n - 1)
  }

  /** The slots and deliveries of a run are those of the operation, called for one packet after the other. */
  lemma RunSteps(packets: seq<Packet>, n: nat)
    requires n < |packets|
    ensures var r, r' := After(packets, n), After(packets, n + 1);
            r'.slots == Next(r.slots, packets[n]) &&
            if Emitted(r.slots, packets[n]).None? then r'.out == r.out
            else
              |r'.out| == |r.out| + 1 && r'.out[..|r.out|] == r.out &&
              r'.out[|r.out|].message == Emitted(r.slots, packets[n]).value
  {
  }

  // ---- Chains ----

  predicate Follows(first: Packet, a: Packet, b: Packet) {
    More(b) && b.no == a.no + 1 && b.uplink == first.uplink && b.time <= a.time + 5000000000
  }

  /** A first packet and more, with consecutive numbers, in one direction, each within five seconds of the last. */
  ghost predicate Chain(packets: seq<Packet>, c: seq<nat>, n: nat) {
    && c != []
    && (forall j :: 0 <= j < |c| ==> c[j] < n && c[j] < |packets|)
    && (forall j :: 0 <= j < |c| - 1 ==> c[j] < c[j + 1])
    && First(packets[c[0]])
    && (forall j :: 0 <= j < |c| - 1 ==> Follows(packets[c[0]], packets[c[j]], packets[c[j + 1]]))
  }

  function Payloads(packets: seq<Packet>, c: seq<nat>): seq<Byte>
    requires forall j :: 0 <= j < |c| ==> c[j] < |packets|
  {
    if c == [] then [] else Payloads(packets, c[..|c| - 1]) + packets[c[|c| - 1]].data
  }

  ghost predicate Holds(packets: seq<Packet>, n: nat, s: Slot, c: seq<nat>) {
    && Chain(packets, c, n)
    && var first, last := packets[c[0]], packets[c[|c| - 1]];
       s.cnt == first.cnt && s.uplink == first.uplink && s.signal == first.signal && s.no == last.no &&
         s.time == last.time && s.data == Cut(Payloads(packets, c))
  }

  /** A message of its own, or a chain that has reached its count; the data are cut at 1024 bytes. */
  ghost predicate Delivered(packets: seq<Packet>, n: nat, d: Delivery) {
    if |d.chain| == 1 then
      && d.chain[0] < n && d.chain[0] < |packets|
      && var p := packets[d.chain[0]];
         (Short(p) || Single(p)) && d.message == Message(p.data, p.uplink, p.time, p.signal)
    else
      && Chain(packets, d.chain, n)
      && var first, last := packets[d.chain[0]], packets[d.chain[|d.chain| - 1]];
         last.no == first.cnt &&
           d.message == Message(Cut(Payloads(packets, d.chain)), first.uplink, last.time, first.signal)
  }

  predicate Apart(c: seq<nat>, d: seq<nat>) {
    forall i, j :: 0 <= i < |c| && 0 <= j < |d| ==> c[i] != d[j]
  }

  /** Positions before n only. */
  predicate Before(c: seq<nat>, n: nat) {
    forall j :: 0 <= j < |c| ==> c[j] < n
  }

  ghost predicate OutOk(packets: seq<Packet>, n: nat, out: seq<Delivery>) {
    && (forall p :: 0 <= p < |out| ==> Delivered(packets, n, out[p]) && Before(out[p].chain, n))
    && (forall p, q :: 0 <= p < q < |out| ==> Apart(out[p].chain, out[q].chain))
  }

  ghost predicate SlotsOk(packets: seq<Packet>, n: nat, slots: seq<Slot>, chains: seq<seq<nat>>)
    requires |slots| == |chains|
  {
    && (forall k :: 0 <= k < |slots| && slots[k].active ==>
          Holds(packets, n, slots[k], chains[k]) && Before(chains[k], n))
    && (forall k, l :: 0 <= k < l < |slots| && slots[k].active && slots[l].active ==> Apart(chains[k], chains[l]))
  }

  ghost predicate Separate(slots: seq<Slot>, chains: seq<seq<nat>>, out: seq<Delivery>)
    requires |slots| == |chains|
  {
    forall k, p :: 0 <= k < |slots| && slots[k].active && 0 <= p < |out| ==> Apart(chains[k], out[p].chain)
  }

  ghost predicate Inv(packets: seq<Packet>, n: nat, r: Run)
    requires |r.slots| == |r.chains|
  {
    OutOk(packets, n, r.out) && SlotsOk(packets, n, r.slots, r.chains) && Separate(r.slots, r.chains, r.out)
  }

  // ---- One packet ----

  lemma Later(packets: seq<Packet>, n: nat, r: Run)
    requires |r.slots| == |r.chains| && Inv(packets, n, r)
    ensures Inv(packets, n + 1, r)
  {
    forall k | 0 <= k < |r.slots| && r.slots[k].active ensures Holds(packets, n + 1, r.slots[k], r.chains[k]) {
      assert Holds(packets, n, r.slots[k], r.chains[k]);
    }
    forall p | 0 <= p < |r.out| ensures Delivered(packets, n + 1, r.out[p]) {
      assert Delivered(packets, n, r.out[p]);
    }
  }

  lemma ExpireKeeps(packets: seq<Packet>, n: nat, r: Run, now: nat)
    requires |r.slots| == |r.chains| && Inv(packets, n, r)
    ensures Inv(packets, n, r.(slots := Expired(r.slots, now)))
  {
    hide Apart, OutOk;
    var r' := r.(slots := Expired(r.slots, now));
    assert forall k :: 0 <= k < |r.slots| && r'.slots[k].active ==> r'.slots[k] == r.slots[k];
  }

  lemma CutTwice(a: seq<Byte>, b: seq<Byte>)
    ensures Cut(Cut(a) + b) == Cut(a + b)
  {
  }

  lemma ChainGrows(packets: seq<Packet>, n: nat, s: Slot, c: seq<nat>)
    requires Holds(packets, n, s, c) && n < |packets| && Matches(s, packets[n]) && More(packets[n]) &&
             packets[n].time <= s.time + TIMEOUT
    ensures Chain(packets, c + [n], n + 1)
    ensures Cut(Payloads(packets, c + [n])) == Cut(s.data + packets[n].data)
  {
    var d := c + [n];
    assert d[..|d| - 1] == c;
    CutTwice(Payloads(packets, c), packets[n].data);
    var first := packets[c[0]];
    forall j | 0 <= j < |d| - 1 ensures d[j] < d[j + 1] && Follows(first, packets[d[j]], packets[d[j + 1]]) {
      if j < |c| - 1 {
        assert d[j + 1] == c[j + 1];
      }
    }
  }

  /** A chain that ends at position n shares nothing with the other slots or with what was delivered. */
  lemma GrownApart(n: nat, c: seq<nat>, d: seq<nat>)
    requires Apart(c, d) && Before(d, n)
    ensures Apart(c + [n], d) && Apart(d, c + [n])
  {
  }

  lemma Flip(c: seq<nat>, d: seq<nat>)
    ensures Apart(c, d) <==> Apart(d, c)
  {
  }

  lemma Replace(packets: seq<Packet>, n: nat, slots: seq<Slot>, chains: seq<seq<nat>>, out: seq<Delivery>, k: nat,
                s: Slot, c: seq<nat>)
    requires |slots| == |chains| && k < |slots| && SlotsOk(packets, n, slots, chains) && Separate(slots, chains, out)
    requires s.active ==> Holds(packets, n, s, c) && Before(c, n)
    requires forall l :: 0 <= l < |slots| && l != k && slots[l].active ==> Apart(c, chains[l]) && Apart(chains[l], c)
    requires forall p :: 0 <= p < |out| ==> Apart(c, out[p].chain)
    ensures SlotsOk(packets, n, slots[k := s], chains[k := c]) && Separate(slots[k := s], chains[k := c], out)
  {
    hide Holds, Apart, Before;
  }

  lemma Deliver(packets: seq<Packet>, n: nat, slots: seq<Slot>, chains: seq<seq<nat>>, out: seq<Delivery>, d: Delivery)
    requires |slots| == |chains| && OutOk(packets, n, out) && Separate(slots, chains, out) &&
             Delivered(packets, n, d) && Before(d.chain, n)
    requires forall p :: 0 <= p < |out| ==> Apart(out[p].chain, d.chain)
    requires forall l :: 0 <= l < |slots| && slots[l].active ==> Apart(chains[l], d.chain)
    ensures OutOk(packets, n, out + [d]) && Separate(slots, chains, out + [d])
  {
    hide Delivered, Apart, Before;
  }

  /** Any chain put together from slot k's and position n, or from position n alone. */
  lemma AllApart(packets: seq<Packet>, n: nat, r: Run, k: nat, c: seq<nat>)
    requires |r.slots| == |r.chains| && Inv(packets, n, r) && k < |r.slots|
    requires c == [n] || (r.slots[k].active && c == r.chains[k] + [n])
    ensures forall l :: 0 <= l < |r.slots| && l != k && r.slots[l].active ==>
            Apart(c, r.chains[l]) && Apart(r.chains[l], c)
    ensures forall p :: 0 <= p < |r.out| ==> Apart(c, r.out[p].chain) && Apart(r.out[p].chain, c)
    ensures c == [n] && r.slots[k].active ==> Apart(r.chains[k], c)
  {
    var base := if c == [n] then [] else r.chains[k];
    assert c == base + [n];
    forall l | 0 <= l < |r.slots| && l != k && r.slots[l].active
      ensures Apart(c, r.chains[l]) && Apart(r.chains[l], c) {
      Flip(base, r.chains[l]);
      GrownApart(n, base, r.chains[l]);
    }
    forall p | 0 <= p < |r.out| ensures Apart(c, r.out[p].chain) && Apart(r.out[p].chain, c) {
      GrownApart(n, base, r.out[p].chain);
    }
  }

  lemma FirstKeeps(packets: seq<Packet>, n: nat, r: Run, k: nat)
    requires |r.slots| == |r.chains| && Inv(packets, n, r) && n < |packets| && k < |r.slots| && First(packets[n])
    ensures Inv(packets, n + 1, Run(r.slots[k := Started(packets[n])], r.chains[k := [n]], r.out))
  {
    assert [n][..0] == [];
    assert Payloads(packets, [n]) == packets[n].data;
    assert Holds(packets, n + 1, Started(packets[n]), [n]);
    AllApart(packets, n, r, k, [n]);
    Later(packets, n, r);
    hide Holds, Apart, Delivered, Chain;
    Replace(packets, n + 1, r.slots, r.chains, r.out, k, Started(packets[n]), [n]);
  }

  lemma MoreKeeps(packets: seq<Packet>, n: nat, r: Run, k: nat)
    requires |r.slots| == |r.chains| && Inv(packets, n, r) && n < |packets| && k < |r.slots|
    requires More(packets[n]) && Matches(r.slots[k], packets[n]) && packets[n].time <= r.slots[k].time + TIMEOUT
    ensures var p, s, c := packets[n], r.slots[k], r.chains[k] + [n];
            var m := if p.no == s.cnt then Some(Message(Cut(s.data + p.data), p.uplink, p.time, s.signal)) else None;
            Inv(packets, n + 1, Run(r.slots[k := Extended(s, p)], r.chains[k := c], r.out + Sent(m, c)))
  {
    hide Holds, Apart, Delivered, Chain, Before;
    var p, s, c := packets[n], r.slots[k], r.chains[k] + [n];
    assert Holds(packets, n, s, r.chains[k]);
    LongerChain(packets, n, s, r.chains[k]);
    AllApart(packets, n, r, k, c);
    Later(packets, n, r);
    Replace(packets, n + 1, r.slots, r.chains, r.out, k, Extended(s, p), c);
    if p.no == s.cnt {
      var d := Delivery(c, Message(Cut(s.data + p.data), p.uplink, p.time, s.signal));
      Deliver(packets, n + 1, r.slots[k := Extended(s, p)], r.chains[k := c], r.out, d);
    }
  }

  /** The longer chain is held by the slot, or delivered when it is complete. */
  lemma LongerChain(packets: seq<Packet>, n: nat, s: Slot, c: seq<nat>)
    requires n < |packets| && Holds(packets, n, s, c)
    requires More(packets[n]) && Matches(s, packets[n]) && packets[n].time <= s.time + TIMEOUT
    ensures var p, c' := packets[n], c + [n];
            Before(c', n + 1) &&
            if p.no == s.cnt then
              Delivered(packets, n + 1, Delivery(c', Message(Cut(s.data + p.data), p.uplink, p.time, s.signal)))
            else Holds(packets, n + 1, Extended(s, p), c')
  {
    ChainGrows(packets, n, s, c);
    assert (c + [n])[|c|] == n && (c != [] ==> (c + [n])[0] == c[0]);
  }

  lemma AloneKeeps(packets: seq<Packet>, n: nat, r: Run)
    requires |r.slots| == |r.chains| && r.slots != [] && Inv(packets, n, r) && n < |packets| &&
             (Short(packets[n]) || Single(packets[n]))
    ensures var p := packets[n];
            Inv(packets, n + 1, r.(out := r.out + [Delivery([n], Message(p.data, p.uplink, p.time, p.signal))]))
  {
    var d := Delivery([n], Message(packets[n].data, packets[n].uplink, packets[n].time, packets[n].signal));
    assert Delivered(packets, n + 1, d) && Before([n], n + 1);
    AllApart(packets, n, r, 0, [n]);
    Later(packets, n, r);
    hide Holds, Apart, Delivered, Chain, Before;
    Deliver(packets, n + 1, r.slots, r.chains, r.out, d);
  }

  lemma AdvanceKeeps(packets: seq<Packet>, n: nat, r: Run)
    requires n < |packets| && |r.slots| == |r.chains| == SLOTS && Inv(packets, n, r)
    ensures Inv(packets, n + 1, Advance(r, packets[n], n))
  {
    var p := packets[n];
    ExpireKeeps(packets, n, r, p.time);
    var x := r.(slots := Expired(r.slots, p.time));
    Later(packets, n, x);
    hide Inv;
    var k := LastMatch(x.slots, p, SLOTS);
    if First(p) {
      FirstKeeps(packets, n, x, Place(x.slots));
    } else if More(p) && k >= 0 {
      MoreKeeps(packets, n, x, k);
    } else if (Short(p) && p.data != []) || Single(p) {
      AloneKeeps(packets, n, x);
    } else {
      assert r.out + [] == r.out;
    }
  }

  lemma StartOk(packets: seq<Packet>)
    ensures Inv(packets, 0, Start())
  {
    assert forall k :: 0 <= k < SLOTS ==> !Start().slots[k].active;
  }

  lemma {:induction false} RunKeeps(packets: seq<Packet>, n: nat)
    requires n <= |packets|
    ensures Inv(packets, n, After(packets, n))
  {
    hide Advance, Inv;
    if n == 0 {
      StartOk(packets);
    } else {
      RunKeeps(packets, n - 1);
      AdvanceKeeps(packets, n - 1, After(packets, n - 1));
    }
  }

  /** Over any history, every message passed on is a packet of its own or a first packet and its successors up to the
      count, in one direction, each within five seconds of the one before, cut at 1024 bytes; and no packet is used
      twice. */
  lemma DeliveriesAreSound(packets: seq<Packet>)
    ensures var out := After(packets, |packets|).out;
            (forall p :: 0 <= p < |out| ==> Delivered(packets, |packets|, out[p])) &&
            (forall p, q :: 0 <= p < q < |out| ==> Apart(out[p].chain, out[q].chain))
  {
    RunKeeps(packets, |packets|);
  }
}
