/** Reassembly of multi-packet short burst data (sbd_extract and sbd_expire in sbd_acars.c), from the point where a
    packet's number, count and data have been read from its header. */
module SbdReassembly {

  import opened Wrappers

  const SLOTS := 8
  const CAPACITY := 1024
  const TIMEOUT := 5000000000       // 5 s in nanoseconds

  type Byte = nat

  /** What the receiver noted about a burst. */
  datatype Signal = Signal(freq: real, magnitude: real)

  /** A packet. The count is that of the first packet of a message, and -1 where a packet has none. */
  datatype Packet = Packet(time: nat, uplink: bool, no: nat, cnt: int, data: seq<Byte>, signal: Signal)

  datatype Slot = Slot(active: bool, no: nat, cnt: int, uplink: bool, time: nat, data: seq<Byte>, signal: Signal)

  const EMPTY := Slot(false, 0, 0, false, 0, [], Signal(0.0, 0.0))

  /** What is passed on for decoding. */
  datatype Message = Message(data: seq<Byte>, uplink: bool, time: nat, signal: Signal)

  function Cut(data: seq<Byte>): (r: seq<Byte>)
    ensures |r| <= CAPACITY && r <= data
  {
    if |data| > CAPACITY then data[..CAPACITY] else data
  }

  function Expired(slots: seq<Slot>, now: nat): (r: seq<Slot>)
    ensures |r| == |slots|
  {
    seq(|slots|, i requires 0 <= i < |slots| =>
      if now > slots[i].time + TIMEOUT then slots[i].(active := false) else slots[i])
  }

  predicate Matches(s: Slot, p: Packet) {
    s.active && s.uplink == p.uplink && p.no == s.no + 1
  }

  /** The last matching slot below i, or -1 if there is none: the search runs downwards. */
  function LastMatch(slots: seq<Slot>, p: Packet, i: nat): (k: int)
    requires i <= |slots|
    ensures -1 <= k < i && (k >= 0 ==> Matches(slots[k], p))
    ensures forall j :: k < j < i ==> !Matches(slots[j], p)
  {
    if i == 0 then -1 else if Matches(slots[i - 1], p) then i - 1 else LastMatch(slots, p, i - 1)
  }

  function FirstFree(slots: seq<Slot>, i: nat): (k: nat)
    requires i <= |slots|
    ensures i <= k <= |slots| && (k < |slots| ==> !slots[k].active)
    ensures forall j :: i <= j < k ==> slots[j].active
    decreases |slots| - i
  {
    if i == |slots| || !slots[i].active then i else FirstFree(slots, i + 1)
  }

  function Oldest(slots: seq<Slot>, n: nat): (k: nat)
    requires 1 <= n <= |slots|
    ensures k < n && forall j :: 0 <= j < n ==> slots[k].time <= slots[j].time
    ensures forall j :: 0 <= j < k ==> slots[k].time < slots[j].time
  {
    if n == 1 then 0
    else
      var k := Oldest(slots, n - 1);
      if slots[n - 1].time < slots[k].time then n - 1 else k
  }

  function Place(slots: seq<Slot>): (k: nat)
    requires slots != []
    ensures k < |slots|
    ensures !slots[k].active ==> forall j :: 0 <= j < k ==> slots[j].active
    ensures slots[k].active ==> forall j :: 0 <= j < |slots| ==>
              slots[j].active && slots[k].time <= slots[j].time && (j < k ==> slots[k].time < slots[j].time)
  {
    var f := FirstFree(slots, 0);
    if f < |slots| then f else Oldest(slots, |slots|)
  }

  function Started(p: Packet): Slot {
    Slot(true, p.no, p.cnt, p.uplink, p.time, Cut(p.data), p.signal)
  }

  function Extended(s: Slot, p: Packet): Slot {
    s.(data := Cut(s.data + p.data), no := p.no, time := p.time, active := p.no != s.cnt)
  }

  /** The kinds of packet, in the order in which they are told apart. */
  predicate Short(p: Packet) { p.no == 0 }
  predicate Single(p: Packet) { p.no == 1 && p.cnt == 1 }
  predicate First(p: Packet) { p.no > 0 && p.cnt > 1 }
  predicate More(p: Packet) { p.no > 1 && p.cnt <= 1 }

  function Next(slots: seq<Slot>, p: Packet): (r: seq<Slot>)
    requires slots != []
    ensures |r| == |slots|
  {
    var s := Expired(slots, p.time);
    var k := LastMatch(s, p, |s|);
    if First(p) then s[Place(s) := Started(p)]
    else if More(p) && k >= 0 then s[k := Extended(s[k], p)]
    else s
  }

  function Emitted(slots: seq<Slot>, p: Packet): Option<Message> {
    var s := Expired(slots, p.time);
    var k := LastMatch(s, p, |s|);
    if (Short(p) && p.data != []) || Single(p) then Some(Message(p.data, p.uplink, p.time, p.signal))
    else if More(p) && k >= 0 && p.no == s[k].cnt then
      Some(Message(Cut(s[k].data + p.data), p.uplink, p.time, s[k].signal))
    else None
  }

  predicate Fitting(slots: seq<Slot>) {
    |slots| == SLOTS && forall i :: 0 <= i < |slots| ==> |slots[i].data| <= CAPACITY
  }

  class Context {
    var slots: seq<Slot>

    constructor ()
      ensures Fitting(slots) && slots == seq(SLOTS, i => EMPTY)
    {
      slots := seq(SLOTS, i => EMPTY);
    }

    /** sbd_expire. */
    method Expire(now: nat)
      modifies this
      ensures slots == Expired(old(slots), now)
    {
      for i := 0 to |slots|
        invariant |slots| == |old(slots)|
        invariant forall j :: 0 <= j < i ==> slots[j] == Expired(old(slots), now)[j]
        invariant forall j :: i <= j < |slots| ==> slots[j] == old(slots)[j]
      {
        if slots[i].active && now > slots[i].time + TIMEOUT {
          slots := slots[i := slots[i].(active := false)];
        }
      }
    }

    method FindPlace() returns (idx: nat)
      requires |slots| == SLOTS
      ensures idx == Place(slots)
    {
      var i := 0;
      while i < SLOTS
        invariant 0 <= i <= SLOTS && FirstFree(slots, 0) == FirstFree(slots, i)
      {
        if !slots[i].active {
          return i;
        }
        i := i + 1;
      }
      idx, i := 0, 1;
      while i < SLOTS
        invariant 1 <= i <= SLOTS && idx == Oldest(slots, i)
      {
        if slots[i].time < slots[idx].time {
          idx := i;
        }
        i := i + 1;
      }
    }

    /** The part of sbd_extract that follows the header: the message this packet completes, if any. */
    method Extract(p: Packet) returns (m: Option<Message>)
      requires Fitting(slots)
      modifies this
      ensures Fitting(slots) && slots == Next(old(slots), p) && m == Emitted(old(slots), p)
    {
      Expire(p.time);
      m := None;
      if p.no == 0 {
        if p.data != [] {
          m := Some(Message(p.data, p.uplink, p.time, p.signal));
        }
      } else if p.cnt == 1 && p.no == 1 {
        m := Some(Message(p.data, p.uplink, p.time, p.signal));
      } else if p.cnt > 1 {
        var idx := FindPlace();
        slots := slots[idx := Started(p)];
      } else if p.no > 1 {
        m := Continue(p);
      }
    }

    method Continue(p: Packet) returns (m: Option<Message>)
      requires Fitting(slots)
      modifies this
      ensures var k := LastMatch(old(slots), p, SLOTS);
              if k < 0 then slots == old(slots) && m == None
              else slots == old(slots)[k := Extended(old(slots)[k], p)] &&
                   m == if p.no != old(slots)[k].cnt then None
                        else Some(Message(Cut(old(slots)[k].data + p.data), p.uplink, p.time, old(slots)[k].signal))
    {
      var i := SLOTS;
      while i > 0
        invariant 0 <= i <= SLOTS && slots == old(slots)
        invariant LastMatch(slots, p, SLOTS) == LastMatch(slots, p, i)
      {
        i := i - 1;
        var s := slots[i];
        if Matches(s, p) {
          s := s.(data := Fill(s.data, p.data), no := p.no, time := p.time);
          m := None;
          if p.no == s.cnt {
            m := Some(Message(s.data, p.uplink, p.time, s.signal));
            s := s.(active := false);
          }
          slots := slots[i := s];
          return;
        }
      }
      m := None;
    }
  }

  /** As much of more as there is space for after data. */
  function Fill(data: seq<Byte>, more: seq<Byte>): (r: seq<Byte>)
    ensures |data| <= CAPACITY ==> r == Cut(data + more)
  {
    var space := CAPACITY - |data|;
    var copy := if |more| > space then space else |more|;
    if copy > 0 then data + more[..copy] else data
  }
}
