/** Reassembly of multi-burst messages (ida_reassemble and ida_reassemble_flush in ida_decode.c): sixteen slots, each
    following one train of fragments. */
module IdaReassembly {

  import opened Wrappers

  const SLOTS := 16
  const CAPACITY := 256
  const WINDOW := 280000000       // 280 ms in nanoseconds
  const SPREAD := 260.0           // Hz

  /** The source's bytes; nothing here looks inside them. */
  type Byte = nat

  datatype Burst = Burst(time: nat, freq: real, uplink: bool, ctr: nat, cont: bool, payload: seq<Byte>, crcOk: bool)

  datatype Slot = Slot(active: bool, uplink: bool, freq: real, last: nat, ctr: nat, data: seq<Byte>)

  datatype Message = Message(data: seq<Byte>, time: nat, freq: real, uplink: bool)

  const EMPTY := Slot(false, false, 0.0, 0, 0, [])

  function Abs(x: real): real {
    if x < 0.0 then -x else x
  }

  /** The burst is the next fragment of what the slot follows. */
  predicate Matches(s: Slot, b: Burst) {
    && s.active
    && s.uplink == b.uplink
    && Abs(s.freq - b.freq) <= SPREAD
    && s.last <= b.time
    && b.time - s.last <= WINDOW
    && (s.ctr + 1) % 8 == b.ctr
  }

  /** A payload is appended only if it fits. */
  function Append(data: seq<Byte>, payload: seq<Byte>): seq<Byte> {
    if |data| + |payload| <= CAPACITY then data + payload else data
  }

  function Extended(s: Slot, b: Burst): Slot {
    s.(data := Append(s.data, b.payload), last := b.time, ctr := b.ctr, active := b.cont)
  }

  function Started(b: Burst): Slot {
    Slot(true, b.uplink, b.freq, b.time, b.ctr, b.payload)
  }

  // ---- Choosing a slot ----

  function FirstMatch(slots: seq<Slot>, b: Burst, i: nat): (k: nat)
    requires i <= |slots|
    ensures i <= k <= |slots| && (k < |slots| ==> Matches(slots[k], b))
    ensures forall j :: i <= j < k ==> !Matches(slots[j], b)
    decreases |slots| - i
  {
    if i == |slots| || Matches(slots[i], b) then i else FirstMatch(slots, b, i + 1)
  }

  function FirstFree(slots: seq<Slot>, i: nat): (k: nat)
    requires i <= |slots|
    ensures i <= k <= |slots| && (k < |slots| ==> !slots[k].active)
    ensures forall j :: i <= j < k ==> slots[j].active
    decreases |slots| - i
  {
    if i == |slots| || !slots[i].active then i else FirstFree(slots, i + 1)
  }

  /** The first of the least recent among the first n. */
  function Oldest(slots: seq<Slot>, n: nat): (k: nat)
    requires 1 <= n <= |slots|
    ensures k < n && forall j :: 0 <= j < n ==> slots[k].last <= slots[j].last
    ensures forall j :: 0 <= j < k ==> slots[k].last < slots[j].last
  {
    if n == 1 then 0
    else
      var k := Oldest(slots, n - 1);
      if slots[n - 1].last < slots[k].last then n - 1 else k
  }

  /** Where a new train starts: a free slot, or the least recent one. */
  function Place(slots: seq<Slot>): (k: nat)
    requires slots != []
    ensures k < |slots|
    ensures !slots[k].active ==> forall j :: 0 <= j < k ==> slots[j].active
    ensures slots[k].active ==> forall j :: 0 <= j < |slots| ==>
              slots[j].active && slots[k].last <= slots[j].last && (j < k ==> slots[k].last < slots[j].last)
  {
    var f := FirstFree(slots, 0);
    if f < |slots| then f else Oldest(slots, |slots|)
  }

  // ---- One burst ----

  predicate Usable(b: Burst) {
    b.crcOk && b.payload != []
  }

  function Next(slots: seq<Slot>, b: Burst): (r: seq<Slot>)
    requires slots != []
    ensures |r| == |slots|
  {
    var k := FirstMatch(slots, b, 0);
    if !Usable(b) then slots
    else if k < |slots| then slots[k := Extended(slots[k], b)]
    else if b.ctr == 0 && b.cont then slots[Place(slots) := Started(b)]
    else slots
  }

  function Emitted(slots: seq<Slot>, b: Burst): Option<Message> {
    var k := FirstMatch(slots, b, 0);
    if !Usable(b) || b.cont then None
    else if k < |slots| then Some(Message(Append(slots[k].data, b.payload), b.time, slots[k].freq, slots[k].uplink))
    else if b.ctr == 0 then Some(Message(b.payload, b.time, b.freq, b.uplink))
    else None
  }

  function Flushed(slots: seq<Slot>, now: nat): (r: seq<Slot>)
    ensures |r| == |slots|
  {
    seq(|slots|, i requires 0 <= i < |slots| =>
      if now > slots[i].last + WINDOW then slots[i].(active := false) else slots[i])
  }

  class Context {
    var slots: seq<Slot>

    constructor ()
      ensures slots == seq(SLOTS, i => EMPTY)
    {
      slots := seq(SLOTS, i => EMPTY);
    }

    /** ida_reassemble: the message that this burst completes, if any. */
    method Reassemble(b: Burst) returns (m: Option<Message>)
      requires |slots| == SLOTS
      modifies this
      ensures slots == Next(old(slots), b) && m == Emitted(old(slots), b)
    {
      if !b.crcOk || b.payload == [] {
        return None;
      }
      var i := 0;
      while i < SLOTS
        invariant 0 <= i <= SLOTS && slots == old(slots)
        invariant FirstMatch(slots, b, 0) == FirstMatch(slots, b, i)
      {
        var s := slots[i];
        if Matches(s, b) {
          if |s.data| + |b.payload| <= CAPACITY {
            s := s.(data := s.data + b.payload);
          }
          s := s.(last := b.time, ctr := b.ctr);
          if !b.cont {
            m := Some(Message(s.data, b.time, s.freq, s.uplink));
            slots := slots[i := s.(active := false)];
            return;
          }
          slots := slots[i := s];
          return None;
        }
        i := i + 1;
      }
      if b.ctr == 0 && !b.cont {
        return Some(Message(b.payload, b.time, b.freq, b.uplink));
      }
      if b.ctr == 0 && b.cont {
        var idx := FindPlace();
        slots := slots[idx := Started(b)];
      }
      return None;
    }

    method FindPlace() returns (idx: nat)
      requires |slots| == SLOTS
      ensures idx == Place(slots)
    {
      idx := 0;
      var i := 0;
      while i < SLOTS
        invariant 0 <= i <= SLOTS && FirstFree(slots, 0) == FirstFree(slots, i)
        invariant i > 0 ==> idx == Oldest(slots, i)
      {
        if !slots[i].active {
          return i;
        }
        if i == 0 || slots[i].last < slots[idx].last {
          idx := i;
        }
        i := i + 1;
      }
    }

    /** ida_reassemble_flush. */
    method Flush(now: nat)
      modifies this
      ensures slots == Flushed(old(slots), now)
    {
      for i := 0 to |slots|
        invariant |slots| == |old(slots)|
        invariant forall j :: 0 <= j < i ==> slots[j] == Flushed(old(slots), now)[j]
        invariant forall j :: i <= j < |slots| ==> slots[j] == old(slots)[j]
      {
        if slots[i].active && now > slots[i].last + WINDOW {
          slots := slots[i := slots[i].(active := false)];
        }
      }
    }
  }
}
