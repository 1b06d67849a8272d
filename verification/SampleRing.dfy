/** The ring of recent samples (burst_detect.c): written in arbitrary pieces, read by absolute position. */
module SampleRing {

  import opened Modulo
  import opened Wrappers

  lemma Wrapped(x: nat, size: nat)
    requires size > 0 && x < 2 * size
    ensures x % size == if x < size then x else x - size
  {
    if x < size { ModUnique(x, size, 0, x); } else { ModUnique(x, size, 1, x - size); }
  }

  /** Where sample i of a piece goes that is written at position count. */
  function Place(count: nat, i: nat, size: nat): nat
    requires size > 0 && i < size
  {
    var p := count % size + i;
    if p < size then p else p - size
  }

  lemma PlaceIs(count: nat, i: nat, size: nat)
    requires size > 0 && i < size
    ensures Place(count, i, size) == (count + i) % size < size
  {
    ModAdd(count, i, size);
    Wrapped(count % size + i, size);
  }

  /** The last positions of the stream are in their slots. */
  ghost predicate Holding<T>(b: seq<T>, stream: seq<T>) {
    |b| > 0 && forall q: nat :: |stream| - |b| <= q < |stream| ==> b[q % |b|] == stream[q]
  }

  lemma WriteHolds<T>(b: seq<T>, b': seq<T>, stream: seq<T>, samples: seq<T>)
    requires Holding(b, stream) && |b'| == |b| && |samples| <= |b|
    requires forall i :: 0 <= i < |samples| ==> b'[Place(|stream|, i, |b|)] == samples[i]
    requires forall p :: 0 <= p < |b| && (forall i :: 0 <= i < |samples| ==> p != Place(|stream|, i, |b|)) ==>
             b'[p] == b[p]
    ensures Holding(b', stream + samples)
  {
    var size, count := |b|, |stream|;
    forall q: nat | count + |samples| - size <= q < count + |samples| ensures b'[q % size] == (stream + samples)[q] {
      if q >= count {
        PlaceIs(count, q - count, size);
      } else {
        forall i | 0 <= i < |samples| ensures q % size != Place(count, i, size) {
          PlaceIs(count, i, size);
          if q % size == (count + i) % size {
            SameSlot(q, count + i, size);
          }
        }
      }
    }
  }

  /** How far after base the next position with q's slot is. */
  function Back(q: nat, base: nat, size: nat): (d: nat)
    requires size > 0
    ensures d < size
  {
    var a, b := q % size, base % size;
    if a >= b then a - b else a - b + size
  }

  lemma SameBack(q: nat, r: nat, base: nat, size: nat)
    requires size > 0 && q % size == r % size
    ensures Back(q, base, size) == Back(r, base, size)
  {
  }

  lemma BackSlot(q: nat, base: nat, size: nat)
    requires size > 0
    ensures (base + Back(q, base, size)) % size == q % size
  {
    var d := Back(q, base, size);
    ModAdd(base, d, size);
    Wrapped(base % size + d, size);
  }

  /** The latest position before count that shares its slot with q. */
  function Held(count: nat, size: nat, q: nat): (h: nat)
    requires size > 0 && count >= size
    ensures count - size <= h < count
  {
    (count - size) + Back(q, count - size, size)
  }

  /** It is q itself exactly when q is among the last size positions. */
  lemma HeldExactly(count: nat, size: nat, q: nat)
    requires size > 0 && count >= size
    ensures Held(count, size, q) % size == q % size
    ensures Held(count, size, q) == q <==> count - size <= q < count
  {
    BackSlot(q, count - size, size);
    var k := Held(count, size, q);
    if count - size <= q < count {
      if q <= k { SameSlot(q, k, size); } else { SameSlot(k, q, size); }
    }
  }

  /** The latest position that has arrived of those sharing a slot with q, if there is one. */
  function Latest(count: nat, size: nat, q: nat): (h: Option<nat>)
    requires size > 0
    ensures h.Some? ==> count - size <= h.value < count
  {
    if count >= size then Some(Held(count, size, q)) else if q % size < count then Some(q % size) else None
  }

  /** It is q itself exactly when q has arrived and has not been overwritten. */
  lemma LatestExactly(count: nat, size: nat, q: nat)
    requires size > 0
    ensures Latest(count, size, q).Some? ==> Latest(count, size, q).value % size == q % size
    ensures Latest(count, size, q) == Some(q) <==> count - size <= q < count
  {
    if count >= size {
      HeldExactly(count, size, q);
    } else if q < count {
      ModUnique(q, size, 0, q);
    }
    if count < size && q % size < count {
      ModUnique(q % size, size, 0, q % size);
    }
  }

  /** A request for the positions from s to t is answered with exactly these if and only if none of them has been
      overwritten and all have arrived. */
  lemma ExtractExactly(count: nat, size: nat, s: nat, t: nat)
    requires size > 0 && s < t
    ensures (forall q: nat :: s <= q < t ==> Latest(count, size, q) == Some(q)) <==> count - size <= s && t <= count
  {
    hide Latest;
    LatestExactly(count, size, s);
    LatestExactly(count, size, t - 1);
    if count - size <= s && t <= count {
      forall q: nat | s <= q < t ensures Latest(count, size, q) == Some(q) {
        LatestExactly(count, size, q);
      }
    }
  }

  /** A position that has not arrived yet is answered, in a full ring, with the one a whole ring before it. */
  lemma AheadIsOld(count: nat, size: nat, q: nat)
    requires 0 < size <= count <= q < count + size
    ensures Latest(count, size, q) == Some(q - size)
  {
    hide Back;
    ModShift(q - size, size);
    SameBack(q, q - size, count - size, size);
    HeldExactly(count, size, q - size);
  }

  class Ring<T(0)> {
    const size: nat
    const buf: array<T>
    var write: nat
    var start: nat
    var count: nat
    ghost var stream: seq<T>       // every sample ever written

    ghost predicate Valid()
      reads this, buf
    {
      && buf.Length == size > 0 && count == |stream| && write == count % size
      && start + size <= (if count < size then size else count)
      && Holding(buf[..], stream)
    }

    constructor (size: nat)
      requires size > 0
      ensures Valid() && this.size == size && stream == [] && start == 0 && fresh(buf)
    {
      this.size := size;
      buf := new T[size];
      write, start, count, stream := 0, 0, 0, [];
    }

    /** One contiguous copy into the ring. */
    method Put(pos: nat, part: seq<T>)
      requires buf.Length == size && pos + |part| <= size
      modifies buf
      ensures forall p :: 0 <= p < size ==> buf[p] == if pos <= p < pos + |part| then part[p - pos] else old(buf[p])
    {
      for i := 0 to |part|
        invariant forall p :: 0 <= p < size ==> buf[p] == if pos <= p < pos + i then part[p - pos] else old(buf[p])
      {
        buf[pos + i] := part[i];
      }
    }

    /** ringbuf_write, and the count that the caller advances afterwards. The oldest position is computed from the
        count before that. */
    method Write(samples: seq<T>)
      requires Valid() && |samples| <= size
      modifies this, buf
      ensures Valid() && stream == old(stream) + samples
      ensures start == if old(count) > size then old(count) - size else old(start)
    {
      ghost var b := buf[..];
      var n, pos := |samples|, write;
      ModAdd(count, n, size);
      Wrapped(pos + n, size);
      if pos + n <= size {
        Put(pos, samples);
        write := pos + n;
        if write == size {
          write := 0;
        }
      } else {
        var first := size - pos;
        Put(pos, samples[..first]);
        Put(0, samples[first..]);
        write := n - first;
      }
      if count > size {
        start := count - size;
      }
      WriteHolds(b, buf[..], stream, samples);
      count := count + n;
      stream := stream + samples;
    }

    /** The copy out of the ring, in one piece or two. */
    method Copy(pos: nat, len: nat) returns (r: seq<T>)
      requires Valid() && len <= size
      ensures |r| == len && forall i :: 0 <= i < len ==> r[i] == buf[(pos + i) % size]
    {
      var at := pos % size;
      if at + len <= size {
        r := buf[at..at + len];
      } else {
        var first := size - at;
        r := buf[at..] + buf[..len - first];
      }
      forall i | 0 <= i < len ensures r[i] == buf[(pos + i) % size] {
        ModAdd(pos, i, size);
        Wrapped(at + i, size);
      }
    }

    /** A frame for the transform. */
    method Frame(index: nat, n: nat) returns (r: seq<T>)
      requires Valid() && n <= size && count - size <= index && index + n <= count
      ensures r == stream[index..index + n]
    {
      r := Copy(index, n);
    }

    /** ringbuf_extract: every position is answered with the latest that shares its slot. */
    method Extract(from: nat, stop: nat) returns (r: seq<T>)
      requires Valid() && stop - Oldest(from) <= size
      ensures |r| == if stop <= Oldest(from) then 0 else stop - Oldest(from)
      ensures forall i :: 0 <= i < |r| && Latest(count, size, Oldest(from) + i).Some? ==>
                r[i] == stream[Latest(count, size, Oldest(from) + i).value]
      ensures count - size <= Oldest(from) < stop <= count ==> r == stream[Oldest(from)..stop]
    {
      hide Latest;
      var first := from;
      if first < start {
        first := start;
      }
      if stop <= first {
        return [];
      }
      r := Copy(first, stop - first);
      forall i | 0 <= i < |r| && Latest(count, size, first + i).Some?
        ensures r[i] == stream[Latest(count, size, first + i).value]
      {
        LatestExactly(count, size, first + i);
      }
    }

    /** A requested start, not before the recorded oldest position. */
    function Oldest(from: nat): nat
      reads this
    {
      if from < start then start else from
    }
  }
}
