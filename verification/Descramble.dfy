/** Descrambling of the data payload (descramble_payload in ida_decode.c): which 31 bits make up each code word, and
    what the decoded stream is. */
module Descramble {

  import opened BitWords
  import opened Chase
  import opened Interleave
  import opened SyndromeTable
  import opened Wrappers

  const BLOCK := 124

  /** The order in which the four code words of a block are taken. */
  function Order(c: nat): nat
    requires c < 4
  {
    [3, 1, 2, 0][c]
  }

  /** Code word c of a full block. */
  function BlockChunk<T>(block: seq<T>, c: nat): seq<T>
    requires |block| == BLOCK && c < 4
  {
    (Stream(block, 62, 2, 0) + Stream(block, 62, 2, 1))[31 * Order(c)..31 * Order(c) + 31]
  }

  /** The bits of the last block that are decoded: both halves without their first bit, the second half first. */
  function TailBits<T>(tail: seq<T>): seq<T>
    requires 4 <= |tail| && |tail| / 2 % 2 == 0
  {
    Stream(tail, |tail| / 2, 2, 1)[1..] + Stream(tail, |tail| / 2, 2, 0)[1..]
  }

  predicate GoodLength(len: nat) {
    len % BLOCK >= 4 ==> len % BLOCK / 2 % 2 == 0
  }

  function FullChunks(len: nat): nat {
    4 * (len / BLOCK)
  }

  /** The number of bits of the last block that are decoded. */
  function TailLength(len: nat): nat {
    if len % BLOCK >= 4 then 2 * (len % BLOCK / 2 - 1) else 0
  }

  function ChunkCount(len: nat): nat {
    FullChunks(len) + TailLength(len) / 31
  }

  /** Code word i of a payload. */
  function Chunk<T>(data: seq<T>, i: nat): (r: seq<T>)
    requires GoodLength(|data|) && i < ChunkCount(|data|)
    ensures |r| == 31
  {
    if i < FullChunks(|data|) then
      BlockChunk(data[BLOCK * (i / 4)..BLOCK * (i / 4) + BLOCK], i % 4)
    else
      var p := 31 * (i - FullChunks(|data|));
      TailBits(Tail(data))[p..p + 31]
  }

  function SoftChunk(llr: Option<seq<real>>, i: nat): (r: Option<seq<real>>)
    requires llr.Some? ==> GoodLength(|llr.value|) && i < ChunkCount(|llr.value|)
    ensures r.Some? <==> llr.Some?
    ensures r.Some? ==> |r.value| == 31
  {
    if llr.Some? then Some(Chunk(llr.value, i)) else None
  }

  // ---- Results ----

  function Flat(results: seq<Decoded>): seq<bool> {
    if results == [] then [] else Flat(results[..|results| - 1]) + results[|results| - 1].data
  }

  function Fixes(results: seq<Decoded>): nat {
    if results == [] then 0 else Fixes(results[..|results| - 1]) + results[|results| - 1].fixed
  }

  predicate Sizes(data: seq<bool>, llr: Option<seq<real>>, k: nat) {
    GoodLength(|data|) && k <= 7 && (llr.Some? ==> |llr.value| == |data|)
  }

  /** Code word i decodes to r. */
  ghost predicate ChunkDecodes(m: Slots, data: seq<bool>, llr: Option<seq<real>>, k: nat, i: nat, r: Option<Decoded>)
    requires Sizes(data, llr, k) && i < ChunkCount(|data|)
  {
    Decodes(m, Chunk(data, i), SoftChunk(llr, i), k, r)
  }

  /** The results are those of the first code words, in order. */
  ghost predicate Decoding(m: Slots, data: seq<bool>, llr: Option<seq<real>>, k: nat, results: seq<Decoded>)
    requires Sizes(data, llr, k)
  {
    && |results| <= ChunkCount(|data|)
    && forall i :: 0 <= i < |results| ==>
         |results[i].data| == DATA && ChunkDecodes(m, data, llr, k, i, Some(results[i]))
  }

  /** Decoding ends at the end of the payload, when the output is full, at a last block that would not fit, or at
      the first code word that cannot be decoded. */
  ghost predicate Stops(m: Slots, data: seq<bool>, llr: Option<seq<real>>, k: nat, max: nat, n: nat)
    requires Sizes(data, llr, k) && n <= ChunkCount(|data|)
  {
    || n == ChunkCount(|data|)
    || DATA * n + DATA > max
    || (n == FullChunks(|data|) && DATA * n + TailLength(|data|) > max)
    || ChunkDecodes(m, data, llr, k, n, None)
  }

  /** What descrambling a payload yields: the data of the code words up to where decoding ends. */
  ghost predicate Descrambled(m: Slots, data: seq<bool>, llr: Option<seq<real>>, k: nat, max: nat, stream: seq<bool>,
                              fixed: nat)
    requires Sizes(data, llr, k)
  {
    exists results: seq<Decoded> ::
      && Decoding(m, data, llr, k, results) && stream == Flat(results) && fixed == Fixes(results)
      && DATA * |results| <= max && Stops(m, data, llr, k, max, |results|)
  }

  lemma {:induction false} FlatSize(results: seq<Decoded>)
    requires forall i :: 0 <= i < |results| ==> |results[i].data| == DATA
    ensures |Flat(results)| == DATA * |results|
  {
    if results != [] {
      FlatSize(results[..|results| - 1]);
    }
  }

  lemma FlatMore(results: seq<Decoded>, d: Decoded)
    ensures Flat(results + [d]) == Flat(results) + d.data && Fixes(results + [d]) == Fixes(results) + d.fixed
  {
    assert (results + [d])[..|results|] == results;
  }

  method CombineBlock<T(0)>(block: seq<T>) returns (combined: seq<T>)
    requires |block| == BLOCK
    ensures combined == Stream(block, 62, 2, 0) + Stream(block, 62, 2, 1)
  {
    var half1, half2 := new T[62], new T[62];
    DeInterleave(block, 62, half1, half2);
    combined := half1[..62] + half2[..62];
  }

  method CombineTail<T(0)>(tail: seq<T>) returns (combined: seq<T>)
    requires 4 <= |tail| < BLOCK && |tail| / 2 % 2 == 0
    ensures combined == TailBits(tail)
  {
    var n := |tail| / 2;
    var h1, h2 := new T[64], new T[64];
    DeInterleave(tail, n, h1, h2);
    assert h1[..n][1..] == h1[1..n] && h2[..n][1..] == h2[1..n];
    combined := h2[1..n] + h1[1..n];
  }

  /** One code word of a payload: decoded and appended, or the end of decoding. */
  method DecodeChunk(m: Slots, ghost data: seq<bool>, ghost llr: Option<seq<real>>, k: nat, bits: seq<bool>,
                     soft: Option<seq<real>>,
                     stream: seq<bool>, fixed: nat, ghost results: seq<Decoded>)
    returns (ok: bool, stream': seq<bool>, fixed': nat, ghost results': seq<Decoded>)
    requires Sizes(data, llr, k) && Decoding(m, data, llr, k, results) && |results| < ChunkCount(|data|)
    requires stream == Flat(results) && fixed == Fixes(results)
    requires bits == Chunk(data, |results|) && soft == SoftChunk(llr, |results|)
    ensures Decoding(m, data, llr, k, results') && stream' == Flat(results') && fixed' == Fixes(results')
    ensures ok ==> |results'| == |results| + 1
    ensures !ok ==> results' == results && ChunkDecodes(m, data, llr, k, |results|, None)
  {
    hide Decodes, Chunk, SoftChunk, ChunkCount, Sizes;
    ChunkLength(data, llr, k, |results|);
    var r := ChaseBchDa(m, bits, soft, k);
    ok, stream', fixed', results' := r.Some?, stream, fixed, results;
    if ok {
      DecodedLength(m, bits, soft, k, r);
      FlatMore(results, r.value);
      stream', fixed', results' := stream + r.value.data, fixed + r.value.fixed, results + [r.value];
    }
  }

  lemma ChunkLength(data: seq<bool>, llr: Option<seq<real>>, k: nat, i: nat)
    requires Sizes(data, llr, k) && i < ChunkCount(|data|)
    ensures k <= 7 && |Chunk(data, i)| == 31 && (SoftChunk(llr, i).Some? ==> |SoftChunk(llr, i).value| == 31)
  {
  }

  lemma DecodedLength(m: Slots, bits: seq<bool>, soft: Option<seq<real>>, k: nat, r: Option<Decoded>)
    requires k <= 7 && (soft.Some? ==> |soft.value| == 31) && Decodes(m, bits, soft, k, r) && r.Some?
    ensures |r.value.data| == DATA
  {
  }

  lemma FullChunk<T>(data: seq<T>, blk: nat, c: nat)
    requires GoodLength(|data|) && blk < |data| / BLOCK && c < 4
    ensures 4 * blk + c < FullChunks(|data|) && 4 * blk + c < ChunkCount(|data|) && BLOCK * blk + BLOCK <= |data|
    ensures Chunk(data, 4 * blk + c) == BlockChunk(data[BLOCK * blk..BLOCK * blk + BLOCK], c)
  {
    assert (4 * blk + c) / 4 == blk && (4 * blk + c) % 4 == c;
  }

  /** The state between code words: what has been decoded, and how far that is from the next code word. */
  ghost predicate At(m: Slots, data: seq<bool>, llr: Option<seq<real>>, k: nat, max: nat,
                     stream: seq<bool>, fixed: nat, results: seq<Decoded>, next: nat)
    requires Sizes(data, llr, k)
  {
    && Decoding(m, data, llr, k, results) && stream == Flat(results) && fixed == Fixes(results)
    && DATA * |results| <= max
    && (|results| == next || (|results| <= next && DATA * |results| + DATA > max))
  }

  method ReadBlock<T(0)>(data: seq<T>, blk: nat) returns (combined: seq<T>)
    requires GoodLength(|data|) && blk < |data| / BLOCK
    ensures |combined| == BLOCK
    ensures forall c: nat :: c < 4 ==> combined[31 * Order(c)..31 * Order(c) + 31] == Chunk(data, 4 * blk + c)
  {
    FullChunk(data, blk, 3);
    combined := CombineBlock(data[BLOCK * blk..BLOCK * blk + BLOCK]);
    forall c: nat | c < 4 ensures combined[31 * Order(c)..31 * Order(c) + 31] == Chunk(data, 4 * blk + c) {
      FullChunk(data, blk, c);
    }
  }

  /** The four code words of a full block. Without room for one it stops quietly; ok is false if one cannot be
      decoded. */
  method DescrambleBlock(m: Slots, data: seq<bool>, llr: Option<seq<real>>, k: nat, max: nat, blk: nat,
                         stream: seq<bool>, fixed: nat, ghost results: seq<Decoded>)
    returns (ok: bool, stream': seq<bool>, fixed': nat, ghost results': seq<Decoded>)
    requires Sizes(data, llr, k) && blk < |data| / BLOCK && At(m, data, llr, k, max, stream, fixed, results, 4 * blk)
    ensures ok ==> At(m, data, llr, k, max, stream', fixed', results', 4 * blk + 4)
    ensures !ok ==> Decoding(m, data, llr, k, results') && stream' == Flat(results') && fixed' == Fixes(results')
    ensures !ok ==>
              DATA * |results'| <= max && |results'| < ChunkCount(|data|) &&
              ChunkDecodes(m, data, llr, k, |results'|, None)
  {
    hide Chunk, ChunkCount, ChunkDecodes, Order, Flat, Fixes, Stream, GoodLength, FullChunks, Tail, TailBits;
    ok, stream', fixed', results' := true, stream, fixed, results;
    var combined := ReadBlock(data, blk);
    var soft: seq<real> := [];
    if llr.Some? {
      soft := ReadBlock(llr.value, blk);
    }
    for c := 0 to 4
      invariant ok && At(m, data, llr, k, max, stream', fixed', results', 4 * blk + c)
    {
      FlatSize(results');
      if |stream'| + DATA > max {
        break;
      }
      FullChunk(data, blk, c);
      OrderRange(c);
      var off := 31 * Order(c);
      var chunk, softChunk := combined[off..off + 31], None;
      if llr.Some? {
        FullChunk(llr.value, blk, c);
        softChunk := Some(soft[off..off + 31]);
      }
      ok, stream', fixed', results' := DecodeChunk(m, data, llr, k, chunk, softChunk, stream', fixed', results');
      if !ok {
        return;
      }
    }
  }

  lemma OrderRange(c: nat)
    requires c < 4
    ensures Order(c) < 4
  {
  }

  lemma TailChunk<T>(data: seq<T>, t: nat)
    requires GoodLength(|data|) && 31 * t + 31 <= TailLength(|data|)
    ensures FullChunks(|data|) + t < ChunkCount(|data|)
    ensures Chunk(data, FullChunks(|data|) + t) == TailBits(Tail(data))[31 * t..31 * t + 31]
  {
  }

  lemma TailEnd(len: nat, t: nat)
    requires 31 * t <= TailLength(len) < 31 * t + 31
    ensures FullChunks(len) + t == ChunkCount(len)
  {
  }

  /** The part of a payload after its full blocks. */
  function Tail<T>(data: seq<T>): (r: seq<T>)
    ensures |r| == |data| % BLOCK
  {
    data[BLOCK * (|data| / BLOCK)..]
  }

  method ReadTail<T(0)>(data: seq<T>) returns (combined: seq<T>)
    requires GoodLength(|data|) && |data| % BLOCK >= 4
    ensures combined == TailBits(Tail(data)) && |combined| == TailLength(|data|)
  {
    combined := CombineTail(Tail(data));
  }

  /** The code words of the last, partial block. */
  method DescrambleTail(m: Slots, data: seq<bool>, llr: Option<seq<real>>, k: nat, max: nat,
                        stream: seq<bool>, fixed: nat, ghost results: seq<Decoded>)
    returns (stream': seq<bool>, fixed': nat, ghost results': seq<Decoded>)
    requires Sizes(data, llr, k) && |data| % BLOCK >= 4
    requires At(m, data, llr, k, max, stream, fixed, results, FullChunks(|data|))
    ensures Decoding(m, data, llr, k, results') && stream' == Flat(results') && fixed' == Fixes(results')
    ensures DATA * |results'| <= max && Stops(m, data, llr, k, max, |results'|)
  {
    stream', fixed', results' := stream, fixed, results;
    FlatSize(results);
    if |stream| + DATA > max {
      return;
    }
    var combined := ReadTail(data);
    var soft: seq<real> := [];
    if llr.Some? {
      soft := ReadTail(llr.value);
    }
    hide *;
    stream', fixed', results' := DescrambleRest(m, data, llr, k, max, combined, soft, stream, fixed, results);
  }

  method DescrambleRest(m: Slots, ghost data: seq<bool>, llr: Option<seq<real>>, k: nat, max: nat, combined: seq<bool>,
                        soft: seq<real>,
                        stream: seq<bool>, fixed: nat, ghost results: seq<Decoded>)
    returns (stream': seq<bool>, fixed': nat, ghost results': seq<Decoded>)
    requires Sizes(data, llr, k) && |data| % BLOCK >= 4
    requires combined == TailBits(Tail(data)) && |combined| == TailLength(|data|)
    requires llr.Some? ==> soft == TailBits(Tail(llr.value)) && |soft| == |combined|
    requires Decoding(m, data, llr, k, results) && stream == Flat(results) && fixed == Fixes(results)
    requires |results| == FullChunks(|data|) && DATA * |results| <= max
    ensures Decoding(m, data, llr, k, results') && stream' == Flat(results') && fixed' == Fixes(results')
    ensures DATA * |results'| <= max && Stops(m, data, llr, k, max, |results'|)
  {
    hide Chunk, ChunkDecodes, TailLength, TailBits, ChunkCount, FullChunks, GoodLength, Flat, Fixes, Tail;
    stream', fixed', results' := stream, fixed, results;
    var pos := 0;
    ghost var t := 0;
    while pos + 31 <= |combined| && |stream'| + DATA <= max
      invariant pos == 31 * t && pos <= |combined|
      invariant Decoding(m, data, llr, k, results') && stream' == Flat(results') && fixed' == Fixes(results')
      invariant |results'| == FullChunks(|data|) + t && DATA * |results'| <= max
    {
      FlatSize(results');
      TailChunk(data, t);
      var softChunk := None;
      if llr.Some? {
        TailChunk(llr.value, t);
        softChunk := Some(soft[pos..pos + 31]);
      }
      var ok;
      ok, stream', fixed', results' := DecodeChunk(m, data, llr, k, combined[pos..pos + 31], softChunk, stream', fixed',
        results');
      if !ok {
        return;
      }
      pos, t := pos + 31, t + 1;
    }
    FlatSize(results');
    if pos + 31 > |combined| {
      TailEnd(|data|, t);
    }
  }

  /** descramble_payload: the decoded bits and the number of code words that were changed. */
  method DescramblePayload(m: Slots, data: seq<bool>, llr: Option<seq<real>>, k: nat, max: nat)
    returns (stream: seq<bool>, fixed: nat, ghost results: seq<Decoded>)
    requires Sizes(data, llr, k)
    ensures Decoding(m, data, llr, k, results) && stream == Flat(results) && fixed == Fixes(results)
    ensures DATA * |results| <= max && Stops(m, data, llr, k, max, |results|)
    ensures Descrambled(m, data, llr, k, max, stream, fixed)
  {
    hide Chunk, ChunkDecodes;
    stream, fixed, results := [], 0, [];
    for blk := 0 to |data| / BLOCK
      invariant At(m, data, llr, k, max, stream, fixed, results, 4 * blk)
    {
      var ok;
      ok, stream, fixed, results := DescrambleBlock(m, data, llr, k, max, blk, stream, fixed, results);
      if !ok {
        return;
      }
    }
    FlatSize(results);
    if |data| % BLOCK >= 4 && |stream| + 2 * (|data| % BLOCK / 2 - 1) <= max {
      stream, fixed, results := DescrambleTail(m, data, llr, k, max, stream, fixed, results);
    }
  }
}
