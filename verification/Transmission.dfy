/** A specification sender for data payloads, and the round trip through the channel and the descrambler. */
module Transmission {

  import Bch
  import opened BitWords
  import opened Chase
  import opened Descramble
  import opened Gf2
  import opened Interleave
  import opened SyndromeTable
  import opened Wrappers

  /** The 31 bits sent for 20 data bits. */
  function Codeword(data: seq<bool>): (r: seq<bool>)
    ensures |r| == 31
  {
    BitsOf(Encode(data), 31)
  }

  predicate Codewords(words: seq<seq<bool>>) {
    forall i :: 0 <= i < |words| ==> |words[i]| == 31
  }

  function ScrambleBlock(words: seq<seq<bool>>): (r: seq<bool>)
    requires |words| == 4 && Codewords(words)
    ensures |r| == BLOCK
  {
    Mix(words[3] + words[1], words[2] + words[0], 62)
  }

  function ScrambleBlocks(words: seq<seq<bool>>): (r: seq<bool>)
    requires |words| % 4 == 0 && Codewords(words)
    ensures |r| == 31 * |words|
  {
    if words == [] then [] else ScrambleBlocks(words[..|words| - 4]) + ScrambleBlock(words[|words| - 4..])
  }

  /** A last block of 64 bits: two code words and two bits that carry nothing. */
  function ScrambleTail(words: seq<seq<bool>>, x: bool, y: bool): (r: seq<bool>)
    requires |words| == 2 && Codewords(words)
    ensures |r| == 64
  {
    Mix([y] + words[1], [x] + words[0], 32)
  }

  /** A payload: full blocks of four code words, and two more in a last block if the count says so. */
  function Scramble(words: seq<seq<bool>>, x: bool, y: bool): (r: seq<bool>)
    requires (|words| % 4 == 0 || |words| % 4 == 2) && Codewords(words)
    ensures |r| == if |words| % 4 == 0 then 31 * |words| else 31 * (|words| - 2) + 64
  {
    if |words| % 4 == 0 then ScrambleBlocks(words)
    else ScrambleBlocks(words[..|words| - 2]) + ScrambleTail(words[|words| - 2..], x, y)
  }

  // ---- Descrambling undoes scrambling ----

  lemma UnscrambleBlock(words: seq<seq<bool>>, c: nat)
    requires |words| == 4 && Codewords(words) && c < 4
    ensures BlockChunk(ScrambleBlock(words), c) == words[c]
  {
    Unmix(words[3] + words[1], words[2] + words[0], 62);
    var all := (words[3] + words[1]) + (words[2] + words[0]);
    assert all[0..31] == words[3];
    assert all[31..62] == words[1];
    assert all[62..93] == words[2];
    assert all[93..124] == words[0];
  }

  lemma {:induction false} BlockAt(words: seq<seq<bool>>, b: nat)
    requires |words| % 4 == 0 && Codewords(words) && 4 * b < |words|
    ensures BLOCK * b + BLOCK <= |ScrambleBlocks(words)|
    ensures ScrambleBlocks(words)[BLOCK * b..BLOCK * b + BLOCK] == ScrambleBlock(words[4 * b..4 * b + 4])
  {
    hide ScrambleBlock;
    var n := |words| - 4;
    var front, last := ScrambleBlocks(words[..n]), ScrambleBlock(words[n..]);
    if 4 * b == n {
      assert words[4 * b..4 * b + 4] == words[n..];
      assert (front + last)[31 * n..31 * n + BLOCK] == last;
    } else {
      BlockAt(words[..n], b);
      assert words[..n][4 * b..4 * b + 4] == words[4 * b..4 * b + 4];
      assert (front + last)[BLOCK * b..BLOCK * b + BLOCK] == front[BLOCK * b..BLOCK * b + BLOCK];
    }
  }

  lemma UnscrambleTail(words: seq<seq<bool>>, x: bool, y: bool)
    requires |words| == 2 && Codewords(words)
    ensures TailBits(ScrambleTail(words, x, y)) == words[0] + words[1]
  {
    hide Stream, Mix;
    Unmix([y] + words[1], [x] + words[0], 32);
    assert ([y] + words[1])[1..] == words[1] && ([x] + words[0])[1..] == words[0];
  }

  lemma Sizes31(n: nat, tail: bool)
    ensures var len := if tail then BLOCK * n + 64 else BLOCK * n;
            GoodLength(len) && ChunkCount(len) == (if tail then 4 * n + 2 else 4 * n) && FullChunks(len) == 4 * n &&
            len / BLOCK == n && TailLength(len) == if tail then 62 else 0
  {
    var len := if tail then BLOCK * n + 64 else BLOCK * n;
    assert len / BLOCK == n && len % BLOCK == if tail then 64 else 0;
  }

  lemma Counts(words: seq<seq<bool>>, x: bool, y: bool)
    requires (|words| % 4 == 0 || |words| % 4 == 2) && Codewords(words)
    ensures var len := |Scramble(words, x, y)|;
            GoodLength(len) && ChunkCount(len) == |words| && FullChunks(len) == |words| - |words| % 4 &&
            len / BLOCK == |words| / 4 && TailLength(len) == 31 * (|words| % 4)
  {
    hide Scramble, GoodLength, ChunkCount, FullChunks, TailLength;
    Sizes31(|words| / 4, |words| % 4 == 2);
  }

  lemma UnscrambleFull(words: seq<seq<bool>>, rest: seq<bool>, i: nat)
    requires |words| % 4 == 0 && Codewords(words) && i < |words| && |rest| < BLOCK && GoodLength(31 * |words| + |rest|)
    ensures i < ChunkCount(31 * |words| + |rest|)
    ensures Chunk(ScrambleBlocks(words) + rest, i) == words[i]
  {
    hide ScrambleBlock, ScrambleBlocks, BlockChunk, Chunk, ChunkCount, GoodLength;
    var n, b, c := |words| / 4, i / 4, i % 4;
    var front := ScrambleBlocks(words);
    TailOf(front, rest, n);
    FullChunk(front + rest, b, c);
    BlockAt(words, b);
    UnscrambleBlock(words[4 * b..4 * b + 4], c);
    assert (front + rest)[BLOCK * b..BLOCK * b + BLOCK] == front[BLOCK * b..BLOCK * b + BLOCK];
  }

  lemma TailOf(front: seq<bool>, rest: seq<bool>, n: nat)
    requires |front| == BLOCK * n && |rest| < BLOCK
    ensures Tail(front + rest) == rest && |front + rest| / BLOCK == n
  {
    assert |front + rest| / BLOCK == n;
  }

  lemma UnscrambleLast(words: seq<seq<bool>>, last: seq<seq<bool>>, x: bool, y: bool, t: nat)
    requires |words| % 4 == 0 && Codewords(words) && |last| == 2 && Codewords(last) && t < 2
    ensures var data := ScrambleBlocks(words) + ScrambleTail(last, x, y);
            GoodLength(|data|) && |words| + t < ChunkCount(|data|) && Chunk(data, |words| + t) == last[t]
  {
    hide ScrambleTail, ScrambleBlocks, TailBits, Tail;
    var n := |words| / 4;
    Sizes31(n, true);
    TailOf(ScrambleBlocks(words), ScrambleTail(last, x, y), n);
    hide Chunk, ChunkCount, FullChunks, TailLength, GoodLength;
    TailChunk(ScrambleBlocks(words) + ScrambleTail(last, x, y), t);
    UnscrambleTail(last, x, y);
    assert (last[0] + last[1])[31 * t..31 * t + 31] == last[t];
  }

  /** Code word i of a scrambled payload is the one put in i-th. */
  lemma Unscramble(words: seq<seq<bool>>, x: bool, y: bool, i: nat)
    requires (|words| % 4 == 0 || |words| % 4 == 2) && Codewords(words) && i < |words|
    ensures GoodLength(|Scramble(words, x, y)|) && i < ChunkCount(|Scramble(words, x, y)|)
    ensures Chunk(Scramble(words, x, y), i) == words[i]
  {
    hide GoodLength, ChunkCount, Chunk, ScrambleBlocks, ScrambleTail;
    Counts(words, x, y);
    if |words| % 4 == 0 {
      assert Scramble(words, x, y) == ScrambleBlocks(words) + [];
      UnscrambleFull(words, [], i);
    } else {
      var n := |words| - 2;
      if i < n {
        UnscrambleFull(words[..n], ScrambleTail(words[n..], x, y), i);
      } else {
        UnscrambleLast(words[..n], words[n..], x, y, i - n);
      }
    }
  }

  // ---- The channel ----

  lemma StreamReceived(sent: seq<bool>, errors: seq<bool>, n: nat, r: nat)
    requires |sent| == |errors| && n % 2 == 0 && 2 * n <= |sent| && r < 2
    ensures Stream(Received(sent, errors), n, 2, r) == Received(Stream(sent, n, 2, r), Stream(errors, n, 2, r))
  {
    forall j | 0 <= j < n
      ensures Stream(Received(sent, errors), n, 2, r)[j] == Received(Stream(sent, n, 2, r), Stream(errors, n, 2, r))[j]
    {
      SourceInRange(n, 2, r, j);
    }
  }

  lemma ReceivedSlice(sent: seq<bool>, errors: seq<bool>, i: nat, j: nat)
    requires |sent| == |errors| && i <= j <= |sent|
    ensures Received(sent, errors)[i..j] == Received(sent[i..j], errors[i..j])
  {
  }

  lemma ReceivedDrop(sent: seq<bool>, errors: seq<bool>, i: nat)
    requires |sent| == |errors| && i <= |sent|
    ensures Received(sent, errors)[i..] == Received(sent[i..], errors[i..])
  {
  }

  lemma ReceivedJoin(a: seq<bool>, x: seq<bool>, b: seq<bool>, y: seq<bool>)
    requires |a| == |x| && |b| == |y|
    ensures Received(a, x) + Received(b, y) == Received(a + b, x + y)
  {
  }

  lemma BlockReceived(sent: seq<bool>, errors: seq<bool>, c: nat)
    requires |sent| == |errors| == BLOCK && c < 4
    ensures BlockChunk(Received(sent, errors), c) == Received(BlockChunk(sent, c), BlockChunk(errors, c))
  {
    hide Stream, Received, Order;
    OrderRange(c);
    StreamReceived(sent, errors, 62, 0);
    StreamReceived(sent, errors, 62, 1);
    var a, x, b, y := Stream(sent, 62, 2, 0), Stream(errors, 62, 2, 0), Stream(sent, 62, 2, 1),
      Stream(errors, 62, 2, 1);
    ReceivedJoin(a, x, b, y);
    ReceivedSlice(a + b, x + y, 31 * Order(c), 31 * Order(c) + 31);
  }

  lemma TailReceived(sent: seq<bool>, errors: seq<bool>)
    requires |sent| == |errors| >= 4 && |sent| / 2 % 2 == 0
    ensures TailBits(Received(sent, errors)) == Received(TailBits(sent), TailBits(errors))
  {
    hide Stream, Received;
    var n := |sent| / 2;
    StreamReceived(sent, errors, n, 0);
    StreamReceived(sent, errors, n, 1);
    var a, x, b, y := Stream(sent, n, 2, 0), Stream(errors, n, 2, 0), Stream(sent, n, 2, 1), Stream(errors, n, 2, 1);
    ReceivedDrop(a, x, 1);
    ReceivedDrop(b, y, 1);
    ReceivedJoin(b[1..], y[1..], a[1..], x[1..]);
  }

  /** Errors stay inside the code word of the bit they hit. */
  lemma ChunkReceived(sent: seq<bool>, errors: seq<bool>, i: nat)
    requires |sent| == |errors| && GoodLength(|sent|) && i < ChunkCount(|sent|)
    ensures Chunk(Received(sent, errors), i) == Received(Chunk(sent, i), Chunk(errors, i))
  {
    hide Stream, Received, BlockChunk, TailBits;
    if i < FullChunks(|sent|) {
      var b := BLOCK * (i / 4);
      ReceivedSlice(sent, errors, b, b + BLOCK);
      BlockReceived(sent[b..b + BLOCK], errors[b..b + BLOCK], i % 4);
    } else {
      var p := 31 * (i - FullChunks(|sent|));
      var f := BLOCK * (|sent| / BLOCK);
      ReceivedDrop(sent, errors, f);
      TailReceived(Tail(sent), Tail(errors));
      TailSize(Tail(sent));
      TailSize(Tail(errors));
      ReceivedSlice(TailBits(Tail(sent)), TailBits(Tail(errors)), p, p + 31);
    }
  }

  lemma TailSize<T>(tail: seq<T>)
    requires 4 <= |tail| && |tail| / 2 % 2 == 0
    ensures |TailBits(tail)| == 2 * (|tail| / 2 - 1)
  {
    hide Stream;
  }

  // ---- The round trip ----

  predicate Items(items: seq<seq<bool>>) {
    forall i :: 0 <= i < |items| ==> |items[i]| == DATA
  }

  function Sent(items: seq<seq<bool>>, x: bool, y: bool): (r: seq<bool>)
    requires |items| % 4 == 0 || |items| % 4 == 2
  {
    Scramble(seq(|items|, i requires 0 <= i < |items| => Codeword(items[i])), x, y)
  }

  /** The error pattern in code word i. */
  function Errors(errors: seq<bool>, i: nat): Word
    requires GoodLength(|errors|) && i < ChunkCount(|errors|)
  {
    WordOf(Chunk(errors, i))
  }

  ghost predicate Mild(errors: seq<bool>)
    requires GoodLength(|errors|)
  {
    forall i: nat :: i < ChunkCount(|errors|) ==> |Errors(errors, i)| <= 2
  }

  /** The output has room for n code words, by the two tests the descrambler makes. */
  predicate Room(n: nat, max: nat) {
    DATA * n <= max && (n % 4 == 2 ==> DATA * (n - 2) + 62 <= max)
  }

  lemma SentChunk(items: seq<seq<bool>>, x: bool, y: bool, errors: seq<bool>, i: nat)
    requires (|items| % 4 == 0 || |items| % 4 == 2) && Items(items) && |errors| == |Sent(items, x, y)| && i < |items|
    ensures GoodLength(|errors|) && i < ChunkCount(|errors|)
    ensures WordOf(Chunk(Received(Sent(items, x, y), errors), i)) == Xor(Encode(items[i]), Errors(errors, i))
    ensures Below(Errors(errors, i), 31)
  {
    hide Chunk, ChunkCount, GoodLength, Encode, Scramble, WordOf;
    var words := seq(|items|, i requires 0 <= i < |items| => Codeword(items[i]));
    Unscramble(words, x, y, i);
    ChunkReceived(Sent(items, x, y), errors, i);
    WordReceived(Codeword(items[i]), Chunk(errors, i));
    EncodeCodeword(items[i]);
    WordBits(Encode(items[i]), 31);
    BitsWord(Chunk(errors, i));
  }

  /** Decoding any payload with at most two errors in each code word, and with room for the result, gives every
      data item back and counts the damaged code words. */
  lemma RoundTrip(m: Slots, items: seq<seq<bool>>, x: bool, y: bool, errors: seq<bool>, llr: Option<seq<real>>, k: nat,
                  max: nat, results: seq<Decoded>)
    requires Filled(m, Bch.DA, 31, 2, SYN)
    requires (|items| % 4 == 0 || |items| % 4 == 2) && Items(items) && Room(|items|, max)
    requires |errors| == |Sent(items, x, y)| && GoodLength(|errors|) && Mild(errors)
    requires Sizes(Received(Sent(items, x, y), errors), llr, k)
    requires Decoding(m, Received(Sent(items, x, y), errors), llr, k, results)
    requires Stops(m, Received(Sent(items, x, y), errors), llr, k, max, |results|)
    ensures |results| == |items| == ChunkCount(|errors|)
    ensures forall i :: 0 <= i < |items| ==>
              results[i] == Decoded(items[i], if Errors(errors, i) == {} then 0 else 1, |Errors(errors, i)|)
  {
    var data := Received(Sent(items, x, y), errors);
    SentCount(items, x, y);
    hide Filled, Chunk, Encode, Sent, Received, Decodes, ChunkCount, GoodLength, Errors, FullChunks, TailLength;
    forall i: nat, r | i < |items| && ChunkDecodes(m, data, llr, k, i, r)
      ensures r == Some(Decoded(items[i], if Errors(errors, i) == {} then 0 else 1, |Errors(errors, i)|))
    {
      SentChunk(items, x, y, errors, i);
      DecodesSent(m, items[i], Errors(errors, i), Chunk(data, i), SoftChunk(llr, i), k, r);
    }
  }

  lemma SentCount(items: seq<seq<bool>>, x: bool, y: bool)
    requires |items| % 4 == 0 || |items| % 4 == 2
    ensures var len := |Sent(items, x, y)|;
            GoodLength(len) && ChunkCount(len) == |items| && FullChunks(len) == |items| - |items| % 4 &&
              TailLength(len) == 31 * (|items| % 4)
  {
    var words := seq(|items|, i requires 0 <= i < |items| => Codeword(items[i]));
    Counts(words, x, y);
  }

  function Join(items: seq<seq<bool>>): seq<bool> {
    if items == [] then [] else Join(items[..|items| - 1]) + items[|items| - 1]
  }

  /** The decoded stream is the data items one after the other. */
  lemma {:induction false} FlatJoin(results: seq<Decoded>, items: seq<seq<bool>>)
    requires |results| == |items| && forall i :: 0 <= i < |items| ==> results[i].data == items[i]
    ensures Flat(results) == Join(items)
  {
    if results != [] {
      FlatJoin(results[..|results| - 1], items[..|items| - 1]);
    }
  }
}
