/** Decoding of data frames (ida_decode in ida_decode.c): link control word, payload, header fields and check. */
module IdaFrame {

  import opened BitWords
  import opened Chase
  import opened Crc
  import opened Descramble
  import opened Gf2
  import opened SyndromeTable
  import opened Wrappers
  import Bch
  import L = LinkControl
  import T = Transmission

  datatype Direction = Unknown | Downlink | Uplink

  /** A decoded frame. The length is that of the payload in bytes, 0 if the header gives none. */
  datatype Burst = Burst(cont: bool, ctr: nat, len: nat, payload: seq<Word>, crcOk: bool, stored: Word, computed: Word,
                         fixed: nat, stream: seq<bool>, lcw: L.Lcw)

  /** The tables filled at start-up. */
  datatype Tables = Tables(da: Slots, lcw1: Slots, lcw2: Slots, lcw3: Slots)

  const MAX := 512

  function Number(bits: seq<bool>): nat {
    if bits == [] then 0 else 2 * Number(bits[..|bits| - 1]) + if bits[|bits| - 1] then 1 else 0
  }

  function Zeros(n: nat): seq<bool> {
    seq(n, i => false)
  }

  /** The 20 payload bytes that follow the header. */
  function Payload(stream: seq<bool>): seq<Word>
    requires |stream| >= 180
  {
    seq(20, i requires 0 <= i < 20 => WordOf(stream[20 + 8 * i..28 + 8 * i]))
  }

  /** What the check covers: the header, twelve zero bits, and everything else but the last four bits. */
  function Covered(stream: seq<bool>): seq<bool>
    requires |stream| >= 24
  {
    stream[..20] + Zeros(12) + stream[20..|stream| - 4]
  }

  /** Zero bits up to a whole number of bytes. */
  function Padded(bits: seq<bool>): seq<bool> {
    bits + Zeros((8 - |bits| % 8) % 8)
  }

  /** What a decoded stream says. */
  function Interpret(stream: seq<bool>, fixed: nat, lcw: L.Lcw): Option<Burst> {
    if |stream| < 196 || Number(stream[17..20]) != 0 || Number(stream[11..16]) > 20 then None
    else
      var len := Number(stream[11..16]);
      var computed := if len > 0 then Run(ONES, Padded(Covered(stream))) else {};
      Some(Burst(stream[3], Number(stream[5..8]), len, Payload(stream)[..if len > 0 then len else 20],
                 len > 0 && computed == {}, if len > 0 then WordOf(stream[180..196]) else {}, computed,
                 fixed, stream, lcw))
  }

  // ---- Packing bits into bytes ----

  /** The first n of the bits are in the buffer, high bit of each byte first, and nothing else is. */
  ghost predicate Packed(buf: seq<Word>, bits: seq<bool>, n: nat) {
    && n <= |bits|
    && (forall i :: 0 <= i < |buf| ==> Below(buf[i], 8))
    && (forall i, x: nat :: 0 <= i < |buf| && x < 8 ==> (x in buf[i] <==> 8 * i + 7 - x < n && bits[8 * i + 7 - x]))
  }

  lemma PackOne(buf: seq<Word>, bits: seq<bool>, n: nat)
    requires Packed(buf, bits, n) && n < |bits| && n / 8 < |buf|
    ensures Packed(buf[n / 8 := buf[n / 8] + if bits[n] then {7 - n % 8} else {}], bits, n + 1)
  {
    var q, r := n / 8, n % 8;
    var buf' := buf[q := buf[q] + if bits[n] then {7 - r} else {}];
    forall i, x: nat | 0 <= i < |buf'| && x < 8 ensures x in buf'[i] <==> 8 * i + 7 - x < n + 1 && bits[8 * i + 7 - x] {
      assert 8 * i + 7 - x == n <==> i == q && x == 7 - r;
    }
  }

  lemma SkipZeros(buf: seq<Word>, bits: seq<bool>, n: nat, m: nat)
    requires Packed(buf, bits, n) && n <= m <= |bits| && forall i :: n <= i < m ==> !bits[i]
    ensures Packed(buf, bits, m)
  {
  }

  lemma {:induction false} PackedBytes(buf: seq<Word>, bits: seq<bool>, k: nat)
    requires Packed(buf, bits, |bits|) && k <= |buf| && 8 * k <= |Padded(bits)|
    ensures HighFirst(buf[..k]) == Padded(bits)[..8 * k]
  {
    if k > 0 {
      PackedBytes(buf, bits, k - 1);
      assert buf[..k][..k - 1] == buf[..k - 1];
      var last := BitsOf(buf[k - 1], 8);
      assert last == Padded(bits)[8 * (k - 1)..8 * k];
    }
  }

  /** The check over a decoded stream, through a byte buffer that is filled bit by bit. */
  method ComputeCrc(stream: seq<bool>) returns (crc: Word)
    requires 196 <= |stream| <= 500
    ensures crc == Run(ONES, Padded(Covered(stream)))
  {
    hide Padded, Run;
    ghost var bits := Covered(stream);
    var buf := new Word[64](i => {});
    var pos := 0;
    for i := 0 to 20
      invariant pos == i && Packed(buf[..], bits, pos)
    {
      PackOne(buf[..], bits, pos);
      buf[pos / 8] := buf[pos / 8] + if stream[i] then {7 - pos % 8} else {};
      pos := pos + 1;
    }
    SkipZeros(buf[..], bits, 20, 32);
    pos := pos + 12;
    for i := 20 to |stream| - 4
      invariant pos == i + 12 && Packed(buf[..], bits, pos)
    {
      assert bits[pos] == stream[i];
      PackOne(buf[..], bits, pos);
      buf[pos / 8] := buf[pos / 8] + if stream[i] then {7 - pos % 8} else {};
      pos := pos + 1;
    }
    var n := (pos + 7) / 8;
    PaddedSize(bits, n);
    PackedBytes(buf[..], bits, n);
    assert buf[..][..n] == buf[..n];
    assert Padded(bits)[..8 * n] == Padded(bits);
    crc := CrcCcitt(buf[..n]);
  }

  lemma PaddedSize(bits: seq<bool>, n: nat)
    requires n == (|bits| + 7) / 8
    ensures |Padded(bits)| == 8 * n
  {
  }

  method ReadNumber(bits: seq<bool>) returns (n: nat)
    ensures n == Number(bits)
  {
    n := 0;
    for i := 0 to |bits|
      invariant n == Number(bits[..i])
    {
      n := 2 * n + if bits[i] then 1 else 0;
      assert bits[..i + 1][..i] == bits[..i];
    }
    assert bits[..|bits|] == bits;
  }

  method ReadPayload(stream: seq<bool>) returns (payload: seq<Word>)
    requires |stream| >= 180
    ensures payload == Payload(stream)
  {
    payload := [];
    for i := 0 to 20
      invariant |payload| == i && forall j :: 0 <= j < i ==> payload[j] == Payload(stream)[j]
    {
      var byte := BitsToUint(stream[20 + 8 * i..28 + 8 * i]);
      payload := payload + [byte];
    }
  }

  /** The fields and the check of a decoded stream. */
  method ReadStream(stream: seq<bool>, fixed: nat, lcw: L.Lcw) returns (r: Option<Burst>)
    requires |stream| <= 500
    ensures r == Interpret(stream, fixed, lcw)
  {
    hide Number, Payload, Run, Padded, Covered, WordOf;
    if |stream| < 196 {
      return None;
    }
    var ctr := ReadNumber(stream[5..8]);
    var len := ReadNumber(stream[11..16]);
    var zero := ReadNumber(stream[17..20]);
    if zero != 0 || len > 20 {
      return None;
    }
    var payload := ReadPayload(stream);
    PayloadSize(stream);
    var crcOk, stored, computed := false, {}, {};
    if len > 0 {
      stored := BitsToUint(stream[180..196]);
      computed := ComputeCrc(stream);
      crcOk := computed == {};
    }
    r := Some(Burst(stream[3], ctr, len, payload[..if len > 0 then len else 20], crcOk, stored, computed, fixed, stream,
                    lcw));
  }

  lemma PayloadSize(stream: seq<bool>)
    requires |stream| >= 180
    ensures |Payload(stream)| == 20
  {
  }

  // ---- The whole frame ----

  /** Frame type 2 for downlink data, 6 and 7 for uplink data. */
  predicate DataType(ft: Word) {
    ft == {1} || ft == {1, 2} || ft == {0, 1, 2}
  }

  /** The link control word after the 24 bits of the access code. */
  function LcwOf(t: Tables, bits: seq<bool>): Option<L.Lcw>
    requires |bits| >= 70
  {
    var b := L.LcwBits(bits[24..]);
    L.Decode(t.lcw1, t.lcw2, t.lcw3, L.First(b), L.Second(b), L.Third(b))
  }

  function SoftFrom(llr: Option<seq<real>>, from: nat): Option<seq<real>>
    requires llr.Some? ==> from <= |llr.value|
  {
    if llr.Some? then Some(llr.value[from..]) else None
  }

  /** A soft value for every bit if there are any, and a last block of whole symbol pairs. */
  predicate Fit(bits: seq<bool>, llr: Option<seq<real>>, k: nat) {
    k <= 7 && (llr.Some? ==> |llr.value| == |bits|) && (|bits| >= 70 ==> GoodLength(|bits| - 70))
  }

  /** What ida_decode returns for a frame: nothing unless it is long enough, of known direction and of a data type, and
      otherwise what the descrambled payload says. */
  ghost predicate Decodable(t: Tables, bits: seq<bool>, llr: Option<seq<real>>, direction: Direction, k: nat,
                            r: Option<Burst>, results: seq<Decoded>)
    requires Fit(bits, llr, k)
  {
    if |bits| < 194 || direction.Unknown? || LcwOf(t, bits).None? || !DataType(LcwOf(t, bits).value.ft) then r == None
    else
      var data, soft := bits[70..], SoftFrom(llr, 70);
      && Decoding(t.da, data, soft, k, results) && Stops(t.da, data, soft, k, MAX, |results|)
      && r == Interpret(Flat(results), Fixes(results), LcwOf(t, bits).value)
  }

  ghost predicate Outcome(t: Tables, bits: seq<bool>, llr: Option<seq<real>>, direction: Direction, k: nat,
                          r: Option<Burst>)
    requires Fit(bits, llr, k)
  {
    exists results: seq<Decoded> :: Decodable(t, bits, llr, direction, k, r, results)
  }

  /** ida_decode. */
  method IdaDecode(t: Tables, bits: seq<bool>, llr: Option<seq<real>>, direction: Direction, k: nat)
    returns (r: Option<Burst>)
    requires Fit(bits, llr, k)
    ensures Outcome(t, bits, llr, direction, k, r)
  {
    hide L.Decode, L.LcwBits, L.First, L.Second, L.Third, Decoding, Stops, Interpret, Flat, Fixes, GoodLength, DataType;
    ghost var results: seq<Decoded> := [];
    r := None;
    if |bits| < 194 || direction.Unknown? {
      assert Decodable(t, bits, llr, direction, k, r, results);
      return;
    }
    var lcw := L.DecodeLcw(t.lcw1, t.lcw2, t.lcw3, bits[24..]);
    if lcw.None? || !DataType(lcw.value.ft) {
      assert Decodable(t, bits, llr, direction, k, r, results);
      return;
    }
    var stream, fixed;
    stream, fixed, results := DescramblePayload(t.da, bits[70..], SoftFrom(llr, 70), k, MAX);
    StreamSize(t.da, bits[70..], SoftFrom(llr, 70), k, results);
    r := ReadStream(stream, fixed, lcw.value);
    assert Decodable(t, bits, llr, direction, k, r, results);
  }

  lemma StreamSize(m: Slots, data: seq<bool>, llr: Option<seq<real>>, k: nat, results: seq<Decoded>)
    requires Sizes(data, llr, k) && Decoding(m, data, llr, k, results) && DATA * |results| <= MAX
    ensures |Flat(results)| <= 500
  {
    hide ChunkDecodes, ChunkCount, Flat, GoodLength;
    FlatSize(results);
  }

  // ---- What a frame tolerates ----

  /** In a stream of ten code words the check succeeds exactly when the stored CRC is that of the header, twelve
      zero bits and the payload. */
  lemma CheckExactly(stream: seq<bool>, fixed: nat, lcw: L.Lcw)
    requires |stream| == 200 && Interpret(stream, fixed, lcw).Some? && Interpret(stream, fixed, lcw).value.len > 0
    ensures Interpret(stream, fixed, lcw).value.crcOk <==>
            Interpret(stream, fixed, lcw).value.stored == Run(ONES, stream[..20] + Zeros(12) + stream[20..180])
  {
    hide Run, Number, Payload, WordOf;
    var message, check := stream[..20] + Zeros(12) + stream[20..180], stream[180..196];
    assert Covered(stream) == message + check;
    assert Padded(message + check) == message + check;
    AppendedCrc(ONES, message, check);
  }

  /** So it succeeds exactly when the stored CRC is the remainder of that by x^16 + x^12 + x^5 + 1, with all sixteen
      bits of the register set at the start. */
  lemma CheckRemains(stream: seq<bool>, fixed: nat, lcw: L.Lcw)
    requires |stream| == 200 && Interpret(stream, fixed, lcw).Some? && Interpret(stream, fixed, lcw).value.len > 0
    ensures Interpret(stream, fixed, lcw).value.crcOk <==>
            Remains({0, 1, 2, 3, 4, 5, 6, 7, 8, 9, 10, 11, 12, 13, 14, 15},
                    stream[..20] + seq(12, i => false) + stream[20..180], Interpret(stream, fixed, lcw).value.stored)
  {
    hide Run, Remains, Interpret;
    var message := stream[..20] + Zeros(12) + stream[20..180];
    assert Zeros(12) == seq(12, i => false);
    CheckExactly(stream, fixed, lcw);
    RunRemains(ONES, message);
    if Remains(ONES, message, Interpret(stream, fixed, lcw).value.stored) {
      RemainsUnique(ONES, message, Interpret(stream, fixed, lcw).value.stored, Run(ONES, message));
    }
  }

  /** How many of the first n code words have errors. */
  function Damaged(errors: seq<bool>, n: nat): nat
    requires GoodLength(|errors|) && n <= ChunkCount(|errors|)
  {
    if n == 0 then 0 else Damaged(errors, n - 1) + if T.Errors(errors, n - 1) == {} then 0 else 1
  }

  lemma {:induction false} FixesDamaged(results: seq<Decoded>, errors: seq<bool>)
    requires GoodLength(|errors|) && |results| <= ChunkCount(|errors|)
    requires forall i :: 0 <= i < |results| ==> results[i].fixed == if T.Errors(errors, i) == {} then 0 else 1
    ensures Fixes(results) == Damaged(errors, |results|)
  {
    hide T.Errors, GoodLength, ChunkCount;
    if results != [] {
      FixesDamaged(results[..|results| - 1], errors);
    }
  }

  /** The payload part of a frame, received with at most two errors in each code word. */
  lemma PayloadReceived(t: Tables, items: seq<seq<bool>>, x: bool, y: bool, errors: seq<bool>, llr: Option<seq<real>>,
                        k: nat, results: seq<Decoded>)
    requires Filled(t.da, Bch.DA, 31, 2, SYN)
    requires (|items| % 4 == 0 || |items| % 4 == 2) && T.Items(items) && T.Room(|items|, 512)
    requires |errors| == |T.Sent(items, x, y)| && GoodLength(|errors|) && T.Mild(errors)
    requires Sizes(Received(T.Sent(items, x, y), errors), llr, k)
    requires Decoding(t.da, Received(T.Sent(items, x, y), errors), llr, k, results)
    requires Stops(t.da, Received(T.Sent(items, x, y), errors), llr, k, 512, |results|)
    ensures |items| == ChunkCount(|errors|)
    ensures Flat(results) == T.Join(items) && Fixes(results) == Damaged(errors, |items|)
  {
    hide Filled, Decoding, Stops, T.Sent, T.Mild, T.Errors, GoodLength, ChunkCount, Sizes, Flat, Fixes, Damaged, T.Join;
    T.RoundTrip(t.da, items, x, y, errors, llr, k, 512, results);
    T.FlatJoin(results, items);
    FixesDamaged(results, errors);
  }

  /** The bits of a frame: an access code, a link control word and a payload. */
  function SentBits(access: seq<bool>, c1: Word, c2: Word, c3: Word, items: seq<seq<bool>>, x: bool, y: bool): seq<bool>
    requires |items| % 4 == 0 || |items| % 4 == 2
  {
    access + L.Spread(L.Sent(c1, c2, c3)) + T.Sent(items, x, y)
  }

  /** The errors in the link control word, in the order of its bits. */
  function LcwErrors(errors: seq<bool>): (r: seq<bool>)
    requires |errors| >= 70
    ensures |r| == 46
  {
    L.LcwBits(errors[24..70])
  }

  /** The parts of a received frame. */
  lemma ReceivedParts(access: seq<bool>, c1: Word, c2: Word, c3: Word, items: seq<seq<bool>>, x: bool, y: bool,
                      errors: seq<bool>)
    requires |access| == 24 && (|items| % 4 == 0 || |items| % 4 == 2)
    requires |errors| == |SentBits(access, c1, c2, c3, items, x, y)|
    ensures var bits := Received(SentBits(access, c1, c2, c3, items, x, y), errors);
            |bits| == 70 + |T.Sent(items, x, y)| && bits[70..] == Received(T.Sent(items, x, y), errors[70..]) &&
            L.LcwBits(bits[24..]) == Received(L.Sent(c1, c2, c3), LcwErrors(errors))
  {
    hide L.Spread, L.Sent, T.Sent, L.LcwBits;
    var lcw, data := L.Sent(c1, c2, c3), T.Sent(items, x, y);
    var bits := Received(SentBits(access, c1, c2, c3, items, x, y), errors);
    assert bits[24..] == Received(L.Spread(lcw), errors[24..70]) + bits[70..];
    L.Gathered(lcw, errors[24..70], bits[70..]);
  }

  /** No component of the link control word has more than one error, an unsent one bit counted. */
  ghost predicate LcwMild(c2: Word, lcwErrors: seq<bool>)
    requires |lcwErrors| == 46
  {
    |WordOf(lcwErrors[..7])| <= 1 && |L.SecondErrors(c2, lcwErrors)| <= 1 && |WordOf(lcwErrors[20..])| <= 1
  }

  function Corrections(c2: Word, lcwErrors: seq<bool>): nat
    requires |lcwErrors| == 46
  {
    |WordOf(lcwErrors[..7])| + |L.SecondErrors(c2, lcwErrors)| + |WordOf(lcwErrors[20..])|
  }

  lemma LcwReceived(t: Tables, bits: seq<bool>, c1: Word, c2: Word, c3: Word, lcwErrors: seq<bool>)
    requires L.Tables(t.lcw1, t.lcw2, t.lcw3)
    requires IsCodeword(Bch.LCW1, 7, c1) && IsCodeword(Bch.LCW2, 14, c2) && IsCodeword(Bch.LCW3, 26, c3)
    requires |bits| >= 70 && |lcwErrors| == 46 && L.LcwBits(bits[24..]) == Received(L.Sent(c1, c2, c3), lcwErrors)
    requires LcwMild(c2, lcwErrors)
    ensures LcwOf(t, bits) == Some(L.Fields(c1, c2, c3, Corrections(c2, lcwErrors)))
  {
    hide L.Decode, L.First, L.Second, L.Third, L.LcwBits, L.Sent, L.Fields, L.SecondErrors, L.Tables, IsCodeword,
         WordOf, Received;
    L.LcwRoundTrip(t.lcw1, t.lcw2, t.lcw3, c1, c2, c3, lcwErrors, bits[24..]);
  }

  /** Errors that the receiver can put right: at most one in each component of the link control word, and at most two in
      each code word of the payload. */
  ghost predicate Light(c2: Word, errors: seq<bool>)
    requires |errors| >= 70
  {
    LcwMild(c2, LcwErrors(errors)) && GoodLength(|errors[70..]|) && T.Mild(errors[70..])
  }

  /** The results are those of descrambling this payload into a stream of at most 512 bits. */
  ghost predicate Descrambles(t: Tables, data: seq<bool>, llr: Option<seq<real>>, k: nat, results: seq<Decoded>) {
    Sizes(data, llr, k) && Decoding(t.da, data, llr, k, results) && Stops(t.da, data, llr, k, 512, |results|)
  }

  /** Every frame with no more errors than that gives back the stream and the fields that were sent. */
  lemma FrameRoundTrip(t: Tables, access: seq<bool>, c1: Word, c2: Word, c3: Word, items: seq<seq<bool>>, x: bool,
                       y: bool, errors: seq<bool>, llr: Option<seq<real>>, k: nat, results: seq<Decoded>)
    requires Filled(t.da, Bch.DA, 31, 2, SYN) && L.Tables(t.lcw1, t.lcw2, t.lcw3) && |access| == 24
    requires IsCodeword(Bch.LCW1, 7, c1) && IsCodeword(Bch.LCW2, 14, c2) && IsCodeword(Bch.LCW3, 26, c3)
    requires (|items| % 4 == 0 || |items| % 4 == 2) && T.Items(items) && T.Room(|items|, 512)
    requires |errors| == |SentBits(access, c1, c2, c3, items, x, y)| >= 70 && Light(c2, errors)
    requires Descrambles(t, Received(SentBits(access, c1, c2, c3, items, x, y), errors)[70..], llr, k, results)
    ensures LcwOf(t, Received(SentBits(access, c1, c2, c3, items, x, y), errors)) ==
            Some(L.Fields(c1, c2, c3, Corrections(c2, LcwErrors(errors))))
    ensures |items| == ChunkCount(|errors[70..]|) && Flat(results) == T.Join(items)
    ensures Fixes(results) == Damaged(errors[70..], |items|)
  {
    hide Filled, Decoding, Stops, T.Sent, T.Mild, GoodLength, ChunkCount, Sizes, Flat, Fixes, Damaged, T.Join, T.Room,
         T.Items, LcwOf, LcwMild, LcwErrors, L.LcwBits, L.Sent, L.Fields, L.Tables, IsCodeword, Received, Corrections,
         SentBits;
    ReceivedParts(access, c1, c2, c3, items, x, y, errors);
    LcwReceived(t, Received(SentBits(access, c1, c2, c3, items, x, y), errors), c1, c2, c3, LcwErrors(errors));
    PayloadReceived(t, items, x, y, errors[70..], llr, k, results);
  }

  // ---- Which frames are taken ----

  lemma TwoBits(bits: seq<bool>)
    requires |bits| == 2
    ensures Number(bits) == (if bits[0] then 2 else 0) + if bits[1] then 1 else 0
  {
    assert bits[..1][..0] == [];
    assert Number(bits[..1]) == 2 * Number([]) + if bits[0] then 1 else 0;
  }

  /** The number that five bits write is above 20 exactly for 21 to 31. */
  lemma FiveBits(bits: seq<bool>)
    requires |bits| == 5
    ensures Number(bits) > 20 <==> bits[0] && (bits[1] || (bits[2] && (bits[3] || bits[4])))
  {
    assert bits[..4][..3] == bits[..3] && bits[..3][..2] == bits[..2];
    TwoBits(bits[..2]);
    assert Number(bits[..3]) == 2 * Number(bits[..2]) + if bits[2] then 1 else 0;
    assert Number(bits[..4]) == 2 * Number(bits[..3]) + if bits[3] then 1 else 0;
  }

  lemma ThreeBits(bits: seq<bool>)
    requires |bits| == 3
    ensures Number(bits) == 0 <==> !bits[0] && !bits[1] && !bits[2]
  {
    TwoBits(bits[..2]);
  }

  /** A stream is taken exactly when it holds header, payload and check, bits 17 to 19 are zero and the length in bits
      11 to 15 is at most 20. */
  lemma TakenExactly(stream: seq<bool>, fixed: nat, lcw: L.Lcw)
    ensures Interpret(stream, fixed, lcw).Some? <==>
            && |stream| >= 196 && !stream[17] && !stream[18] && !stream[19]
            && !(stream[11] && (stream[12] || (stream[13] && (stream[14] || stream[15]))))
  {
    hide Number, Payload, Run, Padded, Covered, WordOf;
    if |stream| >= 196 {
      FiveBits(stream[11..16]);
      ThreeBits(stream[17..20]);
    }
  }

  /** The check of a stream of any length: the remainder, by x^16 + x^12 + x^5 + 1 and from a register of sixteen ones,
      of the header, twelve zero bits and the rest but four bits, filled up to whole bytes. */
  lemma CheckCovers(stream: seq<bool>, fixed: nat, lcw: L.Lcw)
    requires Interpret(stream, fixed, lcw).Some? && Interpret(stream, fixed, lcw).value.len > 0
    ensures |stream| >= 196
    ensures var n := (|stream| + 15) / 8 * 8 - (|stream| + 8);
            n >= 0 && Remains({0, 1, 2, 3, 4, 5, 6, 7, 8, 9, 10, 11, 12, 13, 14, 15},
                              stream[..20] + seq(12, i => false) + stream[20..|stream| - 4] + seq(n, i => false),
                              Interpret(stream, fixed, lcw).value.computed)
  {
    hide Run, Remains, Number, Payload, WordOf;
    var n := (|stream| + 15) / 8 * 8 - (|stream| + 8);
    assert Zeros(12) == seq(12, i => false) && Zeros(n) == seq(n, i => false);
    assert |Covered(stream)| == |stream| + 8 && (8 - |Covered(stream)| % 8) % 8 == n;
    RunRemains(ONES, Padded(Covered(stream)));
  }

  /** Frames of 194 bits or more, of known direction and of frame type 2, 6 or 7 give what their descrambled payload
      says; no others give a burst. */
  lemma DataFramesExactly(t: Tables, bits: seq<bool>, llr: Option<seq<real>>, direction: Direction, k: nat,
                          r: Option<Burst>)
    requires Fit(bits, llr, k) && Outcome(t, bits, llr, direction, k, r)
    ensures if |bits| >= 194 && !direction.Unknown? && LcwOf(t, bits).Some? && LcwOf(t, bits).value.ft in
                [{1}, {1, 2}, {0, 1, 2}] then
              exists results: seq<Decoded> ::
                Descrambles(t, bits[70..], SoftFrom(llr, 70), k, results) &&
                r == Interpret(Flat(results), Fixes(results), LcwOf(t, bits).value)
            else r == None
  {
    hide L.Decode, L.LcwBits, L.First, L.Second, L.Third, Decoding, Stops, Flat, Fixes, GoodLength, Interpret;
    var results: seq<Decoded> :| Decodable(t, bits, llr, direction, k, r, results);
    if |bits| >= 194 && !direction.Unknown? && LcwOf(t, bits).Some? && DataType(LcwOf(t, bits).value.ft) {
      assert Descrambles(t, bits[70..], SoftFrom(llr, 70), k, results);
    }
  }

  // ---- Frames from sender to receiver ----

  /** The stream a sender makes of a header and a payload: the check follows, then four bits that carry nothing. */
  function Compose(header: seq<bool>, payload: seq<bool>, fill: seq<bool>): seq<bool> {
    header + payload + Check(header, payload) + fill
  }

  function Check(header: seq<bool>, payload: seq<bool>): (r: seq<bool>)
    ensures |r| == 16
  {
    BitsOf(Run(ONES, header + Zeros(12) + payload), 16)
  }

  /** Three zero bits in the header, and a length that 20 bytes can hold. */
  predicate HeaderOk(header: seq<bool>) {
    |header| == 20 && Number(header[17..20]) == 0 && Number(header[11..16]) <= 20
  }

  /** The burst says what header and payload said. */
  ghost predicate Says(r: Burst, header: seq<bool>, payload: seq<bool>)
    requires |header| == 20 && |payload| == 160
  {
    && r.cont == header[3] && r.ctr == Number(header[5..8]) && r.len == Number(header[11..16])
    && r.crcOk == (r.len > 0) && (r.len > 0 ==> r.stored == WordOf(Check(header, payload)))
    && |r.payload| == (if r.len > 0 then r.len else 20)
    && forall i :: 0 <= i < |r.payload| && i < 20 ==> r.payload[i] == WordOf(payload[8 * i..8 * i + 8])
  }

  /** A well-formed stream is accepted, with its own check and the payload bytes it was made of. */
  lemma Composed(header: seq<bool>, payload: seq<bool>, fill: seq<bool>, fixed: nat, lcw: L.Lcw)
    requires HeaderOk(header) && |payload| == 160 && |fill| == 4
    ensures var r := Interpret(Compose(header, payload, fill), fixed, lcw);
            r.Some? && Says(r.value, header, payload) && r.value.fixed == fixed && r.value.lcw == lcw
  {
    hide Run, Number, WordOf, Padded, Covered, Check;
    var stream := Compose(header, payload, fill);
    ComposedParts(header, payload, fill);
    if Number(header[11..16]) > 0 {
      CheckWord(header, payload);
      CheckExactly(stream, fixed, lcw);
    }
    forall i | 0 <= i < 20 ensures Payload(stream)[i] == WordOf(payload[8 * i..8 * i + 8]) {
      assert stream[20 + 8 * i..28 + 8 * i] == stream[20..180][8 * i..8 * i + 8];
    }
  }

  lemma CheckWord(header: seq<bool>, payload: seq<bool>)
    ensures WordOf(Check(header, payload)) == Run(ONES, header + Zeros(12) + payload)
  {
    hide Run, WordOf;
    RunBelow(ONES, header + Zeros(12) + payload);
    WordBits(Run(ONES, header + Zeros(12) + payload), 16);
  }

  lemma ComposedParts(header: seq<bool>, payload: seq<bool>, fill: seq<bool>)
    requires |header| == 20 && |payload| == 160 && |fill| == 4
    ensures var stream := Compose(header, payload, fill);
            && |stream| == 200 && stream[..20] == header && stream[20..180] == payload
            && stream[180..196] == Check(header, payload) && stream[3] == header[3]
            && stream[5..8] == header[5..8] && stream[11..16] == header[11..16] && stream[17..20] == header[17..20]
  {
    hide Check;
  }

  /** A stream cut into the data items of its code words. */
  function Cut(stream: seq<bool>): (r: seq<seq<bool>>)
    ensures |r| == |stream| / DATA && T.Items(r)
  {
    seq(|stream| / DATA, i requires 0 <= i < |stream| / DATA => stream[DATA * i..DATA * i + DATA])
  }

  lemma {:induction false} CutJoin(stream: seq<bool>, n: nat)
    requires n <= |stream| / DATA
    ensures T.Join(Cut(stream)[..n]) == stream[..DATA * n]
  {
    if n > 0 {
      CutJoin(stream, n - 1);
      var items := Cut(stream)[..n];
      assert items[..n - 1] == Cut(stream)[..n - 1];
      assert stream[..DATA * n] == stream[..DATA * (n - 1)] + stream[DATA * (n - 1)..DATA * n];
    }
  }

  /** The items of a composed stream are ten, and make it up. */
  lemma ComposedItems(header: seq<bool>, payload: seq<bool>, fill: seq<bool>)
    requires |header| == 20 && |payload| == 160 && |fill| == 4
    ensures |Cut(Compose(header, payload, fill))| == 10 && T.Items(Cut(Compose(header, payload, fill)))
    ensures T.Join(Cut(Compose(header, payload, fill))) == Compose(header, payload, fill)
  {
    hide Cut, Check, T.Join;
    var stream := Compose(header, payload, fill);
    assert |stream| == 200;
    CutJoin(stream, 10);
    assert Cut(stream)[..10] == Cut(stream) && stream[..200] == stream;
  }

  /** What a sender puts into a data frame: an access code, the fields of the link control word, header, payload, and
      the bits that carry nothing. */
  datatype Frame = Frame(access: seq<bool>, ft: Word, lcwFt: Word, code: Word, lcw3: Word,
                         header: seq<bool>, payload: seq<bool>, fill: seq<bool>, x: bool, y: bool)

  predicate WellFormed(f: Frame) {
    && |f.access| == 24 && L.FieldsOk(f.ft, f.lcwFt, f.code, f.lcw3)
    && (f.ft == {1} || f.ft == {1, 2} || f.ft == {0, 1, 2})
    && HeaderOk(f.header) && |f.payload| == 160 && |f.fill| == 4
  }

  /** The 382 bits of the frame. */
  function Send(f: Frame): (r: seq<bool>)
    requires WellFormed(f)
    ensures |r| == 382 && GoodLength(|r| - 70)
  {
    ComposedItems(f.header, f.payload, f.fill);
    var items := Cut(Compose(f.header, f.payload, f.fill));
    T.SentCount(items, f.x, f.y);
    SentBits(f.access, L.Code1(f.ft), L.Code2(f.lcwFt, f.code), L.Code3(f.lcw3), items, f.x, f.y)
  }

  /** What is received of it. */
  function Taken(f: Frame, errors: seq<bool>): (r: seq<bool>)
    requires WellFormed(f) && |errors| == 382
    ensures |r| == 382
  {
    Received(Send(f), errors)
  }

  /** The frame arrives with errors the receiver can put right. */
  ghost predicate Arrives(f: Frame, errors: seq<bool>) {
    |errors| == 382 && Light(L.Code2(f.lcwFt, f.code), errors)
  }

  /** The decoder returns r for the frame received with these errors. */
  ghost predicate Returns(t: Tables, f: Frame, errors: seq<bool>, llr: Option<seq<real>>, direction: Direction, k: nat,
                          r: Option<Burst>)
  {
    WellFormed(f) && |errors| == 382 && Fit(Taken(f, errors), llr, k) &&
      Outcome(t, Taken(f, errors), llr, direction, k, r)
  }

  /** Counter, length, continuation flag, payload and check are those of the sender, the link control word has the
      fields that were sent, and all corrections are counted. */
  ghost predicate Delivers(f: Frame, errors: seq<bool>, r: Option<Burst>)
    requires WellFormed(f) && |errors| == 382
  {
    var n := Corrections(L.Code2(f.lcwFt, f.code), LcwErrors(errors));
    && r.Some? && Says(r.value, f.header, f.payload)
    && GoodLength(|errors[70..]|) && ChunkCount(|errors[70..]|) == 10 && r.value.fixed == Damaged(errors[70..], 10)
    && r.value.lcw == L.Lcw(f.ft, f.lcwFt, f.code, f.lcw3, n)
  }

  /** Every well-formed frame that arrives with errors the receiver can put right is decoded to what was sent. */
  lemma FrameDelivered(t: Tables, f: Frame, errors: seq<bool>, llr: Option<seq<real>>, direction: Direction, k: nat,
                       r: Option<Burst>)
    requires Filled(t.da, Bch.DA, 31, 2, SYN) && L.Tables(t.lcw1, t.lcw2, t.lcw3)
    requires Arrives(f, errors) && !direction.Unknown? && Returns(t, f, errors, llr, direction, k, r)
    ensures Delivers(f, errors, r)
  {
    hide Filled, Decoding, Stops, T.Mild, Flat, Fixes, Damaged, T.Join, L.LcwBits, L.Sent, L.Tables, IsCodeword, LcwOf,
         LcwMild, LcwErrors, Received, Corrections, SentBits, T.Sent, Compose, Cut, L.Fields, L.Code1, L.Code2,
         L.Code3, L.FieldsOk, Interpret, Says, T.Items, Number, Sizes;
    var items := Cut(Compose(f.header, f.payload, f.fill));
    var c1, c2, c3 := L.Code1(f.ft), L.Code2(f.lcwFt, f.code), L.Code3(f.lcw3);
    ComposedItems(f.header, f.payload, f.fill);
    L.FieldsBack(f.ft, f.lcwFt, f.code, f.lcw3, Corrections(c2, LcwErrors(errors)));
    ReceivedParts(f.access, c1, c2, c3, items, f.x, f.y, errors);
    var bits := Taken(f, errors);
    LcwReceived(t, bits, c1, c2, c3, LcwErrors(errors));
    var results: seq<Decoded> :| Decodable(t, bits, llr, direction, k, r, results);
    SoftSizes(bits, llr, k);
    FrameRoundTrip(t, f.access, c1, c2, c3, items, f.x, f.y, errors, SoftFrom(llr, 70), k, results);
    Composed(f.header, f.payload, f.fill, Fixes(results), LcwOf(t, bits).value);
  }

  lemma SoftSizes(bits: seq<bool>, llr: Option<seq<real>>, k: nat)
    requires |bits| == 382 && Fit(bits, llr, k)
    ensures Sizes(bits[70..], SoftFrom(llr, 70), k)
  {
  }
}
