# Iridium sniffer: a verified model of its core

The sniffer turns a wide-band radio stream into decoded Iridium messages. Samples pass through a burst detector, a
demodulator, a link-layer decoder and a reassembly stage; threads hand work to each other through bounded queues; and
results are exchanged as JSON. This project models the four parts of that path whose correctness is not visible from any
single function, and proves what they promise.

**The hand-off between threads** (`FairLock`, `FairLockList`, `BlockingQueue`, `BlockingQueueSafety`,
`BlockingQueueResults`, `BlockingQueueCalls`, `ElementBuffer`). Two fair locks with weak requests, one shared condition
variable and a circular array. Threads are a step relation: one step is one critical section, or the wake-up half of a wait.
The main results hold in every state of every interleaving: the wait that the source does not repeat in a loop is safe,
refusals are true of some instant of the call, nothing is lost or reordered, each getter receives the element that the adder
served at the same place was called with, and closing always drains. The linked lists and the circular array are modelled in
place and tied to the abstract state. Two things are assumed of the condition variables: they do not wake up spuriously, and
a signal wakes one waiter that has not been signalled yet, or nobody.

**The link-layer decoder** (`Gf2`, `GaloisField`, `Bch`, `SyndromeTable`, `BitWords`, `Chase`, `Interleave`, `Descramble`,
`Transmission`, `LinkControl`, `Crc`, `Kermit`, `IdaFrame`, `RingAlert`, `Dqpsk`, and the reassembly modules
`IdaReassembly`, `IdaSoundness`, `IdaCompleteness`, `SbdReassembly`, `SbdSoundness`, `SbdCompleteness`). A machine word is
the set of its one bits, so exclusive or is symmetric difference and weight is cardinality. The minimum distances of the
five codes are proved, not assumed: for 1207 and 3545 from the arithmetic of the field with 32 elements, for the short link
control codes from their single-bit remainders. A specification sender is given (the repository only has the receiver), and
the receiver is proved to undo it over a channel with errors, from the syndrome tables up to whole frames. The two checks
are proved to be remainders by x^16 + x^12 + x^5 + 1. Reassembly is proved sound over any history and complete on histories
whose trains can be told apart, for data fragments and for short burst packets.

**The burst detector** (`BurstTracker`, `BurstInvariants`, `BurstOnset`, `BurstLengths`, `BurstFloor`, `Detector`, `Modulo`,
`SampleRing`, `SampleFeed`). The detector is a class updated in place; each method is tied to a function of `BurstTracker`,
and `BurstInvariants` proves what every frame of every run keeps; `BurstFloor` says over whole runs which frames the noise
floor averages, when it is thrown away, and what keeps, ends and starts a burst; when bursts can begin too early or become
too long is decided for every configuration. Magnitudes are real numbers and the transform is an arbitrary function of a
frame; the library sort is any order that is strongest first.

**JSON text** (`JsonStrings`, `JsonEscapes`, `JsonTrees`, `JsonGrammar`, `JsonDocuments`, `JsonRoundTrip`, `JsonBuffers`,
`JsonPrinter`). Number-free trees, parsed from and printed into buffers with an offset and a depth. The parser is proved
sound and complete against a grammar with meanings: a text is read as a tree if and only if it begins with a document that
means it. The printer's buffer is an array that grows on request; the allocator is an arbitrary record of which calls it
grants.

## Where the code differs from its documentation or from what one would expect

The model follows the code in each case. For all but the first the exact condition is proved.

- The comment above `chase_bch_decode_p` (frame_decode.c:218-223) describes flipping unreliable bits; the function never
  does so.
- The link control word is described as three correctable components (ida_decode.c:39-42). The last bit of the second one
  is not sent and is taken as 0. A channel error there is corrected if and only if that bit is 0
  (`LinkControl.UnsentBitExactly`); `LinkControl.UnsentBitRefused` is a word where it is not.
- A finished burst is emitted with `stop + burst_pre_len` as its last position (burst_detect.c:793). With the default
  pre-length of two frames this lies beyond what has arrived if and only if the burst ended in the last frame processed
  (`SampleFeed.Feed.Samples`), which is so for every burst when feeds are no longer than a frame
  (`SampleFeed.ShortFeed`, with the stream of `SampleFeed.AheadRun`); the missing samples are then old ones
  (`SampleRing.AheadIsOld`).
- A burst begins the pre-length before the frame in which it is found (burst_detect.c:665). That is before the first
  sample in some run if and only if the pre-length is longer than the history covers and a bin is eligible
  (`BurstOnset.BeginsExactly`, with the run of `BurstOnset.EarlyRun`).
- A finished burst should be shorter than the longest burst, its tail and one frame together. That holds in every run if and
  only if the pre-length is less than the longest burst with its tail and not more than history and tail cover, or no bin is
  eligible (`BurstLengths.BoundedExactly`). `BurstLengths.LongPre` and `BurstLengths.LostTail` take two runs of
  `BurstLengths.LongRun` that fail; in the second the unsigned end of the tail wraps around (burst_detect.c:591), so that the
  burst is not over until it is heard again.
- The header asks callers of `cJSON_PrintPreallocated` for five bytes more than needed, because estimates are not accurate
  (cJSON.h:168). For number-free trees they are: it succeeds if and only if the nesting is within the limit and there is one
  byte more than the text and its terminator (`JsonPrinter.PrintPreallocated`).
- `parse_hex4` returns 0 for digits that are none (cJSON.c:686-689), so such an escape is accepted as a zero byte
  (`JsonEscapes.NoDigitsAccepted`), and the two passes of `parse_string` can come apart (`JsonEscapes.FallsOutOfStep`);
  `JsonEscapes.TogetherExactly` says exactly when. `JsonStrings.AllocationSuffices` holds in any case.
- The parser accepts more than RFC 8259 allows: text after the document, any byte up to 32 as a blank, any byte but the
  backslash inside a string, and the escapes just mentioned. `JsonDocuments.ParseExactly` states the accepted language
  exactly; `JsonGrammar` marks what the standard does not have.

## Model

| member | source | states |
|---|---|---|
| `FairLock.FilterMembers` | fair_lock.h:174-196 | abandoning keeps exactly the strong requests and removes exactly the weak ones |
| `FairLock.FilterKeepsOrder` | fair_lock.h:174-196 | the requests that stay keep their order |
| `FairLock.FilterCounts` | fair_lock.h:174-196 | every request is either kept or abandoned, none is counted twice |
| `FairLock.EnterKeepsInv` | fair_lock.h:225-239 | a request keeps the invariant, whichever of the three ways it goes |
| `FairLock.ResumeKeepsInv` | fair_lock.h:239-252 | so does waking up, as the next owner or as abandoned |
| `FairLock.UnlockKeepsInv` | fair_lock.h:262-274 | so does the hand-off: the flag never says free while somebody is being woken for the lock |
| `FairLock.BlockKeepsInv` | fair_lock.h:276-282 | so does abandoning: no abandoned request is forgotten or granted |
| `FairLock.AllowKeepsInv` | fair_lock.h:284-289 | so does allowing weak requests again |
| `FairLock.ApplyKeepsInv` | fair_lock.h:225-289 | every critical section keeps the invariant: one owner or one pending hand-off, nobody stranded, tickets in order and accounted for |
| `FairLock.RunKeepsInv` | fair_lock.h:225-289 | the invariant holds in every state of every run |
| `FairLock.MutualExclusionAlways` | fair_lock.h:225-274 | at every instant at most one owner or pending hand-off; the waiting count is queued plus pending; a non-empty queue always has somebody who will wake it |
| `FairLock.GrantsOnlyGrow` | fair_lock.h:225-274 | the record of grants is only ever extended |
| `FairLock.FirstComeFirstServed` | fair_lock.h:122-167 | when a ticket has been granted, every earlier one was granted before it or was a weak request that was abandoned and never gets the lock |
| `FairLockList.LinkedLock.constructor` | fair_lock.h:198-223 | a new lock has an empty queue and pool and is the initial abstract lock |
| `FairLockList.LinkedLock.EnqueueEntry` | fair_lock.h:122-150 | the queue grows by one entry at the rear that carries the request; entries in flight are untouched and queued ones keep their contents; no entry ends up in two lists |
| `FairLockList.LinkedLock.DequeueEntry` | fair_lock.h:152-167 | the first entry is unlinked and the rest of the chain stays intact |
| `FairLockList.LinkedLock.ReleaseEntry` | fair_lock.h:169-172 | the entry goes to the front of the pool; queue, pool and entries in flight stay disjoint chains, and queued entries are untouched |
| `FairLockList.LinkedLock.AbandonWeakLocks` | fair_lock.h:174-196 | the pointer walk leaves exactly the strong entries, in order, as a well-formed list; weak ones are marked and signalled; the count drops by their number |
| `FairLockList.LinkedLock.Enter` | fair_lock.h:225-239 | the linked lock does what the abstract request step does, and says which of the three outcomes it was |
| `FairLockList.LinkedLock.Resume` | fair_lock.h:239-252 | the linked lock does what the abstract wake-up step does; the entries in flight are exactly those of the woken and the abandoned requests, one each |
| `FairLockList.LinkedLock.Unlock` | fair_lock.h:262-274 | the linked lock does what the abstract hand-off or release does |
| `FairLockList.LinkedLock.BlockWeakLocks` | fair_lock.h:276-282 | the linked lock does what the abstract blocking step does |
| `FairLockList.LinkedLock.AllowWeakLocks` | fair_lock.h:284-289 | the linked lock does what the abstract allowing step does |
| `ElementBuffer.CircularBuffer.constructor` | blocking_queue.h:292-306 | a new buffer of the asked capacity is empty |
| `ElementBuffer.CircularBuffer.Enqueue` | blocking_queue.h:351-356 | the contents grow by the element at the end, across the wrap-around |
| `ElementBuffer.CircularBuffer.Dequeue` | blocking_queue.h:358-365 | the first element leaves, the others keep their order |
| `ElementBuffer.CircularBuffer.Grow` | blocking_queue.h:380-400 | doubling the array keeps the contents, wherever they wrapped |
| `BlockingQueueSafety.NextKeepsInv` | blocking_queue.h:322-537 | every step of every thread keeps the global invariant over both locks, the flags, the waiters, the buffer and the closing protocol |
| `BlockingQueueSafety.RunKeepsInv` | blocking_queue.h:322-537 | the invariant holds in every state of every interleaving |
| `BlockingQueueResults.WaitingIsSafe` | blocking_queue.h:402-537 | although the wait is not repeated in a loop: an element is never put into a full array or taken from an empty one; at most one thread waits unsignalled, on a side that is full or empty; a signalled thread finds room or an element unless the queue was closed |
| `BlockingQueueResults.Conservation` | blocking_queue.h:402-537 | what was added is what was taken followed by what is held; a bounded queue keeps its capacity and never exceeds it; who adds and takes which element is `BlockingQueueCalls.Handover` |
| `BlockingQueueResults.CapacityFixed` | blocking_queue.h:380-400 | only a queue without bound ever changes its capacity |
| `BlockingQueueResults.ServiceOrder` | blocking_queue.h:402-537 | callers of one side are served in the order of their tickets |
| `BlockingQueueResults.RefusalsAreHonest` | blocking_queue.h:402-537 | a call that returns full or empty, also through an abandoned weak lock, was refused at an instant of that call when the queue was full or empty |
| `BlockingQueueResults.ClosedIsHonest` | blocking_queue.h:402-537 | a call that returns closed does so only of a closed queue |
| `BlockingQueueCalls.CallTells` | blocking_queue.h:402-537 | in every run, at every point of a call: whether it has transferred, in which one step, and the element it holds, which for an adder is the one it was called with and for a getter that transferred the first of the queue in that step |
| `BlockingQueueCalls.OkExactly` | blocking_queue.h:402-537 | a call returns success if and only if it transferred in one of its steps, and it transfers at most once |
| `BlockingQueueCalls.AddedBy` | blocking_queue.h:402-473 | the p-th element added is the one that the p-th adder served was called with |
| `BlockingQueueCalls.Handover` | blocking_queue.h:402-537 | a getter served as the p-th that returns success returns the element that the p-th adder served was called with; that adder was served before |
| `BlockingQueueCalls.NeverRefused` | blocking_queue.h:402-537 | a blocking call never returns full or empty |
| `BlockingQueueCalls.ErrorsAreMemory` | blocking_queue.h:402-537 | a call returns an error only if memory ran out in one of its own steps |
| `BlockingQueueCalls.GrowsWhenFull` | blocking_queue.h:380-400 | only a full queue without bound grows, and then to twice its capacity |
| `BlockingQueueCalls.ClosedFreezes` | blocking_queue.h:322-340 | in every run, once the queue is closed no call transfers any more, and what the queue holds stays in it |
| `BlockingQueueResults.RunKeepsPatience` | blocking_queue.h:402-537 | in every run only blocking calls wait, and while one waits, weak locks of its side are blocked or it is about to be signalled |
| `BlockingQueueResults.StepDecreases` | blocking_queue.h:322-537 | every step that is not the start of a call decreases one measure, whatever the interleaving |
| `BlockingQueueResults.QuiescentMeansBlocked` | blocking_queue.h:322-537 | if no thread can move, each is idle or is a blocking call on a side that really is full or empty of a queue that is open: no signal is ever lost |
| `BlockingQueueResults.NoNewWaits` | blocking_queue.h:322-340 | once closed, nobody starts to wait |
| `BlockingQueueResults.CloseDrains` | blocking_queue.h:322-378 | after closing, without new calls, only boundedly many steps are left, and when none is left all callers and the closer have returned |
| `Gf2.Gf2Remainder` | frame_decode.c:83-92 | the loop computes the remainder function, and the early exit for zero agrees with it |
| `Gf2.RemLinear` | frame_decode.c:83-92 | taking remainders is linear over exclusive or |
| `Gf2.RemBelow` | frame_decode.c:83-92 | the remainder has a lower degree than the divisor |
| `Gf2.RemainderUnique` | frame_decode.c:83-92 | a multiple of the divisor plus anything of lower degree has that as its remainder |
| `Gf2.Division` | frame_decode.c:83-92 | every word is a multiple of the divisor plus its remainder |
| `Gf2.RemShl` | frame_decode.c:83-92 | the remainder of a shifted word is that of its shifted remainder |
| `Gf2.MultipleShl` | frame_decode.c:83-92 | for a divisor with a constant term, a shifted multiple comes from a multiple |
| `GaloisField.FourElements` | frame_decode.c:35-46 | four different elements of the field of 32 never have both their sum and the sum of their cubes zero |
| `GaloisField.CubeOfPower` | frame_decode.c:35-46 | the cube of the k-th power of the primitive element is its 3k-th power |
| `Bch.EvalRem` | frame_decode.c:83-92 | dividing by a polynomial does not change the value at its roots |
| `Bch.Generators` | ida_decode.c:33-42 | the polynomials are the numbers the source gives: 1207, 3545, 29, 465 and 41 |
| `Bch.RootsRa` | frame_decode.c:36 | 1207 has the primitive element and its cube as roots |
| `Bch.RootsDa` | ida_decode.c:34 | 3545 is x + 1 times 1207 and has its roots and the root 1 |
| `Bch.DistanceRa` | frame_decode.c:36 | no word of 31 bits with one to four ones is a code word of 1207 |
| `Bch.DistanceDa` | ida_decode.c:34 | no word of 31 bits with one to five ones is a code word of 3545 |
| `Bch.DistanceLcw1` | ida_decode.c:40 | no word of 7 bits with one to three ones is a code word of 29 |
| `Bch.DistanceLcw2` | ida_decode.c:41 | no word of 14 bits with one to three ones is a code word of 465 |
| `Bch.DistanceLcw3` | ida_decode.c:42 | no word of 26 bits with one or two ones is a code word of 41 |
| `SyndromeTable.Table.Build` | ida_decode.c:64-94 | for any polynomial: every pattern of one bit, and of two if asked for, has an entry; an entry names the last single bit with its syndrome, or the first pair where no single bit has it |
| `SyndromeTable.FilledUnique` | frame_decode.c:96-130 | that description determines every slot of the table |
| `SyndromeTable.SystematicCode` | ida_decode.c:33-42 | for any polynomial, data followed by the remainder is a code word, and the data are read back from its upper bits |
| `SyndromeTable.EntrySound` | frame_decode.c:96-130 | an entry's locator has as many bits as it says, lies within the block and has the syndrome it is filed under; a single-bit entry is never replaced |
| `SyndromeTable.EntryExists` | frame_decode.c:96-130 | every correctable pattern is found in the table |
| `SyndromeTable.Corrects` | frame_decode.c:138-146 | up to t errors in a code word are located exactly, when code words differ in more than 2t places |
| `SyndromeTable.Sound` | frame_decode.c:138-146 | whatever is corrected becomes a code word by flipping as many bits as reported |
| `SyndromeTable.Detects` | frame_decode.c:138-146 | more errors than the table was built for, but too few to reach another code word's surroundings, are noticed |
| `SyndromeTable.RejectsExactly` | frame_decode.c:138-146 | nothing is corrected if and only if no code word is within reach |
| `BitWords.BitsToUint` | frame_decode.c:67-73 | the word whose bits are written most significant first |
| `BitWords.UintToBits` | frame_decode.c:75-81 | the low bits of a word, most significant first |
| `BitWords.WordBits` | frame_decode.c:67-81 | a word that fits survives the way to bits and back |
| `BitWords.BitsWord` | frame_decode.c:67-81 | bits survive the way to a word and back |
| `Chase.SelectWeakest` | ida_decode.c:134-147 | in place, the positions stay an arrangement of all 31 and the first k are in order of reliability, none later less reliable |
| `Chase.ChaseBchDa` | ida_decode.c:108-176 | the result is that of the first mask, in numeric order, whose flipped word decodes, and there is none only if no mask does |
| `Chase.WeakLeast` | ida_decode.c:134-151 | the selected positions are k least reliable ones |
| `Chase.MaskFor` | ida_decode.c:154-159 | every subset of the selected positions has a mask |
| `Chase.ChaseSound` | ida_decode.c:154-173 | a hit yields a code word that differs from the block in some selected bits and in as many others as reported |
| `Chase.ChaseComplete` | ida_decode.c:154-175 | no mask decodes if and only if no code word is that near |
| `Chase.EncodeCodeword` | ida_decode.c:33-36 | the specification encoder yields code words that carry their data |
| `Chase.CodewordEncodes` | ida_decode.c:33-36 | the data of a code word determine it |
| `Chase.ChaseCorrects` | ida_decode.c:108-125 | at most two errors give back the data sent, the exact error count and whether anything was changed |
| `Chase.ChaseDetects` | ida_decode.c:108-125 | three errors are never taken for fewer |
| `Chase.DecodesSent` | ida_decode.c:108-176 | with or without soft values, at most two errors give back the data sent |
| `Chase.ChaseMeaning` | ida_decode.c:108-176 | with soft values, the call fails if and only if no code word is the block with some of k least reliable bits and at most two others changed, and otherwise returns the data of such a code word |
| `Chase.ChasePrefers` | ida_decode.c:134-173 | if bits were flipped before decoding, the choice spares reliable bits: wherever another subset of the least reliable bits would have led to a code word, a most reliable bit of those in which the two differ is in the other |
| `Interleave.DeInterleave` | ida_decode.c:262-275 | each half is the stream of every second symbol, backwards; the same for bits and for soft values |
| `Interleave.DeInterleave3` | frame_decode.c:179-200 | each third is the stream of every third symbol, backwards |
| `Interleave.Deal` | ida_decode.c:265-274 | one of the loops fills exactly its output with every q-th symbol, backwards |
| `Interleave.Everywhere` | ida_decode.c:262-275 | every input bit goes to some place |
| `Interleave.OnlyOnce` | ida_decode.c:262-275 | no two places take the same input bit |
| `Interleave.Unmix` | ida_decode.c:262-275 | de-interleaving undoes the sender's interleaving |
| `Interleave.Remix` | ida_decode.c:262-275 | and the other way round |
| `Descramble.DescramblePayload` | ida_decode.c:279-380 | the output is the data of the first code words in order, with the number of those changed; it stops only at the end, when full, at a last block that would not fit, or at a code word that cannot be decoded |
| `Descramble.DescrambleBlock` | ida_decode.c:291-333 | a full block adds the data of its four code words in their order, or stops at the first that cannot be decoded |
| `Descramble.DescrambleTail` | ida_decode.c:336-377 | the last block, without the first bit of each half, adds its code words as far as they decode and fit |
| `Transmission.Unscramble` | ida_decode.c:287-377 | the i-th code word taken from a scrambled payload is the i-th that was put in |
| `Transmission.ChunkReceived` | ida_decode.c:287-377 | channel errors stay inside the code word of the bit they hit |
| `Transmission.RoundTrip` | ida_decode.c:279-380 | any payload of full blocks and an optional 64-bit last block, with at most two errors in each code word and room for the output, decodes to what was sent |
| `Transmission.FlatJoin` | ida_decode.c:279-380 | the decoded stream is the data items one after the other |
| `LinkControl.PermTable` | ida_decode.c:54-60 | the table of 46 numbers has a closed form |
| `LinkControl.PermForth` | ida_decode.c:54-60 | the table is a permutation of 1 to 46 |
| `LinkControl.PermAgain` | ida_decode.c:54-60 | and its inverse is one on both sides |
| `LinkControl.ReadBits` | ida_decode.c:201-214 | the two loops read the link control bits from those places |
| `LinkControl.LcwPlaces` | ida_decode.c:201-214 | the i-th link control bit is the one the table names, counting from one and with neighbours swapped |
| `LinkControl.EveryBitOnce` | ida_decode.c:201-214 | swap and table together use each of the 46 bits exactly once |
| `LinkControl.Gathered` | ida_decode.c:201-214 | the receiver undoes the sender's permutation, and finds each channel error at the bit it hit |
| `LinkControl.FieldsBack` | ida_decode.c:241-253 | the code words a sender makes of given fields are code words, and carry these fields |
| `LinkControl.LcwFields` | ida_decode.c:216-253 | which of the 46 bits make up each component, and which bits of a component each field |
| `LinkControl.DecodeLcw` | ida_decode.c:196-256 | too short an input gives nothing; otherwise the fields of the three corrected components, or nothing if one cannot be corrected |
| `LinkControl.LcwRoundTrip` | ida_decode.c:216-255 | at most one error in each component, counting an unsent one bit of the second, gives back the fields and the number of corrections |
| `LinkControl.LcwDetects` | ida_decode.c:216-255 | two errors in the first or second component, counted the same way, are always rejected |
| `LinkControl.UnsentBitExactly` | ida_decode.c:226-231 | with one channel error in the second component the word is read correctly if and only if the unsent bit is 0, and otherwise refused |
| `LinkControl.UnsentBitRefused` | ida_decode.c:226-231 | such a word: 465 itself, with its first bit changed |
| `Crc.CrcCcitt` | ida_decode.c:384-397 | the byte loop equals the bit-serial register fed high bit first, and leaves the remainder of the message by x^16 + x^12 + x^5 + 1, from a register of sixteen ones |
| `Crc.RunRemains` | ida_decode.c:384-397 | from any register and any message the bit-serial register ends as the remainder, by {16, 12, 5, 0}, of the register put before the message and sixteen zeros behind it |
| `Crc.RemainsUnique` | ida_decode.c:384-397 | there is only one such remainder |
| `Crc.AppendedCrc` | ida_decode.c:384-397 | sixteen bits after a message bring the register to zero if and only if they are its CRC |
| `Crc.BurstDetected` | ida_decode.c:384-397 | every error burst of at most 16 bits in a message of any length changes the CRC |
| `Crc.RunLinear` | ida_decode.c:384-397 | errors act on the register independently of the message |
| `Kermit.Init` | sbd_acars.c:403-416 | the table holds, for every byte, that byte shifted out |
| `Kermit.Crc16` | sbd_acars.c:419-425 | the table-driven loop equals the bit-serial register fed low bit first, and its mirror image is the remainder of the message by x^16 + x^12 + x^5 + 1, from an empty register |
| `Kermit.TableStepRuns` | sbd_acars.c:419-425 | one table look-up does the work of eight shifts |
| `Kermit.MirrorRun` | sbd_acars.c:398-425 | the check is the mirror image of the CCITT register |
| `Kermit.RunRightRemains` | sbd_acars.c:398-425 | for any register and message, the mirror image of the result is that remainder |
| `Kermit.BurstNoticed` | sbd_acars.c:419-425 | every error burst of at most 16 bits changes this check too |
| `Kermit.AppendedLowHigh` | sbd_acars.c:1312-1322 | two bytes after a message bring the check to zero if and only if they are its CRC, low byte first |
| `IdaFrame.ComputeCrc` | ida_decode.c:607-638 | the bit-packed buffer yields the CRC of header, twelve zero bits and the rest but four bits, padded to bytes |
| `IdaFrame.ReadStream` | ida_decode.c:582-669 | fields, payload and check of a decoded stream, or nothing if it is too short or its header is wrong |
| `IdaFrame.IdaDecode` | ida_decode.c:546-669 | every rejection, and otherwise the burst that the link control word and the descrambled payload spell out |
| `IdaFrame.CheckExactly` | ida_decode.c:607-638 | in a stream of ten code words the check succeeds if and only if the stored CRC is that of header, twelve zero bits and payload |
| `IdaFrame.CheckRemains` | ida_decode.c:607-638 | that is, if and only if the stored CRC is the remainder of these bits by x^16 + x^12 + x^5 + 1, from sixteen ones |
| `IdaFrame.TakenExactly` | ida_decode.c:582-600 | a stream is taken if and only if it has 196 bits, bits 17 to 19 are zero and bits 11 to 15 give at most 20 |
| `IdaFrame.CheckCovers` | ida_decode.c:607-638 | for a stream of any length the check is the remainder of header, twelve zero bits and the rest but four bits, filled up to whole bytes |
| `IdaFrame.DataFramesExactly` | ida_decode.c:546-580 | frames of at least 194 bits, of known direction and of frame type 2, 6 or 7 give what their descrambled payload says, and no others give a burst |
| `IdaFrame.Composed` | ida_decode.c:586-669 | a well-formed stream is accepted with its own check, counter, length, continuation flag and payload bytes; without a length all 20 bytes are handed on unchecked |
| `IdaFrame.ComposedItems` | ida_decode.c:279-380 | the sender cuts such a stream into ten data items, and they make it up again |
| `IdaFrame.PayloadReceived` | ida_decode.c:568-580 | the payload part of a received frame is the stream that was sent, with the number of damaged code words |
| `IdaFrame.LcwReceived` | ida_decode.c:560-566 | the link control part of a received frame gives the fields that were sent |
| `IdaFrame.FrameRoundTrip` | ida_decode.c:546-584 | a frame of any permitted length with at most two errors in each payload code word and one in each link control component gives back the stream, the fields and the counts of corrections |
| `IdaFrame.FrameDelivered` | ida_decode.c:546-669 | end to end: whatever the decoder returns for a well-formed data frame received with no more errors than that is a burst with the counter, length, continuation flag, payload, check and link control fields that were sent, and the exact number of corrections |
| `IdaFrame.ReceivedParts` | ida_decode.c:546-580 | channel errors of a frame fall apart into those of the link control word, in the order of its bits, and those of the payload |
| `RingAlert.BchDecode` | frame_decode.c:225-249 | data and check bits of the corrected word, or nothing |
| `RingAlert.BlockParts` | frame_decode.c:229-243 | the data are the first 21 bits of the corrected word and the check bits the other ten |
| `RingAlert.BchCorrect` | frame_decode.c:138-146 | the entry a syndrome stands for, or nothing |
| `RingAlert.CheckParity` | frame_decode.c:353-361 | whether data, check and parity bits together have an even number of ones |
| `RingAlert.AcceptsFew` | frame_decode.c:225-361 | at most two errors are corrected, and the block is accepted if and only if its parity bit is right |
| `RingAlert.RejectsThree` | frame_decode.c:225-361 | three errors are rejected, by the table or by the parity bit |
| `RingAlert.BlockTolerance` | frame_decode.c:225-361 | with at most three errors in 32 bits a block is accepted if and only if its parity bit is right and at most two others are wrong, and then its data and check bits are the first 21 and the last ten bits sent |
| `Dqpsk.DecodeDqpsk` | qpsk_demod.c:291-300 | in place, each symbol becomes the mapped step from the one before it |
| `Dqpsk.DecodedSteps` | qpsk_demod.c:289-300 | none, one, two or three quarter turns from the symbol before decode to 0, 2, 3 or 1 |
| `Dqpsk.RoundTrip` | qpsk_demod.c:291-300 | decoding undoes differential encoding for every sequence |
| `Dqpsk.RoundTripBack` | qpsk_demod.c:291-300 | and encoding undoes decoding |
| `Dqpsk.Rotation` | qpsk_demod.c:291-300 | a constant rotation changes at most the first decoded symbol |
| `Dqpsk.MapSymbolsToBits` | qpsk_demod.c:356-362 | two bits per symbol, high bit first, and nothing else written |
| `Dqpsk.BitsAt` | qpsk_demod.c:356-362 | the high bit of each symbol comes first |
| `Dqpsk.BitsInjective` | qpsk_demod.c:356-362 | the bits determine the symbols |
| `Dqpsk.CheckSyncWord` | qpsk_demod.c:304-320 | accepts exactly the symbols within two steps around the circle of the unique word |
| `Dqpsk.Gap` | qpsk_demod.c:312-316 | the distance of two symbols is the shorter way around the circle of four |
| `Dqpsk.OneDirection` | qpsk_demod.c:304-320 | no symbols pass for both directions |
| `Dqpsk.AccessCodes` | frame_decode.c:52-57 | twelve symbols decode to an access code if and only if they are its unique word |
| `IdaReassembly.Context.constructor` | ida_decode.h:67-72 | a new context has sixteen free slots |
| `IdaReassembly.Place` | ida_decode.c:717-728 | a new train starts in the first free slot or, if there is none, in the first with the oldest fragment |
| `IdaReassembly.Context.FindPlace` | ida_decode.c:717-728 | the first free slot, or else the first with the oldest fragment |
| `IdaReassembly.Context.Reassemble` | ida_decode.c:673-742 | the slots and the message, if any, that follow from the first matching slot, a free or the oldest slot |
| `IdaReassembly.Context.Flush` | ida_decode.c:744-752 | exactly the slots out of their window are freed |
| `IdaSoundness.RunSteps` | ida_decode.c:673-752 | a run is the two operations called in the order of the events |
| `IdaSoundness.DeliveriesAreSound` | ida_decode.c:673-742 | over any history, each message is the concatenation of the payloads that fit of a chain with counter 0 first, consecutive modulo 8, continuation on all but the last, one direction, 260 Hz, 280 ms; no burst is used twice |
| `IdaCompleteness.TrainsAreDelivered` | ida_decode.c:673-752 | on a history of trains that can be told apart, with flushes, lost or unusable fragments and unfinished trains anywhere, the k-th message is the k-th train that was completed: exactly its payloads in order, as far as each still fits 256 bytes, frequency and direction of its first fragment, time of its last; nothing else is delivered |
| `IdaCompleteness.OpenTrail` | ida_decode.c:673-742 | a train is open while its latest fragment announces another that can still come in time, with the direction and frequency of the first and the concatenation so far of the payloads that fit |
| `IdaCompleteness.TrainMessage` | ida_decode.c:673-742 | the fragment that completes a train delivers the train, with the figures of its first and last fragment, and nothing else delivers anything |
| `IdaCompleteness.StepSim` | ida_decode.c:673-752 | one event keeps the correspondence between slots and open trains and delivers the same message |
| `IdaCompleteness.PlaceLeft` | ida_decode.c:717-728 | with fewer than sixteen live trains a new one never displaces a live one: its slot is free or has run out |
| `SbdReassembly.Context.Extract` | sbd_acars.c:1665-1727 | the slots and the message that follow from the packet's number and count; over whole histories `SbdSoundness.DeliveriesAreSound` and `SbdCompleteness.TrainsArePassedOn` say what is passed on |
| `SbdReassembly.Context.Expire` | sbd_acars.c:1558-1566 | exactly the slots older than five seconds are freed |
| `SbdReassembly.Place` | sbd_acars.c:1675-1688 | a new message starts in the first free slot or, if there is none, in the first with the oldest packet |
| `SbdReassembly.Context.FindPlace` | sbd_acars.c:1675-1688 | the first free slot, or else the first with the oldest packet |
| `SbdReassembly.Context.Continue` | sbd_acars.c:1701-1726 | the last slot in the same direction that waits for this number is extended, and delivered if complete |
| `SbdSoundness.RunSteps` | sbd_acars.c:1665-1727 | a run is the operation called for one packet after the other |
| `SbdSoundness.DeliveriesAreSound` | sbd_acars.c:1558-1727 | over any history, each message is a packet of its own or a first packet and its consecutive successors up to the count, in one direction, within five seconds each, cut at 1024 bytes, with the frequency and magnitude of its first packet and the time of its last; no packet is used twice |
| `SbdCompleteness.TrainsArePassedOn` | sbd_acars.c:1558-1727 | on a history of packets whose trains can be told apart, with packets missing and trains unfinished anywhere, exactly the packets of their own and the completed trains are passed on, each once, in the order in which they are complete: all data of the train in order, cut at 1024 bytes, with the figures of its first packet and the time of its last |
| `SbdCompleteness.Receive` | sbd_acars.c:1665-1727 | the operation called for one packet after the other passes on exactly these |
| `SbdCompleteness.OpenTrail` | sbd_acars.c:1558-1727 | a train is open exactly while it is unfinished and its latest packet is not more than five seconds old, and holds its data so far |
| `SbdCompleteness.StepPasses` | sbd_acars.c:1665-1727 | the packet that completes a train passes on that train, one of its own itself, and no other anything |
| `SbdCompleteness.StepSim` | sbd_acars.c:1558-1727 | one packet keeps the correspondence between slots and open trains and passes on the same |
| `SbdCompleteness.PlaceLeft` | sbd_acars.c:1675-1688 | with fewer than eight open trains a new one never displaces another |
| `BurstInvariants.FrameKeepsSum` | burst_detect.c:524-718 | the running sum of each bin is the column sum of the history, through normal, forced and reset updates |
| `BurstInvariants.FrameKeepsApart` | burst_detect.c:559-718 | a bin is masked if and only if an active burst's window covers it; centres lie outside each other's windows; no more bursts than allowed |
| `BurstInvariants.Packing` | burst_detect.c:615-718 | separated bursts times half a window plus one fit the spectrum |
| `BurstInvariants.CreatedExplains` | burst_detect.c:642-677 | every peak lies in the window of an older burst or of one created in this frame with at least its strength |
| `BurstInvariants.PeaksAreExplained` | burst_detect.c:608-718 | without squelch, every eligible unmasked bin above the threshold is accounted for in that way after the frame |
| `BurstInvariants.FrameKeepsAccounted` | burst_detect.c:576-718 | every identity issued belongs to exactly one active, finished or dropped burst |
| `BurstInvariants.FrameKeepsOrdered` | burst_detect.c:642-677 | identities increase along the active list and stay below the next one |
| `BurstInvariants.OlderSplit` | burst_detect.c:687-701 | when the first m bursts are those that do not start in this frame, the squelch separates exactly these from the others |
| `BurstInvariants.FrameKeepsPast` | burst_detect.c:664-666 | after a frame every active burst starts less than the pre-length before the next one, so a start tells old from new |
| `BurstInvariants.SquelchSplits` | burst_detect.c:680-713 | when the squelch fires, exactly the bursts from before the frame that went on are finished, in order, and exactly the new ones dropped |
| `BurstInvariants.RunsSplit` | burst_detect.c:680-713 | so it is at every squelch of every run, for every configuration |
| `BurstInvariants.FrameKeepsTimely` | burst_detect.c:576-718 | every finished burst is shorter than the longest burst, its tail and one frame together |
| `BurstInvariants.FrameKeepsWarm` | burst_detect.c:524-540 | no bursts exist before the history is full, and then that many frames have passed |
| `BurstInvariants.FrameKeepsInv` | burst_detect.c:722-783 | one frame keeps all of these but the lifetimes, for every configuration |
| `BurstInvariants.RunKeepsInv` | burst_detect.c:722-783 | in every state of every run, for every configuration: mask, separation, limit, column sums, identities and their order, priming, and active bursts from before the next frame |
| `BurstInvariants.RunsAreSeparated` | burst_detect.c:722-783 | in every state of every run centres are more than half a window apart, they fit side by side, and the limit is kept |
| `BurstInvariants.RunsAreTimely` | burst_detect.c:576-718 | in every state of every run, if the pre-length is less than the longest burst with its tail and not more than history and tail cover or no bin is eligible, every finished burst is bounded in length |
| `BurstInvariants.FrameFinishes` | burst_detect.c:576-718 | bursts finished in a frame are added behind the others, and end at its position |
| `BurstOnset.RunsBegin` | burst_detect.c:664-666 | if the pre-length is not longer than the history covers, no burst of any run begins before the first sample |
| `BurstOnset.EarlyRun` | burst_detect.c:664-666 | for every configuration with an eligible bin there is a run whose first burst begins the pre-length before the first frame after the history is full |
| `BurstOnset.BeginsExactly` | burst_detect.c:664-666 | so no burst of any run begins before the first sample if and only if the pre-length is not longer than the history covers, or no bin is eligible |
| `BurstOnset.FrameKeepsSound` | burst_detect.c:722-783 | where both conditions hold, one frame keeps the invariant together with starts and lengths |
| `BurstLengths.OneBurst` | burst_detect.c:544-604 | a frame without peaks, when there is one burst: it ends, or everything stays but its last position |
| `BurstLengths.HoldingRun` | burst_detect.c:576-604 | there is a run that holds one burst through any number of silent frames in which it is not over |
| `BurstLengths.LongRun` | burst_detect.c:576-604 | a burst held for n frames and then heard again ends with a length of n frames and the pre-length, if that is too long |
| `BurstLengths.LongPre` | burst_detect.c:584-592 | with a pre-length as long as the longest burst and its tail there is a run with a finished burst that is too long |
| `BurstLengths.LostTail` | burst_detect.c:584-592 | so there is with a pre-length longer than history and tail cover |
| `BurstLengths.BoundedExactly` | burst_detect.c:576-604 | so in every run every finished burst is bounded in length if and only if the pre-length is within both limits, or no bin is eligible |
| `BurstLengths.FinishingRun` | burst_detect.c:576-604 | whenever the tail of the first burst ends after the first sample, there is a run in whose last frame a burst ends |
| `BurstFloor.FloorExactly` | burst_detect.c:524-540 | in every state of every run: the floor averages exactly the last frames, as many as it has rows, of those that updated it since it was last thrown away; it is full exactly when there are that many; its rows are these frames in order from the cursor on, and each sum is over exactly them |
| `BurstFloor.ResetExactly` | burst_detect.c:680-718 | in every run a frame throws the floor away if and only if it ends a stretch of frames since the last time, of which three times those with too many bursts outweigh the others by ten |
| `BurstFloor.LoudExactly` | burst_detect.c:544-555 | a burst is kept alive exactly if the magnitude at its centre bin or a neighbour inside the spectrum exceeds the threshold times the sum there |
| `BurstFloor.RunsDecide` | burst_detect.c:544-718 | in every frame of every run each active burst either goes on, with its last position moved to this frame exactly if it was heard, or is over: by its tail, by its length or by the squelch, and then ends at this position |
| `BurstFloor.FrameEndsInOrder` | burst_detect.c:576-604 | without a squelch, bursts that end in a frame come behind the others in the order of their identities |
| `BurstFloor.RunsFind` | burst_detect.c:608-677 | in every frame of every run without a squelch, every bin that is eligible, outside the windows and above the threshold ends up in the window of an active burst |
| `BurstFloor.RunsFindOnly` | burst_detect.c:608-677 | and only such bins become bursts, with the relative magnitude as strength and a start the pre-length before the frame |
| `Detector.BurstDetector.constructor` | burst_detect.c:245-362 | a new detector is in the initial state |
| `Detector.BurstDetector.UpdateFiltersPre` | burst_detect.c:512-520 | relative magnitudes once the history is full |
| `Detector.BurstDetector.UpdateFiltersPost` | burst_detect.c:524-540 | history, sum and cursor advance unless bursts are active and the update is not forced; which frames are then averaged is `BurstFloor.FloorExactly` |
| `Detector.BurstDetector.UpdateBursts` | burst_detect.c:544-555 | bursts with a loud centre or neighbour are marked with the index, the others stay |
| `Detector.BurstDetector.MaskOne` | burst_detect.c:559-566 | exactly the clamped window is added to the mask |
| `Detector.BurstDetector.UpdateBurstMask` | burst_detect.c:568-572 | the mask is that of the active bursts |
| `Detector.BurstDetector.DeleteGone` | burst_detect.c:576-604 | removal in place keeps the order of those that go on and moves the others, stamped, in order; a burst that is too long forces a noise update |
| `Detector.BurstDetector.Sweep` | burst_detect.c:578-600 | the loop that removes in place agrees with the two order-preserving filters, also where the unsigned position of a tail wraps around |
| `Detector.BurstDetector.RemovePeaks` | burst_detect.c:608-611 | masked bins become zero, the others stay |
| `Detector.SortPeaks` | burst_detect.c:176-182 | strongest first, and no peak lost or added |
| `Detector.BurstDetector.ExtractPeaks` | burst_detect.c:615-638 | exactly the eligible bins above the threshold outside the mask, each once, strongest first |
| `Detector.BurstDetector.CreateNew` | burst_detect.c:642-718 | greedy creation, then the squelch with its counter and the reset of the noise floor |
| `Detector.BurstDetector.DropAll` | burst_detect.c:685-701 | the squelch in place: old bursts are finished in order, new ones dropped, and the mask is clear |
| `Detector.BurstDetector.Squelch` | burst_detect.c:680-713 | the squelch as a whole, with its counter and the reset of the noise floor |
| `Detector.BurstDetector.ProcessFrame` | burst_detect.c:763-783 | one frame of the object is one frame of the state machine |
| `SampleRing.Ring.Write` | burst_detect.c:465-482 | the last samples of the stream are in their slots, the cursor is the count modulo the size, the recorded start is computed from the count before the write |
| `SampleRing.Ring.Frame` | burst_detect.c:907-918 | a frame read across the wrap-around is the slice of the stream |
| `SampleRing.Ring.Copy` | burst_detect.c:494-504 | both ways of copying read the same cyclic places |
| `SampleRing.HeldExactly` | burst_detect.c:484-508 | a slot holds the position asked for if and only if it is among the last that arrived |
| `SampleRing.Ring.Extract` | burst_detect.c:484-508 | each sample returned is the latest that has arrived of those sharing its slot, in a full ring and in one that is not yet full; the slice asked for if none of it was overwritten and all has arrived |
| `SampleRing.ExtractExactly` | burst_detect.c:484-508 | a request is answered with its own positions if and only if none of them has been overwritten and all have arrived, however full the ring is |
| `SampleRing.LatestExactly` | burst_detect.c:484-508 | the sample that answers for a position is its own if and only if it has arrived and was not overwritten |
| `SampleRing.AheadIsOld` | burst_detect.c:484-508 | in a full ring a position that has not arrived is answered with the one a whole ring before |
| `SampleFeed.PathIndex` | burst_detect.c:906-922 | the i-th frame is processed at the position i frames after the first |
| `SampleFeed.PathSound` | burst_detect.c:906-922 | the detector invariants hold after every frame of a feed |
| `SampleFeed.PathFinishes` | burst_detect.c:906-922 | over a feed finished bursts are only added, and each ends in one of its frames |
| `SampleFeed.ShortFeed` | burst_detect.c:787-796 | after a feed of at most one frame every burst that comes out ended in the last frame, so its request reaches beyond what has arrived |
| `SampleFeed.RunIsPath` | burst_detect.c:906-922 | every run of the detector is what it does on some stream |
| `SampleFeed.AheadRun` | burst_detect.c:787-796 | for every configuration with an eligible bin, a pre-length longer than a frame and the first tail ending after the first sample, there is a stream with a burst that ended in its last frame, and the request for it goes beyond the stream |
| `SampleFeed.RequestFits` | burst_detect.c:787-796 | what is asked for a finished burst never exceeds the ring |
| `SampleFeed.WantedParts` | burst_detect.c:787-826 | the bursts handed out for a list are those for a first part followed by those for the rest |
| `SampleFeed.Feed.constructor` | burst_detect.c:364-369 | ring and detector start empty, with a ring of one and a quarter times the longest request |
| `SampleFeed.Feed.Process` | burst_detect.c:906-922 | every complete frame goes through the detector as the slice of the stream at its position |
| `SampleFeed.Feed.Flush` | burst_detect.c:740-759 | a batch is the same frames, one after the other, at consecutive positions |
| `SampleFeed.Feed.ProcessBatched` | burst_detect.c:866-904 | batches visit the same frames at the same positions |
| `SampleFeed.Feed.Advance` | burst_detect.c:861-923 | samples go into the ring and all complete frames through the detector, on either path; what is finished ended in these frames |
| `SampleFeed.Feed.EmitGone` | burst_detect.c:787-826 | every finished burst comes out once, in order, unless its samples are gone, with the samples the ring has for it; the request never exceeds the ring |
| `SampleFeed.Feed.Samples` | burst_detect.c:830-928 | a feed appends its samples to the stream, visits every complete frame, and hands out exactly the bursts finished in it, in order and each once, unless their samples are gone; with the default pre-length a request reaches beyond what has arrived if and only if its burst ended in the last frame, and after a feed of at most a quarter of the longest request it is answered with its own samples if and only if it did not |
| `JsonStrings.Utf8IsUtf8` | cJSON.c:766-815 | what is written for a code point is its UTF-8 form by section 3 of RFC 3629 |
| `JsonStrings.PairExactly` | cJSON.c:728-758 | the code point of a surrogate pair is that of section 2.2 of RFC 2781, for exactly that pair |
| `JsonStrings.ParseHex4` | cJSON.c:666-699 | the number of four hexadecimal digits, and 0 otherwise |
| `JsonStrings.EncodeUtf8` | cJSON.c:766-815 | the loop that writes the last byte first gives the bytes of a code point |
| `JsonStrings.Utf16Literal` | cJSON.c:703-821 | one escape or a surrogate pair, with every rejection |
| `JsonStrings.UnescapeOne` | cJSON.c:887-922 | the escape after a backslash, or nothing; `JsonGrammar.LiteralFound` and `JsonGrammar.LiteralRead` say which there are and what they mean |
| `JsonStrings.AllocationSuffices` | cJSON.c:838-868 | what the second pass writes for any accepted literal fits what the first pass allocated |
| `JsonStrings.FindEnd` | cJSON.c:838-860 | the closing quote and the number of backslashes passed, or nothing |
| `JsonStrings.Convert` | cJSON.c:870-928 | no write of the second pass leaves what the first pass allocated, also when the literal is rejected, and the result is the unescaped string with its terminator |
| `JsonStrings.ParseString` | cJSON.c:824-951 | the string at a position and the position after it, or nothing |
| `JsonStrings.ExtraIsExact` | cJSON.c:982-1005 | the length the first pass computes is that of the escaped string |
| `JsonStrings.CountExtra` | cJSON.c:981-1004 | the number of extra bytes that escaping needs |
| `JsonStrings.WriteString` | cJSON.c:1013-1073 | the second pass fills the granted bytes with the escaped string between quotes and its terminator, and touches no byte beyond them |
| `JsonStrings.FillEscaped` | cJSON.c:1024-1068 | the writing loop fills exactly the measured length; also the terminators it writes in passing stay within the granted bytes |
| `JsonEscapes.ProperReads` | cJSON.c:703-821 | a properly written code point, in one part or two, is read as its UTF-8 form, whatever follows |
| `JsonEscapes.NoDigitsAccepted` | cJSON.c:686-689 | digits that are none are accepted as a zero byte: such a literal |
| `JsonEscapes.FallsOutOfStep` | cJSON.c:838-928 | the two passes can come apart: a literal whose closing quote ends up in the string |
| `JsonEscapes.StartsExactly` | cJSON.c:841-855 | the first pass steps over the end of some bytes if and only if they end with an odd number of backslashes |
| `JsonEscapes.TogetherExactly` | cJSON.c:838-928 | the passes stay together if and only if the second takes no escape whose digit places end with an odd number of backslashes |
| `JsonEscapes.DigitsTogether` | cJSON.c:838-928 | they stay together whenever every u the first pass finds is followed by four digits |
| `JsonGrammar.LiteralFound` | cJSON.c:824-951 | every string that is accepted is a literal of the grammar, and is read as the bytes its characters mean |
| `JsonGrammar.LiteralRead` | cJSON.c:824-951 | every literal of the grammar is accepted wherever it stands, and read as the bytes it means |
| `JsonGrammar.StrictClosed` | cJSON.c:838-860 | for characters that RFC 8259 has, what the grammar asks of the closing quote is that no plain character is a quote |
| `JsonDocuments.ValueFound` | cJSON.c:1368-1777 | whatever is accepted as a value is the text of a document of the grammar, within the nesting limit of 1000, and is read as what it means |
| `JsonDocuments.ValueRead` | cJSON.c:1368-1777 | the text of every such document is accepted wherever it stands, and read as what it means |
| `JsonDocuments.ParseExactly` | cJSON.c:1116-1192 | for every text and every tree: the parser reads the text as the tree if and only if, after an optional byte order mark and blanks, it begins with a document that means the tree |
| `JsonRoundTrip.StringRoundTrip` | cJSON.c:824-1073 | reading a printed string gives it back, whatever surrounds it |
| `JsonRoundTrip.DocPrinted` | cJSON.c:954-1896 | what is printed for a tree is the text of a document of the grammar |
| `JsonRoundTrip.ArrayLayout` | cJSON.c:1595-1659 | a formatted array has a blank after each comma, an unformatted one none |
| `JsonRoundTrip.ObjectLayout` | cJSON.c:1780-1896 | a formatted object inside another has its members on lines of their own, indented by tabs, with a tab after the colon; an unformatted one has no blanks |
| `JsonRoundTrip.ValueBack` | cJSON.c:1368-1896 | parsing a printed tree gives it back wherever it stands, at any indentation |
| `JsonRoundTrip.TreeRoundTrip` | cJSON.c:1147-1896 | for every number-free tree within the nesting limit, parsing its text, formatted or not, gives the tree |
| `JsonBuffers.ParseBuffer.SkipWhitespace` | cJSON.c:1090-1113 | stops at the first byte that is not blank, or on the last byte |
| `JsonBuffers.ParseBuffer.ParseValue` | cJSON.c:1368-1420 | the tree at the offset and the offset after it, depth restored, or nothing |
| `JsonBuffers.ParseBuffer.ParseArray` | cJSON.c:1497-1592 | the same for an array |
| `JsonBuffers.ParseBuffer.ParseItems` | cJSON.c:1532-1564 | the elements up to the one without a comma; `JsonDocuments.ValueFound` and `JsonDocuments.ValueRead` say which texts these are |
| `JsonBuffers.ParseBuffer.ParseObject` | cJSON.c:1662-1777 | the same for an object |
| `JsonBuffers.ParseBuffer.ParseMembers` | cJSON.c:1695-1750 | the members up to the one without a comma |
| `JsonBuffers.ParseText` | cJSON.c:1116-1192 | a whole text with its terminator and an optional byte order mark: the result is a tree if and only if the text begins with a document that means it |
| `JsonPrinter.PrintBuffer.Ensure` | cJSON.c:490-573 | room for the request and one byte more: the same array if it fits, otherwise one of twice the size with the same bytes; refused only for a broken buffer, a request that cannot fit or by the allocator |
| `JsonPrinter.PrintBuffer.Write` | cJSON.c:1434-1459 | bytes written after a request are at most as many as asked for, and the rest of the array stays |
| `JsonPrinter.PrintBuffer.UpdateOffset` | cJSON.c:576-586 | the offset moves to the end of what was printed |
| `JsonPrinter.PrintBuffer.PrintString` | cJSON.c:954-1073 | the escaped string and its terminator stand at the offset, within what was asked for; refused only if two bytes more than the string do not fit or the allocator refuses |
| `JsonPrinter.PrintBuffer.PrintValue` | cJSON.c:1423-1494 | the text of the tree and its terminator stand after what was written before; fails if and only if the tree is nested too deeply, its text and two bytes do not fit, or the allocator refuses |
| `JsonPrinter.PrintBuffer.PrintArray` | cJSON.c:1595-1659 | the same for an array |
| `JsonPrinter.PrintBuffer.PrintItems` | cJSON.c:1623-1647 | the loop over its items writes their text with what separates them, or fails for one of those reasons |
| `JsonPrinter.PrintBuffer.PrintObject` | cJSON.c:1780-1896 | the same for an object |
| `JsonPrinter.PrintBuffer.PrintMembers` | cJSON.c:1812-1876 | the loop over its members writes their text, or fails for one of those reasons |
| `JsonPrinter.PrintBuffer.PrintMember` | cJSON.c:1814-1873 | the text of one member, or failure for one of those reasons |
| `JsonPrinter.PrintZeroFree` | cJSON.c:954-1896 | no printed text contains a zero byte, so measuring from the offset finds its end |
| `JsonPrinter.PrintPreallocated` | cJSON.c:1348-1365 | prints into the caller's array if and only if the tree is within the nesting limit and its text fits with two bytes more; then the array begins with the text and its terminator |
| `JsonPrinter.PrintTree` | cJSON.c:1239-1304 | the text and its terminator, or nothing, if and only if the tree is nested too deeply, the text is too long or an allocation fails |

## Left out

- Radio front ends, sockets, the web server, BaseStation and GSMTAP output: input and output of other systems.
- Floating-point signal processing, window and filter design, Doppler positioning: rounding and trigonometry are the point there. Of a burst's signal figures only the relative magnitude is kept, not the decibel values computed from it.
- The transforms (FFTW, OpenCL, Vulkan): the magnitudes of a frame are an arbitrary function of its samples. A failing transform, after which a batch is dropped, is not modelled.
- ACARS parsing, header parsing of short burst data, link control pretty-printing, ring alert and broadcast field extraction: string and field plumbing.
- JSON numbers, raw items, allocator hooks other than the default ones, failing allocation in the parser, and the option to refuse text after the value. A tree is a value, so the linking of list items is not modelled. A zero byte that an escape puts into a string is kept, where C code would see the string end.
- Overflow of 32- and 64-bit counters and timestamps, and condition variables that wake up spuriously.
- The detector's list of bursts new in a frame, its peak level and its counters for display.
- Interleave.DeInterleave: even numbers of symbols only; for an odd number the last place of both outputs stays unwritten in the source.
- Descramble.DescramblePayload: payloads whose last block has an odd number of symbols are excluded, because the source then reads those unwritten places.
- IdaFrame.IdaDecode: excludes the same frames, for the same reason.
- BurstInvariants.FrameKeepsTimely: needs a pre-length less than the longest burst with its tail and, when there are peaks, not more than the frame's position and the tail; by `BurstLengths.BoundedExactly` the bound fails in some run otherwise.
- BurstOnset.FrameKeepsSound: is for configurations that meet the exact conditions of `BurstOnset.BeginsExactly` and `BurstLengths.BoundedExactly`.
- SampleFeed.Feed.constructor: needs these conditions too, and a frame that fits the quarter of headroom of the ring; the source does not check either.
- SampleFeed.Feed.Samples: needs a feed that leaves room for one frame in the ring, which the source leaves to its caller; emission happens once at the end, whereas the batched path of the source also emits between batches, from the same ring and with the same samples.
- SampleRing.Ring.Write: at most one ring of samples at a time, which the source leaves to its caller.
- IdaCompleteness.TrainsAreDelivered: speaks of histories in the order of their times, in which bursts of different live trains differ in direction or frequency, a train does not restart before its window is over, and at most sixteen trains are live; the others are covered by soundness only.
- SbdCompleteness.TrainsArePassedOn: speaks of histories in the order of their times, in which fewer than eight trains are live when one begins, a train does not restart while it is live, and no other train waits for the same number in the same direction; the others are covered by soundness only.
- SbdCompleteness.Receive: the same.
- BlockingQueueResults.CloseDrains: says that callers come back after closing if they are scheduled; fairness of the scheduler itself is not modelled.
