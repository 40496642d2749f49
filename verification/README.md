# NATBuster transport stack, verified model

A Dafny model of the transport layers of NATBuster and of the structures they rest on, with proofs of what
each layer promises the one above it. Verify everything with `dafny verify dfyconfig.toml`.

Every layer has the same shape: the operations as functions on values; the source's class with the same
operations as methods, each proved equal to its function; a state machine whose steps are those functions,
with the other party, the network or other threads in between; an invariant every step keeps; and theorems
about every run. What the functions do is also pinned without them: packets in bytes (`Layout`, `Transcript`),
verdicts by their exact conditions, methods in their own fields, and promises by the list of steps a run
consists of. `UdpExchange`, `SessionExchange` and `PipesExchange` carry two objects of the source's classes
through a whole conversation and prove from those theorems what comes out.

| layer | files |
|---|---|
| OPTUDP: ordered messages over datagrams that get lost, doubled and reordered | Fragmentation, UdpModel, UdpWire, UdpRetransmit, UdpEndpoint, UdpNetwork, UdpSafety, UdpTheorems, UdpLiveness, UdpExchange |
| OPTTCP: frames over a byte stream cut anywhere | TcpFraming, TcpEndpoint |
| OPTSession: key exchange, and the switch to encryption in mid-stream | PackedRecords, CipherModel, SessionModel, SessionEndpoint, SessionNet, SessionSteps, SessionTheorems, SessionVerdicts, SessionTranscript, SessionExchange |
| OPTPipes: multiplexed pipes that open, are accepted, close, expire and are dropped | PipesModel, PipesEndpoint, PipesPair, PipesNet, PipesTheorems, PipesRequests, PipesExchange |
| Callback: one atomic pointer shared by threads | CallbackModel, CallbackSteps, CallbackTheorems, CallbackOutcome, CallbackRuns, CallbackCell |
| EventEmitter: timers | EmitterModel, EmitterTheorems, EmitterRuns, EmitterLoop |
| Blob, packed records, the C2 login registry | BlobBuffer, BlobSlices, PackedDrafts, PackedBlob, C2Registry |

## Where the code departs from its intent

The model does what the code does. Where that is not what the code is for, the exact condition is proved.

- The reorder map is keyed by the whole sequence number (common/transport/opt_udp.cpp:174) but looked up with
  retransmit bits 0 (:34). `KeyMode` has both the code's key and the masked one. Order and integrity hold for
  both (`DeliveredIsPrefix`). A fragment survives its acknowledgement exactly if a copy with a usable key
  arrived (`LossExactly`); with the masked key that is always so, as written it need not be (`CodeCanStall`),
  and then the receiver never gets past it (`StalledForever`). That is the only way to get stuck: a fragment can
  still be passed exactly if neither it nor an earlier one is stalled (`PassableIff`, `DeliverableIff`).
- `OPTUDP::send` reserves the right number of fragments exactly for a message that is not empty
  (`ReservedIffNonEmpty`). The network model only sends such messages, as OPTSession does.
- The time of a frame is read before the queue lock is taken (common/transport/opt_udp.cpp:331-338), so two
  threads can queue out of order (`UnorderedSendsBreakOrder`). `EmitSortedIff` says when the queue stays sorted;
  the runs of `TimerIsEarliest` read the clock and queue in one step.
- `OPTTCP` advertises 2^24 but accepts only less (`RoundTripIff`).
- A second key exchange always ends the session (`RekeyAlwaysFails`), so runs have one.
- `secret_hash_derive_bits` ends exactly for lengths up to 64 (`DerivationEndsIff`); the letters in its comment
  (common/transport/kex_v1.h:195-198) are not the directions the code uses, which agree at both ends.
- `Blob::erase` changes nothing (`Erase`); the key exchange is modelled with the `erase` the code has. `operator!=`
  calls blobs of equal size different and compares others over the length of the left side, past the end of a
  shorter right side (`CodeNotEqualIff`).
- A copy into a slice does not make it longer, and a finished record is as long as its slice: a record copied in
  without a resize is lost (`CopyOnly`), and a slice shrunk after it was written leaves bytes behind that the
  reader of the last record stumbles on (`WriteAndRead`, `NothingBehindIff`).
- A raw datagram of OPTUDP is handed out with its type byte (`RawKeepsHeader`).
- `OPTPipes::on_close` calls pipes back without closing them, so a close afterwards calls back again, be it the
  expiry timer's: exactly when in `OneCloseIff`, shown in `ClosesTwice`.
- A call made during a call on the same `Callback` loses it, and an old callback can come back
  (`CallKeepsIff`, `NestedCallLoses`, `OldOneReturns`); without such calls the latest one wins (`LatestWins`).
  When calls overlap, whatever their order, the latest one wins exactly if all calls under way carry it
  (`LatestSurvivesIff`).
- `_self_lu` of a C2 endpoint is unset until login in the code; here it is absent.

## What is assumed

- Of the cryptography, what `CipherModel.Lawful` says: agreement of the key exchange, 64-byte hashes, valid
  signatures, opening undoes sealing under the same key and IV, sizes. Peers are honest; there is no attacker.
- Of the datagram network: it may lose, double and reorder at will, but a copy arrives within 2^25 fragments of
  the receiver and an acknowledgement within 2^26 of what is queued, the window the 26-bit numbers can tell apart.
- Of the retransmit delay: 3000 to 500000, as `next_retransmit_delta` clamps it.
- Of the transport under the pipes: it delivers nothing after its own close callback. That no packet or open
  callback of the other end follows that callback (`CallbacksInOrder`) rests on it.
- Of pipe users: they send only while the pipe is open and leave a pipe alone once they dropped it ("equivalent
  to just releasing references", common/transport/opt_pipes.h:67-69); fewer than 2^31 pipes per endpoint.
- Of `Callback` users: an object is not destroyed while a call on it is under way.
- Of the event provider: an interrupt is kept until the next wait.
- Clocks, randomness, ping averages and what callbacks do are parameters or steps of their own.
- Of the socket: a chunk handed to OPTTCP is below 2^31 bytes, so the 32-bit length counter is not passed twice
  at once. Of the OPTUDP settings: an MTU above the 5 header bytes.
- Of blobs: sizes for which the doubled growth fits in 32 bits (`Fits`); for a whole sequence of records, twice
  all that is written and the front gap (`WriteAll`).

## Model

| member | source | states |
|---|---|---|
| Fragmentation.FragmentationCorrect | common/transport/opt_udp.cpp:301-340 | for every non-empty message and limit: exactly the reserved ceil(size/limit) fragments, none empty, none over the limit, lengths within 1 of each other, concatenating to the message, typed SINGLE or START MID* END |
| Fragmentation.ReservedIffNonEmpty | common/transport/opt_udp.cpp:305 | the loop emits as many fragments as were reserved exactly when the message is not empty (`size - 1` wraps at 0) |
| Fragmentation.SharesAreQuotients | common/transport/opt_udp.cpp:305-313 | block size and shares are the quotients `send` computes |
| Fragmentation.NextSizeFits | common/transport/opt_udp.cpp:312-313 | a fragment leaves at least one byte for each fragment still to come, and takes everything only when it is the last |
| Fragmentation.NextSizeWithin | common/transport/opt_udp.cpp:312-313 | if what is left fits the remaining fragments under the limit, so do this fragment and the rest after it |
| Fragmentation.NextSizeShares | common/transport/opt_udp.cpp:312-313 | sizes stay between the same two neighbouring integers from fragment to fragment |
| Fragmentation.StreamReassembles | common/transport/opt_udp.cpp:41-72 | after any number of fragments of the stream of all messages, exactly the messages whose last fragment is among them have been put together, byte for byte |
| Fragmentation.AbsorbMessage | common/transport/opt_udp.cpp:41-72 | absorbing all fragments of one message delivers that message and leaves nothing behind |
| UdpModel.SeqNoIsWord | common/transport/opt_udp.h:38-40 | the two bit fields are the 32-bit word, and adding whole fragment numbers wraps as the word does |
| UdpModel.AdvanceSign | common/transport/opt_udp.cpp:169-170 | the signed 32-bit comparison holds exactly when the distance is below half of the 2^26 numbers, modulo 2^26 |
| UdpModel.AdvanceInWindow | common/transport/opt_udp.cpp:168-170 | within 2^25 fragments of the receiver it means "not yet passed" |
| UdpModel.IndexOfKeyNext | common/transport/opt_udp.cpp:72-72 | advancing the receiver changes the fragment of no stored key |
| UdpModel.RefreshKeeps | common/transport/opt_udp.cpp:237-250 | a resend keeps fragment and number and forgets no retransmit number already used |
| UdpModel.OverduePrefix | common/transport/opt_udp.cpp:231-236 | how many entries from the front are overdue: all before it are, the one at it is not |
| UdpModel.AfterRetransmit | common/transport/opt_udp.cpp:221-260 | the queue after the timer: as long as before, and every entry still matches its times |
| UdpModel.RemovalShrinks | common/transport/opt_udp.cpp:32-39 | the measure of the reassembly loop: each round takes one stored frame |
| UdpWire.DataInverse | common/transport/opt_udp.h:42-66 | a datagram is read as given data exactly when it is the encoding of that data |
| UdpWire.DataRoundTrip | common/transport/opt_udp.h:42-66 | data survives the wire |
| UdpWire.AckRoundTrip | common/transport/opt_udp.h:54-66 | acknowledgements survive the wire |
| Common.LE32IsLittleEndian | common/transport/opt_udp.h:38-66 | the four bytes of a 32-bit field, lowest first, and no others |
| UdpWire.Layout | common/transport/opt_udp.h:42-66 | data and acknowledgement datagrams in bytes |
| UdpWire.Verdicts | common/transport/opt_udp.cpp:80-184 | what is malformed, answered, reported, left alone, by type byte and length |
| UdpWire.RawKeepsHeader | common/transport/opt_udp.cpp:180-183 | a raw datagram is handed out with its type byte still in front: never what `sendRaw` was given, and told apart by everything behind that byte |
| UdpRetransmit.RetransmitRotates | common/transport/opt_udp.cpp:221-260 | what was not overdue first, then each resent entry once, in order |
| UdpRetransmit.ResentWhileDue | common/transport/opt_udp.cpp:230-236 | the loop resends from the front while the last transmission of the front entry is at least the delay ago, and stops at the first for which it is not |
| UdpRetransmit.ResentIffDue | common/transport/opt_udp.cpp:202-236 | in a sorted queue exactly the entries whose last transmission is at least the delay ago are resent, each once, and any at all exactly if the timer was due |
| UdpRetransmit.ResentIs | common/transport/opt_udp.cpp:237-257 | the copies sent are the entries with their next retransmit number, in order, and the same entries end the queue |
| UdpRetransmit.RefreshIs | common/transport/opt_udp.cpp:237-250 | next of the 64 retransmit numbers, the time noted under it, nothing else changed |
| UdpRetransmit.RetransmitClearsIff | common/transport/opt_udp.cpp:230-260 | the call leaves nothing overdue exactly when the overdue entries stood in front |
| UdpRetransmit.RetransmitSorted | common/transport/opt_udp.cpp:230-260 | with a monotone clock each overdue fragment is resent exactly once, none stays overdue and the order is kept |
| UdpRetransmit.DeadlineIsEarliest | common/transport/opt_udp.cpp:202-214 | in a sorted queue the deadline taken from the front is the earliest of all |
| UdpRetransmit.EmitSortedIff | common/transport/opt_udp.cpp:330-338 | a new frame keeps the queue sorted exactly when its time is not before any in it |
| UdpRetransmit.AckIsFilter | common/transport/opt_udp.cpp:124-142 | entries are judged one by one, in order: one goes exactly if it has the number and has been sent under the retransmit number |
| UdpRetransmit.AckKeeps | common/transport/opt_udp.cpp:124-142 | an acknowledgement removes exactly the entries it matches and keeps the order |
| UdpEndpoint.OptUdp.constructor | common/transport/opt_udp.cpp:274-284 | both halves start empty at number 0 |
| UdpEndpoint.OptUdp.NextSeq | common/transport/opt_udp.h:145-150 | returns the old number and reserves a contiguous block |
| UdpEndpoint.OptUdp.ResetRetransmitTimer | common/transport/opt_udp.cpp:202-214 | the timer is armed for the front entry, or off when there is none |
| UdpEndpoint.OptUdp.EmitFrame | common/transport/opt_udp.cpp:330-339 | one frame queued and sent under one lock |
| UdpEndpoint.OptUdp.EmitAll | common/transport/opt_udp.cpp:309-340 | the loop queues and sends exactly the fragments of the message under consecutive numbers and stops |
| UdpEndpoint.OptUdp.EmitNext | common/transport/opt_udp.cpp:311-339 | the next frame has the balanced share, the right type and the bytes from the cursor on |
| UdpEndpoint.OptUdp.Send | common/transport/opt_udp.cpp:301-342 | numbers reserved, fragments queued with the times read, datagrams sent, timer reset; nothing else changes |
| UdpEndpoint.OptUdp.OnAck | common/transport/opt_udp.cpp:112-146 | exactly the matching entries are erased; timer reset |
| UdpEndpoint.OptUdp.EraseAcked | common/transport/opt_udp.cpp:124-143 | the erase loop drops exactly the matching entries |
| UdpEndpoint.OptUdp.Assemble | common/transport/opt_udp.cpp:49-64 | the copy loop concatenates the listed payloads |
| UdpEndpoint.OptUdp.TryReassemble | common/transport/opt_udp.cpp:32-74 | consumes everything consecutive from the expected number on, and ends |
| UdpEndpoint.OptUdp.OnData | common/transport/opt_udp.cpp:149-177 | acknowledges every copy; stores and reassembles only what is not behind |
| UdpEndpoint.OptUdp.OnReceive | common/transport/opt_udp.cpp:80-184 | each kind of datagram, each malformed one: what is sent, delivered, erased, reported, closed, and both timers |
| UdpEndpoint.OptUdp.ResendFront | common/transport/opt_udp.cpp:232-257 | one turn of the loop: next retransmit number, time noted, sent, moved to the back |
| UdpEndpoint.OptUdp.ResendOverdue | common/transport/opt_udp.cpp:229-259 | the `while(true)` loop ends and does what the rotation function says |
| UdpEndpoint.OptUdp.OnRetransmitTimer | common/transport/opt_udp.cpp:221-263 | queue rotated, overdue copies sent in order, timer reset |
| UdpEndpoint.OptUdp.ResetPongTimeoutTimer | common/transport/opt_udp.cpp:215-219 | armed for 30 seconds after the last pong |
| UdpEndpoint.OptUdp.OnPongTimeoutTimer | common/transport/opt_udp.cpp:264-272 | closes exactly when the last pong is more than 30 seconds ago, and is armed again |
| UdpSafety.StepKeepsInv | common/transport/opt_udp.cpp:80-184 | every step of any sender thread, the network and the receiver keeps the invariant |
| UdpSafety.RunKeepsInv | common/transport/opt_udp.cpp:80-342 | so does every run |
| UdpSafety.ReserveKeeps | common/transport/opt_udp.h:145-150 | reserving a block for a message, also between two emissions of other threads |
| UdpSafety.EmittedFrag | common/transport/opt_udp.cpp:309-328 | the fragment a thread emits is the one its number was reserved for |
| UdpSafety.EmitKeeps | common/transport/opt_udp.cpp:309-340 | emitting one fragment of one of several concurrent sends |
| UdpSafety.RetransmitKeeps | common/transport/opt_udp.cpp:221-260 | resending from the timer |
| UdpSafety.AckKeepsInv | common/transport/opt_udp.cpp:112-146 | an acknowledgement arriving, however late or often |
| UdpSafety.DataKeepsInv | common/transport/opt_udp.cpp:149-177 | a copy arriving, however late or often |
| UdpTheorems.DeliveredIsPrefix | common/transport/opt_udp.cpp:32-74 | in every run of concurrent senders over a network that loses, duplicates and reorders, delivered messages are a prefix of sent messages in order of reservation, for the code and for the intended key |
| UdpTheorems.RetransmitCounters | common/transport/opt_udp.cpp:237-250 | each entry has as many times as its counter plus one, or 64; every copy or acknowledgement of it in flight has a number below that |
| UdpTheorems.AckExact | common/transport/opt_udp.cpp:124-142 | hence an acknowledgement removes its own fragment and no other, before and after the counter wraps |
| UdpTheorems.LossExactly | common/transport/opt_udp.cpp:149-177 | an emitted fragment is queued, findable or passed exactly if it is still queued or a copy the map key admits has arrived |
| UdpTheorems.SafeIffUsable | common/transport/opt_udp.cpp:32-39 | the receiver can still reach, or has passed, a fragment exactly if a usable copy arrived |
| UdpTheorems.MaskedNeverLoses | common/transport/opt_udp.cpp:174 | with the key masked by `seq_num_mask` no acknowledged fragment is lost |
| UdpTheorems.QuietMeansDeliveredIff | common/transport/opt_udp.cpp:112-177 | nothing queued and no send running: everything was delivered exactly if every fragment had a usable copy arrive |
| UdpTheorems.MaskedQuietMeansDelivered | common/transport/opt_udp.cpp:174 | with the masked key: everything was delivered |
| UdpTheorems.SendNeverStuck | common/transport/opt_udp.cpp:309-340 | a running send always has its next frame ready |
| UdpTheorems.TimerNeverStuck | common/transport/opt_udp.cpp:221-260 | in every run each queued entry has the time its retransmit number stands for, so the timer can always run |
| UdpTheorems.UnorderedSendsBreakOrder | common/transport/opt_udp.cpp:330-338 | the clock is read outside the lock: a run of two concurrent sends after which the queue is unsorted and the timer set too late for one of them |
| UdpTheorems.TimerIsEarliest | common/transport/opt_udp.cpp:202-214 | in every run whose clock does not run backwards the queue is sorted by latest transmit time, so the timer is armed for the earliest deadline |
| UdpTheorems.RunInOrder | common/transport/opt_udp.cpp:221-263 | every step of such a run keeps that order |
| UdpTheorems.StalledForever | common/transport/opt_udp.cpp:174-175 | a fragment acknowledged only by copies with retransmit bits is never passed, in any continuation |
| UdpLiveness.PassableIff | common/transport/opt_udp.cpp:112-177 | from any state of any run, some continuation gets past a reserved fragment exactly if neither it nor an earlier one is stalled |
| UdpLiveness.DeliverableIff | common/transport/opt_udp.cpp:80-342 | in every run of concurrent senders everything reserved can still be delivered exactly if no fragment is stalled |
| UdpLiveness.MaskedDeliverable | common/transport/opt_udp.cpp:174 | with the masked key it always can |
| UdpLiveness.ResendUntil | common/transport/opt_udp.cpp:221-260 | the timer resends a queued fragment until its retransmit number comes round to 0 and the copy is usable again |
| UdpLiveness.EmitUntil | common/transport/opt_udp.cpp:309-340 | a running send gets to each of its fragments |
| UdpExchange.SendReaches | common/transport/opt_udp.cpp:301-342 | a send with nothing else running is a reservation and its emissions, one step each |
| UdpExchange.Happen | common/transport/opt_udp.cpp:80-342 | a message sent, the timer firing or any earlier datagram arriving at the other of two objects is that step of the system |
| UdpExchange.Transfer | common/transport/opt_udp.cpp:80-342 | two objects from creation on, for every list of choices of the network and the clock: what comes out is a prefix of what was sent; with nothing queued all of it exactly if a usable copy of each fragment came through; and it can still all be delivered exactly if nothing is stalled |
| UdpTheorems.CodeCanStall | common/transport/opt_udp.cpp:34-35 | a six-step run in which the code as written ends so |
| TcpFraming.ParseResumes | common/transport/opt_tcp.cpp:22-73 | the parse can be stopped anywhere and resumed with the rest |
| TcpFraming.ChunkingIndependent | common/transport/opt_tcp.cpp:16-74 | however the stream is cut into calls, frames, rest and verdict are those of the whole stream |
| TcpFraming.BadForever | common/transport/opt_tcp.cpp:59-69 | once a bad header is at the head nothing is emitted any more |
| TcpFraming.Layout | common/transport/opt_tcp.cpp:110-135 | both frames in bytes |
| TcpFraming.ParseByHead | common/transport/opt_tcp.cpp:22-73 | what the first five bytes decide: wait, close, or one frame and on with the rest |
| TcpFraming.RoundTripIff | common/transport/opt_tcp.cpp:110-135 | what `send` and `sendRaw` wrote comes back exactly when each payload is below 2^24 bytes |
| TcpFraming.StreamDelivers | common/transport/opt_tcp.cpp:16-135 | of a stream cut anywhere, complete or not, what came out is a prefix of what was sent; all of it once all bytes came |
| TcpEndpoint.OptTcp.constructor | common/transport/opt_tcp.h:54-55 | nothing buffered, nothing received |
| TcpEndpoint.OptTcp.Read | common/transport/opt_tcp.h:99-148 | reading or peeking across chunks is taking from the front of the flat stream; the length counter stays right on 32 bits |
| TcpEndpoint.OptTcp.ReceiveOne | common/transport/opt_tcp.cpp:22-70 | one pass emits the first complete frame, or stops |
| TcpEndpoint.OptTcp.OnReceive | common/transport/opt_tcp.cpp:16-74 | the call emits the direct parse of what was buffered plus the new chunk, keeps its rest, and closes on a bad header |
| TcpEndpoint.OptTcp.Send | common/transport/opt_tcp.cpp:110-122 | the normal frame is written |
| TcpEndpoint.OptTcp.SendRaw | common/transport/opt_tcp.cpp:123-135 | the raw frame is written |
| PackedRecords.ReadIffPacked | common/utils/blob.h:397-428 | reading to the end gives these records exactly on their packed form |
| PackedRecords.PackInjective | common/transport/kex_v1.h:138-193 | equal packed bytes come from equal records, so the hash inputs are unambiguous |
| PackedRecords.ReadAt | common/utils/blob.h:406-422 | the k-th read of a packed list gives the k-th record and stands at the next |
| PackedBlob.PackedBlobWriter.constructor | common/utils/blob.h:369-371 | the writer starts behind what is there |
| PackedBlob.PackedBlobWriter.SetSize | common/utils/blob.h:381 | exactly the four bytes at the cursor change |
| PackedBlob.PackedBlobWriter.AddRecord | common/utils/blob.h:373-383 | the blob is then what was finished plus the packed record |
| PackedBlob.PackedBlobWriter.PrepareWriteableRecord | common/utils/blob.h:385-388 | room for the size field, an empty slice behind it, nothing finished changes |
| PackedBlob.PackedBlobWriter.FinishWriteableRecord | common/utils/blob.h:390-394 | as many bytes as the slice is long are finished as a record behind the others, whatever lies behind it |
| PackedBlob.PackedBlobWriter.FinishHolding | common/utils/blob.h:390-394 | data that stands in place is the record finished exactly if the slice has its length |
| PackedBlob.PackedBlobWriter.WriteThrough | common/utils/blob.h:385-394 | prepare, any operations on the slice, finish: a record of the length the slice was left with and the bytes written there; how far the blob then reaches |
| PackedBlob.PackedBlobWriter.WriteAll | common/utils/blob.h:364-395 | any sequence of records, each added or written through its slice: they stand one behind the other, and exactly so many bytes are left behind the last |
| PackedBlob.WriteAndRead | common/utils/blob.h:364-428 | the reader returns exactly the records written, in whatever mix of ways, exactly if the last one left no bytes behind |
| PackedBlob.CopyOnly | common/utils/blob.h:302-304 | a copy into a slice that was not resized is lost: an empty record is finished and the next one written over the data |
| PackedDrafts.StoredIsLeft | common/crypto/pkey.cpp:136-141 | resize and write through `getw`, as all callers do, leaves exactly what was written |
| PackedDrafts.CopiedIsLeftIff | common/utils/blob.h:302-304 | a record copied in is left exactly if the slice was resized to its length |
| PackedDrafts.NothingBehindIff | common/crypto/pkey.cpp:394-403 | no bytes are left behind exactly if the last record was added, or its slice ends where the blob was made to reach: a signature slice shrunk at the end leaves the difference |
| PackedBlob.PackedBlobReader.constructor | common/utils/blob.h:402-404 | the reader starts at the beginning |
| PackedBlob.PackedBlobReader.NextRecord | common/utils/blob.h:406-422 | success, record and cursor are those of the reading function; on failure the cursor stays |
| PackedBlob.PackedBlobReader.Eof | common/utils/blob.h:424-427 | exactly when nothing more can be read |
| PackedBlob.PackedBlobReader.ReadRest | common/utils/blob.h:397-428 | reading until the end gives the records of the reading function, and fails exactly when it does |
| BlobBuffer.Blob.constructor | common/utils/blob.cpp:82-84 | the empty blob without a buffer |
| BlobBuffer.Blob.Empty | common/utils/blob.cpp:113-117 | zero bytes with the gaps asked for |
| BlobBuffer.Blob.Copy | common/utils/blob.cpp:121-131 | a copy of the source with the gaps asked for |
| BlobBuffer.Blob.Concat | common/utils/blob.cpp:137-156 | the concatenation of the views with the gaps asked for |
| BlobBuffer.Blob.TotalSize | common/utils/blob.cpp:138-141 | the size loop sums the sizes |
| BlobBuffer.Blob.FillIn | common/utils/blob.cpp:147-153 | the copy loop lays the views one behind the other |
| BlobBuffer.Blob.GrowGap | common/utils/blob.cpp:158-200 | contents unchanged, both gaps at least as asked, exact gaps when reallocated |
| BlobBuffer.Blob.Resize | common/utils/blob.cpp:203-216 | two-ended, negative start included: every byte retained keeps its value at its new index |
| BlobBuffer.Blob.ResizeMin | common/utils/blob.h:189-194 | never shrinks; what was there is the front of what is |
| BlobBuffer.Blob.CopyFrom | common/utils/blob.h:207-215 | the source at its offset, every other byte there was unchanged, the size the larger of the two |
| BlobBuffer.Blob.AddBlobBefore | common/utils/blob.cpp:218-232 | prepends |
| BlobBuffer.Blob.AddBlobAfter | common/utils/blob.cpp:233-246 | appends |
| BlobBuffer.Blob.Sandwich | common/utils/blob.cpp:247-266 | prepends and appends at once |
| BlobBuffer.Blob.Erase | common/utils/blob.h:218-221 | changes nothing: `memset` gets its count and value exchanged |
| BlobBuffer.Blob.Clear | common/utils/blob.cpp:268-277 | back to the empty blob |
| BlobSlices.BlobSlice.constructor | common/utils/blob.h:256-264 | the fields of a slice, of a blob or of a slice |
| BlobSlices.Slice | common/utils/blob.cpp:50-52 | the view is expanded so that the slice lies inside, and is not shrunk |
| BlobSlices.Resize | common/utils/blob.h:278-284 | the slice is as long as asked for and inside at every level; the blob ends no earlier than before and keeps its bytes |
| BlobSlices.ResizeMin | common/utils/blob.h:286-290 | the same when the slice is shorter, and nothing otherwise |
| BlobSlices.CopyFrom | common/utils/blob.h:302-304 | a copy through any nesting of slices is the copy on the blob at the summed offset, and makes no slice longer |
| BlobSlices.Store | common/utils/blob.h:298-300 | writing through `getw` inside a slice changes exactly those bytes of the blob, at the summed offset |
| BlobBuffer.CompareBytes | common/utils/blob.cpp:34-44 | the loop computes the lexicographic order |
| BlobBuffer.CompareTotal | common/utils/blob.cpp:34-44 | the order is total, antisymmetric and agrees with equality |
| BlobBuffer.CompareTransitive | common/utils/blob.h:51-58 | and is transitive, as the maps keyed by blobs need |
| BlobBuffer.CodeNotEqualIff | common/utils/blob.cpp:29-32 | `operator!=` as written is right exactly when the left side is not what memory holds from the start of the right side on |
| CipherModel.PacketRoundTrip | common/crypto/cipher.cpp:140-264 | equal key, common part and counter: the packet comes back and the counters stay equal |
| CipherModel.IvsDiffer | common/crypto/cipher.cpp:145-145 | packets of one stream less than 2^64 apart use different IVs |
| CipherModel.StandaloneIvIff | common/crypto/cipher.cpp:324-345 | the IV rebuilt from the six carried bytes is the one used exactly while the counter is below 2^48 |
| CipherModel.LawfulSuiteExists | common/crypto/cipher.h:70-74 | what is assumed of the primitives is consistent |
| SessionEndpoint.PacketCipher.constructor | common/crypto/cipher.h:74-97 | no key, counter 0 |
| SessionEndpoint.PacketCipher.SetIv | common/crypto/cipher.cpp:99-106 | sets the common part, not the counter |
| SessionEndpoint.PacketCipher.SetKey | common/crypto/cipher.cpp:120-127 | sets the key, not the counter |
| SessionEndpoint.PacketCipher.Encrypt | common/crypto/cipher.cpp:140-201 | sealed under key and current IV; counter moved by one modulo 2^64 |
| SessionEndpoint.PacketCipher.Decrypt | common/crypto/cipher.cpp:203-264 | opened under key and current IV, verdict, output on a wrong tag; too short packets leave the counter |
| SessionEndpoint.KexV1.constructor | common/transport/kex_v1.cpp:7-13 | state S0_New and nothing known |
| SessionEndpoint.KexV1.Fail | common/transport/kex_v1.h:123-126 | the irrecoverable state, everything else kept |
| SessionEndpoint.KexV1.DeriveBits | common/transport/kex_v1.h:201-218 | for lengths up to 64 the loop ends with one hash; it hands out nothing for length 0 |
| SessionEndpoint.DerivationEndsIff | common/transport/kex_v1.h:204-216 | the loop reaches its exit exactly for lengths up to 64, because each pass overwrites the last |
| SessionEndpoint.KexV1.SetKeys | common/transport/kex_v1.cpp:142-152 | key and IV part derived from secret and exchange hash |
| SessionEndpoint.KexV1.InitKex | common/transport/kex_v1.cpp:235-251 | sends M1 from a new or finished exchange, fails otherwise |
| SessionEndpoint.KexV1.OnServerVersion | common/transport/kex_v1.cpp:28-66 | each check and the client hello |
| SessionEndpoint.KexV1.SayHello | common/transport/kex_v1.cpp:40-64 | fresh secrets and the client hello |
| SessionEndpoint.KexV1.OnServerHello | common/transport/kex_v1.cpp:70-130 | each check in order, and what is kept when one fails |
| SessionEndpoint.KexV1.OnServerNonce | common/transport/kex_v1.cpp:81-88 | the nonce and the exchange hash |
| SessionEndpoint.KexV1.OnServerIdentity | common/transport/kex_v1.cpp:90-129 | long-term key, trust, signature, end of packet |
| SessionEndpoint.KexV1.OnServerNewKeys | common/transport/kex_v1.cpp:133-219 | both switches and the identity, sealed |
| SessionEndpoint.KexV1.Switch | common/transport/kex_v1.cpp:142-182 | inbound switched, new-keys message in clear, outbound switched |
| SessionEndpoint.KexV1.OnClientVersion | common/transport/kex_v1.cpp:273-292 | each check and M2 |
| SessionEndpoint.KexV1.OnClientHello | common/transport/kex_v1.cpp:295-389 | each check and the answer |
| SessionEndpoint.KexV1.OnClientKey | common/transport/kex_v1.cpp:308-313 | the ephemeral key and the shared secret |
| SessionEndpoint.KexV1.OnClientNonce | common/transport/kex_v1.cpp:315-325 | the nonce, the exchange hash, the end of the packet |
| SessionEndpoint.KexV1.Answer | common/transport/kex_v1.cpp:327-388 | server hello and new keys in clear, then outbound switched |
| SessionEndpoint.KexV1.OnClientNewKeys | common/transport/kex_v1.cpp:392-416 | inbound switched |
| SessionEndpoint.KexV1.OnClientIdentity | common/transport/kex_v1.cpp:419-469 | long-term key, trust, end of packet, proof |
| SessionEndpoint.KexV1.RecvClient | common/transport/kex_v1.cpp:16-233 | which state takes which packet, and failure for every other |
| SessionEndpoint.KexV1.RecvServer | common/transport/kex_v1.cpp:263-481 | which state takes which packet, and failure for every other |
| SessionEndpoint.KexV1.Recv | common/transport/kex_v1.cpp:16-481 | the side decides |
| SessionEndpoint.OptSession.constructor | common/transport/opt_session.cpp:129-144 | no encryption, nothing opened |
| SessionEndpoint.OptSession.SendInternal | common/transport/opt_session.cpp:106-124 | type byte, sealed exactly while the outbound flag is on |
| SessionEndpoint.OptSession.Send | common/transport/opt_session.cpp:157-159 | a DATA packet |
| SessionEndpoint.OptSession.OnOpen | common/transport/opt_session.cpp:6-9 | the client starts the exchange, the server waits |
| SessionEndpoint.OptSession.OpenPacket | common/transport/opt_session.cpp:11-21 | opened exactly while the inbound flag is on |
| SessionEndpoint.OptSession.Dispatch | common/transport/opt_session.cpp:24-77 | data before the first exchange closes; the first finished exchange opens; errors and other types close |
| SessionEndpoint.OptSession.OnPacket | common/transport/opt_session.cpp:11-78 | both together |
| SessionVerdicts.VersionAcceptedIff | common/transport/kex_v1.cpp:28-36 | a version packet is accepted exactly if it has its type, five bytes and major version 1 |
| SessionVerdicts.NewKeysAcceptedIff | common/transport/kex_v1.cpp:133-141 | a new-keys packet is accepted exactly if it is its type byte and nothing else |
| SessionVerdicts.ServerHelloAcceptedIff | common/transport/kex_v1.cpp:70-130 | a server hello is accepted exactly if it is the packed form of four records with valid keys, a trusted long-term key, and its signature on the hash of secret, both ephemeral keys and both nonces |
| SessionVerdicts.ClientHelloAcceptedIff | common/transport/kex_v1.cpp:295-325 | a client hello is accepted exactly if it is the packed form of a valid key and a nonce |
| SessionVerdicts.ClientIdentityAcceptedIff | common/transport/kex_v1.cpp:419-469 | an identity is accepted exactly if it is the packed form of a valid, trusted key and its signature on the hash of exchange hash, both versions and the key |
| SessionVerdicts.ClientTakesOnly | common/transport/kex_v1.cpp:16-233 | which packet in which state the client goes on with |
| SessionVerdicts.ServerTakesOnly | common/transport/kex_v1.cpp:263-481 | which packet in which state the server goes on with |
| SessionVerdicts.RefusalEnds | common/transport/kex_v1.cpp:16-481 | any other sends nothing, switches nothing, delivers nothing and leaves the error state |
| SessionVerdicts.ReasonsForFixed | common/transport/kex_v1.cpp:28-36 | the reason given for versions and new keys |
| SessionVerdicts.ReasonsForRecords | common/transport/kex_v1.cpp:70-80 | the reason given for the type and the first record of a hello or identity |
| SessionVerdicts.ReasonsForIdentity | common/transport/kex_v1.cpp:90-129 | the reason given for long-term key, trust, signature and end |
| SessionTranscript.HashCovers | common/transport/kex_v1.h:138-171 | in every run, as soon as a side has the exchange hash, it is the hash of the shared secret, both ephemeral keys and both nonces, written out |
| SessionTranscript.HashInputsDiffer | common/transport/kex_v1.h:138-171 | exchanges that differ in any of the five hash different bytes |
| SessionTranscript.ProofInputsDiffer | common/transport/kex_v1.h:173-193 | and so for the four the client signs |
| SessionTranscript.KeysAre | common/transport/kex_v1.h:195-218 | in every run the keys and IV parts of both directions at both ends are the hashes of secret, pass 0, their letters and exchange hash |
| SessionTranscript.LettersDiffer | common/transport/kex_v1.h:195-218 | different letters give different hash inputs |
| SessionTranscript.Transcript | common/transport/opt_session.cpp:106-124 | every packet of every run in bytes: versions, hellos, new keys, the sealed identity, sealed data under consecutive numbers |
| SessionSteps.ClientReadsHello | common/transport/kex_v1.cpp:70-130 | an honest client that trusts the server key goes on, one that does not fails there |
| SessionSteps.ClientReadsNewKeys | common/transport/kex_v1.cpp:133-219 | new keys: three packets later in one step the client is done and has sealed its identity under counter 0 |
| SessionSteps.ServerReadsHello | common/transport/kex_v1.cpp:295-389 | the server has the same secret and hash as the client |
| SessionSteps.ServerReadsIdentity | common/transport/kex_v1.cpp:419-469 | the server opens the identity with the derived cipher and accepts it exactly if it trusts the key |
| SessionTheorems.StepKeepsInv | common/transport/opt_session.cpp:11-124 | every step of the pair leads from one written-out pair of states to the next |
| SessionTheorems.RunKeepsInv | common/transport/opt_session.cpp:11-124 | so does every run |
| SessionTheorems.Lockstep | common/transport/opt_session.cpp:11-21 | every packet read so far was read with the flag, key, IV part and counter it was sent with |
| SessionTheorems.HeadInLockstep | common/transport/opt_session.cpp:106-124 | and the packet at the head of each channel carries exactly what its receiver is about to use |
| SessionTheorems.CountersConserved | common/crypto/cipher.cpp:140-264 | the sender counter is the receiver counter plus the sealed packets in flight, modulo 2^64 (the counter discipline of section 7.1 of RFC 5647) |
| SessionTheorems.NoncesNeverReused | common/crypto/cipher.cpp:145-198 | no two sealed packets of a direction less than 2^64 apart share key and counter |
| SessionTheorems.FailsIffDistrusts | common/transport/kex_v1.cpp:16-481 | a side fails and closes exactly when it has read a long-term key it does not trust; no packet is ever empty |
| SessionTheorems.SecretsAgreeAtBothEnds | common/transport/kex_v1.h:138-193 | K, H, M1 and M2 are equal as soon as both sides have them |
| SessionTheorems.ServerDoneMeansClientDone | common/transport/kex_v1.cpp:453-469 | a finished server has a finished client; each holds the other key; the proof checked is the proof signed |
| SessionTheorems.OpensOnce | common/transport/opt_session.cpp:46-52 | each side opens once, exactly when its exchange is done |
| SessionTheorems.DeliveredPrefixes | common/transport/opt_session.cpp:28-37 | delivered data is a prefix of sent data, both ways |
| SessionTheorems.DataIsDelivered | common/transport/opt_session.cpp:30-38 | data at the head of a channel is delivered and never turned away, at a receiver that accepts the sender |
| SessionTheorems.QuietMeansOpenAndDelivered | common/transport/opt_session.cpp:28-63 | a started pair that trust each other and have read everything are open with everything delivered |
| SessionExchange.DeliverToA | common/transport/opt_session.cpp:11-78 | the client object reading a packet is that step of the pair |
| SessionExchange.DeliverToB | common/transport/opt_session.cpp:11-78 | so is the server object reading one |
| SessionExchange.Pump | common/transport/opt_session.cpp:11-124 | two session objects fed each other's packets, in any order and with all they send meanwhile, come to rest; each packet was read with the protection it was sent with |
| SessionExchange.OpenIffTrusted | common/transport/opt_session.cpp:46-63 | at rest a started pair is open at both ends exactly if each trusts the other |
| SessionExchange.Converse | common/transport/opt_session.cpp:6-159 | two session objects from creation on: both open exactly if each trusts the other, and then each hands out exactly what the other sent |
| SessionTheorems.RekeyAlwaysFails | common/transport/kex_v1.cpp:237-251 | the code cannot rekey: the restarted exchange always closes a finished server that reads it |
| PipesModel.IdsMeetIff | common/transport/opt_pipes.cpp:335-339 | ids of one endpoint repeat exactly every 2^31 pipes, ids of the two never meet |
| PipesModel.PhaseMeans | common/transport/opt_pipes.cpp:174-270 | what a well-phased callback history means: no packet before the open, nothing after the own close, counts |
| PipesPair.ApplyKeepsOk | common/transport/opt_pipes.cpp:38-150 | everything a user or the expiry timer does keeps state, registration and history consistent |
| PipesPair.HearsKeepsOk | common/transport/opt_pipes.cpp:204-262 | so does every packet, and only data on an open pipe reaches the user |
| PipesPair.OUses | common/transport/opt_pipes.cpp:38-150 | the invariant of both ends under anything the initiator does |
| PipesPair.PUses | common/transport/opt_pipes.cpp:38-150 | under anything the acceptor does |
| PipesPair.OHears | common/transport/opt_pipes.cpp:204-262 | under the initiator reading its next packet |
| PipesPair.PHears | common/transport/opt_pipes.cpp:181-262 | under the acceptor reading its next packet |
| PipesPair.CloseIsLast | common/transport/opt_pipes.cpp:225-245 | a close that arrives is the last packet of its initiator |
| PipesNet.ActKeepsInv | common/transport/opt_pipes.cpp:5-372 | every step of an endpoint keeps the invariant of every id |
| PipesNet.StepKeepsInv | common/transport/opt_pipes.cpp:5-372 | of either endpoint |
| PipesNet.RunKeepsInv | common/transport/opt_pipes.cpp:5-372 | so does every run |
| PipesTheorems.DeliveredPrefixes | common/transport/opt_pipes.cpp:85-97 | per pipe and direction, what was given to the user is a prefix of what was sent, under any closing and dropping |
| PipesTheorems.OpenMeansAccepted | common/transport/opt_pipes.cpp:174-223 | an open initiator has an acceptor open or closed; while it is open nothing is missing on the way to it |
| PipesTheorems.ResponseAhead | common/transport/opt_pipes.cpp:45-55 | while the initiator waits, the response of an acceptor that opened is ahead of all its data |
| PipesRequests.ContentIsWhatWasAsked | common/transport/opt_pipes.cpp:59-82 | in every run an accepting user is handed exactly what the first `start_client` of that pipe was given at the other end, or nothing after a `start` |
| PipesRequests.GivenIsPrefixOfSent | common/transport/opt_pipes.cpp:85-97 | what a user was given is a prefix of what the other user sent, by the list of steps |
| PipesTheorems.QuietMeansSettled | common/transport/opt_pipes.cpp:5-245 | with both channels empty every id is unstarted, pending at both ends, open at both with all data delivered, gone at both with every end its own user did not close given all data, or waiting for an acceptor that dropped it |
| PipesTheorems.CallbacksInOrder | common/transport/opt_pipes.cpp:125-262 | no packet callback before the open; open at most once; nothing after the own close callback, which fired exactly once if closed; the close callback of the transport exactly once if the pipe was registered then, and nothing of the other end after it |
| PipesTheorems.OneCloseIff | common/transport/opt_pipes.cpp:125-141 | the user hears of at most one close exactly unless the pipe was registered when the transport closed and is closed now |
| PipesTheorems.ClosesTwice | common/transport/opt_pipes.cpp:5-11 | a run of one open, one request, the transport closing and the expiry timer: both close callbacks fire, and no user did anything in between |
| PipesExchange.DeliverToA | common/transport/opt_pipes.cpp:174-262 | an endpoint object reading a packet is that step of the pair, and sends and closes nothing |
| PipesExchange.DeliverToB | common/transport/opt_pipes.cpp:174-262 | at either end |
| PipesExchange.Drain | common/transport/opt_pipes.cpp:174-262 | two endpoint objects fed each other's packets in any order come to rest, with every pipe object kept |
| PipesExchange.StillOpen | common/transport/opt_pipes.cpp:174-262 | at rest a pipe neither user closed is still open and both ends have everything |
| PipesExchange.LastWords | common/transport/opt_pipes.cpp:125-141 | at rest after a send and a close at once, the other end is closed and has everything |
| PipesExchange.Exchange | common/transport/opt_pipes.cpp:38-372 | two endpoint objects from creation on, over one pipe: request, accept, one side sends, the other answers and closes at once, and each hands out exactly what the other sent |
| PipesTheorems.RunOnlyAdvances | common/transport/opt_pipes.cpp:125-262 | along every run no pipe disappears, no state moves back, no history is rewritten |
| PipesTheorems.NextIdIsNew | common/transport/opt_pipes.cpp:357-372 | below 2^31 pipes an endpoint never gives out an id in use at either end |
| PipesEndpoint.OptPipe.constructor | common/transport/opt_pipes.cpp:13-18 | a fresh pipe |
| PipesEndpoint.OptPipe.Erase | common/transport/opt_pipes.cpp:27-36 | only the registration goes |
| PipesEndpoint.OptPipe.Start | common/transport/opt_pipes.cpp:38-56 | request or response, once |
| PipesEndpoint.OptPipe.StartClient | common/transport/opt_pipes.cpp:59-82 | request with data, from a fresh pipe only |
| PipesEndpoint.OptPipe.Send | common/transport/opt_pipes.cpp:85-97 | one data packet |
| PipesEndpoint.OptPipe.Close | common/transport/opt_pipes.cpp:125-141 | unregistered; the first time also closed, told and called back |
| PipesEndpoint.OptPipe.Drop | common/transport/opt_pipes.cpp:143-150 | closes what is open or requested, otherwise only unregisters |
| PipesEndpoint.OptPipe.OnOpenExpired | common/transport/opt_pipes.cpp:5-11 | closes only while still requested |
| PipesEndpoint.OptPipes.constructor | common/transport/opt_pipes.cpp:335-339 | no pipes, id parity by side |
| PipesEndpoint.OptPipes.OpenPipe | common/transport/opt_pipes.cpp:357-372 | a new pipe under the next id, registered unless that id still is |
| PipesEndpoint.OptPipes.OnPacket | common/transport/opt_pipes.cpp:174-270 | the whole new state after each of the four pipe packets |
| PipesEndpoint.OptPipes.OnRequest | common/transport/opt_pipes.cpp:181-203 | a new pipe exactly for a foreign id not registered |
| PipesEndpoint.OptPipes.OnResponse | common/transport/opt_pipes.cpp:205-223 | opens exactly a requested own pipe |
| PipesEndpoint.OptPipes.OnPipeClose | common/transport/opt_pipes.cpp:225-245 | unregisters, closes and calls back once |
| PipesEndpoint.OptPipes.OnData | common/transport/opt_pipes.cpp:247-262 | reaches the user exactly on an open pipe |
| PipesEndpoint.OptPipes.OnClose | common/transport/opt_pipes.cpp:321-333 | the loop calls back every registered pipe once and changes no state |
| CallbackSteps.StepOwned | common/utils/callbacks.h:164-254 | every atomic step of every operation keeps one holder for every callback |
| CallbackSteps.CheckbackOwned | common/utils/callbacks.h:193-200 | a checkback that finds the mark puts the callback back, one that does not disposes of it |
| CallbackSteps.TransferOwned | common/utils/callbacks.h:172-175 | replacing takes the old one in hand for disposal |
| CallbackSteps.StepLogOk | common/utils/callbacks.h:164-170 | nothing is logged about a deleted callback |
| CallbackSteps.StepOutsPending | common/utils/callbacks.h:185-200 | an object checked out has a call that will check back |
| CallbackTheorems.RunKeepsInv | common/utils/callbacks.h:154-267 | every run keeps the invariant |
| CallbackTheorems.ExactlyOneHolder | common/utils/callbacks.h:164-254 | over all interleavings each callback handed over is in exactly one slot, one operation, or deleted |
| CallbackTheorems.NeverUsedAfterDelete | common/utils/callbacks.h:164-170 | after deletion a callback is not begun, not still running, not deleted again |
| CallbackTheorems.NothingLeaks | common/utils/callbacks.h:265-267 | with all objects gone and no operation under way every callback has been deleted |
| CallbackTheorems.CheckedOutIsPending | common/utils/callbacks.h:185-200 | no object stays checked out without a call that will check back |
| CallbackTheorems.LatestWins | common/utils/callbacks.h:214-224 | if no object is called during a call on it, an idle object holds what it was last given |
| CallbackTheorems.CallKeepsIff | common/utils/callbacks.h:248-254 | a call nothing interleaves with leaves every slot as it was exactly if it was not made during another call on that object |
| CallbackTheorems.NestedCallLoses | common/utils/callbacks.h:248-254 | a run in which a nested call loses a callback nobody replaced |
| CallbackTheorems.OldOneReturns | common/utils/callbacks.h:193-200 | a run in which a replaced callback comes back and the replacement is deleted |
| CallbackOutcome.LatestSurvivesIff | common/utils/callbacks.h:185-200 | while an object is checked out, every way for the calls under way to end leaves what it was last given exactly if every one of them carries just that |
| CallbackOutcome.NotOutIsKept | common/utils/callbacks.h:185-200 | while it is not, every such way leaves what is there |
| CallbackOutcome.FirstToEndStays | common/utils/callbacks.h:193-200 | any of the calls under way can be the first to end, and then what it carries stays |
| CallbackRuns.OperationsAre | common/utils/callbacks.h:172-254 | what each operation does to slots, pending operations and log |
| CallbackRuns.ObjectsAre | common/utils/callbacks.h:204-267 | a new object is null or holds what it is made with, a destroyed one leaves what it held to be deleted |
| CallbackRuns.CallsGoOn | common/utils/callbacks.h:239-254 | a callback that returns is logged as ended and goes back or is deleted |
| CallbackRuns.CheckbackIs | common/utils/callbacks.h:193-200 | where the callback of a call that ends goes |
| CallbackRuns.TransferIs | common/utils/callbacks.h:229-231 | what is moved is put in, what was there is taken for deletion |
| CallbackRuns.CalledAndClearedRunsOnce | common/utils/callbacks.h:239-245 | a callback taken out by `call_and_clear` is begun, ended and deleted, once each and in that order, whatever comes in between |
| CallbackCell.EachDeletedOnce | common/utils/callbacks.h:164-254 | whatever callbacks do with the object they are run from, to any depth, each callback handed over is deleted once or is the one held |
| CallbackCell.CallbackKeptIff | common/utils/callbacks.h:248-254 | a call leaves the object as it was exactly if the callback does nothing with it; otherwise the callback is deleted and what its body left stays |
| CallbackCell.CallAndClearRuns | common/utils/callbacks.h:239-245 | the callback runs from null, its body after it; what the body leaves stays; the callback is deleted last |
| CallbackCell.CallRuns | common/utils/callbacks.h:248-254 | the callback runs with the mark in its place, its body after it |
| CallbackCell.PlainOps | common/utils/callbacks.h:220-236 | assigning and clearing delete what is there; a call without a callback leaves null |
| CallbackCell.ReplacesItself | common/utils/callbacks.h:220-224 | a callback that assigns last is replaced by what it assigned and deleted |
| CallbackCell.CallbackCell.constructor | common/utils/callbacks.h:204-206 | null |
| CallbackCell.CallbackCell.Replace | common/utils/callbacks.h:172-175 | the new one in, the old one deleted |
| CallbackCell.CallbackCell.Do | common/utils/callbacks.h:220-254 | each public operation |
| CallbackCell.CallbackCell.DoAll | common/utils/callbacks.h:220-254 | a callback body, one operation after the other |
| CallbackCell.CallbackCell.CallIt | common/utils/callbacks.h:248-254 | checkout, the body, checkback, at any depth of nesting |
| CallbackCell.CallbackCell.CallItAndClear | common/utils/callbacks.h:239-245 | extract, the body, disposal |
| CallbackCell.CallbackCell.MoveFrom | common/utils/callbacks.h:229-231 | taken from the other object, the old one deleted |
| EmitterTheorems.StepKeepsInv | common/utils/event.h:126-188 | every step of the loop and of other threads keeps the invariant |
| EmitterTheorems.RunKeepsInv | common/utils/event.h:126-188 | so does every run |
| EmitterTheorems.FiresOnceAndNotEarly | common/utils/event.h:159-166 | no timer fires before its expiry or more than once |
| EmitterTheorems.NoneLost | common/utils/event.h:133-174 | a timer nobody cancelled is in the addition list, the active list, or fired |
| EmitterTheorems.CancelledStaysQuiet | common/utils/event.h:241-257 | a cancelled timer never fires in a later pass than the one it was cancelled in |
| EmitterTheorems.PassFiresWhatIsDue | common/utils/event.h:157-175 | a pass fires everything that was due when it began, apart from what was cancelled or added during it |
| EmitterTheorems.NeverOversleeps | common/utils/event.h:177-182 | asleep without an interrupt pending, nothing waits to be added and the wake-up is the earliest expiry |
| EmitterRuns.CancelledNeverFiresLater | common/utils/event.h:241-257 | after a cancel, in any run, every firing of that timer was in a turn begun by then |
| EmitterRuns.CancelledBeforeAddedNeverFires | common/utils/event.h:241-257 | a timer cancelled before the loop took it in never fires |
| EmitterRuns.AddedFiresWhenDue | common/utils/event.h:133-175 | a timer added and never cancelled is listed until it has fired, and has by the end of a turn that found it due |
| EmitterRuns.UpdateIs | common/utils/event.h:133-154 | what a turn starts with |
| EmitterRuns.LookIs | common/utils/event.h:157-175 | one timer looked at |
| EmitterRuns.OtherStepsAre | common/utils/event.h:126-233 | adding, interrupting, stopping, checking, deciding and waking, field by field |
| EmitterRuns.StopStops | common/utils/event.h:260-266 | after `stop` at most the turn already decided on is begun, and the next check ends the loop |
| EmitterTheorems.LoopNeverStuck | common/utils/event.h:126-188 | whatever other threads did, the loop stays within its lists and can go on unless it was stopped |
| EmitterTheorems.PassEnds | common/utils/event.h:156-175 | a pass ends: left alone, after at most two steps per timer |
| EmitterLoop.OneMore | common/utils/event.h:159-164 | a timer looked at is fired exactly if its expiry is not after the time read, and stays in the list otherwise |
| EmitterLoop.KeptOrDue | common/utils/event.h:159-174 | every timer looked at is fired or kept, never both, never lost |
| EmitterLoop.EventEmitter.constructor | common/utils/event.h:194-196 | no timers |
| EmitterLoop.EventEmitter.AddTimer | common/utils/event.h:220-233 | appended to the additions |
| EmitterLoop.EventEmitter.CancelTimer | common/utils/event.h:241-257 | marked when active, taken out when not yet added, ignored when gone |
| EmitterLoop.EventEmitter.UpdateTimers | common/utils/event.h:133-154 | additions spliced in at the end, deletions carried out, both lists emptied |
| EmitterLoop.EventEmitter.RunExpired | common/utils/event.h:156-175 | exactly the timers due when looked at are fired, in order; the rest stay in order; the earliest of them is found |
| C2Registry.LatestLoginStays | common/endpoint/c2_server.cpp:86-182 | in every run a fingerprint leads to the endpoint that logged in with it last, by the list of steps, and to nothing exactly if that one has closed |
| C2Registry.OthersAskedToClose | common/endpoint/c2_server.cpp:101-111 | every endpoint that logged in, has not closed, and is the last to have logged in with no fingerprint has been asked to close |
| C2Registry.AnonymousAskedToClose | common/endpoint/c2_server.cpp:89-93 | so has every anonymous peer |
| C2Registry.OnlyOthersAskedToClose | common/endpoint/c2_server.cpp:101-111 | and nobody else |
| C2Registry.ConnectionsAreOpen | common/endpoint/c2_server.cpp:171-196 | the connections are the endpoints started and not closed |
| C2Registry.RunKeepsInv | common/endpoint/c2_server.h:25-28 | entries and back pointers match in every run |
| C2Registry.C2Server.constructor | common/endpoint/c2_server.h:25-28 | no connections, no logins |
| C2Registry.C2ServerEndpoint.constructor | common/endpoint/c2_server.cpp:184-190 | not logged in |
| C2Registry.C2ServerEndpoint.Start | common/endpoint/c2_server.cpp:192-196 | registered as a connection |
| C2Registry.C2ServerEndpoint.OnOpen | common/endpoint/c2_server.cpp:86-115 | the fingerprint leads here; the endpoint it led to loses its back pointer and is asked to close, as is an anonymous peer; all others are as they were |
| C2Registry.C2ServerEndpoint.OnClose | common/endpoint/c2_server.cpp:171-182 | only its own entry and connection go |
| C2Registry.EjectThenClose | common/endpoint/c2_server.cpp:101-111 | an ejected endpoint is asked to close, and closing late leaves the newer login in place |

## Left out

- Socket providers, name resolution, threads, console output, the mains: operating system plumbing. What a lock covers is one step.
- OpenSSL, PEM handling, random bytes: functions with the laws in `CipherModel.Lawful`.
- Raw traffic in OPTSession: after encryption starts it sends an empty packet (common/transport/opt_session.cpp:167-173), so nothing comes back. The IV discipline of the standalone cipher pair is in `CipherModel.StandaloneIvIff`.
- Pipe-level SELF_DATA and raw pipe packets: written with one header size and read with another (common/transport/opt_pipes.h:195-200, common/transport/opt_pipes.cpp:176).
- `skip_from_reassamble_list`: unused, and its progress never advances (common/transport/opt_tcp.h:59-98).
- The ping timer, the floating-point averages, `clamped_add` and `clamped_sub`, the MTU getters.
- Config and identity files, the punchers, router, NAT and client endpoints.
- Rekeying beyond `RekeyAlwaysFails`, and the version minimum the comments speak of, which the code does not compute.
- Pointer lifetimes: weak pointers appear as `registered`, `owned` and list membership. A `cancel_timer` that still holds its pointer while the loop deletes the timer is not modelled; the call is one step.
- UdpTheorems.DeliveredIsPrefix: only for copies that arrive within 2^25 fragments of the receiver, because the code cannot tell others apart (`UdpModel.AdvanceSign`).
- UdpEndpoint.OptUdp.Send: with nothing else running; concurrent sends are the `Reserve` and `Emit` steps of `UdpNetwork`.
- BlobBuffer.Blob.CopyFrom: the source is a value, so a source that views the same blob is not covered; bytes the blob grows by are unspecified.
- EmitterLoop.EventEmitter.RunExpired: with no interference; additions and cancels during a pass are in `EmitterModel`.
- CallbackCell.CallbackCell.CallIt: with no other thread in between; those are in `CallbackModel`. The body of a callback is a list of operations on its own object and cannot contain itself.
- PackedBlob.PackedBlobWriter.constructor: the destination is a blob; one that is itself a slice is not modelled.
- SessionExchange.Converse: the peers are honest and the transport ordered and lossless, as in all of the session layer.
- PipesEndpoint.OptPipes.OpenPipe: a pipe opened under an id that is still registered, which takes 2^31 pipes, is handed out as a new pipe, but what its user then does with it is not modelled.
- UdpExchange.Transfer: one side sends and each send runs alone; a choice the assumptions on the network exclude does nothing.
