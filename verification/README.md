# BadVPN's flow and protocol layer, verified

This project models the event handlers between BadVPN's sockets and its tunnel device, where
packets are cut, queued, attached, routed, encoded and decoded, and proves what they keep and what
they do over whole runs. It is written in Dafny 4.11; `dafny verify dfyconfig.toml` checks all of it.

Each component comes as a pure model, with a state as a value, the events and a step function, and
lemmas about all steps and all runs, and as a class with the fields of the C structure, whose
methods are the handlers. Every method's contract ties the new fields to the step of the model, so
what is proved of the model holds of the handlers. Where a handler is stated by a function of the
model, that function in turn is characterised by the lemmas listed with it.

## What is modelled

**Fragmentation** (`FragmentProto`, `DisassemblerModel`, `FragmentProtoDisassembler`,
`AssemblerModel`, `AssemblerFrames`, `FragmentProtoAssembler`, `FragmentRoundTrip`,
`FragmentLeftovers`, `FragmentCancel`, `FragmentCancelRuns`, `FragmentReordering`). Packets are cut
into chunks that are packed into carrier packets, and put together again in a pool of frame slots.
The assembler's entries are an array, its lists hold indices into it, and its clock has 32 bits.
Proved: the invariant of pool and clock for any bytes received; that a frame sent consists of
exactly the bytes of its accepted chunks; the round trip for all payloads, MTUs and interleavings,
over the wrap of the 16-bit frame id; what exactly is delivered when packets are cancelled half
written; and that frames whose chunks arrive in any order and mixed with those of other frames are
delivered once each, as long as there are slots for all of them and none is kept waiting too long.

**Fair queue on the job stack** (`BPending`, `PacketPassModel`, `PacketPassInterface`,
`FairQueueModel`, `FairQueueTheorems`, `FairQueueIdle`, `PacketPassFairQueue`, `FairQueueJobs`).
Virtual-time scheduling with 64-bit times that are shifted in place when one overflows, driven by a
LIFO list of jobs. Proved: when exactly a queue with bounded times stays in step with one that has
unbounded times; fairness and freedom from starvation; one done for each send, also with cancel;
and, for queue, interfaces and jobs together, that a source which sends again in its done handler is
in the queue when the next decision is taken.

**Flow attachment** (`DataProto`, `DataProtoUp`). A flow's buffer moves between sinks while one of
its packets may be in flight, so that detaching, attaching again and freeing are deferred. Proved
over all runs: where a buffer can be, when and how a deferred detach ends, and that every buffer
made is freed once. The busy flow of a sink's queue is a field here; the fair queue itself is above.

**Relays** (`PeerRelays`). Links, relays, waiting peers and the sink each peer's flow is attached
to, kept in three kinds of lists and several flags. Proved: lists, flags and attachments agree
after every step, nobody waits while there is a relay, and where the users of a relay go when it
goes down.

**Frame decider** (`MacIndexModel`, `FrameDeciderMacs`, `MulticastModel`, `FrameDeciderGroups`,
`FrameDeciderDecide`, `FrameDeciderHistory`). The learned MAC addresses and the multicast groups with
one master entry for each 23-bit signature. Proved: both indices are exactly what the peers' own tables say; a MAC
belongs to the peer it was last seen from, and the one lost to make room is the one seen longest
ago; a multicast frame reaches exactly the peers with a group of its signature; and when exactly a
unicast frame goes to one peer, and to which, told from the history of frames and peers alone.

**Codecs** (`PacketProtoModel`, `PacketProto`, `SPProtoModel`, `SPProto`, `BProtoModel`, `BProto`).
Stream framing by a length prefix, the encrypted, hashed and padded packets of SPProto, and the
messages of the bproto generator for any schema. Proved: the stream decoder gives back the packets
that were encoded under any division of the stream; of SPProto packets and bproto messages exactly
those are accepted that the encoder makes, and decoding gives back what was encoded; looking only
into the window recorded for a bproto field loses none of its values. The classes of `BProto` are
one for all schemas, with a field's name replaced by its place in the schema.

**DHCP client** (`DHCPMessages`, `DHCPClientModel`, `DHCPClientCore`). The walk over the options of a
message and a state machine with five timers. Proved: which timers run in which state, alternating
reports, a fixed configuration while up, and that the lease is kept, for runs in which timers fire
when they are due.

`Bytes`, `Lists` and `Counting` hold what the others share: little-endian numbers, sequences without
duplicates, sizes of sets and division.

## What the proofs found

- Cancelling a packet of which the disassembler has written a part keeps its frame id, and so what
  had arrived of it is met by the next packet. If it is the only one cancelled so, exactly the next
  packet is lost (`CutCancelLosesNext`, `OneCutLoses`). In general a packet is lost if and only if it
  is written to its end over chunks left over under its frame id, and everything else is delivered
  (`DeliveredExactly`); cancelling two in a row can leave nothing over, and then nothing is lost
  (`TwoCutsLoseNone`). Cancelling a packet that is not begun is harmless (`RoundTrip`).
- The fair queue stays in step with one that has unbounded times if and only if no flow sends to it
  while it is idle whose time is off (`InStepExactly`): the flow had less time than was subtracted
  when a time overflowed, or it was made after such a subtraction and so began at 0 all the same
  (`NewFlowIsOff`), and it has not sent while the queue was busy since. Which flows these are can be
  told from the queue itself, and a flow with any time left is none of them (`TimeLeftIsEnough`).
  With a packet weight and MTU that the program can have, 2^48 packets with an idle moment among the
  last of them make the orders differ (`IdleForgetsTheTime`).
- The DHCP client counts the lease from the acknowledgement (`LeaseIsKept`), where section 4.4.5 of
  RFC 2131 counts it from the request, and so can be up after the lease is over for the server
  (`LeaseOutlastsRequest`).
- In `DataProtoFlow_Attach` and `DataProtoFlow_Free` the branch for a buffer that is in a sink
  without being busy there is never taken: when no sink is desired, a buffer is in a sink only while
  its detach waits for a packet.
- A peer with two groups of the same 23-bit signature gets a multicast frame twice (`SameFrameTwice`;
  `MulticastIsExact` counts).
- A bproto message cannot have a `data` and a `constdata` field with the same id, although their
  types differ: both would be the same case of one switch in the generated code.

## Model

| member | source | states |
|---|---|---|
| `FragmentRoundTrip.ParseEncoded` | app/src/main/jni/badvpn/client/FragmentProtoAssembler.c:291-318 | An encoded chunk in front of anything is read back with all its fields, and what follows it is what is read next |
| `FragmentProto.EncodePacketAppend` | app/src/main/jni/badvpn/client/FragmentProtoDisassembler.c:48-70 | Writing more chunks behind others gives the packet of all of them: a packet is the concatenation of its chunks wherever writing stopped |
| `AssemblerModel.OldestIsEvicted` | app/src/main/jni/badvpn/client/FragmentProtoAssembler.c:57-103 | Only the frame allocated longest ago is evicted, whichever frames have got chunks since, and only if no slot is free; the others stay in their order and the new frame goes behind them |
| `AssemblerModel.Splice` | app/src/main/jni/badvpn/client/FragmentProtoAssembler.c:253-254 | Copying a chunk in changes exactly the bytes it covers |
| `AssemblerModel.CoverOfSize` | app/src/main/jni/badvpn/client/FragmentProtoAssembler.c:239-240 | The sum of disjoint chunks is the number of positions they cover |
| `AssemblerModel.Pigeonhole` | app/src/main/jni/badvpn/client/FragmentProtoAssembler.c:256-268 | Disjoint chunks inside [0, length) never sum to more than length, and if they sum to it every byte of the frame is covered |
| `AssemblerModel.CoveredOnce` | app/src/main/jni/badvpn/client/FragmentProtoAssembler.c:197-206 | A byte of a frame is covered by one accepted chunk at most |
| `AssemblerModel.AddPieceOk` | app/src/main/jni/badvpn/client/FragmentProtoAssembler.c:197-254 | A chunk that passes the overlap and length checks keeps the chunks of the frame disjoint and within its known bound; when the last chunk is there the sum is not above the length |
| `AssemblerModel.CompleteFrame` | app/src/main/jni/badvpn/client/FragmentProtoAssembler.c:256-268 | sum == length only when every byte comes from exactly one accepted chunk |
| `AssemblerModel.LocateInv` | app/src/main/jni/badvpn/client/FragmentProtoAssembler.c:179-195 | The frame a chunk goes to holds the chunks accepted so far for its id, none when it is new, was timed out or was evicted |
| `AssemblerModel.DroppedInv` | app/src/main/jni/badvpn/client/FragmentProtoAssembler.c:46-55 | Giving up any frame keeps every other frame, the ids and the count of slots right |
| `AssemblerModel.ProcessChunkCorrect` | app/src/main/jni/badvpn/client/FragmentProtoAssembler.c:154-283 | Every chunk keeps the invariant of all frames, and a frame sent is made, byte for byte, of the accepted chunks of that frame with this one, each byte from exactly one: nothing of an earlier use of the slot is left |
| `AssemblerModel.FreshIsSublist` | app/src/main/jni/badvpn/client/FragmentProtoAssembler.c:119-134 | The first pass keeps exactly the frames not timed out, and frees the others |
| `AssemblerModel.YoungestAge` | app/src/main/jni/badvpn/client/FragmentProtoAssembler.c:110-115 | A frame not timed out is at most num_frames packets old |
| `AssemblerModel.ReduceTimesCorrect` | app/src/main/jni/badvpn/client/FragmentProtoAssembler.c:117-152 | Renormalising drops the timed-out frames and no other, keeps order, content and age of every survivor, and leaves the clock at num_frames at most |
| `AssemblerModel.TickCorrect` | app/src/main/jni/badvpn/client/FragmentProtoAssembler.c:326-339 | The 32-bit packet clock never wraps: at its maximum renormalisation brings it down to num_frames + 1 at most |
| `AssemblerModel.ScanInv` | app/src/main/jni/badvpn/client/FragmentProtoAssembler.c:285-346 | Any bytes as a packet, well formed or not, keep the invariant of the pool |
| `AssemblerModel.ReceivePacket` | app/src/main/jni/badvpn/client/FragmentProtoAssembler.c:285-368 | A whole packet with the output taking each frame keeps the invariant |
| `AssemblerModel.Receive` | app/src/main/jni/badvpn/client/FragmentProtoAssembler.c:348-368 | In every run of packets, whatever they contain, the invariant of pool and clock holds: slots partition, ids distinct, frames in progress incomplete, times not past the clock |
| `AssemblerModel.InitialInv` | app/src/main/jni/badvpn/client/FragmentProtoAssembler.c:372-426 | The pool after initialisation satisfies the invariant |
| `FragmentProtoAssembler.ListsPartitionEntries` | app/src/main/jni/badvpn/client/FragmentProtoAssembler.c:413-426 | Every frame entry is on exactly one of the free and used lists |
| `FragmentProtoAssembler.Assembler.constructor` | app/src/main/jni/badvpn/client/FragmentProtoAssembler.c:370-445 | A new assembler: all entries free, clock 0, nothing received or sent |
| `FragmentProtoAssembler.Assembler.FreeFrame` | app/src/main/jni/badvpn/client/FragmentProtoAssembler.c:46-55 | Removes the frame from tree and used list and appends it to the free list, and changes no other |
| `FragmentProtoAssembler.Assembler.FreeOldestFrame` | app/src/main/jni/badvpn/client/FragmentProtoAssembler.c:57-68 | Frees the frame allocated longest ago |
| `FragmentProtoAssembler.Assembler.AllocateNewFrame` | app/src/main/jni/badvpn/client/FragmentProtoAssembler.c:70-103 | Takes the first free entry, after evicting the oldest frame if there is none, and indexes it by its id |
| `FragmentProtoAssembler.Assembler.FreeTimedOut` | app/src/main/jni/badvpn/client/FragmentProtoAssembler.c:119-142 | The loop that removes while it walks frees exactly the timed-out frames and finds the least time of the others |
| `FragmentProtoAssembler.Assembler.SubtractTime` | app/src/main/jni/badvpn/client/FragmentProtoAssembler.c:144-148 | The second loop shifts the time of every frame left, and nothing else |
| `FragmentProtoAssembler.Assembler.ReduceTimes` | app/src/main/jni/badvpn/client/FragmentProtoAssembler.c:117-152 | The two loops and the clock assignment do what ReduceTimes says of the pool |
| `FragmentProtoAssembler.Assembler.LookupFrame` | app/src/main/jni/badvpn/client/FragmentProtoAssembler.c:179-195 | Finds the frame of the id, or frees the timed-out one and allocates, or allocates |
| `FragmentProtoAssembler.Assembler.ChunkIsGood` | app/src/main/jni/badvpn/client/FragmentProtoAssembler.c:197-226 | The loop over the chunks and the checks on the end decide exactly whether the chunk is acceptable |
| `FragmentProtoAssembler.Assembler.AddChunk` | app/src/main/jni/badvpn/client/FragmentProtoAssembler.c:228-254 | Records the chunk, copies its bytes, moves time, sum, length and length_so_far |
| `FragmentProtoAssembler.Assembler.ProcessChunk` | app/src/main/jni/badvpn/client/FragmentProtoAssembler.c:154-283 | The object does to its entries, lists and tree what the model does to the pool, and sends exactly what the model sends |
| `FragmentProtoAssembler.Assembler.SettleFrame` | app/src/main/jni/badvpn/client/FragmentProtoAssembler.c:256-278 | Frees the frame when it is complete, which is sent, or when all chunk entries are used up |
| `FragmentProtoAssembler.Assembler.AdvanceClock` | app/src/main/jni/badvpn/client/FragmentProtoAssembler.c:326-339 | The increment, with renormalisation first when the clock is at its maximum |
| `FragmentProtoAssembler.Assembler.NextChunk` | app/src/main/jni/badvpn/client/FragmentProtoAssembler.c:291-318 | Reads a header exactly when one is there with a valid is_last and all of its payload, and processes that chunk |
| `FragmentProtoAssembler.Assembler.ProcessInput` | app/src/main/jni/badvpn/client/FragmentProtoAssembler.c:285-346 | The loop stops where the model says: at a frame sent with the rest of the packet still to read, or at the end, with the clock advanced and the input done |
| `FragmentProtoAssembler.Assembler.InputHandlerSend` | app/src/main/jni/badvpn/client/FragmentProtoAssembler.c:348-360 | A new packet is processed from its beginning |
| `FragmentProtoAssembler.Assembler.OutputHandlerDone` | app/src/main/jni/badvpn/client/FragmentProtoAssembler.c:362-368 | Processing goes on behind the chunk that completed a frame |
| `DisassemblerModel.ChunkLen` | app/src/main/jni/badvpn/client/FragmentProtoDisassembler.c:50-56 | A chunk is as long as the packet, the room and the chunk MTU allow, and no longer; it is empty only if nothing is left |
| `DisassemblerModel.FirstChunk` | app/src/main/jni/badvpn/client/FragmentProtoDisassembler.c:48-70 | The chunk carries the bytes of the packet at its position; it is marked last exactly when it ends the packet; only a last chunk is empty |
| `DisassemblerModel.CutBytesAreChunks` | app/src/main/jni/badvpn/client/FragmentProtoDisassembler.c:48-70 | What the loop writes is exactly the encoding of the chunks it cuts |
| `DisassemblerModel.CutBytesRoom` | app/src/main/jni/badvpn/client/FragmentProtoDisassembler.c:48-70 | The loop never writes past the output MTU, and fills it unless the packet ends |
| `DisassemblerModel.NextOk` | app/src/main/jni/badvpn/client/FragmentProtoDisassembler.c:104-162 | After every event: input and output are not both waiting, a packet kept has room for another byte of payload, the timer runs only with an output packet; packets sent are within the MTU |
| `FragmentProtoDisassembler.Disassembler.constructor` | app/src/main/jni/badvpn/client/FragmentProtoDisassembler.c:164-199 | A new disassembler has no input, no output and frame id 0 |
| `FragmentProtoDisassembler.Disassembler.WriteChunk` | app/src/main/jni/badvpn/client/FragmentProtoDisassembler.c:49-69 | One round writes one chunk and leaves what is still to be written unchanged |
| `FragmentProtoDisassembler.Disassembler.WriteLoop` | app/src/main/jni/badvpn/client/FragmentProtoDisassembler.c:48-70 | The do/while loop appends exactly the bytes of the chunks cut from the current position |
| `FragmentProtoDisassembler.Disassembler.WriteChunks` | app/src/main/jni/badvpn/client/FragmentProtoDisassembler.c:39-102 | Input done exactly at the end of the packet, with the next frame id modulo 2^16; output done when it is full or there is no latency, else the timer runs |
| `FragmentProtoDisassembler.Disassembler.InputHandlerSend` | app/src/main/jni/badvpn/client/FragmentProtoDisassembler.c:104-120 | A packet is written at once if there is an output packet |
| `FragmentProtoDisassembler.Disassembler.InputHandlerRequestCancel` | app/src/main/jni/badvpn/client/FragmentProtoDisassembler.c:122-132 | Drops the input and keeps the frame id |
| `FragmentProtoDisassembler.Disassembler.OutputHandlerRecv` | app/src/main/jni/badvpn/client/FragmentProtoDisassembler.c:134-149 | An output packet is filled at once if there is input |
| `FragmentProtoDisassembler.Disassembler.TimerHandler` | app/src/main/jni/badvpn/client/FragmentProtoDisassembler.c:151-162 | The timer sends what has been written |
| `FragmentRoundTrip.ChunksNeededStep` | app/src/main/jni/badvpn/protocol/fragmentproto.h:92-98 | The closed formula for the number of chunks goes down with every chunk that is not the last, however it lies in a packet |
| `FragmentRoundTrip.CountBounded` | app/src/main/jni/badvpn/protocol/fragmentproto.h:92-98 | The formula is a bound of the exact number of chunks, wherever in a packet the first one begins |
| `FragmentRoundTrip.ChunkSynced` | app/src/main/jni/badvpn/client/FragmentProtoAssembler.c:154-283 | A chunk that comes next in order is accepted; the last one delivers the whole payload |
| `FragmentRoundTrip.PacketSynced` | app/src/main/jni/badvpn/client/FragmentProtoAssembler.c:285-346 | A packet of chunks in order is understood by the assembler as by a reader that only appends |
| `FragmentRoundTrip.CutRead` | app/src/main/jni/badvpn/client/FragmentProtoDisassembler.c:48-70 | The chunks cut from one packet read back as the payload, and need no more chunk slots than promised |
| `FragmentRoundTrip.EventWritten` | app/src/main/jni/badvpn/client/FragmentProtoDisassembler.c:104-162 | What each event writes is what a reader reads next, whatever is cancelled; a packet sent is the encoding of what was written into it |
| `FragmentRoundTrip.StepLinked` | app/src/main/jni/badvpn/client/FragmentProtoDisassembler.c:104-162 | Every event of the disassembler keeps both ends in step, also over the wrap of the frame id |
| `FragmentRoundTrip.RoundTrip` | app/src/main/jni/badvpn/client/FragmentProtoDisassembler.c:39-162 | For all payloads, MTUs and interleavings of sends, output packets, timer expiries and cancels of packets not begun: what is delivered is always a prefix of what was sent, and all of it once nothing is waiting |
| `FragmentRoundTrip.DatagramParametersFit` | app/src/main/jni/badvpn/client/DatagramPeerIO.c:197-226 | The chunk slots and the missing chunk MTU that DatagramPeerIO chooses meet the condition of the round trip |
| `FragmentLeftovers.ChunkSeen` | app/src/main/jni/badvpn/client/FragmentProtoAssembler.c:154-283 | With chunks left over of packets given up: a chunk is put behind them, makes the assembler give up on them, or completes the packet, exactly as the view of it says |
| `FragmentLeftovers.PacketSeen` | app/src/main/jni/badvpn/client/FragmentProtoAssembler.c:285-346 | And so for a whole packet of chunks, with its end |
| `FragmentLeftovers.GiveUpSeen` | app/src/main/jni/badvpn/client/FragmentProtoDisassembler.c:122-132 | When a packet is given up, what the assembler has of it is left over under its frame id |
| `FragmentCancel.StepTracked` | app/src/main/jni/badvpn/client/FragmentProtoDisassembler.c:104-162 | Every event, cancels of packets written in part too, keeps the assembler where the view has it |
| `FragmentCancel.DeliveredExactly` | app/src/main/jni/badvpn/client/FragmentProtoDisassembler.c:39-162 | In any run with any cancels, what is delivered in the end is exactly the packets not lost; so all are delivered if and only if no packet was written to its end over chunks left over under its frame id |
| `FragmentCancel.CutCancelLosesNext` | app/src/main/jni/badvpn/client/FragmentProtoDisassembler.c:122-132 | If of all packets cancelled only one had been written in part, exactly the packet written next after it is missing in the end |
| `FragmentCancel.DatagramsAreSpacious` | app/src/main/jni/badvpn/client/DatagramPeerIO.c:197-226 | Carrier packets below 64 KiB and up to six frame slots are within the bound of DeliveredExactly |
| `FragmentCancelRuns.OneCutLoses` | app/src/main/jni/badvpn/client/FragmentProtoDisassembler.c:122-132 | A run from the start: [5, 6] is cancelled after its first byte, [7] is sent, and nothing is delivered |
| `FragmentCancelRuns.TwoCutsLoseNone` | app/src/main/jni/badvpn/client/FragmentProtoDisassembler.c:122-132 | A run from the start: two packets are cancelled after their first bytes, and the next one is delivered |
| `AssemblerFrames.ChunkOthers` | app/src/main/jni/badvpn/client/FragmentProtoAssembler.c:70-103 | While there are no more frame ids than slots, a chunk changes no frame but its own: no other is evicted |
| `AssemblerFrames.TickFrames` | app/src/main/jni/badvpn/client/FragmentProtoAssembler.c:117-152 | At the end of a packet every frame gets one packet older, also when the clock is renormalised, except that frames too old may go |
| `FragmentReordering.ReadIsTiling` | app/src/main/jni/badvpn/client/FragmentProtoDisassembler.c:48-70 | The chunks a disassembler makes of a payload tile it from end to end |
| `FragmentReordering.AllCover` | app/src/main/jni/badvpn/client/FragmentProtoAssembler.c:256-268 | All chunks together, in any order, sum to the length of the payload |
| `FragmentReordering.SomeLess` | app/src/main/jni/badvpn/client/FragmentProtoAssembler.c:256-268 | While a chunk other than the last is missing the sum is less than the length |
| `FragmentReordering.CompletesLast` | app/src/main/jni/badvpn/client/FragmentProtoAssembler.c:256-268 | The frame is complete exactly when all chunks have arrived |
| `FragmentReordering.AnyOrder` | app/src/main/jni/badvpn/client/FragmentProtoAssembler.c:154-346 | With chunks of no more frames than slots arriving, whatever they are: a frame whose chunks arrive each once, in any order, at most num_frames packets apart, is delivered once, whole, with the last of them |
| `FragmentReordering.Interleaved` | app/src/main/jni/badvpn/client/FragmentProtoAssembler.c:154-346 | As many frames as there are slots, interleaved in this way, are each delivered once |
| `FragmentReordering.CutAllRead` | app/src/main/jni/badvpn/client/FragmentProtoDisassembler.c:39-102 | All the chunks made of a payload, over as many packets as it takes, read back as the payload |
| `FragmentReordering.CutAllCount` | app/src/main/jni/badvpn/client/FragmentProtoDisassembler.c:39-102 | They are exactly as many as ChunkCount says, however many packets it takes |
| `FragmentReordering.DisassembledInAnyOrder` | app/src/main/jni/badvpn/client/FragmentProtoAssembler.c:154-278 | What the disassembler makes of a payload, beginning anywhere in a packet, is delivered in whatever order it arrives |
| `FairQueueModel.InsertSorted` | app/src/main/jni/badvpn/flow/PacketPassFairQueue.c:39-47 | Insertion by (time, address) keeps the tree in order |
| `FairQueueModel.IncrementedIs` | app/src/main/jni/badvpn/flow/PacketPassFairQueue.c:79-116 | The wrapping arithmetic comes out right: the flow sent ends in range at its time plus the amount less the shift, no queued time is cut off, others are cut off at 0 |
| `FairQueueModel.IncrementedKeepsOrder` | app/src/main/jni/badvpn/flow/PacketPassFairQueue.c:79-116 | Changing all times in place keeps the tree in order |
| `FairQueueModel.StepInv` | app/src/main/jni/badvpn/flow/PacketPassFairQueue.c:153-217 | Every event keeps the queue sorted and in range, with sending time <= every queued time |
| `FairQueueTheorems.SameCurrentTime` | app/src/main/jni/badvpn/flow/PacketPassFairQueue.c:52-77 | While the queue is busy the current time is that of a queue without overflow less what has been subtracted |
| `FairQueueTheorems.DoneRefines` | app/src/main/jni/badvpn/flow/PacketPassFairQueue.c:79-116 | An overflow changes only by how much the times differ from those without overflow, and flows cut off to 0 are none that waits, is sending or was the last to send |
| `FairQueueTheorems.StepRefines` | app/src/main/jni/badvpn/flow/PacketPassFairQueue.c:153-217 | Every event of the 64-bit queue is the same event of a queue with unbounded times, unless a flow whose time is off sends to the idle queue; and the queue itself shows which flows those are after the event |
| `FairQueueTheorems.IdleSendExactly` | app/src/main/jni/badvpn/flow/PacketPassFairQueue.c:153-180 | After a flow has sent to an idle queue the two are in step if and only if it was not one of those flows; a flow with any time left is not, nor is any flow before the first subtraction |
| `FairQueueTheorems.InStepExactly` | app/src/main/jni/badvpn/flow/PacketPassFairQueue.c:52-217 | In any run the 64-bit queue stays in step with the unbounded one if and only if no flow sends to it while it is idle that was made after a subtraction, or had less time than was subtracted, and has not sent while it was busy since |
| `FairQueueTheorems.NewFlowIsOff` | app/src/main/jni/badvpn/flow/PacketPassFairQueue.c:296-321 | A flow made after a subtraction that sends to the idle queue puts it out of step, though nothing was cut off of its time |
| `FairQueueTheorems.OverflowIsInvisible` | app/src/main/jni/badvpn/flow/PacketPassFairQueue.c:52-217 | However often times overflow, the queue picks the same flows in the same order as with unbounded times, as long as no such flow sends to it while it is idle |
| `FairQueueTheorems.TimeLeftIsEnough` | app/src/main/jni/badvpn/flow/PacketPassFairQueue.c:52-217 | It is enough that a flow that sends to the idle queue after a subtraction has any time left |
| `FairQueueTheorems.SpreadBounded` | app/src/main/jni/badvpn/flow/PacketPassFairQueue.c:79-116 | The times of two backlogged flows never get further apart than packet_weight + MTU, or than at the start |
| `FairQueueTheorems.NoStarvation` | app/src/main/jni/badvpn/flow/PacketPassFairQueue.c:79-180 | While f waits, any other flow is served at most (time of f - current time) / packet_weight + 1 times |
| `FairQueueIdle.IdleForgetsTheTime` | app/src/main/jni/badvpn/flow/PacketPassFairQueue.c:74-77 | With packet weight 1 and an MTU of 65535, a run of 2^48 turns from a new queue, idle once after an overflow, after which two flows are queued in the other order than without overflow |
| `PacketPassFairQueue.FairQueue.constructor` | app/src/main/jni/badvpn/flow/PacketPassFairQueue.c:219-266 | A new queue is empty and idle |
| `PacketPassFairQueue.FairQueue.GetCurrentTime` | app/src/main/jni/badvpn/flow/PacketPassFairQueue.c:52-77 | The least of the times of the sending, first queued and previous flow, 0 when there is none |
| `PacketPassFairQueue.FairQueue.SubtractFromAll` | app/src/main/jni/badvpn/flow/PacketPassFairQueue.c:99-111 | The loop over the flows subtracts from each, cutting off at 0 all but the flow being incremented |
| `PacketPassFairQueue.FairQueue.IncrementSentFlow` | app/src/main/jni/badvpn/flow/PacketPassFairQueue.c:79-116 | The time of the flow grows by the amount modulo 2^64, after subtracting from all flows if it would overflow |
| `PacketPassFairQueue.FairQueue.Schedule` | app/src/main/jni/badvpn/flow/PacketPassFairQueue.c:118-137 | Takes the first flow of the tree and gives its packet to the output |
| `PacketPassFairQueue.FairQueue.ScheduleJobHandler` | app/src/main/jni/badvpn/flow/PacketPassFairQueue.c:139-151 | The decision: the previous flow is forgotten, the first queued one sent |
| `PacketPassFairQueue.FairQueue.TreeInsert` | app/src/main/jni/badvpn/flow/PacketPassFairQueue.c:173-175 | The flow goes where the order of compare_flows wants it |
| `PacketPassFairQueue.FairQueue.RaiseTime` | app/src/main/jni/badvpn/flow/PacketPassFairQueue.c:162-168 | The previous flow keeps its time, any other is raised to the current time |
| `PacketPassFairQueue.FairQueue.InputHandlerSend` | app/src/main/jni/badvpn/flow/PacketPassFairQueue.c:153-180 | Queues the flow, and schedules at once only if nothing is being sent and no decision is pending |
| `PacketPassFairQueue.FairQueue.OutputHandlerDone` | app/src/main/jni/badvpn/flow/PacketPassFairQueue.c:182-217 | The flow becomes the previous one with its time incremented, and the decision is left to the job |
| `PacketPassFairQueue.FairQueue.FlowInit` | app/src/main/jni/badvpn/flow/PacketPassFairQueue.c:296-321 | A new flow starts at time 0 |
| `PacketPassFairQueue.FairQueue.FlowFree` | app/src/main/jni/badvpn/flow/PacketPassFairQueue.c:323-351 | Leaves no trace of the flow in tree, list, previous_flow or sending_flow, and keeps the queue in order if it stays in use |
| `PacketPassFairQueue.FairQueue.PrepareFree` | app/src/main/jni/badvpn/flow/PacketPassFairQueue.c:281-287 | From then on flows are only freed, the sending one too |
| `PacketPassFairQueue.FairQueue.NothingIsLeft` | app/src/main/jni/badvpn/flow/PacketPassFairQueue.c:268-279 | When all flows have been freed the asserts of the free function hold |
| `BPending.PendingGroup.IsSet` | app/src/main/jni/badvpn/base/BPending.c:173-179 | A job is pending exactly when its node does not point to itself |
| `BPending.PendingGroup.SetJob` | app/src/main/jni/badvpn/base/BPending.c:137-154 | The job is on top of the list, once, wherever it was before |
| `BPending.PendingGroup.UnsetJob` | app/src/main/jni/badvpn/base/BPending.c:156-171 | The job is not on the list; the others are, in their order |
| `BPending.PendingGroup.ExecuteJob` | app/src/main/jni/badvpn/base/BPending.c:66-88 | Takes the job on top and marks it not pending before its handler runs |
| `BPending.SetMembers` | app/src/main/jni/badvpn/base/BPending.c:137-154 | Setting adds the job and loses none |
| `BPending.LaterJobsRunFirst` | app/src/main/jni/badvpn/base/BPending.c:66-88 | Whatever is set, unset and run above pending jobs, they stay where they are and in their order until all above has run |
| `PacketPassModel.StepInv` | app/src/main/jni/badvpn/flow/PacketPassInterface.h:149-227 | Pending jobs and state agree after every call and every job, with cancel and with foreign jobs in between |
| `PacketPassModel.OneDonePerSend` | app/src/main/jni/badvpn/flow/PacketPassInterface.h:149-227 | In any run each Send gets at most one done before the next Send, and at most one cancel call |
| `PacketPassModel.StartInv` | app/src/main/jni/badvpn/flow/PacketPassInterface.h:106-128 | A new interface has no job pending |
| `PacketPassInterface.Interface.constructor` | app/src/main/jni/badvpn/flow/PacketPassInterface.h:106-128 | A new interface is idle, without user and without cancel |
| `PacketPassInterface.Interface.SenderSend` | app/src/main/jni/badvpn/flow/PacketPassInterface.h:181-198 | Records the packet and puts the operation job on top |
| `PacketPassInterface.Interface.SenderRequestCancel` | app/src/main/jni/badvpn/flow/PacketPassInterface.h:200-227 | Before the packet is handed over: done instead; while busy: the cancel job; twice or later: nothing |
| `PacketPassInterface.Interface.Done` | app/src/main/jni/badvpn/flow/PacketPassInterface.h:149-162 | The cancel job is withdrawn and the done job put on top |
| `PacketPassInterface.Interface.ExecuteOwnJob` | app/src/main/jni/badvpn/flow/PacketPassInterface.c:32-68 | The three jobs move the state as the handshake demands, and their asserts hold |
| `PacketPassInterface.Interface.FirstPacket` | app/src/main/jni/badvpn/flow/PacketPassInterface.h:140-227 | A packet from start to end, cancelled or not: the interface is idle again, done once, cancel called once if asked for, and no other pending job touched |
| `FairQueueJobs.StepInv` | app/src/main/jni/badvpn/flow/PacketPassFairQueue.c:153-217 | Queue, interfaces and job list agree after every event: a flow is queued or sending exactly while its interface is busy, and the job is pending exactly when a decision is due |
| `FairQueueJobs.DoneOnTop` | app/src/main/jni/badvpn/flow/PacketPassFairQueue.c:182-205 | The done of the flow that was sent is pending right above the decision |
| `FairQueueJobs.StaysResent` | app/src/main/jni/badvpn/flow/PacketPassFairQueue.c:182-205 | Until the decision, nothing takes the flow that sent again out of the queue or below the decision |
| `FairQueueJobs.ResendIsSeen` | app/src/main/jni/badvpn/flow/PacketPassFairQueue.c:182-217 | A source that sends again in its done handler is queued, with the time its packet brought it to, before the decision is taken, whatever happens before the handler, in it and after it |
| `DataProto.DetachInv` | app/src/main/jni/badvpn/client/DataProto.c:545-566 | Detaching, now or later, keeps the invariant that a buffer in a sink not desired is that sink's detaching and busy buffer |
| `DataProto.AttachInv` | app/src/main/jni/badvpn/client/DataProto.c:516-543 | Attaching, also while a detach is pending, keeps the invariant: a buffer in a sink not desired is that sink's detaching and busy buffer |
| `DataProto.FlowFreeInv` | app/src/main/jni/badvpn/client/DataProto.c:458-484 | Freeing a flow, also one whose buffer is in flight, keeps the invariant: the orphaned buffer is the detaching one of its sink |
| `DataProto.SinkFreeInv` | app/src/main/jni/badvpn/client/DataProto.c:297-337 | Freeing a sink, also one with a detaching buffer, keeps the invariant: the buffer ends up attached elsewhere, detached or freed |
| `DataProto.DoneInv` | app/src/main/jni/badvpn/client/DataProto.c:218-225 | The end of a packet keeps the invariant, whether a detach waited for it or not |
| `DataProto.StepInv` | app/src/main/jni/badvpn/client/DataProto.c:127-225 | Every event keeps: the buffer of a flow that wants a sink is in a sink; a sink has at most one detaching buffer, its busy one; a buffer is freed once |
| `DataProto.RunInv` | app/src/main/jni/badvpn/client/DataProto.c:127-225 | The invariant of flows, buffers and sinks holds in every run of their events |
| `DataProto.DetachingStays` | app/src/main/jni/badvpn/client/DataProto.c:180-198 | A pending detach ends only when its sink is done with the packet or is freed |
| `DataProto.ReleaseSettles` | app/src/main/jni/badvpn/client/DataProto.c:200-216 | When its sink is done with the packet or is freed, a detaching buffer goes where its flow wants it, or is freed if the flow is gone, and detaches from nothing any more |
| `DataProto.DeferredDetach` | app/src/main/jni/badvpn/client/DataProto.c:180-225 | In any run a deferred detach leaves the buffer where it is until its sink lets go of it, whatever is asked for meanwhile, and then settles it by what the flow wanted last |
| `DataProto.NoneLeftInSink` | app/src/main/jni/badvpn/client/DataProto.c:297-337 | A freed sink has no buffer in it |
| `DataProto.NoLeak` | app/src/main/jni/badvpn/client/DataProto.c:127-144 | When all flows and sinks are gone, the buffers made are exactly those freed, each once |
| `DataProto.Objects.BufferAttach` | app/src/main/jni/badvpn/client/DataProto.c:146-158 | The buffer is in the sink, with no busy handler |
| `DataProto.Objects.BufferDetach` | app/src/main/jni/badvpn/client/DataProto.c:160-178 | The buffer is in no sink and the sink has forgotten it; its assert holds |
| `DataProto.Objects.BufferScheduleDetach` | app/src/main/jni/badvpn/client/DataProto.c:180-198 | The buffer is the detaching one of its sink with the busy handler set; scheduling twice changes nothing |
| `DataProto.Objects.BufferFinishDetach` | app/src/main/jni/badvpn/client/DataProto.c:200-216 | Detaches, and then frees or attaches to the desired sink |
| `DataProto.Objects.CallBusyHandler` | app/src/main/jni/badvpn/client/DataProto.c:218-225 | The handler set is unset and finishes the detach |
| `DataProto.Objects.SinkInitialize` | app/src/main/jni/badvpn/client/DataProto.c:279-280 | A new sink has no detaching buffer |
| `DataProto.Objects.SinkRelease` | app/src/main/jni/badvpn/client/DataProto.c:297-337 | The detaching buffer leaves first, though the queue still holds its packet |
| `DataProto.Objects.FlowInitialize` | app/src/main/jni/badvpn/client/DataProto.c:408-420 | A new flow has a new buffer and wants no sink |
| `DataProto.Objects.FlowRelease` | app/src/main/jni/badvpn/client/DataProto.c:458-484 | The buffer is freed at once if it is in no sink, else when its packet is done; the other branch is never taken |
| `DataProto.Objects.FlowAttach` | app/src/main/jni/badvpn/client/DataProto.c:516-543 | Attaches at once if the buffer is in no sink, else leaves it to the detach that is pending; the branch that detaches first is never taken |
| `DataProto.Objects.FlowDetach` | app/src/main/jni/badvpn/client/DataProto.c:545-566 | Detaches at once unless the packet is in flight |
| `DataProto.Objects.QueueDone` | app/src/main/jni/badvpn/client/DataProto.c:218-225 | The end of a packet runs the busy handler if a detach waits for it |
| `DataProto.Objects.HandleAll` | app/src/main/jni/badvpn/client/DataProto.c:127-225 | The handlers called one after the other take the objects through the run of the model, so that what is proved of all runs holds of them |
| `DataProtoUp.Sink.ReceiveTimerHandler` | app/src/main/jni/badvpn/client/DataProto.c:71-79 | Hearing nothing for the time takes the sink down |
| `DataProtoUp.Sink.Received` | app/src/main/jni/badvpn/client/DataProto.c:339-358 | Up is what the peer says of itself; a keep-alive is sent if it does not hear |
| `DataProtoUp.Sink.UpJobHandler` | app/src/main/jni/badvpn/client/DataProto.c:100-109 | Reports alternate, beginning with up |
| `PeerRelays.InitLinkInv` | app/src/main/jni/badvpn/client/client.c:1606-1693 | Making a link keeps: a peer has a link, is relayed or waits, never two of these; lists and flags agree; local_dpflow is attached to the own sink or the relay's |
| `PeerRelays.FreeLinkInv` | app/src/main/jni/badvpn/client/client.c:1695-1727 | Freeing the link of a peer that is no relay keeps lists, flags and attachments consistent, and nobody else is attached to the sink that goes away |
| `PeerRelays.InstallRelayingInv` | app/src/main/jni/badvpn/client/client.c:1802-1822 | Installing a relay keeps lists, flags and attachments consistent |
| `PeerRelays.FreeRelayingInv` | app/src/main/jni/badvpn/client/client.c:1824-1845 | Leaving the relay keeps lists, flags and attachments consistent |
| `PeerRelays.RegisterInv` | app/src/main/jni/badvpn/client/client.c:1870-1883 | Beginning to wait keeps lists, flags and attachments consistent |
| `PeerRelays.UnregisterInv` | app/src/main/jni/badvpn/client/client.c:1885-1898 | Ending the wait keeps lists, flags and attachments consistent |
| `PeerRelays.SetRelayInv` | app/src/main/jni/badvpn/client/client.c:1750-1800 | Becoming a relay, or ceasing to be one that has no users, keeps lists, flags and attachments consistent |
| `PeerRelays.AssignInv` | app/src/main/jni/badvpn/client/client.c:2684-2709 | The loop ends with nobody waiting or no relay, and gives all who waited to the first relay in their order |
| `PeerRelays.DisconnectAllInv` | app/src/main/jni/badvpn/client/client.c:1771-1800 | The teardown loop ends with no users, all of them waiting in their order |
| `PeerRelays.EnableRelay` | app/src/main/jni/badvpn/client/client.c:1750-1769 | With a new relay nobody waits |
| `PeerRelays.DisableRelay` | app/src/main/jni/badvpn/client/client.c:1771-1800 | Without the relay nobody waits while another one is there |
| `PeerRelays.UsersMove` | app/src/main/jni/badvpn/client/client.c:1771-1800 | The users of a relay that goes down all end up with the first of the others, or wait; nothing else changes |
| `PeerRelays.Cleanup` | app/src/main/jni/badvpn/client/client.c:1729-1748 | The peer is as if new, whatever it was |
| `PeerRelays.NeedRelay` | app/src/main/jni/badvpn/client/client.c:1847-1868 | Whatever the peer had, lists, flags and attachments agree afterwards, and nobody waits beside a relay |
| `PeerRelays.NeededIsServed` | app/src/main/jni/badvpn/client/client.c:1847-1868 | The peer ends up attached to the sink of the first relay, or, exactly if there is no relay, it waits |
| `PeerRelays.StepInv` | app/src/main/jni/badvpn/client/client.c:1606-1898 | Every peer step keeps the invariant, and no peer waits while a relay exists |
| `PeerRelays.RelaysStayConsistent` | app/src/main/jni/badvpn/client/client.c:1606-1898 | In every run a peer is attached to exactly its own sink or that of a relay which has a link of its own |
| `PeerRelays.Client.PeerInitLink` | app/src/main/jni/badvpn/client/client.c:1670-1671 | The local flow is attached to the own sink; only have_link changes besides |
| `PeerRelays.Client.PeerFreeLink` | app/src/main/jni/badvpn/client/client.c:1695-1727 | The asserts on entry and exit hold |
| `PeerRelays.Client.PeerInstallRelaying` | app/src/main/jni/badvpn/client/client.c:1802-1822 | The peer is on the list of users of the relay, at its end, and attached to it |
| `PeerRelays.Client.PeerFreeRelaying` | app/src/main/jni/badvpn/client/client.c:1824-1845 | The peer is off that list and detached |
| `PeerRelays.Client.PeerRegisterNeedRelay` | app/src/main/jni/badvpn/client/client.c:1870-1883 | The peer is the last that waits |
| `PeerRelays.Client.PeerUnregisterNeedRelay` | app/src/main/jni/badvpn/client/client.c:1885-1898 | The peer does not wait, the others do in their order |
| `PeerRelays.Client.AssignRelays` | app/src/main/jni/badvpn/client/client.c:2684-2709 | The loop over the waiting peers, each to the first relay |
| `PeerRelays.Client.PeerEnableRelayProvider` | app/src/main/jni/badvpn/client/client.c:1750-1769 | A new relay at the end of the list, and the waiting peers assigned |
| `PeerRelays.Client.PeerDisableRelayProvider` | app/src/main/jni/badvpn/client/client.c:1771-1800 | The loop over its users, and then the assignment without this relay |
| `PeerRelays.Client.PeerCleanupConnections` | app/src/main/jni/badvpn/client/client.c:1729-1748 | Link, relay or waiting ended, each the way it has to be |
| `PeerRelays.Client.PeerNeedRelay` | app/src/main/jni/badvpn/client/client.c:1847-1868 | No second registration for a peer that waits already |
| `PeerRelays.Client.PeerAdd` | app/src/main/jni/badvpn/client/client.c:1455-1462 | A new peer has no link, is not relayed and does not wait |
| `PeerRelays.Client.PeerRemove` | app/src/main/jni/badvpn/client/client.c:1509-1523 | A peer leaves nothing behind in any list |
| `PeerRelays.Client.FreshLinkFor` | app/src/main/jni/badvpn/client/client.c:2348-2350 | A fresh link, or none if it cannot be made |
| `PeerRelays.Client.PeerDataprotoHandler` | app/src/main/jni/badvpn/client/client.c:2626-2645 | Up makes a relay of a peer that can be one, down ends it |
| `MacIndexModel.LearnInv` | app/src/main/jni/badvpn/client/FrameDecider.c:69-118 | The tree has exactly the MACs used by some peer, each under one owner, and free and used entries of each peer make up max_peer_macs |
| `MacIndexModel.PeerInv` | app/src/main/jni/badvpn/client/FrameDecider.c:580-656 | A new peer with all entries free, and a peer whose MACs are removed with it, leave tree and tables in agreement |
| `MacIndexModel.StepInv` | app/src/main/jni/badvpn/client/FrameDecider.c:69-118 | After every event the tree is the union of the used entries of all peers |
| `MacIndexModel.MacsFollowHistory` | app/src/main/jni/badvpn/client/FrameDecider.c:69-118 | In every run a MAC belongs to the peer it was last seen from, and the used list of a peer is in the order its MACs were last seen |
| `MacIndexModel.LeastRecentlySeenIsLost` | app/src/main/jni/badvpn/client/FrameDecider.c:89-107 | The only other MAC lost is the one this peer has not seen for longest, and only if all its entries are in use |
| `FrameDeciderMacs.Decider.AddMacToPeer` | app/src/main/jni/badvpn/client/FrameDecider.c:69-118 | Lists, entries and tree of the object change as the model says |
| `FrameDeciderMacs.Decider.SeeAgain` | app/src/main/jni/badvpn/client/FrameDecider.c:75-81 | The entry goes to the end of the used list |
| `FrameDeciderMacs.Decider.Disassociate` | app/src/main/jni/badvpn/client/FrameDecider.c:83-86 | The entry of the other peer is free and the tree does not have the MAC |
| `FrameDeciderMacs.Decider.AcquireEntry` | app/src/main/jni/badvpn/client/FrameDecider.c:89-117 | The first free entry, or the first used one, gets the MAC |
| `FrameDeciderMacs.Decider.PeerInit` | app/src/main/jni/badvpn/client/FrameDecider.c:580-593 | All entries of a new peer are free |
| `FrameDeciderMacs.Decider.PeerFree` | app/src/main/jni/badvpn/client/FrameDecider.c:650-656 | The loop removes exactly the MACs of the peer |
| `FrameDeciderMacs.PartitionFacts` | app/src/main/jni/badvpn/client/FrameDecider.c:89-107 | No entry is free and used, or on a list twice |
| `FrameDeciderMacs.ReleaseView` | app/src/main/jni/badvpn/client/FrameDecider.c:83-86 | Moving an entry to the free list takes its MAC, and only that, from the peer |
| `FrameDeciderMacs.AcquireView` | app/src/main/jni/badvpn/client/FrameDecider.c:89-115 | Reusing the first used entry drops the MAC seen longest ago |
| `MulticastModel.GroupFramesHaveItsSig` | app/src/main/jni/badvpn/client/FrameDecider.c:120-131 | The signature of the address a group's frames are sent to by section 6.4 of RFC 1112 is the signature of the group |
| `MulticastModel.DropInv` | app/src/main/jni/badvpn/client/FrameDecider.c:166-197 | Leaving a group keeps one master for each signature in use, with a list of exactly the entries that have it |
| `MulticastModel.TakeInv` | app/src/main/jni/badvpn/client/FrameDecider.c:133-164 | Joining a group keeps one master for each signature in use, with a list of exactly the entries that have it |
| `MulticastModel.AddGroupInv` | app/src/main/jni/badvpn/client/FrameDecider.c:199-252 | A report keeps the index exact, with a free entry, with eviction of the oldest group, or for a group joined before |
| `MulticastModel.PeerInv` | app/src/main/jni/badvpn/client/FrameDecider.c:595-648 | A peer that comes or goes keeps the index exact |
| `MulticastModel.Step` | app/src/main/jni/badvpn/client/FrameDecider.c:133-279 | After every event there is one master for each signature in use, and its list is exactly the used entries with it over all peers |
| `MulticastModel.ChainCounts` | app/src/main/jni/badvpn/client/FrameDecider.c:541-550 | The enumeration of a list names a peer once for each of its entries |
| `MulticastModel.MulticastIsExact` | app/src/main/jni/badvpn/client/FrameDecider.c:133-279 | In every run a frame is sent to each peer as often as it has joined groups with the signature |
| `MulticastModel.SameFrameTwice` | app/src/main/jni/badvpn/client/FrameDecider.c:133-164 | A run: a peer joins two groups that differ only above the last 23 bits, and a frame to the first is sent to it twice |
| `MulticastModel.DestinationsExist` | app/src/main/jni/badvpn/client/FrameDecider.c:541-550 | A frame goes to no peer that is gone or has no group with the signature |
| `FrameDeciderGroups.Decider.AddToMulticast` | app/src/main/jni/badvpn/client/FrameDecider.c:133-164 | Behind the master if there is one, else the entry becomes master; is_master says so |
| `FrameDeciderGroups.Decider.RemoveFromMulticast` | app/src/main/jni/badvpn/client/FrameDecider.c:166-197 | Mastership is handed to the next or previous entry, or the signature leaves the tree |
| `FrameDeciderGroups.Decider.RemoveGroupEntry` | app/src/main/jni/badvpn/client/FrameDecider.c:254-279 | The entry is free, out of tree and list, its timer stopped |
| `FrameDeciderGroups.Decider.AddGroupToPeer` | app/src/main/jni/badvpn/client/FrameDecider.c:199-252 | The group is the last used one with a fresh timer, in a free or the oldest entry |
| `FrameDeciderGroups.Decider.LowerGroupTimers` | app/src/main/jni/badvpn/client/FrameDecider.c:281-314 | Lowers exactly the timers of that group, not those of others with its signature |
| `FrameDeciderGroups.Decider.PeerInit` | app/src/main/jni/badvpn/client/FrameDecider.c:595-614 | All entries of a new peer are free |
| `FrameDeciderGroups.Decider.PeerFree` | app/src/main/jni/badvpn/client/FrameDecider.c:639-648 | The loop takes every entry of the peer from the multicast lists and stops its timer |
| `FrameDeciderDecide.Decider.AnalyzeAndDecide` | app/src/main/jni/badvpn/client/FrameDecider.c:469-509 | Broadcast and IGMP to all, multicast by signature, other frames to the owner of the address or to all |
| `FrameDeciderDecide.Decider.NextDestination` | app/src/main/jni/badvpn/client/FrameDecider.c:512-556 | Returns the destinations one by one, and then none |
| `FrameDeciderDecide.Decider.RouteFrame` | app/src/main/jni/badvpn/client/client.c:2666-2682 | Each destination once, with more set for all but the last; the decider is drained then |
| `FrameDeciderDecide.GroupFramesReachMembers` | app/src/main/jni/badvpn/client/FrameDecider.c:481-496 | A frame to a group reaches exactly the peers with a group of its last 23 bits |
| `FrameDeciderHistory.StepRemembers` | app/src/main/jni/badvpn/client/FrameDecider.c:69-118 | The index knows a MAC exactly as long as its peer is there and fewer than max_peer_macs other MACs have been seen last from that peer since |
| `FrameDeciderHistory.UnicastFollowsHistory` | app/src/main/jni/badvpn/client/FrameDecider.c:499-510 | In any run a frame to an address that is no group goes to exactly the peer the address was last seen from, or to all peers if it was never seen or is known no more |
| `PacketProtoModel.ProcessPrefix` | app/src/main/jni/badvpn/flow/PacketProtoDecoder.c:46-83 | Of a beginning of a stream the decoder takes the first packet exactly when all of it is there |
| `PacketProtoModel.DrainPrefix` | app/src/main/jni/badvpn/flow/PacketProtoDecoder.c:46-128 | Of a beginning of a stream the decoder takes all whole packets, in order, leaves the rest, and finds no error |
| `PacketProtoModel.AnySplit` | app/src/main/jni/badvpn/flow/PacketProtoDecoder.c:46-128 | However the stream is divided, exactly the packets encoded come out in order and nothing is left |
| `PacketProto.Encoder.InputHandlerDone` | app/src/main/jni/badvpn/flow/PacketProtoEncoder.c:51-64 | The packet is the length in 16 bits and the payload |
| `PacketProto.Decoder.constructor` | app/src/main/jni/badvpn/flow/PacketProtoDecoder.c:130-166 | The buffer holds the longest packet with its header |
| `PacketProto.Decoder.MoveToFront` | app/src/main/jni/badvpn/flow/PacketProtoDecoder.c:90-95 | memmove keeps the content |
| `PacketProto.Decoder.ProcessData` | app/src/main/jni/badvpn/flow/PacketProtoDecoder.c:46-105 | A packet, an error or a receive, as the content demands; every receive has positive space |
| `PacketProto.Decoder.InputHandlerDone` | app/src/main/jni/badvpn/flow/PacketProtoDecoder.c:107-119 | Received data is appended to the content, and then a packet, an error or a receive follows as the whole demands |
| `PacketProto.Decoder.OutputHandlerDone` | app/src/main/jni/badvpn/flow/PacketProtoDecoder.c:121-128 | When the output is done the next packet, error or receive follows from the content that is left |
| `PacketProto.Decoder.Reset` | app/src/main/jni/badvpn/flow/PacketProtoDecoder.c:176-182 | Forgets the content, and leaves the receive that is under way its space |
| `PacketProto.TakePackets` | app/src/main/jni/badvpn/flow/PacketProtoDecoder.c:121-128 | While the output is done there comes packet after packet of the stream |
| `PacketProto.DecodeStream` | app/src/main/jni/badvpn/flow/PacketProtoDecoder.c:46-166 | For all payloads within the MTU and all divisions into reads no larger than the space offered: exactly the payloads, in order, never an error |
| `SPProtoModel.UnpadExact` | app/src/main/jni/badvpn/client/SPProtoDecoder.c:88-107 | Exactly the strings the encoder's padding makes are accepted, and the padding is taken off |
| `SPProtoModel.PadLength` | app/src/main/jni/badvpn/client/SPProtoEncoder.c:126-134 | Padding fills up to the next whole block and adds a byte at least |
| `SPProtoModel.ReadExact` | app/src/main/jni/badvpn/client/SPProtoDecoder.c:110-150 | Of plaintexts exactly those with the right hash over a zeroed field and a payload within the MTU are accepted |
| `SPProtoModel.EncodedDecodes` | app/src/main/jni/badvpn/client/SPProtoEncoder.c:87-152 | Decoding an encoded payload gives it back with its one-time password, for any cipher with an inverse |
| `SPProtoModel.DecodedIsEncoded` | app/src/main/jni/badvpn/client/SPProtoDecoder.c:42-155 | What is decoded is what the encoder makes of it for some initialization vector |
| `SPProtoModel.DecodesExactlyEncoded` | app/src/main/jni/badvpn/client/SPProtoDecoder.c:42-155 | A packet is accepted if and only if it is the encoding of a payload within the MTU, and then gives that payload and password |
| `SPProtoModel.MtusMatch` | app/src/main/jni/badvpn/protocol/spproto.h:143-193 | A payload fits into a carrier packet exactly if it is within the payload MTU: the two formulas are inverse |
| `SPProtoModel.LengthsFit` | app/src/main/jni/badvpn/client/SPProtoEncoder.c:304-310 | Padded plaintexts fit the buffers of encoder and decoder, packets the carrier MTU |
| `SPProto.Encoder.EncodeWork` | app/src/main/jni/badvpn/client/SPProtoEncoder.c:87-152 | Header, hash, padding and encryption in place make exactly the encoding of the payload |
| `SPProto.Encoder.WriteHeader` | app/src/main/jni/badvpn/client/SPProtoEncoder.c:104-122 | The hash is taken with zeros in its place and then put there |
| `SPProto.Encoder.WritePadding` | app/src/main/jni/badvpn/client/SPProtoEncoder.c:126-134 | The loop writes a one and zeros up to the block |
| `SPProto.Decoder.DecodeWork` | app/src/main/jni/badvpn/client/SPProtoDecoder.c:42-155 | Decodes, or not without a key; the packet itself is as before |
| `SPProto.Decoder.FindPadding` | app/src/main/jni/badvpn/client/SPProtoDecoder.c:93-106 | The backward scan of the last block finds the one that ends the padding, or that there is none |
| `SPProto.Decoder.CheckHash` | app/src/main/jni/badvpn/client/SPProtoDecoder.c:132-150 | Says whether the hash matches, and leaves the plaintext as it was |
| `SPProto.Decoder.ReadPacket` | app/src/main/jni/badvpn/client/SPProtoDecoder.c:110-154 | Accepts a plaintext exactly if header, length and hash are right, and leaves it as it was |
| `BProtoModel.OnlyMatch` | app/src/main/jni/badvpn/bproto_generator/bproto_functions.php:483-508 | An entry comes to at most one case of the switches |
| `BProtoModel.ItemRead` | app/src/main/jni/badvpn/bproto_generator/bproto_functions.php:349-415 | What a Writer adds is read back at the head of anything |
| `BProtoModel.ReadIsItem` | app/src/main/jni/badvpn/bproto_generator/bproto_functions.php:457-575 | What is read is, byte for byte, what a Writer would have added |
| `BProtoModel.EncodedParses` | app/src/main/jni/badvpn/bproto_generator/bproto_functions.php:457-575 | A whole message parses to the values it was made of |
| `BProtoModel.ParsedIsEncoded` | app/src/main/jni/badvpn/bproto_generator/bproto_functions.php:457-575 | A buffer that parses is the message of what it parses to |
| `BProtoModel.AcceptsExactlyWritten` | app/src/main/jni/badvpn/bproto_generator/bproto_functions.php:422-610 | For any schema: accepted if and only if written from some values in the right numbers, and those are unique |
| `BProto.SameField` | app/src/main/jni/badvpn/bproto_generator/bproto_functions.php:690-693 | The test by type and id in Get finds exactly the entries of the field |
| `BProto.NextValue` | app/src/main/jni/badvpn/bproto_generator/bproto_functions.php:656-756 | Skipping entries of other fields loses no value |
| `BProto.SeenMore` | app/src/main/jni/badvpn/bproto_generator/bproto_functions.php:493-499 | Start and span of each field stay its first and last entry |
| `BProto.Parser.Init` | app/src/main/jni/badvpn/bproto_generator/bproto_functions.php:422-610 | Accepts as the model says, and then every field has all its values unread |
| `BProto.Parser.SeeItem` | app/src/main/jni/badvpn/bproto_generator/bproto_functions.php:493-499 | The window of the field is extended over the entry, the others stay |
| `BProto.Parser.CheckCounts` | app/src/main/jni/badvpn/bproto_generator/bproto_functions.php:580-605 | Decides whether every field is there in a number its cardinality allows |
| `BProto.Parser.ItemAt` | app/src/main/jni/badvpn/bproto_generator/bproto_functions.php:656-754 | Within a window every entry is whole, so that the asserts of Get hold |
| `BProto.Parser.Get` | app/src/main/jni/badvpn/bproto_generator/bproto_functions.php:649-759 | The next value of the field, or none when all have been got; other fields are not moved |
| `BProto.Parser.Reset` | app/src/main/jni/badvpn/bproto_generator/bproto_functions.php:761-764 | All values are unread again |
| `BProto.Parser.Forward` | app/src/main/jni/badvpn/bproto_generator/bproto_functions.php:766-769 | No value of the field is unread |
| `BProto.Parser.GotEverything` | app/src/main/jni/badvpn/bproto_generator/bproto_functions.php:612-637 | Exactly when no field has an unread value |
| `BProto.Parser.AllGot` | app/src/main/jni/badvpn/bproto_generator/bproto_functions.php:628-630 | pos == span is the same as no value left |
| `BProto.Writer.constructor` | app/src/main/jni/badvpn/bproto_generator/bproto_functions.php:303-318 | An empty message |
| `BProto.Writer.Add` | app/src/main/jni/badvpn/bproto_generator/bproto_functions.php:349-415 | The message is the encoding of one value more |
| `BProto.Writer.Finish` | app/src/main/jni/badvpn/bproto_generator/bproto_functions.php:320-337 | The message is accepted by a Parser and parses to what was added |
| `DHCPMessages.OnlyZeros` | app/src/main/jni/badvpn/dhcpclient/BDHCPClientCore.c:277-287 | After the end option only padding is accepted |
| `DHCPMessages.WalkExact` | app/src/main/jni/badvpn/dhcpclient/BDHCPClientCore.c:255-400 | Options are accepted if and only if they are well formed, then an end option and padding; what they say is what applying them in order gives |
| `DHCPMessages.ReadServers` | app/src/main/jni/badvpn/dhcpclient/BDHCPClientCore.c:371-386 | The first sixteen servers at most |
| `DHCPMessages.ReadOptions` | app/src/main/jni/badvpn/dhcpclient/BDHCPClientCore.c:255-400 | The loop with pos and len walks the options as specified |
| `DHCPMessages.LastOptionsCount` | app/src/main/jni/badvpn/dhcpclient/BDHCPClientCore.c:316-387 | Of several options of one type with the right length the last one counts, and one with a wrong length makes the whole message ignored |
| `DHCPClientModel.StartInv` | app/src/main/jni/badvpn/dhcpclient/BDHCPClientCore.c:685-791 | The client starts in a state with its timer running and nothing reported |
| `DHCPClientModel.ReceiveInv` | app/src/main/jni/badvpn/dhcpclient/BDHCPClientCore.c:402-562 | Every message keeps: the timers of the state run and no others, reports alternate and say whether the client is up |
| `DHCPClientModel.FireInv` | app/src/main/jni/badvpn/dhcpclient/BDHCPClientCore.c:591-678 | Every timer handler keeps timers, state and reports in agreement, and a timer fires only in its own states |
| `DHCPClientModel.StepInv` | app/src/main/jni/badvpn/dhcpclient/BDHCPClientCore.c:200-678 | After every event exactly the timers of the state run, at the deadlines they should have, and the reports say whether the client is up |
| `DHCPClientModel.LeaseIsKept` | app/src/main/jni/badvpn/dhcpclient/BDHCPClientCore.c:406-678 | In every punctual run the client is up only until the last acknowledgement plus the lease; a request is given up in time |
| `DHCPClientModel.LeaseOutlastsRequest` | app/src/main/jni/badvpn/dhcpclient/BDHCPClientCore.c:500-531 | Counted from the request, as section 4.4.5 of RFC 2131 has it, the client can be up longer than the lease, by as long as the acknowledgement took |
| `DHCPClientModel.UpStep` | app/src/main/jni/badvpn/dhcpclient/BDHCPClientCore.c:535-562 | An event leaves an up client up with the same configuration or reports it down |
| `DHCPClientModel.ConstantWhileUp` | app/src/main/jni/badvpn/dhcpclient/BDHCPClientCore.c:535-562 | Address, mask, router and servers do not change while the client is up |
| `DHCPClientCore.ClientCore.constructor` | app/src/main/jni/badvpn/dhcpclient/BDHCPClientCore.c:685-791 | Starts the process with a new transaction id |
| `DHCPClientCore.ClientCore.SendMessage` | app/src/main/jni/badvpn/dhcpclient/BDHCPClientCore.c:84-87 | Sends unless a message is being sent |
| `DHCPClientCore.ClientCore.StartProcess` | app/src/main/jni/badvpn/dhcpclient/BDHCPClientCore.c:565-589 | A new transaction id when asked for or used eight times |
| `DHCPClientCore.ClientCore.SendHandlerDone` | app/src/main/jni/badvpn/dhcpclient/BDHCPClientCore.c:200-206 | Afterwards messages are sent again |
| `DHCPClientCore.ClientCore.RecvHandlerDone` | app/src/main/jni/badvpn/dhcpclient/BDHCPClientCore.c:208-563 | For any bytes received: the step of the state machine for the reply that the bytes contain, and none if they contain none |
| `DHCPClientCore.ClientCore.ReceiveNak` | app/src/main/jni/badvpn/dhcpclient/BDHCPClientCore.c:406-464 | Back to resetting from any state that waits for this server, with a report if it was up |
| `DHCPClientCore.ClientCore.TakeOffer` | app/src/main/jni/badvpn/dhcpclient/BDHCPClientCore.c:478-499 | Requests the address offered |
| `DHCPClientCore.ClientCore.ResetTimerHandler` | app/src/main/jni/badvpn/dhcpclient/BDHCPClientCore.c:591-599 | Starts again, with a new transaction id after a reset |
| `DHCPClientCore.ClientCore.RequestTimerHandler` | app/src/main/jni/badvpn/dhcpclient/BDHCPClientCore.c:601-626 | Four requests, then from the beginning |
| `DHCPClientCore.ClientCore.RenewTimerHandler` | app/src/main/jni/badvpn/dhcpclient/BDHCPClientCore.c:628-646 | Half the lease: renewing, with both timers |
| `DHCPClientCore.ClientCore.RenewRequestTimerHandler` | app/src/main/jni/badvpn/dhcpclient/BDHCPClientCore.c:648-660 | Sends another request and waits again, with the lease timer still running |
| `DHCPClientCore.ClientCore.LeaseTimerHandler` | app/src/main/jni/badvpn/dhcpclient/BDHCPClientCore.c:662-678 | Down, and from the beginning |

## Left out

- FragmentRoundTrip.RoundTrip: does not speak of runs that cancel a packet of which a part has been written; FragmentCancel.DeliveredExactly says when all is delivered in those, and when not.
- FragmentCancel.DeliveredExactly: requires that 2^16 frames do not fit into num_frames + 1 packets, which DatagramsAreSpacious shows of the program; beyond that, frame ids could come round to a frame left unfinished. CutCancelLosesNext has the same condition, RoundTrip has not.
- FairQueueTheorems.OverflowIsInvisible: does not speak of runs in which a flow whose time is off sends to the idle queue; InStepExactly says that the queue is out of step in all of these, and IdleForgetsTheTime gives one in which the order differs.
- DataProto.Objects.SinkInitialize: the queue, the keep-alives and the timers that are set up with a sink are not there.
- DataProto.Objects.FlowInitialize: the connector, the inactivity monitor and the route buffer of a flow are not there.
- PeerRelays.Client.PeerInitLink: of making a link only what the relay functions look at; the transport and the receive side are not there.
- PeerRelays.Client.PeerAdd: of a new peer only what the relay functions look at.
- PeerRelays.Client.PeerRemove: of a peer that goes only what the relay functions look at.
- PeerRelays.Client.FreshLinkFor: ends with the link made or not; binding and connecting are not there.
- DHCPClientCore.ClientCore.SendMessage: the bytes and options of the message are not there, only kind, address, server and transaction id.
- DHCPClientModel.LeaseIsKept: is about runs in which no timer is late.
- FrameDeciderDecide.Decider.AnalyzeAndDecide: starts with the destination address and whether the frame is IGMP, and requires that the multicast enumeration before it has been drained, as device_dpsource_handler does.
- Failing allocations, logging, DebugObject, and the freeing of whole objects other than flows, sinks and peers.
- AVL trees and linked lists: their own sources are not part of this model; a tree is a map or a sorted sequence, a list a sequence without duplicates, the ring of entries of one multicast signature a sequence.
- The chunk array and the buffer of a frame are sequences inside the entry, not parts of one big array; so nothing is said of their addresses.
- Packet data in the fair queue: only lengths are kept, since only they count. PacketPassFairQueueFlow_RequestCancel and the queue's busy handler are left to the models of the interface and of DataProto.
- In FairQueueJobs the output of the queue is an event, and all jobs of other objects are foreign jobs that may be set, unset and run at any time.
- DataProto's header, routing, keep-alives and inactivity timers, and sources other than through a flow's buffer.
- Of client.c everything but the relay functions: messages between peers, transports, timers for resets, and the receive side of relaying (DPRelay, DPReceive). Whether a link can be made is a parameter.
- Ethernet, IPv4 and IGMP parsing in FrameDecider: the models start from a MAC address seen from a peer and from a group reported or queried.
- The MAC half and the group half of a FrameDecider peer are two classes, since they share no field; group entries are known by peer and group, and free ones are only counted.
- Changes of the peers between two calls of FrameDecider_NextDestination for the same frame: the caller makes none.
- Hashes, ciphers and one-time passwords: any hash of fixed length, any cipher that is a permutation of strings of whole blocks; the check of the password, its generation, and the worker thread that encodes and decodes.
- Overflow of int in the MTU formulas of SPProto and in the sizes of bproto messages.
- The text of the code bproto generates and the tokenizer of its input: the model is what the generated code does, for a schema given as a value. The caller of Add writes a data payload itself; here it is given to Add.
- The sender's MAC address of a DHCP acknowledgement is not kept.
- Sockets, the reactor, threads, SSL, the command line and the other flow components, which are input and output or simpler relatives of those modelled; StreamBuffer in dostest.
