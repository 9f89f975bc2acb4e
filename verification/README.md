# Verified models of the vendored protocols and algorithms

This project models, in Dafny, five parts of the repository whose correctness rests on
arguments no test can settle, and proves them for all inputs and all runs.

* **The range coder of ENet** (`Externals/enet/compress.c`): an adaptive order-2 model kept as
  binary search trees in one array of 4096 symbols, over a carry-less 32-bit range coder.
  `RangeCoding` is the integer coder and its 32-bit registers, `PpmModel` the statistical model
  as a mathematical object, `SymbolTable`, `SymbolSpans` and `SymbolArray` the array that
  represents it, `PpmStream` the stream of a message, `RangeCompressor` and `RangeDecompressor`
  the two loops. Both loops are proved against the stream; the round trip, the uniqueness of
  decoding and the end of the message without an end symbol follow. `StreamNumbers` says in plain
  numbers which contexts and slices code a message. `TreeShape` shows the tables of the two ends
  isomorphic after every byte, with `IndexSets` for the counting.
* **LZO1X-1** (`Externals/LZO/minilzo.c`): `LzoFormat` reads a stream recursively, `LzoCopy` and
  `LzoDecompress` are the decompressors with their labels, `LzoEncoding` the written
  instructions and their reading, `LzoCompress` the compressor over an arbitrary dictionary,
  `LzoOverrun` the reading of a stream with too little room, cut short, or with more behind it.
* **Tarjan's components** (`Tools/find-includes-cycles.py`): `Tarjan`, with the recursion, the
  stack and the result as the mutable state of a class.
* **The channel queues and the allocator of ENet** (`Externals/enet/peer.c`, `protocol.c`,
  `list.c`, `host.c`): `PeerQueues` says what each operation does, `IncomingChannel` on
  linked rings (`RingList`, `ChannelRings`) and `OutgoingChannel` are the operations,
  `ReliableChannel` the protocol over a network that loses, duplicates and reorders,
  `Transmission` both ends joined over such a network, `UnreliableDispatch` conservation,
  `UnreliableOrder` the order of unreliable traffic, `QueueAnswers` which commands are accepted and
  what becomes of them, `WaitingData` and `LeakCondition` the count of waiting bytes, `Broadcast`
  packets shared by peers, `BandwidthThrottle` the two redistributions.
* **Ed25519** (`Externals/ed25519`): `ScalarField`, `ScalarBytes` and `ScalarReduce` are `sc.c`,
  `FieldElement`, `FieldBytes` and `FieldPowers` are `fe.c`, `PointGroup`, `ScalarRecoding` and
  `ScalarMult` are the scalar multiplications of `ge.c` over an abstract commutative group, and
  `Ed25519` is signing and verification, with its byte tests in `ByteBits` and the range of S in
  `ScalarRange`.

`dafny verify dfyconfig.toml` checks everything.

Code that updates state in place is modelled by methods of classes or over arrays, each proved
against a specification function; the lemmas are about those functions. Sequence
numbers, the registers of the range coder and the counters of the bandwidth division wrap as in the
code. The counts and sums of the coder's tables are proved to fit their bytes and words; the products
of the bandwidth division are unbounded and assumed to fit 32 bits. In the multiplications, squarings,
carries and reductions of the field and scalar code every int32 or int64 product, partial sum and
quotient is required to fit where it is computed.

Where the code and its comments or documentation differ, the model follows the code:

* `enet_peer_remove_incoming_commands` does not lower `totalWaitingData`. `LeakCondition` says exactly
  when a call loses bytes, and gives runs that leak and that stall the channel.
* The window test takes a number for one ahead when one dispatch of reliable commands crosses ten to
  fifteen windows. `UnreliableOrder` says what holds of unreliable commands otherwise, and shows that
  nothing weaker would do.
* The test for unsequenced commands at `Externals/enet/peer.c:897` looks at the arriving command,
  which is never unsequenced there, instead of the queued one. An unsequenced command goes to the
  front of its queue and is dispatched at once, so none is ever queued when the scan runs, and the
  test cannot matter (`UnreliableDispatch.ScanUnharmed`).
* `ed25519_verify` tests the top three bits of S where section 5.1.7 of RFC 8032 asks for S below
  the group order; `Ed25519.Verify` states the test made, and `ScalarRange` where the two differ.
* The bandwidth division takes what a clipped peer can take in off the demand, not what was to be
  sent to it; `BandwidthThrottle.ShareNeverRises` says what follows.

## Model

| member | source | states |
|---|---|---|
| RangeCoding.TruncateInside | Externals/enet/compress.c:126-132 | A range below 2^16 whose interval straddles two top bytes crosses a multiple of 2^16, so the truncation stops at that multiple, never at 0, and the next shift loses no bit |
| RangeCoding.SettleInside | Externals/enet/compress.c:126-136 | Before each output byte the interval shrinks into itself, stays non-empty, and fits one top byte, so shifting magnifies it exactly |
| RangeCoding.NarrowInside | Externals/enet/compress.c:121-125 | Every slice of a ready interval has a step of at least 1 and is a live interval inside it: low + range never passes 2^32 |
| RangeCoding.FlushWindow | Externals/enet/compress.c:139-146 | The flushed bytes, read with zeros after the end, are exactly the final low |
| RangeCoding.NormalizeBack | Externals/enet/compress.c:126-136 | Intervals nest: a reader window inside the interval after renormalising was inside the one before |
| RangeCoding.ReadBack | Externals/enet/compress.c:352 | Dividing the offset of any code inside a coded slice by the step lands in that slice, whatever the remainder of range / total |
| RangeCoding.SlicesDisjoint | Externals/enet/compress.c:352-357 | Two slices of one total that contain a common code overlap as counts |
| RangeCoding.RangeEncoder.Encode | Externals/enet/compress.c:121-137 | The 32-bit loop with its masks computes the integer coder of the specification; it fails exactly when the bytes do not fit the output |
| RangeCoding.RangeEncoder.FlushLow | Externals/enet/compress.c:139-146 | Flushing sends exactly the bytes of low, or fails exactly when they do not fit |
| RangeCoding.RangeDecoder.Decode | Externals/enet/compress.c:354-371 | The decoder registers go through the same interval, and consume byte for byte what the encoder sent |
| PpmModel.UpdateValid | Externals/enet/compress.c:312-314 | Counting a byte and rescaling keeps a context valid (total = escapes + counts + 256 * minimum, under the limit), and no 8-bit count or 16-bit total overflows on the way |
| PpmModel.RescaleValid | Externals/enet/compress.c:107-112 | A rescale brings any total that may trigger it back under the limit and forgets no symbol |
| PpmModel.TouchCommutes | Externals/enet/compress.c:598-614 | Teaching two different contexts one byte does not depend on the order |
| PpmModel.PatchLearns | Externals/enet/compress.c:529-615 | The decoder teaches the final context first and patches the skipped ones afterwards; the model is the one the encoder learns walking down |
| PpmModel.LearnValid | Externals/enet/compress.c:286-329 | A byte keeps the model closed under parent links and adds at most one symbol per context on the way |
| PpmModel.NextBetween | Externals/enet/compress.c:332-336 | Every reachable model between two bytes leaves room for the next one: the 4096 symbols are never exceeded |
| PpmStream.CodeInside | Externals/enet/compress.c:352-371 | At every byte of every message the code of a reader of the whole stream lies inside the interval of the writer |
| PpmStream.OutGrows | Externals/enet/compress.c:114-119 | What has been sent stays a prefix of the stream |
| PpmStream.StreamNotEmpty | Externals/enet/compress.c:339-342 | Only the empty message has an empty stream, so a result of 0 always means failure |
| StreamNumbers.ContextIs | Externals/enet/compress.c:332-335 | For every message: each byte is coded in the context of the last two bytes before it, or of as many as there are since the start or the last reset |
| StreamNumbers.ModelIs | Externals/enet/compress.c:148-157 | The model starts over, with an escape and one of each value, exactly when fewer than three of the 4096 symbols would be left; otherwise it keeps what it learned |
| StreamNumbers.LearnIs | Externals/enet/compress.c:286-329 | Which contexts a byte is counted in: that of two bytes, that of one if the first did not know it, the root if neither did, and no other |
| StreamNumbers.UpdateIs | Externals/enet/compress.c:309-329 | What a context counts, in numbers: two for a byte, three in the root, five for the escapes when the byte is new, and all of it halved, rounding up, above 251, 249 or 65280 |
| StreamNumbers.SlicesAre | Externals/enet/compress.c:286-326 | What codes a byte, in numbers: the escapes of the contexts that do not know it, where they are some and not all, then its slice behind the escapes and all smaller values; in the root each value counts one more |
| StreamNumbers.FirstByte | Externals/enet/compress.c:321-327 | The first byte a of every message is coded as 1 + a, 1 of 257 |
| StreamNumbers.SecondByte | Externals/enet/compress.c:286-327 | The second byte: 1 + a, 4 of 260 when it is the same, and otherwise 1 of 260, three further on behind a |
| StreamNumbers.ThirdByte | Externals/enet/compress.c:302-305 | The same byte a third time: 5, 2 of 7 in the context of one byte |
| StreamNumbers.FourthByte | Externals/enet/compress.c:302-305 | And a fourth time: 5, 2 of 7 in the context of two bytes |
| StreamNumbers.NarrowIs | Externals/enet/compress.c:121-125 | A slice of the interval in numbers |
| StreamNumbers.RenormalizeIs | Externals/enet/compress.c:126-136 | One turn of the renormalisation in numbers: when a byte is sent, when the range is cut at the next multiple of 2^16 and when nothing is left to do |
| StreamNumbers.FlushIs | Externals/enet/compress.c:139-146 | The end of a stream is the bytes of low without the zeros at its end |
| StreamNumbers.FourZeros | Externals/enet/compress.c:246-342 | The stream of four zero bytes is 01 03 96 66 |
| SymbolTable.CountedRepresents | Externals/enet/compress.c:188-195 | Adding to the weights along the path to a present value leaves an array that represents the model with that count raised |
| SymbolTable.CreatedRepresents | Externals/enet/compress.c:68-80 | A new symbol at the end of a search path leaves an array that represents the model with the new symbol and its empty context |
| SymbolTable.Attached | Externals/enet/compress.c:173-187 | A leaf hung where the search ended keeps the tree a search tree with under = left subtree + own count |
| SymbolArray.CodeOrders | Externals/enet/compress.c:386-401 | Comparing a code with the bounds of a node is comparing the value it stands for with the node: lookup by code and lookup by value agree |
| SymbolArray.RescaleRoom | Externals/enet/compress.c:90-112 | The sums a rescale adds up fit sixteen bits |
| SymbolArray.ENetRangeCoder.Reset | Externals/enet/compress.c:82-88 | The fresh table represents the fresh model |
| SymbolArray.ENetRangeCoder.EncodeContext | Externals/enet/compress.c:159-199 | The returned slice is the cumulative count below the value and the count of the value; the array then represents the model with the value counted, with at most one symbol created |
| SymbolArray.ENetRangeCoder.DecodeContext | Externals/enet/compress.c:373-438 | A code inside the slice of a value finds that value and the same slice the encoder coded, also in the gaps of the root where no node exists yet; a code outside is reported as absent and changes nothing |
| SymbolArray.ENetRangeCoder.RescaleTree | Externals/enet/compress.c:90-105 | The recursive walk halves every count of a subtree, recomputes every cached weight and returns the new sum, touching no other tree |
| SymbolArray.ENetRangeCoder.Account | Externals/enet/compress.c:309-314 | Totals, escapes and the rescale test bring the context to the updated context of the model |
| RangeCompressor.EscapeStep | Externals/enet/compress.c:286-316 | An escape splits what a byte codes and teaches into this context and the walk from its parent |
| RangeCompressor.CompressByte | Externals/enet/compress.c:286-329 | One byte sends the slices of the specification and teaches the model, parent links included, or fails exactly when the output is full |
| RangeCompressor.Advance | Externals/enet/compress.c:331-336 | The next context is the longest suffix kept, after a reset the root; predicted and order name it |
| RangeCompressor.EncodeByte | Externals/enet/compress.c:284-336 | One turn of the loop keeps table, registers and output those of the specification, or the output is full |
| RangeCompressor.Compress | Externals/enet/compress.c:246-342 | The result is positive exactly when there is input and its stream fits the output, and then the output is that stream, for one buffer or several |
| RangeDecompressor.EscapeExpected | Externals/enet/compress.c:536-550 | A context that does not know the coming byte reads an escape, or is skipped exactly where the encoder sent nothing |
| RangeDecompressor.ComingEnd | Externals/enet/compress.c:529-580 | After the last byte the flushed low reads as an escape in every context, the root included: the message ends without an end symbol |
| RangeDecompressor.FindByte | Externals/enet/compress.c:529-597 | The search from the longest context to the root finds the coming byte in the context that coded it, or the end exactly when nothing is left |
| RangeDecompressor.PatchContexts | Externals/enet/compress.c:598-615 | After patching, the table represents the model of the encoder and the parent chain is complete, although the symbols were created in another order |
| SymbolSpans.SpannedCreated | Externals/enet/compress.c:173-187 | Where a value sits in its tree is decided by the order in which the values of its context came, whichever index it gets |
| TreeShape.SameModelSameShape | Externals/enet/compress.c:9-22 | Two tables that represent one model are isomorphic: a bijection of indices keeps value, count, under, left, right, symbols, escapes, total and parent |
| TreeShape.Synchronised | Externals/enet/compress.c:529-624 | After every byte of every message the tables of the two ends are isomorphic, with the same order, the same number of symbols and corresponding predicted contexts |
| RangeDecompressor.DecodeByte | Externals/enet/compress.c:520-615 | Each turn of the loop returns the next byte of the message, or stops exactly at its end |
| RangeDecompressor.Decompress | Externals/enet/compress.c:498-627 | On the stream of a message: the message if there is room for it, 0 if not |
| RangeDecompressor.SameEvent | Externals/enet/compress.c:529-597 | From one model and one stream only one continuation is possible |
| RangeDecompressor.StreamInjective | Externals/enet/compress.c:246-342 | Different messages have different streams |
| RangeDecompressor.NoMessage | Externals/enet/compress.c:352 | No message has a stream that begins with four bytes 0xFF |
| RangeDecompressor.PastTheRoot | Externals/enet/compress.c:352-438 | Those bytes read in the fresh root as the value 256, which no byte holds |
| RangeDecompressor.RoundTrip | Externals/enet/compress.c:246-342 | Decompressing with a second coder what the first compressed gives back all the input whenever compression succeeded and there is room |
| LzoFormat.DecodeUnchecked | Externals/LZO/minilzo.c:3308-3699 | Whatever stream with an end marker the checked decompressor accepts, the unchecked one decodes to the same code and output |
| LzoOverrun.DecodeRoom | Externals/LZO/minilzo.c:3750-3756 | A stream with its end marker decodes to the same in any room that holds its output; in less it is an output overrun, after a beginning of the output that fits |
| LzoOverrun.DecodeCut | Externals/LZO/minilzo.c:3739-3745 | No proper beginning of an accepted stream is accepted: the end of the input is noticed, or would be passed |
| LzoOverrun.DecodeMore | Externals/LZO/minilzo.c:4164-4168 | An accepted stream with anything behind it gives the same output and the code for input not consumed |
| LzoCopy.CopyMatchAt | Externals/LZO/minilzo.c:4131-4133 | Byte i of a match copy is the byte dist before it, also where the copy overlaps itself |
| LzoCopy.CopyMatchSplit | Externals/LZO/minilzo.c:4120-4126 | A match copy can be split anywhere |
| LzoCopy.CopyBack | Externals/LZO/minilzo.c:4110-4134 | The copy in chunks of four at distance four or more equals the copy byte by byte |
| LzoCopy.CopyRun | Externals/LZO/minilzo.c:3871-3901 | The copy of a literal run in chunks of four equals the copy byte by byte |
| LzoDecompress.ReadLength | Externals/LZO/minilzo.c:3860-3870 | The length loops compute 255 per zero byte plus the base and the last byte, or run out of input exactly when all that is left is zeros |
| LzoDecompress.Decompress | Externals/LZO/minilzo.c:3796-4187 | The goto program, checked or not, has the outcome of the recursive reading of the stream: error code, length and every output byte |
| LzoEncoding.LongRead | Externals/LZO/minilzo.c:3036-3045 | A long length reads back as the length it was written for |
| LzoEncoding.FarMatchRead | Externals/LZO/minilzo.c:3075-3144 | Every M3 and M4 match, with any number of literals patched into its low bits, is read back as that match |
| LzoEncoding.NearMatchRead | Externals/LZO/minilzo.c:3064-3069 | The same for M2 matches |
| LzoEncoding.ShortMatchRead | Externals/LZO/minilzo.c:3907-3929 | The two matches the compressor never writes are read too: two bytes from at most 1024 back after one to three literals, three bytes from 2049 to 3072 back after a longer run |
| LzoEncoding.MatchReaches | Externals/LZO/minilzo.c:3027-3031 | Patching the next-to-last byte of a match already written announces the literals and changes nothing else |
| LzoEncoding.EndReached | Externals/LZO/minilzo.c:3201-3203 | The end marker turns output so far into an accepted stream |
| LzoEncoding.MatchSaves | Externals/LZO/minilzo.c:2951-2960 | A match is at least one byte shorter than what it stands for, given the fourth equal byte of far matches |
| LzoEncoding.MatchSizeIs | Externals/LZO/minilzo.c:3064-3144 | What a match takes: two bytes near and short, otherwise three and one for every 255 bytes of length beyond 33, or 9 far away |
| LzoEncoding.RunCostIs | Externals/LZO/minilzo.c:3023-3045 | What a run of literals costs after a match: nothing up to three, one byte up to 18, then one more for every 255 or part |
| LzoEncoding.CopyContinues | Externals/LZO/minilzo.c:3050-3101 | A match whose bytes all agree continues the message when copied |
| LzoCompress.FindMatch | Externals/LZO/minilzo.c:2946-2988 | Exactly which slot is probed last, that the place in it is found if and only if it is a candidate, and that this slot alone becomes ip, whatever integers the dictionary holds |
| LzoCompress.HashIs | Externals/LZO/minilzo.c:2629 | The slot probed first, without the nesting of the macros: 33 times the xor of the four bytes five, five and six bits apart, of that fourteen bits from the sixth |
| LzoCompress.SecondSlotIs | Externals/LZO/minilzo.c:2630 | The slot probed second: the low five bits turned round, the top ones 100, the rest as in the first |
| LzoCompress.MatchLength | Externals/LZO/minilzo.c:3051-3102 | All bytes of the match agree, and it ends at the end of the input or at a byte that differs |
| LzoCompress.StepCost | Externals/LZO/minilzo.c:3023-3145 | A literal run and a match together cost at most a sixteenth of the input they cover |
| LzoCompress.DoCompress | Externals/LZO/minilzo.c:2922-3157 | At its end the output decodes to the input up to the last match; the matches are those of the probes one after the other from the given dictionary, and the output has exactly the size of them and the literals between |
| LzoCompress.Compress | Externals/LZO/minilzo.c:3159-3207 | For every input and every dictionary content the output decodes to the input at any sufficient capacity, has at most n + n/16 + 67 bytes and exactly the size the probes from that dictionary give; more than 13 equal bytes become at most n/255 + 13, unless there are at most 18 and no usable entry |
| LzoCompress.RoundTrip | Externals/LZO/minilzo.c:3159-3207 | Compressing and decompressing, checked or unchecked, returns LZO_E_OK and the original bytes |
| Tarjan.ReachStays | Tools/find-includes-cycles.py:49-56 | Nothing outside a closed set is reached from inside it |
| Tarjan.FinishKeep | Tools/find-includes-cycles.py:58-59 | A call that ends with a lower lowlink leaves its nodes on the stack in a state that keeps every invariant |
| Tarjan.PoppedClosed | Tools/find-includes-cycles.py:59-68 | No edge leads from the popped nodes to anything but themselves and components listed before |
| Tarjan.PoppedMutual | Tools/find-includes-cycles.py:59-68 | Every popped node leads to the root of the component and back |
| Tarjan.PoppedComponent | Tools/find-includes-cycles.py:59-68 | The popped tuple is exactly one strongly connected component, without repetition |
| Tarjan.FinishPop | Tools/find-includes-cycles.py:58-68 | Popping a component keeps every invariant |
| Tarjan.Search.StrongConnect | Tools/find-includes-cycles.py:37-68 | A call numbers everything it reaches, keeps every invariant of stack, index and result, leaves earlier lowlinks alone and terminates, also on successors that are not keys |
| Tarjan.StronglyConnectedComponents | Tools/find-includes-cycles.py:23-74 | The result lists exactly the nodes reached from the keys, each once, as strongly connected components in reverse topological order |
| Tarjan.LeadsBack | Tools/find-includes-cycles.py:23-74 | A component never leads to a later one |
| Tarjan.SameTuple | Tools/find-includes-cycles.py:23-74 | Two listed nodes share a tuple exactly when each leads to the other |
| Tarjan.PrintedCycles | Tools/find-includes-cycles.py:76-80 | A file is in a printed tuple exactly when it is on a cycle through another file |
| IncomingChannel.Channel.DispatchUnreliableCommands | Externals/enet/peer.c:701-782 | The one-pass scan with its three moving positions dispatches the deliverable commands, frees the outdated ones and keeps the rest, as the specification says command by command: on the linked rings, with the iterators carried across every move, and all rings are whole at the end |
| IncomingChannel.Channel.DispatchReliableCommands | Externals/enet/peer.c:784-821 | The commands at the front that continue the sequence are dispatched, a group counting for all its fragments, then the unreliable ones they were holding back; the rings are whole at the end |
| IncomingChannel.Channel.QueueIncomingCommand | Externals/enet/peer.c:823-1002 | The command is discarded, refused or queued as the specification decides, in the linked ring at the place the backward scan finds, an unsequenced one at the front, and what it completes is dispatched; every ring stays whole, every queued packet held once |
| IncomingChannel.Channel.HandleSendFragment | Externals/enet/protocol.c:515-621 | A fragment opens its group or fills a hole in it once; it is an error exactly when it is too large, malformed, names a command that is not its group or opens a group that is not accepted; a complete group is dispatched, in rings that stay whole |
| IncomingChannel.Channel.HandleSendReliable | Externals/enet/protocol.c:425-445 | A whole command is queued unless it is too large; an error exactly when it is that or the queue answers with nothing |
| IncomingChannel.Channel.RemoveIncomingCommands | Externals/enet/peer.c:270-296 | Exactly the nodes from the first up to the last leave their ring, each packet is let go once and destroyed, and every other ring and packet is as before |
| IncomingChannel.Channel.ScanReliable | Externals/enet/peer.c:858-881 | Walking back over the ring finds the place, or the duplicate, of the specification |
| IncomingChannel.Channel.ScanUnreliable | Externals/enet/peer.c:891-922 | The same for the unreliable ring |
| IncomingChannel.Channel.Receive | Externals/enet/peer.c:221-247 | The application gets the packets in the order of dispatch, each once and no longer held, and the waiting data falls by its size |
| IncomingChannel.Channel.ResetIncoming | Externals/enet/peer.c:298-333 | Afterwards the rings are empty and every packet that was held has been freed once |
| IncomingChannel.QueueSettled | Externals/enet/peer.c:823-1002 | A command of any kind and content leaves no group half counted and nothing waiting that could be dispatched |
| IncomingChannel.AssembleSettled | Externals/enet/protocol.c:515-621 | So does a fragment of any content, malformed or not |
| IncomingChannel.Received | Externals/enet/peer.c:784-1002 | After any arrivals in any order bitmaps and counters agree and every reliable command that could be dispatched has been: what the fragment handler relies on |
| IncomingChannel.DeliveredRun | Externals/enet/peer.c:706-765 | A run of deliverable commands between two positions of the scan is what is dispatched |
| ReliableChannel.WindowTest | Externals/enet/peer.c:838-849 | On timely copies the sixteen-bit window test decides whether the true number is the current one or near ahead of it |
| ReliableChannel.StaleAlias | Externals/enet/peer.c:842-848 | An old copy passes for a new one exactly when it is more than windows - free windows + 1 windows stale: the assumption of timeliness cannot be weakened |
| ReliableChannel.Compare | Externals/enet/peer.c:864-879 | Comparing wrapped numbers on the two sides of the current one orders near numbers truly |
| ReliableChannel.SpotTrue | Externals/enet/peer.c:858-880 | Where the scan on wrapped numbers stops is where the packet belongs among those queued, and it finds duplicates exactly |
| ReliableChannel.ReadyInOrder | Externals/enet/peer.c:789-803 | The commands dispatched at once are the next packets sent, in order, without a gap, across wrap-around and fragment groups |
| ReliableChannel.FilledHolds | Externals/enet/protocol.c:603-614 | Copying a fragment into its hole keeps the group equal to the packet wherever it is filled, and the count of holes right |
| ReliableChannel.PieceLinked | Externals/enet/protocol.c:515-621 | Any fragment of any packet, in any order and any number of times, keeps the channel safe |
| ReliableChannel.WholeLinked | Externals/enet/peer.c:823-1002 | Any copy of any unfragmented packet keeps the channel safe |
| ReliableChannel.OtherLinked | Externals/enet/peer.c:823-1002 | Unreliable and unsequenced traffic on the channel, arbitrary in content, keeps it safe |
| ReliableChannel.StepSafe | Externals/enet/peer.c:823-1002 | Every step of the system, a send or the arrival of a timely copy of anything sent, keeps it safe |
| ReliableChannel.RunSafe | Externals/enet/peer.c:784-881 | Every state of every run is safe |
| ReliableChannel.ReliableSafety | Externals/enet/peer.c:784-881 | Under any loss, duplication and reordering of timely copies the reliable data dispatched is at every moment a prefix of the data sent |
| ReliableChannel.NextWhole | Externals/enet/peer.c:784-881 | Progress: the next packet, when a copy arrives and is not refused, is dispatched at once |
| Transmission.WireGrows | Externals/enet/peer.c:99-214 | The commands queued by each send extend the wire so that it carries every part of every packet sent, once and in order, and what was carried before is still what it was |
| Transmission.ArrivalIsStep | Externals/enet/protocol.c:425-621 | Whatever reliable command is taken off the wire, its arrival is a step of the protocol |
| Transmission.NextArrives | Externals/enet/peer.c:784-881 | Progress over every run: the next packet, sent whole and not refused, is dispatched by its arrival |
| Transmission.Connection.Send | Externals/enet/peer.c:99-214 | A send on the real sending side extends the wire by exactly the packet and the run of the protocol by one state when it goes reliably, and touches nothing of the receiving side |
| Transmission.Connection.Deliver | Externals/enet/protocol.c:425-621 | Any queued command, delivered any number of times in any order: the receiving side is the queue or the assembly of the specification, the error result exact, the run longer by the new state; the next packet is dispatched if there is room for it |
| Transmission.Connection.DeliverOther | Externals/enet/peer.c:823-1002 | Unreliable and unsequenced commands of any content may arrive in between: the receiving side is the queue of the specification, the run longer by the new state |
| Transmission.Connection.Receive | Externals/enet/peer.c:221-247 | A packet is received exactly when one is dispatched and not yet taken, it is the next of those, and the waiting data falls by its size; the run is longer by the new state |
| Transmission.Connection.InOrder | Externals/enet/peer.c:99-247 | After any sends, deliveries and receives the reliable packets the application has got are a prefix of the packets given to enet_peer_send |
| ReliableChannel.LastPiece | Externals/enet/protocol.c:603-617 | Progress: the fragment that completes the next packet dispatches it at once |
| UnreliableDispatch.DeliveredInOrder | Externals/enet/peer.c:701-782 | The dispatched commands are exactly the deliverable ones, in queue order |
| UnreliableDispatch.Partition | Externals/enet/peer.c:701-782 | Every command of the queue is dispatched, freed or still queued, and only once |
| UnreliableDispatch.QueueAfter | Externals/enet/peer.c:736-749 | A dispatch leaves at most two incomplete commands in front, and the next command waits for reliable ones; what stands behind that one is said in UnreliableOrder |
| UnreliableDispatch.Twice | Externals/enet/peer.c:701-782 | A second dispatch changes nothing |
| UnreliableDispatch.QueueConserves | Externals/enet/peer.c:823-1002 | Queueing adds the command once when it is accepted and leaves no trace when it is not |
| UnreliableDispatch.RunConserves | Externals/enet/peer.c:701-1002 | After any sequence of commands, what was accepted is exactly what is dispatched, freed or waiting |
| UnreliableDispatch.QueueQuiet | Externals/enet/peer.c:823-1002 | A command of any kind leaves the unreliable queue quiet: at most two incomplete commands in front, then one that waits for reliable commands, and no unsequenced command anywhere |
| UnreliableDispatch.ReceivedQuiet | Externals/enet/peer.c:701-1002 | The queue is quiet after any arrivals in any order |
| UnreliableDispatch.UnsequencedFirst | Externals/enet/peer.c:925-972 | In every state an accepted unsequenced command is dispatched by the call that queues it, before anything else |
| UnreliableDispatch.UnsequencedAtOnce | Externals/enet/peer.c:925-972 | Between calls that is all the call does: it frees nothing, and both queues and both numbers stay as they were |
| UnreliableDispatch.ScanUnharmed | Externals/enet/peer.c:891-922 | After any arrivals the scan with the test of line 897 finds the place it would find if it passed over unsequenced commands |
| UnreliableOrder.SpotInLine | Externals/enet/peer.c:891-922 | On a queue in the order of its numbers the scan from the back stops where the new number belongs and finds duplicates exactly, across the wrap |
| UnreliableOrder.Passing | Externals/enet/peer.c:736-749 | What the window test says of a number that was ahead when the current one moves on: ahead by as much less, or seen to be out of date, unless the current one overtakes |
| UnreliableOrder.OvertakesWindows | Externals/enet/peer.c:739-744 | Overtaking is crossing ten to fifteen windows in one dispatch |
| UnreliableOrder.WaitsExactly | Externals/enet/peer.c:701-821 | For each two numbers: every dispatch that takes the current number from one to the other leaves nothing but waiting commands behind the incomplete ones if and only if it does not overtake |
| UnreliableOrder.StretchedBreaks | Externals/enet/peer.c:736-749 | For each overtaking a queue in order that is left with a command out of date behind one that seems to wait |
| UnreliableOrder.ReceivedOrdered | Externals/enet/peer.c:701-1002 | After any arrivals without overtaking the queue is in the order of its numbers, each once, and all behind at most two incomplete commands wait for reliable ones |
| UnreliableOrder.ReceivedOnTime | Externals/enet/peer.c:701-1002 | After any arrivals whatever, every numbered unreliable command was dispatched after the reliable command it names and before the next one |
| UnreliableOrder.ReceivedRising | Externals/enet/peer.c:701-1002 | After any arrivals without overtaking the numbers dispatched between two reliable commands rise, so none comes twice |
| UnreliableDispatch.ReliableNeverFreed | Externals/enet/peer.c:781 | No reliable command is ever freed undelivered |
| QueueAnswers.UnreliableAnswer | Externals/enet/peer.c:838-922 | In every ordered state: a numbered unreliable command is queued if and only if nothing is disconnecting, there is room, its number is at most six windows ahead, it comes after the last one dispatched and no copy is queued; if not wanted it is answered by the dummy command or, in parts, by none |
| QueueAnswers.UnreliableAtOnce | Externals/enet/peer.c:964-976 | An accepted whole one of the current number is dispatched by that call, it alone, and any other dispatches nothing |
| QueueAnswers.UnreliableKept | Externals/enet/peer.c:717-781 | Exactly what the call leaves queued and gives up: a command ahead of its time waits in its place, and incomplete ones of the current number are given up when a later one is dispatched or two later ones are incomplete |
| QueueAnswers.Released | Externals/enet/peer.c:784-821 | When reliable commands are dispatched, exactly the whole unreliable ones of the number reached follow, in order, and those of later numbers go on waiting |
| QueueAnswers.UnsequencedAnswer | Externals/enet/peer.c:826-936 | An unsequenced command is queued unless something is disconnecting or there is no room |
| QueueAnswers.ReliableAnswer | Externals/enet/peer.c:838-881 | In every state of the protocol a timely copy is queued if and only if nothing is disconnecting, there is room, the true number of its packet is one to six windows ahead of what was dispatched, and nothing of the packet is queued; duplicates are answered by the dummy command or, in parts, by none |
| QueueAnswers.FragmentAnswer | Externals/enet/protocol.c:531-587 | And for which content a fragment of that number is an error |
| OutgoingChannel.Channel.SetupOutgoingCommand | Externals/enet/peer.c:616-680 | Each kind of command gets its numbers from the right counters, which wrap at sixteen bits, and goes to the end of the right queue |
| OutgoingChannel.Channel.Cut | Externals/enet/peer.c:140-177 | Exactly ceil(length / room) fragments, consecutive and covering the packet, each full but the last |
| OutgoingChannel.FragmentPart | Externals/enet/peer.c:164-174 | The k-th fragment with its number is the command the receiving side expects for piece k of the packet |
| OutgoingChannel.Channel.Send | Externals/enet/peer.c:99-214 | An error queues nothing; otherwise the queue grows by exactly the commands the receiver expects for this packet, the counters move on by exactly those numbers, which packets go reliably is said outright, and every packet is counted by as many more references as there are new commands that hold it, whatever other peers hold |
| OutgoingChannel.HoldingMoreAll | Externals/enet/peer.c:179 | New commands of one packet raise its count of holders by their number and no other count |
| OutgoingChannel.Channel.ResetOutgoingCommands | Externals/enet/peer.c:249-268 | Emptying any queue takes its holders off every count and destroys exactly the packets whose last holder, of whatever peer, was in it |
| OutgoingChannel.Channel.ResetQueues | Externals/enet/peer.c:321-322 | After the queues of commands still to be sent are emptied this peer holds no packet, the counts are those of the other peers, and exactly the packets it held alone are destroyed |
| Broadcast.Broadcast | Externals/enet/host.c:261-273 | Exactly the connected peers that can take the packet have gained its commands, its one count is the number of commands of all peers that hold it, every other count is still right, and it is destroyed exactly when nobody holds it |
| WaitingData.QueueOwed | Externals/enet/peer.c:823-1002 | The waiting data stays the size of the packets queued, of those dispatched and not yet received, and of those freed undelivered |
| WaitingData.AssembleOwed | Externals/enet/protocol.c:515-621 | So it does when a fragment of any content arrives |
| WaitingData.After | Externals/enet/peer.c:221-296 | And over every run of arrivals and receives, in any order |
| WaitingData.Leak | Externals/enet/peer.c:270-296 | With all queues empty and everything received the waiting data is exactly the size of what was freed undelivered |
| LeakCondition.ScanLosesNothing | Externals/enet/peer.c:717-781 | For every queue and current number: a scan loses no byte of the count if and only if every command it finds out of date, and every incomplete one not among the last two or with another kind behind it, carries no data |
| LeakCondition.QueueLosesNothing | Externals/enet/peer.c:823-1002 | For every command in every state: the call loses no byte if and only if the scan it causes, if any, gives up nothing that carries data |
| LeakCondition.AssembleLosesNothing | Externals/enet/protocol.c:515-621 | The same for every fragment |
| LeakCondition.RunLosesNothing | Externals/enet/peer.c:221-1002 | After every run nothing has been lost if and only if every event was harmless in the state it met |
| LeakCondition.CountExact | Externals/enet/peer.c:221-1002 | The waiting data counts just the packets still queued or to be received if and only if every event was harmless in the state it met |
| LeakCondition.LateLeaks | Externals/enet/peer.c:736-781 | A run that leaks: with reliable commands 2 and 1 and between them an unreliable one of any size below the limit, all queues end empty, everything is received, and the size of the unreliable packet is still counted |
| LeakCondition.StallHappens | Externals/enet/peer.c:933 | A run that stalls: three arrivals lose a packet as large as the limit, and no command is accepted in any continuation |
| WaitingData.Stalled | Externals/enet/peer.c:933 | Once that reaches the limit no command is accepted in any continuation of the run |
| RingList.Insert | Externals/enet/list.c:20-32 | The ring with the new node after r[i], whole: every next and previous link, forwards and backwards |
| RingList.Remove | Externals/enet/list.c:34-41 | The ring without the node, whole |
| RingList.Move | Externals/enet/list.c:43-59 | Both rings are whole: one without the run, the other with the run in order at the position |
| RingList.List.Size | Externals/enet/list.c:61-73 | The loop around the ring returns the number of elements |
| BandwidthThrottle.ClipPeers | Externals/enet/host.c:365-408 | The loop ends; with a limit both counters have gone down by exactly what the clipped peers can take in, without wrapping; every peer left is content with the common share, every clipped one got its own, within the budget, and none was clipped that could take in its part of the bandwidth |
| BandwidthThrottle.DivideOutgoing | Externals/enet/host.c:349-433 | The common share in numbers: all when the demand left fits the bandwidth left, and otherwise as many thirty-seconds as fit, with less than one thirty-second of the demand unused; each clipped peer gets as many thirty-seconds as it can take in; together they are sent no more than the bandwidth |
| BandwidthThrottle.GrantWithinCapacity | Externals/enet/host.c:385-396 | No peer with a limit of its own is granted more than it can take in, but for the clamp of the share to at least one |
| BandwidthThrottle.ShareNeverRises | Externals/enet/host.c:405-406 | While demand exceeds the bandwidth, clipping a peer never raises the share of the others, since the code takes the same amount off demand and bandwidth |
| BandwidthThrottle.SettlePeers | Externals/enet/host.c:443-469 | The loop ends with the settled peers and equal shares for the rest within the bandwidth, and less than one unit a peer left over |
| BandwidthThrottle.DivideIncoming | Externals/enet/host.c:435-489 | What the peers are told to send adds up to no more than the incoming bandwidth, and to nearly all of it when anyone wants more than the limit; a peer is told 0, which it reads as no limit, exactly when it has no limit of its own or the share itself is 0, and the sum counts it as nothing |
| BandwidthThrottle.Host.Throttle | Externals/enet/host.c:327-490 | The whole call: nothing before a second has passed; then the shares and limits of every peer and the common share in numbers; and when limits are recalculated, what every peer is told, a common level no less than an equal part, within the bandwidth and nearly all of it |
| PointGroup.TimesAdd | Externals/ed25519/ge.c:60-67 | Multiples add in any commutative group, for all integers |
| PointGroup.TimesTimes | Externals/ed25519/ge.c:60-67 | Multiples of multiples multiply |
| ScalarRecoding.CarryRoom | Externals/ed25519/ge.c:41-51 | When a digit is taken below and carried, the carry finds a zero before the end of the array |
| ScalarRecoding.CarryUp | Externals/ed25519/ge.c:44-51 | The carry loop adds one to the binary number above |
| ScalarRecoding.Slide | Externals/ed25519/ge.c:25-58 | The digits are zero or odd within 15 and still stand for the scalar, for every scalar up to 2^255 |
| ScalarRecoding.Radix16 | Externals/ed25519/ge.c:394-411 | Sixty-four digits between -8 and 8 that stand for the scalar, when its top byte is at most 127 |
| ScalarMult.Multiples | Externals/ed25519/ge.c:77-100 | The eight entries are A, 3A, ..., 15A |
| ScalarMult.DoubleScalarMult | Externals/ed25519/ge.c:67-130 | In any commutative group the result is a * A + b * B |
| ScalarMult.AbsoluteIs | Externals/ed25519/ge.c:343-359 | The masked byte arithmetic yields sign and absolute value of a digit |
| ScalarMult.Select | Externals/ed25519/ge.c:356-375 | The eight conditional moves and the last one select b * 256^pos * B |
| ScalarMult.ScalarMultBase | Externals/ed25519/ge.c:386-434 | In any commutative group the result is a * B when the top byte of a is at most 127 |
| ScalarBytes.LoadLongValue | Externals/ed25519/sc.c:36-59 | The twenty-four masked and shifted loads are the 64-byte number in base 2^21 |
| ScalarBytes.LoadScalarValue | Externals/ed25519/sc.c:363-398 | The twelve loads are the 32-byte number |
| ScalarBytes.StoreValue | Externals/ed25519/sc.c:315-346 | The thirty-two bytes written are the number of the limbs, also when the last limb has one bit more |
| ScalarField.FoldValue | Externals/ed25519/sc.c:78-84 | A fold takes off a multiple of l = 2^252 + 27742317777372353535851937790883648493 |
| ScalarField.LastFold | Externals/ed25519/sc.c:238-280 | The carries bring the value between -2^252 and 2^252, so the quotient of the last fold is -1 or 0 and the fold leaves the canonical residue |
| ScalarField.ReduceLimbs | Externals/ed25519/sc.c:78-314 | For all limbs within 2^31 the folds and carries leave the residue mod l with all limbs in range; each step is only defined where its products and sums fit int64 |
| ScalarReduce.ScReduce | Externals/ed25519/sc.c:35-347 | The first half of the array becomes s mod l for every 64 bytes, in place, the second half is untouched |
| ScalarReduce.ColumnsValue | Externals/ed25519/sc.c:447-470 | The column sums are the product of the two numbers |
| ScalarReduce.ScMulAdd | Externals/ed25519/sc.c:362-809 | (a * b + c) mod l for all 32-byte a, b, c |
| Ed25519.Sign | Externals/ed25519/sign.c:7-31 | R encodes nonce * B with the hash of the second half of the private key and the message as nonce, and S is that plus the hash of R, public key and message times the scalar, mod l, as in section 5.1.6 of RFC 8032 |
| Ed25519.ConsttimeEqual | Externals/ed25519/verify.c:6-45 | The collected differences are zero exactly when the arrays are equal |
| ByteBits.TopBits | Externals/ed25519/verify.c:54 | The mask test is a comparison with 32 |
| Ed25519.Verify | Externals/ed25519/verify.c:47-77 | Acceptance is exactly the equation of section 5.1.7 of RFC 8032, with the hash of R, public key and message, the top three bits of S clear and the key decodable |
| Ed25519.TimesModulo | Externals/ed25519/verify.c:69 | Multiples of a point of order l depend on the scalar mod l only |
| Ed25519.SignatureEquation | Externals/ed25519/verify.c:69 | S * B - h * A is nonce * B |
| Ed25519.SignedIsAccepted | Externals/ed25519/verify.c:47-77 | Whatever the signer produces for the public key of its private key satisfies the acceptance equation |
| Ed25519.SignThenVerify | Externals/ed25519/sign.c:7-31 | Signing and then verifying accepts, for every key and message |
| ScalarRange.BelowOrder | Externals/ed25519/verify.c:54 | For S below the order the code accepts exactly what section 5.1.7 of RFC 8032 accepts |
| ScalarRange.AboveOrder | Externals/ed25519/verify.c:54 | For S from the order to 2^253 the code accepts exactly when it, and the standard, accept S minus the order with the same R, and the standard rejects S |
| ScalarRange.AcceptsExactly | Externals/ed25519/verify.c:47-77 | For every signature: when the code accepts, in terms of what the standard accepts |
| ScalarRange.SignedTwice | Externals/ed25519/verify.c:47-77 | Where they differ: beside every signature of the signer the one with S plus the order is rejected by the standard and accepted by the code exactly when it is below 2^253 |
| FieldElement.ProductResidue | Externals/ed25519/fe.c:556-704 | The ten columns with their factors 19 and 2 are the product mod 2^255 - 19 |
| FieldElement.CarryProduct | Externals/ed25519/fe.c:714-754 | The twelve carries keep the residue, fit int64 and bring the limbs within 1.01 * 2^25 and 1.01 * 2^24 |
| FieldElement.FeMul | Externals/ed25519/fe.c:556-765 | f * g mod 2^255 - 19 for all limbs within 1.65 * 2^26 and 1.65 * 2^25; every product and every partial sum is only formed where it fits int64 |
| FieldElement.AllSquares | Externals/ed25519/fe.c:982-1070 | The fifty-five products of the squaring are the columns of f * f |
| FieldElement.FeSq | Externals/ed25519/fe.c:982-1127 | f^2 under the same bounds |
| FieldElement.FeSq2 | Externals/ed25519/fe.c:1145-1300 | 2 f^2 under the same bounds |
| FieldBytes.QuotientIsExact | Externals/ed25519/fe.c:1408-1418 | The chain of shifts, started from a rounded top limb, is the exact quotient by 2^255 - 19 |
| FieldBytes.PackedValue | Externals/ed25519/fe.c:1453-1490 | Packing ten reduced limbs into thirty-two bytes keeps the number |
| FieldBytes.FeToBytes | Externals/ed25519/fe.c:1386-1491 | The bytes are the unique representative in [0, p) |
| FieldBytes.FeFromBytes | Externals/ed25519/fe.c:297-360 | The limbs are within bounds and stand for the low 255 bits |
| FieldBytes.ReadWrite | Externals/ed25519/fe.c:297-360 | Reading and writing back gives the same bytes exactly when they, top bit included, are below p |
| FieldBytes.WriteRead | Externals/ed25519/fe.c:1386-1491 | Writing and reading back keeps the element mod p |
| FieldPowers.FeInvert | Externals/ed25519/fe.c:364-448 | The addition chain computes z^(2^255 - 21) |
| FieldPowers.FePow22523 | Externals/ed25519/fe.c:881-964 | The addition chain computes z^(2^252 - 3) |

## Left out

- RangeDecompressor.Decompress: stated for the streams of messages only; other bytes, such as those of NoMessage and PastTheRoot, can code a value of 256, and what the original then does with its trees, within its 4096 symbols, is not modelled
- RangeCompressor.Compress: an empty buffer after the first is excluded, because the original reads past its end
- LzoDecompress.Decompress: where the original reads a byte past the end of the input, as both decompressors can on streams without an end marker, the outcome is Undefined; the unchecked decompressor is only given streams the checked one accepts
- LzoCompress.Compress: the hash function is as in the code but the dictionary is arbitrary integers, and entries that do not point into the window are treated as the check at try_match treats them; word-sized loads are byte comparisons
- ReliableChannel.ReliableSafety: assumes that copies in flight are timely; the send window and the timeouts that are to ensure it are not modelled, and StaleAlias shows that nothing weaker would do. The window constants are those of Externals/enet/include/enet/enet.h:232-234, the limits on fragments and MTU those of include/enet/protocol.h:12-20
- IncomingChannel.Channel.QueueIncomingCommand: the fields of a command other than its links are looked up by its node, and a bitmap of fragments is a sequence of bool; one channel a peer, so the list of dispatched commands and the waiting data belong to the channel
- OutgoingChannel.Channel.Send: one channel a peer, so the checks of the channel number and the commands of channel 0xFF are missing; ordering in the queues is by sequence, not by ring
- UnreliableOrder.ReceivedRising: shown for runs without overtaking; no run is given in which overtaking breaks the order of what is dispatched, as WaitsExactly does for what is queued
- IncomingChannel.Channel.HandleSendReliable: the peer is connected, the channel number in range and the command inside the datagram; the window of unsequenced groups is left out
- OutgoingChannel.Channel.ResetQueues: the queues of commands already sent are not modelled, so two of the four queues are emptied; ResetOutgoingCommands takes any queue and whatever else holds packets
- Transmission.Connection.Deliver: only timely copies are delivered, as in ReliableChannel.ReliableSafety; a command is on the wire from the moment it is queued, and resending is delivering it again
- TreeShape.Synchronised: stated of tables in step with one message, which the invariants of both loops keep
- RingList.Move: the two rings are different, as at every call in the original
- RingList.Detach, RingList.Splice: the two halves of enet_list_move
- BandwidthThrottle.Host.Throttle: assumes that the counts of connected and of limited peers are exact, that no peer was already handled at this very time, and that the products of the division fit 32 bits; the command that tells a peer its limit is a field of the peer
- ScalarMult.DoubleScalarMult: points are elements of a commutative group given with its laws, and the tables base and Bi are assumed to hold the multiples they are named for; that the Edwards formulas of ge.c form such a group is not proved
- Ed25519.Verify: SHA-512 is an arbitrary function to 64 bytes, and encoding a point and decoding its negative are assumed inverse
- ScalarField.ReduceLimbs: the straight-line folds and carries are calls, one for each of the original's groups of statements and in its order
- ScalarReduce.ScMulAdd: the column sums are written as a convolution; all products are bounded so that their order cannot matter
- FieldElement.FeMul: elements are sequences of ten limbs and results are returned, so calling with the result aliased to an argument is not modelled; masks and shifts are remainders and quotients
- FieldPowers.FeInvert: that z^(p - 2) is the inverse needs the primality of 2^255 - 19, which is not proved
- Tarjan.StronglyConnectedComponents: the order of dictionary iteration is a parameter, and the recursion limit of Python is not modelled
- Allocation always succeeds; sockets, time, name resolution and the protocol commands other than reliable fragments are not modelled
- Acknowledgements, the timing of resending, needsDispatch and the dispatch queue of the host
- Assembly of unreliable fragments from the wire (protocol.c:623-735)
- ENET_CONTEXT_EXCLUSION, which is compiled out; LZO1Y, LZO1Z, dictionaries and checksums
- fe.c: additions, subtractions, negations, conditional moves and mul121666; sha512.c, keypair.c, key_exchange.c, add_scalar.c
- Constant-time behaviour
