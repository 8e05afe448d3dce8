# A model of the network code and of its arithmetic

Dafny models of the parts of this game server that carry its network traffic: the packet compressor and the
reliable transport of ENet, the P-192 arithmetic of the authentication scheme, the world-state broadcast,
bandwidth sharing, the packet checksum and the integer codec. `dafny verify dfyconfig.toml` checks all of them.
Arithmetic of a fixed width is written out: `u8`, `u16` and `u32` of `Words.dfy` carry the obligation that a
value fits, and every wrap-around is a `%` in the text. `Numbers.dfy` holds the powers of two and quotients that
several modules use.

**The packet compressor** (`RangeInterval`, `ContextCounts`, `ContextModel`, `ContextHistory`, `SymbolTree`,
`SymbolPool`, `NamedPool`, `RangeCodec`). Four layers. `RangeInterval` is the carry-less range coder: the
interval, its normalisation, the stream and the reader's code word, in lockstep for any sequence of slots.
`ContextCounts` and `ContextModel` say what a text is coded as: contexts are named by the bytes before, and
`Compressed` is a function of the text. `ContextHistory` says what the contexts remember of it, and with what
weights. `SymbolTree` and `SymbolPool` are the binary trees of counts in the array of symbols, in place.
`NamedPool` relates the array to the named contexts, whatever indices symbols have, so that encoder and decoder
need not agree on them. `RangeCodec` puts the two functions together; its `RoundTrip` says that decompression
undoes compression.

**The reliable transport** (`ReliableOrder`, `ReliableRun`, `ReliableMessages`, `SenderQueue`, `Fragments`).
`ReliableOrder` is the receiver's queue on 16-bit numbers, proved against a receiver on unbounded indices.
`ReliableRun` is a whole channel: a sender, a network that loses, repeats and reorders, and the receiver, over
every run; the bound on the sender's lead is derived from its window guard. `SenderQueue` is the sender's two
queues with their window counters and data in transit, and `TransmitsIsRun` makes its sending a part of such a
run. `Fragments` cuts packets and rebuilds them; whole and fragmented messages share a channel throughout.
`ReliableMessages` is about the bytes of messages, how long one may be to be delivered at all, and which
delivered commands can still be acknowledged.

**Unreliable commands** (`LinkedList`, `UnreliableDispatch`, `UnreliableRun`). The circular lists with their
splice, the pass with three cursors over a channel's queue, and the queue itself; sequenced commands are
delivered in the order in which they were sent, in every run whose copies are not too old for 16-bit numbers.

**P-192** (`Digits`, `BigInt`, `LeftShift`, `HexText`, `PrimeField`, `FieldDigits`, `FieldPower`, `CurveGroup`).
Digit arrays in place with the numbers they stand for; the fast reduction on numbers (`PrimeField`) and on
digits (`FieldDigits`); powers, roots and inverses on digits (`FieldPower`); double-and-add over any commutative
group.

**The rest.** `Broadcast` is the doubled buffer of a tick; `Throttle` the two halves of bandwidth sharing and
the counts of peers; `BinaryDivision` and `Crc` the table-driven checksum against polynomial division;
`IntCodec` integers and strings in packet buffers.

## What does not hold of the code

- `PrimeField.ReducedIsLess`: the reduction subtracts P at most once for each partial sum, so its result need
  not be below P. It is below P exactly outside `LeftOver`. `SquareOfMinusOne` is an instance: P - 1 squared
  gives P + 1.
- `FieldPower.Sqrt`: a square is refused exactly where the last product of the power that `legendre` takes comes
  out as P or more (`PrimeField.Refused`, by `PowerComesOut`). `RefusesOne` and `RefusesZero` are instances: P +
  1 and P, which are 1 and 0 in the field. `calcy`, the only caller, passes only values below P (`SumWithB`);
  for those the condition is the same.
- `LeftShift.ShiftedIsProduct`: the left shift is wrong for most numbers of two or more digits; the exact
  condition is `Harmless`. Nothing calls it.
- `IntCodec.UintExactRange`: the unsigned encoding is exact on 29 bits only, signed.
- `IntCodec.StringRoundTrip`: a string as long as its destination is cut, and the rest stays unread.
- `UnreliableDispatch.AllFragmentsStay`: a pass frees incomplete commands. All of them stay if and only if each
  is one of the last two that the pass looks at, with only incomplete ones behind it. `EarlierFragmentFreed` is
  an instance of three, of which the first is freed.
- `UnreliableRun.SequencedInOrder` holds in every run whose sequenced arrivals, where they pass the window test,
  are of the 2^16 reliable messages from the receiver's position on: exactly those are taken for what they are
  (`PlacedRight`). `StaleCopyDelivered` is a run with another one, which is delivered a second time.
- `UnreliableRun.FirstLasts`: the first fragment of an unreliable packet queues its command, and the pass that
  this runs may free the command again before the handler goes on to write to it. The command is still there if
  and only if at most one queued command of its position stands behind it. `FirstFragmentFreed` is a run of
  three reordered packets in which it is not.
- `ReliableMessages.DeliverableWhere`: a reliable message is never delivered if its fragments take numbers that
  end more than seven windows past where they begin, as the acknowledgements that the sender waits for are
  refused. For the first message of a channel that is from 32768 fragments on (`ShortFirst`).
- `ReliableMessages.SettledWhere`: a delivered command whose acknowledgements were all lost is settled by
  sending it again, at most seven windows behind the receiver, if and only if its message begins at most nine
  windows behind it. From ten windows behind on the number of a copy passes the receiver's tests for one of the
  messages ahead (`ReliableOrder.PassesWhere`); at eight and nine it is not acknowledged
  (`ReliableOrder.AcknowledgesWhere`).
- The mask of windows that must be free (`src/enet/protocol.c:1508-1509`) shifts by the window size less the
  window's number where the number of windows was meant. What that shift yields is left arbitrary (`wrapped`),
  and nothing rests on it.

## Model

| member | source | states |
|---|---|---|
| `RangeInterval.ShiftSound` | src/enet/compress.c:126-136 | One turn of the normalisation loop, truncating or not, keeps low + range at most 2^32, and equal to it only from low of at least 0xFF000000; after a truncation the interval ends exactly at 2^32, otherwise the range has grown |
| `RangeInterval.TrimInside` | src/enet/compress.c:128-132 | The carry-less truncation leaves a non-empty interval inside the old one that ends at the next multiple of 2^24 |
| `RangeInterval.Settle` | src/enet/compress.c:126-137 | For every sound interval, through any truncations, normalisation ends, with a sound interval of range at least 2^16 |
| `RangeInterval.SharesFit` | src/enet/compress.c:123-125 | Dividing a range of at least 2^16 by any total up to 2^16 gives every slot a non-empty part, all within the range |
| `RangeInterval.EncodeSlot` | src/enet/compress.c:121-137 | Coding a slot writes exactly the bytes of normalisation and fails exactly when they do not fit the output |
| `RangeInterval.Flush` | src/enet/compress.c:139-146 | The flush writes the bytes of low down to its last non-zero one and fails exactly when they do not fit |
| `RangeInterval.WindowFlushed` | src/enet/compress.c:344-350 | Reading a flushed low with zeros behind the end gives back low, so zero padding stands for the bytes the flush drops |
| `RangeInterval.SettleFlushed` | src/enet/compress.c:358-370 | Past the last slot the reader's stream stays the flush of its own low through any normalisation |
| `RangeInterval.EncodedContains` | src/enet/compress.c:354-371 | For any sequence of slots the code word read from the whole stream lies in the encoder's interval, before and after narrowing to the first slot |
| `RangeInterval.ReadSlot` | src/enet/compress.c:352 | A code word in the interval reads a number inside a slot if and only if it lies in that slot's part of the interval |
| `RangeInterval.ExpectedCode` | src/enet/compress.c:352-371 | In lockstep the reader's code word is in the shared interval, reads inside the slot that was written next, and is the very bottom of the interval once nothing more was written |
| `RangeInterval.DecodeSlot` | src/enet/compress.c:354-371 | Decoding a slot leaves the reader with the encoder's low and range and with the window onto what follows that slot's bytes |
| `RangeInterval.EncodedLength` | src/enet/compress.c:139-146 | A stream from above the bottom of the number range is never empty |
| `RangeInterval.LittleUnused` | src/enet/compress.c:123-125 | Dividing the range leaves less of it unused than the total |
| `RangeInterval.WideStays` | src/enet/compress.c:126-137 | Normalisation writes nothing exactly while the range is at least 2^16 and the ends of the interval differ in the top byte |
| `RangeInterval.FlushedShort` | src/enet/compress.c:139-146 | The flush takes at most four bytes and ends in no zero byte |
| `ContextCounts.BelowHalved` | src/enet/compress.c:90-105 | Halving every count roughly halves each partial sum: never below half, and at most half of it and half a unit per value |
| `ContextCounts.SlotForFits` | src/enet/compress.c:302-304 | The slot of a known value, or of any value at the root, is a non-empty part of its context's total |
| `ContextCounts.SlotsDisjoint` | src/enet/compress.c:301-308 | Slots of different values are disjoint and ordered by value, all above the escape's |
| `ContextCounts.EscapeIsPart` | src/enet/compress.c:307-308 | A subcontext with any escape weight has less of it than its total, so the comparison of the two never suppresses an escape that the decoder expects |
| `ContextCounts.LearnedTame` | src/enet/compress.c:307-315 | Counting a value, with escape weight for a new one and halving when due, keeps: total is escapes plus counts plus 256 times the minimum, totals fit 16 bits, counts 8 bits with room for another |
| `ContextCounts.CodesOrder` | src/enet/compress.c:386-400 | Comparing any code of a value with a node's slice decides exactly as comparing the two values |
| `ContextCounts.LearnedIs` | src/enet/compress.c:301-315 | Counting a value raises it by 2, or by 3 at the root, and a value new to a subcontext brings 5 of escape weight |
| `ContextCounts.RescaledIs` | src/enet/compress.c:90-112 | When it is due, every count and the escape weight are halved, rounded up |
| `ContextModel.SlotsFit` | src/enet/compress.c:286-329 | Whatever the contexts have learned, every slot written for a byte is well formed |
| `ContextModel.AllSlotsFit` | src/enet/compress.c:267-337 | So is every slot written for a text, from any sane state |
| `ContextModel.PatchOrder` | src/enet/compress.c:598-614 | Learning a byte at the context that knew it first and then in the longer ones, as the decoder does, gives what the encoder's learning from the longest down gives |
| `ContextModel.UnmetGrown` | src/enet/compress.c:598-604 | The decoder's order also creates the same number of symbols |
| `ContextModel.EscapeRead` | src/enet/compress.c:538-551 | What is read in a context is below its escape weight exactly when the context does not know the next byte or there is none, and otherwise is one of the byte's codes |
| `ContextModel.EmptyContext` | src/enet/compress.c:536-544 | A context without escape weight knows nothing and was skipped by the encoder too |
| `ContextHistory.StringsAre` | src/enet/compress.c:286-329 | The strings of a text are the one to three bytes that stand together anywhere in it |
| `ContextHistory.ReachedRemembers` | src/enet/compress.c:286-337 | After any text the predicted context is its last two bytes since the pool was last cleared, or fewer where there are not so many, and a context knows a byte exactly if that byte has followed it since; so many symbols are in use |
| `ContextHistory.AfterRemembers` | src/enet/compress.c:331-336 | The pool is cleared exactly when the root and the distinct strings of up to three bytes since the last time leave fewer than two of 4096 symbols to spare |
| `ContextHistory.ShortKept` | src/enet/compress.c:331-336 | So nothing of a text of fewer than 1365 bytes is forgotten |
| `ContextHistory.ReachedWeighed` | src/enet/compress.c:301-315 | Until weights are first halved, the root has counted each value 3 for each time that it was coded there, a subcontext 2 for each time, and its escape weight is 5 for each value it knows |
| `ContextHistory.ShortLight` | src/enet/compress.c:306-315 | None is halved for the first 84 bytes |
| `ContextHistory.SlotsAfter` | src/enet/compress.c:286-329 | What is written for a text is what each byte costs in the contexts left by those before it |
| `ContextHistory.CostIn` | src/enet/compress.c:286-320 | In a context a byte costs one slot if it has followed it before or it is the root; otherwise an escape, where anything has followed it, and what it costs in the next shorter context |
| `ContextHistory.TwoZeros` | src/enet/compress.c:246-342 | Two zero bytes are compressed to 00 FF FC 13 |
| `SymbolTree.Found` | src/enet/compress.c:187-195 | A descent that ends at the value's node leaves a search tree for the counts with the value raised |
| `SymbolTree.Attached` | src/enet/compress.c:173-186 | A symbol linked into the free side where a descent ended leaves a search tree whose unders count it, and the value had no symbol before |
| `SymbolTree.AttachedRoot` | src/enet/compress.c:163-167 | So does a context's first symbol |
| `SymbolTree.DescendLeft` | src/enet/compress.c:173-178 | Going left raises that node's under alone and keeps the descent's invariant, in a strictly smaller subtree |
| `SymbolTree.DescendRight` | src/enet/compress.c:181-186 | Going right changes no under and keeps the descent's invariant, in a strictly smaller subtree |
| `SymbolTree.HalvedPool` | src/enet/compress.c:90-105 | Halving one context's tree gives the trees of the halved counts, and no other context changes |
| `SymbolTree.SameTrees` | src/enet/compress.c:17-22 | A symbol's weights and parent link are no part of any tree |
| `SymbolPool.RangeCoder.CreateSymbol` | src/enet/compress.c:68-80 | A symbol is taken from the pool, inside its bounds, and nothing else changes |
| `SymbolPool.RangeCoder.CountValue` | src/enet/compress.c:159-199 | The coded under and count are those of the context's counts before, and the trees are those of the counts after |
| `SymbolPool.RangeCoder.FindValue` | src/enet/compress.c:373-438 | Any code inside a value's slice finds that value, with the same under, count and new trees as counting the value itself |
| `SymbolPool.RangeCoder.Rescale` | src/enet/compress.c:90-105 | The recursive rescale halves exactly the counts of one subtree and returns their new sum |
| `SymbolPool.RangeCoder.RescaleContext` | src/enet/compress.c:107-112 | A context's weights are then those of the halved counts, and all other contexts are kept |
| `SymbolPool.RangeCoder.Reweigh` | src/enet/compress.c:307-314 | After a coded value the context means what it meant with that value learned |
| `SymbolPool.SlotValue` | src/enet/compress.c:418-438 | A code that leads beside a node belongs to a context with minimum 1, to a value never counted, and its distance from the node's slice is the value's from the node's |
| `NamedPool.VisitedNamed` | src/enet/compress.c:286-300 | Visiting a context keeps the picture of contexts in the pool: distinct names, every parent link to the shorter context except a last one still to be set |
| `NamedPool.NewName` | src/enet/compress.c:177-178 | A value never counted in a context has no symbol, so its name is new |
| `NamedPool.ReachesRoot` | src/enet/compress.c:286-291 | Following parent links drops the first byte of the name each time, through all shorter contexts to the root, in as many steps as the name has bytes |
| `NamedPool.ClimbEnd` | src/enet/compress.c:286-329 | When the encoder's climb ends, the contexts have learned the byte and the predicted context is the old name with the byte added |
| `NamedPool.PatchStart` | src/enet/compress.c:598-599 | What the decoder has done at the context that knew the byte leaves exactly the patching of the longer ones to do |
| `NamedPool.LinkBottom` | src/enet/compress.c:615 | Setting the last parent link closes the picture |
| `RangeCodec.Clear` | src/enet/compress.c:148-157 | The reset leaves a pool with a fresh root only, and no context |
| `RangeCodec.EncodeByte` | src/enet/compress.c:286-329 | One input byte writes its slots and leaves contexts that have learned it, or fails only if the whole stream cannot fit |
| `RangeCodec.Advance` | src/enet/compress.c:331-336 | The end of a turn is the model's step, by `ContextHistory.AfterRemembers`: at most two bytes are predicted from, what has been learned is kept, and the pool is cleared only with fewer than two symbols to spare |
| `RangeCodec.Compress` | src/enet/compress.c:246-342 | For every list of buffers, none but the first empty: the compressed form of their concatenation, or nothing if it does not fit; the form is that of a coder that remembers (`ContextHistory`) |
| `RangeCodec.Search` | src/enet/compress.c:529-551 | The decoder's climb stops at the first context that knows the byte, and at the root at the end of the text |
| `RangeCodec.DecodeIn` | src/enet/compress.c:570-597 | Decoding where the climb stopped yields the byte that was written, or the end exactly when the text has ended |
| `RangeCodec.PatchContexts` | src/enet/compress.c:598-615 | Patching leaves the contexts, the symbol count and the predicted context that the encoder has |
| `RangeCodec.DecodeByte` | src/enet/compress.c:520-617 | One turn of the decoder: the byte written, contexts that have learned it, and the stream past its slots |
| `RangeCodec.DecodeNext` | src/enet/compress.c:520-623 | The turn ends the text exactly when it has ended, and otherwise yields its next byte in the state the encoder had after it |
| `RangeCodec.CompressedEmpty` | src/enet/compress.c:339-341 | A text compresses to no bytes if and only if it is empty, so a returned length of 0 means failure for every other text |
| `RangeCodec.Decompress` | src/enet/compress.c:498-627 | Given the compressed form of any text: the text, or nothing if the output has no room for it; the end is recognised from zero padding alone |
| `RangeCodec.RoundTrip` | src/enet/compress.c:246-342 | However the input is split, a non-zero result decompresses with enough room to exactly the input |
| `ReliableOrder.WindowSeenIs` | src/enet/peer.c:836-841 | The window arithmetic on 16-bit numbers computes the distance in windows on unwrapped indices |
| `ReliableOrder.NumberOrder` | src/enet/peer.c:860-875 | The search's comparisons on either side of the wrap order numbers as their indices |
| `ReliableOrder.PassesIs` | src/enet/peer.c:836-852 | The two tests on an arriving number, as the source computes them, are whether it is not the receiver's own and stands in the free windows |
| `ReliableOrder.Admitted` | src/enet/peer.c:836-852 | They let exactly the new messages in the free windows pass if and only if the copy is timely: refused, or within a round of the numbers ahead |
| `ReliableOrder.StalePasses` | src/enet/peer.c:836-852 | A copy of the first message that comes 2^16 messages late passes for another one |
| `ReliableOrder.PassesWhere` | src/enet/peer.c:836-852 | Within a round of the numbers, those of commands ahead pass up to six windows ahead, and those of commands behind from ten windows behind on |
| `ReliableOrder.AcknowledgedNear` | src/enet/peer.c:589-596 | A new command that is acknowledged lies within the windows that were accepted |
| `ReliableOrder.AcknowledgesWhere` | src/enet/peer.c:589-596 | Within a round of the numbers, a copy of a command behind the receiver is acknowledged exactly if it is not eight or nine windows behind, and of one ahead if not seven or eight windows ahead |
| `ReliableOrder.AcknowledgedAgain` | src/enet/peer.c:589-596 | With two commands delivered, a copy of the first is acknowledged again |
| `ReliableOrder.RemainingIs` | src/enet/protocol.c:621-635 | The count of missing fragments is used up exactly when every part has come |
| `ReliableOrder.Head` | src/enet/peer.c:790-802 | Behind messages of any number of parts the head of the queue has the next number exactly if it is the next message |
| `ReliableOrder.DrainPrefix` | src/enet/peer.c:786-807 | Dispatch takes exactly the contiguous run of complete messages at the head of the sorted queue, each going on by its number of parts |
| `ReliableOrder.Channel.DispatchReliable` | src/enet/peer.c:781-818 | The list loop does on 16-bit numbers what draining the buffer does on indices, for whole and fragmented messages |
| `ReliableOrder.Channel.FindPlace` | src/enet/peer.c:854-877 | The search from the tail finds a duplicate if there is one and otherwise the place that keeps the queue sorted |
| `ReliableOrder.Channel.QueueReliable` | src/enet/peer.c:820-987 | For every timely copy of a message of one part the queue does on numbers what the receiver does on indices |
| `ReliableOrder.Channel.QueueFragment` | src/enet/protocol.c:529-638 | So it does for every timely copy of a fragment: refused by its message's first number, put to the parts that have come, or the first of a message queued by that number |
| `ReliableOrder.Channel.AddFragment` | src/enet/protocol.c:621-636 | A fragment not seen before is counted and kept, and the last one missing has the queue dispatched; one seen before changes nothing |
| `ReliableOrder.Channel.QueueAcknowledgement` | src/enet/peer.c:582-611 | An acknowledgement is queued exactly if the command is acknowledged in the sense of `ReliableOrder.AcknowledgesWhere` |
| `ReliableRun.ArrivalTimely` | src/enet/peer.c:834-844 | In every reachable state any copy that can arrive is timely and its message apart from all others queued, so the 16-bit code applies |
| `ReliableRun.LeadBounded` | src/enet/protocol.c:1504-1510 | The guard on a new window bounds the sender's lead: its window is at most seven past the receiver's |
| `ReliableRun.SomeAcknowledged` | src/enet/protocol.c:1507 | When the guard lets a window begin, a message of the window before has been acknowledged |
| `ReliableRun.SpanBounded` | src/enet/protocol.c:1508-1509 | When the guard lets a message out, no outstanding one is 16 or more windows behind it, from the part of the mask that does not wrap |
| `ReliableRun.WindowBegins` | src/enet/protocol.c:1504-1510 | Inside a window the guard of the run lets everything go; a new window begins, as long as nothing older than the eight before it is outstanding, unless the whole one before it is |
| `ReliableRun.AckSettlesOwn` | src/enet/protocol.c:202-204 | An acknowledgement by number settles its own message and no other |
| `ReliableRun.ReceiveFaithful` | src/enet/peer.c:820-987 | An arrival, whole or a fragment, keeps what is delivered a prefix of what was sent and loses nothing received |
| `ReliableRun.AdvanceBounded` | src/enet/peer.c:796-802 | One arrival takes the receiver on by at most seven windows |
| `ReliableRun.StepKeeps` | src/enet/protocol.c:1482-1604 | Every step of sender, network and receiver keeps the system's invariant |
| `ReliableRun.DeliveredIsPrefix` | src/enet/peer.c:781-818 | In every run, with loss, repetition, reordering and retransmission of messages whole and in fragments in any mixture, the delivered messages are a prefix of the sent ones |
| `ReliableRun.AcknowledgedIsReceived` | src/enet/peer.c:582-611 | In every run, an acknowledged command's message has been delivered, or it waits with the parts that have come |
| `ReliableRun.QuietIsComplete` | src/enet/protocol.c:188-272 | In every run, once nothing is left to send or outstanding, everything sent has been delivered |
| `ReliableRun.LongIsStuck` | src/enet/peer.c:597-599 | In no run is a message delivered whose numbers end more than seven windows past where they begin, nor any after it |
| `ReliableMessages.CutBytes` | src/enet/peer.c:115-177 | The parts of a message are together its bytes |
| `ReliableMessages.FragmentsAre` | src/enet/peer.c:142-177 | The fragments sent are these parts, and a packet rebuilt from them in memory is all of them together |
| `ReliableMessages.MessagesDelivered` | src/enet/peer.c:781-818 | In every run the messages delivered are the first ones sent, byte for byte |
| `ReliableMessages.DeliverableWhere` | src/enet/protocol.c:1504-1510 | A message sent when all before it is through can be delivered, by some run, if and only if its numbers end at most seven windows past where they begin |
| `ReliableMessages.ShortFirst` | src/enet/protocol.c:1504-1510 | For the first message of a channel that is fewer than 32768 parts |
| `ReliableMessages.SettledWhere` | src/enet/peer.c:582-611 | In every reachable state, a delivered command still outstanding, at most seven windows behind the receiver, is settled by one retransmission, its arrival and the arrival of its acknowledgement, and nothing else changes, if and only if its message begins at most nine windows behind; for a message of one part that is always so |
| `ReliableMessages.SettledInRuns` | src/enet/peer.c:582-611 | So any run can be continued to settle it |
| `SenderQueue.WindowFits` | src/enet/protocol.c:1554-1555 | A window's counter of unacknowledged attempted commands never exceeds the window's size |
| `SenderQueue.StartBalances` | src/enet/protocol.c:1552-1556 | A first transmission raises its own window's counter and used bit and no other |
| `SenderQueue.SettleBalances` | src/enet/protocol.c:231-241 | Settling lowers the counter of its own window, which is positive, and clears the bit exactly when it reaches zero |
| `SenderQueue.DispatchAccounts` | src/enet/protocol.c:1552-1592 | Moving a command from the queue to the sent ones keeps the whole account: counters, bits, unattempted commands in number order behind attempted ones |
| `SenderQueue.ReturnAccounts` | src/enet/protocol.c:1461-1468 | Moving one back behind those moved back before it changes no count |
| `SenderQueue.SettleAccounts` | src/enet/protocol.c:231-250 | Taking an acknowledged command out of either queue keeps the account with that command settled |
| `SenderQueue.QueueTallies` | src/enet/peer.c:628-635 | Appending a command with its channel's next number keeps the tally |
| `SenderQueue.SettlesOwn` | src/enet/protocol.c:202-204 | Outstanding numbers differ, so a number settles one command only |
| `SenderQueue.NotHeldUp` | src/enet/protocol.c:1504-1510 | A command that the guard does not hold up has its window free in the sense of the run of ReliableRun |
| `SenderQueue.HeldUpWhere` | src/enet/protocol.c:1504-1510 | The guard holds a command up if and only if it is sent for the first time and its window is not free in the account, or it begins a window and a used one is in the rest of the mask |
| `SenderQueue.FitsIs` | src/enet/protocol.c:1539-1544 | The test for room, in unsigned arithmetic, is whether the arrays have entries left and the command with its data fits the MTU |
| `SenderQueue.CapacityIs` | src/enet/protocol.c:1523-1525 | The capacity for data in transit is the window times the throttle over 32, rounded down, and never less than the MTU |
| `SenderQueue.StampKeeps` | src/enet/protocol.c:1558-1573 | A command's first transmission sets its timeout and limit from the round trip; later ones leave both alone |
| `SenderQueue.BacksOff` | src/enet/protocol.c:1466 | So after n timeouts the timeout is 2^n times the round trip of the first transmission, and the limit is still the first one |
| `SenderQueue.TimesAre` | src/enet/include/enet/time.h:8-16 | Less than a day apart, the difference and the order of two times are those of times that do not wrap |
| `SenderQueue.ExpiredIs` | src/enet/protocol.c:1444 | A command has expired exactly when its timeout has passed since it was sent |
| `SenderQueue.EarliestIs` | src/enet/protocol.c:1447-1449 | The earliest timeout kept is the least time of sending of the commands that expired |
| `SenderQueue.GivesUpIs` | src/enet/protocol.c:1451-1454 | The peer is given up exactly when the longest delay has passed since that time, or the shortest and the command's timeout has reached its limit |
| `SenderQueue.TransmitsIsRun` | src/enet/protocol.c:1482-1604 | The first transmissions of a call are a legal run of Transmit steps of that system, ending in the same outstanding messages |
| `SenderQueue.Peer.SetupOutgoing` | src/enet/peer.c:613-677 | The command is appended with its channel's next number, and the account holds |
| `SenderQueue.Peer.Find` | src/enet/protocol.c:196-226 | The two searches find an attempted command with the number and channel if there is one |
| `SenderQueue.Peer.RemoveSent` | src/enet/protocol.c:188-272 | Exactly the outstanding command with the number is settled and taken from its queue; without one nothing changes |
| `SenderQueue.Peer.CheckTimeouts` | src/enet/protocol.c:1429-1480 | The expired commands go back, in order, with doubled timeouts, ahead of all queued ones, and none of them gave the peer up; without a disconnection none that has expired stays, and with one the first left of them gives the peer up, both by the earliest time of sending; the account holds |
| `SenderQueue.Peer.PutBack` | src/enet/protocol.c:1461-1476 | One command goes back to its place, and nothing else moves |
| `SenderQueue.Peer.Skips` | src/enet/protocol.c:1502-1534 | A command is passed over only if it, or an earlier one, is held up by its window (`HeldUpWhere` says when) or the data in transit; one that is not fits the capacity; one of no channel and without data never is |
| `SenderQueue.Peer.SendReliable` | src/enet/protocol.c:1482-1604 | What is sent leaves the queue in order, stamped, for the sent commands and the datagram, which stays within the MTU; data in transit stays within the capacity; if the first command left has been sent before or its window is free in the account, and its data fits the capacity, the datagram was full; otherwise all left wait for a window or the data in transit; a ping may go exactly if there was nothing to send; the account holds |
| `Fragments.Send` | src/enet/peer.c:115-189 | The fragments cut the packet, in number as counted in advance, or none if there would be too many |
| `Fragments.FragmentsTile` | src/enet/peer.c:142-177 | Every byte of the packet lies in exactly one fragment, at the packet's place |
| `Fragments.FragmentsEnd` | src/enet/peer.c:148-149 | The last fragment ends where the packet does |
| `Fragments.FragmentsPlausible` | src/enet/protocol.c:570-575 | No fragment that sending makes is turned away by the receiver's checks |
| `Fragments.CompleteIsMessage` | src/enet/protocol.c:621-635 | The count of missing fragments is zero exactly when each is in, and then the bytes are the packet's |
| `Fragments.RebuiltIs` | src/enet/protocol.c:621-636 | Over any arrivals the fragments in are those that have come, and dispatch is tried at most once |
| `Fragments.AnyOrderRebuilds` | src/enet/protocol.c:607-636 | Delivered in any order with any duplicates, into memory with any contents: the packet is rebuilt exactly when each fragment has come, and dispatch is then tried exactly once |
| `Fragments.Incoming.IsMarked` | src/enet/protocol.c:621 | The bit of a fragment is set exactly if it is in |
| `Fragments.Incoming.Mark` | src/enet/protocol.c:625 | Setting a bit in the word array adds that fragment and no other |
| `Fragments.Incoming.Accept` | src/enet/protocol.c:621-636 | A fragment is put where it belongs once; dispatch is asked for exactly by the last one missing |
| `Fragments.HandleSendFragment` | src/enet/protocol.c:565-638 | The handler's answers: malformed or conflicting fragments are refused, a first one sets up the packet, others are put into it |
| `LinkedList.List.Insert` | src/enet/list.c:20-32 | The ring of nodes has the new one before the position, and no other has moved |
| `LinkedList.List.Remove` | src/enet/list.c:34-41 | The ring lacks exactly that node |
| `LinkedList.List.Move` | src/enet/list.c:43-59 | A run of nodes leaves one ring and stands, in order, before the position in another; the lists stay apart |
| `LinkedList.Spliced` | src/enet/list.c:52-56 | The four assignments of a splice make one ring of a list and a run of nodes |
| `UnreliableDispatch.PassedKeep` | src/enet/peer.c:720-759 | A command that stays: what was pending is spliced over, and the drop cursor lands where the commands to be freed end |
| `UnreliableDispatch.PassedEnd` | src/enet/peer.c:764-778 | The end of the pass delivers the last run and frees exactly what stands before the drop cursor |
| `UnreliableDispatch.Inbox.Splice` | src/enet/peer.c:720-730 | A pending run moves, in order, from one list to the other; an empty one changes nothing |
| `UnreliableDispatch.Inbox.RemoveBefore` | src/enet/peer.c:268-294 | Exactly the commands before the end are freed |
| `UnreliableDispatch.Inbox.Keep` | src/enet/peer.c:714-761 | The loop's branches for incomplete and stale commands move the cursors in the lists as the pass on values says; no cursor is left in the other list |
| `UnreliableDispatch.Inbox.DispatchUnreliable` | src/enet/peer.c:698-779 | Complete and unsequenced commands before the first future one are delivered in list order; of the others there only a trailing one or two incomplete fragments stay |
| `UnreliableDispatch.EarlierFragmentFreed` | src/enet/peer.c:741-761 | Of three incomplete commands before the end of the pass the first is freed |
| `UnreliableDispatch.AllFragmentsStay` | src/enet/peer.c:741-761 | Every incomplete command that a pass looks at stays if and only if each is among the last two looked at, with only incomplete ones behind it |
| `UnreliableDispatch.StaysWhere` | src/enet/peer.c:741-761 | A command stays exactly if it is one of those |
| `UnreliableDispatch.NothingLost` | src/enet/peer.c:698-779 | Each command is delivered, left, or freed, once |
| `UnreliableDispatch.NothingReadyDropped` | src/enet/peer.c:746-778 | Only incomplete fragments and stale commands are freed, only complete and unsequenced ones are delivered |
| `UnreliableDispatch.NoUnsequencedLeft` | src/enet/peer.c:709-710 | If the unsequenced commands stand before the first future one, none survives a pass |
| `UnreliableDispatch.PassIsIdempotent` | src/enet/peer.c:698-779 | A second pass changes nothing |
| `UnreliableRun.WindowTest` | src/enet/peer.c:837-844 | The window test on numbers accepts exactly the free windows from the receiver's position on |
| `UnreliableRun.SearchOrder` | src/enet/peer.c:896-917 | The search's comparisons decide the order by reliable position, then by unreliable number |
| `UnreliableRun.PlaceIs` | src/enet/peer.c:887-918 | The place found keeps a live queue sorted |
| `UnreliableRun.FindPlace` | src/enet/peer.c:887-918 | The search from the tail finds a duplicate exactly if there is one, and otherwise that place |
| `UnreliableRun.QueueIncoming` | src/enet/peer.c:820-987 | An arriving unreliable or unsequenced command does to the lists what the step on values says, and is turned away exactly if out of window, overtaken or a duplicate; the node it returns for a first fragment is still in the list exactly under the condition of FirstLasts |
| `UnreliableRun.AdvanceReliable` | src/enet/peer.c:805-817 | After reliable messages have gone through, the queue is passed over at the new position |
| `UnreliableRun.ArriveKeeps` | src/enet/peer.c:879-968 | An arrival keeps the queue sorted, free of unsequenced commands, and ahead of everything delivered |
| `UnreliableRun.FragmentKeeps` | src/enet/protocol.c:743-758 | So does a further fragment of a queued command |
| `UnreliableRun.FirstLasts` | src/enet/protocol.c:732-758 | The command queued for a first fragment is still in the queue when the fragment is counted if and only if at most one queued command of its position stands behind it |
| `UnreliableRun.FirstCounts` | src/enet/protocol.c:732-758 | Under that condition the fragment is counted by the command just queued |
| `UnreliableRun.FirstFragmentFreed` | src/enet/protocol.c:732-758 | Otherwise it is not: with two incomplete packets queued, in a run, the command for an earlier packet's first fragment is freed by the pass that queueing it runs |
| `UnreliableRun.RunStable` | src/enet/peer.c:698-779 | In every run a pass over the queue, at any time between steps, would change nothing |
| `UnreliableRun.StableIs` | src/enet/peer.c:698-779 | A pass changes nothing exactly where at most two commands stand ahead of the first future one, all incomplete |
| `UnreliableRun.AdvanceKeeps` | src/enet/peer.c:796-817 | So does an advance: commands left behind are seen as stale at the new position, the others keep their order |
| `UnreliableRun.SequencedInOrder` | src/enet/peer.c:698-779 | In every run whose arrivals the receiver can place: of two sequenced commands delivered, the first was really sent behind an earlier reliable message, or behind the same one with the lower number; so they come in the order in which they were sent, and none twice |
| `UnreliableRun.DeliveredWhereSent` | src/enet/peer.c:698-779 | In those runs every sequenced command is delivered while the reliable message it was really sent behind is the last one delivered |
| `UnreliableRun.PlacedRight` | src/enet/peer.c:832-844 | A command that passes the window test is taken for what it is if and only if its reliable message is one of the 2^16 from the receiver's position on |
| `UnreliableRun.StaleCopyDelivered` | src/enet/peer.c:698-779 | Without that condition it fails: a copy that comes 2^16 reliable messages late is delivered again, behind another message |
| `UnreliableRun.NoUnsequencedWaits` | src/enet/peer.c:921-923 | In every run no unsequenced command is left waiting |
| `UnreliableRun.CompleteDelivered` | src/enet/peer.c:699-779 | A complete command that is not turned away is delivered as it arrives: a sequenced one of the receiver's position, and an unsequenced one always |
| `UnreliableRun.CompletedDelivered` | src/enet/peer.c:699-779 | So is a queued one of that position with its last fragment |
| `UnreliableRun.WaitedDelivered` | src/enet/peer.c:699-779 | And a complete one when the reliable message that it waits for is delivered |
| `UnreliableRun.TurnedAwayWhere` | src/enet/peer.c:836-905 | In every run a command from the receiver's position on is turned away if and only if its reliable message is more than six windows ahead, or it is queued already, or it is numbered 0 or no higher than one delivered at its position |
| `Digits.Unique` | src/shared/crypto.cpp:165-171 | A number has one form without leading zeros |
| `Digits.TopDecides` | src/shared/crypto.cpp:346-360 | Of equally long numbers the first difference from the top decides |
| `Digits.BitOfDigit` | src/shared/crypto.cpp:250 | A bit of a number is a bit of one digit |
| `BigInt.Int.Shrink` | src/shared/crypto.cpp:283 | Dropping leading zeros keeps the number |
| `BigInt.Int.Add` | src/shared/crypto.cpp:252-265 | The digits are those of the sum, also onto an operand in place, whenever it fits the capacity |
| `BigInt.Int.Sub` | src/shared/crypto.cpp:268-282 | The digits are those of the difference, also in place |
| `BigInt.Int.MulRow` | src/shared/crypto.cpp:290-301 | One row adds digit times number where it stands, below 2^32 at each step |
| `BigInt.Int.Mul` | src/shared/crypto.cpp:286-306 | The digits are those of the product |
| `BigInt.Int.RShift` | src/shared/crypto.cpp:308-325 | In place, the number divided by the power of two |
| `BigInt.Int.Less` | src/shared/crypto.cpp:346-362 | Compares the numbers |
| `BigInt.Int.Equal` | src/shared/crypto.cpp:346-351 | Compares the numbers, though only digits are compared |
| `BigInt.Int.NumBits` | src/shared/crypto.cpp:236-248 | The number of bits up to the highest one set |
| `BigInt.Int.HasBit` | src/shared/crypto.cpp:250 | Exactly the bit of the number |
| `LeftShift.ShiftedIsProduct` | src/shared/crypto.cpp:327-343 | The left shift multiplies by the power of two if and only if no bits that cross a digit border differ where the loop puts them from where they belong |
| `LeftShift.ShiftGoesWrong` | src/shared/crypto.cpp:327-343 | 0x18000 shifted left by one gives 0x100020000 |
| `LeftShift.HarmlessWhere` | src/shared/crypto.cpp:331-340 | Shifts by whole digits and of one digit are right |
| `LeftShift.LShift` | src/shared/crypto.cpp:327-344 | In place: the digits are those of the product exactly under that condition |
| `HexText.Parse` | src/shared/crypto.cpp:178-200 | The number of the leading hexadecimal digits, or 0 if there are too many for the capacity |
| `HexText.CharacterIs` | src/shared/crypto.cpp:187-190 | Which character is which digit: 0 to 9 and a to f, in either case when read and in the lower when written |
| `HexText.HexIs` | src/shared/crypto.cpp:181 | And no other characters are |
| `HexText.ParsingStep` | src/shared/crypto.cpp:185-192 | Each character is or-ed into zero bits of its digit, without overflow |
| `HexText.PrintDigits` | src/shared/crypto.cpp:211-224 | Four characters a digit, from the top, whose numeral is the number |
| `HexText.PrintParse` | src/shared/crypto.cpp:178-224 | A number printed and parsed is the same number, digit for digit, whatever but a hexadecimal digit follows |
| `PrimeField.ReducedIsCongruent` | src/shared/crypto.cpp:444-487 | Reducing any value below 2^384 gives a value congruent to it modulo P and below 2^192 |
| `PrimeField.ReducedIsLess` | src/shared/crypto.cpp:451-483 | It is below P if and only if the value is not one of those left over, a condition on its top words and its residue |
| `PrimeField.SquareOfMinusOne` | src/shared/crypto.cpp:444-487 | The reduction of (P - 1)^2 is P + 1, not 1 |
| `PrimeField.TimesIsProduct` | src/shared/crypto.cpp:435-441 | The field product is congruent to the product of any two values below 2^192 |
| `PrimeField.PowerIs` | src/shared/crypto.cpp:489-505 | What square-and-multiply computes, each product reduced as it comes, is below 2^192 and congruent to x^y, for every y |
| `FieldPower.Raise` | src/shared/crypto.cpp:489-505 | The digits are those of that power, also onto the base itself |
| `FieldPower.Legendre` | src/shared/crypto.cpp:560-568 | On digits, told by their number; with Euler's criterion, the symbol is the residue of x^((P-1)/2) taken as 0, 1 or -1, but -1 wherever the last product of the power is left over |
| `FieldPower.Sqrt` | src/shared/crypto.cpp:571-586 | On digits, also of the number itself; with Euler's criterion, true comes with a root of x; for x above 0 it is true if and only if x is a square modulo P (x^((P-1)/2) leaves 0 or 1) and the last product of that power is not left over |
| `PrimeField.PowerComesOut` | src/shared/crypto.cpp:489-505 | The power comes out as its residue, or as that and P exactly where its last product is left over |
| `PrimeField.RefusesOne` | src/shared/crypto.cpp:560-586 | P + 1, which is 1 in the field, is refused |
| `PrimeField.RefusesZero` | src/shared/crypto.cpp:560-586 | P, which is 0 in the field, is refused |
| `PrimeField.SumWithB` | src/shared/crypto.cpp:672-679 | The one caller of the root adds the curve's constant last, and such a sum is always below P |
| `PrimeField.RootSquared` | src/shared/crypto.cpp:583 | If x^((P-1)/2) is 1, the square of x^((P+1)/4) is x |
| `PrimeField.HalfStep` | src/shared/crypto.cpp:515-526 | Halving u with its factor, made even first if need be, keeps factor times x congruent to u |
| `FieldPower.Halve` | src/shared/crypto.cpp:514-526 | In place, the deferred shifts take out every factor 2 and keep that congruence and every odd common divisor; the factor never needs more than 13 digits |
| `PrimeField.EuclidRound` | src/shared/crypto.cpp:541-552 | Taking the smaller off the greater, and their factors modulo P, keeps A x = u and C x = v and the common divisors |
| `FieldPower.Round` | src/shared/crypto.cpp:512-552 | In place, a round keeps that and lessens u + v |
| `FieldPower.SubtractModulo` | src/shared/crypto.cpp:544-545 | A factor less another, in place, with P added first where it is the smaller |
| `FieldPower.Invert` | src/shared/crypto.cpp:508-557 | In place, also of the number itself: it terminates; false exactly for 0; otherwise the result is below P, and it times x is 1 modulo P whenever x and P are coprime |
| `FieldDigits.ReducedByLength` | src/shared/crypto.cpp:447-483 | Which folds are made depends on the length only, and every summand and partial result is below 2^192 |
| `FieldDigits.Folded` | src/shared/crypto.cpp:453-479 | The repeated words are the multiples that the fast reduction adds |
| `FieldDigits.Fold3` | src/shared/crypto.cpp:453-458 | The copied and zeroed digits are the first fold, below 2^192 |
| `FieldDigits.Fold4` | src/shared/crypto.cpp:463-468 | The second |
| `FieldDigits.Fold5` | src/shared/crypto.cpp:473-478 | The third |
| `FieldDigits.AddIn` | src/shared/crypto.cpp:393-399 | One addition with at most one subtraction of P, in place |
| `FieldDigits.Reduce` | src/shared/crypto.cpp:444-487 | The digits are those of the reduction, for every product up to 24 digits |
| `FieldDigits.Multiply` | src/shared/crypto.cpp:435-442 | The digits are those of the field product, also onto an operand |
| `CurveGroup.MultipleMultiple` | src/shared/crypto.cpp:650-659 | Taking a multiple of a multiple is taking the product, in any commutative group |
| `CurveGroup.Mul` | src/shared/crypto.cpp:650-658 | Double-and-add computes q times p, for every q, in any commutative group that the two operations implement |
| `CurveGroup.ChallengeAgrees` | src/shared/crypto.cpp:771-820 | Answering a challenge with the private key gives what generating it from the public key expects |
| `Broadcast.Parts` | src/fpsgame/server.cpp:1541-1546 | Collected in turn, a client's own and its bots' updates stand together |
| `Broadcast.SliceIsExpected` | src/fpsgame/server.cpp:1453-1462 | The slice of the doubled buffer behind a client's own part, shorter by it, is all after it and then all before it |
| `Broadcast.ExpectedIsOthers` | src/fpsgame/server.cpp:1454-1462 | That is exactly the others' updates, rotated |
| `Broadcast.GroupedIsAll` | src/fpsgame/server.cpp:1473 | Flushing where an update would not fit loses nothing and repeats nothing |
| `Broadcast.FlushesHoldAll` | src/fpsgame/server.cpp:1547 | With the last flush the flushes hold every update once, in order |
| `Broadcast.GroupedWatches` | src/fpsgame/server.cpp:1473 | The MTU is watched: a flush exceeds it only by one update that does so alone, and what a flush holds with what the next update counts for is more than the MTU, so none comes too early |
| `Broadcast.ThreeUpdates` | src/fpsgame/server.cpp:1473 | With an MTU of 1400, three updates of 600 bytes make one flush of two and one of one |
| `Broadcast.SentIsWatched` | src/fpsgame/server.cpp:1473 | So it is for the flushes of a channel |
| `Broadcast.HearsSized` | src/fpsgame/server.cpp:1473 | Every packet that a client hears is within the MTU or the update of a single client |
| `Broadcast.VisitsAre` | src/fpsgame/server.cpp:1541-1546 | Exactly the humans and each one's bots are visited, on the human's account |
| `Broadcast.VisitsInRow` | src/fpsgame/server.cpp:1541-1546 | Each human first and then the bots, in turn |
| `Broadcast.EveryoneIsHeard` | src/fpsgame/server.cpp:1539-1555 | Whatever a human or a bot of one has to say is in a flush |
| `Broadcast.NothingElseSent` | src/fpsgame/server.cpp:1539-1555 | And every update in a flush is what a visited client had to say |
| `Broadcast.MadeIs` | src/fpsgame/server.cpp:1509-1512 | Messages go behind 85, the client's number and their length, as these are read back, and count for ten bytes more than they are |
| `Broadcast.AppendFits` | src/fpsgame/server.cpp:1525-1528 | An update takes no more room than was counted for it in advance |
| `Broadcast.UpdateFits` | src/fpsgame/server.cpp:1475 | So in every state of the buffer it fits |
| `Broadcast.InboxKept` | src/fpsgame/server.cpp:1466 | Writing behind what has been sent changes no packet, though packets are not copied |
| `Broadcast.WorldState.Put` | src/shared/tools.h:200-212 | Bytes are appended as far as there is room |
| `Broadcast.WorldState.Double` | src/fpsgame/server.cpp:1453 | The updates stand twice in the buffer, without overflow |
| `Broadcast.WorldState.DealOne` | src/fpsgame/server.cpp:1454-1465 | A human gets one slice without its own part, or nothing if that is empty; a bot gets nothing |
| `Broadcast.WorldState.Flush` | src/fpsgame/server.cpp:1448-1467 | Every human receives what the open updates hold for it, and the buffer moves on |
| `Broadcast.MarksAdded` | src/fpsgame/server.cpp:1477-1479 | After an update the marks of every client still delimit exactly its own bytes of the open flush |
| `Broadcast.WorldState.AddUpdate` | src/fpsgame/server.cpp:1470-1480 | An update is appended, after a flush where it would not fit (`GroupedWatches` says what that comes to), and taken from its client |
| `Broadcast.WorldState.Round` | src/fpsgame/server.cpp:1539-1547 | One channel: every human finds just what the flushes hold for it |
| `Broadcast.WorldState.Tick` | src/fpsgame/server.cpp:1539-1555 | Positions first, then messages |
| `Broadcast.PacketIsOthers` | src/fpsgame/server.cpp:1448-1467 | Every packet is all that the others said between two flushes, rotated |
| `Broadcast.SentHoldsAll` | src/fpsgame/server.cpp:1539-1555 | The flushes of a channel hold together all that was collected, each update once |
| `Broadcast.CollectedOnce` | src/fpsgame/server.cpp:1541-1546 | Where no client is visited twice, that is what each visited client had to say |
| `Broadcast.Demand` | src/fpsgame/server.cpp:1521-1529 | Half the buffer's size: all there is to say, with ten bytes for each header |
| `Broadcast.BuildWorldState` | src/fpsgame/server.cpp:1519-1561 | Nothing is set up exactly if no one has anything to say; otherwise every human finds what the flushes of both channels hold for it, in packets of at most the server's MTU less 100 bytes or of a single update, and what was said is taken from the clients visited |
| `Throttle.Settle` | src/enet/host.c:404-409 | Settling a peer takes it out of the count of those open and its data out of their total |
| `Throttle.MayTake` | src/enet/host.c:376-410 | Within a round the budget covers every peer that exceeds its own bandwidth: neither the budget nor the data total can underflow |
| `Throttle.Exceeding` | src/enet/host.c:389-410 | So it does in the source's own 32-bit terms, for peers whose products fit 32 bits |
| `Throttle.SettleFair` | src/enet/host.c:393-410 | Settling keeps the peer count and keeps what is charged within the budget spent |
| `Throttle.PerSecondIs` | src/enet/host.c:350 | A bandwidth comes to its bytes in the time elapsed, in milliseconds, rounded down |
| `Throttle.ExceedsWhere` | src/enet/host.c:378-385 | A peer exceeds its own bandwidth exactly if it has one and would be sent at least 32 units more than it |
| `Throttle.Host.OutgoingRound` | src/enet/host.c:372-412 | A round either settles a peer or shows that none exceeds its bandwidth at this throttle |
| `Throttle.Host.DataTotal` | src/enet/host.c:360-368 | The sum of the connected peers' data |
| `Throttle.Host.ThrottleOutgoing` | src/enet/host.c:354-431 | It terminates; every connected peer ends at its own bandwidth's limit or at the common one, which then does not exceed its bandwidth; all charges are at most 32 times the budget; the common limit is 32 if all data fit the budget, and otherwise one more of it would exceed what the settled peers leave; one more of a settled peer's limit would exceed its own bandwidth |
| `Throttle.LimitIsCharged` | src/enet/host.c:393-397 | A charge is what the limit lets through of the peer's data, but for a limit raised from 0 to 1 |
| `Throttle.SharedIs` | src/enet/host.c:393-430 | A connected peer's throttle goes down to its new limit where it is above it, its data are counted anew, a limit of its own is at least 1, and nothing else of it changes but the time of settling |
| `Throttle.Raise` | src/enet/host.c:446 | The incoming share never decreases from round to round |
| `Throttle.SettleModest` | src/enet/host.c:456-463 | Settling a peer that asks for less leaves enough for the share of the others |
| `Throttle.Host.IncomingRound` | src/enet/host.c:445-464 | A round either settles a peer or shows that all others ask for at least the share |
| `Throttle.Host.ThrottleIncoming` | src/enet/host.c:437-465 | It terminates; settled peers ask for less than the final share, the others for at least it; what is assigned is at most the host's bandwidth, and with one unit more for each of the others would be above it |
| `Throttle.Fairest` | src/enet/host.c:433-465 | Max-min fairness: any division that gives every peer held to the share more gives less to one that was granted all it asked for |
| `Throttle.FairToEach` | src/enet/host.c:433-465 | A division that gives one peer held to the share enough more to take up the rest of the bandwidth gives less to another connected peer than it is assigned |
| `Throttle.LimitingsTell` | src/enet/host.c:467-486 | Each connected peer is told exactly what it is assigned, by one command, and no other peer is |
| `Throttle.LimitingsSum` | src/enet/host.c:467-486 | The incoming limits told sum to what is assigned, which is within the host's bandwidth |
| `Throttle.Host.SendLimits` | src/enet/host.c:467-486 | The commands sent to the connected peers, in order, tell each what it is assigned, and sum to the whole assigned |
| `Throttle.Host.Throttle` | src/enet/host.c:325-488 | Nothing before 1000 milliseconds have passed; otherwise the outgoing half, with all that `ThrottleOutgoing` states, and the incoming half and commands if asked for; the counts of peers are kept |
| `Throttle.Host.SetBandwidths` | src/enet/protocol.c:324-325 | A connecting peer's bandwidths, taken over before it is counted, leave the counts right |
| `Throttle.Host.ChangeState` | src/enet/protocol.c:35-44 | Through any change of state, with the counting of peers that connect and disconnect, the counts stay those of the connected and of the limited peers |
| `Throttle.Host.OnDisconnect` | src/enet/peer.c:352-362 | A connected one is taken out; no count underflows |
| `Throttle.Host.Reset` | src/enet/peer.c:369-400 | The counts stay right and the peer is as at first |
| `Throttle.Host.HandleBandwidthLimit` | src/enet/protocol.c:772-786 | New bandwidths of a connected peer keep the counts right; others are refused |
| `BinaryDivision.DivisionIs` | src/enet/packet.c:133-139 | Long division: the dividend is quotient times generator plus remainder |
| `BinaryDivision.RemainderUnique` | src/enet/packet.c:133-139 | The remainder is the only polynomial of degree below 32 that differs from the dividend by a multiple of the generator |
| `BinaryDivision.RegisterIsRemainder` | src/enet/packet.c:148-161 | A shift register fed with the message bits holds the remainder of the message with zeros appended and its first bits changed by the start value |
| `BinaryDivision.StepsLinear` | src/enet/packet.c:157 | Steps of the division are linear |
| `BinaryDivision.StepsByTable` | src/enet/packet.c:157 | The low byte selects what it adds, the others are shifted down |
| `Crc.Reflect` | src/enet/packet.c:107-120 | The low bits in reverse order, also of a negative word |
| `Crc.ReflectStep` | src/enet/packet.c:114-116 | Each turn places one bit where the reversed word has it |
| `Crc.HighStep` | src/enet/packet.c:135-138 | A left shift with the conditional exclusive-or is one step of the division, highest bit first |
| `Crc.MakeRow` | src/enet/packet.c:127-141 | A row of the table is the reflected remainder of its byte |
| `Crc.ByTable` | src/enet/packet.c:157 | One step by table is eight steps of the register by bit |
| `Crc.GeneratorIs` | src/enet/packet.c:136 | The generator is that of IEEE 802.3, by its exponents |
| `Crc.MessageBitsAre` | src/enet/packet.c:157 | A message's bits are those of its bytes, each low end first |
| `Crc.NothingToCheck` | src/enet/packet.c:147-164 | The checksum of nothing is 0 |
| `Crc.Checksum.Initialize` | src/enet/packet.c:122-145 | The table has every byte's row |
| `Crc.Checksum.Compute` | src/enet/packet.c:147-164 | Over any list of buffers: the frame check sequence of section 3.2.9 of IEEE 802.3-2012 of their concatenation, before the change of byte order |
| `Crc.SplitIrrelevant` | src/enet/packet.c:147-164 | The checksum does not depend on how the message is split into buffers |
| `IntCodec.IntRoundTrip` | src/shared/tools.cpp:61-77 | Reading after writing gives back every 32-bit integer and the position behind it, whatever stands around |
| `IntCodec.IntForm` | src/shared/tools.cpp:61-66 | One byte for -126 to 127, 128 and two bytes for the other 16-bit integers, 129 and four bytes for the rest, low ones first |
| `IntCodec.IntShortest` | src/shared/tools.cpp:61-77 | No other form that is read as the integer is shorter |
| `IntCodec.UintRoundTrip` | src/shared/tools.cpp:81-118 | An unsigned encoding gives back what 29 bits hold of the integer, as a signed number |
| `IntCodec.UintForm` | src/shared/tools.cpp:81-102 | One byte below 128, two below 2^14, three below 2^21 and four for the rest, the top bit of each but the last set |
| `IntCodec.UintValue` | src/shared/tools.cpp:81-102 | They are the 29 low bits, seven a byte and eight in the fourth, low ones first |
| `IntCodec.UintExactRange` | src/shared/tools.cpp:81-118 | That is the integer itself if and only if it is in [-2^28, 2^28) |
| `IntCodec.CharsRoundTrip` | src/shared/tools.cpp:138-157 | The characters before the terminator come back, as far as there is room |
| `IntCodec.StringRoundTrip` | src/shared/tools.cpp:138-157 | A string comes back, with nothing else consumed, if and only if it is shorter than its destination; a longer one is cut and leaves its rest unread |
| `IntCodec.FieldsRoundTrip` | src/shared/tools.cpp:61-157 | Any sequence of integers and fitting strings comes back as written |
| `IntCodec.Buffer.Put` | src/shared/tools.h:200-204 | A byte is appended, or the flag is set |
| `IntCodec.Buffer.Get` | src/shared/tools.h:185-191 | The next byte, or zero with the flag set |
| `IntCodec.Buffer.PutInt` | src/shared/tools.cpp:61-66 | The integer's bytes are appended as far as they fit |
| `IntCodec.Buffer.PutUint` | src/shared/tools.cpp:81-102 | The unsigned encoding's bytes are appended as far as they fit |
| `IntCodec.Buffer.GetInt` | src/shared/tools.cpp:71-77 | The integer at the position, also across the end of the buffer |
| `IntCodec.Buffer.GetUint` | src/shared/tools.cpp:107-118 | The unsigned one |
| `IntCodec.Buffer.SendString` | src/shared/tools.cpp:138-142 | The string's bytes and the terminator's |
| `IntCodec.Buffer.GetString` | src/shared/tools.cpp:147-157 | The text read, terminated within its destination |

## Left out

- RangeCodec.Compress: the first buffer may be empty, those after it may not; the loop reads a byte from a newly loaded buffer without asking (`src/enet/compress.c:275-284`).
- RangeCodec.Decompress: streams that no compressor wrote; nothing is said of what they decode to.
- RangeCodec.RoundTrip: the two pools are given, since `enet_range_coder_create` only allocates.
- Context exclusion, which `src/enet/compress.c:40` switches off.
- ReliableRun.DeliveredIsPrefix: no copy of a delivered message arrives so late that its number passes the tests for one of the next messages, and no acknowledgement once its number is in use again; 16-bit numbers cannot tell those apart. That also leaves out copies which the sender itself sends again when the receiver is ten or more windows past them.
- ContextHistory.ReachedWeighed: the weights after the first halving; `ContextCounts.LearnedIs` and `ContextCounts.RescaledIs` say what each step does to them.
- ReliableMessages.MessagesDelivered: the same, and one fragment length for the whole run.
- ReliableRun.QuietIsComplete: that such a state is reached; liveness would need fairness of the network.
- ReliableOrder.Channel.QueueReliable: copies that are not timely, as `ReliableOrder.Admitted` has it.
- ReliableOrder.Channel.QueueFragment: the same; the parts are kept by their places, and their bytes in one packet are `Fragments.Incoming`'s; the total length, which `Fragments.HandleSendFragment` checks.
- Fragments.HandleSendFragment: the window tests and the search, which are those of `ReliableOrder`; the command found is a parameter. Of a refused fragment only that it is refused.
- Fragments.Send: the setting up of each fragment as an outgoing command, which is `SenderQueue.Peer.SetupOutgoing`.
- SenderQueue.Peer.SetupOutgoing: the channel's unreliable number going back to 0, and the peer's total of outgoing data, which the throttle reads.
- SenderQueue.Peer.CheckTimeouts: the disconnection that a command past its limits leads to; the method returns that it is asked for.
- SenderQueue.Peer.SendReliable: the limits of the host's command and buffer arrays, and the counters of packets sent and lost.
- Round-trip times, the packet throttle that follows them, pings and the state changes of `enet_protocol_handle_acknowledge`.
- UnreliableRun.QueueIncoming: the search skips no unsequenced command, because the test in it asks about the arriving one (`src/enet/peer.c:893`); none is ever in the queue.
- UnreliableRun.FragmentKeeps: the count of missing fragments is a part of the command's value; no method changes it in its node. Which fragments have come is not kept, so that of a duplicate is only that it changes nothing.
- UnreliableRun.FirstCounts: what the code does where the command has been freed.
- UnreliableRun.SequencedInOrder: an arriving sequenced command that passes the window test was sent behind one of the 2^16 reliable messages from the receiver's position on, and a first fragment comes only where `UnreliableRun.FirstLasts` holds. That one unreliable number is used once behind a reliable message is the sender's doing, which makes the 2^16th command a reliable one (`src/enet/peer.c:129,199`).
- UnreliableRun.DeliveredWhereSent: the same conditions on arrivals.
- UnreliableRun.AdvanceReliable: the reliable commands moved to the application's queue in the same call.
- UnreliableDispatch.NoUnsequencedLeft: asks that unsequenced commands stand first; `UnreliableRun.NoUnsequencedWaits` has it for every run.
- LinkedList: a node belongs to one list; the model's nodes carry their command as a value that does not change.
- BigInt.Int.RShift: for an operand in place only (another's length would be read from the wrong number) and for a shift within the number's digits, as every caller has it; beyond them the source reads and writes outside the number.
- LeftShift.LShift: for an operand in place only.
- HexText.Parse: characters outside ASCII; `isxdigit` is taken as in the C locale.
- FieldPower.Legendre: Euler's criterion for x is a precondition, as that P is prime is not proved.
- FieldPower.Sqrt: the same.
- FieldPower.Invert: coprimality of x and P is a premise of the result's being the inverse, for the same reason.
- CurveGroup.Mul: that the Jacobian formulas form a commutative group, point compression, normalisation and the Tiger hash; the group is a parameter.
- CurveGroup.ChallengeAgrees: that both sides print, compress and hash equal points alike.
- Broadcast.BuildWorldState: demo recording, the reliable flag, and the count of uses by which the buffer is freed; packets are slices of it throughout.
- Broadcast.WorldState.DealOne: `sendpacket` to a client that has no peer.
- Throttle.Host.ThrottleOutgoing: products that overflow 32 bits; the host's and every connected peer's bandwidth times the elapsed time are assumed to fit, as are 32 times a peer's data.
- Throttle.Host.Throttle: assumes that no connected peer's throttle epoch already equals the current time.
- Throttle.Host.HandleBandwidthLimit: the send window that follows from the bandwidths.
- Throttle.Host.Reset: the fields that the throttle does not read.
- Crc.Checksum.Compute: the byte order of the result.
- IntCodec: floats, text filtering, and the growing vectors that the same templates serve.
- Sockets, clocks, allocation failure, reference counts and the byte order of commands; time is a parameter.
- Game modes, bots, scripting, databases and the rest of `src/fpsgame/server.cpp`: broad, with little to prove between functions.
