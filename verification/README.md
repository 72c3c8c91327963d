# Zway core: model and proofs

This project models the core of Zway, a messenger library: how values are written and read, how data
travels in streams of packets, how the store turns nested queries into SQL, multiplexes its tables and
deletes, how locked memory is handed out, and how incoming messages change status. Every result is a
statement over all inputs, all runs or all reachable states.

- **Codec** (`Bytes`, `UbjSyntax`, `UbjValue`, `UbjDraft`, `UbjWriter`, `UbjTreeWriter`, `UbjReader`,
  `UbjTreeReader`): the streaming writer with its stack of 64 container slots, driven by the recursion
  over a value tree; the recursive reader with its growing blocks; the sorted table for key lookup. The
  format is a concrete syntax tree with its bytes and its meaning; the writer is shown to produce the
  bytes of a syntax tree, the reader to compute the meaning of one and to stop at its end. `UbjDraft`
  spells the bytes out in characters, independently of the writer.
- **Ciphers** (`Ctr`, `Aes`): counter mode over an abstract block function (NIST SP 800-38A, section
  6.5), the chunk loops on top of it, and blobs written through a callback.
- **Streams and engine** (`Streams`, `EngineModel`, `StreamObjects`, `Engine`): chunking senders and
  reassembling receivers on values; two engines joined by a first-in first-out wire as a state machine;
  the objects, with the one body buffer a sender reuses; the engine with its list of senders, its send
  queue and its map of receivers.
- **Queries** (`Where`): the clause builder on tokens, the grammar SQL reads them with, the
  three-valued meaning, and the binding of values to placeholders.
- **Locked memory** (`SecMem`): first fit over the blocks in address order.
- **Store** (`Cascades`, `Store`, `VTable`): deletions that cascade over shared blobs, trees of
  directories, and the virtual tables that share one blob table. `Selection` joins queries and tables:
  what a query selects once it is a clause with bound parameters.
- **Messages** (`Inbox`, `InboxStore`): pushes, redeliveries and resource streams, the statuses they
  leave, and why what they store meets the conditions of the deletions.
- **End to end** (`EndToEnd`): a value through codec, packets, receiver and codec. `Options` and
  `Lists` hold what several modules share.

Code that works step by step is a class or a method with loops here too; each such method is tied to a
function of its inputs or of the old state, and the results are about that function. What such a function
gives is also stated apart from its definition, in the format's characters, the names of operators and
columns, or field by field (lemmas whose names end in `Is` or `Are`). `dafny verify
dfyconfig.toml` covers the whole project.

Some promises hold only under a condition, and then the condition is proved exact: strings with zero
bytes (`UbjValue.CanonIsIdentityIffClean`), streams longer than 65535 parts (`Streams.TransferIff`),
partial reads of encrypted blobs with the handle's running counter (`Ctr.PartialReadIff`), conditions
for which no SQL is emitted (`Where.AcceptedIff`, `Where.NoClauseIff`), several operators on one field
(`Where.FirstOperatorOnly`), values that cannot be bound or are 32-bit floats (`Where.InPlaceIff`,
`Where.ParameterIff`), allocations of size 0, whose address is given away again
(`SecMem.EmptyRequestSharesIff`) and which may replace a live block at once
(`SecMem.EmptyRequestClobbersIff`), row ids of another table (`VTable.QueryIsPrivateIff`, and in the
deletions `Cascades.DeleteHistoryRightIff` and `Store.DeleteVfsNodeRightIff`), updates of the type tag
(`VTable.UpdateKeepsTableIff`), blobs shared between resources (`Cascades.DeleteHistoryKeepsIff`),
resources that two pushes carry (`Inbox.StatusesAgreeIff`, with a run for either way it fails), and
resources whose stream broke off (`Inbox.CanBeReceivedIff`).

Where the code and the format description differ, the model follows the code: a container announced
with a count of zero is written without the count and with a closing mark, and read until that mark,
while Draft 12 of the UBJSON specification has no closing mark after a count.

## Model

| member | source | states |
|---|---|---|
| Bytes.BigEndian64RoundTrip | include/Zway/ubj/ubj_internal.h:83-97 | The 8-byte big-endian output, built from its 4- and 2-byte halves, reads back to the same number |
| Bytes.BigEndian64Is | include/Zway/ubj/ubj_internal.h:83-97 | The eight bytes of a number, each by its power of 256, most significant first |
| Bytes.SignedRoundTrip | src/ubj/ubjr.c:217-226 | Reading a width back as signed undoes the two's-complement store of any value in range |
| Bytes.BufEndianSwap | include/Zway/ubj/ubj_internal.h:106-135 | The in-place swap loop reverses every element of 1, 2, 4 or 8 bytes and nothing else, although each element is overwritten while it is read |
| Bytes.SwapAt | include/Zway/ubj/ubj_internal.h:106-135 | Byte k of any element of the swapped buffer is the mirrored byte of the same element, for every element size |
| Bytes.SwapInvolution | include/Zway/ubj/ubj_internal.h:115-135 | Swapping twice restores the buffer, for every element size and count: what the reader undoes is what the writer did |
| Bytes.SwapAppend | src/ubj/ubjw.c:592-604 | Swapping whole elements block by block equals swapping all of them at once |
| UbjSyntax.IntRoundTrip | src/ubj/ubjr.c:217-226 | An integer stored in any integer type that can hold it reads back unchanged, including the sign |
| UbjSyntax.MarksAre | include/Zway/ubj/ubj_internal.h:40-40 | Every type, container end and header mark has the character of the format's table: ZNTF, CSH, iUIlL, dD[{, and ]}$# |
| UbjSyntax.MinIntegerTypeIs | src/ubj/ubjw.c:408-431 | Which integers are written in which type, by their bounds, both ways |
| UbjSyntax.HostOrderIs | src/ubj/ubjr.c:406-417 | In memory the bytes of every element of a typed buffer lie in reverse, by the size of its type |
| UbjValue.SyntaxMeansValue | src/ubj/writer.cpp:92-179 | For every writable value the reader's meaning of the syntax the writer chooses is the value, up to strings cut at their first zero byte: all containers, nested objects and arrays, byte buffers, scalars |
| UbjValue.CanonIsIdentityIffClean | src/ubj/ubjw.c:268-276 | What is read back equals what was written exactly if no string anywhere holds a zero byte (or is empty); both directions |
| UbjValue.CanonIs | src/ubj/ubjw.c:268-276 | What comes back of each kind of value: a text's part before its first zero byte, null if that is empty, a list for an empty buffer, everything else as it was, at every depth |
| UbjValue.LessTransitive | src/ubj/ubjr.c:166-172 | The key order the sorted table relies on is transitive |
| UbjValue.LessTrichotomy | src/ubj/ubjr.c:166-172 | Of two different keys exactly one comes first |
| UbjValue.LessIs | src/ubj/ubjr.c:166-172 | The order is that of strcmp: at the first difference the smaller byte, or the end, comes first |
| UbjValue.InsertAscending | src/ubj/reader.cpp:128-149 | Putting fields one by one into the ordered map in ascending order keeps the list of fields as it was |
| UbjValue.PutIs | src/ubj/reader.cpp:128-149 | An assignment in the ordered map sets its key, leaves the other keys and keeps the order |
| UbjWriter.Context.Push | src/ubj/ubjw.c:188-199 | A container goes on top of the 64-slot stack; all slots below are kept |
| UbjWriter.Context.Pop | src/ubj/ubjw.c:200-203 | The top container comes back and the slots below are kept |
| UbjWriter.Context.TagPublic | src/ubj/ubjw.c:226-266 | A tag consumes one announced element, toggles whether a key is expected and writes the type mark unless the container fixes the type; with the flags ignored it changes no slot |
| UbjWriter.Context.WriteInteger | src/ubj/ubjw.c:433-453 | Any 64-bit integer but the smallest is written in its narrowest type, with the mark unless the container fixes it, and is counted as an element there; a length, written with the flags ignored, leaves the whole container stack as it was |
| UbjWriter.Context.WriteRawString | src/ubj/ubjw.c:268-276 | The length of the C string, then its bytes; the flag is down again and no element is consumed |
| UbjWriter.Context.BeginContainer | src/ubj/ubjw.c:512-546 | The type and count header is written and the new slot announces exactly the counted elements |
| UbjWriter.Context.WriteKey | src/ubj/ubjw.c:567-578 | A key is its length and bytes, and the slot then expects a value |
| UbjWriter.Context.End | src/ubj/ubjw.c:580-590 | The container is popped; a closing mark is written exactly for containers without a count |
| UbjWriter.Context.BeginEndAtLimit | src/ubj/ubjw.c:188-203 | The first depth that fails: a 64th nested container, empty, is announced but not pushed, so its end takes its parent's slot and writes the parent's closing mark, which is none for a counted parent |
| UbjWriter.Context.WriteByteSwap | src/ubj/ubjw.c:592-604 | The 1024-byte blocks add up to the element-wise swap of the whole buffer, for any length |
| UbjWriter.Context.WriteBuffer | src/ubj/ubjw.c:606-645 | A typed buffer of fixed-size elements is the optimized array of its elements in network order, counts one element outside and leaves stack height and lower slots |
| UbjWriter.Context.WriteStringBuffer | src/ubj/ubjw.c:613-621 | The other branch: a typed buffer of strings or high-precision numbers is the optimized array of those strings, each cut at its first zero byte, and leaves the same slots |
| UbjTreeWriter.WriteFields | src/ubj/writer.cpp:92-110 | All fields are written as keys and values and the slot has no announced element left |
| UbjTreeWriter.WriteObject | src/ubj/writer.cpp:92-110 | The flag-driven writer produces the recursive encoding of the object, restores the stack, counts as one element outside, and its closed slot is complete: nothing announced is missing |
| UbjTreeWriter.WriteArray | src/ubj/writer.cpp:112-138 | The same for arrays of any values |
| UbjTreeWriter.WriteByteBuffer | src/ubj/writer.cpp:112-138 | The same for an array value that holds a byte buffer |
| UbjTreeWriter.WriteValue | src/ubj/writer.cpp:140-179 | A value under a key, of whatever kind, at any nesting below the stack limit |
| UbjTreeWriter.EncodeIsDraft | src/ubj/writer.cpp:92-179 | The encoding of every writable value equals a second definition that shares nothing with the writer: marks as characters, numbers byte by byte in two's complement, sizes i, U, I, l or L by their bounds, {#, [# and [$i# with counts, {} and [] for empty containers |
| UbjDraft.TruthExample | src/ubj/writer.cpp:163-165 | The five bytes of an array of one truth value |
| UbjDraft.NumberExample | src/ubj/writer.cpp:92-110 | The twelve bytes of an object of one negative number |
| UbjTreeWriter.Write | src/ubj/writer.cpp:42-90 | The whole output is the value spelled out byte by byte in the format's characters (UbjDraft.Draft); a scalar at the top writes nothing |
| UbjReader.Realloc | src/ubj/ubjr.c:386-405 | Growing keeps what the old block held |
| UbjReader.TypeFromChar | src/ubj/ubjr.c:174-180 | The scan over the mark table finds the type of every mark a type has |
| UbjReader.TagInjective | src/ubj/ubjr.c:174-180 | Different types have different marks, so the scan cannot find a wrong one |
| UbjReader.Context.ReadInteger | src/ubj/ubjr.c:217-226 | A length integer of any type reads as its number and the cursor stops behind it |
| UbjReader.Context.ReadToPtr | src/ubj/ubjr.c:227-288 | On the bytes of any well-formed payload followed by anything, the result is the payload's meaning and the cursor stops exactly at what follows |
| UbjReader.Context.ReadContainerParams | src/ubj/ubjr.c:339-364 | The optional type and count of a container header are read in all their combinations |
| UbjReader.Context.ReadOpenElems | src/ubj/ubjr.c:386-405 | The loop that doubles its block until the closing mark collects all elements of an array without count, in order |
| UbjReader.Context.ReadBulk | src/ubj/ubjr.c:406-417 | The bulk read followed by the in-place swap gives the elements in memory order |
| UbjReader.Context.ReadSizedElems | src/ubj/ubjr.c:406-433 | A counted array reads as its elements, typed in bulk or one by one |
| UbjReader.Context.ReadRawArray | src/ubj/ubjr.c:365-433 | Arrays of mixed elements with or without a count, typed arrays of integers, reals, characters, strings or payload-free values with a count, and empty typed ones read as their meaning and stop at their end |
| UbjReader.Context.ReadOpenEntries | src/ubj/ubjr.c:434-474 | An object without count is read entry by entry into growing blocks until the closing mark |
| UbjReader.Context.ReadSizedEntries | src/ubj/ubjr.c:434-474 | A counted object reads as its entries |
| UbjReader.Context.ReadRawObject | src/ubj/ubjr.c:434-474 | Both object forms read as their meaning and stop at their end |
| UbjReader.Context.ReadDynamic | src/ubj/ubjr.c:331-338 | Any tagged value followed by any bytes reads as its meaning; the cursor stops exactly at those bytes |
| UbjTreeReader.SortKeysCorrect | src/ubj/ubjr.c:187-199 | The table of keys is sorted and a permutation of the keys with their positions |
| UbjTreeReader.BuildSortedKeys | src/ubj/ubjr.c:187-199 | The table built for an object is that sorted table |
| UbjTreeReader.Lookup | src/ubj/ubjr.c:289-312 | The binary search finds a key if and only if the object has it, and then at a position of that key |
| UbjTreeReader.WritableKeysDistinct | src/ubj/reader.cpp:128-149 | The keys of whatever the writer wrote are pairwise distinct after reading, at every depth, so each lookup has one answer |
| UbjTreeReader.ReadObject | src/ubj/reader.cpp:128-149 | Looking up every key of an object, one by one, rebuilds exactly its fields |
| UbjTreeReader.ReadArray | src/ubj/reader.cpp:150-174 | The items of an array, or its byte buffer, are rebuilt in order |
| UbjTreeReader.Read | src/ubj/reader.cpp:54-127 | Reading stops at the end of the value and returns its meaning; other than an object or array at the top is an error |
| UbjTreeReader.RoundTrip | src/ubj/writer.cpp:42-90 | Central law of the codec: for every writable value and every byte suffix, reading what was written gives the canonical value back, stops exactly at the suffix, and the value is the original exactly if its strings are C strings |
| UbjTreeReader.BufferRoundTrip | src/ubj/ubjr.c:406-417 | A typed numeric buffer of element size 1, 2, 4 or 8 and any count above zero, followed by any bytes, is read back as the same memory, and reading stops exactly at those bytes |
| Ctr.XorInvolution | src/crypto/aes.cpp:123-186 | Adding the same key stream twice gives the data back |
| Ctr.XorIs | src/crypto/aes.cpp:123-186 | Exclusive or, bit by bit: one exactly where the two bits differ |
| Ctr.XorZero | src/crypto/aes.cpp:123-186 | A zero key byte leaves the data byte |
| Ctr.CryptIs | src/crypto/aes.cpp:123-186 | Byte i is combined with byte i modulo 16 of the block of the counter plus i / 16, modulo 2^128 |
| Ctr.NoKeyNoSecret | src/crypto/aes.cpp:123-186 | Under an all-zero key stream the encrypted data is the data |
| Ctr.CryptInvolution | src/crypto/aes.cpp:211-274 | Decryption with the same counter undoes encryption, for every block function and length |
| Ctr.AdvanceAdvance | src/crypto/aes.cpp:123-186 | Advancing the 128-bit counter in two steps is advancing it by the sum, wrap-around included |
| Ctr.CryptSplit | src/crypto/aes.cpp:123-186 | A stream cut at a block boundary and continued with the running counter is the one-shot stream |
| Ctr.CryptSplitIff | src/crypto/aes.cpp:123-186 | Cutting is harmless for every block function exactly if the first piece is whole blocks or nothing follows: section 6.5 of NIST SP 800-38A discards the rest of a partial block |
| Ctr.PartialReadIff | src/ubj/store/blob.cpp:126-157 | Whatever the handle's running counter is, reading a piece decrypts it for every cipher exactly if it is empty, or starts at a block boundary and the counter is the salt advanced by just the blocks before it: no read moves the counter to its offset |
| Ctr.ResourceCountersDisjoint | src/request/pushrequest.cpp:49-72 | The counters of two resources of one message never meet, over all blocks a 32-bit length allows |
| Ctr.ResourceCounterIs | src/request/pushrequest.cpp:49-72 | The sixteen bytes of a resource's first counter: eight of the message salt, the resource id lowest byte first, four zeros |
| Aes.Cipher.CtrCrypt | src/crypto/aes.cpp:123-186 | The cipher library's call's block loop, also in place, is the stream of the model and leaves the counter behind the last block |
| Aes.Cipher.Encrypt | src/crypto/aes.cpp:123-186 | The 1024-byte chunk loop with its running counter produces the one-shot stream of the whole data, in place or not |
| Aes.OverwriteIs | src/ubj/store/blob.cpp:182-229 | What a positioned write leaves, byte by byte |
| Aes.Blob.PutChunk | src/ubj/store/blob.cpp:182-229 | One turn of the write callback: the next chunk of the stream lands right behind the earlier ones |
| Aes.Blob.WriteEncrypted | src/ubj/store/blob.cpp:182-229 | The chunks written at moving positions leave the encrypted data at the offset and all other bytes; a failure leaves everything before the offset |
| Aes.Blob.Write | src/ubj/store/blob.cpp:182-229 | Both modes: what lies at the offset afterwards, when the call fails, and where the counter is |
| Aes.Blob.Read | src/ubj/store/blob.cpp:126-157 | The bytes read, decrypted in place with the running counter; out of range changes nothing |
| Aes.WholeBlobRoundTrip | src/ubj/store/blob.cpp:126-229 | A blob of any length written through the callback and read whole with a fresh counter gives the original data |
| Streams.PartBounds | src/streamsender.cpp:64-91 | The part count covers the data and its last part is not empty; it fits the receiver's 32-bit product exactly up to 65535*65536 bytes |
| Streams.SendStep | src/streamsender.cpp:103-163 | Call k of a sender emits part k with its slice (encrypted for a resource), its stream's id and type, and the part count; the body is never empty and at most 65536 bytes; the sender completes with the last part, so up to 65536 parts no wrap of a 32-bit expression is felt |
| Streams.SlicesTile | src/streamsender.cpp:103-163 | The bodies of the parts 1..n, in order, are the data without gap or overlap |
| Streams.NewReceiverIs | src/bufferreceiver.cpp:77-98 | A new receiver has the packet's id, type and part count and a zero-filled buffer of 65536 bytes per part |
| Streams.ReceiveIs | src/streamreceiver.cpp:83-117 | Exactly a first part or the part after the last one is taken; its decrypted body then lies at 65536 times its place, as far as the buffer reaches, and the rest of the buffer is as before |
| Streams.BodiesAreOneStream | src/message/resourcesender.cpp:145-156 | The bodies of the emitted packets, joined, are the data, encrypted in one piece if the stream has a key: cutting into parts is invisible to the cipher |
| Streams.BodyIs | src/streamsender.cpp:103-163 | The size of every part, and each of its bytes: the byte of the data at its place, under a key combined with the key stream's byte for that place in the whole stream |
| Streams.ReceiveFirst | src/bufferreceiver.cpp:77-115 | The first part puts a fresh receiver into the state after one part |
| Streams.ReceiveNext | src/streamreceiver.cpp:83-117 | Each next part in order advances the receiver by one part |
| Streams.CompletedDelivers | src/bufferreceiver.cpp:77-115 | After the last part: completed, the data as prefix, zeros behind it, and the byte count equal to the size |
| Streams.ReceivesWhole | src/streamreceiver.cpp:83-117 | The receiver made from the first packet of a stream and fed all of them is completed, for keyed streams too |
| Streams.TransferIff | src/streamsender.cpp:64-163 | A stream arrives unchanged exactly if it has between 1 and 65535*65536 bytes |
| Streams.TooLong | src/bufferreceiver.cpp:77-98 | Just beyond that bound the receiver's buffer size wraps to zero and the very first packet is rejected |
| Streams.CompletesOnlyOnAllParts | src/streamreceiver.cpp:83-117 | Whatever packets arrive, lost, repeated or reordered: a receiver that still accepts is at part p only if the last p packets were parts 1 to p in a row |
| Streams.LastPartCompletes | src/streamreceiver.cpp:83-117 | The packet that turns a receiver to completed is number parts of the count its first packet announced, and the packets before it were all the others in order |
| Streams.CompletedHasAllParts | src/streamreceiver.cpp:83-117 | A completed receiver has at some point accepted parts 1 to parts in a row |
| Streams.FeedSplit | src/streamreceiver.cpp:83-117 | Feeding packets in two batches is feeding them in one |
| StreamObjects.MemoryBuffer.Read | src/memorybuffer.cpp:153-187 | The bytes read, one by one, up to the end of the buffer; fails only on an empty one and changes only the bytes read |
| StreamObjects.MemoryBuffer.Write | src/memorybuffer.cpp:189-219 | The bytes written, one by one, up to the end of the buffer; fails only on an empty one and leaves the other bytes |
| StreamObjects.MemoryBuffer.Copy | src/memorybuffer.cpp:221-234 | A copy is a new buffer with the same bytes |
| StreamObjects.StreamSender.PreparePacket | src/buffersender.cpp:106-130 | The shared body holds the slice after clearing, and the packet describes it; a resource of length zero is padded, a buffer sends nothing |
| StreamObjects.StreamSender.ProcessPacket | src/message/resourcesender.cpp:145-156 | The packet body is encrypted in place and the cipher state moves on by its blocks |
| StreamObjects.StreamSender.Process | src/streamsender.cpp:103-163 | The object refines the sender of the model and hands out its own, reused body buffer |
| StreamObjects.StreamReceiver.Decrypt | src/message/resourcereceiver.cpp:102-118 | The packet body is decrypted in place before it is placed |
| StreamObjects.StreamReceiver.Store | src/bufferreceiver.cpp:100-115 | The body lands at its part's place and the counters move, as in the model |
| StreamObjects.StreamReceiver.Process | src/streamreceiver.cpp:83-117 | The object refines the receiver of the model, order check included |
| EngineModel.DemuxKeepsGood | src/engine.cpp:363-411 | After every packet the receivers are filed under their own id, none is completed, and those of other streams are untouched |
| EngineModel.DemuxEffect | src/engine.cpp:363-411 | A packet shows only in its own stream: its receiver stays exactly if the packet is accepted and does not complete it, something is delivered exactly if the packet completes it, and then it is what the receiver holds; without receiver and key nothing happens |
| EngineModel.RunningAreFed | src/engine.cpp:363-411 | After any packets from any streams in any order, with any answers of createStreamReceiver: receivers are filed under their id, none is completed, and each is what feeding it the accepted packets of its own stream since some first one gives |
| EngineModel.DeliversOnlyComplete | src/engine.cpp:363-411 | The last of any sequence of packets delivers nothing, or one stream: its own, of which the last packets accepted were parts 1 to parts in a row, with what a receiver fed just those packets since its first holds, however other streams interleave |
| EngineModel.EveryDeliveryIsDue | src/engine.cpp:363-411 | So every delivery ever made goes back to a packet that completed all parts of its stream |
| EngineModel.StepKeeps | src/engine.cpp:363-502 | Every step of two engines joined by a FIFO (post a stream, a sender round with arrivals, deliver a packet) keeps the invariant that ties senders, wire, receivers and deliveries of every stream |
| EngineModel.NothingWrongIsDelivered | src/engine.cpp:363-411 | In every run, whatever the interleaving, a stream is handed over at most once and only with its own bytes, and its packets on the wire are consecutive parts in order |
| EngineModel.QuietMeansDelivered | src/engine.cpp:443-502 | A run that has sent and received everything has delivered every posted stream exactly once with its original bytes and keeps no receiver |
| EngineModel.RoundCloser | src/engine.cpp:443-502 | One round brings the sender at position p exactly one step closer: position plus parts left drops by one |
| EngineModel.RoundIs | src/engine.cpp:443-502 | A round serves the senders in order, each once, up to the first that completes or fails, which alone leaves the list, or whose packet is refused, which stays; the senders behind it are not touched |
| EngineModel.FinishedWithin | src/engine.cpp:443-518 | If the callback takes every packet, a sender at position p with r parts left is finished and gone after p + r rounds, however many senders join meanwhile |
| EngineModel.GoneWithin | src/engine.cpp:443-518 | The same bound for lists of any senders, empty and oversize ones included: a sender whose position and calls left add up to n is gone after n rounds, however many join |
| EngineModel.PostedIsGone | src/engine.cpp:122-141 | A stream posted behind n senders is gone after n rounds and one for each 65536 bytes, or one if it is empty, whatever the others are and however many join |
| EndToEnd.ValueOverStream | src/ubjreceiver.cpp:71-88 | End to end: any writable object, array or buffer whose encoding is at most 65535 parts long, encoded, cut into packets, put together and decoded from exactly the bytes received, comes back canonical, and equal to what was posted exactly if its strings are C strings |
| Engine.Engine.ProcessStreamSenders | src/engine.cpp:443-502 | The round over a snapshot of the list is the modelled round for any senders, callback answers and senders posted meanwhile; these stay behind the survivors; the result counts the packets taken, or is 0 on refusal; with copying every body is new |
| Engine.Engine.Turn | src/engine.cpp:457-499 | One turn of the round: serve, copy, ask the callback, remove |
| Engine.Engine.AddStreamSender | src/engine.cpp:122-141 | A sender joins at the end of the list, and one without an id is refused |
| Engine.Engine.GetElements | src/client.cpp:1791-1811 | The refill appends the round's packets to the send queue, and every packet queued before keeps its bytes although the senders clear, refill and encrypt their one body buffer; no queued body is ever written by a sender again |
| Engine.SenderJoins | src/engine.cpp:122-149 | A sender with its own body buffer and cipher can be added without endangering any other sender or queued packet |
| Engine.Engine.ProcessIncomingPacket | src/engine.cpp:363-411 | The map of receiver objects refines the demultiplexer of the model, for every packet and whatever createStreamReceiver answers; the result says whether the packet was accepted |
| Engine.WithoutAt | src/engine.cpp:509-514 | Removing a sender by identity removes its one position |
| Where.AcceptedIff | src/ubj/store/action.cpp:236-311 | SQL can parse the emitted clause exactly if something is emitted for every condition at every depth; dangling ANDs and ORs come from arrays under other keys, empty $or, empty objects in it and objects without operator |
| Where.ClauseMeansQuery | src/ubj/store/action.cpp:236-311 | For every well-formed query the clause, parsed with AND binding tighter than OR, evaluates as the nested query under every three-valued truth of the comparisons, with its placeholders anywhere among the bound values |
| Where.FlatFacts | src/ubj/store/action.cpp:236-311 | The k-th placeholder of the clause belongs to the k-th bound value: placeholders are numbered left to right and as many as values |
| Where.FirstOperatorOnly | src/ubj/store/action.cpp:283-296 | A field with several operators is emitted with the first in map order alone; this means what was asked exactly if there is one operator |
| Where.OperatorMeans | src/ubj/store/action.cpp:236-247 | $ge, $gt, $le, $like, $lt and $ne by name: the text of the clause, the value bound, and the comparison meant, for every column and value |
| Where.OperatorEmitted | src/ubj/store/action.cpp:283-296 | Of several operators the first of $ge, $gt, $le, $like, $lt, $ne is emitted, and of an object with none of them nothing |
| Where.OperatorsMean | src/ubj/store/action.cpp:236-247 | What several operators on one field ask for: all that are there |
| Where.EqualityMeans | src/ubj/store/action.cpp:297-303 | A plain value is compared for equality: the text, the value bound, the meaning |
| Where.FieldsMean | src/ubj/store/action.cpp:304-308 | Fields are joined by AND in the text, and mean that all hold, with SQL's truth of the unknown |
| Where.AlternativesMean | src/ubj/store/action.cpp:256-281 | The items of $or are joined by OR in parentheses in the text, and mean that one holds, with SQL's truth of the unknown |
| Where.NoClauseIff | src/ubj/store/action/update.cpp:58-63 | The WHERE is left out, so that every row is hit, exactly if the query is empty or its only condition emits nothing |
| Where.UpdateIsRight | src/ubj/store/action/update.cpp:54-66 | An UPDATE parses exactly if it sets something and its condition is complete or absent; then column k gets value k and the condition, numbered behind the SET placeholders, means the query |
| Where.SetText | src/ubj/store/action.cpp:372-389 | The text of the assignments |
| Where.UpdateText | src/ubj/store/action/update.cpp:54-66 | The text of an update behind SET: assignments, and WHERE with the clause only if there is one |
| Where.InPlaceIff | src/ubj/store/action.cpp:396-480 | A value that cannot be bound (an object or array for a plain table) takes no index, so every bindable value is held by its own parameter exactly if none of them follows an unbindable one and none is a 32-bit float |
| Where.Float32Example | src/ubj/store/action.cpp:466-468 | The list of one 32-bit float: it can be bound, and its parameter does not hold it |
| Where.AllBound | src/ubj/store/action.cpp:396-480 | If every value can be bound, parameter k is bound from value k, and holds it unless that is a 32-bit float, for which eight bytes are read from a four-byte buffer |
| Where.ParameterIff | src/ubj/store/action.cpp:396-480 | Value by value: parameter k is bound from value k and holds it exactly if neither that nor an earlier value is unbindable and it is no 32-bit float |
| Where.BindableIs | src/ubj/store/action.cpp:403-451 | Which values can be bound, by kind and by the names $zeroBlob and $bindNull |
| Where.Action.WherePart | src/ubj/store/action.cpp:236-311 | The loops and recursion emit the specified tokens and append the operands to the bound values in the same order |
| Where.Action.UpdatePart | src/ubj/store/action.cpp:372-389 | The SET part and its values, appended first |
| Where.Action.UpdateStatement | src/ubj/store/action/update.cpp:54-66 | The statement and the order of all its bound values |
| Where.Action.BindToStatement | src/ubj/store/action.cpp:396-480 | The bind loop fills parameters from the first on with what the bindable values bind, in order, and leaves the rest unbound |
| Selection.OperandsHeld | src/ubj/store/action.cpp:396-480 | For a virtual table every operand is held by its own parameter if none is a 32-bit float |
| Selection.QueryFindsWhatIsMeant | src/ubj/store/store.cpp:588-613 | Query, clause, parameters and table in one: the clause built from an expressible query, parsed and evaluated on each row with what the parameters hold, selects the rows of the table the query means, exactly if its row id hits no other table |
| Selection.UpdateChangesWhatIsMeant | src/ubj/store/store.cpp:789-850 | An update with such a query changes the table's rows the query means, to what the codec keeps of the values, and leaves the others |
| Selection.RemovalTakesWhatIsMeant | src/ubj/store/store.cpp:883-930 | A removal with such a query takes just those rows |
| SecMem.Allocator.GetOffset | src/crypto/secmem.cpp:331-379 | Complete first fit for sizes above 0, also around entries of size 0: the lowest offset where the request fits, and failure only if it fits nowhere; where size 0 ends up is stated too; no 32-bit expression wraps |
| SecMem.Allocator.Malloc | src/crypto/secmem.cpp:189-217 | The block is entered at the first fit, or an empty entry where the code puts it, and the entries stay in order, in bounds and disjoint |
| SecMem.Allocator.Free | src/crypto/secmem.cpp:223-247 | Exactly the bytes of the block become zero and exactly its entry goes; an unknown pointer changes nothing |
| SecMem.Allocator.Used | src/crypto/secmem.cpp:295-312 | The sum of the live sizes, which cannot overflow because it is at most the locked size |
| SecMem.Allocator.Available | src/crypto/secmem.cpp:319-322 | Used and available add up to the locked size |
| SecMem.PutSound | src/crypto/secmem.cpp:189-217 | A block put into a hole keeps all blocks in bounds, ordered and disjoint, adds its size, and freeing it gives the old list back |
| SecMem.FitsIff | src/crypto/secmem.cpp:331-379 | A request fits at an offset exactly if every one of its bytes is locked memory and in no block |
| SecMem.PutKeeps | src/crypto/secmem.cpp:189-217 | Whatever was answered, and whether or not entries are empty, entering it keeps the entries in order, in bounds and disjoint |
| SecMem.EntriesAre | src/crypto/secmem.cpp:189-247 | The entries after a request and after a free: as before with the new one, and without the freed |
| SecMem.EraseSound | src/crypto/secmem.cpp:223-247 | Erasing keeps the list sound, subtracts the size, and is undone by putting the block back |
| SecMem.SumBound | src/crypto/secmem.cpp:295-312 | Disjoint blocks in bounds never add up to more than the locked size |
| SecMem.RunIsSafe | src/crypto/secmem.cpp:189-247 | In every run of allocations above size 0, frees and stores by owners, the live blocks are in bounds and disjoint, and memory that was ever allocated and is free now holds zeros |
| SecMem.OthersUntouched | src/crypto/secmem.cpp:189-247 | A call or store about one block leaves every other live block and its bytes as they were |
| SecMem.EmptyOffsetIs | src/crypto/secmem.cpp:331-379 | Where a request of size 0 is placed: at 0, or at the end of a block that starts there |
| SecMem.EmptyRequestSharesIff | src/crypto/secmem.cpp:331-379 | After a request of size 0 some later request is given the very same address, so that two owners hold it, exactly if the address is not the end of the memory |
| SecMem.SharedExample | src/crypto/secmem.cpp:189-247 | In an empty memory a request of size 0 and then one of 16 bytes both get address 0, and when the first owner frees it the second owner's block is gone |
| SecMem.EmptyRequestClobbersIff | src/crypto/secmem.cpp:331-379 | A request of size 0 replaces the entry of a live block at once exactly if the second block follows the first at the very start of the memory; it is then that block's entry, and only that one |
| SecMem.ClobberedExample | src/crypto/secmem.cpp:189-217 | Two live blocks, a request of size 0, and the next request is given memory that is still in use |
| Cascades.DeleteResourceExact | src/store.cpp:651-683 | Deleting one resource removes it and its blob unless the file system uses that; references stay sound exactly if no other resource shares the blob |
| Cascades.DeleteMessageExact | src/store.cpp:602-644 | Deleting a message removes it, its resources and their blobs, and nothing else |
| Cascades.SucceedsIff | src/store.cpp:602-683 | When deleting a resource or a message reports success, both ways, and that a failing call changes nothing |
| Cascades.DeleteHistoryExact | src/store.cpp:461-502 | With unshared blobs, deleting a history removes exactly it, its messages, their resources and the blobs only they used, keeps every reference sound and leaves no unused blob |
| Cascades.DeleteHistoryKeepsIff | src/store.cpp:461-502 | References stay sound exactly if no resource of the history shares its blob with another resource outside the file system: the code asks only the file system, and a resource whose blob is already gone cannot be deleted any more |
| Cascades.DeleteHistoryRightIff | src/store.cpp:461-502 | The history is looked for and removed by row id: the call deletes a history or fails, as it should, exactly if the id is not the row id of something else in the shared blob table |
| Cascades.OtherRowsStay | src/store.cpp:496-502 | A removal by row id leaves every other row of every table, and all blobs |
| Cascades.ContactDeletedExample | src/store.cpp:465-502 | Given the row id of a contact, the call deletes the contact and reports success |
| Cascades.OwnMessageExample | src/store.cpp:461-502 | Given the row id of a message that names it as its history, the call deletes the message and reports failure |
| Store.Store.DeleteResource | src/store.cpp:651-683 | The method on the tables does what the model says, including its early failures |
| Store.Store.DeleteMessage | src/store.cpp:602-644 | The loop over the resources, failures ignored, does what the model says |
| Store.Store.DeleteHistory | src/store.cpp:461-502 | The query by row id, the loop over the messages, failures ignored, and the removal by row id do what the model says for every id |
| Store.Store.DeleteVfsNode | src/store.cpp:266-328 | What the call does for every row id: for a node see DeleteNode; for a row of another table whose type reads as file or directory, that row goes, with its unused blob or with the nodes that name it as parent; for any other id it fails and changes nothing |
| Store.KindsAre | include/Zway/store.h:73-78 | Directories have type 1 and files type 2 |
| Store.ForeignIs | src/store.cpp:270-276 | What a query for a node by row id shows of a row of another table, by the table |
| Store.ForeignFileIs | src/store.cpp:309-328 | A row of another table whose type reads as 2: it goes, and its blob exactly if no node and no other resource holds it; when that reports success |
| Store.Store.DeleteNode | src/store.cpp:266-328 | For a node of any forest the recursion terminates; on success exactly the node and everything inside it is gone, on failure only parts of that; with data-less directories and sound references it succeeds exactly if everything inside is a file or directory, removes exactly the blobs of removed files that no remaining node and no resource uses, and keeps references sound and blobs used |
| Store.Store.DeleteChildren | src/store.cpp:283-303 | The same for the loop over the children, whose trees are disjoint; their parent may be a row of another table |
| Store.Store.DeleteForeignDirectory | src/store.cpp:278-308 | A row of another table whose type reads as that of a directory: the nodes that name it as parent go with their trees, then the row itself |
| Store.Store.DeleteForeignFile | src/store.cpp:309-328 | A row of another table whose type reads as that of a file: the row goes, and its blob if no node and no remaining resource uses it |
| Store.DeleteVfsNodeRightIff | src/store.cpp:266-328 | The call deletes a node or fails, as it should, exactly if the id is not the row id of something else whose type field is 1 or 2 |
| Store.ResourceDeletedExample | src/store.cpp:266-308 | Given the row id of a resource of type LocalStore, which is the number of Directory, the call deletes the resource, reports success and leaves its blob to nobody |
| Store.FreedTwice | src/store.cpp:310-323 | Freeing blobs in stages frees the same blobs as looking once at the end, because directories carry no data |
| Store.FreedKeeps | src/store.cpp:310-323 | Freeing just those blobs keeps every reference and every remaining blob referenced |
| Store.UnderSplit | src/store.cpp:283-303 | What is inside a directory is the directory itself or inside one of its children |
| Store.ChildrenApart | src/store.cpp:283-303 | The trees of two children have nothing in common and do not hold their parent |
| VTable.TypesDiffer | src/ubj/store/module.cpp:292-301 | The decimal texts of two type tags agree only if the types do |
| VTable.DecimalIs | src/ubj/store/module.cpp:292-301 | The digits a type tag is compared as |
| VTable.ShownIs | src/ubj/value.cpp:395-422 | The text a field is indexed by: digits of an integer, a text itself, nothing for nulls, truth values and trees |
| VTable.QueryIsPrivateIff | src/ubj/store/module.cpp:577-701 | A query sees only rows of its own table exactly if its row id does not name a matching row of another table |
| VTable.UpdateRefines | src/ubj/store/store.cpp:789-875 | An update without the tag field changes the rows it holds of in its own table to what the codec keeps of the values, keeps their tag and their other fields, and changes no other table |
| VTable.UpdateKeepsTableIff | src/ubj/store/store.cpp:789-875 | An update keeps the rows of its table exactly if it changes none, leaves the tag alone or sets it to a text that the codec cuts to what it was |
| VTable.CutTagExample | src/ubj/store/store.cpp:826-834 | A tag text other than the type's that is stored as the type's: the digit, a zero byte and more |
| VTable.ChangedIsEncoded | src/ubj/store/store.cpp:826-834 | Writing the merged record through the codec is setting the mentioned fields to what the codec keeps of them, and the result is a record the codec gives back as it is |
| VTable.ChangedIs | src/ubj/store/store.cpp:826-834 | A row after an update, column by column: mentioned fields have the new value, texts up to a zero byte or null, the others and the id are as before |
| VTable.KeptIs | src/ubj/store/store.cpp:826-834 | What the codec keeps of a field: of a text the part before its first zero byte, or null, and everything of other values |
| VTable.RemoveRefines | src/ubj/store/store.cpp:883-954 | A removal takes its rows from its own table only |
| VTable.InsertRefines | src/ubj/store/module.cpp:856-922 | An inserted row appears in its own table only, under an id that no table has |
| VTable.InsertAppears | src/ubj/store/module.cpp:856-922 | The last row of the table after an insert, column by column: integers as they are, truth values as 1 and 0, texts up to a zero byte or null, trees as they are, nothing for nulls, floats and columns not mentioned, and the type under _$type |
| VTable.NextIdIs | src/ubj/store/module.cpp:856-922 | The id of a new row is one beyond the largest, or 1 |
| VTable.RunRefines | src/ubj/store/store.cpp:588-954 | Over every run of inserts, updates and removals the tables multiplexed into one blob table are independent tables |
| VTable.PostingsAreView | src/ubj/store/module.cpp:156-185 | The posting list of the type tag is the list of the table's own rows, in order |
| VTable.VirtualTable.CreateIndex | src/ubj/store/module.cpp:156-185 | For every text the index holds, in order and without repetition, the ids of the rows that show it, and nothing else |
| VTable.VirtualTable.AddIndexItem | src/ubj/store/module.cpp:311-345 | An id is appended to its posting list unless it is there |
| VTable.VirtualTable.UpdateIds | src/ubj/store/module.cpp:292-301 | The cached ids are exactly those of the table's own rows |
| VTable.VirtualTable.Filter | src/ubj/store/module.cpp:577-701 | The cursor holds the row asked for by id, whatever its tag, or else the table's own rows |
| VTable.VirtualTable.Query | src/ubj/store/store.cpp:588-613 | What a query returns, from the fresh ids and the cursor's rows |
| VTable.VirtualTable.Count | src/ubj/store/store.cpp:719-745 | The number of rows the query would return |
| VTable.VirtualTable.Insert | src/ubj/store/module.cpp:856-922 | When an insert fails, and what it adds to the table's view otherwise: one row with a new id, each of its columns stated by the kind of the value, and the tag |
| VTable.VirtualTable.Update | src/ubj/store/store.cpp:789-850 | Reading, merging and writing the rows found one by one, through the codec, equals the update of the model |
| VTable.VirtualTable.Remove | src/ubj/store/store.cpp:883-930 | Removing the rows found one by one equals the removal of the model |
| Inbox.PushKeeps | src/client.cpp:1546-1749 | A push or redelivery keeps statuses and request records in agreement |
| Inbox.TextsAreStored | src/client.cpp:1694-1749 | In every run the message of each delivered push with text is in the final state unless it was deleted afterwards; one that was new and brought no resources is received |
| Inbox.FinishKeeps | src/client.cpp:1129-1235 | A finished stream keeps them in agreement, although the request is the one captured when the receiver was made |
| Inbox.CountsAgree | src/client.cpp:1168-1196 | For a push with text the two counts agree exactly if every resource of it is received, or none is stored |
| Inbox.StatusesAgree | src/client.cpp:1085-1283 | In every run of pushes, redeliveries, stream starts, ends and losses and deletions, if no other push carries a resource of a push with text, a stored message is received exactly if all its resources are |
| Inbox.RecordsStay | src/client.cpp:1085-1283 | In every run whatsoever, also when pushes share resources, an unfinished resource still has its request record |
| Inbox.StatusesAgreeIff | src/client.cpp:1617-1702 | That condition is exact: for any set of pushes every run ends in agreement if and only if no push with text shares a resource with another one |
| Inbox.ReceivedTooEarly | src/client.cpp:1168-1196 | How it fails: whenever the second of two pushes shares a resource but has one of its own, a run exists after which its message is received and the shared resource is not |
| Inbox.NeverReceived | src/client.cpp:1653-1690 | The other way it fails: whenever all resources of the second push came with the first, a run exists after which they are all received and the second message is pending with nothing filed under it |
| Inbox.OrphanStays | src/client.cpp:1168-1235 | And that message stays pending in every continuation without deletions |
| Inbox.BlobsAreOwn | src/client.cpp:1129-1156 | In every run whatsoever, also when pushes share resources, each resource's data is a stored blob and no two resources hold one |
| InboxStore.InboxIsUnshared | src/client.cpp:1129-1156 | Tables that hold a state with that blob law, hence every state the handlers reach, next to any file system, have sound references and no blob shared between resources: the exact condition of Cascades.DeleteHistoryKeepsIff always holds for received data |
| InboxStore.DeletionIsCascade | src/store.cpp:602-644 | Deleting a message from such tables, blobs of files excepted, leaves tables that hold just what the deletion step of the inbox leaves |
| Inbox.CanBeReceivedIff | src/client.cpp:1085-1103 | Wherever any run has led, an unfinished resource is received in some continuation that does not delete its message if and only if its stream is running or nothing of it has arrived |
| Inbox.BrokenStreamExample | src/client.cpp:1093-1103 | A push, a stream that starts and breaks off: reachable from the empty store, and from there no continuation receives the resource |
| Inbox.SharedResourceExample | src/client.cpp:1653-1690 | The smallest such run: two pushes with the one resource 5, which is received, and the second message is not |
| Inbox.BrokenStreamStaysUnfinished | src/client.cpp:1093-1103 | A stream that broke off can never start again, because only a resource of status 0 gets a receiver: its resource stays as it is in every continuation that does not delete its message |
| Inbox.Client.ProcessPush | src/client.cpp:1617-1749 | After a push: the request is on record if there are resources, each resource is there, new ones unknown under this push, and a push with text has its message, received if new and without resources, pending if new and with them; everything else is as before |
| Inbox.Client.CreateStreamReceiver | src/client.cpp:1085-1283 | A receiver is made exactly for a resource of status 0 whose request is on record, and then that resource alone is incoming |
| Inbox.Client.ReceiverCompleted | src/client.cpp:1129-1235 | After a completed stream: the resource is received with its new blob, a stale blob is gone, and exactly if all resources of the captured request are received the request record goes and the message, if there, is received |
| Inbox.Client.DropReceiver | src/engine.cpp:401-405 | A receiver that ends without completing goes, and no status or record changes |

## Left out

- UbjTreeReader.RoundTrip: values are those the value classes can hold: an object, array or byte buffer at the top, sizes of 32 bits, non-empty keys without zero bytes, fewer than 64 nested containers; what the first deeper one does is UbjWriter.Context.BeginEndAtLimit.
- UbjReader.Context.ReadDynamic: well-formed input only; on truncated or malformed bytes the reader runs past the end without a defined result.
- UbjReader.Context.ReadRawArray: arrays of more than one dimension, typed arrays of arrays or objects with a count, whose element size the reader takes to be -1, and typed arrays with elements but without a count, whose elements may begin with the closing mark, are not part of this model: the writer makes none.
- UbjWriter.Context.WriteInteger: `INT64_MIN`, for which the absolute value is undefined.
- UbjTreeReader.Lookup: the sorted table is built for each lookup instead of being kept in the object; the sort of the C library is an insertion sort here.
- Aes.Cipher.Encrypt: the block function and the loop of the cipher library stand for any implementation of counter mode; the pointer to the data is an array index.
- Streams.CompletedDelivers: byte counts of a stream that starts over with a second part 1, which keep adding up.
- EngineModel.FinishedWithin: the packet callback takes every packet, as the send queue does; streams have ids of their own and between 1 and 65535 parts (EngineModel.GoneWithin has no such bound).
- Engine.Engine.ProcessStreamSenders: a sender object is in the list once and senders do not share body buffers or ciphers; senders posted by other threads during a round count as posted by the callback.
- Engine.Engine.ProcessIncomingPacket: what a completed receiver holds is kept as a list of deliveries; the callbacks it triggers, requests and their time-outs are not part of this model.
- Where.ClauseMeansQuery: the clause is a list of tokens: a key is one column name, whatever characters it has; ORDER BY, LIMIT, the returned fields and INSERT lists are left out as easy members.
- Where.Action.BindToStatement: what a 32-bit float is bound as is left open; zero blobs, NULLs and encoded objects are not told apart from the values that ask for them, and encoding an object for a virtual table succeeds.
- SecMem.Allocator.Malloc: calls are one at a time; page locking, set-up and clean-up are left out, and the memory's address is an offset.
- SecMem.RunIsSafe: runs without requests of size 0, since with them two owners may hold one address (SecMem.EmptyRequestSharesIff).
- Cascades.DeleteHistoryExact: tables are values with the fields the cascade reads; ids of resources and of messages are unique.
- Store.Store.DeleteVfsNode: the node table is a map, so children come in any order; ids above 2^31 are truncated by the code; of the rows of other tables only the fields called type and data are kept.
- Store.DeleteVfsNodeRightIff: nodes are files or directories, and references are sound.
- VTable.RunRefines: queries by row id of another table and updates of the tag are excluded here and have their own exact conditions; failures of the database are not modelled.
- VTable.VirtualTable.Query: the database's own check of the condition is the predicate of the model; of the planner's choices only a comparison with a row id matters, since the column indexes are never filled.
- VTable.VirtualTable.Insert: a field called rowid, which SQL accepts and the module ignores, counts as an unknown column.
- VTable.VirtualTable.CreateIndex: the maintenance of column indexes that is commented out in the code is left out.
- Inbox.StatusesAgree: a push is its decrypted content; failing inserts, receipts and the statuses of outgoing messages are left out; deleting is of whole messages.
- Sockets, TLS, reconnecting and the select loop are left out: input and output.
- SQLite, the RSA, digest, key derivation and random number functions are left out: foreign code.
- Wake-ups of threads are left out: a posted handler may wait for the next one.
- The classes for contacts, accounts, events, dumping and picture data are left out: easy members.
