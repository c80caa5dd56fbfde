# srpg verification

A Dafny model of four parts of the srpg code base, with proofs of what they are for.

* **The RPC stack.** Integers travel as groups of seven bits (`Varint`, over words and bit operators in `Bits`; byte order in `Endian`), values of composite types and the conditional headers are built from them (`Codec`), packets are gathered into packages behind a size and a zero-terminated size list (`Package`), and a connection cuts the byte stream into packages and the packages into calls of handlers (`Framing`). A client session hands out 8-bit operation ids and keeps promises under them (`SessionModel` as a value, `Session` as the object with its fields and real bytes); the serving side binds implementations and appends responses (`Service`). `Protocol` puts two such peers side by side as a transition system, with packages under way in both directions and a call identity, which is not on the wire, on every packet; `Safety` proves what holds in every reachable state and `Delivery` what has been achieved once everything is delivered; `Exhaustion` is a run beyond the 8-bit ids. `WireFormat`, `SessionLaws`, `StepLaws` and `Arguments` say byte by byte, packet by packet and step by step what is written and kept.
* **Asynchronous chains.** `ChainImpl` is one link with its countdown and deferred handlers; `Chain` lets any number of threads take, run, complete and post handlers in any interleaving, with the lock released between a swap and the posting; `ChainSafety` proves conservation, barriers, progress and termination, `ChainLaws` what building, releasing and holding mean.
* **Typed texts.** `PyFloat` is `int(float(text))` with its rounding, `FloatTexts` what it makes of decimal points. `TypedText` is the parser that a type description drives, and the layouts (texts with blanks, digits and quotes kept) that it should accept; `TextLaws` proves that it accepts exactly these; `TextReader` is the index-moving code, proved to be that parser. `Translator` turns Erlang tuples into Python ones, as a copying loop over segments and as a transducer of characters; `TranslatorLaws` proves what a translation means, and `MixedReading` which texts it makes readable; `TextExamples` are texts written out.
* **Plan search and pools.** `Search` is the recursive search with push, apply and pop against all plans; `Pool` is an object pool whose objects return by themselves while the pool may be going away, and `PoolReuse` what a living pool does with them.

Where the code and its own comments disagree, the code is followed:

* `ignore` (common/rrpc/old/package.hpp:216) has an empty body although its callers say that it discards bytes. Both are modelled (`Env.stub`): the framing theorem is an equivalence whose condition is "reads at most its packet" for the documented `ignore` and "reads exactly its packet" for the stub, and `Framing.StubShifts` is a concrete package on which the stub loses its place.
* `get_free_operation_id` and the session number wrap at 256. The two-peer theorem is an equivalence: in every state of a run every packet under way leads to the promise of its own call, alone, and every promise set has the value of its own call, exactly when each call with a result is made in one of the first 256 sessions while fewer than 256 calls wait there. Sessions beyond that number do no harm by themselves. `Exhaustion.AnotherCallsPromise` is a run from the start, with packages delivered in order, in which the 257th waiting call's value ends up in the first one's promise.
* The packet header object is not initialised before the first packet and keeps three stale fields when a response is read into it; both show in the events (`junk`, `Codec.Received`).
* `io::get` gives -1 at the end of the input, which the integer decoder takes for a last byte of seven ones; a size list without an end keeps `unpack_packet_sizes` from returning (`None`, and a connection that is `Hung`).
* `int(float(text))` keeps an integer exactly when it is a double. This covers more integers than those up to 2^53, and refuses or changes the rest.

## Model

| member | source | states |
|---|---|---|
| Varint.EncodeUnsigned | common/rrpc/encode.hpp:45-60 | the shift-and-mask loop on a word of any width appends exactly the seven-bit-group format of the number |
| Varint.DecodeUnsigned | common/rrpc/decode.hpp:48-62 | on any input, well formed or not, the shift-and-or loop computes the number of the format modulo the width and leaves the rest of the input |
| Varint.EncodeSigned | common/rrpc/encode.hpp:70-74 | appends the format of the ZigZag image |
| Varint.DecodeSigned | common/rrpc/decode.hpp:70-74 | undoes ZigZag, as written with shift and exclusive or, on the number read |
| Varint.RoundTrip | common/rrpc/decode.hpp:48-62 | decoding an encoding followed by anything gives the number and exactly what followed |
| Varint.WordRoundTrip | common/rrpc/encode.hpp:45-60 | at width n the truncating decoder restores every n-bit word, and each shift it makes on an encoding is below n |
| Varint.Length | common/rrpc/encode.hpp:45-60 | at most k bytes exactly when the number is below 2^(7k) |
| Varint.PrefixFree | common/rrpc/encode.hpp:45-60 | no encoding is a proper prefix of another, and no two numbers share one |
| Varint.ZigZagMeaning | common/rrpc/encode.hpp:73 | the shifts and the exclusive or on two's complement words interleave negative and other numbers |
| Varint.UnZigZagMeaning | common/rrpc/decode.hpp:73 | the inverse expression separates them again and stays inside the width |
| Varint.ZigZagBijection | common/rrpc/decode.hpp:70-74 | the two expressions are inverse bijections between signed and unsigned n-bit numbers |
| Varint.SignedRoundTrip | common/rrpc/decode.hpp:70-74 | a signed number comes back from its bytes followed by anything |
| Varint.SignedLength | common/rrpc/encode.hpp:70-74 | a signed number takes at most k bytes exactly when -2^(7k-1) <= v < 2^(7k-1) |
| Varint.LittleRoundTrip | common/rrpc/encode.hpp:82-85 | the k little-endian bytes of a fixed word give the word back |
| Varint.LittleInverse | common/rrpc/decode.hpp:81-84 | any k bytes are the little-endian bytes of the word read from them |
| WireFormat.Groups | common/rrpc/encode.hpp:45-60 | byte i of an encoding holds the bits from 7 i on, and the mark 0x80 unless it is the last |
| WireFormat.LittleAt | common/rrpc/encode.hpp:82-85 | byte i of a fixed word holds the bits from 8 i on |
| WireFormat.EndOfInput | common/rrpc/decode.hpp:55 | what the end of the input is read as |
| WireFormat.UnsignedRange | common/rrpc/decode.hpp:43-62 | which numbers the unsigned and fixed types of 8, 16, 32 and 64 bits have, in digits |
| WireFormat.SignedRange | common/rrpc/decode.hpp:65-75 | which numbers the signed types have |
| Bits.AndMeaning | common/rrpc/encode.hpp:49 | the model's bitwise and is the one on single bits |
| Bits.OrMeaning | common/rrpc/decode.hpp:56 | the model's bitwise or is the one on single bits |
| Bits.XorMeaning | common/rrpc/encode.hpp:73 | the model's exclusive or is the one on single bits |
| Bits.ShlMeaning | common/rrpc/decode.hpp:56 | shifting left bit by bit, losing what leaves the word, multiplies by 2^k modulo the width |
| Bits.ShrMeaning | common/rrpc/encode.hpp:50 | shifting right bit by bit divides by 2^k |
| Endian.Reorder | common/rrpc/conversion.hpp:42-118 | the in-place swaps through a temporary reverse the bytes of a 2, 4 or 8 byte word |
| Endian.ReorderCopy | common/rrpc/conversion.hpp:120-182 | the copying form with two moving pointers writes the reversal of the source |
| Endian.MemoryAt | common/rrpc/conversion.hpp:184-201 | which byte of a word each kind of machine keeps at which address |
| Endian.NativeToLittle | common/rrpc/conversion.hpp:184-201 | reverses on a big-endian machine only |
| Endian.WireOrder | common/rrpc/conversion.hpp:184-201 | on either kind of machine the word goes out least significant byte first, either kind of receiver gets it back, and converting twice is the identity |
| Package.SizeBuffer | common/rrpc/old/package.hpp:58-61 | a package size leaves in wire order whatever the machine |
| Package.UnpackSize | common/rrpc/old/package.hpp:162-164 | and is the same number on a receiving machine of either order |
| Codec.RoundTrip | common/rrpc/decode.hpp:30-109 | for every schema of unsigned, signed, enum, fixed, vector, tuple and guarded record, decoding the encoding of a value followed by anything gives the value and exactly what followed |
| Codec.PrefixFree | common/rrpc/decode.hpp:30-109 | in no schema is an encoding a proper prefix of another |
| WireFormat.ScalarBytes | common/rrpc/encode.hpp:38-86 | unsigned, signed and fixed numbers and enums as they are written |
| WireFormat.VecCount | common/rrpc/decode.hpp:102-108 | a vector that is read has exactly as many elements as the 64-bit size in front says, whatever follows |
| WireFormat.VecTyped | common/rrpc/decode.hpp:102-108 | any list of typed elements below 2^64 of them is a vector |
| WireFormat.VecBytes | common/rrpc/decode.hpp:102-108 | its bytes are the size and then the elements in order |
| WireFormat.TupleBytes | common/rrpc/old/idl.hpp:24-42 | the bytes of a tuple are those of its components in order |
| Codec.DecodeValue | common/rrpc/decode.hpp:30-109 | the imperative decoder computes the decoding function on every input and leaves its rest |
| Codec.DecodeLoop | common/rrpc/decode.hpp:102-108 | the element loop of the vector decoder fills in what the format prescribes |
| Codec.DecodeTuple | common/rrpc/old/idl.hpp:24-42 | the recursion over the tuple index reads the parts in order |
| Codec.DecodeRecord | common/rrpc/session.hpp:37-46 | fields are read when their guard holds of the tag and take nothing when it does not |
| Codec.ReadHeader | common/rrpc/old/header.hpp:25-36 | reading into a used header object, with its request-only fields |
| Codec.WriteHeader | common/rrpc/old/header.hpp:25-36 | writes the format of the header |
| Codec.HeaderRoundTrip | common/rrpc/old/header.hpp:25-36 | a header comes back; for a response the last three fields stay those of the object read into |
| WireFormat.HeaderBytes | common/rrpc/old/header.hpp:5-36 | the bytes of a header field by field, request being 1 |
| WireFormat.HeaderSchemas | common/rrpc/session.hpp:37-69 | the fields of the three headers, their widths and guards |
| WireFormat.HeaderRead | common/rrpc/old/header.hpp:25-36 | what reading them leaves in a used header object |
| Codec.HeaderIsRecord | common/rrpc/old/header.hpp:25-36 | the header format is that of a record schema with three guarded fields |
| Codec.MessageHeaderRoundTrip | common/rrpc/session.hpp:37-46 | flag-guarded fields are recovered when present and consume nothing when absent |
| Codec.DatagramHeaderRoundTrip | common/rrpc/session.hpp:64-69 | a datagram header comes back |
| WireFormat.MessageHeaderBytes | common/rrpc/session.hpp:23-46 | bit 0 of the flag announces seq and then channel, bit 1 the receipt |
| WireFormat.DatagramHeaderBytes | common/rrpc/session.hpp:64-69 | flag, timestamp, seq |
| Package.TerminatorIsZero | common/rrpc/old/package.hpp:56 | the terminator written as a signed zero is the byte read as an unsigned zero |
| Package.SizesReadBack | common/rrpc/old/package.hpp:198-210 | reading a written size list stops at its first zero |
| Package.SizesRoundTrip | common/rrpc/old/package.hpp:198-210 | the list reads back as recorded, with the body behind it, exactly when no packet is empty |
| Package.SizesSum | common/rrpc/old/package.hpp:107-111 | the sizes of the packets sum to the length of the body, and 32 bits record them exactly unless the body has 2^32 bytes |
| WireFormat.PackageBytes | common/rrpc/old/package.hpp:55-66 | a package byte by byte: four bytes of size that count the rest, the sizes, a zero, the packets |
| WireFormat.FromFourBytes | common/rrpc/old/package.hpp:162-168 | what a receiver makes of four bytes of size |
| Package.OutPackage.EndPacket | common/rrpc/old/package.hpp:107-111 | whatever was written since the last packet is the new packet, and the size list stays that of the packets, with sizes and counter kept in 32 bits |
| Package.OutPackage.Pack | common/rrpc/old/package.hpp:55-66 | the three buffers together are the wire form of the packets, on a machine of either byte order |
| Package.OutPackage.Consume | common/rrpc/old/package.hpp:76-79 | a sent package is empty and usable again |
| Package.UnpackPacketSizes | common/rrpc/old/package.hpp:198-210 | the loop computes the list reader wherever it returns |
| Framing.Resynchronises | common/rrpc/old/connection.hpp:110-143 | the read position after every round is the sum of the sizes so far if and only if every handler reads at most its packet (exactly its packet, with the stub) |
| Framing.DispatchesAll | common/rrpc/old/connection.hpp:110-143 | then every packet reaches its handler, once, in order, with header and body unchanged, and what follows is left |
| Framing.StubShifts | common/rrpc/old/package.hpp:216-217 | two packets and a handler on which the empty ignore loses the packet boundary |
| Framing.Chunks | common/rrpc/old/connection.hpp:62-149 | how the stream is cut into reads makes no difference |
| Framing.OnePackage | common/rrpc/old/connection.hpp:84-149 | a whole package causes exactly the calls of its packets and leaves nothing buffered |
| Framing.PartPackage | common/rrpc/old/connection.hpp:62-83 | an incomplete package causes no call |
| Framing.StreamPrefix | common/rrpc/old/connection.hpp:62-149 | after any number of bytes of any sequence of packages exactly the packets of the packages complete by then were dispatched |
| Framing.WholeStream | common/rrpc/old/connection.hpp:62-149 | the whole stream dispatches everything sent and leaves the connection idle with nothing buffered |
| Framing.EmptyFrame | common/rrpc/old/connection.hpp:76-82 | a size of zero in front of anything changes nothing |
| Framing.Connection.OnData | common/rrpc/old/connection.hpp:62-149 | the receive loop over arriving bytes computes the receiver function |
| Framing.Connection.HandleReadPackageSize | common/rrpc/old/connection.hpp:68-83 | one completed read of a size, zero sizes skipped |
| Framing.Connection.HandleReadPackage | common/rrpc/old/connection.hpp:84-149 | one completed read of a package |
| Framing.Connection.DispatchLoop | common/rrpc/old/connection.hpp:106-137 | the loop with its two breaks and reused header computes the dispatch function |
| Framing.Connection.DispatchPacket | common/rrpc/old/connection.hpp:111-136 | one round of it |
| SessionModel.FreeIdMeaning | common/rrpc/old/session.hpp:142-152 | the scan returns an id that is not a key if and only if fewer than 256 are taken, then the least one and at most the number of keys; with all taken it returns 0, which is taken |
| SessionModel.IdsBelowPeak | common/rrpc/old/session.hpp:142-152 | after any run of calls and responses every id in use is below the largest number that ever waited together |
| SessionModel.BatchTransparent | common/rrpc/old/session.hpp:179-200 | two runs with the same calls and responses, whatever batches each begins and ends in between, send the same packets in the same order under the same ids, and the same promises wait |
| SessionLaws.RequestAppends | common/rrpc/old/session.hpp:154-192 | a request adds exactly one packet: direction 1, the session, the least free id, interface, method, arity, and the arguments given |
| SessionLaws.RunSends | common/rrpc/old/session.hpp:126-234 | over any run, batched or not, the packets sent or waiting to be are those called for, in order, and the promises are those of the calls with a result that were not answered |
| SessionLaws.BatchIsOnePackage | common/rrpc/old/session.hpp:179-200 | from begin_batch to end_batch nothing leaves; then one package does, with what was open and every packet called since, in order |
| SessionLaws.EachLeavesAlone | common/rrpc/old/session.hpp:179-184 | outside a batch every packet leaves at once in a package of its own |
| SessionLaws.NothingOpenBetween | common/rrpc/old/session.hpp:73-76 | between batches no package is open |
| Session.Session.GetFreeOperationId | common/rrpc/old/session.hpp:142-152 | the loop over the ordered keys with its 8-bit counter returns that id |
| Session.Session.BeginPacket | common/rrpc/old/session.hpp:154-172 | makes a package if there is none and puts the request header in front of the packet |
| Session.Session.EndPacket | common/rrpc/old/session.hpp:179-184 | the bytes of the packet join the package in a batch, and otherwise go to the wire with what the package held |
| Session.Session.EndSend | common/rrpc/old/session.hpp:73-76 | the bytes handed to the connection are the wire form of the packets gathered |
| Session.Session.Send | common/rrpc/old/session.hpp:186-192 | header with the free id, and then exactly the bytes of the arguments, in the package or on the wire |
| Session.Session.Wait | common/rrpc/old/session.hpp:202-218 | emplace: registers unless the id is taken |
| Session.Session.Request | common/rrpc/old/session.hpp:220-234 | the bytes of the call in the package or on the wire, and the whole new state with or without a promise |
| Session.Session.BeginBatch | common/rrpc/old/session.hpp:194-196 | the flag is set and nothing else changes |
| Session.Session.EndBatch | common/rrpc/old/session.hpp:197-200 | the batch leaves as one package |
| Session.Session.Response | common/rrpc/old/session.hpp:126-132 | fulfils and forgets the promise under the id, if there is one |
| Session.Session.ReadBack | common/rrpc/old/session.hpp:73-76 | a receiver of the bytes a session ever wrote is given exactly the packets it sent |
| Service.Invoker.Bind | common/rrpc/old/session.hpp:269-277 | the first implementation of an interface stays |
| Service.BindAsStep | common/rrpc/old/session.hpp:269-277 | binding is the step of that name in the two-peer system |
| Service.Invoker.Invoke | common/rrpc/old/session.hpp:121-125 | unknown interface or method: nothing is read or written; otherwise exactly the arguments are read, and a method that returns something appends one packet, the request's header turned into a response and its value for these arguments |
| Service.InvokeVoid | common/rrpc/old/idl.hpp:172-180 | reads the arguments and nothing else |
| Service.InvokeWithResult | common/rrpc/old/idl.hpp:181-193 | writes the response header, reads the arguments, writes the value for them, in one packet |
| Service.RepliesAsBytes | common/rrpc/old/idl.hpp:172-193 | what Invoke appends, by its table of implementations, is in bytes what handling the request adds to the reply in the two-peer system |
| Service.ResponseCarriesTag | common/rrpc/old/idl.hpp:187-191 | session and operation id of a request come back in its response; the request-only fields do not |
| Service.PackageAsBytes | common/rrpc/old/connection.hpp:84-149 | the bytes of any package of the two-peer system, of calls or of replies, are dispatched as its packets, with all that handling them reads |
| StepLaws.SessionStep | common/rrpc/old/session.hpp:154-234 | calls and batches in the two-peer system are the operations of the session, and what it sends is on the wire behind what was |
| StepLaws.MakeSessionStep | common/rrpc/old/connection.hpp:171-174 | a new session has its position as number, in eight bits |
| StepLaws.RequestStep | common/rrpc/old/connection.hpp:118-127 | a request is executed and answered under its session and operation id, executed without answer, or dropped, as the bound implementations say |
| StepLaws.ResponseStep | common/rrpc/old/session.hpp:126-133 | a response sets and forgets the promise under its id, if there is one |
| StepLaws.TakeStep | common/rrpc/old/connection.hpp:84-106 | a package is taken whole |
| StepLaws.FinishStep | common/rrpc/old/connection.hpp:145-148 | the reply leaves whole, unless it is empty |
| Safety.ExecutedAtMostOnce | common/rrpc/old/connection.hpp:110-127 | in every reachable state every call made is in exactly one place: under way, executed once, or dropped once, with no condition on the run |
| Safety.InvStep | common/rrpc/old/session.hpp:142-152 | the induction step: a step keeps the proof's invariant if and only if it is no call with a result beyond the 8-bit ids |
| Safety.EveryRun | common/rrpc/old/session.hpp:203-234 | over every run of two peers (batches, void calls, drops, any number of sessions, any delivery order), in every state each response under way leads to its own call's promise alone and every promise set has its own call's value, if and only if every call with a result is made within the 8-bit ids |
| Safety.Overflow | common/rrpc/old/session.hpp:150 | beyond the ids a call with a result goes out under an id that does not lead to its promise; with all ids of its session taken the id leads to another call's promise |
| Safety.RightPromise | common/rrpc/old/session.hpp:121-133 | in a good state the id of a request or response under way leads to the promise of exactly that call, and no other such packet of the session has the id |
| Safety.TruthfulStep | common/rrpc/old/idl.hpp:182-193 | no step puts a wrong value under way or into a promise |
| Safety.EveryAnswer | common/rrpc/old/session.hpp:126-133 | every promise set is set once, by the response to its own call, to the value that call's single execution returned |
| Safety.TwoPeers | common/rrpc/old/connection.hpp:171-174 | the equivalence for peers that start with nothing |
| Arguments.ArgumentsArrive | common/rrpc/old/session.hpp:154-192 | over every run, each request under way carries the interface, method, arity and arguments of the call it belongs to |
| Arguments.HandledAsMade | common/rrpc/old/connection.hpp:110-127 | and so does each request that is handled |
| Exhaustion.AnotherCallsPromise | common/rrpc/old/session.hpp:142-152 | a legal run from the start: 256 calls that the server drops, one that it serves, and that one's value in the promise of the first |
| Exhaustion.OverrunInOrder | common/rrpc/old/session.hpp:142-152 | no package overtakes another in that run |
| Delivery.KeptStep | common/rrpc/old/session.hpp:126-132 | no step loses the promise of a call that returned a value |
| Delivery.DeliveredIsComplete | common/rrpc/old/connection.hpp:110-149 | once everything sent is delivered, each call was executed or dropped, once, only dropped calls still wait, and every value returned is in the promise of its call |
| ChainImpl.ChainImpl.PostHandler | common/rrpc/async_ops.hpp:145-147 | the handler joins the deferred ones, at the end |
| ChainImpl.ChainImpl.RunLocked | common/rrpc/async_ops.hpp:188-194 | swaps the deferred handlers out |
| ChainImpl.ChainImpl.CompleteLocked | common/rrpc/async_ops.hpp:172-185 | counts down, and swaps out once the count is zero |
| Chain.PostAllInitial | common/rrpc/async_ops.hpp:380-390 | posting wrapped handlers one after the other puts each into one deferred list |
| Chain.AddLinkInitial | common/rrpc/async_ops.hpp:297-346 | a chain put together by any then, any and all, in any shape, starts with everything deferred once |
| ChainLaws.AddLinkShape | common/rrpc/async_ops.hpp:297-346 | a link has the requirement it was made with, and its handlers stand behind those posted before, in order |
| ChainSafety.Conserved | common/rrpc/async_ops.hpp:188-198 | no step loses or doubles a handler; taking one from the executor takes out exactly it |
| ChainSafety.LinkStep | common/rrpc/async_ops.hpp:172-198 | every step keeps: the countdown counts completions, the list is full until the link is released and empty ever after |
| ChainLaws.CompleteReleases | common/rrpc/async_ops.hpp:172-194 | the completion that ends the countdown, and any later one, takes the whole list; no other takes anything |
| ChainLaws.RunReleases | common/rrpc/async_ops.hpp:137-162 | run and the destructor take the whole list |
| ChainLaws.PostsInOrder | common/rrpc/async_ops.hpp:193-196 | what was taken is posted in the order of the list |
| ChainLaws.RunPostsInOrder | common/rrpc/async_ops.hpp:193-196 | the same for run |
| ChainLaws.AnyHolderCanRun | common/rrpc/async_ops.hpp:260-262 | any chain object can run the root |
| ChainLaws.HeldLinksLive | common/rrpc/async_ops.hpp:137-156 | over every run a link is destroyed only when no chain object and no wrapped handler holds it |
| ChainSafety.ExactlyOnePlace | common/rrpc/async_ops.hpp:137-198 | in every reachable state a handler not yet taken is in exactly one of deferred, swapped out, queued, one taken is in none, and none has run twice |
| ChainSafety.BarrierHolds | common/rrpc/async_ops.hpp:172-185 | over every run, a handler has left its deferred list, and ran, only after min(max(1, required), n) of the n handlers wrapped with its link had run |
| ChainSafety.AllIsFullBarrier | common/rrpc/async_ops.hpp:313-334 | when as many are required as were wrapped, every one of them ran before |
| ChainSafety.ThenKeepsThenChain | common/rrpc/async_ops.hpp:338-346 | then hangs one handler that requires one behind the last link |
| ChainSafety.ThenInOrder | common/rrpc/async_ops.hpp:338-346 | a then chain of any length executes strictly in order under any scheduler |
| ChainSafety.ThensRunInOrder | common/rrpc/async_ops.hpp:247-250 | the same for the chain that n calls of then build, which has executed all n when no step is left |
| ChainSafety.Progress | common/rrpc/async_ops.hpp:172-198 | once the root has run, a drained executor means all executed if, and before any destructor only if, every link's requirement can be met |
| ChainSafety.EverythingRan | common/rrpc/async_ops.hpp:137-140 | whatever is required, when no step is left the destructors have seen to it that every handler ran exactly once |
| ChainSafety.MeasureStep | common/rrpc/async_ops.hpp:172-198 | every step of every thread decreases one measure |
| ChainSafety.EveryRunEnds | common/rrpc/async_ops.hpp:172-198 | no run is longer than five steps a handler, three a link and two a call of run |
| PyFloat.HalfEvenNearest | tools/excel_tool/excel_tool/type2.py:75 | rounding takes the nearest significand, the even one of two |
| PyFloat.LargeSpacing | tools/excel_tool/excel_tool/type2.py:75 | a large decimal is rounded on the grid that leaves it 53 bits |
| PyFloat.SmallSpacing | tools/excel_tool/excel_tool/type2.py:75 | a decimal below 2^53 is rounded to 53 bits, or at the least exponent, before it is truncated |
| PyFloat.Bracketed | tools/excel_tool/excel_tool/type2.py:75 | below 2^53 the result is the whole part or the integer next to it |
| PyFloat.IntegerSurvives | tools/excel_tool/excel_tool/type2.py:75 | an integer goes through float unchanged if and only if it is m * 2^k with m < 2^53 and below 2^1024 |
| PyFloat.ExactUpToP53 | tools/excel_tool/excel_tool/type2.py:75 | in particular up to 2^53 |
| PyFloat.DecimalSurvives | tools/excel_tool/excel_tool/type2.py:75 | the same for the text of an integer of either sign |
| PyFloat.AcceptedSurvives | tools/excel_tool/excel_tool/type2.py:65-77 | for every accepted text, printing its integer and reading it again changes nothing |
| FloatTexts.DigitsAppend | tools/excel_tool/excel_tool/type2.py:75 | a decimal of more digits is the first part times a power of ten and the second |
| FloatTexts.FractionRounds | tools/excel_tool/excel_tool/type2.py:65-77 | digits, a point and digits, whole part below 2^53: the next integer if and only if the gap to it is at most half of what lies between two doubles there (at half, if that one is even), and the whole part otherwise |
| FloatTexts.NoFraction | tools/excel_tool/excel_tool/type2.py:65-77 | without a fraction, or with zeros, exactly the whole part |
| FloatTexts.Minus | tools/excel_tool/excel_tool/type2.py:70-71 | a minus negates, rounding toward zero |
| FloatTexts.Shape | tools/excel_tool/excel_tool/type2.py:72-75 | nothing is accepted but digits with at most one point |
| FloatTexts.TooLarge | tools/excel_tool/excel_tool/type2.py:75 | an integer is refused if and only if it is at least 2^1024 - 2^970 |
| TextExamples.Numbers | tools/excel_tool/excel_tool/parse.py:69 | "-34.01" is read as -34, "1.5" as 1 |
| TypedText.Complete | tools/excel_tool/excel_tool/type2.py:45-214 | every layout of every value of a type, with any blanks before tokens, parses to the value and leaves exactly what follows |
| TextLaws.Sound | tools/excel_tool/excel_tool/type2.py:45-214 | everything the parser accepts is such a layout, followed by the rest |
| TextLaws.Accepted | tools/excel_tool/excel_tool/type2.py:186-191 | the top-level conversion accepts a text with a value if and only if it is a layout of that value and blanks |
| TextLaws.PrintThenParse | tools/excel_tool/excel_tool/type2.py:45-214 | printing a value and parsing gives it back |
| TextLaws.ParsePrintParse | tools/excel_tool/excel_tool/type2.py:45-214 | for every accepted text print-then-parse of its value is the identity |
| TextLaws.Readable | tools/excel_tool/excel_tool/type2.py:140-168 | a value is the value of some text if and only if its lists are not empty, its integers are doubles and its strings well escaped |
| TextLaws.NoEmptyList | tools/excel_tool/excel_tool/type2.py:154-167 | no text is an empty list |
| TextLaws.Local | tools/excel_tool/excel_tool/type2.py:65-77 | the value depends only on the characters read; only after an integer must no digit or dot follow |
| TextLaws.WellEscapedMeaning | tools/excel_tool/excel_tool/type2.py:111-124 | a literal ends where it should exactly for bodies of plain characters and backslash pairs |
| TextReader.EatBlank | tools/excel_tool/excel_tool/type2.py:3-6 | moves over the blanks and no further |
| TextExamples.Blanks | tools/excel_tool/excel_tool/type2.py:3-6 | which characters are blanks |
| TextExamples.Booleans | tools/excel_tool/excel_tool/type2.py:45-54 | 1 is true and 0 is false |
| TextExamples.ParsesExample | tools/excel_tool/excel_tool/type2.py:140-214 | one text of a tuple with a list and a string, and its value |
| TextReader.ConvertBool | tools/excel_tool/excel_tool/type2.py:45-54 | computes the parser, rejections included, and moves forward |
| TextReader.ConvertInt | tools/excel_tool/excel_tool/type2.py:65-77 | computes the parser, rejections included, and moves forward |
| TextReader.EatLiteral | tools/excel_tool/excel_tool/type2.py:111-123 | the scan for the closing quote, escapes skipped |
| TextReader.ConvertString | tools/excel_tool/excel_tool/type2.py:102-124 | computes the parser: the raw text between the quotes |
| TextReader.ListLoop | tools/excel_tool/excel_tool/type2.py:153-168 | the item loop computes the list parser and ends |
| TextReader.ConvertList | tools/excel_tool/excel_tool/type2.py:146-168 | computes the parser for lists |
| TextReader.TupleLoop | tools/excel_tool/excel_tool/type2.py:199-214 | the loop over the component types computes the tuple parser |
| TextReader.ConvertTuple | tools/excel_tool/excel_tool/type2.py:192-214 | computes the parser for tuples |
| TextReader.Convert | tools/excel_tool/excel_tool/type2.py:45-214 | for every type: the parser's value, and an index strictly further and within the text |
| TextReader.ConvertToplevel | tools/excel_tool/excel_tool/type2.py:140-145 | lists and tuples: the whole text and nothing but blanks behind it |
| Translator.Distributes | tools/excel_tool/excel_tool/parse.py:31-65 | translating distributes over concatenation, from the mode the first part ends in |
| Translator.Translator.ErlangToPython | tools/excel_tool/excel_tool/parse.py:31-65 | the segment-copying loop computes the character transducer, and rejects exactly texts that leave a literal open |
| Translator.Translator.CopyLiteral | tools/excel_tool/excel_tool/parse.py:46-61 | a literal joins the segment byte for byte |
| TranslatorLaws.Translated | tools/excel_tool/excel_tool/parse.py:31-65 | the induction: the Erlang text of any nested term (lists and tuples of anything and of nothing, words, literals) in any layout becomes the Python text of the same term in the same layout |
| TranslatorLaws.AnyTermTranslated | tools/excel_tool/excel_tool/parse.py:31-65 | erlang_to_python accepts the text of any term and gives exactly its Python text |
| TextExamples.TranslatesExample | tools/excel_tool/excel_tool/parse.py:31-65 | the same text translated |
| TextExamples.TranslatesLiterals | tools/excel_tool/excel_tool/parse.py:46-61 | braces in literals of either quote stay |
| TranslatorLaws.FitsIsLexical | tools/excel_tool/excel_tool/parse.py:31-65 | the texts of every type are among them |
| TranslatorLaws.MeaningKept | tools/excel_tool/excel_tool/parse.py:31-65 | whatever the Erlang reading accepts, the Python reading of the translation accepts with the same value |
| TranslatorLaws.NothingAdded | tools/excel_tool/excel_tool/parse.py:36-45 | for texts without t and ) outside literals the translation is read as a value if and only if the original is |
| TranslatorLaws.SomethingAdded | tools/excel_tool/excel_tool/parse.py:36-45 | a text outside that condition that only its translation makes readable |
| MixedReading.ReadAsMixed | tools/excel_tool/excel_tool/parse.py:31-65 | for every type and every text without an open literal, the Python reading of the translation is the reading of the text itself that takes either kind of bracket at each place |
| MixedReading.ErlangIsMixed | tools/excel_tool/excel_tool/parse.py:31-65 | what the Erlang reading accepts that reading accepts with the same value and rest |
| MixedReading.ExactlyAdded | tools/excel_tool/excel_tool/parse.py:36-45 | translating changes what can be read if and only if the text can be read with mixed brackets and not with braces alone |
| Search.CalculateBestOperation | src/logic/visitor.h:37-61 | the recursive method computes the search, and the status on return is the status on entry at every level |
| Search.AppliedInOrder | src/logic/visitor.h:26 | a move's operations are applied from the first to the last and recorded as they are |
| Search.BestOfIsFirst | src/logic/visitor.h:53-57 | with a strict comparison the first of the best moves wins |
| Search.Attained | src/logic/visitor.h:37-61 | for any evaluate the list returned is a legal plan with the score returned |
| Search.SearchIsExhaustive | src/logic/visitor.h:37-61 | for a monotone evaluate the score returned is exactly the maximum over all plans, the empty one scoring 0 |
| Search.BoundIsFree | src/logic/visitor.h:37-61 | the depth bound only makes the recursion end |
| Search.PlanMissed | src/logic/visitor.h:51 | a game whose evaluate is not monotone, in which a better plan is missed |
| Pool.ObjectPool.Construct | common/rrpc/object_pool.hpp:17-21 | the first pooled object, or a new one |
| Pool.ObjectPool.Destruct | common/rrpc/object_pool.hpp:23-26 | the object is pooled, or deleted when the queue refuses it |
| Pool.ObjectPool.Close | common/rrpc/object_pool.hpp:13-15 | everything pooled is deleted |
| Pool.Conserved | common/rrpc/object_pool.hpp:54-66 | no step loses an object or owns it twice |
| Pool.ExactlyOneOwner | common/rrpc/object_pool.hpp:54-66 | in every interleaving of construction, release and the end of the pool each object is in exactly one of pooled, held, deleted |
| Pool.NotShared | common/rrpc/object_pool.hpp:17-21 | no object is in two hands |
| PoolReuse.KeptWhileAlive | common/rrpc/object_pool.hpp:54-66 | over every run that refuses no object, while an owner or a deleter holds the pool nothing is deleted and every object is in the queue or in one hand |
| PoolReuse.NoMoreThanNeeded | common/rrpc/object_pool.hpp:17-21 | and no more objects are allocated than were ever in hands together |
| PoolReuse.Fifo | common/rrpc/object_pool.hpp:17-26 | objects are handed out again in the order they came back |
| PoolReuse.DrainsLast | common/rrpc/object_pool.hpp:13-15 | the queue is taken down exactly when no owner is left and no deleter holds the pool |
| PoolReuse.Owners | common/rrpc/object_pool.hpp:37-48 | the owners are counted |
| Pool.GoneForGood | common/rrpc/object_pool.hpp:58-64 | after the last strong reference nothing is pooled or allocated any more |
| Pool.AllDeleted | common/rrpc/object_pool.hpp:54-66 | when pools and handles are gone and nothing is left to do every object has been deleted exactly once |
| Pool.Ends | common/rrpc/object_pool.hpp:54-66 | without new objects and owners every step brings that end closer |

## Left out

- Sockets, timers, threads, shared pointers and the io_service: only the steps they trigger are modelled (bytes arrive, a handler is taken, a last owner is dropped).
- A package write is one step; writes of a connection do not interleave, although `send` has no queue (common/rrpc/old/connection.hpp:159-165).
- Two-peer runs work on packets and tables of names; bytes are tied to them by `Session.Session.ReadBack`, `Service.RepliesAsBytes` and `Service.PackageAsBytes`, not by one refinement of whole runs. The delivery order of packages is left open.
- Both peers share one interface definition, so a method is void for both or for neither. Calls made while a handler runs are calls between two packets.
- Values that a promise is set to are byte strings; a response whose value cannot be decoded is not part of the model.
- Session.Session.EndBatch: requires a package; with none the code hands the connection a null pointer (common/rrpc/old/session.hpp:197-200).
- Framing.StreamPrefix: is about packages below 2^31 bytes, since the receiver holds sizes in int while it takes a package apart; a sender may write larger ones.
- Service.InvokeWithResult: arguments that end in a fixed word cut short by the end of the input make it stop behind the response header, where the code goes on with old bytes.
- Varint.DecodeUnsigned: on input that no encoder writes the shift can reach the width, which C++ leaves undefined; the model loses the bits there. Widths below 8 are not modelled.
- Codec.DecodeValue: a fixed word cut short by the end of the input is a failure here, a word with old bytes in the code (common/rrpc/decode.hpp:82).
- The encoders of vectors and enums are the mirror images of their decoders: the first does not exist and the second is commented out (common/rrpc/encode.hpp:26-36). The int loop counter of the vector decoder is not bounded.
- Floating-point codecs, `FloatType` and wide strings.
- Chains inside chains, handlers posted after the root has run (post takes no lock), exceptions thrown by handlers. A handler's last reference may live a little longer than in the model, in the list its releaser is still posting; the model then merely allows the next link's destructor earlier.
- The top-level conversions of a single boolean, integer or string, with the whole grammar of `int` and `float`; constraint checks; non-ASCII blanks.
- The Python reading of a translated text is this model's typed parser with Python brackets; Python itself is not part of this model.
- The declarations `push`, `apply` and `pop` of the game status have no body in the repository; they are taken to save, change and restore board and history. Scores are not bounded by a word. `think` does not type-check and `breadth_first_search` depends on an unseen visitor.
- The deleter of `object_pool_strong` names the wrong weak pointer type (common/rrpc/object_pool.hpp:58); it is modelled as pointing to the pool. What a reused object contains is not modelled. `object_pool` without the strong wrapper needs to outlive its handles.
- common/rrpc/connection.hpp, common/rrpc/connection_old.hpp, common/rrpc/mpsc_queue.hpp and common/rrpc/container_device.hpp, which are unfinished; datagram retry and channels; code generation, game data and the demos.
