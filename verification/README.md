# fuerte: a model of its protocol stack

fuerte is a C++ client driver for ArangoDB. This project models the parts of its repository
that hold its hardest logic, and proves what they are meant to guarantee.

* **VelocyStream framing** (`bytes`, `vst_chunk`, `vst_build_chunks`, `vst_request_item`,
  `vst_framing`, `vst_delivery`, `vst_end_to_end`). A message is cut into numbered chunks, each
  is written in one of two wire formats, the byte stream arrives in arbitrary reads, and the
  chunks of many messages are put together again in a side buffer. The result is `EndToEnd`:
  every message comes back once, with its own bytes, exactly when its last chunk is there.
* **The connection as a concurrent machine** (`vst_connection`, `vst_connection_runs`,
  `vst_loop_safety`, `vst_dequeue`, `vst_accounts`, `vst_ledger`, `vst_conservation`,
  `vst_request_loss`, `vst_restart_assertions`, `vst_ownership`, `vst_stored_owners`,
  `vst_permanent_failure`, `vst_request_order`, `vst_queue_order`, `vst_witnesses`, with
  `message_ids`). Senders, the setup and the shutdown of the connection, read loops and write
  loops interleave; every mutex-protected region is one atomic step, and threads stand between
  two regions.
  `getNextRequestToSend` takes the locks of queue and store one after the other and is split
  there. The results hold over all runs: no lost wake-up, no response without a reader, single
  restarts, callbacks that run once, requests sent in the order in which they were made, the end
  of all loops after a permanent failure, and the exact conditions for such a failure, for the
  conservation of requests, for the assertions of a restart, and for the ownership of a request
  that is taken or stored.
* **The connection as objects** (`message_store`, `vst_items`, `vst_connection_methods`). The
  class `VstConnection` holds its send queue and its message store, which hold request items with
  their callbacks. Its invariant ties all of them to the requests of the step machine, and each
  method is proved to do to them what the steps of the machine do.
* **Maximum bipartite matching** (`bipartite_graphs`, `match_matrix`, `max_bipartite_match`,
  with `set_counting` and `arithmetic`), from the vendored googlemock: a recursive in-place
  search that tries every left node once and nevertheless ends with a maximum matching.
* **Text**: googletest's backtracking matcher against the language of its patterns
  (`simple_regex`), percent-encoding and its decoder (`url_encoding`; RFC 3986, section 2.1),
  query strings and the protection of single-dot segments (`http_url`; RFC 3986, sections 3.4
  and 5.2.4).

Where the source works step by step on objects, so does the model: classes with its fields,
methods with its loops, each proved against a function or a relation about which the lemmas
then speak.

## What turned out not to hold

* Requests are not conserved over all runs. `insertAuthenticationRequests` puts a request at the
  front of the send queue; when a write loop is between `front()` and `removeFirst()` at that
  moment, the inserted request is the one removed. That this can happen is
  `AuthenticationCanBeLost`: `_connected` stays set over a restart, so that a sender starts a
  write loop before the new connection is set up. `ConservedExactlyWhenOrderly` shows that such an
  insertion is the only way to lose a request, `LostForGood` that a request once lost stays lost.
* The assertions at the head of `restartConnection(error)`, that both loops have been reset, can
  fail. `AssertedExactlyWhenNoStart`: they hold all along a run if and only if no thread calls
  `startWriting` or `startReading` between the reset and the `stopWriting` of a restart. A sender
  may do that (`RestartMayMeetALoop`), and so may a write loop that has taken a request and is no
  longer current (`RestartMayMeetAReadLoop`); no check of `_connected` stands in the way of the
  latter.
* A write loop looks at the timeout of the request it has taken only after it has released its
  lock; by then the request may have been handed over (`TakenMayBeHandedOver`). It is still there
  if and only if it was there when it was taken and since then neither `cancelAll` has found it in
  the store nor a thread has answered it (`TakenOwnsUntilHandedOver`).
* `minimumTimeout` looks at the request of every stored item, but a stored item may have handed its
  request over. A response that arrives while its request is still queued removes the item from the
  store and answers it; the write loop that then takes the request from the queue stores the item
  again (`StoredMayBeHandedOver`, which goes on from the run that loses a request).
  `StoredOwnExactlyWhenNotMixedUp`: in a run, all stored items own their requests all along if and
  only if `getNextRequestToSend` never stores a request that has been handed over, and no request
  is answered while it is in the store. Orderly runs do neither (`OrderlyRunsDoNotMixUp`).
* The readers of a chunk subtract the header length without a check. Four bytes that announce a
  chunk of four bytes lead both of them out of the bytes received (`ShortChunkLeadsOutside`).
  Reading a stream stays inside if and only if no complete chunk is shorter than its own header
  (`InsideExactlyWhenSound`).
* `createSafeDottedCurlUrl` protects the segment `.` but not the segment `..`, which section 5.2.4
  of RFC 3986 removes from a path as well: `DoubleDotsAreNotProtected`. The path of the result holds
  a dot segment if and only if the path of the URL holds a segment `..`
  (`NoDotSegmentExactlyWithoutDoubleDots`).
* The chunk count can be read back only below 2^31 chunks (`CountFitsBelowLimit`). A message of one
  part of 2^31 bytes, in chunks of at most 25 bytes, is announced as one of no chunks
  (`CountMayNotFit`). The extent of a chunk can be read back only below 2^32 bytes
  (`ExtentNeedsThirtyTwoBits`), but `buildChunks` makes no longer ones: `ChunksPartitionMessage`
  keeps them below the 32-bit `maxChunkSize`.
* `urlEncode` escapes the dot, which RFC 3986, section 2.3, counts as unreserved; the model
  follows the code.

## Model

| member | source | states |
|---|---|---|
| MatchMatrices.MatchMatrix.HasEdge | 3rdParty/googletest/googlemock/include/gmock/gmock-matchers.h:3267-3269 | is the edge relation of the graph that the matrix stands for |
| MatchMatrices.MatchMatrix.SetEdge | 3rdParty/googletest/googlemock/include/gmock/gmock-matchers.h:3270-3272 | adds or removes exactly the one edge, in a matrix stored flat, row by row |
| MatchMatrices.IndexIsUnique | 3rdParty/googletest/googlemock/include/gmock/gmock-matchers.h:3284-3286 | no two edges share a cell of the flat matrix |
| MatchMatrices.MatchMatrix.NextGraph | 3rdParty/googletest/googlemock/src/gmock-matchers.cc:359-371 | steps the cells to the next matrix; false exactly when the result is the empty matrix |
| MatchMatrices.IncrementAddsOne | 3rdParty/googletest/googlemock/src/gmock-matchers.cc:359-371 | the step adds one to the matrix read as a binary number, modulo two to the number of cells |
| MatchMatrices.CountsThroughEveryMatrix | 3rdParty/googletest/googlemock/src/gmock-matchers.cc:359-371 | counting from the empty matrix meets every matrix, and each at one step only before the wrap |
| BipartiteGraphs.Exchange | 3rdParty/googletest/googlemock/src/gmock-matchers.cc:213-221 | past a dead end, every matching that uses the failed left node can be exchanged for one at least as large that does not |
| BipartiteGraphs.DeadEndKeepsMaximum | 3rdParty/googletest/googlemock/src/gmock-matchers.cc:217-221 | so one failed search settles a left node for good: the matching stays maximum with the node added to the graph |
| BipartiteGraphs.OneMoreIsMaximum | 3rdParty/googletest/googlemock/src/gmock-matchers.cc:216-220 | a left node raises the optimum by at most one, so a matching grown by one is maximum again |
| MaxBipartiteMatching.MaxBipartiteMatchState.constructor | 3rdParty/googletest/googlemock/src/gmock-matchers.cc:200-204 | starts without any pair and with the invariants in force |
| MaxBipartiteMatching.MaxBipartiteMatchState.TryAugment | 3rdParty/googletest/googlemock/src/gmock-matchers.cc:259-285 | terminates; success flips a path: the node is matched, every other left node is matched exactly when it was before, and left and right refer to each other except for the one right node given up; failure changes neither array, and every newly seen right node is matched to a node all of whose neighbours are seen |
| MaxBipartiteMatching.LinkAugments | 3rdParty/googletest/googlemock/src/gmock-matchers.cc:277-282 | linking the two nodes repairs the invariants that the recursion left broken |
| MaxBipartiteMatching.OneMorePair | 3rdParty/googletest/googlemock/src/gmock-matchers.cc:254-258 | a successful search adds exactly one pair |
| MaxBipartiteMatching.DeadEndsGrow | 3rdParty/googletest/googlemock/src/gmock-matchers.cc:260-284 | what a failed recursive call saw and what was seen before it form one dead end |
| MaxBipartiteMatching.FailureIsDeadEnd | 3rdParty/googletest/googlemock/src/gmock-matchers.cc:243-256 | a failed search at the outermost level leaves a set of matched right nodes that is closed under the neighbours of their partners |
| MaxBipartiteMatching.MaxBipartiteMatchState.Round | 3rdParty/googletest/googlemock/src/gmock-matchers.cc:222-230 | one search from the first left node not tried yet: whether it succeeds or fails, the matching is then maximum for one left node more, and the later ones are unmatched |
| MaxBipartiteMatching.RoundKeepsMaximum | 3rdParty/googletest/googlemock/src/gmock-matchers.cc:222-230 | after each round the matching is maximum for the left nodes tried so far |
| MaxBipartiteMatching.MaxBipartiteMatchState.Compute | 3rdParty/googletest/googlemock/src/gmock-matchers.cc:207-238 | returns a matching of maximum cardinality, in the order of its left ends, though every left node is tried once; the check at line 225 never fires |
| MaxBipartiteMatching.FindMaxBipartiteMatching | 3rdParty/googletest/googlemock/src/gmock-matchers.cc:307-310 | for every graph, a maximum matching, without repeated pairs |
| MaxBipartiteMatching.FindPairing | 3rdParty/googletest/googlemock/src/gmock-matchers.cc:328-357 | true exactly when all matchers can be given pairwise distinct elements that they accept |
| MaxBipartiteMatching.PerfectMatchingIsPairing | 3rdParty/googletest/googlemock/src/gmock-matchers.cc:332-333 | a maximum matching has as many edges as there are matchers exactly when such an assignment exists |
| VstChunk.WriteHeaderToVST1_0 | src/vst.cpp:57-76 | appends the wire form of the header, short or long, and leaves the buffer in place when it has room |
| VstChunk.WriteHeaderToVST1_1 | src/vst.cpp:80-92 | appends the wire form of the header and leaves the buffer in place when it has room |
| VstChunk.WireHeader | src/vst.h:109-121 | the header written has the length that chunkHeaderLength announces |
| VstChunk.HeaderLayout | src/vst.cpp:57-92 | the header byte by byte: 24 bytes in VST 1.1 and for the first chunk out of several, 16 bytes otherwise; extent, chunkX, message id and, in a long header, message length, each little-endian, at offsets 0, 4, 8 and 16 |
| Bytes.BytesAreLittleEndian | src/vst.cpp:61-74 | the bytes written for a 32-bit or 64-bit number stand for it, least significant first |
| Bytes.WordsAreLittleEndian | src/vst.cpp:276-299 | a number read is what its bytes stand for, least significant first |
| VstChunk.HeaderRoundTrip | src/vst.cpp:276-327 | whatever follows on the stream, a chunk that fits 32 bits is seen to be complete, with its extent, and the reader of either format recovers id, index, count, data, and the message length exactly when the format carries it |
| VstChunk.ExtentNeedsThirtyTwoBits | src/vst.cpp:69 | the length field gives the extent of a chunk exactly when header and data stay below 2^32 bytes |
| VstBuildChunks.TotalByteSize | src/vst.cpp:100-105 | sums the part lengths in 64-bit arithmetic |
| VstBuildChunks.BuildChunks | src/vst.cpp:96-138 | builds the chunks of the message, with the 32-bit counter and shift of the code |
| VstBuildChunks.AddPart | src/vst.cpp:113-130 | the inner loop cuts one part and appends its chunks |
| VstBuildChunks.MarkFirst | src/vst.cpp:132-137 | only the first chunk changes: it gets the count |
| VstBuildChunks.CutAllIsPartition | src/vst.cpp:112-131 | the pieces of all parts, one behind the other, are the message; there are as many as the sum of the rounded-up quotients, none empty and none too long |
| VstBuildChunks.PartIsCutByItself | src/vst.cpp:112-131 | each part of a message is cut by itself, behind the parts in front of it, into the least number of pieces: all are full except possibly the last one of the part |
| VstBuildChunks.ChunksPartitionMessage | src/vst.cpp:107-137 | the data of the chunks is the message, the count is that sum and at least messageLength / maxChunkSize, and every chunk carries data and fits maxChunkSize on the wire in either format |
| VstBuildChunks.ChunksAreNumbered | src/vst.cpp:120-137 | below 2^31 chunks, indices are 0 to n-1 in order, and the first chunk, and only it, tells the count; chunkX is 2n+1 for the first chunk and 2k for every other chunk k |
| VstBuildChunks.ChunksNameTheirMessage | src/vst.cpp:107-130 | every chunk carries the id of the message and, as far as it fits in 64 bits, the length of the whole message |
| VstBuildChunks.CountFitsBelowLimit | src/vst.cpp:132-137 | the count can be read back exactly when the sum of the rounded-up quotients of the part lengths is below 2^31 |
| VstBuildChunks.CountMayNotFit | src/vst.cpp:132-137 | one part of 2^31 bytes with the least maxChunkSize: 2^31 chunks, of which the first tells that there are none |
| VstRequestItem.ItemBuffers.PrepareForNetwork | src/vst.cpp:230-267 | the buffers listed for the socket hold exactly the encoded chunks of the message, in order |
| VstRequestItem.ItemBuffers.SendChunks | src/vst.cpp:247-266 | all headers fit the room reserved up front, so no header pointer recorded earlier is invalidated |
| VstRequestItem.ItemBuffers.AddChunkBuffers | src/vst.cpp:249-265 | one more chunk is listed, header and data, and the bytes listed before are the same as before |
| VstRequestItem.ItemBuffers.AddChunk | src/vst.cpp:431-447 | the item gains the part that the chunk carries, read through the side buffer, and the count if it is the first chunk |
| VstRequestItem.ItemBuffers.Assemble | src/vst.cpp:453-477 | nothing until the first chunk and as many chunks as it announces are there; then the parts, sorted by index, one behind the other |
| VstRequestItem.ItemBuffers.CombineContent | src/vst.cpp:469-474 | reads the parts through their offsets in the unsorted side buffer |
| VstFraming.CutOnce | src/VstConnection.cpp:469-497 | for every stream, malformed ones included: reading it in two pieces gives the chunks and the rest of reading it in one, and a complete chunk shorter than its own header comes up exactly if one does when it is read in one |
| VstFraming.CutsDoNotMatter | src/VstConnection.cpp:469-497 | likewise for every cut of every stream into any number of reads |
| VstFraming.StreamRoundTrip | src/VstConnection.cpp:469-497 | the encoded chunks, cut into arbitrary reads, come out as the same sequence of chunks, with nothing left over |
| VstFraming.InsideExactlyWhenSound | src/vst.cpp:291-327 | for every stream: the header fields read and the data found, with lengths that wrap in size_t, lie within the bytes received if and only if no complete chunk is shorter than its own header |
| VstFraming.ShortChunkLeadsOutside | src/vst.cpp:291-327 | the bytes 4, 0, 0, 0 are a complete chunk that takes either reader out of bounds |
| VstDelivery.Receiver.ProcessChunk | src/VstConnection.cpp:511-540 | a chunk of an unknown message changes nothing; another one joins its request, and completes it with the sorted data when all chunks are there |
| VstDelivery.ReadLoop.AsyncReadCallback | src/VstConnection.cpp:469-494 | for any bytes: one read processes exactly the complete chunks in front of the first one that is shorter than its own header, in order, and keeps the rest of the bytes; it says whether there was such a chunk |
| VstDelivery.ReadLoop.ReadAll | src/VstConnection.cpp:455-499 | for any bytes in any reads: all reads together process the chunks of the whole stream, up to the first one that is shorter than its own header, and say whether there was one |
| VstEndToEnd.SortingRestores | src/vst.cpp:465-474 | whatever order the chunks came in, sorting them restores the message |
| VstEndToEnd.DeliveryIsExact | src/VstConnection.cpp:511-540 | for every mixture and order of the chunks of many messages, after every arrival: a message is complete exactly from its last-arriving chunk on, with its own bytes, and incomplete ones are still in the store |
| VstEndToEnd.AnsweredOnce | src/VstConnection.cpp:526-538 | a message is answered once when all its chunks have arrived, and not before |
| VstEndToEnd.EndToEnd | src/VstConnection.cpp:469-538 | from parts to chunks, bytes, arbitrary reads, chunks and back: a message is answered once, with the concatenation of its parts, exactly when all its chunks have been sent, for both formats and every chunk size above the header size |
| MessageStores.CallOnceRequestCallback.Invoke | src/CallOnceRequestCallback.h:44-51 | the callback runs with exactly the given error if it has not run before, and then never again |
| MessageStores.RequestItem.Answer | src/vst.h:138-140 | the request is handed over in any case, the callback runs at most once |
| MessageStores.MessageStore.Add | src/MessageStore.h:43-46 | an id already in the store keeps its item |
| MessageStores.MessageStore.RemoveByID | src/MessageStore.h:61-64 | only that id leaves the store |
| MessageStores.MessageStore.CancelAll | src/MessageStore.h:68-74 | every stored item loses its request, and its callback has then run exactly once; the store is empty; a permanent failure is declared exactly if one of the callbacks that run is that of an authentication request |
| MessageStores.MessageStore.AnswerAll | src/MessageStore.h:70-72 | the loop: every item loses its request and its callback has then run exactly once, with the given error if it had not run before |
| MessageStores.MessageStore.MinimumTimeout | src/MessageStore.h:94-108 | a null pointer is met exactly if a stored item has handed its request over; otherwise the least of 120000 ms and all timeouts |
| VstConnectionMethods.VstConnection.QueueRequest | src/VstConnection.cpp:52-56 | an item with the given request and a fresh id at the end of the queue, all others as before |
| VstConnectionMethods.VstConnection.SendRequest | src/VstConnection.cpp:52-70 | an item with the given request and a fresh id at the end of the queue, all others as before, and a current write loop if the connection is up |
| VstConnectionMethods.VstConnection.InsertAuthenticationRequests | src/VstConnection.cpp:308-334 | with basic authentication an item with the given request, whose callback is one of authentication, in front of the queue as it was; with none nothing; with JWT an error |
| VstConnectionMethods.VstConnection.StartWriting | src/VstConnection.cpp:563-577 | a new current write loop if there is none |
| VstConnectionMethods.VstConnection.StartReading | src/VstConnection.cpp:341-355 | a new current read loop if there is none |
| VstConnectionMethods.VstConnection.ShouldStopReading | src/VstConnection.cpp:367-397 | true exactly for a loop that is not current, after a permanent failure, and if store and queue are empty, when the current loop retires; otherwise with a timeout no longer than that of any stored request, unless a stored item does not own its request any more |
| VstConnectionMethods.VstConnection.GetNextRequestToSend | src/VstConnection.cpp:589-622 | nothing exactly for a loop that is not current, after a permanent failure, and at an empty queue, when the loop stops; otherwise the front of the queue, which is then in the store and no longer in the queue |
| VstConnectionMethods.VstConnection.ResetByWriteLoop | src/VstConnection.cpp:625-638 | if the given loop is still current, no loop is current afterwards; otherwise nothing changes |
| VstConnectionMethods.VstConnection.ResetByReadLoop | src/VstConnection.cpp:400-413 | likewise for a read loop |
| VstConnectionMethods.VstConnection.Answer | src/CallOnceRequestCallback.h:44-51 | answering an item does to owners, callbacks run and permanent failure what the answering step of the machine does; the callback has run once, with exactly the given error if it had not run before |
| VstConnectionMethods.VstConnection.Complete | src/VstConnection.cpp:511-540 | a complete response takes its request out of the store and answers it with error 0; an id that is not in the store changes nothing; no other item is touched |
| VstConnectionMethods.VstConnection.FailToWrite | src/VstConnection.cpp:698-711 | a request that could not be written leaves the store and is answered with error 1103 (VstWriteError); no other item is touched |
| VstConnectionMethods.VstConnection.CancelAll | src/MessageStore.h:68-74 | the loop over the store does to owners, callbacks run, permanent failure and store what the cancelling step of the machine does; every item in the store is answered with the given error |
| VstConnectionMethods.VstConnection.ShutdownConnection | src/VstConnection.cpp:180-192 | no loop is current afterwards and the store is empty, every item in it answered with the given error; the send queue stays |
| VstConnectionMethods.VstConnection.HeaderWritten | src/VstConnection.cpp:269-282 | a failure takes the connection down and shuts it down; otherwise authentication is put in front, the connection is up and has a current write loop and a current read loop; with JWT, an exception before anything has changed |
| VstConnectionMethods.VstConnection.TakeDown | src/VstConnection.cpp:270-274 | the connection is down, no loop is current, the store is empty, and every item in it is answered with error 1104 (CanceledDuringReset) |
| VstConnectionMethods.VstConnection.BringUp | src/VstConnection.cpp:276-281 | with basic authentication an authentication item in front of the queue as it was, with none the queue as it was; the connection is up and has a current write loop and a current read loop; with JWT nothing has changed |
| VstItems.ItemAnswered | src/CallOnceRequestCallback.h:44-51 | an item that has handed its request over and run its callback once, all others being as before, is the answered request of the machine |
| VstItems.ItemsCancelled | src/MessageStore.h:68-74 | likewise for all items of the store at once |
| VstItems.FailsWithAuthentication | src/VstConnection.cpp:321-326 | the callbacks that are still to run declare a permanent failure exactly if an unanswered authentication request is in the store |
| VstItems.StoredOwners | src/MessageStore.h:98 | a stored item has handed its request over exactly if, in the machine, a stored request is not owned |
| VstConnectionMethods.DequeueInSteps | src/VstConnection.cpp:589-622 | undisturbed, the atomic steps of the state machine do what getNextRequestToSend does |
| VstConnectionMethods.ShutdownInSteps | src/VstConnection.cpp:180-192 | undisturbed, the atomic steps of the state machine do what shutdownConnection does |
| VstConnectionMethods.ReconnectsExactlyWhen | src/VstConnection.cpp:194-207 | behind cancelAll, a new connection is set up exactly if the shutdown belongs to a restart and no permanent failure has been declared |
| VstConnectionMethods.SendInSteps | src/VstConnection.cpp:52-70 | undisturbed, the steps of a sender are together what sendRequest does |
| VstConnectionMethods.HeaderFailedInSteps | src/VstConnection.cpp:270-274 | likewise for a header that could not be written |
| VstConnectionMethods.ConnectFailedInSteps | src/VstConnection.cpp:231-238 | a failed connection attempt shuts the connection down, without another attempt |
| VstConnectionMethods.RestartInStep | src/VstConnection.cpp:400-414 | a restart by a loop that has met an error, or whose deadline has passed, resets the loops as the method does, and a shutdown follows exactly if the loop was current |
| VstConnectionMethods.CompleteInSteps | src/VstConnection.cpp:511-540 | undisturbed, finding, removing and answering a request are together what processChunk does with a complete response |
| VstConnectionMethods.FailToWriteInSteps | src/VstConnection.cpp:698-711 | likewise for a request that could not be written |
| VstConnectionMethods.SetUpInSteps | src/VstConnection.cpp:276-281 | undisturbed, the steps of the machine behind the writing of the header are together what its callback does |
| VstLoopSafety.LoopsStayTracked | src/VstConnection.cpp:400-414 | every step keeps: a loop is current or past, restarts the connection only when it stops being current, and of two loops once current together at most one restarts |
| VstLoopSafety.ThreadsStayInPlace | src/VstConnection.cpp:589-597 | every step keeps: who holds the write-loop lock is the current write loop, and current loops have a thread |
| VstLoopSafety.StaysWatched | src/VstConnection.cpp:563-577 | every step keeps: while the connection is up, queued and stored requests are watched by a loop, or one is coming |
| VstLoopSafety.NoLostWriteWakeUp | src/VstConnection.cpp:589-612 | after every run: while the connection is up, a non-empty send queue has a current write loop with a running thread, or a thread is about to call startWriting |
| VstLoopSafety.NoResponseWithoutReader | src/VstConnection.cpp:614-618 | after every run: while the connection is up, a non-empty store has a current read loop with a running thread, or a thread is about to call startReading |
| VstLoopSafety.PastLoopsAreOver | src/VstConnection.cpp:593-597 | over every run, restarts included: a loop that has stopped being current never becomes current again, dequeues nothing and restarts nothing |
| VstLoopSafety.RestartsAreSingle | src/VstConnection.cpp:400-414 | over every run: no loop restarts the connection twice, and a read loop and a write loop that were ever current together restart it at most once between them |
| VstDequeue.QueueStaysFilled | src/VstConnection.cpp:607-618 | over every run, disorderly ones included: between front and removeFirst the queue is not empty, so removeFirst never meets an empty queue |
| VstQueueOrder.QueueIsFirstInFirstOut | src/VstConnection.h:183-209 | over every run: in the queue, authentication requests stand in front of all others, the latest first, and the others in the order in which they were made; so were those taken from the queue, none of them made after one that is still queued |
| VstQueueOrder.OrderlyRunsTakeOnce | src/VstConnection.h:183-209 | over every orderly run moreover: of these requests none is taken twice, and none is queued that has been taken |
| VstPermanentFailure.FailureExactlyWhenAuthenticationFailed | src/VstConnection.cpp:321-326 | for every run: a permanent failure is in force if and only if an authentication request that was not answered yet has been answered with an error, because it could not be written or by cancelAll |
| VstPermanentFailure.NothingIsSentAfterFailure | src/VstConnection.cpp:599-603 | over every run: a permanent failure stays, no connection is set up again, and no request is taken from the queue any more, except for the one that getNextRequestToSend may have been moving |
| VstPermanentFailure.ReadLoopEndsExactlyWhen | src/VstConnection.cpp:367-397 | over every run: a read loop ends at its check exactly if it is not current, after a permanent failure, or if nothing is left to be sent or answered; only in the last case it retires |
| VstPermanentFailure.WriteLoopEndsExactlyWhen | src/VstConnection.cpp:589-612 | over every run: a write loop ends before it looks at the queue exactly if it is not current or after a permanent failure; otherwise it takes the front, if there is one |
| VstPermanentFailure.LoopsEndAfterFailure | src/VstConnection.cpp:380-384 | over every run: once there is a permanent failure, a loop that comes to its check or to getNextRequestToSend is gone for good |
| VstAccounts.AddedToStore | src/VstConnection.cpp:614-615 | adding the front to the store moves a request from queue to store |
| VstAccounts.RemovedFromQueue | src/VstConnection.cpp:617-618 | removing the front keeps the account when the front is the request just added |
| VstAccounts.RemovedFromStore | src/VstConnection.cpp:526-529 | removing a request from the store leaves it to the thread that is about to answer it |
| VstAccounts.Invoked | src/CallOnceRequestCallback.h:44-51 | answering finishes a request and hands over what it owns |
| VstAccounts.Cancelled | src/MessageStore.h:68-74 | cancelling finishes exactly the stored requests |
| VstLedger.StepKeepsLedger | src/VstConnection.cpp:52-732 | every orderly step of every thread keeps all requests accounted for |
| VstLedger.LedgerConserves | src/VstConnection.cpp:511-540 | accounted for means: in exactly one of send queue, store, about to be answered, or answered once |
| VstConservation.CallbacksRunOnce | src/CallOnceRequestCallback.h:44-51 | over every run, orderly or not: a callback runs at most once, and a finished request stays finished |
| VstConservation.OrderlyRunsConserve | src/VstConnection.cpp:589-622 | over every orderly run, restarts included: each accepted request is in exactly one place, and every stored item still owns its request |
| VstConservation.AnsweredStaysOut | src/VstConnection.cpp:526-538 | in an orderly run, an answered request is never queued, stored or moved again |
| VstConservation.IdleMeansAnswered | src/VstConnection.cpp:386-392 | in an orderly run, when the current read loop retires as idle, every request accepted so far has been answered or is just being answered |
| VstOwnership.OwnedUnlessHandedOver | src/VstConnection.cpp:73-84 | over every run: an accepted request is owned by its item exactly if no step has ever handed it over, by cancelAll with the request in the store or by the answer of a thread |
| VstOwnership.OwnedUntilHandedOver | src/MessageStore.h:98 | likewise from any point of any run on |
| VstOwnership.TakenOwnsUntilHandedOver | src/VstConnection.cpp:654-672 | over every run: the request taken by a write loop is there at any later moment exactly if it was there when taken and has not been handed over since |
| VstStoredOwners.StoredOwnExactlyWhenNotMixedUp | src/MessageStore.h:94-108 | for every run: all stored items own their requests all along if and only if no handed-over request is added to the store and no request is answered while it is in the store |
| VstStoredOwners.OrderlyRunsDoNotMixUp | src/MessageStore.h:94-108 | an orderly run does neither, so that minimumTimeout meets no null pointer in it |
| VstRequestLoss.OneInserted | src/VstConnection.cpp:327 | an insertion at the front while a request is being moved puts the inserted one in danger |
| VstRequestLoss.FrontRemoved | src/VstConnection.cpp:617-618 | removing a front that is not the request being moved loses that front |
| VstRequestLoss.StepKeepsFate | src/VstConnection.cpp:52-732 | every lost request is still lost after any step; a given request in danger is lost by the removal of the front, gives way to the new front if another request is inserted, which is then in danger in its place, and stays in danger under every other step |
| VstRequestLoss.LostForGood | src/VstConnection.cpp:607-618 | over every run: a request that is lost at some point is lost ever after |
| VstRequestLoss.RemovingAnotherLosesIt | src/VstConnection.cpp:617-618 | over every run: when getNextRequestToSend removes a front other than the request it has stored, that front is lost ever after |
| VstRequestLoss.ConservedExactlyWhenOrderly | src/VstConnection.cpp:607-618 | of a run that does not end inside getNextRequestToSend, requests are conserved if and only if no authentication request was inserted while that method was between front and removeFirst |
| VstRestartAssertions.AssertedExactlyWhenNoStart | src/VstConnection.cpp:194-197 | for every run: the assertions hold all along if and only if no thread calls startWriting or startReading while a restart stands between the reset of the loops and stopWriting |
| VstWitnesses.RestartMayMeetALoop | src/VstConnection.cpp:194-197 | there is a run in which the assertions are due while a write loop is current, started by a sender |
| VstWitnesses.RestartMayMeetAReadLoop | src/VstConnection.cpp:194-197 | there is a run, without any sender, in which the assertions are due while a read loop is current, started by a write loop |
| VstWitnesses.TakenMayBeHandedOver | src/VstConnection.cpp:662-672 | there is a run in which a write loop is about to look at the timeout of a request that cancelAll has handed over |
| VstWitnesses.AuthenticationCanBeLost | src/VstConnection.cpp:308-334 | there is a run from the start, through one restart, after which an authentication request is in no place and another request is both stored and queued |
| VstWitnesses.StoredMayBeHandedOver | src/MessageStore.h:98 | there is a run after which the current read loop is about to ask for the least timeout while a stored request has been handed over |
| SimpleRegex.ValidateRegex | 3rdParty/googletest/googletest/src/gtest-port.cc:681-735 | the loop with its flags accepts exactly what the grammar accepts; null is refused |
| SimpleRegex.ValidMeansPrinted | 3rdParty/googletest/googletest/src/gtest-port.cc:681-735 | the accepted patterns are exactly the printed forms of regular expressions |
| SimpleRegex.ValidExactlyWhenAllowed | 3rdParty/googletest/googletest/src/gtest-port.cc:681-735 | a pattern is accepted if and only if each of its characters is allowed where it stands: escaped, ASCII punctuation and eleven letters; ^ at the start, $ at the end, no backslash at the end, a quantifier behind what it can repeat, brackets and bars nowhere |
| SimpleRegex.ParsePrinted | 3rdParty/googletest/googletest/src/gtest-port.cc:681-735 | a pattern has one reading: it is the printed form of one expression only |
| SimpleRegex.MatchesHeadInSteps | 3rdParty/googletest/googletest/src/gtest-port.cc:786-795 | a prefix is in the language exactly when it starts with a word of the first piece and goes on with the rest |
| SimpleRegex.MatchRepetitionAndRegexAtHead | 3rdParty/googletest/googletest/src/gtest-port.cc:744-766 | trying the fewest repetitions first and returning at the first success loses no match |
| SimpleRegex.MatchRegexAtHead | 3rdParty/googletest/googletest/src/gtest-port.cc:771-797 | true exactly when a prefix of the string, all of it before a $, is in the language of the expression |
| SimpleRegex.MatchRegexAnywhere | 3rdParty/googletest/googletest/src/gtest-port.cc:807-820 | true exactly when a substring, at the ends that ^ and $ ask for, is in the language; false for null |
| SimpleRegex.LiteralMatches | 3rdParty/googletest/googletest/src/gtest-port.cc:652-671 | an escaped punctuation mark, or any other ordinary character, matches itself only |
| SimpleRegex.ClassesOfCharacters | 3rdParty/googletest/googletest/src/gtest-port.cc:634-671 | \d stands for 0 to 9, \w for letters, digits and underscore, \s for the six blanks, \D, \W and \S for one character outside of these |
| SimpleRegex.ControlCharacters | 3rdParty/googletest/googletest/src/gtest-port.cc:652-671 | \f, \n, \r, \t and \v stand for one control character each |
| SimpleRegex.OrdinaryCharacters | 3rdParty/googletest/googletest/src/gtest-port.cc:652-671 | the dot stands for any character but a newline, other ordinary characters and escaped ASCII punctuation for themselves |
| SimpleRegex.Repetitions | 3rdParty/googletest/googletest/src/gtest-port.cc:744-766 | ? stands for none or one, * for any number, + for one or more, of characters each of which the atom stands for |
| SimpleRegex.LanguageOfSequence | 3rdParty/googletest/googletest/src/gtest-port.cc:786-795 | a sequence stands for a word of its first part followed by a word of the rest, wherever it is divided |
| SimpleRegex.LiteralsAreFound | 3rdParty/googletest/googletest/src/gtest-port.cc:807-820 | for every string, the pattern with its punctuation escaped is valid and matches exactly where the string occurs |
| SimpleRegex.AnchoredLiterals | 3rdParty/googletest/googletest/src/gtest-port.cc:807-820 | for every string: with both anchors nothing else matches, with ^ exactly what starts with it, with $ exactly what ends with it |
| UrlEncoding.UrlEncode | src/helper.cpp:101-143 | fails exactly for lengths at which the size of the result might overflow; otherwise the encoding, of a length that fits |
| UrlEncoding.EncodedLength | src/helper.cpp:107-112 | the length is the input length plus two per escaped byte, at most three times the input |
| UrlEncoding.EncodedCharacters | src/helper.cpp:114-139 | only a to z, A to Z, 0 to 9, - _ ~ and % occur in an encoding (not the dot, which RFC 3986 section 2.3 leaves unreserved) |
| UrlEncoding.EncodedAsItIs | src/helper.cpp:114-128 | a string is encoded as it is if and only if it holds letters, digits, - _ and ~ only |
| UrlEncoding.EncodedBytes | src/helper.cpp:102-139 | byte by byte, every other one becomes a % and its two hexadecimal digits in upper case |
| UrlEncoding.UrlDecode | src/helper.cpp:153-208 | terminates on every string, malformed escapes included, with the decoding |
| UrlEncoding.DecodedCharacter | src/helper.cpp:160-166 | a plus sign decodes to a blank, any other character but % to itself |
| UrlEncoding.DecodedEscape | src/helper.cpp:83-94 | a % with two hexadecimal digits, in upper or lower case, decodes to the byte they name |
| UrlEncoding.DecodedMalformed | src/helper.cpp:168-195 | a % with one digit decodes to the value of the digit, a % without any to nothing |
| UrlEncoding.DecodedIsNoLonger | src/helper.cpp:153-208 | a decoding is never longer than its input |
| UrlEncoding.UrlRoundTrip | src/helper.cpp:101-208 | decoding an encoding gives back every byte string |
| HttpUrls.CreateSafeDottedCurlUrl | src/HttpConnection.cpp:233-256 | the find-and-append loop protects the single-dot segments from left to right |
| HttpUrls.ProtectionIsFinal | src/HttpConnection.cpp:243-253 | no single-dot segment is left; protecting again changes nothing, and protection changes exactly the URLs that hold one |
| HttpUrls.ProtectionEscapesLoneDots | src/HttpConnection.cpp:243-253 | every dot that is a segment of its own, and nothing else, is written %2E, which adds two characters each |
| HttpUrls.NoDotSegmentExactlyWithoutDoubleDots | src/HttpConnection.cpp:243-253 | a dot segment that RFC 3986, section 5.2.4, removes is left in the path exactly if the path of the URL holds a segment of two dots |
| HttpUrls.DoubleDotsAreNotProtected | src/HttpConnection.cpp:243-253 | /../b is left as it is |
| HttpUrls.ProtectionKeepsMeaning | src/HttpConnection.cpp:243-253 | for every string, malformed escapes included, the protected URL decodes to what the original decodes to |
| HttpUrls.BuildDestination | src/HttpConnection.cpp:73-82 | fails exactly when a key or value is too long; otherwise the part in front and the query |
| HttpUrls.QueryText | src/HttpConnection.cpp:73-82 | ? in front of the first parameter, & in front of every other, = between the encoded key and the encoded value |
| HttpUrls.QueryRoundTrip | src/HttpConnection.cpp:75-82 | the query splits at & and = and decodes to the parameters, in order |
| HttpUrls.ParametersSurviveProtection | src/HttpConnection.cpp:243-253 | protection leaves the query as it is, so different parameters give curl different URLs |

## Left out

- VstAccounts.RemovedFromQueue: requires that the front is the request being moved, which is what an insertion in between breaks; that case is in VstRequestLoss.
- VstConservation.OrderlyRunsConserve: for orderly runs only; the other runs lose a request, as VstRequestLoss.ConservedExactlyWhenOrderly shows, and for stored items VstStoredOwners.StoredOwnExactlyWhenNotMixedUp has the exact condition over all runs.
- VstConservation.AnsweredStaysOut: for orderly runs only; in the others a request may be stored and still be queued, as VstWitnesses.AuthenticationCanBeLost shows.
- VstConservation.IdleMeansAnswered: for orderly runs only, since a lost request is in no queue and in no store.
- VstConnectionMethods.VstConnection.ShouldStopReading: nothing is said of what happens once a null pointer is met; VstStoredOwners.StoredOwnExactlyWhenNotMixedUp shows when none is.
- VstLoopSafety.NoLostWriteWakeUp: within one connection epoch (from the end of the setup to the next restart or shutdown, without a permanent failure); behind its end, requests may wait in the queue until the next setup.
- VstDelivery.ReadLoop.AsyncReadCallback: nothing is said of what happens once a complete chunk is shorter than its own header; VstFraming.InsideExactlyWhenSound shows that the readers then leave the bytes received.
- VstBuildChunks.BuildChunks: requires a message that is not empty, since line 132 looks at the first chunk of the result.
- MessageStores.MessageStore.CancelAll: the order in which the callbacks run is not stated.
- SimpleRegex.ValidateRegex: the `int` index does not wrap around, so patterns of 2^31 characters and more are not modelled as such.
- VelocyPack: slices are byte strings, their validation and the message header are not modelled, and `createResponse` is taken to succeed.
- Resolver, TCP, SSL, timers and curl: their completions are steps of the environment, in any order.
- Liveness: nothing says that a request is eventually answered, or that a write loop has a live socket.
- The library sort: an insertion sort stands for `std::sort`, and only order and permutation are used.
- A request item is modelled in two halves: what it sends and receives is VstRequestItem.ItemBuffers, its request and its callback are MessageStores.RequestItem.
- The permanent failure that the callback of an authentication request declares is set right behind the invocation of the callback, for cancelAll behind its loop.
- Message ids are unbounded; the allocation of an id and the queueing of its request by `sendRequest` are one step.
- The look at `_permanent_failure` behind `cancelAll` is one step with it.
- `requestsLeft`, the debugging output of the stores, and the message list of `ValidateRegex` are not part of this model.
- The overload of `urlEncode` for a C string, which measures the string and calls the one modelled, is not part of this model.
- `RE::FullMatch` and `RE::Init`: only the matcher itself is modelled.
- The explanation that `FindPairing` writes to its listener is not modelled, nor is `Randomize`.
- The part of the destination in front of the query is a parameter; parameters come in the order in which the map lists them.
- `Response::payload`, `addVPack` and `readHeaders`, the tables that turn enumerations into strings, the builders of requests, and the classes for databases and collections are not part of this model.
