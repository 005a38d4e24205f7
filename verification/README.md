# openCANopen in Dafny

openCANopen is a CANopen master written in C. This project models the parts of it
whose correctness is hardest to see from the code and proves them for every input,
every run or every reachable state.

- **SDO transfers** (section 7.2.4.3 of CiA 301 version 4.2.0). The frame codec is
  modelled bit by bit, the client and the server as classes that assemble their frames
  byte by byte. Composed over a channel, they carry every byte string in both
  directions; over a channel that may lose any frame, with a timeout at any moment, the
  client never reports OK wrongly and the server never hands over less than was sent.
  The client is also run against any peer and the server against any client, and how they
  judge each frame is stated on the fields of the frame alone. `SdoFrame`, `SdoClient`,
  `SdoServer`, `SdoReport`, `SdoTurns`, `SdoRuns`, `SdoLossy`, `SdoPeer`, `SdoVerdict`,
  `SdoWatch`.
- **The SDO request queue** around that client: order, conservation, references and
  notifications over every run, and a request's way through queue, client and server.
  `SdoReq`, `SdoEndToEnd`.
- **The red-black tree** of `inc/sys/tree.h`, pointer by pointer with parent links,
  insertion and removal included, and the EDS object index built on it. `RbShape`,
  `RbHeap`, `RbBalance`, `RbSearch`, `RbCells`, `RbTree`, `Eds`.
- **Work and async jobs** of the main loop, as an interleaving of any number of
  threads, whose callbacks may call back into the loop: what no run does, and what every
  run owes to each job that was started. `Mloop`, `MloopSteps`, `MloopRuns`,
  `MloopHistory`.
- **The stable priority queue** with its wrapping sequence number. `PrioOrder`,
  `PrioHeap`, `PrioQueue`.
- **The HTTP request parser**, proved to invert a canonical printer, to fill its two
  tables no further than they go unless it says so, and, on every text, to accept the
  request lines and headers of a grammar written out character by character and no
  others. `Http`, `HttpPrint`, `HttpTables`, `HttpText`, `HttpLine`, `HttpHeaders`,
  `HttpParser`.
- **The trace ring** and **integer conversions**. `TraceBuffer`, `Conversions`.

`Common` holds the optional value and the powers of two that several modules share.

Where the C code updates fields in place there is a class (`SdoAsync`, `SdoSrv`,
`ReqQueue`, `RbHead`, `PrioQ`, `Parser`, `Ring`) whose methods follow the C functions
and are proved against functions on values; the theorems over runs are about those
functions. The nodes of the tree live in a map from addresses to cells.

## What the code does not do

Some promises turn out not to hold everywhere. Each is proved exactly where it holds.

- An upload of no bytes reaches the client as four zero bytes, because n = 4 does not
  fit its two bits: `UploadExact` holds if and only if there is at least one byte.
- A download of no bytes from a client with the full-frame quirk reaches the server as
  four zero bytes: `DownloadExact`.
- The client's abort code is never reset, so a transaction that ends with OK shows its
  user the code of an earlier one: `CodeIsLeftBehind`. Nor is the server's status set for
  an expedited upload: its user is shown OK if and only if the transfer before it ended
  so, `ToldOk`, `StaleStatus`.
- The sequence comparison is right exactly up to a quarter of the circle:
  `WindowIsTight`; one past it, the later of two elements of the same priority comes
  first: `LaterFirstBeyondWindow`. `PrioQ.Insert` keeps the order if no element is more
  than 2^62 insertions old, and `PrioQ.Pop` loses and invents nothing in any case.
- A priority queue made with capacity 0 never grows, since twice nothing is nothing; an
  insertion stays inside the array if and only if the capacity is positive:
  `PrioQ.Insert`.
- `sdo_req_queue__dequeue` returns with the lock held if the list is empty. Over every
  run the depth left is the number of times that happened: `LockBalance`. It does
  happen, when a flush comes between a start and the processing of it:
  `FlushedBeforeTaken`.
- A failed insertion in `mloop_async_start` releases the lock of the other queue, and
  the main loop's queue stays locked for good: `FreeUnlessLeaked`. One failure is enough
  to lock out every other thread in every continuation: `OneFailureLocksOut`,
  `LeakedForGood`.
- A query is refused when the path is empty or has 32 elements, and a 33rd query is
  written past the end of its table, since the checks look at the path's table:
  `ParsePrint` gives the outcome of every printable request, `InsideTable` says which
  ones stay inside, `OverrunExample` is one that does not, and `TablesHold` speaks of
  every text.
- A content length goes through an `int`. In decimal it is recovered if and only if it
  is below 2^31, or is 2^64 - 1, the number an out-of-range numeral is read as:
  `LengthRoundTrip`. A negative one becomes a length close to 2^64, or zero if it is
  beyond any `long`: `NegativeLength`.
- A request line without an empty line after its headers is accepted all the same, and
  a question mark after a closing slash is refused: `AnyText`, `LineIsRead`.
- A parsed integer is silently truncated; it is printed again if and only if it fits its
  type: `SignedRoundTrip`, `UnsignedRoundTrip`.

## Assumptions

Allocation succeeds, except where a failed insertion is a step of `Mloop`. `int` has 32
bits, `long` and `size_t` have 64, and `atoi` is `strtol` cut to `int`, as in the GNU C
library. A frame's
length code is at most 8. A server callback that refuses has called `sdo_srv_abort`
once, sends nothing otherwise, and fills the buffer only in `on_init` of an upload; its
answers are parameters of each call. Sockets, timers and clocks are channels, a timeout
step and parameters.

## Model

| member | source | states |
|---|---|---|
| `SdoFrame.RequestReadBack` | inc/canopen/sdo.h:101-225 | every field the server looks at is read back from every request a client can encode, the size of an empty expedited payload excepted |
| `SdoFrame.ReplyReadBack` | inc/canopen/sdo.h:101-225 | the same for every reply of a server |
| `SdoFrame.AbortReadBack` | src/sdo_common.c:22-32 | an abort frame carries its code, index and subindex |
| `SdoFrame.InitReadBack` | inc/canopen/sdo.h:192-203 | initiate frames are told apart by the expedited bit and carry payload and size; zero bytes read as four |
| `SdoFrame.SegmentReadBack` | inc/canopen/sdo.h:112-143 | a segment frame carries toggle, end bit, size and bytes |
| `SdoFrame.PaddedReadBack` | src/sdo_async.c:45-51 | padding a frame to eight bytes changes nothing else a machine reads |
| `SdoFrame.SizeAnnounced` | inc/canopen/sdo.h:180-190 | a segmented transfer of less than 2^32 bytes announces its length, lowest byte first |
| `SdoFrame.KnownRequests` | src/sdo_async.c:148-254 | one request of each kind, byte by byte as CiA 301 has it |
| `SdoFrame.KnownReplies` | src/sdo_srv.c:120-258 | one reply of each kind, likewise |
| `SdoFrame.BuildAbort` | src/sdo_common.c:22-32 | the setters build the layout of an abort |
| `SdoFrame.BuildInit` | src/sdo_async.c:151-165 | the setters build the layout of an initiate frame with data, expedited or segmented |
| `SdoFrame.BuildMux` | src/sdo_srv.c:122-127 | the setters build a command with a multiplexer |
| `SdoFrame.BuildToggle` | src/sdo_async.c:301-305 | the setters build a segment command without data |
| `SdoFrame.BuildSegment` | src/sdo_async.c:233-248 | the setters build a segment with data |
| `SdoClient.SdoAsync.constructor` | src/sdo_async.c:114-135 | an idle machine with its timer off |
| `SdoClient.SdoAsync.Send` | src/sdo_async.c:45-51 | the frame of the request on the bus, padded if the quirk asks |
| `SdoClient.SdoAsync.OnDone` | src/sdo_async.c:69-86 | the timer is off, the machine idle, `on_done` runs once and then the context is freed |
| `SdoClient.SdoAsync.Abort` | src/sdo_async.c:95-106 | an abort with the code is sent and the transaction ends as a local abort |
| `SdoClient.SdoAsync.OnTimeout` | src/sdo_async.c:108-112 | a timeout is a local abort with the timeout code |
| `SdoClient.SdoAsync.StopTransaction` | src/sdo_async.c:53-67 | a running transaction ends with its context freed and `on_done` not called; an idle one is refused |
| `SdoClient.SdoAsync.SendInitDownload` | src/sdo_async.c:148-169 | the download request for the buffer goes out and the timer runs |
| `SdoClient.SdoAsync.SendInitUpload` | src/sdo_async.c:171-182 | the upload request goes out and the timer runs |
| `SdoClient.SdoAsync.StartTransaction` | src/sdo_async.c:195-224 | refused while running; else a fresh transaction waiting for the first response |
| `SdoClient.SdoAsync.RequestDownloadSegment` | src/sdo_async.c:231-254 | the next at most seven bytes go out, never none, the last marked |
| `SdoClient.SdoAsync.RequestUploadSegment` | src/sdo_async.c:299-309 | a request for a segment with the current toggle |
| `SdoClient.SdoAsync.JudgeInit` | src/sdo_async.c:259-271 | length, command and, unless the quirk says not to, index and subindex of a first response are checked in that order, in either direction |
| `SdoClient.SdoAsync.JudgeSegment` | src/sdo_async.c:387-394 | length, command and toggle of a response to a segment are checked in that order, the toggle of the last one not at all |
| `SdoClient.SdoAsync.FeedInitDownload` | src/sdo_async.c:256-282 | the verdict on the frame and what follows from it, for every frame |
| `SdoClient.SdoAsync.FeedInitUpload` | src/sdo_async.c:284-345 | the same for an upload: expedited data, or on to segments |
| `SdoClient.SdoAsync.FeedDownloadSegment` | src/sdo_async.c:359-382 | the same for the response to a segment; the last one's toggle is not looked at |
| `SdoClient.SdoAsync.FeedUploadSegment` | src/sdo_async.c:384-412 | the same for an uploaded segment |
| `SdoClient.SdoAsync.FeedFrame` | src/sdo_async.c:426-453 | any frame in any reachable state does what `Feed` says; the start state and `abort()` are never reached |
| `SdoServer.ExpeditedTaken` | src/sdo_srv.c:110-118 | at most four bytes are taken from an expedited download |
| `SdoServer.SegmentTaken` | src/sdo_srv.c:166-174 | at most seven bytes are taken from a segment |
| `SdoServer.SdoSrv.constructor` | src/sdo_srv.c:30-43 | a server awaiting an initiate request |
| `SdoServer.SdoSrv.Abort` | src/sdo_srv.c:84-94 | one abort is sent and the server is back in its initial state |
| `SdoServer.SdoSrv.OnDone` | src/sdo_srv.c:56-67 | the callback sees the transfer; its refusal is one abort; either way the state is initial |
| `SdoServer.SdoSrv.FeedRemoteAbort` | src/sdo_srv.c:75-82 | a client's abort ends the transfer and is reported |
| `SdoServer.SdoSrv.SendDownloadInit` | src/sdo_srv.c:120-129 | the reply to a download request |
| `SdoServer.SdoSrv.FeedInitDownload` | src/sdo_srv.c:96-164 | a download request restarts the server from any state; expedited data is handed over at once |
| `SdoServer.SdoSrv.SendUploadInit` | src/sdo_srv.c:221-258 | the reply to an upload request, expedited or with the size |
| `SdoServer.SdoSrv.FeedInitUpload` | src/sdo_srv.c:260-277 | an upload request restarts the server and is answered from what `on_init` provides |
| `SdoServer.SdoSrv.SendDownloadSegment` | src/sdo_srv.c:176-185 | the reply carries the toggle, which then flips |
| `SdoServer.SdoSrv.FeedDownloadSegment` | src/sdo_srv.c:187-219 | state, length and toggle are checked in that order; the bytes are appended and handed over after the last |
| `SdoServer.SdoSrv.FeedUploadSegment` | src/sdo_srv.c:279-316 | the next segment of the buffer, never empty, never out of range |
| `SdoServer.SdoSrv.FeedFrame` | src/sdo_srv.c:318-333 | any frame does what `Serves` says and keeps the invariant |
| `SdoServer.ServesKeepsValid` | src/sdo_srv.c:260-333 | for every frame and callback: between upload segments the buffer is longer than four bytes and the position inside it |
| `SdoReport.RemoteAbortTold` | src/sdo_srv.c:75-82 | a client's abort in any state: the user is told once, of a remote abort and with what had come in, and the client's code is kept unless the user refuses |
| `SdoReport.DownloadSegmentTold` | src/sdo_srv.c:166-219 | for every state and frame: a download segment out of turn, empty or with the wrong toggle is answered by that abort and changes no byte; any other adds its bytes, and the last one hands everything over as OK |
| `SdoReport.UploadSegmentTold` | src/sdo_srv.c:279-316 | likewise a request for a segment, answered with the next seven bytes or what is left |
| `SdoReport.DownloadTold` | src/sdo_srv.c:96-164 | for every state and frame: a download request is refused when short or by the user, handed over at once if expedited, and else starts from nothing |
| `SdoReport.UploadTold` | src/sdo_srv.c:221-277 | likewise an upload request, served from what the user provides |
| `SdoReport.UnknownTold` | src/sdo_srv.c:318-333 | any other specifier is answered by an abort and changes no byte |
| `SdoReport.ToldOk` | src/sdo_srv.c:56-67 | over all frames the user is told at most once, and told OK exactly of transfers that were not aborted, an expedited upload after an unsuccessful transfer excepted |
| `SdoReport.StaleStatus` | src/sdo_srv.c:221-246 | a successful expedited upload is shown to the user with the status left by the transfer before |
| `SdoTurns.ServerTurn` | src/sdo_srv.c:131-316 | a server ready for the client's request sends exactly one reply, the protocol's or the abort of the callback that refused, under the client's multiplexer; it hands over a finished download whole and never shows its user less |
| `SdoTurns.ClientTurn` | src/sdo_async.c:256-412 | a client that hears the protocol's reply is done and content, or asks the next request of a server that is ready for it |
| `SdoTurns.AbortTurn` | src/sdo_async.c:435-440 | a server's abort ends any transaction with the server's code |
| `SdoTurns.Lockstep` | src/sdo_srv.c:75-94 | every frame but an abort gets exactly one reply in every state |
| `SdoRuns.FeedKeepsValid` | src/sdo_async.c:426-453 | no frame takes the client out of its invariant |
| `SdoRuns.TripStep` | src/sdo_async.c:256-412 | one round trip refuses with the callback's code, or finishes, or leaves one round trip less to go |
| `SdoRuns.InStep` | src/sdo_srv.c:187-316 | at every request of a transfer both sides agree on the toggle and on the bytes carried so far |
| `SdoRuns.TransferFrom` | src/sdo_async.c:231-412 | from any point of a transfer, the round trips left settle it |
| `SdoRuns.DownloadEndToEnd` | src/sdo_async.c:148-282 | for every byte string, quirk, server state and answers: exactly 1 or 1 + ceil(n/7) round trips, OK with the bytes handed over once under the right index, or the refusing callback's code |
| `SdoRuns.DownloadExact` | src/sdo_srv.c:110-146 | the bytes arrive unchanged if and only if the download is not an empty one of a padding client |
| `SdoRuns.UploadEndToEnd` | src/sdo_async.c:284-412 | for every byte string served and every server state: the same number of round trips, OK with the server's bytes, or the callback's code |
| `SdoRuns.UploadExact` | inc/canopen/sdo.h:192-203 | the bytes arrive unchanged if and only if there are any |
| `SdoRuns.UploadRefused` | src/sdo_srv.c:260-267 | an upload refused by `on_init` ends after one round trip with its code |
| `SdoRuns.LossyRun` | src/sdo_async.c:95-112 | the invariant of a transaction is kept by every sequence of deliveries, losses and timeouts |
| `SdoRuns.LossySafety` | src/sdo_async.c:359-453 | whatever is lost and whenever the timer fires, a client that ended with OK has the transfer it reports; otherwise it ended with a local or remote abort |
| `SdoLossy.NothingLess` | src/sdo_srv.c:75-219 | whatever is lost, whenever the client gives up and whatever state it found the server in: all that the server's user is ever told of a download is that it was aborted, or the whole of it as a success |
| `SdoPeer.SegmentsCount` | src/sdo_async.c:231-254 | a download takes ceil(n/7) segments |
| `SdoPeer.SegmentsCarry` | src/sdo_async.c:231-254 | the segments concatenate to the data, alternate the toggle, and mark the last and only the last |
| `SdoPeer.OnScriptStep` | src/sdo_async.c:256-382 | any frame from anyone leaves what was sent a prefix of the script |
| `SdoPeer.DownloadAgainstAnyPeer` | src/sdo_async.c:195-282 | for every sequence of frames: the client sends its script in order, all of it if it ends with OK, and has ended after 1 or 1 + ceil(n/7) frames |
| `SdoPeer.UploadStep` | src/sdo_async.c:284-412 | any frame from anyone continues an upload, completes it or ends it with an abort, exactly by what is in the frame |
| `SdoPeer.UploadAgainstAnyPeer` | src/sdo_async.c:284-412 | for every sequence of frames: the client is still waiting exactly as long as the frames are a well-formed beginning of an upload, and its buffer is their payload; it ends with OK if and only if some frame completes such a beginning, and has what was carried |
| `SdoVerdict.Heard` | src/sdo_async.c:256-453 | one frame, in either direction: what a welcome one leads to, and the status, code and abort that any other ends with |
| `SdoVerdict.AnyConversation` | src/sdo_async.c:256-453 | for every transaction and every sequence of frames, on the fields of the frames: still waiting if and only if each was the response due and none completed it, with all requests said in order; OK if and only if one completed it; else ended by the first that was not due, with the peer's code if it is an abort and with the code of its first failing check if not |
| `SdoVerdict.ConversationExpires` | src/sdo_async.c:95-112 | a timeout ends it anywhere, with the abort sent |
| `SdoVerdict.CodeIsLeftBehind` | src/sdo_async.c:195-224 | nothing but a failure changes the abort code, not even a new transaction |
| `SdoPeer.FeedEvents` | src/sdo_async.c:69-86 | a frame ends the transaction with a final status, `on_done` and then the free, or runs nothing |
| `SdoPeer.CallEvents` | src/sdo_async.c:53-86 | what each call can run of the user's functions |
| `SdoPeer.EveryTransactionOnce` | src/sdo_async.c:53-86 | over every sequence of calls each accepted transaction has its context freed exactly once and its user told at most once |
| `SdoWatch.WatchStep` | src/sdo_srv.c:187-316 | a finished segmented download shows `on_done` exactly the bytes that came in; segments are accepted only with toggles that alternate from 0, and answered with the same |
| `SdoWatch.ServerAgainstAnyClient` | src/sdo_srv.c:260-333 | for every sequence of frames: the segments sent are a prefix of what is served, all of it once one is marked last |
| `SdoWatch.SizeFieldBelieved` | src/sdo_srv.c:166-174 | whatever the length of the frame: the size field of a segment is believed exactly when it is within the frame in the last segment, and when it agrees with the frame in any other |
| `SdoReq.EnqueueKeeps` | src/sdo_req.c:200-219 | starting a request keeps the queue's invariant |
| `SdoReq.ProcessKeeps` | src/sdo_req.c:281-308 | taking the next request keeps it |
| `SdoReq.ServeKeeps` | src/sdo_req.c:261-331 | the end of a transaction keeps it |
| `SdoReq.FlushKeeps` | src/sdo_req.c:132-141 | a flush keeps it and leaves nothing queued or in flight |
| `SdoReq.EveryRun` | src/sdo_req.c:192-342 | in every run: size is the list's length and within the limit; starts follow the order of acceptance; an accepted request is waiting, in flight, or given up exactly once and no longer pending, its user told once if it finished and never if cancelled |
| `SdoReq.Conservation` | src/sdo_req.c:192-236 | accepted requests are those waiting, the one in flight and those given up |
| `SdoReq.OrdersStand` | src/sdo_req.c:49-78 | over every run a request stays what its user made it: direction, index, callback and the data of a download |
| `SdoReq.NewOrder` | src/sdo_req.c:49-78 | a new request is the one asked for, pending and its user's alone |
| `SdoReq.UserReferences` | inc/arc.h:31-47 | a reference taken and given up again is no change |
| `SdoReq.LockBalance` | src/sdo_req.c:221-236 | over every run of calls the depth of the lock grows by the number of times an empty list was taken from, and never goes down again; so it stays free if and only if that never happens |
| `SdoReq.FlushedBeforeTaken` | src/sdo_req.c:192-236 | a request started, flushed and then processed leaves the lock held |
| `SdoReq.ReqQueue.constructor` | src/sdo_req.c:94-130 | an empty queue |
| `SdoReq.ReqQueue.Append` | src/sdo_req.c:200-219 | a request goes to the end of the list if there is room |
| `SdoReq.ReqQueue.StartReq` | src/sdo_req.c:333-342 | the queue's reference is taken, and given back if there is no room |
| `SdoReq.ReqQueue.Dequeue` | src/sdo_req.c:221-236 | the head of the list, or nothing with the lock held |
| `SdoReq.ReqQueue.ProcessQueue` | src/sdo_req.c:281-308 | the head of the list becomes the client's transaction, and what goes out asks for its index or offers its data under it |
| `SdoReq.ReqQueue.Callbacks` | src/sdo_req.c:261-331 | the client's calls reach the requests in order |
| `SdoReq.ReqQueue.OnFrame` | src/sdo_req.c:310-331 | a received frame acts on client and request together, and what goes out is the client's answer |
| `SdoReq.ReqQueue.OnTimeout` | src/sdo_req.c:310-331 | so does a timeout, and what goes out is an abort under the index of the request in flight |
| `SdoReq.ReqQueue.FlushQueue` | src/sdo_req.c:192-198 | every queued request is cancelled, then the one in flight |
| `SdoEndToEnd.AskedUnderItsIndex` | src/sdo_req.c:281-308 | the server comes to know a queued request by the request's own index, in its first round trip |
| `SdoEndToEnd.UploadRequest` | src/sdo_req.c:281-331 | a queued upload ends OK with the bytes of the server under its own index, its user told once, its reference given back |
| `SdoEndToEnd.DownloadRequest` | src/sdo_req.c:281-331 | a queued download ends OK with its bytes handed over by the server |
| `RbShape.Rotate` | inc/sys/tree.h:340-378 | a rotation keeps the order of the items |
| `RbBalance.RecolorUpRises` | inc/sys/tree.h:411-419 | with a red uncle the violation moves two levels up |
| `RbBalance.SettleSound` | inc/sys/tree.h:420-427 | with a black uncle one or two rotations restore a sound tree |
| `RbBalance.SiblingUpLacks` | inc/sys/tree.h:455-461 | a red sibling is traded for a black one |
| `RbBalance.LackMovesUp` | inc/sys/tree.h:462-468 | with black nephews the missing black moves one level up |
| `RbBalance.RefillSound` | inc/sys/tree.h:469-487 | with a red nephew the missing black is made up for |
| `RbBalance.LackingEnds` | inc/sys/tree.h:523-524 | blackening a red node, or reaching the root, ends it |
| `RbBalance.Shallow` | inc/sys/tree.h:405-525 | depth is at most twice the binary logarithm of the number of items |
| `RbCells.Rotated` | inc/sys/tree.h:340-378 | the cells a rotation writes hold the rotated tree in the same place |
| `RbCells.Spliced` | inc/sys/tree.h:576-587 | the cells a splice writes hold the tree with the child in the place of its parent, and the cell of the spliced node is not written |
| `RbCells.Replaced` | inc/sys/tree.h:556-566 | the cells a replacement writes hold the tree with the other node in that place |
| `RbTree.RbHead.SetColor` | inc/sys/tree.h:331-334 | one node changes colour, everything else stays |
| `RbTree.RbHead.RotateAt` | inc/sys/tree.h:340-378 | memory holds the rotated tree |
| `RbTree.RbHead.Rise` | inc/sys/tree.h:409-445 | one round of RB_INSERT_COLOR moves the violation strictly up |
| `RbTree.RbHead.InsertColor` | inc/sys/tree.h:405-447 | ends with a red-black tree of the same items in the same order |
| `RbTree.RbHead.Sink` | inc/sys/tree.h:453-522 | one round of RB_REMOVE_COLOR finishes or moves the lack up |
| `RbTree.RbHead.RemoveColor` | inc/sys/tree.h:449-525 | ends with a red-black tree of the same items in the same order |
| `RbTree.RbHead.Find` | inc/sys/tree.h:626-641 | finds exactly the node the map gives for the key |
| `RbTree.RbHead.Descent` | inc/sys/tree.h:601-611 | the node with the key, or the one place where it belongs |
| `RbTree.RbHead.Attach` | inc/sys/tree.h:612-620 | the new red leaf hangs in its place |
| `RbTree.RbHead.Insert` | inc/sys/tree.h:595-623 | a new key is added to the map and the tree stays red-black and ordered; a present key changes nothing and its node is returned |
| `RbTree.RbHead.Splice` | inc/sys/tree.h:576-587 | a node with at most one child gives way to it |
| `RbTree.RbHead.Successor` | inc/sys/tree.h:538-540 | the leftmost node to the right |
| `RbTree.RbHead.Replace` | inc/sys/tree.h:556-566 | the successor takes over place, links and colour |
| `RbTree.RbHead.RemoveSimple` | inc/sys/tree.h:532-535 | removal of a node with an empty side |
| `RbTree.RbHead.RemoveInner` | inc/sys/tree.h:536-574 | removal of a node with two children |
| `RbTree.RbHead.Remove` | inc/sys/tree.h:527-592 | exactly the node's key leaves the map; the tree stays red-black and ordered; memory of other nodes is untouched |
| `RbTree.RbHead.First` | inc/sys/tree.h:708-721 | the first node in order |
| `RbTree.RbHead.Next` | inc/sys/tree.h:665-684 | the next node in order, and none after the last |
| `RbTree.RbHead.Climb` | inc/sys/tree.h:672-682 | the first node after everything below |
| `Eds.KeyRoundTrip` | inc/canopen/eds.h:63-71 | index and subindex are recovered from the key |
| `Eds.KeyOrder` | inc/canopen/eds.h:63-71 | keys are ordered by index and then by subindex |
| `Eds.InsertObject` | src/eds.c:220-232 | the index is updated at the key, a previous object under it is removed and freed |
| `Eds.Load` | src/eds.c:247-305 | every sequence of insertions leaves a red-black search tree whose map is the old one overridden by the insertions, the last of a key winning |
| `Eds.FindObject` | src/eds.c:164-170 | finds exactly the object the map gives |
| `Eds.Visit` | src/eds.c:440-449 | iteration visits the objects in order, each once, and ends |
| `Eds.OrderIsIndex` | src/eds.c:440-449 | what is visited is exactly what the map holds |
| `Eds.Clear` | src/eds.c:178-186 | every node is removed and freed and the map is empty |
| `MloopSteps.TakenIsStarted` | src/mloop.c:1292-1297 | what the main loop can take is started |
| `MloopSteps.OneInside` | src/mloop.c:1687-1696 | while an activity is inside a queue, no other thread can lock it |
| `MloopSteps.SwitchKeeps` | src/mloop.c:1302-1304 | a callback that calls back into the loop, and the return from it, keep the invariant |
| `MloopSteps.NestAndReturn` | src/mloop.c:1302-1304 | any idle activity of its thread can be called from a user function; it takes over, and after its return everything is as before |
| `MloopSteps.StepKeeps` | src/mloop.c:667-735 | every step of every thread, nested calls included, keeps the invariant of jobs, queues, locks, call stacks and histories |
| `MloopRuns.OnePlace` | src/mloop.c:693-735 | in every reachable state a job is in one queue, or in one thread's hands, or nowhere, which it is exactly when stopped |
| `MloopRuns.OnlyStartedIsTaken` | src/mloop.c:1288-1312 | in every reachable state the main loop can only take a started job |
| `MloopRuns.SwapsSucceed` | src/mloop.c:365-371 | no compare-and-swap after a claim fails, so every asserted one succeeds |
| `MloopRuns.StatesMoveAlongEdges` | src/mloop.c:365-371 | states move only along the allowed edges |
| `MloopRuns.MovesOn` | src/mloop.c:667-735 | in every reachable state an activity comes nearer to its end with each step unless it waits for a lock of another thread, so every call ends within five |
| `MloopRuns.StartClaims` | src/mloop.c:1676-1681 | a start claims its job if and only if it is stopped, and changes nothing else |
| `MloopRuns.QueuedCanBeTaken` | src/mloop.c:1288-1296 | a queued job is taken if and only if no other thread has the lock |
| `MloopRuns.OncePerStart` | src/mloop.c:1288-1312 | a well-ordered history has at most one work and one done per successful start |
| `MloopRuns.HistoryOfEveryRun` | src/mloop.c:1676-1743 | in every run each successful start gives at most one run of the work function and then at most one of the done function |
| `MloopRuns.LoggedWhenInserted` | src/mloop.c:1730-1743 | a start enters the history exactly when its job was inserted; one whose insertion failed leaves no trace |
| `MloopHistory.MainRunsDone` | src/mloop.c:1299-1304 | the main loop runs the done function of a job it has if and only if there is one and the job is not cancelled |
| `MloopHistory.WorkerRunsWork` | src/mloop.c:707-715 | a worker runs the work function if and only if the job is not cancelled |
| `MloopHistory.EveryStartAccountedFor` | src/mloop.c:693-735 | over every run, whenever a job is stopped: its successful starts are its runs of the work function and the times a worker found it cancelled; and its runs of the done function and the times it was found cancelled or could not be passed on |
| `MloopHistory.EveryStartIsServed` | src/mloop.c:693-735 | over every run in which nobody cancels a job and no worker fails to pass it on, both functions have run exactly as often as it was started |
| `MloopRuns.FreeUnlessLeaked` | src/mloop.c:1687-1701 | the main loop's queue is unlocked when no thread is inside it if and only if no insertion has failed in mloop_async_start |
| `MloopRuns.LeakedForGood` | src/mloop.c:1697-1701 | after a failed insertion the lock never leaves the thread that failed, and in every continuation no activity of any other thread can take it |
| `MloopRuns.OneFailureLocksOut` | src/mloop.c:1677-1703 | from rest, one start of an async job whose insertion fails leaves the queue locked, and every other thread is locked out in every continuation |
| `PrioOrder.SeqLtIsArrivalOrder` | src/prioq.c:185-204 | within a quarter of the circle the comparison of wrapped numbers is the order of arrival |
| `PrioOrder.WindowIsTight` | src/prioq.c:185-204 | it is right on all pairs at most w apart if and only if w is at most 2^62 |
| `PrioOrder.LaterFirstBeyondWindow` | src/prioq.c:185-215 | one insertion past a quarter of the circle, the later of two elements of the same priority compares as less |
| `PrioOrder.IsLtIsLess` | src/prioq.c:206-215 | elements compare by priority and then by arrival |
| `PrioOrder.InsertSortedIsStable` | src/prioq.c:129-153 | a newcomer stands behind all elements of its priority and in front of all less urgent ones |
| `PrioHeap.BubbleStep` | src/prioq.c:217-229 | a swap upwards moves the one broken edge up |
| `PrioHeap.SinkStep` | src/prioq.c:249-260 | a swap with the smaller child moves the broken edges down |
| `PrioHeap.RootIsLeast` | src/prioq.c:155-175 | the root of a heap is its least element |
| `PrioHeap.SameFirst` | src/prioq.c:155-175 | the root is the head of the sorted list of the same elements |
| `PrioQueue.PrioQ.constructor` | src/prioq.c:24-40 | an empty queue of any capacity, zero included |
| `PrioQueue.PrioQ.Grow` | src/prioq.c:102-127 | exactly the size asked if that is more, the contents kept |
| `PrioQueue.PrioQ.BubbleUp` | src/prioq.c:217-229 | terminates with a heap of the same elements |
| `PrioQueue.PrioQ.SmallerChild` | src/prioq.c:231-247 | the child to move up, none exactly when the node is in place |
| `PrioQueue.PrioQ.SinkDown` | src/prioq.c:249-260 | terminates with a heap of the same elements |
| `PrioQueue.PrioQ.Insert` | src/prioq.c:102-153 | the write is inside the array if and only if the capacity was not zero; then the sorted list gets the newcomer in its place, and a heap in order stays in order if no element is more than 2^62 insertions old |
| `PrioQueue.PrioQ.Pop` | src/prioq.c:155-175 | nothing from an empty queue; else one element leaves and all others stay, and it is the head of the sorted list if the heap is in order |
| `Http.TokenMoves` | src/http.c:96-219 | every token moves on and stays inside the text |
| `HttpPrint.UrlParses` | src/http.c:319-401 | a printed url is read back if it fits, leaves the parser stuck if not, and overruns the table exactly with more than 32 queries |
| `HttpPrint.HeadersParse` | src/http.c:429-501 | printed headers are read to their exact end and noted one after the other |
| `HttpPrint.ParsePrint` | src/http.c:403-524 | for every printable request and every body: parsing the print recovers it with the exact header length, or refuses it, or overruns the query table, each exactly by the number of path elements and queries |
| `HttpPrint.InsideTable` | src/http.c:346-395 | a printable request stays inside the query table if and only if it has at most 32 queries or its path is empty or full |
| `HttpPrint.OverrunExample` | src/http.c:346-395 | 33 queries behind a path of one element do not |
| `HttpPrint.LastHeaderWins` | src/http.c:429-490 | for any list of headers, the last content header of each kind is the one noted, and none notes nothing |
| `HttpPrint.ContentHeadersRead` | src/http.c:503-524 | the same read off the outcome of the whole parser |
| `HttpPrint.LengthRoundTrip` | src/http.c:429-446 | a content length printed in decimal is recovered if and only if it is below 2^31 or equal to 2^64 - 1 |
| `HttpPrint.NegativeLength` | src/http.c:429-446 | a content length of -n is stored as 2^64 - n for n from 1 to 2^31, and as 0 from 2^63 on |
| `HttpPrint.NumeralRead` | src/http.c:443 | white space before a number and anything but a digit after it do not matter, and a sign counts |
| `HttpTables.PairFills` | src/http.c:346-386 | for every text, a pair that is read takes one slot and one ampersand; the slot past the end is written only with the table full |
| `HttpTables.QueryFills` | src/http.c:388-395 | for every text, a query fills no slot past the end and leaves the path alone, unless the text has at least 32 ampersands |
| `HttpTables.TablesHold` | src/http.c:503-524 | for every text: an accepted request fits both tables, and a text with fewer than 32 ampersands overruns neither |
| `HttpText.KeyCharacters` | src/http.c:143-146 | the characters of a key, listed |
| `HttpText.WordCharacters` | src/http.c:77-86 | the characters of a word, listed |
| `HttpText.OtherCharacters` | src/http.c:96-204 | blanks, slashes, digits and the characters of a value, listed |
| `HttpText.ContentKeys` | src/http.c:414-482 | the two content headers are told by their keys in any mixture of cases, and these can be read |
| `HttpText.ContentLengthRead` | src/http.c:429-446 | a content length below 2^31 under such a key, among any headers, is read if no later one has that key, and the header length is exact |
| `HttpText.ContentTypeRead` | src/http.c:448-465 | likewise a content type |
| `HttpText.PutIsRead` | src/http.c:503-524 | one request from its first character to its last |
| `HttpLine.LineSound` | src/http.c:403-412 | for every text, a request line that parses is one of the grammar, and the request is what it says |
| `HttpLine.LineReads` | src/http.c:403-412 | every request line of the grammar that fits the tables is read to its end |
| `HttpLine.LineIsRead` | src/http.c:403-412 | for every text: its beginning is read as a request line if and only if it is one that fits the tables |
| `HttpHeaders.HeadersSound` | src/http.c:485-501 | the headers of any text: as many header lines as there are, each noted, whatever follows them |
| `HttpHeaders.AnyText` | src/http.c:503-524 | any text: accepted only if it starts with such a line, with the content headers of the header lines that follow it and the length up to the empty line; and accepted if it does, unless the headers end in a carriage return alone or in a key without an end of line |
| `HttpParser.PairMoves` | src/http.c:388-395 | each pair of a query makes progress, so the recursion ends |
| `HttpParser.HeaderMoves` | src/http.c:485-494 | each header makes progress, so the loop ends |
| `HttpParser.Parser.NextToken` | src/http.c:221-238 | an unaccepted token is seen again, an accepted one is followed by the next |
| `HttpParser.Parser.ExpectKind` | src/http.c:295-310 | a token of the kind is accepted, any other stays |
| `HttpParser.Parser.ExpectWord` | src/http.c:246-259 | a literal is accepted if it is the word in either case |
| `HttpParser.Parser.RequestMethod` | src/http.c:261-293 | one of the three methods |
| `HttpParser.Parser.UrlPath` | src/http.c:319-344 | the path, up to 32 elements |
| `HttpParser.Parser.UrlQuery` | src/http.c:346-395 | the queries, whatever follows, and whether the table was overrun |
| `HttpParser.Parser.Url` | src/http.c:397-401 | path and queries; a failed path still returns 1 |
| `HttpParser.Parser.RequestLine` | src/http.c:403-412 | method, url and version |
| `HttpParser.Parser.Field` | src/http.c:414-482 | a header with the wanted key is read, another stays in front |
| `HttpParser.Parser.HeaderField` | src/http.c:485-490 | a content length cut to `int` and stored as a size, a content type or any other header |
| `HttpParser.Parser.Headers` | src/http.c:492-501 | headers as long as there are any, then the empty line |
| `HttpParser.ParseText` | src/http.c:503-524 | the whole parser computes `Parse`, the outcome that `ParsePrint` and `TablesHold` are about |
| `TraceBuffer.RoundUpIsLeast` | src/trace-buffer.c:33-36 | the least power of two not below the request |
| `TraceBuffer.MaskIsModulo` | src/trace-buffer.c:78-79 | masking with the length less one is the remainder |
| `TraceBuffer.Ring.constructor` | src/trace-buffer.c:53-61 | an empty ring of that length |
| `TraceBuffer.Ring.Append` | src/trace-buffer.c:68-83 | the frame is the newest entry unless a dump is running |
| `TraceBuffer.Ring.Dump` | src/trace-buffer.c:85-102 | exactly the newest min(n, length) frames in order of arrival |
| `Conversions.Byteorder` | src/byteorder.c:47-83 | the bytes in the order of the host, zeros for the rest; on a big-endian host no result, the program ends, above eight bytes |
| `Conversions.OrderDropsOut` | src/byteorder.c:25-83 | both host variants give the same bytes on the bus and the same value from it |
| `Conversions.SignedValue` | src/conversions.c:42-65 | the value is the two's complement of the type's bytes at every width |
| `Conversions.LowestFirst` | src/conversions.c:25-65 | on the bus the lowest byte comes first, whatever the host |
| `Conversions.UnsignedRoundTrip` | src/conversions.c:25-36 | a 64-bit number is printed again if and only if it fits the type, on hosts of either order |
| `Conversions.SignedRoundTrip` | src/conversions.c:134-154 | the same for signed types |

## Left out

- Sockets, epoll, timers, signals, TCP bridge and drivers: input and output; they are channels and steps here.
- `src/master.c`, `src/vnode.c`, `src/dump.c`, `src/rest.c`, `src/sdo-rest.c`: glue whose behaviour depends on drivers.
- A transaction started from inside `on_done` of the client: the callback is an event after the call here.
- Late frames of an earlier transaction reaching a new one: the protocol does not number transactions.
- `inc/vector.h`: buffers are sequences; the size a server announces only reserves memory and has no effect here.
- `sdo_req_queue_remove`: it has no caller and does not maintain the size.
- Threads that poll a request's status: `sdo_req__on_done` is one step.
- Memory reclamation, the object list and the null job that ends a worker in `src/mloop.c`.
- Blocking, locking, copying and moving of priority queues; `Mloop` takes any queued job.
- What the program does after it has written past the end of a table: an overrun is an outcome of its own in `Http` and `PrioQueue`.
- strtoull and snprintf in `src/conversions.c`; floating point, boolean and string conversions.
- Splay trees, RB_NFIND, RB_PREV, INI files and the choice of a data sheet.
- `SdoReq.ReqQueue`: the lock is a counter of depth; the mutual exclusion it gives is not modelled.
