# A verified model of the RPC library and the file layer

The repository is an RPC library with at-most-once semantics and a file layer on a raw block
disk.  This project models both in Dafny and proves what they are for.  `dafny verify
dfyconfig.toml` checks everything.

**At-most-once RPC** (`AckWindow`, `ReplyWindow`, `RpcProtocol` and the other `Rpc*` files).  The
protocol is a transition system whose actions are the lock-protected regions of the program:
clients issue, transmit, retransmit, receive and give up calls; dispatch threads check, execute,
record and answer; the server restarts; the network loses, duplicates and reorders.
`RpcInvariant` ties client state, headers in flight and server windows together.
`RpcTheorems`, `RpcProgress`, `RpcOneIncarnation`, `RpcDuplicates`, `RpcLiveCalls` and `RpcCalmRuns` state what follows
for whole runs.  `RpcClient` and `RpcServer` hold the two endpoints as objects whose methods, with the
loops of the program, are proved to take the steps of the machine.

*A live call can be forgotten.*  A waiting call may come to be answered FORGOTTEN once another call
of its client is finished without the window knowing: by a timeout (`RpcTimeoutExample`), or,
without any timeout, by the refusal OLDSRV after a restart between two concurrent binds
(`RpcRebindExample`).  `RpcLiveCalls` has the exact condition, for every run: in no state would the
request of a waiting call be answered FORGOTTEN if and only if each request told NEW guards all
waiting calls of its client whose header passes the nonce test.  Guarding a call means: the window
then holds, or the request itself is, an xid between the request's `xid_rep` and that call's.  A
sentinel for `xid_rep`, which the server can see without knowing who waits, is sufficient.  Runs of
one incarnation with a single bind issued first and no timeouts always have one.

*Answered calls stay answered.*  `RpcDuplicates`: over any number of restarts a non-bind call whose
caller has an answer is never executed again; this includes the duplicate that lossy testing sends
on purpose.

**The wire** (`Wire`, `Codec`, `CodecPrefix`, `CodecTypes`, `Marshall`, `Unmarshall`, `Pdu`).  The marshalling
operators with their growing buffer, and the unmarshalling operators on any bytes whatsoever, which
always yield a value of the type asked for.

**Framing** (`Channel`, `Framing`, `FramingTheorems`, `Connection`).  One direction of a connection:
concurrent senders, write and read callbacks, a byte stream that delivers in pieces of any size, a
receiver whose manager refuses messages.  What system calls did is a parameter of each step.

**Threads** (`Fifo`, `ThrPool`, `ThrPoolTheorems`, `PollMgr`, `SelectAio`).  The bounded queue with its two
condition variables, spurious wakeups included; the pool and its shutdown; the poll loop and the
removal of descriptors.  `PollMgr` asks a discipline of its callers.

**Connections** (`Connections`, `ConnectionFrames`, `ConnectionMethods`, `Removals`, `Watching`,
`SenderWakeups`, `LostWakeups`).  Any number of connections on top of the poll manager: the locked regions of send,
closeconn, read_cb and write_cb, their condition waits, and the poll-manager calls they make.  Every
run of them is a run of the poll manager that keeps the discipline, and on each connection a run of
`Framing` with the same bytes written; the methods of the object in `Connection` take its steps.  A
removal always has a next step and ends after a bounded number of steps of the poll thread.

*A sender can sleep for good.*  closeconn sets the dead flag but signals nobody.  `LostWakeups`: in
every run, no sender stays asleep beside a message that is complete or failed if and only if every
closeconn that sets the flag finds no sender asleep for completion.  Otherwise that sender and all who
queue behind it sleep on, whatever happens, short of a spurious wakeup; a run shows it.

**Timeouts** (`Timeouts`).  The retry loop of a call that gets no answer: when exactly it waits until, and
when it sends again.

**Files** (`DiskLayout`, `BlockBitmap`, `InodeTable`, `FileLayer`, `FileBlocks`, `FileTheorems`, `FileRuns`,
`FileServer`).  A disk of 32768 blocks, the bitmap with its truncated byte index, the inode table,
files of up to 160 blocks.  The image refines a map from inode number to type and bytes.  `FileServer` has the
disk array and the loops that overwrite it.

## Assumptions

- Client nonces are distinct and not 0, server nonces are distinct and not 0, replies are not forged,
  xids do not wrap around.
- A handler returns a value >= 0; the bind handler returns the server's nonce.
- `PollMgr`: condition waits of removers have no spurious wakeups.
- `Removals`: the bound counts the poll thread's own steps; that it is scheduled, and gets a free lock, is assumed.
- `Connections`: a thread that calls a connection's methods holds a reference to it, a connection
  under construction is known to its constructor only, and it is destroyed when it is dead, its
  lock is free and the last reference is gone (`rpc/connection.cc:83-100`); the system hands out
  descriptor numbers that are not in use.
- `Framing`: messages have 24 bytes at least and fewer than 2^31; a sender's buffer is not changed
  by others while it is being sent.
- `ThrPool`: handlers return, and the destructor is called only when no other thread uses the pool,
  as the program demands.
- `Timeouts`: the clock is monotone and stands after the first second of the epoch; timeouts are
  between 0 and 2^30 ms.
- `FileRuns`: creation and writing of inodes 1 to 1022; a write starts from at most 32 blocks and keeps or
  raises the block count; the bits it needs are free.  Structures on disk are little-endian, and
  the two padding bytes of an inode are zero.
- In all of it `int` is unbounded; where a width matters it is written out.

Where the code and its comments disagree the model follows the code: `rpc/rpc.cc:650-652` says that
entries up to `xid_rep` are deleted, but line 701 keeps the one equal to it, and the proofs rest on that.

## Model

| member | source | states |
|---|---|---|
| `AckWindow.UpdateExact` | rpc/rpc.cc:385-408 | one report, repeated or not, keeps the list sorted and exactly the finished xids above its front, and never lowers the front |
| `AckWindow.UpdateAllExact` | rpc/rpc.cc:385-408 | after any sequence of reports, in any order and with repeats, the list that began as [0] describes exactly the reported xids |
| `AckWindow.FrontIsLargest` | rpc/rpc.cc:385-408 | the front is the largest F with all of 1..F finished |
| `AckWindow.FrontDependsOnSetOnly` | rpc/rpc.cc:385-408 | two orders of the same reports acknowledge the same |
| `AckWindow.CompressPops` | rpc/rpc.cc:402-407 | popping the front, while its successor is at an iterator further on, is a step of compression, and what is known of the elements the iterator passed stays true |
| `RpcClient.Rpcc.constructor` | rpc/rpc.cc:101-129 | a new client: xid 1, window [0], not bound |
| `RpcClient.Rpcc.UpdateXidRep` | rpc/rpc.cc:385-408 | the in-place list update computes the window function |
| `RpcClient.Rpcc.Compress` | rpc/rpc.cc:402-407 | the two nested loops compute full compression, without an iterator ever being invalidated |
| `RpcClient.Rpcc.BeginCall` | rpc/rpc.cc:195-215 | refused when not bound or bound twice, or when being cancelled; otherwise the request carries the procedure and the arguments that were passed, a new xid, the client's two nonces and the front of its window, and its caller waits |
| `RpcClient.Rpcc.TakeDuplicate` | rpc/rpc.cc:230-238 | the saved duplicate is taken exactly when the acknowledged xid is above it |
| `RpcClient.Rpcc.GotPdu` | rpc/rpc.cc:348-382 | acknowledges the xid, and fills the caller only if it exists and has no answer yet |
| `RpcClient.Rpcc.EndCall` | rpc/rpc.cc:286-293 | the caller leaves, its xid is reported finished even after a timeout, and the result is its answer or the timeout code |
| `RpcClient.Rpcc.EndBind` | rpc/rpc.cc:146-160 | a successful bind makes the client bound to the nonce it was answered, the step BindDone of the protocol; any other result changes nothing |
| `RpcClient.Rpcc.SaveDuplicate` | rpc/rpc.cc:300-309 | keeps one finished request, and the largest acknowledgement sent |
| `RpcClient.ReportAll` | rpc/rpc.cc:385-408 | a whole series of in-place updates leaves the window exact |
| `ReplyWindow.ClassifyMeaning` | rpc/rpc.cc:670-685 | each of the four answers, both directions, in terms of the remembered xids and the front |
| `ReplyWindow.AdmitMeaning` | rpc/rpc.cc:687-697 | insertion keeps the list sorted and adds exactly one entry without reply |
| `ReplyWindow.TrimMeaning` | rpc/rpc.cc:699-704 | exactly the entries below xid_rep leave, so the one equal to it stays |
| `ReplyWindow.CheckMeaning` | rpc/rpc.cc:660-707 | a NEW request enters, what it acknowledges leaves, the front only rises, and stays if it was not below xid_rep |
| `ReplyWindow.StoreMeaning` | rpc/rpc.cc:715-728 | a reply is stored at its xid and nowhere else |
| `ReplyWindow.AdmissionCutsOffNothingIff` | rpc/rpc.cc:682-704 | a NEW request leaves all xids above its xid_rep as admissible as before if and only if the window holds a sentinel for xid_rep |
| `ReplyWindow.AdmissibleAfterIffGuarded` | rpc/rpc.cc:682-704 | after a NEW request an xid is admissible if and only if the window or the request itself holds an xid between xid_rep and it |
| `ReplyWindow.SentinelGuards` | rpc/rpc.cc:699-704 | a sentinel guards every admissible xid above xid_rep |
| `RpcServer.Rpcs.CheckDuplicateAndUpdate` | rpc/rpc.cc:659-707 | answer and new list are those of the window functions, with the >= of line 701 |
| `RpcServer.Rpcs.Search` | rpc/rpc.cc:671-680 | the position of the entry with this xid |
| `RpcServer.Rpcs.InsertEntry` | rpc/rpc.cc:687-697 | the sorted insertion |
| `RpcServer.Rpcs.EraseBelow` | rpc/rpc.cc:699-704 | the erased prefix |
| `RpcServer.Rpcs.AddReply` | rpc/rpc.cc:714-728 | every entry of the xid remembers the reply, the list is otherwise unchanged |
| `RpcServer.Rpcs.Dispatch` | rpc/rpc.cc:517-531 | what dispatch decides: old incarnation refused, else run, ignore, replay or refuse as forgotten |
| `RpcTheorems.RunKeeps` | rpc/rpc.cc:189-323 | every step of clients, network, dispatch threads and restarts keeps the invariant that ties client state, headers in flight and server windows together |
| `RpcTheorems.RunExtends` | rpc/rpc.cc:498-643 | history only grows: requests, admissions, executions and results are never rewritten |
| `RpcTheorems.AtMostOncePerIncarnation` | rpc/rpc.cc:659-707 | no (client, xid) is answered NEW twice by one incarnation, over every interleaving, loss, duplication and reordering |
| `RpcTheorems.AtMostOnceAcrossRestarts` | rpc/rpc.cc:523-531 | a request other than bind is answered NEW at most once over any number of restarts |
| `RpcTheorems.SameRequest` | rpc/rpc.cc:208-213 | all copies of a request carry the same header and arguments |
| `RpcTheorems.EndToEnd` | rpc/rpc.cc:591-633 | a call that returned a value >= 0 holds what the handler returned in an execution that ran with the procedure and arguments its caller gave, and unless it was a bind that execution is the only one |
| `RpcTheorems.RequestCarriesCall` | rpc/rpc.cc:208-214 | in every state after a call the request issued under its xid has the procedure and arguments it was made with, and what the client knew at that moment in its header |
| `RpcTheorems.IssuedByCall` | rpc/rpc.cc:208-214 | every issued request goes back to one call of its client |
| `RpcTheorems.ProducedByHandler` | rpc/rpc.cc:591-610 | every recorded reply is what a handler returned |
| `RpcProgress.WaitingCallCanBeAnswered` | rpc/rpc.cc:224-323 | from every reachable state, the request of a waiting call that would be told NEW can be sent, executed and answered with whatever the handler returns, and the caller returns with exactly that |
| `RpcProgress.StoredReplyCanBeHad` | rpc/rpc.cc:631-633 | a waiting call whose reply is stored can return with it, without another execution |
| `RpcProgress.DuplicateIsSent` | rpc/rpc.cc:232-241 | the request saved by lossy testing is sent once and then no longer saved |
| `RpcTheorems.OneExecution` | rpc/rpc.cc:523-531 | a non-bind call has at most one execution in the whole history |
| `RpcTheorems.AnswerIsFinal` | rpc/rpc.cc:369-379 | once a caller has its answer nothing later changes it |
| `RpcTheorems.WaitingCallIsRemembered` | rpc/rpc.cc:699-704 | while a caller waits, the running server still has the entry of its admitted request, whatever other calls time out |
| `RpcTheorems.StoredReplyIsReplayed` | rpc/rpc.cc:671-680 | once a reply is stored, every retransmission by a still waiting caller is answered with the same bytes |
| `RpcClientSteps.BindCarriesNonce` | rpc/rpc.cc:146-160 | a bind that returned 0 carries the nonce of the incarnation that executed it |
| `RpcOneIncarnation.RunFronts` | rpc/rpc.cc:699-704 | within an incarnation no client front and no server front ever moves down |
| `RpcDuplicates.AnsweredIsNeverNew` | rpc/rpc.cc:659-707 | once the caller of a non-bind call has an answer, no incarnation is told NEW for it again, over any number of restarts |
| `RpcDuplicates.LossyDuplicateIsNeverNew` | rpc/rpc.cc:230-238 | so neither is the deliberate duplicate of a non-bind call |
| `RpcDuplicates.LossyDuplicateIsForgotten` | rpc/rpc.cc:230-238 | for a client whose whole life lies in one incarnation, which without restarts is every client, that incarnation answers the duplicate FORGOTTEN from the moment it may be sent |
| `RpcDuplicates.DuplicateReplyChangesNothing` | rpc/rpc.cc:348-382 | a reply to that duplicate changes no caller and no acknowledgement window |
| `RpcLiveCalls.SentinelsKeepLiveCalls` | rpc/rpc.cc:682-704 | if every admission finds a sentinel in the window, no waiting call is answered FORGOTTEN, with timeouts and restarts allowed |
| `RpcLiveCalls.LiveCallsKeptIffSpared` | rpc/rpc.cc:522-707 | in every run, with any timeouts, restarts and binds: in no state would the request of a waiting call be answered FORGOTTEN, the nonce test included, if and only if every admission guards all waiting calls of its client that pass that test |
| `RpcLiveCalls.LiveIffSpared` | rpc/rpc.cc:659-707 | the same at the level of the windows, for all waiting calls and for those that pass the nonce test |
| `RpcLiveCalls.UnguardedCallIsLost` | rpc/rpc.cc:682-704 | a waiting call with a valid nonce that an admission does not guard would be answered FORGOTTEN right after it, and as long as it waits and the incarnation lasts |
| `RpcLiveCalls.LostCallIsAnswered` | rpc/rpc.cc:634-640 | sending and dispatching the request of such a call puts the reply FORGOTTEN to its caller, who still waits, into the network |
| `RpcLiveCalls.MissingSentinelCutsOff` | rpc/rpc.cc:682-704 | an admission without sentinel makes the xid right above its xid_rep FORGOTTEN for the rest of the incarnation, whether or not a call of that number waits |
| `RpcCalmRuns.NoLiveCallIsForgotten` | rpc/rpc.cc:683-685 | with one incarnation, one bind issued first and no timeouts, a waiting call is never answered FORGOTTEN |
| `RpcCalmRuns.CalmRunHasSentinels` | rpc/rpc.cc:699-704 | those runs leave a sentinel at every admission |
| `RpcCalmRuns.FrontIsLargestAcknowledged` | rpc/rpc.cc:699-704 | in those runs the server front is the largest xid_rep admitted, or 1 |
| `RpcTimeoutExample.ATimeoutForgetsALiveCall` | rpc/rpc.cc:286-293 | a concrete run in which one timeout makes the server answer FORGOTTEN to another, still waiting call |
| `RpcRebindExample.ARebindForgetsALiveCall` | rpc/rpc.cc:522-531 | a run in which every caller that returned had an answer, and still a waiting call with the nonce of the running server would be answered FORGOTTEN: a call refused as OLDSRV was acknowledged |
| `Wire.Pack32RoundTrip` | rpc/rpc.cc:851-867 | four big-endian bytes read back as the integer |
| `Codec.UnsignedRoundTrip` | rpc/rpc.cc:817-826 | an unsigned integer of any width reads back |
| `Codec.SignedRoundTrip` | rpc/rpc.cc:828-833 | a signed integer survives the casts to and from unsigned |
| `Codec.InsertAllAscending` | rpc/marshall.h:245-259 | entries of an ordered map, inserted as they arrive, rebuild that map |
| `Codec.RoundTrip` | rpc/rpc.cc:780-849 | every value of bool, integers, strings, nested vectors and maps reads back, with the index exactly behind it, whatever bytes precede and follow |
| `Codec.ArgsRoundTrip` | rpc/rpc.cc:780-849 | the same for argument lists |
| `Codec.WholeListIsDone` | rpc/rpc.cc:880-888 | reading a whole argument list back ends with okdone() |
| `CodecTypes.DecodeHasType` | rpc/rpc.cc:901-993 | whatever bytes arrive, and whether or not they suffice, unmarshalling yields a value of the type asked for, maps with strictly ascending keys included |
| `CodecTypes.InsertAllLookup` | rpc/marshall.h:245-259 | of several entries sent for one key the last one counts |
| `CodecTypes.StringReads` | rpc/rpc.cc:969-993 | a string reads as the bytes its length announces; if they are missing it is empty, the reader has failed and stays behind the length |
| `CodecTypes.DigitAt` | rpc/rpc.cc:802-826 | byte i of an integer of w bytes has the weight 256 to the w - 1 - i |
| `CodecTypes.KeyOrder` | rpc/marshall.h:233-243 | numbers ascend, false comes before true, a prefix before the longer string |
| `CodecPrefix.DecodeAhead` | rpc/rpc.cc:890-990 | a successful read does not depend on the bytes behind what it consumed, and a failed reader stays failed |
| `CodecPrefix.CutShortIsRejected` | rpc/rpc.cc:890-990 | no proper prefix of an argument list is read successfully |
| `CodecPrefix.AcceptsExactly` | rpc/rpc.cc:880-888 | of all shortened or lengthened copies of a list okdone() accepts only the list itself |
| `Marshall.Marshaller.constructor` | rpc/marshall.h:58-63 | a buffer of 1024 bytes with the index behind the header space |
| `Marshall.Marshaller.RawByte` | rpc/rpc.cc:755-765 | one byte written, the capacity doubled when full, all other bytes kept |
| `Marshall.Marshaller.RawBytes` | rpc/rpc.cc:767-778 | n bytes written, the capacity grown to fit, all other bytes kept |
| `Marshall.Marshaller.Pack` | rpc/rpc.cc:851-858 | four bytes, most significant first |
| `Marshall.Marshaller.PutShort` | rpc/rpc.cc:802-808 | two bytes |
| `Marshall.Marshaller.PutLong` | rpc/rpc.cc:843-849 | the high half, then the low half |
| `Marshall.Halves` | rpc/rpc.cc:843-849 | the two halves together are the eight big-endian bytes |
| `Marshall.Marshaller.Put` | rpc/rpc.cc:780-849 | marshalling a value writes its bytes behind the contents and disturbs nothing before or beyond |
| `Marshall.Marshaller.PutItems` | rpc/marshall.h:211-218 | the vector and map loops |
| `Marshall.Marshaller.PackReqHeader` | rpc/marshall.h:83-96 | twenty bytes behind the length field, the index restored, every other byte kept |
| `Marshall.Marshaller.PackReplyHeader` | rpc/marshall.h:98-108 | eight bytes behind the length field, the index restored, every other byte kept |
| `Marshall.WroteAtEnd` | rpc/rpc.cc:755-778 | writing at the index appends to the contents |
| `Unmarshall.Unmarshaller.RawByte` | rpc/rpc.cc:890-899 | one byte, or zero and ok cleared at the end |
| `Unmarshall.Unmarshaller.GetInt` | rpc/rpc.cc:939-957 | four bytes as an unsigned integer |
| `Unmarshall.Unmarshaller.GetLong` | rpc/rpc.cc:959-967 | two halves as eight bytes |
| `Unmarshall.Unmarshaller.GetString` | rpc/rpc.cc:969-990 | a counted string, or an empty one and ok cleared |
| `Unmarshall.Unmarshaller.Get` | rpc/rpc.cc:901-978 | the operators of all types compute the decoding function on any bytes |
| `Unmarshall.Unmarshaller.GetItems` | rpc/marshall.h:220-231 | the vector loop |
| `Unmarshall.Unmarshaller.GetEntries` | rpc/marshall.h:245-259 | the map loop |
| `Unmarshall.Unmarshaller.IsOkDone` | rpc/rpc.cc:880-888 | true exactly for a healthy reader at the end |
| `Unmarshall.Unmarshaller.TakeIn` | rpc/rpc.cc:870-878 | takes the other reader over, from behind the header |
| `Unmarshall.Unmarshaller.UnpackReqHeader` | rpc/marshall.h:175-187 | reads the five fields and leaves the index on the body |
| `Unmarshall.Unmarshaller.UnpackReplyHeader` | rpc/marshall.h:189-198 | reads the two fields and leaves the index on the body |
| `Pdu.WroteIsSetHeader` | rpc/marshall.h:83-108 | packing a header replaces only the header bytes of the message |
| `Pdu.HeaderBeforeOrAfterBody` | rpc/marshall.h:83-108 | packing the header before or after the body gives the same message |
| `Pdu.MessageParts` | rpc/connection.cc:228-231 | header, body and length field of a finished message do not disturb one another |
| `Pdu.RequestLayout` | rpc/marshall.h:175-187 | length, xid, procedure, client nonce, server nonce and xid_rep stand in this order, four bytes each in network order, and the arguments behind them |
| `Pdu.ReplyLayout` | rpc/marshall.h:189-198 | length, xid, the result in two's complement; the value from byte 24 on |
| `Pdu.RequestRoundTrip` | rpc/marshall.h:175-187 | the receiver unpacks the header that was packed, then the arguments, and is done |
| `Pdu.ReplyRoundTrip` | rpc/marshall.h:189-198 | the same for a reply and its result |
| `Pdu.MarshallRequest` | rpc/rpc.cc:189-213 | the marshalling methods, arguments first and header last, leave the message with both in place |
| `Pdu.UnmarshallRequest` | rpc/rpc.cc:501-509 | the unmarshalling methods compute header and arguments of any message, and whether anything is left |
| `Pdu.RequestThroughBuffers` | rpc/marshall.h:175-187 | what the receiver's methods make of what the sender's methods marshalled is the same header and arguments, with nothing left |
| `Pdu.MessagesSurvive` | rpc/marshall.h:83-108 | the requests and replies of the protocol survive the wire, whatever the unused header bytes hold |
| `Connection.Connection.WritePdu` | rpc/connection.cc:222-244 | prefixes the length when nothing is written yet, advances by what write took, and on an error marks the message failed |
| `Connection.Connection.SendStart` | rpc/connection.cc:131-156 | loads the message and makes the first write; an error sets the dead flag and calls for a removal, a partial write for the write callback |
| `Connection.Connection.SendEnd` | rpc/connection.cc:161-166 | true only on a live connection with the whole message written; the turn is given up, with a broadcast if senders wait |
| `Connection.Connection.CloseConn` | rpc/connection.cc:66-81 | the first to set the dead flag calls for the removal, nobody else |
| `Connection.Connection.WriteCb` | rpc/connection.cc:170-190 | continues the message in progress, or sets the dead flag; unregisters when idle or failed, and signals the sender when its message is complete or failed |
| `Connection.Connection.ReadPdu` | rpc/connection.cc:246-296 | the length in one piece, then some of the body; fails in exactly the cases of Channel.ReadPduFailsIff and otherwise keeps every byte |
| `Connection.Connection.ReadCb` | rpc/connection.cc:193-220 | hands over a complete message if the manager takes it, and otherwise keeps it for the next time; exactly a failed read sets the dead flag, unregisters and signals |
| `Framing.WritePduKeeps` | rpc/connection.cc:222-244 | after any write the stream holds the earlier messages and the written part of the current one |
| `Framing.ReadPduKeeps` | rpc/connection.cc:246-296 | after any read the receiver holds exactly the part of the next message that it took from the stream |
| `Framing.Delivered` | rpc/connection.cc:213-219 | a complete message in the buffer is byte for byte the next one put on the wire |
| `FramingTheorems.RunKeeps` | rpc/connection.cc:123-296 | every step of senders, callbacks, failures and reads keeps these invariants |
| `FramingTheorems.AcceptedArePrefix` | rpc/connection.cc:193-220 | the messages accepted are a prefix of those put on the wire, in order, each once |
| `FramingTheorems.SendTrueMeansWritten` | rpc/connection.cc:123-167 | a message is put on the wire by one call only, and after send returned true every byte of it is there |
| `FramingTheorems.NothingIsLost` | rpc/connection.cc:193-296 | accepted messages and the part held are all that was taken from the stream; when all of an idle live sender was read, all was accepted |
| `FramingTheorems.DeadIffKilled` | rpc/connection.cc:66-296 | in every run an end is dead exactly when it was closed from outside or a system call of it failed for good; an EAGAIN, a short write, a message in pieces or a refusal of the manager never does it |
| `FramingTheorems.UnkilledLosesNothing` | rpc/connection.cc:193-296 | so the same for every receiver that nothing killed, without assuming it is live |
| `FramingTheorems.SendSucceeds` | rpc/connection.cc:123-167 | on a connection that nothing killed every send that came back returned true |
| `Channel.ReadPduFailsIff` | rpc/connection.cc:246-296 | a read fails exactly when the length does not come in one piece or is too large, or the body read gives nothing without EAGAIN; otherwise the receiver holds all it had and all it took |
| `Channel.ReadCbOutcome` | rpc/connection.cc:193-220 | the connection dies exactly when such a read is made and fails; a message is handed over exactly when it is complete and the manager takes it |
| `Channel.WritePduFailsIff` | rpc/connection.cc:222-244 | a write fails exactly when there was something to write and the error is not EAGAIN; otherwise the counter moves by what was taken |
| `Fifo.Queue.EnqPass` | rpc/fifo.h:56-72 | accepted exactly when the queue has no limit or is below it, then last in the queue and a consumer signalled; otherwise asleep if blocking and refused if not |
| `Fifo.EnqAccepts` | rpc/fifo.h:56-72 | the same as a law of the queue |
| `Fifo.Queue.DeqPass` | rpc/fifo.h:74-92 | one passage through deq: the oldest element and a producer signalled, or asleep |
| `Fifo.DeqHandsOut` | rpc/fifo.h:74-92 | the oldest element comes out whenever there is one, with a producer signalled if the queue is below its limit; otherwise the consumer sleeps |
| `Fifo.EnqKeeps` | rpc/fifo.h:56-72 | enq keeps the no-lost-wakeup and capacity invariant |
| `Fifo.DeqKeeps` | rpc/fifo.h:74-92 | so does deq |
| `Fifo.RunKeeps` | rpc/fifo.h:56-92 | in every run sleeping consumers imply items <= signalled consumers, sleeping producers imply free slots <= signalled producers, the capacity holds and the order is first in, first out |
| `Fifo.NobodySleepsForNothing` | rpc/fifo.h:56-92 | nobody sleeps beside an element or a free slot unless another thread is on its way to it |
| `ThrPool.RunKeeps` | rpc/thr_pool.cc:7-70 | in every run jobs precede pills in the queue, and every exited worker took exactly one pill |
| `ThrPoolTheorems.AddJobAnswers` | rpc/thr_pool.cc:22-68 | in every run a job is refused exactly when the pool does not block and 100 jobs per worker are queued, waits exactly when it blocks and so many are, and otherwise is queued last; a pool of no workers queues without limit |
| `ThrPoolTheorems.TakeOutcome` | rpc/thr_pool.cc:6-19 | a worker takes the oldest item whenever there is one; a job it runs, a pill ends it |
| `ThrPoolTheorems.PillsConserved` | rpc/thr_pool.cc:38-51 | pills put = workers exited + pills in the queue |
| `ThrPoolTheorems.DoneMeansDrained` | rpc/thr_pool.cc:38-51 | after the destructor every worker has exited on one pill and the queue is empty if and only if there was a worker or no job |
| `ThrPoolTheorems.RunDrains` | rpc/thr_pool.cc:38-51 | the same for every run, with every accepted job taken once and in order |
| `ThrPoolTheorems.NotStuck` | rpc/thr_pool.cc:38-51 | until the destructor is through some thread can go on: no deadlock on the bounded queue |
| `ThrPoolTheorems.StepShrinks` | rpc/thr_pool.cc:38-70 | each step of the shutdown brings its end nearer |
| `ThrPoolTheorems.ShutdownEnds` | rpc/thr_pool.cc:38-51 | the shutdown takes a bounded number of steps, and where it can go no further it is done |
| `SelectAio.SelectAIO.WatchFd` | rpc/pollmgr.cc:149-167 | the sets grow, highfds stays the largest watched descriptor, a wakeup byte is written |
| `SelectAio.SelectAIO.UnwatchFd` | rpc/pollmgr.cc:182-215 | the sets shrink, the loop finds the new largest descriptor, and the answer says whether nothing is watched any more |
| `SelectAio.SelectAIO.Collect` | rpc/pollmgr.cc:238-256 | the two lists of ready descriptors, with one byte of the pipe drained |
| `SelectAio.ListedMeaning` | rpc/pollmgr.cc:238-256 | the lists name every ready descriptor in range once and in order, without the pipe |
| `SelectAio.NoneMissed` | rpc/pollmgr.cc:217-240 | looking only up to highfds misses no ready descriptor |
| `SelectAio.Manager.AddCallback` | rpc/pollmgr.cc:45-55 | watches and registers |
| `SelectAio.Manager.DelCallback` | rpc/pollmgr.cc:70-77 | unregisters only when nothing of the descriptor is watched any more |
| `SelectAio.Manager.BeginRemove` | rpc/pollmgr.cc:60-66 | unwatches both directions and asks the poll thread for a broadcast |
| `PollMgr.RunKeeps` | rpc/pollmgr.cc:89-126 | the invariant behind removal holds in every run of the poll loop with any adders and removers |
| `PollMgr.RemovedIsQuiet` | rpc/pollmgr.cc:57-68 | for callers that keep the discipline: after block_remove_fd has returned no callback of the descriptor is running or will start until it is opened again |
| `PollMgr.CheckedCallbackStays` | rpc/pollmgr.cc:111-124 | the poll thread never calls through a callback that vanished after it was looked at |
| `PollMgr.RemoversAreWoken` | rpc/pollmgr.cc:89-101 | while a remover waits a broadcast is due that wakes all of them, and a blocked select has a byte to return on |
| `PollMgr.ListedIsLookedAt` | rpc/pollmgr.cc:104-124 | a descriptor that select lists stays on the list until the loop looks at it, and if it has a callback then, that is chosen |
| `PollMgr.RoundIsComplete` | rpc/pollmgr.cc:104-124 | when the loop is back at its top, every descriptor of the round has been looked at |
| `Connections.ConnectionsAreDisciplined` | rpc/connection.cc:123-220 | connections add callbacks only while alive, remove only when dead, delete only in their own callbacks, and never share a descriptor with a removal under way |
| `Connections.RunKeeps` | rpc/connection.cc:66-220 | who holds which lock, who is about to remove what, and which callbacks are registered fit together in every run of any number of connections and threads |
| `Connections.RunIsPollRun` | rpc/connection.cc:66-220 | every run of connections is, step by step, a run of the poll manager |
| `Connections.ClosedIsQuiet` | rpc/connection.cc:66-81 | after block_remove_fd has returned to closeconn or send, no callback of the descriptor is running or will start until a new connection gets it; nothing is assumed of the callers |
| `Connections.CallbacksFindTheirConnection` | rpc/pollmgr.cc:111-124 | a callback is only chosen and run on a connection that exists and is fully built |
| `Connections.DestroyedIsUnregistered` | rpc/connection.cc:83-100 | a connection that is destroyed has no callback left, registered, chosen or running |
| `Connections.NewConnectionFindsNoCallback` | rpc/pollmgr.cc:53-54 | the check in add_callback holds for a new connection: none is left over from an earlier one of the same descriptor |
| `ConnectionMethods.Sends` | rpc/connection.cc:126-166 | the region of send from its turn on takes the step of the machine: counters, waiters, bytes, the call to the poll manager it goes on with, and the broadcast if it was all |
| `ConnectionMethods.Ends` | rpc/connection.cc:161-166 | so does the end of send after its wait or a removal, with its result and the broadcast |
| `ConnectionMethods.Closes` | rpc/connection.cc:66-81 | so does closeconn, with the removal it goes on with |
| `ConnectionMethods.Writes` | rpc/connection.cc:170-190 | write_cb is the steps of the machine up to where it gives up its lock: bytes, the del_callback, the dead flag, the signal |
| `ConnectionMethods.Reads` | rpc/connection.cc:193-220 | so is read_cb, for every outcome of the reads |
| `ConnectionFrames.OutgoingIsFraming` | rpc/connection.cc:123-244 | in every run, what happens on a connection from its construction on is a run of Framing with the same counters, the same threads in send and the same bytes written |
| `ConnectionFrames.WritesFrames` | rpc/connection.cc:222-244 | at any time what a connection has written is whole frames and perhaps part of one more; whole frames only when it is live and idle |
| `ConnectionFrames.SendTrueIsWritten` | rpc/connection.cc:157-166 | a send about to return true after its wait has written all of its message, as the last of the whole frames so far |
| `Removals.AlwaysWritable` | rpc/connection.cc:222-244 | what write_cb is called on is always a buffer with valid counters |
| `Removals.RemovalGoesOn` | rpc/pollmgr.cc:60-68 | while a thread has a removal before it, it or the poll thread can make a step, or the thread that holds the lock the poll thread needs; unless write_cb has aborted |
| `Removals.RemovalIsBounded` | rpc/pollmgr.cc:89-126 | while a thread waits in block_remove_fd, whatever other threads do, select returns once at most and the steps of the poll thread are bounded by what it listed |
| `Watching.LiveIsWatched` | rpc/connection.cc:46-153 | in every run a live connection is registered and watched for reading, and for writing as long as a sender on it waits for bytes not yet written |
| `SenderWakeups.RunSleepInv` | rpc/connection.cc:123-220 | in every run: the buffer is in use exactly while one thread has its turn, waiters_ counts those who wait for one, nobody waits for a turn beside a free buffer, and who sleeps beside a finished message will be signalled or has a dead connection |
| `SenderWakeups.BroadcastWakes` | rpc/connection.cc:164-165 | giving up a turn wakes every thread that waits for one, although it looks at waiters_ first |
| `LostWakeups.NobodyStrandedIff` | rpc/connection.cc:66-81 | in every run: no sender is left asleep beside a complete or failed message with no signal due if and only if every closeconn that sets the dead flag finds no sender asleep for completion |
| `LostWakeups.SleepersAreSeenTo` | rpc/connection.cc:128-158 | in such a run every sleeping sender, or the one whose turn it waits for, is awake, has something left to write, or has a signal due |
| `LostWakeups.StrandedForGood` | rpc/connection.cc:66-81 | otherwise the sender and all who wait for a turn behind it sleep on in every later state, short of spurious wakeups |
| `LostWakeups.CloseLosesSenders` | rpc/connection.cc:66-81 | a run in which closeconn strands one sender and a second one behind it |
| `Timeouts.CompareIsRight` | rpc/rpc.cc:1040-1055 | right on all strictly ordered times; on equal ones right exactly when they are written alike |
| `Timeouts.EqualTimesCompareUnequal` | rpc/rpc.cc:1040-1055 | two ways to write one time, which compare as different |
| `Timeouts.AddTimespec` | rpc/rpc.cc:1057-1068 | exact for every non-negative timeout, with nsec at most 10^9 |
| `Timeouts.UnansweredCall` | rpc/rpc.cc:217-284 | each wait ends when it is due, one second doubled every time after the clock is read, up to the first that would pass the final deadline, which ends there and is the last; the request is sent at first and after each wait that finds the connection lost; the timeout stays within an int |
| `Timeouts.ScheduleIsUnique` | rpc/rpc.cc:252-284 | there is only one such series of waits |
| `Timeouts.PunctualWaits` | rpc/rpc.cc:252-284 | with a punctual clock there are exactly floor(log2(to/1000 + 1)) + 1 waits, ending 1, 3, 7, ... seconds after the start |
| `Timeouts.ScheduleIsGood` | rpc/rpc.cc:252-284 | however late the clock is read, there are never more than that, and none ends after the final deadline |
| `DiskLayout.InodeBlocksEndBeforeData` | inode_manager.h:54-67 | inode blocks keep clear of the data region exactly up to inode 1022 |
| `DiskLayout.SetBitSetsOneBit` | inode_manager.cc:49-56 | setting a bit of a bitmap byte sets that one, counted from the top, and no other |
| `DiskLayout.WordsRoundTrip` | inode_manager.cc:299-302 | a table of block numbers written to a block reads back |
| `DiskLayout.Regions` | inode_manager.h:54-67 | where bitmap, inodes and data begin |
| `DiskLayout.BitWeight` | inode_manager.cc:49-56 | bit k of a bitmap byte counts from the most significant |
| `BlockBitmap.SameBitMeaning` | inode_manager.cc:49-51 | with the byte index truncated to eight bits two blocks share a bit exactly when they are congruent modulo 2048 under one bitmap block |
| `BlockBitmap.MarkMeaning` | inode_manager.cc:54-57 | marking a block marks those that share its bit and no others |
| `BlockBitmap.AllocUsesOneBit` | inode_manager.cc:32-64 | allocation fails exactly when no bit is free, and otherwise uses up one free bit |
| `BlockBitmap.AllocTakesLowest` | inode_manager.cc:32-64 | the lowest data block whose bit is clear is handed out and marked; with none the disk stays as it is |
| `BlockBitmap.AllocManyFresh` | inode_manager.cc:32-64 | k allocations with k free bits return k different blocks of the data region that were free |
| `BlockBitmap.AllocNeverRepeats` | inode_manager.cc:32-64 | in a series of allocations no id other than 0 is returned twice |
| `FileRuns.RunKeepsBits` | inode_manager.cc:32-64 | along every run of creations and writes no allocation bit is ever cleared |
| `FileRuns.RunNeverReallocates` | inode_manager.cc:32-64 | a block once marked is never returned by an allocation in any later state, whatever comes in between |
| `InodeTable.PutThenGet` | inode_manager.cc:173-215 | writing one inode and reading any: the one written, all others unchanged |
| `FileLayer.ReadFileReadsFile` | inode_manager.cc:221-256 | read_file returns the abstract content with its exact size |
| `FileTheorems.NewInodeExtends` | inode_manager.cc:282-305 | the allocation branch gives the file its old blocks and then fresh ones, all different |
| `FileBlocks.GrowTakesInOrder` | inode_manager.cc:283-305 | a growing file takes its blocks from successive allocations: direct blocks, the indirect block, then the blocks that it names |
| `FileTheorems.DataWritten` | inode_manager.cc:329-347 | the data loops leave the file reading back what was written, across the direct and indirect part |
| `FileTheorems.WriteEffect` | inode_manager.cc:259-348 | a handled write changes the bitmap, its inode and its own blocks, and nothing else |
| `FileTheorems.WriteThenRead` | inode_manager.cc:259-348 | after a write the file holds exactly the bytes written, every other file reads as before, and block ownership holds |
| `FileTheorems.CreateMakesEmptyFile` | inode_manager.cc:124-148 | creation takes the lowest free number, makes an empty file of the type asked for and changes no other |
| `FileRuns.StepRefines` | inode_manager.cc:124-348 | each operation on the disk is the same operation on a map from number to type and bytes |
| `FileRuns.RunKeepsOwnership` | inode_manager.cc:283-305 | in every reachable state all block references are distinct, in the data region and marked |
| `FileRuns.RunRefines` | inode_manager.cc:124-348 | after every run the disk holds file by file what the map holds |
| `FileRuns.RunReadsBack` | inode_manager.cc:221-256 | after every run read_file returns the exact size and bytes of the map, or nothing, and the type is that of the map |
| `FileRuns.TypeIsForever` | inode_manager.cc:124-148 | the type a file was created with is the type it has after all later creations and writes |
| `FileRuns.RootIsDirectory` | inode_manager.cc:112-120 | the root, created first, is a directory in every later state |
| `FileServer.Disk.constructor` | inode_manager.cc:5-8 | a zeroed disk |
| `FileServer.Disk.ReadBlock` | inode_manager.cc:10-17 | a block, or the buffer unchanged outside the disk |
| `FileServer.Disk.WriteBlock` | inode_manager.cc:19-26 | one block replaced, or nothing outside the disk |
| `FileServer.BlockManager.AllocBlock` | inode_manager.cc:32-64 | the nested scan of the bitmap blocks computes the allocation function |
| `FileServer.InodeManager.constructor` | inode_manager.cc:112-120 | the fresh file system has the root directory as inode 1, of type T_DIR and empty |
| `FileServer.InodeManager.GetInode` | inode_manager.cc:173-199 | the inode, or none when out of range or free |
| `FileServer.InodeManager.PutInode` | inode_manager.cc:201-215 | one inode of a block overwritten in place |
| `FileServer.InodeManager.AllocInode` | inode_manager.cc:124-148 | a free number gets an inode of the given type and size 0, or none is free and the disk stays as it is |
| `FileServer.AllocThenGet` | inode_manager.cc:124-199 | what was created is found again with its type, unless the type is 0 in sixteen bits |
| `FileServer.InodeManager.ReadFile` | inode_manager.cc:221-256 | the two reading loops collect the blocks of the file in order |
| `FileServer.InodeManager.Grow` | inode_manager.cc:282-305 | the allocating loops, direct and indirect |
| `FileServer.InodeManager.WriteData` | inode_manager.cc:329-347 | the two writing loops |
| `FileServer.InodeManager.WriteFile` | inode_manager.cc:259-348 | the whole of write_file on the disk array |

## Left out

- `rpcc::cancel` beyond its refusal of new calls, reachability flags, statistics: noise in the state of the protocol.
- Clients with nonce 0 in the protocol machine: they ask for no at-most-once semantics.
- Reference counts of connections, and the freeing of reply buffers: `dispatch` returns at line 530 of
  `rpc/rpc.cc` without `decref`, and line 704 erases entries without freeing their buffers.
- Freeing of blocks, shrinking, `remove_file`, and rewriting of files above 32 blocks: the free path does not
  clear the intended bit, and the unsigned subtractions at `inode_manager.cc:285` and `:308` underflow.
- Inode 1023, whose block is also the first data block, and writes on a full disk.
- `getattr` and the timestamps of inodes: easy members.
- Sockets, accepting connections, `select` itself, thread creation, logging, clocks, random numbers: parameters
  or nondeterministic steps.
- `EPollAIO`: not used by the program.
- `extent_client`, `extent_server` and the call and registration templates: thin wrappers.
- Unmarshalling into a vector that already holds elements, which appends to them.
- FileServer.InodeManager.ReadFile: does not model inodes that name blocks outside the disk or more than 160 blocks: the code then returns uninitialised memory or reads past its table; no run of creations and handled writes makes one.
- FileServer.InodeManager.Grow: does not model growth of a file already above 32 blocks, where `inode_manager.cc:285` underflows.
- FileServer.InodeManager.WriteFile: does not model writes outside the handled ones, because the code does not do there what it intends.
- Unmarshall.Unmarshaller.GetString: does not model the wrap-around of `_ind + n` at `rpc/rpc.cc:982` for a length near 2^32.
- Connection.Connection.ReadPdu: a length with its top bit set counts as too big; the program would take it as negative, but no sender of it exists.
- Fifo.Queue.EnqPass: a blocking enq is a series of such passages; the wait between them is a step of the machine, not of the method, and likewise for deq.
- Connection.Connection.SendStart: the deliberate shutdown of lossy testing shows only as later failures of the system calls.
- Connections.RunKeeps: in `write_cb` the program aborts at `VERIFY(!dead_)` (`rpc/connection.cc:174`) if closeconn or a failed send set the flag after the poll thread chose the callback; that can happen, and such a run has no further step of the callback in `Connections` and in `Framing`; Removals.RemovalGoesOn excludes exactly that state.
- LostWakeups.NobodyStrandedIff: the signal of `send_complete_` wakes all who wait for completion of that connection; SenderWakeups.RunSleepInv shows that there is one at most.
- SelectAio.Manager.AddCallback: the limit of 128 descriptors and the check for another connection's callback are left to the callers; for the latter see Connections.NewConnectionFindsNoCallback.
- Marshall.Marshaller.RawBytes: does not model overflow of the capacity beyond 2^31.
- Connection: buffers are values rather than pointers, so a buffer shared between connections is not modelled.
- RpcServer.Rpcs.Dispatch: covers the decision; running the handler, sending and the choice of connection are steps of the machine.
