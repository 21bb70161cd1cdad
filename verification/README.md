# A verified model of the RPC framework

This project models the framework's request multiplexing, its byte path, its concurrency primitives and
its endpoint selection and registry, and proves what they promise for every input, every run and every
interleaving. `dafny verify dfyconfig.toml` checks all of it.

## How it is built

| file | models |
|---|---|
| `Wire.dfy` | the frame format, the encoder and the two decoders (server with a size cap, client without) |
| `ByteBuffer.dfy` | the index-managed buffer on a real array, its growth rule and its scatter read |
| `TcpConnection.dfy` | output path, write interest, half-close and connection states |
| `Codec.dfy` | decoder loop and encoder on the buffer and connection objects |
| `EventLoop.dfy`, `ThreadPool.dfy` | functor queue with wakeup, worker pool with stop, as step systems |
| `EpollPoller.dfy` | channel bookkeeping against the kernel's interest set |
| `Strings.dfy`, `Decimal.dfy`, `LoadBalancer.dfy`, `Registry.dfy` | splitting at a separator, number printing and parsing, ring and weighted selection, znode tree and registry |
| `RpcServer.dfy`, `RpcClient.dfy`, `RpcSystem.dfy` | server processing, client channel, and both with the byte streams as one step system |
| `RpcRoundTrip.dfy` | what one call comes to, from the caller's arguments to the outcome it finds |
| `ServerLayers.dfy` | the same composition with the server on the worker pool and the event loop, refined to it |

Objects that change in place are classes; each method is proved against a function on values (`View()`
before and after), and the laws are proved about those functions over whole runs. Cross-thread protocols
are step systems: a state, the events enabled in it, and the state after each event; a run is any sequence
of enabled events. Fields described as records (`accepted`, `queued`, `parsed`, `asked`, ...) are written
and never read by a step; `RecordsFollowCalls`, `LoopFollowsEvents` and `PoolFollowsEvents` say from the
operations or events what they hold.

What the environment does is a parameter: the result of each `write`, the bytes each `readv` delivers, the
random draw, the hash function, the outcome of each service call (any relation between a request and an
outcome, so services may be nondeterministic and stateful), and the serializers, of which only "parsing
undoes serializing" is assumed. Of the kernel two things are assumed: a write after `shutdown(SHUT_WR)` takes
no byte and fails with EPIPE, SIGPIPE being ignored (the code does not ignore it, so by default such a write
ends the process), and a write of no bytes may be answered with would-block,
which POSIX leaves open. `RpcSystem.Enabled` holds the other assumptions on the client and server
composition: fewer than 2^32 ids are allocated while a call is unresolved (`RpcClient.IdSequence` says when
ids clash), a client write that does not fail writes the whole frame (`Wire.WholeWritesNeeded` says why),
request bodies are within the 64 MiB cap and response bodies below 2^32 bytes. Replies go through the server's
connection as `TcpConnection.dfy` models it, with partial writes, disconnects and half-close at any moment;
requests go through a plain byte stream. One connection life is modelled.

Where the code and its comments disagree the model follows the code: the poller never asks for
edge-triggered events (its header says it does); the task queue is unbounded (its header says bounded); the
stub's `create` does not create missing parents (its header says so).

Six promises fail at the edge; each has the failing case and the exact condition, for every run.

- Write interest can get stuck on after an empty send, and no write event clears it
  (`EmptySendStrandsInterest`): a live connection has interest exactly when it has output, at every point of a
  run, if and only if no empty send would block on it with nothing to write (`InterestMatchesIff`).
- Bytes that `send` took from another thread are lost when a shutdown on the loop thread half-closes first
  (`HalfCloseLosesCrossThreadSend`): after the half-close of a connection that was not torn down, all that `send`
  took is written if and only if no send was then waiting in the loop's queue with data
  (`HalfCloseLosesIffSendQueued`, which covers torn-down ones as well). From a half-closed connection with no
  output the kernel is ever given bytes that it refuses if and only if a non-empty send is queued with no close
  before it (`SendRefusedIffQueued`).
- Tearing down a disconnecting connection can make it half-close with output unsent
  (`TornDownHalfCloseLosesOutput`): nothing is left unsent if and only if after each earlier teardown that found
  output a queued send was run, which turned the interest on again (`HalfCloseCompleteIff`).
- The first poll, which like every poll is limited to 10 ms, can sleep on pending work
  (`FirstPollCanSleepOnWork`): the loop sleeps on work if and only if no poll has returned yet and the loop
  thread queued it before `loop()` (`SleepsOnWorkIff`).
- With slashes in hosts or service names a refresh can miss an endpoint or return one that nobody registered
  under the service (`SlashedHostFoundElsewhere`, `SlashedNameMakesPhantom`). At every point of a run it gives
  exactly what is registered under the service if and only if every call is proper where it is made
  (`RefreshExactIff`, `Proper`): no host with a slash is registered under the service itself; a call under another
  name whose endpoint lands below the service registers only what is live there and unregisters only what is not;
  and no service name continues the service's by a child with a colon, unless that is a live endpoint of the
  default weight. With slash-free service names that comes down to slash-free live hosts (`RefreshIsExact`).
- A synchronous call can wait forever when the connection closes (`LateCallIsStranded`): once the reader has
  stopped, in whatever way, it may return if and only if the reader swept and the call was in the pending table
  then (`ReleasedIffInTable`).

## Model

| member | source | states |
|---|---|---|
| RpcSystem.CallsGetTheirOwnAnswers | src/rpc/rpc_channel.cpp:124-219 | in every interleaving of callers, chunked streams, connection, server loop, reordering workers and reader, a call's reply is the outcome of an execution of its own request, even among identical concurrent calls, and never an unparsed one; a failure is "write failed" only for its own failed write, "connection closed" only while unanswered with the reader gone, else the server's error for its own request or the failure of an execution of it |
| RpcSystem.ExecutedAtMostOnce | src/rpc/rpc_server.cpp:96-127 | in every interleaving the services execute only requests that calls have written, none more often than written, and none twice as long as at most 2^32 calls were made |
| RpcSystem.RunElsewhere | src/rpc/rpc_server.cpp:102-127 | every run is also a run of the world in which only its own executions are possible, so whatever an answer may be, it was executed in that run |
| RpcSystem.OnceStep | src/rpc/rpc_server.cpp:56-100 | every step keeps each written request frame on its way or parsed, once, and each parsed request queued, running or executed at most once |
| RpcSystem.ReleasedIffInTable | src/rpc/rpc_channel.cpp:75-110 | at every point after the reader has stopped, by a sweep or without one, a synchronous caller that has written and got no answer may return if and only if the reader swept and the call was in the pending table at that moment |
| RpcSystem.LateCallIsStranded | src/rpc/rpc_channel.cpp:131-189 | for every service, method and message, a run in which a call enters the table after the sweep, writes its request and may not return |
| RpcRoundTrip.WrittenFrameIsTheCall | src/rpc/rpc_channel.cpp:137-171 | in every run the bytes a call writes are one frame, whose body parses to the service and method its caller named, the id of its allocation, and arguments that parse to its caller's message |
| RpcRoundTrip.ReplyIsOfTheCall | src/rpc/rpc_channel.cpp:192-210 | in every run a reply a call holds is the outcome of an execution of a request with that service, method, id and message |
| RpcRoundTrip.CallsAreAsStarted | src/rpc/rpc_channel.cpp:124-150 | at every point of every run the calls are those started, in order, with what their callers gave |
| RpcRoundTrip.ReplyIsDelivered | src/rpc/rpc_channel.cpp:192-218 | from any state the system can be in, a whole reply frame at the front of the client's buffer is delivered in four steps to the call whose request it answers, which then has the outcome the response states, its flag, and its closure run once if it has one |
| RpcRoundTrip.RoundTripCompletes | src/rpc/rpc_channel.cpp:124-219 | every run that has come to rest can be continued by one more call, of any registered method with any message, that ends with exactly any given outcome the service may have for it, executed and matched once, the caller returned or the closure run, earlier calls as they were, and the system at rest again |
| RpcRoundTrip.DeliverAccepts | src/rpc/rpc_server.cpp:146-149 | a connected connection accepts exactly the frame of a reply; any other drops it |
| RpcSystem.ConnectionRun | src/net/tcp_connection.cpp:32-148 | in every run of the composition the server's connection goes through a run of its own, with exactly the operations that befell it and the sends of replies between them |
| RpcSystem.StrangeBytes | src/rpc/rpc_channel.cpp:92-105 | a frame that is no response is dropped, and a bad header stops the reader and releases nobody |
| ServerLayers.LayeredCallsGetTheirOwnAnswers | src/rpc/rpc_server.cpp:56-150 | with the server on the worker pool and the event loop, in every interleaving of all threads, every call gets only the outcome of an execution of its own request, completes once, and no request is executed twice while ids have not wrapped |
| ServerLayers.SleepingServerHasAnswered | src/rpc/rpc_server.cpp:96-150 | whenever the loop sleeps in a poll after its first with nobody about to wake it, the unanswered requests are exactly those the pool has queued or is running |
| ServerLayers.RunRefines | src/rpc/rpc_server.cpp:56-150 | every run on pool and loop is, seen from outside, a run of the plain composition |
| ServerLayers.StepRefines | src/rpc/rpc_server.cpp:96-149 | every step of pool and loop is the step of the plain server it stands for, or changes nothing of it |
| ServerLayers.LayersAnswer | src/rpc/rpc_server.cpp:56-150 | from any state at rest pool and loop answer a request with any outcome its execution may have, and come to rest again |
| RpcSystem.EachCallCompletesOnce | src/rpc/rpc_channel.cpp:83-218 | each call is matched at most once, its closure runs at most once across the response and write-failure paths, and a synchronous caller has returned only with an outcome recorded |
| RpcSystem.RunKeepsInv | src/rpc/rpc_channel.cpp:124-219 | in every reachable state the undecoded bytes of both directions are exactly the frames on their way, and every request in transit, queued, running or answered is there once and expected by its sent call |
| RpcSystem.InvStep | src/rpc/rpc_channel.cpp:75-219 | every step of client, streams, connection and server keeps that invariant |
| RpcSystem.ConnectionStep | src/net/tcp_connection.cpp:39-148 | whatever befalls the server's connection, the undecoded replies it accepted stay exactly the frames on their way |
| RpcSystem.DownStreamGrows | src/net/tcp_connection.cpp:60-92 | a reply sent on the loop thread joins the stream whole, whatever part of it the kernel takes |
| RpcSystem.DecodedRequest | src/codec/codec.cpp:12-47 | the server's decoder, fed any part of the stream, only ever finds the oldest request on its way |
| RpcSystem.DecodedReply | src/rpc/rpc_channel.cpp:92-105 | the client's decoder never meets a bad magic and only ever finds the oldest reply on its way |
| RpcSystem.WriteStep | src/rpc/rpc_channel.cpp:162-180 | a written request joins the stream once and its call starts to expect an answer |
| RpcSystem.ServerDecodeStep | src/rpc/rpc_server.cpp:56-100 | decoding a request moves it to the task queue or to one inline reply, accepted or dropped by the connection |
| RpcSystem.ReplyStep | src/rpc/rpc_server.cpp:146-149 | a reply posted to the loop leaves the functor queue for the connection, which accepts it exactly when it is connected |
| RpcSystem.ClientDecodeStep | src/rpc/rpc_channel.cpp:192-204 | a decoded reply is matched to the call that sent the request it answers |
| RpcClient.MatchOk | src/rpc/rpc_channel.cpp:197-204 | the call that sent the request is matched once more, leaves the pending table and is what the reader holds; the table stays exact and every other expected request stays expected |
| RpcClient.UnknownIdIgnored | src/rpc/rpc_channel.cpp:197-202 | a response with an id that is not pending is ignored |
| RpcClient.AnsweredCallerReturns | src/rpc/rpc_channel.cpp:187-189 | a synchronous caller whose call is answered may return, and then has returned with its outcome as it was |
| RpcClient.FailedWriteEndsCall | src/rpc/rpc_channel.cpp:173-179 | a failed write ends the call: failed, returned, out of the table, its closure run if it has one |
| RpcClient.RecordOk | src/rpc/rpc_channel.cpp:206-210 | the outcome recorded is one for the call's own request |
| RpcClient.ResultJustified | src/rpc/rpc_channel.cpp:206-210 | a response that answers a call's request yields a result that an execution of this request may have, and never a garbled one |
| RpcClient.SetFlagOk | src/rpc/rpc_channel.cpp:212-216 | the done flag is set only on a recorded outcome |
| RpcClient.RunClosureOk | src/rpc/rpc_channel.cpp:218-218 | the closure of a matched call runs once, after outcome and flag |
| RpcClient.AllocateOk | src/rpc/rpc_channel.cpp:137-137 | a new id differs from those of all unresolved calls |
| RpcClient.IdSequence | include/rpc/rpc_channel.h:52-52 | ids start at 1 and two calls share one exactly when a multiple of 2^32 apart |
| RpcClient.MayAllocateIf | include/rpc/rpc_channel.h:52-52 | the first 2^32 calls may all be made, and later ones while no call 2^32 ids back is open |
| RpcClient.PublishOk | src/rpc/rpc_channel.cpp:152-160 | publishing never overwrites another pending call |
| RpcClient.WrittenOk | src/rpc/rpc_channel.cpp:170-185 | a whole write makes the call's request expected, which it was not before |
| RpcClient.WriteFailedOk | src/rpc/rpc_channel.cpp:173-179 | a failed write removes the call, records the failure and runs the closure once |
| RpcClient.WakeOk | src/rpc/rpc_channel.cpp:187-189 | a synchronous caller leaves its wait only with an outcome recorded |
| RpcClient.SweepOk | src/rpc/rpc_channel.cpp:80-90 | the close sweep fails and releases exactly the calls published or sent and not yet matched, so every synchronous caller then waiting may return, changes no other call and runs no closure |
| RpcClient.QuitOk | src/rpc/rpc_channel.cpp:96-99 | a reader that stops without a sweep keeps the invariant |
| RpcServer.NoRequestLostOrDuplicated | src/rpc/rpc_server.cpp:56-150 | whatever frames arrive, the multiset of parsed requests equals those answered plus those queued, running and in loop functors, each reply answers its own request, and no request is executed more often than parsed |
| RpcServer.JobsStep | src/rpc/rpc_server.cpp:102-150 | every reply carries its request's id and the prescribed error or an outcome of the service for that request |
| RpcServer.FrameEffect | src/rpc/rpc_server.cpp:56-100 | a frame is dropped when unparsable; otherwise it adds exactly one open task or one reply for its own request |
| RpcServer.BalancedStep | src/rpc/rpc_server.cpp:96-149 | taking, finishing and posting work moves a request without losing or copying it |
| RpcServer.StartedOnceStep | src/rpc/rpc_server.cpp:96-127 | a parsed request is queued, running or executed at most once |
| Wire.WordRoundTrip | src/codec/codec.cpp:60-61 | a 32-bit word survives network byte order |
| Wire.BytesRoundTrip | src/codec/codec.cpp:15-17 | four header bytes survive host byte order |
| Wire.MostSignificantFirst | src/codec/codec.cpp:60-61 | the most significant byte comes first: byte strings are in order exactly when their words are |
| Wire.FrameLayout | include/codec/protocol.h:1-20 | a frame is CA FE BA BE, the body's length, and the body |
| Wire.RejectedIff | src/codec/codec.cpp:13-34 | a header is rejected exactly for other magic bytes or, by the server, for a length above 64 MiB |
| Wire.PeelEncoded | src/codec/codec.cpp:13-45 | the decoder finds an encoded body that fits, and what follows it, at the front of a buffer |
| Wire.PeelSound | src/codec/codec.cpp:13-45 | what the decoder takes for a frame is the encoding of a body within the limits |
| Wire.DecodeIsTheParse | src/codec/codec.cpp:12-47 | the decoder loop computes the one split of its input into encoded bodies that fit and a remainder it cannot go past, with the right verdict |
| Wire.EncodeDecodeRoundTrip | src/codec/codec.cpp:58-68 | any list of bodies is decoded back with nothing left over if and only if each fits |
| Wire.DecodeSplit | src/codec/codec.cpp:12-47 | decoding in two parts equals decoding at once |
| Wire.ChunkingIsInvisible | include/codec/codec.h:12-14 | however a stream is cut, repeated calls deliver the frames, leftover and verdict of a one-shot decode |
| Wire.RejectionIsFinal | src/codec/codec.cpp:19-34 | after a bad magic or oversize length no later bytes produce a frame |
| Wire.ClientDecoderAgrees | src/rpc/rpc_channel.cpp:92-105 | the client's decoder agrees with the server's on exactly the streams the server does not reject for size |
| Wire.LeftoverBound | src/codec/codec.cpp:30-39 | a waiting decoder keeps less than one header plus 64 MiB |
| Wire.PeelFromStream | src/codec/codec.cpp:12-47 | a decoder holding any part of an encoded stream finds its first body or waits |
| Wire.PartOfStreamDecodes | src/codec/codec.cpp:12-47 | any part of an encoded stream, in any chunks, decodes to a prefix of the bodies without rejection |
| Wire.WholeWritesNeeded | src/rpc/rpc_channel.cpp:170-180 | two frames both arrive if and only if the first was written whole |
| ByteBuffer.StepFacts | include/net/buffer.h:29-78 | every operation keeps the index order, acts as on a byte queue, and grows to at most twice the new content plus 8 |
| ByteBuffer.BufferRefinesQueue | include/net/buffer.h:18-78 | over every run the buffer holds the bytes of a plain queue and is no larger than initially or twice the peak content plus 8 |
| ByteBuffer.EnlargesIffFull | include/net/buffer.h:69-78 | an append enlarges the store if and only if the data does not fit beside the content in all of it, and then to just the room needed |
| ByteBuffer.EmptiedIsReset | include/net/buffer.h:45-49 | a buffer read to its end has all of its store writable again; otherwise only the read index moves |
| ByteBuffer.ScatterRoom | src/net/buffer.cpp:9-20 | a read can always deliver 64 KiB, the overflow segment being offered exactly when less is writable |
| ByteBuffer.DrainFacts | src/codec/codec.cpp:41-45 | decoding leaves the undecoded bytes and the vector's size |
| ByteBuffer.ServeStep | src/net/buffer.cpp:14-31 | one read and decode keeps the vector's size under the limit |
| ByteBuffer.InputBufferBounded | src/net/buffer.cpp:9-33 | over every run of read-then-decode, a rejecting last call included, the vector's size (not its capacity) is below 64 MiB plus 256 KiB |
| ByteBuffer.Buffer.constructor | include/net/buffer.h:18-21 | a new buffer is empty with 8 prependable bytes |
| ByteBuffer.Buffer.Readable | include/net/buffer.h:23-23 | the number of readable bytes |
| ByteBuffer.Buffer.Peek | include/net/buffer.h:27-27 | the first readable bytes, unconsumed |
| ByteBuffer.Buffer.Grow | include/net/buffer.h:69-78 | both ways to grow keep the content and make room |
| ByteBuffer.Buffer.Fill | include/net/buffer.h:33-35 | bytes copied into the writable part become readable after the others |
| ByteBuffer.Buffer.Append | include/net/buffer.h:37-41 | the content gains the data at its end |
| ByteBuffer.Buffer.Retrieve | include/net/buffer.h:45-49 | the content loses its front; an emptied buffer is reset |
| ByteBuffer.Buffer.RetrieveAsString | include/net/buffer.h:51-56 | the bytes taken are the front of the content |
| ByteBuffer.Buffer.ReadFd | src/net/buffer.cpp:9-33 | the bytes read, overflow included, follow the content in order |
| Codec.PeekHeader | src/codec/codec.cpp:14-28 | the two header words in host order, nothing consumed |
| Codec.TakeBody | src/codec/codec.cpp:41-44 | header and body are consumed, the body is returned |
| Codec.TakeFrame | src/codec/codec.cpp:13-45 | one turn takes the first frame or stops with the right verdict and an untouched buffer |
| Codec.DecodeLoop | src/codec/codec.cpp:12-47 | the loop delivers exactly the decoded frames and leaves exactly the undecoded bytes |
| Codec.OnMessage | src/codec/codec.cpp:12-47 | the server's decoder does that and closes the connection by force exactly when the stream is rejected |
| Codec.RejectedStreamDisconnects | src/codec/codec.cpp:19-34 | a stream rejected for its magic bytes or its length leaves an open connection disconnected once its queue has been run; any other leaves it as it was |
| Codec.EncodeFrame | src/codec/codec.cpp:60-66 | the framed bytes of a body |
| Codec.SendRaw | src/codec/codec.cpp:58-68 | the connection is given exactly the framed body |
| Codec.HandleRead | src/net/tcp_connection.cpp:114-125 | bytes read are decoded together with the leftover, and a rejected stream closes the connection by force; the end of the stream and an error disconnect it and leave the input alone |
| Codec.FramesArriveInOrder | src/net/tcp_connection.cpp:68-140 | whatever the kernel took of the accepted frames, read in any chunks, decodes to a prefix of them in order, and to all of them once the output has drained |
| TcpConnection.SendConserves | src/net/tcp_connection.cpp:68-92 | direct, partial, blocked and failed writes keep written plus buffered equal to accepted |
| TcpConnection.ConservedStep | src/net/tcp_connection.cpp:39-148 | every operation keeps it, and neither record ever shrinks |
| TcpConnection.HalfCloseIsFinal | src/net/tcp_connection.cpp:94-148 | over every run the state never moves back, and from a half-close on the wire and what `send` took stay as they are |
| TcpConnection.OutputConserved | src/net/tcp_connection.cpp:68-92 | over every run written bytes are a prefix of accepted ones and, until disconnect, the rest is the buffered output |
| TcpConnection.RecordsFollowCalls | src/net/tcp_connection.cpp:48-140 | over every run the wire is exactly what the kernel said it took of what it was offered, in order, for direct, queued and buffered writes, and the other records are what `send` was given and what entered the output path |
| TcpConnection.WireStep | src/net/tcp_connection.cpp:68-140 | a write answered with n bytes adds exactly the first n of those offered to the wire |
| TcpConnection.ConnectedUntilClosed | src/net/tcp_connection.cpp:32-148 | a connection is connected from its establishment until the first operation that closes it or a failed write |
| TcpConnection.ClosedIsLeftAlone | src/net/tcp_connection.cpp:48-128 | a send or shutdown on a connection not connected, a forced close of one not open, and a write event without interest do nothing |
| TcpConnection.DisconnectIsFinal | src/net/tcp_connection.cpp:142-153 | after a close, a failed write or the teardown of a connected connection nothing is taken, accepted, written or watched for any more |
| TcpConnection.ShutdownThenDrain | src/net/tcp_connection.cpp:94-139 | a shutdown half-closes at once with nothing to write, and otherwise exactly when the output is drained, with every accepted byte written |
| TcpConnection.ForcedCloseDisconnects | src/net/tcp_connection.cpp:107-112 | a forced close of an open connection ends disconnected once its queue has been run, whatever else is in it |
| TcpConnection.WriteInterestIffOutput | src/net/tcp_connection.cpp:87-139 | over every run of non-empty sends a live connection watches for writability exactly when output is buffered |
| TcpConnection.OutputAlwaysWatched | src/net/tcp_connection.cpp:87-139 | over every run, empty sends included, a live connection with buffered output watches for writability |
| TcpConnection.InterestKeptIffNonEmpty | src/net/tcp_connection.cpp:72-91 | a send keeps that for every kernel answer if and only if it has data, or output is queued, or the write side is shut |
| TcpConnection.InterestMatchesIff | src/net/tcp_connection.cpp:68-140 | over every run a live connection watches for writability exactly when output is buffered, at every point, if and only if no empty send, direct or queued, would block on a live connection with nothing to write |
| TcpConnection.EmptySendStrandsInterest | src/net/tcp_connection.cpp:72-140 | for every number of write events, a run in which an empty send that would block leaves interest on after all of them |
| TcpConnection.PostedBytesAccounted | src/net/tcp_connection.cpp:48-66 | over every run no byte that `send` took, from any thread, is duplicated, and until disconnect each is written, buffered or in a queued send |
| TcpConnection.HalfCloseIsGraceful | src/net/tcp_connection.cpp:94-148 | in every run, with sends from any thread, the half-close of a live connection finds every byte that reached the output path written |
| TcpConnection.HalfCloseLosesCrossThreadSend | src/net/tcp_connection.cpp:48-105 | a run in which a byte that `send` took from another thread is lost because a shutdown on the loop thread half-closes first |
| TcpConnection.HalfCloseLosesIffSendQueued | src/net/tcp_connection.cpp:39-105 | if a step of any run half-closes a connection not disconnected, then at every later point all that `send` ever took, from any thread, is written if and only if no send with data was waiting in the loop's queue at that step and after each earlier teardown that found output a queued send was run |
| TcpConnection.SendRefusedIffQueued | src/net/tcp_connection.cpp:68-105 | from any half-closed disconnecting connection with empty output that a run reaches, no continuation gives the kernel bytes it refuses if and only if no non-empty send is queued without a close before it |
| TcpConnection.TornDownHalfCloseLosesOutput | src/net/tcp_connection.cpp:39-46 | a run in which teardown while disconnecting makes a later half-close lose buffered output |
| TcpConnection.HalfCloseCompleteIff | src/net/tcp_connection.cpp:39-105 | if a step of any run, with sends from any thread, half-closes a connection not disconnected, every accepted byte is written if and only if after each earlier teardown that found output a queued send was run |
| TcpConnection.Connection.constructor | src/net/tcp_connection.cpp:11-18 | a new connection is connecting with nothing accepted or written |
| TcpConnection.Connection.Establish | src/net/tcp_connection.cpp:32-37 | a connecting connection becomes connected |
| TcpConnection.Connection.WriteOut | src/net/tcp_connection.cpp:68-92 | data goes to the wire directly or behind the buffered output, with interest on |
| TcpConnection.Connection.BufferRest | src/net/tcp_connection.cpp:87-91 | the unwritten rest joins the output and interest is on |
| TcpConnection.Connection.SendBytes | src/net/tcp_connection.cpp:48-66 | only a connected connection accepts data, at once on the loop thread, as a functor otherwise |
| TcpConnection.Connection.HalfClose | src/net/tcp_connection.cpp:101-105 | the write side is shut unless output is pending |
| TcpConnection.Connection.ShutdownGracefully | src/net/tcp_connection.cpp:94-99 | a connected connection starts to disconnect and half-closes at once or later |
| TcpConnection.Connection.CloseByForce | src/net/tcp_connection.cpp:107-112 | a close functor is queued |
| TcpConnection.Connection.OnWritable | src/net/tcp_connection.cpp:127-140 | written bytes leave the output; when it is empty interest goes off and a pending half-close happens |
| TcpConnection.Connection.OnClose | src/net/tcp_connection.cpp:142-148 | disconnected with no interest |
| TcpConnection.Connection.RunQueued | src/net/event_loop.cpp:98-107 | the first queued functor of the connection is run |
| TcpConnection.Connection.TearDown | src/net/tcp_connection.cpp:39-46 | the channel is removed with its interest, and a connected connection is disconnected |
| EventLoop.LoopNeverSleepsOnWork | src/net/event_loop.cpp:34-107 | in every interleaving functors run in queue order, and after its first poll the loop is never in a poll with the eventfd clear and pending work whose producer is not about to wake it |
| EventLoop.LoopFollowsEvents | src/net/event_loop.cpp:34-107 | at every point of every run everything pushed and nothing else was queued, as many functors have run as were run, a swap takes everything pending, and the eventfd is set exactly when it was written since it was last read |
| EventLoop.InvStep | src/net/event_loop.cpp:62-107 | every push, wakeup, poll, swap and run keeps order and wakeup invariants |
| EventLoop.FirstPollCanSleepOnWork | src/net/event_loop.cpp:62-70 | a run in which the first poll has pending work and no wakeup |
| EventLoop.SleepsOnWorkIff | src/net/event_loop.cpp:34-107 | at every point of every run inside a poll with the eventfd clear and no producer about to wake, there is pending work if and only if no poll has returned and the loop thread queued it before `loop()`, and then nothing else was ever queued and nothing has run |
| EventLoop.BeforeTheFirstPoll | src/net/event_loop.cpp:34-70 | until a poll returns nothing is run, and the loop thread queues only before `loop()` |
| ThreadPool.StoppedPoolHasRunEverything | src/net/thread_pool.cpp:12-41 | in every interleaving, stop during a submit included, tasks start in order and once, and when all workers are gone every accepted task has run exactly once |
| ThreadPool.PoolFollowsEvents | src/net/thread_pool.cpp:20-41 | at every point of every run accepted is every task whose submit passed the stop check, in order, and nothing else, and as many tasks have finished as workers finished one |
| ThreadPool.AcquireEffect | src/net/thread_pool.cpp:29-41 | a worker that gets the mutex takes the oldest task, and with none leaves exactly if stop is set |
| ThreadPool.InvStep | src/net/thread_pool.cpp:20-41 | submit, stop, take and finish keep that |
| EpollPoller.MaskChanges | include/net/channel.h:29-37 | each call changes only its own interest bits |
| EpollPoller.ChangeKeeps | src/net/epoll_poller.cpp:50-66 | an event change keeps all books in agreement, without a refused kernel call |
| EpollPoller.ChangeEffect | include/net/channel.h:33-37 | a call turns exactly the interest it names on or off in the mask, and the kernel watches the descriptor afterwards unless it did before and nothing is left to watch |
| EpollPoller.MaskFollowsCalls | include/net/channel.h:29-37 | over every run, for every descriptor, the read bits and the write bit of its mask and of the kernel's entry are set exactly as the last calls on them say, and so is whether the kernel watches it |
| EpollPoller.KernelRule | src/net/epoll_poller.cpp:76-83 | what was added is in the kernel until it is deleted, and a call on the wrong side of that is refused |
| EpollPoller.RemoveKeeps | src/net/channel.cpp:29-32 | remove leaves the channel new and in no table, whatever its state |
| EpollPoller.BooksAlwaysAgree | src/net/epoll_poller.cpp:50-83 | over every run a channel is added exactly when the kernel watches its descriptor with its mask, in the table exactly when not new, and no kernel call is refused |
| EpollPoller.RemoveIdempotent | src/net/epoll_poller.cpp:68-74 | removing twice is removing once |
| EpollPoller.DisableAllToggles | src/net/epoll_poller.cpp:50-66 | disabling all events watches a channel exactly when it was not watched |
| EpollPoller.Poller.Control | src/net/epoll_poller.cpp:76-83 | the kernel's answer to add, modify and delete |
| EpollPoller.Poller.Update | src/net/epoll_poller.cpp:50-66 | the new/added/deleted transitions |
| EpollPoller.Poller.SetEvents | include/net/channel.h:33-37 | the mask changes, then the poller is told |
| EpollPoller.Poller.RemoveFd | src/net/channel.cpp:29-32 | disable all, then leave the poller |
| LoadBalancer.BuildRing | src/registry/load_balancer.cpp:66-73 | the ring maps each occupied position, and no other, to the last-listed endpoint hashing there |
| LoadBalancer.RingShares | src/registry/load_balancer.cpp:66-73 | where the hash tells node names apart, each address holds exactly its number of virtual nodes on the ring, under its last listing |
| LoadBalancer.PositionsAgreeIff | src/registry/load_balancer.cpp:68-71 | where the hash tells node names apart, positions agree exactly when host, port and number do |
| LoadBalancer.NodesCollideByHashOnly | src/registry/load_balancer.cpp:70-70 | two nodes of one endpoint share a position only if the hash collides on their names host:port#i |
| LoadBalancer.ClockwiseArrives | src/registry/load_balancer.cpp:76-77 | going the clockwise distance from one position arrives at the other modulo 2^32 |
| LoadBalancer.FirstAtOrAfter | src/registry/load_balancer.cpp:76-77 | lower bound then wrap finds the key at least clockwise distance modulo 2^32 |
| LoadBalancer.SelectByHash | src/registry/load_balancer.cpp:61-79 | the result owns the nearest occupied position clockwise from the key; an empty list is an error |
| LoadBalancer.ChosenHasNearestName | src/registry/load_balancer.cpp:61-79 | the chosen endpoint has the node whose name host:port#i hashes nearest clockwise among all node names |
| LoadBalancer.ChoiceUnique | src/registry/load_balancer.cpp:61-79 | that determines the result |
| LoadBalancer.RemovalIsLocal | src/registry/load_balancer.cpp:61-79 | removing an endpoint changes the choice only for keys it owned, for every hash function |
| LoadBalancer.InsertionIsLocal | src/registry/load_balancer.cpp:61-79 | inserting an endpoint anywhere moves a key only to it |
| LoadBalancer.OrderIndependent | src/registry/load_balancer.cpp:66-78 | without collisions between different endpoints the choice is independent of list order |
| LoadBalancer.SelectByWeight | src/registry/load_balancer.cpp:29-45 | the running subtraction of the weights selects by the draw below their total |
| LoadBalancer.ScanFindsSlice | src/registry/load_balancer.cpp:40-44 | the selected position's slice of the running total contains the draw; the fallback is unreachable |
| LoadBalancer.SharesExactIffNonNegative | src/registry/load_balancer.cpp:33-44 | over all draws each position is selected exactly its weight many times if and only if no weight is negative |
| Decimal.StoiPrint | src/registry/service_registry.cpp:25-26 | parsing undoes printing on every 32-bit integer |
| Decimal.StoiReads | src/registry/service_registry.cpp:66-70 | parsing skips leading spaces, reads the longest number, ignores what follows it, and fails exactly when it does not fit an int |
| Decimal.PrintedForm | src/registry/service_registry.cpp:25-26 | numbers are printed most significant digit first |
| Strings.SplitUnique | src/registry/zookeeper_client.cpp:106-109 | a path splits at its last separator in one way |
| Registry.CreateConsistent | src/registry/zookeeper_client.cpp:102-119 | creating any path keeps child lists duplicate-free and in agreement with the nodes |
| Registry.RemoveConsistent | src/registry/zookeeper_client.cpp:144-155 | so does removing any path |
| LoadBalancer.AddressInjective | include/registry/load_balancer.h:16-18 | a printed address determines host and port, colons in the host included |
| Registry.RegisterTree | src/registry/service_registry.cpp:17-27 | for every name, host and service, registering writes at most one child of that service, adds it once and leaves the rest of the service alone |
| Registry.UnregisterTree | src/registry/service_registry.cpp:78-85 | for every name, host and service, unregistering drops exactly the endpoint's child from its home and nothing elsewhere |
| Registry.ParseMirrored | src/registry/service_registry.cpp:61-72 | a registered child is parsed back to its endpoint, a missing weight as the default |
| Registry.ParseAnyChild | src/registry/service_registry.cpp:61-72 | a child without a colon is skipped; any other gives what precedes the last colon, the number behind it cut to 16 bits and the weight in its data, and throws if one is no number |
| Registry.RefreshIs | src/registry/service_registry.cpp:57-75 | a refresh gives a list of endpoints if and only if the children with a colon parse to them, one by one |
| Registry.RefreshIsExact | src/registry/service_registry.cpp:48-76 | after every run of calls with slash-free service names and any hosts, a refresh returns exactly the live registrations of slash-free host, in order of first registration with their latest weights, so all of them if and only if every live host is slash-free |
| Registry.RefreshExactIff | src/registry/service_registry.cpp:17-85 | for every run of calls with any names and hosts, a service's refresh gives at every point exactly what is then registered under its name, in order with the latest weights, if and only if every call is proper where it is made |
| Registry.ProperIffSameLive | src/registry/service_registry.cpp:22-26 | a harmless call changes the endpoints that land below a service as it changes those registered under its name if and only if it is proper |
| Registry.HomeExactIff | src/registry/service_registry.cpp:17-85 | a service's refresh gives at every point exactly the endpoints that land below it if and only if no call registers a name that continues the service's by a child with a colon, except the address of a then live endpoint of the default weight |
| Registry.SlashedHostFoundElsewhere | src/registry/service_registry.cpp:22-26 | a first registration of host `up/low` is not found under its own name but under that name continued by `up`, as host `low` |
| Registry.SlashedNameMakesPhantom | src/registry/service_registry.cpp:22-26 | registering anything under a service's name continued by an address makes that service's refresh return that address, which nobody registered |
| Registry.TreeConsistent | src/registry/zookeeper_client.cpp:102-155 | the child lists agree with the nodes at every point of every run |
| Registry.ZooKeeperStub.CreateNode | src/registry/zookeeper_client.cpp:102-119 | node data set, child listed once under its parent |
| Registry.ZooKeeperStub.RemoveNode | src/registry/zookeeper_client.cpp:144-155 | node erased, child dropped from its parent |
| Registry.ServiceRegistry.constructor | src/registry/service_registry.cpp:9-15 | the tree holds the root |
| Registry.ServiceRegistry.RegisterService | src/registry/service_registry.cpp:17-27 | service node and endpoint node are created |
| Registry.ServiceRegistry.UnregisterService | src/registry/service_registry.cpp:78-85 | the endpoint node is removed |
| Registry.ServiceRegistry.RefreshCache | src/registry/service_registry.cpp:57-75 | the cache entry becomes what the children parse to; a parse error throws and leaves it |

## Left out

- Socket setup, connect timeout, accept, bind and address formatting: I/O plumbing.
- The real ZooKeeper client: calls into a library that is not part of this model.
- Watchers: the stub calls a watcher while holding the mutex the refresh needs again, and `remove` fires none, so the cache does not follow the tree in this code; registry runs end before a watcher is installed.
- `discover`, random and round-robin selection, `RpcController`, `ServiceProxy`, examples: thin.
- FNV-1a: the ring results hold for every hash function.
- Client liveness beyond `RpcSystem.ReleasedIffInTable`: the close sweep runs no closures, so an asynchronous call then never completes.
- Calls refused because the channel is not connected: they fail before an id is allocated.
- Termination of the pool's destructor: the stop flag is set without the mutex, so a worker can miss the notification.
- How often the close callback runs: several paths reach it again.
- Callbacks that re-enter the connection, `shared_ptr` lifetimes and channel ties: object lifetime.
- Channel objects: a channel is identified by its descriptor, which is distinct among live channels; the kernel's stored pointer is not modelled.
- LoadBalancer.SelectByHash: a virtual-node count below one, for which the code dereferences an empty ring, is excluded.
- LoadBalancer.SelectByWeight: a total of zero or less, for which the draw is undefined, is excluded; the total is an unbounded integer, so its overflow of int is not modelled.
- TcpConnection.HalfCloseIsGraceful: speaks of live connections only, since the promise fails for a torn-down one (`TcpConnection.TornDownHalfCloseLosesOutput`, `TcpConnection.HalfCloseCompleteIff`).
- Codec.OnMessage: the frames are returned in order rather than passed to the callback one by one, so what a callback does to the connection between two frames is not part of it.
- Stopping the worker pool while the server runs: the pool is stopped only when the server object is destroyed, after its loop has ended.
