# Krpc: a verified model

Krpc is an RPC runtime with two stacks, protobuf and msgpack. Several threads
share a few small mutable structures. This project models those structures and
the code around them, and proves what the runtime relies on.

A protocol between threads is a state machine: one event per critical section,
a step that skips an event its thread cannot take, and theorems about every
sequence of events. Beside it stands a class with the program's own fields, whose
methods are the critical sections. Each method's contract says which event it
performs, so the theorems hold of the fields. Loops over buffers, maps and
queues are methods with loops, proved against functions.

| file | what it covers |
|---|---|
| MsgpackCalls, MsgpackChannel | life of a msgpack call: callers, receive loop, sweep, heartbeat failure, send failure, destructor |
| ProtobufCalls, ProtobufChannel | life of a protobuf call: routing of responses, promise, closure and callback |
| Varint, HeaderCodec, RpcHeader | wire format of RpcHeader: generated parser, serialiser, size and merge |
| Socket, MsgpackWire, ProtobufWire | partial writes, framing, incremental decoding, end to end |
| Descriptors, ConnectionPool | who owns each socket descriptor |
| EndpointText, RoundRobin, Failover, DiscoveryCache | endpoint lists, selection, search with cooldown, discovery cache |
| WorkerPool, MsgpackProvider, QueueAlarm | bounded queue, workers, dispatch, one response per request, queue alarm |
| HeartbeatDetector, HeartbeatChannel, KeepAlive, IdleConnections | failure detection and idle closing |
| MetricsWindows | metrics windows and percentiles |

## Findings

Where the code does not do what one would expect, the model keeps the code and
states exactly when it does.

- A protobuf request whose body is empty is never sent successfully: `writev`
  with nothing to write returns 0, which `SendLoop` takes for a closed
  connection (src/Krpcchannel.cc:1254-1257). `ProtobufWire.SendOne` succeeds if
  and only if the body is not empty and everything was written.
- A callback given to the protobuf channel can be lost: it is installed after
  the call was published (src/Krpcchannel.cc:554-558).
  `ProtobufCalls.CallbackLost` is the shortest such run, `CallbackOvertaken` the
  family, `CallbackIff` the exact condition.
- A msgpack response whose error is an empty text, not nil, completes its call
  with success and nil (`MsgpackCalls.ErrorTextDecides`).
- A msgpack body of 2^32 bytes or more is framed with its length cut to 32 bits;
  `MsgpackWire.FrameRoundTrip` holds exactly for shorter bodies.
- A header whose service or method name comes within 16 bytes of INT_MAX is
  serialised but not parsed again (`HeaderCodec.RoundTrip`); the limit, like
  that of 100 nested groups, is the protobuf library's, which is not part of this
  repository.
- A port of 65536 or more in an endpoint list is reduced to 16 bits without an
  error, and refused only when nothing remains or the number exceeds 32 bits
  (`EndpointText.ParsePrinted`, `EndpointText.ParseNumber`).
- The bound that keeps a heartbeating connection open is exact
  (`KeepAlive.KeepAliveIff`).

## Model

| member | source | states |
|---|---|---|
| MsgpackCalls.InvStep | src/Krpcmsgpack_channel.cc:416-548 | every critical section and completion keeps the invariant: each call in one place, each id with one call, every verdict justified |
| MsgpackCalls.InvRun | src/Krpcmsgpack_channel.cc:306-316 | the invariant holds after any interleaving of callers, receive loops, sweep, heartbeat, send failure and destructor |
| MsgpackCalls.AtMostOnce | src/Krpcmsgpack_channel.cc:870-892 | in every interleaving a call's promise or callback is woken at most once |
| MsgpackCalls.CallsConserved | src/Krpcmsgpack_channel.cc:473-537 | every call that entered is in exactly one of: not yet published, pending, taken by one thread, completed; completed means woken once |
| MsgpackCalls.IdsDisjoint | src/Krpcmsgpack_channel.cc:262-264 | pending ids and taken ids are disjoint, all were issued, and each belongs to one call that was not woken yet |
| MsgpackCalls.ExactlyOnceAfterDestroy | src/Krpcmsgpack_channel.cc:306-316 | after the destructor every issued call was woken exactly once (an empty callback never) |
| MsgpackCalls.SuccessOnlyFromOwnResponse | src/Krpcmsgpack_channel.cc:416-442 | a call succeeds only by a received response with its own id and either no error, delivering that response's result, or an empty error text, delivering nil |
| MsgpackCalls.ErrorTextDecides | src/Krpcmsgpack_channel.cc:431-441 | a pending call whose response carries an error text fails with it, but succeeds with nil if the text is empty |
| MsgpackCalls.ResultDelivered | src/Krpcmsgpack_channel.cc:439-441 | a pending call whose response carries no error is woken with exactly the response's result |
| MsgpackCalls.UndecodableFails | src/Krpcmsgpack_channel.cc:431-438 | an error that is not a text fails the call with "response decode error" |
| MsgpackCalls.ConnectFailureDelivered | src/include/Krpcmsgpack_channel.h:104-168 | a call that cannot connect is woken at once with the reason, or with "connect failed" for an empty one |
| MsgpackCalls.PromiseKept | src/Krpcmsgpack_channel.cc:416-548 | whatever finishes a pending call fixes its outcome then and there (result, error text, "timeout" exactly when a positive timeout has elapsed, reason, "send failed", "channel closed"), through any events until it is completed; any other event leaves it pending as it was |
| MsgpackCalls.PendingAsEntered | src/include/Krpcmsgpack_channel.h:104-168 | a call pending later waits with the sink it entered with and its timeout, negative ones cut to none |
| MsgpackCalls.SocketDecides | src/Krpcmsgpack_channel.cc:460-504 | on a connected socket a published call stays pending and its caller returns; on a closed one it is taken back with "send failed" unless another thread took it |
| MsgpackCalls.FiringIsFinal | src/Krpcmsgpack_channel.cc:870-892 | what a call was woken with never changes, whatever happens later |
| MsgpackChannel.KrpcMsgpackChannel.NextRequestId | src/Krpcmsgpack_channel.cc:262-264 | the id issued was never issued before |
| MsgpackChannel.KrpcMsgpackChannel.EmplacePending | src/Krpcmsgpack_channel.cc:476-484 | the call enters the map under a key that is free, so the insertion that would keep an old entry never does |
| MsgpackChannel.KrpcMsgpackChannel.SendFrame | src/Krpcmsgpack_channel.cc:460-471 | the frame is refused exactly when the socket is closed |
| MsgpackChannel.KrpcMsgpackChannel.TakeBackPending | src/Krpcmsgpack_channel.cc:485-501 | after a refused frame the call is taken back only if no other thread took it before |
| MsgpackChannel.KrpcMsgpackChannel.TakeForResponse | src/Krpcmsgpack_channel.cc:416-442 | a response takes exactly the call with its id, or nothing, with the verdict of its error field |
| MsgpackChannel.KrpcMsgpackChannel.EraseExpired | src/Krpcmsgpack_channel.cc:725-738 | the erasing loop splits the map into exactly the expired calls and the others |
| MsgpackChannel.KrpcMsgpackChannel.SweepExpired | src/Krpcmsgpack_channel.cc:714-744 | a sweep removes exactly the calls with a positive timeout that has elapsed, to be failed with "timeout" |
| MsgpackChannel.KrpcMsgpackChannel.TakeAllPending | src/Krpcmsgpack_channel.cc:539-544 | the swap empties the map and hands over all it held, to be failed with the reason |
| MsgpackChannel.KrpcMsgpackChannel.CompletePending | src/Krpcmsgpack_channel.cc:870-892 | one wake-up by promise or callback, with the error unless it is empty and then with the result; none for an empty callback |
| MsgpackChannel.KrpcMsgpackChannel.FailAllPending | src/Krpcmsgpack_channel.cc:539-548 | undisturbed, it completes every pending call and leaves calls held by other threads alone |
| ProtobufCalls.InvStep | src/Krpcchannel.cc:1427-1578 | every critical section and half completion keeps the invariant that ties map, taken calls, places and signals |
| ProtobufCalls.SignalsOnce | src/Krpcchannel.cc:1535-1578 | in every interleaving the promise is set at most once, and closure and callback run at most once |
| ProtobufCalls.PublishedConserved | src/Krpcchannel.cc:551-563 | a published call is in the map, or taken by one thread, or its promise is set: exactly one of them |
| ProtobufCalls.SuccessOnlyFromOwnResponse | src/Krpcchannel.cc:1473-1493 | a call completes successfully only if a RESPONSE frame with its own id and a payload that parses was received (ResponseSucceeds is the converse) |
| ProtobufCalls.ResponseSucceeds | src/Krpcchannel.cc:1473-1493 | a pending call whose response arrives signals success to promise and closure exactly if the payload parses, and the parse error if not |
| ProtobufCalls.PromiseKept | src/Krpcchannel.cc:1427-1578 | whatever finishes a pending call fixes how it ends (success, parse error, reason, "timeout" exactly when a positive timeout has elapsed); promise, closure and callback say just that, whatever happens in between; any other event leaves it pending |
| ProtobufCalls.PendingAsEntered | src/Krpcchannel.cc:492-506 | a call pending later has the closure, callback and timeout it was made with |
| ProtobufCalls.RefusalSignals | src/Krpcchannel.cc:475-486 | a call that fails immediately runs closure and callback with the reason and sets no promise |
| ProtobufCalls.OnlyAwaitedResponsesCount | src/Krpcchannel.cc:1473-1483 | a response changes something if and only if a call in the map has its id |
| ProtobufCalls.LateResponseIgnored | src/Krpcchannel.cc:1473-1483 | a response that comes after the call's promise was set changes nothing |
| ProtobufCalls.NothingPendingAfterFailAll | src/Krpcchannel.cc:1520-1533 | after the critical section nothing is pending, and each call it took is failed with the given reason |
| ProtobufCalls.SweepExact | src/Krpcchannel.cc:1427-1458 | a sweep takes exactly the calls whose positive timeout has elapsed, failed with "timeout"; the others stay as they are |
| ProtobufCalls.CallbackIff | src/Krpcchannel.cc:551-563 | the callback of a completed call runs, once and for all the future, if and only if it was installed when completion looked |
| ProtobufCalls.CallbackOvertaken | src/Krpcchannel.cc:554-558 | whenever a response is completed between publishing and installing, the promise is set and the callback never runs |
| ProtobufCalls.CallbackLost | src/Krpcchannel.cc:554-558 | a concrete run of that kind from the start |
| ProtobufChannel.KrpcChannel.PublishCall | src/Krpcchannel.cc:551-554 | publishing is the publish event on the map |
| ProtobufChannel.KrpcChannel.InstallAsyncCallback | src/Krpcchannel.cc:558 | installing happens after publishing, as an event of its own |
| ProtobufChannel.KrpcChannel.CompletePending | src/Krpcchannel.cc:1535-1578 | appends the promise, the closure if any and the callback if installed, each with success or the reason exactly as its arguments say |
| ProtobufChannel.KrpcChannel.ResolvePendingCall | src/Krpcchannel.cc:1473-1493 | removes the call with the response's id and signals success if the payload parses and the parse error if not; without such a call changes nothing |
| ProtobufChannel.KrpcChannel.RemovePendingCall | src/Krpcchannel.cc:1505-1518 | removes the call with this id, if still there, and signals failure with the reason |
| ProtobufChannel.KrpcChannel.EraseExpired | src/Krpcchannel.cc:1442-1451 | the erasing loop splits the map into exactly the expired calls and the others |
| ProtobufChannel.KrpcChannel.SweepExpired | src/Krpcchannel.cc:1427-1458 | the sweep removes exactly the calls with a positive timeout that has elapsed and returns them |
| ProtobufChannel.KrpcChannel.FailPendingCalls | src/Krpcchannel.cc:1520-1533 | undisturbed, it empties the map, finishes every call it held, all with the reason, and leaves calls held by others alone |
| Varint.DecodeEncode | src/Krpcheader.pb.cc:211-299 | decoding a canonical varint gives its value and size back exactly when the byte limit admits it, whatever bytes follow |
| Varint.DecodeExtend | src/Krpcchannel.cc:1327-1330 | a varint that could be read is read the same when more bytes arrive |
| Varint.GuideExample | src/Krpcheader.pb.cc:211-299 | seven-bit groups, least significant first: the examples of the Encoding guide |
| HeaderCodec.ParseConcat | src/Krpcheader.pb.cc:211-299 | parsing a concatenation is parsing the second part into the result of the first, for any bytes: unknown fields, groups, repeated fields |
| HeaderCodec.ParseSerialized | src/Krpcheader.pb.cc:211-363 | parsing a serialised header into another one is merging it, unless a name is too long for the parser |
| HeaderCodec.RoundTrip | src/Krpcheader.pb.cc:211-363 | a header comes back from its serialisation (full 64-bit ids, sign-extended enums, omitted defaults) if and only if both names are short enough |
| HeaderCodec.ConcatIsMerge | src/Krpcheader.pb.cc:451-482 | parsing two serialisations one after the other equals MergeFrom, the last one winning |
| HeaderCodec.SerializeInjective | src/Krpcheader.pb.cc:301-363 | distinct headers never have the same serialisation |
| HeaderCodec.VarintTags | src/Krpcheader.pb.cc:301-363 | field numbers 1, 2, 4 and 5 with wire type 0 |
| HeaderCodec.EnumTags | src/Krpcheader.pb.cc:301-363 | field numbers 3 and 6, negative values as 64-bit two's complement |
| HeaderCodec.NameTags | src/Krpcheader.pb.cc:301-363 | field numbers 7 and 8 with wire type 2 and their length |
| HeaderCodec.WideVarintIsCut | src/Krpcheader.pb.cc:211-299 | values wider than their field are cut to its width, enums to signed 32 bits |
| HeaderCodec.UnknownFieldSkipped | src/Krpcheader.pb.cc:211-299 | an unknown varint, fixed or length-delimited field leaves the header as it is |
| HeaderCodec.UnknownGroupSkipped | src/Krpcheader.pb.cc:211-299 | an unknown group leaves the header as it is exactly up to a nesting of 100, and fails the parse beyond |
| RpcHeader.RpcHeader.InternalParse | src/Krpcheader.pb.cc:211-299 | the loop over tags accepts exactly what the parse function accepts and leaves the fields it gives |
| RpcHeader.RpcHeader.InternalSerialize | src/Krpcheader.pb.cc:301-363 | the bytes appended are the header's serialisation |
| RpcHeader.RpcHeader.ByteSizeLong | src/Krpcheader.pb.cc:365-434 | the size accumulated equals the length of the serialisation |
| RpcHeader.RpcHeader.MergeFrom | src/Krpcheader.pb.cc:451-482 | the assignments field by field are the merge of the two headers |
| Socket.Socket.Writev | src/Krpcmsgpack_channel.cc:827-838 | writev takes a prefix of the offered bytes, possibly short, or is interrupted, or fails; 0 only when nothing was offered |
| MsgpackWire.FrameRoundTrip | src/Krpcmsgpack_channel.cc:236-258 | a frame at the front gives its body back, with anything behind it, if and only if the body is shorter than 2^32 |
| MsgpackWire.NetworkOrder | src/Krpcmsgpack_channel.cc:251-258 | the length modulo 2^32 goes out most significant byte first |
| MsgpackWire.SendOne | src/Krpcmsgpack_channel.cc:800-858 | for any short writes and interruptions a prefix of the frame goes out; success if and only if all of it did; bodies may be empty |
| MsgpackWire.SendQueue | src/Krpcmsgpack_channel.cc:776-860 | what goes out for a queue is a prefix of its stream, and all of it on success |
| MsgpackWire.DrainAppend | src/Krpcmsgpack_provider.cc:22-37 | decoding in two deliveries with the leftover kept is decoding all bytes at once |
| MsgpackWire.DrainPrefix | src/Krpcmsgpack_provider.cc:22-44 | any part of a stream decodes to its first bodies in order, the whole to all of them with nothing left |
| MsgpackWire.ChunkIndependence | src/Krpcmsgpack_provider.cc:126-140 | any bytes in any deliveries are decoded as if they had arrived at once |
| MsgpackWire.EndToEnd | src/Krpcmsgpack_channel.cc:776-860 | whatever was sent and however it is cut, the decoded bodies are a prefix of the queued ones, and all of them once every byte arrived |
| MsgpackWire.FrameReader.OnBytes | src/Krpcmsgpack_channel.cc:236-249 | the loop over the buffer passes on all complete frames and keeps the rest |
| MsgpackWire.Transmit | src/Krpcmsgpack_channel.cc:776-860 | send loop and reader together: a prefix of the queue is decoded, and all of it when the kernel takes all bytes and all are delivered |
| ProtobufWire.Advance | src/Krpcchannel.cc:1259-1271 | the inner loop over the three segments advances the position by exactly the bytes written |
| ProtobufWire.SendOne | src/Krpcchannel.cc:1209-1272 | a prefix of the frame goes out for any short writes; success if and only if the body is not empty and everything went out |
| ProtobufWire.SendQueue | src/Krpcchannel.cc:1188-1281 | what goes out for a queue of messages is a prefix of its stream; with non-empty bodies and a kernel that takes all bytes, all of it |
| ProtobufWire.DecodeFrontExtend | src/Krpcprovider.cc:161-225 | a decision of the decoder, a message or closing, is not changed by bytes that arrive later |
| ProtobufWire.ProcessAppend | src/Krpcprovider.cc:158-238 | processing in two deliveries has the outcome of processing all bytes at once |
| ProtobufWire.ChunkIndependence | src/Krpcprovider.cc:158-238 | for arbitrary bytes, malformed ones too, the messages passed on, the leftover until closing and whether it closes depend only on the concatenation |
| ProtobufWire.FrameDecodes | src/Krpcprovider.cc:161-225 | the frame of a well-formed message decodes to it and its length, whatever follows |
| ProtobufWire.HeaderDecides | src/Krpcprovider.cc:161-225 | any header a client can serialise: malformed for a foreign magic or version, else complete with the announced body, and waited for until it is there |
| ProtobufWire.ForeignHeaderCloses | src/Krpcprovider.cc:197-207 | a first frame with a magic other than 0x6b727063 or a version other than 1 closes the connection with nothing passed on |
| ProtobufWire.TypeDecides | src/Krpcprovider.cc:224-238 | a request or heartbeat is passed on and decoding continues; a frame of any other type is the last |
| ProtobufWire.PassedOnAreValid | src/Krpcprovider.cc:158-238 | from any bytes, every message passed on has our magic and version and its announced body size |
| ProtobufWire.EndToEnd | src/Krpcchannel.cc:1209-1272 | any part of a stream in any deliveries decodes to the first messages in order and never closes; the whole to all of them |
| ProtobufWire.ServerConnection.OnMessage | src/Krpcprovider.cc:158-238 | the consuming loop passes on, keeps and closes as the processing of leftover and new bytes says |
| Descriptors.InvStep | src/Krpcchannel.cc:74-132 | acquiring, connecting, installing, releasing, closing and destroying keep the ownership invariant |
| Descriptors.Conservation | src/Krpcchannel.cc:640-679 | over all runs of many channels, the descriptors opened and not closed are exactly the held ones and the idle ones, never both |
| Descriptors.ClosedOnce | src/Krpcchannel.cc:655-679 | no descriptor is closed twice |
| Descriptors.ExclusiveHolders | src/Krpcchannel.cc:819-885 | no two channels hold one descriptor, and a channel's descriptor is connected to the channel's endpoint |
| Descriptors.IdleLists | src/Krpcchannel.cc:81-124 | every idle list is within the limit, has no duplicates and holds only descriptors of its own endpoint |
| Descriptors.PoolServesHealthy | src/Krpcchannel.cc:85-101 | in every run the pool hands out the newest healthy descriptor of the endpoint and closes only unhealthy ones, exactly those above it; a new connection is made only if none is healthy |
| Descriptors.ReleaseMeaning | src/Krpcchannel.cc:655-672 | a released descriptor is parked if healthy and there is room, and closed otherwise |
| ConnectionPool.Pool.TakeFrom | src/Krpcchannel.cc:85-101 | out comes the newest descriptor in good health, exactly the ones above it are closed, newest first, and none of them was healthy; nothing comes out only if none was, and then all are closed |
| ConnectionPool.Pool.Keep | src/Krpcchannel.cc:109-124 | a released descriptor is kept while there is room and closed otherwise |
| ConnectionPool.KrpcChannel.ReleaseConnection | src/Krpcchannel.cc:655-672 | the descriptor goes to the end of its endpoint's list if the pool is used, it is healthy and there is room, and is closed otherwise; other lists stay |
| ConnectionPool.KrpcChannel.BeginAttempt | src/Krpcchannel.cc:819-831 | an attempt ends at once on the same endpoint, and else releases the old connection before the key changes |
| ConnectionPool.KrpcChannel.AcquireConnection | src/Krpcchannel.cc:640-653 | a healthy idle descriptor exactly if there is one, without a new connection; otherwise the new connection's descriptor, or nothing, a refused one being closed |
| ConnectionPool.KrpcChannel.InstallConnection | src/Krpcchannel.cc:836-840 | the acquired descriptor becomes the channel's |
| ConnectionPool.KrpcChannel.CloseConnectionLocked | src/Krpcchannel.cc:674-679 | the held descriptor is closed and forgotten |
| EndpointText.ParsePrinted | src/Krpcchannel.cc:154-172 | any printed port comes back modulo 65536, refused when that is zero or the number exceeds 32 bits |
| EndpointText.ParseNumber | src/Krpcchannel.cc:154-172 | the same with leading spaces, a sign and trailing text, negative numbers wrapping to 16 bits |
| EndpointText.ParseRefuses | src/Krpcchannel.cc:154-164 | no colon, or no digit after it, is refused |
| EndpointText.DecimalText | src/Krpcchannel.cc:830 | ports are printed in decimal, most significant digit first |
| EndpointText.ListRoundTrip | src/Krpcchannel.cc:154-194 | printing endpoints joined by commas and splitting again gives the same list |
| EndpointText.KeyInjective | src/Krpcchannel.cc:1580-1602 | the text key of an endpoint determines it, whatever its host contains, so pool and cooldown entries never mix |
| EndpointText.SplitEndpoints | src/Krpcchannel.cc:174-194 | the splitting loop yields the endpoints that parse, in order |
| RoundRobin.RoundRobinLoadBalancer.UpdateNodes | src/include/load_balancer.h:26-29 | the node list is replaced |
| RoundRobin.RoundRobinLoadBalancer.Select | src/include/load_balancer.h:31-39 | nothing and no counting for no nodes, otherwise the node at the shared counter |
| RoundRobin.PicksFormula | src/include/load_balancer.h:31-44 | how often k selections pick a node, in closed form from any counter value |
| RoundRobin.Balanced | src/include/load_balancer.h:31-44 | any k consecutive selections pick each of n nodes floor(k/n) or ceil(k/n) times |
| Failover.KrpcChannel.Attempt | src/Krpcchannel.cc:819-850 | one attempt: kept, connected with its cooldown cleared, or failed with a new one |
| Failover.KrpcChannel.EnsureConnection | src/Krpcchannel.cc:793-895 | the loop with its skipping and its fallback leaves what the turn-by-turn function says |
| Failover.FailoverAsExpected | src/Krpcchannel.cc:793-895 | for distinct endpoints the search tries exactly those not cooling in rotated order up to the first success, then the one soonest to retry |
| Failover.Soonest | src/Krpcchannel.cc:802-817 | the fallback is the cooling endpoint with the least retry time, the first in rotated order on a tie |
| Failover.RotatedOrder | src/Krpcchannel.cc:806-808 | the search starts at the selected endpoint and moves on to the next one, around the end of the list |
| Failover.ReadyMeaning | src/Krpcchannel.cc:806-817 | the endpoints it offers itself are exactly those without a retry time later than now, in rotated order |
| Failover.AttemptsMayRetry | src/Krpcchannel.cc:806-895 | every attempted endpoint but the fallback has no retry time later than now, and a failed search attempted all such |
| Failover.GivesUpOnlyAfterAll | src/Krpcchannel.cc:854-895 | it returns false only after every such attempt failed, and then each tried endpoint carries a new cooldown |
| DiscoveryCache.LookupRefines | src/Krpcchannel.cc:48-72 | after any history a lookup hits exactly when the latest non-empty store for the key is younger than 5000 ms, and returns that list |
| DiscoveryCache.EndpointCache.TryGetCachedEndpoints | src/Krpcchannel.cc:48-61 | the same of the code, with its erasing of expired entries |
| DiscoveryCache.EndpointCache.StoreCachedEndpoints | src/Krpcchannel.cc:63-72 | a store is recorded, an empty one leaves the cache as it is |
| WorkerPool.InvStep | src/Krpcprovider.cc:513-556 | checking for room, pushing, taking, executing, exiting and stopping keep the invariant |
| WorkerPool.BoundedFifo | src/Krpcprovider.cc:513-556 | in every interleaving the queue stays within capacity and tasks are taken in the order they were accepted |
| WorkerPool.ExecutedAtMostOnce | src/Krpcmsgpack_provider.cc:291-370 | no task is executed twice, by workers or inline |
| WorkerPool.DrainedOnStop | src/Krpcprovider.cc:484-511 | once all workers have exited the queue is empty and every accepted task was executed, so the clean-up loop finds nothing |
| WorkerPool.OneResponsePerRequest | src/Krpcmsgpack_provider.cc:306-370 | an executed request has exactly one response; it carries its own id and names and the value returned, "call_error: " with the exception's text, "call_error: unknown", or "no such method: " with the key; a one-way frame has none |
| WorkerPool.ExecutionAnswers | src/Krpcmsgpack_provider.cc:324-370 | executing a request appends one response that reports this very call; a one-way task appends none |
| WorkerPool.AllAnswered | src/Krpcmsgpack_provider.cc:165-218 | when IO threads and workers are done, every request was answered once, accepted or refused |
| MsgpackProvider.MsgpackDispatcher.Bind | src/include/Krpcmsgpack_dispatcher.h:65-73 | the first function bound to a key stays |
| MsgpackProvider.MsgpackDispatcher.Dispatch | src/include/Krpcmsgpack_dispatcher.h:75-105 | handled means bound; the function runs only when a result is wanted; its value, "call_error: " with the text, "call_error: unknown" or "no such method: " with the key come out, errors only when wanted |
| MsgpackProvider.KrpcMsgpackProvider.EnqueueTask | src/Krpcmsgpack_provider.cc:291-304 | a task is appended, or refused on stop and left to the caller |
| MsgpackProvider.KrpcMsgpackProvider.TakeTask | src/Krpcmsgpack_provider.cc:306-322 | the oldest task, or nothing when stopped and drained |
| MsgpackProvider.KrpcMsgpackProvider.RunTask | src/Krpcmsgpack_provider.cc:324-369 | for a request one response that reports the bound function's own outcome, for a one-way task none |
| QueueAlarm.TaskQueueMonitor.LogQueueMetricsLocked | src/Krpcprovider.cc:558-584 | a new maximum is reported exactly when larger than all before, and warnings and recoveries exactly when the alarm switches |
| QueueAlarm.WatermarkIsMax | src/Krpcprovider.cc:558-563 | the watermark is the largest size seen |
| QueueAlarm.ActiveMeaning | src/Krpcprovider.cc:565-583 | the alarm is on if and only if the threshold was reached and the queue was never down to half of it since |
| QueueAlarm.RecoveryBetweenWarnings | src/Krpcprovider.cc:569-584 | between two warnings there is a recovery at a size of at most half the threshold |
| QueueAlarm.WarningBetweenRecoveries | src/Krpcprovider.cc:569-584 | between two recoveries there is a warning |
| QueueAlarm.WarningFirst | src/Krpcprovider.cc:569-584 | the first notice is a warning |
| HeartbeatDetector.InvStep | src/Krpcchannel.cc:1052-1186 | every critical section of heartbeat thread, receive loop and failure handler keeps the invariant |
| HeartbeatDetector.MissesAreTheStreak | src/Krpcchannel.cc:1078-1094 | the miss count is the streak of timeouts since the last reset and below the limit |
| HeartbeatDetector.FailureIffLimitReached | src/Krpcchannel.cc:1083-1089 | "heartbeat timeout" is declared exactly at a round that completes `limit` timeouts in a row since the last reset |
| HeartbeatDetector.SuccessByOwnPong | src/Krpcchannel.cc:1098-1155 | without failed sends and failures elsewhere each round succeeds if and only if its own PONG came while it waited, and times out otherwise; it is never fatal |
| HeartbeatDetector.OutcomeOfRound | src/Krpcchannel.cc:1098-1155 | in every run a round is fatal exactly if its PING failed or a failure elsewhere ended its wait, else success exactly by its own PONG; ids are never shared |
| HeartbeatDetector.SpoiledOnlyBy | src/Krpcchannel.cc:1134-1181 | only a failed send of the round, or a failure elsewhere while its flag is up, spoils it |
| HeartbeatDetector.ConnectedSends | src/Krpcchannel.cc:1054-1132 | a running thread that wakes with a connection waits for a fresh id; without one it resets the count |
| HeartbeatChannel.KrpcChannel.WakeUp | src/Krpcchannel.cc:1054-1068 | the loop stops, resets the count without a connection, or goes on to send |
| HeartbeatChannel.KrpcChannel.ArmHeartbeat | src/Krpcchannel.cc:1098-1132 | a fresh id is waited for; a vanished connection counts as success |
| HeartbeatChannel.KrpcChannel.AfterSend | src/Krpcchannel.cc:1134-1140 | a failed send is fatal and takes the flag down |
| HeartbeatChannel.KrpcChannel.AfterWait | src/Krpcchannel.cc:1142-1154 | timeout if the flag is still up, success if a PONG took it down, fatal if a failure did |
| HeartbeatChannel.KrpcChannel.CountResult | src/Krpcchannel.cc:1074-1094 | the count and the declared failure after each result |
| HeartbeatChannel.KrpcChannel.ResolveHeartbeat | src/Krpcchannel.cc:1495-1503 | only the PONG waited for takes the flag down |
| HeartbeatChannel.KrpcChannel.ClearWaiting | src/Krpcchannel.cc:1175-1181 | a failure elsewhere ends the wait without success |
| KeepAlive.NeverClosed | src/Krpcprovider.cc:423-444 | with 2d < interval * missLimit and 2d < request timeout, in every run a heartbeating connection is never idle-closed and no round is missed |
| KeepAlive.SilentIsClosed | src/Krpcprovider.cc:411-444 | an open connection had a frame less than interval * (missLimit + 2) ago, whatever the client does |
| KeepAlive.SlowPing | src/Krpcprovider.cc:411-444 | for every slower network there is a run in which the heartbeating connection is closed |
| KeepAlive.KeepAliveIff | src/Krpcprovider.cc:411-444 | no run closes a heartbeating connection if and only if 2d < interval * missLimit |
| IdleConnections.KrpcProvider.RegisterConnection | src/Krpcprovider.cc:397-404 | a new connection starts as just heard of |
| IdleConnections.KrpcProvider.TouchConnection | src/Krpcprovider.cc:387-395 | a frame renews a registered connection and no other; an unknown one stays unknown |
| IdleConnections.KrpcProvider.RemoveConnection | src/Krpcprovider.cc:406-409 | exactly this connection leaves the table |
| IdleConnections.KrpcProvider.OnIdleScan | src/Krpcprovider.cc:423-444 | the scan closes exactly the live connections idle for the threshold, each once, as the timed machine says |
| MetricsWindows.PercentileMeaning | src/Krpcchannel.cc:243-262 | a percentile is a sample with at least round(p*n/100) samples not above it and fewer than that below it |
| MetricsWindows.StatsOrdered | src/Krpcchannel.cc:243-265 | min <= p50 <= p95 <= p99 <= max, and the ends are the extreme samples |
| MetricsWindows.StatsDescribe | src/Krpcchannel.cc:243-266 | what is computed from the sorted samples is the window's length in whole milliseconds, its counts, and the percentiles at 50, 95 and 99 |
| MetricsWindows.SortKeeps | src/Krpcchannel.cc:244 | sorting the samples in place loses and invents none |
| MetricsWindows.MetricsAggregator.AddSample | src/Krpcchannel.cc:211-223 | the sample lands in the current window, which is closed with it exactly when the interval is over |
| MetricsWindows.MetricsAggregator.FlushLocked | src/Krpcchannel.cc:268-294 | a window of at least a millisecond with samples is reported, its length, counts, percentiles at 50, 95 and 99 and extremes, and closed; otherwise nothing is said |
| MetricsWindows.MetricsAggregator.Snapshot | src/Krpcchannel.cc:225-240 | a snapshot reports the current window in the same terms and closes it only on reset |

## Left out

- Sockets, `poll`, `recv`, `connect`, muduo and ZooKeeper: their answers are parameters or events. `writev` follows POSIX; the `send` of a heartbeat is taken to be complete.
- Threads themselves: start, join, detach, lost wake-ups and liveness. Only critical sections and loop bodies are steps, and data races within a step are not modelled.
- Two calls of `EnsureConnection` at once on one channel, between its two locked sections; other events may come in between.
- Failover.KrpcChannel.EnsureConnection: its search runs without other threads changing cooldowns or the connection in the middle of it.
- ProtobufChannel.KrpcChannel.FailPendingCalls: stated for a call that no other thread interrupts; interleavings are covered by ProtobufCalls.
- MsgpackChannel.KrpcMsgpackChannel.FailAllPending: stated for a call that no other thread interrupts; interleavings are covered by MsgpackCalls.
- ProtobufWire.ChunkIndependence: for one connection from an empty buffer below 2 GB; the client's buffer, which survives closing a connection, is not modelled across connections.
- Connections handed back to the pool in the middle of a frame.
- The destructor of the protobuf channel, which does not fail pending calls.
- The `connectNow` constructor path and `newConnect`.
- Packing of msgpack values, argument templates, arenas, reflection and storage of unknown fields (they are skipped as the parser skips them); bodies are bytes.
- The handlers of one-way msgpack frames: the dispatcher does not run them, and nothing is claimed of them.
- KeepAlive.NeverClosed: time is discrete, timers are served when due, and closing is immediate; interval * (missLimit + 1) does not overflow an int.
- DiscoveryCache.LookupRefines: reading the clock and the locked part of an operation are one step.
- MetricsWindows.PercentileMeaning: the index is computed exactly, where the code uses doubles; qps, rates, averages, labels and int overflow are left out.
- Wrap-around of the 64-bit request ids and of the selection counter.
- Discovery itself, services bound to a channel, configuration, logging, the metrics server, controllers, demos and benchmarks: input/output or easy.
- The msgpack copies of endpoint parsing, cache, failover, pool, heartbeat and idle scan, which repeat the protobuf ones.
