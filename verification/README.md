# A verified model of byterpc

byterpc multiplexes remote calls over one connection, in the style of Go's net/rpc. This project
models its hard parts in Dafny and proves what they promise, for every input, every interleaving
and every failure of a write, a read, a decoder or a hook.

- `Calls.dfy`: the client's pending calls (client.go), a transition system whose steps are the
  sections that run under `mutex` or between two locks; `reqMutex` is held by at most one sender or
  by the terminator. Responses are arbitrary. Its invariant is a conservation law: each call is in
  exactly one place.
- `JsonCodec.dfy`, `JsonClient.dfy`: the JSON codecs (json_codec.go), and the client running over
  its codec, with two tables keyed by the same numbers under different locks.
- `Client.dfy`, `ClientHost.dfy`: `Client`, `Call` and codec objects on the heap, whose methods are
  the same sections, and any schedule of them: the objects go through the states of the machine.
- `ServerConn.dfy`: one connection of the server (server.go, service.go): a reading loop, and
  workers that answer in any order, over the codec that renumbers requests.
- `EndToEnd.dfy`, `Quiescence.dfy`: client, codecs, two first-in first-out streams and server run
  together, and what the system looks like when nothing is left to do.
- `HeaderPool.dfy`, `ServerHost.dfy`: the free lists of header objects as linked lists on the heap,
  and a server of many connections that share them, each with its codec object. Ghost records say
  who holds which object.
- `Frames.dfy`: varints and length-prefixed frames (dencoder.go), as functions and as an encoder
  and a decoder that work in place on arrays.
- `Selectors.dfy`, `Balancer.dfy`: weighted selection and the latest-value channel, as machines and
  as objects that any schedule drives.
- `Naming.dfy`: lookup paths, endpoint paths and routing (utils.go, server.go).

`dafny verify dfyconfig.toml` checks everything.

## What holds, and what does not

Some promises are false of the code, and the model keeps the code as it is.

- With no address ever connected, as shipped (`Up` is commented out), random selection always fails,
  and round robin picks one fixed entry over and over, or does not return at all: it hangs exactly
  when the last update was empty and an earlier one was not (`Selectors.AsShipped`,
  `Selectors.SelectHangs`).
- `Get` keeps the mutex when selection fails or when it waits for a list: as shipped, with the
  default random selector always, and with round robin exactly when `AddrList` is empty
  (`Balancer.GetKeepsLock`). Then nothing that needs the lock happens again (`Balancer.HeldForEver`).
- The load of an address underflows when a Reset comes between a Select and its Put and the new
  initial load does not cover the Put (`Selectors.LatePuts`).
- With a plugin installed, a call is lost when `PreReadResponse` fails after the call was taken from
  `pending` (`Calls.HookFailureLosesCall`). `Calls.NoLostCall` gives the exact condition. As shipped
  this cannot happen: `plugins` is never allocated and `Add` fills only types that exist
  (plugin.go:113-132), so no hook ever fails and every call completes (`Calls.AsShippedNothingLost`).

Smaller findings: a service name with a dot or with surrounding spaces is published where lookup
does not find it (`Naming.NamingAgreement`, an equivalence); a null reply without an error ends the
client's receive loop (`JsonCodec.Transport`); a frame cut right after its length prefix reads as a
clean end of file (`Frames.ProperPrefixRejected`); a second `Close` of a started balancer panics
(`Balancer.LatestValue`).

## Assumptions

- Hooks may fail but do not change sequence numbers or error texts.
- Sequence numbers wrap around at 2^64, as `uint64` does. Results that need distinct numbers say
  that at most 2^64 calls were registered; `Calls.NoLostCall` names the calls that wrapping loses.
- A write that fails leaves nothing, the whole message, or torn bytes that no JSON decoder accepts.
  Error texts of package json are not empty.
- `ReadUvarint` is that of current versions of encoding/binary: it stops after ten bytes, and a
  number that is cut ends in an unexpected end of file.
- A Done channel belongs to one call and nobody reads from it, which is when it is fullest.

## Model

| member | source | states |
|---|---|---|
| Calls.StepKeeps | client.go:115-225 | every step of send, receive and Close keeps the invariant: each call given to send is in exactly one place (waiting, locked, pending, in the receiver's hands, completed, dropped, overwritten) |
| Calls.DrainedAll | client.go:216-219 | the drain loop completes exactly the calls in pending, each once, in whatever order the map is ranged over |
| Calls.AtMostOnce | client.go:115-221 | in every reachable state, against any server, done has run at most once for each call |
| Calls.DoneForTheFirstTime | client.go:227-236 | a step that runs done for a call runs it once and for the first time |
| Calls.NoLostCall | client.go:149-225 | once receive has returned and no send runs, a call has completed exactly once if and only if it was not in the hands of the one iteration whose PreReadResponse failed and its slot was not reused after 2^64 registrations |
| Calls.HookFailureLosesCall | client.go:160-169 | with a plugin, a complete run in which PreReadResponse fails as the plugin manager reports it and the only call is dropped and never completes |
| Calls.AsShippedNothingLost | plugin.go:113-132 | in a run without hook failures every call has completed exactly once when receive has returned and no send runs |
| Calls.ClosedForGood | client.go:119-126 | once the client is closing or shut down no sequence number is issued in any continuation, and a send that gets the lock ends in ErrShutdown without registering |
| Calls.DrainedOutcomes | client.go:204-219 | every pending call is drained; each sees ErrShutdown if the stream ended on a closed client, an unexpected EOF if it ended on an open one, and the error itself if it broke |
| Calls.FinishFacts | client.go:171-202 | for every response, body and hook: what the call gets, with the exact texts, and whether and why the loop stops |
| Calls.PreReadFacts | client.go:165-169 | the hook before the body leaves header and call as they were taken; its failure ends the loop with its own error |
| Calls.ErrorTexts | client.go:10 | the texts that are put into those errors |
| Calls.ReceiveAligned | client.go:152-203 | codec reads alternate header and body on every run; the loop stops half way through a response if and only if a header read or PreReadResponse failed, and the last read shows which failure ended it |
| Client.Call.Done | client.go:227-236 | sends when the channel has room, discards otherwise, and never blocks |
| Client.Client.Close | client.go:71-80 | only the first call closes |
| Client.Client.Register | client.go:119-133 | refuses with ErrShutdown and signals the call once when closing or shut down; otherwise enters it under the next number, modulo 2^64, and fills in the request header |
| Client.Client.Take | client.go:159-163 | returns the call pending under the number, if any, and removes exactly that entry |
| Client.Client.Terminate | client.go:204-221 | every pending call gets ErrShutdown, an unexpected EOF or the error itself, as the client was closed or not, and exactly one more signal; pending is not cleared |
| Client.Client.Finish | client.go:171-202 | the call shows the outcome of its response and is signalled once; a body error is overwritten by the result of PostReadResponse |
| ClientHost.SeenOnce | client.go:227-236 | a call for which done ran at most once shows exactly that outcome, has one value in its channel if it completed, and discarded none |
| ClientHost.SeenDrained | client.go:216-219 | the drain loop signals each pending call once with the final error and touches no other |
| ClientHost.Host.Write | json_codec.go:138-146 | the message made from the request header that send filled in is the one for the call being sent: its number, its method, its arguments |
| ClientHost.Host.Abort | client.go:136-145 | after a failed write the call that is still pending gets the write error and one signal; a call that the receiver took first is left alone |
| ClientHost.Host.Finish | client.go:171-202 | one iteration of receive on the objects is the step of the machine; the result is dereferenced only when there is one |
| ClientHost.Host.Terminate | client.go:204-221 | the drain loop on the objects is the step of the machine, in every order |
| ClientHost.Drive | client.go:82-236 | for every schedule, the objects are in the state of the machine and write its requests; no done takes the discard branch; each call shows the outcome logged for it |
| ClientHost.NeverDiscards | client.go:227-236 | at any time of any run no call has discarded a signal, and its channel holds one value if and only if it has completed |
| ClientHost.OutcomeShown | client.go:171-201 | a completed call shows the outcome logged for it and no other: the reply and no error, or the error and no reply |
| ClientHost.HungUp | client.go:152-219 | what the machine logs for a pending call when a header read fails, for every error |
| ClientHost.HangUp | client.go:152-219 | when the stream ends or breaks, every call object that was pending shows the error itself, or for an EOF an unexpected EOF, or ErrShutdown if the user had closed the client |
| JsonCodec.JsonServerCodec.ReadRequestHeader | json_codec.go:50-65 | a header gets the next number and its id is remembered under it; a failed read changes nothing in the index |
| JsonCodec.JsonServerCodec.ReadRequestBody | json_codec.go:67-81 | a discarded body succeeds; a wanted one gives its arguments, or the text for missing params, or the text of the decoding error |
| JsonCodec.JsonServerCodec.WriteResponse | json_codec.go:83-104 | answers with the remembered id exactly when the number is pending, and forgets it |
| JsonCodec.JsonClientCodec.ReadResponseHeader | json_codec.go:160-184 | header, error and index afterwards are those of the function that AnyResponse and NotedName describe, for every message |
| JsonCodec.JsonClientCodec.ReadResponseBody | json_codec.go:186-191 | after an error-free header the result is not nil |
| JsonCodec.Transport | json_codec.go:93-103 | non-empty error text arrives as that text, empty text with a non-null reply as success with that reply; the header read fails if and only if both are empty |
| JsonCodec.ResponseShape | json_codec.go:93-103 | the shape of section 1.2 of the JSON-RPC 1.0 specification: the request's id, and a result or an error but not both |
| JsonCodec.AnyResponse | json_codec.go:160-184 | for any response at all: its header reads if and only if the id is absent or a uint64 and there is an error text or, without an error, a result; number, method noted under that number, error text, and what is removed from the index |
| JsonCodec.NotedName | json_codec.go:138-169 | the response to a request names the method noted for it, whatever else is in the index |
| JsonClient.StepKeeps | json_codec.go:138-184 | every step of client and codec keeps the agreement of the two tables up to two short windows |
| JsonClient.TwoIndexAgreement | client.go:119-163 | between iterations of a live loop with no write in progress, the codec maps every pending number to the method of its call |
| JsonClient.HeaderNamesCall | json_codec.go:165-169 | a good response to a pending number gives a header that names the method of the call pending under it, and leads to that call |
| JsonClient.WriteFailureReported | client.go:134-145 | a failed write is reported to the call being written, with its error, unless the receiver took that call first |
| JsonClient.ReplyDelivered | client.go:192-201 | a call that waits for a reply gets the result of its response, or the reason why it did not decode |
| JsonClient.NeverNilResult | client.go:192-193 | whenever the loop decodes a reply, the message has a result |
| JsonClient.Refines | client.go:115-225 | every run over the JSON codec is a run of the client against an arbitrary codec |
| ServerConn.JudgeFacts | server.go:238-327 | a request is served if and only if its method is registered, it has params and no hook or decoder fails; otherwise it is refused with a non-empty text |
| ServerConn.UnroutableRefused | server.go:300-304 | a name without a dot is refused as invalid, with its own name |
| ServerConn.VerdictOf | server.go:300-327 | for every service, method, table and failures: the verdict and the exact text, decided by what is missing or fails first |
| ServerConn.BodyReadOf | server.go:238-262 | one body is read for each request; it can fail only for a registered method that the hook let pass, without params or with params that do not decode |
| ServerConn.ReachableJudged | server.go:238-327 | on every run only requests for registered methods are served, and each refusal has a text that its own header calls for |
| ServerConn.ReturnIsAnswered | service.go:129-147 | what a method returns is what is written for its own request, with that request's id |
| ServerConn.StepKeeps | server.go:212-357 | every step of a connection keeps the invariant: each request is in exactly one of dispatching, being served, answered; the codec remembers the id of every open request |
| ServerConn.RespondRemembers | server.go:329-357 | the response written for a request carries that request's id and its own reply or error |
| ServerConn.ExactlyOneAnswer | server.go:212-236 | at most one WriteResponse per header, with its number, never through the invalid-number branch; after wg.Wait exactly one for each header, and the codec's pending is empty |
| ServerConn.ServeAligned | server.go:238-327 | one body is read after each header, whatever becomes of the request, and the loop ends on a failed header read only |
| EndToEnd.StepKeeps | client.go:115-203 | every step of the whole system keeps the invariant: all messages are genuine, in order, and all outcomes correlated |
| EndToEnd.EndToEndCorrelation | service.go:129-147 | a call that completes with a reply holds the reply that its own method computed for its own arguments; a call that completes with a server error holds the text its own method returned or for which its own request was refused |
| EndToEnd.ReadAtMostOnce | server.go:284-295 | the server reads no call twice: requests read have pairwise different ids |
| EndToEnd.UnservedAnswer | server.go:300-318 | a call for an unregistered name never gets a reply; what the server answers is the text for a name without a dot, for an unknown service or for an unknown method, with the name that this call asked for |
| EndToEnd.CallsComplete | client.go:171-201 | for every registered method, argument, reply and error text, but null without an error, some run completes the call with just that |
| EndToEnd.CallsRefused | server.go:216-225 | for everything unregistered some run completes the call with a server error |
| Quiescence.StepFlows | client.go:115-203 | every step without a failed write, read or client hook keeps: each pending call is being written, on its way, with the server, on its way back or about to be taken |
| Quiescence.RestIsQuiet | server.go:212-236 | with no send, response, request or worker under way nothing but a user, or a failure, can act |
| Quiescence.QuietMeansDone | server.go:212-236 | after any run without failures, when only a user can act, every call has completed exactly once, with what the server sent for it unless the client was closed, and nothing is pending or on the streams |
| HeaderPool.Server.GetRequest | server.go:379-390 | hands out the first free object, or a new one, wiped, held by nobody else; the list stays acyclic |
| HeaderPool.Server.FillRequest | json_codec.go:55-61 | the holder's object gets the number and method of its request; other objects in use keep theirs |
| HeaderPool.Server.FreeRequest | server.go:392-397 | puts the object in front of the list and ends its ownership; the list stays acyclic and disjoint from objects in use |
| HeaderPool.Server.GetResponse | server.go:359-370 | as GetRequest, for responses |
| HeaderPool.Server.FillResponse | server.go:339-345 | the response names the number and method of its request object, and the error |
| HeaderPool.Server.PrepareResponse | server.go:329-345 | a response object of its own that names the request it answers |
| HeaderPool.Server.FreeResponse | server.go:372-377 | as FreeRequest, for responses |
| ServerHost.Host.Fetch | server.go:284-287 | a reading loop takes a wiped object, the first free one if there is any, while other connections go on undisturbed |
| ServerHost.Host.ReadHeader | server.go:287-298 | the connection makes the step of its own machine and the object belongs to the new request |
| ServerHost.Host.FailHeader | server.go:287-295 | the loop ends and the object is dropped, not freed |
| ServerHost.Host.Advance | server.go:231-236 | returning and closing touch no header object and no codec |
| ServerHost.Host.ReadRequest | server.go:238-327 | the lookup by the name in the pooled request object and the body from the codec object give the verdict that the connection's own header calls for |
| ServerHost.Host.Dispatch | server.go:212-230 | dispatching is the step of the connection's machine and touches no header object |
| ServerHost.Host.Prepare | server.go:329-345 | a worker gets its response object, the first free one if there is any, copied from its request object |
| ServerHost.Host.Write | server.go:346-352 | the message computed from the pooled object and the codec object is the one the connection would write if every request kept its own headers |
| ServerHost.Host.ReleaseResponse | server.go:333-337 | the response object goes back to the front of its free list after the write |
| ServerHost.Host.ReleaseRequest | service.go:145-146 | the request object goes back to the front of its free list, only when its request is no longer open and its response object is released |
| ServerHost.Drive | server.go:212-236 | for every schedule over any number of connections, the connections and all messages written are those of a plain server in which each request keeps headers of its own; each connection makes a run of its own machine, and ownership is intact |
| ServerHost.Take | server.go:284-397 | one step of the pooled server, enabled or not, has the effect and the messages of the same step of the plain server |
| ServerHost.Ownership | server.go:359-397 | at any time no object has two holders, none in use is on a free list, and each holds its own request's number and method |
| ServerHost.ReaderOwnership | server.go:284-287 | the object of a reading loop is wiped, on no free list, and held by no request and no other loop |
| ServerHost.NothingLeaks | server.go:212-236 | when no step is left but to accept a connection, all connections are closed, each request was answered exactly once, and nobody holds a header object |
| Frames.VarintRoundTrip | dencoder.go:93-95 | every 64-bit number is read back from at most ten bytes, whatever follows |
| Frames.VarintPrefix | dencoder.go:47-51 | a cut number is not accepted |
| Frames.VarintCanonical | dencoder.go:47-51 | an accepted number consumes its bytes and is what writing produces if and only if it is not padded |
| Frames.UvarintFormat | dencoder.go:93-95 | the format of the Base 128 Varints section: seven bits a byte, the lowest first, the top bit on all bytes but the last, no padding |
| Frames.ReadingExact | dencoder.go:47-51 | for any bytes: the value of the first number that ends within ten bytes and fits in 64 bits; too short if and only if fewer than ten bytes are left and none ends it; too large otherwise |
| Frames.UvarintExample | dencoder.go:93-95 | 150 is written 96 01, as in the Protocol Buffers document |
| Frames.FrameRoundTrip | dencoder.go:47-61 | a frame is read back with exactly the bytes after it left over |
| Frames.LengthDecides | dencoder.go:52-61 | for every 64-bit length and every rest: read, short by some or by all bytes, or a panic from 2^63 on |
| Frames.LengthFails | dencoder.go:48-51 | a cut length is an end of file, clean if and only if nothing was there; one beyond 64 bits is an overflow |
| Frames.ProperPrefixRejected | dencoder.go:47-61 | no proper prefix of a frame is accepted; it ends in a clean end of file if and only if it is empty or cut right after the length |
| Frames.FrameCanonical | dencoder.go:47-61 | an accepted frame is what writeFrame produces if and only if its length is not padded |
| Frames.StreamRoundTrip | dencoder.go:47-61 | the concatenated frames of any list of payloads give back exactly that list and then end of file |
| Frames.StreamInjective | dencoder.go:93-100 | two lists of payloads give the same bytes if and only if they are equal |
| Frames.TruncatedStream | dencoder.go:47-61 | a stream cut anywhere gives a prefix of the payloads, complete if and only if nothing was cut |
| Frames.Encoder.PutUvarint | dencoder.go:94 | the size array holds exactly the varint |
| Frames.Encoder.WriteFrame | dencoder.go:93-100 | writes the frame, or fails and leaves a proper prefix of it that no reader accepts |
| Frames.Decoder.ReadUvarint | dencoder.go:48-51 | the byte loop reads what the recursive definition reads, with the same failures |
| Frames.Decoder.ReadFull | dencoder.go:47-61 | the buffer holds exactly the payload whatever it held before; it is reused when large enough and replaced otherwise |
| Frames.Decoder.DecodeAll | dencoder.go:37-45 | repeated reads of one decoder give all payloads of the stream and end as the stream ends |
| Frames.Encoder.EncodeAll | dencoder.go:93-100 | writes the whole stream if and only if the writer takes all its bytes, and otherwise exactly as many bytes of it as the writer takes |
| Frames.Transmit | dencoder.go:37-100 | encoder and decoder together deliver a prefix of the payloads, and all of them if and only if the writer took all bytes |
| Selectors.ExpansionCount | selector.go:38-76 | one Reset lists an address as often as the weight of its first occurrence, and maps exactly the listed ones |
| Selectors.AtoiExact | selector.go:48-53 | Atoi gives a positive number if and only if the text is that number in decimal, below 2^63, perhaps after a plus sign and zeros |
| Selectors.WeightAndLoad | selector.go:44-69 | the weight is what the entry "weight" writes and 1 when it writes no positive number; the load what "load" writes, or 0; whatever the other entries |
| Selectors.ListedAsWritten | selector.go:38-76 | an address is listed as often as the weight entry of its first occurrence says, and mapped to that occurrence with the weight and load it says |
| Selectors.CountAfterResets | selector.go:38-76 | after any Resets an address is listed as often as the sum of its first-occurrence weights; the map knows only the last Reset |
| Selectors.SelectTerminates | selector_rr.go:27-50 | the loop returns if and only if some entry is connected or the entry just before the start is still mapped |
| Selectors.ForeverIsForever | selector_rr.go:31-50 | the model's verdict that the loop does not end is exact: no iteration ever returns |
| Selectors.RoundRobinResult | selector_rr.go:21-51 | picks the first connected entry at or cyclically after next, or with none connected the entry just before next, and leaves next one past the pick |
| Selectors.Positions | selector_rr.go:27-34 | what start, cyclically after and just before mean, as indices |
| Selectors.WeightedFairness | selector_rr.go:27-41 | with all addresses of one Reset connected, any k times n consecutive picks choose each address k times its weight, from any start |
| Selectors.NeverConnectedNeverRotates | selector_rr.go:42-48 | with nothing connected every Select picks the same entry and next stays |
| Selectors.RandomFails | selector_random.go:38-49 | fails if and only if no entry is connected, wherever the scan starts |
| Selectors.RandomPicks | selector_random.go:38-48 | the pick is the first connected entry at or cyclically after the random number modulo the length |
| Selectors.PickLoads | selector_rr.go:35-48 | a pick of either kind is a mapped address whose load goes up by one modulo 2^64; nothing else in the map changes |
| Selectors.LoadAccounting | selector.go:121-127 | after any Resets, Selects of either kind and Puts, the load is the initial load plus Selects minus Puts since the last Reset modulo 2^64, and exactly that if and only if it fits |
| Selectors.NoUnderflow | selector.go:121-127 | while an address was put back no more often than selected since the last Reset, its load is exact and not below where it started |
| Selectors.LatePuts | balancer.go:198-204 | after a Reset, Puts that match earlier Selects underflow the load if and only if they outnumber the new initial load |
| Selectors.SelectShipped | selector_rr.go:21-51 | with nothing connected and next at 0, Select fails on an empty list, never returns on an empty map, and otherwise picks the last entry |
| Selectors.AsShipped | selector.go:78-108 | after any history of a shipped selector random selection fails; round robin fails if and only if no update was non-empty, hangs if and only if the last was empty and an earlier one was not, and otherwise picks one fixed entry of the last update |
| Selectors.SelectHangs | selector_rr.go:31-50 | a concrete history after which Select does not return |
| Selectors.BaseSelector.Reset | selector.go:38-76 | the loops build the map of first occurrences and append the expansion |
| Selectors.BaseSelector.AddrList | selector.go:109-115 | one entry for each mapped address, and nothing else |
| Selectors.BaseSelector.Put | selector.go:121-127 | decrements the load modulo 2^64 and ignores unknown addresses |
| Selectors.RoundRobinSelector.Select | selector_rr.go:21-51 | result and new state are those of the scan |
| Selectors.RandomSelector.Select | selector_random.go:23-50 | result and new loads are those of the cyclic scan from the random index |
| Balancer.StepKeeps | balancer.go:92-271 | every step keeps: one value at most waits in a channel and it is the last published there, the current channel is closed exactly when the balancer is, and only a repeated Close panics |
| Balancer.LatestValue | balancer.go:115-120 | the send never blocks, a run with at most one Close never panics, and an unread value is the most recently published one |
| Balancer.PassPublishes | balancer.go:99-120 | an open balancer publishes exactly the addresses of the update, replacing an unread list |
| Balancer.QuietAfterClose | balancer.go:112-114 | nothing is published after Close, and each loop exits at its next pass through the lock |
| Balancer.GetKeepsLock | balancer.go:179-207 | as shipped a Get, blocking or not, keeps the lock if and only if the balancer is open and selection is random or AddrList is empty; the Gets without an address are these and those of a closed balancer, which change nothing |
| Balancer.GetPicks | balancer.go:198-205 | as shipped the address that Get returns is one of the last update, the last entry of the list; its load goes up by one and nothing else changes |
| Balancer.PutLowersLoad | balancer.go:201-203 | the put function lowers the load of its address by one modulo 2^64 and changes nothing else |
| Balancer.ConsumerReadsLatest | balancer.go:115-120 | a consumer reads the list that was published last on its channel and leaves the channel empty |
| Balancer.StartOpens | balancer.go:123-147 | a new current channel and a loop if and only if open and resolved; otherwise nothing changes |
| Balancer.UpdateArrives | balancer.go:92-120 | what the watcher returns is what the selector is reset to and whose addresses are published; a failing watcher ends its loop |
| Balancer.HeldForEver | balancer.go:179-207 | a lock kept by Get is never released: no update, publication or Close happens in any continuation |
| Balancer.BalancerObject.StartWatching | balancer.go:123-147 | the step of the machine: a new empty channel and a loop if and only if the balancer is open and the resolver succeeds |
| Balancer.BalancerObject.WatchPass | balancer.go:99-120 | the step of the machine; the send finds the channel open and empty |
| Balancer.BalancerObject.Close | balancer.go:256-271 | the step of the machine; it panics if and only if a started balancer is closed already |
| Balancer.BalancerObject.Get | balancer.go:179-207 | the step of the machine, with the address that GetPicks and GetKeepsLock describe |
| Balancer.BalancerObject.Consume | balancer.go:115-120 | the step of the machine, with the list that ConsumerReadsLatest describes |
| Balancer.Drive | balancer.go:92-271 | any schedule on the objects is a run of the machine: sends never block or hit a closed channel, an unread list is the last one published on its channel, each address returned is a good pick and each list read the latest |
| Naming.AcceptedInvokePoint | utils.go:65-74 | an invoke point is accepted if and only if it has exactly one colon, and the path is made of what precedes it and of what follows it up to the first dot |
| Naming.RouteRecovers | server.go:300-306 | dispatch at the last dot recovers service and method |
| Naming.NamingAgreement | utils.go:65-74 | the lookup path opens the published endpoint path if and only if the service name has no dot and no surrounding spaces; routing recovers the service name in any case |
| Naming.EndpointParts | server.go:439-445 | the published path splits into the PSM, the trimmed service name and the address |
| Naming.TrimExact | server.go:161 | trimming takes all spaces off both ends and nothing else |
| Naming.WrapArrayErrs | utils.go:47-57 | nil only for an empty list, otherwise the lines that LinesAreTexts and LinesInOrder describe |
| Naming.LinesAreTexts | utils.go:47-57 | the wrapped error has every text on a line of its own, in order |
| Naming.LinesInOrder | utils.go:47-57 | whatever the texts are, each follows the lines of those before it |

## Left out

- gob_codec.go and the text of JSON and protobuf: library serializers; a codec is a faithful value codec that may fail.
- Listening, accepting, dialing, logging, configuration and the server singleton: plumbing around the modelled parts.
- Registration of methods by reflection (service.go:56-126): the tables of services and methods are given.
- Plugin bodies (plugin.go): fan-out loops; a hook is an outcome that may fail.
- Registries, resolvers and the watcher: thin wrappers over libraries.
- `numCalls` and `activeConn`: counters that nothing reads.
- A nil reply pointer: every call is taken to want its reply.
- `make` running out of memory for a huge frame length: only the panic of a length above 2^63 - 1 is modelled.
- A Done channel that several calls share: discards are then possible, and the source leaves them to the caller.
- Liveness: that a step is eventually taken is not stated; `Quiescence.QuietMeansDone` says what holds when none is left.
