# GWSockets verification

A Dafny model of the two hand-written cores of GWSockets, and proofs about them.

- **The socket lifecycle.** `GWSocket` with its asynchronous layer, the queue of events, and the module's registry of
  sockets. Each asynchronous call leaves a completion handler outstanding, stamped with the generation it captured; the
  environment may complete any outstanding handler at any time, with success, a closed-type error or another error.
- **The URL engine.** `Url.cpp`: character classes, percent codecs, the wrapping number scanner, IPv4 and IPv6
  validation, the IPv6 and path normalisers, the query list, the parser and the printer.

`dafny verify dfyconfig.toml` checks the whole project.

## Structure

| files | content |
|---|---|
| SocketMachine | the socket as a value: one function per operation, steps and runs |
| GWSocket, BlockingQueue | the classes, each method proved equal to the function of the same name |
| HandlerAccounting, EventGrammar, WriteQueue, SocketHistory, SocketInvariant | what every step keeps, and what it means for every reachable state |
| GracefulClose, CloseGuarantee | when close() ends and what spoils it; exactly when it has sent everything |
| GenerationGuard | the guard as a refinement of an atomic close |
| SocketTrace, ConnectChain | what each step must tell Lua, enqueue and count as sent, by tables over the actions; the order of the connect chain |
| CloseOwnership | the compare-exchanges on `state` under any interleaving of threads |
| Cookies | the checks on cookies and headers, and what the handshake request carries of them |
| Registry, RegistrySafety, LuaModule, StrayHandler | the registry as a value, its invariant, its loops, and a run in which a handler outlives its socket |
| TickLaws, LiveSession | what a tick and the closing of the module do to each socket, and a run in which a socket connects, answers and reads |
| Text, Results | splitting and joining text; results |
| UrlChars, UrlCodec, UrlBytes, UrlNumbers | scanning loops, codecs, both against tables of chars, numbers, ports, IPv4 |
| UrlIpv6, Ipv6Address, Ipv6Normal, Ipv6RoundTrip, Ipv6Length | the IPv6 validator, the value of an address, the normaliser, its guarantees, and how long its text gets |
| UrlPath, UrlDots, UrlQuery | the path normaliser, what dots mean in it and how it compares with RFC 3986, and the query list |
| UrlParts, UrlLayout, UrlComplaints, Url, UrlMeaning, UrlRoundTrip, UrlHostless, UrlInstances | the parser and the printer, what a URL stands for part by part, parse-print-parse with and without a host, and URLs that show its cases; UrlComplaints has every text and the first complaint of it |

A `char` stands for one byte. A C++ exception is a result value that carries its message. Spurious failure of the weak
compare-exchange, the outcome of each operation, what Lua callbacks do, and the iteration order of hash maps are
parameters.

## Where the code does not do what one would expect

The code is modelled as it is. Each of these has its exact condition or a witness in the table below.

- The repository's README says that close() waits for all queued messages. If nothing else interferes it sends them
  exactly if the attempt was connected or nothing was queued (`CloseGuarantee.CloseSendsEverythingIff`); an attempt
  still connecting discards them (`CloseGuarantee.WaitingMessageIsDropped`).
- clearQueue after close() on a connection that is up removes the request to disconnect itself, for good
  (`GracefulClose.OnlyClearQueueLosesTheMarker`, `GracefulClose.MarkerlessForever`, `CloseGuarantee.MarkerGetsLost`).
- write() after close() on an attempt still connecting starts a write on a stream that is not ready
  (`GracefulClose.FaultsComeFromEarlyWrites`, `CloseGuarantee.EarlyWriteHappens`).
- The generation guard fails for a handler that outlives 2^32 bumps (`GenerationGuard.LateHandlerBreaksTheGrammar`).
- With several threads closeNow() may return false without having closed the socket: when its exchange fails because of
  a close() (`CloseOwnership.CloseNowCanLose`), and when the attempt it looked at is over and the next one has come up
  (`CloseOwnership.CloseNowCanMissAConnection`). `CloseOwnership.WhenItGivesUp` has the exact condition.
- A handler's guard reads the counter of its socket, which is gone if a tick deleted the socket with the handler still
  outstanding. `RegistrySafety.DeletionIsCleanIff` has the exact condition, and
  `StrayHandler.HandlerOutlivesItsSocket` a run of the registry. That the poll before the deletion runs every
  cancelled handler is a property of Boost and an explicit hypothesis here.
- setHeader accepts the name of the Cookie field, so that a request can carry cookies that setCookie never saw. The
  server reads exactly those set if and only if no header has that name (`GWSockets.GWSocket.DecorateRequest`,
  `CookieRules.CookieBySetHeader`).
- The number scanner wraps at 2^32, so that some large numbers pass as ports and octets (`UrlNumbers.PortTestIsRight`,
  `UrlNumbers.Ipv4TestIsRight`).
- The IPv6 validator differs from RFC 4291 on texts with an IPv4 tail in exactly three families
  (`UrlIpv6.MixedTestIsRight`), of each of which there is an instance.
- The all-zero IPv6 address is printed as a single colon unless it was spelled `::`
  (`Ipv6RoundTrip.NormalizingKeepsTheAddress`).
- What follows the bracket of a host in brackets is dropped unless it begins with a colon
  (`UrlComplaints.LiteralVerdict`).
- A URL whose authority is empty loses it: file:///x is written as file:/x, whose IP version is another one
  (`UrlHostless.ParsePrintParseHostless`, `UrlHostless.EmptyHostIsLost`).
- Two dots at the end of a path take the slash in front of them with them, where section 5.2.4 of RFC 3986 leaves one:
  /b/a/.. becomes /b. Apart from that the normaliser agrees with that section on every absolute path without a double
  slash (`UrlDots.AgreesWithRfc3986`, `UrlDots.UpAtEnd`); double slashes it merges (`UrlDots.DotVanishes`).
- The printer escapes user names that the parser then refuses (`UrlRoundTrip.UserMustBePlain`).
- build_url leaves `m_built` false, so that the text is printed anew each time (`Urls.Url.BuildUrl`).

## Model

| member | source | states |
|---|---|---|
| `GWSockets.GWSocket.Close` | src/GWSocket.cpp:31-53 | Keeps the socket reachable and its request data unchanged, reports success exactly in CONNECTING and CONNECTED, and otherwise changes nothing; the new state is the machine's, with the marker appended and, on a connected socket, the queue pumped |
| `GWSockets.GWSocket.DoClose` | src/GWSocket.cpp:56-66 | Bumps the counter, discards the queue, resets the writer, goes to DISCONNECTED and puts the disconnect event, whatever the state was |
| `GWSockets.GWSocket.SetDisconnectingCAS` | src/GWSocket.cpp:71-92 | Without another thread it succeeds exactly from the closable states and then leaves DISCONNECTING; the retry is in CloseOwnership |
| `GWSockets.GWSocket.CloseNow` | src/GWSocket.cpp:94-102 | Closes at once from a closable state, reports whether it did, and does nothing otherwise |
| `GWSockets.GWSocket.CloseImmediately` | src/GWSocket.h:67 | closeNow as the module calls it: the socket stays reachable and its request data unchanged |
| `GWSockets.GWSocket.OnRead` | src/GWSocket.cpp:113-137 | A message is put with the text that was read and the next read started; a closed-type error closes with its reason or the default one; any other error is reported |
| `GWSockets.GWSocket.OnDisconnected` | src/GWSocket.cpp:25-28 | The completed close of the stream ends the attempt |
| `GWSockets.GWSocket.ErrorConnection` | src/GWSocket.cpp:139-148 | From a closable state puts the error and then the disconnect event, and otherwise does nothing |
| `GWSockets.GWSocket.HandshakeCompleted` | src/GWSocket.cpp:150-172 | Reports the connection, starts reading and pumps the queue only from CONNECTING; after a close() it closes the socket instead; a failure is reported |
| `GWSockets.GWSocket.SocketConnected` | src/GWSocket.cpp:174-213 | Starts the next handshake, or reports the failure |
| `GWSockets.GWSocket.DecorateRequest` | src/GWSocket.cpp:183-207 | For a valid socket and whatever the iteration orders: a Cookie field in front that reads back as the cookies set, if there are any, then each header once with its value and nothing else; no name or value can end its line; and the server reads exactly the cookies that were set if and only if no header has the name of the Cookie field, in whatever case |
| `GWSockets.GWSocket.HostResolvedStep` | src/GWSocket.cpp:216-226 | Starts connecting, or reports the failure of the resolver |
| `GWSockets.GWSocket.Open` | src/GWSocket.cpp:228-247 | Acts only from DISCONNECTED: clears the queue if asked, starts a new generation and leaves one resolve handler outstanding |
| `GWSockets.GWSocket.CheckWriting` | src/GWSocket.cpp:249-283 | Takes one entry off the queue when no write is in flight and the state is CONNECTED or DISCONNECT_REQUESTED: a message is written, the marker closes the stream, also when the weak exchange fails spuriously |
| `GWSockets.GWSocket.Write` | src/GWSocket.cpp:285-293 | Appends the message and pumps the queue, whatever the state |
| `GWSockets.GWSocket.OnWrite` | src/GWSocket.cpp:295-311 | A completed write frees the writer and pumps the queue; an error closes or is reported |
| `GWSockets.GWSocket.ClearQueue` | src/GWSocket.cpp:313-317 | Empties the outgoing queue, the marker included |
| `GWSockets.GWSocket.ClearOutgoing` | src/GWSocket.h:77 | clearQueue as the module calls it: the socket stays reachable and its request data unchanged |
| `GWSockets.GWSocket.SetCookie` | src/GWSocket.cpp:341-353 | Stores the cookie exactly if its name is a token, its value consists of cookie octets and the socket is DISCONNECTED; all stored cookies keep passing the checks |
| `GWSockets.GWSocket.SetHeader` | src/GWSocket.cpp:356-368 | Stores the header exactly if its name is a token, its value a field value and the socket is DISCONNECTED |
| `GWSockets.GWSocket.InvokeHandler` | src/GWSocket.h:113-124 | The closure of guardGeneration: the handler is consumed, and its body runs only if the counter still has the captured value; a reachable socket stays reachable unless the handler outlived 2^32 bumps |
| `GWSockets.GWSocket.BumpGeneration` | src/GWSocket.h:110 | The counter is an unsigned int and wraps around |
| `GWSockets.GWSocket.TakeMessages` | src/GLua.cpp:343 | Takes every queued event and leaves everything else as it was |
| `GWSockets.GWSocket.AsyncConnect` | src/SSLWebSocket.cpp:55-76 | Leaves a connect handler outstanding, or reports the TLS parameters that could not be set |
| `GWSockets.GWSocket.AsyncHandshake` | src/SSLWebSocket.cpp:79-82 | Leaves a handler of the TLS handshake outstanding on a TLS socket, and of the websocket handshake on any other |
| `GWSockets.GWSocket.AsyncRead` | src/WebSocket.cpp:17-20 | Leaves a read handler outstanding |
| `GWSockets.GWSocket.SslHandshakeComplete` | src/SSLWebSocket.cpp:84-95 | Starts the websocket handshake, or passes the error on to handshakeCompleted |
| `GWSockets.GWSocket.AsyncWrite` | src/WebSocket.cpp:22-30 | Sets messageToWrite and leaves a write handler outstanding |
| `GWSockets.GWSocket.AsyncCloseSocket` | src/WebSocket.cpp:40-43 | Leaves a close handler outstanding |
| `GWSockets.GWSocket.ValidTells` | src/GWSocket.cpp:31-317 | What the invariant kept by every public method gives of the fields: the outstanding handlers match the state, the events are in the grammar, every entry of the queue is accounted for, and a connected idle writer has an empty queue |
| `BlockingQueues.BlockingQueue.Put` | src/BlockingQueue.h:13-17 | Appends at the back |
| `BlockingQueues.BlockingQueue.Empty` | src/BlockingQueue.h:19-21 | True exactly when nothing is queued |
| `BlockingQueues.BlockingQueue.Clear` | src/BlockingQueue.h:61-66 | Returns everything in the order it was put and leaves the queue empty |
| `SocketInvariant.HandlersAreAccountedFor` | src/GWSocket.cpp:31-311 | In every reachable state the live handlers are exactly those the state calls for, so every state but DISCONNECTED has a completion that moves it on, and DISCONNECTED has none |
| `HandlerAccounting.StepAccounted` | src/GWSocket.cpp:31-311 | Every API call and every timely completion keeps the accounting |
| `HandlerAccounting.GuardIsExact` | src/GWSocket.h:113-124 | Below 2^32 bumps the wrapped comparison tells a live handler from a stale one, both ways |
| `SocketInvariant.EventsFollowTheGrammar` | src/GWSocket.cpp:56-172 | The events of every run are a prefix of ((CONNECTED MESSAGE*)? ERROR? DISCONNECTED)*, with one DISCONNECTED for every two bumps, and the trace is between attempts exactly in DISCONNECTED |
| `EventGrammar.Parsed` | src/GWSocket.cpp:56-172 | A trace that the automaton accepts is spelled by finished attempts and at most one open session |
| `SocketInvariant.WritesAreConserved` | src/GWSocket.cpp:249-317 | Every enqueued entry is queued or has one fate; what was handed to asyncWrite keeps the order of enqueueing; at most one message is in flight and messageToWrite is its text; on a connected socket an idle writer means an empty queue |
| `WriteQueue.HandedInOrder` | src/GWSocket.cpp:249-283 | What was handed over is the enqueued messages at strictly increasing positions |
| `SocketHistory.RunRemembers` | src/GWSocket.cpp:31-311 | No run takes back an event, an enqueued entry, a write or a fate |
| `SocketInvariant.ReachableInv` | src/GWSocket.cpp:31-311 | The whole invariant holds in every reachable state |
| `SocketTrace.StepTells` | src/GWSocket.cpp:25-311 | In a state of the invariant every step puts exactly the events that a table over the action, the operation completed and its outcome says, each with its text: what was read, the error with the prefix of its operation, the reason of the disconnect, in this order |
| `SocketTrace.RunTells` | src/GWSocket.cpp:25-311 | The events put over a run are those of the table, step by step |
| `SocketTrace.TextsAreKept` | src/GWSocket.cpp:113-148 | The texts of the messages put over a run are exactly what its live reads delivered, in order; the texts of its errors and the reasons of its disconnects are exactly those of the table |
| `SocketTrace.RunEnqueues` | src/GWSocket.cpp:31-53 | What passes through the outgoing queue over a run is each message that was written, with its kind, and a marker for each close() that found the attempt running, in that order |
| `SocketTrace.OpenKeepsTheQueueUnlessAsked` | src/GWSocket.cpp:228-247 | open() clears the messages written before it exactly if its flag says so, and otherwise keeps all of them for the new attempt |
| `SocketTrace.RunSends` | src/GWSocket.cpp:295-311 | What counts as sent over a run are exactly the entries whose write was completed without an error by its live handler |
| `ConnectChain.StepOnTrack` | src/SSLWebSocket.cpp:55-95 | Every step keeps what has succeeded in the attempt a prefix of the order of its socket: resolve, connect, the TLS handshake on a TLS socket and on no other, the websocket handshake; the live handler is that of the next in this order |
| `ConnectChain.LiveInOrder` | src/SSLWebSocket.cpp:55-95 | After every run an operation of the chain is live only if exactly those before it in that order have succeeded in this attempt, and the socket is up only if all have |
| `ConnectChain.NoUpgradeWithoutTls` | src/SSLWebSocket.cpp:79-95 | On a TLS socket no handler of the websocket handshake is live before the TLS handshake of the attempt has succeeded |
| `ConnectChain.ConnectedAfterTheChain` | src/GWSocket.cpp:150-172 | A step puts a connected event if and only if it is the live success of the last operation of an attempt that nobody has closed, all others having succeeded before in this order |
| `GracefulClose.GracefulCloseTerminates` | src/GWSocket.cpp:31-53 | After close(), without early writes and without a clearQueue that takes the marker of a connection that is up, each completion but the reader's lowers a rank until DISCONNECTED is reached, with exactly one disconnect event, and until then such a completion is outstanding |
| `GracefulClose.CloseStartsClosing` | src/GWSocket.cpp:31-53 | A successful close() starts such a closing run, or has already ended the attempt |
| `GracefulClose.GracefulCloseDrains` | src/GWSocket.cpp:249-293 | At the moment the stream is being closed, every message of the attempt enqueued before close() was sent or removed by clearQueue, none enqueued after it was written, and no write is in flight |
| `GracefulClose.NothingIsWrittenAfterClose` | src/GWSocket.cpp:249-293 | Once the stream is being closed nothing more is written before DISCONNECTED, and no later run writes what was enqueued after the close() |
| `GracefulClose.FaultsComeFromEarlyWrites` | src/GWSocket.cpp:249-253 | A run starts an operation on a stream that is not ready if and only if it has a write() on an attempt that is closing and still connecting |
| `GracefulClose.CloseWhileConnectingDiscards` | src/GWSocket.cpp:161-166 | A close() on an attempt still connecting writes nothing and discards the queue, however the attempt ends |
| `GracefulClose.OnlyClearQueueLosesTheMarker` | src/GWSocket.cpp:313-317 | On a connected socket that is closing, a step loses the marker if and only if it is clearQueue |
| `GracefulClose.MarkerlessStays` | src/GWSocket.cpp:313-317 | Without its marker the closing socket is never closed by its own writes and reads: only closeNow or an error ends the attempt |
| `GracefulClose.MarkerlessForever` | src/GWSocket.cpp:313-317 | So it stays through every run without a closeNow or a failing completion, whatever is written |
| `CloseGuarantee.CloseSendsEverythingIff` | src/GWSocket.cpp:31-53 | On any run from close() to DISCONNECTED without early write and, on a connection that is up, without clearQueue, closeNow or failure before the marker is taken: everything of the attempt enqueued before is sent, unless cleared before, if and only if the attempt was connected or nothing was queued; nothing enqueued later is written; a weak exchange that fails spuriously changes nothing of this |
| `CloseGuarantee.ConnectingSendsNothing` | src/GWSocket.cpp:150-172 | From an attempt still connecting that holds exactly if the queue was empty |
| `CloseGuarantee.WaitingMessageIsDropped` | src/GWSocket.cpp:161-166 | A reachable run: open, write, close and a connection chain without any error; the message is dropped |
| `CloseGuarantee.EarlyWriteHappens` | src/GWSocket.cpp:249-253 | A reachable socket on which a second write() starts a write although the stream is not ready |
| `CloseGuarantee.MarkerGetsLost` | src/GWSocket.cpp:313-317 | A reachable socket that has lost its marker |
| `GenerationGuard.StepSimulates` | src/GWSocket.h:107-124 | Each step of the code is the same step of a machine whose doClose removes all pending handlers at once, or, for a stale completion, no step at all |
| `GenerationGuard.GuardRefinesAtomicClose` | src/GWSocket.h:107-124 | Every run of the code is a run of that machine with the stale completions left out, ending in the same state, queues, events and histories |
| `GenerationGuard.EveryRunIsAtomic` | src/GWSocket.h:107-124 | That holds of every run of a constructed socket, which starts in the same state as the machine |
| `GenerationGuard.LateHandlerBreaksTheGrammar` | src/GWSocket.h:110 | The bound is needed: a reachable socket and a handler that outlived 2^32 bumps whose delivery breaks the event grammar |
| `CloseOwnership.DisconnectingHasOneOwner` | src/GWSocket.cpp:71-92 | Under every interleaving of loads and exchanges, DISCONNECTING has exactly one owner that is yet to run doClose, and no other state has one |
| `CloseOwnership.NextRises` | src/GWSocket.cpp:71-92 | The state only rises within an attempt, and the next attempt begins only from DISCONNECTED |
| `CloseOwnership.RetriesAreBounded` | src/GWSocket.cpp:78-85 | setDisconnectingCAS retries at most once within an attempt, and otherwise only as often as attempts have moved on |
| `CloseOwnership.AloneItSucceedsWhenClosable` | src/GWSocket.cpp:71-92 | Without interference it succeeds exactly from the closable states |
| `CloseOwnership.GivingUpMeansClosing` | src/GWSocket.cpp:86-89 | When a call whose exchange failed returns false, another thread has requested, begun or finished closing, or a later attempt has begun; on the attempt it loaded it always returns false then |
| `CloseOwnership.WhenItGivesUp` | src/GWSocket.cpp:71-92 | Under every interleaving the next step of a call returns false if and only if it finds nothing to close at its load, or its exchange failed and the state it then looks at is not CONNECTING, nor CONNECTED within the attempt that it loaded |
| `CloseOwnership.CallSucceedsIfUndisturbed` | src/GWSocket.cpp:71-92 | If no other thread closes or reopens between its load and its return, a call returns true exactly if the state was closable, whatever else the others do |
| `CloseOwnership.CloseNowCanLose` | src/GWSocket.cpp:86-89 | An interleaving in which closeNow returns false while close() has only requested the disconnect |
| `CloseOwnership.CloseNowCanMissAConnection` | src/GWSocket.cpp:78-89 | An interleaving without any close() in which closeNow returns false and the socket is CONNECTED |
| `CookieRules.CookieHeader` | src/GWSocket.cpp:185-199 | The decorator's loop writes the pairs in iteration order, separated by a semicolon and a space |
| `CookieRules.CookieHeaderReadsBack` | src/GWSocket.cpp:185-199 | For cookies that passed the checks and any iteration order, the header read as in section 4.2.1 of RFC 6265 is exactly the stored map |
| `CookieRules.CookieHeaderIsFieldValue` | src/GWSocket.cpp:341-353 | No cookie that passed the checks can put a control char into the header |
| `CookieRules.Decorate` | src/GWSocket.cpp:183-207 | The same of the decorator's two loops, for any maps that passed the checks |
| `CookieRules.HeaderFieldsCarry` | src/GWSocket.cpp:201-206 | Whatever the iteration order, each header is one field with its own value, and there are no others |
| `CookieRules.TokenCharsAreRfc7230` | src/GWSocket.cpp:319-324 | A token has any visible char but the delimiters of section 3.2.6 of RFC 7230 |
| `CookieRules.CookieOctetsAreRfc6265` | src/GWSocket.cpp:332-339 | A cookie value has exactly the octets of section 4.1.1 of RFC 6265 |
| `CookieRules.CookieBySetHeader` | src/GWSocket.cpp:356-368 | Any header with that name passes the checks of setHeader, and then a request without cookies carries one |
| `CookieRules.CookieBySetHeaderInstance` | src/GWSocket.cpp:356-368 | Such as Cookie with the value a=b |
| `LuaModules.LuaModule.CreateWebSocket` | src/GLua.cpp:267-291 | A new socket is registered as one that exists, and a safe registry stays safe |
| `LuaModules.LuaModule.SocketOpen` | src/GLua.cpp:172-191 | Throws exactly when the socket is not DISCONNECTED, and otherwise pins the table once and opens the socket; a safe registry stays safe |
| `LuaModules.LuaModule.SocketGCFunction` | src/GLua.cpp:409-427 | While the module is open the finalizer unpins and marks the socket and closes it, and a safe registry stays safe; afterwards, when the socket is gone, it does nothing |
| `LuaModules.LuaModule.Call` | src/GLua.cpp:172-427 | Any call that Lua can make keeps a safe registry safe |
| `TickLaws.CallRuns` | src/GLua.cpp:172-427 | A call that Lua can make runs its operation, with its arguments, on its socket and touches no other; a new socket is of the class asked for, under an address not used before; only open() pins a table and only the collector marks a socket |
| `LuaModules.LuaModule.DeleteCollectedSockets` | src/GLua.cpp:321-336 | The erasing loop deletes exactly the collected sockets that are DISCONNECTED, once each |
| `LuaModules.LuaModule.DeliverMessages` | src/GLua.cpp:350-385 | Every message taken is handed to Lua in order, and each callback's calls take effect before the next |
| `LuaModules.LuaModule.DeliverTo` | src/GLua.cpp:339-396 | One entry of the copied list: delivers, and drops the reference only when the socket is DISCONNECTED and nothing was taken |
| `LuaModules.LuaModule.WebSocketThink` | src/GLua.cpp:315-398 | A whole tick equals poll, deletion and delivery over the copied list, and keeps the registry safe |
| `LuaModules.LuaModule.PollIo` | src/GLua.cpp:317-320 | The poll completes the handlers in turn, each that is outstanding and timely at its turn (`TickLaws.PollRuns` says what becomes of each socket); one whose socket was deleted counts as the use of a dangling pointer |
| `LuaModules.LuaModule.DeliverToEach` | src/GLua.cpp:338-396 | The loop over the copied list equals delivery to each entry in turn, and keeps the registry safe |
| `LuaModules.LuaModule.ModuleClose` | src/GLua.cpp:499-521 | Closes the referenced sockets, polls, and deletes every socket left |
| `LuaModules.LuaModule.CloseReferenced` | src/GLua.cpp:502-505 | close() on every referenced socket |
| `LuaModules.LuaModule.DeleteEverySocket` | src/GLua.cpp:510-514 | The loop closes and deletes each existing socket once |
| `TickLaws.PollRuns` | src/GLua.cpp:317-320 | After a poll every socket in memory is what a run of exactly its own completions makes of it, in order, each whenever it is outstanding and timely at its turn; nothing else has changed but what is known of deleted sockets |
| `TickLaws.TickDelivers` | src/GLua.cpp:338-385 | For every socket whose table is pinned a tick delivers all that was queued after the poll, in order and behind what was delivered before |
| `TickLaws.TickDeletes` | src/GLua.cpp:321-336 | A tick deletes every socket that the collector had taken before it, once, and none of the others |
| `TickLaws.TickLetsGo` | src/GLua.cpp:386-395 | When the callbacks call nothing, a tick drops the reference of exactly those sockets that are DISCONNECTED after the poll with nothing more to tell |
| `TickLaws.EachIsClosed` | src/GLua.cpp:499-505 | Closing the module makes of each referenced socket what one close() makes of it, so that none stays connecting or connected, and leaves the others alone |
| `TickLaws.ClosingRuns` | src/GLua.cpp:499-521 | What each socket goes through when the module is closed: close() if its table is pinned, its completions of the last poll, closeNow(); it is deleted as it is then, DISCONNECTED or with its stream being closed already |
| `LiveSession.SessionIsDelivered` | src/GLua.cpp:267-398 | A run from the loading of the module: create, open and one tick whose poll connects the socket and reads once; Lua has been told of the connection and of the message, and what its first callback wrote is on its way |
| `RegistrySafety.RegistryIsSafe` | src/GLua.cpp:172-427 | After every run the collected and the referenced sockets are disjoint subsets of the existing ones, every socket that is not DISCONNECTED is referenced, each socket is deleted at most once, exactly when it no longer exists, and a dangling pointer was used only by handlers that outlived their socket: never, if no tick deleted a socket with a handler outstanding |
| `RegistrySafety.DeletionIsCleanIff` | src/GWSocket.h:113-124 | The deletions of a tick leave no pointer that a later poll can use if and only if no socket deleted has a handler outstanding |
| `StrayHandler.HandlerOutlivesItsSocket` | src/GLua.cpp:315-337 | A run from the loading of the module on that needs the hypothesis: create, open, closeNow, two ticks, collect, a tick that deletes the socket and one whose poll runs its resolve handler; a dangling pointer was used once |
| `RegistrySafety.EventsAreDeliveredOnce` | src/GLua.cpp:315-427 | The events delivered for an existing socket followed by those queued are the events it put, in order; a socket that can be collected is DISCONNECTED and has everything delivered |
| `RegistrySafety.DeliveredObeysGrammar` | src/GLua.cpp:315-427 | What Lua was told by any socket ever created obeys the event grammar, and is whole attempts once the socket can be collected or has been deleted |
| `RegistrySafety.DeliverEntriesSafe` | src/GLua.cpp:338-396 | Whatever the callbacks do, every pointer of the copied list stays valid through the whole loop |
| `RegistrySafety.ModuleCloseDeletesEverySocketOnce` | src/GLua.cpp:499-521 | After module close every socket ever created has been deleted exactly once, all containers are empty, nothing more was delivered and no further pointer dangled |
| `RegistrySafety.LateFinalizersDoNothing` | src/GLua.cpp:411-415 | Any sequence of finalizers after module close is possible and changes nothing |
| `RegistrySafety.FinalizersAfterClosing` | src/GLua.cpp:409-521 | A whole life of the module: after any run in which no tick deleted a socket with a handler outstanding, its closing and any finalizers after it, none of whose sockets exists, no dangling pointer was used |
| `UrlChars.CheckChars` | src/Url.cpp:46-51 | True exactly when all chars of the range are of the mask |
| `UrlChars.Masks` | src/Url.cpp:17-43 | What each of the six masks lets through |
| `UrlChars.ToLower` | src/Url.cpp:105-109 | Setting bit 0x20 of the capitals is the lower-case text |
| `UrlChars.FindFirstOf` | src/Url.cpp:112-118 | The first position with one of the chars, or the end |
| `UrlChars.FindChar` | src/Url.cpp:121-125 | The first position of the char, or the end |
| `UrlCodec.Decode` | src/Url.cpp:422-435 | The loop decodes the range, or fails; which byte an escape stands for is stated in UrlBytes |
| `UrlCodec.DecodePlus` | src/Url.cpp:438-453 | The same with a plus sign for a space |
| `UrlCodec.DecodesExactlyTheWellFormed` | src/Url.cpp:422-453 | Decoding succeeds exactly when every percent sign is followed by two hexadecimal digits |
| `UrlCodec.Encode` | src/Url.cpp:456-470 | The loop writes the escaped text |
| `UrlCodec.EncodeQueryKey` | src/Url.cpp:473-497 | The same for keys, which escape the separators of a query |
| `UrlCodec.EncodeQueryVal` | src/Url.cpp:500-522 | The same for values, which leave the equals sign alone |
| `UrlCodec.DecodeEncode` | src/Url.cpp:422-522 | Decoding undoes each of the three encoders on every text of chars below 128 |
| `UrlCodec.RoundTripNeedsPercentEscaped` | src/Url.cpp:462-469 | That holds for a mask if and only if the mask does not let the percent sign through |
| `UrlCodec.DecodedIsNoWider` | src/Url.cpp:422-470 | Encoding what was decoded never gives a longer text |
| `UrlBytes.EscapeDecodes` | src/Url.cpp:425-431 | A percent sign and two hexadecimal digits, of either case, in front of any text decode to the char of that value in front of what the text decodes to |
| `UrlBytes.BytesComeBack` | src/Url.cpp:422-453 | Any text of bytes, each written as two hexadecimal digits of either table, decodes to that text |
| `UrlBytes.CharDecodes` | src/Url.cpp:438-451 | Any other char stands for itself, but in a query a plus sign for a space |
| `UrlBytes.StrayPercentFails` | src/Url.cpp:428-429 | A percent sign without two digits behind it is refused with its message |
| `UrlBytes.CharEncodes` | src/Url.cpp:463-521 | What each char below 128 is written as, in each of the three encoders: itself, a plus sign for a space in a query, or its escape in upper-case digits |
| `UrlBytes.MasksAreRfc3986` | src/Url.cpp:17-43 | The four masks without the percent sign are the char classes that sections 3.2.1 to 3.5 of RFC 3986 give to names, users, paths, and queries and fragments |
| `UrlBytes.DigitTables` | src/Url.cpp:83-103 | The value of a hexadecimal digit is its place in the table, and the digits that are written are those of the tables |
| `UrlBytes.LowerTable` | src/Url.cpp:105-109 | Lower case by the two tables of letters |
| `UrlBytes.LowerOthers` | src/Url.cpp:105-109 | What is no capital stays as it is |
| `UrlBytes.OnlyDigits` | src/Url.cpp:83-103 | Nothing but the chars of the tables is a digit |
| `UrlNumbers.IsUint` | src/Url.cpp:74-86 | The scanner reads a lone zero or the whole run of digits, and compares its value modulo 2^32; on failure the pointer stays |
| `UrlNumbers.ScansWhole` | src/Url.cpp:74-86 | It reads a whole text exactly when that is a canonical decimal of small value modulo 2^32 |
| `UrlNumbers.IsPort` | src/Url.cpp:373-375 | Accepts exactly the canonical decimals that are at most 65535 modulo 2^32 |
| `UrlNumbers.PortTestIsRight` | src/Url.cpp:373-375 | The port test is right exactly when the number does not wrap around to a small one; on at most nine digits it is always right |
| `UrlNumbers.WrappedPort` | src/Url.cpp:78-81 | 4294967296 is accepted as a port |
| `UrlNumbers.IsIpv4` | src/Url.cpp:152-160 | True exactly for 7 to 254 digits and dots |
| `UrlNumbers.IsValidIpv4` | src/Url.cpp:168-173 | Accepts exactly four canonical decimals between dots, each at most 255 modulo 2^32 |
| `UrlNumbers.ValidIpv4IsDottedQuad` | src/Url.cpp:168-173 | On at most 15 chars that is exactly four dec-octets of section 3.2.2 of RFC 3986 |
| `UrlNumbers.Ipv4TestIsRight` | src/Url.cpp:168-173 | It accepts exactly the dotted quads and the wrapped ones, which are four canonical numbers of small value modulo 2^32, one of them at least 2^32; none is both |
| `UrlNumbers.WrappedNumberPasses` | src/Url.cpp:168-173 | Any number that wraps around to a small one passes as one of four |
| `UrlIpv6.IsValidIpv6` | src/Url.cpp:214-256 | The loop accepts exactly the texts of 2 to 39 chars of the described language, with or without a dotted tail |
| `UrlIpv6.DotFreeIsRfc4291` | src/Url.cpp:214-256 | On text without dots that language is exactly the one of section 2.2 of RFC 4291: eight groups, or one pair of colons with at most seven groups around it |
| `UrlIpv6.MixedTestIsRight` | src/Url.cpp:229-231 | On text with dots it agrees with section 2.2 of RFC 4291 if and only if the text is of none of three families, each described by the text alone: a pair of colons that stands for nothing, a number that wraps around, more than 39 chars |
| `UrlIpv6.EmptyPairPasses` | src/Url.cpp:229-231 | Six groups, a pair of colons and any dotted quad are accepted |
| `UrlIpv6.EmptyPairInstance` | src/Url.cpp:229-231 | 1:2:3:4:5:6::1.2.3.4 is accepted and no address of RFC 4291 |
| `UrlIpv6.WrappedPasses` | src/Url.cpp:229-231 | Behind a pair of colons a number that wraps around is accepted |
| `UrlIpv6.WrappedInstance` | src/Url.cpp:229-231 | ::1.4294967296.1.1 is accepted and no address of RFC 4291 |
| `UrlIpv6.LongIsRefused` | src/Url.cpp:214-217 | Six groups and a dotted quad of more than 39 chars in all are refused, an address of RFC 4291 though they are |
| `UrlIpv6.LongInstance` | src/Url.cpp:214-217 | The longest such address, of 45 chars |
| `Ipv6Normal.IsIpv6` | src/Url.cpp:198-206 | True exactly for 2 to 254 hexadecimal digits, colons and dots |
| `Ipv6Normal.SplitTokens` | src/Url.cpp:270-287 | The pointers stored are those of the parts between the colons, and never exceed the ten entries |
| `Ipv6Normal.DecodeFields` | src/Url.cpp:297-310 | The fields hold the values of the groups in order and the position of the empty token is found, within eight entries and 16 bits |
| `Ipv6Normal.ReadField` | src/Url.cpp:305-307 | The loop over the digits computes the value of the group, without loss in 16 bits |
| `Ipv6Normal.Spread` | src/Url.cpp:311-318 | The fields behind the empty token move to the end and zeros fill the gap |
| `Ipv6Normal.LocateRun` | src/Url.cpp:320-342 | Finds the first longest run of zero fields, and none if it has a single field |
| `Ipv6Normal.Print` | src/Url.cpp:344-364 | Prints the recommended text, except that eight zeros come out as a single colon |
| `Ipv6Normal.NormalizeIpv6` | src/Url.cpp:264-365 | For accepted text without dots, all stages together print the address the text stands for |
| `Ipv6RoundTrip.NormalizingKeepsTheAddress` | src/Url.cpp:264-365 | The normal form is accepted again if and only if the text is not an address of zeros spelled otherwise than "::", and then it stands for the same eight fields and follows section 4 of RFC 5952 |
| `Ipv6RoundTrip.NormalizingIsIdempotent` | src/Url.cpp:264-365 | Normalising twice is normalising once |
| `Ipv6RoundTrip.EqualAddressesEqualTexts` | src/Url.cpp:264-365 | Two texts have the same normal form exactly when they stand for the same address |
| `Ipv6RoundTrip.RecommendedIsNormal` | src/Url.cpp:320-364 | A text that follows the recommendations of section 4 of RFC 5952 is left as it is |
| `Ipv6RoundTrip.ZerosAreWrecked` | src/Url.cpp:346-348 | Eight zeros spelled out are printed as a colon, which is no address |
| `Ipv6Length.NormalizedIsNoLonger` | src/Url.cpp:264-365 | The normal form is at most one char longer than the text |
| `Ipv6Length.OneLonger` | src/Url.cpp:264-365 | And that is what a pair of colons for a single zero in second place costs |
| `Ipv6Address.CanonStandsFor` | src/Url.cpp:344-364 | The recommended text of any eight 16-bit fields is accepted and stands for them |
| `Ipv6Address.RecommendedIsCanon` | src/Url.cpp:320-364 | The recommendations leave exactly one text for each address, the one printed here |
| `UrlPath.NormalizePath` | src/Url.cpp:383-419 | The loop over the segments and the printing of the stack equal the recursive specification, whose laws are those of UrlDots and below |
| `UrlPath.GetLine` | src/Url.cpp:390 | Reads the segment up to the next slash, or to the end |
| `UrlPath.WalkSegments` | src/Url.cpp:386-407 | The loop leaves on the stack what the specification says; what that means for a text with dots is stated in UrlDots |
| `UrlPath.JoinElems` | src/Url.cpp:412-417 | Prints the stack with slashes between |
| `UrlPath.NormalPathIsIdempotent` | src/Url.cpp:383-419 | Normalising twice is normalising once |
| `UrlPath.KeepsAbsolute` | src/Url.cpp:408-410 | A path is absolute after normalising exactly if it was before |
| `UrlPath.NormalPathIsClean` | src/Url.cpp:391-406 | No segment of a normal path is "." or "..", and none is empty but before a leading and after a trailing slash |
| `UrlPath.NormalPathComposes` | src/Url.cpp:383-419 | Normalising the front first changes nothing, if and only if the front is empty or absolute or does not vanish |
| `UrlPath.NormalPathIsNoWider` | src/Url.cpp:383-419 | A normal path is never longer, not even encoded |
| `UrlDots.UpUndoes` | src/Url.cpp:393-397 | Two dots between slashes undo the segment in front of them, whatever stands before and behind: p/x/../q has the normal form of p/q |
| `UrlDots.DotVanishes` | src/Url.cpp:391-392 | A dot between slashes makes no difference, and neither does an empty segment |
| `UrlDots.UpAtRoot` | src/Url.cpp:393-397 | Two dots at the root make no difference, and neither do two dots in front of a relative path |
| `UrlDots.UpAlone` | src/Url.cpp:402-405 | Nor do two dots behind the root alone |
| `UrlDots.UpAtEnd` | src/Url.cpp:402-405 | Two dots at the end undo the segment in front of them, and leave no trailing slash unless nothing else is left |
| `UrlDots.DotAtEnd` | src/Url.cpp:400-401 | A dot at the end stands for a trailing slash |
| `UrlDots.OrdinaryIsNormal` | src/Url.cpp:383-419 | Every path of ordinary segments, absolute or not, with or without a trailing slash, is its own normal form |
| `UrlDots.AgreesWithRfc3986` | src/Url.cpp:383-419 | On an absolute path without a double slash the normal form is what the algorithm of section 5.2.4 of RFC 3986 gives, if and only if the path does not end in two dots with something left in front of them |
| `UrlDots.UpAtEndInstance` | src/Url.cpp:402-405 | /b/a/.. becomes /b, where that algorithm gives /b/ |
| `UrlQuery.ParseQuery` | src/Url.cpp:811-829 | The loop reads the list of entries that the query stands for, or fails with its message |
| `UrlQuery.ReadEntry` | src/Url.cpp:815-828 | One turn of the loop reads the entry at the pointer, key before value |
| `UrlQuery.QueryRoundTrip` | src/Url.cpp:811-896 | Every nonempty list with nonempty keys, over chars below 128, comes back from its text, values with separators included |
| `UrlQuery.QueryIsNoLonger` | src/Url.cpp:811-896 | A query that was read is written back no longer than it was |
| `UrlMeaning.SeparatorsSplit` | src/Url.cpp:811-829 | A query with a semicolon or an ampersand in it stands for the entries in front of it followed by those behind it, an empty side for one empty entry; the first side that fails is what it fails with |
| `UrlMeaning.OneEntryIs` | src/Url.cpp:814-827 | An entry is its key and its value, split at the first equals sign and decoded with plus signs for spaces; without an equals sign the value is empty |
| `UrlMeaning.QueryTextIs` | src/Url.cpp:881-896 | The text of a query: keys, values behind equals signs only if they are not empty, ampersands between the entries |
| `UrlLayout.CheckScheme` | src/Url.cpp:128-137 | Accepts exactly a letter followed by letters, digits, plus, minus and dot |
| `UrlLayout.ReadLayout` | src/Url.cpp:697-792 | Cuts the text into the parts of the specification, or refuses it with the same message |
| `UrlLayout.ReadAuthority` | src/Url.cpp:722-774 | User, host and port, or the first complaint |
| `UrlLayout.ReadHost` | src/Url.cpp:733-766 | A literal in brackets, an IPv4-shaped text or a registered name |
| `UrlLayout.ReadLiteral` | src/Url.cpp:733-754 | The literal up to its bracket; a port is read only if a colon is the next char, and anything else there drops the rest of the authority |
| `UrlLayout.ReadPort` | src/Url.cpp:767-773 | The port behind a colon, if there is one |
| `UrlLayout.ReadTail` | src/Url.cpp:776-791 | Path, query and fragment, or the first complaint |
| `UrlComplaints.UrlVerdict` | src/Url.cpp:705-791 | A text with an authority, cut at its marks: the scheme is complained of first, then the authority, then what follows; otherwise it has exactly those parts |
| `UrlComplaints.HostlessVerdict` | src/Url.cpp:705-791 | The same of a text without one, which has no host |
| `UrlComplaints.UserVerdict` | src/Url.cpp:722-731 | What stands in front of the first at sign is the user, complained of before the host |
| `UrlComplaints.HostVerdict` | src/Url.cpp:755-773 | A host without brackets is dotted digits or a name or is complained of, and then the port behind the first colon, an empty one included |
| `UrlComplaints.LiteralVerdict` | src/Url.cpp:732-773 | A host in brackets: a bracket that is not closed and a text of another shape are complained of; behind the bracket a colon begins a port, and anything else is dropped |
| `UrlComplaints.TailVerdict` | src/Url.cpp:776-791 | Path, query and fragment at their marks, the path complained of before the fragment, each by its text |
| `UrlComplaints.EveryUrl` | src/Url.cpp:705-719 | Every text is cut in one of these ways: a scheme or none, and the rest |
| `UrlComplaints.EveryRest` | src/Url.cpp:720-722 | Behind two slashes every rest is an authority and what follows it |
| `UrlComplaints.EveryAuthority` | src/Url.cpp:722-731 | Every authority is a user or none, and a host |
| `UrlComplaints.EveryHost` | src/Url.cpp:732-773 | Every host is in brackets, begins a bracket that nothing closes, or is in none, with a port or without |
| `UrlComplaints.EveryTail` | src/Url.cpp:776-791 | Every tail is a path, a query or none, and a fragment or none |
| `UrlParts.LayoutWellCut` | src/Url.cpp:697-792 | The parts have only the chars they may have and, with their separators, are together no longer than the text |
| `Urls.Interpret` | src/Url.cpp:793-832 | Decodes and normalises each part in the source's order, or fails with the first complaint |
| `Urls.ReadStoredHost` | src/Url.cpp:800-806 | The host in lower case or, for an accepted IPv6 text, normalised |
| `Urls.Url.ParseUrl` | src/Url.cpp:688-844 | Assigns all fields or, on a complaint, none |
| `Urls.Url.Clear` | src/Url.cpp:672-685 | Empties every field and marks the object parsed and built |
| `Urls.Url.FindObstacle` | src/Url.cpp:865-896 | The first reason for which the fields cannot be written, if any |
| `UrlMeaning.WritableIff` | src/Url.cpp:865-896 | Fields can be written if and only if no user and no port hang on a missing host, a path without a host has no colon before its first slash, a path with a host begins with a slash, and every query entry has a key |
| `UrlMeaning.ReasonIs` | src/Url.cpp:865-896 | Otherwise the first of these that fails, in the source's order, is the reason |
| `Urls.Url.BuildUrl` | src/Url.cpp:847-901 | Parses if needed, replaces the text by the printed fields or fails with its reason, and leaves the fields alone |
| `Urls.PrintQuery` | src/Url.cpp:881-896 | The loop writes the entries with ampersands between them |
| `Urls.Url.PrintAuthority` | src/Url.cpp:852-864 | User, host and port, with the default port left out |
| `Urls.Url.PrintTail` | src/Url.cpp:876-898 | Path, query and fragment, each only if not empty |
| `UrlRoundTrip.ParsePrintParse` | src/Url.cpp:688-901 | For every text that parses to a name or an IPv4-shaped host and can be written: the text written is no longer, parses to the same fields exactly if the port is not the one the scheme implies, and is written again as it is |
| `UrlRoundTrip.ParsePrintParseIpv6` | src/Url.cpp:688-901 | For an accepted IPv6 host: the text written is at most one char longer, parses to the same fields, but for a default port, if and only if the address was not turned into a colon and the text still fits the limit of 8000 chars, and if it parses it is written again as it is |
| `UrlInstances.LoopbackUrl` | src/Url.cpp:688-901 | ws://[::1]/ is parsed and written as it is |
| `UrlInstances.ZeroUrl` | src/Url.cpp:346-348 | ws://[0:0:0:0:0:0:0:0]/ is parsed to the host that is a colon |
| `UrlInstances.ColonUrlIsRefused` | src/Url.cpp:733-751 | Which is written as ws://[:]/, and that is refused |
| `UrlInstances.GrowingUrl` | src/Url.cpp:688-695 | A URL of 8000 chars whose address gets a zero written out is written as a text that is refused for its length |
| `UrlInstances.GrowingUrlInstance` | src/Url.cpp:264-365 | There is such a URL |
| `UrlHostless.ParsePrintParseHostless` | src/Url.cpp:688-901 | For every text that parses to no host and can be written: the text written is no longer, parses to the same fields with no authority, so to the same fields exactly if there was none, and is written again as it is |
| `UrlHostless.HostlessWritableIff` | src/Url.cpp:865-896 | Without a host it can be written exactly with no user, no port, no colon in the first segment of the path and a key in each query entry |
| `UrlHostless.PrintParseHostless` | src/Url.cpp:688-901 | Whatever fields without a host come from, their text parses to them without an authority |
| `UrlHostless.EmptyHostParses` | src/Url.cpp:722-766 | With two slashes in front of its path that text parses to an empty host |
| `UrlHostless.EmptyHostIsLost` | src/Url.cpp:847-864 | Which printing drops |
| `UrlHostless.EmptyHostInstance` | src/Url.cpp:688-844 | As in file:///x and file:/x |
| `UrlHostless.NoDoubleSlash` | src/Url.cpp:383-419 | No normal path begins with two slashes, so that none is taken for an authority |
| `UrlRoundTrip.SpellingParses` | src/Url.cpp:688-844 | Every spelling of a host and a port that the parser accepts, in front of a printed tail, parses to what it stands for |
| `UrlMeaning.MeansWhatIsWritten` | src/Url.cpp:688-844 | A text put together from a scheme, a user, a host, a port, a path, a query and a fragment, each as it may be written, parses to: the scheme and a name in lower case, the user and the port as they are, an IPv6 host and the path in their normal forms, and the rest decoded |
| `UrlMeaning.RefusedAsWritten` | src/Url.cpp:793-832 | And otherwise the first of path, query and fragment that does not decode is the reason why it is refused |
| `UrlMeaning.TooLongIsRefused` | src/Url.cpp:688-695 | A text of more than 8000 chars is refused, and the empty text parses to empty fields |
| `UrlMeaning.CaseIsIgnored` | src/Url.cpp:145-149 | Two texts that differ only in the case of their scheme and of their name parse to the same fields |
| `UrlMeaning.DefaultPortsAreDropped` | src/Url.cpp:862-864 | A text is the same with and without its port if and only if there is none, or it is 80 under http or 443 under https |
| `UrlMeaning.WritesItsParts` | src/Url.cpp:847-901 | What is written for fields with a host is each part in its place, the user, the path, the query and the fragment encoded |
| `UrlMeaning.DefaultPortInstance` | src/Url.cpp:847-901 | HTTP://A:80/ parses to its scheme, host and port in lower case and is written as http://a/ |
| `UrlRoundTrip.PrintParse` | src/Url.cpp:688-901 | Whatever printable fields come from, their text parses to them, but for a default port |
| `UrlRoundTrip.ParsedIsPrintable` | src/Url.cpp:793-843 | What the parser stores is printable |
| `UrlRoundTrip.PrintedIsNoLonger` | src/Url.cpp:847-901 | The text written is never longer than the one parsed, but for one char with an IPv6 host |
| `UrlRoundTrip.WritableIfKeys` | src/Url.cpp:865-896 | A parsed URL with a host can be written exactly when each query entry has a key |
| `UrlRoundTrip.UserMustBePlain` | src/Url.cpp:725-731 | Fields with a host come back from their text if and only if the user needs no escapes; otherwise the parser refuses the text |
| `UrlRoundTrip.ColonHostIsRefused` | src/Url.cpp:733-751 | The host that an all-zero address was turned into is refused when its text is parsed |
| `UrlRoundTrip.SmallestUrl` | src/Url.cpp:688-844 | ws://a/ parses to its scheme, host and path |

## Left out

- TLS certificate verification and its callback, which is not guarded by the generation; Boost, OpenSSL, DNS and real I/O.
- Message compression options, and the Host field and path of the handshake request.
- Locks and data races: everything but CloseOwnership is single threaded, and CloseOwnership covers `state` only.
- GWSockets.GWSocket.SetDisconnectingCAS: its retry is modelled in CloseOwnership, since a single thread cannot make the exchange fail.
- GWSockets.GWSocket.SocketConnected: says which handler is left; the host text is not modelled, and what the decorator adds is `DecorateRequest`.
- GWSockets.GWSocket.AsyncConnect: the new stream object and its verify mode are not modelled, only that setting the TLS parameters can fail.
- What an operation does that is started on a stream that is not ready: it is counted as a fault.
- BlockingQueue: take, remove, removeIf and swapToFrontIf, which the module does not use.
- The Lua stack API, printing, error reporting to Lua, module opening, the update checker and the standalone main.
- LuaModules.LuaModule.CreateWebSocket: the URL it is given, the choice of the socket class by its scheme, the port number and the refusal of a bad URL are not modelled; the class is a parameter.
- TickLaws.PollRuns: what a poll makes of the handlers of deleted sockets, which is `StrayHandler` and `RegistrySafety`.
- TickLaws.TickLetsGo: callbacks that call something, which can reopen the socket.
- LuaModules.LuaModule: its sockets are values of SocketMachine rather than GWSocket objects, an address is not used twice, and a poll delivers only timely completions to sockets in memory.
- UrlCodec.Encode: bytes of 128 and more, for which the source indexes its table of digits by a negative number.
- UrlCodec.EncodeQueryKey: the same.
- UrlCodec.EncodeQueryVal: the same.
- UrlBytes.CharEncodes: the same.
- Urls.Url.BuildUrl: fields with such bytes.
- UrlMeaning.WritesItsParts: the same.
- UrlMeaning.WritableIff: the same.
- UrlMeaning.ReasonIs: the same.
- Urls.Url.PrintTail: the same.
- Urls.PrintQuery: entries with such bytes.
- UrlLayout.ReadLiteral: IPvFuture literals, for which the result is OutOfModel.
- UrlComplaints.LiteralVerdict: the same.
- UrlLayout.ReadHost: the same.
- UrlLayout.ReadAuthority: the same.
- UrlLayout.ReadLayout: the same.
- Urls.Url.PrintAuthority: the branch that prints an IPvFuture literal.
- Urls.ReadStoredHost: IPv6 hosts that the validator would refuse or that contain dots, which the source normalises unchecked; the result is OutOfModel.
- Urls.Interpret: the same hosts.
- UrlMeaning.MeansWhatIsWritten: the same hosts, and texts without a host, of which UrlHostless has the parse.
- UrlMeaning.RefusedAsWritten: the same.
- Urls.Url.ParseUrl: the same hosts, and IPvFuture literals.
- Ipv6Normal.NormalizeIpv6: texts with an IPv4 tail, and texts that pass the shape test without being accepted addresses.
- Ipv6Normal.SplitTokens: texts of more than eight parts, which no accepted address has.
- Ipv6Normal.ReadField: groups of more than four digits, which no accepted address has.
- Ipv6Normal.Spread: the six fields in front of an IPv4 tail.
- Ipv6Normal.LocateRun: the same.
- Ipv6Normal.Print: the same.
- Ipv6Normal.DecodeFields: lists of parts that no accepted address has, with several empty ones, long groups or an IPv4 tail.
- The setters, the copy and move assignments, and the debug output of Url.
