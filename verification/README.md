# Verified model of the mbed C++ Socket API, v0

A Dafny model of the parts of the Socket API that keep state of their own, with proofs about whole
runs. `dafny verify dfyconfig.toml` checks everything.

The network stack (SAL, lwIP) and the minar scheduler are an environment: the stack decides results,
events and segmentation; the scheduler is a log of posted callbacks and a set of running periodic
tasks. Three components are modelled.

**Event dispatch.** `Dispatch` gives the callbacks a history of registrations, guarded calls and stack
events posts, twice: executed on stored handlers (`Run`), and read off the history with no stored state
(`FilterMap`). `SocketObject` is the socket object with its masked and unmasked setters, three event
handlers and interrupt entry, proved against `Dispatch`. `Masking` goes below that: a handler is several
words, the main program writes them one at a time in any order, and interrupts run between any two
steps while they are enabled. Callers may open critical sections of their own. The handler each storing call receives is named by the step that begins
the call, so one schedule stands for every choice of handler values.

**Socket population.** `Population` is the device state: live objects at addresses, the pointer-sized
TCP counter, the shared tick, which stack socket (`impl`) each object holds, and the calls made to
stack and scheduler. `PopulationProofs` has what every operation keeps, `PopulationRuns` the theorems
over runs, `PopulationCalls` what each operation asks of the stack and the account of every impl,
`DeviceCode` the constructors, destructors, `open`, `bind` and `accept` statement by statement.

**Echo tests.** `TcpEcho` joins the TCP echo client and the host handler by two reliable ordered byte
streams (section 2.6 of RFC 793) cut into pieces anywhere; `UdpEcho` is the UDP stop-and-wait client
over a network that loses echoes but delivers each at most once, unaltered. `TcpEchoCode` and
`UdpEchoCode` are the programs themselves: client callbacks on fields and buffers, `terminate`, and
the host's receive loop. A send of the host that fails, after any number of bytes, or that finds the
server stopped, is a step of the TCP wire like any other.

Each code layer ends in a driver (`SocketObject.Drive`, `DeviceCode.RunOps`, `TcpEchoCode.Drive`,
`UdpEchoCode.Drive`) that takes the objects through an arbitrary run by their own methods and lands on
the model's state, so that the theorems about runs are about this code. In `SocketObject.Drive` sockets
may be opened and closed anywhere between the calls, and the stack may leave any impl and entry behind.

## Premises

- Callbacks run to completion; their order is not assumed. A callback's socket is alive when it runs.
- Interrupts do not nest, and main-program code runs one call at a time; interrupts start enabled.
- The allocator returns non-empty ranges that avoid null and every live object. Objects are not copied.
- An impl the stack hands out, by `create` or with an incoming event, is at that moment neither held by
  another live socket nor waiting to be accepted; impls and handles given back may be handed out again.
  `socket_get_api` is a function of the stack. Each incoming impl is taken up at most once, on the
  listener it came to (`AcceptSharesIff` says exactly what happens otherwise).
- In the echo runs the stack accepts sends and reads, and reports as sent only bytes already sent. The
  TCP connect callback runs at most once (`SecondConnectBalancesIff` says what a second one would do).
- How a handler tests true is not fixed: it is a parameter (`truthy`, `isSet`).

## Where code and documentation differ

The model follows the code. `Socket::error_check` posts the error handler without testing it, although
README.md:8-9 and sockets/v0/Socket.h:113-118 say errors are ignored when none is set;
`OnlySetHandlersPostedIff` gives the exact runs in which the promise holds, and `AdoptStream` a place
where it always fails. `Socket::bind` tries to open
an unopened socket, but every class overrides the `open` it dispatches to with a refusal
(`BindNeverOpens`). The UDP client sends `sizeof(BUFFER_SIZE)` bytes, the size of an `int`, so four bytes
of its 64. The masked setters enable interrupts on return even if they were disabled on entry
(`SectionProtectsIff` says what that costs a caller). The host's docstring says nothing is sent after the
end marker is received, because such a send fails; a marker cut across two pieces is not recognised, and
the send is attempted (`EchoCanBeCutShort`).

## Model

| member | source | states |
|---|---|---|
| Dispatch.LogIsFilterMap | source/v0/Socket.cpp:62-132 | for every history on any mix of socket kinds, the posted log equals a filter-map of the history: each event yields at most one callback, bound to the most recent handler stored before it |
| Dispatch.SlotsHoldLatest | source/v0/Socket.cpp:92-132 | the stored handlers are always what a backward scan of the history finds, guarded calls that return early storing nothing |
| Dispatch.LatestIsMostRecentStore | source/v0/Socket.cpp:92-132 | the handler bound to an event was written by one particular earlier store that no later one superseded, or no store was ever made |
| Dispatch.OneCallbackPerOrigin | source/v0/Socket.cpp:62-90 | posted callbacks correspond one to one, in order, to the actions that contribute, and no contributing action is missed |
| Dispatch.ErrorsRunOnError | source/v0/Socket.cpp:52-70 | after any history, the three error events and error_check run the error handler last set, with their error |
| Dispatch.ListenersRunOnError | source/v0/TCPListener.cpp:88-94 | on a listener the events of a stream run the error handler last set, with `unimplemented` |
| Dispatch.DataRunsOnReadable | source/v0/Socket.cpp:71-74 | on a UDP socket or stream received data runs the readable handler last set |
| Dispatch.SentRunsOnSent | source/v0/Socket.cpp:75-78 | a finished transmission runs the sent handler last set, with its byte count |
| Dispatch.DnsRunsResolver | source/v0/Socket.cpp:79-82 | on every kind of socket a DNS answer runs the handler of the last resolve not refused, with address and name |
| Dispatch.ConnectedRunsConnector | source/v0/TCPStream.cpp:69-75 | the connection of a stream runs the handler of its last connect not refused |
| Dispatch.DisconnectedRunsOnDisconnect | source/v0/TCPStream.cpp:76-79 | its disconnection runs the disconnect handler last set |
| Dispatch.IncomingRunsListener | source/v0/TCPListener.cpp:99-103 | an incoming connection runs the handler of the last start_listening not refused, with the impl it brings |
| Dispatch.QuietEvents | source/v0/Socket.cpp:83-89 | the remaining events post nothing, whatever is registered |
| Dispatch.RunStaysInAlphabet | source/v0/TCPListener.cpp:79-108 | in every run a listener posts no readable, sent, connect or disconnect callback, only a stream posts the last two, only a listener posts incoming connections |
| Dispatch.OnlySetHandlersPostedIff | source/v0/Socket.cpp:52-70 | every posted callback is bound to a set handler iff no error_check meets an error while no error handler is set |
| Dispatch.UnheardCheckPostsNull | source/v0/Socket.cpp:52-60 | as long as a socket has stored no error handler, each error reported through error_check posts a NULL handler |
| SocketObject.Socket.constructor | source/v0/Socket.cpp:24-33 | no handler stored in any slot, no impl, the event entry is the object's own |
| SocketObject.Socket.ErrorCheckNow | source/v0/Socket.cpp:52-60 | reports whether there is an error, and posts the error handler untested when there is one |
| SocketObject.Socket.BaseEventHandler | source/v0/Socket.cpp:62-90 | posts what the dispatch table says for a base socket, given the handlers stored now |
| SocketObject.Socket.StreamEventHandler | source/v0/TCPStream.cpp:69-85 | posts what the dispatch table says for a stream, falling back to the base socket |
| SocketObject.Socket.ListenerEventHandler | source/v0/TCPListener.cpp:79-108 | posts what the dispatch table says for a listener |
| SocketObject.Socket.OnInterrupt | source/v0/Socket.cpp:111-119 | runs the handler of the concrete class, clears the event reference, and steps the represented history by that event |
| SocketObject.Socket.SetOnErrorTo | source/v0/Socket.cpp:92-97 | replaces the error handler and nothing else, and leaves interrupts enabled whatever they were |
| SocketObject.Socket.SetOnReadableTo | source/v0/Socket.cpp:98-103 | the same for the readable handler |
| SocketObject.Socket.SetOnSentTo | source/v0/Socket.cpp:104-109 | the same for the sent handler |
| SocketObject.Socket.SetOnDisconnectTo | sockets/v0/TCPStream.h:81-81 | replaces the disconnect handler without touching the interrupt mask |
| SocketObject.Socket.ResolveName | source/v0/Socket.cpp:121-132 | refused without an impl or an entry and then nothing is stored; otherwise the DNS handler is replaced |
| SocketObject.Socket.ConnectTo | source/v0/TCPStream.cpp:59-67 | refused without an API and then nothing is stored; otherwise the connect handler is replaced |
| SocketObject.Socket.Listen | source/v0/TCPListener.cpp:35-45 | refused without an API and then nothing is stored; otherwise the incoming handler is replaced |
| SocketObject.AdoptStream | source/v0/TCPStream.cpp:32-42 | the deprecated constructor: every accept that fails there posts a NULL handler, since none can be set yet |
| SocketObject.Drive | source/v0/Socket.cpp:62-132 | socket objects of any kinds, taken by their own methods through any calls and events with opens and closes anywhere between, have posted the filter-map of the history whose guard flags are the fields at each call, and store its most recent handlers |
| SocketObject.GuardDecides | source/v0/Socket.cpp:121-132 | after any moves resolve, connect and start_listening replace their own handler iff the fields of their socket then pass the guard, and otherwise no stored handler of any socket changes |
| SocketObject.GuardsFollowOpenClose | source/v0/Socket.cpp:43-170 | open takes over what the stack leaves iff there is an API, close iff there is an impl; no other socket and no handler is touched |
| Masking.ControlShape | source/v0/Socket.cpp:92-109 | in every interleaving interrupts are off exactly inside the masked stores and the caller's own sections, which a masked setter ends |
| Masking.MaskedNeverTorn | source/v0/Socket.cpp:92-109 | no interleaving lets an event read a half-stored error, readable or sent handler |
| Masking.UnmaskedCanTear | source/v0/Socket.cpp:121-132 | each of the four other slots is exposed: already a first call that stores to it can be read half way |
| Masking.CellsHaveShape | source/v0/Socket.cpp:92-132 | memory is always the linearised handler overlaid with the words already written of the store in progress |
| Masking.Linearizable | source/v0/Socket.cpp:62-132 | refinement: on slots no event tears, the word-level log equals the plain log of a history in which each store takes effect at its last word |
| Masking.MaskedLogIsPlainLog | source/v0/Socket.cpp:92-119 | error, readable and sent callbacks refine the plain model under every interleaving |
| Masking.WholeLogIsPlainLog | source/v0/Socket.cpp:121-132 | the whole log does, if no event reads a half-stored DNS, connect, disconnect or incoming handler |
| Masking.SectionProtectsIff | source/v0/Socket.cpp:92-132 | a caller that disables interrupts and then makes an unmasked storing call has it stored whole under every continuation iff no masked setter was called in between |
| Masking.GuardedLogIsPlainLog | source/v0/Socket.cpp:92-132 | if every unmasked storing call is made inside such a section, the whole word-level log is the plain log |
| Masking.MaskedCallbacksAreWhole | source/v0/Socket.cpp:92-109 | under every interleaving these callbacks carry all the words of one handler some setter received |
| Masking.WholeForEveryHandlerIff | source/v0/Socket.cpp:129-129 | all callbacks are whole for every choice of handlers iff the schedule never fires a matching event inside an unmasked store |
| Masking.SecondResolveCanTear | source/v0/Socket.cpp:121-132 | a concrete legal schedule, a DNS answer during a second resolve, posts a callback bound to one word of each handler |
| PopulationProofs.SpaceBoundsPopulation | sockets/v0/TCPAsynch.h:49-53 | pigeonhole: objects of at least s bytes in disjoint ranges clear of null number at most (2^w - 1) / s |
| PopulationProofs.BornCounts | source/v0/TCPAsynch.cpp:27-40 | constructing a TCP socket raises the counter by one without wrapping |
| PopulationProofs.BornKeepsInv | source/v0/TCPAsynch.cpp:27-40 | construction keeps the whole invariant of counter, tick, ownership and API |
| PopulationProofs.DeadKeepsInv | source/v0/TCPAsynch.cpp:54-61 | destruction of any socket keeps it |
| PopulationProofs.StreamFromKeepsInv | source/v0/TCPStream.cpp:43-54 | the accepting constructor keeps it when it takes up a connection that was waiting |
| PopulationProofs.ReachableInv | source/v0/TCPAsynch.cpp:24-62 | in every run: counter = live TCP sockets, tasks = the tick handle's, none at count zero, impls distinct, impl implies API |
| PopulationRuns.CounterIsPopulation | sockets/v0/TCPAsynch.h:49-53 | in every run the counter is the number of live TCP sockets and count * size stays below 2^w |
| PopulationRuns.CounterNeverWraps | source/v0/TCPAsynch.cpp:39-57 | every step moves the counter by exactly the change in live TCP sockets |
| PopulationRuns.TickRunsIff | source/v0/TCPAsynch.cpp:31-39 | the tick is registered iff some TCP socket is live and the construction that last raised their number from zero was on a stack with an API |
| PopulationRuns.TickRunsWhileSocketsLive | source/v0/TCPAsynch.cpp:31-60 | if every TCP socket is constructed on a stack with an API, the tick runs exactly while one is live |
| PopulationRuns.MixedStacksLoseTheTick | source/v0/TCPAsynch.cpp:31-39 | a concrete run in which a stream on a working stack is live and no tick runs |
| PopulationRuns.NoTaskLost | source/v0/TCPAsynch.cpp:54-61 | starts and cancels of the periodic task alternate, each cancel naming the task just started; only the named one can be outstanding |
| PopulationRuns.AcceptLeavesTickAlone | source/v0/TCPListener.cpp:54-67 | accept, succeeding or failing, on whatever impl, neither starts nor cancels a tick at any intermediate step |
| PopulationRuns.ImplsNeverShared | source/v0/TCPListener.cpp:54-67 | over every run no two live sockets hold the same impl, across open, accept, close and destruction |
| PopulationRuns.ReissueIsLegal | source/v0/Socket.cpp:35-49 | the runs covered include reuse: a deleted socket's impl may be handed to any other live socket |
| PopulationRuns.AcceptSharesIff | source/v0/TCPListener.cpp:54-67 | for an arbitrary impl: sharing appears iff a successful accept leaves an impl a live socket holds; an impl without API iff the listener has none |
| PopulationRuns.AcceptIsSafeIff | source/v0/TCPListener.cpp:54-67 | as a caller can check: accepting x keeps impls distinct for every answer of the stack iff no live socket holds x, and every impl with an API iff the listener has one |
| PopulationRuns.AcceptCanShare | source/v0/TCPListener.cpp:54-67 | in every run accepting the listener's own impl shares it, and accepting on a listener without an API yields a stream with an impl and no API |
| PopulationRuns.ListenersAreReachable | source/v0/TCPListener.cpp:26-29 | both situations are reached by short runs |
| PopulationRuns.ApiUseDefinedIff | source/v0/Socket.cpp:35-240 | in every run every API use behind an impl or API guard, in all socket classes, is well defined; setNagle, reject and the accept call of the deprecated constructor are iff the stack has an API |
| PopulationRuns.GuardsLetThrough | source/v0/Socket.cpp:35-240 | in every run a socket with an impl passes every guard; without one it passes exactly the API guards, iff its stack has an API |
| PopulationRuns.NagleCanBeUndefined | source/v0/TCPStream.cpp:87-96 | a concrete stream on which setNagle dereferences a null API pointer |
| PopulationRuns.BindNeverOpens | source/v0/Socket.cpp:134-162 | in every run the stack's bind is reached only with an impl the same object was given earlier in its lifetime; without one either form changes nothing and fails |
| PopulationCalls.NewSocketIs | source/v0/Socket.cpp:24-33 | in every run a new socket has its class, stack, API, own entry, no impl, and the datagram family iff it is a UDP socket |
| PopulationCalls.FamiliesFollowKinds | source/v0/UDPSocket.cpp:21-26 | over every run a live socket has the datagram family iff it is a UDP socket and else the stream family, accepted and adopted streams included |
| PopulationCalls.DeleteGivesBack | source/v0/Socket.cpp:35-41 | in every run a delete makes exactly these calls in order: a listener stops listening, the last TCP socket cancels the tick, a stack with a destroy entry gets the stack socket back once, its error is posted |
| PopulationCalls.OpenAndClose | source/v0/Socket.cpp:43-49 | in every run open installs what was created iff there is an API, and close clears the impl iff there is one and the stack clears it |
| PopulationCalls.BindReachesStack | source/v0/Socket.cpp:134-162 | in every run both forms of bind on a socket with an impl reach the stack once with it and report its answer; a null address or a text that does not parse is reported without a call |
| PopulationCalls.ArrivalCanBeAccepted | source/v0/TCPListener.cpp:54-67 | in every run a connection that arrived can be taken up on its listener, and then the new stream holds it |
| PopulationCalls.AcceptGivesBack | source/v0/TCPListener.cpp:54-67 | in every run a successful accept adds exactly the stream described; a refused one leaves the population as it was and hands what the stack left in place to its destroy once |
| PopulationCalls.AdoptKeepsStream | source/v0/TCPStream.cpp:32-42 | in every run the deprecated constructor leaves a stream whatever the stack answers, and posts a refusal |
| PopulationCalls.ImplsConserved | source/v0/Socket.cpp:35-49 | conservation over every run: the times an impl was handed out are the times it was destroyed, plus its holder, plus the times it was let go by a reopen, a close or a stack without destroy; at the end all went back iff nothing was let go |
| DeviceCode.Device.constructor | source/v0/TCPAsynch.cpp:24-25 | the static counter starts at zero and the handle at null, which satisfies the invariant |
| DeviceCode.Device.ConstructUdp | source/v0/UDPSocket.cpp:21-26 | a socket of the datagram family is born; counter and tick are untouched |
| DeviceCode.Device.ConstructAsynch | source/v0/TCPAsynch.cpp:27-40 | has the effect of `Born`: starts the tick iff the counter was zero and the stack has an API |
| DeviceCode.Device.ConstructAccepted | source/v0/TCPStream.cpp:43-54 | has the effect of `StreamFrom`: stack and family from the listener, impl from the stack |
| DeviceCode.Device.ConstructAdopted | source/v0/TCPStream.cpp:32-42 | the deprecated constructor: a failed accept is posted and the stream lives on |
| DeviceCode.Device.StopListening | source/v0/TCPListener.cpp:46-53 | refused without an API, otherwise one stop_listen and the stack's answer |
| DeviceCode.Device.DestroyAsynch | source/v0/TCPAsynch.cpp:54-61 | decrements, and at zero cancels the registered tick and forgets its handle |
| DeviceCode.Device.DestroySocket | source/v0/Socket.cpp:35-41 | hands the impl to the stack's destroy exactly once if there is one, then posts its error iff there is one |
| DeviceCode.Device.DeleteSocket | source/v0/TCPListener.cpp:30-33 | all destructors in order make exactly the calls listed, keep the invariant and never underflow the counter |
| DeviceCode.Device.OpenSocket | source/v0/Socket.cpp:43-49 | refused without an API; otherwise installs what the stack created, keeping the invariant for any impl no other socket has a claim to |
| Population.OpenOverride | source/v0/TCPAsynch.cpp:47-52 | the two-argument open that bind dispatches to never succeeds, for any concrete class |
| DeviceCode.Device.BindAddress | source/v0/Socket.cpp:146-162 | on a socket with an impl one bind of that impl reaches the stack and its answer is returned; otherwise no call, and an error |
| DeviceCode.Device.BindTextual | source/v0/Socket.cpp:134-145 | the same, refused without an impl or with the parser's error when the text does not parse |
| DeviceCode.Device.CloseSocket | source/v0/Socket.cpp:164-170 | refused without an impl; otherwise at most the impl is cleared |
| DeviceCode.Device.AcceptConnection | source/v0/TCPListener.cpp:54-67 | success: one more stream with the listener's stack, API and family and its own entry; failure: population and counter as before, what the stack left destroyed once; tick untouched |
| DeviceCode.RunOps | source/v0/TCPAsynch.cpp:24-62 | from start-up, the methods taken through any run land on the model's state, so counter, tick, ownership, families and the account of every impl hold of the code |
| TcpEcho.RoundTripNeverFails | test/echo-tcp-client/main.cpp:97-120 | for every segmentation the first non-empty read is a prefix of the greeting, and no comparison fails in any run |
| TcpEcho.ComparesIff | test/echo-tcp-client/main.cpp:108-108 | data without NUL passes the comparison iff it is a prefix of the greeting |
| TcpEcho.ClientRejectsIff | test/echo-tcp-client/main.cpp:97-120 | whatever arrives first, the client counts a mismatch unless it is such a prefix |
| TcpEcho.MarkOccursOnce | test/echo-tcp-client/main.cpp:36-38 | the end marker occurs at one place in everything the client sends |
| TcpEcho.EchoIsAllButTheMark | test/host_tests/tcpecho_client_auto.py:37-72 | in every run the host has sent back all it read in order, except the piece in which it received the end marker whole, if it did, and exactly the bytes lost at the end of the last piece if its send failed or found the server stopped |
| TcpEcho.EchoCanBeCutShort | test/host_tests/tcpecho_client_auto.py:44-72 | such a loss is reachable: the marker is cut across two pieces and seven bytes without it are read and never sent back |
| TcpEcho.UnackedNeverWraps | test/echo-tcp-client/main.cpp:92-129 | unacknowledged plus reported bytes are the bytes sent, in every run once connected, so the unsigned subtraction never wraps |
| TcpEcho.SecondConnectBalancesIff | test/echo-tcp-client/main.cpp:88-96 | a second connect callback would leave the count balanced iff nothing was outstanding |
| TcpEcho.FailureVerdicts | test/echo-tcp-client/main.cpp:53-120 | failure is posted once for each error and each readable callback that finds nothing before the first error or data, and for nothing else |
| TcpEcho.DoneIsSettled | test/echo-tcp-client/main.cpp:53-120 | the done flag records exactly that an error or data has come, and the answer has gone out exactly when data came first |
| TcpEcho.DisconnectedIsLinkDown | test/echo-tcp-client/main.cpp:88-134 | in every run the disconnected flag says that the last connect or disconnect callback was not a connect |
| TcpEcho.SuccessVerdicts | test/echo-tcp-client/main.cpp:121-129 | error-free: success is posted at the last of the 32 acknowledged bytes and again for each zero-byte acknowledgement after it |
| TcpEcho.SuccessAtMostOnceIff | test/echo-tcp-client/main.cpp:97-129 | error-free: success is posted at most once iff there is no such acknowledgement, and only when the echo matched and everything is acknowledged |
| TcpEcho.IdleAckRepeatsSuccess | test/echo-tcp-client/main.cpp:121-129 | an error-free run that posts success twice, whatever the count started from |
| TcpEcho.SuccessNeedsEchoIff | test/echo-tcp-client/main.cpp:53-129 | over every run, errors included, success is posted only for an answered echo iff no sent callback completes the greeting in a run where an error came before any data |
| TcpEcho.AcksAreBounded | test/echo-tcp-client/main.cpp:121-129 | a run has at most 32 positive acknowledgements; remaining bytes are the measure |
| TcpEcho.ErrorCanStillSucceed | test/echo-tcp-client/main.cpp:53-59 | a run with an error in which success is posted with no echo read |
| TcpEchoCode.TcpEchoClient.constructor | test/echo-tcp-client/main.cpp:44-48 | not done, disconnected, the unacknowledged count arbitrary |
| TcpEchoCode.TcpEchoClient.HandleRx | test/echo-tcp-client/main.cpp:97-120 | the data and its terminator fit the buffer; the answer goes out for the first non-empty read only |
| TcpEchoCode.Harness.Terminate | test/echo-tcp-client/main.cpp:144-154 | reports and deletes only while the client exists |
| TcpEchoCode.OnlyFirstVerdictCounts | test/echo-tcp-client/main.cpp:144-154 | however many verdicts are posted, exactly the first to run is reported |
| TcpEchoCode.Handle | test/host_tests/tcpecho_client_auto.py:26-72 | serves turns up to the first that ends the loop and sends back exactly the pieces without the end marker, and of the piece whose send ends the loop what had gone out |
| TcpEchoCode.WireFollowsHandler | test/host_tests/tcpecho_client_auto.py:37-72 | in every run the pieces received join to the bytes sent, the echo stream is the handler's output for its turns, failed sends included, and the host goes on exactly while every turn serves |
| TcpEchoCode.Drive | test/echo-tcp-client/main.cpp:88-134 | the client's callbacks and the host's loop, stepped through any run, failing sends included, have the model's client state, outgoing bytes and echo; no comparison fails and the accounting balances |
| TcpEchoCode.ReportsSuccessIffAcknowledged | test/echo-tcp-client/main.cpp:97-154 | end to end: with no error and no empty early read the test reports success iff all 32 bytes were acknowledged, whatever order the verdicts run in |
| UdpEcho.CharRand | test/echo-udp-client/main.cpp:41-43 | a printable character below the tilde, never NUL |
| UdpEcho.CharRandCovers | test/echo-udp-client/main.cpp:41-43 | every character from the space up to the tilde comes up, at its own residue of the random value |
| UdpEcho.CStringIs | test/echo-udp-client/main.cpp:119-122 | strlen's string is the longest start of the memory without NUL |
| UdpEcho.AlwaysPrintable | test/echo-udp-client/main.cpp:126-130 | in every run, once resolved, the outgoing buffer holds no NUL |
| UdpEcho.StopAndWait | test/echo-udp-client/main.cpp:104-130 | up to the first success at most one test datagram is outstanding, four bytes that are the prefix of the current buffer, and every comparison succeeded |
| UdpEcho.HundredEchoes | test/echo-udp-client/main.cpp:114-122 | success is posted iff 100 echoes were received; exactly min(receives + 1, 100) tests are sent once resolved, until the 32-bit counter goes round |
| UdpEcho.VerdictsCounted | test/echo-udp-client/main.cpp:81-123 | every verdict of every run: failure once for each error and for nothing else, success once for each receive from the hundredth on until the 32-bit counter goes round |
| UdpEcho.FirstSuccess | test/echo-udp-client/main.cpp:114-122 | the first success is posted by the 100th receive, after exactly 100 tests and no failed comparison |
| UdpEcho.TailUntouched | test/echo-udp-client/main.cpp:104-130 | up to the first success the receive buffer after its fourth byte is as it was at construction, and the outgoing buffer is the last fill |
| UdpEcho.FarewellEchoIff | test/echo-udp-client/main.cpp:119-122 | in every run the final datagram is the last four test bytes and then the C string the uninitialised receive buffer held after its fourth byte; its echo passes the comparison iff that string agrees with the last fill |
| UdpEcho.FarewellEchoCanFail | test/echo-udp-client/main.cpp:119-122 | legal runs of 100 echoes after which that echo fails, for every uninitialised buffer that differs at its fifth byte |
| UdpEcho.SecondDnsPassesIff | test/echo-udp-client/main.cpp:87-103 | after a second DNS callback the first echo passes iff the two fills start alike |
| UdpEchoCode.UdpEchoClient.constructor | test/echo-udp-client/main.cpp:61-65 | buffers of 64 characters with any contents, nothing sent |
| UdpEchoCode.UdpEchoClient.SendTestDatagram | test/echo-udp-client/main.cpp:126-130 | refills the whole buffer in place and sends its first four bytes |
| UdpEchoCode.UdpEchoClient.HandleDns | test/echo-udp-client/main.cpp:87-103 | the address text written to the outgoing buffer is wholly overwritten before the first test is sent |
| UdpEchoCode.UdpEchoClient.HandleRx | test/echo-udp-client/main.cpp:104-123 | overwrites the front of the receive buffer, compares, counts, and sends the next test or the final datagram with success |
| UdpEchoCode.Drive | test/echo-udp-client/main.cpp:81-130 | the client's callbacks, stepped through any run, have the model's state and datagrams in flight; failure is posted once per error; with one DNS callback no comparison fails before success |

## Left out

- SocketAddr parsing and formatting (source/v0/SocketAddr.cpp): it rests on conversion routines that are not part of this model.
- The insides of the stack, DNS, retransmission and Nagle's algorithm; `setNagle` and `reject` appear only as API uses.
- minar's execution order and timing, and callbacks still queued for a socket that has been destroyed.
- CThunk, FunctionPointer internals and the CMSIS intrinsics beyond multi-word values and an interrupt flag; storing handlers from interrupt context and nested interrupts.
- The address getters, send, recv and isConnected as operations: each is one guard, covered by `ApiUseDefinedIff`.
- Stack calls that fail inside the echo clients (their test assertions), the harness handshake, Ethernet setup, port parsing, host threads and server start-up.
- The deprecated headers in `mbed-net-sockets/` and the namespace headers in `sockets/`: no logic.
