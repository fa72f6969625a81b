# Verified model of tlsuv

tlsuv is a C library that adds TLS, HTTP and WebSocket clients to libuv. This
project models the parts of it that hold state machines, pointer structures and
wire formats, and proves what they promise for all inputs and all runs:

- **Link chains** (`LinkClose`, `LinkErrors`, `Links`). A connection is a chain
  of protocol layers. `LinkClose` has the call stack as data and lets calls nest
  in any order around a close. `Links` has the links as heap objects.
- **The HTTP client** (`HttpScheduler`, `HttpRequests`, `HttpWire`,
  `HttpSwaps`, `HttpWakeups`, `HttpTimeouts`, `HttpClient`). A queue of requests,
  one active request, four connection states, one shared timer and one wake-up
  flag, stepped by loop events, parser events and calls the user makes from inside
  callbacks.
  `HttpScheduler` has the steps as functions, `HttpClient` the client object,
  which every call and callback keeps valid, the others what holds in every run.
- **The TCP source** (`TcpSource`): connection attempts, with resolve, connect,
  timeout, cancel and close events in every order.
- **Request framing** (`HttpRequest`, `Chunked`, `Headers`, `HeaderList`,
  `RequestTarget`): headers, body chunks, Content-Length, percent-encoding.
- **Other formats** (`WebSocket`, `Url`, `Base64Url`) and the **byte queue**
  under the TLS engines (`ByteQueue`).
- **CA bundles** (`CaBundle`): sorting certificates into one store per root.

`Options` and `CText` hold shared definitions. `dafny verify dfyconfig.toml`
checks everything.

## Conventions

- What libuv, llhttp, the TLS engine or the user does is an event with
  arbitrary contents; a run is any sequence of enabled events. `Enabled` says
  what the environment guarantees: libuv reports a connect as canceled exactly if
  its handle was closed, every close method calls its callback once, no event
  arrives on a closed link, and a callback does not cancel the active request.
- A class stands for a C struct that is updated in place. Each call or callback
  on it keeps its `Valid()`, the invariant behind the properties of all runs, and
  says what it is for; the parts it is made of are proved against the step functions.
- Decoders and encoders that the library does not have (chunked bodies, frames,
  percent-encoding, base64url, the printed URL) are written from RFC 9112
  (sections 6 and 7.1), RFC 6455 (sections 5.2 and 5.3), RFC 3986 (section 2.1)
  and RFC 4648 (section 5).

## Properties the code does not have

- *No lost wake-up* fails if a second connection attempt starts while an earlier
  one is outstanding, which `tlsuv_http_cancel_all` during connecting makes
  possible. `NoLostWakeup` proves it for all runs without such an overlap,
  `OverlapIsReachable` that the overlap happens in a run that was fine until
  then, `OverlapCanStrand` that from every such state a run leads to a queued
  request with nothing under way, and `StrandedForGood` that only the user gets it
  going again. In the run the second attempt fails in `tcp_connect_cb`, which
  forgets the first connection; had it failed in `resolve_cb`, the next connect
  would close that connection first.
- *Heads go out only on established connections* fails if such a second attempt
  succeeds while the client is connected over TLS: before the client hears of it,
  `tcp_connect_cb` has initialised the shared source link for the new socket, and
  the chain above it writes there, where no handshake took place.
  `HeadIsUsableIff` says of every head of every run whether it is affected,
  `MovesIff` that no other event does this, `SwapFreeWithoutTlsOrOverlap` where it
  cannot happen, and `MovedSessionIsReachable` that it does.
- *The connect timeout is armed only while connecting* fails if a TLS handshake
  completes on a connection that was given up while the client connects again:
  `on_tls_handshake` does not stop the timer. `TimeoutBreaksIff` shows that nothing
  else breaks it, `LateHandshakeIsReachable` that this happens, with a second
  attempt that fails as above.
- *Chunked bodies decode to what was queued* fails for pieces of 2^28 bytes and
  more, because the size line is cut to a ten-byte buffer, and for pieces after
  the end marker. `DecodesIffProper` and `ChunkedBodyDecodes` give the exact
  condition. It also fails if chunked coding is switched on behind plain bytes,
  which takes a Content-Length of -1, the value that stands for "unknown":
  `UniformBreaksIff`, `NoSentinelIsClean`, `MinusOneIsSentinel`,
  `SentinelMixesCodings`.
- *Further data is refused once Content-Length was computed* fails when nothing
  was queued by then: the request stays in `headers_sent`.
  `ComputedLengthIsExact` says exactly when, `DataAfterEmptyLength` has the calls.
- *A body is as long as its announced Content-Length* fails if the caller's pieces
  do not add up to it; the code only warns. `AnnouncedSizeIsMetIff` gives the exact
  condition, `AnnouncedSizeIsExceeded` an example.
- *Three rounds place every chained certificate* fails for four and more issuing
  steps listed leaf first. `ProcessChains` states exactly what is stored,
  `ShortChainsArePlaced` that three steps suffice in any order, and
  `FourStepsCanFail` has a bundle where four do not.
- *A printed URL parses back* fails without a scheme when path and query begin
  like one. `RoundTrip` gives the exact condition, `SchemelessPathIsMisread` an
  example.
- *Decoding stops at the first character outside the alphabet of RFC 4648* fails
  for '/', which the table reads as 63. `TableIsRfcIff` gives the exact condition,
  `SlashIsRead` an example.

## Model

| member | source | states |
|---|---|---|
| LinkClose.CallbackOnceAfterAll | deps/uv_link_t/src/uv_link_t.c:62-176 | in every run on a chain of any length, every close method runs and reports at most once, the user's callback at most once, and only when every close method has run and reported |
| LinkClose.CloseNeverUnderCall | deps/uv_link_t/src/uv_link_t.c:62-70 | in every run, no close method is on the stack above a call through the same link |
| LinkClose.WaitingIsOwed | deps/uv_link_t/src/uv_link_t.c:124-176 | `close_waiting` is always the number of links not yet visited, deferred, or started and not reported |
| LinkClose.QuiescentMeansClosed | deps/uv_link_t/src/uv_link_t.c:124-176 | once the stack is empty and every started close has reported, the callback has run |
| LinkClose.CloseCanFinish | deps/uv_link_t/src/uv_link_t.c:119-176 | from every state of a close there is a continuation in which the callback runs: deferral cannot deadlock |
| LinkClose.StepInv | deps/uv_link_t/src/uv_link_t.c:265-298 | every step, entering and leaving callbacks on a child included, keeps depth equal to the calls on the stack and a deferred close only where a call is in progress |
| LinkClose.CallsAreCountedOn | deps/uv_link_t/src/uv_link_t.c:265-298 | a method raises the depth of its own link; a read or alloc callback that of the child while the two are chained, of the link itself otherwise, and of no other |
| LinkClose.ReadHoldsOffClose | deps/uv_link_t/src/uv_link_t.c:265-298 | in every run, while a callback that entered a link through its parent has not returned, that link's close method has not started, even if the whole chain is closed inside it |
| LinkErrors.ResolvesToRaiser | deps/uv_link_t/src/uv_link_t.c:13-24 | a code between -65536 and UV_ERRNO_MAX raised by a link and returned through any others resolves, from every descendant, to that link and that code, and fits an int, for prefixes below 2^15 |
| LinkErrors.LibuvCodesPass | deps/uv_link_t/src/uv_link_t.c:226-248 | codes from UV_ERRNO_MAX up pass through all links unchanged and belong to none |
| LinkErrors.PassesThrough | deps/uv_link_t/src/uv_link_t.c:17-21 | a code that has a prefix or is libuv's own is left alone by every further link |
| LinkErrors.ConsecutiveAt | deps/uv_link_t/src/uv_link_t.c:179-185 | renumbered prefixes are those of the root plus the distance, until the 16 bits wrap |
| LinkErrors.FindPrefix | deps/uv_link_t/src/uv_link_t.c:239-244 | the walk finds the nearest ancestor with the prefix, or there is none |
| Links.Link.constructor | deps/uv_link_t/src/uv_link_t.c:49-59 | a new link is a well-formed chain of its own |
| Links.InitFits | deps/uv_link_t/src/uv_link_t.c:49-59 | a new link joins any well-formed set of chains without disturbing it |
| Links.Chain | deps/uv_link_t/src/uv_link_t.c:188-207 | refuses exactly links that are taken, changing nothing; otherwise joins the two chains into one, keeps all chains well formed, and touches no closing field |
| Links.RecalculatePrefixes | deps/uv_link_t/src/uv_link_t.c:179-185 | the links below a new parent count on from its prefix |
| Links.Unchain | deps/uv_link_t/src/uv_link_t.c:210-223 | refuses exactly what is not chained, changing nothing; otherwise splits the chain there, gives the upper part back its callbacks, and touches neither prefixes nor closing fields |
| Links.Close | deps/uv_link_t/src/uv_link_t.c:119-176 | every link of the chain ends up isolated with the callbacks it had before chaining; each link without a call in progress has its close method run once more, each other one remembers the leaf and has not; the leaf's counter is raised by the chain's length and its callback saved, on no other link; other chains are untouched |
| Links.CloseChain | deps/uv_link_t/src/uv_link_t.c:143-176 | the same for one chain of any length, link by link |
| Links.CloseFromRoot | deps/uv_link_t/src/uv_link_t.c:163-175 | the loop frees and closes or defers every link from the root down |
| Links.FindRoot | deps/uv_link_t/src/uv_link_t.c:151-153 | finds the root and counts the links |
| Links.CloseTurn | deps/uv_link_t/src/uv_link_t.c:164-174 | one turn disconnects one link from the rest, and closes it exactly if no call is in progress |
| Links.Errno | deps/uv_link_t/src/uv_link_t.c:226-248 | the walk over parent pointers returns what the resolution over the chain's prefixes says |
| Links.RaisedResolves | deps/uv_link_t/src/uv_link_t.c:13-24 | in every well-formed set of chains with prefixes below 2^15, a code raised by a link and returned through any others resolves, along the chain from any descendant, to that link and that code |
| Links.ErrnoOfRaised | deps/uv_link_t/src/uv_link_t.c:226-248 | the walk over parent pointers from any descendant returns the link that raised the code, and the code |
| Links.JoinedCoherent | deps/uv_link_t/src/uv_link_t.c:196-197 | joining two different chains leaves every link in exactly one chain, once |
| Links.SplitCoherent | deps/uv_link_t/src/uv_link_t.c:214-215 | so does splitting one |
| Links.ChainFits | deps/uv_link_t/src/uv_link_t.c:196-204 | the pointer, callback and prefix updates of chaining are those of joining the chains |
| Links.UnchainFits | deps/uv_link_t/src/uv_link_t.c:214-220 | the updates of unchaining are those of splitting |
| Links.CloseFits | deps/uv_link_t/src/uv_link_t.c:163-175 | freeing every link of a chain leaves all other chains well formed |
| Links.PointersAreInverse | deps/uv_link_t/src/uv_link_t.c:188-223 | parent and child pointers are inverse and a child's prefix follows its parent's |
| Links.PointersFollowChain | deps/uv_link_t/src/uv_link_t.c:188-223 | pointers run through the chain in both directions and end at its ends, prefixes are consecutive |
| Links.ChainsAreDisjoint | deps/uv_link_t/src/uv_link_t.c:188-223 | no link occurs twice in a chain or in two chains |
| HttpRequests.RequestsAreConserved | src/http.c:363-369 | in every run, every submitted request is in exactly one of queue, active and released, and released once |
| HttpRequests.ActivationIsFifo | src/http.c:363-369 | requests become active in submission order, before all that are still queued |
| HttpRequests.CallbackBeforeRelease | src/http.c:144-169 | no request is released before its response callback ran; one that never became active gets it exactly once, when released |
| HttpRequests.StepKeeps | src/http.c:566-626 | every event keeps this, whatever requests the callbacks submit or cancel meanwhile |
| HttpRequests.ParseKeeps | src/http_req.c:213-231 | parser events call the response callback before the request can complete |
| HttpWire.HeadIsUsableIff | src/http.c:380-408 | in every run, a head is written on a connection that is fully established, as the first there or after the previous request there completed and was judged persistent, if and only if no running TLS session had been moved to that connection |
| HttpWire.UsableMeans | src/http.c:95-120 | spells the automaton's states out over the log: no head so far, or the last head's request done and persistent |
| HttpWire.KeepAliveIsPersistence | src/http.c:99-109 | the persistence rule is that of section 9.3 of RFC 9112 for HTTP/1.0 and 1.1 and a Connection header with one option in any spelling, and ends the connection for any other version |
| HttpWire.ResponseIsJudged | src/http.c:95-109 | a completed response is the active request's, on its connection, and judged by its own version and header |
| HttpWire.StepWire | src/http.c:171-231 | every event, TLS handshakes and overlapping attempts included, keeps a connected client on an established connection that is not spent or on one a TLS session was moved to |
| HttpSwaps.MovesIff | src/tcp_src.c:77-83 | in any state where no session was moved, exactly one event moves one: an attempt that succeeds while the client is connected over TLS, whose socket the source puts under the chain |
| HttpSwaps.LateSwapMisleads | src/http.c:255-257 | after every such event the next head goes out on a connection that is not usable |
| HttpSwaps.HeadsOnUsableConnections | src/http.c:380-408 | in every run without such an event, overlapping attempts or not, every head goes out on a usable connection |
| HttpSwaps.SwapFreeWithoutTlsOrOverlap | src/http.c:241-266 | that covers every plain-HTTP run and every run without overlapping attempts |
| HttpSwaps.MovedSessionIsReachable | src/http.c:588-592 | a run with TLS writes a head on a connection without a handshake |
| HttpWakeups.NoLostWakeup | src/http.c:363-409 | without overlapping attempts, a non-empty queue without active request always has a wake-up scheduled or a link close outstanding that schedules one, and any unfinished request has something under way |
| HttpWakeups.OverlapCanStrand | src/http.c:588-592 | from every such state about to start an overlapping attempt, a run leads to a queued request with nothing under way that would look at it |
| HttpWakeups.StrandedForGood | src/http.c:363-409 | it stays there whatever happens, until the user calls again |
| HttpWakeups.OverlapIsReachable | src/http.c:344-355 | such a state is reached by a run without overlap, with and without TLS |
| HttpWakeups.IdleCloseInterruptsNothing | src/http.c:357-378 | in every run, while the timer is armed for idle close the client is connected with no active and no queued request |
| HttpWakeups.StepSafe | src/http.c:233-266 | every event without overlap keeps the wake-up invariant |
| HttpTimeouts.TimeoutBreaksIff | src/http.c:171-192 | in any state where the connect timeout is armed only while connecting, every event keeps it so, except exactly a handshake that completes while the timeout is armed |
| HttpTimeouts.ConnectTimeoutOnlyConnecting | src/http.c:241-273 | in every run without such a handshake, overlapping attempts or not, the timer is armed for the connect timeout only while connecting |
| HttpTimeouts.TimelyWithoutTlsOrOverlap | src/http.c:380-390 | that covers every plain-HTTP run and every run without overlapping attempts |
| HttpTimeouts.LateHandshakeIsReachable | src/http.c:175-177 | a run with TLS ends connected with the connect timeout armed |
| HttpClient.GoodStep | src/http.c:65-409 | every event keeps requests conserved and in order, heads on usable connections unless a TLS session was moved there, and the idle timer harmless, all at once |
| HttpClient.GoodMeans | src/http.c:65-409 | a valid client has every submitted request in exactly one place, none released before its callback, a head on a usable connection if and only if no TLS session was moved there, and nothing an armed idle timer could interrupt |
| HttpClient.ResponseMeans | src/http.c:83-120 | a response is done exactly when the parser has reported the end of the message; the connection is then kept as it is and processing scheduled exactly if the response is persistent, and closed with its callback owed otherwise |
| HttpClient.Http.constructor | src/http.c:499-536 | a new client is valid, disconnected, without requests or timers |
| HttpClient.Http.Submit | src/http.c:566-586 | keeps the client valid; the new request is last in the queue under a fresh number, the timer is off and processing scheduled |
| HttpClient.Http.CancelQueued | src/http.c:594-626 | keeps the client valid whatever the callback does; the request has left the queue, was called back once and released once; others give UV_EINVAL |
| HttpClient.Http.FailActiveRequest | src/http.c:144-169 | fails the active request and drains the queue, whatever its callbacks submit |
| HttpClient.Http.DrainRequests | src/http.c:155-168 | the loop ends and is the drain of the state machine |
| HttpClient.Http.OnLinkClosed | src/http.c:233-239 | keeps the client valid, schedules processing and affects no request |
| HttpClient.Http.OnTimer | src/http.c:268-273 | keeps the client valid; afterwards it is disconnected with no request; an idle close called no one back and released nothing, a connect timeout withdraws one attempt and schedules processing |
| HttpClient.Http.OnTlsHandshake | src/http.c:171-192 | keeps the client valid; a completed handshake leaves an established connection and a wake-up, any other no connection, and only a failed one takes the requests with it |
| HttpClient.Http.OnError | src/http.c:68-81 | keeps the client valid; disconnected, chain closed, processing scheduled; with a request active none is left, otherwise the queue is untouched |
| HttpClient.Http.OnRead | src/http.c:83-128 | keeps the client valid; the active request is done exactly when the message ends, then called back and released once; a persistent connection is left as it is, any other closed; without an active request nothing changes |
| HttpClient.Http.CancelAllRequests | src/http.c:588-592 | keeps the client valid; no request and no timer are left, and a chain is closed with its callback owed exactly if it was whole |
| HttpClient.Http.OnProc | src/http.c:363-409 | keeps the client valid; with nothing due a connected client arms the idle timer unless that is switched off; otherwise the oldest request becomes active, and a connected client writes its head exactly once and its body, a disconnected one starts an attempt and its timeout or fails everything, any other waits |
| HttpClient.Http.OnSource | src/http.c:241-266 | keeps the client valid; timer off; success gives exactly a connecting client a new connection, over TLS if so set, and affects no request; failure leaves no request and schedules processing |
| TcpSource.OneOutcomePerAttempt | src/tcp_src.c:58-128 | for every order of events, no attempt has two outcomes |
| TcpSource.NoOutcomeAfterCancel | src/tcp_src.c:169-187 | after a cancel or a timeout, the timeout's own outcome apart, nothing more is told about that attempt |
| TcpSource.SilentAfterCancel | src/tcp_src.c:58-67 | a request that was cut off stays silent however late it ends |
| TcpSource.ClosedAtMostOnce | src/tcp_src.c:58-128 | no TCP handle is closed twice |
| TcpSource.OutcomeIsOwn | src/tcp_src.c:90-121 | the client is told exactly when a linked request ends its attempt, about that attempt, Ok exactly if it then has an open connection, and Failed with the attempt's handle closed |
| TcpSource.WaitingIsServed | src/tcp_src.c:142-187 | the client waits exactly while one linked request of the current attempt is in flight, with an open handle; all others in flight are cut off |
| TcpSource.StepInv | src/tcp_src.c:58-187 | every event keeps the invariant behind these |
| TcpSource.LeaksIff | src/tcp_src.c:142-194 | in any state where every opened handle is closing, connecting or connected, every event keeps it so, except exactly the release of an open connection |
| TcpSource.HandlesAreTracked | src/tcp_src.c:58-187 | so in every run without such a release no opened handle is lost |
| TcpSource.Source.ConnectTo | src/tcp_src.c:142-167 | keeps the source's invariant; an earlier connection is closing afterwards, and forgotten exactly if it was closing before; the client waits exactly if the attempt was accepted, and is told nothing yet |
| TcpSource.Source.ResolveCb | src/tcp_src.c:94-128 | keeps the invariant; tells the client exactly when a linked request ends the attempt, and then its handle, if any, is closed once |
| TcpSource.Source.ConnectCb | src/tcp_src.c:58-92 | keeps the invariant; a linked request tells the client Ok with an open handle or Failed with the handle closed once, one that was cut off tells nothing and leaves its handle closed once |
| TcpSource.Source.CancelAttempt | src/tcp_src.c:169-187 | keeps the invariant; no request in flight is linked any more, the connection is closing, nothing is told |
| TcpSource.Source.ConnectTimeout | src/http.c:268-273 | keeps the invariant; exactly the timeout is told, and no request in flight is linked any more |
| TcpSource.Source.CloseLink | deps/uv_link_t/src/uv_link_source_t.c:165-180 | keeps the invariant; the stream has been closed exactly once, however often its chain is closed |
| TcpSource.Source.OnStreamClosed | deps/uv_link_t/src/uv_link_source_t.c:149-162 | keeps the invariant; the link has no stream and the source no connection any more, nothing is closed or told |
| TcpSource.Source.Forget | src/tcp_src.c:189-194 | keeps the invariant; drops the connection, closes and tells nothing |
| CaBundle.ProcessChains | src/openssl/engine.c:271-335 | a certificate is stored exactly if it chains to a root of the bundle with fewer than three steps to intermediates listed later; each store holds only certificates chained to its own root inside it, stores are disjoint, and what is left over is exactly the rest in bundle order |
| CaBundle.PlacedIff | src/openssl/engine.c:299-326 | the round schedule in closed form, for any number of rounds |
| CaBundle.ShortChainsArePlaced | src/openssl/engine.c:299-326 | a certificate at most as many issuing steps from a root as there are rounds is placed, in any listing order |
| CaBundle.InItsRootsStore | src/openssl/engine.c:299-326 | with at most three steps it is in the store of its own root |
| CaBundle.OneRoot | src/openssl/engine.c:302-318 | no certificate chains to two roots |
| CaBundle.FourStepsCanFail | src/openssl/engine.c:299-326 | four steps listed leaf first are not placed |
| CaBundle.RootFirstNeedsOneRound | src/openssl/engine.c:299-326 | listed issuer first, one round places chains of any length |
| CaBundle.Round | src/openssl/engine.c:300-326 | the in-place deletion loop places exactly what this round can place and skips nothing |
| CaBundle.FindStore | src/openssl/engine.c:302-318 | finds a store that holds the issuer, or there is none |
| CaBundle.Partition | src/openssl/engine.c:277-285 | roots are the self-signed certificates, the rest stays in bundle order |
| CaBundle.NewStores | src/openssl/engine.c:287-297 | one store per root, in reverse order |
| ByteQueue.Bio.constructor | src/bio.c:32-40 | an empty queue |
| ByteQueue.Bio.Put | src/bio.c:57-77 | appends the bytes as one message; what was read followed by what is held is what was written |
| ByteQueue.Bio.Read | src/bio.c:79-103 | delivers exactly min(len, available) bytes in order, leaves the rest of the buffer alone, and ends also with empty messages; nothing is lost or repeated |
| ByteQueue.Bio.TakeSome | src/bio.c:84-100 | one turn takes a prefix of what is held and uses up the request or a message |
| ByteQueue.Bio.Available | src/bio.c:53-55 | the counter is the length of the held bytes |
| ByteQueue.Bio.InsertTail | include/tlsuv/queue.h:240-244 | the list is extended at its end |
| ByteQueue.Bio.RemoveHead | include/tlsuv/queue.h:252-255 | the list loses its first element, the tail pointer stays right |
| Chunked.BodyRoundTrip | src/http.c:302-328 | pieces of 1 to 2^28 - 1 bytes and an end marker decode to their concatenation, leaving what follows |
| Chunked.DecodesIffProper | src/http.c:308-328 | decoding to exactly the queued bytes and nothing left holds if and only if the pieces are of that form |
| Chunked.OversizedFails | src/http.c:310-312 | a piece of 2^28 bytes or more has an unreadable size line |
| Chunked.TruncatedSizeLine | src/http.c:310-312 | what the ten-byte buffer holds then is no size line |
| HttpRequest.NeverBothFramings | src/http.c:633-656 | over every sequence of header calls, data and processing, chunked mode and a body size are never both set |
| HttpRequest.ChunkedBodyDecodes | src/http.c:295-328 | over every sequence of header calls, data, end and processing in which no call switches to chunked after plain bytes were sent, the bytes a chunked request wrote decode to the queued chunks if and only if those are well formed |
| HttpRequest.UniformBreaksIff | src/http.c:633-656 | that switch is the only call that mixes codings, and it always does |
| HttpRequest.NoSentinelIsClean | src/http.c:645-652 | it is refused in every sequence without a Content-Length of -1 |
| HttpRequest.SentinelMixesCodings | src/http.c:645-652 | with one it is accepted, and what goes out is no chunked body |
| HttpRequest.MinusOneIsSentinel | src/http.c:650-650 | the header value "-1" is read as the value that stands for an unknown size |
| HttpRequest.ComputedLengthIsExact | src/http_req.c:138-153 | for POST, PUT and PATCH without framing, the Content-Length computed is the number of bytes sent in that step, and data is refused from then on exactly if there were any |
| HttpRequest.NoOtherLength | src/http_req.c:138-153 | in every other case no length is announced |
| HttpRequest.DataAfterEmptyLength | src/http_req.c:138-153 | with nothing queued it is 0, and a byte sent later is not covered by it |
| HttpRequest.AnnouncedSizeIsMetIff | src/http.c:329-340 | under a size that is not computed everything queued goes out, the request counts as sent exactly if something was queued and the pieces reach the size, a negative one read as unsigned, and what went out is as long as announced if and only if the pieces add up to it |
| HttpRequest.SentIsFinal | src/http.c:687-689 | once a request counts as sent, data is refused and no call adds to what went out |
| HttpRequest.AnnouncedSizeIsExceeded | src/http.c:332-339 | two bytes go out under an announced length of one |
| HttpRequest.Request.constructor | src/http_req.c:40-52 | a new request is valid, not chunked, of unknown size, with nothing queued or sent |
| HttpRequest.Request.SetHeader | src/http.c:633-656 | keeps the request valid; Content-Length in any spelling sets the size or is refused for a chunked request, Transfer-Encoding: chunked makes it chunked or is refused for a known size, and no other header touches the framing |
| HttpRequest.Request.Data | src/http.c:682-712 | keeps the request valid; the piece becomes the last of the body, or is refused with nothing changed |
| HttpRequest.Request.End | src/http.c:658-680 | keeps the request valid; adds an end marker to a chunked body and nothing to others |
| HttpRequest.Request.AnnounceLength | src/http_req.c:138-153 | sets Content-Length to the total of the queued chunks where the source does |
| HttpRequest.Request.SendBody | src/http.c:302-341 | the loop sends every queued chunk in order |
| HttpRequest.Request.ProcessRequest | src/http.c:391-408 | keeps the request valid; no piece is lost, repeated or reordered, the queue is drained, and the wire holds what was sent in its coding |
| HttpRequest.TotalLength | src/http_req.c:142-147 | the summed length is that of the concatenation |
| HttpRequest.WithLength | src/http_req.c:148-151 | the header that is set reads back as the number |
| Headers.SetIsUpdate | src/http_req.c:174-201 | setting updates, and NULL removes, one case-folded name and no other |
| Headers.SetUnique | src/http_req.c:174-201 | one entry per name |
| Headers.UniqueMeans | src/http_req.c:174-201 | unique means that no two names are the same in any spelling |
| Headers.GetIsLookup | src/http_req.c:203-211 | reading is lookup by case-folded name |
| Headers.GetMeans | src/http_req.c:203-211 | reading returns the value of the first header with the name in any spelling, or none if there is none |
| Headers.SetThenGet | src/http_req.c:174-211 | the last value set is read |
| Headers.AnySpelling | src/http_req.c:174-211 | after setting, every spelling of the name reads the new value, or none after a removal, and every other name what it read before |
| Headers.SetAllIsUnion | src/http.c:575-578 | copying headers over others is map union |
| Headers.CopyPreservesMap | src/http.c:575-578 | copying into a new request preserves the map |
| HeaderList.List.SetHeader | src/http_req.c:174-201 | the linked list is updated as the sequence of its entries is, keeps one entry per name in any spelling, and reads back the value set |
| HeaderList.List.PutHeader | src/http_req.c:192-200 | an existing node keeps its place, a new one comes first |
| HeaderList.List.RemoveHeader | src/http_req.c:182-190 | only the found node leaves the list |
| HeaderList.List.GetHeader | src/http_req.c:203-211 | the walk returns the value of the first node with the name in any spelling, or none if there is none |
| HeaderList.List.InsertHead | include/tlsuv/queue.h:120-125 | the node comes first and both pointer directions agree |
| HeaderList.List.Remove | include/tlsuv/queue.h:127-132 | the node leaves, its neighbours are joined |
| HeaderList.List.Copied | src/http.c:575-578 | a copy has the entries of setting them one after the other, and the same map |
| RequestTarget.TargetIsRecovered | src/http_req.c:125-136 | the request line splits at its spaces into method, target and HTTP/1.1, and the target percent-decodes to prefix followed by path, for all byte strings and either signedness of char |
| RequestTarget.DecodeEncode | src/http_req.c:110-123 | percent-decoding inverts the encoding |
| RequestTarget.NoBlanks | src/http_req.c:110-123 | every byte left in it is above space, so that the request line splits where it should |
| RequestTarget.EscapedIff | src/http_req.c:110-123 | of the bytes below 128 exactly the unreserved and reserved characters of RFC 3986 and DEL go out as they are; from 128 on the sign of char decides |
| RequestTarget.PlainPathsAreKept | src/http_req.c:110-123 | a path of such characters is sent as it is |
| RequestTarget.WriteUrlEncoded | src/http_req.c:110-123 | the loop writes that encoding |
| WebSocket.ClientFrameDecodes | src/websocket.c:188-219 | every frame decodes to a final masked binary frame with exactly the payload and the shortest length form, leaving what follows |
| WebSocket.FormIsMinimal | src/websocket.c:202-213 | no frame that decodes to a payload of that length has fewer length bytes |
| WebSocket.BuildFrame | src/websocket.c:188-223 | the buffer has exactly the frame's size and holds it |
| WebSocket.WriteHeader | src/websocket.c:200-216 | the header written through the moving pointer |
| WebSocket.DeliverData | src/websocket.c:350-380 | for an unmasked data frame at any offset, the overlapping loop leaves exactly the payload at the front of the buffer and nothing after it changed |
| WebSocket.ReadHeader | src/websocket.c:350-361 | finds payload and length in all three forms |
| WebSocket.UnmaskToFront | src/websocket.c:375-378 | the in-place loop never reads a byte it has overwritten |
| WebSocket.MaskedTwice | src/websocket.c:218-220 | masking is its own inverse |
| WebSocket.MaskedMeans | src/websocket.c:218-220 | masking combines byte i with byte i modulo 4 of the key, bit by bit |
| Url.ParseUrl | src/http.c:740-798 | returns 0 with the string's reading, or -1 exactly if it has none |
| Url.ParsePort | src/http.c:761-777 | the port needs a host, digits, and a value from 1 to 65535 |
| Url.ParseTail | src/http.c:779-797 | the rest is empty or a path, with everything after '?' as query |
| Url.ReadingIsUnique | src/http.c:740-798 | no string has two readings |
| Url.SlicesRebuild | src/http.c:740-798 | the slices are in order and disjoint, and rebuild the string with separators and port text |
| Url.RoundTrip | src/http.c:740-798 | a printed URL reads back as its parts, except exactly when it has neither scheme nor port and path and query begin like a scheme |
| Url.SchemelessPathIsMisread | src/http.c:743-752 | "/a://b" is read as scheme "/a" and host "b" |
| Base64Url.Decode | src/base64.c:68-106 | fills a buffer of the precomputed size without overrun with floor(3n/4) bytes that are the six-bit stream of the n leading characters, cut to whole bytes |
| Base64Url.DecodedIsUnique | src/base64.c:68-106 | only those bytes are |
| Base64Url.DecodingInvertsEncoding | src/base64.c:68-106 | decoding inverts the unpadded encoding, whatever follows the first character outside the alphabet |
| Base64Url.CountLeading | src/base64.c:54-66 | the scan stops at the first character outside the alphabet |
| Base64Url.TableIsRfcIff | src/base64.c:35-52 | the table reads a string as section 5 of RFC 4648 does if and only if the character that ends the standard's run is not '/' |
| Base64Url.SlashIsRead | src/base64.c:35-52 | "//" decodes to one byte where the standard has none |
| Base64Url.RfcBitsInvertsAlphabet | src/base64.c:35-52 | without '/' the table is the inverse of the standard's alphabet |
| Base64Url.GroupDecodes | src/base64.c:84-97 | the bytes of a group are the group's bits without the spare ones |
| Base64Url.LeadingOfEncode | src/base64.c:35-52 | the table inverts the alphabet |
| CText.StrToLOfDecText | src/http.c:766-773 | strtol reads a printed number back, clamped to long, up to the first other character |
| CText.StrToLReads | src/http.c:766-773 | strtol skips blanks, takes a sign and reads the digits up to the first other character, held to the range of a 64-bit long |
| CText.LowerIsSameText | src/http_req.c:174-211 | comparing lower-case forms finds two texts equal exactly if they have the same length and at every place the same character or the two cases of one letter |

## Left out

- Parse failure in `http_read_cb`: that branch clears the active request and then reads it, so it has no post-state.
- Cancelling the active request with `tlsuv_http_req_cancel`, for the same kind of reason; only queued requests are cancelled.
- Requests without a response callback, and callbacks that cancel everything or close the client.
- `tlsuv_http_close` and the teardown of the client.
- HTTP over sources other than the TCP source; what a successful attempt does to the chain is what `tcp_connect_cb` does.
- Masked, partial or coalesced frames in the WebSocket reader, control frames, `send_pong` and the upgrade handshake.
- A stream's close callback that comes only after a later attempt has connected: libuv runs it in the same loop iteration as the close.
- A second close of the same chain from inside one of its close methods, which overwrites the saved callback.
- TcpSource.Source.ResolveCb: the client does not call back into the source from inside its connect callback.
- TcpSource.Source.Forget: freeing of handles is not modelled, only closing.
- Links.Close: runs the close methods as counted steps; calls made by and during them are in LinkClose.
- CaBundle.ProcessChains: certificate verification is "the issuer is already in this store", with one issuer per certificate.
- HttpRequest.Request.Data: pieces of 4 GiB and more are not covered; the length of the size line then exceeds its ten-byte buffer and the source does not say what is sent.
- HttpRequest.Request.ProcessRequest: the head's other lines and its 8196-byte buffer are not modelled.
- Chunked.BodyRoundTrip: the reference decoder knows no chunk extensions and no trailers, which the library never writes.
- ByteQueue.Bio.Read: lengths do not overflow int.
- Url.ParseUrl: lengths do not overflow int; strings hold no NUL.
- RequestTarget.WriteUrlEncoded: the output is a growing sequence, not a caller's buffer.
- WebSocket.BuildFrame: the random mask is a parameter.
- TLS links and engines, keys and PKCS#11, compression, llhttp, logging, allocation failure and the freeing of memory: thin layers or code that is not part of the library.
