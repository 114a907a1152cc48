# Verified model of the coroutine server

The server runs every connection as a coroutine on one dispatcher thread: it reads requests with
incremental HTTP and TCP decoders, calls user code that may send sub-requests to upstream servers,
and writes the answer. This project models the parts whose correctness spans many functions and
whole runs, and proves what they are for:

- `SmoothWrr`, `Backend`, `BackendRuns`, `BackendRange`, `FailureWindow`: the smooth weighted round
  robin among back ends and the failure window that takes a back end out of service;
- `Buffer`, `TcpFrame`: the sliding buffer and the length-prefixed frames;
- `Text`, `HttpCore`, `HttpStream`, `HttpEncode`, `HttpChunked`, `HttpCodec`: the HTTP decoders and
  encoders. `HttpCore.Run` is a reference decoder that may stop and go on at any byte;
  `HttpCore.DecodeCall` is one call of the program's `decode`;
- `WakeUp`: producers on other threads, the two resume queues, the wake-up socket and the dispatcher
  loop, as a state machine whose steps are the spinlocked sections and the single tests of the loop;
- `SubRequest`, `SubRequestCode`, `UpstreamStages`: a request and its upstream sub-requests; the first
  holds the transitions and the proofs over runs, the second the methods, proved to be those
  transitions, and the third the stages of one attempt with the blocks they defer;
- `Connections`, `ConnectionsCode`: the connection pool, the idle lists and the counters of the
  upstreams, in the same two layers;
- `BackendCharges`: connections and back ends together, what handing connections back does to the
  failure windows;
- `Epoll`, `EpollCode`: what epoll holds for each connection, versions, and which reports are passed
  on, in the same two layers;
- `Timer`, `Single`, `SharedStack`: the timer index, the mutex wait queues, and coroutines that take
  turns on one stack.

Where a property turned out to hold only under a condition, the condition is proved exact and the
failing case is a lemma of its own:

- HTTP messages, requests and responses, are decoded independently of how their bytes arrive if and
  only if no read stops inside a header line that starts with CR and no call before the headers end
  finds more than 8192 bytes (`HttpStream.ArrivesIffNoBadCut`); responses on which one decode of
  everything fails are settled apart (`HttpStream.FailedArrivalIff`);
- a stream of TCP frames is decoded to the list sent if and only if its last body is not empty
  (`TcpFrame.StreamRoundTrip`);
- the failure window is right throughout a run if and only if no failure of it is compared through
  a distorting `int32_t` cast (`FailureWindow.AlwaysWindowIff`). On any run a back end is marked down
  wrongly only by a failure that is itself distorted (`MarkedDownOnlyWhenCrowded`), and by every such
  one whose window started with the earliest failure it counts (`MarkedDownIff`). The range of the
  cast is exact (`CastAgrees`); `StillDownAfterWeeks` and `MarkedDownAcrossWindows` are examples;
- while no back end is down, current weights stay in [-W, (n-1)W], with W the total weight. When some
  are down at some picks the lower bound fails (`BackendRange.BelowMinusTotal`: seven back ends, ten
  picks); what holds on every run is [-(n-1)M, (n-1)M], with M the largest weight
  (`BackendRange.AnyRunRange`), and n M < 2^31 is enough for int32;
- a turn of a sub-request finalises it exactly once if and only if epoll does not refuse the call
  that removes EPOLLOUT at the end of writing (`UpstreamStages.FinalisesOnceIff`). After a refusal the
  deferred block finalises the request, and the stage then finalises or reads for it again: unless
  it was retried, and to read on retried on the same connection, it is deleted by then and the
  program uses it, or NULL, all the same (`LosesRequestIff`, `RefusedRemovalCrashes`). What is proved
  of the runs of sub-requests holds up to such a step;
- a waiting parent is resumed early exactly when it is dispatched by an event without hang-up or
  timeout, or by an entry of `resume_async` left over with the version its connection still has
  (`SubRequest.BareEventBreaks`). These two kinds of steps are the only ones that break the invariant
  of the sub-requests, and they always do (`SubRequest.KeptIff`);
- an entry of the delay queue acts on a sub-request it was not queued for exactly when that took, first
  or for a retry, a connection that was in the queue at its present version, as closing all connections
  leaves an idle one (`SubRequest.ForeignIff`, `NeverForeignIff`);
- a mutex unlock wakes a connection that waits for another mutex exactly when the first waiting entry
  of its queue is of one (`Single.WakesOtherWhen`); that never happens on runs in which connections
  stop waiting only after their entries were taken, and can always happen otherwise
  (`Single.TidyWakesOwn`, `UntidyWakesOther`);
- the delay queue of a sleeping dispatcher holds exactly what closing all connections queued since it
  last went to sleep (`WakeUp.AsleepDelayIsQueued`);
- a connection's record of its epoll registration is wrong exactly after two kinds of steps, both of
  which need a failed `epoll_ctl` or an unregistered connection (`Epoll.KeptIff`); closing a connection
  while `epoll_ctl` fails makes it useless for ever (`Epoll.PoisonedForEver`);
- a coroutine started again on bytes saved from an earlier use finds its return frame if and only if
  those bytes end with it (`SharedStack.RestartFindsFrame`);
- freeing a connection, or resetting an event, keeps the timer index right if and only if the timers
  it does not delete had been deleted (`Timer.CoTimer.FreeConnection`, `ResetEvent`), as
  `Timer.CoTimer.YieldTimer` leaves the sleep timer.

The source comments say that equal weights take the plain round robin. The code takes the weighted
path whenever there are two or more back ends, because the compared field keeps its default 0; the
model follows the code (`Backend.CoBackendStrategyWRR.Init`).

## Model

| member | source | states |
|---|---|---|
| SmoothWrr.Fairness | coserver/upstream/co_upstream_backend.cpp:201-235 | every window of W consecutive picks, W the total weight, chooses back end i exactly weight(i) times |
| SmoothWrr.Periodic | coserver/upstream/co_upstream_backend.cpp:201-235 | the current weights after k+W picks are those after k |
| SmoothWrr.WindowReturnsToZero | coserver/upstream/co_upstream_backend.cpp:201-235 | W picks from zero bring every current weight back to zero |
| SmoothWrr.NoStarvation | coserver/upstream/co_upstream_backend.cpp:201-235 | every back end is chosen at least once in any W consecutive picks |
| SmoothWrr.CurrentBounds | coserver/upstream/co_upstream_backend.cpp:201-235 | current weights sum to zero and each stays strictly above -W |
| SmoothWrr.ClosedForm | coserver/upstream/co_upstream_backend.cpp:201-235 | a current weight is picks made times its weight less W times the picks it won |
| Backend.Int32 | coserver/upstream/co_upstream_backend.cpp:28-28 | the cast yields the one value in int32 range congruent to the difference modulo 2^32 |
| Backend.BestIsFirstMax | coserver/upstream/co_upstream_backend.cpp:209-226 | the scan settles on the earliest of the available back ends with the largest weight after the gain, and on none exactly when none is available |
| Backend.RoundRobinFirstUp | coserver/upstream/co_upstream_backend.cpp:186-199 | the plain round robin chooses the first available slot after the current one, and queries that one and those before it and no other |
| Backend.CoBackendWRR.constructor | coserver/upstream/co_upstream_backend.cpp:107-141 | a new back end has its configured weight as effective weight only, no failures, and failure checking unless one of the two settings is zero |
| Backend.CoBackendWRR.Avaliable | coserver/upstream/co_upstream_backend.cpp:21-36 | the answer and the new state are those of the availability query on values |
| Backend.CoBackendWRR.GainWeight | coserver/upstream/co_upstream_backend.cpp:209-220 | one turn of the scan: only an available back end gains, and recovers a step towards its configured weight |
| Backend.CoBackendWRR.PayTotal | coserver/upstream/co_upstream_backend.cpp:228-232 | the winner pays the total and nothing else about it changes |
| Backend.CoBackendWRR.CommFailed | coserver/upstream/co_upstream_backend.cpp:66-82 | a failure lowers the effective weight by its share, never below zero, and is counted in the window |
| Backend.CoBackendWRR.CountFailure | coserver/upstream/co_upstream_backend.cpp:38-59 | the window restarts or counts on, and the threshold marks the back end down |
| Backend.CoBackendStrategyWRR.constructor | coserver/upstream/co_upstream_backend.cpp:94-97 | starts with no back end |
| Backend.CoBackendStrategyWRR.AddBackend | coserver/upstream/co_upstream_backend.cpp:107-141 | appends one new back end and leaves the others as they are |
| Backend.CoBackendStrategyWRR.Init | coserver/upstream/co_upstream_backend.cpp:143-162 | with every weight at its default, the weighted path is on exactly when there are two or more back ends |
| Backend.CoBackendStrategyWRR.ScanOne | coserver/upstream/co_upstream_backend.cpp:207-223 | one turn: only an available back end gains, adds to the total and replaces the best, and only when strictly larger |
| Backend.CoBackendStrategyWRR.GainAll | coserver/upstream/co_upstream_backend.cpp:201-226 | the scanning loop leaves the states, total and winner of the scan on values |
| Backend.CoBackendStrategyWRR.ChooseOneWeight | coserver/upstream/co_upstream_backend.cpp:201-235 | one weighted pick: its winner and every new state, all back ends down included |
| Backend.CoBackendStrategyWRR.QueryNext | coserver/upstream/co_upstream_backend.cpp:186-199 | one turn of the plain loop moves the index and queries exactly the slot it lands on |
| Backend.CoBackendStrategyWRR.ChooseOne | coserver/upstream/co_upstream_backend.cpp:186-199 | the plain loop is the round robin on values |
| Backend.CoBackendStrategyWRR.GetBackend | coserver/upstream/co_upstream_backend.cpp:164-184 | answers none exactly when every back end is down, and otherwise picks by the path in force |
| BackendRuns.RunKeepsSum | coserver/upstream/co_upstream_backend.cpp:61-82 | over any run of picks, queries, failures, downs and recoveries and any configured weights, the current weights keep their sum |
| BackendRuns.RunWithinCaps | coserver/upstream/co_upstream_backend.cpp:66-82 | effective weights stay between zero and a cap fixed by the start |
| BackendRuns.RunBounded | coserver/upstream/co_upstream_backend.cpp:201-235 | while none is down, current weights sum to zero and stay at or above -W on every run |
| BackendRuns.CurrentRange | coserver/upstream/co_upstream_backend.cpp:201-235 | while none is down, each current weight lies in [-W, (n-1)W], and int32 suffices for all of the scan once nW fits |
| BackendRuns.PickIsStep | coserver/upstream/co_upstream_backend.cpp:201-235 | with every back end up, a pick of the code is one step of the weight vector |
| BackendRuns.RunFollowsCurrent | coserver/upstream/co_upstream_backend.cpp:61-82 | for back ends as added, failures never move effective weights, and current weights depend on the number of picks alone |
| BackendRuns.ChoicesAreChosen | coserver/upstream/co_upstream_backend.cpp:201-235 | pick number j of any run is the j-th choice of the vector scheduler, whatever happens between picks |
| BackendRuns.RunFairness | coserver/upstream/co_upstream_backend.cpp:135-135 | exact fairness of the code as written: in any run that finds none down, every window of W picks chooses each back end as often as configured |
| BackendRuns.FailuresDrain | coserver/upstream/co_upstream_backend.cpp:66-82 | failures in a row take weight / fail_maxnum each from the effective weight, exactly, until nothing is left |
| BackendRuns.ScansRecover | coserver/upstream/co_upstream_backend.cpp:209-220 | each scan that finds it available gives a back end one back until it has its configured weight, exactly |
| BackendRange.AnyRunRange | coserver/upstream/co_upstream_backend.cpp:201-235 | over any run of picks, failures, downs and recoveries and for any configured weights, each current weight stays in [-(n-1)M, (n-1)M] with M the largest weight, and int32 suffices for the scan once nM fits |
| BackendRange.PickedSpread | coserver/upstream/co_upstream_backend.cpp:206-234 | a pick among any back ends keeps every set of k of the n within k(n-k)M together |
| BackendRange.PickIsPicked | coserver/upstream/co_upstream_backend.cpp:201-235 | a weighted pick of the code, whatever is down, is that pick on the vectors, and none up changes no current weight |
| BackendRange.RunSpread | coserver/upstream/co_upstream_backend.cpp:61-82 | the bound on every set holds after every run |
| BackendRange.TotalRange | coserver/upstream/co_upstream_backend.cpp:201-235 | if (n-1)M is within the total, as for equal weights, every current weight stays within the total of zero on every run |
| BackendRange.RoundIsPicked | coserver/upstream/co_upstream_backend.cpp:21-59 | failures and a pick within one millisecond are a pick among just those that did not fail |
| BackendRange.BelowMinusTotal | coserver/upstream/co_upstream_backend.cpp:201-235 | counterexample to -W as a lower bound on runs with downs: from any time on, weights 7, 1, 1, 1, 1, 1, 1 come to -14 after ten picks |
| FailureWindow.CastAgrees | coserver/upstream/co_upstream_backend.cpp:28-28 | comparing the cast difference with a threshold is comparing the difference exactly when the difference is in the stated range |
| FailureWindow.DownUntilTimeout | coserver/upstream/co_upstream_backend.cpp:21-36 | a down back end answers available exactly once fail_timeout has passed, and that query restores it |
| FailureWindow.StillDownAfterWeeks | coserver/upstream/co_upstream_backend.cpp:28-28 | counterexample outside the range: 24.9 days after it was marked, at any time, the back end still answers down |
| FailureWindow.FailureKeepsWindow | coserver/upstream/co_upstream_backend.cpp:38-59 | one failure keeps the failures counted within one fail_timeout if and only if the cast does not distort its distance from the first of them |
| FailureWindow.AlwaysWindowIff | coserver/upstream/co_upstream_backend.cpp:38-59 | with a clock that does not go back, the window is right after every event of a run if and only if no failure of it is compared through a distorting cast |
| FailureWindow.MarkedDownIff | coserver/upstream/co_upstream_backend.cpp:50-56 | on any run with a clock that does not go back, a marking whose window started with the earliest failure it counts is right if and only if it is not distorted; one whose window started before is right too when that earliest failure is recent |
| FailureWindow.MarkedDownOnlyWhenCrowded | coserver/upstream/co_upstream_backend.cpp:38-59 | on any run, whatever was distorted before, a failure marks the back end down only if the last fail_maxnum failures lie within one fail_timeout or this failure is itself distorted |
| FailureWindow.MarkedDownAcrossWindows | coserver/upstream/co_upstream_backend.cpp:43-52 | counterexample outside the cast's range, at any time whose low 32 bits read as negative for as long: two failures a thousand seconds apart mark a new back end down within a five-second window |
| FailureWindow.StaysDown | coserver/upstream/co_upstream_backend.cpp:21-59 | a down back end is unavailable throughout any run whose events come within fail_timeout of its last marking failure |
| FailureWindow.WindowRestarts | coserver/upstream/co_upstream_backend.cpp:43-48 | a failure more than fail_timeout after the window's first starts the next window with itself |
| FailureWindow.WindowCounts | coserver/upstream/co_upstream_backend.cpp:38-59 | within one window no failure is missed and none counted twice, queries in between or not, and the back end is down exactly if the count reached the threshold, since the last failure |
| FailureWindow.MarkedDownWhenCrowded | coserver/upstream/co_upstream_backend.cpp:38-59 | a back end whose window has run out is down after further failures within one window if and only if they are fail_maxnum or more |
| FailureWindow.DownSinceLastMark | coserver/upstream/co_upstream_backend.cpp:50-56 | after any run and whatever the clock does, a back end is down from the last failure that reached the threshold, those that found it down included |
| FailureWindow.AddedIsNew | coserver/upstream/co_upstream_backend.cpp:107-141 | a back end added with both settings on has no failures and the settings given, ten failures and five seconds standing for negative ones |
| FailureWindow.UncheckedIsUp | coserver/upstream/co_upstream_backend.cpp:21-42 | with either setting zero no failures ever take a back end out of service |
| Buffer.Doubled | coserver/base/co_buffer.cpp:98-111 | the doubling loop ends with room for the need and less than twice it unless no doubling was needed |
| Buffer.CoBuffer.constructor | coserver/base/co_buffer.cpp:19-21 | a new buffer is empty |
| Buffer.CoBuffer.MoveToFront | coserver/base/co_buffer.cpp:83-90 | moving the window to the front of the block keeps the contents |
| Buffer.CoBuffer.Realloc | coserver/base/co_buffer.cpp:113-129 | reallocation keeps the contents in a block of the new size |
| Buffer.CoBuffer.Expand | coserver/base/co_buffer.cpp:64-130 | success leaves the asked room after unchanged contents; no call loses data; it fails only when memory is needed and refused; the block grows to at most 256 or twice the need |
| Buffer.CoBuffer.Append | coserver/base/co_buffer.cpp:28-44 | refines appending to a byte queue, with the contents untouched on failure |
| Buffer.CoBuffer.Store | coserver/core/co_callback_request.cpp:60-60 | bytes written by a socket after the data are not yet part of the contents |
| Buffer.CoBuffer.SizeExpand | coserver/base/co_buffer.cpp:132-142 | takes in exactly the next bytes of the room, or refuses and changes nothing when there is less |
| Buffer.CoBuffer.Erase | coserver/base/co_buffer.cpp:46-62 | refines dropping a prefix of a byte queue, the whole of it when asked for more |
| Buffer.CoBuffer.Reset | coserver/base/co_buffer.cpp:144-148 | refines emptying the queue |
| Buffer.CoBuffer.Receive | coserver/core/co_callback_request.cpp:52-73 | one turn of a read loop appends what arrived to the contents, and fails only without memory |
| TcpFrame.LengthRoundTrip | coserver/protocol/co_protocol_tcp.cpp:36-78 | the length read back in host order is the length written, for every length of 31 bits |
| TcpFrame.FrameRoundTrip | coserver/protocol/co_protocol_tcp.cpp:36-78 | a frame at the front of any bytes decodes to its body, unless the eight head bytes are all there is |
| TcpFrame.PartOfFrame | coserver/protocol/co_protocol_tcp.cpp:36-64 | every proper prefix of a frame makes the decoder wait |
| TcpFrame.DecodeStable | coserver/protocol/co_protocol_tcp.cpp:36-64 | what is decided about some bytes does not change when more follow |
| TcpFrame.NegativeIff | coserver/protocol/co_protocol_tcp.cpp:50-58 | a length reads as negative exactly if the top bit of its first byte is set |
| TcpFrame.FailsIff | coserver/protocol/co_protocol_tcp.cpp:36-64 | decoding any bytes fails if and only if, after the frames decoded, it comes to more than eight bytes whose first four are not the flag or whose length reads as negative; otherwise what is left is a head at most or lacks bytes of its body |
| TcpFrame.PrefixDecodes | coserver/protocol/co_protocol_tcp.cpp:36-64 | any prefix of a stream of frames decodes to a prefix of the list without failing, and leaves part of the next frame |
| TcpFrame.StreamRoundTrip | coserver/protocol/co_protocol_tcp.cpp:36-78 | the whole stream decodes to the list sent and an empty buffer exactly when the last body is not empty; otherwise the empty frame stays |
| TcpFrame.DecodeAllSplit | coserver/protocol/co_protocol_tcp.cpp:36-64 | decoding some bytes and then what is left with the rest is decoding all at once, for arbitrary bytes; a failure is final |
| TcpFrame.ArrivalIndependent | coserver/protocol/co_protocol_tcp.cpp:36-64 | bodies, failure and, unless failed, leftover do not depend on how arbitrary bytes are divided into reads |
| TcpFrame.CoProtocolTcp.constructor | coserver/protocol/co_protocol_tcp.cpp:11-16 | starts with two empty bodies |
| TcpFrame.CoProtocolTcp.Decode | coserver/protocol/co_protocol_tcp.cpp:36-64 | return value, body and remaining buffer in each of the four cases, a bad flag and a negative length included |
| TcpFrame.CoProtocolTcp.Encode | coserver/protocol/co_protocol_tcp.cpp:66-78 | appends one frame of the message this side sends |
| Text.AtoiOfInt | coserver/protocol/co_protocol_http_server.cpp:135-138 | reading back a printed integer gives it, negative ones included |
| Text.AtoiReads | coserver/protocol/co_protocol_http_server.cpp:135-138 | the number read passes over white space, takes either sign and stops at the first character that is no digit |
| Text.SplitAt | coserver/protocol/co_protocol_http.cpp:21-37 | splitting at the first separator inverts joining by it |
| HttpStream.RunSplit | coserver/protocol/co_protocol_http_client.cpp:82-175 | the reference decoder may stop after any bytes and go on with the rest, chunked bodies and failures included |
| HttpStream.NextChunkStable | coserver/protocol/co_protocol_http.cpp:169-231 | what the next chunk is, once decided, does not change when more bytes follow |
| HttpStream.TakeChunksSplit | coserver/protocol/co_protocol_http.cpp:169-231 | only whole chunks are consumed, so a chunked body may be cut at any byte: same content, end, leftover and failure |
| HttpStream.CallRuns | coserver/protocol/co_protocol_http_server.cpp:82-163 | within the size limit and with no bad cut, a decode call of either side does what the reference does |
| HttpStream.FirstLineLimit | coserver/protocol/co_protocol_http_server.cpp:94-110 | a first line that has not ended is waited for up to 8192 bytes and refused, with the buffer emptied, beyond |
| HttpStream.CallsAreRun | coserver/base/co_buffer.cpp:46-62 | for any bytes and any division into reads without a bad cut, the decode calls end with the same message, status and leftover as one decode of everything, and fail exactly if it fails |
| HttpStream.RequestsArriveIffNoBadCut | coserver/protocol/co_protocol_http_server.cpp:94-149 | for requests, which one decode of all bytes never fails, that condition is exact without any hypothesis |
| HttpStream.OverLimitFails | coserver/protocol/co_protocol_http_server.cpp:94-101 | a sequence of calls one of which is over the limit ends in failure |
| HttpStream.ArrivesIffNoBadCut | coserver/protocol/co_protocol_http_client.cpp:94-149 | for requests and responses, plain and chunked: unless one decode of all bytes fails, the calls agree with it if and only if no read stopped inside a header line that starts with CR and no call before the headers end found more than 8192 bytes |
| HttpStream.FailedArrivalIff | coserver/protocol/co_protocol_http_client.cpp:151-166 | when one decode of all bytes fails, badly cut calls agree with it exactly if the cut line is more than the blank line and names no header and the first chunk after it is malformed |
| HttpStream.DerailedDiffers | coserver/protocol/co_protocol_http_server.cpp:131-133 | once cut badly, a message on which the reference does not fail never agrees with it again, whatever follows |
| HttpStream.DerailedFailsAlike | coserver/protocol/co_protocol_http_client.cpp:158-163 | a derailed response and a failing reference fail alike exactly if both do so at their first chunk |
| HttpStream.CallDerails | coserver/protocol/co_protocol_http_server.cpp:128-155 | the call that sees a bad cut takes the CR as the blank line and the rest as the body |
| HttpEncode.Printed | coserver/protocol/co_protocol_http_server.cpp:169-198 | a printed line is the line meant, or the first 511 characters of a longer one |
| HttpEncode.HeaderFieldOfLine | coserver/protocol/co_protocol_http.cpp:122-150 | a printed header line parses into exactly the header it was printed from |
| HttpEncode.HeaderSpelledAnyWay | coserver/protocol/co_protocol_http.cpp:122-150 | a header is read with any number of spaces after the colon and with CR LF or LF, and replaces an earlier one of its name |
| HttpEncode.LineWithoutColon | coserver/protocol/co_protocol_http.cpp:133-145 | a header line without a colon is passed over |
| HttpEncode.RefusedIff | coserver/protocol/co_protocol_http.cpp:50-62 | decoding fails for the start line exactly if a response's first line has come and does not begin with HTTP in some mix of cases; requests are never refused for theirs |
| HttpEncode.RunHeaderLines | coserver/protocol/co_protocol_http.cpp:122-150 | the printed lines of a header map, in any order, decode to those headers and leave what follows |
| HttpEncode.StatusLineFields | coserver/protocol/co_protocol_http.cpp:39-76 | a printed status line is accepted and yields version, code and reason |
| HttpEncode.RequestLineFields | coserver/protocol/co_protocol_http.cpp:78-120 | a printed request line yields method, url and version |
| HttpEncode.SentRuns | coserver/protocol/co_protocol_http.cpp:39-167 | start line, headers in any order and body decode to a complete message with all of them, whatever follows being left; with no length and, in a response, no chunked coding the body is empty |
| HttpEncode.ResponseMeant | coserver/protocol/co_protocol_http_server.cpp:178-190 | what a server sends is, exactly, every header of the user but Content-Length and Server with its value, the printed length of the body and the server's fixed name |
| HttpEncode.RequestMeant | coserver/protocol/co_protocol_http_client.cpp:47-63 | what a client sends is, exactly, every header of the user but Content-Length, Server and Host with its value, the length only if there is a body, the fixed name, and the user's Host or, if that is empty, the peer's address |
| HttpEncode.ResponseRoundTrip | coserver/protocol/co_protocol_http_server.cpp:165-211 | the client's decoder inverts the server's encode: it gets version, status, reason, body, every header of the user with its value, the length and the server's name, and no other header, for any order of the header map, and consumes exactly the message |
| HttpEncode.RequestRoundTrip | coserver/protocol/co_protocol_http_client.cpp:38-80 | the server's decoder inverts the client's encode in the same way, with a length exactly if there is a body and always a Host |
| HttpEncode.ResponseArrives | coserver/protocol/co_protocol_http_client.cpp:82-175 | end to end: a sent response read in any pieces is that response, with nothing left, if and only if there is no bad cut and no call over the limit |
| HttpEncode.RequestArrives | coserver/protocol/co_protocol_http_server.cpp:82-163 | the same of a request sent by the client and read by the server |
| HttpChunked.ChunkedRoundTrip | coserver/protocol/co_protocol_http.cpp:169-231 | decoding the chunked coding (section 7.1 of RFC 9112) of any list of non-empty chunks of any bytes yields their concatenation and consumes exactly the coding |
| HttpChunked.ChunkedResponseRoundTrip | coserver/protocol/co_protocol_http_client.cpp:82-175 | a whole response, any headers with `Transfer-Encoding: chunked` and no length among them, in any order, decodes to its status, reason, headers and the chunks put together, and exactly its bytes are consumed |
| HttpChunked.ChunkedResponseArrives | coserver/protocol/co_protocol_http_client.cpp:82-175 | the same of it read in any pieces, if and only if there is no bad cut and no call over the limit |
| HttpChunked.HexDigitIff | coserver/protocol/co_protocol_http.cpp:188-202 | the digits of chunk sizes are the sixteen, letters in either case, and no other characters |
| HttpChunked.BadSizeFails | coserver/protocol/co_protocol_http.cpp:185-202 | a chunked body fails at a size with a character that is no digit after at most seven that are |
| HttpChunked.BareNewlineFails | coserver/protocol/co_protocol_http.cpp:181-183 | a chunked body fails at a size line that does not end in CR LF |
| HttpChunked.HexEitherCase | coserver/protocol/co_protocol_http.cpp:169-231 | every size has a hexadecimal spelling in upper and in lower case and both are read as that size |
| HttpCodec.CoProtocolHttp.constructor | coserver/protocol/co_protocol_http_server.cpp:57-62 | a decoder waiting for a start line, with an empty message |
| HttpCodec.CoProtocolHttp.ParseStartLine | coserver/protocol/co_protocol_http.cpp:39-120 | no whole line, refused line and taken line are told apart, and only a taken line changes the message |
| HttpCodec.CoProtocolHttp.ParseHeader | coserver/protocol/co_protocol_http.cpp:122-150 | takes one whole line as a header, or nothing |
| HttpCodec.CoProtocolHttp.ParseContent | coserver/protocol/co_protocol_http.cpp:152-167 | takes as much of the body as is there and wanted, and completes exactly when nothing more is wanted |
| HttpCodec.CoProtocolHttp.ChunkSize | coserver/protocol/co_protocol_http.cpp:185-202 | the digit loop yields the hexadecimal value, or tells a bad digit from an overflow of int32 |
| HttpCodec.CoProtocolHttp.FindChunk | coserver/protocol/co_protocol_http.cpp:175-214 | the head of the chunk loop classifies the bytes as the reference does |
| HttpCodec.CoProtocolHttp.ParseContentChunked | coserver/protocol/co_protocol_http.cpp:169-231 | the chunk loop takes exactly the whole chunks there are |
| HttpCodec.CoProtocolHttp.FinishHeaders | coserver/protocol/co_protocol_http_client.cpp:124-139 | the end of the headers turns to a body of the length given or, in a response that gives none, to chunks; `SentRuns` and `ChunkedResponseRoundTrip` say what a whole message of each kind decodes to |
| HttpCodec.CoProtocolHttp.ParseHeaders | coserver/protocol/co_protocol_http_server.cpp:127-149 | the header loop, which tests a first character even when no whole line was found |
| HttpCodec.CoProtocolHttp.ParseBody | coserver/protocol/co_protocol_http_client.cpp:151-166 | the content part of a call, a chunk failure leaving the buffer as it was |
| HttpCodec.CoProtocolHttp.Decode | coserver/protocol/co_protocol_http_server.cpp:82-163 | message, buffer and return value after one call are those of the call on values, the size limit and the two error codes included |
| HttpCodec.CoProtocolHttp.TakeIn | coserver/core/co_callback_request.cpp:54-76 | one turn of the read loop: without memory nothing changes, else message and buffer are those of a decode call on the data so far |
| HttpCodec.CoProtocolHttp.ReadMessage | coserver/core/co_callback_request.cpp:50-96 | the read loop leaves what the sequence of decode calls on values leaves, stops at the first call that does not ask for more, and breaks off exactly at a failed read or one without memory |
| HttpCodec.CoProtocolHttp.AppendHeader | coserver/protocol/co_protocol_http_server.cpp:197-198 | appends one header line, cut to 511 characters |
| HttpCodec.CoProtocolHttp.AppendHeaders | coserver/protocol/co_protocol_http_server.cpp:194-199 | appends the line of every header once, in some order |
| HttpCodec.CoProtocolHttp.SetResponseHeaders | coserver/protocol/co_protocol_http_server.cpp:178-190 | sets the length, zero included, and the server's name over whatever was there and leaves the user's other headers: the headers that `ResponseMeant` describes |
| HttpCodec.CoProtocolHttp.SetRequestHeaders | coserver/protocol/co_protocol_http_client.cpp:47-61 | sets the length only for a body, removes a stale one, and adds Host only when it is missing or empty: the headers that `RequestMeant` describes |
| HttpCodec.CoProtocolHttp.EncodeResponse | coserver/protocol/co_protocol_http_server.cpp:165-211 | appends the sent form of the response the round trip is about, with the phrase of the status table, or that of 500 for a code it has not |
| HttpCodec.CoProtocolHttp.EncodeRequest | coserver/protocol/co_protocol_http_client.cpp:38-80 | appends the sent form of the request the round trip is about |
| WakeUp.NoLostWakeUp | coserver/core/co_dispatcher.cpp:430-476 | in every interleaving, an item in either queue that the dispatcher will not test for before sleeping has a signal pending or a producer committed to writing one, however little the socket pair holds and although a write that finds it full is lost |
| WakeUp.SleepsOnlyWhenDone | coserver/core/co_dispatcher.cpp:124-207 | a dispatcher asleep with no signal and no producer on its way has emptied both queues and, until told to stop, the delay queue |
| WakeUp.PopFindsAnItem | coserver/core/co_dispatcher.cpp:165-180 | testing a queue without the lock is safe: what was not empty is still not empty under the lock |
| WakeUp.WritesWhenEmpty | coserver/core/co_dispatcher.cpp:430-476 | a producer goes on to write to the socket pair exactly if its push found the queue empty |
| WakeUp.QueuesAreFifo | coserver/core/co_dispatcher.cpp:124-207 | on every run each of the three queues, the delay queue included, holds what was ever put in, in order, less as many from the front as were taken out |
| WakeUp.RunsWhatItTook | coserver/core/co_dispatcher.cpp:165-187 | what the dispatcher runs is the entry it took out last |
| WakeUp.RunKeepsInv | coserver/core/co_dispatcher.cpp:124-207 | the invariant behind these holds after every interleaving of producers and the dispatcher |
| WakeUp.AsleepDelayIsQueued | coserver/core/co_dispatcher.cpp:96-116 | on every run the delay queue of a sleeping dispatcher is exactly what closing all connections has queued since it last went to sleep |
| WakeUp.StoppingSleepsOnDelay | coserver/core/co_dispatcher.cpp:96-116 | an example: a stopping dispatcher goes to sleep with a connection just queued for closing |
| SubRequest.CountAndOnce | coserver/upstream/co_callback_upstream.cpp:230-259 | on every run of unbroken steps m_count is one more than the sub-requests under way, and each one added is under way or was finalised exactly once, turns that call upstream_finalize twice included |
| SubRequest.AttemptsBounded | coserver/upstream/co_callback_upstream.cpp:201-228 | no sub-request makes more than 1 + retry_maxnum attempts; every attempt that ends is the last or leaves fewer; a success or a dying parent ends it |
| SubRequest.RetriedIff | coserver/upstream/co_callback_upstream.cpp:201-228 | a sub-request is retried if and only if its attempt failed, its parent is not dying, it has retries left and a connection is to be had; then it is under way there with one retry more and queued, and otherwise it is finalised |
| SubRequest.AttemptsExact | coserver/upstream/co_callback_upstream.cpp:201-228 | on every run a sub-request under way has ended as many attempts as it has retries, and one whose attempts all fail, with connections to be had and the parent well, makes exactly 1 + retry_maxnum |
| SubRequest.AttemptIsRun | coserver/upstream/co_upstream.cpp:261-314 | on every run each attempt, first or retry, has an entry of its own in the queue until that is popped, and is what the dispatcher then runs |
| SubRequest.ResumedWhenDone | coserver/upstream/co_upstream.cpp:320-335 | a waiting parent runs on only when no sub-request remains, having been queued once for a non-empty batch, and then has no entry left in the queue unless dying |
| SubRequest.WaitingIsQueued | coserver/upstream/co_callback_upstream.cpp:253-257 | while sub-requests remain a waiting parent is not queued (unless dying); when none remains it is, once |
| SubRequest.ActedOnIsCurrent | coserver/core/co_dispatcher.cpp:140-151 | an entry the dispatcher acts on has its connection's present version, which is the parent's, one this request does not use, or that of exactly one sub-request |
| SubRequest.ForeignIff | coserver/core/co_connection.cpp:285-298 | exactly one kind of step leaves an entry that acts on a sub-request it was not queued for: a sub-request takes a connection that is in the queue at its present version |
| SubRequest.NeverForeignIff | coserver/upstream/co_upstream.cpp:62-70 | a run never has such an entry if and only if no sub-request takes such a connection |
| SubRequest.ActedOnIsOwn | coserver/core/co_dispatcher.cpp:140-151 | on those runs the dispatcher runs a sub-request only by entries queued since it took its connection |
| SubRequest.KeptIff | coserver/core/co_callback_event.cpp:12-82 | every step keeps the invariant except those that always break it: a waiting parent dispatched by an event without hang-up or timeout or by a left-over resume entry, and a turn that goes on with a request it has lost |
| SubRequest.BareEventBreaks | coserver/core/co_dispatcher.cpp:165-172 | counterexample family: such a step runs the parent on with sub-requests left, or with its own entry still queued |
| SubRequest.RunKeepsInv | coserver/upstream/co_callback_upstream.cpp:201-265 | the invariant holds after every run of additions, child turns that finalise once or twice, retries, parent events, queue turns, resume entries, frees by other requests, closing of all connections, idle ones included, and endings |
| SubRequest.ClosingKeeps | coserver/core/co_connection.cpp:285-298 | closing all connections, idle and used, in any order, keeps it |
| SubRequest.TurnKeeps | coserver/upstream/co_callback_upstream.cpp:201-265 | a sub-request's turn, finalised once or twice, retried on another or the same connection, keeps the invariant if and only if it does not go on with a lost request |
| SubRequest.LosesWhen | coserver/upstream/co_callback_upstream.cpp:62-104 | a second finalisation meets a deleted request unless the first retried, and reading on meets none unless it retried on the same connection |
| UpstreamStages.FinalisesOnceIff | coserver/upstream/co_callback_upstream.cpp:22-105 | an attempt finalises its request exactly once if and only if epoll does not refuse the call that removes EPOLLOUT at the end of writing |
| UpstreamStages.SucceedsIff | coserver/upstream/co_callback_upstream.cpp:20-199 | a turn finalises as a success if and only if every step of it went well, and then leaves the connection watched as before but for input and output, with hang-ups added on a new one |
| UpstreamStages.LosesRequestIff | coserver/upstream/co_callback_upstream.cpp:56-105 | it goes on with a deleted request or none if and only if that call is refused and the request is not retried or, when all was written, not on the same connection |
| UpstreamStages.RefusedRemovalCrashes | coserver/upstream/co_callback_upstream.cpp:63-69 | the failing input: with that one answer changed, a good attempt finalises and deletes its request, queues the parent, and reads on for no request |
| UpstreamStages.AskIsModify | coserver/base/co_epoll.cpp:89-146 | asking by the connection's record is modify_connection, while record and epoll agree |
| UpstreamStages.CoCallbackUpstream.constructor | coserver/upstream/co_callback_upstream.cpp:22-27 | an attempt on a connection with its record |
| UpstreamStages.CoCallbackUpstream.ModifyConnection | coserver/base/co_epoll.cpp:89-146 | record and answer after a call |
| UpstreamStages.CoCallbackUpstream.UpstreamInit | coserver/upstream/co_callback_upstream.cpp:22-54 | a whole attempt is the turn that its answers make of it |
| UpstreamStages.CoCallbackUpstream.UpstreamWrite | coserver/upstream/co_callback_upstream.cpp:56-105 | writing, its deferred block run before what it returns with |
| UpstreamStages.CoCallbackUpstream.FinalizeAndReturn | coserver/upstream/co_callback_upstream.cpp:65-68 | the deferred block finalises and what was set before runs after it |
| UpstreamStages.CoCallbackUpstream.UpstreamRead | coserver/upstream/co_callback_upstream.cpp:107-180 | reading finalises once, its deferred block never |
| UpstreamStages.CoCallbackUpstream.UpstreamProcess | coserver/upstream/co_callback_upstream.cpp:182-199 | the user's answer is the result |
| SubRequestCode.Cycle.UseLostRequest | coserver/upstream/co_callback_upstream.cpp:203-209 | marks the point from which nothing is promised |
| SubRequest.KillKeeps | coserver/core/co_callback_event.cpp:51-64 | killing the sub-requests of a dying parent, however often, keeps count, ownership and queue right |
| SubRequest.FinalizeCases | coserver/upstream/co_callback_upstream.cpp:201-228 | freeing before or after finalising comes to the same, and a retry without a connection is a finalisation |
| SubRequestCode.Cycle.constructor | coserver/core/co_request.cpp:41-80 | a new request counts itself and has no sub-requests |
| SubRequestCode.Cycle.FreeConnection | coserver/core/co_connection.cpp:39-43 | gives the connection a new version and changes nothing else |
| SubRequestCode.Cycle.Push | coserver/upstream/co_upstream.cpp:314-314 | appends the connection with its present version to the delay queue |
| SubRequestCode.Cycle.AddUpstream | coserver/upstream/co_upstream.cpp:272-318 | adds and queues one sub-request, or changes nothing when no connection is to be had |
| SubRequestCode.Cycle.UpstreamFinalizeRequest | coserver/upstream/co_callback_upstream.cpp:230-265 | takes the sub-request out, counts down, and queues the parent exactly at one |
| SubRequestCode.Cycle.RetryUpstream | coserver/upstream/co_upstream.cpp:248-270 | one attempt more on the new connection, queued there, or a finalisation without one |
| SubRequestCode.Cycle.UpstreamFinalize | coserver/upstream/co_callback_upstream.cpp:201-228 | is the transition the invariants are proved about; when it retries is `SubRequest.RetriedIff` |
| SubRequestCode.Cycle.KillUpstream | coserver/core/co_callback_event.cpp:54-59 | flags one sub-request and queues it on its connection, touching no other |
| SubRequestCode.Cycle.KillUpstreams | coserver/core/co_callback_event.cpp:52-61 | the loop flags every sub-request and queues each, in the order the map is walked |
| SubRequestCode.Cycle.EventException | coserver/core/co_callback_event.cpp:12-82 | dying is set by a timeout, a hang-up or before; it is an exception exactly when the parent sleeps in a hooked call or sub-requests remain; the twin of a socket it waits for dies with it |
| SubRequestCode.Cycle.DispatchParent | coserver/core/co_dispatcher.cpp:209-260 | is the parent's transition: killed sub-requests, or the coroutine run on; a dying parent is resumed exactly if it is not asleep in a hooked call and has no sub-request left |
| SubRequestCode.Cycle.CloseAllConnection | coserver/core/co_connection.cpp:285-298 | queues each connection once, in order, and flags the parent exactly if its own is among them |
| Connections.ExactlyOnePlace | coserver/core/co_connection.cpp:122-270 | on every run a connection is built exactly if it is with a caller, in the free list or in an idle list, and it is in one of these once; no more are built than the limit |
| Connections.CounterIsExact | coserver/upstream/co_upstream.cpp:53-180 | on every run an upstream's counter is its idle plus its in-use connections and never exceeds its maximum |
| Connections.RequestsWithinLimit | coserver/upstream/co_upstream.cpp:125-131 | no upstream connection carries more requests than the positive limit, and an idle one carries fewer |
| Connections.NoStaleUse | coserver/core/co_dispatcher.cpp:140-151 | a version noted during a use of a connection is still its version exactly as long as that very use goes on |
| Connections.RunSameUse | coserver/core/co_connection.cpp:39-43 | versions and uses only grow along a run, and a version is unchanged exactly within one use |
| Connections.FreedIsNext | coserver/core/co_connection.cpp:242-270 | the pool gives out first what it got back last, cleared, unowned and under a later version |
| Connections.KeptIsNext | coserver/upstream/co_upstream.cpp:164-176 | a connection kept open is the next for its back end, with its requests counted on; lists and counters come back to what they were |
| Connections.ChargedIff | coserver/upstream/co_upstream.cpp:97-123 | the back end is charged with a failure exactly if a connection in use is handed back with an error; an idle one that fails is not charged |
| Connections.KeptOpenIff | coserver/upstream/co_upstream.cpp:117-180 | a connection handed back is kept, at the front of its idle list, exactly if there was no error and it is under the limits set on requests and on age; else it is closed, goes to the front of the free list and the counter drops |
| Connections.ServesMaxRequests | coserver/upstream/co_upstream.cpp:125-131 | with a limit on requests, a connection reused without errors is kept until it has carried exactly that many, and then closed |
| Connections.UpstreamRefusesIff | coserver/upstream/co_upstream.cpp:53-95 | an upstream refuses a connection exactly if there is no back end, or none is idle and the maximum is reached or the pool refuses |
| Connections.PoolRefusesIff | coserver/core/co_connection.cpp:122-240 | the pool refuses exactly if the socket cannot be set up or all it may hold are out; with none free it builds sixteen more, or as many as it may |
| Connections.StartPoolIs | coserver/core/co_connection.cpp:109-120 | how many connections the pool starts with, all free, and how many it may hold, for any settings |
| Connections.RemovedIs | coserver/upstream/co_upstream.cpp:106-113 | the search from the back takes out the one connection and keeps the others |
| Connections.StepKeeps | coserver/upstream/co_upstream.cpp:53-180 | every operation keeps the lists disjoint and covering, the counters exact and the limits |
| Connections.StartFits | coserver/core/co_connection.cpp:109-120 | the pool and upstreams as started satisfy all of it |
| BackendCharges.WindowsFollow | coserver/upstream/co_upstream.cpp:97-123 | over any run of operations on connections, scans and queries, each back end's failure window is that of the connections in use of its own that were handed back with errors, each counted once at its time, and of nothing else |
| BackendCharges.HandBacksMarkDown | coserver/upstream/co_upstream_backend.cpp:38-59 | fail_maxnum connections handed back with errors within one window, and no fewer, mark their back end down, and it is not available until fail_timeout has passed since the last of them |
| ConnectionsCode.CoConnectionPool.constructor | coserver/core/co_connection.cpp:109-120 | starts with at least four and at most 65535 connections and three of its own |
| ConnectionsCode.CoConnectionPool.ExpandConnections | coserver/core/co_connection.cpp:122-168 | builds up to the limit, all free, and refuses exactly at the limit, changing nothing |
| ConnectionsCode.CoConnectionPool.GetConnection | coserver/core/co_connection.cpp:170-240 | takes the front of the free list off only when its socket could be set up |
| ConnectionsCode.CoConnectionPool.FreeConnection | coserver/core/co_connection.cpp:242-270 | clears the connection, raises its version and puts it at the front |
| ConnectionsCode.CoUpstream.constructor | coserver/upstream/co_upstream.cpp:22-34 | starts with no connection |
| ConnectionsCode.CoUpstream.GetConnection | coserver/upstream/co_upstream.cpp:53-95 | reuses the front of the back end's idle list, else refuses at the maximum, else takes a new one and counts it |
| ConnectionsCode.CoUpstream.RemoveIdle | coserver/upstream/co_upstream.cpp:103-114 | finds the connection exactly if it is idle, and takes only it off |
| ConnectionsCode.RemovedAt | coserver/upstream/co_upstream.cpp:106-109 | erasing at the place found from the back is the removal |
| ConnectionsCode.CoUpstream.FreeConnection | coserver/upstream/co_upstream.cpp:97-180 | closes or keeps the connection and charges the back end as the operation on values does; when, is `Connections.ChargedIff` and `KeptOpenIff` |
| Epoll.KeptIff | coserver/base/co_epoll.cpp:64-146 | every connection's record of events and version is what epoll holds for its socket after every step, except exactly the steps listed as derailing |
| Epoll.RunAgrees | coserver/base/co_epoll.cpp:64-146 | the agreement, with flags active exactly for what was registered in this use, holds over whole runs |
| Epoll.KeptServerHears | coserver/core/co_callback_request.cpp:211-225 | an idle client connection's next byte is reported under its new version exactly if epoll took the new registration |
| Epoll.KeptUpstreamHears | coserver/upstream/co_upstream.cpp:164-176 | an idle upstream connection's hang-up is reported under its new version exactly if epoll took the call, exactly then its next user finds it connected, and it hears nothing else |
| Epoll.PassesIffUseGoesOn | coserver/base/co_epoll.cpp:173-195 | a fetched report is passed on exactly as long as the use it was fetched in has not ended, whatever was handled in between, with epoll_ctl failing at will |
| Epoll.VersionCountsEndings | coserver/core/co_connection.cpp:39-43 | a version counts the uses that ended |
| Epoll.SecondWakeUp | coserver/base/co_epoll.cpp:213-224 | the second, unchecked wake-up of one report meets a later use only in the one case of a refused epoll_ctl call, and does so then; a handler that closes its connection and then takes the same one again, reads from it or hands it back is included |
| Epoll.FailedDeletePoisons | coserver/base/co_epoll.cpp:64-87 | closing while deletion from epoll fails leaves stale events behind; a successful deletion does not |
| Epoll.ClosedIsSilent | coserver/core/co_connection.cpp:242-270 | closing takes the socket out of epoll even while deletion fails: nothing more is heard of that use, and other registrations stay |
| Epoll.PoisonedForEver | coserver/base/co_epoll.cpp:103-126 | no later step of any connection puts such a record right, so no later socket of it is registered |
| EpollCode.CoEpoll.constructor | coserver/base/co_epoll.cpp:17-19 | starts in agreement with an empty epoll |
| EpollCode.CoEpoll.EpollCtl | coserver/base/co_epoll.cpp:121-126 | adding needs an unknown socket, changing and deleting a known one |
| EpollCode.CoEpoll.ModifyConnection | coserver/base/co_epoll.cpp:89-146 | reports success exactly when the record says what was asked under the present version, and a failure changes nothing |
| EpollCode.CoEpoll.Record | coserver/base/co_epoll.cpp:128-141 | the fields and flags become those of a connection told the events in its present version |
| EpollCode.CoEpoll.DelConnection | coserver/base/co_epoll.cpp:64-87 | reports success exactly when no events are left on record |
| EpollCode.CoEpoll.Reset | coserver/core/co_connection.cpp:39-78 | raises the version and makes no event active, leaving the registration |
| EpollCode.CoEpoll.PoolFree | coserver/core/co_connection.cpp:242-270 | closes the socket, which takes it out of epoll, and resets |
| EpollCode.CoEpoll.FreeRequestConnection | coserver/core/co_callback_request.cpp:187-228 | keeps a client connection open and listening, or closes it |
| EpollCode.CoEpoll.FreeUpstreamConnection | coserver/upstream/co_upstream.cpp:154-170 | keeps an upstream connection watched for a hang-up, or closes it |
| EpollCode.CoEpoll.Dispatch | coserver/core/co_dispatcher.cpp:209-260 | a handler's run has the effect of its steps, in order |
| EpollCode.CoEpoll.Deliver | coserver/base/co_epoll.cpp:173-224 | one report wakes the reader, the writer, both or none, as on values; which, is `ReportRunsReader` and `ReportRunsWriter` |
| EpollCode.CoEpoll.ProcessEvents | coserver/base/co_epoll.cpp:148-228 | the loop wakes the connections, in order, that the reports of the batch wake one after the other |
| EpollCode.EndedIsSilent | coserver/base/co_epoll.cpp:178-195 | within one batch, a connection whose use was ended is woken by none of the later reports, whatever handlers do in between |
| EpollCode.ActiveIsHeard | coserver/base/co_epoll.cpp:128-141 | a connection's events are active exactly when epoll would report them in its present use |
| EpollCode.ReportRunsReader | coserver/base/co_epoll.cpp:200-224 | a report of input or a hang-up, or of an error alone, in the present use runs the handler of a connection that reads, once, a hang-up noted first; a second run follows exactly if output or a lone error was reported and the connection watches for output by then |
| EpollCode.ReportRunsWriter | coserver/base/co_epoll.cpp:200-224 | otherwise a report of output or of an error alone runs the handler of a connection that writes, once, and one that watches for nothing reported is not run |
| EpollCode.NoReportLost | coserver/base/co_epoll.cpp:173-224 | in a batch, what is reported of a use that goes on, to a connection that hears it and that no earlier handler touched, runs its handler; so does an error alone |
| EpollCode.PerformedIsRun | coserver/core/co_dispatcher.cpp:209-260 | a handler whose steps can all be taken leaves what the run of those steps leaves |
| Timer.FiresExactlyTheDue | coserver/base/co_timer.cpp:65-91 | exactly the timers due and not deleted by an earlier handler fire, once each, by deadline and first in first out on ties; afterwards none is due |
| Timer.FiresWhenDue | coserver/base/co_timer.cpp:15-91 | a timer set for so many milliseconds fires in a firing, unless deleted first, if and only if that much time or more has passed since it was set |
| Timer.AlwaysAgreeIff | coserver/core/co_event.cpp:19-23 | over any run of adding, deleting, firing and resetting, an event's flag is set exactly when one node for it is in the index, after every step, if and only if every reset comes after the timer was deleted or fired |
| Timer.TakeAgreesIff | coserver/base/co_timer.cpp:15-91 | of all steps only a reset of an event whose timer is set breaks the agreement, and always does |
| Timer.InsertOrdered | coserver/base/co_timer.cpp:15-29 | inserting keeps deadline order with equal deadlines in order of insertion |
| Timer.WithoutOrdered | coserver/base/co_timer.cpp:31-47 | deleting keeps the order |
| Timer.OpsKeepDue | coserver/base/co_timer.cpp:65-91 | handlers that set timers later and delete any leave exactly the due timers they did not delete |
| Timer.CoEvent.constructor | coserver/core/co_event.cpp:8-17 | a new event has its timer flag clear |
| Timer.CoEvent.Reset | coserver/core/co_event.cpp:19-23 | the flag ends clear, whatever the index holds |
| Timer.CoTimer.constructor | coserver/base/co_timer.h:16-16 | starts empty, in agreement with flags that are clear |
| Timer.CoTimer.AddTimer | coserver/base/co_timer.cpp:15-29 | inserts one node and sets the flag, or changes nothing when it is set |
| Timer.CoTimer.Position | coserver/base/co_timer.cpp:31-47 | the node an event's iterator points at is its only one, and erasing it is the deletion |
| Timer.CoTimer.DelTimer | coserver/base/co_timer.cpp:31-47 | deletes exactly the event's node, if any, and clears the flag |
| Timer.CoTimer.FindTimer | coserver/base/co_timer.cpp:49-63 | the wait ends exactly at the first deadline, at once when one is due |
| Timer.CoTimer.PopFirst | coserver/base/co_timer.cpp:69-75 | takes off the first node and clears its event's flag |
| Timer.CoTimer.RunHandler | coserver/base/co_timer.cpp:77-86 | handlers may set and delete timers; flags and index go on agreeing |
| Timer.CoTimer.ProcessTimer | coserver/base/co_timer.cpp:65-91 | the loop ends, by the count of due timers, and fires what the firing on values fires |
| Timer.CoTimer.ResetEvent | coserver/core/co_event.cpp:19-23 | resetting keeps flags and index in agreement exactly if the timer had been deleted |
| Timer.CoTimer.StartTimer | coserver/base/co_timer.cpp:24-28 | puts one node for the event where its deadline belongs and ties flag and iterator to it |
| Timer.CoTimer.YieldTimer | coserver/core/co_dispatcher.cpp:375-411 | a sleep, however it ends and whatever happens to timers meanwhile, leaves no timer of its own and the others as they became |
| Timer.CoTimer.FreeConnection | coserver/core/co_callback_request.cpp:187-222 | freeing deletes the socket events' timers before it resets and starts the idle timer of a connection kept; flags and index go on agreeing if and only if the sleep timer was clear |
| Single.QueuesAreFifo | coserver/core/co_single.cpp:47-127 | on every run no stored queue is empty, each is what entered less what unlocks took from its front, and the dispatcher resumed only connections waiting at that moment |
| Single.UnlockWakes | coserver/core/co_single.cpp:78-127 | an unlock wakes somebody exactly if some entry's connection waits; nobody waiting is dropped unwoken |
| Single.WakesOtherWhen | coserver/core/co_single.cpp:78-127 | an unlock wakes a connection that waits for another mutex if and only if the first of its queue's entries that waits is of such a connection |
| Single.TidyWakesOwn | coserver/core/co_single.cpp:47-75 | on every run in which connections stop waiting only after their entries were taken, no unlock wakes a connection that waits for another mutex |
| Single.UntidyWakesOther | coserver/core/co_single.cpp:66-74 | and the condition is needed: a connection that stops waiting with an entry still queued lets unlocks of that mutex wake it, or another, out of its wait for a different one |
| Single.StaleEntryWakes | coserver/core/co_single.cpp:32-45 | the shortest example of that |
| Single.RunKeepsInv | coserver/core/co_single.cpp:32-127 | the invariant of the waiting set, queues and resume queue holds over every run |
| Single.PoppedIsResumed | coserver/core/co_dispatcher.cpp:134-190 | an entry the dispatcher pops is resumed if and only if its connection waits and has the version it had |
| Single.UnlocksWakeInOrder | coserver/core/co_single.cpp:78-127 | unlocks take the entries of waiting connections from the front, in order, one each |
| Single.EnteredIsWoken | coserver/core/co_single.cpp:47-127 | with every entry of a connection that waits for that mutex, one that starts to wait is woken by the unlock after as many as there were entries before it |
| Single.EnteredIsResumed | coserver/core/co_dispatcher.cpp:176-190 | and the dispatcher, coming to its entry, resumes it |
| Single.CoSingle.constructor | coserver/core/co_single.cpp:15-17 | starts with nobody waiting |
| Single.CoSingle.Enter | coserver/core/co_single.cpp:49-61 | a connection starts waiting and joins the end of the queue, unless it waits already |
| Single.CoSingle.Leave | coserver/core/co_single.cpp:68-74 | it stops waiting and its entry stays |
| Single.CoSingle.FreeBlockMutex | coserver/core/co_single.cpp:78-127 | wakes the earliest entry still waiting, drops exactly the entries up to it, and erases an emptied queue |
| SharedStack.Isolation | coserver/base/co_coroutine.cpp:71-97 | however coroutines are interleaved and whatever they write, each has its live stack bytes exactly as it left them |
| SharedStack.RunRefines | coserver/base/co_coroutine.cpp:71-97 | the shared stack with saved copies refines one private stack per coroutine, and never leaves its bounds |
| SharedStack.StepRefines | coserver/base/co_coroutine.cpp:71-97 | each start, resume, use and switch keeps the two related |
| SharedStack.RestartFindsFrame | coserver/base/co_coroutine.cpp:24-28 | a restarted coroutine finds its frame exactly if the bytes saved from its earlier use end with it |
| SharedStack.CoCoroutine.constructor | coserver/base/co_coroutine.cpp:15-17 | starts with nothing saved |
| SharedStack.CoCoroutineMain.SwapIn | coserver/base/co_coroutine.cpp:71-78 | copies the saved bytes to the top of the stack and changes nothing else |
| SharedStack.CoCoroutineMain.SwapOut | coserver/base/co_coroutine.cpp:80-97 | saves exactly the live bytes, leaves the stack, and never shrinks the saved array |

## Left out

- System calls of sockets, epoll and fcntl, signals, threads, DNS and hooked functions: their results are parameters or arbitrary choices.
- Configuration, logging, getters, the protocol factory and the accept limit: they would only add easy members.
- Buffer.CoBuffer.Expand: sizes are unbounded numbers; past 2^63 bytes the doubling of the code would wrap to zero and not end, and its check against a maximum can never hold for `size_t`.
- HttpCodec.CoProtocolHttp.AppendHeader: memory always suffices while encoding, as the code ignores the result of the append.
- HttpCodec.CoProtocolHttp.ParseStartLine: url parameters and the uri are not split off the url, and where `strtok` finds no token, which the code would read through a null address, the old field stays.
- HttpCodec.CoProtocolHttp.FinishHeaders: `atoi` is unbounded; lengths past int32 and the reservation of a negative length are not modelled.
- HttpCodec.CoProtocolHttp.EncodeResponse: the entries of the status table are a parameter; the look-up and its fallback are modelled.
- HttpEncode.ResponseRoundTrip: assumes lines of at most 511 characters, the most the code prints, and text without NUL bytes.
- HttpCodec.CoProtocolHttp.ReadMessage: bytes that follow a message are left in the buffer; that the write stage then discards them is not modelled.
- BackendRuns.CurrentRange: for runs in which none is down; what holds on all runs is `BackendRange.AnyRunRange`.
- BackendRange.TotalRange: (n-1)M within the total, as for equal weights and for two back ends, is enough but not needed; which weights never fall below minus the total is open.
- WakeUp.NoLostWakeUp: what a resumed coroutine does is only what it adds to the delay queue.
- SubRequest.RunKeepsInv: a parent adds and runs its batch without suspending in between; the connection a sub-request gets is one nobody uses, which `Connections.ExactlyOnePlace` and `NoStaleUse` prove of the pool and the idle lists; requests without a parent and the versions' wrap at 2^32 are not modelled.
- SubRequestCode.Cycle.EventException: the branch for a connection without a request is not in this method; what it frees is modelled in `Connections.Back` and `EpollCode.CoEpoll.FreeRequestConnection`.
- SubRequestCode.Cycle.UpstreamFinalize: connections are named by number, not by address.
- UpstreamStages.CoCallbackUpstream.UpstreamInit: what the socket, the decoder and the user's code answer are parameters, and the timers of the stages and their suspensions are not modelled; reading on after a refused removal is only its result.
- ConnectionsCode.CoConnectionPool.GetConnection: the twin connections for blocking sockets, the set of inner socket descriptors and a half-opened socket at the front of the free list are not modelled.
- ConnectionsCode.CoConnectionPool.FreeConnection: the set of inner socket descriptors and the clean-up handlers are not modelled.
- BackendCharges.WindowsFollow: back ends of an upstream are told apart by their server keys, so two of the same key are one.
- Timer.CoTimer.ProcessTimer: the time-out flag on the connection and the pre-handler of sleep events are not modelled.
- EpollCode.CoEpoll.Dispatch: a handler is the list of its registration steps and takings of connections; the rest of what it does is not part of this model.
- ConnectionsCode.CoUpstream.GetConnection: connections are entries of the pool's vector named by index, so aliasing is not captured; versions do not wrap.
- EpollCode.CoEpoll.ProcessEvents: handlers are lists of registration steps; `epoll_wait` failing or timing out wakes nobody and is not modelled.
- Epoll.PassesIffUseGoesOn: the twin connections of third-party sockets never change version and are not covered.
- Timer.FiresExactlyTheDue: timers set while firing are at least 1 ms ahead of the time the loop started at; the time-out flag a firing sets on the connection is not modelled.
- Single.QueuesAreFifo: the real mutex and the coroutine switch between the two sections of the wait are not modelled.
- SharedStack.Isolation: registers and `swapcontext` are not modelled; what `makecontext` lays on the stack is a constant the coroutine does not overwrite.
- SharedStack.CoCoroutineMain.SwapIn: the size limits `init` applies to the stack are not modelled; any size will do.
