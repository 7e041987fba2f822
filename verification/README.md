# Connection core of a single-threaded caching-server reactor, in Dafny

This project models `src/util/bb_core.c`, the event-driven connection core
of the server. A single reactor thread turns readiness events into actions
on buffered sockets (`buf_sock`). It covers:

- the dispatch policy of `core_event`: error, then read, then write, then
  possibly close;
- the write path (`_event_write`, `_write`, `_post_write`);
- the read path (`_event_read`, `_read`);
- the request loop of `_post_read`;
- admission on the listening channel (`_tcpserver`);
- `_close`; `core_setup` and `core_teardown` as their effect on the
  context, and `core_evwait` for its status result.

Files:

- `buffers.dfy` (module `Buffers`): a read or write buffer reduced to its
  read position, write position and capacity. It has `buf_rsize`,
  `buf_wsize` and compaction (`buf_lshift`).
- `collaborators.dfy` (module `Collaborators`): the status codes, channel
  state (`OPEN`, `CLOSING`, `EOF`) and level (`META`, `BASE`), and the request
  with its drain ("swallow") flag. It also holds the effect log, and the
  replies of every collaborator the core calls: receive, send, accept,
  `parse_swallow`, `parse_req`, `process_request` and `compose_rsp_msg`.
  Each collaborator's replies are a script that the core consumes one reply
  per call. An exhausted script answers with that collaborator's
  no-progress reply:
  - EAGAIN with no bytes, for receive and send;
  - a failed accept;
  - UNFIN, for drain and parse;
  - ENOMEM, for process and compose.
- `core_spec.dfy` (module `CoreSpec`): each routine as a function on values.
  A `Step` holds one connection, the free slots of the wrapper pool and of
  the request pool, the remaining replies, and the effect log. The effects
  are interest registrations, deregistration, termination, rejection and
  composed responses.
- `core.dfy` (module `Core`): the routines as the source runs them.
  - A `BufSock` class has the fields that the routines update in place.
  - A `Context` class holds the pools, the backend flag, the timeout, the
    listening wrapper and a ghost effect log.
  - Every per-connection method except `Close` is proved to leave exactly
    the state that the matching `CoreSpec` function computes from the state
    before it. `Close`, `Setup`, `Teardown` and the constructors state their
    new fields directly.
  - `_post_read`'s `while` loop is a method with a loop invariant. Its
    `goto done` exits are `break`s.
- `core_props.dfy` (module `CoreProps`): what the core promises, proved about
  the `CoreSpec` functions.

Modelling choices:

- A pool is a count of free slots. Borrowing fails exactly when the count
  is zero.
- A newly admitted wrapper is returned by `TcpServer`, `EventRead` and
  `CoreEvent`. It stands for the pointer the source hands to
  `event_add_read`.
- A receive reply can report that the peer hung up. This is the EOF that the
  transport layer records on the channel.
- A parse reply carries the drain flag that the parser leaves on the request.
- When `accept` fails, the wrapper already borrowed is not returned to its
  pool. The model keeps this as the code does (lemma
  `AcceptFailureKeepsWrapper`).

## Model

| member | source | states |
|---|---|---|
| `Buffers.LShift` | src/util/bb_core.c:67-69 | compaction keeps every unread byte, puts the read position at the start and frees all consumed room |
| `Buffers.LShiftIdempotent` | src/util/bb_core.c:67-69 | compacting twice with no new data is the same as compacting once |
| `Buffers.LShiftReclaimsConsumed` | src/util/bb_core.c:67-69 | compaction gives back exactly the consumed bytes as writable room |
| `Collaborators.Reset` | src/util/bb_core.c:203 | a reset request is out of drain mode, ready for the next pipelined message |
| `CoreSpec.Close` | src/util/bb_core.c:34-43 | closing logs deregister then terminate, returns one wrapper to its pool, moves the attached request, if any, back to the request pool, and changes nothing else |
| `CoreSpec.Read` | src/util/bb_core.c:87-105 | a receive never reports ENOMEM: a full buffer becomes ERETRY, and every other status is passed on unchanged |
| `CoreSpec.EvWait` | src/util/bb_core.c:349-364 | a negative wait result is returned as the error status; any other result gives CC_OK |
| `Core.BufSock.constructor` | src/util/bb_core.c:219 | a borrowed wrapper has no descriptor, empty buffers, no request, and no owner or handler table yet |
| `Core.Context.constructor` | src/util/bb_core.c:24-32 | a new context has no backend, no listening wrapper and an empty effect log |
| `Core.Context.Close` | src/util/bb_core.c:34-43 | deregister and terminate the channel, return the attached request and the wrapper to their pools, detach the request |
| `Core.Context.Write` | src/util/bb_core.c:45-58 | the send drains bytes from the write buffer and its status is returned (`CoreSpec.Write`) |
| `Core.Context.PostWrite` | src/util/bb_core.c:60-70 | both buffers are left-shifted |
| `Core.Context.EventWrite` | src/util/bb_core.c:72-85 | equals `CoreSpec.EventWrite`: a retry registers write interest, an error sets CLOSING, then both buffers are compacted |
| `Core.Context.Read` | src/util/bb_core.c:87-105 | equals `CoreSpec.Read`: the receive fills the read buffer and ENOMEM is turned into ERETRY |
| `Core.Context.ComposeRsp` | src/util/bb_core.c:124-134 | equals `CoreSpec.ComposeRsp`: the response is appended only if composing succeeded; either way the call is logged |
| `Core.Context.RequestLoop` | src/util/bb_core.c:145-204 | the loop leaves exactly the state of `CoreSpec.ParseLoop` (proved with a loop invariant) |
| `CoreSpec.Acquire` | src/util/bb_core.c:117-122 | an attached request is kept as it is; otherwise one is borrowed when the pool has one; requests are conserved either way |
| `Core.Context.PostRead` | src/util/bb_core.c:107-211 | equals `CoreSpec.PostRead`, that is `Done(Serve(t))`: get a request (`Acquire`), drain in drain mode (`Drain`, lines 136-143), run the loop, then write eagerly when a response is pending (`Done`, lines 206-210) |
| `Core.Context.TcpServer` | src/util/bb_core.c:213-234 | equals `CoreSpec.TcpServer`: reject when the pool is empty, and register a freshly accepted wrapper for read |
| `Core.Context.EventRead` | src/util/bb_core.c:236-258 | equals `CoreSpec.EventRead`: the listener admits, and a data channel reads, marks CLOSING on error (`MarkRead`, lines 246-248), then post-reads (`EventReadData`) |
| `Core.Context.CoreEvent` | src/util/bb_core.c:260-292 | equals `CoreSpec.CoreEvent`, and reports whether the connection was closed and which wrapper, if any, was admitted |
| `Core.Context.Setup` | src/util/bb_core.c:294-340 | timeout 100 and a backend of 1024 events; CC_ERROR unless the backend is created, a wrapper is borrowed and the listener opens; on success the listener is META and registered for read |
| `Core.Context.Teardown` | src/util/bb_core.c:342-347 | the listening wrapper goes back to its pool and the backend is gone |
| `CoreProps.ErrorEventOnlyCloses` | src/util/bb_core.c:267-272 | an ERR event closes: it deregisters, terminates, and returns the wrapper and the request, with no receive, send, parse or accept |
| `CoreProps.ClosesExactlyWhenFinished` | src/util/bb_core.c:288-291 | without the error bit, the connection is closed exactly when the final state is CLOSING, or EOF with an empty write buffer |
| `CoreProps.DispatchOrder` | src/util/bb_core.c:274-286 | with both bits set on a data channel, everything the read handling logged comes before the write handling's effects, and the write event sends once after the read |
| `CoreProps.SurvivorHasWork` | src/util/bb_core.c:288-291 | a connection left open after an event is OPEN, or at EOF with bytes still to send |
| `CoreProps.EofClosesOnceDrained` | src/util/bb_core.c:281-291 | at EOF, when the send does not fail hard, a write event closes the connection exactly when the send drains the write buffer |
| `CoreProps.WriteRetryRegistersInterest` | src/util/bb_core.c:78-80 | write interest is registered exactly on ERETRY or EAGAIN |
| `CoreProps.WriteErrorMarksClosing` | src/util/bb_core.c:81-83 | a send ERROR sets CLOSING; every other status leaves the state alone |
| `CoreProps.WriteAlwaysCompacts` | src/util/bb_core.c:84 | whatever the send returned, both buffers are left-shifted; the read buffer keeps every byte, and the write buffer loses only what was sent |
| `CoreProps.WriteFrame` | src/util/bb_core.c:72-85 | the write path leaves the pools, the request and the channel identity unchanged |
| `CoreProps.PostReadEagerWrite` | src/util/bb_core.c:206-210 | with nothing pending in the write buffer, post-read ends without a send; otherwise one send reply is used, its bytes leave the write buffer and both buffers are compacted |
| `CoreProps.ReadOnlyErrorCloses` | src/util/bb_core.c:244-248 | only a receive ERROR sets CLOSING; a full read buffer becomes ERETRY and never closes |
| `CoreProps.PostReadRunsAfterError` | src/util/bb_core.c:244-254 | after a receive ERROR, post-read still runs and, when no drain is in progress, the buffered bytes reach the parser, whether the request was already attached or is borrowed now |
| `CoreProps.PostReadDrainsAfterError` | src/util/bb_core.c:136-143 | after a receive ERROR with the attached request in drain mode, post-read still runs and calls the drain collaborator; the state stays CLOSING |
| `CoreProps.PostReadRespondsAfterError` | src/util/bb_core.c:124-134 | after a receive ERROR with no request attached and the request pool empty, post-read still runs and logs a server-error response first; the state stays CLOSING |
| `CoreProps.LoopFrame` | src/util/bb_core.c:145-204 | the loop leaves the pools, the channel, the other collaborators and the attached request in place |
| `CoreProps.LoopResponds` | src/util/bb_core.c:145-204 | the loop composes at most one response, as its last act: a client error exactly on a parse failure, a server error exactly on a processing failure |
| `CoreProps.LoopClosing` | src/util/bb_core.c:174-178 | the loop sets CLOSING only on ERDHUP and changes the state in no other way |
| `CoreProps.LoopNeedsInput` | src/util/bb_core.c:145 | with no unread bytes, the loop does nothing |
| `CoreProps.LoopDrained` | src/util/bb_core.c:145-204 | when the loop ends for lack of input, the read buffer is empty and the request is reset, unless nothing ran |
| `CoreProps.LoopConsumesParse` | src/util/bb_core.c:145-149 | with unread bytes and a parser reply waiting, the parser is called |
| `CoreProps.LoopParseSuffix` | src/util/bb_core.c:145-204 | the parser's replies are consumed in order from the front |
| `CoreProps.ParseUnfinStops` | src/util/bb_core.c:149-152 | an UNFIN parse stops the loop with no response and no processing |
| `CoreProps.ParseErrorRespondsOnce` | src/util/bb_core.c:154-163 | any other parse failure composes exactly one client-error response and parses nothing more |
| `CoreProps.ProcessFullStops` | src/util/bb_core.c:170-173 | an ENOMEM from processing stops the loop without any error response |
| `CoreProps.ProcessPeerQuitCloses` | src/util/bb_core.c:174-178 | an ERDHUP from processing sets CLOSING and stops the loop |
| `CoreProps.ProcessFailureRespondsOnce` | src/util/bb_core.c:180-201 | any other processing failure composes exactly one server-error response and stops the loop |
| `CoreProps.ProcessOkContinues` | src/util/bb_core.c:203 | a successful process resets the request and the loop continues |
| `CoreProps.ComposeFailureOnlyLogged` | src/util/bb_core.c:183-198 | a compose that fails leaves the connection exactly as it was; only the attempt is logged |
| `CoreProps.PostReadFrame` | src/util/bb_core.c:107-211 | post-read conserves requests (free plus attached) and never touches the wrapper pool |
| `CoreProps.AttachedRequestReused` | src/util/bb_core.c:117-118 | an already attached request is reused, and nothing is borrowed |
| `CoreProps.BorrowedRequestAttached` | src/util/bb_core.c:119-122 | otherwise one request is borrowed, attached, and stays attached |
| `CoreProps.NoRequestServerError` | src/util/bb_core.c:124-134 | with the request pool empty, a server error is composed and nothing is drained, parsed or processed |
| `CoreProps.UnfinishedDrainWaits` | src/util/bb_core.c:136-142 | an unfinished drain stops processing, and the request stays in drain mode |
| `CoreProps.CompletedDrainResumes` | src/util/bb_core.c:136-145 | a completed drain resets the request, and the loop runs on the bytes that are left |
| `CoreProps.PoolEmptyRejects` | src/util/bb_core.c:219-225 | with the wrapper pool empty, the connection is rejected; nothing is accepted or registered |
| `CoreProps.AcceptFailureKeepsWrapper` | src/util/bb_core.c:227-229 | a failed accept registers nothing, and the borrowed wrapper is not returned |
| `CoreProps.AdmissionRegistersRead` | src/util/bb_core.c:231-233 | an accepted data channel has its owner and handler table set and empty buffers, and is registered for read |
| `CoreProps.EventConservesRequests` | src/util/bb_core.c:260-292 | every event conserves requests: each is either free in the pool or attached to the connection |
| `CoreProps.EventWrapperBalance` | src/util/bb_core.c:260-292 | on a data channel, an event returns exactly one wrapper when it closes and borrows none |

## Left out

- The readiness backend is not modelled: `event_base_create`, `event_wait`,
  `event_add_read`, `event_add_write`, `event_deregister` and
  `event_base_destroy`. Their calls appear only as entries in the effect log
  or as the outcomes given to `Setup`.
- The transport calls are not modelled: `buf_tcp_read`, `buf_tcp_write`,
  `tcp_accept`, `tcp_reject`, `tcp_listen` and `tcp_close`. They are scripted
  replies and logged effects. The header files and the stream and channel
  libraries are not part of this model.
- The internals of `parse_req`, `parse_swallow`, `process_request`,
  `compose_rsp_msg`, `request_borrow`, `request_return` and
  `buf_sock_borrow`/`buf_sock_return` are not modelled. They belong to the
  protocol layer and the pools, outside this file. Their results are given
  as script replies. Consequently chunk-size independence of parsing is not
  stated.
- Request-loop termination rests on the finite parse script, not on the
  parser's own progress. A script that runs out acts as an unfinished parse.
- Byte contents of the buffers are not modelled. Only positions, unread
  bytes and free room are.
- Statistics counters, logging and `time_update` in `core_evwait` are not
  modelled. They do not affect behaviour.
- The handler-table wiring in `core_setup` (lines 305-311) is not modelled,
  and neither is the global static context beyond its fields. `hdl->id(c)`
  is the channel's descriptor.
- `core_evwait` is modelled only for its status result (`CoreSpec.EvWait`).
  The dispatch of every ready event happens inside `event_wait`, and its
  order across connections is not modelled.
- Pool capacity is not modelled. A pool is a count of free slots, so the
  model does not state that a pool never holds more objects than its
  capacity. Conservation of
  requests per event is stated instead.
- Closing a wrapper twice is not guarded against, by the model or by the
  code. No lemma covers a second close.
- `NOT_REACHED` in `_event_read` has no counterpart: a channel's level has
  only the two values META and BASE.
