# napsocket in Dafny

A verified model of the core of napsocket, the TCP networking module of the
NAP framework. It covers the self-healing `SocketClient` and the broadcasting
`SocketServer`, the `SocketThread`/`SocketService` scheduler that ticks them,
the `SocketAdapter` base class and the `SocketPacket` value type.

The modules follow the source files:

- `Vectors` (vectors.dfy) holds the `std::find_if` + `erase` idiom that the
  registries use.
- `Packet` (packet.dfy) is `SocketPacket`. C++ `char` is modelled as a
  signed 8-bit integer and a byte as `uint8`. Strings and buffers convert
  element by element modulo 256.
- `Threading` (threading.dfy) holds the classes `SocketThread` and
  `SocketService`. What a tick does is appended to a shared `Journal`: one
  entry per adapter processed, per poll, per logged poll error and per
  worker sleep.
- `Adapter` (adapter.dfy) holds `handleAsioError` and the class
  `SocketAdapter`.
- `ClientModel` (client_model.dfy) is the client's state machine as pure
  functions over a `State` value, with the client's properties proved as
  lemmas. `Client` (client.dfy) is the class `SocketClient`. Each method is
  proved to take `old(State())` to the state the matching `ClientModel`
  function computes.
- `ServerModel` (server_model.dfy) and `Server` (server.dfy) do the same for
  `SocketServer`.
- `Errors` (errors.dfy) holds the asio error code and `utility::ErrorState`.

asio stays outside the model:

- Each asynchronous operation the client starts is recorded as a `Request`.
- Its completion is a separate operation (`HandleConnect`, `HandleWrite`,
  `HandleRead`).
- What `available()`, `send`, `receive`, `poll` and the resolver report is an
  input.
- A `SteadyTimer` is the number of milliseconds since it was last reset. The
  clock advances only through `AdvanceClock`.
- Fired signals are recorded in order in `signals` (client) or `events`
  (server).

The model follows the code as written. In particular:

- The server keeps one shared outbound queue that `process` broadcasts to
  every open socket. Sockets are told apart only by their place in the
  registry, and the server fires no signal when a socket connects or
  disconnects.
- The server applies no timeouts to its sockets, and its sends are
  synchronous.
- `SocketAdapter::start` registers with the thread but does not call
  `onStart`, although its header comment (src/socketadapter.h:40) says it
  does.
- A client's `connect` leaves the outbound queue alone. A successful
  connection then clears the queue.
- `available()` on a socket that a write timeout has just closed is modelled
  as an error.

## Model

| member | source | states |
|---|---|---|
| Vectors.FirstIndex | src/socketservice.cpp:56-59 | the index `find_if` returns holds the handle, and no earlier element does |
| Vectors.Find | src/socketservice.cpp:56-59 | the linear search returns the first index holding the handle, or the end position exactly when the handle is absent |
| Vectors.EraseFirst | src/socketthread.cpp:119-129 | erasing removes the first occurrence only: one element shorter, everything before and after it kept in order |
| Vectors.EraseFirstMultiset | src/socketthread.cpp:119-129 | erasing removes exactly one copy of the handle and nothing else |
| Vectors.EraseFirstKeepsOthers | src/socketservice.cpp:54-62 | every other handle survives the erase, and none appears |
| Vectors.EraseFirstNoDup | src/socketservice.cpp:54-62 | on a registry without duplicates, the erased handle is gone and no duplicate appears |
| Packet.ToByte | src/socketpacket.h:39 | a `char` becomes the byte congruent to it modulo 256 |
| Packet.ToChar | src/socketpacket.h:75 | a byte becomes the `char` congruent to it modulo 256 |
| Packet.Default | src/socketpacket.h:22 | the default packet is empty |
| Packet.FromString | src/socketpacket.h:39 | the packet holds one byte per character, in order, zero bytes included |
| Packet.FromVector | src/socketpacket.h:51 | the packet holds a copy of the vector |
| Packet.FromMovedVector | src/socketpacket.h:45 | the packet takes the vector's contents and the moved-from vector is left empty |
| Packet.FromPointer | src/socketpacket.h:58 | the packet holds the first `size` bytes at the pointer; fewer than `size` readable bytes is excluded |
| Packet.Copy | src/socketpacket.h:25-28 | a copy holds the same bytes |
| Packet.Move | src/socketpacket.h:31-34 | the target takes the buffer and the source is left empty |
| Packet.ToString | src/socketpacket.h:75 | the string has one character per byte |
| Packet.SizeIsDataSize | src/socketpacket.h:64-70 | `size()` equals the length of `data()` |
| Packet.CharsOfBytes | src/socketpacket.h:39-75 | reading back the bytes of a string gives the string |
| Packet.BytesOfChars | src/socketpacket.h:39-75 | converting a buffer's characters back to bytes gives the buffer |
| Packet.StringRoundTrip | src/socketpacket.h:39-75 | `SocketPacket(s).toString() == s` for every string |
| Packet.PacketRoundTrip | src/socketpacket.h:39-75 | a packet rebuilt from its own string is the same packet |
| Packet.FromStringInjective | src/socketpacket.h:39 | different strings give different packets |
| Threading.ProcessEntries | src/socketthread.cpp:99-102 | one `process()` call per adapter, in registration order |
| Threading.TickEntries | src/socketthread.cpp:95-110 | every entry of a tick belongs to the ticking thread, the tick polls, and it neither sleeps nor warns |
| Threading.TickEntriesShape | src/socketthread.cpp:95-110 | a tick processes the adapters in order, polls exactly once, then logs a poll error if there was one |
| Threading.TickProcessesEveryAdapter | src/socketthread.cpp:95-110 | a tick processes an adapter exactly when it is registered |
| Threading.WorkerEntries | src/socketthread.cpp:85-92 | every entry of the worker loop belongs to its thread and no warning is logged |
| Threading.WorkerEntriesShape | src/socketthread.cpp:85-92 | the worker loop records exactly one sleep of the update interval per iteration and no other sleep, and its length is one tick plus one sleep per iteration: adapters, a poll, a logged error for each failed poll |
| Threading.UpdateEntries | src/socketservice.cpp:45-51 | the service's update never sleeps or warns, and polls every registered thread |
| Threading.UpdateEntriesStep | src/socketservice.cpp:45-51 | each further thread adds exactly its own tick to the service's update |
| Threading.SocketService.Init | src/socketservice.cpp:28-31 | `init` always succeeds and leaves the error state alone |
| Threading.SocketService.RegisterSocketThread | src/socketservice.cpp:65-68 | the thread is appended |
| Threading.SocketService.RemoveSocketThread | src/socketservice.cpp:54-62 | a registered thread's first entry is erased and the list shrinks by one; an unregistered thread is excluded, as the source asserts |
| Threading.SocketService.Update | src/socketservice.cpp:45-51 | every registered thread ticks once, in registration order, and nothing else is recorded |
| Threading.SocketThread.constructor | src/socketthread.cpp:31-37 | a new thread is not running, has no adapters, and its manual process function only warns |
| Threading.SocketThread.Start | src/socketthread.cpp:40-61 | success exactly for the three update methods, which then spawn a worker, register with the service or install `process` as the manual function; an unknown method fails with its message and leaves `mRun` alone |
| Threading.SocketThread.Stop | src/socketthread.cpp:64-82 | after `stop` the thread does not run; a running thread joins its worker or leaves the service, according to its mode; a stopped thread changes nothing else |
| Threading.SocketThread.Worker | src/socketthread.cpp:85-92 | while running, each iteration ticks once and then sleeps for the update interval; a thread that is not running does nothing |
| Threading.SocketThread.Process | src/socketthread.cpp:95-110 | adapters in registration order, then one poll; a poll error is only logged |
| Threading.SocketThread.ManualProcess | src/socketthread.cpp:113-116 | ticks once when started in MANUAL mode, and otherwise only warns |
| Threading.SocketThread.RegisterAdapter | src/socketthread.cpp:132-137 | the adapter is appended |
| Threading.SocketThread.RemoveAdapter | src/socketthread.cpp:119-129 | a registered adapter's first entry is erased and the list shrinks by one |
| Adapter.HandleAsioError | src/socketadapter.cpp:51-71 | returns true exactly on an error; with failure not allowed it reports failure and appends the message; with failure allowed it reports success and leaves the error state alone; without an error nothing changes |
| Adapter.SocketAdapter.constructor | src/socketadapter.cpp:11-13 | the adapter keeps its thread and its allow-failure setting; no hook has run |
| Adapter.SocketAdapter.Init | src/socketadapter.cpp:22-28 | fails with "Thread cannot be nullptr" exactly when no thread is bound |
| Adapter.SocketAdapter.Start | src/socketadapter.cpp:31-35 | registers the adapter with its thread, appended last, and succeeds |
| Adapter.SocketAdapter.Stop | src/socketadapter.cpp:38-42 | removes the adapter from its thread, then runs `onStop` |
| Adapter.SocketAdapter.Process | src/socketadapter.cpp:45-48 | runs `onProcess` once |
| ClientModel.Initial | src/socketclient.h:82-84 | a new client is neither ready nor connecting, no operation is in flight, every queue is empty, and every timer shows the given starting value |
| ClientModel.RestartReconnect | src/socketclient.cpp:244-248 | the reconnect timer restarts only when auto-reconnect is on |
| ClientModel.LoseConnection | src/socketclient.cpp:418-441 | a lost connection is no longer ready and fires `disconnected`; the socket stays open and the queues and in-flight flags are untouched |
| ClientModel.RunAction | src/socketclient.cpp:89-137 | a deferred action touches neither queue nor the in-flight flags and never makes the client ready. A connect while connecting changes nothing; otherwise it marks the client connecting, restarts the connect timer and issues exactly one asynchronous connect. A disconnect closes the socket, clears connecting and ready, and fires `disconnected` |
| ClientModel.ConnectIdempotent | src/socketclient.cpp:89-105 | running connect twice is the same as running it once: one asynchronous connect at most |
| ClientModel.RunActionConnects | src/socketclient.cpp:89-105 | counts the asynchronous connects an action issues, and shows that a connect leaves the client connecting |
| ClientModel.Drain | src/socketclient.cpp:261-264 | draining empties the action queue, keeps the outbound queue and the in-flight flags, and never makes the client ready |
| ClientModel.DrainIssuesNoIo | src/socketclient.cpp:261-264 | draining the actions issues no write and no read |
| ClientModel.DrainConnectsAtMostOnce | src/socketclient.cpp:89-105 | without a disconnect among them, any number of queued connects issue at most one asynchronous connect, and none while one is in progress |
| ClientModel.NoConnectWithoutConnectAction | src/socketclient.cpp:261-264 | with no connect queued, draining issues no connect |
| ClientModel.ConnectCompleted | src/socketclient.cpp:162-221 | either way the connect is over and its timer restarts; no request is issued and the in-flight flags and actions are untouched |
| ClientModel.HandleError | src/socketclient.cpp:224-257 | acts exactly on an error while ready: no longer ready, `disconnected` fired, reconnect timer restarted under auto-reconnect, socket left open; otherwise nothing changes |
| ClientModel.ConnectCompletedSpec | src/socketclient.cpp:162-221 | the connect is over either way. On success with `no_delay` set, the client becomes ready, the queue is cleared, the reconnect timer is reset and `connected` fires. Any error closes the socket, fires nothing and restarts the reconnect timer under auto-reconnect |
| ClientModel.WriteCompleted | src/socketclient.cpp:288-298 | the write is no longer in flight and its timer restarts; the client stays ready exactly when there was no error |
| ClientModel.ReadCompleted | src/socketclient.cpp:355-383 | the read is no longer in flight and its timer restarts; the outbound queue, writing, connecting, requests and actions are untouched |
| ClientModel.ReadCompletedSpec | src/socketclient.cpp:355-383 | `dataReceived` fires exactly when no error was handled and bytes arrived, and its packet carries exactly those bytes |
| ClientModel.Send | src/socketclient.cpp:152-159 | the queue keeps its contents as a prefix and grows by one exactly while ready; no request or signal follows |
| ClientModel.SendSpec | src/socketclient.cpp:152-159 | a packet is queued last exactly while the client is ready and is silently dropped otherwise; nothing else changes |
| ClientModel.Stop | src/socketclient.cpp:140-149 | after `onStop` the client is not ready; nothing else changes |
| ClientModel.Start | src/socketclient.cpp:52-86 | `onStart` changes only whether the socket is open and, at most, appends one connect to the actions |
| ClientModel.StartOutcome | src/socketclient.cpp:52-86 | start fails only on an asio error with failure not allowed, and then records the first failing step's message |
| ClientModel.StartEffects | src/socketclient.cpp:52-86 | a connect is deferred exactly when every step succeeded and connect-on-init is set; the socket is open exactly when opening it succeeded |
| ClientModel.WriteStep | src/socketclient.cpp:277-333 | with no write in flight and a packet queued, the head is dequeued into the write buffer and in flight with its timer restarted; a write past its timeout leaves the client not ready, the socket closed, no write in flight and the write timer restarted. The write half never touches reading, connecting, signals or actions, and never makes the client ready |
| ClientModel.WriteStepRequests | src/socketclient.cpp:277-333 | at most the head of the queue goes out, only when no write is in flight, and written-then-queued order is kept |
| ClientModel.ReadStep | src/socketclient.cpp:336-417 | the tick returns early exactly when an `available()` error is handled, and then the client is not ready and only `disconnected` fires; a read past its timeout leaves the client not ready, the socket closed, no read in flight and the read timer restarted; the read half never touches writing or the queue |
| ClientModel.ReadStepRequests | src/socketclient.cpp:336-417 | at most one read is issued, and none while one is in flight |
| ClientModel.ReconnectPolicy | src/socketclient.cpp:442-452 | a connect is deferred exactly when auto-reconnect is on, no connect is in progress and the interval has passed |
| ClientModel.ConnectTimeout | src/socketclient.cpp:454-481 | a connect past its timeout is abandoned and the socket closed; nothing else changes |
| ClientModel.IoPhase | src/socketclient.cpp:266-453 | an early return happens only on a ready, open socket and leaves it not ready; the steps never make the client ready or touch connecting; at most the head of the queue leaves it, and only a client that is not ready gains a queued connect |
| ClientModel.Tick | src/socketclient.cpp:260-484 | a tick never makes the client ready, and removes at most the head of the outbound queue |
| ClientModel.IoPhaseReturns | src/socketclient.cpp:336-345 | characterises exactly when a tick returns before `postProcess` |
| ClientModel.PostProcessEndsTick | src/socketclient.cpp:260-484 | `postProcess` ends every tick except one that returned from the `available()` error path |
| ClientModel.TickDrainsActions | src/socketclient.cpp:260-484 | after a tick, the only action left is the connect that the reconnect policy queued, if any |
| ClientModel.ReconnectIsDeferred | src/socketclient.cpp:442-452 | a tick issues a connect only for a connect queued before it |
| ClientModel.IoPhaseRequests | src/socketclient.cpp:266-453 | the input/output steps keep written-then-queued order and issue at most one write and one read |
| ClientModel.TickAfterIo | src/socketclient.cpp:454-484 | after the input/output steps a tick issues nothing and leaves the queue and the flags alone |
| ClientModel.TickRequests | src/socketclient.cpp:260-484 | a tick keeps outbound order and issues at most one write and one read, none while one is in flight; connects come only from the drained actions |
| ClientModel.OneWriteOneReadInFlight | src/socketclient.cpp:277-417 | however many ticks pass before a completion, at most one write and one read are issued |
| ClientModel.TicksKeepOutboundOrder | src/socketclient.cpp:277-300 | over any run of ticks, the packets written so far followed by those still queued stay the same sequence: FIFO writes |
| ClientModel.SendExtendsOutbound | src/socketclient.cpp:152-159 | a packet accepted while ready lands at the end of that sequence |
| ClientModel.FailuresRestartReconnectTimer | src/socketclient.cpp:162-481 | every failure path restarts the reconnect timer under auto-reconnect: a failed connect, a failed option, a handled error, a write timeout, a read timeout, a socket found closed while ready and a connect timeout |
| ClientModel.NoReconnectWithinInterval | src/socketclient.cpp:442-452 | within one interval of a timer restart, the policy queues no connect |
| Client.SocketClient.constructor | src/socketclient.h:82-84 | a new client is in the initial state, its timers showing the given starting value |
| Client.SocketClient.Start | src/socketclient.cpp:52-86 | `onStart` computes exactly what ClientModel.Start does |
| Client.SocketClient.Connect | src/socketclient.cpp:89-105 | `connect` only appends a connect to the action queue |
| Client.SocketClient.Disconnect | src/socketclient.cpp:108-137 | `disconnect` only appends a disconnect to the action queue |
| Client.SocketClient.Enqueue | src/socketclient.cpp:528-605 | `enableLog` and the slot calls only append their action |
| Client.SocketClient.Send | src/socketclient.cpp:152-159 | the state moves as ClientModel.Send says |
| Client.SocketClient.Stop | src/socketclient.cpp:140-149 | the state moves as ClientModel.Stop says |
| Client.SocketClient.IsConnected | src/socketclient.cpp:498-501 | reports whether the socket is ready |
| Client.SocketClient.IsConnecting | src/socketclient.cpp:504-507 | reports whether a connect is in progress |
| Client.SocketClient.ClearQueue | src/socketclient.cpp:488-495 | the dequeue loop empties the outbound queue and changes nothing else |
| Client.SocketClient.Run | src/socketclient.cpp:89-137 | a deferred action moves the state as ClientModel.RunAction says |
| Client.SocketClient.ConnectNow | src/socketclient.cpp:91-104 | the deferred connect moves the state as ClientModel.RunAction says |
| Client.SocketClient.DisconnectNow | src/socketclient.cpp:110-136 | the deferred disconnect moves the state as ClientModel.RunAction says |
| Client.SocketClient.HandleError | src/socketclient.cpp:224-257 | returns and moves the state as ClientModel.HandleError says |
| Client.SocketClient.HandleConnect | src/socketclient.cpp:162-221 | moves the state as ClientModel.ConnectCompleted says |
| Client.SocketClient.BecomeReady | src/socketclient.cpp:186-198 | a successful connect makes the client ready, clears the queue and fires `connected` |
| Client.SocketClient.HandleWrite | src/socketclient.cpp:288-298 | moves the state as ClientModel.WriteCompleted says |
| Client.SocketClient.HandleRead | src/socketclient.cpp:355-383 | moves the state as ClientModel.ReadCompleted says |
| Client.SocketClient.Process | src/socketclient.cpp:260-484 | one `onProcess` moves the state as ClientModel.Tick says |
| Client.SocketClient.DrainActions | src/socketclient.cpp:261-264 | the dequeue-and-run loop computes ClientModel.Drain |
| Client.SocketClient.Io | src/socketclient.cpp:266-453 | moves the state and reports an early return as ClientModel.IoPhase says |
| Client.SocketClient.Write | src/socketclient.cpp:277-333 | moves the state as ClientModel.WriteStep says |
| Client.SocketClient.StartWrite | src/socketclient.cpp:279-299 | dequeues the head into the write buffer and writes exactly it |
| Client.SocketClient.Read | src/socketclient.cpp:336-417 | moves the state and reports an early return as ClientModel.ReadStep says |
| Client.SocketClient.LoseConnection | src/socketclient.cpp:418-441 | moves the state as ClientModel.LoseConnection says |
| Client.SocketClient.Abandon | src/socketclient.cpp:304-333 | a timed-out operation makes the client not ready, closes the socket and restarts the reconnect timer |
| Client.SocketClient.CheckConnectTimeout | src/socketclient.cpp:454-481 | moves the state as ClientModel.ConnectTimeout says |
| ServerModel.CreateNewSocket | src/socketserver.cpp:157-166 | a fresh socket is appended to the registry and armed with an accept; nothing else changes |
| ServerModel.Init | src/socketserver.cpp:34-69 | a failed init leaves the server as it was; init never touches the queue, the events, the open sockets or the removal list, and arms at most the next fresh socket |
| ServerModel.InitKeepsValid | src/socketserver.cpp:34-69 | `init` from any valid server keeps the registry invariant |
| ServerModel.SendValid | src/socketserver.cpp:125-128 | `send` changes only the queue and keeps the registry invariant |
| ServerModel.ClearQueueValid | src/socketserver.cpp:255-262 | `clearQueue` empties the queue, changes nothing else and keeps the registry invariant |
| ServerModel.CreateNewSocketValid | src/socketserver.cpp:157-166 | the new handle is not yet in the registry, and the registry invariant is kept |
| ServerModel.InitValid | src/socketserver.cpp:34-69 | a parse error fails or is allowed as `handleAsioError` decides, and then no socket is created; otherwise the server binds to any address for an empty one, else to the parsed one, and arms one socket, and init succeeds |
| ServerModel.HandleAccept | src/socketserver.cpp:72-101 | every accept appends a fresh socket to the registry and arms it; the queue, events and address are untouched |
| ServerModel.HandleAcceptValid | src/socketserver.cpp:72-101 | a successful accept opens the socket; a failed one records it for removal; the invariant is kept |
| ServerModel.HandleAcceptRearms | src/socketserver.cpp:72-101 | every accept arms a new socket in place of the completed one, so the number of pending accepts never changes |
| ServerModel.SendSpec | src/socketserver.cpp:125-128 | a message is queued last exactly when `try_enqueue` finds room; nothing else changes |
| ServerModel.OnDestroy | src/socketserver.cpp:104-122 | every socket is closed and the registry emptied; the removal list is kept |
| ServerModel.Sweep | src/socketserver.cpp:177-188 | the guarded sweep only removes: never longer than the registry, and every socket left was in it |
| ServerModel.SweepAsWritten | src/socketserver.cpp:177-188 | when the loop as written stays defined, it erases exactly one socket per recorded socket |
| ServerModel.WithoutMembers | src/socketserver.cpp:177-188 | the reference filter keeps exactly the sockets not recorded |
| ServerModel.DropIsWithout | src/socketserver.cpp:179-186 | with no duplicates, erasing the first match removes every match |
| ServerModel.SweepIsWithout | src/socketserver.cpp:177-188 | with no duplicates, the guarded sweep keeps exactly the unrecorded sockets, in order |
| ServerModel.SweepAsWrittenAgrees | src/socketserver.cpp:177-188 | when every recorded socket is in the registry once, the loop as written is defined and agrees with the guarded one |
| ServerModel.SweepAfterDestroyUndefined | src/socketserver.cpp:185-186 | after a failed accept and `onDestroy`, the loop as written erases the end iterator, while the guarded loop does nothing |
| ServerModel.SentCount | src/socketserver.cpp:197-204 | sends stop at the first failure: all messages are sent, or exactly those before the failing one |
| ServerModel.ServeSocket | src/socketserver.cpp:192-231 | a turn only appends events, adds nothing to the removal list but possibly its own socket, never opens a socket, and leaves the registry, the pending accepts and the queue alone |
| ServerModel.ServeAll | src/socketserver.cpp:190-233 | serving only appends events, keeps the queue, and records at most one socket per turn |
| ServerModel.Process | src/socketserver.cpp:168-234 | `process` empties the queue, only appends events, and leaves no more records for removal than the registry it started from had sockets |
| ServerModel.ServeSocketValid | src/socketserver.cpp:190-233 | one socket's turn keeps the invariant |
| ServerModel.ServeAllValid | src/socketserver.cpp:190-233 | serving the registry keeps the invariant |
| ServerModel.ServeAllKeeps | src/socketserver.cpp:190-233 | serving touches only open sockets, the removal list and the events |
| ServerModel.ProcessValid | src/socketserver.cpp:168-234 | `process` keeps the invariant, empties the queue, erases every recorded socket and arms nothing |
| ServerModel.ServeSocketEvents | src/socketserver.cpp:190-233 | a turn appends the socket's sends, then at most one received message |
| ServerModel.ServeSocketSends | src/socketserver.cpp:197-204 | a turn sends to its own socket only, and only while that socket is open |
| ServerModel.ServeAllBroadcasts | src/socketserver.cpp:190-233 | each socket that is open when its turn comes gets the queue in order, up to its first failed send; no other socket gets anything |
| ServerModel.ServeAllOpen | src/socketserver.cpp:190-233 | a socket not yet served keeps its open state |
| ServerModel.ProcessBroadcasts | src/socketserver.cpp:168-234 | `process` broadcasts the queue in order to every open socket, up to that socket's first failed send, whatever happens to the others |
| ServerModel.ServeAllCloses | src/socketserver.cpp:190-233 | serving closes and records exactly the open sockets that meet an error |
| ServerModel.ServeSocketReceives | src/socketserver.cpp:211-230 | a turn fires the receive buffer exactly when the socket is open, meets no error and received something |
| ServerModel.ServeAllReceives | src/socketserver.cpp:190-233 | the messages fired are the non-empty buffers of the sockets that meet no error, in registry order |
| ServerModel.ProcessClosesAndReceives | src/socketserver.cpp:168-234 | `process` closes and records exactly the open sockets that meet an error, and fires the others' non-empty buffers in registry order |
| Server.SocketServer.constructor | src/socketserver.h:50-73 | a new server has no sockets, no queue and is not bound |
| Server.SocketServer.Init | src/socketserver.cpp:34-69 | `init` computes exactly what ServerModel.Init does |
| Server.SocketServer.CreateNewSocket | src/socketserver.cpp:157-166 | moves the state as ServerModel.CreateNewSocket says |
| Server.SocketServer.HandleAccept | src/socketserver.cpp:72-101 | moves the state as ServerModel.HandleAccept says |
| Server.SocketServer.OnDestroy | src/socketserver.cpp:104-122 | the close loop and `clear` move the state as ServerModel.OnDestroy says |
| Server.SocketServer.Close | src/socketserver.cpp:111-112 | a closed socket is no longer open, and the model stops tracking an accept pending on it |
| Server.SocketServer.Send | src/socketserver.cpp:125-128 | moves the state as ServerModel.Send says |
| Server.SocketServer.ClearQueue | src/socketserver.cpp:255-262 | the dequeue loop empties the queue and changes nothing else |
| Server.SocketServer.HandleError | src/socketserver.cpp:131-154 | returns true exactly on an error; an error closes the socket and records it for removal; otherwise nothing changes |
| Server.SocketServer.Process | src/socketserver.cpp:168-234 | one `process` moves the state as ServerModel.Process says |
| Server.SocketServer.DrainQueue | src/socketserver.cpp:170-175 | the dequeue loop returns the whole queue in order and leaves it empty |
| Server.SocketServer.RemoveObsolete | src/socketserver.cpp:177-188 | the guarded removal loop computes ServerModel.Sweep and clears the removal list |
| Server.SocketServer.ServeSockets | src/socketserver.cpp:190-233 | the loop over the registry computes ServerModel.ServeAll |
| Server.SocketServer.ServeSocket | src/socketserver.cpp:192-231 | one socket's turn moves the state as ServerModel.ServeSocket says |
| Server.SocketServer.SendAll | src/socketserver.cpp:197-207 | sends the messages in order until one fails, records exactly those sent, and reports whether one failed; a failure closes and records the socket |

## Left out

- asio is not modelled: sockets, the resolver, endpoints, the acceptor and the I/O context. Its results are inputs, or recorded requests and events. Exceptions thrown by asio calls without an error code are not modelled: `acceptor` construction in `init`, and `available()` in `handleAccept`.
- Concurrency is not modelled: threads, `mMutex`, atomics and the lock-free queues. Each queue is a sequence, operations run one at a time, and a concurrent `stop` that ends a worker loop is modelled as that loop's input ending.
- Logging (`logInfo`, `logError`, `nap::Logger`) is not modelled. `enableLog` only sets a flag.
- RTTI registration, `registerObjectCreators`, `getIOContext`, `SocketService::shutdown` and the resource system that links `mThread` are not modelled. Whether a `SocketAdapter` has a thread bound is an input.
- Slots are a set of (signal, handle) pairs, so connecting the same slot twice is not counted twice.
- The outcome of setting `no_delay` is an input, not the value of the option.
- Server: what `handleAccept` reads to flush a new connection is discarded by the source and is not modelled.
- Server: a receive buffer of `available()` bytes is an input. How many of its bytes the peer actually filled is not modelled.
- Server: an accept that completes after `onDestroy` closed its socket is not modelled. ServerModel.HandleAccept requires the socket to be armed.
- Server.SocketServer.OnDestroy: requires the registry invariant, because only sockets in the registry can be open or armed. The other operations are proved to keep that invariant: InitKeepsValid, CreateNewSocketValid, HandleAcceptValid, SendValid, ClearQueueValid and ProcessValid.
- ServerModel.Init: a server with no thread bound is not modelled. The `Thread` property is required, and the source builds the acceptor and the first socket on the thread's I/O context (src/socketserver.cpp:59 and :160) before the adapter's own check at :65 could report a missing thread.
- Server.SocketServer.Close: does not cancel anything. `close` at src/socketserver.cpp:111-112 only closes the socket; an accept pending on it stays with the acceptor, and its later completion is not modelled.
- ClientModel.Initial: the source gives the client's timers no starting value, so the value each timer shows at construction is the parameter `timers`. It decides whether the first reconnect waits a full interval when connect-on-init is off.
- ServerModel.Send: whether `try_enqueue` finds room is the input `room`, not a bounded queue.
- ClientModel.RunAction: asio's `async_connect` opens a closed socket itself. The model marks the socket open when the connect is issued.
- Threading.SocketThread.Worker: models a run of the worker loop with as many iterations as it is given. Termination by another thread's `stop` is not modelled.
- The headers socketclient.h, socketserver.h and socketthread.h are not part of this model, except for constants and initial values. Some of their declarations do not match the .cpp files.

## Findings

| source | as written | input that shows it | evidently intended | confidence | as-written member | corrected member |
|---|---|---|---|---|---|---|
| src/socketserver.cpp:185-186 | `if(itr!=mSockets.end());` ends in an empty statement, so `mSockets.erase(itr)` runs even when the recorded socket is not in the registry, which erases the end iterator | a failed accept records socket 0; `onDestroy` empties the registry but keeps the record; the next `process` erases `end()` | erase only when the socket was found | not executed; the guard is certainly empty, but how often a recorded socket is missing from the registry in practice is unknown | ServerModel.SweepAfterDestroyUndefined | ServerModel.SweepIsWithout |
