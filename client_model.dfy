/**
 * The connection state machine of SocketClient (src/socketclient.cpp) as
 * functions over a value holding every field the client updates.
 *
 * asio is outside the model: an asynchronous operation the client issues is
 * recorded as a Request, its completion is one of the completion functions
 * below (ConnectCompleted, WriteCompleted, ReadCompleted), and the result of
 * `socket.available()` is the Available input of a tick. Each SteadyTimer is
 * the number of milliseconds since it was last reset; `reset()`/`start()` set
 * it to 0 and Elapse advances all of them. Fired signals are appended to
 * `signals`.
 */
module ClientModel {
  import opened Packet
  import opened Errors
  import Adapter

  /** The client's properties. */
  datatype Config = Config(
    autoReconnect: bool,
    reconnectIntervalMillis: int,
    connectTimeoutMillis: int,
    writeTimeoutMillis: int,
    readTimeoutMillis: int,
    connectOnInit: bool,
    noDelay: bool,
    allowFailure: bool)

  datatype SignalKind = DataReceivedSignal | ConnectedSignal | DisconnectedSignal | PostProcessSignal

  /** The deferred operations other threads push onto `mActionQueue`. */
  datatype Action =
    | Connect
    | Disconnect
    | EnableLog(enable: bool)
    | AddSlot(signal: SignalKind, slot: nat)
    | RemoveSlot(signal: SignalKind, slot: nat)

  /** Asynchronous operations handed to asio. A write sends exactly the packet's bytes. */
  datatype Request = ConnectRequest | WriteRequest(packet: SocketPacket) | ReadRequest(count: nat)

  datatype Signal = Connected | Disconnected | DataReceived(packet: SocketPacket) | PostProcess

  /** `socket.available(err)`: an error, or the number of bytes ready to read. */
  datatype Available = AvailableFailed | Available(count: nat)

  datatype State = State(
    ready: bool,          // mSocketReady
    connecting: bool,     // mConnecting
    writing: bool,        // mWritingData
    receiving: bool,      // mReceivingData
    open: bool,           // mSocket.is_open()
    connectTimer: nat,    // mTimeoutTimer
    reconnectTimer: nat,  // mReconnectTimer
    writeTimer: nat,      // mWriteResponseTimer
    readTimer: nat,       // mReadResponseTimer
    queue: seq<SocketPacket>,
    actions: seq<Action>,
    writeBuffer: SocketPacket,
    logEnabled: bool,
    slots: set<(SignalKind, nat)>,
    requests: seq<Request>,
    signals: seq<Signal>)

  /**
   * A new client. The source gives its timers no starting value, so `timers`
   * is what each of them shows at construction.
   */
  function Initial(logEnabled: bool, timers: nat): (s: State)
    ensures !s.ready && !s.connecting && !s.writing && !s.receiving && !s.open
    ensures s.queue == [] && s.actions == [] && s.requests == [] && s.signals == []
    ensures s.connectTimer == s.reconnectTimer == s.writeTimer == s.readTimer == timers
  {
    State(false, false, false, false, false, timers, timers, timers, timers, [], [], Default(), logEnabled, {}, [], [])
  }

  /** Restarting the reconnect timer, done only when auto-reconnect is on. */
  function RestartReconnect(cfg: Config, s: State): (r: State)
    ensures r == s.(reconnectTimer := if cfg.autoReconnect then 0 else s.reconnectTimer)
  {
    if cfg.autoReconnect then s.(reconnectTimer := 0) else s
  }

  /** A signal is triggered; the model records it. */
  function Fire(s: State, signal: Signal): State {
    s.(signals := s.signals + [signal])
  }

  /** An asynchronous operation is handed to asio; the model records it. */
  function Issue(s: State, request: Request): State {
    s.(requests := s.requests + [request])
  }

  /**
   * A connection found broken (by `handleError`, or because the socket is no
   * longer open): the socket stops being ready, the reconnect timer restarts
   * when auto-reconnect is on and `disconnected` fires. The socket is shut
   * down, not closed.
   */
  function LoseConnection(cfg: Config, s: State): (r: State)
    ensures !r.ready && r.signals == s.signals + [Disconnected] && r.open == s.open
    ensures r.queue == s.queue && r.requests == s.requests && r.actions == s.actions
    ensures r.connecting == s.connecting && r.writing == s.writing && r.receiving == s.receiving
  {
    Fire(RestartReconnect(cfg, s.(ready := false)), Disconnected)
  }

  /** The connect is over, whichever way: no longer connecting, connect timer restarted. */
  function EndConnect(s: State): State {
    s.(connecting := false, connectTimer := 0)
  }

  /** A connect succeeded: ready, reconnect timer restarted, stale outbound queue dropped, `connected` fired. */
  function BecomeReady(s: State): State {
    Fire(s.(ready := true, reconnectTimer := 0, queue := []), Connected)
  }

  /**
   * A write or read that timed out: the socket stops being ready and is
   * closed, and the reconnect timer restarts when auto-reconnect is on; no
   * signal fires.
   */
  function Abandon(cfg: Config, s: State): State {
    RestartReconnect(cfg, s.(ready := false, open := false))
  }

  // ---------------------------------------------------------------------------
  // Bookkeeping over the record of issued requests

  /** The packets handed to asio for writing, in issue order. */
  function Written(rs: seq<Request>): seq<SocketPacket> {
    if rs == [] then []
    else Written(rs[..|rs| - 1]) + (if rs[|rs| - 1].WriteRequest? then [rs[|rs| - 1].packet] else [])
  }

  function Reads(rs: seq<Request>): nat {
    if rs == [] then 0
    else Reads(rs[..|rs| - 1]) + (if rs[|rs| - 1].ReadRequest? then 1 else 0)
  }

  function Connects(rs: seq<Request>): nat {
    if rs == [] then 0
    else Connects(rs[..|rs| - 1]) + (if rs[|rs| - 1] == ConnectRequest then 1 else 0)
  }

  lemma RequestsSnoc(rs: seq<Request>, r: Request)
    ensures Written(rs + [r]) == Written(rs) + (if r.WriteRequest? then [r.packet] else [])
    ensures Reads(rs + [r]) == Reads(rs) + (if r.ReadRequest? then 1 else 0)
    ensures Connects(rs + [r]) == Connects(rs) + (if r == ConnectRequest then 1 else 0)
  {
    assert (rs + [r])[..|rs|] == rs;
  }

  // ---------------------------------------------------------------------------
  // Deferred actions

  /**
   * One deferred action, run on the processing thread. `connect` does nothing
   * while a connect is in progress; otherwise it marks the client connecting,
   * restarts the connect timer and issues the asynchronous connect (which opens
   * the socket). `disconnect` shuts down and closes the socket, clears both
   * flags and fires `disconnected`, unconditionally.
   */
  function RunAction(s: State, a: Action): (r: State)
    ensures r.actions == s.actions && r.queue == s.queue
    ensures r.writing == s.writing && r.receiving == s.receiving
    ensures r.ready ==> s.ready
    ensures r.requests == (if a == Connect && !s.connecting then s.requests + [ConnectRequest] else s.requests)
    ensures a == Connect && s.connecting ==> r == s
    ensures a == Connect && !s.connecting ==> r.connecting && r.connectTimer == 0 && r.open
    ensures a == Disconnect ==> !r.open && !r.connecting && !r.ready && r.signals == s.signals + [Disconnected]
  {
    match a
    case Connect =>
      if s.connecting then s
      else Issue(s.(connecting := true, connectTimer := 0, open := true), ConnectRequest)
    case Disconnect =>
      Fire(s.(open := false, connecting := false, ready := false), Disconnected)
    case EnableLog(enable) => s.(logEnabled := enable)
    case AddSlot(k, slot) => s.(slots := s.slots + {(k, slot)})
    case RemoveSlot(k, slot) => s.(slots := s.slots - {(k, slot)})
  }

  /** `while (mActionQueue.try_dequeue(action)) action();` */
  function Drain(s: State): (r: State)
    ensures r.actions == [] && r.queue == s.queue
    ensures r.writing == s.writing && r.receiving == s.receiving
    ensures r.ready ==> s.ready
    decreases |s.actions|
  {
    if s.actions == [] then s
    else Drain(RunAction(s.(actions := s.actions[1..]), s.actions[0]))
  }

  /** Draining the actions issues connects only: no write and no read. */
  lemma {:induction false} DrainIssuesNoIo(s: State)
    ensures Written(Drain(s).requests) == Written(s.requests) && Reads(Drain(s).requests) == Reads(s.requests)
    decreases |s.actions|
  {
    if s.actions != [] {
      RequestsSnoc(s.requests, ConnectRequest);
      DrainIssuesNoIo(RunAction(s.(actions := s.actions[1..]), s.actions[0]));
    }
  }

  /** A connect queued twice in a row issues one asynchronous connect. */
  lemma ConnectIdempotent(s: State)
    ensures RunAction(RunAction(s, Connect), Connect) == RunAction(s, Connect)
    ensures Connects(RunAction(s, Connect).requests) <= Connects(s.requests) + 1
  {
    RequestsSnoc(s.requests, ConnectRequest);
  }

  /** A connect action issues a connect exactly when none is in progress, and leaves the client connecting. */
  lemma RunActionConnects(s: State, a: Action)
    ensures Connects(RunAction(s, a).requests) == Connects(s.requests) + (if a == Connect && !s.connecting then 1 else 0)
    ensures a == Connect ==> RunAction(s, a).connecting
    ensures a != Disconnect && s.connecting ==> RunAction(s, a).connecting
  {
    RequestsSnoc(s.requests, ConnectRequest);
  }

  /** Without a `disconnect` in the queue, a drain issues at most one connect, and none while already connecting. */
  lemma {:induction false} DrainConnectsAtMostOnce(s: State)
    requires Disconnect !in s.actions
    ensures Connects(Drain(s).requests) <= Connects(s.requests) + (if s.connecting then 0 else 1)
    ensures s.connecting ==> Connects(Drain(s).requests) == Connects(s.requests)
    decreases |s.actions|
  {
    if s.actions != [] {
      var s' := s.(actions := s.actions[1..]);
      RunActionConnects(s', s.actions[0]);
      var t := RunAction(s', s.actions[0]);
      assert Disconnect !in t.actions by { assert t.actions == s.actions[1..]; }
      DrainConnectsAtMostOnce(t);
    }
  }

  // ---------------------------------------------------------------------------
  // Completions and error handling

  /**
   * `handleError`: acts only when there is an error and the socket is ready:
   * the socket stops being ready (it is shut down, not closed), the reconnect
   * timer restarts when auto-reconnect is on and `disconnected` fires.
   */
  function HandleError(cfg: Config, s: State, error: bool): (r: (bool, State))
    ensures r.0 <==> error && s.ready
    ensures !r.0 ==> r.1 == s
    ensures r.0 ==> !r.1.ready && r.1.signals == s.signals + [Disconnected] && r.1.open == s.open
    ensures r.0 && cfg.autoReconnect ==> r.1.reconnectTimer == 0
  {
    if error && s.ready then (true, LoseConnection(cfg, s)) else (false, s)
  }

  /**
   * `handleConnect`: the connect is over either way. On success, and when
   * `no_delay` can be set, the socket becomes ready, the stale outbound queue is
   * dropped and `connected` fires; on any error the socket is closed and the
   * reconnect timer restarts when auto-reconnect is on.
   */
  function ConnectCompleted(cfg: Config, s: State, error: bool, optionError: bool): (r: State)
    ensures !r.connecting && r.connectTimer == 0
    ensures r.writing == s.writing && r.receiving == s.receiving
    ensures r.requests == s.requests && r.actions == s.actions
  {
    var s1 := EndConnect(s);
    if !error && !optionError then BecomeReady(s1)
    else
      RestartReconnect(cfg, s1.(open := false))
  }

  lemma ConnectCompletedSpec(cfg: Config, s: State, error: bool, optionError: bool)
    ensures var r := ConnectCompleted(cfg, s, error, optionError);
      && !r.connecting
      && (!error && !optionError <==> Connected in r.signals[|s.signals|..])
      && (!error && !optionError ==> r.ready && r.queue == [] && r.reconnectTimer == 0 && r.open == s.open)
      && (error || optionError ==> r.ready == s.ready && !r.open && r.queue == s.queue && r.signals == s.signals)
      && (error || optionError ==> r.reconnectTimer == if cfg.autoReconnect then 0 else s.reconnectTimer)
  {
    var r := ConnectCompleted(cfg, s, error, optionError);
    if !error && !optionError {
      assert r.signals[|s.signals|..] == [Connected];
    } else {
      assert r.signals[|s.signals|..] == [];
    }
  }

  /** Completion of the write: the in-flight flag clears, errors go through `handleError`, the write timer restarts. */
  function WriteCompleted(cfg: Config, s: State, error: bool): (r: State)
    ensures !r.writing && r.writeTimer == 0
    ensures r.ready <==> s.ready && !error
    ensures r.queue == s.queue && r.requests == s.requests
  {
    HandleError(cfg, s.(writing := false), error).1.(writeTimer := 0)
  }

  /**
   * Completion of the read of `data` (`bytes_transferred == |data|`): the
   * in-flight flag clears and the read timer restarts; `dataReceived` fires
   * with those bytes as one packet when `handleError` did not act and
   * something was transferred.
   */
  function ReadCompleted(cfg: Config, s: State, error: bool, data: CString): (r: State)
    ensures !r.receiving && r.readTimer == 0
    ensures r.writing == s.writing && r.connecting == s.connecting && r.queue == s.queue
    ensures r.requests == s.requests && r.actions == s.actions
  {
    var s1 := s.(receiving := false, readTimer := 0);
    var (handled, s2) := HandleError(cfg, s1, error);
    if !handled && |data| > 0 then Fire(s2, DataReceived(FromString(data))) else s2
  }

  predicate Delivered(s: State, r: State, data: CString) {
    |r.signals| == |s.signals| + 1 && r.signals[|s.signals|] == DataReceived(FromString(data))
  }

  /** `dataReceived` fires exactly when no error was handled and bytes arrived, and it carries exactly those bytes. */
  lemma ReadCompletedSpec(cfg: Config, s: State, error: bool, data: CString)
    ensures var r := ReadCompleted(cfg, s, error, data);
      && !r.receiving && r.readTimer == 0
      && (Delivered(s, r, data) <==> !(error && s.ready) && |data| > 0)
      && (Delivered(s, r, data) ==> ToString(r.signals[|s.signals|].packet) == data)
  {
    StringRoundTrip(data);
  }

  /** `send`: queued only while the socket is ready, otherwise silently dropped. */
  function Send(s: State, packet: SocketPacket): (r: State)
    ensures |r.queue| == |s.queue| + (if s.ready then 1 else 0)
    ensures r.queue[..|s.queue|] == s.queue
    ensures r.requests == s.requests && r.signals == s.signals && r.ready == s.ready
  {
    if s.ready then s.(queue := s.queue + [packet]) else s
  }

  lemma SendSpec(s: State, packet: SocketPacket)
    ensures Send(s, packet).queue == s.queue + [packet] <==> s.ready
    ensures !s.ready ==> Send(s, packet) == s
    ensures Send(s, packet) == s.(queue := Send(s, packet).queue)
  {
    if !s.ready { assert |s.queue + [packet]| != |s.queue|; }
  }

  /** Every timer runs; `ms` milliseconds pass. */
  function Elapse(s: State, ms: nat): (r: State)
    ensures r.connectTimer == s.connectTimer + ms && r.reconnectTimer == s.reconnectTimer + ms
    ensures r.writeTimer == s.writeTimer + ms && r.readTimer == s.readTimer + ms
    ensures r == s.(connectTimer := r.connectTimer, reconnectTimer := r.reconnectTimer,
                    writeTimer := r.writeTimer, readTimer := r.readTimer)
  {
    s.(connectTimer := s.connectTimer + ms, reconnectTimer := s.reconnectTimer + ms,
       writeTimer := s.writeTimer + ms, readTimer := s.readTimer + ms)
  }

  /** `onStop`: the socket is no longer ready; it is shut down but stays open. */
  function Stop(s: State): (r: State)
    ensures !r.ready && r == s.(ready := false)
  {
    s.(ready := false)
  }

  // ---------------------------------------------------------------------------
  // onStart

  /**
   * `onStart`: a fresh socket is opened, the host resolved and the address parsed, each step
   * guarded by `handleAsioError`; then queue a connect when connect-on-init is
   * set. `openError`, `resolveError`, `addressError` are the asio outcomes of
   * the three steps.
   */
  function Start(cfg: Config, s: State, openError: AsioError, resolveError: AsioError, addressError: AsioError,
                 errorState: ErrorState): (r: (bool, State, ErrorState))
    ensures r.1.actions == s.actions || r.1.actions == s.actions + [Connect]
    ensures r.1 == s.(open := r.1.open, actions := r.1.actions)
  {
    var afterOpen := s.(open := !openError.IsError());
    var o1 := Adapter.HandleAsioError(openError, cfg.allowFailure, false, errorState);
    if o1.handled then (o1.success, afterOpen, o1.errors)
    else
      var o2 := Adapter.HandleAsioError(resolveError, cfg.allowFailure, o1.success, o1.errors);
      if o2.handled then (o2.success, afterOpen, o2.errors)
      else
        var o3 := Adapter.HandleAsioError(addressError, cfg.allowFailure, o2.success, o2.errors);
        if o3.handled then (o3.success, afterOpen, o3.errors)
        else (true, if cfg.connectOnInit then afterOpen.(actions := afterOpen.actions + [Connect]) else afterOpen, o3.errors)
  }

  /**
   * Start fails only on an asio error with failure not allowed, and then
   * records exactly the first failing step's message.
   */
  lemma StartOutcome(cfg: Config, s: State, openError: AsioError, resolveError: AsioError, addressError: AsioError,
                     errorState: ErrorState)
    ensures var (ok, _, errors) := Start(cfg, s, openError, resolveError, addressError, errorState);
      var failed := openError.IsError() || resolveError.IsError() || addressError.IsError();
      var first := if openError.IsError() then openError else if resolveError.IsError() then resolveError else addressError;
      && (!ok <==> failed && !cfg.allowFailure)
      && (errors == if failed && !cfg.allowFailure then errorState.Fail(first.message) else errorState)
  {
  }

  /** Start queues a connect only when every step succeeded and connect-on-init is set; the socket is open when opening it succeeded. */
  lemma StartEffects(cfg: Config, s: State, openError: AsioError, resolveError: AsioError, addressError: AsioError,
                     errorState: ErrorState)
    ensures var (_, r, _) := Start(cfg, s, openError, resolveError, addressError, errorState);
      var failed := openError.IsError() || resolveError.IsError() || addressError.IsError();
      && (r.actions == s.actions + [Connect] <==> !failed && cfg.connectOnInit)
      && (r.actions == s.actions <==> failed || !cfg.connectOnInit)
      && (r.open <==> !openError.IsError())
      && r == s.(open := r.open, actions := r.actions)
  {
    assert |s.actions + [Connect]| != |s.actions|;
  }

  // ---------------------------------------------------------------------------
  // One tick: onProcess

  function WriteTimedOut(cfg: Config, s: State): bool {
    s.writing && s.writeTimer > cfg.writeTimeoutMillis
  }

  function ReadTimedOut(cfg: Config, s: State): bool {
    s.receiving && s.readTimer > cfg.readTimeoutMillis
  }

  /**
   * Step 2 of a tick, with the socket ready and open: when no write is in
   * flight, dequeue one packet and write it; otherwise a write that has run
   * past the write timeout closes the connection.
   */
  function WriteStep(cfg: Config, s: State): (r: State)
    ensures WriteTimedOut(cfg, s) ==> !r.ready && !r.open && !r.writing && r.writeTimer == 0
    ensures !s.writing && s.queue != [] ==> r.writing && r.writeTimer == 0 && r.writeBuffer == s.queue[0]
    ensures r.queue == s.queue || (s.queue != [] && r.queue == s.queue[1..])
    ensures r.receiving == s.receiving && r.readTimer == s.readTimer
    ensures r.connecting == s.connecting && r.signals == s.signals && r.actions == s.actions
    ensures r.ready ==> s.ready
  {
    if !s.writing then
      if s.queue != [] then
        StartWrite(s)
      else s
    else if s.writeTimer > cfg.writeTimeoutMillis then
      Abandon(cfg, s.(writeTimer := 0, writing := false))
    else s
  }

  /** Dequeue the head of the queue into the write buffer and write it out. */
  function StartWrite(s: State): State
    requires s.queue != []
  {
    Issue(s.(queue := s.queue[1..], writing := true, writeTimer := 0, writeBuffer := s.queue[0]),
          WriteRequest(s.queue[0]))
  }

  /** The write step moves at most the head of the queue onto the wire, and issues no read or connect. */
  lemma WriteStepRequests(cfg: Config, s: State)
    ensures var r := WriteStep(cfg, s);
      && Written(r.requests) + r.queue == Written(s.requests) + s.queue
      && |Written(r.requests)| <= |Written(s.requests)| + (if s.writing then 0 else 1)
      && Reads(r.requests) == Reads(s.requests) && Connects(r.requests) == Connects(s.requests)
  {
    if !s.writing && s.queue != [] {
      RequestsSnoc(s.requests, WriteRequest(s.queue[0]));
      assert [s.queue[0]] + s.queue[1..] == s.queue;
    }
  }

  /**
   * Step 3 of a tick: when no read is in flight, ask how much is available
   * (a closed socket reports an error); an error handled by `handleError` ends
   * the tick at once (the `bool` is true); bytes available start one read of
   * exactly that many. A read in flight past the read timeout closes the
   * connection.
   */
  function ReadStep(cfg: Config, s: State, available: Available): (r: (State, bool))
    ensures ReadTimedOut(cfg, s) ==> !r.0.ready && !r.0.open && !r.0.receiving && r.0.readTimer == 0
    ensures r.0.writing == s.writing && r.0.queue == s.queue && r.0.connecting == s.connecting
    ensures r.0.actions == s.actions
    ensures r.0.ready ==> s.ready
    ensures r.1 <==> !s.receiving && s.ready && (!s.open || available.AvailableFailed?)
    ensures r.1 ==> r.0.signals == s.signals + [Disconnected] && !r.0.ready
    ensures !r.1 ==> r.0.signals == s.signals
  {
    if !s.receiving then
      var avail := if s.open then available else AvailableFailed;
      match avail
      case AvailableFailed =>
        var (handled, t) := HandleError(cfg, s, true);
        (t, handled)
      case Available(n) =>
        if n > 0 then
          (Issue(s.(receiving := true, readTimer := 0), ReadRequest(n)), false)
        else (s, false)
    else if s.readTimer > cfg.readTimeoutMillis then
      (Abandon(cfg, s.(readTimer := 0, receiving := false)), false)
    else (s, false)
  }

  /** The read step issues at most one read, none while one is in flight, and no write or connect. */
  lemma ReadStepRequests(cfg: Config, s: State, available: Available)
    ensures var r := ReadStep(cfg, s, available).0;
      && Written(r.requests) == Written(s.requests) && Connects(r.requests) == Connects(s.requests)
      && Reads(r.requests) <= Reads(s.requests) + (if s.receiving then 0 else 1)
  {
    if !s.receiving && s.open && available.Available? && available.count > 0 {
      RequestsSnoc(s.requests, ReadRequest(available.count));
    }
  }

  /** Step 4: not ready, auto-reconnect on, no connect in progress and the interval passed: queue a connect. */
  function ReconnectPolicy(cfg: Config, s: State): (r: State)
    ensures r.actions == s.actions + [Connect] <==>
              cfg.autoReconnect && !s.connecting && s.reconnectTimer > cfg.reconnectIntervalMillis
    ensures r == s.(actions := r.actions)
  {
    if cfg.autoReconnect && !s.connecting && s.reconnectTimer > cfg.reconnectIntervalMillis then
      s.(actions := s.actions + [Connect])
    else
      assert |s.actions + [Connect]| != |s.actions|;
      s
  }

  /** Step 5: a connect running past the connect timeout is abandoned and the socket closed. */
  function ConnectTimeout(cfg: Config, s: State): (r: State)
    ensures r.connecting <==> s.connecting && s.connectTimer <= cfg.connectTimeoutMillis
    ensures s.connecting && !r.connecting ==> !r.open && r.connectTimer == 0
    ensures !s.connecting ==> r == s
    ensures r.ready == s.ready && r.writing == s.writing && r.receiving == s.receiving
    ensures r.queue == s.queue && r.requests == s.requests && r.signals == s.signals && r.actions == s.actions
  {
    if s.connecting && s.connectTimer > cfg.connectTimeoutMillis then
      RestartReconnect(cfg, EndConnect(s).(open := false))
    else s
  }

  /** Steps 2 to 4; the `bool` is true when the `available()` error path returned early. */
  function IoPhase(cfg: Config, s: State, available: Available): (r: (State, bool))
    ensures r.1 ==> s.ready && s.open && !r.0.ready
    ensures r.0.ready ==> s.ready
    ensures r.0.connecting == s.connecting
    ensures r.0.queue == s.queue || (s.queue != [] && r.0.queue == s.queue[1..])
    ensures r.0.actions == s.actions || (!s.ready && r.0.actions == s.actions + [Connect])
  {
    if s.ready then
      if s.open then ReadStep(cfg, WriteStep(cfg, s), available)
      else (LoseConnection(cfg, s), false)
    else (ReconnectPolicy(cfg, s), false)
  }

  /** `onProcess`: one tick. */
  function Tick(cfg: Config, s: State, available: Available): (r: State)
    ensures r.ready ==> s.ready
    ensures r.queue == s.queue || (s.queue != [] && r.queue == s.queue[1..])
  {
    var (t, returned) := IoPhase(cfg, Drain(s), available);
    if returned then t
    else
      var u := ConnectTimeout(cfg, t);
      Fire(u, PostProcess)
  }

  /** When the tick returns early from the `available()` error path: ready, open, no write timeout, no read in flight. */
  predicate ReturnsEarly(cfg: Config, d: State, available: Available) {
    d.ready && d.open && !WriteTimedOut(cfg, d) && !d.receiving && available.AvailableFailed?
  }

  lemma IoPhaseReturns(cfg: Config, d: State, available: Available)
    ensures IoPhase(cfg, d, available).1 <==> ReturnsEarly(cfg, d, available)
    ensures IoPhase(cfg, d, available).1 ==> IoPhase(cfg, d, available).0.signals == d.signals + [Disconnected]
  {
    if d.ready && d.open {
      var w := WriteStep(cfg, d);
      assert w.ready && w.open <==> !WriteTimedOut(cfg, d);
    }
  }

  /**
   * The heartbeat: `postProcess` ends every tick except one that returned
   * early from the `available()` error path, which ends with `disconnected`.
   */
  lemma PostProcessEndsTick(cfg: Config, s: State, available: Available)
    ensures var r := Tick(cfg, s, available);
      && |r.signals| > 0
      && (r.signals[|r.signals| - 1] == PostProcess <==> !ReturnsEarly(cfg, Drain(s), available))
  {
    IoPhaseReturns(cfg, Drain(s), available);
  }

  /** Every tick drains the action queue completely; what is left is at most the connect the reconnect policy queued. */
  lemma TickDrainsActions(cfg: Config, s: State, available: Available)
    ensures var r := Tick(cfg, s, available);
      var d := Drain(s);
      && (r.actions == [] || r.actions == [Connect])
      && (r.actions == [Connect] <==>
            !d.ready && cfg.autoReconnect && !d.connecting && d.reconnectTimer > cfg.reconnectIntervalMillis)
  {
    var d := Drain(s);
    var t := IoPhase(cfg, d, available).0;
    var policy := cfg.autoReconnect && !d.connecting && d.reconnectTimer > cfg.reconnectIntervalMillis;
    if d.ready {
      if d.open {
        var w := WriteStep(cfg, d);
        assert t == ReadStep(cfg, w, available).0;
      }
      assert t.actions == [];
    } else {
      assert t.actions == if policy then [Connect] else [];
    }
    assert Tick(cfg, s, available).actions == t.actions;
  }

  /** A reconnect is deferred: a tick issues a connect only for a connect that was already queued before it. */
  lemma ReconnectIsDeferred(cfg: Config, s: State, available: Available)
    requires Connect !in s.actions
    ensures Connects(Tick(cfg, s, available).requests) == Connects(s.requests)
  {
    NoConnectWithoutConnectAction(s);
    TickRequests(cfg, s, available);
  }

  lemma {:induction false} NoConnectWithoutConnectAction(s: State)
    requires Connect !in s.actions
    ensures Connects(Drain(s).requests) == Connects(s.requests)
    decreases |s.actions|
  {
    if s.actions != [] {
      var t := RunAction(s.(actions := s.actions[1..]), s.actions[0]);
      assert t.requests == s.requests;
      assert Connect !in t.actions by { assert t.actions == s.actions[1..]; }
      NoConnectWithoutConnectAction(t);
    }
  }

  // ---------------------------------------------------------------------------
  // One write and one read in flight

  /** A write may start only from a ready socket with no write in flight. */
  function WriteBudget(s: State): nat {
    if s.ready && !s.writing then 1 else 0
  }

  function ReadBudget(s: State): nat {
    if s.ready && !s.receiving then 1 else 0
  }

  /**
   * What one tick issues: connects only while draining the actions, at most
   * one write and only when none is in flight, at most one read likewise, and
   * the written packets are taken from the head of the queue.
   */
  lemma TickRequests(cfg: Config, s: State, available: Available)
    ensures var r := Tick(cfg, s, available);
      && Written(r.requests) + r.queue == Written(s.requests) + s.queue
      && |Written(r.requests)| + WriteBudget(r) <= |Written(s.requests)| + WriteBudget(s)
      && Reads(r.requests) + ReadBudget(r) <= Reads(s.requests) + ReadBudget(s)
      && Connects(r.requests) == Connects(Drain(s).requests)
  {
    var d := Drain(s);
    DrainIssuesNoIo(s);
    IoPhaseRequests(cfg, d, available);
    TickAfterIo(cfg, s, available);
    assert WriteBudget(d) <= WriteBudget(s) && ReadBudget(d) <= ReadBudget(s);
  }

  /** After the input/output phase, a tick touches only the connect attempt and the signals. */
  lemma TickAfterIo(cfg: Config, s: State, available: Available)
    ensures var r := Tick(cfg, s, available);
      var t := IoPhase(cfg, Drain(s), available).0;
      && r.requests == t.requests && r.queue == t.queue
      && r.ready == t.ready && r.writing == t.writing && r.receiving == t.receiving
  {
  }

  lemma IoPhaseRequests(cfg: Config, d: State, available: Available)
    ensures var t := IoPhase(cfg, d, available).0;
      && Written(t.requests) + t.queue == Written(d.requests) + d.queue
      && |Written(t.requests)| + WriteBudget(t) <= |Written(d.requests)| + WriteBudget(d)
      && Reads(t.requests) + ReadBudget(t) <= Reads(d.requests) + ReadBudget(d)
      && Connects(t.requests) == Connects(d.requests)
  {
    if d.ready && d.open {
      var w := WriteStep(cfg, d);
      WriteStepRequests(cfg, d);
      ReadStepRequests(cfg, w, available);
    }
  }

  /** Consecutive ticks, one `available()` outcome each, with no completion in between. */
  function Ticks(cfg: Config, s: State, availables: seq<Available>): State
    decreases |availables|
  {
    if availables == [] then s else Ticks(cfg, Tick(cfg, s, availables[0]), availables[1..])
  }

  /**
   * At most one write in flight: however many ticks run before a completion
   * arrives, they issue at most one write, and none while a write is in flight.
   * The same holds of reads.
   */
  lemma {:induction false} OneWriteOneReadInFlight(cfg: Config, s: State, availables: seq<Available>)
    ensures |Written(Ticks(cfg, s, availables).requests)| <= |Written(s.requests)| + WriteBudget(s)
    ensures Reads(Ticks(cfg, s, availables).requests) <= Reads(s.requests) + ReadBudget(s)
    decreases |availables|
  {
    if availables != [] {
      TickRequests(cfg, s, availables[0]);
      OneWriteOneReadInFlight(cfg, Tick(cfg, s, availables[0]), availables[1..]);
    }
  }

  /**
   * Writes go out in queue order: over any run of ticks, the packets written
   * so far followed by the packets still queued stay the same sequence.
   */
  lemma {:induction false} TicksKeepOutboundOrder(cfg: Config, s: State, availables: seq<Available>)
    ensures var r := Ticks(cfg, s, availables);
      Written(r.requests) + r.queue == Written(s.requests) + s.queue
    decreases |availables|
  {
    if availables != [] {
      TickRequests(cfg, s, availables[0]);
      TicksKeepOutboundOrder(cfg, Tick(cfg, s, availables[0]), availables[1..]);
    }
  }

  /** A send accepted while ready lands at the end of that sequence. */
  lemma SendExtendsOutbound(s: State, packet: SocketPacket)
    requires s.ready
    ensures Written(Send(s, packet).requests) + Send(s, packet).queue == Written(s.requests) + s.queue + [packet]
  {
  }

  // ---------------------------------------------------------------------------
  // Reconnect spacing

  /**
   * Every way of losing or failing a connection restarts the reconnect timer
   * (when auto-reconnect is on), so the next connect waits a full interval.
   */
  lemma FailuresRestartReconnectTimer(cfg: Config, s: State, available: Available)
    requires cfg.autoReconnect
    ensures ConnectCompleted(cfg, s, true, false).reconnectTimer == 0
    ensures ConnectCompleted(cfg, s, false, true).reconnectTimer == 0
    ensures s.ready ==> HandleError(cfg, s, true).1.reconnectTimer == 0
    ensures s.ready && s.open && WriteTimedOut(cfg, s) ==> WriteStep(cfg, s).reconnectTimer == 0
    ensures s.ready && s.open && ReadTimedOut(cfg, s) ==> ReadStep(cfg, s, available).0.reconnectTimer == 0
    ensures s.ready && !s.open ==> IoPhase(cfg, s, available).0.reconnectTimer == 0
    ensures s.connecting && s.connectTimer > cfg.connectTimeoutMillis ==> ConnectTimeout(cfg, s).reconnectTimer == 0
  {
  }

  /** Within one reconnect interval of a restart of the timer, the policy queues no connect. */
  lemma NoReconnectWithinInterval(cfg: Config, s: State, ms: nat)
    requires s.reconnectTimer == 0 && ms <= cfg.reconnectIntervalMillis
    ensures ReconnectPolicy(cfg, Elapse(s, ms)) == Elapse(s, ms)
  {
  }
}
