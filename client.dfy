/**
 * SocketClient (src/socketclient.cpp) as an object: its flags, timers and
 * queues are fields the methods update in place, and every method is proved
 * to move the client from `old(State())` to the state the matching
 * ClientModel function computes, where the client's properties are proved.
 */
module Client {
  import opened Packet
  import opened Errors
  import opened ClientModel

  class SocketClient {
    const cfg: Config
    var ready: bool
    var connecting: bool
    var writing: bool
    var receiving: bool
    var open: bool
    var connectTimer: nat
    var reconnectTimer: nat
    var writeTimer: nat
    var readTimer: nat
    var queue: seq<SocketPacket>
    var actions: seq<Action>
    var writeBuffer: SocketPacket
    var logEnabled: bool
    var slots: set<(SignalKind, nat)>
    var requests: seq<Request>
    var signals: seq<Signal>

    /** The client's fields as one value. */
    function State(): State
      reads this
    {
      ClientModel.State(ready, connecting, writing, receiving, open, connectTimer, reconnectTimer,
                        writeTimer, readTimer, queue, actions, writeBuffer, logEnabled, slots, requests, signals)
    }

    constructor (cfg: Config, logEnabled: bool, timers: nat)
      ensures this.cfg == cfg && State() == Initial(logEnabled, timers)
    {
      this.cfg := cfg;
      ready, connecting, writing, receiving, open := false, false, false, false, false;
      connectTimer, reconnectTimer, writeTimer, readTimer := timers, timers, timers, timers;
      queue, actions, writeBuffer := [], [], Default();
      this.logEnabled := logEnabled;
      slots, requests, signals := {}, [], [];
    }

    /** `onStart`. */
    method Start(openError: AsioError, resolveError: AsioError, addressError: AsioError, errorState: ErrorState)
      returns (ok: bool, errors: ErrorState)
      modifies this
      ensures (ok, State(), errors) == ClientModel.Start(cfg, old(State()), openError, resolveError, addressError, errorState)
    {
      var success := false;
      open := !openError.IsError();
      var o := Adapter.HandleAsioError(openError, cfg.allowFailure, success, errorState);
      if o.handled { return o.success, o.errors; }
      o := Adapter.HandleAsioError(resolveError, cfg.allowFailure, o.success, o.errors);
      if o.handled { return o.success, o.errors; }
      o := Adapter.HandleAsioError(addressError, cfg.allowFailure, o.success, o.errors);
      if o.handled { return o.success, o.errors; }
      if cfg.connectOnInit {
        Connect();
      }
      return true, o.errors;
    }

    /** `connect`: defers the connect to the processing thread. */
    method Connect()
      modifies this`actions
      ensures actions == old(actions) + [ClientModel.Connect]
    {
      actions := actions + [ClientModel.Connect];
    }

    /** `disconnect`: defers the disconnect to the processing thread. */
    method Disconnect()
      modifies this`actions
      ensures actions == old(actions) + [ClientModel.Disconnect]
    {
      actions := actions + [ClientModel.Disconnect];
    }

    /** `enableLog`, `add…Slot` and `remove…Slot`: each defers its action. */
    method Enqueue(a: Action)
      requires a.EnableLog? || a.AddSlot? || a.RemoveSlot?
      modifies this`actions
      ensures actions == old(actions) + [a]
    {
      actions := actions + [a];
    }

    /** `send`. */
    method Send(packet: SocketPacket)
      modifies this`queue
      ensures State() == ClientModel.Send(old(State()), packet)
    {
      if ready {
        queue := queue + [packet];
      }
    }

    /** `onStop`. */
    method Stop()
      modifies this`ready
      ensures State() == ClientModel.Stop(old(State()))
    {
      ready := false;
    }

    /** `isConnected`. */
    method IsConnected() returns (r: bool)
      ensures r == State().ready
    {
      return ready;
    }

    /** `isConnecting`. */
    method IsConnecting() returns (r: bool)
      ensures r == State().connecting
    {
      return connecting;
    }

    /** `clearQueue`: dequeues until the queue is empty. */
    method ClearQueue()
      modifies this`queue
      ensures State() == old(State()).(queue := [])
    {
      while |queue| > 0
        invariant State() == old(State()).(queue := queue)
        decreases |queue|
      {
        queue := queue[1..];
      }
    }

    /** Milliseconds pass on every timer. */
    method AdvanceClock(ms: nat)
      modifies this`connectTimer, this`reconnectTimer, this`writeTimer, this`readTimer
      ensures State() == Elapse(old(State()), ms)
    {
      connectTimer := connectTimer + ms;
      reconnectTimer := reconnectTimer + ms;
      writeTimer := writeTimer + ms;
      readTimer := readTimer + ms;
    }

    method RestartReconnectTimer()
      modifies this`reconnectTimer
      ensures State() == RestartReconnect(cfg, old(State()))
    {
      if cfg.autoReconnect {
        reconnectTimer := 0;
      }
    }

    /** Triggers a signal. */
    method Fire(signal: Signal)
      modifies this`signals
      ensures State() == ClientModel.Fire(old(State()), signal)
    {
      signals := signals + [signal];
    }

    /** Hands an asynchronous operation to asio. */
    method Issue(request: Request)
      modifies this`requests
      ensures State() == ClientModel.Issue(old(State()), request)
    {
      requests := requests + [request];
    }

    method LoseConnection()
      modifies this
      ensures State() == ClientModel.LoseConnection(cfg, old(State()))
    {
      ready := false;
      RestartReconnectTimer();
      Fire(Disconnected);
    }

    method Abandon()
      modifies this
      ensures State() == ClientModel.Abandon(cfg, old(State()))
    {
      ready := false;
      open := false;
      RestartReconnectTimer();
    }

    method EndConnect()
      modifies this`connecting, this`connectTimer
      ensures State() == ClientModel.EndConnect(old(State()))
    {
      connecting := false;
      connectTimer := 0;
    }

    method BecomeReady()
      modifies this
      ensures State() == ClientModel.BecomeReady(old(State()))
    {
      ready := true;
      reconnectTimer := 0;
      ClearQueue();
      Fire(Connected);
    }

    /** The action `connect` defers. */
    method ConnectNow()
      modifies this
      ensures State() == RunAction(old(State()), ClientModel.Connect)
    {
      if !connecting {
        connecting := true;
        connectTimer := 0;
        open := true;
        Issue(ConnectRequest);
      }
    }

    /** The action `disconnect` defers. */
    method DisconnectNow()
      modifies this
      ensures State() == RunAction(old(State()), ClientModel.Disconnect)
    {
      open := false;
      connecting := false;
      ready := false;
      Fire(Disconnected);
    }

    /** One deferred action, run on the processing thread. */
    method Run(a: Action)
      modifies this
      ensures State() == RunAction(old(State()), a)
    {
      match a
      case Connect => ConnectNow();
      case Disconnect => DisconnectNow();
      case EnableLog(enable) => logEnabled := enable;
      case AddSlot(k, slot) => slots := slots + {(k, slot)};
      case RemoveSlot(k, slot) => slots := slots - {(k, slot)};
    }

    /** `handleError`. */
    method HandleError(error: bool) returns (handled: bool)
      modifies this
      ensures (handled, State()) == ClientModel.HandleError(cfg, old(State()), error)
    {
      if error && ready {
        LoseConnection();
        return true;
      }
      return false;
    }

    /** `handleConnect`, with the outcome of setting `no_delay`. */
    method HandleConnect(error: bool, optionError: bool)
      modifies this
      ensures State() == ConnectCompleted(cfg, old(State()), error, optionError)
    {
      EndConnect();
      var isError := error || optionError;
      if !isError {
        BecomeReady();
      } else {
        open := false;
        RestartReconnectTimer();
      }
    }

    /** The completion handler of the asynchronous write. */
    method HandleWrite(error: bool)
      modifies this
      ensures State() == WriteCompleted(cfg, old(State()), error)
    {
      writing := false;
      var _ := HandleError(error);
      writeTimer := 0;
    }

    /** The completion handler of the asynchronous read; `data` is what arrived. */
    method HandleRead(error: bool, data: CString)
      modifies this
      ensures State() == ReadCompleted(cfg, old(State()), error, data)
    {
      receiving := false;
      readTimer := 0;
      var handled := HandleError(error);
      if !handled && |data| > 0 {
        Fire(DataReceived(FromString(data)));
      }
    }

    /** `onProcess`: one tick of the processing thread. */
    method Process(available: Available)
      modifies this
      ensures State() == Tick(cfg, old(State()), available)
    {
      DrainActions();
      var returned := Io(available);
      if returned {
        return;
      }
      CheckConnectTimeout();
      Fire(PostProcess);
    }

    /** Abandons a connect that has run past the connect timeout. */
    method CheckConnectTimeout()
      modifies this
      ensures State() == ConnectTimeout(cfg, old(State()))
    {
      if connecting && connectTimer > cfg.connectTimeoutMillis {
        EndConnect();
        open := false;
        RestartReconnectTimer();
      }
    }

    /** Runs every deferred action, in order. */
    method DrainActions()
      modifies this
      ensures State() == Drain(old(State()))
    {
      while actions != []
        invariant Drain(State()) == Drain(old(State()))
        decreases |actions|
      {
        var a := actions[0];
        actions := actions[1..];
        Run(a);
      }
    }

    /** The input/output part of a tick: writing, reading, or reacting to a lost or missing connection. */
    method Io(available: Available) returns (returned: bool)
      modifies this
      ensures (State(), returned) == IoPhase(cfg, old(State()), available)
    {
      returned := false;
      if ready {
        if open {
          Write();
          returned := Read(available);
        } else {
          LoseConnection();
        }
      } else if cfg.autoReconnect && !connecting && reconnectTimer > cfg.reconnectIntervalMillis {
        Connect();
      }
    }

    /** The write half of a tick. */
    method Write()
      modifies this
      ensures State() == WriteStep(cfg, old(State()))
    {
      if !writing {
        if |queue| > 0 {
          StartWrite();
        }
      } else if writeTimer > cfg.writeTimeoutMillis {
        writeTimer := 0;
        writing := false;
        Abandon();
      }
    }

    /** Dequeues the next packet and writes it. */
    method StartWrite()
      requires |queue| > 0
      modifies this
      ensures State() == ClientModel.StartWrite(old(State()))
    {
      var msg := queue[0];
      queue := queue[1..];
      writing := true;
      writeTimer := 0;
      writeBuffer := msg;
      Issue(WriteRequest(msg));
    }

    /** The read half of a tick; true when the `available()` error path returns from the tick. */
    method Read(available: Available) returns (returned: bool)
      modifies this
      ensures (State(), returned) == ReadStep(cfg, old(State()), available)
    {
      if !receiving {
        var avail := if open then available else AvailableFailed;
        var handled := HandleError(avail.AvailableFailed?);
        if handled {
          return true;
        }
        if avail.Available? && avail.count > 0 {
          receiving := true;
          readTimer := 0;
          Issue(ReadRequest(avail.count));
        }
      } else if readTimer > cfg.readTimeoutMillis {
        readTimer := 0;
        receiving := false;
        Abandon();
      }
      return false;
    }
  }
}
