/**
 * SocketServer (src/socketserver.cpp) as an object: its socket registry,
 * removal list and message queue are fields the methods update in place, and
 * every method is proved to move the server from `old(State())` to the state
 * the matching ServerModel function computes, where the server's properties
 * are proved.
 */
module Server {
  import opened Packet
  import opened Errors
  import opened Vectors
  import opened ServerModel
  import Adapter

  class SocketServer {
    const allowFailure: bool
    var sockets: seq<SocketId>
    var open: set<SocketId>
    var toRemove: seq<SocketId>
    var armed: set<SocketId>
    var nextSocket: SocketId
    var queue: seq<CString>
    var bind: BindAddress
    var events: seq<Event>

    /** The server's fields as one value. */
    function State(): Server
      reads this
    {
      ServerModel.Server(sockets, open, toRemove, armed, nextSocket, queue, bind, events)
    }

    constructor (allowFailure: bool)
      ensures this.allowFailure == allowFailure && State() == Empty()
    {
      this.allowFailure := allowFailure;
      sockets, open, toRemove, armed, nextSocket := [], {}, [], {}, 0;
      queue, bind, events := [], Unbound, [];
    }

    /** `init`: `parseError` is what parsing a non-empty address reports. */
    method Init(address: string, parseError: AsioError, errorState: ErrorState)
      returns (ok: bool, errors: ErrorState)
      modifies this
      ensures (ok, State(), errors) == ServerModel.Init(old(State()), address, parseError, allowFailure, errorState)
    {
      var initSuccess := false;
      var o := Adapter.HandleAsioError(if address == [] then NoError else parseError, allowFailure, initSuccess, errorState);
      if o.handled {
        return o.success, o.errors;
      }
      bind := if address == [] then AnyAddress else Address(address);
      CreateNewSocket();
      return true, o.errors;
    }

    /** `createNewSocket`: a new socket joins the registry and an accept is started on it. */
    method CreateNewSocket()
      modifies this`sockets, this`armed, this`nextSocket
      ensures State() == ServerModel.CreateNewSocket(old(State()))
    {
      sockets := sockets + [nextSocket];
      armed := armed + {nextSocket};
      nextSocket := nextSocket + 1;
    }

    /** `handleAccept`: the completion handler of the accept on `socket`. */
    method HandleAccept(socket: SocketId, error: bool)
      requires socket in armed
      modifies this
      ensures State() == ServerModel.HandleAccept(old(State()), socket, error)
    {
      armed := armed - {socket};
      if !error {
        open := open + {socket};
      } else {
        toRemove := toRemove + [socket];
      }
      CreateNewSocket();
    }

    /** `onDestroy`: closes every socket, then empties the registry. */
    method OnDestroy()
      requires Valid(State())
      modifies this`sockets, this`open, this`armed
      ensures State() == ServerModel.OnDestroy(old(State()))
    {
      var i := 0;
      while i < |sockets|
        invariant i <= |sockets| && sockets == old(sockets)
        invariant open <= old(open) && armed <= old(armed)
        invariant forall x :: x in open || x in armed ==> x !in sockets[..i]
      {
        assert sockets[..i + 1] == sockets[..i] + [sockets[i]];
        Close(sockets[i]);
        i := i + 1;
      }
      assert sockets[..i] == sockets;
      sockets := [];
    }

    /**
     * Closing a socket: it is no longer open, and the model stops tracking an
     * accept pending on it (the accept itself stays with the acceptor).
     */
    method Close(socket: SocketId)
      modifies this`open, this`armed
      ensures open == old(open) - {socket} && armed == old(armed) - {socket}
    {
      open := open - {socket};
      armed := armed - {socket};
    }

    /** `send`: `room` is whether `try_enqueue` finds room in the queue. */
    method Send(message: CString, room: bool)
      modifies this`queue
      ensures State() == ServerModel.Send(old(State()), message, room)
    {
      if room {
        queue := queue + [message];
      }
    }

    /** `clearQueue`: dequeues until the queue is empty. */
    method ClearQueue()
      modifies this`queue
      ensures State() == ServerModel.ClearQueue(old(State()))
    {
      while |queue| > 0
        invariant State() == old(State()).(queue := queue)
        decreases |queue|
      {
        queue := queue[1..];
      }
    }

    /** `handleError`: an error closes the socket and records it for removal. */
    method HandleError(socket: SocketId, error: bool) returns (handled: bool)
      modifies this`open, this`toRemove
      ensures handled == error
      ensures State() == if error then CloseAndRecord(old(State()), socket) else old(State())
    {
      if error {
        open := open - {socket};
        toRemove := toRemove + [socket];
        return true;
      }
      return false;
    }

    /** `process`: drain the queue, sweep the recorded sockets, then serve every socket in the registry. */
    method Process(peers: SocketId -> PeerInput)
      modifies this
      ensures State() == ServerModel.Process(old(State()), peers)
    {
      var messages := DrainQueue();
      RemoveObsolete();
      ServeSockets(messages, peers);
    }

    /** Dequeues every queued message, in order. */
    method DrainQueue() returns (messages: seq<CString>)
      modifies this`queue
      ensures messages == old(queue) && State() == old(State()).(queue := [])
    {
      messages := [];
      while queue != []
        invariant messages + queue == old(queue)
        invariant State() == old(State()).(queue := queue)
        decreases |queue|
      {
        messages := messages + [queue[0]];
        queue := queue[1..];
      }
    }

    /** The removal sweep: each recorded socket that is still in the registry is erased from it. */
    method RemoveObsolete()
      modifies this`sockets, this`toRemove
      ensures State() == old(State()).(sockets := Sweep(old(sockets), old(toRemove)), toRemove := [])
    {
      for i := 0 to |toRemove|
        invariant toRemove == old(toRemove)
        invariant sockets == Sweep(old(sockets), toRemove[..i])
      {
        assert toRemove[..i + 1][..i] == toRemove[..i];
        var k := Find(sockets, toRemove[i]);
        if k < |sockets| {
          FirstIndexUnique(sockets, toRemove[i], k);
          sockets := sockets[..k] + sockets[k + 1..];
        }
      }
      assert toRemove[..|toRemove|] == toRemove;
      toRemove := [];
    }

    /** Serves every socket in the registry, in order. */
    method ServeSockets(messages: seq<CString>, peers: SocketId -> PeerInput)
      modifies this
      ensures State() == ServeAll(old(State()), old(sockets), messages, peers)
    {
      ghost var start := State();
      for i := 0 to |sockets|
        invariant sockets == start.sockets
        invariant State() == ServeAll(start, sockets[..i], messages, peers)
      {
        assert sockets[..i + 1][..i] == sockets[..i];
        ServeSocket(sockets[i], messages, peers(sockets[i]));
      }
      assert sockets[..|sockets|] == sockets;
    }

    /** One socket's turn: send the queue until a send fails, then `available()`, then `receive`. */
    method ServeSocket(socket: SocketId, messages: seq<CString>, p: PeerInput)
      modifies this
      ensures State() == ServerModel.ServeSocket(old(State()), socket, messages, p)
    {
      if socket !in open {
        return;
      }
      var failed := SendAll(socket, messages, p.send);
      if failed {
        return;
      }
      var handled := HandleError(socket, p.availableFailed);
      if handled {
        return;
      }
      handled := HandleError(socket, p.receiveFailed);
      if handled {
        return;
      }
      if |p.buffer| > 0 {
        events := events + [MessageReceived(p.buffer)];
      }
    }

    /** Sends the messages in order; the first failed send closes the socket and ends the loop. */
    method SendAll(socket: SocketId, messages: seq<CString>, outcome: SendOutcome) returns (failed: bool)
      requires socket in open
      modifies this`events, this`open, this`toRemove
      ensures failed == SendFails(outcome, |messages|)
      ensures var t := old(State()).(events := old(events) + SentEvents(socket, messages[..SentCount(outcome, |messages|)]));
        State() == if failed then CloseAndRecord(t, socket) else t
    {
      failed := false;
      var j := 0;
      while j < |messages|
        invariant j <= |messages| && j <= SentCount(outcome, |messages|)
        invariant State() == old(State()).(events := old(events) + SentEvents(socket, messages[..j]))
        invariant j == SentCount(outcome, |messages|) ==> !SendFails(outcome, |messages|) || outcome.index == j
      {
        if outcome.FailsAt? && outcome.index == j {
          failed := HandleError(socket, true);
          return;
        }
        assert messages[..j + 1][..j] == messages[..j];
        events := events + [Sent(socket, messages[j])];
        j := j + 1;
      }
    }
  }
}
