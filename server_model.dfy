/**
 * The socket registry of SocketServer (src/socketserver.cpp) as functions over
 * a value holding every field the server updates.
 *
 * Sockets are handles (`SocketId`), allocated fresh by `createNewSocket`. A
 * socket is *armed* while its asynchronous accept is pending, *open* once a
 * peer connected and until an error closes it, and *recorded for removal*
 * when an accept fails or an error closes it; the next `process` erases the
 * recorded sockets from the registry. What asio reports for one socket during
 * one `process` is a PeerInput; what the server sends and the messages it
 * receives are appended to `events`.
 */
module ServerModel {
  import opened Packet
  import opened Errors
  import opened Vectors
  import Adapter

  type SocketId = nat

  /** Where the acceptor listens: any local address, or a parsed one. */
  datatype BindAddress = Unbound | AnyAddress | Address(text: string)

  /** How the sends of one socket went: all succeeded, or the one at `index` failed. */
  datatype SendOutcome = AllSent | FailsAt(index: nat)

  /**
   * What asio reports for one open socket during one `process`: the sends,
   * whether `available()` failed, whether `receive` failed, and the prepared
   * receive buffer (its length is the number of bytes `available()` reported).
   */
  datatype PeerInput = PeerInput(send: SendOutcome, availableFailed: bool, receiveFailed: bool, buffer: CString)

  datatype Event = Sent(socket: SocketId, message: CString) | MessageReceived(message: CString)

  datatype Server = Server(
    sockets: seq<SocketId>,    // mSockets, in creation order
    open: set<SocketId>,
    toRemove: seq<SocketId>,   // mSocketsToRemove
    armed: set<SocketId>,      // sockets with a pending async_accept
    nextSocket: SocketId,
    queue: seq<CString>,       // mQueue
    bind: BindAddress,
    events: seq<Event>)

  function Empty(): Server {
    Server([], {}, [], {}, 0, [], Unbound, [])
  }

  /**
   * The registry invariant: no socket is listed twice; every open, armed or
   * recorded socket is in the registry; a socket is at most one of open,
   * armed and recorded; and every handle was allocated.
   */
  predicate Valid(s: Server) {
    && NoDup(s.sockets) && NoDup(s.toRemove)
    && (forall x :: x in s.toRemove ==> x in s.sockets)
    && (forall x :: x in s.open ==> x in s.sockets)
    && (forall x :: x in s.armed ==> x in s.sockets)
    && (forall x :: x in s.open ==> x !in s.armed && x !in s.toRemove)
    && (forall x :: x in s.armed ==> x !in s.toRemove)
    && (forall x :: x in s.sockets ==> x < s.nextSocket)
  }

  // ---------------------------------------------------------------------------
  // Sockets entering and leaving

  /** `createNewSocket`: a fresh socket joins the registry with an accept pending on it. */
  function CreateNewSocket(s: Server): (r: Server)
    ensures r.sockets == s.sockets + [s.nextSocket] && r.armed == s.armed + {s.nextSocket}
    ensures r == s.(sockets := r.sockets, armed := r.armed, nextSocket := s.nextSocket + 1)
  {
    s.(sockets := s.sockets + [s.nextSocket], armed := s.armed + {s.nextSocket}, nextSocket := s.nextSocket + 1)
  }

  /** The socket is closed and recorded for removal (the error half of `handleError`). */
  function CloseAndRecord(s: Server, socket: SocketId): Server {
    s.(open := s.open - {socket}, toRemove := s.toRemove + [socket])
  }

  /**
   * `handleAccept`: the accept on `socket` completed. Without error the peer is
   * connected and whatever it already sent is read and discarded; with an
   * error the socket is recorded for removal (it was never opened). Either
   * way a new socket is armed, so the server keeps accepting.
   */
  function HandleAccept(s: Server, socket: SocketId, error: bool): (r: Server)
    requires socket in s.armed
    ensures r.sockets == s.sockets + [s.nextSocket] && s.nextSocket in r.armed
    ensures r.queue == s.queue && r.events == s.events && r.bind == s.bind
  {
    var t := s.(armed := s.armed - {socket});
    if !error then CreateNewSocket(t.(open := t.open + {socket}))
    else CreateNewSocket(t.(toRemove := t.toRemove + [socket]))
  }

  /** `send`: `try_enqueue` stores the message only when the queue has `room`; nothing else is checked. */
  function Send(s: Server, message: CString, room: bool): Server {
    if room then s.(queue := s.queue + [message]) else s
  }

  /** `clearQueue`. */
  function ClearQueue(s: Server): Server {
    s.(queue := [])
  }

  /**
   * `onDestroy`: every socket is closed and the registry emptied; the list of
   * sockets recorded for removal is left as it was.
   */
  function OnDestroy(s: Server): (r: Server)
    ensures r.sockets == [] && r.open == {} && r.armed == {} && r.toRemove == s.toRemove
  {
    s.(sockets := [], open := {}, armed := {})
  }

  /**
   * `init`: an empty address binds to any local address, otherwise the address
   * is parsed (`parseError` is the outcome) and a parse error goes through
   * `handleAsioError`; then the first socket is armed. The adapter's own
   * `init` passes, because the server is modelled with its required thread
   * bound (the acceptor and the socket are built on that thread's context
   * before the check could run).
   */
  function Init(s: Server, address: string, parseError: AsioError, allowFailure: bool,
                errorState: ErrorState): (r: (bool, Server, ErrorState))
    ensures !r.0 ==> r.1 == s
    ensures r.1.queue == s.queue && r.1.events == s.events && r.1.open == s.open && r.1.toRemove == s.toRemove
    ensures r.1.armed == s.armed || r.1.armed == s.armed + {s.nextSocket}
  {
    var o := Adapter.HandleAsioError(if address == [] then NoError else parseError, allowFailure, false, errorState);
    if o.handled then (o.success, s, o.errors)
    else (true, CreateNewSocket(s.(bind := if address == [] then AnyAddress else Address(address))), o.errors)
  }

  // ---------------------------------------------------------------------------
  // The removal sweep

  /** The elements of `xs` that do not occur in `rs`, in order. */
  function Without(xs: seq<SocketId>, rs: seq<SocketId>): seq<SocketId> {
    if xs == [] then []
    else (if xs[0] in rs then [] else [xs[0]]) + Without(xs[1..], rs)
  }

  /** One iteration of the sweep, with the `itr != end()` guard in effect. */
  function Drop(xs: seq<SocketId>, x: SocketId): seq<SocketId> {
    if x in xs then EraseFirst(xs, x) else xs
  }

  /** The removal loop of `process`: each recorded socket, in order, is erased from the registry if present. */
  function Sweep(xs: seq<SocketId>, rs: seq<SocketId>): (r: seq<SocketId>)
    ensures |r| <= |xs|
    ensures forall y :: y in r ==> y in xs
  {
    if rs == [] then xs else Drop(Sweep(xs, rs[..|rs| - 1]), rs[|rs| - 1])
  }

  /** The outcome of the removal loop as written: the new registry, or undefined behaviour. */
  datatype SweepOutcome = Undefined | Swept(sockets: seq<SocketId>)

  /**
   * The same loop as written: the statement after `if (itr != mSockets.end())`
   * is empty, so `erase` runs whether or not the socket was found, and erasing
   * the end iterator is undefined behaviour.
   */
  function SweepAsWritten(xs: seq<SocketId>, rs: seq<SocketId>): (r: SweepOutcome)
    ensures r.Swept? ==> |r.sockets| + |rs| == |xs|
  {
    if rs == [] then Swept(xs)
    else match SweepAsWritten(xs, rs[..|rs| - 1])
      case Undefined => Undefined
      case Swept(ys) => if rs[|rs| - 1] in ys then Swept(EraseFirst(ys, rs[|rs| - 1])) else Undefined
  }

  /** Filtering keeps exactly the elements not removed. */
  lemma {:induction false} WithoutMembers(xs: seq<SocketId>, rs: seq<SocketId>, y: SocketId)
    ensures y in Without(xs, rs) <==> y in xs && y !in rs
  {
    if xs != [] {
      WithoutMembers(xs[1..], rs, y);
      assert xs == [xs[0]] + xs[1..];
    }
  }

  lemma {:induction false} WithoutNothing(xs: seq<SocketId>, rs: seq<SocketId>)
    requires forall x :: x in xs ==> x !in rs
    ensures Without(xs, rs) == xs
  {
    if xs != [] {
      WithoutNothing(xs[1..], rs);
      assert xs == [xs[0]] + xs[1..];
    }
  }

  lemma {:induction false} WithoutWithout(xs: seq<SocketId>, a: seq<SocketId>, b: seq<SocketId>)
    ensures Without(Without(xs, a), b) == Without(xs, a + b)
  {
    if xs != [] {
      WithoutWithout(xs[1..], a, b);
      var w := Without(xs, a);
      if xs[0] in a {
        assert w == Without(xs[1..], a);
        assert Without(xs, a + b) == Without(xs[1..], a + b);
      } else {
        assert w == [xs[0]] + Without(xs[1..], a);
        assert w[0] == xs[0] && w[1..] == Without(xs[1..], a);
      }
    }
  }

  lemma {:induction false} WithoutNoDup(xs: seq<SocketId>, rs: seq<SocketId>)
    requires NoDup(xs)
    ensures NoDup(Without(xs, rs))
  {
    if xs != [] {
      assert NoDup(xs[1..]);
      WithoutNoDup(xs[1..], rs);
      var w := Without(xs[1..], rs);
      if xs[0] !in rs {
        WithoutMembers(xs[1..], rs, xs[0]);
        assert xs[0] !in xs[1..];
        forall i, j | 0 <= i < j < |[xs[0]] + w| ensures ([xs[0]] + w)[i] != ([xs[0]] + w)[j] {
          if i == 0 {
            assert ([xs[0]] + w)[j] == w[j - 1];
          }
        }
      }
    }
  }

  /** On a registry without duplicates, erasing the first occurrence of `x` removes every occurrence. */
  lemma {:induction false} DropIsWithout(xs: seq<SocketId>, x: SocketId)
    requires NoDup(xs)
    ensures Drop(xs, x) == Without(xs, [x])
  {
    if xs == [] {
    } else if xs[0] == x {
      assert FirstIndex(xs, x) == 0;
      assert x !in xs[1..] by {
        forall i | 0 <= i < |xs[1..]| ensures xs[1..][i] != x {
          assert xs[1..][i] == xs[i + 1];
        }
      }
      WithoutNothing(xs[1..], [x]);
    } else {
      assert NoDup(xs[1..]);
      DropIsWithout(xs[1..], x);
      if x in xs {
        assert x in xs[1..] by { assert xs == [xs[0]] + xs[1..]; }
        var k := FirstIndex(xs[1..], x);
        assert FirstIndex(xs, x) == k + 1;
        assert xs[..k + 1] + xs[k + 2..] == [xs[0]] + (xs[1..][..k] + xs[1..][k + 1..]);
      } else {
        assert x !in xs[1..];
        WithoutNothing(xs[1..], [x]);
      }
    }
  }

  /**
   * On a registry without duplicates the sweep keeps exactly the sockets that
   * were not recorded, in their original order.
   */
  lemma {:induction false} SweepIsWithout(xs: seq<SocketId>, rs: seq<SocketId>)
    requires NoDup(xs)
    ensures Sweep(xs, rs) == Without(xs, rs)
  {
    if rs == [] {
      WithoutNothing(xs, []);
    } else {
      var init := rs[..|rs| - 1];
      var last := rs[|rs| - 1];
      SweepIsWithout(xs, init);
      WithoutNoDup(xs, init);
      DropIsWithout(Sweep(xs, init), last);
      WithoutWithout(xs, init, [last]);
      assert init + [last] == rs;
    }
  }

  /**
   * As long as every recorded socket is in the registry and none is recorded
   * twice, the loop as written is defined and agrees with the guarded one.
   */
  lemma {:induction false} SweepAsWrittenAgrees(xs: seq<SocketId>, rs: seq<SocketId>)
    requires NoDup(xs) && NoDup(rs)
    requires forall x :: x in rs ==> x in xs
    ensures SweepAsWritten(xs, rs) == Swept(Sweep(xs, rs))
  {
    if rs != [] {
      var init := rs[..|rs| - 1];
      var last := rs[|rs| - 1];
      assert rs == init + [last];
      NoDupSnoc(init, last);
      SweepAsWrittenAgrees(xs, init);
      SweepIsWithout(xs, init);
      WithoutMembers(xs, init, last);
    }
  }

  /**
   * The two loops part ways after `onDestroy`: it empties the registry but
   * keeps the recorded sockets, so a `process` that follows erases the end
   * iterator. A failed accept is enough to record a socket.
   */
  lemma SweepAfterDestroyUndefined(address: string)
    ensures var (_, s, _) := Init(Empty(), address, NoError, false, ErrorState([]));
      var t := OnDestroy(HandleAccept(s, 0, true));
      t.toRemove == [0] && SweepAsWritten(t.sockets, t.toRemove) == Undefined && Sweep(t.sockets, t.toRemove) == []
  {
    var (_, s, _) := Init(Empty(), address, NoError, false, ErrorState([]));
    assert s.armed == {0};
    var t := OnDestroy(HandleAccept(s, 0, true));
    assert t.toRemove == [0];
    assert t.toRemove[..0] == [];
  }

  // ---------------------------------------------------------------------------
  // Serving the open sockets

  /** How many of `count` queued messages reach the socket. */
  function SentCount(outcome: SendOutcome, count: nat): (n: nat)
    ensures n <= count
    ensures outcome.AllSent? ==> n == count
    ensures outcome.FailsAt? ==> n == if outcome.index < count then outcome.index else count
  {
    match outcome
    case AllSent => count
    case FailsAt(i) => if i < count then i else count
  }

  predicate SendFails(outcome: SendOutcome, count: nat) {
    outcome.FailsAt? && outcome.index < count
  }

  /** The socket meets an error during its turn: a send, `available()` or `receive`. */
  predicate Fails(p: PeerInput, count: nat) {
    SendFails(p.send, count) || p.availableFailed || p.receiveFailed
  }

  function SentEvents(socket: SocketId, messages: seq<CString>): (r: seq<Event>)
    ensures |r| == |messages|
  {
    if messages == [] then []
    else SentEvents(socket, messages[..|messages| - 1]) + [Sent(socket, messages[|messages| - 1])]
  }

  /**
   * One socket's turn in `process`: a socket that is not open is skipped;
   * otherwise the messages are sent in order until one fails, then
   * `available()`, then `receive`; the first error closes the socket, records
   * it and ends its turn. A non-empty receive buffer is fired as one message.
   */
  function ServeSocket(s: Server, socket: SocketId, messages: seq<CString>, p: PeerInput): (r: Server)
    ensures s.events <= r.events && r.open <= s.open
    ensures r.toRemove == s.toRemove || r.toRemove == s.toRemove + [socket]
    ensures r.sockets == s.sockets && r.armed == s.armed && r.queue == s.queue
  {
    if socket !in s.open then s
    else
      var t := s.(events := s.events + SentEvents(socket, messages[..SentCount(p.send, |messages|)]));
      if Fails(p, |messages|) then CloseAndRecord(t, socket)
      else if |p.buffer| > 0 then t.(events := t.events + [MessageReceived(p.buffer)])
      else t
  }

  /** The sockets of `socks`, served in order. */
  function ServeAll(s: Server, socks: seq<SocketId>, messages: seq<CString>, peers: SocketId -> PeerInput): (r: Server)
    ensures s.events <= r.events && r.queue == s.queue && |r.toRemove| <= |s.toRemove| + |socks|
  {
    if socks == [] then s
    else
      var last := socks[|socks| - 1];
      ServeSocket(ServeAll(s, socks[..|socks| - 1], messages, peers), last, messages, peers(last))
  }

  /** `process`: drain the queue, sweep the recorded sockets, then serve every socket in the registry. */
  function Process(s: Server, peers: SocketId -> PeerInput): (r: Server)
    ensures r.queue == [] && s.events <= r.events && |r.toRemove| <= |s.sockets|
  {
    var t := s.(queue := [], sockets := Sweep(s.sockets, s.toRemove), toRemove := []);
    ServeAll(t, t.sockets, s.queue, peers)
  }

  // ---------------------------------------------------------------------------
  // Properties

  lemma CreateNewSocketValid(s: Server)
    requires Valid(s)
    ensures Valid(CreateNewSocket(s)) && s.nextSocket !in s.sockets
  {
  }

  lemma InitValid(address: string, parseError: AsioError, allowFailure: bool, errorState: ErrorState)
    ensures var (ok, s, errors) := Init(Empty(), address, parseError, allowFailure, errorState);
      var failed := address != [] && parseError.IsError();
      && Valid(s)
      && (ok <==> !failed || allowFailure)
      && (s.armed == {0} <==> !failed)
      && (!failed ==> s.bind == if address == [] then AnyAddress else Address(address))
      && (failed ==> s == Empty() && errors == if allowFailure then errorState else errorState.Fail(parseError.message))
  {
  }

  /** `init` from any valid server keeps the registry valid. */
  lemma InitKeepsValid(s: Server, address: string, parseError: AsioError, allowFailure: bool, errorState: ErrorState)
    requires Valid(s)
    ensures Valid(Init(s, address, parseError, allowFailure, errorState).1)
  {
    CreateNewSocketValid(s.(bind := if address == [] then AnyAddress else Address(address)));
  }

  /** `send` touches only the queue, so the registry stays valid. */
  lemma SendValid(s: Server, message: CString, room: bool)
    requires Valid(s)
    ensures Valid(Send(s, message, room)) && Send(s, message, room).(queue := s.queue) == s
  {
  }

  /** `clearQueue` empties the queue, changes nothing else and keeps the registry valid. */
  lemma ClearQueueValid(s: Server)
    requires Valid(s)
    ensures var r := ClearQueue(s); Valid(r) && r.queue == [] && r.(queue := s.queue) == s
  {
  }

  /** An accept keeps the registry valid and settles the socket: connected and open, or recorded for removal. */
  lemma HandleAcceptValid(s: Server, socket: SocketId, error: bool)
    requires Valid(s) && socket in s.armed
    ensures var r := HandleAccept(s, socket, error);
      && Valid(r)
      && (!error <==> socket in r.open)
      && (error <==> socket in r.toRemove)
  {
    NoDupSnoc(s.sockets, s.nextSocket);
    if error {
      NoDupSnoc(s.toRemove, socket);
    }
  }

  /** An accept always leaves exactly as many accepts pending as before: the server keeps listening. */
  lemma HandleAcceptRearms(s: Server, socket: SocketId, error: bool)
    requires Valid(s) && socket in s.armed
    ensures var r := HandleAccept(s, socket, error);
      && r.armed == s.armed - {socket} + {s.nextSocket}
      && |r.armed| == |s.armed|
  {
    var t := s.armed - {socket};
    assert s.nextSocket !in t;
    assert |t + {s.nextSocket}| == |t| + 1;
  }

  lemma SendSpec(s: Server, message: CString, room: bool)
    ensures Send(s, message, room).queue == (if room then s.queue + [message] else s.queue)
    ensures Send(s, message, room) == s.(queue := Send(s, message, room).queue)
  {
  }

  lemma {:induction false} ServeAllKeeps(s: Server, socks: seq<SocketId>, messages: seq<CString>, peers: SocketId -> PeerInput)
    ensures var r := ServeAll(s, socks, messages, peers);
      && r.sockets == s.sockets && r.armed == s.armed && r.queue == s.queue && r.nextSocket == s.nextSocket
      && r.bind == s.bind && r.open <= s.open
  {
    if socks != [] {
      ServeAllKeeps(s, socks[..|socks| - 1], messages, peers);
    }
  }

  /** One socket's turn keeps the registry valid: a failing socket is closed and recorded once. */
  lemma ServeSocketValid(s: Server, socket: SocketId, messages: seq<CString>, p: PeerInput)
    requires Valid(s)
    ensures Valid(ServeSocket(s, socket, messages, p))
  {
    if socket in s.open {
      NoDupSnoc(s.toRemove, socket);
    }
  }

  lemma {:induction false} ServeAllValid(s: Server, socks: seq<SocketId>, messages: seq<CString>, peers: SocketId -> PeerInput)
    requires Valid(s)
    ensures Valid(ServeAll(s, socks, messages, peers))
  {
    if socks != [] {
      var init := socks[..|socks| - 1];
      var last := socks[|socks| - 1];
      ServeAllValid(s, init, messages, peers);
      ServeSocketValid(ServeAll(s, init, messages, peers), last, messages, peers(last));
    }
  }

  /** `process` keeps the registry valid, empties the queue, and erases every socket recorded before it. */
  lemma ProcessValid(s: Server, peers: SocketId -> PeerInput)
    requires Valid(s)
    ensures var r := Process(s, peers);
      && Valid(r)
      && r.queue == []
      && r.sockets == Without(s.sockets, s.toRemove)
      && (forall x :: x in s.toRemove ==> x !in r.sockets)
      && r.armed == s.armed && r.open <= s.open
  {
    SweepIsWithout(s.sockets, s.toRemove);
    WithoutNoDup(s.sockets, s.toRemove);
    var w := Without(s.sockets, s.toRemove);
    forall x ensures x in w <==> x in s.sockets && x !in s.toRemove {
      WithoutMembers(s.sockets, s.toRemove, x);
    }
    var t := s.(queue := [], sockets := w, toRemove := []);
    assert Valid(t);
    ServeAllValid(t, t.sockets, s.queue, peers);
    ServeAllKeeps(t, t.sockets, s.queue, peers);
  }

  // ---------------------------------------------------------------------------
  // Broadcast

  lemma SliceSplit(a: seq<Event>, b: seq<Event>, c: seq<Event>)
    requires a <= b <= c
    ensures a <= c && c[|a|..] == b[|a|..] + c[|b|..]
  {
  }

  /** The messages sent to `socket`, in order. */
  function SentTo(events: seq<Event>, socket: SocketId): seq<CString> {
    if events == [] then []
    else
      var e := events[|events| - 1];
      SentTo(events[..|events| - 1], socket) + (if e.Sent? && e.socket == socket then [e.message] else [])
  }

  lemma {:induction false} SentToAppend(a: seq<Event>, b: seq<Event>, socket: SocketId)
    ensures SentTo(a + b, socket) == SentTo(a, socket) + SentTo(b, socket)
  {
    if b == [] {
      assert a + b == a;
    } else {
      assert (a + b)[..|a + b| - 1] == a + b[..|b| - 1];
      assert (a + b)[|a + b| - 1] == b[|b| - 1];
      SentToAppend(a, b[..|b| - 1], socket);
    }
  }

  lemma {:induction false} SentToSentEvents(other: SocketId, messages: seq<CString>, socket: SocketId)
    ensures SentTo(SentEvents(other, messages), socket) == if other == socket then messages else []
  {
    if messages != [] {
      var init := messages[..|messages| - 1];
      SentToSentEvents(other, init, socket);
      SentToAppend(SentEvents(other, init), [Sent(other, messages[|messages| - 1])], socket);
      assert [Sent(other, messages[|messages| - 1])][..0] == [];
      if other == socket {
        assert init + [messages[|messages| - 1]] == messages;
      }
    }
  }

  /** What one socket's turn appends to the events: its sends, then possibly one received message. */
  lemma ServeSocketEvents(s: Server, socket: SocketId, messages: seq<CString>, p: PeerInput)
    ensures var r := ServeSocket(s, socket, messages, p);
      var sent := if socket in s.open then SentEvents(socket, messages[..SentCount(p.send, |messages|)]) else [];
      && s.events <= r.events
      && (r.events[|s.events|..] == sent || r.events[|s.events|..] == sent + [MessageReceived(p.buffer)])
  {
    var r := ServeSocket(s, socket, messages, p);
    assert r.events == s.events + r.events[|s.events|..];
  }

  /** A socket's turn sends to that socket only, and only while it is open. */
  lemma ServeSocketSends(s: Server, socket: SocketId, messages: seq<CString>, p: PeerInput, x: SocketId)
    ensures var r := ServeSocket(s, socket, messages, p);
      && s.events <= r.events
      && SentTo(r.events[|s.events|..], x) ==
           if socket == x && socket in s.open then messages[..SentCount(p.send, |messages|)] else []
  {
    ServeSocketEvents(s, socket, messages, p);
    var sentMessages := if socket in s.open then messages[..SentCount(p.send, |messages|)] else [];
    var sent := SentEvents(socket, sentMessages);
    SentToSentEvents(socket, sentMessages, x);
    SentToAppend(sent, [MessageReceived(p.buffer)], x);
    assert [MessageReceived(p.buffer)][..0] == [];
  }

  /**
   * Broadcast: every socket open when its turn comes receives the queued
   * messages in queue order, up to the first failed send, whatever happens to
   * the other sockets; no other socket is sent anything.
   */
  lemma {:induction false} ServeAllBroadcasts(s: Server, socks: seq<SocketId>, messages: seq<CString>,
                                             peers: SocketId -> PeerInput, x: SocketId)
    requires NoDup(socks)
    ensures var r := ServeAll(s, socks, messages, peers);
      && s.events <= r.events
      && SentTo(r.events[|s.events|..], x) ==
           if x in socks && x in s.open then messages[..SentCount(peers(x).send, |messages|)] else []
  {
    if socks != [] {
      var init := socks[..|socks| - 1];
      var last := socks[|socks| - 1];
      assert socks == init + [last];
      NoDupSnoc(init, last);
      ServeAllBroadcasts(s, init, messages, peers, x);
      var m := ServeAll(s, init, messages, peers);
      ServeAllOpen(s, init, messages, peers, last);
      var r := ServeSocket(m, last, messages, peers(last));
      ServeSocketSends(m, last, messages, peers(last), x);
      SliceSplit(s.events, m.events, r.events);
      SentToAppend(m.events[|s.events|..], r.events[|m.events|..], x);
    }
  }

  /** A socket not yet served is still open if it was. */
  lemma {:induction false} ServeAllOpen(s: Server, socks: seq<SocketId>, messages: seq<CString>,
                                       peers: SocketId -> PeerInput, x: SocketId)
    requires x !in socks
    ensures x in ServeAll(s, socks, messages, peers).open <==> x in s.open
  {
    if socks != [] {
      var init := socks[..|socks| - 1];
      assert x !in init by {
        forall i | 0 <= i < |init| ensures init[i] != x {
          assert init[i] == socks[i];
        }
      }
      ServeAllOpen(s, init, messages, peers, x);
    }
  }

  /** `process` sends the whole queue, in order, to every open socket that survived the sweep, up to its first failed send. */
  lemma ProcessBroadcasts(s: Server, peers: SocketId -> PeerInput, x: SocketId)
    requires Valid(s)
    ensures var r := Process(s, peers);
      && s.events <= r.events
      && SentTo(r.events[|s.events|..], x) ==
           if x in s.open then s.queue[..SentCount(peers(x).send, |s.queue|)] else []
  {
    SweepIsWithout(s.sockets, s.toRemove);
    WithoutNoDup(s.sockets, s.toRemove);
    WithoutMembers(s.sockets, s.toRemove, x);
    var t := s.(queue := [], sockets := Without(s.sockets, s.toRemove), toRemove := []);
    ServeAllBroadcasts(t, t.sockets, s.queue, peers, x);
  }

  // ---------------------------------------------------------------------------
  // Closing and receiving

  /**
   * Serving the listed sockets closes and records exactly those that were
   * open and met an error; every other socket keeps its state.
   */
  lemma {:induction false} ServeAllCloses(s: Server, socks: seq<SocketId>, messages: seq<CString>,
                                         peers: SocketId -> PeerInput, x: SocketId)
    requires NoDup(socks)
    ensures var r := ServeAll(s, socks, messages, peers);
      var failed := x in socks && x in s.open && Fails(peers(x), |messages|);
      && (x in r.open <==> x in s.open && !failed)
      && (x in r.toRemove <==> x in s.toRemove || failed)
  {
    if socks != [] {
      var init := socks[..|socks| - 1];
      var last := socks[|socks| - 1];
      assert socks == init + [last];
      NoDupSnoc(init, last);
      ServeAllCloses(s, init, messages, peers, x);
      if last == x {
        ServeAllCloses(s, init, messages, peers, last);
      }
    }
  }

  /** The messages received, in order. */
  function Received(events: seq<Event>): seq<CString> {
    if events == [] then []
    else
      var e := events[|events| - 1];
      Received(events[..|events| - 1]) + (if e.MessageReceived? then [e.message] else [])
  }

  /**
   * What serving `socks` should deliver: the non-empty buffer of every socket
   * that is open and meets no error, in registry order.
   */
  function Deliveries(socks: seq<SocketId>, open: set<SocketId>, messages: seq<CString>,
                      peers: SocketId -> PeerInput): seq<CString>
  {
    if socks == [] then []
    else
      var last := socks[|socks| - 1];
      var p := peers(last);
      Deliveries(socks[..|socks| - 1], open, messages, peers)
        + (if last in open && !Fails(p, |messages|) && |p.buffer| > 0 then [p.buffer] else [])
  }

  lemma {:induction false} ReceivedAppend(a: seq<Event>, b: seq<Event>)
    ensures Received(a + b) == Received(a) + Received(b)
  {
    if b == [] {
      assert a + b == a;
    } else {
      assert (a + b)[..|a + b| - 1] == a + b[..|b| - 1];
      assert (a + b)[|a + b| - 1] == b[|b| - 1];
      ReceivedAppend(a, b[..|b| - 1]);
    }
  }

  lemma {:induction false} ReceivedSentEvents(socket: SocketId, messages: seq<CString>)
    ensures Received(SentEvents(socket, messages)) == []
  {
    if messages != [] {
      var init := messages[..|messages| - 1];
      ReceivedSentEvents(socket, init);
      ReceivedAppend(SentEvents(socket, init), [Sent(socket, messages[|messages| - 1])]);
      assert [Sent(socket, messages[|messages| - 1])][..0] == [];
    }
  }

  /** A socket's turn delivers its buffer when it is open, meets no error and received something. */
  lemma ServeSocketReceives(s: Server, socket: SocketId, messages: seq<CString>, p: PeerInput)
    ensures var r := ServeSocket(s, socket, messages, p);
      && s.events <= r.events
      && Received(r.events[|s.events|..]) ==
           if socket in s.open && !Fails(p, |messages|) && |p.buffer| > 0 then [p.buffer] else []
  {
    ServeSocketEvents(s, socket, messages, p);
    var sentMessages := if socket in s.open then messages[..SentCount(p.send, |messages|)] else [];
    var sent := SentEvents(socket, sentMessages);
    ReceivedSentEvents(socket, sentMessages);
    ReceivedAppend(sent, [MessageReceived(p.buffer)]);
    assert [MessageReceived(p.buffer)][..0] == [];
    assert sent == [] + sent;
  }

  /** Serving the sockets delivers exactly `Deliveries`, in registry order. */
  lemma {:induction false} ServeAllReceives(s: Server, socks: seq<SocketId>, messages: seq<CString>,
                                           peers: SocketId -> PeerInput)
    requires NoDup(socks)
    ensures var r := ServeAll(s, socks, messages, peers);
      && s.events <= r.events
      && Received(r.events[|s.events|..]) == Deliveries(socks, s.open, messages, peers)
  {
    if socks != [] {
      var init := socks[..|socks| - 1];
      var last := socks[|socks| - 1];
      assert socks == init + [last];
      NoDupSnoc(init, last);
      ServeAllReceives(s, init, messages, peers);
      var m := ServeAll(s, init, messages, peers);
      ServeAllOpen(s, init, messages, peers, last);
      var r := ServeSocket(m, last, messages, peers(last));
      ServeSocketReceives(m, last, messages, peers(last));
      ServeSocketEvents(m, last, messages, peers(last));
      SliceSplit(s.events, m.events, r.events);
      ReceivedAppend(m.events[|s.events|..], r.events[|m.events|..]);
    }
  }

  /**
   * `process` closes and records exactly the open sockets that meet an error,
   * and fires the buffers of the others that received something, in registry order.
   */
  lemma ProcessClosesAndReceives(s: Server, peers: SocketId -> PeerInput, x: SocketId)
    requires Valid(s)
    ensures var r := Process(s, peers);
      var failed := x in s.open && Fails(peers(x), |s.queue|);
      && (x in r.open <==> x in s.open && !failed)
      && (x in r.toRemove <==> failed)
      && s.events <= r.events
      && Received(r.events[|s.events|..]) == Deliveries(Without(s.sockets, s.toRemove), s.open, s.queue, peers)
  {
    SweepIsWithout(s.sockets, s.toRemove);
    WithoutNoDup(s.sockets, s.toRemove);
    WithoutMembers(s.sockets, s.toRemove, x);
    var t := s.(queue := [], sockets := Without(s.sockets, s.toRemove), toRemove := []);
    ServeAllCloses(t, t.sockets, s.queue, peers, x);
    ServeAllReceives(t, t.sockets, s.queue, peers);
  }
}
