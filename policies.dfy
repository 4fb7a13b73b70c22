/** The five transition policies. Each consumes a state value and the
    outcome of the matching system call (an abstract boolean, or the
    accepted child handle with its peer), and returns the new state, if
    any, together with what is left of the source. On success the handle
    is moved out of the source; on failure the source is returned as it
    was. Which variant applies is decided by the protocol's
    connectionless flag alone. */
module Policies {
  import opened Wrappers
  import MBind
  import opened InAddress
  import opened SocketStates

  /** A transition's result: the new state if the call succeeded, and the
      residual source object. */
  datatype Moved<S> = Moved(next: Option<S>, source: State)

  /** Success moves the whole handle into the new state and leaves the
      source empty; failure returns the source untouched. */
  predicate MovesHandle<S>(from: State, r: Moved<S>, ok: bool, handleOfNext: S -> Handle)
  {
    && (r.next.Some? <==> ok)
    && (ok ==> handleOfNext(r.next.value) == HandleOf(from)
               && r.source == WithHandle(from, HandleOf(from).MovedFrom()))
    && (!ok ==> r.source == from)
  }

  /** The source state with its handle replaced (what `std::move(m_impl)`
      leaves behind). */
  function WithHandle(st: State, h: Handle): (r: State)
    ensures HandleOf(r) == h
  {
    match st
    case Unbound(s) => Unbound(Socket(h))
    case Bound(b) => Bound(b.(impl := h))
    case Listening(l) => Listening(l.(impl := h))
    case Active(a) => Active(a.(impl := h))
  }

  function ImplOfBinded(b: BindedSocket): Handle { b.impl }
  function ImplOfListening(l: ListeningSocket): Handle { l.impl }
  function ImplOfActive(a: ActiveSocket): Handle { a.impl }

  // ---------------------------------------------------------------- bind

  /** `bind` for connection-oriented protocols: Unbound -> Bound. */
  function StreamBind(s: Socket, local: AddressPort, ok: bool): (r: Moved<BindedSocket>)
    ensures MovesHandle(Unbound(s), r, ok, ImplOfBinded)
    ensures r.next.Some? ==> r.next.value.Local() == local
  {
    if ok then Moved(Some(BindedSocket(s.impl, local)), Unbound(Socket(s.impl.MovedFrom())))
    else Moved(None, Unbound(s))
  }

  /** `bind` for connectionless protocols: Unbound -> Active, with no
      remote, the bound address as local, and not accepted. */
  function DatagramBind(s: Socket, local: AddressPort, ok: bool): (r: Moved<ActiveSocket>)
    ensures MovesHandle(Unbound(s), r, ok, ImplOfActive)
    ensures r.next.Some? ==> r.next.value.Remote() == None && r.next.value.Local() == Some(local)
                             && !r.next.value.Accepted()
  {
    if ok then Moved(Some(NewActive(s.impl, None, Some(local))), Unbound(Socket(s.impl.MovedFrom())))
    else Moved(None, Unbound(s))
  }

  /** `bind`, the variant chosen by the connectionless flag. */
  function Bind(connectionless: bool, s: Socket, local: AddressPort, ok: bool): (r: Moved<State>)
    ensures r.next.Some? ==> (if connectionless then r.next.value.Active? else r.next.value.Bound?)
  {
    if connectionless then
      var m := DatagramBind(s, local, ok);
      Moved(MBind.Bind(m.next, (a: ActiveSocket) => Some(Active(a))), m.source)
    else
      var m := StreamBind(s, local, ok);
      Moved(MBind.Bind(m.next, (b: BindedSocket) => Some(Bound(b))), m.source)
  }

  // ------------------------------------------------------------- connect

  /** `has_local_addr`: the source record type has an `m_local` member,
      which among connect's sources is true of Bound only. */
  function SourceLocal(st: State): Option<AddressPort>
    requires st.Unbound? || st.Bound?
  {
    if st.Bound? then Some(st.binded.local) else None
  }

  /** `connect` for connection-oriented protocols, from Unbound or Bound:
      the Active state records the remote, keeps the source's local
      address if it has one, and is not accepted. Connectionless
      protocols have no connect at all. */
  function Connect(connectionless: bool, st: State, remote: AddressPort, ok: bool): (r: Moved<ActiveSocket>)
    requires ConnectOp in Capabilities(connectionless, st)
    ensures MovesHandle(st, r, ok, ImplOfActive)
    ensures r.next.Some? ==> r.next.value.Remote() == Some(remote) && !r.next.value.Accepted()
    ensures r.next.Some? && st.Unbound? ==> r.next.value.Local() == None
    ensures r.next.Some? && st.Bound? ==> r.next.value.Local() == Some(st.binded.Local())
  {
    if ok then Moved(Some(NewActive(HandleOf(st), Some(remote), SourceLocal(st))),
                     WithHandle(st, HandleOf(st).MovedFrom()))
    else Moved(None, st)
  }

  // -------------------------------------------------------------- listen

  /** `listen` for connection-oriented protocols: Bound -> Listening with
      the requested backlog and the Bound state's local address.
      Datagram protocols have no listen. */
  function Listen(connectionless: bool, b: BindedSocket, maxConn: Unsigned, ok: bool): (r: Moved<ListeningSocket>)
    requires ListenOp in Capabilities(connectionless, Bound(b))
    ensures MovesHandle(Bound(b), r, ok, ImplOfListening)
    ensures r.next.Some? ==> r.next.value.MaxConn() == maxConn && r.next.value.Local() == b.Local()
  {
    if ok then Moved(Some(ListeningSocket(maxConn, b.Local(), b.impl)), Bound(b.(impl := b.impl.MovedFrom())))
    else Moved(None, Bound(b))
  }

  // -------------------------------------------------------------- accept

  /** `accept` for connection-oriented protocols. It is `const`: the
      listening state is not an output. `child` is what the handle-level
      accept returned: the new connection's handle and its peer, or
      nothing. The new Active is accepted, its remote is the peer and its
      local is the listening address. */
  function Accept(connectionless: bool, l: ListeningSocket, child: Option<(Handle, AddressPort)>): (r: Option<ActiveSocket>)
    requires AcceptOp in Capabilities(connectionless, Listening(l))
    ensures r.Some? <==> child.Some?
    ensures r.Some? ==> r.value.Accepted() && r.value.impl == child.value.0
                        && r.value.Remote() == Some(child.value.1) && r.value.Local() == Some(l.Local())
  {
    MBind.Bind(child, (c: (Handle, AddressPort)) => Some(NewActive(c.0, Some(c.1), Some(l.Local()), true)))
  }

  // ----------------------------------------------------------- send/recv

  /** The call an Active socket's send or receive issues on its handle. */
  datatype HandleCall =
    | SendCall(handle: Handle, size: nat, flags: int)
    | SendToCall(handle: Handle, remote: AddressPort, size: nat, flags: int)
    | ReceiveCall(handle: Handle, size: nat, flags: int)
    | ReceiveFromCall(handle: Handle, size: nat, flags: int)

  /** What a send or receive does: the call it issues on the handle, and
      the reply it hands back to its caller. */
  datatype Delegated<R> = Delegated(call: HandleCall, reply: R)

  /** Connection-oriented send: `handle.send(buffer, size, flags)`, no
      address. `reply` is the handle's byte count, or nothing on failure. */
  function StreamSend(connectionless: bool, a: ActiveSocket, size: nat, flags: int,
                      reply: Option<nat>): (r: Delegated<Option<nat>>)
    requires !connectionless
    ensures r.call.SendCall? && r.call.handle == a.impl
    ensures r.call.size == size && r.call.flags == flags
    ensures r.reply == reply
  {
    Delegated(SendCall(a.impl, size, flags), reply)
  }

  /** Connection-oriented receive: `handle.receive(buffer, size, flags)`;
      the reply is a byte count only. */
  function StreamReceive(connectionless: bool, a: ActiveSocket, size: nat, flags: int,
                         reply: Option<nat>): (r: Delegated<Option<nat>>)
    requires !connectionless
    ensures r.call.ReceiveCall? && r.call.handle == a.impl
    ensures r.call.size == size && r.call.flags == flags
    ensures r.reply == reply
  {
    Delegated(ReceiveCall(a.impl, size, flags), reply)
  }

  /** Connectionless send: an explicit remote, routed to `send_to`; the
      reply is the byte count. */
  function DatagramSend(connectionless: bool, a: ActiveSocket, remote: AddressPort, size: nat, flags: int,
                        reply: Option<nat>): (r: Delegated<Option<nat>>)
    requires connectionless
    ensures r.call.SendToCall? && r.call.handle == a.impl && r.call.remote == remote
    ensures r.call.size == size && r.call.flags == flags
    ensures r.reply == reply
  {
    Delegated(SendToCall(a.impl, remote, size, flags), reply)
  }

  /** Connectionless receive: `receive_from`, whose reply pairs the peer
      address with the byte count. */
  function DatagramReceive(connectionless: bool, a: ActiveSocket, size: nat, flags: int,
                           reply: Option<(AddressPort, nat)>): (r: Delegated<Option<(AddressPort, nat)>>)
    requires connectionless
    ensures r.call.ReceiveFromCall? && r.call.handle == a.impl
    ensures r.call.size == size && r.call.flags == flags
    ensures r.reply == reply
  {
    Delegated(ReceiveFromCall(a.impl, size, flags), reply)
  }

  /** Send and receive never change the socket and pass the handle's reply
      through: whatever the handle answers, the caller gets exactly that,
      and two answers the handle gives are told apart by the caller. Only
      the connectionless send names a peer, and the two protocol kinds
      never issue the same call. */
  lemma SendReceiveDelegation(a: ActiveSocket, remote: AddressPort, size: nat, flags: int,
                              n: Option<nat>, m: Option<nat>, p: Option<(AddressPort, nat)>)
    ensures StreamSend(false, a, size, flags, n).reply == n
    ensures StreamReceive(false, a, size, flags, n).reply == n
    ensures DatagramSend(true, a, remote, size, flags, n).reply == n
    ensures DatagramReceive(true, a, size, flags, p).reply == p
    ensures n != m ==> StreamSend(false, a, size, flags, n) != StreamSend(false, a, size, flags, m)
    ensures StreamSend(false, a, size, flags, n).call != DatagramSend(true, a, remote, size, flags, n).call
    ensures StreamReceive(false, a, size, flags, n).call != DatagramReceive(true, a, size, flags, p).call
    ensures StreamSend(false, a, size, flags, n).call == StreamSend(false, a, size, flags, m).call
  {
  }

  // ---------------------------------------------------- handle ownership

  /** What a transition's new state owns. */
  function OwnedByNext<S>(r: Moved<S>, handleOfNext: S -> Handle): multiset<int>
  {
    if r.next.Some? then handleOfNext(r.next.value).Owned() else multiset{}
  }

  /** A move neither duplicates nor loses a descriptor: what the new state
      and the residual source own together is what the source owned, and
      after a success the source owns nothing. */
  lemma {:induction false} MoveConservesHandles<S>(from: State, r: Moved<S>, ok: bool, handleOfNext: S -> Handle)
    requires MovesHandle(from, r, ok, handleOfNext)
    ensures OwnedByNext(r, handleOfNext) + OwnedBy(r.source) == OwnedBy(from)
    ensures ok ==> OwnedBy(r.source) == multiset{}
  {
    if ok {
      assert HandleOf(r.source) == HandleOf(from).MovedFrom();
    }
  }

  function ImplOfState(st: State): Handle { HandleOf(st) }

  /** bind conserves descriptors, for both protocol kinds. */
  lemma BindConservesHandles(connectionless: bool, s: Socket, local: AddressPort, ok: bool)
    ensures var r := Bind(connectionless, s, local, ok);
            OwnedByNext(r, ImplOfState) + OwnedBy(r.source) == s.impl.Owned()
  {
    if connectionless {
      MoveConservesHandles(Unbound(s), DatagramBind(s, local, ok), ok, ImplOfActive);
    } else {
      MoveConservesHandles(Unbound(s), StreamBind(s, local, ok), ok, ImplOfBinded);
    }
  }

  /** connect conserves descriptors. */
  lemma ConnectConservesHandles(connectionless: bool, st: State, remote: AddressPort, ok: bool)
    requires ConnectOp in Capabilities(connectionless, st)
    ensures var r := Connect(connectionless, st, remote, ok);
            OwnedByNext(r, ImplOfActive) + OwnedBy(r.source) == OwnedBy(st)
  {
    MoveConservesHandles(st, Connect(connectionless, st, remote, ok), ok, ImplOfActive);
  }

  /** listen conserves descriptors. */
  lemma ListenConservesHandles(connectionless: bool, b: BindedSocket, maxConn: Unsigned, ok: bool)
    requires ListenOp in Capabilities(connectionless, Bound(b))
    ensures var r := Listen(connectionless, b, maxConn, ok);
            OwnedByNext(r, ImplOfListening) + OwnedBy(r.source) == b.impl.Owned()
  {
    MoveConservesHandles(Bound(b), Listen(connectionless, b, maxConn, ok), ok, ImplOfListening);
  }

  /** A failed transition of any kind leaves the source exactly as it was. */
  lemma FailureKeepsSource(connectionless: bool, st: State, local: AddressPort,
                           remote: AddressPort, maxConn: Unsigned)
    ensures st.Unbound? ==> Bind(connectionless, st.socket, local, false) == Moved(None, st)
    ensures ConnectOp in Capabilities(connectionless, st) ==>
              Connect(connectionless, st, remote, false) == Moved(None, st)
    ensures ListenOp in Capabilities(connectionless, st) ==>
              Listen(connectionless, st.binded, maxConn, false) == Moved(None, st)
  {
  }

  /** Bind, then listen, then accept: the accepted socket's local address
      is the address the server bound, port included. */
  lemma AcceptedLocalIsBoundAddress(s: Socket, local: AddressPort, maxConn: Unsigned,
                                    child: (Handle, AddressPort))
    ensures var b := StreamBind(s, local, true).next.value;
            var l := Listen(false, b, maxConn, true).next.value;
            var a := Accept(false, l, Some(child)).value;
            a.Accepted() && a.Local() == Some(local) && a.Local().value.port == local.port
            && a.Remote() == Some(child.1)
  {
  }
}
