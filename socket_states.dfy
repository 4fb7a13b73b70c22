/** The four socket lifecycle states, each a move-only record that owns
    one native handle: Unbound (`socket_t`), Bound (`binded_socket_t`),
    Listening (`listening_socket_t`) and Active (`active_socket_t`).
    Moving a record moves its handle; the moved-from record keeps an
    empty handle. */
module SocketStates {
  import opened Wrappers
  import opened InAddress

  /** `unsigned` */
  type Unsigned = x: int | 0 <= x < 0x1_0000_0000

  /** `socket_impl`: an optional native descriptor plus the address family
      it was opened for. */
  datatype Handle = Handle(fd: Option<int>, family: int)
  {
    predicate Empty() { fd.None? }

    /** What a move leaves behind in the source object. */
    function MovedFrom(): (h: Handle)
      ensures h.Empty() && h.family == family
    {
      Handle(None, family)
    }

    /** The descriptors this handle owns (zero or one). */
    function Owned(): (m: multiset<int>)
      ensures |m| <= 1
      ensures Empty() <==> m == multiset{}
    {
      if fd.Some? then multiset{fd.value} else multiset{}
    }
  }

  /** Unbound: only a handle, no address. */
  datatype Socket = Socket(impl: Handle)

  /** Bound (connection-oriented protocols only): handle and local address. */
  datatype BindedSocket = BindedSocket(impl: Handle, local: AddressPort)
  {
    function Local(): AddressPort { local }
  }

  /** Listening: handle, local address and backlog. */
  datatype ListeningSocket = ListeningSocket(maxConn: Unsigned, local: AddressPort, impl: Handle)
  {
    function Local(): AddressPort { local }
    function MaxConn(): Unsigned { maxConn }
  }

  /** Active: handle, optional remote, optional local, accepted flag. */
  datatype ActiveSocket = ActiveSocket(impl: Handle, remote: Option<AddressPort>,
                                       local: Option<AddressPort>, accepted: bool)
  {
    function Accepted(): bool { accepted }
    function Remote(): Option<AddressPort> { remote }
    function Local(): Option<AddressPort> { local }
  }

  /** The constructor of `active_socket_t`, whose `accepted` argument
      defaults to false. */
  function NewActive(impl: Handle, remote: Option<AddressPort>, local: Option<AddressPort>,
                     accepted: bool := false): (a: ActiveSocket)
    ensures a.impl == impl && a.Remote() == remote && a.Local() == local
    ensures a.Accepted() == accepted
  {
    ActiveSocket(impl, remote, local, accepted)
  }

  /** Omitting the accepted flag yields a non-accepted socket. */
  lemma NewActiveDefaultsToNotAccepted(impl: Handle, remote: Option<AddressPort>, local: Option<AddressPort>)
    ensures !NewActive(impl, remote, local).Accepted()
  {
  }

  /** `socket_t<Proto>::create(af)`: `newFd` is the descriptor the
      non-blocking `socket` call returned, or None when it failed; failure
      is reported as an empty result, never by throwing. */
  function CreateSocket(af: int, newFd: Option<int>): (r: Option<Socket>)
    ensures r.None? <==> newFd.None?
    ensures r.Some? ==> r.value.impl.fd == newFd && r.value.impl.family == af
  {
    if newFd.Some? then Some(Socket(Handle(newFd, af))) else None
  }

  /** Any one of the four states. */
  datatype State =
    | Unbound(socket: Socket)
    | Bound(binded: BindedSocket)
    | Listening(listening: ListeningSocket)
    | Active(active: ActiveSocket)

  function HandleOf(st: State): Handle
  {
    match st
    case Unbound(s) => s.impl
    case Bound(b) => b.impl
    case Listening(l) => l.impl
    case Active(a) => a.impl
  }

  /** The descriptors a state owns. */
  function OwnedBy(st: State): multiset<int>
  {
    HandleOf(st).Owned()
  }

  /** The operations a state record exposes, by the policies it inherits. */
  datatype Op = BindOp | ConnectOp | ListenOp | AcceptOp | SendRecvOp | ShutdownOp

  /** Which operations each state has, decided only by the protocol's
      connectionless flag: connect, listen and accept policies are empty
      for connectionless protocols. */
  function Capabilities(connectionless: bool, st: State): (ops: set<Op>)
    ensures ShutdownOp in ops <==> st.Active?
    ensures connectionless ==> ops <= {BindOp, SendRecvOp, ShutdownOp}
    ensures !connectionless && !st.Active? ==> SendRecvOp !in ops
  {
    match st
    case Unbound(_) => {BindOp} + (if connectionless then {} else {ConnectOp})
    case Bound(_) => if connectionless then {} else {ListenOp, ConnectOp}
    case Listening(_) => if connectionless then {} else {AcceptOp}
    case Active(_) => {SendRecvOp, ShutdownOp}
  }

  /** Only Active can exchange data or shut down, and no state offers both
      a bind and a listen. */
  lemma CapabilitiesAreDisjointByState(connectionless: bool, st: State)
    ensures SendRecvOp in Capabilities(connectionless, st) <==> st.Active?
    ensures BindOp in Capabilities(connectionless, st) <==> st.Unbound?
    ensures ListenOp in Capabilities(connectionless, st) <==> st.Bound? && !connectionless
    ensures AcceptOp in Capabilities(connectionless, st) <==> st.Listening? && !connectionless
    ensures ConnectOp in Capabilities(connectionless, st) <==>
              (st.Unbound? || st.Bound?) && !connectionless
  {
  }
}
