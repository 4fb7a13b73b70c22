/** The state an endpoint holds: a sum of socket states that depends on
    the role (client or server) and on the protocol's connectionless flag.
    The first alternative is an optional Unbound socket, so an endpoint
    that has not opened a socket yet ("idle") is that alternative empty. */
module SumOfStates {
  import opened Wrappers
  import opened InAddress
  import opened SocketStates
  import Policies

  /** One value of a state sum. */
  datatype EndpointState = Idle | Holds(state: State)

  /** `sum_of_client_states_t`: optional Unbound, Bound, Active for a
      connection-oriented protocol; optional Unbound, Active for a
      connectionless one. */
  predicate InClientSum(connectionless: bool, e: EndpointState)
    ensures e.Idle? ==> InClientSum(connectionless, e)
    ensures e.Holds? && e.state.Listening? ==> !InClientSum(connectionless, e)
    ensures e.Holds? && e.state.Bound? ==> (InClientSum(connectionless, e) <==> !connectionless)
  {
    match e
    case Idle => true
    case Holds(Unbound(_)) => true
    case Holds(Bound(_)) => !connectionless
    case Holds(Listening(_)) => false
    case Holds(Active(_)) => true
  }

  /** `sum_of_server_states_t`: optional Unbound, Bound, Listening for a
      connection-oriented protocol; optional Unbound, Active for a
      connectionless one. */
  predicate InServerSum(connectionless: bool, e: EndpointState)
    ensures e.Idle? ==> InServerSum(connectionless, e)
    ensures e.Holds? && e.state.Active? ==> (InServerSum(connectionless, e) <==> connectionless)
    ensures e.Holds? && (e.state.Bound? || e.state.Listening?) ==> (InServerSum(connectionless, e) <==> !connectionless)
  {
    match e
    case Idle => true
    case Holds(Unbound(_)) => true
    case Holds(Bound(_)) => !connectionless
    case Holds(Listening(_)) => !connectionless
    case Holds(Active(_)) => connectionless
  }

  /** The sums, read the other way round: what each role can never hold. */
  lemma SumMembership(connectionless: bool, e: EndpointState)
    ensures e.Holds? && e.state.Listening? ==> !InClientSum(connectionless, e)
    ensures !connectionless && e.Holds? && e.state.Active? ==> !InServerSum(connectionless, e)
    ensures connectionless ==> (InClientSum(connectionless, e) <==> InServerSum(connectionless, e))
    ensures connectionless && InServerSum(connectionless, e) ==>
              e.Idle? || e.state.Unbound? || e.state.Active?
  {
  }

  /** The state an endpoint keeps after a transition: the new state on
      success, otherwise the residual source (unchanged on failure). */
  function After<S>(r: Policies.Moved<S>, wrap: S -> State): EndpointState
  {
    if r.next.Some? then Holds(wrap(r.next.value)) else Holds(r.source)
  }

  function WrapBinded(b: BindedSocket): State { Bound(b) }
  function WrapListening(l: ListeningSocket): State { Listening(l) }
  function WrapActive(a: ActiveSocket): State { Active(a) }
  function WrapState(s: State): State { s }

  /** A client's transitions (bind from Unbound, connect from Unbound or
      Bound) keep it inside the client sum, whatever the call's outcome. */
  lemma {:induction false} ClientSumClosed(connectionless: bool, e: EndpointState,
                                           local: AddressPort, remote: AddressPort, ok: bool)
    requires InClientSum(connectionless, e) && e.Holds?
    ensures e.state.Unbound? ==>
              InClientSum(connectionless, After(Policies.Bind(connectionless, e.state.socket, local, ok), WrapState))
    ensures ConnectOp in Capabilities(connectionless, e.state) ==>
              InClientSum(connectionless, After(Policies.Connect(connectionless, e.state, remote, ok), WrapActive))
  {
    if e.state.Unbound? {
      var r := Policies.Bind(connectionless, e.state.socket, local, ok);
      assert r.source == e.state || r.source.Unbound?;
    }
  }

  /** A server's transitions (bind from Unbound, listen from Bound) keep it
      inside the server sum; in particular a connection-oriented server
      never comes to hold an Active socket. */
  lemma {:induction false} ServerSumClosed(connectionless: bool, e: EndpointState,
                                           local: AddressPort, maxConn: Unsigned, ok: bool)
    requires InServerSum(connectionless, e) && e.Holds?
    ensures e.state.Unbound? ==>
              InServerSum(connectionless, After(Policies.Bind(connectionless, e.state.socket, local, ok), WrapState))
    ensures ListenOp in Capabilities(connectionless, e.state) ==>
              InServerSum(connectionless, After(Policies.Listen(connectionless, e.state.binded, maxConn, ok), WrapListening))
  {
    if e.state.Unbound? {
      var r := Policies.Bind(connectionless, e.state.socket, local, ok);
      assert r.source == e.state || r.source.Unbound?;
    }
  }
}
