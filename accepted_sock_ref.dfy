/** `accepted_sock_ref`: a non-owning reference into a connectionless
    server's single shared socket state, plus the last peer a receive
    came from. Several such references can emulate per-peer connections
    over one handle. The send/receive replies of the handle and its
    again/would-block status are parameters. */
module AcceptedSockRef {
  import opened Wrappers
  import opened InAddress
  import opened SocketStates
  import opened SumOfStates
  import Policies

  /** The server's state variable that references point into: a
      `sum_of_server_states_t` of a connectionless protocol. */
  class StateSlot {
    var state: EndpointState

    /** The state is a value of the connectionless server sum: nothing,
        Unbound or Active, never Bound or Listening. */
    predicate Valid()
      reads this
    {
      InServerSum(true, state)
    }

    constructor (init: EndpointState)
      requires InServerSum(true, init)
      ensures state == init && Valid()
    {
      state := init;
    }
  }

  class SockRef {
    /** `Proto::is_connectionless`, which the class asserts statically. */
    const connectionless: bool
    /** `m_sock`: null after this reference has been moved from. */
    var sock: StateSlot?
    /** `m_remote`: the peer of the last successful receive. */
    var remote: Option<AddressPort>

    /** The shared state holds an Active socket (`std::get_if` on a null
        pointer also yields nothing). */
    predicate IsActive()
      reads this, sock
    {
      sock != null && sock.state.Holds? && sock.state.state.Active?
    }

    function ActiveHandle(): Handle
      reads this, sock
      requires IsActive()
    {
      sock.state.state.active.impl
    }

    /** `accepted_sock_ref(sum_of_server_states_t<Proto>&)` */
    constructor (connectionless: bool, slot: StateSlot)
      requires connectionless && slot.Valid()
      ensures this.connectionless && sock == slot && remote == None
    {
      this.connectionless := connectionless;
      sock := slot;
      remote := None;
    }

    /** The move constructor: takes over the pointer, leaving the source's
        pointer null, and copies the remembered peer. */
    constructor MoveFrom(other: SockRef)
      modifies other
      ensures connectionless == other.connectionless
      ensures sock == old(other.sock) && remote == old(other.remote)
      ensures other.sock == null && other.remote == old(other.remote)
    {
      connectionless := other.connectionless;
      sock := other.sock;
      remote := other.remote;
      other.sock := null;
    }

    /** Move assignment: copies the pointer and the peer, so both objects
        then refer to the same state; assigning to itself changes nothing. */
    method MoveAssign(other: SockRef)
      modifies this
      ensures other == this ==> sock == old(sock) && remote == old(remote)
      ensures other != this ==> sock == other.sock && remote == other.remote
      ensures other.sock == old(other.sock) && other.remote == old(other.remote)
    {
      if this != other {
        sock := other.sock;
        remote := other.remote;
      }
    }

    /** `send_impl`: sends to the remembered peer through the shared Active
        socket. `call` is what is issued on the handle (nothing when the
        state is not Active or no peer is known yet); `reply` is that
        call's outcome, returned unchanged. */
    method Send(size: nat, reply: Option<nat>) returns (r: Option<nat>, call: Option<Policies.HandleCall>)
      requires connectionless
      ensures call.Some? <==> IsActive() && remote.Some?
      ensures call.Some? ==> call.value == Policies.SendToCall(ActiveHandle(), remote.value, size, 0)
      ensures r == if call.Some? then reply else None
    {
      if sock != null && sock.state.Holds? && sock.state.state.Active? {
        var a := sock.state.state.active;
        if remote.Some? {
          var d := Policies.DatagramSend(connectionless, a, remote.value, size, 0, reply);
          call, r := Some(d.call), d.reply;
        } else {
          call, r := None, None;
        }
      } else {
        call, r := None, None;
      }
    }

    /** `recv_impl`: receives on the shared Active socket; a successful
        receive makes its sender the remembered peer, a failed one leaves
        the peer as it was. */
    method Recv(size: nat, reply: Option<(AddressPort, nat)>)
      returns (r: Option<(AddressPort, nat)>, call: Option<Policies.HandleCall>)
      requires connectionless
      modifies this
      ensures sock == old(sock)
      ensures call.Some? <==> old(IsActive())
      ensures call.Some? ==> call.value == Policies.ReceiveFromCall(old(ActiveHandle()), size, 0)
      ensures r == if call.Some? then reply else None
      ensures remote == if r.Some? then Some(r.value.0) else old(remote)
    {
      if sock != null && sock.state.Holds? && sock.state.state.Active? {
        var a := sock.state.state.active;
        var d := Policies.DatagramReceive(connectionless, a, size, 0, reply);
        call, r := Some(d.call), d.reply;
        if r.Some? {
          remote := Some(r.value.0);
        }
      } else {
        call, r := None, None;
      }
    }

    /** `finished_send_impl`: the Active socket's last call stopped on
        again/would-block; false when the state is not Active. */
    method FinishedSend(again: bool, wouldBlock: bool) returns (finished: bool)
      ensures finished <==> IsActive() && (again || wouldBlock)
    {
      if sock != null && sock.state.Holds? && sock.state.state.Active? {
        finished := again || wouldBlock;
      } else {
        finished := false;
      }
    }

    /** `finished_recv_impl`: the same test as FinishedSend. */
    method FinishedRecv(again: bool, wouldBlock: bool) returns (finished: bool)
      ensures finished <==> IsActive() && (again || wouldBlock)
    {
      finished := FinishedSend(again, wouldBlock);
    }
  }

  /** A reply goes to whoever sent the last datagram: receive from a peer,
      then send, and the send is addressed to that peer on the shared
      handle. A reference that has been moved from reaches no socket. */
  method ReplyToLastSender(slot: StateSlot, peer: AddressPort, n: nat, size: nat)
    returns (call: Option<Policies.HandleCall>, movedCall: Option<Policies.HandleCall>)
    requires slot.state.Holds? && slot.state.state.Active?
    ensures call == Some(Policies.SendToCall(slot.state.state.active.impl, peer, size, 0))
    ensures movedCall == None
  {
    var ref := new SockRef(true, slot);
    var _, _ := ref.Recv(size, Some((peer, n)));
    var _, c := ref.Send(size, Some(size));
    call := c;
    var taken := new SockRef.MoveFrom(ref);
    var _, m := ref.Send(size, Some(size));
    movedCall := m;
  }
}
