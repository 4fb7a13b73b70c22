# StronglyTypedSockets core, modelled in Dafny

StronglyTypedSockets is a C++ socket library that models the socket
lifecycle as type-state. A socket moves through four states:

- Unbound (`socket_t`)
- Bound (`binded_socket_t`)
- Listening (`listening_socket_t`)
- Active (`active_socket_t`)

Each state is a move-only record. It owns one native handle (`socket_impl`)
and offers only the transitions its policies allow: bind, connect, listen,
accept and send/receive. Which variant of each policy applies depends on
whether the protocol is connectionless.

This project models:

- the small functional utilities: the `|` fallback operator and `mbind`, and
  the bitwise operators on enumerations;
- address parsing from text (`in_address_t`, `from_string_and_port`);
- the state records and the five policies, with descriptor ownership across
  moves;
- the client and server state sums;
- the connectionless per-peer reference `accepted_sock_ref`;
- the epoll wrapper `epoll_t`: flag translation, registration calls,
  ownership of the epoll descriptor, and the batch translation in `proceed`;
- the example request/response service (`parse_ints`, `create_response`).

Modules follow the source layout:

| module | source |
|---|---|
| `Wrappers` | `std::optional` and exceptions, as Option and Result |
| `MBind` | `utils/mbind.h` |
| `EnumOp` | `utils/enum_op.h` |
| `InAddress` | `src/in_address.cpp` |
| `AddressFromString` | `src/utils/address_from_string.cpp` |
| `SocketStates` | `socket_states/*.h`, `socket/socket.h` |
| `Policies` | `policy/*.h` |
| `SumOfStates` | `endpoint/proto_to_sum_of_states.h` |
| `AcceptedSockRef` | `endpoint/accepted_sock_ref.h` |
| `Epoll` | `src/epoll/epoll.cpp` |
| `Service` | `app/service.cpp` |

Kernel and libc calls are not modelled. Their outcomes are parameters of the
operation that makes the call:

- `inet_pton` is the function parameter `pton`;
- the success of `bind`, `connect` and `listen` is a boolean `ok`;
- `accept` takes the child handle and peer, or nothing;
- send and receive take their reply;
- `epoll_create` takes the descriptor it returned;
- `epoll_wait` takes its buffer and count.

The protocol is one boolean, `connectionless`. In the source, the
specialisations are selected by `is_connectionless_t`
(include/socket/proto.h:34) and by `is_datagram_t` (include/proto.h:33). Both
read `T::is_datagram`. The `tcp`/`udp` in include/socket/proto.h declare
`is_connectionless` instead of `is_datagram`. The model follows the evident
design: a connectionless protocol selects the connectionless specialisation
of every policy and of both state sums.

## Model

| member | source | states |
|---|---|---|
| MBind.OrElse | include/utils/mbind.h:14-25 | the result is engaged iff the left operand or the fallback is; an engaged left operand is returned as is, an empty one gives the fallback's result |
| MBind.Bind | include/utils/mbind.h:28-55 | an empty optional gives empty; an engaged result comes from an engaged optional and is the continuation applied to its value |
| MBind.OrElseKeepsEngaged | include/utils/mbind.h:14-25 | an engaged left operand is returned as is and the fallback is never consulted |
| MBind.OrElseFallsBack | include/utils/mbind.h:14-25 | an empty left operand yields exactly the fallback's result |
| MBind.OrElseChainFirstSuccess | include/utils/mbind.h:14-25 | `empty \| f \| g` is the first engaged result of f, g in order, and empty iff both are empty |
| MBind.OrElseAssociative | include/utils/mbind.h:14-25 | regrouping a fallback chain does not change its value |
| MBind.BindNone | include/utils/mbind.h:28-55 | mbind of an empty optional is empty, whatever the continuation |
| MBind.BindSome | include/utils/mbind.h:28-55 | mbind of an engaged optional is the continuation applied to its value |
| MBind.BindRightIdentity | include/utils/mbind.h:28-55 | binding with the wrapping continuation returns the optional unchanged |
| MBind.BindAssociative | include/utils/mbind.h:28-55 | two successive binds equal one bind of the composed continuation |
| EnumOp.Or | include/utils/enum_op.h:9-13 | each of the 32 bits of the result is set iff it is set in either operand |
| EnumOp.And | include/utils/enum_op.h:23-27 | each of the 32 bits of the result is set iff it is set in both operands |
| EnumOp.Lvalue.OrAssign | include/utils/enum_op.h:16-20 | `\|=` stores `lhs \| rhs` in the lvalue and returns the stored value |
| EnumOp.Lvalue.AndAssign | include/utils/enum_op.h:30-34 | `&=` stores `lhs & rhs` in the lvalue and returns the stored value |
| EnumOp.OrLaws | include/utils/enum_op.h:9-13 | `\|` is commutative, associative and idempotent, and NONE is its identity |
| EnumOp.AndLaws | include/utils/enum_op.h:23-27 | `&` is commutative and idempotent, and NONE absorbs |
| InAddress.Parser | src/in_address.cpp:10-26 | the deferred parse is engaged iff the text is shorter than the bound and inet_pton accepts it, and then holds inet_pton's bytes with the parser's own family |
| InAddress.Init | src/in_address.cpp:29-35 | a parsed result is AF_INET or AF_INET6; an AF_INET result comes from text shorter than 16 characters, an AF_INET6 one from text shorter than 46 |
| InAddress.Create | src/in_address.cpp:60-70 | empty iff `init` is empty; otherwise the address holds `init`'s bytes and family, and is exactly one of IPv4 and IPv6 |
| InAddress.ParserSucceedsIff | src/in_address.cpp:10-26 | a parser succeeds iff the text is shorter than its bound and inet_pton accepts it; it then yields inet_pton's bytes and its own family |
| InAddress.CreatePrefersIpv4 | src/in_address.cpp:29-35 | when the IPv4 parser accepts, the result is the IPv4 address, whatever inet_pton would say for IPv6 |
| InAddress.CreateFallsBackToIpv6 | src/in_address.cpp:29-35 | when the IPv4 parser fails, the result is exactly the IPv6 parser's outcome, with family AF_INET6 |
| InAddress.CreateSucceedsIff | src/in_address.cpp:60-70 | `create` succeeds iff the guarded IPv4 or the guarded IPv6 parse succeeds |
| InAddress.CreateRejectsLongText | src/in_address.cpp:10-35 | text of 46 characters or more is rejected by `create` and by the throwing constructor |
| InAddress.CreatedFamily | src/in_address.cpp:60-82 | a created address is IPv4 iff the IPv4 parser accepted, is IPv6 otherwise, and is never both |
| InAddress.GettersReturnStored | src/in_address.cpp:54-94 | the bytes/family constructor stores its arguments; `bytes`, `family` and the two family tests report them |
| InAddress.RejectsOverlongDottedQuad | src/in_address.cpp:16-17 | "1111.123.123.123" (16 characters) never reaches the IPv4 parser and is rejected when IPv6 parsing refuses it |
| InAddress.FromString | src/in_address.cpp:38-51 | the throwing constructor fails iff `create` is empty, with the message `String {addr} is invalid IP address`, and otherwise equals `create` |
| AddressFromString.FromStringAndPort | src/utils/address_from_string.cpp:7-15 | empty iff the address does not parse; otherwise the parsed address paired with the given port |
| AddressFromString.PortIndependent | src/utils/address_from_string.cpp:7-15 | the port never influences whether the result is empty |
| SocketStates.Handle.MovedFrom | include/socket/socket_impl.h:20-21 | a moved-from handle is empty and keeps its family |
| SocketStates.Handle.Owned | include/socket/socket_impl.h:66-67 | a handle owns at most one descriptor, and none iff it is empty |
| SocketStates.NewActive | include/socket_states/active_socket.h:18-22 | an Active record stores the handle, remote, local and accepted flag it is built with |
| SocketStates.NewActiveDefaultsToNotAccepted | include/socket_states/active_socket.h:18-22 | omitting the accepted argument gives a non-accepted socket |
| SocketStates.CreateSocket | include/socket/socket.h:30-35 | `create` is empty iff opening the socket failed; otherwise its handle holds the new descriptor and the requested family |
| SocketStates.Capabilities | include/socket/socket.h:20-24 | shutdown is offered exactly by Active; a connectionless protocol offers only bind, send/receive and shutdown; a connection-oriented one sends and receives only when Active |
| SocketStates.CapabilitiesAreDisjointByState | include/socket/socket.h:20-24 | only Active sends, receives and shuts down; only Unbound binds; listen, accept and connect exist only for connection-oriented protocols, in Bound, Listening and Unbound/Bound respectively |
| Policies.StreamBind | include/policy/bind_policy.h:19-34 | success iff the bind call succeeded; on success the handle moves into a Bound record holding the local address and the source is left empty; on failure the source is unchanged |
| Policies.DatagramBind | include/policy/bind_policy.h:49-64 | as StreamBind, but the result is an Active record with no remote, the bound local address, and not accepted |
| Policies.Bind | include/policy/bind_policy.h:19-71 | the connectionless flag alone decides whether bind leads to Active or to Bound |
| Policies.Connect | include/policy/connect_policy.h:18-44 | from Unbound or Bound of a connection-oriented protocol: moves the handle into a non-accepted Active record with the given remote; the local address is the Bound record's, or none from Unbound |
| Policies.Listen | include/policy/listen_policy.h:14-29 | Bound to Listening with the requested backlog and the Bound local address, moving the handle; failure keeps the source |
| Policies.Accept | include/policy/accept_policy.h:14-28 | a new Active record iff the handle accepted a child: accepted, owning the child handle, with the peer as remote and the listening address as local |
| Policies.StreamSend | include/policy/send_recv_policy.h:18-21 | a connection-oriented send issues `send` on the socket's own handle with the caller's size and flags and hands back the handle's reply unchanged |
| Policies.StreamReceive | include/policy/send_recv_policy.h:23-26 | a connection-oriented receive issues `receive` on the socket's own handle with the caller's size and flags and hands back the handle's reply unchanged |
| Policies.DatagramSend | include/policy/send_recv_policy.h:47-50 | a connectionless send issues `send_to` on the socket's own handle to the given remote, with the caller's size and flags, and hands back the handle's reply unchanged |
| Policies.DatagramReceive | include/policy/send_recv_policy.h:52-55 | a connectionless receive issues `receive_from` on the socket's own handle and hands back the handle's (peer, byte count) reply unchanged |
| Policies.SendReceiveDelegation | include/policy/send_recv_policy.h:14-55 | every variant returns exactly the handle's reply, so distinct replies reach the caller as distinct results; the call issued does not depend on the reply; stream and datagram variants never issue the same call |
| Policies.MoveConservesHandles | include/socket/socket_impl.h:20-21 | a transition that moves the handle neither duplicates nor loses a descriptor, and a successful one leaves the source owning nothing |
| Policies.BindConservesHandles | include/policy/bind_policy.h:23-64 | the descriptors of the new state and of the residual source together are exactly the source's |
| Policies.ConnectConservesHandles | include/policy/connect_policy.h:26-44 | the same conservation for connect |
| Policies.ListenConservesHandles | include/policy/listen_policy.h:18-29 | the same conservation for listen |
| Policies.FailureKeepsSource | include/policy/bind_policy.h:23-34 | a failed bind, connect or listen returns nothing and leaves the source as it was |
| Policies.AcceptedLocalIsBoundAddress | include/policy/accept_policy.h:18-28 | after bind, listen and accept, the accepted socket's local address is the bound address, port included, and its remote is the peer |
| SumOfStates.InClientSum | include/endpoint/proto_to_sum_of_states.h:15-53 | the empty optional is always a client value, Listening never is, and Bound is one iff the protocol is connection-oriented |
| SumOfStates.InServerSum | include/endpoint/proto_to_sum_of_states.h:29-66 | the empty optional is always a server value; Active is one iff the protocol is connectionless; Bound and Listening iff it is connection-oriented |
| SumOfStates.SumMembership | include/endpoint/proto_to_sum_of_states.h:15-66 | a client never holds Listening; a connection-oriented server never holds Active; a connectionless endpoint of either role holds only nothing, Unbound or Active |
| SumOfStates.ClientSumClosed | include/endpoint/proto_to_sum_of_states.h:15-53 | bind and connect, whatever their outcome, keep a client inside its sum |
| SumOfStates.ServerSumClosed | include/endpoint/proto_to_sum_of_states.h:29-66 | bind and listen, whatever their outcome, keep a server inside its sum |
| AcceptedSockRef.StateSlot.constructor | include/endpoint/accepted_sock_ref.h:17-25 | the slot holds a value of the connectionless server sum: nothing, Unbound or Active |
| AcceptedSockRef.SockRef.constructor | include/endpoint/accepted_sock_ref.h:17-25 | only connectionless protocols can build one, over a connectionless server state; it points at that state and knows no peer yet |
| AcceptedSockRef.SockRef.MoveFrom | include/endpoint/accepted_sock_ref.h:27-34 | takes over the pointer and the peer; the source's pointer becomes null |
| AcceptedSockRef.SockRef.MoveAssign | include/endpoint/accepted_sock_ref.h:36-48 | copies pointer and peer from the other reference; self-assignment changes nothing |
| AcceptedSockRef.SockRef.Send | include/endpoint/accepted_sock_ref.h:60-73 | issues `send_to` to the remembered peer on the shared handle iff the state is Active and a peer is known, and returns that call's reply; otherwise nothing |
| AcceptedSockRef.SockRef.Recv | include/endpoint/accepted_sock_ref.h:75-86 | issues `receive_from` iff the state is Active and returns its reply; a successful receive makes the sender the remembered peer |
| AcceptedSockRef.SockRef.FinishedSend | include/endpoint/accepted_sock_ref.h:88-91 | finished iff the state is Active and the socket reports again or would-block |
| AcceptedSockRef.SockRef.FinishedRecv | include/endpoint/accepted_sock_ref.h:93-96 | the same test for receiving |
| AcceptedSockRef.ReplyToLastSender | include/endpoint/accepted_sock_ref.h:60-86 | after a receive from a peer, a send goes to that peer on the shared handle; a moved-from reference issues no call |
| Epoll.FlagsFromOp | src/epoll/epoll.cpp:66-85 | always edge-triggered with peer-close, urgent, error and hangup; EPOLLIN iff the interest reads and EPOLLOUT iff it writes; no other bit |
| Epoll.EventTypeFromFlags | src/epoll/epoll.cpp:142-173 | each of the six readiness bits sets exactly its own category, and no other category is ever set |
| Epoll.NoKnownFlagsMeansNone | src/epoll/epoll.cpp:142-173 | flags without any readiness bit give NONE |
| Epoll.OtherFlagsIgnored | src/epoll/epoll.cpp:142-173 | bits other than the six readiness bits do not affect the categories |
| Epoll.RegisteredFlagsRoundTrip | src/epoll/epoll.cpp:66-85 | a registration's own flags read back as exception, hangup, error and peer-closed, plus read/write readiness exactly as registered |
| Epoll.EpollT.Create | src/epoll/epoll.cpp:44-57 | empty iff `epoll_create` returned -1; otherwise a new object owning that descriptor with the given batch size |
| Epoll.EpollT.Construct | src/epoll/epoll.cpp:17-25 | throws a runtime error carrying errno iff `epoll_create` returned -1; otherwise as Create |
| Epoll.EpollT.Exchange | src/epoll/epoll.cpp:185-190 | takes the other object's descriptor and batch size and leaves it with -1 and 0 |
| Epoll.EpollT.MoveFrom | src/epoll/epoll.cpp:28-31 | the move constructor takes over descriptor and batch size, leaving the source with -1 and 0 |
| Epoll.EpollT.MoveAssign | src/epoll/epoll.cpp:34-41 | move assignment exchanges from a distinct object, overwriting its own descriptor; self-assignment changes nothing |
| Epoll.EpollT.MoveAssignClosing | src/epoll/epoll.cpp:34-41 | corrected assignment: closes its own descriptor, if any, exactly when assigning from a distinct object, then takes over the other's descriptor and batch size |
| Epoll.MoveAssignLeaks | src/epoll/epoll.cpp:34-41 | as written, `a = std::move(b)` on two live objects followed by both destructors closes only b's descriptor; a's is never closed |
| Epoll.MoveAssignClosingClosesEach | src/epoll/epoll.cpp:34-41 | with the corrected assignment the same run closes each descriptor exactly once |
| Epoll.EpollT.Destroy | src/epoll/epoll.cpp:176-182 | the destructor closes the descriptor iff it is not -1 |
| Epoll.EpollT.AddSocket | src/epoll/epoll.cpp:60-63 | one EPOLL_CTL_ADD call on this epoll descriptor for the socket, whose event carries the interest's flags and the socket's descriptor |
| Epoll.EpollT.ModSocket | src/epoll/epoll.cpp:88-91 | one EPOLL_CTL_MOD call on this epoll descriptor for the socket, whose event carries the new interest's flags and the socket's descriptor |
| Epoll.EpollT.DelSocket | src/epoll/epoll.cpp:110-113 | one EPOLL_CTL_DEL call on this epoll descriptor for the socket, with no event |
| Epoll.EpollT.Ctl | src/epoll/epoll.cpp:94-107 | the call names this epoll descriptor, the operation and the socket; it carries an event iff an interest is given, and that event has the interest's flags and the socket's descriptor |
| Epoll.CtlCallsFlags | src/epoll/epoll.cpp:60-113 | add and mod register with the always-on flags under EPOLL_CTL_ADD/EPOLL_CTL_MOD; del passes no event under EPOLL_CTL_DEL |
| Epoll.EpollT.Proceed | src/epoll/epoll.cpp:116-139 | given a buffer with room for `max_events` entries, no events unless `epoll_wait` returned a positive count; otherwise exactly that many, in buffer order, each with its descriptor and translated categories |
| Epoll.MovedDescriptorClosedOnce | src/epoll/epoll.cpp:176-190 | across a move the epoll descriptor is closed exactly once, by the new owner |
| Epoll.ThreadLocalBufferSize | src/epoll/epoll.cpp:118 | as written, the buffer of every call on a thread is the first caller's size: it fits the first caller, and fits a later one iff that one asks for no more events than the first |
| Epoll.ThreadLocalBufferFitsIff | src/epoll/epoll.cpp:118-123 | as written, every wait on a thread fits iff no later object asks for more events than the first |
| Epoll.ThreadLocalBufferOverrun | src/epoll/epoll.cpp:118-123 | objects with `max_events` 1 then 10 on one thread: the second wait does not fit its buffer |
| Epoll.PerObjectBufferSize | src/epoll/epoll.cpp:118-123 | a buffer of its own object's `max_events` entries always fits that object's wait |
| Epoll.MaxEventsOf | src/epoll/epoll.cpp:118-123 | the batch sizes of a sequence of objects, one per object, in order |
| Epoll.ProceedEachOnOwnBuffer | src/epoll/epoll.cpp:116-139 | `proceed` on several objects of one thread, each with a per-object buffer, in any order: every call meets Proceed's buffer requirement and returns its own first `count` entries, translated |
| Service.FindNonDigit | app/service.cpp:7-10 | the index of the first non-digit, or the length when there is none |
| Service.IsSpace | app/service.cpp:15-20 | no digit is whitespace, and the six "C"-locale whitespace characters (space, tab, line feed, vertical tab, form feed, carriage return) are |
| Service.IsNumber | app/service.cpp:7-10 | `is_number` holds iff the token is non-empty and all digits |
| Service.Tokens | app/service.cpp:15-20 | stream extraction yields whitespace-free, non-empty words |
| Service.TokensOfWordThenSpace | app/service.cpp:15-20 | a word followed by whitespace reads as that word, then the rest |
| Service.NumericTokens | app/service.cpp:17-20 | every kept token is numeric and one of the input's, and no more tokens are kept than were read |
| Service.NumericTokensFilter | app/service.cpp:17-20 | the kept tokens are input tokens, every numeric token is kept as often as it occurs and every other token is dropped, and with no numeric token nothing is kept |
| Service.NumericTokensCount | app/service.cpp:17-20 | the number of times a token is kept is its number of occurrences if it is numeric, otherwise zero |
| Service.NumericTokensAppend | app/service.cpp:17-20 | filtering keeps input order: the filter of a concatenation is the concatenation of the filters |
| Service.NumericTokensSingle | app/service.cpp:17-20 | a single token is kept iff it is numeric |
| Service.CopyNumeric | app/service.cpp:15-20 | the `copy_if` loop over the read tokens yields exactly NumericTokens |
| Service.ConvertAll | app/service.cpp:21-26 | the `transform` loop yields exactly ToInts, stopping at the first token that throws |
| Service.Stoi | app/service.cpp:26 | succeeds iff the token's decimal value is at most INT_MAX, and then yields that value; otherwise out_of_range |
| Service.ToInts | app/service.cpp:22-26 | a successful conversion has one value per token, each at most INT_MAX; a failed one has a token whose value exceeds INT_MAX |
| Service.NatToString | app/service.cpp:50 | `to_string` of an unsigned is non-empty, all digits, and without a leading zero unless the value is 0 |
| Service.NatToStringRoundTrip | app/service.cpp:50 | the text `to_string` writes is a number whose value is the original |
| Service.ToIntsFailureSticks | app/service.cpp:22-26 | once a prefix of the tokens fails to convert, the whole conversion fails the same way |
| Service.ToIntsValues | app/service.cpp:22-26 | conversion succeeds iff every numeric token fits in `int`, and then yields each token's value in order |
| Service.ParseInts | app/service.cpp:13-28 | the loop collects the numeric tokens and converts them, giving ParsedInts |
| Service.SortSeq | app/service.cpp:40 | the reference order has as many numbers as its input |
| Service.SortSeqSortedPermutation | app/service.cpp:40 | the reference order is ascending and a permutation of its input |
| Service.SortedPermutationUnique | app/service.cpp:40 | two ascending permutations of the same numbers are equal |
| Service.SortInPlace | app/service.cpp:40 | the array ends ascending and a permutation of what it held |
| Service.Render | app/service.cpp:43-48 | the written text holds only digits and spaces, is empty iff there are no numbers, and otherwise ends with a space |
| Service.TotalSumSortSeq | app/service.cpp:40-48 | sorting does not change the sum |
| Service.WriteAndSum | app/service.cpp:41-48 | the pass writes every number followed by a space and accumulates their sum modulo 2^32 |
| Service.Response | app/service.cpp:31-51 | the reply fails iff parsing fails, and then the request has a numeric token whose value exceeds INT_MAX; a reply that differs from the request comes from a request with numbers |
| Service.CreateResponse | app/service.cpp:31-51 | the reply is Response: the request when it has no numbers, otherwise the sorted numbers, a line break and the wrapped sum; out_of_range propagates |
| Service.TokensOfRendered | app/service.cpp:41-50 | the written reply reads back as the numbers' decimal texts followed by the sum's |
| Service.EchoWhenNoNumbers | app/service.cpp:33-37 | a request without numeric tokens is echoed unchanged |
| Service.ResponseContents | app/service.cpp:38-51 | a reply with numbers reads as the request's numbers ascending (a permutation, as many as its numeric tokens, each reading back as its value) and then their sum modulo 2^32 |
| Service.DecimalsRoundTrip | app/service.cpp:44 | each number written reads back as itself |

## Left out

- The kernel and libc calls are not modelled, and neither is `errno` handling beyond the error value passed in: `socket`, `bind`, `connect`, `listen`, `accept`, `send*`, `recv*`, `shutdown`, `close`, `epoll_create`, `epoll_ctl`, `epoll_wait` and `inet_pton`. Their outcomes are parameters.
- src/socket_impl.cpp is not part of this model. Its quirks are not carried over; each handle operation is an abstract success flag or reply.
- src/socket/socket.tpp is not part of this model. CreateSocket takes the descriptor `socket` returned, or nothing, as a parameter.
- `shutdown` of an Active socket is not modelled beyond appearing in Capabilities. Its body is in the handle implementation.
- Epoll.EpollT.Ctl: the boolean `add_socket`/`mod_socket`/`del_socket` return (`0 == ::epoll_ctl(...)`) is the kernel's reply and is not modelled. The model returns the call that is issued.
- Epoll.FlagsFromOp: the `default: assert(false)` branch cannot be reached with a three-valued datatype, so it is absent.
- Epoll.EpollT.Proceed: the `timeout` argument only reaches `epoll_wait` and is not modelled. The model requires the buffer to hold at least `max_events` entries (WaitFits), which the per-object buffer of the Findings row does and the shared thread-local one does not.
- The `m_mutex` lock in `exchange`, and thread-local storage in general, are not modelled; concurrency is out of scope.
- AddressPort.port is an unbounded natural: the 16-bit width of `uint_fast16_t` is not modelled.
- `accepted_sock_ref::native_handle` is not modelled. It calls `native_handle` on the variant pointer, which the variant does not provide.
- The `again()` and `would_block()` statuses used by `finished_*_impl` are parameters. `active_socket_t` declares no such members.
- Send/receive buffers are not modelled, only their sizes and the replies. The `flags` argument is kept as an integer.
- The endpoint, client, server and poll-traits templates, `async_stdin`, and the client and server `main` programs are not modelled. Only the state sums they hold are.
- The older duplicate headers (include/in_address.h, include/proto.h, include/utils.h, include/af_inet.h) are modelled once, through their socket/ and utils/ counterparts.
- Service.Stoi: `std::stoi` also accepts leading whitespace and signs, but only digit-only tokens reach it, so only those are modelled. A value above `INT_MAX` throws `out_of_range` in the source; the model returns it as a Failure carrying no payload, as the exception carries none, which CreateResponse propagates.
- Service.IsSpace: whitespace and digits are those of the "C" locale. Other locales are not modelled.

## Findings

| source | as written | input that shows it | evidently intended | confidence | as-written member | corrected member |
|---|---|---|---|---|---|---|
| src/epoll/epoll.cpp:118-123 | the event buffer is a `static thread_local` vector sized by the `max_events` of the first object that calls `proceed` on the thread, while each `epoll_wait` is told its own object's `max_events` | on one thread, `proceed` on an object with `max_events` 1, then on one with `max_events` 10: the kernel may write 10 entries into a 1-entry buffer | a buffer of `max_events` entries per object (or per call) | not executed | Epoll.ThreadLocalBufferFitsIff, Epoll.ThreadLocalBufferOverrun | Epoll.ProceedEachOnOwnBuffer |
| src/epoll/epoll.cpp:34-41 | move assignment calls `exchange` (src/epoll/epoll.cpp:185-190), which overwrites a live `m_fd` with the other object's without closing it | two objects owning descriptors 3 and 4: after `a = std::move(b)` and both destructors, only 4 has been closed | close the descriptor being overwritten before taking over the other one | not executed | Epoll.MoveAssignLeaks | Epoll.EpollT.MoveAssignClosing |
