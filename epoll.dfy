/** The poll engine: translation between socket interest and Linux epoll
    flags, translation of readiness flags into abstract event categories,
    the batch translation of `proceed`, and the ownership of the epoll
    descriptor. The kernel calls (`epoll_create`, `epoll_ctl`,
    `epoll_wait`, `close`) are not modelled; their results are parameters. */
module Epoll {
  import opened Wrappers
  import opened EnumOp

  // Linux <sys/epoll.h> event bits.
  const EPOLLIN: bv32 := 0x1
  const EPOLLPRI: bv32 := 0x2
  const EPOLLOUT: bv32 := 0x4
  const EPOLLERR: bv32 := 0x8
  const EPOLLHUP: bv32 := 0x10
  const EPOLLRDHUP: bv32 := 0x2000
  const EPOLLET: bv32 := 0x8000_0000

  // `epoll_ctl` operations.
  const EPOLL_CTL_ADD: int := 1
  const EPOLL_CTL_DEL: int := 2
  const EPOLL_CTL_MOD: int := 3

  // `event_type` categories.
  const EXCEPTION: bv32 := 1
  const READ_READY: bv32 := 2
  const WRITE_READY: bv32 := 4
  const PEER_CLOSED: bv32 := 8
  const ERROR: bv32 := 16
  const HANGUP: bv32 := 32

  /** The bits every registration carries, whatever the interest. */
  const ALWAYS_FLAGS: bv32 := EPOLLRDHUP | EPOLLET | EPOLLPRI | EPOLLERR | EPOLLHUP
  /** The readiness bits that have a category. */
  const KNOWN_FLAGS: bv32 := EPOLLIN | EPOLLOUT | EPOLLPRI | EPOLLHUP | EPOLLERR | EPOLLRDHUP
  /** All categories. */
  const ALL_EVENT_TYPES: bv32 := EXCEPTION | READ_READY | WRITE_READY | PEER_CLOSED | ERROR | HANGUP

  /** `sock_op`: the interest a socket is registered with. */
  datatype SockOp = Read | Write | ReadWrite
  {
    /** READ = 1, WRITE = 2, READ_WRITE = READ | WRITE. */
    function Value(): bv32
    {
      match this
      case Read => 1
      case Write => 2
      case ReadWrite => Or(1, 2)
    }
    predicate IncludesRead() { And(Value(), Read.Value()) != NONE }
    predicate IncludesWrite() { And(Value(), Write.Value()) != NONE }
  }

  /** All bits of `mask` are set in `x`. */
  predicate HasAll(x: bv32, mask: bv32) { And(x, mask) == mask }

  /** `flags_from_op`: edge-triggered, always watching peer close, urgent
      data, error and hangup, plus input and/or output by interest. */
  function FlagsFromOp(op: SockOp): (flags: bv32)
    ensures HasAll(flags, ALWAYS_FLAGS)
    ensures HasAll(flags, EPOLLIN) <==> op.IncludesRead()
    ensures HasAll(flags, EPOLLOUT) <==> op.IncludesWrite()
    ensures And(flags, !(ALWAYS_FLAGS | EPOLLIN | EPOLLOUT)) == NONE
  {
    var flags := ALWAYS_FLAGS;
    match op
    case Read => Or(flags, EPOLLIN)
    case Write => Or(flags, EPOLLOUT)
    case ReadWrite => Or(flags, Or(EPOLLOUT, EPOLLIN))
  }

  /** Category `t` is set in `r` exactly when bit `flag` is set in `flags`. */
  predicate Maps(flags: bv32, flag: bv32, r: bv32, t: bv32)
  {
    HasAll(r, t) <==> HasAll(flags, flag)
  }

  /** `event_type_from_flags`: each of six readiness bits independently
      sets its category; every other bit is ignored. */
  function EventTypeFromFlags(flags: bv32): (r: bv32)
    ensures Maps(flags, EPOLLIN, r, READ_READY)
    ensures Maps(flags, EPOLLOUT, r, WRITE_READY)
    ensures Maps(flags, EPOLLPRI, r, EXCEPTION)
    ensures Maps(flags, EPOLLHUP, r, HANGUP)
    ensures Maps(flags, EPOLLERR, r, ERROR)
    ensures Maps(flags, EPOLLRDHUP, r, PEER_CLOSED)
    ensures And(r, !ALL_EVENT_TYPES) == NONE
  {
    var ret := NONE;
    var ret := if And(flags, EPOLLIN) != 0 then Or(ret, READ_READY) else ret;
    var ret := if And(flags, EPOLLOUT) != 0 then Or(ret, WRITE_READY) else ret;
    var ret := if And(flags, EPOLLPRI) != 0 then Or(ret, EXCEPTION) else ret;
    var ret := if And(flags, EPOLLHUP) != 0 then Or(ret, HANGUP) else ret;
    var ret := if And(flags, EPOLLERR) != 0 then Or(ret, ERROR) else ret;
    var ret := if And(flags, EPOLLRDHUP) != 0 then Or(ret, PEER_CLOSED) else ret;
    ret
  }

  /** Flags without any of the six readiness bits map to NONE. */
  lemma NoKnownFlagsMeansNone(flags: bv32)
    requires And(flags, KNOWN_FLAGS) == NONE
    ensures EventTypeFromFlags(flags) == NONE
  {
  }

  /** Only the six readiness bits matter. */
  lemma OtherFlagsIgnored(flags: bv32)
    ensures EventTypeFromFlags(flags) == EventTypeFromFlags(And(flags, KNOWN_FLAGS))
  {
  }

  /** A registration's own flags, read back as categories, always report
      exception, hangup, error and peer close, and report read or write
      readiness exactly when that interest was registered. */
  lemma RegisteredFlagsRoundTrip(op: SockOp)
    ensures var t := EventTypeFromFlags(FlagsFromOp(op));
            HasAll(t, EXCEPTION | HANGUP | ERROR | PEER_CLOSED)
            && (HasAll(t, READ_READY) <==> op.IncludesRead())
            && (HasAll(t, WRITE_READY) <==> op.IncludesWrite())
  {
  }

  /** One raw `epoll_event` as the kernel reports it. */
  datatype RawEvent = RawEvent(events: bv32, fd: int)

  /** `poll_event::event`: a descriptor and its category set. */
  datatype Event = Event(fd: int, kind: bv32)

  /** The `epoll_ctl` call a registration issues: the event pointer is null
      for a deletion. */
  datatype CtlCall = CtlCall(epfd: int, ctlOp: int, fd: int, event: Option<RawEvent>)

  /** The exception the throwing constructor raises. */
  datatype RuntimeError = RuntimeError(errno: int)

  class EpollT {
    /** `m_fd`, -1 when this object owns no epoll descriptor. */
    var fd: int
    /** `m_max_events`: the batch size bound. */
    var maxEvents: nat

    /** The private default constructor followed by the field stores that
        `create` performs. */
    constructor Init(fd: int, maxEvents: nat)
      ensures this.fd == fd && this.maxEvents == maxEvents
    {
      this.fd := fd;
      this.maxEvents := maxEvents;
    }

    /** `epoll_t::create`: `createdFd` is what `epoll_create` returned.
        Failure (-1) is reported as an empty result. */
    static method Create(createdFd: int, maxEvents: nat) returns (r: Option<EpollT>)
      ensures r.None? <==> createdFd == -1
      ensures r.Some? ==> fresh(r.value) && r.value.fd == createdFd && r.value.maxEvents == maxEvents
    {
      if createdFd != -1 {
        var e := new EpollT.Init(createdFd, maxEvents);
        r := Some(e);
      } else {
        r := None;
      }
    }

    /** The throwing constructor: it fails under the same condition as
        `create`, with the errno of the failed call. */
    static method Construct(createdFd: int, errno: int, maxEvents: nat) returns (r: Result<EpollT, RuntimeError>)
      ensures r.Failure? <==> createdFd == -1
      ensures r.Failure? ==> r.error == RuntimeError(errno)
      ensures r.Success? ==> fresh(r.value) && r.value.fd == createdFd && r.value.maxEvents == maxEvents
    {
      var e := new EpollT.Init(createdFd, maxEvents);
      if e.fd == -1 {
        r := Failure(RuntimeError(errno));
      } else {
        r := Success(e);
      }
    }

    /** `exchange`: takes the other object's descriptor and batch size and
        leaves it owning nothing. */
    method Exchange(other: EpollT)
      requires other != this
      modifies this, other
      ensures fd == old(other.fd) && maxEvents == old(other.maxEvents)
      ensures other.fd == -1 && other.maxEvents == 0
    {
      fd := other.fd;
      maxEvents := other.maxEvents;
      other.fd := -1;
      other.maxEvents := 0;
    }

    /** The move constructor. */
    constructor MoveFrom(other: EpollT)
      modifies other
      ensures fd == old(other.fd) && maxEvents == old(other.maxEvents)
      ensures other.fd == -1 && other.maxEvents == 0
    {
      fd := other.fd;
      maxEvents := other.maxEvents;
      new;
      other.fd := -1;
      other.maxEvents := 0;
    }

    /** Move assignment, as written: assigning an object to itself changes
        nothing; otherwise it exchanges, so the descriptor this object held
        before is overwritten without being closed (MoveAssignLeaks). */
    method MoveAssign(other: EpollT)
      modifies this, other
      ensures other == this ==> fd == old(fd) && maxEvents == old(maxEvents)
      ensures other != this ==> fd == old(other.fd) && maxEvents == old(other.maxEvents)
                                && other.fd == -1 && other.maxEvents == 0
    {
      if this != other {
        Exchange(other);
      }
    }

    /** Move assignment as evidently intended: the descriptor this object
        held is closed before the other object's is taken over. */
    method MoveAssignClosing(other: EpollT) returns (closed: Option<int>)
      modifies this, other
      ensures closed.Some? <==> other != this && old(fd) != -1
      ensures closed.Some? ==> closed.value == old(fd)
      ensures other == this ==> fd == old(fd) && maxEvents == old(maxEvents)
      ensures other != this ==> fd == old(other.fd) && maxEvents == old(other.maxEvents)
                                && other.fd == -1 && other.maxEvents == 0
    {
      closed := None;
      if this != other {
        closed := Destroy();
        Exchange(other);
      }
    }

    /** The destructor: the descriptor it closes, if any. */
    method Destroy() returns (closed: Option<int>)
      ensures closed.Some? <==> fd != -1
      ensures closed.Some? ==> closed.value == fd
    {
      if fd != -1 {
        closed := Some(fd);
      } else {
        closed := None;
      }
    }

    /** `epoll_ctl(sock_fd, ctl_op, op)`: with an interest, the event
        carries that interest's flags and the socket's descriptor; without
        one, the event pointer is null. */
    function Ctl(sockFd: int, ctlOp: int, op: Option<SockOp>): (c: CtlCall)
      reads this
      ensures c.epfd == fd && c.ctlOp == ctlOp && c.fd == sockFd
      ensures c.event.Some? <==> op.Some?
      ensures op.Some? ==> c.event.value.fd == sockFd && c.event.value.events == FlagsFromOp(op.value)
    {
      CtlCall(fd, ctlOp, sockFd, if op.Some? then Some(RawEvent(FlagsFromOp(op.value), sockFd)) else None)
    }

    /** `add_socket`: registers `sockFd` with the flags of `op`. */
    function AddSocket(sockFd: int, op: SockOp): (c: CtlCall)
      reads this
      ensures c == CtlCall(fd, EPOLL_CTL_ADD, sockFd, Some(RawEvent(FlagsFromOp(op), sockFd)))
    {
      Ctl(sockFd, EPOLL_CTL_ADD, Some(op))
    }

    /** `mod_socket`: changes the interest of `sockFd` to `op`. */
    function ModSocket(sockFd: int, op: SockOp): (c: CtlCall)
      reads this
      ensures c == CtlCall(fd, EPOLL_CTL_MOD, sockFd, Some(RawEvent(FlagsFromOp(op), sockFd)))
    {
      Ctl(sockFd, EPOLL_CTL_MOD, Some(op))
    }

    /** `del_socket`: removes `sockFd`, passing a null event. */
    function DelSocket(sockFd: int): (c: CtlCall)
      reads this
      ensures c == CtlCall(fd, EPOLL_CTL_DEL, sockFd, None)
    {
      Ctl(sockFd, EPOLL_CTL_DEL, None)
    }

    /** `proceed`: `buffer` is the event buffer after `epoll_wait`, which
        must have room for the `maxEvents` entries `epoll_wait` is allowed
        to write (see WaitFits below), and `count` is what `epoll_wait`
        returned (at most `maxEvents`; -1 on error, 0 on time-out). The
        first `count` raw events are translated in order, keeping their
        descriptors; nothing is returned when `count` is not positive. */
    method Proceed(buffer: seq<RawEvent>, count: int) returns (events: seq<Event>)
      requires WaitFits(|buffer|, maxEvents) && count <= maxEvents
      ensures count <= 0 ==> events == []
      ensures count > 0 ==> |events| == count
      ensures count > 0 ==> forall i :: 0 <= i < count ==>
                events[i].fd == buffer[i].fd && events[i].kind == EventTypeFromFlags(buffer[i].events)
    {
      events := [];
      if count > 0 {
        var i := 0;
        while i < count
          invariant 0 <= i <= count
          invariant |events| == i
          invariant forall k :: 0 <= k < i ==>
                      events[k] == Event(buffer[k].fd, EventTypeFromFlags(buffer[k].events))
        {
          events := events + [Event(buffer[i].fd, EventTypeFromFlags(buffer[i].events))];
          i := i + 1;
        }
      }
    }
  }

  /** Registration requests always subscribe to the closure categories,
      and deletion sends no event. */
  lemma CtlCallsFlags(e: EpollT, sockFd: int, op: SockOp)
    ensures e.AddSocket(sockFd, op).event.Some?
    ensures HasAll(e.AddSocket(sockFd, op).event.value.events, ALWAYS_FLAGS)
    ensures HasAll(e.ModSocket(sockFd, op).event.value.events, ALWAYS_FLAGS)
    ensures e.AddSocket(sockFd, op).ctlOp == EPOLL_CTL_ADD && e.ModSocket(sockFd, op).ctlOp == EPOLL_CTL_MOD
    ensures e.DelSocket(sockFd).event.None? && e.DelSocket(sockFd).ctlOp == EPOLL_CTL_DEL
  {
  }

  /** An epoll descriptor is closed exactly once across a move: the
      moved-from object closes nothing, the new owner closes it. */
  method MovedDescriptorClosedOnce(createdFd: int, maxEvents: nat)
    returns (closedBySource: Option<int>, closedByTarget: Option<int>)
    requires createdFd != -1
    ensures closedBySource == None && closedByTarget == Some(createdFd)
  {
    var created := EpollT.Create(createdFd, maxEvents);
    var source := created.value;
    var target := new EpollT.MoveFrom(source);
    closedBySource := source.Destroy();
    closedByTarget := target.Destroy();
  }

  /** The `close` calls one step makes: none, or one. */
  function Closes(closed: Option<int>): seq<int>
  {
    match closed
    case Some(fd) => [fd]
    case None => []
  }

  /** As written, move assignment leaks: two live objects owning `fdA`
      and `fdB`, `a = std::move(b)`, then both destroyed. The descriptors
      closed over the whole run are `fdB` alone; `fdA` is never closed. */
  method MoveAssignLeaks(fdA: int, fdB: int, maxEvents: nat) returns (closed: seq<int>)
    requires fdA != -1 && fdB != -1 && fdA != fdB
    ensures closed == [fdB]
    ensures fdA !in closed
  {
    var a := new EpollT.Init(fdA, maxEvents);
    var b := new EpollT.Init(fdB, maxEvents);
    a.MoveAssign(b);
    var byA := a.Destroy();
    var byB := b.Destroy();
    closed := Closes(byA) + Closes(byB);
  }

  /** With the corrected assignment, the same run closes each of the two
      descriptors exactly once: `fdA` on assignment, `fdB` when `a` is
      destroyed, and nothing when the moved-from `b` is. */
  method MoveAssignClosingClosesEach(fdA: int, fdB: int, maxEvents: nat) returns (closed: seq<int>)
    requires fdA != -1 && fdB != -1 && fdA != fdB
    ensures closed == [fdA, fdB]
    ensures multiset(closed)[fdA] == 1 && multiset(closed)[fdB] == 1
  {
    var a := new EpollT.Init(fdA, maxEvents);
    var b := new EpollT.Init(fdB, maxEvents);
    var onAssign := a.MoveAssignClosing(b);
    var byA := a.Destroy();
    var byB := b.Destroy();
    closed := Closes(onAssign) + Closes(byA) + Closes(byB);
  }

  // ------------------------------------------- the wait buffer's capacity

  /** `epoll_wait` may write up to `maxEvents` entries into the buffer. */
  predicate WaitFits(bufferSize: nat, maxEvents: nat)
  {
    maxEvents <= bufferSize
  }

  /** The buffer `proceed` hands to `epoll_wait` on the `i`-th call of a
      thread, as written: a `static thread_local` vector, sized by the
      `max_events` of whichever object called first on that thread. */
  function ThreadLocalBufferSize(maxEventsPerCall: seq<nat>, i: nat): (n: nat)
    requires i < |maxEventsPerCall|
    ensures WaitFits(n, maxEventsPerCall[0])
    ensures WaitFits(n, maxEventsPerCall[i]) <==> maxEventsPerCall[i] <= maxEventsPerCall[0]
  {
    maxEventsPerCall[0]
  }

  /** As written, the calls of one thread are all safe exactly when no
      later object asks for more events than the first one did. */
  lemma ThreadLocalBufferFitsIff(maxEventsPerCall: seq<nat>)
    requires |maxEventsPerCall| > 0
    ensures (forall i :: 0 <= i < |maxEventsPerCall| ==>
               WaitFits(ThreadLocalBufferSize(maxEventsPerCall, i), maxEventsPerCall[i]))
            <==> (forall i :: 0 <= i < |maxEventsPerCall| ==> maxEventsPerCall[i] <= maxEventsPerCall[0])
  {
  }

  /** An object with `max_events` 1 waiting first, then one with 10, on
      the same thread: the second wait may write past the buffer. */
  lemma ThreadLocalBufferOverrun()
    ensures !WaitFits(ThreadLocalBufferSize([1, 10], 1), 10)
  {
  }

  /** The intended buffer: one per object, `max_events` long, so that
      every wait fits whatever the order of the objects on the thread. */
  function PerObjectBufferSize(maxEventsPerCall: seq<nat>, i: nat): (n: nat)
    requires i < |maxEventsPerCall|
    ensures WaitFits(n, maxEventsPerCall[i])
  {
    maxEventsPerCall[i]
  }

  /** The `max_events` of each object, in order. */
  function MaxEventsOf(objs: seq<EpollT>): (m: seq<nat>)
    reads objs
    ensures |m| == |objs| && forall i :: 0 <= i < |objs| ==> m[i] == objs[i].maxEvents
  {
    if |objs| == 0 then [] else [objs[0].maxEvents] + MaxEventsOf(objs[1..])
  }

  /** Successive `proceed` calls on one thread, on objects `objs`, each
      waiting into its own buffer of PerObjectBufferSize entries: every
      call meets the buffer requirement and returns the first `counts[i]`
      entries of its own buffer, translated. */
  method ProceedEachOnOwnBuffer(objs: seq<EpollT>, buffers: seq<seq<RawEvent>>, counts: seq<int>)
    returns (batches: seq<seq<Event>>)
    requires |buffers| == |objs| && |counts| == |objs|
    requires forall i :: 0 <= i < |objs| ==> |buffers[i]| == PerObjectBufferSize(MaxEventsOf(objs), i)
    requires forall i :: 0 <= i < |objs| ==> counts[i] <= objs[i].maxEvents
    ensures forall i :: 0 <= i < |objs| ==> WaitFits(|buffers[i]|, objs[i].maxEvents)
    ensures forall i :: 0 <= i < |objs| ==> counts[i] <= |buffers[i]|
    ensures |batches| == |objs|
    ensures forall i :: 0 <= i < |objs| && counts[i] <= 0 ==> batches[i] == []
    ensures forall i :: 0 <= i < |objs| && counts[i] > 0 ==>
              |batches[i]| == counts[i]
              && forall k :: 0 <= k < counts[i] ==>
                   batches[i][k] == Event(buffers[i][k].fd, EventTypeFromFlags(buffers[i][k].events))
  {
    batches := [];
    for i := 0 to |objs|
      invariant |batches| == i
      invariant forall j :: 0 <= j < i && counts[j] <= 0 ==> batches[j] == []
      invariant forall j :: 0 <= j < i && counts[j] > 0 ==>
                  |batches[j]| == counts[j]
                  && forall k :: 0 <= k < counts[j] ==>
                       batches[j][k] == Event(buffers[j][k].fd, EventTypeFromFlags(buffers[j][k].events))
    {
      var events := objs[i].Proceed(buffers[i], counts[i]);
      batches := batches + [events];
    }
  }
}
