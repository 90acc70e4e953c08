/**
 * The socket factory of src/prober/socket.rs: two lazily filled slots, `ipv4_socket`
 * and `ipv6_socket`, each holding the UDP socket shared by every probe of a family.
 *
 * The source is modelled as written: the IPv6 branch reads and fills `ipv4_socket`
 * (it binds the IPv6 wildcard but stores the socket in the IPv4 slot), and nothing
 * ever reads or writes `ipv6_socket`.
 */
module Socket {
  import opened Wrappers

  /** The cause carried by an I/O error; opaque to the prober. */
  datatype IoError = IoError(code: int)

  /**
   * A resolved socket address. Rust's `SocketAddr` has only the V4 and V6 variants;
   * `OtherFamily` stands for any address `get` classifies as neither.
   */
  datatype SocketAddr =
    | V4(host: nat, port: nat)
    | V6(host: nat, port: nat)
    | OtherFamily(host: nat, port: nat)

  /** A bound UDP socket, identified by the handle the operating system gave it. */
  datatype UdpSocket = UdpSocket(handle: nat)

  /** The errors of `Factory::get`. */
  datatype SocketError = UnknownSocketType | Bind(source: IoError)

  /** The local endpoints bound for each family: wildcard host, ephemeral port. */
  const Ipv4Wildcard: string := "0.0.0.0:0"
  const Ipv6Wildcard: string := "[::]:0"

  /** What the bind call would yield if it were made now. */
  type BindOutcome = Result<UdpSocket, IoError>

  /** The contents of the factory's two slots. */
  datatype Slots = Slots(ipv4: Option<UdpSocket>, ipv6: Option<UdpSocket>)

  /** A new factory has both slots empty. */
  const NoSockets := Slots(None, None)

  /**
   * The effect of one `get`: the slots afterwards, the result, and the local
   * endpoints on which a bind was attempted (none or one).
   */
  datatype GetOutcome = GetOutcome(slots: Slots, result: Result<UdpSocket, SocketError>, binds: seq<string>)

  /** `Factory::get` as a function of the slots before the call and of the bind outcome. */
  function GetStep(s: Slots, address: SocketAddr, bind: BindOutcome): GetOutcome {
    if address.V4? then
      match s.ipv4
      case Some(socket) => GetOutcome(s, Ok(socket), [])
      case None =>
        match bind
        case Err(e) => GetOutcome(s, Err(Bind(e)), [Ipv4Wildcard])
        case Ok(socket) => GetOutcome(s.(ipv4 := Some(socket)), Ok(socket), [Ipv4Wildcard])
    else if address.V6? then
      // as written, the IPv6 branch consults and fills the IPv4 slot
      match s.ipv4
      case Some(socket) => GetOutcome(s, Ok(socket), [])
      case None =>
        match bind
        case Err(e) => GetOutcome(s, Err(Bind(e)), [Ipv6Wildcard])
        case Ok(socket) => GetOutcome(s.(ipv4 := Some(socket)), Ok(socket), [Ipv6Wildcard])
    else
      GetOutcome(s, Err(UnknownSocketType), [])
  }

  /** An empty slot is filled by a successful bind on the family's wildcard endpoint. */
  lemma GetBindsWhenEmpty(s: Slots, address: SocketAddr, socket: UdpSocket)
    requires s.ipv4.None? && (address.V4? || address.V6?)
    ensures var o := GetStep(s, address, Ok(socket));
      && o.result == Ok(socket)
      && o.slots == s.(ipv4 := Some(socket))
      && o.binds == [if address.V4? then Ipv4Wildcard else Ipv6Wildcard]
  {
  }

  /** A filled slot is reused: its socket is returned and nothing is bound or changed. */
  lemma GetReusesSetSlot(s: Slots, address: SocketAddr, bind: BindOutcome)
    requires s.ipv4.Some? && (address.V4? || address.V6?)
    ensures GetStep(s, address, bind) == GetOutcome(s, Ok(s.ipv4.value), [])
  {
  }

  /** A failed bind is reported as `Bind` and leaves the slots as they were. */
  lemma GetBindFailureLeavesSlot(s: Slots, address: SocketAddr, e: IoError)
    requires s.ipv4.None? && (address.V4? || address.V6?)
    ensures var o := GetStep(s, address, Err(e));
      o.result == Err(Bind(e)) && o.slots == s && |o.binds| == 1
  {
  }

  /** An address of neither family is refused and changes nothing. */
  lemma GetUnknownFamily(s: Slots, address: SocketAddr, bind: BindOutcome)
    requires address.OtherFamily?
    ensures GetStep(s, address, bind) == GetOutcome(s, Err(UnknownSocketType), [])
  {
  }

  /**
   * Every `get` either leaves the slots alone or fills the empty IPv4 slot with the
   * socket it returns; the IPv6 slot is never written, and a filled slot never changes.
   */
  lemma GetSlotDiscipline(s: Slots, address: SocketAddr, bind: BindOutcome)
    ensures var o := GetStep(s, address, bind);
      && o.slots.ipv6 == s.ipv6
      && (o.slots == s || (s.ipv4.None? && o.result.Ok? && o.slots.ipv4 == Some(o.result.value)))
      && (s.ipv4.Some? ==> o.slots == s)
      && (o.result.Ok? <==> (address.V4? || address.V6?) && (s.ipv4.Some? || bind.Ok?))
      && (|o.binds| == 1 <==> (address.V4? || address.V6?) && s.ipv4.None?)
  {
  }

  /** As written, an IPv6 request is served by the socket already bound for IPv4. */
  lemma Ipv6ReusesIpv4Socket(v4: SocketAddr, v6: SocketAddr, socket: UdpSocket, bind: BindOutcome)
    requires v4.V4? && v6.V6?
    ensures var first := GetStep(NoSockets, v4, Ok(socket));
      var second := GetStep(first.slots, v6, bind);
      second.result == Ok(socket) && second.binds == [] && second.slots.ipv6.None?
  {
  }

  /** A sequence of `get` calls, each with the bind outcome it would meet. */
  datatype Call = Call(address: SocketAddr, bind: BindOutcome)

  /** The slots after a sequence of calls. */
  function SlotsAfter(s: Slots, calls: seq<Call>): Slots
    decreases |calls|
  {
    if calls == [] then s
    else SlotsAfter(GetStep(s, calls[0].address, calls[0].bind).slots, calls[1..])
  }

  /** Once the IPv4 slot holds a socket, no later sequence of calls replaces it. */
  lemma {:induction false} SetSlotIsPermanent(s: Slots, calls: seq<Call>)
    requires s.ipv4.Some?
    ensures SlotsAfter(s, calls) == s
    decreases |calls|
  {
    if calls != [] {
      GetSlotDiscipline(s, calls[0].address, calls[0].bind);
      SetSlotIsPermanent(s, calls[1..]);
    }
  }

  /** The IPv6 slot keeps its initial content through any sequence of calls. */
  lemma {:induction false} Ipv6SlotNeverWritten(s: Slots, calls: seq<Call>)
    ensures SlotsAfter(s, calls).ipv6 == s.ipv6
    decreases |calls|
  {
    if calls != [] {
      GetSlotDiscipline(s, calls[0].address, calls[0].bind);
      Ipv6SlotNeverWritten(GetStep(s, calls[0].address, calls[0].bind).slots, calls[1..]);
    }
  }

  /** A bind failure does not poison the slot: the next call binds again and may succeed. */
  lemma BindRetriedAfterFailure(address: SocketAddr, e: IoError, socket: UdpSocket)
    requires address.V4?
    ensures var first := GetStep(NoSockets, address, Err(e));
      var second := GetStep(first.slots, address, Ok(socket));
      && first.result == Err(Bind(e))
      && second.result == Ok(socket) && second.binds == [Ipv4Wildcard]
      && second.slots.ipv4 == Some(socket)
  {
  }

  /**
   * The factory object. `requests` and `bindLog` are ghost records of the calls
   * made to `get` and of the bind attempts, so that callers can state which
   * candidates they asked for and how often a socket was bound.
   */
  class Factory {
    var ipv4Socket: Option<UdpSocket>
    var ipv6Socket: Option<UdpSocket>
    ghost var requests: seq<SocketAddr>
    ghost var bindLog: seq<string>

    function State(): Slots
      reads this
    {
      Slots(ipv4Socket, ipv6Socket)
    }

    /** `Factory::new`: both slots empty. */
    constructor ()
      ensures State() == NoSockets
      ensures requests == [] && bindLog == []
    {
      ipv4Socket, ipv6Socket := None, None;
      requests, bindLog := [], [];
    }

    /**
     * `Factory::get`. The bind outcome is that of `UdpSocket::bind`, consulted only
     * when the slot is empty; the lock taken on the stored socket is not modelled.
     */
    method Get(address: SocketAddr, bind: BindOutcome) returns (r: Result<UdpSocket, SocketError>)
      modifies this
      ensures var o := GetStep(old(State()), address, bind);
        && State() == o.slots && r == o.result
        && requests == old(requests) + [address]
        && bindLog == old(bindLog) + o.binds
    {
      requests := requests + [address];
      if address.V4? {
        var socket;
        match ipv4Socket {
          case Some(value) =>
            socket := value;
          case None =>
            bindLog := bindLog + [Ipv4Wildcard];
            if bind.Err? {
              return Err(Bind(bind.error));
            }
            ipv4Socket := Some(bind.value);
            socket := bind.value;
        }
        return Ok(socket);
      }
      if address.V6? {
        var socket;
        match ipv4Socket {
          case Some(value) =>
            socket := value;
          case None =>
            bindLog := bindLog + [Ipv6Wildcard];
            if bind.Err? {
              return Err(Bind(bind.error));
            }
            ipv4Socket := Some(bind.value);
            socket := bind.value;
        }
        return Ok(socket);
      }
      return Err(UnknownSocketType);
    }
  }
}
