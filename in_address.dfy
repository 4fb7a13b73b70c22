/** Internet address value type: 16 raw bytes plus an address family,
    parsed from text by a first-success chain (IPv4, then IPv6). The
    platform text parser `inet_pton` is foreign code; it is a parameter
    `pton` of type Pton and nothing is assumed about it. */
module InAddress {
  import opened Wrappers
  import MBind

  /** Address family numbers of Linux <sys/socket.h>. */
  const AF_INET: int := 2
  const AF_INET6: int := 10

  const MAX_IN_ADDR_BYTE_LEN: nat := 16
  /** Text length bounds: a candidate string must be strictly shorter. */
  const MAX_IP4_STR_LEN: nat := 16
  const MAX_IP6_STR_LEN: nat := 46

  type Byte = bv8

  /** `bytes_t`: a fixed array of MAX_IN_ADDR_BYTE_LEN bytes. */
  type AddrBytes = s: seq<Byte> | |s| == 16
    witness [0, 0, 0, 0, 0, 0, 0, 0, 0, 0, 0, 0, 0, 0, 0, 0]

  /** `inet_pton(af, str, &buff)`: Some(buff) when it returns a positive
      value, None otherwise. */
  type Pton = (int, string) -> Option<AddrBytes>

  /** The pair (bytes, family) produced by one parser. */
  type Parsed = (AddrBytes, int)

  /** `in_address_t`, built from bytes and a family and stored verbatim. */
  datatype InAddr = InAddr(data: AddrBytes, family: int)
  {
    predicate IsIpv4() { family == AF_INET }
    predicate IsIpv6() { family == AF_INET6 }
    function Bytes(): AddrBytes { data }
    function Family(): int { family }
  }

  /** `in_address_port_t`. The port (`uint_fast16_t`) is never computed on
      in this core, so its width is not modelled. */
  datatype AddressPort = AddressPort(addr: InAddr, port: nat)

  /** `parser<AF, MAX_LEN>(str)`: a deferred parse that succeeds when the
      text is shorter than `maxLen` and the platform parser accepts it for
      family `af`; the family of the result is `af`. */
  function Parser(af: int, maxLen: nat, str: string, pton: Pton): (p: () -> Option<Parsed>)
    ensures p().Some? <==> |str| < maxLen && pton(af, str).Some?
    ensures p().Some? ==> p().value == (pton(af, str).value, af)
  {
    () => if |str| < maxLen && pton(af, str).Some? then Some((pton(af, str).value, af)) else None
  }

  /** `init(addr)`: `{} | parser<ipv4, 16>(addr) | parser<ipv6, 46>(addr)`. */
  function Init(addr: string, pton: Pton): (r: Option<Parsed>)
    ensures r.Some? ==> r.value.1 == AF_INET || r.value.1 == AF_INET6
    ensures r.Some? && r.value.1 == AF_INET ==> |addr| < MAX_IP4_STR_LEN
    ensures r.Some? && r.value.1 == AF_INET6 ==> |addr| < MAX_IP6_STR_LEN
  {
    MBind.OrElse(
      MBind.OrElse(None, Parser(AF_INET, MAX_IP4_STR_LEN, addr, pton)),
      Parser(AF_INET6, MAX_IP6_STR_LEN, addr, pton))
  }

  /** `in_address_t::create(addr)`: the non-throwing factory. */
  function Create(addr: string, pton: Pton): (r: Option<InAddr>)
    ensures r.None? <==> Init(addr, pton).None?
    ensures r.Some? ==> r.value.Bytes() == Init(addr, pton).value.0 && r.value.Family() == Init(addr, pton).value.1
    ensures r.Some? ==> r.value.IsIpv4() != r.value.IsIpv6()
  {
    match Init(addr, pton)
    case Some(parsed) => Some(InAddr(parsed.0, parsed.1))
    case None => None
  }

  /** The exception the string constructor throws. */
  datatype InvalidArgument = InvalidArgument(what: string)

  /** The throwing constructor `in_address_t(std::string const&)`. */
  function FromString(addr: string, pton: Pton): (r: Result<InAddr, InvalidArgument>)
    ensures r.Failure? <==> Create(addr, pton).None?
    ensures r.Success? ==> Create(addr, pton) == Some(r.value)
    ensures r.Failure? ==> r.error.what == "String {" + addr + "} is invalid IP address"
  {
    match Init(addr, pton)
    case Some(parsed) => Success(InAddr(parsed.0, parsed.1))
    case None => Failure(InvalidArgument("String {" + addr + "} is invalid IP address"))
  }

  /** A parser succeeds exactly when the text is below its bound and the
      platform parser accepts it, and then reports its own family and the
      platform parser's bytes. */
  lemma ParserSucceedsIff(af: int, maxLen: nat, str: string, pton: Pton)
    ensures Parser(af, maxLen, str, pton)().Some? <==> |str| < maxLen && pton(af, str).Some?
    ensures Parser(af, maxLen, str, pton)().Some? ==>
              Parser(af, maxLen, str, pton)() == Some((pton(af, str).value, af))
  {
  }

  /** IPv4 is tried first: when it accepts, the result is the IPv4 address
      and the IPv6 answer of the platform parser is never consulted. */
  lemma CreatePrefersIpv4(addr: string, pton: Pton, pton': Pton)
    requires |addr| < MAX_IP4_STR_LEN && pton(AF_INET, addr).Some?
    requires pton'(AF_INET, addr) == pton(AF_INET, addr)
    ensures Create(addr, pton) == Some(InAddr(pton(AF_INET, addr).value, AF_INET))
    ensures Create(addr, pton') == Create(addr, pton)
  {
  }

  /** When the IPv4 parser fails, `create` is exactly the IPv6 parser's
      outcome, with family AF_INET6. */
  lemma CreateFallsBackToIpv6(addr: string, pton: Pton)
    requires !(|addr| < MAX_IP4_STR_LEN && pton(AF_INET, addr).Some?)
    ensures Create(addr, pton).Some? <==> |addr| < MAX_IP6_STR_LEN && pton(AF_INET6, addr).Some?
    ensures Create(addr, pton).Some? ==>
              Create(addr, pton) == Some(InAddr(pton(AF_INET6, addr).value, AF_INET6))
  {
  }

  /** `create` succeeds exactly when one of the two guarded parsers does. */
  lemma CreateSucceedsIff(addr: string, pton: Pton)
    ensures Create(addr, pton).Some? <==>
              (|addr| < MAX_IP4_STR_LEN && pton(AF_INET, addr).Some?) ||
              (|addr| < MAX_IP6_STR_LEN && pton(AF_INET6, addr).Some?)
  {
  }

  /** No text of 46 characters or more is accepted, whatever the platform
      parser says. */
  lemma CreateRejectsLongText(addr: string, pton: Pton)
    requires |addr| >= MAX_IP6_STR_LEN
    ensures Create(addr, pton) == None
    ensures FromString(addr, pton).Failure?
  {
  }

  /** A created address is IPv4 or IPv6, never both, and its family tells
      which parser produced it. */
  lemma CreatedFamily(addr: string, pton: Pton)
    requires Create(addr, pton).Some?
    ensures var a := Create(addr, pton).value;
            (a.IsIpv4() <==> |addr| < MAX_IP4_STR_LEN && pton(AF_INET, addr).Some?) &&
            (a.IsIpv6() <==> !a.IsIpv4()) &&
            (a.IsIpv4() || a.IsIpv6())
  {
  }

  /** The bytes/family constructor stores its arguments and the getters
      return them; the two family tests exclude each other. */
  lemma GettersReturnStored(data: AddrBytes, family: int)
    ensures InAddr(data, family).Bytes() == data
    ensures InAddr(data, family).Family() == family
    ensures InAddr(data, family).IsIpv4() <==> family == AF_INET
    ensures InAddr(data, family).IsIpv6() <==> family == AF_INET6
    ensures !(InAddr(data, family).IsIpv4() && InAddr(data, family).IsIpv6())
  {
  }

  /** "1111.123.123.123" has 16 characters, so the IPv4 bound rejects it
      before the platform parser is asked; it is then rejected as a whole
      whenever the platform refuses it as IPv6 text. */
  lemma RejectsOverlongDottedQuad(pton: Pton)
    requires pton(AF_INET6, "1111.123.123.123").None?
    ensures Create("1111.123.123.123", pton) == None
    ensures FromString("1111.123.123.123", pton).Failure?
  {
    assert |"1111.123.123.123"| == MAX_IP4_STR_LEN;
  }
}
