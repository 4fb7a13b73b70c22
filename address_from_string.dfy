/** `from_string_and_port`: an address parsed from text paired with a
    port, built as one `mbind` over `in_address_t::create`. It never
    throws; failure is the empty result. */
module AddressFromString {
  import opened Wrappers
  import MBind
  import opened InAddress

  function FromStringAndPort(str: string, port: nat, pton: Pton): (r: Option<AddressPort>)
    ensures r.None? <==> Create(str, pton).None?
    ensures r.Some? ==> r.value.addr == Create(str, pton).value && r.value.port == port
  {
    MBind.Bind(Create(str, pton), (addr: InAddr) => Some(AddressPort(addr, port)))
  }

  /** The port never influences whether parsing succeeds. */
  lemma PortIndependent(str: string, p: nat, q: nat, pton: Pton)
    ensures FromStringAndPort(str, p, pton).Some? <==> FromStringAndPort(str, q, pton).Some?
  {
  }
}
