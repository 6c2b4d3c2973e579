/** The proxy record that flows from the fetchers through deduplication to the checker. */
module Models {
  import opened Strings

  /** A proxy protocol tag; any string may appear, three are recognised. */
  type Protocol = string

  const HTTP: Protocol := "http"
  const SOCKS4: Protocol := "socks4"
  const SOCKS5: Protocol := "socks5"

  datatype Proxy = Proxy(ip: string, port: string, protocol: Protocol, source: string)

  /** Proxy.Address: the "IP:Port" form. */
  function Address(p: Proxy): (s: string)
    ensures |s| == |p.ip| + 1 + |p.port|
    ensures s[..|p.ip|] == p.ip && s[|p.ip|] == ':' && s[|p.ip| + 1..] == p.port
  {
    p.ip + ":" + p.port
  }

  /** Proxy.String: the "protocol://IP:Port" form. */
  function String(p: Proxy): (s: string)
    ensures s == p.protocol + "://" + Address(p)
  {
    p.protocol + "://" + p.ip + ":" + p.port
  }

  /** When the IP has no ':', splitting the address at ':' recovers the IP and then the port's pieces. */
  lemma AddressSplit(p: Proxy)
    requires ':' !in p.ip
    ensures Split(Address(p), ':') == [p.ip] + Split(p.port, ':')
    ensures ':' !in p.port ==> Split(Address(p), ':') == [p.ip, p.port]
  {
    SplitAtFirst(p.ip, p.port, ':');
    if ':' !in p.port {
      SplitNoSep(p.port, ':');
    }
  }

  /** Two proxies whose IPs have no ':' share an address exactly when they share IP and port. */
  lemma AddressInjective(p: Proxy, q: Proxy)
    requires ':' !in p.ip && ':' !in q.ip
    ensures Address(p) == Address(q) <==> p.ip == q.ip && p.port == q.port
  {
    if Address(p) == Address(q) {
      AddressSplit(p);
      AddressSplit(q);
      assert p.port == Join(Split(p.port, ':'), ':');
    }
  }

  /** The three protocol constants are distinct and already lower-case. */
  lemma {:induction false} ProtocolConstants()
    ensures HTTP != SOCKS4 && HTTP != SOCKS5 && SOCKS4 != SOCKS5
    ensures ToLower(HTTP) == HTTP && ToLower(SOCKS4) == SOCKS4 && ToLower(SOCKS5) == SOCKS5
  {
    ToLowerFixed(HTTP);
    ToLowerFixed(SOCKS4);
    ToLowerFixed(SOCKS5);
  }
}
