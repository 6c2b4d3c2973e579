/**
 * The SOCKS4 CONNECT handshake of SOCKS4Dialer.Dial: destination
 * resolution, the nine-byte request, the reply check, and which paths
 * write the request and close the connection.
 */
module Socks4 {
  import opened Wrappers
  import opened Strconv
  import opened Net
  import Strings

  /** Why Dial fails. */
  datatype DialError =
    | ConnectFailed               // net.DialTimeout to the proxy failed
    | BadAddress(e: AddrError)    // the destination "host:port" does not split
    | BadPort(n: NumError)        // the destination port is not a decimal integer
    | ResolveFailed(host: string) // "failed to resolve IP for <host>"
    | NotIPv4                     // "SOCKS4 only supports IPv4"
    | WriteFailed
    | ReadFailed
    | Rejected(code: Byte)        // "SOCKS4 request failed with code: <code>"

  /**
   * Name resolution as seen by Dial: the zone-free IPv6 literal parser of
   * net.ParseIP and net.LookupIP (None when the lookup fails).
   */
  datatype Resolver = Resolver(parseIPv6: string -> Option<seq<Byte>>, lookup: string -> Option<seq<seq<Byte>>>)

  /** What one conn.Read into the 8-byte reply buffer returns. */
  datatype ReadResult = ReadOk(data: seq<Byte>) | ReadError

  /** The address to tunnel to: a literal IP is used as it is, otherwise the first lookup result. */
  function Resolve(host: string, res: Resolver): (r: Result<seq<Byte>, DialError>)
    ensures ParseIP(host, res.parseIPv6).Some? ==> r == Ok(ParseIP(host, res.parseIPv6).value)
    ensures ParseIP(host, res.parseIPv6).None? ==>
      match res.lookup(host)
      case Some(ips) => if |ips| > 0 then r == Ok(ips[0]) else r == Err(ResolveFailed(host))
      case None => r == Err(ResolveFailed(host))
  {
    match ParseIP(host, res.parseIPv6)
    case Some(ip) => Ok(ip)
    case None =>
      match res.lookup(host)
      case Some(ips) => if |ips| == 0 then Err(ResolveFailed(host)) else Ok(ips[0])
      case None => Err(ResolveFailed(host))
  }

  /** The destination port (as Atoi read it) and IPv4 address, or the error Dial reports before writing. */
  function Destination(addr: string, res: Resolver): (r: Result<(int, seq<Byte>), DialError>)
    ensures SplitHostPort(addr).Err? ==> r == Err(BadAddress(SplitHostPort(addr).error))
    ensures SplitHostPort(addr).Ok? && Atoi(SplitHostPort(addr).value.1).Err? ==>
      r == Err(BadPort(Atoi(SplitHostPort(addr).value.1).error))
    ensures r.Ok? ==> |r.value.1| == 4 && MinInt64 <= r.value.0 <= MaxInt64
    ensures r.Ok? ==> SplitHostPort(addr).Ok? && Atoi(SplitHostPort(addr).value.1) == Ok(r.value.0)
    ensures SplitHostPort(addr).Ok? && Atoi(SplitHostPort(addr).value.1).Ok? ==>
      var host := SplitHostPort(addr).value.0;
      && (Resolve(host, res).Err? ==> r == Err(Resolve(host, res).error))
      && (Resolve(host, res).Ok? && To4(Resolve(host, res).value).None? ==> r == Err(NotIPv4))
      && (r.Ok? <==> Resolve(host, res).Ok? && To4(Resolve(host, res).value).Some?)
      && (r.Ok? ==> To4(Resolve(host, res).value) == Some(r.value.1))
  {
    match SplitHostPort(addr)
    case Err(e) => Err(BadAddress(e))
    case Ok((host, portStr)) =>
      match Atoi(portStr)
      case Err(e) => Err(BadPort(e))
      case Ok(port) =>
        match Resolve(host, res)
        case Err(e) => Err(e)
        case Ok(ip) =>
          match To4(ip)
          case None => Err(NotIPv4)
          case Some(ip4) => Ok((port, ip4))
  }

  /** The SOCKS4 CONNECT request: VN=4, CD=1, the port as uint16 big-endian, the IPv4 address, an empty user id. */
  function Request(port: int, ip4: seq<Byte>): (r: seq<Byte>)
    requires |ip4| == 4
    ensures |r| == 9
  {
    var p16 := port % 0x1_0000;
    [4, 1, p16 / 256, p16 % 256] + ip4 + [0]
  }

  /** Reads a request back: the 16-bit port and the address, if the bytes have the request's shape. */
  function ParseRequest(r: seq<Byte>): (d: Option<(nat, seq<Byte>)>) {
    if |r| == 9 && r[0] == 4 && r[1] == 1 && r[8] == 0 then Some((r[2] as int * 256 + r[3] as int, r[4..8])) else None
  }

  /**
   * The request encodes exactly the port truncated to 16 bits and the address,
   * and every well-formed request is the encoding of what it decodes to.
   */
  lemma RequestRoundTrip(port: int, ip4: seq<Byte>, r: seq<Byte>)
    requires |ip4| == 4
    ensures ParseRequest(Request(port, ip4)) == Some((port % 0x1_0000, ip4))
    ensures ParseRequest(r).Some? ==> Request(ParseRequest(r).value.0, ParseRequest(r).value.1) == r
  {
    var q := Request(port, ip4);
    assert q[4..8] == ip4;
    if ParseRequest(r).Some? {
      var p := r[2] as int * 256 + r[3] as int;
      assert p % 0x1_0000 / 256 == r[2] && p % 256 == r[3];
      assert r == [r[0], r[1], r[2], r[3]] + r[4..8] + [r[8]];
    }
  }

  /** The 8-byte reply buffer after one read: the bytes read, then the zeros it was made with. */
  function ReplyBuffer(data: seq<Byte>): (buf: seq<Byte>)
    ensures |buf| == 8
    ensures forall i :: 0 <= i < 8 ==> buf[i] == if i < |data| then data[i] else 0
  {
    if |data| >= 8 then data[..8] else data + seq(8 - |data|, _ => 0)
  }

  /** The reply grants the request when its status byte (index 1) is 90. */
  predicate Granted(resp: seq<Byte>)
    requires |resp| >= 2
  {
    resp[1] == 0x5A
  }

  /** The request Dial writes for addr, or the error it fails with before writing. */
  function Prepare(addr: string, res: Resolver): (r: Result<seq<Byte>, DialError>)
    ensures r.Ok? <==> Destination(addr, res).Ok?
    ensures r.Err? ==> r.error == Destination(addr, res).error
    ensures r.Ok? ==> ParseRequest(r.value) == Some((Destination(addr, res).value.0 % 0x1_0000, Destination(addr, res).value.1))
  {
    match Destination(addr, res)
    case Err(e) => Err(e)
    case Ok((port, ip4)) =>
      RequestRoundTrip(port, ip4, []);
      Ok(Request(port, ip4))
  }

  /** The outcome of Dial once the TCP connection to the proxy is open: None means the tunnel is granted. */
  function Handshake(addr: string, res: Resolver, writeOk: bool, reply: ReadResult): Option<DialError> {
    match Prepare(addr, res)
    case Err(e) => Some(e)
    case Ok(_) =>
      if !writeOk then Some(WriteFailed)
      else match reply
        case ReadError => Some(ReadFailed)
        case ReadOk(data) =>
          var buf := ReplyBuffer(data);
          if !Granted(buf) then Some(Rejected(buf[1])) else None
  }

  /**
   * Dial succeeds exactly when the request could be built and written, a reply
   * was read and its byte at index 1 is 90; otherwise a bad reply is reported
   * with that byte as its code.
   */
  lemma HandshakeGranted(addr: string, res: Resolver, writeOk: bool, reply: ReadResult)
    ensures Handshake(addr, res, writeOk, reply) == None <==>
      Prepare(addr, res).Ok? && writeOk && reply.ReadOk? && Granted(ReplyBuffer(reply.data))
    ensures Prepare(addr, res).Ok? && writeOk && reply.ReadOk? && !Granted(ReplyBuffer(reply.data)) ==>
      Handshake(addr, res, writeOk, reply) == Some(Rejected(ReplyBuffer(reply.data)[1]))
    ensures Prepare(addr, res).Ok? && writeOk && reply.ReadOk? && |reply.data| >= 2 ==>
      (Handshake(addr, res, writeOk, reply) == None <==> reply.data[1] == 0x5A)
  {
  }

  /** The worked example: 93.184.216.34:443 is sent as 04 01 01 BB 5D B8 D8 22 00, with no lookup. */
  lemma ExampleRequest(res: Resolver)
    ensures Prepare("93.184.216.34:443", res) == Ok([0x04, 0x01, 0x01, 0xBB, 0x5D, 0xB8, 0xD8, 0x22, 0x00])
  {
    ExampleDestination(res);
    ExampleLiterals();
  }

  lemma ExampleDestination(res: Resolver)
    ensures Destination("93.184.216.34:443", res) == Ok((443, [93, 184, 216, 34]))
  {
    var o: seq<Byte> := [93, 184, 216, 34];
    var host := "93.184.216.34";
    ExampleHost();
    SplitPlain(host, "443");
    AtoiFormatNat(443);
    ParseIPv4Literal(o, res.parseIPv6);
    assert Resolve(host, res) == Ok(ParseIP(host, res.parseIPv6).value);
    ExampleLiterals();
  }

  lemma ExampleHost()
    ensures FormatIPv4([93, 184, 216, 34]) == "93.184.216.34"
    ensures FormatNat(443) == "443"
  {
    ExampleOctets();
    Decimal3(4, 4, 3, 443);
    Strings.Join4("93", "184", "216", "34", '.');
  }

  lemma ExampleOctets()
    ensures FormatNat(93) == "93" && FormatNat(184) == "184" && FormatNat(216) == "216" && FormatNat(34) == "34"
  {
    Decimal3(9, 3, 0, 93);
    Decimal3(1, 8, 4, 184);
    Decimal3(2, 1, 6, 216);
    Decimal3(3, 4, 0, 34);
  }

  lemma ExampleLiterals()
    ensures "93.184.216.34" + ":" + "443" == "93.184.216.34:443"
    ensures Request(443, [93, 184, 216, 34]) == [0x04, 0x01, 0x01, 0xBB, 0x5D, 0xB8, 0xD8, 0x22, 0x00]
  {
  }

  /** FormatNat on one concrete number of two or three digits. */
  lemma Decimal3(a: nat, b: nat, c: nat, n: nat)
    requires 0 < a < 10 && b < 10 && c < 10
    requires n == a * 100 + b * 10 + c || (n == a * 10 + b && c == 0 && n >= 10 && n < 100)
    ensures n >= 100 ==> FormatNat(n) == [DigitChar(a), DigitChar(b), DigitChar(c)]
    ensures n < 100 ==> FormatNat(n) == [DigitChar(a), DigitChar(b)]
  {
    if n >= 100 {
      assert FormatNat(n / 10) == FormatNat(a * 10 + b) == [DigitChar(a), DigitChar(b)];
    }
  }

  /**
   * Once the request is built and written, an eight-byte reply alone decides
   * the outcome: 00 5A 00 00 00 00 00 00 is success, 00 5B ... fails with code 91.
   */
  lemma ReplyAfterRequest(addr: string, res: Resolver, data: seq<Byte>)
    requires Prepare(addr, res).Ok? && |data| == 8
    ensures Handshake(addr, res, true, ReadOk(data)) == if data[1] == 0x5A then None else Some(Rejected(data[1]))
  {
    assert ReplyBuffer(data) == data;
  }

  /** A destination with a dotted-decimal host never consults the lookup. */
  lemma LiteralHostNoLookup(o: seq<Byte>, port: string, res: Resolver)
    requires |o| == 4
    requires ':' !in port && '[' !in port && ']' !in port
    ensures Destination(FormatIPv4(o) + ":" + port, res) ==
      match Atoi(port) case Ok(n) => Ok((n, o)) case Err(e) => Err(BadPort(e))
  {
    ParseIPv4Literal(o, res.parseIPv6);
    FormatIPv4Plain(o);
    SplitPlain(FormatIPv4(o), port);
  }

  /** A host whose lookup fails or finds nothing is an error before anything is written. */
  lemma UnresolvableHost(addr: string, host: string, port: string, res: Resolver)
    requires SplitHostPort(addr) == Ok((host, port))
    requires Atoi(port).Ok?
    requires ParseIP(host, res.parseIPv6).None?
    requires res.lookup(host).None? || res.lookup(host) == Some([])
    ensures Prepare(addr, res) == Err(ResolveFailed(host))
  {
  }

  /**
   * A destination with only an IPv6 address, a literal one ("[2001:db8::1]:443")
   * or one found by the lookup, is refused before anything is written.
   */
  lemma IPv6OnlyRefused(addr: string, host: string, port: string, res: Resolver, ip: seq<Byte>)
    requires SplitHostPort(addr) == Ok((host, port))
    requires Atoi(port).Ok?
    requires Resolve(host, res) == Ok(ip)
    requires |ip| == 16 && ip[..12] != V4InV6Prefix
    ensures Prepare(addr, res) == Err(NotIPv4)
  {
  }

  /**
   * A bracketed IPv6 literal destination, as http.Transport passes it for an
   * https://[2001:db8::1]/ target, is refused unless the literal is IPv4-mapped.
   */
  lemma BracketedIPv6Refused(host: string, port: string, res: Resolver, ip: seq<Byte>)
    requires ':' in host && '.' !in host && '%' !in host && '[' !in host && ']' !in host
    requires ':' !in port && '[' !in port && ']' !in port
    requires Atoi(port).Ok?
    requires res.parseIPv6(host) == Some(ip)
    requires |ip| == 16 && ip[..12] != V4InV6Prefix
    ensures Prepare("[" + host + "]:" + port, res) == Err(NotIPv4)
  {
    SplitBracketed(host, port);
    FirstMarkerColon(host);
    IPv6OnlyRefused("[" + host + "]:" + port, host, port, res, ip);
  }

  /** The SOCKS4Dialer's configuration. */
  datatype Dialer = Dialer(proxyIP: string, proxyPort: string, timeout: int)

  /**
   * A TCP connection to the proxy. The peer's behaviour is fixed when it is
   * opened (whether the write goes through, what the read returns); the
   * fields record what Dial did with it.
   */
  class Conn {
    const remote: string
    const writeOk: bool
    const reply: ReadResult
    var writes: seq<seq<Byte>>
    var closed: bool
    var deadline: Option<int>

    constructor (remote: string, writeOk: bool, reply: ReadResult)
      ensures this.remote == remote && this.writeOk == writeOk && this.reply == reply
      ensures writes == [] && !closed && deadline == None
    {
      this.remote := remote;
      this.writeOk := writeOk;
      this.reply := reply;
      writes := [];
      closed := false;
      deadline := None;
    }

    /** conn.SetDeadline: Some(d) is "d from now", None clears the deadline. */
    method SetDeadline(d: Option<int>)
      modifies this
      ensures deadline == d && writes == old(writes) && closed == old(closed)
    {
      deadline := d;
    }

    method Write(b: seq<Byte>) returns (ok: bool)
      modifies this
      ensures writes == old(writes) + [b] && ok == writeOk
      ensures closed == old(closed) && deadline == old(deadline)
    {
      writes := writes + [b];
      ok := writeOk;
    }

    method Read() returns (r: ReadResult)
      ensures r == reply
    {
      r := reply;
    }

    method Close()
      modifies this
      ensures closed && writes == old(writes) && deadline == old(deadline)
    {
      closed := true;
    }
  }

  /**
   * The steps of Dial between opening the connection and writing (split the
   * address, read the port, resolve the host, insist on IPv4), each
   * returning at its first failure.
   */
  method ResolveDestination(addr: string, res: Resolver) returns (r: Result<(int, seq<Byte>), DialError>)
    ensures r == Destination(addr, res)
  {
    var split := SplitHostPort(addr);
    if split.Err? {
      return Err(BadAddress(split.error));
    }
    var (host, portStr) := split.value;
    var atoi := Atoi(portStr);
    if atoi.Err? {
      return Err(BadPort(atoi.error));
    }
    var port := atoi.value;

    var ip := ParseIP(host, res.parseIPv6);
    if ip.None? {
      var ips := res.lookup(host);
      if ips.None? || |ips.value| == 0 {
        return Err(ResolveFailed(host));
      }
      ip := Some(ips.value[0]);
    }
    assert Resolve(host, res) == Ok(ip.value);
    var ip4 := To4(ip.value);
    if ip4.None? {
      return Err(NotIPv4);
    }
    return Ok((port, ip4.value));
  }

  /** Dial's construction of the request by successive appends. */
  method BuildRequest(port: int, ip4: seq<Byte>) returns (req: seq<Byte>)
    requires |ip4| == 4
    ensures req == Request(port, ip4)
  {
    req := [];
    req := req + [4];
    req := req + [1];
    var p16 := port % 0x1_0000;
    var portBytes: seq<Byte> := [p16 / 256, p16 % 256];
    req := req + portBytes;
    req := req + ip4;
    req := req + [0];
    assert req == [4, 1] + portBytes + ip4 + [0];
  }

  /**
   * SOCKS4Dialer.Dial. tcp is the connection net.DialTimeout opened to the
   * proxy, or null when that failed.
   */
  method Dial(d: Dialer, tcp: Conn?, addr: string, res: Resolver) returns (conn: Conn?, err: Option<DialError>)
    requires tcp != null ==> tcp.remote == d.proxyIP + ":" + d.proxyPort
    requires tcp != null ==> tcp.writes == [] && !tcp.closed
    modifies tcp
    ensures tcp == null ==> conn == null && err == Some(ConnectFailed)
    ensures tcp != null ==> err == Handshake(addr, res, tcp.writeOk, tcp.reply)
    ensures conn == if err.None? then tcp else null
    ensures tcp != null ==> tcp.closed == err.Some?
    ensures tcp != null ==> tcp.writes == match Prepare(addr, res) case Ok(req) => [req] case Err(_) => []
    ensures tcp != null ==> tcp.deadline == if err.None? then None else Some(d.timeout)
  {
    if tcp == null {
      return null, Some(ConnectFailed);
    }
    tcp.SetDeadline(Some(d.timeout));

    var dest := ResolveDestination(addr, res);
    if dest.Err? {
      tcp.Close();
      return null, Some(dest.error);
    }
    var (port, ip4) := dest.value;

    var req := BuildRequest(port, ip4);
    assert Prepare(addr, res) == Ok(req);

    var ok := tcp.Write(req);
    if !ok {
      tcp.Close();
      return null, Some(WriteFailed);
    }
    var reply := tcp.Read();
    if reply.ReadError? {
      tcp.Close();
      return null, Some(ReadFailed);
    }
    var resp := ReplyBuffer(reply.data);
    if resp[1] != 0x5A {
      tcp.Close();
      return null, Some(Rejected(resp[1]));
    }

    tcp.SetDeadline(None);
    return tcp, None;
  }
}
