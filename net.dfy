/**
 * The parts of Go's `net` package that the SOCKS4 dialer calls:
 * SplitHostPort, ParseIP (IPv4 dotted-decimal form in full; the IPv6
 * literal parser is a parameter) and IP.To4.
 */
module Net {
  import opened Wrappers
  import opened Strings
  import opened Strconv

  type Byte = b: int | 0 <= b < 256

  /** The reasons net.SplitHostPort gives for refusing an address. */
  datatype AddrError = MissingPort | TooManyColons | MissingBracket | UnexpectedOpenBracket | UnexpectedCloseBracket

  /** The host part must not be followed by brackets outside the expected places. */
  function CheckBrackets(hostport: string, host: string, j: nat, k: nat, i: nat): (r: Result<(string, string), AddrError>)
    requires j <= |hostport| && k <= |hostport| && i < |hostport|
    ensures r.Ok? ==> r.value == (host, hostport[i + 1..])
    ensures r.Ok? <==> '[' !in hostport[j..] && ']' !in hostport[k..]
  {
    if IndexChar(hostport[j..], '[') >= 0 then Err(UnexpectedOpenBracket)
    else if IndexChar(hostport[k..], ']') >= 0 then Err(UnexpectedCloseBracket)
    else Ok((host, hostport[i + 1..]))
  }

  /**
   * net.SplitHostPort: the port is what follows the last ':'; the host is
   * what precedes it, or what stands between '[' and ']' in the bracketed form.
   */
  function SplitHostPort(hostport: string): (r: Result<(string, string), AddrError>)
    ensures ':' !in hostport ==> r == Err(MissingPort)
    ensures r.Ok? ==> ':' !in r.value.1 && ']' !in r.value.1 && '[' !in r.value.0 && ']' !in r.value.0
    ensures r.Ok? ==> hostport == r.value.0 + ":" + r.value.1 || hostport == "[" + r.value.0 + "]:" + r.value.1
    ensures r.Ok? && (|hostport| == 0 || hostport[0] != '[') ==> ':' !in r.value.0
  {
    var i := LastIndexChar(hostport, ':');
    if i < 0 then Err(MissingPort)
    else if hostport[0] == '[' then SplitBracketedForm(hostport, i)
    else SplitPlainForm(hostport, i)
  }

  /** The bracketed form "[host]:port", where the ']' must come right before the last ':'. */
  function SplitBracketedForm(hostport: string, i: nat): (r: Result<(string, string), AddrError>)
    requires i < |hostport| && hostport[0] == '[' && hostport[i] == ':' && ':' !in hostport[i + 1..]
    ensures r.Ok? ==> ':' !in r.value.1 && ']' !in r.value.1 && '[' !in r.value.0 && ']' !in r.value.0
    ensures r.Ok? ==> hostport == "[" + r.value.0 + "]:" + r.value.1
  {
    var end := IndexChar(hostport, ']');
    if end < 0 then Err(MissingBracket)
    else if end + 1 == |hostport| then Err(MissingPort)
    else if end + 1 != i then
      (if hostport[end + 1] == ':' then Err(TooManyColons) else Err(MissingPort))
    else
      var host := hostport[1..end];
      BracketedParts(hostport, end, i);
      CheckBrackets(hostport, host, 1, end + 1, i)
  }

  /** The pieces of "[host]:port" once the first ']' is known to stand right before the last ':'. */
  lemma BracketedParts(hostport: string, end: nat, i: nat)
    requires 0 < end && end + 1 == i < |hostport| && hostport[0] == '[' && hostport[end] == ']' && hostport[i] == ':'
    requires ']' !in hostport[..end]
    ensures hostport == "[" + hostport[1..end] + "]:" + hostport[i + 1..]
    ensures hostport[1..end] == hostport[1..][..end - 1] && hostport[i + 1..] == hostport[end + 1..][1..]
    ensures ']' !in hostport[1..end]
  {
    var host := hostport[1..end];
    assert hostport == hostport[..1] + host + hostport[end..i] + hostport[i..i + 1] + hostport[i + 1..];
    forall t | 0 <= t < |host| ensures host[t] != ']' {
      assert hostport[..end][t + 1] == host[t];
    }
  }

  /** The plain form "host:port", where the host must hold no ':'. */
  function SplitPlainForm(hostport: string, i: nat): (r: Result<(string, string), AddrError>)
    requires i < |hostport| && hostport[0] != '[' && hostport[i] == ':' && ':' !in hostport[i + 1..]
    ensures r.Ok? ==> ':' !in r.value.1 && ']' !in r.value.1 && '[' !in r.value.0 && ']' !in r.value.0
    ensures r.Ok? ==> hostport == r.value.0 + ":" + r.value.1 && ':' !in r.value.0
  {
    var host := hostport[..i];
    if IndexChar(host, ':') >= 0 then Err(TooManyColons)
    else
      var r := CheckBrackets(hostport, host, 0, 0, i);
      assert hostport == host + ":" + hostport[i + 1..];
      assert r.Ok? ==> host == hostport[0..][..i] && hostport[i + 1..] == hostport[0..][i + 1..];
      r
  }

  /** net.JoinHostPort: a host containing ':' is put in brackets. */
  function JoinHostPort(host: string, port: string): string {
    if ':' in host then "[" + host + "]:" + port else host + ":" + port
  }

  /** Splitting a joined address gives back its host and port. */
  lemma SplitJoinHostPort(host: string, port: string)
    requires '[' !in host && ']' !in host
    requires ':' !in port && '[' !in port && ']' !in port
    ensures SplitHostPort(JoinHostPort(host, port)) == Ok((host, port))
  {
    if ':' in host {
      SplitBracketed(host, port);
    } else {
      SplitPlain(host, port);
    }
  }

  lemma SplitBracketed(host: string, port: string)
    requires '[' !in host && ']' !in host && ':' in host
    requires ':' !in port && '[' !in port && ']' !in port
    ensures SplitHostPort("[" + host + "]:" + port) == Ok((host, port))
  {
    var hp := "[" + host + "]:" + port;
    var end := 1 + |host|;
    BracketedLayout(host, port);
    IndexCharAt(hp, ']', end);
    LastIndexCharAt(hp, ':', end + 1);
    assert SplitBracketedForm(hp, end + 1) == CheckBrackets(hp, host, 1, end + 1, end + 1);
  }

  /** Where the pieces of "[host]:port" sit. */
  lemma BracketedLayout(host: string, port: string)
    ensures var hp, end := "[" + host + "]:" + port, 1 + |host|;
      && |hp| == end + 2 + |port| && hp[0] == '[' && hp[end] == ']' && hp[end + 1] == ':'
      && hp[..end] == "[" + host && hp[1..end] == host
      && hp[1..] == host + "]:" + port && hp[end + 1..] == ":" + port && hp[end + 2..] == port
  {
  }

  lemma SplitPlain(host: string, port: string)
    requires '[' !in host && ']' !in host && ':' !in host
    requires ':' !in port && '[' !in port && ']' !in port
    ensures SplitHostPort(host + ":" + port) == Ok((host, port))
  {
    var hp := host + ":" + port;
    var i := |host|;
    assert hp[0] != '[' by {
      if |host| > 0 { assert hp[0] == host[0]; } else { assert hp[0] == ':'; }
    }
    assert hp[i] == ':' && hp[i + 1..] == port;
    LastIndexCharAt(hp, ':', i);
    assert hp[..i] == host;
  }

  /** A dotted-decimal field: one to three digits, no leading zero, at most 255. */
  predicate IsOctet(f: string) {
    |f| >= 1 && AllDigits(f) && (|f| == 1 || f[0] != '0') && Decimal(f) <= 255
  }

  /** netip's parseIPv4: exactly four '.'-separated octet fields. */
  function ParseIPv4(s: string): (r: Option<seq<Byte>>)
    ensures r.Some? ==> |r.value| == 4
    ensures r.Some? ==> '%' !in s
    ensures var fields := Split(s, '.');
      r.Some? <==> |fields| == 4 && IsOctet(fields[0]) && IsOctet(fields[1]) && IsOctet(fields[2]) && IsOctet(fields[3])
  {
    var fields := Split(s, '.');
    if |fields| == 4 && IsOctet(fields[0]) && IsOctet(fields[1]) && IsOctet(fields[2]) && IsOctet(fields[3]) then
      assert forall i :: 0 <= i < 4 ==> '%' !in fields[i] by {
        forall i, k | 0 <= i < 4 && 0 <= k < |fields[i]| ensures fields[i][k] != '%' {
          assert IsDigit(fields[i][k]);
        }
      }
      JoinFree(fields, '.', '%');
      Some([Decimal(fields[0]), Decimal(fields[1]), Decimal(fields[2]), Decimal(fields[3])])
    else None
  }

  /** The dotted-decimal form of four octets. */
  function FormatIPv4(o: seq<Byte>): string
    requires |o| == 4
  {
    Join([FormatNat(o[0]), FormatNat(o[1]), FormatNat(o[2]), FormatNat(o[3])], '.')
  }

  /** The formatted field of an octet is a well-formed octet field with that value. */
  lemma FormatOctet(b: Byte)
    ensures IsOctet(FormatNat(b)) && Decimal(FormatNat(b)) == b && '.' !in FormatNat(b)
    ensures ':' !in FormatNat(b) && '%' !in FormatNat(b)
    ensures '[' !in FormatNat(b) && ']' !in FormatNat(b)
  {
    DecimalFormatNat(b);
    var f := FormatNat(b);
    assert forall i :: 0 <= i < |f| ==> IsDigit(f[i]);
  }

  /** The dotted-decimal form holds no colon and no bracket, so it is never split as a bracketed host. */
  lemma FormatIPv4Plain(o: seq<Byte>)
    requires |o| == 4
    ensures ':' !in FormatIPv4(o) && '[' !in FormatIPv4(o) && ']' !in FormatIPv4(o)
    ensures '%' !in FormatIPv4(o)
  {
    var fs := [FormatNat(o[0]), FormatNat(o[1]), FormatNat(o[2]), FormatNat(o[3])];
    FormatOctet(o[0]);
    FormatOctet(o[1]);
    FormatOctet(o[2]);
    FormatOctet(o[3]);
    JoinFree(fs, '.', ':');
    JoinFree(fs, '.', '[');
    JoinFree(fs, '.', ']');
    JoinFree(fs, '.', '%');
  }

  /** The four formatted fields are octet fields without '.', each with its octet's value. */
  lemma OctetFields(o: seq<Byte>)
    requires |o| == 4
    ensures var fs := [FormatNat(o[0]), FormatNat(o[1]), FormatNat(o[2]), FormatNat(o[3])];
      && (forall i :: 0 <= i < |fs| ==> '.' !in fs[i])
      && IsOctet(fs[0]) && IsOctet(fs[1]) && IsOctet(fs[2]) && IsOctet(fs[3])
      && Decimal(fs[0]) == o[0] && Decimal(fs[1]) == o[1] && Decimal(fs[2]) == o[2] && Decimal(fs[3]) == o[3]
  {
    FormatOctet(o[0]);
    FormatOctet(o[1]);
    FormatOctet(o[2]);
    FormatOctet(o[3]);
  }

  /** Four octet fields between the dots parse to their four values. */
  lemma ParseOctetFields(s: string, fs: seq<string>)
    requires |fs| == 4 && Split(s, '.') == fs
    requires IsOctet(fs[0]) && IsOctet(fs[1]) && IsOctet(fs[2]) && IsOctet(fs[3])
    ensures ParseIPv4(s) == Some([Decimal(fs[0]), Decimal(fs[1]), Decimal(fs[2]), Decimal(fs[3])])
  {
  }

  /** Parsing the dotted-decimal form of four octets gives the octets back. */
  lemma ParseFormatIPv4(o: seq<Byte>)
    requires |o| == 4
    ensures ParseIPv4(FormatIPv4(o)) == Some(o)
  {
    var fs := [FormatNat(o[0]), FormatNat(o[1]), FormatNat(o[2]), FormatNat(o[3])];
    OctetFields(o);
    SplitJoin(fs, '.');
    ParseOctetFields(FormatIPv4(o), fs);
    FourBytes(o);
  }

  lemma FourBytes(o: seq<Byte>)
    requires |o| == 4
    ensures o == [o[0], o[1], o[2], o[3]]
  {
  }

  /** The first of '.', ':' and '%' in s, which decides how netip.ParseAddr reads s. */
  function FirstMarker(s: string): (r: Option<char>)
    ensures r.Some? ==> r.value in s && (r.value == '.' || r.value == ':' || r.value == '%')
    ensures r.None? ==> '.' !in s && ':' !in s && '%' !in s
  {
    if |s| == 0 then None
    else if s[0] == '.' || s[0] == ':' || s[0] == '%' then Some(s[0])
    else
      var r := FirstMarker(s[1..]);
      assert s == [s[0]] + s[1..];
      r
  }

  /** Without ':' and '%', a string containing '.' is read as an IPv4 address. */
  lemma {:induction false} FirstMarkerDot(s: string)
    requires '.' in s && ':' !in s && '%' !in s
    ensures FirstMarker(s) == Some('.')
  {
    if s[0] != '.' {
      assert s == [s[0]] + s[1..];
      FirstMarkerDot(s[1..]);
    }
  }

  /** Without '.' and '%', a string containing ':' is read as an IPv6 address. */
  lemma {:induction false} FirstMarkerColon(s: string)
    requires ':' in s && '.' !in s && '%' !in s
    ensures FirstMarker(s) == Some(':')
  {
    if s[0] != ':' {
      assert s == [s[0]] + s[1..];
      FirstMarkerColon(s[1..]);
    }
  }

  /** The twelve-byte prefix of an IPv4 address in 16-byte form (::ffff:a.b.c.d). */
  const V4InV6Prefix: seq<Byte> := [0, 0, 0, 0, 0, 0, 0, 0, 0, 0, 0xff, 0xff]

  /**
   * net.ParseIP: the 16-byte form of a literal address, or None. The parser
   * of zone-free IPv6 literals (used when ':' comes first) is the parameter
   * parseIPv6; an address with a zone ('%') is refused, as net.ParseIP
   * refuses every address netip.ParseAddr reads with a zone.
   */
  function ParseIP(s: string, parseIPv6: string -> Option<seq<Byte>>): (r: Option<seq<Byte>>)
    ensures '%' in s ==> r == None
    ensures FirstMarker(s) == Some('.') ==> r == (if ParseIPv4(s).Some? then Some(V4InV6Prefix + ParseIPv4(s).value) else None)
    ensures FirstMarker(s) == Some(':') ==> r == (if '%' in s then None else parseIPv6(s))
    ensures FirstMarker(s) != Some('.') && FirstMarker(s) != Some(':') ==> r == None
  {
    match FirstMarker(s)
    case Some('.') => (match ParseIPv4(s) case Some(o) => Some(V4InV6Prefix + o) case None => None)
    case Some(':') => if '%' in s then None else parseIPv6(s)
    case _ => None
  }

  /** net.IP.To4: the four-byte form of an IPv4 address, or None for any other address. */
  function To4(ip: seq<Byte>): (r: Option<seq<Byte>>)
    ensures r.Some? ==> |r.value| == 4
    ensures |ip| == 4 ==> r == Some(ip)
    ensures |ip| != 4 && |ip| != 16 ==> r == None
    ensures |ip| == 16 ==> (r.Some? <==> ip[..12] == V4InV6Prefix) && (r.Some? ==> r.value == ip[12..])
  {
    if |ip| == 4 then Some(ip)
    else if |ip| == 16 && ip[..12] == V4InV6Prefix then Some(ip[12..])
    else None
  }

  /** A dotted-decimal literal parses to an address whose four-byte form is its octets. */
  lemma ParseIPv4Literal(o: seq<Byte>, parseIPv6: string -> Option<seq<Byte>>)
    requires |o| == 4
    ensures var ip := ParseIP(FormatIPv4(o), parseIPv6); ip.Some? && To4(ip.value) == Some(o)
  {
    var s := FormatIPv4(o);
    FormatOctet(o[0]);
    FormatOctet(o[1]);
    FormatOctet(o[2]);
    FormatOctet(o[3]);
    assert s[|FormatNat(o[0])|] == '.';
    FormatIPv4Plain(o);
    FirstMarkerDot(s);
    ParseFormatIPv4(o);
    assert (V4InV6Prefix + o)[..12] == V4InV6Prefix;
    assert (V4InV6Prefix + o)[12..] == o;
  }
}
