/**
 * checker.Check: parameter defaulting, one connection strategy per protocol
 * tag, and success exactly when the target answers with status 200. The
 * HTTP layer is a parameter.
 */
module Checker {
  import opened Wrappers
  import opened Models
  import Socks4
  import opened Http

  /** One second as a time.Duration (nanoseconds). */
  const Second: int := 1_000_000_000
  const DefaultTimeout: int := 10 * Second
  const DefaultTarget: string := "https://www.google.com"

  /** How the GET reaches the target. */
  datatype Strategy =
    | ForwardProxy(proxyURL: string, dialTimeout: int)  // http.Transport with Proxy set, keep-alives off
    | Socks5(proxyAddr: string)                         // golang.org/x/net/proxy SOCKS5 dialer, no auth
    | Socks4(dialer: Socks4.Dialer)                     // the custom SOCKS4 dialer

  /** What client.Get returns: a response status or a request error. */
  datatype Response = Status(code: int) | RequestError(msg: string)

  /**
   * The HTTP layer as Check sees it: url.Parse of the forward proxy's URL
   * and client.Get(target) through a strategy with a client timeout.
   */
  datatype Network = Network(proxyURLParses: string -> bool, get: (Strategy, string, int) -> Response)

  datatype CheckError =
    | URLParseError(url: string)   // "url parse error: ..."
    | UnknownProtocol(p: Protocol) // "unknown protocol: <p>"
    | RequestFailed(msg: string)   // the error of client.Get
    | BadStatus(code: int)         // "status code: <code>"

  /** Check's two results: (true, nil) or (false, err). */
  datatype Outcome = Outcome(ok: bool, err: Option<CheckError>)

  /** A zero timeout means ten seconds. */
  function EffectiveTimeout(timeout: int): (t: int)
    ensures timeout == 0 ==> t == 10 * Second
    ensures timeout != 0 ==> t == timeout
  {
    if timeout == 0 then DefaultTimeout else timeout
  }

  /** An empty target URL means Google's home page. */
  function EffectiveTarget(targetURL: string): (u: string)
    ensures targetURL == "" ==> u == "https://www.google.com"
    ensures targetURL != "" ==> u == targetURL
  {
    if targetURL == "" then DefaultTarget else targetURL
  }

  /** The strategy for a protocol tag: exactly one for each of the three protocols, none otherwise. */
  function SelectStrategy(p: Proxy, timeout: int): (s: Option<Strategy>)
    ensures s.None? <==> p.protocol != HTTP && p.protocol != SOCKS4 && p.protocol != SOCKS5
    ensures p.protocol == HTTP ==> s == Some(ForwardProxy("http://" + Address(p), timeout))
    ensures p.protocol == SOCKS5 ==> s == Some(Socks5(Address(p)))
    ensures p.protocol == SOCKS4 ==> s == Some(Socks4(Socks4.Dialer(p.ip, p.port, timeout)))
  {
    if p.protocol == HTTP then Some(ForwardProxy("http://" + Address(p), timeout))
    else if p.protocol == SOCKS5 then Some(Socks5(Address(p)))
    else if p.protocol == SOCKS4 then Some(Socks4(Socks4.Dialer(p.ip, p.port, timeout)))
    else None
  }

  /**
   * checker.Check. The "socks5 dialer error" and "failed to create client"
   * failures of the source have no counterpart: proxy.SOCKS5 with no
   * authentication and proxy.Direct as the forward dialer never returns an
   * error, and every case that does not return sets the client.
   */
  function Check(p: Proxy, targetURL: string, timeout: int, net: Network): (r: Outcome)
    ensures r.ok <==> r.err.None?
    ensures SelectStrategy(p, EffectiveTimeout(timeout)).None? ==> r == Outcome(false, Some(UnknownProtocol(p.protocol)))
  {
    var t := EffectiveTimeout(timeout);
    var target := EffectiveTarget(targetURL);
    match SelectStrategy(p, t)
    case None => Outcome(false, Some(UnknownProtocol(p.protocol)))
    case Some(s) =>
      if s.ForwardProxy? && !net.proxyURLParses(s.proxyURL) then Outcome(false, Some(URLParseError(s.proxyURL)))
      else
        match net.get(s, target, t)
        case RequestError(msg) => Outcome(false, Some(RequestFailed(msg)))
        case Status(code) => if code == StatusOK then Outcome(true, None) else Outcome(false, Some(BadStatus(code)))
  }

  /**
   * Check succeeds exactly when the protocol is recognised, the forward
   * proxy's URL parses, and the GET through the chosen strategy, with the
   * defaulted target and timeout, answers 200; a request error or any other
   * status is reported as such.
   */
  lemma CheckMeaning(p: Proxy, targetURL: string, timeout: int, net: Network)
    ensures var s := SelectStrategy(p, EffectiveTimeout(timeout));
      && (Check(p, targetURL, timeout, net).ok <==>
            && s.Some?
            && (p.protocol == HTTP ==> net.proxyURLParses("http://" + Address(p)))
            && net.get(s.value, EffectiveTarget(targetURL), EffectiveTimeout(timeout)) == Status(200))
      && (s.Some? && (p.protocol == HTTP ==> net.proxyURLParses("http://" + Address(p))) ==>
            match net.get(s.value, EffectiveTarget(targetURL), EffectiveTimeout(timeout))
            case Status(code) => code != 200 ==> Check(p, targetURL, timeout, net).err == Some(BadStatus(code))
            case RequestError(msg) => Check(p, targetURL, timeout, net).err == Some(RequestFailed(msg)))
  {
  }

  /** An unrecognised protocol is refused whatever the network would have done: no request is made. */
  lemma UnknownProtocolNoRequest(p: Proxy, targetURL: string, timeout: int, net1: Network, net2: Network)
    requires p.protocol != HTTP && p.protocol != SOCKS4 && p.protocol != SOCKS5
    ensures Check(p, targetURL, timeout, net1) == Check(p, targetURL, timeout, net2) == Outcome(false, Some(UnknownProtocol(p.protocol)))
  {
  }
}
