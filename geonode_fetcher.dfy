/**
 * GeonodeFetcher.Fetch: pages 1..Pages of the Geonode JSON list, each
 * decoded item fanned out into one record per recognised protocol. The
 * HTTP GET together with the JSON decoding is a parameter from URL to
 * page response.
 */
module GeonodeFetcher {
  import opened Wrappers
  import opened Strconv
  import opened Models
  import opened Http

  const Source: string := "Geonode"

  /** The fetcher's fields; Limit is carried but never read by Fetch. */
  datatype Config = Config(baseURL: string, limit: int, pages: int)

  /** One entry of the "data" array. */
  datatype Item = Item(ip: string, port: string, protocols: seq<string>)

  /** What a GET of one page gives: no response, or a status and the decoded data (None when decoding fails). */
  datatype PageResponse =
    | RequestError(msg: string)
    | Response(status: int, data: Option<seq<Item>>)

  /** How the page loop treats a response. */
  datatype PageOutcome = Skipped | Empty | Items(items: seq<Item>)

  /** The URL of a page: the base URL followed by "&page=" and the page number. */
  function PageURL(f: Config, page: nat): string {
    f.baseURL + "&page=" + FormatNat(page)
  }

  /**
   * A page with a request error, a status other than 200 or undecodable data
   * is skipped; a decoded page with no data ends the loop.
   */
  function Classify(r: PageResponse): (o: PageOutcome)
    ensures o.Skipped? <==> r.RequestError? || r.status != StatusOK || r.data.None?
    ensures o.Empty? <==> r.Response? && r.status == StatusOK && r.data == Some([])
    ensures o.Items? ==> r == Response(StatusOK, Some(o.items)) && o.items != []
  {
    match r
    case RequestError(_) => Skipped
    case Response(status, data) =>
      if status != StatusOK || data.None? then Skipped
      else if data.value == [] then Empty
      else Items(data.value)
  }

  /** The protocol switch: "socks4", "socks5", and "http" or "https"; anything else is not recognised. */
  function MapProtocol(s: string): (r: Option<Protocol>)
    ensures r == Some(SOCKS4) <==> s == "socks4"
    ensures r == Some(SOCKS5) <==> s == "socks5"
    ensures r == Some(HTTP) <==> s == "http" || s == "https"
    ensures r.None? <==> s != "socks4" && s != "socks5" && s != "http" && s != "https"
  {
    ProtocolConstants();
    if s == "socks4" then Some(SOCKS4)
    else if s == "socks5" then Some(SOCKS5)
    else if s == "http" || s == "https" then Some(HTTP)
    else None
  }

  /** The records of one item for the given protocol entries: one per recognised entry, in entry order. */
  function ItemRecords(ip: string, port: string, protocols: seq<string>): (r: seq<Proxy>)
    ensures |r| <= |protocols|
    ensures forall k :: 0 <= k < |r| ==> r[k].ip == ip && r[k].port == port && r[k].source == Source
    ensures forall k :: 0 <= k < |r| ==> r[k].protocol == HTTP || r[k].protocol == SOCKS4 || r[k].protocol == SOCKS5
  {
    if |protocols| == 0 then []
    else
      var last := MapProtocol(protocols[|protocols| - 1]);
      ItemRecords(ip, port, protocols[..|protocols| - 1])
        + (if last.Some? then [Proxy(ip, port, last.value, Source)] else [])
  }

  /** The records of a page: those of each item, in item order. */
  function PageRecords(items: seq<Item>): (r: seq<Proxy>)
    ensures forall k :: 0 <= k < |r| ==> r[k].source == Source
    ensures forall k :: 0 <= k < |r| ==> r[k].protocol == HTTP || r[k].protocol == SOCKS4 || r[k].protocol == SOCKS5
  {
    if |items| == 0 then []
    else
      var last := items[|items| - 1];
      PageRecords(items[..|items| - 1]) + ItemRecords(last.ip, last.port, last.protocols)
  }

  /** The records gathered from page `page` on, up to Pages or the first empty page. */
  function Collect(f: Config, get: string -> PageResponse, page: nat): (r: seq<Proxy>)
    decreases f.pages - page
    ensures forall k :: 0 <= k < |r| ==> r[k].source == Source
    ensures forall k :: 0 <= k < |r| ==> r[k].protocol == HTTP || r[k].protocol == SOCKS4 || r[k].protocol == SOCKS5
  {
    if page > f.pages then []
    else
      match Classify(get(PageURL(f, page)))
      case Skipped => Collect(f, get, page + 1)
      case Empty => []
      case Items(items) => PageRecords(items) + Collect(f, get, page + 1)
  }

  /**
   * The last page requested from `page` on: every earlier one was requested
   * and was not empty, and the loop stopped at it either because it was
   * empty or because it was page Pages.
   */
  function LastPage(f: Config, get: string -> PageResponse, page: nat): (r: int)
    decreases f.pages - page
    ensures page - 1 <= r
    ensures page <= f.pages ==> page <= r <= f.pages
    ensures page > f.pages ==> r == page - 1
    ensures forall q: nat :: page <= q < r ==> !Classify(get(PageURL(f, q))).Empty?
    ensures page <= r < f.pages ==> Classify(get(PageURL(f, r))).Empty?
  {
    if page > f.pages then page - 1
    else if Classify(get(PageURL(f, page))).Empty? then page
    else LastPage(f, get, page + 1)
  }

  /** The URLs requested from page `page` up to the last page, in increasing page order. */
  function Requested(f: Config, get: string -> PageResponse, page: nat): (urls: seq<string>)
    ensures |urls| == LastPage(f, get, page) - page + 1
    ensures forall i :: 0 <= i < |urls| ==> urls[i] == PageURL(f, page + i)
  {
    seq(LastPage(f, get, page) - page + 1, i requires 0 <= i => PageURL(f, page + i))
  }

  /** "http" and "https" both map to HTTP, so an item listing both yields the same record twice. */
  lemma HttpAndHttps(ip: string, port: string)
    ensures ItemRecords(ip, port, ["http", "https"]) == [Proxy(ip, port, HTTP, Source), Proxy(ip, port, HTTP, Source)]
  {
    var ps := ["http", "https"];
    assert ps[..1] == ["http"] && ps[1] == "https";
    assert ["http"][..0] == [];
  }

  /** Unrecognised protocol entries add nothing; a recognised one adds exactly its record at the end. */
  lemma ItemRecordsSnoc(ip: string, port: string, protocols: seq<string>, s: string)
    ensures MapProtocol(s).None? ==> ItemRecords(ip, port, protocols + [s]) == ItemRecords(ip, port, protocols)
    ensures MapProtocol(s).Some? ==> ItemRecords(ip, port, protocols + [s]) == ItemRecords(ip, port, protocols) + [Proxy(ip, port, MapProtocol(s).value, Source)]
  {
    assert (protocols + [s])[..|protocols|] == protocols;
  }

  /** An item whose protocols are all unrecognised contributes no record. */
  lemma {:induction false} UnrecognisedItem(ip: string, port: string, protocols: seq<string>)
    requires forall i :: 0 <= i < |protocols| ==> MapProtocol(protocols[i]).None?
    ensures ItemRecords(ip, port, protocols) == []
  {
    if |protocols| > 0 {
      UnrecognisedItem(ip, port, protocols[..|protocols| - 1]);
    }
  }

  /** Page records keep item order: the records of a + b are those of a followed by those of b. */
  lemma {:induction false} PageRecordsAppend(a: seq<Item>, b: seq<Item>)
    ensures PageRecords(a + b) == PageRecords(a) + PageRecords(b)
  {
    if |b| == 0 {
      assert a + b == a;
    } else {
      var b', x := b[..|b| - 1], b[|b| - 1];
      assert (a + b)[..|a + b| - 1] == a + b' && (a + b)[|a + b| - 1] == x;
      PageRecordsAppend(a, b');
    }
  }

  /** Every record of an item comes from one of its protocol entries that maps to the record's protocol. */
  lemma {:induction false} ItemRecordsFrom(ip: string, port: string, protocols: seq<string>, k: int)
    requires 0 <= k < |ItemRecords(ip, port, protocols)|
    ensures exists j :: 0 <= j < |protocols| && MapProtocol(protocols[j]) == Some(ItemRecords(ip, port, protocols)[k].protocol)
  {
    var init := protocols[..|protocols| - 1];
    if k < |ItemRecords(ip, port, init)| {
      ItemRecordsFrom(ip, port, init, k);
      var j :| 0 <= j < |init| && MapProtocol(init[j]) == Some(ItemRecords(ip, port, init)[k].protocol);
      assert protocols[j] == init[j];
    } else {
      assert MapProtocol(protocols[|protocols| - 1]) == Some(ItemRecords(ip, port, protocols)[k].protocol);
    }
  }

  /** Some item lists a protocol entry that maps to p's protocol, and p carries that item's IP and port. */
  predicate FromItem(items: seq<Item>, p: Proxy) {
    exists i, j :: 0 <= i < |items| && 0 <= j < |items[i].protocols|
      && p == Proxy(items[i].ip, items[i].port, p.protocol, Source)
      && MapProtocol(items[i].protocols[j]) == Some(p.protocol)
  }

  /** Every record of a page carries the IP and port of one of its items and a protocol that item lists. */
  lemma {:induction false} PageRecordsFrom(items: seq<Item>, k: int)
    requires 0 <= k < |PageRecords(items)|
    ensures FromItem(items, PageRecords(items)[k])
  {
    var init, last := items[..|items| - 1], items[|items| - 1];
    var p := PageRecords(items)[k];
    if k < |PageRecords(init)| {
      PageRecordsFrom(init, k);
      var i, j :| 0 <= i < |init| && 0 <= j < |init[i].protocols|
        && p == Proxy(init[i].ip, init[i].port, p.protocol, Source)
        && MapProtocol(init[i].protocols[j]) == Some(p.protocol);
      assert items[i] == init[i];
    } else {
      var r := ItemRecords(last.ip, last.port, last.protocols);
      var k' := k - |PageRecords(init)|;
      assert p == r[k'];
      ItemRecordsFrom(last.ip, last.port, last.protocols, k');
      var j :| 0 <= j < |last.protocols| && MapProtocol(last.protocols[j]) == Some(r[k'].protocol);
      assert items[|items| - 1] == last;
    }
  }

  /**
   * Every collected record was yielded by an item of a page that was
   * requested, answered 200 with data, and came no later than the stop.
   */
  lemma {:induction false} CollectFrom(f: Config, get: string -> PageResponse, page: nat, k: int)
    requires 0 <= k < |Collect(f, get, page)|
    ensures exists q: nat ::
      && page <= q <= LastPage(f, get, page)
      && get(PageURL(f, q)).Response? && get(PageURL(f, q)).status == StatusOK
      && get(PageURL(f, q)).data.Some? && FromItem(get(PageURL(f, q)).data.value, Collect(f, get, page)[k])
    decreases f.pages - page
  {
    var o := Classify(get(PageURL(f, page)));
    var r := Collect(f, get, page);
    if o.Skipped? {
      CollectFrom(f, get, page + 1, k);
    } else if o.Items? {
      if k < |PageRecords(o.items)| {
        PageRecordsFrom(o.items, k);
        assert page <= LastPage(f, get, page);
      } else {
        CollectFrom(f, get, page + 1, k - |PageRecords(o.items)|);
      }
    }
  }

  /** The body of the protocol loop for one item, appending to the records gathered so far. */
  method AppendItem(acc: seq<Proxy>, item: Item) returns (all: seq<Proxy>)
    ensures all == acc + ItemRecords(item.ip, item.port, item.protocols)
  {
    all := acc;
    var j := 0;
    while j < |item.protocols|
      invariant 0 <= j <= |item.protocols|
      invariant all == acc + ItemRecords(item.ip, item.port, item.protocols[..j])
    {
      var s := item.protocols[j];
      assert item.protocols[..j + 1] == item.protocols[..j] + [s];
      ItemRecordsSnoc(item.ip, item.port, item.protocols[..j], s);
      var protocol := MapProtocol(s);
      if protocol.Some? {
        all := all + [Proxy(item.ip, item.port, protocol.value, Source)];
      }
      j := j + 1;
    }
    assert item.protocols[..j] == item.protocols;
  }

  /** The body of the item loop for one decoded page. */
  method AppendPage(acc: seq<Proxy>, items: seq<Item>) returns (all: seq<Proxy>)
    ensures all == acc + PageRecords(items)
  {
    all := acc;
    var i := 0;
    while i < |items|
      invariant 0 <= i <= |items|
      invariant all == acc + PageRecords(items[..i])
    {
      assert items[..i + 1][..i] == items[..i] && items[..i + 1][i] == items[i];
      all := AppendItem(all, items[i]);
      i := i + 1;
    }
    assert items[..i] == items;
  }

  /** One pass of the page loop: skip, stop, or append the page's records. */
  method FetchPage(f: Config, get: string -> PageResponse, page: nat, acc: seq<Proxy>) returns (all: seq<Proxy>, stop: bool)
    requires page <= f.pages
    ensures stop <==> Classify(get(PageURL(f, page))).Empty?
    ensures stop ==> all == acc && Collect(f, get, page) == [] && LastPage(f, get, page) == page
    ensures !stop ==> all + Collect(f, get, page + 1) == acc + Collect(f, get, page)
    ensures !stop ==> LastPage(f, get, page + 1) == LastPage(f, get, page)
  {
    var outcome := Classify(get(PageURL(f, page)));
    all, stop := acc, false;
    match outcome
    case Skipped =>
    case Empty =>
      stop := true;
    case Items(items) =>
      all := AppendPage(acc, items);
      assert acc + PageRecords(items) + Collect(f, get, page + 1) == acc + (PageRecords(items) + Collect(f, get, page + 1));
  }

  /**
   * GeonodeFetcher.Fetch: requests pages 1, 2, ... in order up to Pages,
   * skips failing pages, stops at the first empty page and returns the
   * records of all the others with a nil error.
   */
  method Fetch(f: Config, get: string -> PageResponse) returns (proxies: seq<Proxy>, err: Option<string>, urls: seq<string>)
    ensures err == None
    ensures proxies == Collect(f, get, 1)
    ensures urls == Requested(f, get, 1)
  {
    proxies := [];
    urls := [];
    var page: nat := 1;
    while page <= f.pages
      invariant 1 <= page && (page <= f.pages + 1 || page == 1)
      invariant proxies + Collect(f, get, page) == Collect(f, get, 1)
      invariant LastPage(f, get, page) == LastPage(f, get, 1)
      invariant |urls| == page - 1 && forall i :: 0 <= i < |urls| ==> urls[i] == PageURL(f, 1 + i)
      decreases f.pages - page
    {
      var url := PageURL(f, page);
      urls := urls + [url];
      var stop;
      proxies, stop := FetchPage(f, get, page, proxies);
      if stop {
        break;
      }
      page := page + 1;
    }
    err := None;
  }
}
