/**
 * ProxyDBFetcher.Fetch: pages of an HTML table fetched at offsets 0, 30,
 * 60, ..., with a bounded retry on status 429. The responses to the
 * successive GETs (status and parsed document) are a parameter, as a
 * finite script consumed one response per request.
 */
module ProxyDBFetcher {
  import opened Wrappers
  import opened Strings
  import opened Strconv
  import opened Models
  import opened Seqs
  import opened Http

  /** The offset increment after a page with records. */
  const Step: nat := 30
  /** The largest number of consecutive 429 answers that is retried. */
  const MaxRetries: nat := 10
  /** The pause after a page with records, in milliseconds. */
  const PageDelayMs: nat := 500
  /** One second, in milliseconds; the n-th consecutive 429 waits n * 5 seconds. */
  const SecondMs: nat := 1000
  const RetryUnitMs: nat := 5 * SecondMs
  /** A table cell holding this text marks the end of the list. */
  const NoProxiesMarker: string := "No Proxies found"

  /** The fetcher's fields. */
  datatype Config = Config(baseURL: string, source: string)

  /** The texts of one table row: the link in cell 1, the link in cell 2, and cell 3. */
  datatype Row = Row(ipText: string, portText: string, protocolText: string)

  /** A parsed page: the text of every td, and the rows of the proxy table. */
  datatype Doc = Doc(cells: seq<string>, rows: seq<Row>)

  /** What a GET gives: no response, or a status and the parsed page (None when parsing fails). */
  datatype PageResponse =
    | RequestError(msg: string)
    | Response(status: int, doc: Option<Doc>)

  /** The loop's counters and what it has done so far: delivered batches, requested URLs, pauses. */
  datatype State = State(offset: nat, retries: nat, totalFetched: nat, batches: seq<seq<Proxy>>, urls: seq<string>, sleeps: seq<nat>)

  /** After one response the loop either goes round again or stops. */
  datatype Next = Continue(st: State) | Stop(st: State)

  /** The URL for an offset: the base URL followed by "?offset=" and the offset. */
  function PageURL(f: Config, offset: nat): string {
    f.baseURL + "?offset=" + FormatNat(offset)
  }

  /** The protocol cell, trimmed and lower-cased: "socks5" wins over "socks4", and anything else is HTTP. */
  function ClassifyProtocol(cell: string): (p: Protocol)
    ensures var lower := ToLower(TrimSpace(cell));
      && (p == SOCKS5 <==> Contains(lower, "socks5"))
      && (p == SOCKS4 <==> !Contains(lower, "socks5") && Contains(lower, "socks4"))
      && (p == HTTP <==> !Contains(lower, "socks5") && !Contains(lower, "socks4"))
  {
    ProtocolConstants();
    var lower := ToLower(TrimSpace(cell));
    if Contains(lower, "socks5") then SOCKS5
    else if Contains(lower, "socks4") then SOCKS4
    else HTTP
  }

  /** A row gives a record unless its trimmed IP or trimmed port is empty. */
  function RowRecord(row: Row, source: string): (r: Option<Proxy>)
    ensures r.None? <==> TrimSpace(row.ipText) == "" || TrimSpace(row.portText) == ""
    ensures r.Some? ==> r.value.ip == TrimSpace(row.ipText) && r.value.port == TrimSpace(row.portText)
    ensures r.Some? ==> r.value.protocol == ClassifyProtocol(row.protocolText) && r.value.source == source
  {
    var ip := TrimSpace(row.ipText);
    var port := TrimSpace(row.portText);
    if ip == "" || port == "" then None
    else Some(Proxy(ip, port, ClassifyProtocol(row.protocolText), source))
  }

  /** The records of a page's rows, in row order. */
  function PageRecords(rows: seq<Row>, source: string): (r: seq<Proxy>)
    ensures |r| <= |rows|
  {
    FilterMap(rows, row => RowRecord(row, source))
  }

  /** Some cell's text contains the "No Proxies found" marker. */
  predicate HasMarker(cells: seq<string>) {
    exists i :: 0 <= i < |cells| && Contains(cells[i], NoProxiesMarker)
  }

  /** The state before the first request. */
  function Init(): State {
    State(0, 0, 0, [], [], [])
  }

  /** One pass of the loop on the response to the request for the current offset. */
  function StepOn(f: Config, r: PageResponse, st0: State): Next {
    var st := st0.(urls := st0.urls + [PageURL(f, st0.offset)]);
    match r
    case RequestError(_) => Stop(st)
    case Response(status, doc) =>
      if status == StatusTooManyRequests then
        var retries := st.retries + 1;
        if retries > MaxRetries then Stop(st.(retries := retries))
        else Continue(st.(retries := retries, sleeps := st.sleeps + [retries * RetryUnitMs]))
      else if status != StatusOK then Stop(st)
      else
        var st := st.(retries := 0);
        if doc.None? || HasMarker(doc.value.cells) || doc.value.rows == [] then Stop(st)
        else
          var recs := PageRecords(doc.value.rows, f.source);
          if |recs| == 0 then Stop(st)
          else Continue(st.(offset := st.offset + Step, totalFetched := st.totalFetched + |recs|,
                            batches := st.batches + [recs], sleeps := st.sleeps + [PageDelayMs]))
  }

  /** The loop run on a script of responses, until it stops or the script runs out. */
  function Run(f: Config, script: seq<PageResponse>, st: State): State
    decreases |script|
  {
    if |script| == 0 then st
    else
      match StepOn(f, script[0], st)
      case Stop(s) => s
      case Continue(s) => Run(f, script[1..], s)
  }

  /** The total size of the delivered batches. */
  function Total(batches: seq<seq<Proxy>>): nat {
    if |batches| == 0 then 0 else Total(batches[..|batches| - 1]) + |batches[|batches| - 1]|
  }

  /** A pause is the 500 ms page delay or a retry delay of 5 to 50 seconds in steps of 5. */
  predicate ValidDelay(d: nat) {
    d == PageDelayMs || (d % RetryUnitMs == 0 && RetryUnitMs <= d <= MaxRetries * RetryUnitMs)
  }

  /**
   * What holds of the loop's state at every point: the offset is 30 per
   * delivered batch, totalFetched is the number of records delivered,
   * every batch is non-empty and carries the fetcher's source, retries
   * never passes 11 and every pause is a valid delay.
   */
  predicate Inv(f: Config, st: State) {
    && st.offset == Step * |st.batches|
    && st.totalFetched == Total(st.batches)
    && st.retries <= MaxRetries + 1
    && (forall k :: 0 <= k < |st.batches| ==> st.batches[k] != [])
    && (forall k, j :: 0 <= k < |st.batches| && 0 <= j < |st.batches[k]| ==> st.batches[k][j].source == f.source)
    && (forall k :: 0 <= k < |st.sleeps| ==> ValidDelay(st.sleeps[k]))
  }

  /** Every record of a page has a non-empty trimmed IP and port, the fetcher's source and one of the three protocols. */
  lemma PageRecordsMeaning(rows: seq<Row>, source: string, k: int)
    requires 0 <= k < |PageRecords(rows, source)|
    ensures var p := PageRecords(rows, source)[k];
      && p.ip != "" && p.port != "" && p.source == source
      && (p.protocol == HTTP || p.protocol == SOCKS4 || p.protocol == SOCKS5)
      && exists i :: 0 <= i < |rows| && p.ip == TrimSpace(rows[i].ipText) && p.port == TrimSpace(rows[i].portText)
  {
    FilterMapFrom(rows, row => RowRecord(row, source), k);
  }

  /** A row with an empty trimmed IP or port adds nothing to its page. */
  lemma EmptyFieldSkipped(rows: seq<Row>, row: Row, source: string)
    requires TrimSpace(row.ipText) == "" || TrimSpace(row.portText) == ""
    ensures PageRecords(rows + [row], source) == PageRecords(rows, source)
  {
    FilterMapSnoc(rows, row, r => RowRecord(r, source));
  }

  lemma PageRecordsSnoc(rows: seq<Row>, i: int, source: string)
    requires 0 <= i < |rows|
    ensures PageRecords(rows[..i + 1], source) == PageRecords(rows[..i], source) + (if RowRecord(rows[i], source).Some? then [RowRecord(rows[i], source).value] else [])
  {
    assert rows[..i + 1] == rows[..i] + [rows[i]];
    FilterMapSnoc(rows[..i], rows[i], row => RowRecord(row, source));
  }

  lemma TotalSnoc(batches: seq<seq<Proxy>>, b: seq<Proxy>)
    ensures Total(batches + [b]) == Total(batches) + |b|
  {
    assert (batches + [b])[..|batches|] == batches;
  }

  /** A 200 response resets retries to zero, whether the loop then stops or goes on. */
  lemma OkResetsRetries(f: Config, doc: Option<Doc>, st: State)
    ensures StepOn(f, Response(StatusOK, doc), st).st.retries == 0
  {
  }

  /**
   * A 429 answer counts one more retry: beyond 10 the loop stops; otherwise
   * it pauses retries * 5 seconds and requests the same offset again.
   */
  lemma RateLimited(f: Config, doc: Option<Doc>, st: State)
    ensures var n := StepOn(f, Response(StatusTooManyRequests, doc), st);
      && n.st.retries == st.retries + 1
      && n.st.offset == st.offset && n.st.batches == st.batches
      && n.st.urls == st.urls + [PageURL(f, st.offset)]
      && (n.Stop? <==> st.retries + 1 > MaxRetries)
      && (n.Continue? ==> n.st.sleeps == st.sleeps + [(st.retries + 1) * 5 * SecondMs])
  {
  }

  /** One pass keeps the invariant, and a pass that goes on leaves at most 10 retries. */
  lemma StepKeepsInv(f: Config, r: PageResponse, st: State)
    requires Inv(f, st) && st.retries <= MaxRetries
    ensures Inv(f, StepOn(f, r, st).st)
    ensures StepOn(f, r, st).Continue? ==> StepOn(f, r, st).st.retries <= MaxRetries
  {
    var n := StepOn(f, r, st);
    if r.Response? && r.status == StatusOK && n.Continue? {
      var recs := PageRecords(r.doc.value.rows, f.source);
      forall j | 0 <= j < |recs| ensures recs[j].source == f.source {
        PageRecordsMeaning(r.doc.value.rows, f.source, j);
      }
      DeliverKeepsInv(f, st.(urls := n.st.urls, retries := 0), recs);
    }
  }

  /** Delivering a non-empty batch of the fetcher's records and advancing the offset keeps the invariant. */
  lemma DeliverKeepsInv(f: Config, st: State, recs: seq<Proxy>)
    requires Inv(f, st) && recs != []
    requires forall j :: 0 <= j < |recs| ==> recs[j].source == f.source
    ensures Inv(f, st.(offset := st.offset + Step, totalFetched := st.totalFetched + |recs|,
                       batches := st.batches + [recs], sleeps := st.sleeps + [PageDelayMs]))
  {
    TotalSnoc(st.batches, recs);
    var bs := st.batches + [recs];
    assert forall k :: 0 <= k < |st.batches| ==> bs[k] == st.batches[k];
  }

  /** The invariant holds when the loop ends, from any starting state that satisfies it. */
  lemma {:induction false} RunKeepsInv(f: Config, script: seq<PageResponse>, st: State)
    requires Inv(f, st) && st.retries <= MaxRetries
    ensures Inv(f, Run(f, script, st))
    decreases |script|
  {
    if |script| > 0 {
      StepKeepsInv(f, script[0], st);
      match StepOn(f, script[0], st)
      case Stop(s) =>
      case Continue(s) => RunKeepsInv(f, script[1..], s);
    }
  }

  /** A script of n answers with status 429. */
  function RateLimits(n: nat): (s: seq<PageResponse>)
    ensures |s| == n && forall i :: 0 <= i < n ==> s[i] == Response(StatusTooManyRequests, None)
  {
    seq(n, i => Response(StatusTooManyRequests, None))
  }

  /**
   * Enough consecutive 429 answers to pass 10 retries end the loop: each
   * requests the same offset, each but the last is followed by a pause of
   * 5, 10, ... seconds, and nothing after them is requested.
   */
  lemma {:induction false} RateLimitStreak(f: Config, st: State, n: nat, rest: seq<PageResponse>)
    requires 1 <= n && st.retries + n == MaxRetries + 1
    ensures var end := Run(f, RateLimits(n) + rest, st);
      && end.retries == MaxRetries + 1
      && end.offset == st.offset && end.batches == st.batches && end.totalFetched == st.totalFetched
      && end.urls == st.urls + seq(n, i => PageURL(f, st.offset))
      && end.sleeps == st.sleeps + seq(n - 1, i => (st.retries + 1 + i) * RetryUnitMs)
    decreases n
  {
    var script := RateLimits(n) + rest;
    var url := PageURL(f, st.offset);
    RateLimited(f, None, st);
    assert script[0] == Response(StatusTooManyRequests, None);
    var next := StepOn(f, script[0], st);
    if n == 1 {
      assert seq(1, i => url) == [url];
      assert seq(0, i => (st.retries + 1 + i) * RetryUnitMs) == [];
    } else {
      var s := next.st;
      assert script[1..] == RateLimits(n - 1) + rest;
      RateLimitStreak(f, s, n - 1, rest);
      assert st.urls + seq(n, i => url) == s.urls + seq(n - 1, i => url);
      assert st.sleeps + seq(n - 1, i => (st.retries + 1 + i) * RetryUnitMs)
          == s.sleeps + seq(n - 2, i => (s.retries + 1 + i) * RetryUnitMs);
    }
  }

  /** The td loop: whether some cell contains the marker. */
  method FindMarker(cells: seq<string>) returns (noProxies: bool)
    ensures noProxies == HasMarker(cells)
  {
    noProxies := false;
    var i := 0;
    while i < |cells|
      invariant 0 <= i <= |cells|
      invariant noProxies <==> exists j :: 0 <= j < i && Contains(cells[j], NoProxiesMarker)
    {
      if Contains(cells[i], NoProxiesMarker) {
        noProxies := true;
      }
      i := i + 1;
    }
  }

  /** The row loop: the page's records and their count. */
  method CollectRows(rows: seq<Row>, source: string) returns (pageProxies: seq<Proxy>, count: nat)
    ensures pageProxies == PageRecords(rows, source)
    ensures count == |pageProxies|
  {
    pageProxies, count := [], 0;
    var i := 0;
    while i < |rows|
      invariant 0 <= i <= |rows|
      invariant pageProxies == PageRecords(rows[..i], source) && count == |pageProxies|
    {
      PageRecordsSnoc(rows, i, source);
      var p := RowRecord(rows[i], source);
      if p.Some? {
        pageProxies := pageProxies + [p.value];
        count := count + 1;
      }
      i := i + 1;
    }
    assert rows[..i] == rows;
  }

  /** The handling of one 200 response once retries is reset: parse checks, rows, delivery and the advance. */
  method HandlePage(f: Config, doc: Option<Doc>, st: State) returns (next: State, stop: bool)
    ensures (if stop then Stop(next) else Continue(next)) == StepOn(f, Response(StatusOK, doc), st)
  {
    next := st.(urls := st.urls + [PageURL(f, st.offset)], retries := 0);
    if doc.None? {
      return next, true;
    }
    var noProxies := FindMarker(doc.value.cells);
    if noProxies || |doc.value.rows| == 0 {
      return next, true;
    }
    var pageProxies, count := CollectRows(doc.value.rows, f.source);
    var batches, totalFetched := next.batches, next.totalFetched;
    if |pageProxies| > 0 {
      batches := batches + [pageProxies];
      totalFetched := totalFetched + count;
    }
    if count == 0 {
      return next, true;
    }
    next := next.(offset := next.offset + Step, totalFetched := totalFetched, batches := batches, sleeps := next.sleeps + [PageDelayMs]);
    stop := false;
  }

  /** One pass of the loop: the request for the current offset and what its response leads to. */
  method HandleResponse(f: Config, resp: PageResponse, st: State) returns (next: State, stop: bool)
    ensures (if stop then Stop(next) else Continue(next)) == StepOn(f, resp, st)
  {
    if resp.RequestError? {
      return st.(urls := st.urls + [PageURL(f, st.offset)]), true;
    }
    if resp.status == StatusTooManyRequests {
      var retries := st.retries + 1;
      next := st.(urls := st.urls + [PageURL(f, st.offset)], retries := retries);
      if retries > MaxRetries {
        return next, true;
      }
      return next.(sleeps := next.sleeps + [retries * 5 * SecondMs]), false;
    }
    if resp.status != StatusOK {
      return st.(urls := st.urls + [PageURL(f, st.offset)]), true;
    }
    next, stop := HandlePage(f, resp.doc, st);
  }

  /**
   * ProxyDBFetcher.Fetch: requests offset 0, 30, 60, ... until an error,
   * a status other than 200 or 429, more than 10 consecutive 429s, an end
   * marker, an empty table or a page without records, and returns nil.
   * The final counters satisfy the loop invariant.
   */
  method Fetch(f: Config, script: seq<PageResponse>) returns (err: Option<string>, final: State)
    ensures err == None
    ensures final == Run(f, script, Init())
    ensures final.offset == Step * |final.batches| && final.totalFetched == Total(final.batches)
    ensures final.retries <= MaxRetries + 1
  {
    var offset: nat, retries: nat, totalFetched: nat := 0, 0, 0;
    var batches: seq<seq<Proxy>> := [];
    var urls: seq<string> := [];
    var sleeps: seq<nat> := [];
    var i := 0;
    while i < |script|
      invariant 0 <= i <= |script|
      invariant Run(f, script[i..], State(offset, retries, totalFetched, batches, urls, sleeps)) == Run(f, script, Init())
    {
      var st := State(offset, retries, totalFetched, batches, urls, sleeps);
      assert script[i..][0] == script[i] && script[i..][1..] == script[i + 1..];
      var next, stop := HandleResponse(f, script[i], st);
      offset, retries, totalFetched, batches, urls, sleeps := next.offset, next.retries, next.totalFetched, next.batches, next.urls, next.sleeps;
      i := i + 1;
      if stop {
        break;
      }
    }
    final := State(offset, retries, totalFetched, batches, urls, sleeps);
    RunKeepsInv(f, script, Init());
    err := None;
  }
}
