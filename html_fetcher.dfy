/**
 * HTMLFetcher.Fetch: one HTML page whose table rows become HTTP records.
 * The GET and the HTML parsing are a parameter: the response carries the
 * status and, when parsing succeeds, the cell texts of each table row.
 */
module HTMLFetcher {
  import opened Wrappers
  import opened Strings
  import opened Models
  import opened Seqs
  import opened Http

  /** The fewest cells a row needs: IP, port, ..., the https column at index 6. */
  const MinCells: nat := 7

  /** The fetcher's fields. */
  datatype Config = Config(url: string, source: string)

  /**
   * What the GET gives: no response, or the status code, the status line
   * (http.Response.Status) and the rows' cell texts or the parse error.
   */
  datatype PageResponse =
    | RequestError(msg: string)
    | Response(status: int, statusText: string, rows: Result<seq<seq<string>>, string>)

  /**
   * A row gives a record when it has at least 7 cells and a non-empty
   * trimmed first cell; the port is the trimmed second cell, possibly empty,
   * and the protocol is HTTP whatever the https column says.
   */
  function RowRecord(cells: seq<string>, source: string): (r: Option<Proxy>)
    ensures r.Some? <==> |cells| >= MinCells && TrimSpace(cells[0]) != ""
    ensures r.Some? ==> r.value == Proxy(TrimSpace(cells[0]), TrimSpace(cells[1]), HTTP, source)
  {
    if |cells| >= MinCells then
      var ip := TrimSpace(cells[0]);
      var port := TrimSpace(cells[1]);
      var https := TrimSpace(ToLower(cells[6]));
      var protocol := if https == "yes" then HTTP else HTTP;
      if ip == "" then None else Some(Proxy(ip, port, protocol, source))
    else None
  }

  /** The records of the page's rows, in row order. */
  function Records(rows: seq<seq<string>>, source: string): (r: seq<Proxy>)
    ensures |r| <= |rows|
  {
    FilterMap(rows, cells => RowRecord(cells, source))
  }

  /** The https column (index 6) has no influence on the record. */
  lemma HttpsColumnIgnored(cells: seq<string>, v: string, source: string)
    requires |cells| >= MinCells
    ensures RowRecord(cells[6 := v], source) == RowRecord(cells, source)
  {
    assert cells[6 := v][0] == cells[0] && cells[6 := v][1] == cells[1];
  }

  /** An empty port cell is still accepted. */
  lemma EmptyPortAccepted(cells: seq<string>, source: string)
    requires |cells| >= MinCells && TrimSpace(cells[0]) != "" && TrimSpace(cells[1]) == ""
    ensures RowRecord(cells, source) == Some(Proxy(TrimSpace(cells[0]), "", HTTP, source))
  {
  }

  /** Every record is an HTTP record of the fetcher's source with a non-empty trimmed IP taken from some row. */
  lemma RecordsMeaning(rows: seq<seq<string>>, source: string, k: int)
    requires 0 <= k < |Records(rows, source)|
    ensures var p := Records(rows, source)[k];
      && p.protocol == HTTP && p.source == source && p.ip != ""
      && exists i :: 0 <= i < |rows| && |rows[i]| >= MinCells && p.ip == TrimSpace(rows[i][0]) && p.port == TrimSpace(rows[i][1])
  {
    FilterMapFrom(rows, cells => RowRecord(cells, source), k);
  }

  /** A page whose rows all have fewer than 7 cells gives no record. */
  lemma ShortRowsIgnored(rows: seq<seq<string>>, source: string)
    requires forall i :: 0 <= i < |rows| ==> |rows[i]| < MinCells
    ensures Records(rows, source) == []
  {
    FilterMapCount(rows, cells => RowRecord(cells, source));
  }

  lemma RecordsSnoc(rows: seq<seq<string>>, i: int, source: string)
    requires 0 <= i < |rows|
    ensures Records(rows[..i + 1], source) == Records(rows[..i], source) + (if RowRecord(rows[i], source).Some? then [RowRecord(rows[i], source).value] else [])
  {
    assert rows[..i + 1] == rows[..i] + [rows[i]];
    FilterMapSnoc(rows[..i], rows[i], cells => RowRecord(cells, source));
  }

  /** The per-row callback over all rows: the records and their count. */
  method CollectRows(rows: seq<seq<string>>, source: string) returns (proxies: seq<Proxy>, count: nat)
    ensures proxies == Records(rows, source)
    ensures count == |proxies|
  {
    proxies, count := [], 0;
    var i := 0;
    while i < |rows|
      invariant 0 <= i <= |rows|
      invariant proxies == Records(rows[..i], source) && count == |proxies|
    {
      RecordsSnoc(rows, i, source);
      var p := RowRecord(rows[i], source);
      if p.Some? {
        proxies := proxies + [p.value];
        count := count + 1;
      }
      i := i + 1;
    }
    assert rows[..i] == rows;
  }

  /**
   * HTMLFetcher.Fetch: a request error, a status other than 200 or a parse
   * error is returned and nothing is delivered; otherwise the records are
   * delivered in one batch when there is at least one, count is their
   * number and the result is nil.
   */
  method Fetch(f: Config, resp: PageResponse) returns (err: Option<string>, batches: seq<seq<Proxy>>, count: nat)
    ensures resp.RequestError? ==> err == Some(resp.msg) && batches == []
    ensures resp.Response? && resp.status != StatusOK ==> err == Some("bad status: " + resp.statusText) && batches == []
    ensures resp.Response? && resp.status == StatusOK && resp.rows.Err? ==> err == Some(resp.rows.error) && batches == []
    ensures resp.Response? && resp.status == StatusOK && resp.rows.Ok? ==>
      var recs := Records(resp.rows.value, f.source);
      && err == None && count == |recs|
      && batches == (if recs == [] then [] else [recs])
  {
    batches, count := [], 0;
    if resp.RequestError? {
      return Some(resp.msg), [], 0;
    }
    if resp.status != StatusOK {
      return Some("bad status: " + resp.statusText), [], 0;
    }
    if resp.rows.Err? {
      return Some(resp.rows.error), [], 0;
    }
    var proxies;
    proxies, count := CollectRows(resp.rows.value, f.source);
    if |proxies| > 0 {
      batches := [proxies];
    }
    err := None;
  }
}
