# GoLangProxyParser in Dafny

A Dafny model of the proxy checker GoLangProxyParser. The program:

- gathers proxy records from several public lists (a plain-text list, the Geonode JSON API, the free-proxy-list.net HTML table, the paged proxydb.net HTML table);
- deduplicates the records by `IP:Port`, keeping the last record for each address;
- checks each record through the proxy it describes (HTTP forward proxy, SOCKS5, or a hand-written SOCKS4 CONNECT handshake);
- writes the working ones to a file until an optional limit is reached.

The model covers:

- every record-extraction rule of the four fetchers;
- the `Proxy` value and its two string forms;
- `checker.Check` with its defaulting, its protocol dispatch and its 200-only success rule;
- the SOCKS4 dialer: destination resolution, the nine-byte request and the reply check, and which paths write the request and close the connection;
- the run engine of `cmd/proxyparser`: `deduplicate`, a worker's validation rounds and the `Update` state machine with its counters, its output file and its 1000-entry log ring.

Network results, parsed HTML rows, decoded JSON items and DNS answers enter as parameters. Each fetcher and the dialer is a method with those results as inputs. The method is proved against specification functions, and the source's promises are proved about those functions as lemmas.

Modules, one per source file plus the library pieces they rely on:

| module | file | models |
|---|---|---|
| `Models` | models.dfy | `pkg/models/proxy.go` |
| `Checker` | checker.dfy | `pkg/checker/checker.go` |
| `Socks4` | socks4.dfy | `pkg/checker/socks4.go` |
| `Engine` | engine.dfy | `cmd/proxyparser/main.go` |
| `TextFetcher`, `GeonodeFetcher`, `ProxyDBFetcher`, `HTMLFetcher` | text_fetcher.dfy, geonode_fetcher.dfy, proxydb_fetcher.dfy, html_fetcher.dfy | the four fetchers under `pkg/fetcher/` |
| `Strings`, `Strconv`, `Net`, `Http` | strings.dfy, strconv.dfy, net.dfy, http.dfy | the parts of Go's `strings`, `unicode`, `strconv`, `net` and `net/http` that the core calls |
| `Wrappers`, `Seqs` | wrappers.dfy, seqs.dfy | `Option`/`Result`, and an order-preserving filter-map shared by the fetchers |

Behaviour of the code worth knowing:

- The output file receives one `IP:Port` line per working proxy (main.go:145).
- The protocol filter lower-cases the `-type` flag only (main.go:186) and compares each record's protocol with it exactly.
- A `-validations` value of 0 or less makes every job valid with no check at all (main.go:270).
- The SOCKS4 reply is one `Read` into an 8-byte zeroed buffer (socks4.go:69-70). After a short read the missing bytes stay 0.
- Write errors on the output file and a failed `os.Create` are ignored (main.go:84, 144-145).
- Reaching the limit quits the program (main.go:149-150).
- `GeonodeFetcher.Fetch` has the signature `Fetch() ([]Proxy, error)` (geonode_fetcher.go:29), unlike the other fetchers. It prints its errors, never returns one, and hardcodes the source "Geonode".

## Model

| member | source | states |
|---|---|---|
| Models.Address | pkg/models/proxy.go:24-26 | the address is the IP, one ':', then the port |
| Models.String | pkg/models/proxy.go:20-22 | the string form is the protocol, "://", then the address |
| Models.AddressSplit | pkg/models/proxy.go:24-26 | when the IP has no ':', splitting the address at ':' gives the IP and then the port's pieces |
| Models.AddressInjective | pkg/models/proxy.go:24-26 | for IPs without ':', two addresses are equal exactly when IP and port are |
| Models.ProtocolConstants | pkg/models/proxy.go:7-11 | the three protocol constants are pairwise distinct and lower-case |
| Checker.EffectiveTimeout | pkg/checker/checker.go:20-22 | a zero timeout becomes ten seconds; any other value is kept |
| Checker.EffectiveTarget | pkg/checker/checker.go:24-26 | an empty target becomes https://www.google.com; any other value is kept |
| Checker.SelectStrategy | pkg/checker/checker.go:28-80 | exactly one strategy per recognised protocol: HTTP through "http://IP:Port" with the timeout, SOCKS5 to IP:Port, SOCKS4 with the dialer fields; none otherwise |
| Checker.Check | pkg/checker/checker.go:17-97 | success exactly when there is no error; an unrecognised protocol gives (false, unknown protocol) |
| Checker.CheckMeaning | pkg/checker/checker.go:28-96 | success iff the protocol is recognised, the HTTP proxy URL parses, and the GET with the defaulted target and timeout answers exactly 200; a request error or other status is reported as such |
| Checker.UnknownProtocolNoRequest | pkg/checker/checker.go:78-79 | an unrecognised protocol gives the same failure whatever the network does, so no request matters |
| Socks4.Resolve | pkg/checker/socks4.go:39-47 | a literal IP is used as parsed; otherwise the first lookup result; a failed or empty lookup is "failed to resolve" |
| Socks4.Destination | pkg/checker/socks4.go:27-52 | an unsplittable address and a bad port are reported before anything else; then a resolution failure is the result, an address with no IPv4 form is "SOCKS4 only supports IPv4", and otherwise the result is the port Atoi read and the four-byte form of the resolved address |
| Socks4.Request | pkg/checker/socks4.go:54-63 | the request is nine bytes |
| Socks4.RequestRoundTrip | pkg/checker/socks4.go:54-63 | the request decodes to VN 4, CD 1, the port mod 65536 big-endian, the four address bytes and a 0 terminator; every such byte string is a request |
| Socks4.ReplyBuffer | pkg/checker/socks4.go:69-70 | the reply buffer is 8 bytes: the bytes read, then zeros |
| Socks4.Prepare | pkg/checker/socks4.go:27-63 | a request is built exactly when the destination resolves to IPv4, and it encodes that port mod 65536 and address; otherwise the destination's error |
| Socks4.HandshakeGranted | pkg/checker/socks4.go:65-78 | the dial succeeds iff the request was built and written, a reply was read, and its byte 1 is 0x5A; otherwise the code reported is that byte |
| Socks4.ExampleRequest | pkg/checker/socks4.go:54-63 | 93.184.216.34:443 gives 04 01 01 BB 5D B8 D8 22 00, whatever the resolver does |
| Socks4.ExampleDestination | pkg/checker/socks4.go:27-52 | 93.184.216.34:443 resolves to port 443 and bytes 93, 184, 216, 34 without a lookup |
| Socks4.ReplyAfterRequest | pkg/checker/socks4.go:69-78 | after a written request, an 8-byte reply with byte 1 = 0x5A succeeds and any other byte 1 is the error code |
| Socks4.LiteralHostNoLookup | pkg/checker/socks4.go:39-48 | a dotted-decimal host is used as it is, whatever the lookup would answer |
| Socks4.UnresolvableHost | pkg/checker/socks4.go:27-45 | for any destination that splits with a numeric port, a non-literal host whose lookup fails or is empty fails with "failed to resolve" before any write |
| Socks4.IPv6OnlyRefused | pkg/checker/socks4.go:27-52 | for any destination that splits with a numeric port, a host resolving to a 16-byte address that is not IPv4-mapped fails with "SOCKS4 only supports IPv4" before any write |
| Socks4.BracketedIPv6Refused | pkg/checker/socks4.go:27-52 | a bracketed IPv6 literal destination such as "[2001:db8::1]:443" that is not IPv4-mapped is refused with "SOCKS4 only supports IPv4" |
| Socks4.Conn.constructor | pkg/checker/socks4.go:19 | a fresh connection to the proxy: nothing written, open, no deadline |
| Socks4.Conn.SetDeadline | pkg/checker/socks4.go:25 | sets or clears the deadline and nothing else |
| Socks4.Conn.Write | pkg/checker/socks4.go:65 | records the bytes written and reports the peer's verdict |
| Socks4.Conn.Read | pkg/checker/socks4.go:70 | returns the peer's reply |
| Socks4.Conn.Close | pkg/checker/socks4.go:29 | marks the connection closed and nothing else |
| Socks4.ResolveDestination | pkg/checker/socks4.go:27-52 | the split, Atoi, ParseIP-or-lookup and To4 steps with early returns compute the destination |
| Socks4.BuildRequest | pkg/checker/socks4.go:54-63 | the successive appends build exactly the request |
| Socks4.Dial | pkg/checker/socks4.go:18-83 | no connection gives a connect error; otherwise the outcome is the handshake's; the connection is returned iff it succeeds, closed iff it fails, written to only when the request could be built; the deadline is cleared on success and left set on failure |
| Engine.Unique | cmd/proxyparser/main.go:188-194 | the map holds no more entries than records; each key is the address of its record, which passes the filter |
| Engine.UniqueKeys | cmd/proxyparser/main.go:188-194 | a key is present iff some record passing the filter has that address |
| Engine.UniqueLastWins | cmd/proxyparser/main.go:192-193 | a kept record that no later kept record shares its key with is the one bound to its key |
| Engine.UniqueNoFilter | cmd/proxyparser/main.go:189 | with an empty filter every record's address is present |
| Engine.UniqueSnoc | cmd/proxyparser/main.go:188-194 | one more record at the end overwrites its key when it passes the filter and changes nothing otherwise |
| Engine.ExampleLastWins | cmd/proxyparser/main.go:192-193 | two records with one address and a third with another reduce to the second and the third |
| Engine.ExampleSingle | cmd/proxyparser/main.go:193 | a single record is bound to its own address |
| Engine.ExampleOverwrite | cmd/proxyparser/main.go:193 | a second record for the same address replaces the first |
| Engine.BuildUnique | cmd/proxyparser/main.go:185-194 | the first loop of deduplicate computes Unique of the records and the lower-cased filter |
| Engine.Enumerate | cmd/proxyparser/main.go:196-199 | the list holds exactly the map's records, each once, with pairwise distinct addresses |
| Engine.EnumerateStep | cmd/proxyparser/main.go:197-199 | taking one key out of the remaining map and appending its record keeps the enumeration state |
| Engine.EnumerateMembers | cmd/proxyparser/main.go:197-199 | after a step the list holds exactly the records of the keys taken out |
| Engine.EnumerateDistinct | cmd/proxyparser/main.go:197-199 | after a step no two listed records share an address |
| Engine.DeduplicatedKeys | cmd/proxyparser/main.go:188-199 | every address of a record passing the filter survives deduplication, and only records passing the filter survive |
| Engine.DeduplicatedLastWins | cmd/proxyparser/main.go:192-199 | the survivor for an address is the last record with it that passed the filter |
| Engine.DeduplicatedFilter | cmd/proxyparser/main.go:186-191 | with a non-empty lower-cased -type flag every survivor has that protocol; with an empty flag the result has one entry per address of all records |
| Engine.Recent | cmd/proxyparser/main.go:122-125 | the ring is the last min(n, 1000) messages of the history |
| Engine.PushLog | cmd/proxyparser/main.go:122-125 | after a log message the ring holds at most 1000 entries and ends with that message |
| Engine.PushLogRecent | cmd/proxyparser/main.go:121-125 | pushing onto the ring of a history gives the ring of the history with that message appended: the newest 1000, in arrival order |
| Engine.FirstFailure | cmd/proxyparser/main.go:270-277 | the first failing round from v on: every round before it succeeds, and it fails unless it is past the last round |
| Engine.JobValidMeaning | cmd/proxyparser/main.go:268-277 | a job is valid iff every configured round succeeds; with validations at most 0 it is always valid |
| Engine.CheckRounds | cmd/proxyparser/main.go:268-277 | valid iff the job is valid; a valid job runs every round and has no error; an invalid one stops after its first failing round and keeps that round's error |
| Engine.ValidJobs | cmd/proxyparser/main.go:280-282 | the valid jobs are valid jobs of the input, no more of them than jobs |
| Engine.SignalsAppend | cmd/proxyparser/main.go:279-282 | progress counts and found proxies of two signal streams add up |
| Engine.SignalsSummary | cmd/proxyparser/main.go:279-282 | a job sequence gives exactly one progress signal per job, and found results for exactly the valid jobs, in job order |
| Engine.ProcessJob | cmd/proxyparser/main.go:268-287 | one job sends progress and then the proxy iff it is valid; with debugging on an invalid job logs the error of its failing round |
| Engine.Worker | cmd/proxyparser/main.go:267-288 | the worker's signals and debug records are those of its jobs, job by job |
| Engine.JobsSnoc | cmd/proxyparser/main.go:267-288 | one more job appends exactly that job's signals and failure records |
| Engine.Lines | cmd/proxyparser/main.go:145 | one output line per valid proxy, each "IP:Port" and a newline |
| Engine.RunModel.constructor | cmd/proxyparser/main.go:74-93 | the initial state: fetching, no logs, no records, zero counters, output open iff the file could be created |
| Engine.RunModel.Deduplicate | cmd/proxyparser/main.go:184-201 | the records become a deduplicated list of the old ones under the lower-cased filter, totalToTest is its length, nothing else changes |
| Engine.RunModel.AddLog | cmd/proxyparser/main.go:121-128 | the message joins the history and the ring stays the newest 1000; nothing else changes |
| Engine.RunModel.FinishFetching | cmd/proxyparser/main.go:133-141 | the state becomes Checking, the records are deduplicated, and checking is started on them with the flags' threads, rounds, URL, timeout in seconds and debug setting |
| Engine.RunModel.AcceptValid | cmd/proxyparser/main.go:143-152 | the line "IP:Port\n" is written when the file is open, validCount grows by one, then the run quits iff the limit is positive and reached |
| Engine.RunModel.Tick | cmd/proxyparser/main.go:154-161 | checkedCount grows by exactly one and the next event is awaited |
| Engine.RunModel.Update | cmd/proxyparser/main.go:100-182 | the outcome of every message kind: state transitions (FinishedFetching to Checking, FinishedChecking to Done), log ring, appended batches, deduplication and launch, write-then-count-then-limit, progress count, the quit keys closing the file, and otherwise the fetching-phase animation |
| Engine.RunModel.HandleCheckEvent | cmd/proxyparser/main.go:143-161 | a valid-proxy or progress event updates only its counter and the output, as Update does |
| Engine.RunModel.Step | cmd/proxyparser/main.go:143-161 | handling the next checking event advances the counters and the output to those of one more event |
| Engine.RunModel.RunChecking | cmd/proxyparser/main.go:143-161 | over a stream of checking events: validCount and checkedCount count the events handled, the output holds their lines, and the run quits iff a positive limit is reached, exactly at it and on a valid proxy, so no more than limit lines are written |
| TextFetcher.StripScheme | pkg/fetcher/text_fetcher.go:34-37 | without "://" the line is unchanged; otherwise the result is what follows the first "://" |
| TextFetcher.ParseLine | pkg/fetcher/text_fetcher.go:39-47 | a record exactly when the cleaned line contains ':', with the fetcher's protocol and source |
| TextFetcher.ParseLineFields | pkg/fetcher/text_fetcher.go:39-45 | the IP is the text before the first ':' and the port the text up to the next ':' or the end; the rest is ignored |
| TextFetcher.ParseLines | pkg/fetcher/text_fetcher.go:30-48 | no more records than lines |
| TextFetcher.RecordsCarryConfig | pkg/fetcher/text_fetcher.go:41-46 | every record has the fetcher's protocol and source |
| TextFetcher.ParseLinesAppend | pkg/fetcher/text_fetcher.go:30-48 | input order is kept: the records of a + b are those of a then those of b |
| TextFetcher.NoColonNoRecord | pkg/fetcher/text_fetcher.go:39-40 | a line with fewer than two ':' parts gives no record |
| TextFetcher.ParseAddressRoundTrip | pkg/fetcher/text_fetcher.go:32-45 | an "IP:Port" line is read back as that IP and port |
| TextFetcher.ParseStringRoundTrip | pkg/fetcher/text_fetcher.go:32-45 | a "protocol://IP:Port" line is read back as that IP and port |
| TextFetcher.StripAfterPrefix | pkg/fetcher/text_fetcher.go:35-37 | the scheme is cut at the first "://" when the text before it has no ':' |
| TextFetcher.NoSchemeInAddress | pkg/fetcher/text_fetcher.go:35 | "IP:Port" holds no "://" when IP and port have no ':' and the port no '/' |
| TextFetcher.CleanLine | pkg/fetcher/text_fetcher.go:31-37 | trim and strip compute the cleaned line |
| TextFetcher.ParseOne | pkg/fetcher/text_fetcher.go:31-47 | the loop body computes the line's record |
| TextFetcher.Fetch | pkg/fetcher/text_fetcher.go:16-58 | a failed download is returned as the error with nothing delivered; otherwise nil, and the records of all lines delivered in one batch iff there is at least one |
| GeonodeFetcher.Classify | pkg/fetcher/geonode_fetcher.go:37-59 | a request error, a non-200 status or a decode error skips the page; decoded empty data stops the loop; otherwise the items |
| GeonodeFetcher.MapProtocol | pkg/fetcher/geonode_fetcher.go:66-75 | "socks4" to SOCKS4, "socks5" to SOCKS5, "http" or "https" to HTTP, each iff; anything else is not recognised |
| GeonodeFetcher.ItemRecords | pkg/fetcher/geonode_fetcher.go:63-83 | at most one record per protocol entry, each with the item's IP and port, source "Geonode" and a recognised protocol |
| GeonodeFetcher.PageRecords | pkg/fetcher/geonode_fetcher.go:61-84 | every record of a page has source "Geonode" and one of the three protocols |
| GeonodeFetcher.Collect | pkg/fetcher/geonode_fetcher.go:35-85 | every collected record has source "Geonode" and one of the three protocols |
| GeonodeFetcher.LastPage | pkg/fetcher/geonode_fetcher.go:35-59 | the loop stops at Pages or at the first empty page, and no earlier page was empty |
| GeonodeFetcher.Requested | pkg/fetcher/geonode_fetcher.go:35-36 | the requested URLs are those of pages 1, 2, ... up to the last page, in increasing order |
| GeonodeFetcher.HttpAndHttps | pkg/fetcher/geonode_fetcher.go:71-72 | an item listing "http" and "https" yields the same HTTP record twice |
| GeonodeFetcher.ItemRecordsSnoc | pkg/fetcher/geonode_fetcher.go:63-83 | an unrecognised entry adds nothing; a recognised one appends exactly its record |
| GeonodeFetcher.UnrecognisedItem | pkg/fetcher/geonode_fetcher.go:73-74 | an item with only unrecognised protocols yields no record |
| GeonodeFetcher.PageRecordsAppend | pkg/fetcher/geonode_fetcher.go:61-84 | item order is kept: the records of a + b are those of a then those of b |
| GeonodeFetcher.ItemRecordsFrom | pkg/fetcher/geonode_fetcher.go:63-82 | every record of an item comes from one of its entries that maps to the record's protocol |
| GeonodeFetcher.PageRecordsFrom | pkg/fetcher/geonode_fetcher.go:61-82 | every record of a page carries some item's IP and port and a protocol that item lists |
| GeonodeFetcher.CollectFrom | pkg/fetcher/geonode_fetcher.go:35-85 | every collected record comes from an item of a requested page, no later than the stop, that answered 200 with decoded data |
| GeonodeFetcher.AppendItem | pkg/fetcher/geonode_fetcher.go:63-83 | the protocol loop appends exactly the item's records |
| GeonodeFetcher.AppendPage | pkg/fetcher/geonode_fetcher.go:61-84 | the item loop appends exactly the page's records |
| GeonodeFetcher.FetchPage | pkg/fetcher/geonode_fetcher.go:36-84 | one page stops the loop iff it is empty, and otherwise advances the records toward Collect |
| GeonodeFetcher.Fetch | pkg/fetcher/geonode_fetcher.go:29-88 | the result is the collected records of pages 1..Pages up to the first empty page, the URLs requested are exactly those pages in order, and the error is always nil |
| ProxyDBFetcher.ClassifyProtocol | pkg/fetcher/proxydb_fetcher.go:121-129 | on the trimmed, lower-cased cell: SOCKS5 iff it contains "socks5", SOCKS4 iff it contains "socks4" but not "socks5", HTTP iff neither |
| ProxyDBFetcher.RowRecord | pkg/fetcher/proxydb_fetcher.go:108-136 | no record iff the trimmed IP or port is empty; otherwise the trimmed IP and port, the classified protocol and the fetcher's source |
| ProxyDBFetcher.PageRecords | pkg/fetcher/proxydb_fetcher.go:106-139 | no more records than rows |
| ProxyDBFetcher.PageRecordsMeaning | pkg/fetcher/proxydb_fetcher.go:108-137 | every record has a non-empty IP and port taken from some row, the fetcher's source and one of the three protocols |
| ProxyDBFetcher.EmptyFieldSkipped | pkg/fetcher/proxydb_fetcher.go:117-119 | a row with empty trimmed IP or port adds nothing |
| ProxyDBFetcher.OkResetsRetries | pkg/fetcher/proxydb_fetcher.go:79 | a 200 answer resets retries to 0 |
| ProxyDBFetcher.RateLimited | pkg/fetcher/proxydb_fetcher.go:60-71 | a 429 adds one retry at the same offset; the loop stops iff retries passes 10, and otherwise sleeps retries * 5 seconds |
| ProxyDBFetcher.StepKeepsInv | pkg/fetcher/proxydb_fetcher.go:50-154 | one pass keeps the loop invariant: offset is 30 per delivered batch, totalFetched the records delivered, batches non-empty with the fetcher's source, retries at most 11, every sleep valid |
| ProxyDBFetcher.DeliverKeepsInv | pkg/fetcher/proxydb_fetcher.go:141-153 | delivering a non-empty page and advancing the offset by 30 keeps the invariant |
| ProxyDBFetcher.RunKeepsInv | pkg/fetcher/proxydb_fetcher.go:50-154 | the invariant holds when the loop ends |
| ProxyDBFetcher.RateLimitStreak | pkg/fetcher/proxydb_fetcher.go:60-71 | 11 consecutive 429s end the loop at the same offset, after requests for that offset only and sleeps of 5, 10, ..., 50 seconds |
| ProxyDBFetcher.FindMarker | pkg/fetcher/proxydb_fetcher.go:88-93 | the td loop finds the marker iff some cell contains "No Proxies found" |
| ProxyDBFetcher.CollectRows | pkg/fetcher/proxydb_fetcher.go:106-139 | the row loop collects exactly the page's records, and count is their number |
| ProxyDBFetcher.HandlePage | pkg/fetcher/proxydb_fetcher.go:79-153 | handling a 200 page is one loop pass on that response |
| ProxyDBFetcher.HandleResponse | pkg/fetcher/proxydb_fetcher.go:51-153 | handling a response is one loop pass on it |
| ProxyDBFetcher.Fetch | pkg/fetcher/proxydb_fetcher.go:20-158 | the loop runs as Run on the responses; the final offset is 30 per delivered batch, totalFetched is the number of records delivered, retries at most 11, and the error is always nil |
| HTMLFetcher.RowRecord | pkg/fetcher/html_fetcher.go:54-77 | a record iff the row has at least 7 cells and a non-empty trimmed first cell: trimmed IP and port, HTTP, the fetcher's source |
| HTMLFetcher.Records | pkg/fetcher/html_fetcher.go:54-78 | no more records than rows |
| HTMLFetcher.HttpsColumnIgnored | pkg/fetcher/html_fetcher.go:59-68 | the https column never changes the record |
| HTMLFetcher.EmptyPortAccepted | pkg/fetcher/html_fetcher.go:57-63 | an empty port is still accepted |
| HTMLFetcher.RecordsMeaning | pkg/fetcher/html_fetcher.go:54-77 | every record is HTTP with the fetcher's source, a non-empty IP and a port, both trimmed from a row of at least 7 cells |
| HTMLFetcher.ShortRowsIgnored | pkg/fetcher/html_fetcher.go:55-56 | rows with fewer than 7 cells give no record |
| HTMLFetcher.CollectRows | pkg/fetcher/html_fetcher.go:54-78 | the row loop collects exactly the records, and count is their number |
| HTMLFetcher.Fetch | pkg/fetcher/html_fetcher.go:19-88 | a request error, a non-200 status ("bad status: ...") or a parse error is returned with nothing delivered; otherwise nil, count is the number of records, delivered in one batch iff there is one |
| Net.SplitHostPort | pkg/checker/socks4.go:27 | no ':' is a missing port; a result puts the port after the last ':', with no ':' or ']' in it, and rebuilds the input as host:port or [host]:port |
| Net.SplitJoinHostPort | pkg/checker/socks4.go:27 | splitting a joined host and port gives them back |
| Net.SplitPlain | pkg/checker/socks4.go:27 | "host:port" with a bracket-free, colon-free host splits into host and port |
| Net.SplitBracketed | pkg/checker/socks4.go:27 | "[host]:port" splits into host and port |
| Net.ParseIPv4 | pkg/checker/socks4.go:39 | four bytes iff exactly four '.'-separated octet fields; a parsed string holds no '%' |
| Net.ParseFormatIPv4 | pkg/checker/socks4.go:39 | parsing the dotted form of four octets gives them back |
| Net.ParseIP | pkg/checker/socks4.go:39 | any address with a zone ('%') is refused; a first '.' reads IPv4 in 16-byte form, a first ':' reads IPv6, anything else is not an IP |
| Net.To4 | pkg/checker/socks4.go:48 | the 4-byte form exists iff the address is 4 bytes or IPv4-mapped in 16 bytes |
| Net.ParseIPv4Literal | pkg/checker/socks4.go:39-48 | a dotted-decimal literal parses to an address whose 4-byte form is its octets |
| Strconv.Atoi | pkg/checker/socks4.go:33 | a result is a signed numeral within the 64-bit range, with the numeral's value; a digit run after the sign worth more than 2^64-1 is a range error whatever follows it; a syntax error is exactly a non-numeral without such a run |
| Strconv.AtoiShortSyntax | pkg/checker/socks4.go:33 | below 19 characters every non-numeral is a syntax error |
| Strconv.AtoiRangeBeforeSyntax | pkg/checker/socks4.go:33 | a numeral past 2^64-1 followed by any text starting with a non-digit is a range error |
| Strconv.ExampleOverlongRun | pkg/checker/socks4.go:33 | twenty nines and then 'x' is a range error |
| Strconv.AtoiFormatNat | pkg/checker/socks4.go:33 | every natural up to 2^63-1 is read back from its decimal form |
| Strconv.AtoiFormatNegative | pkg/checker/socks4.go:33 | every negative number down to -2^63 is read back |
| Strconv.AtoiRange | pkg/checker/socks4.go:33 | a numeral past 2^63-1 is a range error |
| Strconv.DecimalFormatNat | pkg/fetcher/geonode_fetcher.go:36 | the decimal form of a page number or offset reads back as it |
| Strings.TrimSpace | pkg/fetcher/text_fetcher.go:32 | the result neither starts nor ends with white space, and is empty iff the input is all white space |
| Strings.TrimSpaceTrims | pkg/fetcher/text_fetcher.go:32 | the result is the input with a white-space prefix and a white-space suffix removed, and nothing else |
| Strings.TrimSpaceNoEdges | pkg/fetcher/text_fetcher.go:32 | a string without white space at its ends is unchanged |
| Strings.Index | pkg/fetcher/text_fetcher.go:35 | the first position of the substring, or -1 iff it does not occur |
| Strings.IndexAfterPrefix | pkg/fetcher/text_fetcher.go:35 | the first occurrence is right after a prefix without its first character |
| Strings.Split | pkg/fetcher/text_fetcher.go:39 | at least one part, no part holds the separator, and the parts join back to the input |
| Strings.SplitJoin | pkg/fetcher/text_fetcher.go:39 | splitting joined separator-free parts gives them back |
| Strings.SplitFirstField | pkg/fetcher/text_fetcher.go:39-45 | the first part runs up to the first separator; the rest is the split of what follows |
| Strings.SplitOne | pkg/fetcher/text_fetcher.go:39-40 | there are at least two parts iff the separator occurs |
| Strings.ToLower | cmd/proxyparser/main.go:186 | each character mapped by ASCII lower-casing, length kept |
| Seqs.FilterMapAppend | pkg/fetcher/text_fetcher.go:30-48 | selection keeps input order across concatenation |
| Seqs.FilterMapFrom | pkg/fetcher/text_fetcher.go:41-46 | every selected value comes from some input element |
| Seqs.FilterMapCount | pkg/fetcher/html_fetcher.go:54-56 | all accepted keeps every element; none accepted gives nothing |

## Left out

- The network, DNS and HTTP are not modelled. The GETs, `url.Parse` of the forward proxy's URL, `net.DialTimeout`, `net.LookupIP`, the HTTP transport and the `golang.org/x/net/proxy` SOCKS5 dialer are parameters of the model (response scripts, oracle functions, a connection whose peer behaviour is fixed).
- HTML parsing (goquery selectors) and JSON decoding are parameters: rows, cells and decoded items are given sequences.
- Goroutines, channels, `sync.WaitGroup`, the fetcher fan-out in `main` and the `select` in `waitForCheckEvent` are replaced by sequences processed one at a time. A worker is one job sequence. The checking phase is one stream of events.
- The nondeterministic interleaving of jobs across workers and of events across channels is not modelled.
- The terminal UI (bubbletea, spinner, viewport, progress bar, `View`, window-size messages) is not modelled. Its messages are `Other` in `Update`.
- The floating-point progress fraction is not modelled. Only the integer counters are.
- Flag parsing, `os.Create` of the output file and the debug file's lifecycle (main.go:225-260) are not modelled. The output file is a sequence of lines plus an open flag.
- Engine.ProcessJob: the debug log is the sequence of `debugLog` calls, not the contents of debug.txt. When `os.Create("debug.txt")` succeeds, the deferred `Close` (main.go:234) runs as soon as `startChecking` returns, so the workers' later writes go to a closed file and none reaches debug.txt.
- proxydb.net's timestamped `log.txt` and all log and printed message texts are not modelled.
- `time.Sleep` is not performed: the model records the requested pause durations.
- The `Fetcher` interface and `fetchURL` of `pkg/fetcher/fetcher.go` are not part of this model. A text download is given as its lines or an error.
- A nil logger and a nil callback are not modelled; the callback is taken to be present.
- `GeonodeFetcher.Config`: the `Limit` field is carried but, as in the source, never read.
- Engine.RunModel.Tick: counts with an unbounded integer; the source's `int32` wrap-around after 2^31 events is not modelled.
- Engine.RunModel.AcceptValid: same unbounded `validCount` as Tick.
- Engine.RunModel.FinishFetching: the timeout is seconds times 10^9 on unbounded integers; the `int64` overflow of `time.Duration` for huge `-timeout` values is not modelled.
- Engine.Enumerate: the order of the deduplicated list is left open (Go map iteration order); only its contents and distinctness are stated.
- Strings.ToLower: lower-cases ASCII letters only; Unicode case mapping outside ASCII is not modelled.
- Net.ParseIP: the parser of zone-free IPv6 literals is a parameter; only the IPv4 dotted-decimal parser is modelled in full. Any string containing `%` is refused, as net.ParseIP refuses every zoned address.
- Strings.TrimSpace: Go strings are bytes and `strings.TrimSpace` decodes them as UTF-8, reading invalid bytes as U+FFFD. The model works on sequences of Unicode characters, so invalid UTF-8 is not modelled.
- ProxyDBFetcher.Fetch: the responses are a finite script; when it runs out the model's loop ends, where the source would keep requesting.
- Checker.Check: what happens inside the HTTP and SOCKS5 clients (TLS, redirects, timeouts) is part of the network parameter.
