/**
 * TextFetcher.Fetch: a plain-text list, one proxy per line, turned into
 * records of the fetcher's protocol and source. The download is a parameter.
 */
module TextFetcher {
  import opened Wrappers
  import opened Strings
  import opened Models
  import opened Seqs

  /** The fetcher's fields. */
  datatype Config = Config(url: string, protocol: Protocol, source: string)

  /** Drops everything up to and including the first "://", if there is one. */
  function StripScheme(line: string): (r: string)
    ensures Index(line, "://") == -1 ==> r == line
    ensures Index(line, "://") >= 0 ==> line == line[..Index(line, "://")] + "://" + r
  {
    var i := Index(line, "://");
    if i == -1 then line
    else
      assert line == line[..i] + line[i..i + 3] + line[i + 3..];
      line[i + 3..]
  }

  /** The text of a line that is split at ':' once trimmed and stripped of its scheme. */
  function Cleaned(line: string): string {
    StripScheme(TrimSpace(line))
  }

  /**
   * One line: a record when the cleaned line holds a ':', with the text
   * before the first ':' as IP and the text up to the next ':' (or the end)
   * as port; anything after that is ignored.
   */
  function ParseLine(line: string, f: Config): (r: Option<Proxy>)
    ensures r.Some? <==> ':' in Cleaned(line)
    ensures r.Some? ==> r.value.protocol == f.protocol && r.value.source == f.source
  {
    var parts := Split(Cleaned(line), ':');
    SplitOne(Cleaned(line), ':');
    if |parts| >= 2 then Some(Proxy(parts[0], parts[1], f.protocol, f.source)) else None
  }

  /**
   * The fields of a parsed line: the cleaned line is the IP, a ':', then
   * the port, followed by nothing or by another ':'.
   */
  lemma ParseLineFields(line: string, f: Config)
    requires ParseLine(line, f).Some?
    ensures var s, r := Cleaned(line), ParseLine(line, f).value;
      && |r.ip| < |s| && s[..|r.ip|] == r.ip && s[|r.ip|] == ':'
      && var rest := s[|r.ip| + 1..];
        |r.port| <= |rest| && rest[..|r.port|] == r.port && (|r.port| < |rest| ==> rest[|r.port|] == ':')
  {
    var s := Cleaned(line);
    SplitFirstField(s, ':');
    SplitFirstField(s[|Split(s, ':')[0]| + 1..], ':');
  }

  /** The records of a list of lines, in line order. */
  function ParseLines(lines: seq<string>, f: Config): (r: seq<Proxy>)
    ensures |r| <= |lines|
  {
    FilterMap(lines, l => ParseLine(l, f))
  }

  /** Every record carries the fetcher's protocol and source. */
  lemma RecordsCarryConfig(lines: seq<string>, f: Config)
    ensures forall p :: p in ParseLines(lines, f) ==> p.protocol == f.protocol && p.source == f.source
  {
    forall p | p in ParseLines(lines, f) ensures p.protocol == f.protocol && p.source == f.source {
      var k :| 0 <= k < |ParseLines(lines, f)| && ParseLines(lines, f)[k] == p;
      FilterMapFrom(lines, l => ParseLine(l, f), k);
    }
  }

  /** Parsing preserves input order: the records of a + b are those of a followed by those of b. */
  lemma ParseLinesAppend(a: seq<string>, b: seq<string>, f: Config)
    ensures ParseLines(a + b, f) == ParseLines(a, f) + ParseLines(b, f)
  {
    FilterMapAppend(a, b, l => ParseLine(l, f));
  }

  lemma ParseLinesSnoc(lines: seq<string>, i: int, f: Config)
    requires 0 <= i < |lines|
    ensures ParseLines(lines[..i + 1], f) == ParseLines(lines[..i], f) + (if ParseLine(lines[i], f).Some? then [ParseLine(lines[i], f).value] else [])
  {
    assert lines[..i + 1] == lines[..i] + [lines[i]];
    FilterMapSnoc(lines[..i], lines[i], l => ParseLine(l, f));
  }

  /** A line without ':' after cleaning contributes nothing. */
  lemma NoColonNoRecord(line: string, f: Config)
    requires ':' !in Cleaned(line)
    ensures ParseLines([line], f) == []
  {
    FilterMapSnoc([], line, l => ParseLine(l, f));
    assert [] + [line] == [line];
  }

  /**
   * Round trip: a proxy written as "protocol://IP:Port" or as "IP:Port" is
   * read back with its IP and port, whenever the text has no surrounding
   * white space, the protocol has no ':', the IP and port hold no ':' and
   * the port no '/'.
   */
  lemma ParseAddressRoundTrip(p: Proxy, f: Config)
    requires ':' !in p.ip && ':' !in p.port && '/' !in p.port
    requires p.ip == [] || !IsSpace(p.ip[0])
    requires p.port == [] || !IsSpace(p.port[|p.port| - 1])
    ensures Cleaned(Address(p)) == Address(p)
    ensures ParseLine(Address(p), f) == Some(Proxy(p.ip, p.port, f.protocol, f.source))
  {
    var s := Address(p);
    TrimSpaceNoEdges(s);
    NoSchemeInAddress(p);
    assert s == p.ip + [':'] + p.port;
    SplitAtFirst(p.ip, p.port, ':');
    SplitNoSep(p.port, ':');
  }

  lemma ParseStringRoundTrip(p: Proxy, f: Config)
    requires ':' !in p.ip && ':' !in p.port && '/' !in p.port
    requires ':' !in p.protocol && p.protocol != [] && !IsSpace(p.protocol[0])
    requires p.port == [] || !IsSpace(p.port[|p.port| - 1])
    ensures ParseLine(String(p), f) == Some(Proxy(p.ip, p.port, f.protocol, f.source))
  {
    var s := String(p);
    assert s[0] == p.protocol[0] && s[|s| - 1] == Address(p)[|Address(p)| - 1];
    TrimSpaceNoEdges(s);
    StripAfterPrefix(p.protocol, Address(p));
    assert Cleaned(s) == p.ip + [':'] + p.port;
    SplitAtFirst(p.ip, p.port, ':');
    SplitNoSep(p.port, ':');
  }

  /** The scheme is stripped at the first "://" when the text before it has no ':'. */
  lemma StripAfterPrefix(prefix: string, rest: string)
    requires ':' !in prefix
    ensures StripScheme(prefix + "://" + rest) == rest
  {
    var sep := "://";
    assert sep[0] == ':' && |sep| == 3;
    IndexAfterPrefix(prefix, sep, rest);
    assert (prefix + sep + rest)[|prefix| + 3..] == rest;
  }

  /** "IP:Port" holds no "://" when the IP and port have no ':' and the port no '/'. */
  lemma NoSchemeInAddress(p: Proxy)
    requires ':' !in p.ip && ':' !in p.port && '/' !in p.port
    ensures Index(Address(p), "://") == -1
  {
    var s, sep := Address(p), "://";
    assert |sep| == 3 && sep[0] == ':' && sep[1] == '/';
    forall i | 0 <= i <= |s| - 3 ensures !OccursAt(s, sep, i) {
      var w := s[i..i + 3];
      assert w[0] == s[i] && w[1] == s[i + 1];
      if i < |p.ip| {
        assert s[..|p.ip|][i] == p.ip[i];
      } else if i > |p.ip| {
        assert s[|p.ip| + 1..][i - |p.ip| - 1] == p.port[i - |p.ip| - 1];
      } else {
        assert s[|p.ip| + 1..][0] == p.port[0];
      }
    }
  }

  /** The clean-up of one line: trim white space, then drop a scheme prefix. */
  method CleanLine(raw: string) returns (line: string)
    ensures line == Cleaned(raw)
  {
    line := TrimSpace(raw);
    var idx := Index(line, "://");
    if idx != -1 {
      line := line[idx + 3..];
    }
  }

  /** The body of the parsing loop for one line. */
  method ParseOne(raw: string, f: Config) returns (p: Option<Proxy>)
    ensures p == ParseLine(raw, f)
  {
    var line := CleanLine(raw);
    var parts := Split(line, ':');
    if |parts| >= 2 {
      return Some(Proxy(parts[0], parts[1], f.protocol, f.source));
    }
    return None;
  }

  /**
   * TextFetcher.Fetch: a failed download is returned as the error; otherwise
   * every line is parsed, the records are handed over in one batch when
   * there is at least one, and the result is nil.
   */
  method Fetch(f: Config, download: Result<seq<string>, string>) returns (err: Option<string>, batches: seq<seq<Proxy>>)
    ensures download.Err? ==> err == Some(download.error) && batches == []
    ensures download.Ok? ==> err == None
    ensures download.Ok? ==> batches == if ParseLines(download.value, f) == [] then [] else [ParseLines(download.value, f)]
  {
    batches := [];
    if download.Err? {
      return Some(download.error), [];
    }
    var lines := download.value;
    var proxies: seq<Proxy> := [];
    var i := 0;
    while i < |lines|
      invariant 0 <= i <= |lines|
      invariant proxies == ParseLines(lines[..i], f)
    {
      ParseLinesSnoc(lines, i, f);
      var p := ParseOne(lines[i], f);
      if p.Some? {
        proxies := proxies + [p.value];
      }
      i := i + 1;
    }
    assert lines[..i] == lines;
    if |proxies| > 0 {
      batches := [proxies];
    }
    err := None;
  }
}
