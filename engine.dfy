/**
 * The run engine of cmd/proxyparser: deduplication of the fetched records,
 * the per-job validation rounds of a checking worker, and the event-driven
 * run state (Update). Goroutines and channels are replaced by sequences of
 * events and jobs processed one at a time.
 */
module Engine {
  import opened Wrappers
  import opened Strings
  import opened Models
  import Checker

  // ---------------------------------------------------------------------
  // Deduplication
  // ---------------------------------------------------------------------

  /** A record passes the protocol filter when the filter is empty or names its protocol. */
  predicate Keep(p: Proxy, filterType: string) {
    filterType == "" || p.protocol == filterType
  }

  /**
   * The map deduplicate builds: the records that pass the filter, keyed by
   * "IP:Port", each key bound to the last such record in input order.
   */
  function Unique(ps: seq<Proxy>, filterType: string): (m: map<string, Proxy>)
    ensures |m| <= |ps|
    ensures forall k :: k in m ==> Address(m[k]) == k && Keep(m[k], filterType)
  {
    if |ps| == 0 then map[]
    else
      var m := Unique(ps[..|ps| - 1], filterType);
      var p := ps[|ps| - 1];
      if Keep(p, filterType) then m[Address(p) := p] else m
  }

  /** Every key of the map comes from a kept input record, and every kept record's key is present. */
  lemma {:induction false} UniqueKeys(ps: seq<Proxy>, filterType: string, k: string)
    ensures k in Unique(ps, filterType) <==> exists i :: 0 <= i < |ps| && Keep(ps[i], filterType) && Address(ps[i]) == k
  {
    if |ps| > 0 {
      var init := ps[..|ps| - 1];
      assert ps == init + [ps[|ps| - 1]];
      UniqueSnoc(init, ps[|ps| - 1], filterType);
      UniqueKeys(init, filterType, k);
      if k in Unique(init, filterType) {
        var i :| 0 <= i < |init| && Keep(init[i], filterType) && Address(init[i]) == k;
        assert ps[i] == init[i];
      }
      if exists i :: 0 <= i < |ps| && Keep(ps[i], filterType) && Address(ps[i]) == k {
        var i :| 0 <= i < |ps| && Keep(ps[i], filterType) && Address(ps[i]) == k;
        if i < |init| {
          assert init[i] == ps[i];
        }
      }
    }
  }

  /**
   * Last write wins: a kept record that no later kept record shares its key
   * with is the one its key is bound to.
   */
  lemma {:induction false} UniqueLastWins(ps: seq<Proxy>, filterType: string, i: int)
    requires 0 <= i < |ps| && Keep(ps[i], filterType)
    requires forall j :: i < j < |ps| && Keep(ps[j], filterType) ==> Address(ps[j]) != Address(ps[i])
    ensures Address(ps[i]) in Unique(ps, filterType)
    ensures Unique(ps, filterType)[Address(ps[i])] == ps[i]
  {
    var init := ps[..|ps| - 1];
    if i < |ps| - 1 {
      forall j | i < j < |init| && Keep(init[j], filterType)
        ensures Address(init[j]) != Address(init[i])
      {
        assert init[j] == ps[j];
      }
      UniqueLastWins(init, filterType, i);
      assert init[i] == ps[i];
      var last := ps[|ps| - 1];
      assert Keep(last, filterType) ==> Address(last) != Address(ps[i]);
    }
  }

  /** With an empty filter nothing is dropped for its protocol. */
  lemma {:induction false} UniqueNoFilter(ps: seq<Proxy>, i: int)
    requires 0 <= i < |ps|
    ensures Address(ps[i]) in Unique(ps, "")
  {
    UniqueKeys(ps, "", Address(ps[i]));
  }

  /** Adding one record at the end updates the map with that record alone. */
  lemma UniqueSnoc(ps: seq<Proxy>, p: Proxy, filterType: string)
    ensures Unique(ps + [p], filterType) == if Keep(p, filterType) then Unique(ps, filterType)[Address(p) := p] else Unique(ps, filterType)
  {
    assert (ps + [p])[..|ps|] == ps;
  }

  /**
   * Two records for one "IP:Port" and a third for another reduce to the
   * second and the third.
   */
  lemma ExampleLastWins(a: Proxy, b: Proxy, c: Proxy)
    requires Address(a) == Address(b) != Address(c)
    ensures Unique([a, b, c], "") == map[Address(b) := b, Address(c) := c]
  {
    ExampleOverwrite(a, b);
    UniqueSnoc([a, b], c, "");
    assert [a, b] + [c] == [a, b, c];
    assert map[Address(b) := b][Address(c) := c] == map[Address(b) := b, Address(c) := c];
  }

  /** A single record is bound to its own key. */
  lemma ExampleSingle(a: Proxy)
    ensures Unique([a], "") == map[Address(a) := a]
  {
    UniqueSnoc([], a, "");
    assert [] + [a] == [a];
  }

  /** A second record with the same key replaces the first. */
  lemma ExampleOverwrite(a: Proxy, b: Proxy)
    requires Address(a) == Address(b)
    ensures Unique([a, b], "") == map[Address(b) := b]
  {
    ExampleSingle(a);
    UniqueSnoc([a], b, "");
    assert [a] + [b] == [a, b];
    assert map[Address(a) := a][Address(b) := b] == map[Address(b) := b];
  }

  // ---------------------------------------------------------------------
  // The log ring
  // ---------------------------------------------------------------------

  const MaxLogs: int := 1000

  /** The most recent MaxLogs entries of a log history. */
  function Recent(history: seq<string>): (r: seq<string>)
    ensures |r| == if |history| <= MaxLogs then |history| else MaxLogs
    ensures r == history[|history| - |r|..]
  {
    if |history| <= MaxLogs then history else history[|history| - MaxLogs..]
  }

  /** One logMsg: append, then keep only the newest 1000 entries. */
  function PushLog(logs: seq<string>, line: string): (r: seq<string>)
    requires |logs| <= MaxLogs
    ensures |r| <= MaxLogs && r != [] && r[|r| - 1] == line
  {
    var l := logs + [line];
    if |l| > MaxLogs then l[|l| - MaxLogs..] else l
  }

  /** The ring always holds the newest 1000 messages received, in arrival order. */
  lemma PushLogRecent(history: seq<string>, line: string)
    ensures PushLog(Recent(history), line) == Recent(history + [line])
  {
    var h := history + [line];
    if |history| > MaxLogs {
      assert Recent(history) + [line] == h[|h| - MaxLogs - 1..];
      assert h[|h| - MaxLogs - 1..][1..] == h[|h| - MaxLogs..];
    }
  }

  // ---------------------------------------------------------------------
  // A checking worker
  // ---------------------------------------------------------------------

  /** The parameters startChecking hands to every worker. */
  datatype CheckConfig = CheckConfig(validations: int, checkURL: string, timeout: int, debug: bool)

  /** The network behaviour seen by validation round v of proxy p. */
  type Environment = (Proxy, nat) -> Checker.Network

  /** The verdict of validation round v of proxy p. */
  function Round(p: Proxy, cfg: CheckConfig, env: Environment, v: nat): Checker.Outcome {
    Checker.Check(p, cfg.checkURL, cfg.timeout, env(p, v))
  }

  /**
   * The first failing round from v on, or a value past the last round when
   * every remaining round succeeds.
   */
  function FirstFailure(p: Proxy, cfg: CheckConfig, env: Environment, v: nat): (r: nat)
    decreases cfg.validations - v
    ensures v <= r
    ensures r < cfg.validations ==> !Round(p, cfg, env, r).ok
    ensures v <= cfg.validations ==> r <= cfg.validations
    ensures forall u: nat :: v <= u < r ==> Round(p, cfg, env, u).ok
  {
    if v >= cfg.validations then v
    else if !Round(p, cfg, env, v).ok then v
    else FirstFailure(p, cfg, env, v + 1)
  }

  /** A job is valid when no round fails. */
  predicate JobValid(p: Proxy, cfg: CheckConfig, env: Environment) {
    FirstFailure(p, cfg, env, 0) >= cfg.validations
  }

  /** Valid exactly when every one of the configured rounds succeeds; with no rounds configured, always valid. */
  lemma JobValidMeaning(p: Proxy, cfg: CheckConfig, env: Environment)
    ensures JobValid(p, cfg, env) <==> forall v: nat :: v < cfg.validations ==> Round(p, cfg, env, v).ok
    ensures cfg.validations <= 0 ==> JobValid(p, cfg, env)
  {
  }

  /**
   * The rounds loop of a worker: Check is called for rounds 0, 1, ... and the
   * loop stops at the first failure, whose error is kept.
   */
  method CheckRounds(p: Proxy, cfg: CheckConfig, env: Environment) returns (isValid: bool, lastErr: Option<Checker.CheckError>, rounds: nat)
    ensures isValid <==> JobValid(p, cfg, env)
    ensures isValid ==> lastErr == None && rounds == if cfg.validations <= 0 then 0 else cfg.validations
    ensures !isValid ==> rounds == FirstFailure(p, cfg, env, 0) + 1 && lastErr == Round(p, cfg, env, rounds - 1).err
    ensures !isValid ==> lastErr.Some?
  {
    isValid := true;
    lastErr := None;
    rounds := 0;
    var v := 0;
    while v < cfg.validations
      invariant 0 <= v && (cfg.validations > 0 ==> v <= cfg.validations)
      invariant rounds == v
      invariant forall u: nat :: u < v ==> Round(p, cfg, env, u).ok
      invariant FirstFailure(p, cfg, env, 0) == FirstFailure(p, cfg, env, v)
    {
      var outcome := Checker.Check(p, cfg.checkURL, cfg.timeout, env(p, v));
      rounds := rounds + 1;
      if !outcome.ok {
        isValid := false;
        lastErr := outcome.err;
        return;
      }
      v := v + 1;
    }
  }

  /** What a worker sends for a job: progress always, then the proxy when valid. */
  datatype Signal = Progress | Found(p: Proxy)

  /** A failed job as written to the debug log: the proxy and the last round's error. */
  datatype Failure = Failure(p: Proxy, err: Checker.CheckError)

  /** The signals of one job: Progress, followed by Found when the job is valid. */
  function JobSignals(p: Proxy, cfg: CheckConfig, env: Environment): seq<Signal> {
    [Progress] + (if JobValid(p, cfg, env) then [Found(p)] else [])
  }

  /** The debug record of one job: none when it is valid, else the error of its first failing round. */
  function JobFailures(p: Proxy, cfg: CheckConfig, env: Environment): seq<Failure> {
    if JobValid(p, cfg, env) then [] else [Failure(p, Round(p, cfg, env, FirstFailure(p, cfg, env, 0)).err.value)]
  }

  /** The signals of a job sequence, job by job. */
  function Signals(jobs: seq<Proxy>, cfg: CheckConfig, env: Environment): seq<Signal> {
    if |jobs| == 0 then []
    else Signals(jobs[..|jobs| - 1], cfg, env) + JobSignals(jobs[|jobs| - 1], cfg, env)
  }

  /** The failures of a job sequence, in job order. */
  function Failures(jobs: seq<Proxy>, cfg: CheckConfig, env: Environment): seq<Failure> {
    if |jobs| == 0 then []
    else Failures(jobs[..|jobs| - 1], cfg, env) + JobFailures(jobs[|jobs| - 1], cfg, env)
  }

  /** The valid jobs, in order. */
  function ValidJobs(jobs: seq<Proxy>, cfg: CheckConfig, env: Environment): (r: seq<Proxy>)
    ensures |r| <= |jobs|
    ensures forall p :: p in r ==> p in jobs && JobValid(p, cfg, env)
  {
    if |jobs| == 0 then []
    else
      var p := jobs[|jobs| - 1];
      ValidJobs(jobs[..|jobs| - 1], cfg, env) + (if JobValid(p, cfg, env) then [p] else [])
  }

  /** The number of Progress signals. */
  function Ticks(sig: seq<Signal>): nat {
    if |sig| == 0 then 0 else Ticks(sig[..|sig| - 1]) + (if sig[|sig| - 1].Progress? then 1 else 0)
  }

  /** The proxies of the Found signals, in order. */
  function Founds(sig: seq<Signal>): seq<Proxy> {
    if |sig| == 0 then [] else Founds(sig[..|sig| - 1]) + (if sig[|sig| - 1].Found? then [sig[|sig| - 1].p] else [])
  }

  lemma {:induction false} SignalsAppend(a: seq<Signal>, b: seq<Signal>)
    ensures Ticks(a + b) == Ticks(a) + Ticks(b)
    ensures Founds(a + b) == Founds(a) + Founds(b)
  {
    if |b| == 0 {
      assert a + b == a;
    } else {
      var b' := b[..|b| - 1];
      assert (a + b)[..|a + b| - 1] == a + b';
      assert (a + b)[|a + b| - 1] == b[|b| - 1];
      SignalsAppend(a, b');
    }
  }

  /** Exactly one progress signal per job, and results for exactly the valid jobs, in job order. */
  lemma {:induction false} SignalsSummary(jobs: seq<Proxy>, cfg: CheckConfig, env: Environment)
    ensures Ticks(Signals(jobs, cfg, env)) == |jobs|
    ensures Founds(Signals(jobs, cfg, env)) == ValidJobs(jobs, cfg, env)
  {
    if |jobs| > 0 {
      var p := jobs[|jobs| - 1];
      var init := jobs[..|jobs| - 1];
      SignalsSummary(init, cfg, env);
      var tail := JobSignals(p, cfg, env);
      SignalsAppend(Signals(init, cfg, env), tail);
      SignalsAppend([Progress], if JobValid(p, cfg, env) then [Found(p)] else []);
      assert Ticks([Progress]) == 1 && Founds([Progress]) == [] by {
        assert [Progress][..0] == [];
      }
      if JobValid(p, cfg, env) {
        assert Ticks([Found(p)]) == 0 && Founds([Found(p)]) == [p] by {
          assert [Found(p)][..0] == [];
        }
      }
      assert Signals(jobs, cfg, env) == Signals(init, cfg, env) + tail;
    }
  }

  /**
   * One worker goroutine's loop over the jobs it takes from the channel: each
   * job's rounds, one progress signal, the proxy when valid, and a debug
   * failure record when debugging is on.
   */
  method Worker(jobs: seq<Proxy>, cfg: CheckConfig, env: Environment) returns (signals: seq<Signal>, debugLog: seq<Failure>)
    ensures signals == Signals(jobs, cfg, env)
    ensures debugLog == if cfg.debug then Failures(jobs, cfg, env) else []
  {
    signals := [];
    debugLog := [];
    var i := 0;
    while i < |jobs|
      invariant 0 <= i <= |jobs|
      invariant signals == Signals(jobs[..i], cfg, env)
      invariant debugLog == if cfg.debug then Failures(jobs[..i], cfg, env) else []
    {
      JobsSnoc(jobs, i, cfg, env);
      var sig, fail := ProcessJob(jobs[i], cfg, env);
      signals := signals + sig;
      debugLog := debugLog + fail;
      i := i + 1;
    }
    assert jobs[..i] == jobs;
  }

  lemma JobsSnoc(jobs: seq<Proxy>, i: int, cfg: CheckConfig, env: Environment)
    requires 0 <= i < |jobs|
    ensures Signals(jobs[..i + 1], cfg, env) == Signals(jobs[..i], cfg, env) + JobSignals(jobs[i], cfg, env)
    ensures Failures(jobs[..i + 1], cfg, env) == Failures(jobs[..i], cfg, env) + JobFailures(jobs[i], cfg, env)
  {
    assert jobs[..i + 1][..i] == jobs[..i] && jobs[..i + 1][i] == jobs[i];
  }

  /** The body of the worker loop for one job: its rounds, then what is sent and what is logged. */
  method ProcessJob(p: Proxy, cfg: CheckConfig, env: Environment) returns (sig: seq<Signal>, fail: seq<Failure>)
    ensures sig == JobSignals(p, cfg, env)
    ensures fail == if cfg.debug then JobFailures(p, cfg, env) else []
  {
    var isValid, lastErr, _ := CheckRounds(p, cfg, env);
    sig := [Progress];
    fail := [];
    if isValid {
      sig := sig + [Found(p)];
    } else if cfg.debug && lastErr.Some? {
      fail := [Failure(p, lastErr.value)];
    }
  }

  // ---------------------------------------------------------------------
  // The run state and its event handling
  // ---------------------------------------------------------------------

  /** The command-line flags the engine reads. */
  datatype Flags = Flags(proxyLimit: int, proxyType: string, validations: int, threads: int, timeoutSeconds: int, checkURL: string, debug: bool)

  /** The flags' defaults. */
  const DefaultFlags: Flags := Flags(0, "", 1, 10, 10, "https://www.google.com", false)

  datatype AppState = Fetching | Checking | Done

  /** The messages Update handles; Other stands for window-size, spinner and progress-bar frames. */
  datatype Msg =
    | Key(name: string)
    | Log(line: string)
    | NewProxies(batch: seq<Proxy>)
    | FinishedFetching
    | ValidProxy(p: Proxy)
    | ProgressTick
    | FinishedChecking
    | Other

  /** The commands Update returns: none, quit, wait for the next checking event, or redraw the spinner. */
  datatype Cmd = NoCmd | Quit | WaitForEvent | Animate

  /** The parameters of the checking run started when fetching finishes. */
  datatype Launch = Launch(proxies: seq<Proxy>, threads: int, cfg: CheckConfig)

  predicate IsQuitKey(msg: Msg) {
    msg.Key? && (msg.name == "q" || msg.name == "ctrl+c")
  }

  /**
   * A deduplicated list: exactly the records bound in Unique, each once; its
   * order is that of Go's map iteration and is not fixed.
   */
  ghost predicate Deduplicated(result: seq<Proxy>, input: seq<Proxy>, filterType: string) {
    var u := Unique(input, filterType);
    && |result| == |u|
    && (forall p :: p in result <==> Address(p) in u && u[Address(p)] == p)
    && (forall i, j :: 0 <= i < j < |result| ==> Address(result[i]) != Address(result[j]))
  }

  /**
   * After deduplication: one record per key, every key of a kept input
   * record present, and only records passing the filter.
   */
  lemma DeduplicatedKeys(result: seq<Proxy>, input: seq<Proxy>, filterType: string, i: int)
    requires Deduplicated(result, input, filterType)
    requires 0 <= i < |input| && Keep(input[i], filterType)
    ensures exists j :: 0 <= j < |result| && Address(result[j]) == Address(input[i])
    ensures forall p :: p in result ==> Keep(p, filterType)
  {
    var k := Address(input[i]);
    UniqueKeys(input, filterType, k);
    var u := Unique(input, filterType);
    assert Address(u[k]) == k;
    assert u[k] in result;
  }

  /** After deduplication the surviving record for a key is the last kept input record with that key. */
  lemma DeduplicatedLastWins(result: seq<Proxy>, input: seq<Proxy>, filterType: string, i: int)
    requires Deduplicated(result, input, filterType)
    requires 0 <= i < |input| && Keep(input[i], filterType)
    requires forall j :: i < j < |input| && Keep(input[j], filterType) ==> Address(input[j]) != Address(input[i])
    ensures input[i] in result
    ensures forall p :: p in result && Address(p) == Address(input[i]) ==> p == input[i]
  {
    UniqueLastWins(input, filterType, i);
  }

  /** The filter is the lower-cased -type flag: a non-empty one keeps only that protocol. */
  lemma DeduplicatedFilter(result: seq<Proxy>, input: seq<Proxy>, proxyType: string)
    requires Deduplicated(result, input, ToLower(proxyType))
    ensures ToLower(proxyType) != "" ==> forall p :: p in result ==> p.protocol == ToLower(proxyType)
    ensures proxyType == "" ==> |result| == |Unique(input, "")|
  {
  }

  /** The first loop of deduplicate: filter, then overwrite the entry of each record's key. */
  method BuildUnique(ps: seq<Proxy>, filterType: string) returns (unique: map<string, Proxy>)
    ensures unique == Unique(ps, filterType)
  {
    unique := map[];
    var i := 0;
    while i < |ps|
      invariant 0 <= i <= |ps|
      invariant unique == Unique(ps[..i], filterType)
    {
      var p := ps[i];
      assert ps[..i + 1] == ps[..i] + [p];
      UniqueSnoc(ps[..i], p, filterType);
      if filterType != "" && p.protocol != filterType {
        i := i + 1;
        continue;
      }
      var key := p.ip + ":" + p.port;
      unique := unique[key := p];
      i := i + 1;
    }
    assert ps[..i] == ps;
  }

  /**
   * The second loop of deduplicate: the map's records, each once, in an
   * order the model leaves open.
   */
  method Enumerate(unique: map<string, Proxy>) returns (result: seq<Proxy>)
    requires forall k :: k in unique ==> Address(unique[k]) == k
    ensures |result| == |unique|
    ensures forall p :: p in result <==> Address(p) in unique && unique[Address(p)] == p
    ensures forall i, j :: 0 <= i < j < |result| ==> Address(result[i]) != Address(result[j])
  {
    result := [];
    var rest := unique;
    while rest != map[]
      invariant Enumerating(unique, rest, result)
      decreases |rest|
    {
      var k :| k in rest;
      EnumerateStep(unique, rest, result, k);
      result := result + [rest[k]];
      rest := rest - {k};
    }
  }

  /**
   * The state of the enumeration loop: result holds, once each, exactly the
   * records of the keys already taken out of rest.
   */
  ghost predicate Enumerating(unique: map<string, Proxy>, rest: map<string, Proxy>, result: seq<Proxy>) {
    && (forall k :: k in unique ==> Address(unique[k]) == k)
    && rest.Keys <= unique.Keys
    && (forall k :: k in rest ==> rest[k] == unique[k])
    && |result| + |rest| == |unique|
    && (forall p :: p in result <==> Address(p) in unique && unique[Address(p)] == p && Address(p) !in rest)
    && (forall i, j :: 0 <= i < j < |result| ==> Address(result[i]) != Address(result[j]))
  }

  /** Taking one key out of rest and appending its record keeps the loop state. */
  lemma EnumerateStep(unique: map<string, Proxy>, rest: map<string, Proxy>, result: seq<Proxy>, k: string)
    requires Enumerating(unique, rest, result) && k in rest
    ensures Enumerating(unique, rest - {k}, result + [rest[k]])
  {
    assert |rest - {k}| == |rest| - 1;
    EnumerateMembers(unique, rest, result, k);
    EnumerateDistinct(unique, rest, result, k);
  }

  /** After the step, result still holds exactly the records of the keys taken out. */
  lemma EnumerateMembers(unique: map<string, Proxy>, rest: map<string, Proxy>, result: seq<Proxy>, k: string)
    requires Enumerating(unique, rest, result) && k in rest
    ensures forall p :: p in result + [rest[k]] <==> Address(p) in unique && unique[Address(p)] == p && Address(p) !in rest - {k}
  {
    var q, r := rest[k], result + [rest[k]];
    assert Address(q) == k;
    forall p ensures p in r <==> Address(p) in unique && unique[Address(p)] == p && Address(p) !in rest - {k} {
      assert p in r <==> p in result || p == q;
    }
  }

  /** After the step, no two records of result share a key. */
  lemma EnumerateDistinct(unique: map<string, Proxy>, rest: map<string, Proxy>, result: seq<Proxy>, k: string)
    requires Enumerating(unique, rest, result) && k in rest
    ensures forall i, j :: 0 <= i < j < |result| + 1 ==> Address((result + [rest[k]])[i]) != Address((result + [rest[k]])[j])
  {
    var q, r := rest[k], result + [rest[k]];
    assert Address(q) == k;
    forall i | 0 <= i < |result| ensures Address(r[i]) != Address(r[|result|]) {
      assert r[i] == result[i] && result[i] in result;
    }
  }

  /** The main model of the terminal program, one instance per run. */
  class RunModel {
    const flags: Flags
    /** Whether os.Create of the output file succeeded. */
    const hasOutput: bool

    var state: AppState
    var logs: seq<string>
    /** Every log message received, in arrival order. */
    ghost var logHistory: seq<string>
    var allProxies: seq<Proxy>
    var checkedCount: int
    var validCount: int
    var totalToTest: int
    /** The lines written to the output file. */
    var output: seq<string>
    var outputOpen: bool
    /** The checking run started by startChecking, once fetching has finished. */
    var launched: Option<Launch>

    ghost predicate Valid()
      reads this
    {
      && logs == Recent(logHistory)
      && 0 <= checkedCount && 0 <= validCount
      && (outputOpen ==> hasOutput)
    }

    /** initialModel. */
    constructor (flags: Flags, hasOutput: bool)
      ensures Valid()
      ensures this.flags == flags && this.hasOutput == hasOutput
      ensures state == Fetching && logs == [] && logHistory == [] && allProxies == []
      ensures checkedCount == 0 && validCount == 0 && totalToTest == 0
      ensures output == [] && outputOpen == hasOutput && launched == None
    {
      this.flags := flags;
      this.hasOutput := hasOutput;
      state := Fetching;
      logs := [];
      logHistory := [];
      allProxies := [];
      checkedCount := 0;
      validCount := 0;
      totalToTest := 0;
      output := [];
      outputOpen := hasOutput;
      launched := None;
    }

    /** model.deduplicate. */
    method Deduplicate()
      modifies this
      ensures Deduplicated(allProxies, old(allProxies), ToLower(flags.proxyType))
      ensures totalToTest == |allProxies|
      ensures state == old(state) && logs == old(logs) && logHistory == old(logHistory)
      ensures checkedCount == old(checkedCount) && validCount == old(validCount)
      ensures output == old(output) && outputOpen == old(outputOpen) && launched == old(launched)
    {
      var unique := BuildUnique(allProxies, ToLower(flags.proxyType));
      allProxies := Enumerate(unique);
      totalToTest := |allProxies|;
    }

    /** A logMsg: into the ring of the newest 1000 messages. */
    method AddLog(line: string)
      requires Valid()
      modifies this
      ensures Valid()
      ensures logHistory == old(logHistory) + [line]
      ensures state == old(state) && allProxies == old(allProxies) && totalToTest == old(totalToTest)
      ensures checkedCount == old(checkedCount) && validCount == old(validCount)
      ensures output == old(output) && outputOpen == old(outputOpen) && launched == old(launched)
    {
      PushLogRecent(logHistory, line);
      logs := PushLog(logs, line);
      logHistory := logHistory + [line];
    }

    /** finishedFetchingMsg: switch to checking, deduplicate, start the checking run. */
    method FinishFetching() returns (cmd: Cmd)
      requires Valid()
      modifies this
      ensures Valid()
      ensures state == Checking
      ensures Deduplicated(allProxies, old(allProxies), ToLower(flags.proxyType))
      ensures totalToTest == |allProxies|
      ensures launched == Some(Launch(allProxies, flags.threads,
        CheckConfig(flags.validations, flags.checkURL, flags.timeoutSeconds * Checker.Second, flags.debug)))
      ensures cmd == WaitForEvent
      ensures logs == old(logs) && logHistory == old(logHistory)
      ensures checkedCount == old(checkedCount) && validCount == old(validCount)
      ensures output == old(output) && outputOpen == old(outputOpen)
    {
      state := Checking;
      Deduplicate();
      var cfg := CheckConfig(flags.validations, flags.checkURL, flags.timeoutSeconds * Checker.Second, flags.debug);
      launched := Some(Launch(allProxies, flags.threads, cfg));
      cmd := WaitForEvent;
    }

    /** validProxyMsg: write "IP:Port\n", count it, then quit once the limit is reached. */
    method AcceptValid(p: Proxy) returns (cmd: Cmd)
      requires Valid()
      modifies this
      ensures Valid()
      ensures output == old(output) + (if old(outputOpen) then [p.ip + ":" + p.port + "\n"] else [])
      ensures validCount == old(validCount) + 1
      ensures cmd == if flags.proxyLimit > 0 && validCount >= flags.proxyLimit then Quit else WaitForEvent
      ensures state == old(state) && logs == old(logs) && logHistory == old(logHistory)
      ensures allProxies == old(allProxies) && totalToTest == old(totalToTest) && launched == old(launched)
      ensures checkedCount == old(checkedCount) && outputOpen == old(outputOpen)
    {
      if outputOpen {
        output := output + [p.ip + ":" + p.port + "\n"];
      }
      validCount := validCount + 1;
      var limit := flags.proxyLimit;
      if limit > 0 && validCount >= limit {
        return Quit;
      }
      return WaitForEvent;
    }

    /** A progress tick: one more proxy checked. */
    method Tick() returns (cmd: Cmd)
      requires Valid()
      modifies this
      ensures Valid()
      ensures checkedCount == old(checkedCount) + 1 && cmd == WaitForEvent
      ensures state == old(state) && logs == old(logs) && logHistory == old(logHistory)
      ensures allProxies == old(allProxies) && totalToTest == old(totalToTest) && launched == old(launched)
      ensures validCount == old(validCount) && output == old(output) && outputOpen == old(outputOpen)
    {
      checkedCount := checkedCount + 1;
      cmd := WaitForEvent;
    }

    /** model.Update, for the messages of the fetching and checking phases. */
    method Update(msg: Msg) returns (cmd: Cmd)
      requires Valid()
      modifies this
      ensures Valid()
      ensures state == match msg
        case FinishedFetching => Checking
        case FinishedChecking => Done
        case _ => old(state)
      // the log ring
      ensures msg.Log? ==> logHistory == old(logHistory) + [msg.line] && cmd == NoCmd
      ensures !msg.Log? ==> logHistory == old(logHistory)
      // the fetched records, their deduplication and the start of checking
      ensures msg.NewProxies? ==> allProxies == old(allProxies) + msg.batch
      ensures msg.FinishedFetching? ==>
        && Deduplicated(allProxies, old(allProxies), ToLower(flags.proxyType))
        && totalToTest == |allProxies|
        && launched == Some(Launch(allProxies, flags.threads,
             CheckConfig(flags.validations, flags.checkURL, flags.timeoutSeconds * Checker.Second, flags.debug)))
        && cmd == WaitForEvent
      ensures !msg.NewProxies? && !msg.FinishedFetching? ==> allProxies == old(allProxies)
      ensures !msg.FinishedFetching? ==> totalToTest == old(totalToTest) && launched == old(launched)
      // a valid proxy: line written, then counted, then the limit checked
      ensures msg.ValidProxy? ==>
        && output == old(output) + (if old(outputOpen) then [msg.p.ip + ":" + msg.p.port + "\n"] else [])
        && validCount == old(validCount) + 1
        && cmd == if flags.proxyLimit > 0 && validCount >= flags.proxyLimit then Quit else WaitForEvent
      ensures !msg.ValidProxy? ==> output == old(output) && validCount == old(validCount)
      // a progress tick
      ensures msg.ProgressTick? ==> checkedCount == old(checkedCount) + 1 && cmd == WaitForEvent
      ensures !msg.ProgressTick? ==> checkedCount == old(checkedCount)
      // quitting
      ensures msg.FinishedChecking? ==> cmd == Quit
      ensures IsQuitKey(msg) ==> cmd == Quit
      ensures outputOpen == (old(outputOpen) && !IsQuitKey(msg))
      // everything else only animates the spinner while fetching
      ensures (msg.Key? && !IsQuitKey(msg)) || msg.NewProxies? || msg.Other? ==>
        cmd == if old(state) == Fetching then Animate else NoCmd
    {
      match msg {
        case Log(line) =>
          AddLog(line);
          return NoCmd;
        case FinishedFetching =>
          cmd := FinishFetching();
          return;
        case ValidProxy(p) =>
          cmd := AcceptValid(p);
          return;
        case ProgressTick =>
          cmd := Tick();
          return;
        case FinishedChecking =>
          state := Done;
          return Quit;
        case Key(name) =>
          if name == "q" || name == "ctrl+c" {
            outputOpen := false;
            return Quit;
          }
        case NewProxies(batch) =>
          allProxies := allProxies + batch;
        case Other =>
      }
      cmd := if state == Fetching then Animate else NoCmd;
    }
  
    /** The part of the run state that the checking events leave alone. */
    ghost function Settled(): (AppState, seq<string>, seq<string>, seq<Proxy>, int, Option<Launch>, bool)
      reads this
    {
      (state, logs, logHistory, allProxies, totalToTest, launched, outputOpen)
    }

    /** One checking event, handled as Update handles it. */
    method HandleCheckEvent(e: Msg) returns (cmd: Cmd)
      requires Valid() && (e.ValidProxy? || e.ProgressTick?)
      modifies this
      ensures Valid() && Settled() == old(Settled())
      ensures validCount == old(validCount) + (if e.ValidProxy? then 1 else 0)
      ensures checkedCount == old(checkedCount) + (if e.ProgressTick? then 1 else 0)
      ensures output == old(output) + (if e.ValidProxy? && outputOpen then [e.p.ip + ":" + e.p.port + "\n"] else [])
      ensures cmd == if e.ValidProxy? && flags.proxyLimit > 0 && validCount >= flags.proxyLimit then Quit else WaitForEvent
    {
      if e.ValidProxy? {
        cmd := AcceptValid(e.p);
      } else {
        cmd := Tick();
      }
    }

    /**
     * The state after the first h checking events, counted from the valid
     * count v0, the checked count c0 and the output out0, with cmd the
     * command the last of them returned.
     */
    ghost predicate Reached(events: seq<Msg>, h: int, v0: int, c0: int, out0: seq<string>, cmd: Cmd)
      reads this
    {
      && 0 <= h <= |events|
      && validCount == v0 + |ValidsIn(events[..h])|
      && checkedCount == c0 + TicksIn(events[..h])
      && output == out0 + (if outputOpen then Lines(ValidsIn(events[..h])) else [])
      && (cmd == Quit || cmd == WaitForEvent)
      && (cmd == WaitForEvent ==> flags.proxyLimit > 0 ==> validCount < flags.proxyLimit)
      && (cmd == Quit ==> flags.proxyLimit > 0 && validCount == flags.proxyLimit && h > 0 && events[h - 1].ValidProxy?)
    }

    /** Handle the next checking event. */
    method Step(events: seq<Msg>, h: int, ghost v0: int, ghost c0: int, ghost out0: seq<string>) returns (cmd: Cmd)
      requires Valid() && Reached(events, h, v0, c0, out0, WaitForEvent) && h < |events|
      requires events[h].ValidProxy? || events[h].ProgressTick?
      modifies this
      ensures Valid() && Settled() == old(Settled())
      ensures Reached(events, h + 1, v0, c0, out0, cmd)
    {
      var e := events[h];
      EventsSnoc(events, h);
      if e.ValidProxy? {
        LinesSnoc(ValidsIn(events[..h]), e.p);
      }
      cmd := HandleCheckEvent(e);
    }

    /**
     * The checking phase driven to its end: the events waitForCheckEvent
     * delivers are handled one by one, as Update does, while the handling
     * asks for the next event. The run quits exactly when the valid count
     * reaches a positive limit, so no more than that many lines are written.
     */
    method RunChecking(events: seq<Msg>) returns (cmd: Cmd, handled: nat)
      requires Valid()
      requires forall e :: e in events ==> e.ValidProxy? || e.ProgressTick?
      requires flags.proxyLimit > 0 ==> validCount < flags.proxyLimit
      modifies this
      ensures Valid() && Settled() == old(Settled())
      ensures handled <= |events|
      ensures validCount == old(validCount) + |ValidsIn(events[..handled])|
      ensures checkedCount == old(checkedCount) + TicksIn(events[..handled])
      ensures output == old(output) + (if outputOpen then Lines(ValidsIn(events[..handled])) else [])
      ensures cmd == Quit || cmd == WaitForEvent
      ensures cmd == Quit <==> flags.proxyLimit > 0 && validCount >= flags.proxyLimit
      ensures cmd == Quit ==> validCount == flags.proxyLimit && handled > 0 && events[handled - 1].ValidProxy?
      ensures cmd == WaitForEvent ==> handled == |events|
    {
      cmd := WaitForEvent;
      handled := 0;
      assert events[..0] == [];
      while handled < |events| && cmd == WaitForEvent
        invariant Valid() && Settled() == old(Settled())
        invariant Reached(events, handled, old(validCount), old(checkedCount), old(output), cmd)
      {
        assert events[handled] in events;
        cmd := Step(events, handled, old(validCount), old(checkedCount), old(output));
        handled := handled + 1;
      }
    }
  }

  /** The proxies of the validProxyMsg events, in order. */
  function ValidsIn(events: seq<Msg>): (r: seq<Proxy>)
    ensures |r| <= |events|
  {
    if |events| == 0 then []
    else ValidsIn(events[..|events| - 1]) + (if events[|events| - 1].ValidProxy? then [events[|events| - 1].p] else [])
  }

  /** The number of progress ticks among the events. */
  function TicksIn(events: seq<Msg>): (n: nat)
    ensures n <= |events|
  {
    if |events| == 0 then 0
    else TicksIn(events[..|events| - 1]) + (if events[|events| - 1].ProgressTick? then 1 else 0)
  }

  /** The output file's lines for a sequence of valid proxies. */
  function Lines(ps: seq<Proxy>): (r: seq<string>)
    ensures |r| == |ps|
    ensures forall i :: 0 <= i < |ps| ==> r[i] == Address(ps[i]) + "\n"
  {
    if |ps| == 0 then [] else Lines(ps[..|ps| - 1]) + [ps[|ps| - 1].ip + ":" + ps[|ps| - 1].port + "\n"]
  }

  lemma EventsSnoc(events: seq<Msg>, h: int)
    requires 0 <= h < |events|
    ensures ValidsIn(events[..h + 1]) == ValidsIn(events[..h]) + (if events[h].ValidProxy? then [events[h].p] else [])
    ensures TicksIn(events[..h + 1]) == TicksIn(events[..h]) + (if events[h].ProgressTick? then 1 else 0)
  {
    assert events[..h + 1][..h] == events[..h];
  }

  lemma LinesSnoc(ps: seq<Proxy>, p: Proxy)
    ensures Lines(ps + [p]) == Lines(ps) + [p.ip + ":" + p.port + "\n"]
  {
    assert (ps + [p])[..|ps|] == ps;
  }
}
