/**
 The watchdog's choice of control plane: after every failed poll it re-reads the configuration, follows a
 server_url that was swapped on disk, and every tenth failure in a row alternates between the disk URL and the
 backup.
 */
module FailoverUrl {
  import opened Options

  const PROBE_THRESHOLD := 10

  /** The two URLs of a configuration file; empty when not set. */
  datatype Config = Config(serverUrl: string, backupUrl: string)

  /** decideWatchdogServerURL */
  function Decide(current: string, lastDisk: string, config: Config, failures: nat): string {
    if config.serverUrl != "" && config.serverUrl != lastDisk && config.serverUrl != current then config.serverUrl
    else if failures >= PROBE_THRESHOLD && config.backupUrl != "" && failures % PROBE_THRESHOLD == 0 then
      if current == config.backupUrl && config.serverUrl != "" then config.serverUrl else config.backupUrl
    else current
  }

  /** The client's target, the disk URL it last saw, and the failures in a row. */
  datatype Failover = Failover(current: string, lastDisk: string, failures: nat)

  /** What a failed poll makes of it; the reload is None when the file cannot be read. */
  function Failed(f: Failover, reload: Option<Config>): Failover {
    var n := f.failures + 1;
    match reload
    case None => f.(failures := n)
    case Some(config) => Failover(Decide(f.current, f.lastDisk, config, n), config.serverUrl, n)
  }

  function AllFailed(f: Failover, reloads: seq<Option<Config>>): Failover {
    if reloads == [] then f else Failed(AllFailed(f, reloads[..|reloads| - 1]), reloads[|reloads| - 1])
  }

  class FailoverClient {
    var baseUrl: string

    constructor (url: string)
      ensures baseUrl == url
    {
      baseUrl := url;
    }
  }

  class Watchdog {
    const client: FailoverClient
    var lastDiskUrl: string
    var failures: nat

    constructor (url: string)
      ensures fresh(client) && State() == Failover(url, url, 0)
    {
      client := new FailoverClient(url);
      lastDiskUrl, failures := url, 0;
    }

    function State(): Failover
      reads this, client
    {
      Failover(client.baseUrl, lastDiskUrl, failures)
    }

    /** noteFailoverHeartbeatFailure */
    method NoteFailure(reload: Option<Config>) returns (disk: string)
      modifies client
      ensures client.baseUrl ==
              if reload.Some? then Decide(old(client.baseUrl), lastDiskUrl, reload.value, failures)
              else old(client.baseUrl)
      ensures disk == if reload.Some? then reload.value.serverUrl else lastDiskUrl
    {
      if reload.None? {
        return lastDiskUrl;
      }
      var current := client.baseUrl;
      var next := Decide(current, lastDiskUrl, reload.value, failures);
      if next != current {
        client.baseUrl := next;
      }
      disk := reload.value.serverUrl;
    }

    /** One failover poll: the heartbeat is answered, or it fails and the configuration is read again. */
    method Poll(answered: bool, reload: Option<Config>)
      modifies this, client
      ensures State() == if answered then old(State()).(failures := 0) else Failed(old(State()), reload)
    {
      if answered {
        failures := 0;
        return;
      }
      failures := failures + 1;
      var disk := NoteFailure(reload);
      lastDiskUrl := disk;
    }
  }

  // ---------------------------------------------------------------- alternation

  /** A readable configuration with two different URLs, the disk URL already known, the target one of the two. */
  predicate Settled(f: Failover, config: Config) {
    && config.serverUrl != "" && config.backupUrl != "" && config.serverUrl != config.backupUrl
    && f.lastDisk == config.serverUrl && f.current in {config.serverUrl, config.backupUrl}
  }

  function Other(url: string, config: Config): string {
    if url == config.serverUrl then config.backupUrl else config.serverUrl
  }

  function Toggled(url: string, config: Config, times: nat): string {
    if times % 2 == 0 then url else Other(url, config)
  }

  function Repeat(config: Config, n: nat): seq<Option<Config>> { seq(n, _ => Some(config)) }

  lemma ToggledOnce(url: string, config: Config, times: nat)
    requires config.serverUrl != config.backupUrl && url in {config.serverUrl, config.backupUrl}
    ensures Toggled(url, config, times) in {config.serverUrl, config.backupUrl}
    ensures Other(Toggled(url, config, times), config) == Toggled(url, config, times + 1)
  {
  }

  /** The number of tens grows exactly when the count reaches a multiple of ten. */
  lemma TensPassed(m: nat)
    ensures (m + 1) / 10 == m / 10 + if (m + 1) % 10 == 0 then 1 else 0
  {
  }

  /** One failure with a settled configuration: a toggle exactly when the count reaches a multiple of ten. */
  lemma SettledStep(f: Failover, config: Config)
    requires Settled(f, config)
    ensures Failed(f, Some(config)) ==
            Failover(if (f.failures + 1) % 10 == 0 then Other(f.current, config) else f.current, config.serverUrl,
                     f.failures + 1)
    ensures Settled(Failed(f, Some(config)), config)
  {
  }

  lemma OneMoreToggle(url: string, config: Config, m: nat, k: nat)
    requires config.serverUrl != config.backupUrl && url in {config.serverUrl, config.backupUrl} && k <= m
    ensures k / 10 <= m / 10
    ensures Toggled(url, config, (m + 1) / 10 - k / 10) ==
            if (m + 1) % 10 == 0 then Other(Toggled(url, config, m / 10 - k / 10), config)
            else Toggled(url, config, m / 10 - k / 10)
  {
    TensPassed(m);
    ToggledOnce(url, config, m / 10 - k / 10);
  }

  /** After n more failures with the same configuration the target has been toggled once for every multiple of ten
      that the failure count has passed, and so is always one of the two URLs. */
  lemma {:induction false} TogglesEveryTen(f: Failover, config: Config, n: nat)
    requires Settled(f, config)
    ensures AllFailed(f, Repeat(config, n)) ==
            Failover(Toggled(f.current, config, (f.failures + n) / 10 - f.failures / 10), config.serverUrl,
                     f.failures + n)
    ensures Settled(AllFailed(f, Repeat(config, n)), config)
  {
    if n > 0 {
      assert Repeat(config, n)[..n - 1] == Repeat(config, n - 1);
      TogglesEveryTen(f, config, n - 1);
      SettledStep(AllFailed(f, Repeat(config, n - 1)), config);
      OneMoreToggle(f.current, config, f.failures + n - 1, f.failures);
    }
  }

  /** From a fresh failover: exactly n / 10 toggles after n failures. */
  lemma TogglesFromStart(config: Config, url: string, n: nat)
    requires Settled(Failover(url, config.serverUrl, 0), config)
    ensures AllFailed(Failover(url, config.serverUrl, 0), Repeat(config, n)).current == Toggled(url, config, n / 10)
  {
    TogglesEveryTen(Failover(url, config.serverUrl, 0), config, n);
  }

  // ---------------------------------------------------------------- swaps, errors, and what can be targeted at all

  /** Unreadable configurations change neither the target nor the anchor. */
  lemma {:induction false} ErrorsChangeNothing(f: Failover, n: nat)
    ensures AllFailed(f, seq(n, _ => None)) == f.(failures := f.failures + n)
  {
    if n > 0 {
      var reloads: seq<Option<Config>> := seq(n, _ => None);
      assert reloads[..n - 1] == seq(n - 1, _ => None);
      ErrorsChangeNothing(f, n - 1);
    }
  }

  lemma {:induction false} AllFailedConcat(f: Failover, a: seq<Option<Config>>, b: seq<Option<Config>>)
    ensures AllFailed(f, a + b) == AllFailed(AllFailed(f, a), b)
    decreases |b|
  {
    if b == [] {
      assert a + b == a;
    } else {
      assert (a + b)[..|a + b| - 1] == a + b[..|b| - 1];
      AllFailedConcat(f, a, b[..|b| - 1]);
    }
  }

  /** A URL newly written to disk becomes the target at the first readable failure, however many unreadable ones
      come first; from there, if the file names another backup, the alternation goes on between the two. */
  lemma SwapIsFollowed(f: Failover, config: Config, errors: nat, n: nat)
    requires config.serverUrl != "" && config.serverUrl != f.lastDisk && config.serverUrl != f.current
    ensures var swapped := AllFailed(f, seq(errors, _ => None) + Repeat(config, 1));
            && swapped == Failover(config.serverUrl, config.serverUrl, f.failures + errors + 1)
            && (config.backupUrl != "" && config.backupUrl != config.serverUrl ==>
                  AllFailed(swapped, Repeat(config, n)).current ==
                  Toggled(config.serverUrl, config, (swapped.failures + n) / 10 - swapped.failures / 10))
  {
    var reloads: seq<Option<Config>> := seq(errors, _ => None);
    var g := f.(failures := f.failures + errors);
    ErrorsChangeNothing(f, errors);
    AllFailedConcat(f, reloads, Repeat(config, 1));
    assert Repeat(config, 1) == [Some(config)] && [Some(config)][..0] == [];
    assert AllFailed(g, [Some(config)]) == Failed(g, Some(config));
    if config.backupUrl != "" && config.backupUrl != config.serverUrl {
      TogglesEveryTen(Failed(g, Some(config)), config, n);
    }
  }

  ghost predicate Names(reload: Option<Config>, url: string) {
    reload.Some? && url != "" && (reload.value.serverUrl == url || reload.value.backupUrl == url)
  }

  /** Whatever the files say over time, the target is the first one or a URL that one of the files named; it never
      becomes empty. */
  lemma {:induction false} TargetIsKnown(f: Failover, reloads: seq<Option<Config>>)
    ensures var url := AllFailed(f, reloads).current;
            url == f.current || exists i :: 0 <= i < |reloads| && Names(reloads[i], url)
  {
    var n := |reloads|;
    if n > 0 {
      var init := reloads[..n - 1];
      TargetIsKnown(f, init);
      var url, before := AllFailed(f, reloads).current, AllFailed(f, init).current;
      if url != before {
        assert Names(reloads[n - 1], url);
      } else if before != f.current {
        var i :| 0 <= i < |init| && Names(init[i], before);
        assert Names(reloads[i], url);
      }
    }
  }

  /** The server_url of the last readable file. */
  function LastDisk(lastDisk: string, reloads: seq<Option<Config>>): string {
    if reloads == [] then lastDisk
    else if reloads[|reloads| - 1].Some? then reloads[|reloads| - 1].value.serverUrl
    else LastDisk(lastDisk, reloads[..|reloads| - 1])
  }

  lemma {:induction false} AnchorIsLastDisk(f: Failover, reloads: seq<Option<Config>>)
    ensures AllFailed(f, reloads).lastDisk == LastDisk(f.lastDisk, reloads)
  {
    if reloads != [] {
      AnchorIsLastDisk(f, reloads[..|reloads| - 1]);
    }
  }

  lemma BetweenProbes(g: Failover, config: Config)
    requires config.serverUrl != "" && config.serverUrl != config.backupUrl
    requires g.current == config.backupUrl && (g.failures + 1) % 10 != 0
    ensures Failed(g, Some(config)).current ==
            if g.lastDisk != config.serverUrl then config.serverUrl else config.backupUrl
  {
  }

  /** After any history of files, a client that is on the backup between probes goes back to the disk URL if and only
      if the last readable file named another URL, or none. */
  lemma LeavesTheBackupIff(f: Failover, reloads: seq<Option<Config>>, config: Config)
    requires config.serverUrl != "" && config.serverUrl != config.backupUrl
    requires AllFailed(f, reloads).current == config.backupUrl && (AllFailed(f, reloads).failures + 1) % 10 != 0
    ensures Failed(AllFailed(f, reloads), Some(config)).current ==
            if LastDisk(f.lastDisk, reloads) != config.serverUrl then config.serverUrl else config.backupUrl
  {
    AnchorIsLastDisk(f, reloads);
    BetweenProbes(AllFailed(f, reloads), config);
  }

  /** So one file in between decides it, whatever it names: a client on the backup stays there if and only if that
      file names the same disk URL. */
  lemma AnchorSurvivesIff(f: Failover, between: Config, config: Config)
    requires Settled(f, config) && f.current == config.backupUrl
    requires (f.failures + 1) % 10 != 0 && (f.failures + 2) % 10 != 0
    ensures Failed(Failed(f, Some(between)), Some(config)).current ==
            if between.serverUrl == config.serverUrl then config.backupUrl else config.serverUrl
  {
    if Failed(f, Some(between)).current == config.backupUrl {
      BetweenProbes(Failed(f, Some(between)), config);
    }
  }

  /** In particular a file without server_url makes the watchdog forget the disk URL: the same URL, once it is back,
      counts as a swap and pulls the client off the backup before a probe is due. */
  lemma EmptyUrlLosesTheAnchor(f: Failover, config: Config)
    requires Settled(f, config) && f.current == config.backupUrl
    requires (f.failures + 1) % 10 != 0 && (f.failures + 2) % 10 != 0
    ensures Failed(Failed(f, Some(config.(serverUrl := ""))), Some(config)).current == config.serverUrl
    ensures Failed(Failed(f, Some(config)), Some(config)).current == config.backupUrl
  {
    AnchorSurvivesIff(f, config.(serverUrl := ""), config);
    AnchorSurvivesIff(f, config, config);
  }
}
