/** One candidate's lifecycle (`test_ip_address`): rewrite the configuration, write
    it to the shared temporary file, start the proxy core on it, give it the grace
    period, probe through it, and in every case stop the process and delete the
    temporary file. The machine state it touches is the class `Host`; what the
    outside world does (the process dying early, the launch failing, the probe's
    answer) is an input. */
module Lifecycle {
  import opened Wrappers
  import opened JsonDoc
  import opened PingTest

  /** What happens to one launch of the proxy core: starting it raises (for instance
      the executable is missing), or it starts and either exits on its own during
      the 4-second grace period or is still running when the period ends. */
  datatype LaunchOutcome = LaunchRaises | Started(exitsDuringGrace: bool)

  /** Everything outside the scanner that decides how one candidate's test goes. */
  datatype CandidateEnv = CandidateEnv(launch: LaunchOutcome, probe: ProbeOutcome)

  /** What `test_ip_address` hands back: a latency, `None`, the string "CONFIG_ERROR",
      or an exception that escapes it (the scanner catches only KeyError and IndexError). */
  datatype TestResult = Latency(ms: nat) | NoLatency | ConfigError | Uncaught

  /** A proxy-core process and the configuration it was started from. */
  datatype Proc = Running(config: Json) | Exited(config: Json)

  /** The test gets as far as starting a proxy-core process. */
  predicate Launches(config: Json, ip: string, env: CandidateEnv)
  {
    RewriteAddress(config, ip).Ok? && env.launch.Started?
  }

  /** The test gets as far as issuing the probe: the process survived the grace period. */
  predicate Probes(config: Json, ip: string, env: CandidateEnv)
  {
    RewriteAddress(config, ip).Ok? && env.launch == Started(false)
  }

  /** The process testing one candidate starts: none when the rewrite fails or the
      launch raises, otherwise one started from the rewritten configuration, which
      the test leaves stopped. */
  function LaunchedBy(config: Json, ip: string, env: CandidateEnv): seq<Proc>
  {
    if Launches(config, ip, env) then [Exited(RewriteAddress(config, ip).value)] else []
  }

  /** The configuration each probe of one candidate's test goes through: the rewritten
      one, when the process survived the grace period, and no probe otherwise. */
  function ProbedBy(config: Json, ip: string, env: CandidateEnv): seq<Json>
  {
    if Probes(config, ip, env) then [RewriteAddress(config, ip).value] else []
  }

  /** The result of testing candidate `ip` against the base configuration `config`. */
  function ExpectedResult(config: Json, ip: string, env: CandidateEnv): TestResult
  {
    match RewriteAddress(config, ip)
    case KeyOrIndexError => ConfigError
    case TypeError => Uncaught
    case Ok(_) =>
      match env.launch
      case LaunchRaises => Uncaught
      case Started(exitsDuringGrace) =>
        if exitsDuringGrace then NoLatency
        else
          match RunPingTest(env.probe)
          case Some(ms) => Latency(ms)
          case None => NoLatency
  }

  /** "CONFIG_ERROR" comes exactly from a missing key or an empty list on the way to the
      address field, whatever the candidate and the environment; an exception escapes
      exactly when the document has the wrong shape or the launch raises; a latency
      comes only from a probe through a process that survived the grace period and
      answered 2xx, and it is that probe's latency; a process that exited during the
      grace period gives `None` without a probe. */
  lemma ExpectedResultSpec(config: Json, ip: string, env: CandidateEnv)
    ensures var r := ExpectedResult(config, ip, env);
      && (r == ConfigError <==> Missing(config, AddressParent))
      && (r == Uncaught <==>
            RewriteAddress(config, ip).TypeError? || (RewriteAddress(config, ip).Ok? && env.launch.LaunchRaises?))
      && (r.Latency? <==> Probes(config, ip, env) && env.probe.Response? && IsSuccessStatus(env.probe.status))
      && (r.Latency? ==> r.ms == env.probe.elapsedMs)
      && (RewriteAddress(config, ip).Ok? && env.launch == Started(true) ==> r == NoLatency && !Probes(config, ip, env))
  {
    RewriteAddressSpec(config, ip);
  }

  /** Every process from position `k` on has exited. */
  predicate ExitedFrom(ps: seq<Proc>, k: nat)
  {
    forall j :: k <= j < |ps| ==> !ps[j].Running?
  }

  /** The state of the machine the scanner runs on, as far as the scanner touches it. */
  class Host {
    /** Contents of temp_config.json; `None` while the file does not exist. */
    var tempConfig: Option<Json>
    /** Every proxy-core process started so far, in launch order. */
    var processes: seq<Proc>
    /** Contents of working_ips.txt; `None` while the file does not exist. */
    var resultsFile: Option<string>
    /** The configuration of the running process each probe went through, one per probe. */
    ghost var probes: seq<Json>
    /** The candidates handed to `TestIpAddress` so far. */
    ghost var tested: seq<string>

    /** A machine on which the two files may or may not exist yet and no process was started. */
    constructor (tempConfig: Option<Json>, resultsFile: Option<string>)
      ensures this.tempConfig == tempConfig && this.resultsFile == resultsFile
      ensures processes == [] && probes == [] && tested == []
    {
      this.tempConfig := tempConfig;
      this.resultsFile := resultsFile;
      processes := [];
      probes := [];
      tested := [];
    }

    /** No process started so far is still running. */
    ghost predicate NoneRunning()
      reads this
    {
      forall j :: 0 <= j < |processes| ==> !processes[j].Running?
    }

    /** Test one candidate. On every path the result is `ExpectedResult`, the temporary
        file is gone, and the one process this call started (if any) has exited and
        was started from the rewritten configuration; the probe, when issued, went
        through that process; the results file is not touched. */
    method TestIpAddress(config: Json, ip: string, env: CandidateEnv) returns (r: TestResult)
      modifies this
      ensures r == ExpectedResult(config, ip, env)
      ensures tempConfig == None
      ensures resultsFile == old(resultsFile)
      ensures tested == old(tested) + [ip]
      ensures processes == old(processes) + LaunchedBy(config, ip, env)
      ensures probes == old(probes) + ProbedBy(config, ip, env)
      ensures old(NoneRunning()) ==> NoneRunning()
    {
      tested := tested + [ip];
      var handle: Option<nat> := None;
      // try:
      var rewritten := RewriteAddress(config, ip);
      if rewritten.KeyOrIndexError? {
        // except (KeyError, IndexError)
        r := ConfigError;
      } else if rewritten.TypeError? {
        r := Uncaught;
      } else {
        tempConfig := Some(rewritten.value);
        if env.launch.LaunchRaises? {
          r := Uncaught;
        } else {
          // the process reads the temporary file it is pointed at
          processes := processes + [Running(tempConfig.value)];
          handle := Some(|processes| - 1);
          // the grace period, during which the process may exit on its own
          if env.launch.exitsDuringGrace {
            processes := processes[handle.value := Exited(processes[handle.value].config)];
          }
          if !processes[handle.value].Running? {
            r := NoLatency;
          } else {
            probes := probes + [processes[handle.value].config];
            var ping := RunPingTest(env.probe);
            r := if ping.Some? then Latency(ping.value) else NoLatency;
          }
        }
      }
      // finally: stop the process if it still runs, delete the temporary file if it exists
      if handle.Some? && processes[handle.value].Running? {
        processes := processes[handle.value := Exited(processes[handle.value].config)];
      }
      if tempConfig.Some? {
        tempConfig := None;
      }
    }
  }
}
