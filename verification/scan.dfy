/** The scan itself (the script's main block): delete the old results file, test the
    candidates one after another, stop at the first "CONFIG_ERROR", append each
    working candidate to `working_ips` and to the results file, and finally rank
    `working_ips` by ping. The candidate addresses and what the environment does for
    each of them are inputs. */
module Scan {
  import opened Wrappers
  import opened JsonDoc
  import opened Lifecycle
  import opened ResultsFile
  import opened Ranking

  /** How the run ends: the summary is shown, or an exception that escaped a test
      ended the script before it. */
  datatype ScanReport = Finished(summary: Summary) | Aborted

  /** The result each candidate would get if it were tested. */
  function Results(config: Json, candidates: seq<string>, envs: seq<CandidateEnv>): (rs: seq<TestResult>)
    requires |envs| == |candidates|
    ensures |rs| == |candidates|
    decreases |candidates|
  {
    if candidates == [] then []
    else [ExpectedResult(config, candidates[0], envs[0])] + Results(config, candidates[1..], envs[1..])
  }

  /** Per candidate, the processes its test would start. */
  function StartedProcesses(config: Json, candidates: seq<string>, envs: seq<CandidateEnv>): (ps: seq<seq<Proc>>)
    requires |envs| == |candidates|
    ensures |ps| == |candidates|
    decreases |candidates|
  {
    if candidates == [] then []
    else [LaunchedBy(config, candidates[0], envs[0])] + StartedProcesses(config, candidates[1..], envs[1..])
  }

  /** Per candidate, the configurations its test would probe through. */
  function IssuedProbes(config: Json, candidates: seq<string>, envs: seq<CandidateEnv>): (qs: seq<seq<Json>>)
    requires |envs| == |candidates|
    ensures |qs| == |candidates|
    decreases |candidates|
  {
    if candidates == [] then []
    else [ProbedBy(config, candidates[0], envs[0])] + IssuedProbes(config, candidates[1..], envs[1..])
  }

  /** What the `i`-th candidate's test gives: its result, its processes and its probes. */
  lemma {:induction false} CandidateAt(config: Json, candidates: seq<string>, envs: seq<CandidateEnv>, i: nat)
    requires i < |candidates| == |envs|
    ensures Results(config, candidates, envs)[i] == ExpectedResult(config, candidates[i], envs[i])
    ensures StartedProcesses(config, candidates, envs)[i] == LaunchedBy(config, candidates[i], envs[i])
    ensures IssuedProbes(config, candidates, envs)[i] == ProbedBy(config, candidates[i], envs[i])
    decreases i
  {
    if i > 0 {
      CandidateAt(config, candidates[1..], envs[1..], i - 1);
    }
  }

  /** A result after which no further candidate is tested. */
  predicate EndsScan(r: TestResult)
  {
    r == ConfigError || r == Uncaught
  }

  /** The first position at or after `from` whose result ends the scan, or the length. */
  function FirstStop(rs: seq<TestResult>, from: nat): (k: nat)
    requires from <= |rs|
    ensures from <= k <= |rs|
    ensures forall j :: from <= j < k ==> !EndsScan(rs[j])
    ensures k < |rs| ==> EndsScan(rs[k])
    decreases |rs| - from
  {
    if from == |rs| || EndsScan(rs[from]) then from else FirstStop(rs, from + 1)
  }

  /** Where the scan stops: the first result that ends it, or the number of candidates. */
  function StopIndex(rs: seq<TestResult>): nat
  {
    FirstStop(rs, 0)
  }

  /** How many candidates are tested: those before the stop, and the one that stops it. */
  function TestedCount(rs: seq<TestResult>): nat
  {
    if StopIndex(rs) < |rs| then StopIndex(rs) + 1 else |rs|
  }

  /** `working_ips` after the first `n` candidates: one entry per candidate with a latency, in order. */
  function Collect(candidates: seq<string>, rs: seq<TestResult>, n: nat): seq<Entry>
    requires n <= |rs| == |candidates|
  {
    if n == 0 then []
    else
      var last := if rs[n - 1].Latency? then [Entry(candidates[n - 1], rs[n - 1].ms)] else [];
      Collect(candidates, rs, n - 1) + last
  }

  /** The positions, among the first `n`, of the candidates that got a latency. */
  function SuccessIndices(rs: seq<TestResult>, n: nat): seq<nat>
    requires n <= |rs|
  {
    if n == 0 then []
    else SuccessIndices(rs, n - 1) + (if rs[n - 1].Latency? then [n - 1] else [])
  }

  /** `working_ips` holds exactly the candidates among the first `n` that got a latency,
      each once, in candidate order, with the latency it got. */
  lemma {:induction false} CollectSelects(candidates: seq<string>, rs: seq<TestResult>, n: nat)
    requires n <= |rs| == |candidates|
    ensures var w, idx := Collect(candidates, rs, n), SuccessIndices(rs, n);
      && |w| == |idx|
      && (forall k :: 0 <= k < |idx| ==>
            idx[k] < n && rs[idx[k]].Latency? && w[k] == Entry(candidates[idx[k]], rs[idx[k]].ms))
      && (forall k, l :: 0 <= k < l < |idx| ==> idx[k] < idx[l])
      && (forall i :: 0 <= i < n && rs[i].Latency? ==> i in idx)
  {
    if n > 0 {
      CollectSelects(candidates, rs, n - 1);
    }
  }

  /** "CONFIG_ERROR" does not depend on the candidate, so if the scan stops on it, it
      stops on the very first candidate and `working_ips` stays empty. */
  lemma ConfigErrorOnlyFirst(config: Json, candidates: seq<string>, envs: seq<CandidateEnv>)
    requires |envs| == |candidates|
    ensures var rs := Results(config, candidates, envs);
      StopIndex(rs) < |rs| && rs[StopIndex(rs)] == ConfigError ==>
        StopIndex(rs) == 0 && Collect(candidates, rs, StopIndex(rs)) == []
  {
    var rs := Results(config, candidates, envs);
    if StopIndex(rs) < |rs| && rs[StopIndex(rs)] == ConfigError {
      var stop := StopIndex(rs);
      CandidateAt(config, candidates, envs, stop);
      CandidateAt(config, candidates, envs, 0);
      ExpectedResultSpec(config, candidates[stop], envs[stop]);
      ExpectedResultSpec(config, candidates[0], envs[0]);
      assert rs[0] == ConfigError;
    }
  }

  /** The first stop at or after `i` is `i` itself, or lies beyond it. */
  lemma FirstStopStep(rs: seq<TestResult>, i: nat)
    requires i < |rs|
    ensures FirstStop(rs, i) == if EndsScan(rs[i]) then i else FirstStop(rs, i + 1)
  {
  }

  /** Extending a prefix of `s` after `base` by one element; stated with `base` so
      that the loop needs no reasoning about regrouping appends. */
  lemma TakeOneMore(base: seq<string>, s: seq<string>, i: nat)
    requires i < |s|
    ensures base + s[..i] + [s[i]] == base + s[..i + 1]
  {
    assert s[..i + 1] == s[..i] + [s[i]];
  }

  /** The sequences of `xss` joined in order. */
  function Concat<T>(xss: seq<seq<T>>): seq<T>
    decreases |xss|
  {
    if xss == [] then [] else Concat(xss[..|xss| - 1]) + xss[|xss| - 1]
  }

  /** Joining one more sequence appends it. */
  lemma ConcatStep<T>(xss: seq<seq<T>>, i: nat)
    requires i < |xss|
    ensures Concat(xss[..i + 1]) == Concat(xss[..i]) + xss[i]
  {
    assert xss[..i + 1][..i] == xss[..i];
  }

  /** The same after `base`, in the shape the loop's invariants take. */
  lemma AppendConcatStep<T>(base: seq<T>, xss: seq<seq<T>>, i: nat)
    requires i < |xss|
    ensures base + Concat(xss[..i]) + xss[i] == base + Concat(xss[..i + 1])
  {
    ConcatStep(xss, i);
  }

  /** Every process started while testing the first `n` candidates has been stopped. */
  lemma {:induction false} StartedAllExited(config: Json, candidates: seq<string>, envs: seq<CandidateEnv>, n: nat)
    requires n <= |candidates| == |envs|
    ensures ExitedFrom(Concat(StartedProcesses(config, candidates, envs)[..n]), 0)
  {
    if n > 0 {
      var ps := StartedProcesses(config, candidates, envs);
      StartedAllExited(config, candidates, envs, n - 1);
      ConcatStep(ps, n - 1);
      CandidateAt(config, candidates, envs, n - 1);
      ExitedAfter(Concat(ps[..n - 1]), ps[n - 1]);
    }
  }

  /** A probe went through a configuration only if a process was started from that
      configuration, and there are no more probes than processes started. */
  lemma {:induction false} ProbesWentThroughStarted(config: Json, candidates: seq<string>, envs: seq<CandidateEnv>, n: nat)
    requires n <= |candidates| == |envs|
    ensures var probed, started := Concat(IssuedProbes(config, candidates, envs)[..n]),
                                   Concat(StartedProcesses(config, candidates, envs)[..n]);
      |probed| <= |started| && forall c :: c in probed ==> Exited(c) in started
  {
    if n > 0 {
      var qs, ps := IssuedProbes(config, candidates, envs), StartedProcesses(config, candidates, envs);
      ProbesWentThroughStarted(config, candidates, envs, n - 1);
      ConcatStep(qs, n - 1);
      ConcatStep(ps, n - 1);
      CandidateAt(config, candidates, envs, n - 1);
    }
  }

  /** Appending stopped processes keeps everything from the old length on stopped. */
  lemma ExitedAfter(a: seq<Proc>, b: seq<Proc>)
    requires ExitedFrom(b, 0)
    ensures ExitedFrom(a + b, |a|)
  {
    assert forall j :: |a| <= j < |a + b| ==> (a + b)[j] == b[j - |a|];
  }

  /** One turn of the loop: test the `i`-th candidate and, when it answered, append it
      to `working_ips` and its line to the results file, which opening in append mode
      creates when it does not exist. The turn starts the processes and issues the
      probes of that candidate's test and no others (at most one process, from the
      rewritten configuration, stopped by the end, and a probe through it exactly
      when it survived the grace period); the temporary file is gone. */
  method TestAndRecord(host: Host, config: Json, candidates: seq<string>, envs: seq<CandidateEnv>, i: nat,
                       working: seq<Entry>)
    returns (r: TestResult, updated: seq<Entry>)
    requires i < |candidates| == |envs|
    requires host.resultsFile == FileAfter(working)
    modifies host
    ensures r == Results(config, candidates, envs)[i]
    ensures updated == working + (if r.Latency? then [Entry(candidates[i], r.ms)] else [])
    ensures host.resultsFile == FileAfter(updated)
    ensures host.tested == old(host.tested) + [candidates[i]]
    ensures host.tempConfig == None
    ensures host.processes == old(host.processes) + StartedProcesses(config, candidates, envs)[i]
    ensures host.probes == old(host.probes) + IssuedProbes(config, candidates, envs)[i]
  {
    CandidateAt(config, candidates, envs, i);
    var ip := candidates[i];
    r := host.TestIpAddress(config, ip, envs[i]);
    updated := working;
    if r.Latency? {
      var entry := Entry(ip, r.ms);
      RenderAppend(working, entry);
      updated := working + [entry];
      var before := if host.resultsFile.Some? then host.resultsFile.value else [];
      host.resultsFile := Some(before + ResultLine(entry));
    }
  }

  /** What the loop leaves behind: `working_ips`, whether an exception ended it, and
      how many candidates were tested. */
  datatype LoopEnd = LoopEnd(working: seq<Entry>, crashed: bool, tested: nat)

  /** The loop run from candidate `i` on, with `working` collected so far, when the
      candidates' results are `rs`. */
  function LoopFrom(candidates: seq<string>, rs: seq<TestResult>, i: nat, working: seq<Entry>): LoopEnd
    requires |rs| == |candidates| && i <= |rs|
    decreases |rs| - i
  {
    if i == |rs| then LoopEnd(working, false, i)
    else if EndsScan(rs[i]) then LoopEnd(working, rs[i] == Uncaught, i + 1)
    else LoopFrom(candidates, rs, i + 1, working + (if rs[i].Latency? then [Entry(candidates[i], rs[i].ms)] else []))
  }

  /** Run from the start, the loop stops at the first "CONFIG_ERROR" or exception,
      tests the candidates up to and including that one, and collects exactly the
      candidates before it that got a latency; it crashed exactly when it stopped on
      an exception. */
  lemma LoopSpec(candidates: seq<string>, rs: seq<TestResult>)
    requires |rs| == |candidates|
    ensures LoopFrom(candidates, rs, 0, []) ==
      LoopEnd(Collect(candidates, rs, StopIndex(rs)),
              StopIndex(rs) < |rs| && rs[StopIndex(rs)] == Uncaught,
              TestedCount(rs))
  {
    LoopFromSpec(candidates, rs, 0);
  }

  /** One turn of the loop. */
  lemma LoopFromStep(candidates: seq<string>, rs: seq<TestResult>, i: nat, working: seq<Entry>)
    requires |rs| == |candidates| && i < |rs|
    ensures LoopFrom(candidates, rs, i, working) ==
      if EndsScan(rs[i]) then LoopEnd(working, rs[i] == Uncaught, i + 1)
      else LoopFrom(candidates, rs, i + 1, working + (if rs[i].Latency? then [Entry(candidates[i], rs[i].ms)] else []))
  {
  }

  lemma {:induction false} LoopFromSpec(candidates: seq<string>, rs: seq<TestResult>, i: nat)
    requires |rs| == |candidates| && i <= StopIndex(rs) && FirstStop(rs, i) == StopIndex(rs)
    ensures LoopFrom(candidates, rs, i, Collect(candidates, rs, i)) ==
      LoopEnd(Collect(candidates, rs, StopIndex(rs)),
              StopIndex(rs) < |rs| && rs[StopIndex(rs)] == Uncaught,
              TestedCount(rs))
    decreases |rs| - i
  {
    if i < |rs| {
      FirstStopStep(rs, i);
      if !EndsScan(rs[i]) {
        LoopFromSpec(candidates, rs, i + 1);
      }
    }
  }

  /** The loop over the candidates, which keeps the rest of the run's outcome fixed:
      `working_ips` and the crash flag are those of `LoopFrom` from the start; the
      results file is deleted first and ends up holding one line per entry of
      `working_ips`, in order (so it does not exist when nothing worked); the
      candidates tested are those `LoopFrom` counts, and the processes started and
      the probes issued are exactly those of the tested candidates, in order, so no
      process the loop started is left running; the temporary file is gone once
      anything was tested. */
  method ScanCandidates(host: Host, config: Json, candidates: seq<string>, envs: seq<CandidateEnv>)
    returns (working: seq<Entry>, crashed: bool)
    requires |envs| == |candidates|
    modifies host
    ensures var e := LoopFrom(candidates, Results(config, candidates, envs), 0, []);
      && working == e.working && crashed == e.crashed
      && host.resultsFile == FileAfter(working)
      && e.tested <= |candidates|
      && host.tested == old(host.tested) + candidates[..e.tested]
      && host.tempConfig == (if e.tested == 0 then old(host.tempConfig) else None)
      && host.processes == old(host.processes) + Concat(StartedProcesses(config, candidates, envs)[..e.tested])
      && host.probes == old(host.probes) + Concat(IssuedProbes(config, candidates, envs)[..e.tested])
    ensures ExitedFrom(host.processes, |old(host.processes)|)
  {
    ghost var rs := Results(config, candidates, envs);
    ghost var outcome := LoopFrom(candidates, rs, 0, []);
    ghost var started := StartedProcesses(config, candidates, envs);
    ghost var issued := IssuedProbes(config, candidates, envs);
    // the results file of an earlier run is deleted
    host.resultsFile := None;
    working := [];
    crashed := false;
    var i := 0;
    while i < |candidates|
      invariant 0 <= i <= |candidates|
      invariant LoopFrom(candidates, rs, i, working) == outcome
      invariant host.resultsFile == FileAfter(working)
      invariant host.tested == old(host.tested) + candidates[..i]
      invariant host.tempConfig == (if i == 0 then old(host.tempConfig) else None)
      invariant host.processes == old(host.processes) + Concat(started[..i])
      invariant host.probes == old(host.probes) + Concat(issued[..i])
    {
      ghost var workingBefore := working;
      var r;
      r, working := TestAndRecord(host, config, candidates, envs, i, working);
      LoopFromStep(candidates, rs, i, workingBefore);
      TakeOneMore(old(host.tested), candidates, i);
      AppendConcatStep(old(host.processes), started, i);
      AppendConcatStep(old(host.probes), issued, i);
      if EndsScan(r) {
        // "CONFIG_ERROR" breaks out of the loop; an exception leaves the script
        crashed := r == Uncaught;
        break;
      }
      i := i + 1;
    }
    StartedAllExited(config, candidates, envs, outcome.tested);
    ExitedAfter(old(host.processes), Concat(started[..outcome.tested]));
  }

  /** The whole run: the loop, then the summary, which is shown unless an exception
      escaped a test. */
  method RunScan(host: Host, config: Json, candidates: seq<string>, envs: seq<CandidateEnv>)
    returns (working: seq<Entry>, report: ScanReport)
    requires |envs| == |candidates|
    modifies host
    ensures var rs := Results(config, candidates, envs);
      && working == Collect(candidates, rs, StopIndex(rs))
      && host.resultsFile == FileAfter(working)
      && host.tested == old(host.tested) + candidates[..TestedCount(rs)]
      && report == (if StopIndex(rs) < |rs| && rs[StopIndex(rs)] == Uncaught then Aborted
                    else Finished(Summarize(working)))
      && host.tempConfig == (if TestedCount(rs) == 0 then old(host.tempConfig) else None)
      && host.processes == old(host.processes) + Concat(StartedProcesses(config, candidates, envs)[..TestedCount(rs)])
      && host.probes == old(host.probes) + Concat(IssuedProbes(config, candidates, envs)[..TestedCount(rs)])
    ensures ExitedFrom(host.processes, |old(host.processes)|)
  {
    var crashed;
    working, crashed := ScanCandidates(host, config, candidates, envs);
    LoopSpec(candidates, Results(config, candidates, envs));
    if crashed {
      report := Aborted;
    } else {
      report := Finished(Summarize(working));
    }
  }
}
