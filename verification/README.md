# A verified model of the sequential IP scanner

This project models the scan in `ip_scanner.py`, which looks for working tunnel endpoints. The script takes a list of candidate addresses and works through them one at a time. For each candidate it does three things:

- writes a copy of the proxy-core configuration with `outbounds[0].settings.vnext[0].address` set to the candidate;
- starts the proxy core on that copy and gives it four seconds to come up;
- sends one HTTP probe through the local proxy.

On every path it then stops the process and deletes the temporary configuration file.

A candidate that answers with a 2xx status goes into `working_ips`. Its line `IP: <ip>, Ping: <ms> ms` is appended to `working_ips.txt`, which is deleted at the start of the run. The scan stops at the first `"CONFIG_ERROR"`. At the end, `working_ips` is sorted stably by ping and the first five entries are shown.

The modules follow the script's parts:

- `JsonDoc` (`json_doc.dfy`): the configuration document as a JSON tree. It gives Python's subscript evaluation and subscript assignment on that tree, with KeyError, IndexError and TypeError. It also has the one rewrite the scanner performs, and a pointer-style reader `At`, independent of Python's rules, that the rewrite is specified against.
- `PingTest` (`ping_test.dfy`): `run_ping_test`. What the HTTP client did is an input.
- `Lifecycle` (`lifecycle.dfy`): `test_ip_address`, as a method on the class `Host`. `Host` holds:
  - the temporary file;
  - the table of proxy-core processes started so far;
  - the results file;
  - as ghost state, the probes issued and the candidates tested.

  What the outside world does for a candidate is an input of type `CandidateEnv`:
  - whether starting the process raises;
  - whether the process dies during the grace period;
  - the probe's outcome.

  The pure function `ExpectedResult` states what the method returns.
- `ResultsFile` (`results_file.dfy`): the results-file line format, and a reader for it that gives back the entries written.
- `Ranking` (`ranking.dfy`): `sorted(working_ips, key=ping)` as a stable insertion sort, and the top-5 summary.
- `Scan` (`scan.dfy`): the main block as a loop over the candidates on a `Host`. It is specified by `LoopFrom`, a recursive description of the loop over the candidates' results. `LoopFrom` is in turn characterised by the first stop (`StopIndex`) and the selection of successes (`Collect`).

Behaviour of `ip_scanner.py` that the model keeps:

- **A missing `"address"` key is not an error.** The last subscript in `config[...]["address"] = str(ip)` is an assignment, so a missing `"address"` key is created. Only a missing key or an out-of-range index on the way to `vnext[0]` gives `"CONFIG_ERROR"`.
- **A wrongly shaped document crashes the script.** Examples are a string where an object is expected, or `vnext[0]` not being an object. These raise TypeError, which the handler at ip_scanner.py:55 does not catch. The exception escapes `test_ip_address` after its `finally` block has run, and ends the script without a summary (`Uncaught`, `Aborted`). A proxy core that cannot be started (`Popen` raising) ends the run the same way.
- **`"CONFIG_ERROR"` does not end the run without a summary.** It only breaks out of the loop, and the summary code still runs. The rewrite's outcome does not depend on the candidate. So, with `config.json` unchanged during the scan, this can only happen on the first candidate, and the summary then says that nothing worked.
- **The results file may be missing at the end.** It is deleted first and only created by the first append, so it does not exist at all when no candidate worked.
- **The scan is sequential.** Candidates are tested one after another in a plain `for` loop. All of them share one temporary file, `temp_config.json`, and one local proxy port.

## Model

| member | source | states |
|---|---|---|
| JsonDoc.Put | ip_scanner.py:37 | A successful subscript assignment always went through a container (an object or an array) at the top |
| JsonDoc.PutAgreesWithDescend | ip_scanner.py:37 | The assignment succeeds iff evaluating the container expression yields a dict. It raises KeyError/IndexError iff evaluating the container does |
| JsonDoc.PutOutcomeIgnoresValue | ip_scanner.py:37 | Whether the assignment succeeds, and which exception it raises, does not depend on the value assigned |
| JsonDoc.DescendToObject | ip_scanner.py:37 | A container expression that yields a dict went only through objects and arrays, so Python's evaluation agrees with the pointer reader `At` |
| JsonDoc.PutWrites | ip_scanner.py:37 | After a successful assignment, the assigned value is at the target path |
| JsonDoc.PutFrame | ip_scanner.py:37 | A successful assignment leaves every position that neither contains the target nor lies inside it unchanged |
| JsonDoc.MissingRaisesKeyOrIndexError | ip_scanner.py:37 | A missing key or out-of-range index on the path makes the assignment raise KeyError/IndexError |
| JsonDoc.KeyOrIndexErrorMeansMissing | ip_scanner.py:37 | On a path without two consecutive integer subscripts, KeyError/IndexError comes only from a missing key or out-of-range index |
| JsonDoc.RewriteAddressSpec | ip_scanner.py:37 | On success the address field holds the candidate and nothing else in the document changed. KeyError/IndexError iff a key or index on the way to `vnext[0]` is missing. Success iff `vnext[0]` is reached through objects and arrays and is an object |
| JsonDoc.RewriteOutcomeIgnoresCandidate | ip_scanner.py:37 | Whether the rewrite succeeds or fails, and with which exception, is the same for every candidate |
| PingTest.RunPingTest | ip_scanner.py:17-26 | A latency is returned iff the client answered with a status in [200, 300), and it is that answer's elapsed time. An exception or any other status gives `None` |
| Lifecycle.ExpectedResultSpec | ip_scanner.py:28-64 | `"CONFIG_ERROR"` iff a key or index on the address path is missing. An exception escapes iff the document has the wrong shape or the launch raises. A latency iff the process survived the grace period and the probe got a 2xx, and it is that probe's latency. A process that exited early gives `None` and no probe |
| Lifecycle.Host.TestIpAddress | ip_scanner.py:28-64 | On every exit path the result is `ExpectedResult` and the temporary file no longer exists. Exactly one process is appended to the process table iff the rewrite succeeded and `Popen` did not raise; it was started from the rewritten configuration and has exited. Exactly one probe, through that configuration, is recorded iff the process was still running after the grace period. The results file is not touched, and no earlier process was restarted |
| ResultsFile.Decimal | ip_scanner.py:95 | `str(ping_ms)`: at least one decimal digit. Exactly `0` for zero, and no leading zero otherwise |
| ResultsFile.DecimalRoundTrip | ip_scanner.py:95 | The digits written for a ping read back as that ping |
| ResultsFile.RenderAppend | ip_scanner.py:94-97 | Appending one line to the file gives the rendering of the list with one more entry |
| ResultsFile.ParsePingBack | ip_scanner.py:95 | The `, Ping: <ms> ms` part of a written line reads back as the ping and the rest of the text |
| ResultsFile.ParseResultLine | ip_scanner.py:95 | A written line reads back as the entry it was written from, followed by the rest of the file |
| ResultsFile.ParseRender | ip_scanner.py:95-97 | Reading the whole file gives back exactly the entries written, in order |
| Ranking.InsertMultiset | ip_scanner.py:108 | Inserting into the ranking keeps every entry and adds the new one |
| Ranking.InsertWithPing | ip_scanner.py:108 | Among entries with the same ping, the inserted entry goes ahead of the ones already there |
| Ranking.InsertKeepsSorted | ip_scanner.py:108 | Inserting into a sequence sorted by ping keeps it sorted |
| Ranking.SortByPing | ip_scanner.py:108 | The ranking is sorted by ping and is a permutation of `working_ips`. Entries with equal pings keep their scan order |
| Ranking.StableSortUnique | ip_scanner.py:108 | Two stable sorts by ping of the same list coincide, so the model's sort is what Python's `sorted` gives |
| Ranking.SortIdempotent | ip_scanner.py:108 | Sorting the ranking again changes nothing |
| Ranking.TopIsBest | ip_scanner.py:110 | A prefix of the ranking holds the smallest pings |
| Ranking.Summarize | ip_scanner.py:106-113 | "No working IPs" iff `working_ips` is empty. Otherwise the first `min(5, n)` entries of the ranking, sorted, taken from `working_ips`, and no entry left out has a smaller ping than one shown |
| Scan.FirstStop | ip_scanner.py:81-87 | The stop is the first result, at or after the start, that is `"CONFIG_ERROR"` or an exception (the length when there is none) |
| Scan.CollectSelects | ip_scanner.py:81-92 | `working_ips` holds exactly the candidates before the stop that got a latency, each once, in candidate order, with its latency |
| Scan.ConfigErrorOnlyFirst | ip_scanner.py:83-87 | A scan that stops on `"CONFIG_ERROR"` stops at the first candidate with `working_ips` empty |
| Scan.LoopFromSpec | ip_scanner.py:81-97 | Run from a point before the stop, the loop ends with the successes before the stop, crashes iff it stopped on an exception, and has tested the candidates up to and including the stop |
| Scan.LoopSpec | ip_scanner.py:79-97 | The same, for the loop run from the first candidate with an empty `working_ips` |
| Scan.CandidateAt | ip_scanner.py:81-83 | The `i`-th candidate's result, processes and probes are those of testing that candidate with its own environment against the same base configuration |
| Scan.StartedAllExited | ip_scanner.py:58-62 | No process started while testing any prefix of the candidates is still running |
| Scan.ProbesWentThroughStarted | ip_scanner.py:44-52 | Over any prefix of the candidates, every probe went through a configuration some started (and now stopped) process was run from, and there are no more probes than processes |
| Scan.TestAndRecord | ip_scanner.py:83-97 | One loop turn: the candidate's result is `ExpectedResult`. On a latency, the entry is appended to `working_ips` and its line to the file. The candidate is appended to the tested ones. Exactly that candidate's processes and probes are appended, and the temporary file is gone |
| Scan.ScanCandidates | ip_scanner.py:69-101 | The loop ends as `LoopFrom` from the start says. The file holds one line per entry of `working_ips`, in order, and does not exist when there are none. Exactly the candidates `LoopFrom` counts were tested. The processes started and the probes issued are exactly those of the tested candidates, in order, and none of those processes is running. The temporary file is gone once a candidate was tested |
| Scan.RunScan | ip_scanner.py:66-113 | `working_ips` is the successes before the first `"CONFIG_ERROR"` or exception, and the file is its rendering. The candidates up to the stop were tested. The run is aborted iff it stopped on an exception, and otherwise shows `Summarize(working_ips)`. The processes started and the probes issued are exactly those of the candidates up to the stop, in order, and no process the run started is left running |

## Left out

- Process control (`subprocess.Popen`, `poll`, `terminate`, `wait`) and `time.sleep(4)` appear only as state changes of `Host.processes`. What the process does during the grace period is an input.
- The HTTP client (curl_cffi `Session` with browser impersonation, proxies, timeout) is not modelled. Its outcome is an input.
- `config.json` is read afresh for every candidate (ip_scanner.py:33-34). The model assumes the file does not change during a scan and uses one decoded document for every candidate.
- Reading `config.json` is not modelled: the decoded document is an input, and a missing or unparsable file is out of scope. The model does not check that the document survives a JSON round trip. Writing the temporary file is a state change of `Host.tempConfig`, and a failing write is not modelled.
- JSON numbers are integers, not floating point.
- The `ipaddress.ip_network(...).hosts()` expansion of the CIDR range and the invalid-range exit (ip_scanner.py:74-77) are not modelled. The candidates are an input sequence of address strings.
- PingTest.RunPingTest: the latency is already a whole number of milliseconds. The float `response.elapsed * 1000` and the `int(...)` truncation at ip_scanner.py:90 are not modelled.
- Console output is not modelled: progress lines, the error message and the formatted top-5 listing (`{ip:<15}`). The summary gives the entries to be listed.
- ResultsFile.ParseRender: the reader splits a line at the first comma, so the round trip is stated for addresses without a comma, which IPv4 and IPv6 address strings never contain.
- The text encoding of the results file is not modelled: characters stand for themselves.
- main_tester.py is not part of this model. It is a one-shot launch with printed HTTP checks, and its 2xx check is the same as the one in `run_ping_test`.
- The model has no concurrency: the code has no worker pool, no per-lifecycle ports and no per-port temporary files.
