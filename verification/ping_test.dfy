/** The latency probe (`run_ping_test`): one GET through the local proxy with a
    browser-impersonating HTTP client. The client itself is outside the model; what
    it did is an input. */
module PingTest {
  import opened Wrappers

  /** What the HTTP client did with the one request: raised (connection refused,
      proxy failure, timeout after 10 s, ...) or answered with a status code after
      the given elapsed time, already in whole milliseconds. */
  datatype ProbeOutcome = ClientRaised | Response(status: int, elapsedMs: nat)

  /** A 2xx answer. */
  predicate IsSuccessStatus(status: int)
  {
    200 <= status < 300
  }

  /** The probe yields a latency for a 2xx answer only; any other status and any
      exception yield `None`. */
  function RunPingTest(probe: ProbeOutcome): (r: Option<nat>)
    ensures r.Some? <==> probe.Response? && IsSuccessStatus(probe.status)
    ensures r.Some? ==> r.value == probe.elapsedMs
  {
    match probe
    case ClientRaised => None
    case Response(status, elapsedMs) =>
      if 200 <= status && status < 300 then Some(elapsedMs) else None
  }
}
