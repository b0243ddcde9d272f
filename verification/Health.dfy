/** The weighted health check: the counters of a machine and the verdict drawn from them. */
module Health {
  import opened Inventory

  /** A check whose failure score reaches this value counts as failing. */
  const FAILING_SCORE := 5

  datatype Counters = Counters(failures: int, successes: int)

  predicate Failing(score: int) {
    score >= FAILING_SCORE
  }

  /** The counters after one more check. */
  function Advance(c: Counters, failing: bool, recovery: int): Counters {
    if failing then Counters(c.failures + 1, 0)
    else
      var successes := c.successes + 1;
      Counters(if successes >= recovery then 0 else c.failures, successes)
  }

  /** The health drawn from the check's outcome and the advanced counters. */
  function Verdict(after: Counters, failing: bool, threshold: int): HealthStatus {
    if failing then (if after.failures >= threshold then Suspect else Healthy)
    else if after.failures > 0 then Degraded
    else Healthy
  }

  /** The branch of `checkMachineNow` that updates the counters it has read. */
  method Conclude(score: int, read: Counters, threshold: int, recovery: int)
    returns (health: HealthStatus, failure: int, success: int)
    ensures Counters(failure, success) == Advance(read, Failing(score), recovery)
    ensures health == Verdict(Counters(failure, success), Failing(score), threshold)
    ensures score >= 5 ==> && failure == read.failures + 1 && success == 0
                           && health == (if failure >= threshold then Suspect else Healthy)
    ensures score < 5 ==> && failure == (if success >= recovery then 0 else read.failures) && success == read.successes + 1
                          && health == (if failure > 0 then Degraded else Healthy)
  {
    failure, success := read.failures, read.successes;
    health := Healthy;
    if score >= 5 {
      failure := failure + 1;
      success := 0;
      if failure >= threshold {
        health := Suspect;
      }
    } else {
      success := success + 1;
      if success >= recovery {
        failure := 0;
      }
      if failure > 0 {
        health := Degraded;
      }
    }
  }

  // ----- the probes -----

  /** An enabled probe, with what its run meets: whether the controller reaches the target, and
      whether an agent of the machine is online. */
  datatype EnabledProbe = EnabledProbe(source: string, weight: nat, reachable: bool, agentOnline: bool)

  /** The result of `executeProbe`. */
  predicate Succeeds(p: EnabledProbe) {
    if p.source == "controller" then p.reachable else p.agentOnline
  }

  /** `executeProbe`: a controller probe is run; any other succeeds once it is queued, which needs
      an online agent. */
  method ExecuteProbe(p: EnabledProbe) returns (success: bool)
    ensures success <==> (p.source == "controller" && p.reachable) || (p.source != "controller" && p.agentOnline)
    ensures success == Succeeds(p)
  {
    if p.source != "controller" {
      success := false;
      if p.agentOnline {
        success := true;
      }
      return;
    }
    success := p.reachable;
  }

  /** The sum of the weights of the probes that fail. */
  function Score(ps: seq<EnabledProbe>): nat {
    if ps == [] then 0
    else
      var last := ps[|ps| - 1];
      Score(ps[..|ps| - 1]) + (if Succeeds(last) then 0 else last.weight)
  }
}
