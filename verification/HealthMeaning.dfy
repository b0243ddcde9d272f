/** What the health counters mean over a sequential history of checks since the last reset. */
module HealthMeaning {
  import opened Inventory
  import opened Health

  /** The outcomes of the checks since the counters were last zero, oldest first; `true` is a
      failing check. */
  type History = seq<bool>

  /** The counters after the history. */
  function Fold(h: History, recovery: int): Counters {
    if h == [] then Counters(0, 0)
    else Advance(Fold(h[..|h| - 1], recovery), h[|h| - 1], recovery)
  }

  function Final(h: History, threshold: int, recovery: int): HealthStatus
    requires h != []
  {
    Verdict(Fold(h, recovery), h[|h| - 1], threshold)
  }

  /** The last `n` checks all passed. */
  predicate PassedLast(h: History, n: int) {
    n <= |h| && forall k :: |h| - n <= k < |h| && 0 <= k ==> !h[k]
  }

  /** The last `n` checks all failed. */
  predicate FailedLast(h: History, n: int) {
    n <= |h| && forall k :: |h| - n <= k < |h| && 0 <= k ==> h[k]
  }

  function FailingIn(h: History): nat {
    if h == [] then 0 else FailingIn(h[..|h| - 1]) + (if h[|h| - 1] then 1 else 0)
  }

  /** `success_count` is the length of the trailing run of passing checks: that many passed, and
      the one before, if there is one, failed. */
  lemma {:induction false} SuccessesAreTheTrailingRun(h: History, recovery: int)
    ensures var n := Fold(h, recovery).successes;
            0 <= n <= |h| && PassedLast(h, n) && (n < |h| ==> h[|h| - n - 1])
  {
    if h != [] {
      SuccessesAreTheTrailingRun(h[..|h| - 1], recovery);
    }
  }

  /** The history ends with a passing check and at least `recovery` passing ones in a row. */
  predicate Recovered(h: History, recovery: int) {
    h != [] && PassedLast(h, if recovery >= 1 then recovery else 1)
  }

  lemma RecoveredIsReset(h: History, recovery: int)
    requires h != []
    ensures Recovered(h, recovery) <==> !h[|h| - 1] && Fold(h, recovery).successes >= recovery
  {
    SuccessesAreTheTrailingRun(h, recovery);
  }

  /** The length of the longest prefix that ends recovered; zero if there is none. */
  function LastRecovery(h: History, recovery: int): nat {
    if h == [] then 0 else if Recovered(h, recovery) then |h| else LastRecovery(h[..|h| - 1], recovery)
  }

  lemma {:induction false} LastRecoveryIsLast(h: History, recovery: int)
    ensures var j := LastRecovery(h, recovery);
            && j <= |h|
            && (j > 0 ==> Recovered(h[..j], recovery))
            && forall k :: j < k <= |h| ==> !Recovered(h[..k], recovery)
  {
    if h != [] {
      assert h[..|h|] == h;
      if !Recovered(h, recovery) {
        var init := h[..|h| - 1];
        LastRecoveryIsLast(init, recovery);
        assert forall k :: 0 <= k <= |init| ==> init[..k] == h[..k];
      }
    }
  }

  /** `failure_count` is the number of failing checks since the history last recovered. */
  lemma {:induction false} FailuresSinceRecovery(h: History, recovery: int)
    ensures LastRecovery(h, recovery) <= |h|
    ensures Fold(h, recovery).failures == FailingIn(h[LastRecovery(h, recovery)..])
  {
    LastRecoveryIsLast(h, recovery);
    if h != [] {
      var init := h[..|h| - 1];
      RecoveredIsReset(h, recovery);
      if !Recovered(h, recovery) {
        FailuresSinceRecovery(init, recovery);
        LastRecoveryIsLast(init, recovery);
        var j := LastRecovery(init, recovery);
        var tail := h[j..];
        assert tail[..|tail| - 1] == init[j..] && tail[|tail| - 1] == h[|h| - 1];
      }
    }
  }

  /** A machine is suspect exactly when its latest check failed and at least `FailureThreshold`
      checks have failed since it last recovered. It is degraded exactly when its latest check passed
      and some have failed since it last recovered, and healthy otherwise: also right after a failing
      check below the threshold. */
  lemma SuspectMeaning(h: History, threshold: int, recovery: int)
    requires h != []
    ensures LastRecovery(h, recovery) <= |h|
    ensures Final(h, threshold, recovery) == Suspect <==>
            h[|h| - 1] && FailingIn(h[LastRecovery(h, recovery)..]) >= threshold
    ensures Final(h, threshold, recovery) == Degraded <==>
            !h[|h| - 1] && FailingIn(h[LastRecovery(h, recovery)..]) > 0
    ensures Final(h, threshold, recovery) == Healthy <==>
            if h[|h| - 1] then FailingIn(h[LastRecovery(h, recovery)..]) < threshold
            else FailingIn(h[LastRecovery(h, recovery)..]) == 0
  {
    FailuresSinceRecovery(h, recovery);
  }

  // ----- against the documented rule: FAILURE_THRESHOLD consecutive failing checks -----

  /** Failing checks in a row are all counted, whatever the recovery threshold. */
  lemma {:induction false} RunIsCounted(h: History, recovery: int, n: nat)
    requires FailedLast(h, n)
    ensures Fold(h, recovery).failures >= n
  {
    FailuresNonNegative(h, recovery);
    if n > 0 {
      RunIsCounted(h[..|h| - 1], recovery, n - 1);
    }
  }

  lemma {:induction false} FailuresNonNegative(h: History, recovery: int)
    ensures Fold(h, recovery).failures >= 0
  {
    if h != [] {
      FailuresNonNegative(h[..|h| - 1], recovery);
    }
  }

  /** With `SuccessRecovery <= 1` only the trailing run of failing checks is counted. */
  lemma {:induction false} CountIsRun(h: History, recovery: int)
    requires recovery <= 1
    ensures 0 <= Fold(h, recovery).failures && FailedLast(h, Fold(h, recovery).failures)
  {
    if h != [] {
      CountIsRun(h[..|h| - 1], recovery);
      SuccessesAreTheTrailingRun(h[..|h| - 1], recovery);
    }
  }

  /** The documented rule never goes unnoticed: a full run of failing checks makes a machine
      suspect under every setting. */
  lemma ConsecutiveIsSuspect(h: History, threshold: int, recovery: int)
    requires h != [] && threshold >= 1 && FailedLast(h, threshold)
    ensures Final(h, threshold, recovery) == Suspect
  {
    RunIsCounted(h, recovery, threshold);
  }

  lemma SuspectIsConsecutive(h: History, threshold: int, recovery: int)
    requires h != [] && threshold >= 1 && (recovery <= 1 || threshold == 1)
    requires Final(h, threshold, recovery) == Suspect
    ensures FailedLast(h, threshold)
  {
    if recovery <= 1 {
      CountIsRun(h, recovery);
    }
  }

  /** `threshold - 1` failing checks, one passing, one failing. */
  function Interrupted(threshold: nat): History
    requires threshold >= 2
  {
    seq(threshold - 1, _ => true) + [false] + [true]
  }

  /** With a recovery threshold of at least 2, the interrupted run makes the machine suspect. */
  lemma InterruptedIsSuspect(threshold: nat, recovery: int)
    requires threshold >= 2 && recovery >= 2
    ensures Final(Interrupted(threshold), threshold, recovery) == Suspect
    ensures !FailedLast(Interrupted(threshold), threshold)
  {
    var h := Interrupted(threshold);
    var run := seq(threshold - 1, _ => true);
    assert h[..|h| - 1] == run + [false] && (run + [false])[..|run|] == run;
    RunIsCounted(run, recovery, threshold - 1);
    SuccessesAreTheTrailingRun(run, recovery);
    assert run[|run| - 1] && Fold(run, recovery).successes == 0;
    assert Fold(run + [false], recovery).failures >= threshold - 1;
    assert !h[threshold - 1];
  }

  /** The counters implement "score at least 5 for `FailureThreshold` consecutive checks" for all
      histories exactly when one passing check recovers or one failing check suffices. */
  lemma ConsecutiveRuleIff(threshold: int, recovery: int)
    requires threshold >= 1
    ensures (forall h: History :: h != [] ==> (Final(h, threshold, recovery) == Suspect <==> FailedLast(h, threshold)))
            <==> recovery <= 1 || threshold == 1
  {
    if recovery <= 1 || threshold == 1 {
      forall h: History | h != []
        ensures Final(h, threshold, recovery) == Suspect <==> FailedLast(h, threshold)
      {
        if FailedLast(h, threshold) {
          ConsecutiveIsSuspect(h, threshold, recovery);
        }
        if Final(h, threshold, recovery) == Suspect {
          SuspectIsConsecutive(h, threshold, recovery);
        }
      }
    } else {
      InterruptedIsSuspect(threshold, recovery);
    }
  }

  /** The check right after a rotation starts from zeroed counters; it can make the machine
      suspect only if it fails and a single failing check suffices. */
  lemma PostRotationVerdict(failing: bool, threshold: int, recovery: int)
    ensures Final([failing], threshold, recovery) == Suspect <==> failing && threshold <= 1
  {
    var h := [failing];
    assert h[..|h| - 1] == [];
    assert Fold(h, recovery) == Advance(Counters(0, 0), failing, recovery);
  }

  // ----- the score -----

  /** The scoring loop of `checkMachineNow`, without interference. */
  method ScoreProbes(ps: seq<EnabledProbe>) returns (score: nat)
    ensures score == Score(ps)
  {
    score := 0;
    for k := 0 to |ps|
      invariant score == Score(ps[..k])
    {
      assert ps[..k + 1][..k] == ps[..k];
      var success := ExecuteProbe(ps[k]);
      if !success {
        score := score + ps[k].weight;
      }
    }
    assert ps[..|ps|] == ps;
  }

  /** The score is additive over the probes, and a probe adds its weight exactly if it is the
      controller's and does not reach its target, or another and finds no agent online. */
  lemma {:induction false} ScoreAdds(a: seq<EnabledProbe>, p: EnabledProbe, b: seq<EnabledProbe>)
    ensures Score([]) == 0
    ensures Score(a + [p] + b) == Score(a + b) +
            (if (p.source == "controller" && !p.reachable) || (p.source != "controller" && !p.agentOnline) then p.weight else 0)
  {
    if b == [] {
      assert (a + [p] + b)[..|a|] == a && a + b == a;
    } else {
      var init := b[..|b| - 1];
      ScoreAdds(a, p, init);
      assert (a + [p] + b)[..|a| + |b|] == a + [p] + init && (a + b)[..|a| + |b| - 1] == a + init;
    }
  }

  /** With weights of at least 1, as probes are stored, the score is zero exactly when every probe
      succeeded, and so a post-rotation check passes exactly then. */
  lemma {:induction false} ScoreZeroIff(ps: seq<EnabledProbe>)
    requires forall p :: p in ps ==> p.weight >= 1
    ensures Score(ps) == 0 <==> forall p :: p in ps ==> if p.source == "controller" then p.reachable else p.agentOnline
  {
    if ps != [] {
      var init, last := ps[..|ps| - 1], ps[|ps| - 1];
      ScoreZeroIff(init);
      assert ps == init + [last];
    }
  }

  /** The controller's own probes among the enabled ones. */
  function Controllers(ps: seq<EnabledProbe>): seq<EnabledProbe> {
    if ps == [] then []
    else Controllers(ps[..|ps| - 1]) + (if ps[|ps| - 1].source == "controller" then [ps[|ps| - 1]] else [])
  }

  /** The weights of the others. */
  function OtherWeights(ps: seq<EnabledProbe>): nat {
    if ps == [] then 0
    else OtherWeights(ps[..|ps| - 1]) + (if ps[|ps| - 1].source == "controller" then 0 else ps[|ps| - 1].weight)
  }

  /** With an agent online throughout, agent probes never contribute: only the controller's own
      probes can make a check fail, whatever the agents later report. With none online, all of them
      do. */
  lemma {:induction false} OnlyControllerProbesFail(ps: seq<EnabledProbe>, online: bool)
    requires forall p :: p in ps ==> p.agentOnline == online
    ensures Score(ps) == Score(Controllers(ps)) + (if online then 0 else OtherWeights(ps))
  {
    if ps != [] {
      var init, last := ps[..|ps| - 1], ps[|ps| - 1];
      assert ps == init + [last] && last in ps;
      OnlyControllerProbesFail(init, online);
      if last.source == "controller" {
        assert Controllers(ps)[..|Controllers(ps)| - 1] == Controllers(init);
      } else {
        assert Controllers(ps) == Controllers(init);
      }
    }
  }
}
