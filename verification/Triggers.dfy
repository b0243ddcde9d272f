/** When a check starts an automatic rotation, on runs of the step system: exactly if it fails, the
    failures reach the threshold and automatic rotation is on. Nothing else starts one. */
module Triggers {
  import Health
  import opened Inventory
  import opened HealthMeaning
  import opened HealthRuns
  import opened Ledger
  import opened Rotation

  /** A check that writes its verdict starts one attempt, or none. The counters it has read decide,
      even if its own update is dropped. */
  lemma TriggerIff(cfg: Config, states: seq<State>, acts: seq<Action>, k: nat, c: nat)
    requires IsRun(cfg, states, acts) && k < |acts| && acts[k] == Probe(c, WriteCounters)
    ensures c < |states[k].checks| && states[k].attempts <= states[k + 1].attempts
    ensures var check, n := states[k].checks[c], |states[k].attempts|;
            if check.score >= 5 && check.read.failures + 1 >= cfg.failureThreshold && cfg.autoRotateGlobal
            then |states[k + 1].attempts| == n + 1 && var a := states[k + 1].attempts[n];
                 a.machine == check.machine && a.trigger == Auto && a.ctx == Live && a.pc == Start
            else |states[k + 1].attempts| == n
  {
    assert StepAt(cfg, states, acts, k);
  }

  /** The attempts that were there stay, with their triggers and machines; a new one is manual, or
      started by a check. */
  ghost predicate Grows(s: State, act: Action, s': State, i: nat) {
    i < |s'.attempts| ==>
      if i < |s.attempts| then
        s'.attempts[i].trigger == s.attempts[i].trigger && s'.attempts[i].machine == s.attempts[i].machine
      else
        s'.attempts[i].trigger == Manual || (act.Probe? && act.work == WriteCounters && i == |s.attempts|)
  }

  lemma GrowsOwn(cfg: Config, s: State, j: nat, step: Step, i: nat)
    requires Enabled(s, Own(j, step))
    ensures Grows(s, Own(j, step), ApplyOwn(cfg, s, j, step), i)
  {
    assert ApplyOwn(cfg, s, j, step).attempts == s.attempts[j := Local(cfg, s, s.attempts[j], step)];
    LocalKeeps(cfg, s, s.attempts[j], step);
  }

  lemma GrowsElsewhere(cfg: Config, s: State, act: Action, i: nat)
    requires Enabled(s, act) && !act.Own?
    ensures Grows(s, act, Apply(cfg, s, act), i)
  {
    match act
    case Env(_) =>
    case Probe(_, _) =>
  }

  lemma GrowsStep(cfg: Config, s: State, act: Action, i: nat)
    requires Enabled(s, act)
    ensures Grows(s, act, Apply(cfg, s, act), i)
  {
    match act
    case Own(j, step) => GrowsOwn(cfg, s, j, step, i);
    case _ => GrowsElsewhere(cfg, s, act, i);
  }

  /** On every run, each automatic attempt was started by one check of its machine, which failed with
      the failures at the threshold while automatic rotation was on. */
  lemma {:induction false} EveryAutoWasTriggered(cfg: Config, states: seq<State>, acts: seq<Action>, n: nat, i: nat)
    returns (k: nat, c: nat)
    requires IsRun(cfg, states, acts) && n <= |acts| && i < |states[n].attempts| && states[n].attempts[i].trigger == Auto
    ensures k < n && acts[k] == Probe(c, WriteCounters) && c < |states[k].checks| && i == |states[k].attempts|
    ensures var check := states[k].checks[c];
            && check.machine == states[n].attempts[i].machine && check.score >= 5
            && check.read.failures + 1 >= cfg.failureThreshold && cfg.autoRotateGlobal
  {
    assert n > 0;
    assert StepAt(cfg, states, acts, n - 1);
    GrowsStep(cfg, states[n - 1], acts[n - 1], i);
    if i < |states[n - 1].attempts| {
      k, c := EveryAutoWasTriggered(cfg, states, acts, n - 1, i);
    } else {
      k, c := n - 1, acts[n - 1].c;
      TriggerIff(cfg, states, acts, k, c);
    }
  }

  /** Where the checks of a machine do not overlap: the check that concludes starts an automatic
      rotation exactly if automatic rotation is on, the check failed and, since the machine last
      recovered, as many checks failed as the threshold says. */
  lemma TriggerMeaning(cfg: Config, states: seq<State>, acts: seq<Action>, n: nat, q: nat, m: MachineId)
    requires IsRun(cfg, states, acts) && n <= q < |acts| && Sequential(states, acts, n, q + 1, m)
    requires m in states[n].machines && CountersOf(states[n], m) == Health.Counters(0, 0) && Concludes(states[q], acts[q], m)
    ensures var h := HistoryOf(states, acts, n, q + 1, m);
            && h != [] && LastRecovery(h, cfg.successRecovery) <= |h|
            && (|states[q + 1].attempts| == |states[q].attempts| + 1 <==>
                  cfg.autoRotateGlobal && h[|h| - 1]
                  && FailingIn(h[LastRecovery(h, cfg.successRecovery)..]) >= cfg.failureThreshold)
  {
    var h := HistoryOf(states, acts, n, q + 1, m);
    var check := states[q].checks[acts[q].c];
    VerdictIsFinal(cfg, states, acts, n, q, m);
    SuspectMeaning(h, cfg.failureThreshold, cfg.successRecovery);
    TriggerIff(cfg, states, acts, q, acts[q].c);
    assert VerdictOf(cfg, check) == Suspect <==> check.score >= 5 && check.read.failures + 1 >= cfg.failureThreshold;
  }
}
