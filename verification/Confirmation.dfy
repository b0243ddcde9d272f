/** The confirmation check: an automatic ChangeIP is preceded, inside the attempt's own critical
    section, by a failing check that the attempt itself ran. */
module Confirmation {
  import opened Options
  import opened Rotation
  import opened Ledger
  import opened Evidence
  import Health

  /** Check `c` of attempt `i` has concluded with a failing score. */
  ghost predicate OwnFailing(s: State, i: nat, c: nat) {
    c < |s.checks| && s.checks[c].owner == Some(i) && s.checks[c].pc == Concluded && Health.Failing(s.checks[c].score)
  }

  /** A confirming attempt waits for a check of its own; past the gate, one of its own has failed. */
  ghost predicate ConfirmOk(cfg: Config, s: State, i: nat) {
    i < |s.attempts| && s.attempts[i].trigger == Auto ==>
      && (s.attempts[i].pc == Confirming ==>
            s.attempts[i].check < |s.checks| && s.checks[s.attempts[i].check].owner == Some(i))
      && (cfg.requireConfirmation && PastConfirm(s.attempts[i].pc) ==> exists c :: OwnFailing(s, i, c))
  }

  /** Checks that have ended inside an attempt stay as they are. */
  ghost predicate ChecksKept(s: State, s': State) {
    && |s.checks| <= |s'.checks|
    && (forall c :: 0 <= c < |s.checks| ==> s'.checks[c].owner == s.checks[c].owner)
    && (forall c :: 0 <= c < |s.checks| && s.checks[c].owner.Some? && s.checks[c].pc == Concluded ==>
          s'.checks[c] == s.checks[c])
  }

  lemma ChecksKeptEnv(s: State, e: EnvAction)
    requires EnvEnabled(s, e)
    ensures ChecksKept(s, ApplyEnv(s, e))
  {
  }

  lemma ChecksKeptProbe(cfg: Config, s: State, c: nat, work: CheckStep)
    requires Enabled(s, Probe(c, work))
    ensures ChecksKept(s, ApplyProbe(cfg, s, c, work))
  {
  }

  lemma ChecksKeptStep(cfg: Config, s: State, act: Action)
    requires Enabled(s, act)
    ensures ChecksKept(s, Apply(cfg, s, act))
  {
    match act
    case Own(i, step) => assert ApplyOwn(cfg, s, i, step).checks == ChecksAfter(s, i, s.attempts[i], step);
    case Env(e) => ChecksKeptEnv(s, e);
    case Probe(c, work) => ChecksKeptProbe(cfg, s, c, work);
  }

  lemma ConfirmFrame(cfg: Config, s: State, s': State, i: nat)
    requires ConfirmOk(cfg, s, i) && ChecksKept(s, s')
    requires i < |s'.attempts| ==>
               if i < |s.attempts| then s'.attempts[i] == s.attempts[i] || s'.attempts[i] == KillAttempt(s.attempts[i])
                                        || s'.attempts[i] == s.attempts[i].(ctx := s'.attempts[i].ctx)
               else s'.attempts[i].pc == Start
    ensures ConfirmOk(cfg, s', i)
  {
    if c :| OwnFailing(s, i, c) {
      assert OwnFailing(s', i, c);
    }
  }

  /** Past the gate, the failing check is an earlier one or the one just ended. */
  lemma ConfirmPast(cfg: Config, s: State, s': State, a: Attempt, i: nat)
    requires ConfirmOk(cfg, s, i) && i < |s.attempts| && a == s.attempts[i] && a.trigger == Auto && cfg.requireConfirmation
    requires ChecksKept(s, s') && (PastConfirm(a.pc) || Confirmed(s.checks, a))
    ensures exists c :: OwnFailing(s', i, c)
  {
    if PastConfirm(a.pc) {
      var c :| OwnFailing(s, i, c);
      assert OwnFailing(s', i, c);
    } else {
      assert OwnFailing(s, i, a.check) && OwnFailing(s', i, a.check);
    }
  }

  lemma ConfirmOwn(cfg: Config, s: State, i: nat, step: Step)
    requires ConfirmOk(cfg, s, i) && Enabled(s, Own(i, step)) && s.attempts[i].trigger == Auto
    ensures ConfirmOk(cfg, ApplyOwn(cfg, s, i, step), i)
  {
    var a, s' := s.attempts[i], ApplyOwn(cfg, s, i, step);
    assert s'.attempts[i] == Local(cfg, s, a, step) && s'.checks == ChecksAfter(s, i, a, step);
    ChecksKeptStep(cfg, s, Own(i, step));
    LocalAwaits(cfg, s, a, step);
    if cfg.requireConfirmation {
      LocalConfirm(cfg, s, a, step);
      if PastConfirm(s'.attempts[i].pc) {
        ConfirmPast(cfg, s, s', a, i);
      }
    }
  }

  lemma ConfirmElsewhere(cfg: Config, s: State, act: Action, i: nat)
    requires ConfirmOk(cfg, s, i) && Enabled(s, act) && (act.Own? ==> act.i != i)
    ensures ConfirmOk(cfg, Apply(cfg, s, act), i)
  {
    ChecksKeptStep(cfg, s, act);
    match act
    case Own(j, step) =>
      assert ApplyOwn(cfg, s, j, step).attempts == s.attempts[j := Local(cfg, s, s.attempts[j], step)];
      ConfirmFrame(cfg, s, Apply(cfg, s, act), i);
    case _ => ConfirmFrame(cfg, s, Apply(cfg, s, act), i);
  }

  lemma ConfirmStep(cfg: Config, s: State, act: Action, i: nat)
    requires ConfirmOk(cfg, s, i) && Enabled(s, act)
    ensures ConfirmOk(cfg, Apply(cfg, s, act), i)
  {
    if act.Own? && act.i == i {
      LocalKeeps(cfg, s, s.attempts[i], act.step);
      if s.attempts[i].trigger == Auto {
        ConfirmOwn(cfg, s, i, act.step);
      } else {
        assert ApplyOwn(cfg, s, i, act.step).attempts[i] == Local(cfg, s, s.attempts[i], act.step);
      }
    } else {
      ConfirmElsewhere(cfg, s, act, i);
    }
  }

  lemma {:induction false} RunConfirm(cfg: Config, states: seq<State>, acts: seq<Action>, k: nat, i: nat)
    requires IsRun(cfg, states, acts) && k <= |acts|
    ensures ConfirmOk(cfg, states[k], i)
  {
    if k > 0 {
      RunConfirm(cfg, states, acts, k - 1, i);
      assert StepAt(cfg, states, acts, k - 1);
      ConfirmStep(cfg, states[k - 1], acts[k - 1], i);
    }
  }

  // ----- when it happened -----

  /** The `p`-th action takes the lock for attempt `i`. */
  ghost predicate Acquires(states: seq<State>, acts: seq<Action>, p: nat, i: nat) {
    p < |acts| < |states| && acts[p] == Own(i, Acquire) && i < |states[p + 1].attempts| && states[p + 1].attempts[i].pc == Locked
  }

  /** The `q`-th action concludes check `c`, which attempt `i` runs on its own machine, with a
      failing score. */
  ghost predicate FailsOwnCheck(states: seq<State>, acts: seq<Action>, q: nat, c: nat, i: nat) {
    q < |acts| < |states| && acts[q] == Probe(c, WriteCounters) && c < |states[q].checks|
    && states[q].checks[c].owner == Some(i) && Health.Failing(states[q].checks[c].score)
    && i < |states[q].attempts| && states[q].checks[c].machine == states[q].attempts[i].machine
  }

  /** A check an attempt runs is one of its own machine. */
  ghost predicate OwnMachine(s: State, c: nat, i: nat) {
    c < |s.checks| && s.checks[c].owner == Some(i) ==>
      i < |s.attempts| && s.checks[c].machine == s.attempts[i].machine
  }

  lemma OwnMachineOwn(cfg: Config, s: State, j: nat, step: Step, c: nat, i: nat)
    requires OwnMachine(s, c, i) && Enabled(s, Own(j, step))
    ensures OwnMachine(ApplyOwn(cfg, s, j, step), c, i)
  {
    var s' := ApplyOwn(cfg, s, j, step);
    assert s'.checks == ChecksAfter(s, j, s.attempts[j], step);
    assert s'.attempts == s.attempts[j := Local(cfg, s, s.attempts[j], step)];
    LocalKeeps(cfg, s, s.attempts[j], step);
  }

  lemma OwnMachineEnv(s: State, e: EnvAction, c: nat, i: nat)
    requires OwnMachine(s, c, i) && EnvEnabled(s, e)
    ensures OwnMachine(ApplyEnv(s, e), c, i)
  {
  }

  lemma OwnMachineProbe(cfg: Config, s: State, b: nat, work: CheckStep, c: nat, i: nat)
    requires OwnMachine(s, c, i) && Enabled(s, Probe(b, work))
    ensures OwnMachine(ApplyProbe(cfg, s, b, work), c, i)
  {
  }

  lemma OwnMachineElsewhere(cfg: Config, s: State, act: Action, c: nat, i: nat)
    requires OwnMachine(s, c, i) && Enabled(s, act) && !act.Own?
    ensures OwnMachine(Apply(cfg, s, act), c, i)
  {
    match act
    case Env(e) => OwnMachineEnv(s, e, c, i);
    case Probe(b, work) => OwnMachineProbe(cfg, s, b, work, c, i);
  }

  lemma {:induction false} RunOwnMachine(cfg: Config, states: seq<State>, acts: seq<Action>, k: nat, c: nat, i: nat)
    requires IsRun(cfg, states, acts) && k <= |acts|
    ensures OwnMachine(states[k], c, i)
  {
    if k > 0 {
      RunOwnMachine(cfg, states, acts, k - 1, c, i);
      assert StepAt(cfg, states, acts, k - 1);
      match acts[k - 1]
      case Own(j, step) => OwnMachineOwn(cfg, states[k - 1], j, step, c, i);
      case _ => OwnMachineElsewhere(cfg, states[k - 1], acts[k - 1], c, i);
    }
  }

  lemma ConcludedEnv(s: State, e: EnvAction, c: nat)
    requires EnvEnabled(s, e) && c < |ApplyEnv(s, e).checks| && ApplyEnv(s, e).checks[c].pc == Concluded
    ensures c < |s.checks|
    ensures var k, k' := s.checks[c], ApplyEnv(s, e).checks[c];
            k'.owner == k.owner && k'.score == k.score && k.pc == Concluded
  {
  }

  lemma ConcludedProbe(cfg: Config, s: State, b: nat, work: CheckStep, c: nat)
    requires Enabled(s, Probe(b, work))
    requires c < |ApplyProbe(cfg, s, b, work).checks| && ApplyProbe(cfg, s, b, work).checks[c].pc == Concluded
    ensures c < |s.checks|
    ensures var k, k' := s.checks[c], ApplyProbe(cfg, s, b, work).checks[c];
            && k'.owner == k.owner && k'.score == k.score
            && (k.pc == Concluded || (b == c && work == WriteCounters))
  {
  }

  lemma ConcludedElsewhere(cfg: Config, s: State, act: Action, c: nat)
    requires Enabled(s, act) && !act.Own? && c < |Apply(cfg, s, act).checks| && Apply(cfg, s, act).checks[c].pc == Concluded
    ensures c < |s.checks|
    ensures var k, k' := s.checks[c], Apply(cfg, s, act).checks[c];
            && k'.owner == k.owner && k'.score == k.score
            && (k.pc == Concluded || act == Probe(c, WriteCounters))
  {
    match act
    case Env(e) => ConcludedEnv(s, e, c);
    case Probe(b, work) => ConcludedProbe(cfg, s, b, work, c);
  }

  lemma ConcludedStep(cfg: Config, s: State, act: Action, c: nat)
    requires Enabled(s, act) && c < |Apply(cfg, s, act).checks| && Apply(cfg, s, act).checks[c].pc == Concluded
    ensures c < |s.checks|
    ensures var k, k' := s.checks[c], Apply(cfg, s, act).checks[c];
            && k'.owner == k.owner && k'.score == k.score
            && (k.pc == Concluded || act == Probe(c, WriteCounters))
  {
    match act
    case Own(i, step) => assert ApplyOwn(cfg, s, i, step).checks == ChecksAfter(s, i, s.attempts[i], step);
    case _ => ConcludedElsewhere(cfg, s, act, c);
  }

  /** A concluded check was concluded by an action of the run. */
  lemma {:induction false} OwnFailingWasConcluded(cfg: Config, states: seq<State>, acts: seq<Action>, k: nat, i: nat, c: nat)
    requires IsRun(cfg, states, acts) && k <= |acts| && OwnFailing(states[k], i, c)
    ensures exists q: nat :: q < k && FailsOwnCheck(states, acts, q, c, i)
  {
    if k > 0 {
      assert StepAt(cfg, states, acts, k - 1);
      ConcludedStep(cfg, states[k - 1], acts[k - 1], c);
      if states[k - 1].checks[c].pc == Concluded {
        OwnFailingWasConcluded(cfg, states, acts, k - 1, i, c);
      } else {
        RunOwnMachine(cfg, states, acts, k - 1, c, i);
        assert FailsOwnCheck(states, acts, k - 1, c, i);
      }
    }
  }

  lemma CriticalEnv(s: State, e: EnvAction, i: nat)
    requires EnvEnabled(s, e) && i < |ApplyEnv(s, e).attempts| && Critical(ApplyEnv(s, e).attempts[i])
    ensures i < |s.attempts| && Critical(s.attempts[i])
  {
  }

  lemma CriticalProbe(cfg: Config, s: State, c: nat, work: CheckStep, i: nat)
    requires Enabled(s, Probe(c, work))
    requires i < |ApplyProbe(cfg, s, c, work).attempts| && Critical(ApplyProbe(cfg, s, c, work).attempts[i])
    ensures i < |s.attempts| && Critical(s.attempts[i])
  {
  }

  lemma CriticalElsewhere(cfg: Config, s: State, act: Action, i: nat)
    requires Enabled(s, act) && !act.Own? && i < |Apply(cfg, s, act).attempts| && Critical(Apply(cfg, s, act).attempts[i])
    ensures i < |s.attempts| && Critical(s.attempts[i])
  {
    match act
    case Env(e) => CriticalEnv(s, e, i);
    case Probe(c, work) => CriticalProbe(cfg, s, c, work, i);
  }

  lemma CriticalStep(cfg: Config, s: State, act: Action, i: nat)
    requires Enabled(s, act) && i < |Apply(cfg, s, act).attempts| && Critical(Apply(cfg, s, act).attempts[i])
    ensures i < |s.attempts|
    ensures Critical(s.attempts[i]) || (act == Own(i, Acquire) && Apply(cfg, s, act).attempts[i].pc == Locked)
  {
    match act
    case Own(j, step) =>
      assert ApplyOwn(cfg, s, j, step).attempts == s.attempts[j := Local(cfg, s, s.attempts[j], step)];
      LocalKeeps(cfg, s, s.attempts[j], step);
    case _ => CriticalElsewhere(cfg, s, act, i);
  }

  /** An attempt inside its critical section has taken the lock. */
  lemma {:induction false} CriticalAcquired(cfg: Config, states: seq<State>, acts: seq<Action>, k: nat, i: nat)
    requires IsRun(cfg, states, acts) && k <= |acts| && i < |states[k].attempts| && Critical(states[k].attempts[i])
    ensures exists p: nat :: p < k && Acquires(states, acts, p, i)
  {
    if k > 0 {
      assert StepAt(cfg, states, acts, k - 1);
      CriticalStep(cfg, states[k - 1], acts[k - 1], i);
      if Critical(states[k - 1].attempts[i]) {
        CriticalAcquired(cfg, states, acts, k - 1, i);
      } else {
        assert Acquires(states, acts, k - 1, i);
      }
    }
  }

  lemma {:induction false} ChecksGrow(cfg: Config, states: seq<State>, acts: seq<Action>, n: nat, k: nat)
    requires IsRun(cfg, states, acts) && n <= k <= |acts|
    ensures |states[n].checks| <= |states[k].checks|
  {
    if n < k {
      ChecksGrow(cfg, states, acts, n, k - 1);
      assert StepAt(cfg, states, acts, k - 1);
      ChecksKeptStep(cfg, states[k - 1], acts[k - 1]);
    }
  }

  lemma OwnedEnv(s: State, e: EnvAction, c: nat, i: nat)
    requires EnvEnabled(s, e)
    requires c < |ApplyEnv(s, e).checks| && ApplyEnv(s, e).checks[c].owner == Some(i)
    ensures c < |s.checks| && s.checks[c].owner == Some(i)
  {
  }

  lemma OwnedProbe(cfg: Config, s: State, b: nat, work: CheckStep, c: nat, i: nat)
    requires Enabled(s, Probe(b, work))
    requires c < |ApplyProbe(cfg, s, b, work).checks| && ApplyProbe(cfg, s, b, work).checks[c].owner == Some(i)
    ensures c < |s.checks| && s.checks[c].owner == Some(i)
  {
  }

  lemma OwnedElsewhere(cfg: Config, s: State, act: Action, c: nat, i: nat)
    requires Enabled(s, act) && !act.Own?
    requires c < |Apply(cfg, s, act).checks| && Apply(cfg, s, act).checks[c].owner == Some(i)
    ensures c < |s.checks| && s.checks[c].owner == Some(i)
  {
    match act
    case Env(e) => OwnedEnv(s, e, c, i);
    case Probe(b, work) => OwnedProbe(cfg, s, b, work, c, i);
  }

  lemma OwnedStep(cfg: Config, s: State, act: Action, c: nat, i: nat)
    requires Enabled(s, act) && c < |Apply(cfg, s, act).checks| && Apply(cfg, s, act).checks[c].owner == Some(i)
    ensures (c < |s.checks| && s.checks[c].owner == Some(i))
            || (c == |s.checks| && i < |s.attempts| && Critical(s.attempts[i]))
  {
    match act
    case Own(j, step) => assert ApplyOwn(cfg, s, j, step).checks == ChecksAfter(s, j, s.attempts[j], step);
    case _ => OwnedElsewhere(cfg, s, act, c, i);
  }

  /** An attempt starts its checks after it has taken the lock. */
  lemma {:induction false} OwnedAfterAcquire(cfg: Config, states: seq<State>, acts: seq<Action>, k: nat, c: nat, i: nat)
    requires IsRun(cfg, states, acts) && k <= |acts| && c < |states[k].checks| && states[k].checks[c].owner == Some(i)
    ensures exists p: nat :: p < k && Acquires(states, acts, p, i) && |states[p + 1].checks| <= c
  {
    if k > 0 {
      assert StepAt(cfg, states, acts, k - 1);
      OwnedStep(cfg, states[k - 1], acts[k - 1], c, i);
      if c < |states[k - 1].checks| {
        OwnedAfterAcquire(cfg, states, acts, k - 1, c, i);
      } else {
        CriticalAcquired(cfg, states, acts, k - 1, i);
        var p: nat :| p < k - 1 && Acquires(states, acts, p, i);
        ChecksGrow(cfg, states, acts, p + 1, k - 1);
      }
    }
  }

  /** A check that did not exist at the lock is concluded after the lock. */
  lemma ConcludedAfterAcquire(cfg: Config, states: seq<State>, acts: seq<Action>, p: nat, q: nat, c: nat)
    requires IsRun(cfg, states, acts) && p < |acts| && q < |acts|
    requires |states[p + 1].checks| <= c < |states[q].checks|
    ensures p < q
  {
    if q <= p {
      ChecksGrow(cfg, states, acts, q, p + 1);
    }
  }

  /** The attempt's own failing check, with the action that concluded it. */
  lemma ConfirmedBy(cfg: Config, states: seq<State>, acts: seq<Action>, k: nat, i: nat) returns (q: nat, c: nat)
    requires IsRun(cfg, states, acts) && k <= |acts| && cfg.requireConfirmation && i < |states[k].attempts|
    requires states[k].attempts[i].trigger == Auto && PastConfirm(states[k].attempts[i].pc)
    ensures q < k && FailsOwnCheck(states, acts, q, c, i) && c < |states[k].checks| && states[k].checks[c].owner == Some(i)
  {
    RunConfirm(cfg, states, acts, k, i);
    c :| OwnFailing(states[k], i, c);
    OwnFailingWasConcluded(cfg, states, acts, k, i, c);
    q :| q < k && FailsOwnCheck(states, acts, q, c, i);
  }

  /** With confirmation required, every automatic ChangeIP comes after a failing check that its own
      attempt ran, started and concluded between its taking the lock and the call. */
  lemma ConfirmedInsideTheLock(cfg: Config, states: seq<State>, acts: seq<Action>, k: nat, i: nat, ok: bool)
    requires IsRun(cfg, states, acts) && k < |acts| && acts[k] == Own(i, ChangeIP(ok)) && cfg.requireConfirmation
    requires i < |states[k].attempts| && states[k].attempts[i].trigger == Auto
    ensures exists p: nat, q: nat, c: nat ::
              p < q < k && Acquires(states, acts, p, i) && |states[p + 1].checks| <= c && FailsOwnCheck(states, acts, q, c, i)
  {
    assert StepAt(cfg, states, acts, k);
    var q, c := ConfirmedBy(cfg, states, acts, k, i);
    OwnedAfterAcquire(cfg, states, acts, k, c, i);
    var p: nat :| p < k && Acquires(states, acts, p, i) && |states[p + 1].checks| <= c;
    ConcludedAfterAcquire(cfg, states, acts, p, q, c);
  }
}
