/** What every automatic ChangeIP went through, on runs of the step system: the switches, the
    cooldown and the daily cap, each as the attempt found them after taking the lock. */
module Admission {
  import opened Options
  import opened Inventory
  import opened Ledger
  import opened Rotation

  /** The action is no statement of attempt `i`. */
  predicate Elsewhere(act: Action, i: nat) {
    !(act.Own? && act.i == i && act.step != CancelContext)
  }

  /** The attempt is where it was, unless it has crashed, and the locals the gates use are kept. */
  predicate SameGates(a: Attempt, b: Attempt) {
    && (b.pc == a.pc || b.pc == Crashed)
    && b.machine == a.machine && b.trigger == a.trigger && b.day == a.day && b.seenCooldown == a.seenCooldown
  }

  /** A new attempt is at its start. */
  predicate Untouched(s: State, s': State, i: nat) {
    i < |s'.attempts| ==> if i < |s.attempts| then SameGates(s.attempts[i], s'.attempts[i]) else s'.attempts[i].pc == Start
  }

  lemma UntouchedOwn(cfg: Config, s: State, j: nat, step: Step, i: nat)
    requires Enabled(s, Own(j, step)) && Elsewhere(Own(j, step), i)
    ensures Untouched(s, ApplyOwn(cfg, s, j, step), i)
  {
    assert ApplyOwn(cfg, s, j, step).attempts == s.attempts[j := Local(cfg, s, s.attempts[j], step)];
  }

  lemma UntouchedEnv(s: State, e: EnvAction, i: nat)
    requires EnvEnabled(s, e)
    ensures Untouched(s, ApplyEnv(s, e), i)
  {
  }

  lemma UntouchedStep(cfg: Config, s: State, act: Action, i: nat)
    requires Enabled(s, act) && Elsewhere(act, i)
    ensures Untouched(s, Apply(cfg, s, act), i)
  {
    match act
    case Own(j, step) => UntouchedOwn(cfg, s, j, step, i);
    case Env(e) => UntouchedEnv(s, e, i);
    case Probe(_, _) =>
  }

  lemma OwnStep(cfg: Config, s: State, i: nat, step: Step)
    requires Enabled(s, Own(i, step))
    ensures var s' := ApplyOwn(cfg, s, i, step);
            && i < |s'.attempts| && s'.attempts[i] == Local(cfg, s, s.attempts[i], step)
            && s'.attempts[i].machine == s.attempts[i].machine && s'.attempts[i].trigger == s.attempts[i].trigger
  {
    LocalKeeps(cfg, s, s.attempts[i], step);
  }

  /** Past the cap, up to ChangeIP. */
  predicate Admitted(pc: PC) {
    pc == Confirm || pc == Confirming || pc == Provider || pc == Stamp || pc == Insert || pc == Call
  }

  // ----- each place is reached by one statement -----

  lemma UntouchedAt(cfg: Config, states: seq<State>, acts: seq<Action>, k: nat, i: nat)
    requires IsRun(cfg, states, acts) && k < |acts| && Elsewhere(acts[k], i)
    ensures Untouched(states[k], states[k + 1], i)
  {
    assert StepAt(cfg, states, acts, k);
    UntouchedStep(cfg, states[k], acts[k], i);
  }

  /** The `k`-th action is a statement of the attempt, which leads to this place. */
  ghost predicate Leads(cfg: Config, states: seq<State>, acts: seq<Action>, k: nat, i: nat, pc: PC) {
    && IsRun(cfg, states, acts) && k < |acts| && !Elsewhere(acts[k], i)
    && i < |states[k + 1].attempts| && states[k + 1].attempts[i].pc == pc
  }

  lemma LeadsOwn(cfg: Config, states: seq<State>, acts: seq<Action>, k: nat, i: nat, pc: PC)
    requires Leads(cfg, states, acts, k, i, pc)
    ensures i < |states[k].attempts| && StepEnabled(states[k], states[k].attempts[i], acts[k].step)
    ensures var a, b := states[k].attempts[i], states[k + 1].attempts[i];
            b == Local(cfg, states[k], a, acts[k].step) && b.machine == a.machine && b.trigger == a.trigger
  {
    assert StepAt(cfg, states, acts, k);
    OwnStep(cfg, states[k], i, acts[k].step);
  }

  lemma IntoGate(cfg: Config, states: seq<State>, acts: seq<Action>, k: nat, i: nat)
    requires Leads(cfg, states, acts, k, i, Gate) && states[k + 1].attempts[i].trigger == Auto
    ensures acts[k] == Own(i, ReadMachine) && cfg.autoRotateGlobal
    ensures var s, b := states[k], states[k + 1].attempts[i];
            b.machine in s.machines && s.machines[b.machine].autoRotate && b.seenCooldown == s.machines[b.machine].cooldownUntil
  {
    LeadsOwn(cfg, states, acts, k, i, Gate);
  }

  lemma IntoDay(cfg: Config, states: seq<State>, acts: seq<Action>, k: nat, i: nat)
    requires Leads(cfg, states, acts, k, i, ReadDay)
    ensures acts[k] == Own(i, PassGate) && i < |states[k].attempts|
    ensures var a, b := states[k].attempts[i], states[k + 1].attempts[i];
            && a.pc == Gate && b.machine == a.machine && b.trigger == a.trigger
            && (a.seenCooldown.Some? ==> states[k].now >= a.seenCooldown.value * 1_000_000_000)
  {
    LeadsOwn(cfg, states, acts, k, i, ReadDay);
  }

  lemma IntoCount(cfg: Config, states: seq<State>, acts: seq<Action>, k: nat, i: nat)
    requires Leads(cfg, states, acts, k, i, CountDay)
    ensures acts[k] == Own(i, ComputeDay) && i < |states[k].attempts|
    ensures var a, b := states[k].attempts[i], states[k + 1].attempts[i];
            && a.pc == ReadDay && b.machine == a.machine && b.trigger == a.trigger
            && b.day == states[k].now / 1_000_000_000 / 86400 * 86400
  {
    LeadsOwn(cfg, states, acts, k, i, CountDay);
  }

  lemma IntoAdmitted(cfg: Config, states: seq<State>, acts: seq<Action>, k: nat, i: nat, pc: PC)
    requires Leads(cfg, states, acts, k, i, pc) && Admitted(pc) && states[k + 1].attempts[i].trigger == Auto
    ensures i < |states[k].attempts|
    ensures var a, b := states[k].attempts[i], states[k + 1].attempts[i];
            && b.machine == a.machine && a.trigger == Auto
            && (|| Admitted(a.pc)
                || (acts[k] == Own(i, CountRows) && a.pc == CountDay
                    && |CompletedSince(states[k].rows, a.machine, a.day)| < cfg.maxRotationsPerDay))
  {
    LeadsOwn(cfg, states, acts, k, i, pc);
  }

  lemma Counted(rows: seq<Row>, m: MachineId, since: int)
    ensures CompletedSince(rows, m, since) ==
            set r: nat | r < |rows| && rows[r].machine == m && rows[r].status == Completed && since <= rows[r].started
  {
  }

  lemma Begun(cfg: Config, states: seq<State>, acts: seq<Action>, n: nat, i: nat)
    requires IsRun(cfg, states, acts) && n <= |acts| && i < |states[n].attempts|
    ensures n > 0
  {
  }

  // ----- back from ChangeIP to the machine row -----

  /** The switches were on and the cooldown was read. */
  lemma {:induction false} WasRead(cfg: Config, states: seq<State>, acts: seq<Action>, n: nat, i: nat) returns (p: nat)
    requires IsRun(cfg, states, acts) && n <= |acts| && i < |states[n].attempts|
    requires states[n].attempts[i].trigger == Auto && states[n].attempts[i].pc == Gate
    ensures p < n && acts[p] == Own(i, ReadMachine) && cfg.autoRotateGlobal
    ensures var m := states[n].attempts[i].machine;
            m in states[p].machines && states[p].machines[m].autoRotate
            && states[n].attempts[i].seenCooldown == states[p].machines[m].cooldownUntil
  {
    Begun(cfg, states, acts, n, i);
    if Elsewhere(acts[n - 1], i) {
      UntouchedAt(cfg, states, acts, n - 1, i);
      p := WasRead(cfg, states, acts, n - 1, i);
    } else {
      p := n - 1;
      IntoGate(cfg, states, acts, p, i);
    }
  }

  /** The clock was not before the cooldown. */
  lemma {:induction false} WasPassed(cfg: Config, states: seq<State>, acts: seq<Action>, n: nat, i: nat) returns (g: nat)
    requires IsRun(cfg, states, acts) && n <= |acts| && i < |states[n].attempts| && states[n].attempts[i].pc == ReadDay
    ensures g < n && acts[g] == Own(i, PassGate) && i < |states[g].attempts| && states[g].attempts[i].pc == Gate
    ensures var a := states[g].attempts[i];
            && a.machine == states[n].attempts[i].machine && a.trigger == states[n].attempts[i].trigger
            && (a.seenCooldown.Some? ==> states[g].now >= a.seenCooldown.value * 1_000_000_000)
  {
    Begun(cfg, states, acts, n, i);
    if Elsewhere(acts[n - 1], i) {
      UntouchedAt(cfg, states, acts, n - 1, i);
      g := WasPassed(cfg, states, acts, n - 1, i);
    } else {
      g := n - 1;
      IntoDay(cfg, states, acts, g, i);
    }
  }

  /** The start of the day was computed. */
  lemma {:induction false} WasDated(cfg: Config, states: seq<State>, acts: seq<Action>, n: nat, i: nat) returns (d: nat)
    requires IsRun(cfg, states, acts) && n <= |acts| && i < |states[n].attempts| && states[n].attempts[i].pc == CountDay
    ensures d < n && acts[d] == Own(i, ComputeDay) && i < |states[d].attempts| && states[d].attempts[i].pc == ReadDay
    ensures var a := states[d].attempts[i];
            && a.machine == states[n].attempts[i].machine && a.trigger == states[n].attempts[i].trigger
            && states[n].attempts[i].day == states[d].now / 1_000_000_000 / 86400 * 86400
  {
    Begun(cfg, states, acts, n, i);
    if Elsewhere(acts[n - 1], i) {
      UntouchedAt(cfg, states, acts, n - 1, i);
      d := WasDated(cfg, states, acts, n - 1, i);
    } else {
      d := n - 1;
      IntoCount(cfg, states, acts, d, i);
    }
  }

  /** The count was below the cap. */
  lemma {:induction false} WasCounted(cfg: Config, states: seq<State>, acts: seq<Action>, n: nat, i: nat) returns (q: nat)
    requires IsRun(cfg, states, acts) && n <= |acts| && i < |states[n].attempts|
    requires states[n].attempts[i].trigger == Auto && Admitted(states[n].attempts[i].pc)
    ensures q < n && acts[q] == Own(i, CountRows) && i < |states[q].attempts| && states[q].attempts[i].pc == CountDay
    ensures var a := states[q].attempts[i];
            && a.machine == states[n].attempts[i].machine && a.trigger == Auto
            && |set r: nat | r < |states[q].rows| && states[q].rows[r].machine == a.machine
                             && states[q].rows[r].status == Completed && a.day <= states[q].rows[r].started|
               < cfg.maxRotationsPerDay
  {
    Begun(cfg, states, acts, n, i);
    if Elsewhere(acts[n - 1], i) {
      UntouchedAt(cfg, states, acts, n - 1, i);
      q := WasCounted(cfg, states, acts, n - 1, i);
    } else {
      q := n - 1;
      IntoAdmitted(cfg, states, acts, q, i, states[n].attempts[i].pc);
      if Admitted(states[q].attempts[i].pc) {
        q := WasCounted(cfg, states, acts, n - 1, i);
      } else {
        Counted(states[q].rows, states[q].attempts[i].machine, states[q].attempts[i].day);
      }
    }
  }

  lemma Calling(cfg: Config, states: seq<State>, acts: seq<Action>, k: nat, i: nat, ok: bool)
    requires IsRun(cfg, states, acts) && k < |acts| && acts[k] == Own(i, ChangeIP(ok))
    ensures i < |states[k].attempts| && states[k].attempts[i].pc == Call
  {
    assert StepAt(cfg, states, acts, k);
  }

  /** Every automatic ChangeIP: with automatic rotation on, its attempt read the machine's row and
      found the machine's own switch on; later it found the clock not before the cooldown of that
      row; later still it computed the start of the UTC day, and then counted fewer completed
      rotations of the machine since that start than the cap. */
  lemma AutomaticWasAdmitted(cfg: Config, states: seq<State>, acts: seq<Action>, k: nat, i: nat, ok: bool)
    returns (p: nat, g: nat, d: nat, q: nat)
    requires IsRun(cfg, states, acts) && k < |acts| && acts[k] == Own(i, ChangeIP(ok))
    requires i < |states[k].attempts| && states[k].attempts[i].trigger == Auto
    ensures p < g < d < q < k && cfg.autoRotateGlobal
    ensures acts[p] == Own(i, ReadMachine) && acts[g] == Own(i, PassGate)
    ensures acts[d] == Own(i, ComputeDay) && acts[q] == Own(i, CountRows)
    ensures var m := states[k].attempts[i].machine;
            m in states[p].machines && states[p].machines[m].autoRotate
            && (states[p].machines[m].cooldownUntil.Some? ==>
                  states[g].now >= states[p].machines[m].cooldownUntil.value * 1_000_000_000)
    ensures var m, midnight := states[k].attempts[i].machine, states[d].now / 1_000_000_000 / 86400 * 86400;
            |set r: nat | r < |states[q].rows| && states[q].rows[r].machine == m && states[q].rows[r].status == Completed
                          && midnight <= states[q].rows[r].started| < cfg.maxRotationsPerDay
  {
    Calling(cfg, states, acts, k, i, ok);
    q := WasCounted(cfg, states, acts, k, i);
    d := WasDated(cfg, states, acts, q, i);
    g := WasPassed(cfg, states, acts, d, i);
    p := WasRead(cfg, states, acts, g, i);
  }
}
