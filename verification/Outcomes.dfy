/** What a rotation leaves behind: where its new address came from, when its cooldown was stored,
    and what a cancellation loses. */
module Outcomes {
  import opened Options
  import opened Inventory
  import opened Rotation
  import opened Ledger
  import opened Cooldown
  import opened Safety
  import Health

  // ----- the cooldown of every completed rotation, from the actions of the run -----

  /** The `n`-th action stored the cooldown of row `r`'s rotation, computed from instant `at`. */
  ghost predicate UpdatedAt(cfg: Config, states: seq<State>, acts: seq<Action>, n: nat, r: nat, m: MachineId, at: int) {
    n < |acts| < |states| && Updates(cfg, states[n], acts[n], r, m) && states[n].attempts[acts[n].i].stamp == at
  }

  /** What a rotation's statement does to the record, and to the rows whose machine was missing. */
  lemma RecordOwn(cfg: Config, s: State, i: nat, step: Step, r: nat)
    requires RowInv(s) && Enabled(s, Own(i, step))
    ensures var s', a := ApplyOwn(cfg, s, i, step), s.attempts[i];
            && (r in s'.commits ==>
                  || (r in s.commits && s'.commits[r] == s.commits[r])
                  || (Updates(cfg, s, Own(i, step), r, a.machine) && s'.commits[r] == a.stamp))
            && (r in s'.detached ==> r in s.detached || (Writes(a, step) && a.row == r && a.machine !in s.machines))
  {
    var a := s.attempts[i];
    assert ApplyOwn(cfg, s, i, step).commits == CommitsAfter(s, a, step);
    assert ApplyOwn(cfg, s, i, step).detached == DetachedAfter(s, a, step);
  }

  lemma WritersRow(s: State, i: nat)
    requires RowInv(s) && i < |s.attempts| && s.attempts[i].pc == Write
    ensures s.attempts[i].row < |s.rows| && s.rows[s.attempts[i].row].machine == s.attempts[i].machine
  {
    assert RowOk(s.attempts[i].row, s.rows[s.attempts[i].row], s.attempts[i]);
  }

  lemma RowsStay(cfg: Config, s: State, act: Action, r: nat)
    requires Enabled(s, act) && r < |s.rows|
    ensures r < |Apply(cfg, s, act).rows| && Apply(cfg, s, act).rows[r].machine == s.rows[r].machine
  {
    match act
    case Own(i, step) => RowColumnsOwn(cfg, s, i, step, r);
    case Env(_) =>
    case Probe(_, _) =>
  }

  lemma CommitsEnv(s: State, e: EnvAction, r: nat)
    requires EnvEnabled(s, e) && r in ApplyEnv(s, e).commits
    ensures r in s.commits && ApplyEnv(s, e).commits[r] == s.commits[r]
  {
  }

  lemma CommitsProbe(cfg: Config, s: State, c: nat, work: CheckStep, r: nat)
    requires Enabled(s, Probe(c, work)) && r in ApplyProbe(cfg, s, c, work).commits
    ensures r in s.commits && ApplyProbe(cfg, s, c, work).commits[r] == s.commits[r]
  {
  }

  lemma CommitsElsewhere(cfg: Config, s: State, act: Action, r: nat)
    requires Enabled(s, act) && !act.Own? && r in Apply(cfg, s, act).commits
    ensures r in s.commits && Apply(cfg, s, act).commits[r] == s.commits[r]
  {
    match act
    case Env(e) => CommitsEnv(s, e, r);
    case Probe(c, work) => CommitsProbe(cfg, s, c, work, r);
  }

  lemma CommitsStep(cfg: Config, s: State, act: Action, r: nat)
    requires Inv(cfg, s) && Enabled(s, act) && r in Apply(cfg, s, act).commits
    ensures r < |s.rows|
    ensures
      || (r in s.commits && Apply(cfg, s, act).commits[r] == s.commits[r])
      || (Updates(cfg, s, act, r, s.rows[r].machine) && Apply(cfg, s, act).commits[r] == s.attempts[act.i].stamp)
  {
    if r in s.commits {
      assert CommitOk(cfg, s, r);
    }
    if act.Own? {
      RecordOwn(cfg, s, act.i, act.step, r);
      if act.step == WriteMachine {
        WritersRow(s, act.i);
      }
    } else {
      CommitsElsewhere(cfg, s, act, r);
    }
  }

  /** The recorded cooldown instants are those of machine-row updates that did happen. */
  lemma {:induction false} CommitWasUpdate(cfg: Config, states: seq<State>, acts: seq<Action>, k: nat, r: nat)
    requires IsRun(cfg, states, acts) && k <= |acts| && r in states[k].commits
    ensures r < |states[k].rows|
    ensures exists n: nat :: n < k && UpdatedAt(cfg, states, acts, n, r, states[k].rows[r].machine, states[k].commits[r])
  {
    if k > 0 {
      RunInv(cfg, states, acts, k - 1);
      assert StepAt(cfg, states, acts, k - 1);
      CommitsStep(cfg, states[k - 1], acts[k - 1], r);
      RowsStay(cfg, states[k - 1], acts[k - 1], r);
      if r in states[k - 1].commits && states[k].commits[r] == states[k - 1].commits[r] {
        CommitWasUpdate(cfg, states, acts, k - 1, r);
      } else {
        assert UpdatedAt(cfg, states, acts, k - 1, r, states[k].rows[r].machine, states[k].commits[r]);
      }
    }
  }

  /** The attempt has found its machine row and has not left. */
  predicate Found(a: Attempt) {
    Critical(a) && a.pc != Locked && a.pc != Release
  }

  lemma LocalFound(cfg: Config, s: State, a: Attempt, step: Step)
    requires StepEnabled(s, a, step) && Found(Local(cfg, s, a, step))
    ensures Found(a) || (step == ReadMachine && a.machine in s.machines)
  {
  }

  lemma FoundEnv(s: State, e: EnvAction, i: nat)
    requires EnvEnabled(s, e) && i < |ApplyEnv(s, e).attempts| && Found(ApplyEnv(s, e).attempts[i])
    ensures i < |s.attempts| && Found(s.attempts[i]) && ApplyEnv(s, e).attempts[i].machine == s.attempts[i].machine
  {
  }

  lemma FoundProbe(cfg: Config, s: State, c: nat, work: CheckStep, i: nat)
    requires Enabled(s, Probe(c, work)) && i < |ApplyProbe(cfg, s, c, work).attempts| && Found(ApplyProbe(cfg, s, c, work).attempts[i])
    ensures i < |s.attempts| && Found(s.attempts[i]) && ApplyProbe(cfg, s, c, work).attempts[i].machine == s.attempts[i].machine
  {
  }

  lemma FoundElsewhere(cfg: Config, s: State, act: Action, i: nat)
    requires Enabled(s, act) && !act.Own? && i < |Apply(cfg, s, act).attempts| && Found(Apply(cfg, s, act).attempts[i])
    ensures i < |s.attempts| && Found(s.attempts[i]) && Apply(cfg, s, act).attempts[i].machine == s.attempts[i].machine
  {
    match act
    case Env(e) => FoundEnv(s, e, i);
    case Probe(c, work) => FoundProbe(cfg, s, c, work, i);
  }

  lemma FoundStep(cfg: Config, s: State, act: Action, i: nat)
    requires Enabled(s, act) && i < |Apply(cfg, s, act).attempts| && Found(Apply(cfg, s, act).attempts[i])
    ensures i < |s.attempts| && Apply(cfg, s, act).attempts[i].machine == s.attempts[i].machine
    ensures Found(s.attempts[i]) || s.attempts[i].machine in s.machines
  {
    match act
    case Own(j, step) =>
      assert ApplyOwn(cfg, s, j, step).attempts == s.attempts[j := Local(cfg, s, s.attempts[j], step)];
      if j == i {
        LocalKeeps(cfg, s, s.attempts[i], step);
        LocalFound(cfg, s, s.attempts[i], step);
      }
    case _ => FoundElsewhere(cfg, s, act, i);
  }

  /** A machine that is there stays through every action but its deletion. */
  lemma MachineStays(cfg: Config, s: State, act: Action, m: MachineId)
    requires CoolInv(cfg, s) && Enabled(s, act) && act != Env(DeleteMachine(m)) && m in s.machines
    ensures m in Apply(cfg, s, act).machines
  {
    match act
    case Env(e) => CooldownEnv(s, e, m);
    case Own(i, step) => CooldownOwn(cfg, s, i, step, m);
    case Probe(_, _) =>
  }

  /** One step: the attempt had found its row before, or finds it now. */
  lemma FoundKeeps(cfg: Config, s: State, act: Action, i: nat)
    requires CoolInv(cfg, s) && Enabled(s, act) && i < |Apply(cfg, s, act).attempts| && Found(Apply(cfg, s, act).attempts[i])
    requires act != Env(DeleteMachine(Apply(cfg, s, act).attempts[i].machine))
    requires i < |s.attempts| && Found(s.attempts[i]) ==> s.attempts[i].machine in s.machines
    ensures Apply(cfg, s, act).attempts[i].machine in Apply(cfg, s, act).machines
  {
    FoundStep(cfg, s, act, i);
    MachineStays(cfg, s, act, s.attempts[i].machine);
  }

  lemma FoundBefore(cfg: Config, s: State, act: Action, i: nat)
    requires Enabled(s, act) && i < |Apply(cfg, s, act).attempts| && Found(Apply(cfg, s, act).attempts[i])
    requires i < |s.attempts| && Found(s.attempts[i])
    ensures Apply(cfg, s, act).attempts[i].machine == s.attempts[i].machine
  {
    FoundStep(cfg, s, act, i);
  }

  /** While a machine is not deleted, an attempt that has found its row still has one. */
  lemma {:induction false} FoundStays(cfg: Config, states: seq<State>, acts: seq<Action>, k: nat, i: nat)
    requires IsRun(cfg, states, acts) && k <= |acts| && i < |states[k].attempts| && Found(states[k].attempts[i])
    requires NotDeleted(acts, 0, k, states[k].attempts[i].machine)
    ensures states[k].attempts[i].machine in states[k].machines
  {
    if k > 0 {
      var s, act := states[k - 1], acts[k - 1];
      RunInv(cfg, states, acts, k - 1);
      assert StepAt(cfg, states, acts, k - 1);
      if i < |s.attempts| && Found(s.attempts[i]) {
        FoundBefore(cfg, s, act, i);
        FoundStays(cfg, states, acts, k - 1, i);
      }
      FoundKeeps(cfg, s, act, i);
    }
  }

  lemma DetachedEnv(s: State, e: EnvAction, r: nat)
    requires EnvEnabled(s, e) && r in ApplyEnv(s, e).detached
    ensures r in s.detached || (r < |s.rows| && e == DeleteMachine(s.rows[r].machine))
  {
  }

  lemma DetachedElsewhere(cfg: Config, s: State, act: Action, r: nat)
    requires Enabled(s, act) && !act.Own? && r in Apply(cfg, s, act).detached
    ensures r in s.detached || (r < |s.rows| && act == Env(DeleteMachine(s.rows[r].machine)))
  {
    match act
    case Env(e) => DetachedEnv(s, e, r);
    case Probe(c, work) => assert ApplyProbe(cfg, s, c, work).detached == s.detached;
  }

  /** A row is detached by a deletion of its machine, or by an update that misses the machine. */
  lemma DetachedStep(cfg: Config, s: State, act: Action, r: nat)
    requires Inv(cfg, s) && Enabled(s, act) && r in Apply(cfg, s, act).detached && r !in s.detached
    ensures r < |s.rows|
    ensures
      || act == Env(DeleteMachine(s.rows[r].machine))
      || (act.Own? && Found(s.attempts[act.i]) && s.attempts[act.i].machine == s.rows[r].machine && s.rows[r].machine !in s.machines)
  {
    if act.Own? {
      RecordOwn(cfg, s, act.i, act.step, r);
      WritersRow(s, act.i);
    } else {
      DetachedElsewhere(cfg, s, act, r);
    }
  }

  /** Without a deletion of its machine no row is detached. */
  lemma {:induction false} NeverDetached(cfg: Config, states: seq<State>, acts: seq<Action>, k: nat, r: nat)
    requires IsRun(cfg, states, acts) && k <= |acts| && r in states[k].detached
    ensures r < |states[k].rows| && !NotDeleted(acts, 0, k, states[k].rows[r].machine)
  {
    if k > 0 {
      var s := states[k - 1];
      RunInv(cfg, states, acts, k - 1);
      assert StepAt(cfg, states, acts, k - 1);
      if r in s.detached {
        NeverDetached(cfg, states, acts, k - 1, r);
      } else {
        DetachedStep(cfg, s, acts[k - 1], r);
        if acts[k - 1].Own? && NotDeleted(acts, 0, k, s.rows[r].machine) {
          FoundStays(cfg, states, acts, k - 1, acts[k - 1].i);
        }
      }
      RowsStay(cfg, s, acts[k - 1], r);
    }
  }

  /** The `w`-th action is the machine-row update of row `r`'s rotation, under a live request. */
  ghost predicate WritesAt(states: seq<State>, acts: seq<Action>, w: nat, r: nat, m: MachineId, at: int) {
    w < |acts| < |states| && acts[w].Own? && acts[w].step == WriteMachine && acts[w].i < |states[w].attempts| &&
    var a := states[w].attempts[acts[w].i];
    a.ctx.Live? && a.row == r && a.machine == m && a.stamp == at
  }

  ghost predicate Wrote(states: seq<State>, acts: seq<Action>, k: nat, r: nat, m: MachineId) {
    exists w: nat, at: int :: w < k && WritesAt(states, acts, w, r, m, at)
  }

  predicate LivePastWrite(a: Attempt) {
    PastWrite(a.pc) && a.ctx.Live?
  }

  lemma PastWriteEnv(s: State, e: EnvAction, i: nat)
    requires EnvEnabled(s, e) && i < |ApplyEnv(s, e).attempts| && LivePastWrite(ApplyEnv(s, e).attempts[i])
    ensures i < |s.attempts| && ApplyEnv(s, e).attempts[i] == s.attempts[i]
  {
  }

  lemma PastWriteProbe(cfg: Config, s: State, c: nat, work: CheckStep, i: nat)
    requires Enabled(s, Probe(c, work)) && i < |ApplyProbe(cfg, s, c, work).attempts| && LivePastWrite(ApplyProbe(cfg, s, c, work).attempts[i])
    ensures i < |s.attempts| && ApplyProbe(cfg, s, c, work).attempts[i] == s.attempts[i]
  {
  }

  lemma PastWriteElsewhere(cfg: Config, s: State, act: Action, i: nat)
    requires Enabled(s, act) && !act.Own? && i < |Apply(cfg, s, act).attempts| && LivePastWrite(Apply(cfg, s, act).attempts[i])
    ensures i < |s.attempts| && Apply(cfg, s, act).attempts[i] == s.attempts[i]
  {
    match act
    case Env(e) => PastWriteEnv(s, e, i);
    case Probe(c, work) => PastWriteProbe(cfg, s, c, work, i);
  }

  /** An attempt past its machine-row update under a live request has executed it. */
  lemma PastWriteOwn(cfg: Config, s: State, j: nat, step: Step, i: nat)
    requires Enabled(s, Own(j, step)) && i < |s.attempts| && LivePastWrite(ApplyOwn(cfg, s, j, step).attempts[i])
    ensures var a, a' := s.attempts[i], ApplyOwn(cfg, s, j, step).attempts[i];
            && a'.machine == a.machine && a'.row == a.row
            && (LivePastWrite(a) || (j == i && step == WriteMachine && a.ctx.Live?))
  {
    if j == i {
      LocalKeeps(cfg, s, s.attempts[i], step);
      if step != WriteMachine {
        LocalPastWrite(cfg, s, s.attempts[i], step);
      }
    }
  }

  lemma PastWriteStep(cfg: Config, s: State, act: Action, i: nat)
    requires Enabled(s, act) && i < |Apply(cfg, s, act).attempts| && LivePastWrite(Apply(cfg, s, act).attempts[i])
    ensures i < |s.attempts|
    ensures var a, a' := s.attempts[i], Apply(cfg, s, act).attempts[i];
            && a'.machine == a.machine && a'.row == a.row
            && (LivePastWrite(a) || (act == Own(i, WriteMachine) && a.ctx.Live?))
  {
    if act.Own? {
      PastWriteOwn(cfg, s, act.i, act.step, i);
    } else {
      PastWriteElsewhere(cfg, s, act, i);
    }
  }

  lemma WroteLater(states: seq<State>, acts: seq<Action>, k: nat, r: nat, m: MachineId)
    requires Wrote(states, acts, k, r, m)
    ensures Wrote(states, acts, k + 1, r, m)
  {
    var w: nat, at: int :| w < k && WritesAt(states, acts, w, r, m, at);
    assert w < k + 1 && WritesAt(states, acts, w, r, m, at);
  }

  lemma WroteNow(states: seq<State>, acts: seq<Action>, k: nat, i: nat)
    requires k < |acts| < |states| && acts[k] == Own(i, WriteMachine) && i < |states[k].attempts| && states[k].attempts[i].ctx.Live?
    ensures Wrote(states, acts, k + 1, states[k].attempts[i].row, states[k].attempts[i].machine)
  {
    var a := states[k].attempts[i];
    assert k < k + 1 && WritesAt(states, acts, k, a.row, a.machine, a.stamp);
  }

  lemma {:induction false} PastWriteWrote(cfg: Config, states: seq<State>, acts: seq<Action>, k: nat, i: nat)
    requires IsRun(cfg, states, acts) && k <= |acts| && i < |states[k].attempts| && LivePastWrite(states[k].attempts[i])
    ensures Wrote(states, acts, k, states[k].attempts[i].row, states[k].attempts[i].machine)
  {
    if k > 0 {
      assert StepAt(cfg, states, acts, k - 1);
      PastWriteStep(cfg, states[k - 1], acts[k - 1], i);
      var a := states[k - 1].attempts[i];
      if LivePastWrite(a) {
        PastWriteWrote(cfg, states, acts, k - 1, i);
        WroteLater(states, acts, k - 1, a.row, a.machine);
      } else {
        WroteNow(states, acts, k - 1, i);
      }
    }
  }

  /** A row becomes completed by the last statement of its own rotation, under a live request. */
  lemma CompletesOwn(cfg: Config, s: State, i: nat, step: Step, r: nat)
    requires RowInv(s) && Enabled(s, Own(i, step))
    requires var rows := ApplyOwn(cfg, s, i, step).rows; r < |rows| && rows[r].status == Completed
    ensures r < |s.rows|
    ensures s.rows[r].status == Completed ||
            (var a := s.attempts[i]; a.row == r && a.machine == s.rows[r].machine && LivePastWrite(a))
  {
    var a := s.attempts[i];
    assert ApplyOwn(cfg, s, i, step).rows == RowsAfter(s, i, a, step);
    assert HoldsRow(a.pc) ==> RowOk(a.row, s.rows[a.row], a);
  }

  lemma CompletesEnv(s: State, e: EnvAction, r: nat)
    requires EnvEnabled(s, e)
    requires var rows := ApplyEnv(s, e).rows; r < |rows| && rows[r].status == Completed
    ensures r < |s.rows| && s.rows[r].status == Completed
  {
  }

  lemma CompletesProbe(cfg: Config, s: State, c: nat, work: CheckStep, r: nat)
    requires Enabled(s, Probe(c, work))
    requires var rows := ApplyProbe(cfg, s, c, work).rows; r < |rows| && rows[r].status == Completed
    ensures r < |s.rows| && s.rows[r].status == Completed
  {
  }

  lemma CompletesElsewhere(cfg: Config, s: State, act: Action, r: nat)
    requires Enabled(s, act) && !act.Own?
    requires var rows := Apply(cfg, s, act).rows; r < |rows| && rows[r].status == Completed
    ensures r < |s.rows| && s.rows[r].status == Completed
  {
    match act
    case Env(e) => CompletesEnv(s, e, r);
    case Probe(c, work) => CompletesProbe(cfg, s, c, work, r);
  }

  lemma CompletesStep(cfg: Config, s: State, act: Action, r: nat)
    requires RowInv(s) && Enabled(s, act)
    requires var rows := Apply(cfg, s, act).rows; r < |rows| && rows[r].status == Completed
    ensures r < |s.rows| && Apply(cfg, s, act).rows[r].machine == s.rows[r].machine
    ensures s.rows[r].status == Completed ||
            (act.Own? && var a := s.attempts[act.i]; a.row == r && a.machine == s.rows[r].machine && LivePastWrite(a))
  {
    if act.Own? {
      CompletesOwn(cfg, s, act.i, act.step, r);
    } else {
      CompletesElsewhere(cfg, s, act, r);
    }
    RowsStay(cfg, s, act, r);
  }

  lemma {:induction false} CompletedWrote(cfg: Config, states: seq<State>, acts: seq<Action>, k: nat, r: nat)
    requires IsRun(cfg, states, acts) && k <= |acts| && r < |states[k].rows| && states[k].rows[r].status == Completed
    ensures Wrote(states, acts, k, r, states[k].rows[r].machine)
  {
    if k > 0 {
      var s, act := states[k - 1], acts[k - 1];
      RunInv(cfg, states, acts, k - 1);
      assert StepAt(cfg, states, acts, k - 1);
      CompletesStep(cfg, s, act, r);
      if s.rows[r].status == Completed {
        CompletedWrote(cfg, states, acts, k - 1, r);
      } else {
        PastWriteWrote(cfg, states, acts, k - 1, act.i);
      }
      WroteLater(states, acts, k - 1, r, s.rows[r].machine);
    }
  }

  /** An update that misses its machine misses it because of a deletion. */
  lemma MissedWasDeleted(cfg: Config, states: seq<State>, acts: seq<Action>, w: nat, r: nat, m: MachineId, at: int)
    requires IsRun(cfg, states, acts) && WritesAt(states, acts, w, r, m, at) && m !in states[w].machines
    ensures !NotDeleted(acts, 0, w, m)
  {
    assert StepAt(cfg, states, acts, w);
    if NotDeleted(acts, 0, w, m) {
      FoundStays(cfg, states, acts, w, acts[w].i);
    }
  }

  /** On every run: every completed row's rotation has executed its machine-row update, and an
      automatic attempt that passes the cooldown gate later does so more than `RotationCooldown`
      minus one second after the instant that update's cooldown was computed from, unless the
      machine has been deleted since the update. The update itself missed the machine only if the
      machine had been deleted before. */
  lemma CompletedSpacing(cfg: Config, states: seq<State>, acts: seq<Action>, k: nat, r: nat, m: MachineId)
    requires IsRun(cfg, states, acts) && k < |acts| && PassesGate(cfg, states[k], acts[k], m)
    requires r < |states[k].rows| && states[k].rows[r].machine == m && states[k].rows[r].status == Completed
    ensures exists w: nat, at: int :: w < k && WritesAt(states, acts, w, r, m, at)
              && (m !in states[w].machines ==> !NotDeleted(acts, 0, w, m))
              && (m in states[w].machines && NotDeleted(acts, w + 1, k, m) ==>
                    states[k].now > at + cfg.rotationCooldown - 1_000_000_000)
  {
    CompletedWrote(cfg, states, acts, k, r);
    var w: nat, at: int :| w < k && WritesAt(states, acts, w, r, m, at);
    assert StepAt(cfg, states, acts, w);
    if m !in states[w].machines {
      MissedWasDeleted(cfg, states, acts, w, r, m, at);
    } else if NotDeleted(acts, w + 1, k, m) {
      CooldownSpacing(cfg, states, acts, w, k, r, m);
    }
  }

  // ----- where the new address came from -----

  /** The list gives the machine this address. */
  predicate Lists(list: seq<ProviderMachine>, m: MachineId, ip: string) {
    exists e :: e in list && e.id == m && e.ipv4 == ip
  }

  lemma {:induction false} ChangedIPIsListed(list: seq<ProviderMachine>, m: MachineId, oldIP: string)
    requires ChangedIP(list, m, oldIP) != ""
    ensures Lists(list, m, ChangedIP(list, m, oldIP))
  {
    assert list[0] in list;
    if !(list[0].id == m && list[0].ipv4 != "" && list[0].ipv4 != oldIP) {
      ChangedIPIsListed(list[1..], m, oldIP);
    }
  }

  /** A list call in which the attempt's own machine appeared with this address. */
  ghost predicate HitWith(act: Action, i: nat, m: MachineId, ip: string) {
    act.Own? && act.i == i && act.step.PollHit? && Lists(act.step.list, m, ip)
  }

  lemma LocalNewIP(cfg: Config, s: State, i: nat, step: Step)
    requires Enabled(s, Own(i, step))
    ensures var a, a' := s.attempts[i], Local(cfg, s, s.attempts[i], step);
            && a'.machine == a.machine
            && (a'.newIP == a.newIP || HitWith(Own(i, step), i, a.machine, a'.newIP))
  {
    if step.PollHit? {
      ChangedIPIsListed(step.list, s.attempts[i].machine, s.attempts[i].oldIP);
    }
  }

  lemma NewIPEnv(s: State, e: EnvAction, i: nat)
    requires EnvEnabled(s, e) && i < |ApplyEnv(s, e).attempts| && ApplyEnv(s, e).attempts[i].newIP != ""
    ensures var a' := ApplyEnv(s, e).attempts[i];
            i < |s.attempts| && s.attempts[i].machine == a'.machine && s.attempts[i].newIP == a'.newIP
  {
  }

  lemma NewIPProbe(cfg: Config, s: State, c: nat, work: CheckStep, i: nat)
    requires Enabled(s, Probe(c, work)) && i < |ApplyProbe(cfg, s, c, work).attempts| && ApplyProbe(cfg, s, c, work).attempts[i].newIP != ""
    ensures var a' := ApplyProbe(cfg, s, c, work).attempts[i];
            i < |s.attempts| && s.attempts[i].machine == a'.machine && s.attempts[i].newIP == a'.newIP
  {
  }

  lemma NewIPElsewhere(cfg: Config, s: State, act: Action, i: nat)
    requires Enabled(s, act) && !act.Own? && i < |Apply(cfg, s, act).attempts| && Apply(cfg, s, act).attempts[i].newIP != ""
    ensures var a' := Apply(cfg, s, act).attempts[i];
            i < |s.attempts| && s.attempts[i].machine == a'.machine && s.attempts[i].newIP == a'.newIP
  {
    match act
    case Env(e) => NewIPEnv(s, e, i);
    case Probe(c, work) => NewIPProbe(cfg, s, c, work, i);
  }

  lemma NewIPStep(cfg: Config, s: State, act: Action, i: nat)
    requires Enabled(s, act) && i < |Apply(cfg, s, act).attempts| && Apply(cfg, s, act).attempts[i].newIP != ""
    ensures var a' := Apply(cfg, s, act).attempts[i];
            && i < |s.attempts| && s.attempts[i].machine == a'.machine
            && (s.attempts[i].newIP == a'.newIP || HitWith(act, i, a'.machine, a'.newIP))
  {
    match act
    case Own(j, step) =>
      assert ApplyOwn(cfg, s, j, step).attempts == s.attempts[j := Local(cfg, s, s.attempts[j], step)];
      LocalNewIP(cfg, s, j, step);
    case _ => NewIPElsewhere(cfg, s, act, i);
  }

  lemma {:induction false} NewIPWasListed(cfg: Config, states: seq<State>, acts: seq<Action>, k: nat, i: nat)
    requires IsRun(cfg, states, acts) && k <= |acts| && i < |states[k].attempts| && states[k].attempts[i].newIP != ""
    ensures exists n: nat :: n < k && HitWith(acts[n], i, states[k].attempts[i].machine, states[k].attempts[i].newIP)
  {
    if k > 0 {
      assert StepAt(cfg, states, acts, k - 1);
      NewIPStep(cfg, states[k - 1], acts[k - 1], i);
      if states[k - 1].attempts[i].newIP == states[k].attempts[i].newIP {
        NewIPWasListed(cfg, states, acts, k - 1, i);
      }
    }
  }

  /** The new address of every completed row was listed by the provider for the row's own machine
      while the rotation polled, and it is neither empty nor the old one. */
  lemma CompletedIPWasListed(cfg: Config, states: seq<State>, acts: seq<Action>, k: nat, r: nat)
    requires IsRun(cfg, states, acts) && k <= |acts|
    requires r < |states[k].rows| && states[k].rows[r].status == Completed
    ensures var row := states[k].rows[r];
            && row.newIP != "" && row.newIP != row.oldIP
            && exists n: nat :: n < k && HitWith(acts[n], row.author, row.machine, row.newIP)
  {
    RunInv(cfg, states, acts, k);
    var row := states[k].rows[r];
    assert RowOk(r, row, states[k].attempts[row.author]);
    NewIPWasListed(cfg, states, acts, k, row.author);
  }

  // ----- what a cancellation loses -----

  /** A rotation's last statement completes its row exactly when the request is not cancelled by
      then; otherwise the row stays as it was, running. */
  lemma CompletesIffLive(cfg: Config, states: seq<State>, acts: seq<Action>, k: nat, i: nat)
    requires IsRun(cfg, states, acts) && k < |acts| && acts[k] == Own(i, FinishRow)
    ensures i < |states[k].attempts|
    ensures var a := states[k].attempts[i];
            && a.row < |states[k].rows| && a.row < |states[k + 1].rows|
            && states[k + 1].rows[a.row].status == (if a.ctx.Live? then Completed else Running)
            && (a.ctx.Cancelled? ==> states[k + 1].rows == states[k].rows)
  {
    RunInv(cfg, states, acts, k);
    assert StepAt(cfg, states, acts, k);
    var a := states[k].attempts[i];
    assert HoldsRow(a.pc) ==> states[k].rows[a.row].status == Running;
    assert ApplyOwn(cfg, states[k], i, FinishRow).rows == RowsAfter(states[k], i, a, FinishRow);
  }

  /** The machine row takes the new address, the cooldown, the instant of the rotation and zeroed
      counters, and keeps the other columns, exactly when the request is not cancelled by then and
      the machine is still there. */
  lemma StoresIffLive(cfg: Config, states: seq<State>, acts: seq<Action>, k: nat, i: nat)
    requires IsRun(cfg, states, acts) && k < |acts| && acts[k] == Own(i, WriteMachine)
    ensures i < |states[k].attempts|
    ensures var s, s', a := states[k], states[k + 1], states[k].attempts[i];
            if a.ctx.Live? && a.machine in s.machines then
              && s'.machines.Keys == s.machines.Keys
              && (forall m :: m in s.machines && m != a.machine ==> s'.machines[m] == s.machines[m])
              && var x, y := s.machines[a.machine], s'.machines[a.machine];
                 && y.cooldownUntil == Some((a.stamp + cfg.rotationCooldown) / 1_000_000_000)
                 && y.lastRotation == Some(s.now / 1_000_000_000)
                 && y.failures == 0 && y.successes == 0 && y.health == Unknown
                 && y.autoRotate == x.autoRotate && y.profile == x.profile.(ipv4 := a.newIP)
            else s'.machines == s.machines
  {
    assert StepAt(cfg, states, acts, k);
  }

  // ----- a cancelled rotation, step by step -----

  /** The `k`-th action leads to the `k`-th state, the first one from `from`. */
  ghost predicate LeadsAt(cfg: Config, from: State, more: seq<Action>, through: seq<State>, k: nat)
    requires k < |more| == |through|
  {
    var s := if k == 0 then from else through[k - 1];
    Enabled(s, more[k]) && through[k] == Apply(cfg, s, more[k])
  }

  /** A run is continued by actions that lead on from its last state. */
  lemma RunContinues(cfg: Config, states: seq<State>, acts: seq<Action>, more: seq<Action>, through: seq<State>)
    requires IsRun(cfg, states, acts) && |through| == |more|
    requires forall k :: 0 <= k < |more| ==> LeadsAt(cfg, states[|acts|], more, through, k)
    ensures IsRun(cfg, states + through, acts + more)
  {
    var all, done := states + through, acts + more;
    forall k | 0 <= k < |done| ensures StepAt(cfg, all, done, k) {
      if k < |acts| {
        assert StepAt(cfg, states, acts, k);
      } else {
        assert LeadsAt(cfg, states[|acts|], more, through, k - |acts|);
      }
    }
  }

  const CFG := Config(true, true, 3, 2, 2, 1800 * SECOND, 0, 60 * SECOND)
  const OLD_IP := "192.0.2.1"
  const NEW_IP := "192.0.2.2"
  const ROW := FreshMachine(Profile(1, "", "", "", "", OLD_IP, "", "", "", ""), true)
  const ENTRY := ProviderMachine("m", "", "", "", "", NEW_IP, "", "", "", "")
  const RUNNING := Row("m", OLD_IP, "", Manual, Running, DnsNone, PostNone, 0, None, 0)

  /** The controller while its only rotation, a manual one of machine `m`, is under way. */
  function During(a: Attempt, rows: seq<Row>, checks: seq<Check>): State {
    State(0, map["m" := ROW], rows, map["m" := 0], [a], checks, map[], map[], {})
  }

  const LOCKED := Attempt("m", Manual, Live, Locked, Pending, None, 0, 0, "", "", 0, 0, 0, DnsNone, PostNone, 0, 0, 0, false)
  const SEEN := LOCKED.(pc := Provider, oldIP := OLD_IP)
  const CALLED := SEEN.(pc := Poll, called := true)
  const CHANGED := CALLED.(pc := Cool, newIP := NEW_IP)
  const LOST := CHANGED.(ctx := Cancelled(true))
  const CHECK := Check("m", Some(0), false, Probing, 0, 0, Health.Counters(0, 0), 0)

  /** A manual rotation, up to its new address. */
  const BEFORE: seq<Action> := [
    Env(CreateMachine("m", ROW.profile, true)), Env(StartManual("m")), Own(0, Acquire), Own(0, ReadMachine),
    Own(0, Resolve(true, None)), Own(0, StampStart), Own(0, InsertRow), Own(0, ChangeIP(true)), Own(0, PollHit([ENTRY]))]

  const BEFORE_STATES: seq<State> := [
    Initial(0).(machines := map["m" := ROW]),
    During(LOCKED.(pc := Start), [], []).(locks := map[]),
    During(LOCKED, [], []),
    During(SEEN, [], []),
    During(SEEN.(pc := Stamp), [], []),
    During(SEEN.(pc := Insert), [], []),
    During(SEEN.(pc := Call), [RUNNING], []),
    During(CALLED, [RUNNING], []),
    During(CHANGED, [RUNNING], [])]

  /** The request is cancelled once the new address is known; the rotation goes on to its end. */
  const AFTER: seq<Action> := [
    Own(0, CancelContext), Own(0, StampCooldown), Own(0, WriteMachine), Own(0, SyncDNS(DnsFailed)), Own(0, StartPost),
    Probe(0, RunProbes(0, 0)), Own(0, EndPost), Own(0, FinishRow), Own(0, Unlock)]

  const AFTER_STATES: seq<State> := [
    During(LOST, [RUNNING], []),
    During(LOST.(pc := Write), [RUNNING], []),
    During(LOST.(pc := Sync), [RUNNING], []),
    During(LOST.(pc := Post, dns := DnsFailed), [RUNNING], []),
    During(LOST.(pc := PostWait, dns := DnsFailed), [RUNNING], [CHECK]),
    During(LOST.(pc := PostWait, dns := DnsFailed), [RUNNING], [CHECK.(pc := Refused)]),
    During(LOST.(pc := Finish, dns := DnsFailed, post := PostNotRun), [RUNNING], [CHECK.(pc := Refused)]),
    During(LOST.(pc := Release, dns := DnsFailed, post := PostNotRun, outcome := Rotated), [RUNNING], [CHECK.(pc := Refused)]),
    During(LOST.(pc := Done, dns := DnsFailed, post := PostNotRun, outcome := Rotated), [RUNNING], [CHECK.(pc := Refused)])
      .(locks := map[])]

  lemma Before0(k: nat)
    requires 0 <= k < 2
    ensures LeadsAt(CFG, Initial(0), BEFORE, BEFORE_STATES, k)
  {
  }

  lemma Before2()
    ensures LeadsAt(CFG, Initial(0), BEFORE, BEFORE_STATES, 2)
  {
  }

  lemma Before3()
    ensures LeadsAt(CFG, Initial(0), BEFORE, BEFORE_STATES, 3)
  {
  }

  lemma Before4(k: nat)
    requires 4 <= k < 6
    ensures LeadsAt(CFG, Initial(0), BEFORE, BEFORE_STATES, k)
  {
  }

  lemma Before6()
    ensures LeadsAt(CFG, Initial(0), BEFORE, BEFORE_STATES, 6)
  {
  }

  lemma Before7()
    ensures LeadsAt(CFG, Initial(0), BEFORE, BEFORE_STATES, 7)
  {
  }

  lemma Before8()
    ensures LeadsAt(CFG, Initial(0), BEFORE, BEFORE_STATES, 8)
  {
  }

  lemma After0()
    ensures LeadsAt(CFG, BEFORE_STATES[8], AFTER, AFTER_STATES, 0)
  {
  }

  lemma After1()
    ensures LeadsAt(CFG, BEFORE_STATES[8], AFTER, AFTER_STATES, 1)
  {
  }

  lemma After2()
    ensures LeadsAt(CFG, BEFORE_STATES[8], AFTER, AFTER_STATES, 2)
  {
  }

  lemma After3()
    ensures LeadsAt(CFG, BEFORE_STATES[8], AFTER, AFTER_STATES, 3)
  {
  }

  lemma After4()
    ensures LeadsAt(CFG, BEFORE_STATES[8], AFTER, AFTER_STATES, 4)
  {
  }

  lemma After5()
    ensures LeadsAt(CFG, BEFORE_STATES[8], AFTER, AFTER_STATES, 5)
  {
  }

  lemma After6()
    ensures LeadsAt(CFG, BEFORE_STATES[8], AFTER, AFTER_STATES, 6)
  {
  }

  lemma After7()
    ensures LeadsAt(CFG, BEFORE_STATES[8], AFTER, AFTER_STATES, 7)
  {
  }

  lemma After8()
    ensures LeadsAt(CFG, BEFORE_STATES[8], AFTER, AFTER_STATES, 8)
  {
  }

  /** The rotation has returned successfully with a new address, its row runs on, and its machine
      has neither the address nor a cooldown. */
  predicate Lost(s: State) {
    && |s.attempts| == 1 && |s.rows| == 1 && "m" in s.machines
    && s.attempts[0].pc == Done && s.attempts[0].outcome == Rotated && s.attempts[0].newIP == NEW_IP
    && s.rows[0].status == Running && s.rows[0].newIP == ""
    && s.machines["m"].profile.ipv4 == OLD_IP && s.machines["m"].cooldownUntil == None
  }

  lemma BeforeLeads()
    ensures forall k :: 0 <= k < |BEFORE| ==> LeadsAt(CFG, Initial(0), BEFORE, BEFORE_STATES, k)
  {
    forall k | 0 <= k < |BEFORE| ensures LeadsAt(CFG, Initial(0), BEFORE, BEFORE_STATES, k) {
      if k < 2 { Before0(k); } else if k == 2 { Before2(); } else if k == 3 { Before3(); }
      else if k < 6 { Before4(k); }
      else if k == 6 { Before6(); } else if k == 7 { Before7(); } else { Before8(); }
    }
  }

  lemma AfterLeads()
    ensures forall k :: 0 <= k < |AFTER| ==> LeadsAt(CFG, BEFORE_STATES[8], AFTER, AFTER_STATES, k)
  {
    forall k | 0 <= k < |AFTER| ensures LeadsAt(CFG, BEFORE_STATES[8], AFTER, AFTER_STATES, k) {
      if k == 0 { After0(); } else if k == 1 { After1(); } else if k == 2 { After2(); }
      else if k == 3 { After3(); } else if k == 4 { After4(); } else if k == 5 { After5(); }
      else if k == 6 { After6(); } else if k == 7 { After7(); } else { After8(); }
    }
  }

  /** A manual rotation that changed the address can be lost: it suffices that the request is
      cancelled once the new address is known. */
  lemma CancelledRotationIsLost()
    ensures exists states: seq<State>, acts: seq<Action> ::
              IsRun(CFG, states, acts) && acts == BEFORE + AFTER && Lost(states[|acts|])
  {
    BeforeLeads();
    RunContinues(CFG, [Initial(0)], [], BEFORE, BEFORE_STATES);
    var states := [Initial(0)] + BEFORE_STATES;
    assert [] + BEFORE == BEFORE && states[|BEFORE|] == BEFORE_STATES[8];
    AfterLeads();
    RunContinues(CFG, states, BEFORE, AFTER, AFTER_STATES);
    assert IsRun(CFG, states + AFTER_STATES, BEFORE + AFTER);
    assert (states + AFTER_STATES)[|BEFORE + AFTER|] == AFTER_STATES[8];
  }
}
