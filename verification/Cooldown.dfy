/** The cooldown: stored cooldowns never decrease, and no automatic attempt passes the gate
    before the cooldown of an earlier rotation has run out. */
module Cooldown {
  import opened Options
  import opened Inventory
  import opened Rotation
  import opened Ledger

  /** The stamp stored for a cooldown that starts at an instant. */
  function Expiry(cfg: Config, at: int): int {
    Secs(at + cfg.rotationCooldown)
  }

  predicate AtMost(stored: Option<int>, bound: int) {
    stored.Some? ==> stored.value <= bound
  }

  predicate AtLeast(stored: Option<int>, bound: int) {
    stored.Some? && bound <= stored.value
  }

  function Stored(s: State, m: MachineId): Option<int> {
    if m in s.machines then s.machines[m].cooldownUntil else None
  }

  predicate CommittedOrDetached(s: State, r: nat) {
    r in s.commits || r in s.detached
  }

  /** The attempt has executed its machine-row update if its context is still live. */
  predicate PastWrite(pc: PC) {
    pc == Sync || pc == Post || pc == PostWait || pc == Finish
  }

  ghost predicate CoolOk(cfg: Config, s: State, a: Attempt) {
    && (a.pc == Write ==> a.stamp <= s.now && AtMost(Stored(s, a.machine), Expiry(cfg, a.stamp)))
    && (a.pc == Gate ==> forall r :: r in s.commits && r < |s.rows| && s.rows[r].machine == a.machine ==>
          AtLeast(a.seenCooldown, Expiry(cfg, s.commits[r])))
    && (PastWrite(a.pc) && a.ctx.Live? ==> CommittedOrDetached(s, a.row))
  }

  ghost predicate CommitOk(cfg: Config, s: State, r: nat)
    requires r in s.commits
  {
    && r < |s.rows| && s.commits[r] <= s.now
    && s.rows[r].machine in s.machines
    && AtLeast(Stored(s, s.rows[r].machine), Expiry(cfg, s.commits[r]))
  }

  ghost predicate CoolInv(cfg: Config, s: State) {
    && (forall m :: m in s.machines ==> AtMost(Stored(s, m), Expiry(cfg, s.now)))
    && (forall r :: r in s.commits ==> CommitOk(cfg, s, r))
    && (forall i :: 0 <= i < |s.attempts| ==> CoolOk(cfg, s, s.attempts[i]))
    && (forall r :: 0 <= r < |s.rows| && s.rows[r].status == Completed ==> CommittedOrDetached(s, r))
  }

  lemma SecsMonotone(x: int, y: int)
    requires x <= y
    ensures Secs(x) <= Secs(y)
  {
  }

  /** What every action but a machine-row update, a deletion and a completion looks like. */
  predicate CoolFrame(s: State, s': State) {
    && s.now <= s'.now && s'.commits == s.commits && s'.detached == s.detached
    && (forall m :: m in s.machines ==> m in s'.machines)
    && (forall m :: m in s'.machines ==> Stored(s', m) == Stored(s, m))
    && |s.rows| <= |s'.rows|
    && (forall r :: 0 <= r < |s.rows| ==> s'.rows[r].machine == s.rows[r].machine)
    && (forall r :: 0 <= r < |s'.rows| && s'.rows[r].status == Completed ==>
          r < |s.rows| && s.rows[r].status == Completed)
  }

  lemma CoolFramed(cfg: Config, s: State, s': State)
    requires CoolInv(cfg, s) && CoolFrame(s, s')
    requires forall j :: 0 <= j < |s'.attempts| ==>
               (j < |s.attempts| && s'.attempts[j] == s.attempts[j]) || CoolOk(cfg, s, s'.attempts[j])
    ensures CoolInv(cfg, s')
  {
    SecsMonotone(s.now + cfg.rotationCooldown, s'.now + cfg.rotationCooldown);
    forall r | r in s'.commits ensures CommitOk(cfg, s', r) {
      assert CommitOk(cfg, s, r);
    }
    forall j | 0 <= j < |s'.attempts| ensures CoolOk(cfg, s', s'.attempts[j]) {
      assert CoolOk(cfg, s, s'.attempts[j]);
      forall r | r in s.commits ensures r < |s.rows| {
        assert CommitOk(cfg, s, r);
      }
    }
  }

  lemma CoolInvCrash(cfg: Config, s: State)
    requires CoolInv(cfg, s)
    ensures CoolInv(cfg, ApplyEnv(s, Crash))
  {
    var s' := ApplyEnv(s, Crash);
    forall j | 0 <= j < |s'.attempts| ensures CoolOk(cfg, s, s'.attempts[j]) {
      assert s'.attempts[j] == KillAttempt(s.attempts[j]);
    }
    CoolFramed(cfg, s, s');
  }

  lemma CoolInvDelete(cfg: Config, s: State, id: MachineId)
    requires CoolInv(cfg, s)
    ensures CoolInv(cfg, ApplyEnv(s, DeleteMachine(id)))
  {
    var s' := ApplyEnv(s, DeleteMachine(id));
    forall r | r in s.commits || r in s.detached ensures CommittedOrDetached(s', r) {
      if r in s.commits {
        assert CommitOk(cfg, s, r);
      }
    }
    forall r | r in s'.commits ensures CommitOk(cfg, s', r) {
      assert CommitOk(cfg, s, r);
    }
    forall j | 0 <= j < |s'.attempts| ensures CoolOk(cfg, s', s'.attempts[j]) {
      assert CoolOk(cfg, s, s.attempts[j]);
    }
  }

  lemma EnvIsCoolFrame(s: State, e: EnvAction)
    requires EnvEnabled(s, e) && !e.Crash? && !e.DeleteMachine? && !e.SyncProvider?
    ensures CoolFrame(s, ApplyEnv(s, e))
  {
  }

  lemma CoolInvEnv(cfg: Config, s: State, e: EnvAction)
    requires CoolInv(cfg, s) && EnvEnabled(s, e)
    ensures CoolInv(cfg, ApplyEnv(s, e))
  {
    match e
    case Crash => CoolInvCrash(cfg, s);
    case DeleteMachine(id) => CoolInvDelete(cfg, s, id);
    case SyncProvider(provider, list) =>
      UpsertAllKeepsSafety(s.machines, provider, list);
      CoolFramed(cfg, s, ApplyEnv(s, e));
    case _ =>
      EnvIsCoolFrame(s, e);
      CoolFramed(cfg, s, ApplyEnv(s, e));
  }

  lemma CoolInvProbe(cfg: Config, s: State, c: nat, work: CheckStep)
    requires CoolInv(cfg, s) && Enabled(s, Probe(c, work))
    ensures CoolInv(cfg, ApplyProbe(cfg, s, c, work))
  {
    CoolFramed(cfg, s, ApplyProbe(cfg, s, c, work));
  }

  /** The effect of the machine-row update, executed by the holder of the machine's lock. */
  predicate WriteEffect(cfg: Config, s: State, s': State, a: Attempt) {
    && s'.now == s.now && s'.rows == s.rows
    && if a.ctx.Cancelled? then s'.machines == s.machines && s'.commits == s.commits && s'.detached == s.detached
       else if a.machine !in s.machines then
         s'.machines == s.machines && s'.commits == s.commits && s'.detached == s.detached + {a.row}
       else
         && s'.machines == s.machines[a.machine := MachineRotated(cfg, s.now, s.machines[a.machine], a)]
         && s'.commits == s.commits[a.row := a.stamp] && s'.detached == s.detached
  }

  lemma WriteKeepsCommits(cfg: Config, s: State, s': State, a: Attempt, r: nat)
    requires CoolInv(cfg, s) && CoolOk(cfg, s, a) && a.pc == Write && WriteEffect(cfg, s, s', a)
    requires a.row < |s.rows| && s.rows[a.row].machine == a.machine && r in s'.commits
    ensures CommitOk(cfg, s', r)
  {
    if r in s.commits {
      assert CommitOk(cfg, s, r);
    }
  }

  lemma WriteKeepsOther(cfg: Config, s: State, s': State, a: Attempt, b: Attempt)
    requires CoolOk(cfg, s, b) && WriteEffect(cfg, s, s', a)
    requires a.row < |s.rows| && s.rows[a.row].machine == a.machine
    requires b.machine != a.machine || !Critical(b)
    ensures CoolOk(cfg, s', b)
  {
  }

  lemma WriteBounds(cfg: Config, s: State, s': State, a: Attempt, m: MachineId)
    requires CoolInv(cfg, s) && CoolOk(cfg, s, a) && a.pc == Write && WriteEffect(cfg, s, s', a) && m in s'.machines
    ensures AtMost(Stored(s', m), Expiry(cfg, s.now))
  {
    SecsMonotone(a.stamp + cfg.rotationCooldown, s.now + cfg.rotationCooldown);
  }

  lemma WriteSettles(cfg: Config, s: State, s': State, a: Attempt)
    requires WriteEffect(cfg, s, s', a)
    ensures a.ctx.Live? ==> CommittedOrDetached(s', a.row)
    ensures forall r :: CommittedOrDetached(s, r) ==> CommittedOrDetached(s', r)
  {
  }

  lemma CoolInvWrite(cfg: Config, s: State, s': State, i: nat, a': Attempt)
    requires LockInv(s) && RowInv(s) && CoolInv(cfg, s) && i < |s.attempts|
    requires var a := s.attempts[i];
             && a.pc == Write && WriteEffect(cfg, s, s', a)
             && s'.attempts == s.attempts[i := a'] && a'.pc == Sync && a'.ctx == a.ctx && a'.row == a.row
    ensures CoolInv(cfg, s')
  {
    var a := s.attempts[i];
    assert CoolOk(cfg, s, a);
    assert RowOk(a.row, s.rows[a.row], a);
    WriteSettles(cfg, s, s', a);
    forall m | m in s'.machines ensures AtMost(Stored(s', m), Expiry(cfg, s'.now)) {
      WriteBounds(cfg, s, s', a, m);
    }
    forall r | r in s'.commits ensures CommitOk(cfg, s', r) {
      WriteKeepsCommits(cfg, s, s', a, r);
    }
    forall j | 0 <= j < |s'.attempts| ensures CoolOk(cfg, s', s'.attempts[j]) {
      if j != i {
        WriteKeepsOther(cfg, s, s', a, s.attempts[j]);
      }
    }
  }

  /** The statement's effect on the facts above, when it is not the machine-row update. */
  lemma LocalCool(cfg: Config, s: State, a: Attempt, step: Step)
    requires StepEnabled(s, a, step)
    ensures var a' := Local(cfg, s, a, step);
            && (a'.pc == Write ==> (a.pc == Write && a'.stamp == a.stamp) || a'.stamp == s.now)
            && (a'.pc == Gate ==>
                  (a'.seenCooldown == a.seenCooldown && a.pc == Gate) || a'.seenCooldown == Stored(s, a.machine))
  {
  }

  lemma LocalPastWrite(cfg: Config, s: State, a: Attempt, step: Step)
    requires StepEnabled(s, a, step) && step != WriteMachine
    ensures var a' := Local(cfg, s, a, step);
            PastWrite(a'.pc) && a'.ctx.Live? ==> PastWrite(a.pc) && a.ctx.Live? && a'.row == a.row
  {
  }

  lemma CoolOkMoves(cfg: Config, s: State, a: Attempt, a': Attempt)
    requires CoolInv(cfg, s) && CoolOk(cfg, s, a) && a'.machine == a.machine
    requires a'.pc == Write ==> (a.pc == Write && a'.stamp == a.stamp) || a'.stamp == s.now
    requires a'.pc == Gate ==>
               (a'.seenCooldown == a.seenCooldown && a.pc == Gate) || a'.seenCooldown == Stored(s, a.machine)
    requires PastWrite(a'.pc) && a'.ctx.Live? ==> PastWrite(a.pc) && a.ctx.Live? && a'.row == a.row
    ensures CoolOk(cfg, s, a')
  {
    forall r | r in s.commits && r < |s.rows| && s.rows[r].machine == a.machine
      ensures AtLeast(Stored(s, a.machine), Expiry(cfg, s.commits[r]))
    {
      assert CommitOk(cfg, s, r);
    }
  }

  lemma CompletionKeeps(cfg: Config, s: State, s': State, b: Attempt, r: nat, row: Row)
    requires CoolOk(cfg, s, b) && r < |s.rows| && row.machine == s.rows[r].machine && s'.rows == s.rows[r := row]
    requires s'.now == s.now && s'.machines == s.machines && s'.commits == s.commits && s'.detached == s.detached
    ensures CoolOk(cfg, s', b)
  {
  }

  lemma CoolInvFinish(cfg: Config, s: State, s': State, i: nat, a': Attempt, row: Row)
    requires RowInv(s) && CoolInv(cfg, s) && i < |s.attempts| && s.attempts[i].pc == Finish && s.attempts[i].ctx.Live?
    requires var a := s.attempts[i];
             && s'.now == s.now && s'.machines == s.machines && s'.commits == s.commits && s'.detached == s.detached
             && s'.attempts == s.attempts[i := a'] && s'.rows == s.rows[a.row := row]
             && row.machine == a.machine && a'.pc == Release
    ensures CoolInv(cfg, s')
  {
    var a := s.attempts[i];
    assert CoolOk(cfg, s, a);
    assert RowOk(a.row, s.rows[a.row], a);
    forall r | r in s'.commits ensures CommitOk(cfg, s', r) {
      assert CommitOk(cfg, s, r);
    }
    forall j | 0 <= j < |s'.attempts| ensures CoolOk(cfg, s', s'.attempts[j]) {
      CompletionKeeps(cfg, s, s', s.attempts[j], a.row, row);
    }
  }

  lemma OwnIsCoolFrame(cfg: Config, s: State, i: nat, step: Step)
    requires Enabled(s, Own(i, step)) && step != WriteMachine && (step == FinishRow ==> s.attempts[i].ctx.Cancelled?)
    ensures CoolFrame(s, ApplyOwn(cfg, s, i, step))
  {
    assert ApplyOwn(cfg, s, i, step).rows == RowsAfter(s, i, s.attempts[i], step);
  }

  lemma CoolOkLocal(cfg: Config, s: State, a: Attempt, step: Step)
    requires CoolInv(cfg, s) && CoolOk(cfg, s, a) && StepEnabled(s, a, step) && step != WriteMachine
    ensures CoolOk(cfg, s, Local(cfg, s, a, step))
  {
    LocalKeeps(cfg, s, a, step);
    LocalCool(cfg, s, a, step);
    LocalPastWrite(cfg, s, a, step);
    CoolOkMoves(cfg, s, a, Local(cfg, s, a, step));
  }

  lemma CoolInvLocal(cfg: Config, s: State, i: nat, step: Step)
    requires LockInv(s) && RowInv(s) && CoolInv(cfg, s) && Enabled(s, Own(i, step))
    requires step != WriteMachine && (step == FinishRow ==> s.attempts[i].ctx.Cancelled?)
    ensures CoolInv(cfg, ApplyOwn(cfg, s, i, step))
  {
    var a := s.attempts[i];
    CoolOkLocal(cfg, s, a, step);
    OwnIsCoolFrame(cfg, s, i, step);
    assert ApplyOwn(cfg, s, i, step).attempts == s.attempts[i := Local(cfg, s, a, step)];
    CoolFramed(cfg, s, ApplyOwn(cfg, s, i, step));
  }

  lemma CoolInvOwn(cfg: Config, s: State, i: nat, step: Step)
    requires LockInv(s) && RowInv(s) && CoolInv(cfg, s) && Enabled(s, Own(i, step))
    ensures CoolInv(cfg, ApplyOwn(cfg, s, i, step))
  {
    var a := s.attempts[i];
    var s' := ApplyOwn(cfg, s, i, step);
    if step == WriteMachine {
      CoolInvWrite(cfg, s, s', i, s'.attempts[i]);
    } else if step == FinishRow && a.ctx.Live? {
      assert RowOk(a.row, s.rows[a.row], a);
      CoolInvFinish(cfg, s, s', i, s'.attempts[i], s'.rows[a.row]);
    } else {
      CoolInvLocal(cfg, s, i, step);
    }
  }
}
