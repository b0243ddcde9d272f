/** Mutual exclusion of rotations and the life of a ledger row. */
module Ledger {
  import opened Options
  import opened Inventory
  import opened Rotation

  /** Between taking and leaving the lock map. */
  predicate Critical(a: Attempt) {
    a.pc != Start && a.pc != Done && a.pc != Crashed
  }

  /** Between inserting the ledger row and giving it a final status. */
  predicate HoldsRow(pc: PC) {
    || pc == Call || pc == Poll || pc == Fail || pc == Cool || pc == Write
    || pc == Sync || pc == Post || pc == PostWait || pc == Finish
  }

  /** Once the new address is known. */
  predicate KnowsIP(pc: PC) {
    pc == Cool || pc == Write || pc == Sync || pc == Post || pc == PostWait || pc == Finish
  }

  /** A manual attempt that was cancelled once its new address was known, and left. */
  predicate Abandoned(a: Attempt) {
    && (a.pc == Release || a.pc == Done)
    && a.trigger == Manual && a.ctx == Cancelled(true) && a.newIP != "" && a.newIP != a.oldIP
  }

  predicate Left(pc: PC) {
    pc == Release || pc == Done || pc == Crashed
  }

  /** The lock map names exactly the attempts inside their critical sections. */
  ghost predicate LockInv(s: State) {
    && (forall m :: m in s.locks ==>
          s.locks[m] < |s.attempts| && Critical(s.attempts[s.locks[m]]) && s.attempts[s.locks[m]].machine == m)
    && (forall i :: 0 <= i < |s.attempts| && Critical(s.attempts[i]) ==>
          s.attempts[i].machine in s.locks && s.locks[s.attempts[i].machine] == i)
  }

  predicate AttemptOk(a: Attempt) {
    && (a.trigger == Auto ==> a.ctx.Live?)
    && (KnowsIP(a.pc) ==> a.newIP != "" && a.newIP != a.oldIP && a.ctx != Cancelled(false))
  }

  predicate RowOk(r: nat, row: Row, a: Attempt) {
    && a.row == r && a.machine == row.machine && a.trigger == row.trigger
    && a.started == row.started && a.oldIP == row.oldIP
    && match row.status
       case Running => HoldsRow(a.pc) || a.pc == Crashed || Abandoned(a)
       case Completed => Left(a.pc) && row.newIP == a.newIP && a.newIP != "" && a.newIP != a.oldIP
       case Failed => Left(a.pc)
  }

  ghost predicate RowInv(s: State) {
    && (forall i :: 0 <= i < |s.attempts| ==> AttemptOk(s.attempts[i]))
    && (forall i :: 0 <= i < |s.attempts| && HoldsRow(s.attempts[i].pc) ==>
          s.attempts[i].row < |s.rows| && s.rows[s.attempts[i].row].author == i
          && s.rows[s.attempts[i].row].status == Running)
    && (forall r :: 0 <= r < |s.rows| ==>
          s.rows[r].author < |s.attempts| && RowOk(r, s.rows[r], s.attempts[s.rows[r].author]))
  }

  lemma LockInvEnv(s: State, e: EnvAction)
    requires LockInv(s) && EnvEnabled(s, e)
    ensures LockInv(ApplyEnv(s, e))
  {
  }

  lemma LocalKeepsEarly(cfg: Config, s: State, a: Attempt, step: Step)
    requires StepEnabled(s, a, step) && IsEarly(step)
    ensures var a' := Local(cfg, s, a, step);
            && a'.machine == a.machine && a'.trigger == a.trigger
            && (step != Acquire && step != Unlock ==> Critical(a') == Critical(a))
  {
  }

  lemma LocalKeepsLate(cfg: Config, s: State, a: Attempt, step: Step)
    requires StepEnabled(s, a, step) && !IsEarly(step)
    ensures var a' := Local(cfg, s, a, step);
            && a'.machine == a.machine && a'.trigger == a.trigger
            && (step != Acquire && step != Unlock ==> Critical(a') == Critical(a))
  {
  }

  lemma LocalKeeps(cfg: Config, s: State, a: Attempt, step: Step)
    requires StepEnabled(s, a, step)
    ensures var a' := Local(cfg, s, a, step);
            && a'.machine == a.machine && a'.trigger == a.trigger
            && (step != Acquire && step != Unlock ==> Critical(a') == Critical(a))
  {
    if IsEarly(step) {
      LocalKeepsEarly(cfg, s, a, step);
    } else {
      LocalKeepsLate(cfg, s, a, step);
    }
  }

  lemma LockFrame(s: State, s': State, i: nat, a': Attempt)
    requires LockInv(s) && i < |s.attempts|
    requires s'.attempts == s.attempts[i := a'] && a'.machine == s.attempts[i].machine
    requires
      || (s'.locks == s.locks && Critical(a') == Critical(s.attempts[i]))
      || (s.attempts[i].machine !in s.locks && s'.locks == s.locks[s.attempts[i].machine := i] && Critical(a'))
      || (Critical(s.attempts[i]) && s'.locks == s.locks - {s.attempts[i].machine} && !Critical(a'))
    ensures LockInv(s')
  {
  }

  lemma LockInvOwn(cfg: Config, s: State, i: nat, step: Step)
    requires LockInv(s) && Enabled(s, Own(i, step))
    ensures LockInv(ApplyOwn(cfg, s, i, step))
  {
    var a := s.attempts[i];
    LocalKeeps(cfg, s, a, step);
    LockFrame(s, ApplyOwn(cfg, s, i, step), i, Local(cfg, s, a, step));
  }

  lemma LockInvProbe(cfg: Config, s: State, c: nat, work: CheckStep)
    requires LockInv(s) && Enabled(s, Probe(c, work))
    ensures LockInv(ApplyProbe(cfg, s, c, work))
  {
  }

  lemma RowInvCrash(s: State)
    requires RowInv(s)
    ensures RowInv(ApplyEnv(s, Crash))
  {
    var s' := ApplyEnv(s, Crash);
    forall r | 0 <= r < |s.rows| ensures RowOk(r, s'.rows[r], s'.attempts[s'.rows[r].author]) {
      assert s'.attempts[s.rows[r].author] == KillAttempt(s.attempts[s.rows[r].author]);
    }
    forall j | 0 <= j < |s'.attempts|
      ensures AttemptOk(s'.attempts[j]) && !HoldsRow(s'.attempts[j].pc)
    {
      assert AttemptOk(s.attempts[j]);
    }
  }

  /** Tables outside the ledger may change, rows may gain a DNS status, attempts may be appended. */
  lemma RowFrame(s: State, s': State)
    requires RowInv(s)
    requires |s.attempts| <= |s'.attempts| && s'.attempts[..|s.attempts|] == s.attempts
    requires forall j :: |s.attempts| <= j < |s'.attempts| ==> s'.attempts[j].pc == Start && s'.attempts[j].ctx == Live
    requires |s'.rows| == |s.rows|
    requires forall r :: 0 <= r < |s.rows| ==> s'.rows[r] == s.rows[r].(dns := s'.rows[r].dns)
    ensures RowInv(s')
  {
    forall j | 0 <= j < |s.attempts| ensures s'.attempts[j] == s.attempts[j] {
      assert s'.attempts[..|s.attempts|][j] == s.attempts[j];
    }
  }

  lemma RowInvEnv(s: State, e: EnvAction)
    requires RowInv(s) && EnvEnabled(s, e)
    ensures RowInv(ApplyEnv(s, e))
  {
    if e == Crash {
      RowInvCrash(s);
    } else {
      RowFrame(s, ApplyEnv(s, e));
    }
  }

  lemma {:induction false} ChangedIPIsNew(list: seq<ProviderMachine>, m: MachineId, oldIP: string)
    ensures ChangedIP(list, m, oldIP) != "" ==> ChangedIP(list, m, oldIP) != oldIP
    decreases |list|
  {
    if list != [] {
      ChangedIPIsNew(list[1..], m, oldIP);
    }
  }

  lemma LocalLive(cfg: Config, s: State, a: Attempt, step: Step)
    requires StepEnabled(s, a, step) && AttemptOk(a)
    ensures var a' := Local(cfg, s, a, step);
            && (a'.trigger == Auto ==> a'.ctx.Live?)
            && (step != CancelContext ==> a'.ctx == a.ctx)
  {
  }

  lemma LocalKnows(cfg: Config, s: State, a: Attempt, step: Step)
    requires StepEnabled(s, a, step)
    ensures var a' := Local(cfg, s, a, step);
            KnowsIP(a'.pc) ==>
              || step.PollHit?
              || (KnowsIP(a.pc) && a'.newIP == a.newIP && a'.oldIP == a.oldIP
                  && (step == CancelContext ==> a'.ctx == Cancelled(a.newIP != "")))
  {
  }

  lemma LocalOk(cfg: Config, s: State, a: Attempt, step: Step)
    requires StepEnabled(s, a, step) && AttemptOk(a)
    ensures AttemptOk(Local(cfg, s, a, step))
  {
    match step
    case PollHit(list) => ChangedIPIsNew(list, a.machine, a.oldIP);
    case _ =>
      LocalLive(cfg, s, a, step);
      LocalKnows(cfg, s, a, step);
  }

  lemma LocalHoldsEarly(cfg: Config, s: State, a: Attempt, step: Step)
    requires StepEnabled(s, a, step) && IsEarly(step)
    ensures var a' := Local(cfg, s, a, step);
            && (HoldsRow(a'.pc) ==> HoldsRow(a.pc) || (step == InsertRow && a.ctx.Live?))
            && (HoldsRow(a.pc) && !HoldsRow(a'.pc) ==> a'.pc == Release && (step == FailRow || step == FinishRow))
  {
  }

  lemma LocalHoldsLate(cfg: Config, s: State, a: Attempt, step: Step)
    requires StepEnabled(s, a, step) && !IsEarly(step)
    ensures var a' := Local(cfg, s, a, step);
            && (HoldsRow(a'.pc) ==> HoldsRow(a.pc) || (step == InsertRow && a.ctx.Live?))
            && (HoldsRow(a.pc) && !HoldsRow(a'.pc) ==> a'.pc == Release && (step == FailRow || step == FinishRow))
  {
  }

  /** Only InsertRow starts holding a row; only FailRow and FinishRow stop. */
  lemma LocalHolds(cfg: Config, s: State, a: Attempt, step: Step)
    requires StepEnabled(s, a, step)
    ensures var a' := Local(cfg, s, a, step);
            && (HoldsRow(a'.pc) ==> HoldsRow(a.pc) || (step == InsertRow && a.ctx.Live?))
            && (HoldsRow(a.pc) && !HoldsRow(a'.pc) ==> a'.pc == Release && (step == FailRow || step == FinishRow))
  {
    if IsEarly(step) {
      LocalHoldsEarly(cfg, s, a, step);
    } else {
      LocalHoldsLate(cfg, s, a, step);
    }
  }

  /** The row's columns never change while it is held, nor after. */
  lemma LocalKeepsColumns(cfg: Config, s: State, a: Attempt, step: Step)
    requires StepEnabled(s, a, step) && (HoldsRow(a.pc) || Left(a.pc))
    ensures var a' := Local(cfg, s, a, step);
            && a'.row == a.row && a'.started == a.started && a'.oldIP == a.oldIP
            && (Left(a.pc) ==> Left(a'.pc) && a'.newIP == a.newIP && (a.pc == Crashed ==> a'.pc == Crashed))
            && (Abandoned(a) ==> Abandoned(a'))
  {
  }

  /** A statement that leaves the ledger alone. */
  lemma RowOwnLocal(s: State, s': State, i: nat, a': Attempt)
    requires RowInv(s) && i < |s.attempts| && AttemptOk(a')
    requires s'.attempts == s.attempts[i := a'] && s'.rows == s.rows
    requires var a := s.attempts[i];
             && a'.machine == a.machine && a'.trigger == a.trigger
             && (HoldsRow(a'.pc) ==> HoldsRow(a.pc))
             && (HoldsRow(a.pc) || Left(a.pc) ==> a'.row == a.row && a'.started == a.started && a'.oldIP == a.oldIP)
             && (HoldsRow(a.pc) ==> HoldsRow(a'.pc) || Abandoned(a'))
             && (Left(a.pc) ==> Left(a'.pc) && a'.newIP == a.newIP && (a.pc == Crashed ==> a'.pc == Crashed))
             && (Abandoned(a) ==> Abandoned(a'))
    ensures RowInv(s')
  {
    forall r | 0 <= r < |s.rows| ensures RowOk(r, s'.rows[r], s'.attempts[s'.rows[r].author]) {
      assert RowOk(r, s.rows[r], s.attempts[s.rows[r].author]);
    }
  }

  /** A statement that gives the held row its final status. */
  lemma RowOwnFinal(s: State, s': State, i: nat, a': Attempt, row: Row)
    requires RowInv(s) && i < |s.attempts| && AttemptOk(a')
    requires var a := s.attempts[i];
             && HoldsRow(a.pc)
             && s'.attempts == s.attempts[i := a'] && s'.rows == s.rows[a.row := row]
             && row.author == i && row.status != Running && !HoldsRow(a'.pc) && RowOk(a.row, row, a')
    ensures RowInv(s')
  {
    var a := s.attempts[i];
    forall r | 0 <= r < |s.rows| ensures RowOk(r, s'.rows[r], s'.attempts[s'.rows[r].author]) {
      assert RowOk(r, s.rows[r], s.attempts[s.rows[r].author]);
    }
  }

  lemma RowOwnInsert(s: State, s': State, i: nat)
    requires RowInv(s) && i < |s.attempts| && s.attempts[i].pc == Insert
    requires var a := s.attempts[i];
             && s'.attempts == s.attempts[i := a.(pc := Call, row := |s.rows|)] && s'.rows == s.rows + [NewRow(a, i)]
    ensures RowInv(s')
  {
    forall r | 0 <= r < |s.rows| ensures s.rows[r].author != i && s'.rows[r] == s.rows[r] {
      assert RowOk(r, s.rows[r], s.attempts[s.rows[r].author]);
    }
  }

  lemma RowInvFail(cfg: Config, s: State, i: nat)
    requires RowInv(s) && Enabled(s, Own(i, FailRow))
    ensures RowInv(ApplyOwn(cfg, s, i, FailRow))
  {
    var a := s.attempts[i];
    LocalOk(cfg, s, a, FailRow);
    RowOwnFinal(s, ApplyOwn(cfg, s, i, FailRow), i, a.(pc := Release),
                s.rows[a.row].(status := Failed, finished := Some(Secs(s.now))));
  }

  lemma RowInvFinish(cfg: Config, s: State, i: nat)
    requires RowInv(s) && Enabled(s, Own(i, FinishRow)) && s.attempts[i].ctx.Live?
    ensures RowInv(ApplyOwn(cfg, s, i, FinishRow))
  {
    var a := s.attempts[i];
    LocalOk(cfg, s, a, FinishRow);
    RowOwnFinal(s, ApplyOwn(cfg, s, i, FinishRow), i, Leave(a, Rotated),
                s.rows[a.row].(newIP := a.newIP, status := Completed, dns := a.dns, post := a.post,
                               finished := Some(Secs(s.now))));
  }

  lemma RowInvOwn(cfg: Config, s: State, i: nat, step: Step)
    requires RowInv(s) && Enabled(s, Own(i, step))
    ensures RowInv(ApplyOwn(cfg, s, i, step))
  {
    var a := s.attempts[i];
    var s' := ApplyOwn(cfg, s, i, step);
    var a' := Local(cfg, s, a, step);
    LocalOk(cfg, s, a, step);
    if step == InsertRow && a.ctx.Live? {
      RowOwnInsert(s, s', i);
    } else if step == FailRow {
      RowInvFail(cfg, s, i);
    } else if step == FinishRow && a.ctx.Live? {
      RowInvFinish(cfg, s, i);
    } else {
      LocalKeeps(cfg, s, a, step);
      LocalHolds(cfg, s, a, step);
      if HoldsRow(a.pc) || Left(a.pc) {
        LocalKeepsColumns(cfg, s, a, step);
      }
      RowOwnLocal(s, s', i, a');
    }
  }

  lemma RowInvProbe(cfg: Config, s: State, c: nat, work: CheckStep)
    requires RowInv(s) && Enabled(s, Probe(c, work))
    ensures RowInv(ApplyProbe(cfg, s, c, work))
  {
  }
}
