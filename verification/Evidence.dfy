/** Evidence before action: however concurrent checks interleave and lose each other's counter
    updates, an automatic ChangeIP is preceded by enough failing checks. */
module Evidence {
  import opened Options
  import opened Inventory
  import opened Rotation
  import opened Ledger
  import Health

  /** The failing checks an automatic trigger needs. */
  function Needed(cfg: Config): int {
    if cfg.failureThreshold >= 1 then cfg.failureThreshold else 1
  }

  /** Past the confirmation gate, still inside the critical section. */
  predicate PastConfirm(pc: PC) {
    pc == Provider || pc == Stamp || pc == Insert || HoldsRow(pc)
  }

  /** What an automatic attempt knows about its machine's failing checks. */
  predicate AttemptEvidence(cfg: Config, fails: nat, a: Attempt) {
    && Needed(cfg) <= a.failsAtSpawn <= fails
    && (Critical(a) || a.called ==> a.failsAtSpawn <= a.failsAtLock <= fails)
    && (cfg.requireConfirmation && PastConfirm(a.pc) ==> a.failsAtLock < fails)
    && (a.called ==> (HoldsRow(a.pc) || Left(a.pc)) && a.failsAtLock <= a.failsAtCall)
    && (a.called && cfg.requireConfirmation ==> a.failsAtLock < a.failsAtCall)
  }

  /** A confirming attempt waits for a check of its own machine that it started itself. */
  predicate Awaits(checks: seq<Check>, a: Attempt) {
    a.pc == Confirming ==>
      a.check < |checks| && checks[a.check].machine == a.machine && a.failsAtLock <= checks[a.check].failsAtStart
  }

  /** What a check knows: the counter it read, and its own contribution once concluded. */
  predicate CheckEvidence(fails: nat, k: Check) {
    && k.failsAtStart <= fails
    && (k.pc == Writing ==> k.read.failures <= fails)
    && (k.pc == Concluded && Health.Failing(k.score) ==> k.failsAtStart < fails)
  }

  ghost predicate EvidenceInv(cfg: Config, s: State) {
    && (forall m :: m in s.machines ==> s.machines[m].failures <= FailsOf(s, m))
    && (forall c :: 0 <= c < |s.checks| ==> CheckEvidence(FailsOf(s, s.checks[c].machine), s.checks[c]))
    && (forall i :: 0 <= i < |s.attempts| && s.attempts[i].trigger == Auto ==>
          Awaits(s.checks, s.attempts[i]) && AttemptEvidence(cfg, FailsOf(s, s.attempts[i].machine), s.attempts[i]))
  }

  /** The counters' bound survives, and the history of failing checks only grows. */
  ghost predicate Grows(s: State, s': State) {
    && (forall m :: FailsOf(s, m) <= FailsOf(s', m))
    && (forall m :: m in s'.machines ==> s'.machines[m].failures <= FailsOf(s', m))
    && |s.checks| <= |s'.checks|
    && (forall c :: 0 <= c < |s.checks| ==>
          s'.checks[c].machine == s.checks[c].machine && s'.checks[c].failsAtStart == s.checks[c].failsAtStart)
  }

  lemma EvidenceFrame(cfg: Config, s: State, s': State)
    requires EvidenceInv(cfg, s) && Grows(s, s')
    requires forall c :: 0 <= c < |s'.checks| ==>
               (c < |s.checks| && s'.checks[c] == s.checks[c]) || CheckEvidence(FailsOf(s', s'.checks[c].machine), s'.checks[c])
    requires forall i :: 0 <= i < |s'.attempts| && s'.attempts[i].trigger == Auto ==>
               (i < |s.attempts| && s'.attempts[i] == s.attempts[i])
               || (Awaits(s'.checks, s'.attempts[i])
                   && AttemptEvidence(cfg, FailsOf(s', s'.attempts[i].machine), s'.attempts[i]))
    ensures EvidenceInv(cfg, s')
  {
  }

  lemma EvidenceInvCrash(cfg: Config, s: State)
    requires EvidenceInv(cfg, s)
    ensures EvidenceInv(cfg, ApplyEnv(s, Crash))
  {
    var s' := ApplyEnv(s, Crash);
    assert forall m :: FailsOf(s', m) == FailsOf(s, m);
    forall c | 0 <= c < |s'.checks| ensures CheckEvidence(FailsOf(s', s'.checks[c].machine), s'.checks[c]) {
      assert CheckEvidence(FailsOf(s, s.checks[c].machine), s.checks[c]);
    }
    forall i | 0 <= i < |s'.attempts| && s'.attempts[i].trigger == Auto
      ensures Awaits(s'.checks, s'.attempts[i]) && AttemptEvidence(cfg, FailsOf(s', s'.attempts[i].machine), s'.attempts[i])
    {
      assert s'.attempts[i] == KillAttempt(s.attempts[i]);
    }
  }

  lemma EvidenceInvSync(cfg: Config, s: State, provider: int, list: seq<ProviderMachine>)
    requires EvidenceInv(cfg, s)
    ensures EvidenceInv(cfg, ApplyEnv(s, SyncProvider(provider, list)))
  {
    var s' := ApplyEnv(s, SyncProvider(provider, list));
    assert forall m :: FailsOf(s', m) == FailsOf(s, m);
    UpsertAllKeepsSafety(s.machines, provider, list);
    EvidenceFrame(cfg, s, s');
  }

  /** The counters' bound and the history of checks, under everything but a probe. */
  lemma EnvGrows(cfg: Config, s: State, e: EnvAction)
    requires EvidenceInv(cfg, s) && EnvEnabled(s, e) && !e.SyncProvider? && !e.Crash?
    ensures Grows(s, ApplyEnv(s, e))
  {
    assert forall m :: FailsOf(ApplyEnv(s, e), m) == FailsOf(s, m);
  }

  lemma EvidenceInvEnv(cfg: Config, s: State, e: EnvAction)
    requires EvidenceInv(cfg, s) && EnvEnabled(s, e)
    ensures EvidenceInv(cfg, ApplyEnv(s, e))
  {
    match e
    case Crash => EvidenceInvCrash(cfg, s);
    case SyncProvider(provider, list) => EvidenceInvSync(cfg, s, provider, list);
    case _ =>
      EnvGrows(cfg, s, e);
      EvidenceFrame(cfg, s, ApplyEnv(s, e));
  }

  lemma ProbeGrows(cfg: Config, s: State, c: nat, work: CheckStep)
    requires EvidenceInv(cfg, s) && Enabled(s, Probe(c, work))
    ensures Grows(s, ApplyProbe(cfg, s, c, work))
  {
    assert CheckEvidence(FailsOf(s, s.checks[c].machine), s.checks[c]);
  }

  /** A check that concludes with a failing score raises the count past what it read. */
  lemma EvidenceInvProbe(cfg: Config, s: State, c: nat, work: CheckStep)
    requires EvidenceInv(cfg, s) && Enabled(s, Probe(c, work))
    ensures EvidenceInv(cfg, ApplyProbe(cfg, s, c, work))
  {
    var k := s.checks[c];
    assert CheckEvidence(FailsOf(s, k.machine), k);
    ProbeGrows(cfg, s, c, work);
    EvidenceFrame(cfg, s, ApplyProbe(cfg, s, c, work));
  }

  /** The attempt's own statement: nothing but Acquire, EndConfirm and ChangeIP adds evidence. */
  lemma LocalEvidence(cfg: Config, s: State, a: Attempt, step: Step)
    requires StepEnabled(s, a, step)
    ensures var a' := Local(cfg, s, a, step);
            && a'.failsAtSpawn == a.failsAtSpawn
            && (if step == Acquire && a'.pc == Locked then a'.failsAtLock == FailsOf(s, a.machine)
                else a'.failsAtLock == a.failsAtLock)
            && (if step.ChangeIP? then a'.called && a'.failsAtCall == FailsOf(s, a.machine)
                else a'.called == a.called && a'.failsAtCall == a.failsAtCall)
  {
  }

  lemma LocalAwaits(cfg: Config, s: State, a: Attempt, step: Step)
    requires StepEnabled(s, a, step)
    ensures var a' := Local(cfg, s, a, step);
            a'.pc == Confirming ==>
              if step == StartConfirm then a'.check == |s.checks| else a.pc == Confirming && a'.check == a.check
  {
  }

  lemma LocalConfirm(cfg: Config, s: State, a: Attempt, step: Step)
    requires StepEnabled(s, a, step) && a.trigger == Auto && cfg.requireConfirmation
    ensures PastConfirm(Local(cfg, s, a, step).pc) ==> PastConfirm(a.pc) || Confirmed(s.checks, a)
  {
  }

  predicate Confirmed(checks: seq<Check>, a: Attempt) {
    a.pc == Confirming && a.check < |checks| && checks[a.check].pc == Concluded && Health.Failing(checks[a.check].score)
  }

  /** The gates' evidence carries over to the attempt after the statement. */
  lemma EvidenceMoves(cfg: Config, s: State, a: Attempt, a': Attempt, step: Step)
    requires EvidenceInv(cfg, s) && StepEnabled(s, a, step)
    requires Awaits(s.checks, a) && AttemptEvidence(cfg, FailsOf(s, a.machine), a)
    requires a'.machine == a.machine && a'.failsAtSpawn == a.failsAtSpawn
    requires if step == Acquire && a'.pc == Locked then a'.failsAtLock == FailsOf(s, a.machine)
             else a'.failsAtLock == a.failsAtLock && (Critical(a') ==> Critical(a))
    requires if step.ChangeIP? then a'.called && a'.failsAtCall == FailsOf(s, a.machine)
             else a'.called == a.called && a'.failsAtCall == a.failsAtCall
    requires step.ChangeIP? ==> HoldsRow(a'.pc)
    requires HoldsRow(a.pc) || Left(a.pc) ==> HoldsRow(a'.pc) || Left(a'.pc)
    requires cfg.requireConfirmation && PastConfirm(a'.pc) ==> PastConfirm(a.pc) || Confirmed(s.checks, a)
    ensures AttemptEvidence(cfg, FailsOf(s, a.machine), a')
  {
    if Confirmed(s.checks, a) {
      assert CheckEvidence(FailsOf(s, s.checks[a.check].machine), s.checks[a.check]);
    }
  }

  lemma EvidenceOwn(cfg: Config, s: State, a: Attempt, step: Step)
    requires EvidenceInv(cfg, s) && StepEnabled(s, a, step) && a.trigger == Auto
    requires Awaits(s.checks, a) && AttemptEvidence(cfg, FailsOf(s, a.machine), a)
    ensures AttemptEvidence(cfg, FailsOf(s, a.machine), Local(cfg, s, a, step))
  {
    LocalKeeps(cfg, s, a, step);
    LocalEvidence(cfg, s, a, step);
    LocalHolds(cfg, s, a, step);
    if HoldsRow(a.pc) || Left(a.pc) {
      LocalKeepsColumns(cfg, s, a, step);
    }
    if cfg.requireConfirmation {
      LocalConfirm(cfg, s, a, step);
    }
    EvidenceMoves(cfg, s, a, Local(cfg, s, a, step), step);
  }

  /** A rotation's statements leave the counts alone, or zero one. */
  lemma CountersOwn(cfg: Config, s: State, i: nat, step: Step)
    requires EvidenceInv(cfg, s) && Enabled(s, Own(i, step))
    ensures var s' := ApplyOwn(cfg, s, i, step);
            && (forall m :: FailsOf(s', m) == FailsOf(s, m))
            && (forall m :: m in s'.machines ==> s'.machines[m].failures <= FailsOf(s, m))
  {
    assert ApplyOwn(cfg, s, i, step).machines == MachinesAfter(cfg, s, s.attempts[i], step);
  }

  /** A rotation's statements start at most one check. */
  lemma ChecksOwn(cfg: Config, s: State, i: nat, step: Step)
    requires EvidenceInv(cfg, s) && Enabled(s, Own(i, step))
    ensures var checks := ApplyOwn(cfg, s, i, step).checks;
            && |s.checks| <= |checks|
            && (forall c :: 0 <= c < |s.checks| ==> checks[c] == s.checks[c])
            && (forall c :: |s.checks| <= c < |checks| ==> CheckEvidence(FailsOf(s, checks[c].machine), checks[c]))
            && (step == StartConfirm ==> checks == s.checks + [NewCheck(s, s.attempts[i].machine, Some(i))])
  {
    assert ApplyOwn(cfg, s, i, step).checks == ChecksAfter(s, i, s.attempts[i], step);
  }

  lemma AttemptsOwn(cfg: Config, s: State, i: nat, step: Step)
    requires EvidenceInv(cfg, s) && Enabled(s, Own(i, step)) && s.attempts[i].trigger == Auto
    ensures var s' := ApplyOwn(cfg, s, i, step);
            && Awaits(s'.checks, s'.attempts[i])
            && AttemptEvidence(cfg, FailsOf(s, s'.attempts[i].machine), s'.attempts[i])
  {
    var a := s.attempts[i];
    LocalKeeps(cfg, s, a, step);
    LocalAwaits(cfg, s, a, step);
    LocalEvidence(cfg, s, a, step);
    EvidenceOwn(cfg, s, a, step);
    ChecksOwn(cfg, s, i, step);
    assert ApplyOwn(cfg, s, i, step).attempts[i] == Local(cfg, s, a, step);
  }

  lemma EvidenceInvOwn(cfg: Config, s: State, i: nat, step: Step)
    requires EvidenceInv(cfg, s) && Enabled(s, Own(i, step))
    ensures EvidenceInv(cfg, ApplyOwn(cfg, s, i, step))
  {
    var s' := ApplyOwn(cfg, s, i, step);
    LocalKeeps(cfg, s, s.attempts[i], step);
    if s.attempts[i].trigger == Auto {
      AttemptsOwn(cfg, s, i, step);
    }
    CountersOwn(cfg, s, i, step);
    ChecksOwn(cfg, s, i, step);
    assert s'.attempts == s.attempts[i := Local(cfg, s, s.attempts[i], step)];
    EvidenceFrame(cfg, s, s');
  }
}
