/** The safety rules of automatic rotation, over every run of the step system: every
    interleaving of rotations, checks, edits, synchronisations, cancellations and crashes. */
module Safety {
  import opened Options
  import opened Inventory
  import opened Rotation
  import opened Ledger
  import opened DailyCap
  import opened Cooldown
  import opened Evidence
  import Health

  ghost predicate Inv(cfg: Config, s: State) {
    LockInv(s) && RowInv(s) && CapInv(cfg, s) && CoolInv(cfg, s) && EvidenceInv(cfg, s)
  }

  lemma InitialInv(cfg: Config, now: int)
    ensures Inv(cfg, Initial(now))
  {
    forall m, day ensures WithinCap(cfg, |AutoOn(Initial(now).rows, m, day)|) {
      assert AutoOn(Initial(now).rows, m, day) == {};
    }
  }

  /** Every action of every goroutine keeps the invariant. */
  lemma InvPreserved(cfg: Config, s: State, act: Action)
    requires Inv(cfg, s) && Enabled(s, act)
    ensures Inv(cfg, Apply(cfg, s, act))
  {
    match act
    case Env(e) =>
      LockInvEnv(s, e);
      RowInvEnv(s, e);
      CapInvEnv(cfg, s, e);
      CoolInvEnv(cfg, s, e);
      EvidenceInvEnv(cfg, s, e);
    case Own(i, step) =>
      LockInvOwn(cfg, s, i, step);
      RowInvOwn(cfg, s, i, step);
      CapInvOwn(cfg, s, i, step);
      CoolInvOwn(cfg, s, i, step);
      EvidenceInvOwn(cfg, s, i, step);
    case Probe(c, work) =>
      LockInvProbe(cfg, s, c, work);
      RowInvProbe(cfg, s, c, work);
      CapInvProbe(cfg, s, c, work);
      CoolInvProbe(cfg, s, c, work);
      EvidenceInvProbe(cfg, s, c, work);
  }

  lemma {:induction false} RunInv(cfg: Config, states: seq<State>, acts: seq<Action>, k: nat)
    requires IsRun(cfg, states, acts) && k < |states|
    ensures Inv(cfg, states[k])
  {
    if k == 0 {
      InitialInv(cfg, states[0].now);
    } else {
      RunInv(cfg, states, acts, k - 1);
      assert StepAt(cfg, states, acts, k - 1);
      InvPreserved(cfg, states[k - 1], acts[k - 1]);
    }
  }

  // ----- mutual exclusion -----

  ghost predicate Inside(s: State, i: int, m: MachineId) {
    0 <= i < |s.attempts| && Critical(s.attempts[i]) && s.attempts[i].machine == m
  }

  /** A machine is in the lock map exactly while one attempt, and only one, is between taking
      and leaving it. */
  lemma MutualExclusion(cfg: Config, states: seq<State>, acts: seq<Action>, k: nat, m: MachineId)
    requires IsRun(cfg, states, acts) && k < |states|
    ensures m in states[k].locks <==> exists i :: Inside(states[k], i, m)
    ensures forall i, j :: Inside(states[k], i, m) && Inside(states[k], j, m) ==> i == j
  {
    RunInv(cfg, states, acts, k);
    if m in states[k].locks {
      assert Inside(states[k], states[k].locks[m], m);
    }
  }

  // ----- the ledger -----

  /** Every row's status tells where its attempt is; a row stays `Running` outside its critical
      section only after a crash or a manual cancellation once the new address was known. */
  lemma LedgerTellsTheTruth(cfg: Config, states: seq<State>, acts: seq<Action>, k: nat, r: nat)
    requires IsRun(cfg, states, acts) && k < |states| && r < |states[k].rows|
    ensures var s := states[k];
            var row := s.rows[r];
            row.author < |s.attempts| &&
            var a := s.attempts[row.author];
            && (row.status == Running ==>
                  || Critical(a)
                  || a.pc == Crashed
                  || (row.trigger == Manual && a.ctx == Cancelled(true) && a.newIP != ""))
            && (row.status == Completed ==> row.newIP != "" && row.newIP != row.oldIP)
            && (row.status != Running ==> Left(a.pc))
  {
    RunInv(cfg, states, acts, k);
    var s := states[k];
    assert RowOk(r, s.rows[r], s.attempts[s.rows[r].author]);
  }

  /** One attempt writes one row. */
  lemma OneRowPerAttempt(cfg: Config, states: seq<State>, acts: seq<Action>, k: nat, r: nat, q: nat)
    requires IsRun(cfg, states, acts) && k < |states| && r < |states[k].rows| && q < |states[k].rows|
    requires states[k].rows[r].author == states[k].rows[q].author
    ensures r == q
  {
    RunInv(cfg, states, acts, k);
    var s := states[k];
    assert RowOk(r, s.rows[r], s.attempts[s.rows[r].author]);
    assert RowOk(q, s.rows[q], s.attempts[s.rows[q].author]);
  }

  /** A final row may change at most its DNS status. */
  ghost predicate FinalKept(s: State, s': State, r: nat) {
    r < |s.rows| && s.rows[r].status != Running ==>
      r < |s'.rows| && s'.rows[r] == s.rows[r].(dns := s'.rows[r].dns)
  }

  /** A rotation's statement rewrites a row only if the row is running and the attempt's own. */
  lemma RowsKept(s: State, i: nat, a: Attempt, step: Step, r: nat)
    requires StepEnabled(s, a, step) && r < |s.rows|
    requires HoldsRow(a.pc) ==> a.row != r
    ensures r < |RowsAfter(s, i, a, step)| && RowsAfter(s, i, a, step)[r] == s.rows[r]
  {
  }

  lemma FinalOwn(cfg: Config, s: State, i: nat, step: Step, r: nat)
    requires RowInv(s) && Enabled(s, Own(i, step))
    ensures FinalKept(s, ApplyOwn(cfg, s, i, step), r)
  {
    var a := s.attempts[i];
    assert HoldsRow(a.pc) ==> s.rows[a.row].status == Running;
    assert RowsAfter(s, i, a, step) == ApplyOwn(cfg, s, i, step).rows;
    if r < |s.rows| && s.rows[r].status != Running {
      RowsKept(s, i, a, step, r);
    }
  }

  lemma FinalEnv(s: State, e: EnvAction, r: nat)
    requires EnvEnabled(s, e)
    ensures FinalKept(s, ApplyEnv(s, e), r)
  {
  }

  lemma FinalStep(cfg: Config, s: State, act: Action, r: nat)
    requires RowInv(s) && Enabled(s, act)
    ensures FinalKept(s, Apply(cfg, s, act), r)
  {
    match act
    case Own(i, step) => FinalOwn(cfg, s, i, step, r);
    case Env(e) => FinalEnv(s, e, r);
    case Probe(c, work) => assert ApplyProbe(cfg, s, c, work).rows == s.rows;
  }

  lemma {:induction false} FinalChain(states: seq<State>, n: nat, k: nat, r: nat)
    requires n <= k < |states|
    requires forall j :: n <= j < k ==> FinalKept(states[j], states[j + 1], r)
    ensures FinalKept(states[n], states[k], r)
  {
    if n < k {
      FinalChain(states, n, k - 1, r);
      assert FinalKept(states[k - 1], states[k - 1 + 1], r);
    }
  }

  /** `Completed` and `Failed` are final on every run. */
  lemma FinalIsForever(cfg: Config, states: seq<State>, acts: seq<Action>, n: nat, k: nat, r: nat)
    requires IsRun(cfg, states, acts) && n <= k < |states|
    ensures FinalKept(states[n], states[k], r)
  {
    forall j | n <= j < k ensures FinalKept(states[j], states[j + 1], r) {
      RunInv(cfg, states, acts, j);
      assert StepAt(cfg, states, acts, j);
      FinalStep(cfg, states[j], acts[j], r);
    }
    FinalChain(states, n, k, r);
  }

  // ----- what others write -----

  /** The rows after an administrator's, an agent's or the environment's action. A new machine has the
      schema's defaults; an edit keeps counters, health and cooldown; a heartbeat replaces an address
      by one that is not empty; a retry marks the row's DNS completed. */
  lemma OthersWrite(s: State, e: EnvAction)
    requires EnvEnabled(s, e)
    ensures var s' := ApplyEnv(s, e);
            match e
            case CreateMachine(id, profile, auto) =>
              s'.machines == s.machines[id := Machine(profile, auto, Unknown, 0, 0, None, None)] && s'.rows == s.rows
            case DeleteMachine(id) => s'.machines == s.machines - {id} && s'.rows == s.rows
            case EditMachine(id, profile, auto) =>
              s'.machines == s.machines[id := s.machines[id].(profile := profile, autoRotate := auto)] && s'.rows == s.rows
            case Heartbeat(id, ipv4, ipv6) =>
              var x := s.machines[id];
              && s'.rows == s.rows
              && s'.machines == s.machines[id := x.(profile := x.profile.(
                                                      ipv4 := if ipv4 == "" then x.profile.ipv4 else ipv4,
                                                      ipv6 := if ipv6 == "" then x.profile.ipv6 else ipv6))]
            case RetryDNS(r) => s'.machines == s.machines && s'.rows == s.rows[r := s.rows[r].(dns := DnsCompleted)]
            case SyncProvider(provider, list) => s'.machines == UpsertAll(s.machines, provider, list) && s'.rows == s.rows
            case Crash => s'.machines == s.machines && s'.rows == s.rows && s'.locks == map[]
            case _ => s'.machines == s.machines && s'.rows == s.rows && s'.locks == s.locks
  {
  }

  // ----- the daily cap -----

  /** The automatic rotations of a machine that completed and whose `started_at` falls on one UTC
      day never exceed `MaxRotationsPerDay`. */
  lemma DailyCapHolds(cfg: Config, states: seq<State>, acts: seq<Action>, k: nat, m: MachineId, day: int)
    requires IsRun(cfg, states, acts) && k < |states|
    ensures var rows := states[k].rows;
            var n := |set r: nat | r < |rows| && rows[r].machine == m && rows[r].status == Completed && rows[r].trigger == Auto
                                   && rows[r].started / 86400 == day|;
            n <= cfg.maxRotationsPerDay || n == 0
  {
    RunInv(cfg, states, acts, k);
    var rows := states[k].rows;
    assert WithinCap(cfg, |AutoOn(rows, m, day)|);
    assert AutoOn(rows, m, day) ==
           set r: nat | r < |rows| && rows[r].machine == m && rows[r].status == Completed && rows[r].trigger == Auto
                        && rows[r].started / 86400 == day;
  }

  // ----- the cooldown -----

  /** The machine stays, and its stored cooldown does not decrease. */
  ghost predicate CooldownKept(s: State, s': State, m: MachineId) {
    m in s.machines ==>
      && m in s'.machines
      && (Stored(s, m).Some? ==> AtLeast(Stored(s', m), Stored(s, m).value))
  }

  lemma CooldownEnv(s: State, e: EnvAction, m: MachineId)
    requires EnvEnabled(s, e) && e != DeleteMachine(m)
    ensures CooldownKept(s, ApplyEnv(s, e), m)
  {
    match e
    case SyncProvider(provider, list) => UpsertAllKeepsSafety(s.machines, provider, list);
    case _ =>
  }

  lemma CooldownOwn(cfg: Config, s: State, i: nat, step: Step, m: MachineId)
    requires CoolInv(cfg, s) && Enabled(s, Own(i, step))
    ensures CooldownKept(s, ApplyOwn(cfg, s, i, step), m)
  {
    assert CoolOk(cfg, s, s.attempts[i]);
    assert ApplyOwn(cfg, s, i, step).machines == MachinesAfter(cfg, s, s.attempts[i], step);
  }

  lemma CooldownStep(cfg: Config, s: State, act: Action, m: MachineId)
    requires Inv(cfg, s) && Enabled(s, act) && act != Env(DeleteMachine(m))
    ensures CooldownKept(s, Apply(cfg, s, act), m)
  {
    match act
    case Env(e) => CooldownEnv(s, e, m);
    case Own(i, step) => CooldownOwn(cfg, s, i, step, m);
    case Probe(_, _) =>
  }

  lemma {:induction false} CooldownChain(states: seq<State>, n: nat, k: nat, m: MachineId)
    requires n <= k < |states|
    requires forall j :: n <= j < k ==> CooldownKept(states[j], states[j + 1], m)
    ensures CooldownKept(states[n], states[k], m)
  {
    if n < k {
      CooldownChain(states, n, k - 1, m);
      assert CooldownKept(states[k - 1], states[k - 1 + 1], m);
    }
  }

  predicate NotDeleted(acts: seq<Action>, n: nat, k: nat, m: MachineId)
    requires n <= k <= |acts|
  {
    forall j :: n <= j < k ==> acts[j] != Env(DeleteMachine(m))
  }

  /** While a machine is not deleted its stored cooldown never decreases. */
  lemma CooldownNeverDecreases(cfg: Config, states: seq<State>, acts: seq<Action>, n: nat, k: nat, m: MachineId)
    requires IsRun(cfg, states, acts) && n <= k < |states| && NotDeleted(acts, n, k, m)
    ensures CooldownKept(states[n], states[k], m)
  {
    forall j | n <= j < k ensures CooldownKept(states[j], states[j + 1], m) {
      RunInv(cfg, states, acts, j);
      assert StepAt(cfg, states, acts, j);
      CooldownStep(cfg, states[j], acts[j], m);
    }
    CooldownChain(states, n, k, m);
  }

  /** The machine row was updated for the rotation of row `r`. */
  ghost predicate Updates(cfg: Config, s: State, act: Action, r: nat, m: MachineId) {
    && act.Own? && act.step == WriteMachine && Enabled(s, act)
    && s.attempts[act.i].ctx.Live? && s.attempts[act.i].row == r && s.attempts[act.i].machine == m
    && m in s.machines
  }

  /** The attempt has read the cooldown since it took the lock and passes the gate with it. */
  ghost predicate PassesGate(cfg: Config, s: State, act: Action, m: MachineId) {
    && act.Own? && act.step == PassGate && Enabled(s, act)
    && s.attempts[act.i].machine == m && Apply(cfg, s, act).attempts[act.i].pc == ReadDay
  }

  /** `RotationCooldown` after an instant, less the fraction of a second the stamp drops. */
  lemma ExpiryBounds(cfg: Config, at: int, now: int)
    requires !BeforeStamp(now, Expiry(cfg, at))
    ensures now > at + cfg.rotationCooldown - SECOND
  {
  }

  /** At the gate: every rotation whose machine update the present machine row has seen lies
      more than `RotationCooldown` minus one second back. */
  lemma GateSpacing(cfg: Config, s: State, act: Action, r: nat, m: MachineId)
    requires Inv(cfg, s) && PassesGate(cfg, s, act, m)
    requires r in s.commits && r < |s.rows| && s.rows[r].machine == m
    ensures s.now > s.commits[r] + cfg.rotationCooldown - 1_000_000_000
  {
    assert CoolOk(cfg, s, s.attempts[act.i]);
    ExpiryBounds(cfg, s.commits[r], s.now);
  }

  /** The update for row `r` is on record, and its attempt will not update again. */
  ghost predicate OnRecord(s: State, r: nat, m: MachineId, at: int) {
    && r in s.commits && s.commits[r] == at
    && r < |s.rows| && s.rows[r].machine == m && s.rows[r].author < |s.attempts|
    && (PastWrite(s.attempts[s.rows[r].author].pc) || Left(s.attempts[s.rows[r].author].pc))
  }

  lemma LocalLater(cfg: Config, s: State, a: Attempt, step: Step)
    requires StepEnabled(s, a, step) && (PastWrite(a.pc) || Left(a.pc))
    ensures var a' := Local(cfg, s, a, step); PastWrite(a'.pc) || Left(a'.pc)
  {
  }

  /** The record, the row and its attempt's place are as they were, or later. */
  lemma OnRecordKept(s: State, s': State, r: nat, m: MachineId, at: int)
    requires OnRecord(s, r, m, at)
    requires r in s'.commits && s'.commits[r] == s.commits[r]
    requires r < |s'.rows| && s'.rows[r].machine == s.rows[r].machine && s'.rows[r].author == s.rows[r].author
    requires |s.attempts| <= |s'.attempts|
    requires var pc := s'.attempts[s.rows[r].author].pc; PastWrite(pc) || Left(pc)
    ensures OnRecord(s', r, m, at)
  {
  }

  lemma RowColumnsOwn(cfg: Config, s: State, i: nat, step: Step, r: nat)
    requires Enabled(s, Own(i, step)) && r < |s.rows|
    ensures var rows := ApplyOwn(cfg, s, i, step).rows;
            r < |rows| && rows[r].machine == s.rows[r].machine && rows[r].author == s.rows[r].author
  {
    assert ApplyOwn(cfg, s, i, step).rows == RowsAfter(s, i, s.attempts[i], step);
  }

  /** Only the attempt that wrote the row, while it is about to update the machine row, records. */
  lemma CommitsOwn(cfg: Config, s: State, i: nat, step: Step, r: nat)
    requires RowInv(s) && Enabled(s, Own(i, step)) && r in s.commits
    requires r < |s.rows| && s.rows[r].author < |s.attempts| && s.attempts[s.rows[r].author].pc != Write
    ensures var commits := ApplyOwn(cfg, s, i, step).commits; r in commits && commits[r] == s.commits[r]
  {
    var a := s.attempts[i];
    assert ApplyOwn(cfg, s, i, step).commits == CommitsAfter(s, a, step);
    assert HoldsRow(a.pc) ==> s.rows[a.row].author == i;
  }

  lemma OnRecordOwn(cfg: Config, s: State, i: nat, step: Step, r: nat, m: MachineId, at: int)
    requires RowInv(s) && OnRecord(s, r, m, at) && Enabled(s, Own(i, step))
    ensures OnRecord(ApplyOwn(cfg, s, i, step), r, m, at)
  {
    var s' := ApplyOwn(cfg, s, i, step);
    assert s'.attempts == s.attempts[i := Local(cfg, s, s.attempts[i], step)];
    if s.rows[r].author == i {
      LocalLater(cfg, s, s.attempts[i], step);
    }
    RowColumnsOwn(cfg, s, i, step, r);
    CommitsOwn(cfg, s, i, step, r);
    OnRecordKept(s, s', r, m, at);
  }

  lemma OnRecordEnv(s: State, e: EnvAction, r: nat, m: MachineId, at: int)
    requires OnRecord(s, r, m, at) && EnvEnabled(s, e) && e != DeleteMachine(m)
    ensures OnRecord(ApplyEnv(s, e), r, m, at)
  {
    OnRecordKept(s, ApplyEnv(s, e), r, m, at);
  }

  lemma OnRecordProbe(cfg: Config, s: State, c: nat, work: CheckStep, r: nat, m: MachineId, at: int)
    requires OnRecord(s, r, m, at) && Enabled(s, Probe(c, work))
    ensures OnRecord(ApplyProbe(cfg, s, c, work), r, m, at)
  {
    OnRecordKept(s, ApplyProbe(cfg, s, c, work), r, m, at);
  }

  lemma OnRecordStep(cfg: Config, s: State, act: Action, r: nat, m: MachineId, at: int)
    requires RowInv(s) && OnRecord(s, r, m, at) && Enabled(s, act) && act != Env(DeleteMachine(m))
    ensures OnRecord(Apply(cfg, s, act), r, m, at)
  {
    match act
    case Env(e) => OnRecordEnv(s, e, r, m, at);
    case Own(i, step) => OnRecordOwn(cfg, s, i, step, r, m, at);
    case Probe(c, work) => OnRecordProbe(cfg, s, c, work, r, m, at);
  }

  lemma {:induction false} OnRecordChain(cfg: Config, states: seq<State>, acts: seq<Action>, n: nat, k: nat,
                                         r: nat, m: MachineId, at: int)
    requires IsRun(cfg, states, acts) && n <= k < |states| && NotDeleted(acts, n, k, m)
    requires OnRecord(states[n], r, m, at)
    ensures OnRecord(states[k], r, m, at)
  {
    if n < k {
      RunInv(cfg, states, acts, k - 1);
      assert StepAt(cfg, states, acts, k - 1);
      OnRecordChain(cfg, states, acts, n, k - 1, r, m, at);
      OnRecordStep(cfg, states[k - 1], acts[k - 1], r, m, at);
    }
  }

  lemma UpdateIsOnRecord(cfg: Config, s: State, act: Action, r: nat, m: MachineId)
    requires RowInv(s) && Updates(cfg, s, act, r, m)
    ensures OnRecord(Apply(cfg, s, act), r, m, s.attempts[act.i].stamp)
  {
    var a := s.attempts[act.i];
    var s' := ApplyOwn(cfg, s, act.i, WriteMachine);
    assert RowOk(r, s.rows[r], a);
    assert s'.commits == s.commits[r := a.stamp] && s'.rows == s.rows;
    assert s'.attempts[act.i].pc == Sync;
  }

  /** An automatic attempt that passes the cooldown gate does so more than `RotationCooldown`
      minus one second after the cooldown instant of every earlier rotation of the machine,
      manual or automatic, that updated the machine row, unless the machine was deleted between. */
  lemma CooldownSpacing(cfg: Config, states: seq<State>, acts: seq<Action>, n: nat, k: nat, r: nat, m: MachineId)
    requires IsRun(cfg, states, acts) && n < k < |acts|
    requires Updates(cfg, states[n], acts[n], r, m) && NotDeleted(acts, n + 1, k, m)
    requires PassesGate(cfg, states[k], acts[k], m)
    ensures states[k].now > states[n].attempts[acts[n].i].stamp + cfg.rotationCooldown - 1_000_000_000
  {
    var at := states[n].attempts[acts[n].i].stamp;
    RunInv(cfg, states, acts, n);
    assert StepAt(cfg, states, acts, n);
    UpdateIsOnRecord(cfg, states[n], acts[n], r, m);
    OnRecordChain(cfg, states, acts, n + 1, k, r, m, at);
    RunInv(cfg, states, acts, k);
    GateSpacing(cfg, states[k], acts[k], r, m);
  }

  /** A completed rotation did store its cooldown, unless its machine was missing then or has
      been deleted since. */
  lemma CompletedSetsCooldown(cfg: Config, states: seq<State>, acts: seq<Action>, k: nat, r: nat)
    requires IsRun(cfg, states, acts) && k < |states| && r < |states[k].rows|
    requires states[k].rows[r].status == Completed && r !in states[k].detached
    ensures var s := states[k];
            r in s.commits && s.rows[r].machine in s.machines
            && var until := s.machines[s.rows[r].machine].cooldownUntil;
               until.Some? && until.value >= (s.commits[r] + cfg.rotationCooldown) / 1_000_000_000
  {
    RunInv(cfg, states, acts, k);
    assert CommittedOrDetached(states[k], r);
    assert CommitOk(cfg, states[k], r);
  }

  // ----- evidence before action -----

  /** The failing checks of a machine that concluded within the first `n` actions. */
  ghost function FailingChecks(states: seq<State>, acts: seq<Action>, n: nat, m: MachineId): nat
    requires n <= |acts| < |states|
  {
    if n == 0 then 0
    else FailingChecks(states, acts, n - 1, m) + (if ConcludesFailing(states[n - 1], acts[n - 1], m) then 1 else 0)
  }

  predicate ConcludesFailing(s: State, act: Action, m: MachineId) {
    && act.Probe? && act.work == WriteCounters && act.c < |s.checks|
    && s.checks[act.c].machine == m && Health.Failing(s.checks[act.c].score)
  }

  lemma FailsStep(cfg: Config, s: State, act: Action, m: MachineId)
    requires Enabled(s, act)
    ensures FailsOf(Apply(cfg, s, act), m) == FailsOf(s, m) + (if ConcludesFailing(s, act, m) then 1 else 0)
  {
  }

  lemma {:induction false} FailsCountsFailingChecks(cfg: Config, states: seq<State>, acts: seq<Action>, n: nat, m: MachineId)
    requires IsRun(cfg, states, acts) && n <= |acts|
    ensures FailsOf(states[n], m) == FailingChecks(states, acts, n, m)
  {
    if n > 0 {
      FailsCountsFailingChecks(cfg, states, acts, n - 1, m);
      assert StepAt(cfg, states, acts, n - 1);
      FailsStep(cfg, states[n - 1], acts[n - 1], m);
    }
  }

  /** The stored failure count never exceeds the failing checks concluded so far, however many
      concurrent checks read and write it. */
  lemma FailureCountIsEvidence(cfg: Config, states: seq<State>, acts: seq<Action>, k: nat, m: MachineId)
    requires IsRun(cfg, states, acts) && k <= |acts| && m in states[k].machines
    ensures states[k].machines[m].failures <= FailingChecks(states, acts, k, m)
  {
    RunInv(cfg, states, acts, k);
    FailsCountsFailingChecks(cfg, states, acts, k, m);
  }

  /** Whenever an automatic attempt calls ChangeIP, at least `FailureThreshold` failing checks of
      its machine have concluded (at least one if the threshold is lower), and one more when
      confirmation is required. */
  lemma EvidenceBeforeChangeIP(cfg: Config, states: seq<State>, acts: seq<Action>, k: nat, i: nat, ok: bool)
    requires IsRun(cfg, states, acts) && k < |acts| && acts[k] == Own(i, ChangeIP(ok))
    requires i < |states[k].attempts| && states[k].attempts[i].trigger == Auto
    ensures FailingChecks(states, acts, k, states[k].attempts[i].machine) >=
            (if cfg.failureThreshold >= 1 then cfg.failureThreshold else 1) + (if cfg.requireConfirmation then 1 else 0)
  {
    RunInv(cfg, states, acts, k);
    assert StepAt(cfg, states, acts, k);
    var a := states[k].attempts[i];
    assert AttemptEvidence(cfg, FailsOf(states[k], a.machine), a);
    FailsCountsFailingChecks(cfg, states, acts, k, a.machine);
  }
}
