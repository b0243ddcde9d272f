/** The health counters on runs of the step system: checks that do not overlap leave the fold of
    their outcomes, and the first check after a rotation starts from zero. */
module HealthRuns {
  import opened Inventory
  import opened Health
  import opened HealthMeaning
  import opened Rotation
  import Safety

  function CountersOf(s: State, m: MachineId): Counters
    requires m in s.machines
  {
    Counters(s.machines[m].failures, s.machines[m].successes)
  }

  /** The action concludes a check of the machine. */
  predicate Concludes(s: State, act: Action, m: MachineId) {
    act.Probe? && act.work == WriteCounters && act.c < |s.checks| && s.checks[act.c].machine == m
  }

  /** The action deletes the machine or writes its row after a rotation. */
  predicate Resets(s: State, act: Action, m: MachineId) {
    || act == Env(DeleteMachine(m))
    || (act.Own? && act.step == WriteMachine && act.i < |s.attempts| && s.attempts[act.i].machine == m)
  }

  // ----- what changes the counters -----

  lemma CountersOwn(cfg: Config, s: State, i: nat, step: Step, m: MachineId)
    requires Enabled(s, Own(i, step)) && !Resets(s, Own(i, step), m)
    ensures var s' := ApplyOwn(cfg, s, i, step);
            (m in s'.machines <==> m in s.machines) && (m in s.machines ==> s'.machines[m] == s.machines[m])
  {
    assert ApplyOwn(cfg, s, i, step).machines == MachinesAfter(cfg, s, s.attempts[i], step);
  }

  lemma CountersEnv(s: State, e: EnvAction, m: MachineId)
    requires EnvEnabled(s, e) && e != DeleteMachine(m) && m in s.machines
    ensures m in ApplyEnv(s, e).machines && CountersOf(ApplyEnv(s, e), m) == CountersOf(s, m)
  {
    match e
    case SyncProvider(provider, list) => UpsertAllKeepsSafety(s.machines, provider, list);
    case _ =>
  }

  lemma CountersProbe(cfg: Config, s: State, c: nat, work: CheckStep, m: MachineId)
    requires Enabled(s, Probe(c, work)) && !Concludes(s, Probe(c, work), m)
    ensures var s' := ApplyProbe(cfg, s, c, work);
            (m in s'.machines <==> m in s.machines) && (m in s.machines ==> s'.machines[m] == s.machines[m])
  {
  }

  lemma CountersStay(cfg: Config, s: State, act: Action, m: MachineId)
    requires Enabled(s, act) && m in s.machines && !Concludes(s, act, m) && !Resets(s, act, m)
    ensures m in Apply(cfg, s, act).machines && CountersOf(Apply(cfg, s, act), m) == CountersOf(s, m)
  {
    match act
    case Env(e) => CountersEnv(s, e, m);
    case Own(i, step) => CountersOwn(cfg, s, i, step, m);
    case Probe(c, work) => CountersProbe(cfg, s, c, work, m);
  }

  // ----- a check between its read and its write -----

  predicate HasRead(pc: CheckPC) {
    pc == Writing || pc == Concluded || pc == Killed
  }

  predicate SameRead(k: Check, k': Check) {
    HasRead(k'.pc) && k'.read == k.read && k'.machine == k.machine && k'.score == k.score
  }

  lemma ReadKeptOwn(cfg: Config, s: State, i: nat, step: Step, c: nat)
    requires Enabled(s, Own(i, step)) && c < |s.checks| && HasRead(s.checks[c].pc)
    ensures c < |ApplyOwn(cfg, s, i, step).checks| && SameRead(s.checks[c], ApplyOwn(cfg, s, i, step).checks[c])
  {
    assert ApplyOwn(cfg, s, i, step).checks == ChecksAfter(s, i, s.attempts[i], step);
  }

  lemma ReadKeptEnv(s: State, e: EnvAction, c: nat)
    requires EnvEnabled(s, e) && c < |s.checks| && HasRead(s.checks[c].pc)
    ensures c < |ApplyEnv(s, e).checks| && SameRead(s.checks[c], ApplyEnv(s, e).checks[c])
  {
  }

  lemma ReadKeptProbe(cfg: Config, s: State, b: nat, work: CheckStep, c: nat)
    requires Enabled(s, Probe(b, work)) && c < |s.checks| && HasRead(s.checks[c].pc)
    ensures c < |ApplyProbe(cfg, s, b, work).checks| && SameRead(s.checks[c], ApplyProbe(cfg, s, b, work).checks[c])
  {
  }

  lemma ReadKept(cfg: Config, s: State, act: Action, c: nat)
    requires Enabled(s, act) && c < |s.checks| && HasRead(s.checks[c].pc)
    ensures c < |Apply(cfg, s, act).checks| && SameRead(s.checks[c], Apply(cfg, s, act).checks[c])
  {
    match act
    case Own(i, step) => ReadKeptOwn(cfg, s, i, step, c);
    case Env(e) => ReadKeptEnv(s, e, c);
    case Probe(b, work) => ReadKeptProbe(cfg, s, b, work, c);
  }

  /** The check reads the counters of its machine, which is there, under a live request. */
  predicate ReadsLive(s: State, act: Action, c: nat, m: MachineId) {
    && act == Probe(c, ReadCounters) && Enabled(s, act)
    && s.checks[c].machine == m && m in s.machines && !ContextDone(s, s.checks[c])
  }

  /** The check reads at `p` and writes at `q` under a live request, and between the two no other check
      of the machine concludes and its row is neither deleted nor reset. */
  ghost predicate Undisturbed(states: seq<State>, acts: seq<Action>, p: nat, q: nat, c: nat, m: MachineId)
    requires |acts| < |states|
  {
    && p < q < |acts| && ReadsLive(states[p], acts[p], c, m)
    && acts[q] == Probe(c, WriteCounters) && c < |states[q].checks| && !ContextDone(states[q], states[q].checks[c])
    && forall j :: p < j < q ==> !Concludes(states[j], acts[j], m) && !Resets(states[j], acts[j], m)
  }

  lemma ReadStep(cfg: Config, s: State, act: Action, c: nat, m: MachineId)
    requires ReadsLive(s, act, c, m)
    ensures var s' := Apply(cfg, s, act);
            && c < |s'.checks| && HasRead(s'.checks[c].pc) && s'.checks[c].machine == m
            && m in s'.machines && s'.checks[c].read == CountersOf(s', m)
  {
  }

  /** What the check has read is still what the row holds. */
  lemma {:induction false} ReadIsCurrent(cfg: Config, states: seq<State>, acts: seq<Action>, p: nat, q: nat, c: nat, m: MachineId)
    requires IsRun(cfg, states, acts) && p < q <= |acts| && ReadsLive(states[p], acts[p], c, m)
    requires forall j :: p < j < q ==> !Concludes(states[j], acts[j], m) && !Resets(states[j], acts[j], m)
    ensures m in states[q].machines && c < |states[q].checks| && states[q].checks[c].machine == m
    ensures HasRead(states[q].checks[c].pc) && states[q].checks[c].read == CountersOf(states[q], m)
    decreases q
  {
    assert StepAt(cfg, states, acts, q - 1);
    if p == q - 1 {
      ReadStep(cfg, states[p], acts[p], c, m);
    } else {
      ReadIsCurrent(cfg, states, acts, p, q - 1, c, m);
      CountersStay(cfg, states[q - 1], acts[q - 1], m);
      ReadKept(cfg, states[q - 1], acts[q - 1], c);
    }
  }

  // ----- sequential histories -----

  /** From the `n`-th action up to the `k`-th, every check of the machine that concludes is undisturbed,
      and the row is neither deleted nor reset. */
  ghost predicate Sequential(states: seq<State>, acts: seq<Action>, n: nat, k: nat, m: MachineId)
    requires n <= k <= |acts| < |states|
  {
    forall q :: n <= q < k ==> !Resets(states[q], acts[q], m) && (Concludes(states[q], acts[q], m) ==> InOrder(states, acts, n, q, m))
  }

  ghost predicate InOrder(states: seq<State>, acts: seq<Action>, n: nat, q: nat, m: MachineId)
    requires q < |acts| < |states|
  {
    acts[q].Probe? && exists p :: n <= p < q && Undisturbed(states, acts, p, q, acts[q].c, m)
  }

  /** The outcomes of the machine's checks that conclude from the `n`-th action up to the `k`-th. */
  ghost function HistoryOf(states: seq<State>, acts: seq<Action>, n: nat, k: nat, m: MachineId): History
    requires n <= k <= |acts| < |states|
  {
    if n == k then []
    else HistoryOf(states, acts, n, k - 1, m)
         + (if Concludes(states[k - 1], acts[k - 1], m) then [Failing(states[k - 1].checks[acts[k - 1].c].score)] else [])
  }

  lemma WriteStep(cfg: Config, s: State, c: nat, m: MachineId)
    requires Enabled(s, Probe(c, WriteCounters)) && s.checks[c].machine == m && m in s.machines && !ContextDone(s, s.checks[c])
    ensures var k, s' := s.checks[c], ApplyProbe(cfg, s, c, WriteCounters);
            && m in s'.machines && CountersOf(s', m) == Advance(k.read, Failing(k.score), cfg.successRecovery)
            && s'.machines[m].health == Verdict(CountersOf(s', m), Failing(k.score), cfg.failureThreshold)
            && VerdictOf(cfg, k) == s'.machines[m].health
  {
  }

  lemma FoldAppend(h: History, failing: bool, recovery: int)
    ensures Fold(h + [failing], recovery) == Advance(Fold(h, recovery), failing, recovery)
  {
    assert (h + [failing])[..|h + [failing]| - 1] == h;
  }

  /** A check that does not overlap another advances what the row holds. */
  lemma AdvancesRow(cfg: Config, states: seq<State>, acts: seq<Action>, n: nat, q: nat, m: MachineId)
    requires IsRun(cfg, states, acts) && n <= q < |acts| && Concludes(states[q], acts[q], m)
    requires m in states[q].machines && InOrder(states, acts, n, q, m)
    ensures m in states[q + 1].machines
    ensures CountersOf(states[q + 1], m) ==
            Advance(CountersOf(states[q], m), Failing(states[q].checks[acts[q].c].score), cfg.successRecovery)
    ensures VerdictOf(cfg, states[q].checks[acts[q].c]) == states[q + 1].machines[m].health ==
            Verdict(CountersOf(states[q + 1], m), Failing(states[q].checks[acts[q].c].score), cfg.failureThreshold)
  {
    var c := acts[q].c;
    assert StepAt(cfg, states, acts, q);
    var p :| n <= p < q && Undisturbed(states, acts, p, q, c, m);
    ReadIsCurrent(cfg, states, acts, p, q, c, m);
    WriteStep(cfg, states[q], c, m);
  }

  /** Checks that do not overlap leave counters equal to the fold of their outcomes. */
  lemma {:induction false} CountersAreFold(cfg: Config, states: seq<State>, acts: seq<Action>, n: nat, k: nat, m: MachineId)
    requires IsRun(cfg, states, acts) && n <= k <= |acts| && Sequential(states, acts, n, k, m)
    requires m in states[n].machines && CountersOf(states[n], m) == Counters(0, 0)
    ensures m in states[k].machines
    ensures CountersOf(states[k], m) == Fold(HistoryOf(states, acts, n, k, m), cfg.successRecovery)
  {
    if n < k {
      var s, act := states[k - 1], acts[k - 1];
      CountersAreFold(cfg, states, acts, n, k - 1, m);
      assert StepAt(cfg, states, acts, k - 1);
      if Concludes(s, act, m) {
        assert InOrder(states, acts, n, k - 1, m);
        AdvancesRow(cfg, states, acts, n, k - 1, m);
        FoldAppend(HistoryOf(states, acts, n, k - 1, m), Failing(s.checks[act.c].score), cfg.successRecovery);
      } else {
        CountersStay(cfg, s, act, m);
        assert HistoryOf(states, acts, n, k, m) == HistoryOf(states, acts, n, k - 1, m);
      }
    }
  }

  /** The verdict of each such check, stored and acted upon, is that of the history so far. */
  lemma VerdictIsFinal(cfg: Config, states: seq<State>, acts: seq<Action>, n: nat, q: nat, m: MachineId)
    requires IsRun(cfg, states, acts) && n <= q < |acts| && Sequential(states, acts, n, q + 1, m)
    requires m in states[n].machines && CountersOf(states[n], m) == Counters(0, 0) && Concludes(states[q], acts[q], m)
    ensures var h := HistoryOf(states, acts, n, q + 1, m);
            && h != [] && m in states[q + 1].machines
            && VerdictOf(cfg, states[q].checks[acts[q].c]) == Final(h, cfg.failureThreshold, cfg.successRecovery)
            && states[q + 1].machines[m].health == Final(h, cfg.failureThreshold, cfg.successRecovery)
  {
    CountersAreFold(cfg, states, acts, n, q, m);
    CountersAreFold(cfg, states, acts, n, q + 1, m);
    assert InOrder(states, acts, n, q, m);
    AdvancesRow(cfg, states, acts, n, q, m);
  }

  // ----- after a rotation -----

  /** The row's counters are zero, and so is what a check numbered from `base` on is about to advance. */
  ghost predicate Zeroed(s: State, m: MachineId, base: nat) {
    && (m in s.machines ==> CountersOf(s, m) == Counters(0, 0))
    && forall c :: base <= c < |s.checks| && s.checks[c].machine == m && s.checks[c].pc == Writing ==>
         s.checks[c].read == Counters(0, 0)
  }

  lemma ZeroedOwn(cfg: Config, s: State, i: nat, step: Step, m: MachineId, base: nat)
    requires Enabled(s, Own(i, step)) && Zeroed(s, m, base)
    ensures Zeroed(ApplyOwn(cfg, s, i, step), m, base)
  {
    var s' := ApplyOwn(cfg, s, i, step);
    assert s'.machines == MachinesAfter(cfg, s, s.attempts[i], step);
    assert s'.checks == ChecksAfter(s, i, s.attempts[i], step);
  }

  lemma ZeroedEnv(s: State, e: EnvAction, m: MachineId, base: nat)
    requires EnvEnabled(s, e) && Zeroed(s, m, base)
    ensures Zeroed(ApplyEnv(s, e), m, base)
  {
    match e
    case SyncProvider(provider, list) => UpsertAllKeepsSafety(s.machines, provider, list);
    case _ =>
  }

  lemma ZeroedProbe(cfg: Config, s: State, c: nat, work: CheckStep, m: MachineId, base: nat)
    requires Enabled(s, Probe(c, work)) && Zeroed(s, m, base) && !Concludes(s, Probe(c, work), m)
    ensures Zeroed(ApplyProbe(cfg, s, c, work), m, base)
  {
  }

  lemma {:induction false} ZeroedRun(cfg: Config, states: seq<State>, acts: seq<Action>, n: nat, k: nat, m: MachineId, base: nat)
    requires IsRun(cfg, states, acts) && n <= k <= |acts| && Zeroed(states[n], m, base)
    requires forall j :: n <= j < k ==> !Concludes(states[j], acts[j], m)
    ensures Zeroed(states[k], m, base)
  {
    if n < k {
      ZeroedRun(cfg, states, acts, n, k - 1, m, base);
      assert StepAt(cfg, states, acts, k - 1);
      match acts[k - 1]
      case Own(i, step) => ZeroedOwn(cfg, states[k - 1], i, step, m, base);
      case Env(e) => ZeroedEnv(states[k - 1], e, m, base);
      case Probe(c, work) => ZeroedProbe(cfg, states[k - 1], c, work, m, base);
    }
  }

  lemma UpdateZeroes(cfg: Config, s: State, act: Action, r: nat, m: MachineId)
    requires Safety.Updates(cfg, s, act, r, m)
    ensures Zeroed(Apply(cfg, s, act), m, |s.checks|)
  {
  }

  /** A rotation updates its machine row; the next check of the machine to conclude is one started
      after that, such as the rotation's own. It makes the machine suspect exactly if it fails and
      a single failing check suffices, so never with a threshold of at least 2. */
  lemma PostRotationOnRuns(cfg: Config, states: seq<State>, acts: seq<Action>, w: nat, q: nat, c: nat, r: nat, m: MachineId)
    requires IsRun(cfg, states, acts) && w < q < |acts| && Safety.Updates(cfg, states[w], acts[w], r, m)
    requires acts[q] == Probe(c, WriteCounters) && |states[w].checks| <= c < |states[q].checks| && states[q].checks[c].machine == m
    requires forall j :: w < j < q ==> !Concludes(states[j], acts[j], m)
    ensures VerdictOf(cfg, states[q].checks[c]) == Suspect <==>
            Failing(states[q].checks[c].score) && cfg.failureThreshold <= 1
  {
    assert StepAt(cfg, states, acts, w) && StepAt(cfg, states, acts, q);
    UpdateZeroes(cfg, states[w], acts[w], r, m);
    ZeroedRun(cfg, states, acts, w + 1, q, m, |states[w].checks|);
  }
}
