/** The controller's goroutines in imperative form: `rotate` and `checkMachineNow`, statement by
    statement over the shared tables, with arbitrary other actions between any two statements.
    Every method extends a run of the step system, so every theorem about runs applies. */
module Controller {
  import opened Options
  import opened Inventory
  import opened Rotation
  import Health
  import Ledger
  import Safety

  /** The time between two list calls of the polling loop. */
  const POLL_INTERVAL := 10 * SECOND

  /** Actions of everyone but goroutine `me`, who runs check `mine`. */
  predicate ByOther(me: Option<nat>, mine: Option<nat>, act: Action) {
    match act
    case Env(_) => true
    case Own(i, step) => me != Some(i) || step == CancelContext
    case Probe(c, work) => mine != Some(c) || work == CancelCheck
  }

  predicate Place(k: nat) {
    true
  }

  /** `x` is a prefix of `y`; `Place` keeps the verifier from comparing at every index in sight. */
  ghost predicate Prefix<T>(x: seq<T>, y: seq<T>) {
    && |x| <= |y|
    && forall k: nat {:trigger Place(k)} :: Place(k) && k < |x| ==> y[k] == x[k]
  }

  /** Two runs from the same initial state. */
  predicate Begins(x: seq<State>, y: seq<State>) {
    |x| > 0 && |y| > 0 && x[0] == y[0]
  }

  /** The actions determine the states: continuing the actions continues the states. */
  lemma {:induction false} SameStates(cfg: Config, states: seq<State>, acts: seq<Action>, states': seq<State>,
                                      acts': seq<Action>, n: nat)
    requires IsRun(cfg, states, acts) && IsRun(cfg, states', acts')
    requires Begins(states', states) && Prefix(acts, acts') && n <= |acts|
    ensures states'[n] == states[n]
  {
    if n > 0 {
      SameStates(cfg, states, acts, states', acts', n - 1);
      assert Place(n - 1) && StepAt(cfg, states, acts, n - 1) && StepAt(cfg, states', acts', n - 1);
    }
  }

  /** However a run goes on, a row with a final status keeps it. */
  lemma FinalRowStays(cfg: Config, states: seq<State>, acts: seq<Action>, states': seq<State>, acts': seq<Action>, row: nat)
    requires IsRun(cfg, states, acts) && IsRun(cfg, states', acts')
    requires Begins(states', states) && Prefix(acts, acts')
    ensures Safety.FinalKept(states[|acts|], states'[|acts'|], row)
  {
    SameStates(cfg, states, acts, states', acts', |acts|);
    Safety.FinalIsForever(cfg, states', acts', |acts|, |acts'|, row);
  }

  /** What others may do to a goroutine's locals: cancel its context. */
  predicate Disturbed(a: Attempt, b: Attempt) {
    b == a || (a.trigger == Manual && a.ctx.Live? && b == a.(ctx := Cancelled(a.newIP != "")))
  }

  /** A check run by the goroutine itself keeps these of its locals. */
  predicate Keeps(a: Attempt, b: Attempt) {
    b.row == a.row && b.newIP == a.newIP && b.dns == a.dns && b.oldIP == a.oldIP
  }

  /** The locals after a stretch of polling. */
  predicate Polled(a: Attempt, b: Attempt, alive: bool, newIP: string) {
    if !alive then newIP == "" && b.pc == Crashed
    else if newIP == "" then Disturbed(a, b)
    else b.pc == Cool && b.newIP == newIP && Disturbed(a, b.(pc := Poll, newIP := a.newIP))
  }

  lemma PolledOn(a: Attempt, b: Attempt, c: Attempt, alive: bool, newIP: string)
    requires Disturbed(a, b) && Polled(b, c, alive, newIP)
    ensures Polled(a, c, alive, newIP)
  {
  }

  predicate CheckDisturbed(k: Check, l: Check) {
    l == k.(cancelled := l.cancelled) && (k.cancelled ==> l.cancelled)
  }

  lemma OthersMove(cfg: Config, s: State, i: nat, step: Step, me: nat)
    requires Enabled(s, Own(i, step)) && (i != me || step == CancelContext) && me < |s.attempts|
    ensures var s' := ApplyOwn(cfg, s, i, step); me < |s'.attempts| && Disturbed(s.attempts[me], s'.attempts[me])
  {
    assert ApplyOwn(cfg, s, i, step).attempts == s.attempts[i := Local(cfg, s, s.attempts[i], step)];
  }

  lemma OthersDisturb(cfg: Config, s: State, act: Action, me: nat, mine: Option<nat>)
    requires Enabled(s, act) && ByOther(Some(me), mine, act) && act != Env(Crash) && me < |s.attempts|
    ensures var s' := Apply(cfg, s, act); me < |s'.attempts| && Disturbed(s.attempts[me], s'.attempts[me])
  {
    match act
    case Own(i, step) => OthersMove(cfg, s, i, step, me);
    case Env(_) =>
    case Probe(_, _) =>
  }

  lemma OthersDisturbOwn(cfg: Config, s: State, i: nat, step: Step, mine: nat)
    requires Enabled(s, Own(i, step)) && mine < |s.checks|
    ensures var s' := ApplyOwn(cfg, s, i, step); mine < |s'.checks| && s'.checks[mine] == s.checks[mine]
  {
    assert ApplyOwn(cfg, s, i, step).checks == ChecksAfter(s, i, s.attempts[i], step);
  }

  lemma OthersDisturbCheck(cfg: Config, s: State, act: Action, me: Option<nat>, mine: nat)
    requires Enabled(s, act) && ByOther(me, Some(mine), act) && act != Env(Crash) && mine < |s.checks|
    ensures var s' := Apply(cfg, s, act); mine < |s'.checks| && CheckDisturbed(s.checks[mine], s'.checks[mine])
  {
    match act
    case Own(i, step) => OthersDisturbOwn(cfg, s, i, step, mine);
    case Env(_) =>
    case Probe(_, _) =>
  }

  lemma ClockAdvances(cfg: Config, s: State, act: Action)
    requires Enabled(s, act)
    ensures s.now <= Apply(cfg, s, act).now
  {
  }

  /** The counting loop's step. */
  lemma OneMoreCounted(rows: seq<Row>, k: nat, machine: MachineId, since: int)
    requires k < |rows|
    ensures var hit := rows[k].machine == machine && rows[k].status == Completed && since <= rows[k].started;
            |CompletedSince(rows[..k + 1], machine, since)| ==
            |CompletedSince(rows[..k], machine, since)| + (if hit then 1 else 0)
  {
    var hit := rows[k].machine == machine && rows[k].status == Completed && since <= rows[k].started;
    assert CompletedSince(rows[..k + 1], machine, since) ==
           CompletedSince(rows[..k], machine, since) + (if hit then {k} else {});
  }

  // ----- the answers of the list calls -----

  /** The answer of a list call, if the call does not fail. */
  type Answer = Option<seq<ProviderMachine>>

  /** No entry of the answer has a new address for the machine. */
  predicate NothingNew(answer: Answer, m: MachineId, oldIP: string) {
    answer.Some? ==>
      forall j :: 0 <= j < |answer.value| ==>
        !(answer.value[j].id == m && answer.value[j].ipv4 != "" && answer.value[j].ipv4 != oldIP)
  }

  /** The first entry of the answer that has a new address for the machine has this one. */
  predicate FirstNew(answer: Answer, m: MachineId, oldIP: string, ip: string) {
    answer.Some? &&
    exists k :: 0 <= k < |answer.value| && answer.value[k].id == m && answer.value[k].ipv4 == ip && ip != "" && ip != oldIP
                && NothingNew(Some(answer.value[..k]), m, oldIP)
  }

  /** Each answer is what the provider has sent, or the call has failed under a cancelled request. */
  ghost predicate Heard(answers: seq<Answer>, provider: nat -> Answer, cancelled: bool) {
    forall i :: 0 <= i < |answers| ==> answers[i] == provider(i) || (answers[i].None? && cancelled)
  }

  predicate AllOld(answers: seq<Answer>, m: MachineId, oldIP: string) {
    forall i :: 0 <= i < |answers| ==> NothingNew(answers[i], m, oldIP)
  }

  predicate FoundLast(answers: seq<Answer>, m: MachineId, oldIP: string, ip: string) {
    answers != [] && AllOld(answers[..|answers| - 1], m, oldIP) && FirstNew(answers[|answers| - 1], m, oldIP, ip)
  }

  /** What the loop makes of the answers: each is what the provider has sent, or its call has failed
      under a dead request; `ip` is the first new address of the last of them, or none holds one. */
  ghost predicate Course(answers: seq<Answer>, provider: nat -> Answer, m: MachineId, oldIP: string, ip: string, dead: bool) {
    && Heard(answers, provider, dead)
    && if ip == "" then AllOld(answers, m, oldIP) else FoundLast(answers, m, oldIP, ip)
  }

  /** One more answer. */
  ghost predicate Turned(more: seq<Answer>, listed: Answer, m: MachineId, oldIP: string, ip: string, dead: bool) {
    && |more| <= 1 && (more == [] ==> ip == "")
    && (|more| == 1 ==> more[0] == listed || (more[0].None? && dead))
    && (|more| == 1 ==> if ip == "" then NothingNew(more[0], m, oldIP) else FirstNew(more[0], m, oldIP, ip))
  }

  lemma CourseGrows(answers: seq<Answer>, more: seq<Answer>, provider: nat -> Answer, m: MachineId, oldIP: string, ip: string,
                    before: bool, dead: bool)
    requires Course(answers, provider, m, oldIP, "", before) && (before ==> dead)
    requires Turned(more, provider(|answers|), m, oldIP, ip, dead)
    ensures Course(answers + more, provider, m, oldIP, ip, dead)
  {
    if |more| == 1 {
      assert (answers + more)[..|answers + more| - 1] == answers;
    } else {
      assert answers + more == answers;
    }
  }

  /** A timer of ten seconds follows every call but one that has found an address. */
  predicate Waited(calls: int, slept: int, alive: bool, newIP: string) {
    alive ==> slept == 10_000_000_000 * (calls - if newIP == "" then 0 else 1)
  }

  /** The calls, ten seconds apart, have been made within the timeout; the loop goes on if `going`. */
  predicate Paced(calls: int, elapsed: int, timeout: int, going: bool) {
    (calls > 0 ==> (calls - 1) * 10_000_000_000 < timeout) && (going ==> calls * 10_000_000_000 <= elapsed)
  }

  lemma PaceHolds(calls: nat, more: nat, before: int, after: int, slept: int, slept': int, timeout: int,
                  alive: bool, going: bool, newIP: string)
    requires Paced(calls, before, timeout, true) && before < timeout && more <= 1 && Waited(calls, slept, true, "")
    requires going ==> before + POLL_INTERVAL <= after
    requires alive ==> more == 1 && slept' == slept + if newIP == "" then 10_000_000_000 else 0
    ensures Paced(calls + more, after, timeout, going) && Waited(calls + more, slept', alive, newIP)
  {
  }

  /** The polling loop so far. */
  ghost predicate Looped(first: Attempt, a: Attempt, answers: seq<Answer>, provider: nat -> Answer, m: MachineId, oldIP: string,
                         newIP: string, slept: int, elapsed: int, timeout: int, alive: bool, going: bool)
  {
    && Polled(first, a, alive, newIP) && Waited(|answers|, slept, alive, newIP) && Paced(|answers|, elapsed, timeout, going)
    && Course(answers, provider, m, oldIP, newIP, !alive || a.ctx.Cancelled?)
  }

  lemma OneMoreTurn(first: Attempt, a: Attempt, b: Attempt, answers: seq<Answer>, more: seq<Answer>, provider: nat -> Answer,
                    m: MachineId, oldIP: string, newIP: string, slept: int, slept': int, before: int, after: int, timeout: int,
                    alive: bool, going: bool)
    requires Looped(first, a, answers, provider, m, oldIP, "", slept, before, timeout, true, true) && before < timeout
    requires Polled(a, b, alive, newIP) && Turned(more, provider(|answers|), m, oldIP, newIP, !alive || b.ctx.Cancelled?)
    requires going ==> before + POLL_INTERVAL <= after
    requires alive ==> |more| == 1 && slept' == slept + if newIP == "" then 10_000_000_000 else 0
    ensures Looped(first, b, answers + more, provider, m, oldIP, newIP, slept', after, timeout, alive, going)
  {
    PolledOn(first, a, b, alive, newIP);
    PaceHolds(|answers|, |more|, before, after, slept, slept', timeout, alive, going, newIP);
    CourseGrows(answers, more, provider, m, oldIP, newIP, a.ctx.Cancelled?, !alive || b.ctx.Cancelled?);
  }

  class Controller {
    const cfg: Config

    // the clock, the database and the lock map
    var now: int
    var machines: map<MachineId, Machine>
    var rows: seq<Row>
    var locks: map<MachineId, nat>

    // the goroutines
    var attempts: seq<Attempt>
    var checks: seq<Check>

    // history
    var fails: map<MachineId, nat>
    var commits: map<nat, int>
    var detached: set<nat>

    // the run so far, and the total duration of the timers that `Sleep` has set
    ghost var states: seq<State>
    ghost var acts: seq<Action>
    ghost var slept: int

    function Abs(): State
      reads this
    {
      State(now, machines, rows, locks, attempts, checks, fails, commits, detached)
    }

    ghost predicate Valid()
      reads this
    {
      IsRun(cfg, states, acts) && states[|acts|] == Abs()
    }

    /** The run has been extended: its actions are a continuation of the earlier ones, and so its
        states are, as `SameStates` shows. */
    twostate predicate Extends()
      reads this
    {
      Valid() && Begins(states, old(states)) && Prefix(old(acts), acts)
    }

    /** The run has been extended by one action; with `Valid`, this fixes the whole new state. */
    twostate predicate Took(act: Action)
      reads this
    {
      Extends() && acts == old(acts) + [act] && slept == old(slept)
    }

    constructor (cfg: Config, now: int)
      ensures Valid() && this.cfg == cfg && Abs() == Initial(now) && acts == []
    {
      this.cfg := cfg;
      this.now := now;
      machines, rows, locks := map[], [], map[];
      attempts, checks := [], [];
      fails, commits, detached := map[], map[], {};
      states, acts, slept := [Initial(now)], [], 0;
    }

    /** The tables have taken the action; so has the run. */
    ghost method Record(act: Action, before: State)
      requires IsRun(cfg, states, acts) && states[|acts|] == before
      requires Enabled(before, act) && Abs() == Apply(cfg, before, act)
      modifies this`states, this`acts
      ensures Valid() && Begins(states, old(states)) && Prefix(old(acts), acts) && acts == old(acts) + [act]
    {
      RunGrows(cfg, states, acts, act);
      states, acts := states + [Abs()], acts + [act];
    }

    /** The tables and the goroutines take a new state. */
    method Store(s: State)
      modifies this`now, this`machines, this`rows, this`locks, this`attempts, this`checks
      modifies this`fails, this`commits, this`detached
      ensures Abs() == s
    {
      now, machines, rows, locks := s.now, s.machines, s.rows, s.locks;
      attempts, checks := s.attempts, s.checks;
      fails, commits, detached := s.fails, s.commits, s.detached;
    }

    /** Any action, taken by anyone. */
    method Perform(act: Action)
      requires Valid() && Enabled(Abs(), act)
      modifies this
      ensures Took(act) && Abs() == Apply(cfg, old(Abs()), act)
    {
      Store(Apply(cfg, Abs(), act));
      Record(act, old(Abs()));
    }

    /** One action of others while goroutine `me` is between two statements. */
    method Disturb(me: Option<nat>, mine: Option<nat>, act: Action)
      requires Valid() && Enabled(Abs(), act) && ByOther(me, mine, act)
      requires me.Some? ==> me.value < |attempts| && attempts[me.value].pc != Done
      requires mine.Some? ==> mine.value < |checks|
      modifies this
      ensures Took(act) && old(now) <= now
      ensures me.Some? ==> me.value < |attempts|
      ensures me.Some? && act != Env(Crash) ==> Disturbed(old(attempts[me.value]), attempts[me.value])
      ensures me.Some? && act == Env(Crash) ==> attempts[me.value].pc == Crashed
      ensures act != Env(Crash) && mine.Some? ==>
                mine.value < |checks| && CheckDisturbed(old(checks[mine.value]), checks[mine.value])
    {
      ClockAdvances(cfg, Abs(), act);
      if act != Env(Crash) && me.Some? {
        OthersDisturb(cfg, Abs(), act, me.value, mine);
      }
      if act != Env(Crash) && mine.Some? {
        OthersDisturbCheck(cfg, Abs(), act, me, mine.value);
      }
      Perform(act);
    }

    /** Any number of actions of others while goroutine `me` is between two statements. */
    method Interfere(me: Option<nat>, mine: Option<nat>) returns (alive: bool)
      requires Valid()
      requires me.Some? ==> me.value < |attempts| && attempts[me.value].pc != Done
      requires mine.Some? ==> mine.value < |checks|
      modifies this
      ensures Extends() && old(now) <= now && slept == old(slept)
      ensures me.Some? ==> me.value < |attempts|
      ensures me.Some? && alive ==> Disturbed(old(attempts[me.value]), attempts[me.value])
      ensures me.Some? && !alive ==> attempts[me.value].pc == Crashed
      ensures alive && mine.Some? ==> mine.value < |checks| && CheckDisturbed(old(checks[mine.value]), checks[mine.value])
    {
      alive := true;
      var n: nat := *;
      while alive && n > 0
        invariant Extends() && old(now) <= now && slept == old(slept)
        invariant me.Some? ==> me.value < |attempts|
        invariant me.Some? && alive ==> Disturbed(old(attempts[me.value]), attempts[me.value])
        invariant me.Some? && !alive ==> attempts[me.value].pc == Crashed
        invariant alive && mine.Some? ==> mine.value < |checks| && CheckDisturbed(old(checks[mine.value]), checks[mine.value])
        decreases n
      {
        var act: Action := *;
        if Enabled(Abs(), act) && ByOther(me, mine, act) {
          Disturb(me, mine, act);
          alive := act != Env(Crash);
        }
        n := n - 1;
      }
    }

    // ----- the statements of rotate -----

    /** The goroutine's locals are now `a`; the other goroutines' are as they were. */
    twostate predicate Moved(me: nat, a: Attempt)
      requires me < |old(attempts)|
      reads this
    {
      attempts == old(attempts)[me := a]
    }

    ghost predicate Stands(me: nat, pc: PC)
      reads this
    {
      me < |attempts| && attempts[me].pc == pc
    }

    /** `a.rotations.LoadOrStore`. */
    method LoadOrStore(me: nat) returns (loaded: bool)
      requires Valid() && Stands(me, Start)
      modifies this
      ensures Took(Own(me, Acquire)) && now == old(now)
      ensures Moved(me, if loaded then old(attempts[me]).(pc := Done, outcome := Busy)
                        else old(attempts[me].(pc := Locked, failsAtLock := FailsOf(Abs(), attempts[me].machine))))
      ensures loaded <==> old(attempts[me].machine in locks)
      ensures locks == if loaded then old(locks) else old(locks)[old(attempts[me].machine) := me]
      ensures machines == old(machines) && rows == old(rows) && checks == old(checks)
    {
      var a' := Local(cfg, Abs(), attempts[me], Acquire);
      var m := attempts[me].machine;
      loaded := m in locks;
      if !loaded {
        locks := locks[m := me];
      }
      attempts := attempts[me := a'];
      Record(Own(me, Acquire), old(Abs()));
    }

    /** `a.rotations.Delete`, deferred. */
    method Delete(me: nat)
      requires Valid() && Stands(me, Release)
      modifies this
      ensures Took(Own(me, Unlock)) && now == old(now)
      ensures Moved(me, old(attempts[me]).(pc := Done)) && locks == old(locks - {attempts[me].machine})
      ensures machines == old(machines) && rows == old(rows) && checks == old(checks)
    {
      var a' := Local(cfg, Abs(), attempts[me], Unlock);
      locks := locks - {attempts[me].machine};
      attempts := attempts[me := a'];
      Record(Own(me, Unlock), old(Abs()));
    }

    /** `SELECT ... FROM machines WHERE id=?`. A missing row ends the attempt. A manual rotation goes
        on to the provider, an automatic one to the cooldown gate if both switches are on. */
    method SelectMachine(me: nat) returns (m: Option<Machine>)
      requires Valid() && Stands(me, Locked)
      modifies this
      ensures Took(Own(me, ReadMachine)) && now == old(now) && machines == old(machines) && rows == old(rows)
      ensures m.None? ==> Moved(me, old(attempts[me]).(pc := Release, outcome := NotFound))
      ensures m.Some? && old(attempts[me]).trigger == Manual ==>
                Moved(me, old(attempts[me]).(seenCooldown := m.value.cooldownUntil, oldIP := m.value.profile.ipv4, pc := Provider))
      ensures m.Some? && old(attempts[me]).trigger == Auto && cfg.autoRotateGlobal && m.value.autoRotate ==>
                Moved(me, old(attempts[me]).(seenCooldown := m.value.cooldownUntil, oldIP := m.value.profile.ipv4, pc := Gate))
      ensures m.Some? && old(attempts[me]).trigger == Auto && !(cfg.autoRotateGlobal && m.value.autoRotate) ==>
                Moved(me, old(attempts[me]).(seenCooldown := m.value.cooldownUntil, oldIP := m.value.profile.ipv4,
                                             pc := Release, outcome := Disabled))
      ensures m == old(if attempts[me].ctx.Live? && attempts[me].machine in machines
                       then Some(machines[attempts[me].machine]) else None)
    {
      var a' := Local(cfg, Abs(), attempts[me], ReadMachine);
      var id := attempts[me].machine;
      m := if attempts[me].ctx.Live? && id in machines then Some(machines[id]) else None;
      attempts := attempts[me := a'];
      Record(Own(me, ReadMachine), old(Abs()));
    }

    /** `time.Now()` at the cooldown gate. */
    method TimeAtGate(me: nat) returns (t: int)
      requires Valid() && Stands(me, Gate)
      modifies this
      ensures Took(Own(me, PassGate)) && t == now == old(now) && machines == old(machines) && rows == old(rows)
      ensures Moved(me, var a := old(attempts[me]);
                        if a.seenCooldown.Some? && t < a.seenCooldown.value * 1_000_000_000
                        then a.(pc := Release, outcome := CoolingDown) else a.(pc := ReadDay))
    {
      var a' := Local(cfg, Abs(), attempts[me], PassGate);
      t := now;
      attempts := attempts[me := a'];
      Record(Own(me, PassGate), old(Abs()));
    }

    /** `time.Now()` truncated to the start of the UTC day. */
    method TimeAtMidnight(me: nat) returns (midnight: int)
      requires Valid() && Stands(me, ReadDay)
      modifies this
      ensures Took(Own(me, ComputeDay)) && now == old(now) && machines == old(machines) && rows == old(rows)
      ensures midnight == now / 1_000_000_000 / 86400 * 86400
      ensures Moved(me, old(attempts[me]).(pc := CountDay, day := midnight))
    {
      var a' := Local(cfg, Abs(), attempts[me], ComputeDay);
      midnight := StartOfDay(Secs(now));
      attempts := attempts[me := a'];
      Record(Own(me, ComputeDay), old(Abs()));
    }

    /** `time.Now()` for `started_at` and for the cooldown. */
    method TimeNow(me: nat, step: Step) returns (t: int)
      requires Valid() && (step == StampStart || step == StampCooldown) && Stands(me, Site(step))
      modifies this
      ensures Took(Own(me, step)) && t == now == old(now) && machines == old(machines) && rows == old(rows)
      ensures Moved(me, if step == StampStart then old(attempts[me]).(pc := Insert, started := t / 1_000_000_000)
                        else old(attempts[me]).(pc := Write, stamp := t))
    {
      var a' := Local(cfg, Abs(), attempts[me], step);
      t := now;
      attempts := attempts[me := a'];
      Record(Own(me, step), old(Abs()));
    }

    /** `SELECT COUNT(*) FROM rotations WHERE machine_id=? AND status='completed' AND started_at>=?`. */
    method CountSince(machine: MachineId, since: int) returns (count: nat)
      ensures count == |set r: nat | r < |rows| && rows[r].machine == machine && rows[r].status == Completed
                                     && since <= rows[r].started|
    {
      count := 0;
      for k := 0 to |rows|
        invariant count == |CompletedSince(rows[..k], machine, since)|
      {
        var hit := rows[k].machine == machine && rows[k].status == Completed && since <= rows[k].started;
        OneMoreCounted(rows, k, machine, since);
        if hit {
          count := count + 1;
        }
      }
      assert rows[..|rows|] == rows;
      assert CompletedSince(rows, machine, since) ==
             set r: nat | r < |rows| && rows[r].machine == machine && rows[r].status == Completed && since <= rows[r].started;
    }

    /** The daily-cap query. */
    method CountCompleted(me: nat, machine: MachineId, since: int) returns (count: nat)
      requires Valid() && Stands(me, CountDay) && attempts[me].machine == machine && attempts[me].day == since
      modifies this
      ensures Took(Own(me, CountRows)) && now == old(now)
      ensures Moved(me, if count >= cfg.maxRotationsPerDay then old(attempts[me]).(pc := Release, outcome := CapReached)
                        else old(attempts[me]).(pc := if cfg.requireConfirmation then Confirm else Provider))
      ensures machines == old(machines) && rows == old(rows)
      ensures count == |set r: nat | r < |rows| && rows[r].machine == machine && rows[r].status == Completed
                                     && since <= rows[r].started|
    {
      var a' := Local(cfg, Abs(), attempts[me], CountRows);
      count := CountSince(machine, since);
      assert CompletedSince(rows, machine, since) ==
             set r: nat | r < |rows| && rows[r].machine == machine && rows[r].status == Completed && since <= rows[r].started;
      attempts := attempts[me := a'];
      Record(Own(me, CountRows), old(Abs()));
    }

    /** `INSERT INTO rotations`. */
    method InsertRotation(me: nat, machine: MachineId, oldIP: string, trigger: Trigger, started: int)
      returns (id: Option<nat>)
      requires Valid() && Stands(me, Insert)
      requires var a := attempts[me]; a.machine == machine && a.oldIP == oldIP && a.trigger == trigger && a.started == started
      modifies this
      ensures Took(Own(me, InsertRow)) && now == old(now)
      ensures Moved(me, if id.Some? then old(attempts[me]).(pc := Call, row := id.value)
                        else old(attempts[me]).(pc := Release, outcome := NoRow))
      ensures id == old(if attempts[me].ctx.Live? then Some(|rows|) else None)
      ensures rows == old(rows) + (if id.None? then []
                                   else [Row(machine, oldIP, "", trigger, Running, DnsNone, PostNone, started, None, me)])
      ensures machines == old(machines)
    {
      var a' := Local(cfg, Abs(), attempts[me], InsertRow);
      id := None;
      if attempts[me].ctx.Live? {
        id := Some(|rows|);
        rows := rows + [Row(machine, oldIP, "", trigger, Running, DnsNone, PostNone, started, None, me)];
      }
      attempts := attempts[me := a'];
      Record(Own(me, InsertRow), old(Abs()));
    }

    /** `UPDATE rotations SET status='failed',...`, which ignores the request context. */
    method FailRotation(me: nat, id: nat)
      requires Valid() && Stands(me, Fail) && attempts[me].row == id
      modifies this
      ensures Took(Own(me, FailRow)) && now == old(now)
      ensures rows == old(if id < |rows| then rows[id := rows[id].(status := Failed, finished := Some(now / 1_000_000_000))] else rows)
      ensures Moved(me, old(attempts[me]).(pc := Release)) && machines == old(machines)
    {
      var a' := Local(cfg, Abs(), attempts[me], FailRow);
      if id < |rows| {
        rows := rows[id := rows[id].(status := Failed, finished := Some(Secs(now)))];
      }
      attempts := attempts[me := a'];
      Record(Own(me, FailRow), old(Abs()));
    }

    /** `UPDATE machines SET public_ipv4=?,...`, under the request context. */
    method StoreMachine(me: nat, machine: MachineId, newIP: string, stamp: int)
      requires me < |attempts|
      requires var a := attempts[me]; a.machine == machine && a.newIP == newIP && a.stamp == stamp
      modifies this`machines, this`commits, this`detached
      ensures machines == MachinesAfter(cfg, old(Abs()), attempts[me], WriteMachine)
      ensures commits == CommitsAfter(old(Abs()), attempts[me], WriteMachine)
      ensures detached == DetachedAfter(old(Abs()), attempts[me], WriteMachine)
      ensures attempts[me].ctx.Live? && machine in old(machines) ==>
                && machines == old(machines)[machine := old(machines)[machine].(
                     profile := old(machines)[machine].profile.(ipv4 := newIP), health := Unknown, failures := 0, successes := 0,
                     lastRotation := Some(now / 1_000_000_000),
                     cooldownUntil := Some((stamp + cfg.rotationCooldown) / 1_000_000_000))]
                && commits == old(commits)[attempts[me].row := stamp] && detached == old(detached)
      ensures attempts[me].ctx.Live? && machine !in old(machines) ==>
                machines == old(machines) && commits == old(commits) && detached == old(detached) + {attempts[me].row}
      ensures attempts[me].ctx.Cancelled? ==>
                machines == old(machines) && commits == old(commits) && detached == old(detached)
    {
      if attempts[me].ctx.Live? {
        if machine in machines {
          var row := machines[machine];
          machines := machines[machine := row.(
            profile := row.profile.(ipv4 := newIP), health := Unknown, failures := 0, successes := 0,
            lastRotation := Some(Secs(now)), cooldownUntil := Some(Secs(stamp + cfg.rotationCooldown)))];
          commits := commits[attempts[me].row := stamp];
        } else {
          detached := detached + {attempts[me].row};
        }
      }
    }

    /** The machine-row update of a rotation. */
    method UpdateMachine(me: nat, machine: MachineId, newIP: string, stamp: int)
      requires Valid() && Stands(me, Write)
      requires var a := attempts[me]; a.machine == machine && a.newIP == newIP && a.stamp == stamp
      modifies this
      ensures Took(Own(me, WriteMachine)) && now == old(now) && rows == old(rows)
      ensures machines == old(MachinesAfter(cfg, Abs(), attempts[me], WriteMachine))
      ensures Moved(me, old(attempts[me]).(pc := Sync))
    {
      var a' := Local(cfg, Abs(), attempts[me], WriteMachine);
      StoreMachine(me, machine, newIP, stamp);
      attempts := attempts[me := a'];
      assert Abs() == ApplyOwn(cfg, old(Abs()), me, WriteMachine);
      Record(Own(me, WriteMachine), old(Abs()));
    }

    /** `UPDATE rotations SET new_ip=?,status='completed',...`, under the request context. */
    method StoreCompletion(me: nat, id: nat, newIP: string, dns: DnsStatus, post: PostStatus)
      requires me < |attempts|
      requires var a := attempts[me]; a.row == id && a.newIP == newIP && a.dns == dns && a.post == post
      modifies this`rows
      ensures rows == old(if attempts[me].ctx.Live? && id < |rows|
                          then rows[id := rows[id].(newIP := newIP, status := Completed, dns := dns, post := post,
                                                    finished := Some(now / 1_000_000_000))]
                          else rows)
    {
      if attempts[me].ctx.Live? && id < |rows| {
        rows := rows[id := rows[id].(newIP := newIP, status := Completed, dns := dns, post := post,
                                     finished := Some(Secs(now)))];
      }
    }

    /** The completing update of a rotation. */
    method CompleteRotation(me: nat, id: nat, newIP: string, dns: DnsStatus, post: PostStatus)
      requires Valid() && Stands(me, Finish)
      requires var a := attempts[me]; a.row == id && a.newIP == newIP && a.dns == dns && a.post == post
      modifies this
      ensures Took(Own(me, FinishRow)) && now == old(now)
      ensures rows == old(if attempts[me].ctx.Live? && id < |rows|
                          then rows[id := rows[id].(newIP := newIP, status := Completed, dns := dns, post := post,
                                                    finished := Some(now / 1_000_000_000))]
                          else rows)
      ensures Moved(me, old(attempts[me]).(pc := Release, outcome := Rotated)) && machines == old(machines)
    {
      var a' := Local(cfg, Abs(), attempts[me], FinishRow);
      StoreCompletion(me, id, newIP, dns, post);
      attempts := attempts[me := a'];
      Record(Own(me, FinishRow), old(Abs()));
    }

    /** The call of `checkMachineNow` inside `rotate`, and its return. */
    method StartCheck(me: nat, step: Step) returns (c: nat)
      requires Valid() && (step == StartConfirm || step == StartPost) && Stands(me, Site(step))
      modifies this
      ensures Took(Own(me, step)) && now == old(now)
      ensures Moved(me, old(attempts[me]).(pc := if step == StartConfirm then Confirming else PostWait, check := c))
      ensures c == |old(checks)| && |checks| == c + 1
      ensures checks[c].pc == Probing && checks[c].owner == Some(me) && checks[c].machine == attempts[me].machine
    {
      c := |checks|;
      Perform(Own(me, step));
    }

    method EndCheck(me: nat, step: Step, c: nat)
      requires Valid() && (step == EndConfirm || step == EndPost) && Stands(me, Site(step))
      requires c == attempts[me].check && c < |checks| && Ended(checks[c].pc)
      modifies this
      ensures Took(Own(me, step)) && now == old(now) && checks == old(checks)
      ensures step == EndPost ==>
                Moved(me, old(attempts[me]).(pc := Finish, post := if checks[c].pc == Refused then PostNotRun
                                                                   else if checks[c].score == 0 then PostPassed
                                                                   else PostFailed))
      ensures step == EndConfirm ==>
                Moved(me, if checks[c].pc == Concluded && checks[c].score >= 5 then old(attempts[me]).(pc := Provider)
                          else old(attempts[me]).(pc := Release, outcome := Unconfirmed))
      ensures machines == old(machines) && rows == old(rows)
    {
      Perform(Own(me, step));
    }

    // ----- checkMachineNow -----

    ghost predicate Runs(me: Option<nat>, c: nat)
      reads this
    {
      && c < |checks| && checks[c].owner == me
      && (me.Some? ==> me.value < |attempts| && attempts[me.value].pc != Done)
    }

    /** The end of the probe loop. */
    method KeepScore(c: nat, score: nat, total: nat)
      requires Valid() && c < |checks| && checks[c].pc == Probing
      modifies this
      ensures Took(Probe(c, RunProbes(score, total))) && now == old(now) && attempts == old(attempts)
      ensures checks == old(checks)[c := old(checks[c]).(pc := if total == 0 then Refused else Reading,
                                                         score := score, total := total)]
    {
      Perform(Probe(c, RunProbes(score, total)));
    }

    /** `SELECT failure_count,success_count FROM machines WHERE id=?`; zeros when it fails. */
    method SelectCounters(c: nat) returns (failure: int, success: int)
      requires Valid() && c < |checks| && checks[c].pc == Reading
      modifies this
      ensures Took(Probe(c, ReadCounters)) && now == old(now)
      ensures attempts == old(attempts) && machines == old(machines)
      ensures var k := old(checks[c]);
              var cancelled := k.cancelled || (k.owner.Some? && k.owner.value < |attempts| && attempts[k.owner.value].ctx.Cancelled?);
              if !cancelled && k.machine in machines
              then failure == machines[k.machine].failures && success == machines[k.machine].successes
              else failure == 0 && success == 0
      ensures checks == old(checks)[c := old(checks[c]).(pc := Writing, read := Health.Counters(failure, success))]
    {
      var k := checks[c];
      failure, success := 0, 0;
      if !ContextDone(Abs(), k) && k.machine in machines {
        failure, success := machines[k.machine].failures, machines[k.machine].successes;
      }
      checks := checks[c := k.(pc := Writing, read := Health.Counters(failure, success))];
      Record(Probe(c, ReadCounters), old(Abs()));
    }

    /** `UPDATE machines SET health_status=?,failure_count=?,success_count=?,...`. */
    method StoreCounters(c: nat, health: HealthStatus, failure: int, success: int)
      requires c < |checks| && health == VerdictOf(cfg, checks[c])
      requires Health.Counters(failure, success) == CountersAfter(cfg, checks[c])
      modifies this`machines
      ensures machines == MachinesProbed(cfg, old(Abs()), checks[c], WriteCounters)
      ensures var k := checks[c];
              var cancelled := k.cancelled || (k.owner.Some? && k.owner.value < |attempts| && attempts[k.owner.value].ctx.Cancelled?);
              machines == if !cancelled && k.machine in old(machines)
                          then old(machines)[k.machine := old(machines)[k.machine].(health := health, failures := failure,
                                                                                    successes := success)]
                          else old(machines)
    {
      var k := checks[c];
      if !ContextDone(Abs(), k) && k.machine in machines {
        machines := machines[k.machine := machines[k.machine].(health := health, failures := failure, successes := success)];
      }
    }

    /** The counter update, then the automatic trigger: whether the update took effect makes no
        difference to it. */
    method StoreVerdict(c: nat, failing: bool, health: HealthStatus, failure: int, success: int)
      requires c < |checks| && checks[c].pc == Writing
      requires failing == (checks[c].score >= 5) && health == VerdictOf(cfg, checks[c])
      requires Health.Counters(failure, success) == CountersAfter(cfg, checks[c])
      modifies this`machines, this`fails, this`checks, this`attempts
      ensures Abs() == ApplyProbe(cfg, old(Abs()), c, WriteCounters)
      ensures checks == old(checks)[c := old(checks[c]).(pc := Concluded)]
      ensures old(attempts) <= attempts
      ensures if health == Suspect && cfg.autoRotateGlobal
              then |attempts| == |old(attempts)| + 1 && var a := attempts[|old(attempts)|];
                   a.machine == checks[c].machine && a.trigger == Auto && a.ctx == Live && a.pc == Start
              else attempts == old(attempts)
    {
      var k := checks[c];
      StoreCounters(c, health, failure, success);
      if failing {
        fails := fails[k.machine := FailsOf(Abs(), k.machine) + 1];
      }
      checks := checks[c := k.(pc := Concluded)];
      if health == Suspect && cfg.autoRotateGlobal {
        attempts := attempts + [NewAttempt(Abs(), k.machine, Auto)];
      }
    }

    /** The last statements of a check. */
    method UpdateCounters(c: nat, failing: bool, health: HealthStatus, failure: int, success: int)
      requires Valid() && c < |checks| && checks[c].pc == Writing
      requires failing == (checks[c].score >= 5) && health == VerdictOf(cfg, checks[c])
      requires Health.Counters(failure, success) == CountersAfter(cfg, checks[c])
      modifies this
      ensures Took(Probe(c, WriteCounters)) && now == old(now) && HasConcluded(c)
      ensures old(attempts) <= attempts && checks == old(checks)[c := old(checks[c]).(pc := Concluded)]
    {
      StoreVerdict(c, failing, health, failure, success);
      Record(Probe(c, WriteCounters), old(Abs()));
      SameStates(cfg, old(states), old(acts), states, acts, |old(acts)|);
    }

    /** The check has just concluded, and has started an automatic rotation of its machine exactly if
        it failed, the failures it had read and this one reach the threshold, and automatic rotation
        is on. */
    ghost predicate HasConcluded(c: nat)
      requires Valid()
      reads this
    {
      && c < |checks| && checks[c].pc == Concluded && |acts| > 0 && acts[|acts| - 1] == Probe(c, WriteCounters)
      && var before := states[|acts| - 1].attempts;
         && before <= attempts
         && if checks[c].score >= 5 && checks[c].read.failures + 1 >= cfg.failureThreshold && cfg.autoRotateGlobal
            then |attempts| == |before| + 1 && var a := attempts[|before|];
                 a.machine == checks[c].machine && a.trigger == Auto && a.ctx == Live && a.pc == Start
            else attempts == before
    }

    /** The request of the check has been cancelled. */
    ghost predicate Dead(c: nat)
      reads this
    {
      c < |checks| && ContextDone(Abs(), checks[c])
    }

    /** What a stretch of `checkMachineNow` keeps: the goroutine that runs it, the check's owner,
        and a cancellation. */
    twostate predicate Checking(me: Option<nat>, c: nat, alive: bool)
      requires c < |old(checks)| && (me.Some? ==> me.value < |old(attempts)|)
      reads this
    {
      && Extends() && old(now) <= now
      && (me.Some? ==> me.value < |attempts|
                       && if alive then Disturbed(old(attempts[me.value]), attempts[me.value])
                          else attempts[me.value].pc == Crashed)
      && (alive ==> c < |checks| && checks[c].owner == old(checks[c]).owner && (old(Dead(c)) ==> Dead(c)))
    }

    /** Others act while the check is between two statements. */
    method Pause(me: Option<nat>, c: nat) returns (alive: bool)
      requires Valid() && Runs(me, c)
      modifies this
      ensures Checking(me, c, alive)
      ensures alive ==> CheckDisturbed(old(checks[c]), checks[c])
    {
      alive := Interfere(me, Some(c));
    }

    /** The query of the machine's enabled probes, `configured`. It fails under a cancelled
        request; reading its rows ends early, without an error, when the request is cancelled
        meanwhile. */
    method SelectProbes(me: Option<nat>, c: nat, configured: seq<Health.EnabledProbe>) returns (alive: bool, selected: Option<seq<Health.EnabledProbe>>)
      requires Valid() && Runs(me, c)
      modifies this
      ensures Checking(me, c, alive)
      ensures alive ==> CheckDisturbed(old(checks[c]), checks[c])
      ensures alive && selected.None? ==> Dead(c)
      ensures selected.Some? ==> selected.value <= configured
      ensures alive && !Dead(c) ==> selected == Some(configured)
    {
      selected := None;
      alive := Pause(me, c);
      if !alive || ContextDone(Abs(), checks[c]) {
        return;
      }
      alive := Pause(me, c);
      var n := |configured|;
      if alive && ContextDone(Abs(), checks[c]) {
        n :| 0 <= n <= |configured|;
      }
      selected := Some(configured[..n]);
      assert configured[..|configured|] == configured;
    }

    /** The weighted score of the probes; others act after each. */
    method ExecuteProbes(me: Option<nat>, c: nat, selected: seq<Health.EnabledProbe>) returns (alive: bool, score: nat)
      requires Valid() && Runs(me, c)
      modifies this
      ensures Checking(me, c, alive)
      ensures alive ==> CheckDisturbed(old(checks[c]), checks[c])
      ensures alive ==> score == Health.Score(selected)
    {
      alive, score := true, 0;
      var k := 0;
      while alive && k < |selected|
        invariant Checking(me, c, alive)
        invariant alive ==> CheckDisturbed(old(checks[c]), checks[c])
        invariant k <= |selected| && score == Health.Score(selected[..k])
        decreases |selected| - k
      {
        assert selected[..k + 1][..k] == selected[..k];
        var success := Health.ExecuteProbe(selected[k]);
        if !success {
          score := score + selected[k].weight;
        }
        k := k + 1;
        alive := Pause(me, c);
      }
      assert alive ==> selected[..k] == selected;
    }

    /** The part of `checkMachineNow` after the probes: read the counters, draw the verdict,
        write it back and trigger an automatic rotation. */
    method JudgeMachine(me: Option<nat>, c: nat, score: nat) returns (alive: bool)
      requires Valid() && Runs(me, c) && checks[c].pc == Reading && checks[c].score == score
      modifies this
      ensures Checking(me, c, alive)
      ensures alive ==> checks[c].pc == Concluded && checks[c].score == score
      ensures alive ==> HasConcluded(c)
    {
      var failure, success := SelectCounters(c);
      var health;
      health, failure, success := Health.Conclude(score, Health.Counters(failure, success),
                                                  cfg.failureThreshold, cfg.successRecovery);
      alive := Pause(me, c);
      if !alive {
        return;
      }
      UpdateCounters(c, score >= 5, health, failure, success);
    }

    /** The probes selected and run, the score kept in the check. */
    method RunChecks(me: Option<nat>, c: nat, configured: seq<Health.EnabledProbe>)
      returns (alive: bool, selected: Option<seq<Health.EnabledProbe>>, score: nat)
      requires Valid() && Runs(me, c) && checks[c].pc == Probing
      modifies this
      ensures Checking(me, c, alive)
      ensures alive && selected.None? ==> Dead(c)
      ensures selected.Some? ==> selected.value <= configured
      ensures alive && !Dead(c) ==> selected == Some(configured)
      ensures alive ==> score == if selected.Some? then Health.Score(selected.value) else 0
      ensures alive ==> && checks[c].pc == (if selected.None? || selected == Some([]) then Refused else Reading)
                        && checks[c].score == score
    {
      score := 0;
      alive, selected := SelectProbes(me, c, configured);
      if !alive {
        return;
      }
      var ps := if selected.Some? then selected.value else [];
      alive, score := ExecuteProbes(me, c, ps);
      if !alive {
        return;
      }
      KeepScore(c, score, |ps|);
    }

    /** `checkMachineNow` for a machine whose enabled probes are `configured`. It fails exactly when
        the query fails or selects no probe; the query selects all of them unless the request has
        been cancelled. The score is that of the selected probes, and the check that has concluded
        starts an automatic rotation exactly as `HasConcluded` says. */
    method CheckMachineNow(me: Option<nat>, c: nat, configured: seq<Health.EnabledProbe>)
      returns (alive: bool, err: bool, score: nat, selected: Option<seq<Health.EnabledProbe>>)
      requires Valid() && Runs(me, c) && checks[c].pc == Probing
      modifies this
      ensures Checking(me, c, alive)
      ensures alive ==> (err <==> selected.None? || selected == Some([]))
      ensures alive && selected.None? ==> Dead(c)
      ensures selected.Some? ==> selected.value <= configured
      ensures alive && !Dead(c) ==> selected == Some(configured)
      ensures alive ==> score == if selected.Some? then Health.Score(selected.value) else 0
      ensures alive ==> checks[c].pc == (if err then Refused else Concluded) && checks[c].score == score
      ensures alive && !err ==> HasConcluded(c)
    {
      err := false;
      alive, selected, score := RunChecks(me, c, configured);
      if !alive {
        return;
      }
      if selected.None? || selected == Some([]) {
        err := true;
        return;
      }
      alive := Pause(me, c);
      if alive {
        alive := JudgeMachine(me, c, score);
      }
    }

    // ----- rotate -----

    /** Results that come before a ledger row exists. */
    predicate Early(why: Outcome) {
      why != ChangeFailed && why != NoNewIP && why != Rotated
    }

    /** What a stretch of `rotate` guarantees about the goroutine that ran it. */
    twostate predicate Ran(me: nat, alive: bool)
      requires me < |old(attempts)|
      reads this
    {
      && Extends() && old(now) <= now && me < |attempts|
      && if !alive then attempts[me].pc == Crashed
         else attempts[me].machine == old(attempts[me]).machine && attempts[me].trigger == old(attempts[me]).trigger
    }

    /** `checkMachineNow` is called, after whatever others do before it. */
    method BeginCheck(me: nat, step: Step) returns (alive: bool, c: nat)
      requires Valid() && (step == StartConfirm || step == StartPost) && Stands(me, Site(step))
      modifies this
      ensures Ran(me, alive)
      ensures alive ==>
                && Runs(Some(me), c) && checks[c].pc == Probing
                && attempts[me].pc == (if step == StartConfirm then Confirming else PostWait) && attempts[me].check == c
                && Keeps(old(attempts[me]), attempts[me])
    {
      c := 0;
      alive := Interfere(Some(me), None);
      if alive {
        c := StartCheck(me, step);
      }
    }

    /** A call of `checkMachineNow` by the goroutine itself, run to its end. */
    method OwnCheck(me: nat, step: Step) returns (alive: bool, c: nat, err: bool, score: nat)
      requires Valid() && (step == StartConfirm || step == StartPost) && Stands(me, Site(step))
      modifies this
      ensures Ran(me, alive)
      ensures alive ==> c < |checks| && checks[c].owner == Some(me)
      ensures alive ==> checks[c].pc == (if err then Refused else Concluded) && checks[c].score == score
      ensures alive ==> attempts[me].pc == (if step == StartConfirm then Confirming else PostWait) && attempts[me].check == c
      ensures alive ==> Keeps(old(attempts[me]), attempts[me])
    {
      err, score := false, 0;
      alive, c := BeginCheck(me, step);
      if !alive {
        return;
      }
      var configured: seq<Health.EnabledProbe>, selected := *, None;
      alive, err, score, selected := CheckMachineNow(Some(me), c, configured);
    }

    /** The confirmation check: the attempt goes on exactly when its own check has concluded with a
        failing score. */
    method ConfirmFailure(me: nat) returns (alive: bool, confirmed: bool)
      requires Valid() && Stands(me, Confirm)
      modifies this
      ensures Ran(me, alive)
      ensures alive ==> attempts[me].oldIP == old(attempts[me]).oldIP
      ensures alive ==> var c := attempts[me].check;
                        confirmed <==> c < |checks| && checks[c].owner == Some(me) && checks[c].pc == Concluded && checks[c].score >= 5
      ensures alive ==> if confirmed then attempts[me].pc == Provider
                        else attempts[me].pc == Release && attempts[me].outcome == Unconfirmed
    {
      confirmed := false;
      var c, err, score;
      alive, c, err, score := OwnCheck(me, StartConfirm);
      if !alive {
        return;
      }
      EndCheck(me, EndConfirm, c);
      confirmed := !err && score >= 5;
    }

    /** The daily cap: the attempt leaves exactly when the completed rotations of the machine since the
        start of the UTC day, as it was on entry, have reached the cap. */
    method CapGate(me: nat, id: MachineId) returns (alive: bool, full: bool)
      requires Valid() && Stands(me, ReadDay) && attempts[me].machine == id
      modifies this
      ensures Ran(me, alive)
      ensures alive ==>
                var midnight := old(now) / 1_000_000_000 / 86400 * 86400;
                full <==> |set r: nat | r < |rows| && rows[r].machine == id && rows[r].status == Completed
                                        && midnight <= rows[r].started| >= cfg.maxRotationsPerDay
      ensures alive ==> attempts[me].oldIP == old(attempts[me]).oldIP
      ensures alive ==> if full then attempts[me].pc == Release && attempts[me].outcome == CapReached
                        else attempts[me].pc == if cfg.requireConfirmation then Confirm else Provider
    {
      full := true;
      var midnight := TimeAtMidnight(me);
      alive := Interfere(Some(me), None);
      if !alive {
        return;
      }
      var count := CountCompleted(me, id, midnight);
      full := count >= cfg.maxRotationsPerDay;
    }

    /** The cooldown: the attempt leaves exactly while the clock is before the cooldown it read. */
    method CooldownGate(me: nat, until: Option<int>) returns (alive: bool, cooling: bool)
      requires Valid() && Stands(me, Gate) && attempts[me].seenCooldown == until
      modifies this
      ensures Ran(me, alive)
      ensures cooling <==> until.Some? && old(now) < until.value * 1_000_000_000
      ensures alive ==> attempts[me].oldIP == old(attempts[me]).oldIP
      ensures alive ==> if cooling then attempts[me].pc == Release && attempts[me].outcome == CoolingDown
                        else attempts[me].pc == ReadDay
    {
      var t := TimeAtGate(me);
      cooling := until.Some? && BeforeStamp(t, until.value);
      alive := Interfere(Some(me), None);
    }

    /** The cooldown, then the daily cap. */
    method Limits(me: nat, id: MachineId, until: Option<int>) returns (alive: bool, why: Outcome)
      requires Valid() && Stands(me, Gate) && attempts[me].machine == id && attempts[me].seenCooldown == until
      modifies this
      ensures Ran(me, alive)
      ensures why == Pending || why == CoolingDown || why == CapReached
      ensures alive ==> attempts[me].oldIP == old(attempts[me]).oldIP
      ensures alive ==> if why == Pending then attempts[me].pc == if cfg.requireConfirmation then Confirm else Provider
                        else attempts[me].pc == Release && attempts[me].outcome == why
    {
      var cooling, full;
      alive, cooling := CooldownGate(me, until);
      if !alive || cooling {
        return alive, CoolingDown;
      }
      alive, full := CapGate(me, id);
      why := if full then CapReached else Pending;
    }

    /** The gates of an automatic rotation: switches, cooldown, daily cap, confirmation. */
    method Gates(me: nat, id: MachineId, m: Machine) returns (alive: bool, why: Outcome)
      requires Valid() && me < |attempts| && attempts[me].machine == id && attempts[me].trigger == Auto
      requires attempts[me].oldIP == m.profile.ipv4
      requires if cfg.autoRotateGlobal && m.autoRotate then
                 attempts[me].pc == Gate && attempts[me].seenCooldown == m.cooldownUntil
               else attempts[me].pc == Release && attempts[me].outcome == Disabled
      modifies this
      ensures Ran(me, alive)
      ensures why == Pending || why == Disabled || why == CoolingDown || why == CapReached || why == Unconfirmed
      ensures why == Disabled <==> !cfg.autoRotateGlobal || !m.autoRotate
      ensures why == Unconfirmed ==> cfg.requireConfirmation
      ensures alive ==> if why == Pending then attempts[me].pc == Provider && attempts[me].oldIP == m.profile.ipv4
                        else attempts[me].pc == Release && attempts[me].outcome == why
    {
      if !cfg.autoRotateGlobal || !m.autoRotate {
        return true, Disabled;
      }
      var confirmed;
      alive, why := Limits(me, id, m.cooldownUntil);
      if !alive || why != Pending {
        return;
      }
      if cfg.requireConfirmation {
        alive, confirmed := ConfirmFailure(me);
        why := if confirmed then Pending else Unconfirmed;
      }
    }

    /** `client.ListMachines` before the rotation, or the provider client's failure. The old address is
        that of the first entry of the machine with an address, the stored one without such an entry
        or without a list; a cancelled request gets no list. */
    method ResolveProvider(me: nat, id: MachineId, stored: string)
      returns (alive: bool, clientOk: bool, oldIP: string, listed: Option<seq<ProviderMachine>>)
      requires Valid() && Stands(me, Provider) && attempts[me].machine == id && attempts[me].oldIP == stored
      modifies this
      ensures Ran(me, alive)
      ensures alive ==> if clientOk then attempts[me].pc == Stamp && attempts[me].oldIP == oldIP
                        else attempts[me].pc == Release && attempts[me].outcome == NoClient
      ensures listed.None? ==> oldIP == stored
      ensures listed.Some? && oldIP != stored ==> exists k :: 0 <= k < |listed.value| && listed.value[k].id == id && listed.value[k].ipv4 == oldIP != ""
      ensures listed.Some? ==> forall k :: 0 <= k < |listed.value| && listed.value[k].id == id && listed.value[k].ipv4 != "" ==>
                exists j :: 0 <= j <= k && listed.value[j].id == id && listed.value[j].ipv4 == oldIP
    {
      oldIP, listed := stored, None;
      clientOk := *;
      alive := Interfere(Some(me), None);
      if !alive {
        return;
      }
      var answer: Option<seq<ProviderMachine>> := *;
      if attempts[me].ctx.Live? {
        listed := answer;
      }
      Perform(Own(me, Resolve(clientOk, listed)));
      if listed.Some? {
        oldIP := FindCurrentIP(listed.value, id, stored);
      }
    }

    /** `started := store.Now()`. */
    method StampStarted(me: nat) returns (alive: bool, t: int)
      requires Valid() && Stands(me, Stamp)
      modifies this
      ensures Ran(me, alive)
      ensures alive ==> && attempts[me].pc == Insert && attempts[me].started == t / 1_000_000_000 && old(now) <= t <= now
                        && attempts[me].oldIP == old(attempts[me]).oldIP
    {
      t := 0;
      alive := Interfere(Some(me), None);
      if alive {
        t := TimeNow(me, StampStart);
      }
    }

    /** The clock reading and the insertion of the ledger row. */
    method StartRow(me: nat, id: MachineId, trigger: Trigger, oldIP: string) returns (alive: bool, row: Option<nat>)
      requires Valid() && Stands(me, Stamp)
      requires attempts[me].machine == id && attempts[me].trigger == trigger && attempts[me].oldIP == oldIP
      modifies this
      ensures Ran(me, alive)
      ensures alive ==> if row.Some?
                        then attempts[me].pc == Call && attempts[me].row == row.value && attempts[me].oldIP == oldIP
                        else attempts[me].pc == Release && attempts[me].outcome == NoRow
      ensures alive && row.Some? ==>
                && row.value + 1 == |rows| && old(now) / 1_000_000_000 <= attempts[me].started <= now / 1_000_000_000
                && rows[row.value] == Row(id, oldIP, "", trigger, Running, DnsNone, PostNone, attempts[me].started, None, me)
    {
      row := None;
      var t;
      alive, t := StampStarted(me);
      if !alive {
        return;
      }
      alive := Interfere(Some(me), None);
      if alive {
        row := InsertRotation(me, id, oldIP, trigger, Secs(t));
      }
    }

    /** From the provider client to the inserted ledger row. */
    method OpenRow(me: nat, id: MachineId, trigger: Trigger, stored: string)
      returns (alive: bool, why: Outcome, oldIP: string, row: nat)
      requires Valid() && Stands(me, Provider)
      requires attempts[me].machine == id && attempts[me].trigger == trigger && attempts[me].oldIP == stored
      modifies this
      ensures Ran(me, alive)
      ensures Early(why)
      ensures alive ==> if why == Pending
                        then attempts[me].pc == Call && attempts[me].row == row && attempts[me].oldIP == oldIP
                        else attempts[me].pc == Release && attempts[me].outcome == why
    {
      why, row := NoClient, 0;
      var clientOk;
      var listed;
      alive, clientOk, oldIP, listed := ResolveProvider(me, id, stored);
      if !alive || !clientOk {
        return;
      }
      var inserted;
      alive, inserted := StartRow(me, id, trigger, oldIP);
      match inserted
      case Some(r) => why, row := Pending, r;
      case None => why := NoRow;
    }

    /** `client.ChangeIP`, which succeeds if the provider accepts it and the request is live. */
    method CallChangeIP(me: nat, accepted: bool) returns (ok: bool)
      requires Valid() && Stands(me, Call)
      modifies this
      ensures Took(Own(me, ChangeIP(ok))) && now == old(now) && machines == old(machines) && rows == old(rows)
      ensures ok <==> accepted && old(attempts[me]).ctx.Live?
      ensures me < |attempts| && var a, b := old(attempts[me]), attempts[me];
              && b.machine == a.machine && b.trigger == a.trigger && b.row == a.row && b.oldIP == a.oldIP
              && (if ok then b.pc == Poll else b.pc == Fail && b.outcome == ChangeFailed)
    {
      ok := accepted && attempts[me].ctx.Live?;
      Perform(Own(me, ChangeIP(ok)));
    }

    /** One list call of the polling loop; it fails under a cancelled context. */
    method PollOnce(me: nat, id: MachineId, oldIP: string, listed: Answer) returns (newIP: string, answer: Answer)
      requires Valid() && Stands(me, Poll) && attempts[me].machine == id && attempts[me].oldIP == oldIP
      modifies this
      ensures Extends() && now == old(now) && slept == old(slept)
      ensures answer == if old(attempts[me]).ctx.Live? then listed else None
      ensures newIP == "" ==> attempts == old(attempts) && NothingNew(answer, id, oldIP)
      ensures newIP != "" ==> FirstNew(answer, id, oldIP, newIP) && Moved(me, old(attempts[me]).(pc := Cool, newIP := newIP))
    {
      newIP, answer := "", None;
      if attempts[me].ctx.Live? {
        answer := listed;
      }
      if answer.Some? {
        newIP := FindChangedIP(answer.value, id, oldIP);
        if newIP != "" {
          Perform(Own(me, PollHit(answer.value)));
        }
      }
    }

    /** The polling loop has ended without a new address. */
    method EndPolling(me: nat)
      requires Valid() && Stands(me, Poll)
      modifies this
      ensures Took(Own(me, PollEnd)) && now == old(now)
      ensures Moved(me, old(attempts[me]).(pc := Fail, outcome := NoNewIP))
    {
      Perform(Own(me, PollEnd));
    }

    /** `select` between a timer and the request context. */
    method Sleep(me: nat, duration: nat) returns (alive: bool, err: bool)
      requires Valid() && Stands(me, Poll)
      modifies this
      ensures Extends() && old(now) <= now && me < |attempts| && slept == old(slept) + duration
      ensures if alive then Disturbed(old(attempts[me]), attempts[me]) else attempts[me].pc == Crashed
      ensures alive && !err ==> old(now) + duration <= now
      ensures err ==> alive && attempts[me].ctx.Cancelled?
    {
      err, slept := false, slept + duration;
      alive := Interfere(Some(me), None);
      if !alive {
        return;
      }
      var early: bool := *;
      if early && attempts[me].ctx.Cancelled? {
        err := true;
      } else {
        Perform(Env(Tick(duration)));
        alive := Interfere(Some(me), None);
      }
    }

    /** The configured wait before polling, if any. */
    method Wait(me: nat) returns (alive: bool, err: bool)
      requires Valid() && Stands(me, Poll)
      modifies this
      ensures Extends() && old(now) <= now && me < |attempts|
      ensures if alive then Disturbed(old(attempts[me]), attempts[me]) else attempts[me].pc == Crashed
      ensures alive && !err ==> old(now) + cfg.changeIPWait <= now
      ensures alive && err ==> attempts[me].ctx.Cancelled?
      ensures alive ==> slept == old(slept) + (if cfg.changeIPWait > 0 then cfg.changeIPWait else 0)
    {
      err := false;
      alive := Interfere(Some(me), None);
      if alive && cfg.changeIPWait > 0 {
        alive, err := Sleep(me, cfg.changeIPWait);
      }
    }

    /** The process has crashed or the request been cancelled. */
    ghost predicate Lost(me: nat, alive: bool)
      requires me < |attempts|
      reads this
    {
      !alive || attempts[me].ctx.Cancelled?
    }

    /** One turn of the polling loop: the answer of its call, unless the process crashes before it. */
    method PollTurn(me: nat, id: MachineId, oldIP: string, listed: Answer)
      returns (alive: bool, err: bool, newIP: string, answers: seq<Answer>)
      requires Valid() && Stands(me, Poll) && attempts[me].machine == id && attempts[me].oldIP == oldIP
      modifies this
      ensures Extends() && old(now) <= now && me < |attempts|
      ensures me < |attempts| && Polled(old(attempts[me]), attempts[me], alive, newIP) && (alive ==> |answers| == 1)
      ensures Turned(answers, listed, id, oldIP, newIP, Lost(me, alive))
      ensures newIP != "" ==> slept == old(slept)
      ensures newIP == "" && alive ==> slept == old(slept) + 10_000_000_000
      ensures newIP == "" && alive && !err ==> old(now) + POLL_INTERVAL <= now
      ensures err ==> alive && attempts[me].ctx.Cancelled?
    {
      err, newIP, answers := false, "", [];
      alive := Interfere(Some(me), None);
      if !alive {
        return;
      }
      var answer;
      newIP, answer := PollOnce(me, id, oldIP, listed);
      answers := [answer];
      if newIP == "" {
        alive, err := Sleep(me, POLL_INTERVAL);
      }
    }

    /** The polling loop; `provider` has the answers to its calls. It ends with the first new address
        that an answer holds, or else when the timeout is over or the request cancelled. It sets a
        timer of ten seconds after every other answer, and so makes at most
        `ceil(ChangeIPPollTimeout / 10s)` list calls, none if the timeout is not positive. */
    method PollLoop(me: nat, id: MachineId, oldIP: string, provider: nat -> Answer)
      returns (alive: bool, newIP: string, answers: seq<Answer>)
      requires Valid() && Stands(me, Poll) && attempts[me].machine == id && attempts[me].oldIP == oldIP
      modifies this
      ensures Extends() && old(now) <= now && me < |attempts| && Polled(old(attempts[me]), attempts[me], alive, newIP)
      ensures alive && newIP == "" ==> now >= old(now) + cfg.pollTimeout || attempts[me].ctx.Cancelled?
      ensures Course(answers, provider, id, oldIP, newIP, Lost(me, alive))
      ensures answers != [] ==> (|answers| - 1) * 10_000_000_000 < cfg.pollTimeout
      ensures alive ==> slept == old(slept) + 10_000_000_000 * (|answers| - if newIP == "" then 0 else 1)
    {
      var err := false;
      alive, newIP, answers := true, "", [];
      var start := now;
      ghost var first, slept0 := attempts[me], slept;
      while alive && !err && newIP == "" && now < start + cfg.pollTimeout
        invariant Extends() && start <= now && me < |attempts|
        invariant err ==> alive && attempts[me].ctx.Cancelled?
        invariant Looped(first, attempts[me], answers, provider, id, oldIP, newIP, slept - slept0, now - start, cfg.pollTimeout,
                         alive, alive && !err && newIP == "")
        decreases alive && !err && newIP == "", start + cfg.pollTimeout - now
      {
        var more;
        ghost var was, waited, elapsed := attempts[me], slept - slept0, now - start;
        alive, err, newIP, more := PollTurn(me, id, oldIP, provider(|answers|));
        OneMoreTurn(first, was, attempts[me], answers, more, provider, id, oldIP, newIP, waited, slept - slept0,
                    elapsed, now - start, cfg.pollTimeout, alive, alive && !err && newIP == "");
        answers := answers + more;
      }
    }

    /** The wait and the polling loop. */
    method WaitAndPoll(me: nat, id: MachineId, oldIP: string, provider: nat -> Answer)
      returns (alive: bool, newIP: string, answers: seq<Answer>)
      requires Valid() && Stands(me, Poll) && attempts[me].machine == id && attempts[me].oldIP == oldIP
      modifies this
      ensures Extends() && old(now) <= now && me < |attempts| && Polled(old(attempts[me]), attempts[me], alive, newIP)
      ensures alive && newIP == "" ==>
                now >= old(now) + cfg.changeIPWait + cfg.pollTimeout || attempts[me].ctx.Cancelled?
      ensures Course(answers, provider, id, oldIP, newIP, Lost(me, alive))
      ensures answers != [] ==> (|answers| - 1) * 10_000_000_000 < cfg.pollTimeout && old(now) + cfg.changeIPWait <= now
      ensures alive ==> slept == old(slept) + (if cfg.changeIPWait > 0 then cfg.changeIPWait else 0)
                                + 10_000_000_000 * (|answers| - if newIP == "" then 0 else 1)
    {
      var err;
      newIP, answers := "", [];
      ghost var first := attempts[me];
      alive, err := Wait(me);
      if !alive || err {
        return;
      }
      ghost var waited := attempts[me];
      alive, newIP, answers := PollLoop(me, id, oldIP, provider);
      PolledOn(first, waited, attempts[me], alive, newIP);
    }

    /** From the accepted ChangeIP to a new address of this machine or a failure. No list call is
        made before the configured wait is over; a wait cut short leaves none to make. A failure
        means that the wait and the timeout are over or the request is cancelled, and that no answer
        held a non-empty address of the machine other than the old one. A success is the first such
        address of the last answer, and no earlier answer held one. */
    method PollForNewIP(me: nat, id: MachineId, oldIP: string, provider: nat -> Answer)
      returns (alive: bool, newIP: string, answers: seq<Answer>)
      requires Valid() && Stands(me, Poll) && attempts[me].machine == id && attempts[me].oldIP == oldIP
      modifies this
      ensures Ran(me, alive)
      ensures alive ==> attempts[me].row == old(attempts[me]).row && attempts[me].oldIP == oldIP
      ensures alive ==> if newIP != "" then attempts[me].pc == Cool && attempts[me].newIP == newIP
                        else attempts[me].pc == Fail && attempts[me].outcome == NoNewIP
      ensures alive && newIP == "" ==>
                now >= old(now) + cfg.changeIPWait + cfg.pollTimeout || attempts[me].ctx.Cancelled?
      ensures alive ==> forall i :: 0 <= i < |answers| ==>
                answers[i] == provider(i) || (answers[i].None? && attempts[me].ctx.Cancelled?)
      ensures forall i, j :: 0 <= i < |answers| - (if newIP == "" then 0 else 1) && answers[i].Some? && 0 <= j < |answers[i].value| ==>
                var e := answers[i].value[j]; !(e.id == id && e.ipv4 != "" && e.ipv4 != oldIP)
      ensures newIP != "" ==> answers != [] && answers[|answers| - 1].Some?
      ensures newIP != "" ==>
                var list := answers[|answers| - 1].value;
                exists k :: 0 <= k < |list| && list[k].id == id && list[k].ipv4 == newIP && newIP != oldIP
                            && forall j :: 0 <= j < k ==> !(list[j].id == id && list[j].ipv4 != "" && list[j].ipv4 != oldIP)
      ensures answers != [] ==> (|answers| - 1) * 10_000_000_000 < cfg.pollTimeout && old(now) + cfg.changeIPWait <= now
      ensures alive ==> slept == old(slept) + (if cfg.changeIPWait > 0 then cfg.changeIPWait else 0)
                                + 10_000_000_000 * (|answers| - if newIP == "" then 0 else 1)
    {
      alive, newIP, answers := WaitAndPoll(me, id, oldIP, provider);
      if alive && newIP == "" {
        EndPolling(me);
      }
    }

    /** The instant the cooldown starts at. */
    method StampExpiry(me: nat) returns (alive: bool, t: int)
      requires Valid() && Stands(me, Cool)
      modifies this
      ensures Ran(me, alive)
      ensures alive ==> && attempts[me].pc == Write && attempts[me].stamp == t && old(now) <= t <= now
                        && attempts[me].row == old(attempts[me]).row && attempts[me].newIP == old(attempts[me]).newIP
    {
      t := 0;
      alive := Interfere(Some(me), None);
      if alive {
        t := TimeNow(me, StampCooldown);
      }
    }

    /** `rotation_cooldown_until` is computed and the machine row updated. */
    method StoreRotation(me: nat, id: MachineId, newIP: string) returns (alive: bool)
      requires Valid() && Stands(me, Cool) && attempts[me].machine == id && attempts[me].newIP == newIP
      modifies this
      ensures Ran(me, alive)
      ensures alive ==> attempts[me].pc == Sync && attempts[me].row == old(attempts[me]).row && attempts[me].newIP == newIP
    {
      var t;
      alive, t := StampExpiry(me);
      if !alive {
        return;
      }
      alive := Interfere(Some(me), None);
      if alive {
        UpdateMachine(me, id, newIP, t);
      }
    }

    /** DNS synchronisation after the rotation: whether it fails, and how many records the count then
        finds selected. */
    method SyncRecords(me: nat, failed: bool, selected: nat) returns (alive: bool, dns: DnsStatus)
      requires Valid() && Stands(me, Sync)
      modifies this
      ensures Ran(me, alive)
      ensures dns == DnsFailed <==> failed
      ensures dns == DnsCompleted <==> !failed && selected > 0
      ensures dns == DnsDisabled <==> !failed && selected == 0
      ensures alive ==> && attempts[me].pc == Post && attempts[me].dns == dns
                        && attempts[me].row == old(attempts[me]).row && attempts[me].newIP == old(attempts[me]).newIP
    {
      dns := DnsDisabled;
      if failed {
        dns := DnsFailed;
      } else if selected > 0 {
        dns := DnsCompleted;
      }
      alive := Interfere(Some(me), None);
      if alive {
        Perform(Own(me, SyncDNS(dns)));
      }
    }

    /** The post-rotation check. */
    method PostCheck(me: nat) returns (alive: bool, post: PostStatus)
      requires Valid() && Stands(me, Post)
      modifies this
      ensures Ran(me, alive)
      ensures alive ==> var c := attempts[me].check;
                        && c < |checks| && checks[c].owner == Some(me) && Ended(checks[c].pc)
                        && post == if checks[c].pc == Refused then PostNotRun
                                   else if checks[c].score == 0 then PostPassed else PostFailed
      ensures alive ==> && attempts[me].pc == Finish && attempts[me].post == post
                        && attempts[me].row == old(attempts[me]).row && attempts[me].newIP == old(attempts[me]).newIP
                        && attempts[me].dns == old(attempts[me]).dns
    {
      var c, err, score;
      alive, c, err, score := OwnCheck(me, StartPost);
      if !alive {
        return alive, PostNone;
      }
      post := if err then PostNotRun else if score == 0 then PostPassed else PostFailed;
      EndCheck(me, EndPost, c);
    }

    /** The attempt's row has this final status. */
    ghost predicate Recorded(me: nat, row: nat, status: RowStatus)
      reads this
    {
      row < |rows| && rows[row].author == me && rows[row].status == status
    }

    /** The invariant says that the attempt holds a running row of its own. */
    lemma HeldRow(me: nat)
      requires Valid() && me < |attempts| && Ledger.HoldsRow(attempts[me].pc)
      ensures Recorded(me, attempts[me].row, Running)
    {
      Safety.RunInv(cfg, states, acts, |acts|);
    }

    /** The failing end of `rotate`. */
    method GiveUp(me: nat, row: nat) returns (alive: bool)
      requires Valid() && Stands(me, Fail) && attempts[me].row == row
      modifies this
      ensures Ran(me, alive)
      ensures alive ==> attempts[me].pc == Release && attempts[me].outcome == old(attempts[me]).outcome
      ensures alive ==> Recorded(me, row, Failed)
    {
      alive := Interfere(Some(me), None);
      if !alive {
        return;
      }
      HeldRow(me);
      FailRotation(me, row);
    }

    /** The completing end of `rotate`. The update is lost when the context is cancelled. */
    method Complete(me: nat, row: nat, newIP: string, dns: DnsStatus, post: PostStatus) returns (alive: bool)
      requires Valid() && Stands(me, Finish)
      requires var a := attempts[me]; a.row == row && a.newIP == newIP && a.dns == dns && a.post == post
      modifies this
      ensures Ran(me, alive)
      ensures alive ==> attempts[me].pc == Release && attempts[me].outcome == Rotated
      ensures alive ==> Recorded(me, row, if attempts[me].ctx.Live? then Completed else Running)
    {
      alive := Interfere(Some(me), None);
      if alive {
        HeldRow(me);
        CompleteRotation(me, row, newIP, dns, post);
      }
    }

    /** The machine row and the DNS records. */
    method StoreAndSync(me: nat, id: MachineId, newIP: string) returns (alive: bool, dns: DnsStatus)
      requires Valid() && Stands(me, Cool) && attempts[me].machine == id && attempts[me].newIP == newIP
      modifies this
      ensures Ran(me, alive)
      ensures alive ==> && attempts[me].pc == Post && attempts[me].dns == dns
                        && attempts[me].row == old(attempts[me]).row && attempts[me].newIP == newIP
    {
      dns := DnsNone;
      alive := StoreRotation(me, id, newIP);
      if alive {
        var failed: bool, selected: nat := *, *;
        alive, dns := SyncRecords(me, failed, selected);
      }
    }

    /** From the new address to the completed row. */
    method CommitRotation(me: nat, id: MachineId, row: nat, newIP: string) returns (alive: bool)
      requires Valid() && Stands(me, Cool)
      requires attempts[me].machine == id && attempts[me].row == row && attempts[me].newIP == newIP
      modifies this
      ensures Ran(me, alive)
      ensures alive ==> attempts[me].pc == Release && attempts[me].outcome == Rotated
      ensures alive ==> Recorded(me, row, if attempts[me].ctx.Live? then Completed else Running)
    {
      var dns, post;
      alive, dns := StoreAndSync(me, id, newIP);
      if !alive {
        return;
      }
      alive, post := PostCheck(me);
      if !alive {
        return;
      }
      alive := Complete(me, row, newIP, dns, post);
    }

    /** How the ledger row ends, given the result of `rotate`. */
    ghost predicate Closed(me: nat, row: nat, result: Outcome)
      requires me < |attempts|
      reads this
    {
      && (result == ChangeFailed || result == NoNewIP ==> Recorded(me, row, Failed))
      && (result == Rotated && attempts[me].ctx.Live? ==> Recorded(me, row, Completed))
    }

    /** ChangeIP, after whatever others do before it. */
    method RequestChange(me: nat) returns (alive: bool, ok: bool)
      requires Valid() && Stands(me, Call)
      modifies this
      ensures Ran(me, alive)
      ensures alive ==> && attempts[me].row == old(attempts[me]).row && attempts[me].oldIP == old(attempts[me]).oldIP
                        && if ok then attempts[me].pc == Poll
                           else attempts[me].pc == Fail && attempts[me].outcome == ChangeFailed
    {
      ok := false;
      alive := Interfere(Some(me), None);
      if alive {
        var accepted: bool := *;
        ok := CallChangeIP(me, accepted);
      }
    }

    /** ChangeIP and the wait for its effect. */
    method ChangeAndWait(me: nat, id: MachineId, oldIP: string) returns (alive: bool, why: Outcome, newIP: string)
      requires Valid() && Stands(me, Call) && attempts[me].machine == id && attempts[me].oldIP == oldIP
      modifies this
      ensures Ran(me, alive)
      ensures alive ==> attempts[me].row == old(attempts[me]).row
      ensures alive ==> if newIP != "" then attempts[me].pc == Cool && attempts[me].newIP == newIP
                        else attempts[me].pc == Fail && attempts[me].outcome == why && (why == ChangeFailed || why == NoNewIP)
    {
      newIP, why := "", ChangeFailed;
      var provider: nat -> Answer := *;
      var ok, answers;
      alive, ok := RequestChange(me);
      if alive && ok {
        why := NoNewIP;
        alive, newIP, answers := PollForNewIP(me, id, oldIP, provider);
      }
    }

    /** ChangeIP and the wait for its effect; on failure the row is closed. */
    method ChangeAndPoll(me: nat, id: MachineId, row: nat, oldIP: string)
      returns (alive: bool, result: Outcome, newIP: string)
      requires Valid() && Stands(me, Call)
      requires attempts[me].machine == id && attempts[me].row == row && attempts[me].oldIP == oldIP
      modifies this
      ensures Ran(me, alive)
      ensures alive ==> if result == Pending
                        then attempts[me].pc == Cool && attempts[me].row == row && attempts[me].newIP == newIP
                        else attempts[me].pc == Release && attempts[me].outcome == result
                             && (result == ChangeFailed || result == NoNewIP) && Recorded(me, row, Failed)
    {
      alive, result, newIP := ChangeAndWait(me, id, oldIP);
      if alive && newIP == "" {
        alive := GiveUp(me, row);
      } else {
        result := Pending;
      }
    }

    /** From ChangeIP to the end of the critical section. */
    method ChangeAndCommit(me: nat, id: MachineId, row: nat, oldIP: string) returns (alive: bool, result: Outcome)
      requires Valid() && Stands(me, Call)
      requires attempts[me].machine == id && attempts[me].row == row && attempts[me].oldIP == oldIP
      modifies this
      ensures Ran(me, alive)
      ensures alive ==> attempts[me].pc == Release && attempts[me].outcome == result && Closed(me, row, result)
    {
      var newIP;
      alive, result, newIP := ChangeAndPoll(me, id, row, oldIP);
      if alive && result == Pending {
        alive := CommitRotation(me, id, row, newIP);
        result := Rotated;
      }
    }

    /** The machine row and, for an automatic rotation, the gates; a manual one passes none. */
    method Admit(me: nat, id: MachineId, trigger: Trigger) returns (alive: bool, result: Outcome, stored: string)
      requires Valid() && Stands(me, Locked) && attempts[me].machine == id && attempts[me].trigger == trigger
      modifies this
      ensures Ran(me, alive) && Early(result)
      ensures result == NotFound <==> !old(attempts[me].ctx.Live? && id in machines)
      ensures alive ==> (result == Disabled <==> old(trigger == Auto && attempts[me].ctx.Live? && id in machines
                                                     && !(cfg.autoRotateGlobal && machines[id].autoRotate)))
      ensures trigger == Manual && result != NotFound ==> result == Pending && stored == old(machines)[id].profile.ipv4
      ensures alive ==> if result == Pending then attempts[me].pc == Provider && attempts[me].oldIP == stored
                        else attempts[me].pc == Release && attempts[me].outcome == result
    {
      alive, result, stored := true, Pending, "";
      var m := SelectMachine(me);
      match m
      case None => result := NotFound;
      case Some(row) =>
        stored := row.profile.ipv4;
        alive := Interfere(Some(me), None);
        if alive && trigger == Auto {
          alive, result := Gates(me, id, row);
        }
    }

    /** What `rotate` does between taking and leaving the lock map. */
    method Guarded(me: nat, id: MachineId, trigger: Trigger) returns (alive: bool, result: Outcome, row: nat)
      requires Valid() && Stands(me, Locked) && attempts[me].machine == id && attempts[me].trigger == trigger
      modifies this
      ensures Ran(me, alive)
      ensures alive ==> attempts[me].pc == Release && attempts[me].outcome == result && Closed(me, row, result)
    {
      row := 0;
      var stored;
      alive, result, stored := Admit(me, id, trigger);
      if !alive || result != Pending {
        return;
      }
      var oldIP;
      alive, result, oldIP, row := OpenRow(me, id, trigger, stored);
      if !alive || result != Pending {
        return;
      }
      alive, result := ChangeAndCommit(me, id, row, oldIP);
    }

    /** The deferred unlock. */
    method Unlocked(me: nat) returns (alive: bool)
      requires Valid() && Stands(me, Release)
      modifies this
      ensures Extends() && me < |attempts|
      ensures if alive then Disturbed(old(attempts[me]).(pc := Done), attempts[me]) else attempts[me].pc == Crashed
    {
      alive := Interfere(Some(me), None);
      if alive {
        Delete(me);
      }
    }

    /** The whole critical section. */
    method Section(me: nat, id: MachineId, trigger: Trigger) returns (alive: bool, result: Outcome, row: nat)
      requires Valid() && Stands(me, Locked) && attempts[me].machine == id && attempts[me].trigger == trigger
      modifies this
      ensures Extends() && me < |attempts|
      ensures if alive then attempts[me].pc == Done && attempts[me].outcome == result else attempts[me].pc == Crashed
      ensures alive ==> Closed(me, row, result)
    {
      alive, result, row := Guarded(me, id, trigger);
      if alive {
        ghost var states0, acts0 := states, acts;
        alive := Unlocked(me);
        FinalRowStays(cfg, states0, acts0, states, acts, row);
      }
    }

    /** `rotate`. Unless the process crashes, it ends with the lock left, the result recorded and
        the ledger row closed; whatever happens, it extends a run of the step system. */
    method Rotate(me: nat) returns (alive: bool, result: Outcome, row: nat)
      requires Valid() && Stands(me, Start)
      modifies this
      ensures Extends() && me < |attempts|
      ensures if alive then attempts[me].pc == Done && attempts[me].outcome == result else attempts[me].pc == Crashed
      ensures alive ==> Closed(me, row, result)
    {
      alive, result, row := true, Busy, 0;
      var id, trigger := attempts[me].machine, attempts[me].trigger;
      var loaded := LoadOrStore(me);
      if !loaded {
        alive := Interfere(Some(me), None);
        if alive {
          alive, result, row := Section(me, id, trigger);
        }
      }
    }

    /** Once `rotate` has returned or died, the lock map names no one but others. */
    lemma LockLeft(me: nat)
      requires Valid() && me < |attempts| && (attempts[me].pc == Done || attempts[me].pc == Crashed)
      ensures forall m :: m in locks ==> locks[m] != me
    {
      Safety.RunInv(cfg, states, acts, |acts|);
    }
  }

  /** The loop over the provider's list that finds the machine's current address: that of the first
      entry of the machine with an address, the stored one if there is no such entry. */
  method FindCurrentIP(list: seq<ProviderMachine>, m: MachineId, stored: string) returns (ip: string)
    ensures ip == CurrentIP(list, m, stored)
    ensures
      || (ip == stored && forall k :: 0 <= k < |list| ==> !(list[k].id == m && list[k].ipv4 != ""))
      || exists k :: 0 <= k < |list| && list[k].id == m && list[k].ipv4 == ip && ip != ""
                     && forall j :: 0 <= j < k ==> !(list[j].id == m && list[j].ipv4 != "")
  {
    ip := stored;
    for k := 0 to |list|
      invariant ip == stored && CurrentIP(list, m, stored) == CurrentIP(list[k..], m, stored)
      invariant forall j :: 0 <= j < k ==> !(list[j].id == m && list[j].ipv4 != "")
    {
      if list[k].id == m && list[k].ipv4 != "" {
        return list[k].ipv4;
      }
      assert list[k..][1..] == list[k + 1..];
    }
  }

  /** The loop over the provider's list that looks for a new address: that of the first entry of the
      machine whose address is neither empty nor the old one, empty if there is no such entry. */
  method FindChangedIP(list: seq<ProviderMachine>, m: MachineId, oldIP: string) returns (ip: string)
    ensures ip == ChangedIP(list, m, oldIP)
    ensures
      || (ip == "" && forall k :: 0 <= k < |list| ==> !(list[k].id == m && list[k].ipv4 != "" && list[k].ipv4 != oldIP))
      || exists k :: 0 <= k < |list| && list[k].id == m && list[k].ipv4 == ip && ip != "" && ip != oldIP
                     && forall j :: 0 <= j < k ==> !(list[j].id == m && list[j].ipv4 != "" && list[j].ipv4 != oldIP)
  {
    ip := "";
    for k := 0 to |list|
      invariant ip == "" && ChangedIP(list, m, oldIP) == ChangedIP(list[k..], m, oldIP)
      invariant forall j :: 0 <= j < k ==> !(list[j].id == m && list[j].ipv4 != "" && list[j].ipv4 != oldIP)
    {
      if list[k].id == m && list[k].ipv4 != "" && list[k].ipv4 != oldIP {
        return list[k].ipv4;
      }
      assert list[k..][1..] == list[k + 1..];
    }
  }
}
