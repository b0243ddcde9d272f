/** The rotation protocol as a step system. Every goroutine running `rotate` is an `Attempt`
    with a program counter, every goroutine inside `checkMachineNow` is a `Check`, and each
    database statement, lock-map operation, clock reading and provider call is one action, so
    that any two goroutines interleave between any two of them. */
module Rotation {
  import opened Options
  import opened Inventory
  import Health

  /** Instants are nanoseconds; stored instants are whole seconds. */
  const SECOND := 1_000_000_000
  const DAY_SECONDS := 86400

  function Secs(t: int): int {
    t / SECOND
  }

  function StartOfDay(secs: int): int {
    secs / DAY_SECONDS * DAY_SECONDS
  }

  function DayOf(secs: int): int {
    secs / DAY_SECONDS
  }

  datatype Config = Config(
    autoRotateGlobal: bool,
    requireConfirmation: bool,
    failureThreshold: int,
    successRecovery: int,
    maxRotationsPerDay: int,
    rotationCooldown: int,
    changeIPWait: int,
    pollTimeout: int)

  datatype Trigger = Manual | Auto

  /** A request context. Cancellation is permanent; `ipKnown` records whether the attempt had
      already seen its new address when it was cancelled. */
  datatype Context = Live | Cancelled(ipKnown: bool)

  datatype RowStatus = Running | Completed | Failed
  datatype DnsStatus = DnsNone | DnsDisabled | DnsFailed | DnsCompleted
  datatype PostStatus = PostNone | PostNotRun | PostPassed | PostFailed

  /** A row of `rotations`. `author` is a history annotation: the attempt that inserted it. */
  datatype Row = Row(
    machine: MachineId, oldIP: string, newIP: string, trigger: Trigger, status: RowStatus,
    dns: DnsStatus, post: PostStatus, started: int, finished: Option<int>, author: nat)

  datatype PC =
    | Start        // spawned, lock not yet tried
    | Locked       // about to read the machine row
    | Gate         // about to compare the clock with the cooldown it read
    | ReadDay      // about to compute the start of the UTC day
    | CountDay     // about to count the day's completed rotations
    | Confirm      // about to start the confirmation check
    | Confirming   // waiting for the confirmation check
    | Provider     // about to resolve the provider client and the old address
    | Stamp        // about to read the clock for `started_at`
    | Insert       // about to insert the ledger row
    | Call         // about to call ChangeIP
    | Poll         // waiting for a new address
    | Fail         // about to mark the row failed
    | Cool         // about to read the clock for the cooldown
    | Write        // about to update the machine row
    | Sync         // about to synchronise DNS
    | Post         // about to start the post-rotation check
    | PostWait     // waiting for the post-rotation check
    | Finish       // about to mark the row completed
    | Release      // about to leave the lock map
    | Done
    | Crashed

  datatype Outcome =
    | Pending | Busy | NotFound | Disabled | CoolingDown | CapReached | Unconfirmed
    | NoClient | NoRow | ChangeFailed | NoNewIP | Rotated

  /** The locals of one `rotate` call. The last four fields are history: the number of failing
      checks of the machine concluded when the attempt was spawned, took the lock and called
      ChangeIP, and whether it called ChangeIP at all. */
  datatype Attempt = Attempt(
    machine: MachineId, trigger: Trigger, ctx: Context, pc: PC, outcome: Outcome,
    seenCooldown: Option<int>, day: int, check: nat,
    oldIP: string, newIP: string, started: int, row: nat, stamp: int,
    dns: DnsStatus, post: PostStatus,
    failsAtSpawn: nat, failsAtLock: nat, failsAtCall: nat, called: bool)

  datatype CheckPC = Probing | Reading | Writing | Concluded | Refused | Killed

  /** The locals of one `checkMachineNow` call. `owner` is the attempt that runs it, if any;
      `cancelled` is its own request context otherwise. `failsAtStart` is history. */
  datatype Check = Check(
    machine: MachineId, owner: Option<nat>, cancelled: bool, pc: CheckPC,
    score: nat, total: nat, read: Health.Counters, failsAtStart: nat)

  /** `locks` is the lock map; the value each key carries is a history annotation naming the
      attempt that stored it. `fails`, `commits` and `detached` are history: the failing checks
      concluded per machine, the instant whose cooldown the row's attempt stored in the machine
      row that still exists, and the rows whose machine was missing at or since that write. */
  datatype State = State(
    now: int,
    machines: map<MachineId, Machine>,
    rows: seq<Row>,
    locks: map<MachineId, nat>,
    attempts: seq<Attempt>,
    checks: seq<Check>,
    fails: map<MachineId, nat>,
    commits: map<nat, int>,
    detached: set<nat>)

  /** What the environment does: time, administrators, agents, providers and crashes. */
  datatype EnvAction =
    | Tick(elapsed: nat)
    | CreateMachine(id: MachineId, profile: Profile, autoRotate: bool)
    | DeleteMachine(id: MachineId)
    | EditMachine(id: MachineId, profile: Profile, autoRotate: bool)
    | Heartbeat(id: MachineId, ipv4: string, ipv6: string)
    | SyncProvider(provider: int, list: seq<ProviderMachine>)
    | RetryDNS(row: nat)
    | StartManual(id: MachineId)
    | StartCheck(id: MachineId)
    | Crash

  /** The atomic statements of `rotate`, in program order. The arguments are oracle answers. */
  datatype Step =
    | Acquire
    | ReadMachine
    | PassGate
    | ComputeDay
    | CountRows
    | StartConfirm
    | EndConfirm
    | Resolve(clientOk: bool, listed: Option<seq<ProviderMachine>>)
    | StampStart
    | InsertRow
    | ChangeIP(ok: bool)
    | PollHit(list: seq<ProviderMachine>)
    | PollEnd
    | FailRow
    | StampCooldown
    | WriteMachine
    | SyncDNS(result: DnsStatus)
    | StartPost
    | EndPost
    | FinishRow
    | Unlock
    | CancelContext

  /** The atomic statements of `checkMachineNow`. */
  datatype CheckStep =
    | RunProbes(score: nat, total: nat)
    | ReadCounters
    | WriteCounters
    | CancelCheck

  datatype Action =
    | Env(e: EnvAction)
    | Own(i: nat, step: Step)
    | Probe(c: nat, work: CheckStep)

  function FailsOf(s: State, m: MachineId): nat {
    if m in s.fails then s.fails[m] else 0
  }

  function NewAttempt(s: State, m: MachineId, trigger: Trigger): Attempt {
    Attempt(m, trigger, Live, Start, Pending, None, 0, 0, "", "", 0, 0, 0, DnsNone, PostNone,
            FailsOf(s, m), 0, 0, false)
  }

  function NewCheck(s: State, m: MachineId, owner: Option<nat>): Check {
    Check(m, owner, false, Probing, 0, 0, Health.Counters(0, 0), FailsOf(s, m))
  }

  /** The address of the first entry of this machine with an address; the stored one otherwise. */
  function CurrentIP(list: seq<ProviderMachine>, m: MachineId, stored: string): string {
    if list == [] then stored
    else if list[0].id == m && list[0].ipv4 != "" then list[0].ipv4
    else CurrentIP(list[1..], m, stored)
  }

  /** The first address of this machine in the list that is neither empty nor the old one. */
  function ChangedIP(list: seq<ProviderMachine>, m: MachineId, oldIP: string): string {
    if list == [] then ""
    else if list[0].id == m && list[0].ipv4 != "" && list[0].ipv4 != oldIP then list[0].ipv4
    else ChangedIP(list[1..], m, oldIP)
  }

  /** The rows the daily-cap query counts. */
  function CompletedSince(rows: seq<Row>, m: MachineId, since: int): set<nat> {
    set r: nat | 0 <= r < |rows| && rows[r].machine == m && rows[r].status == Completed && since <= rows[r].started
  }

  predicate ContextDone(s: State, c: Check) {
    c.cancelled || (c.owner.Some? && c.owner.value < |s.attempts| && s.attempts[c.owner.value].ctx.Cancelled?)
  }

  predicate Ended(pc: CheckPC) {
    pc == Concluded || pc == Refused
  }

  /** The program counter at which a statement of `rotate` stands. */
  function Site(step: Step): PC {
    match step
    case Acquire => Start
    case ReadMachine => Locked
    case PassGate => Gate
    case ComputeDay => ReadDay
    case CountRows => CountDay
    case StartConfirm => Confirm
    case EndConfirm => Confirming
    case Resolve(_, _) => Provider
    case StampStart => Stamp
    case InsertRow => Insert
    case ChangeIP(_) => Call
    case PollHit(_) => Poll
    case PollEnd => Poll
    case FailRow => Fail
    case StampCooldown => Cool
    case WriteMachine => Write
    case SyncDNS(_) => Sync
    case StartPost => Post
    case EndPost => PostWait
    case FinishRow => Finish
    case Unlock => Release
    case CancelContext => Poll // not tied to a program counter, see StepEnabled
  }

  predicate StepEnabled(s: State, a: Attempt, step: Step) {
    match step
    case CancelContext => a.trigger == Manual && a.ctx.Live?
    case PollHit(list) =>
      // a list call under a cancelled context fails
      a.pc == Poll && a.ctx.Live? && ChangedIP(list, a.machine, a.oldIP) != ""
    case EndConfirm => a.pc == Confirming && a.check < |s.checks| && Ended(s.checks[a.check].pc)
    case EndPost => a.pc == PostWait && a.check < |s.checks| && Ended(s.checks[a.check].pc)
    case _ => a.pc == Site(step)
  }

  predicate EnvEnabled(s: State, e: EnvAction) {
    match e
    case CreateMachine(id, _, _) => id !in s.machines
    case EditMachine(id, _, _) => id in s.machines
    case Heartbeat(id, _, _) => id in s.machines
    case RetryDNS(r) => r < |s.rows|
    case _ => true
  }

  predicate WorkEnabled(k: Check, work: CheckStep) {
    match work
    case RunProbes(_, _) => k.pc == Probing
    case ReadCounters => k.pc == Reading
    case WriteCounters => k.pc == Writing
    case CancelCheck => k.owner.None?
  }

  predicate Enabled(s: State, act: Action) {
    match act
    case Env(e) => EnvEnabled(s, e)
    case Own(i, step) => i < |s.attempts| && StepEnabled(s, s.attempts[i], step)
    case Probe(c, work) => c < |s.checks| && WorkEnabled(s.checks[c], work)
  }

  // ----- a statement of rotate: what it does to the locals and to each shared variable -----

  /** `time.Now().Before(until)`, where `until` is the instant the stored stamp denotes. */
  predicate BeforeStamp(now: int, until: int) {
    now < until * SECOND
  }

  function Leave(a: Attempt, why: Outcome): Attempt {
    a.(pc := Release, outcome := why)
  }

  function AfterRead(cfg: Config, s: State, a: Attempt): Attempt {
    if a.ctx.Cancelled? || a.machine !in s.machines then Leave(a, NotFound)
    else
      var m := s.machines[a.machine];
      var seen := a.(seenCooldown := m.cooldownUntil, oldIP := m.profile.ipv4);
      if a.trigger == Manual then seen.(pc := Provider)
      else if !cfg.autoRotateGlobal || !m.autoRotate then Leave(seen, Disabled)
      else seen.(pc := Gate)
  }

  function AfterCount(cfg: Config, s: State, a: Attempt): Attempt {
    if |CompletedSince(s.rows, a.machine, a.day)| >= cfg.maxRotationsPerDay then Leave(a, CapReached)
    else a.(pc := if cfg.requireConfirmation then Confirm else Provider)
  }

  function AfterConfirm(s: State, a: Attempt): Attempt
    requires a.check < |s.checks|
  {
    var k := s.checks[a.check];
    if k.pc == Concluded && Health.Failing(k.score) then a.(pc := Provider) else Leave(a, Unconfirmed)
  }

  function AfterResolve(a: Attempt, clientOk: bool, listed: Option<seq<ProviderMachine>>): Attempt {
    if !clientOk then Leave(a, NoClient)
    else a.(pc := Stamp, oldIP := if listed.Some? then CurrentIP(listed.value, a.machine, a.oldIP) else a.oldIP)
  }

  function PostResult(k: Check): PostStatus {
    if k.pc != Concluded then PostNotRun else if k.score == 0 then PostPassed else PostFailed
  }

  /** The locals after the statement. */
  function Local(cfg: Config, s: State, a: Attempt, step: Step): Attempt
    requires StepEnabled(s, a, step)
  {
    match step
    case Acquire =>
      if a.machine in s.locks then a.(pc := Done, outcome := Busy)
      else a.(pc := Locked, failsAtLock := FailsOf(s, a.machine))
    case ReadMachine => AfterRead(cfg, s, a)
    case PassGate =>
      if a.seenCooldown.Some? && BeforeStamp(s.now, a.seenCooldown.value) then Leave(a, CoolingDown)
      else a.(pc := ReadDay)
    case ComputeDay => a.(pc := CountDay, day := StartOfDay(Secs(s.now)))
    case CountRows => AfterCount(cfg, s, a)
    case StartConfirm => a.(pc := Confirming, check := |s.checks|)
    case EndConfirm => AfterConfirm(s, a)
    case Resolve(clientOk, listed) => AfterResolve(a, clientOk, listed)
    case StampStart => a.(pc := Insert, started := Secs(s.now))
    case InsertRow => if a.ctx.Cancelled? then Leave(a, NoRow) else a.(pc := Call, row := |s.rows|)
    case ChangeIP(ok) =>
      var called := a.(called := true, failsAtCall := FailsOf(s, a.machine));
      if ok then called.(pc := Poll) else called.(pc := Fail, outcome := ChangeFailed)
    case PollHit(list) => a.(pc := Cool, newIP := ChangedIP(list, a.machine, a.oldIP))
    case PollEnd => a.(pc := Fail, outcome := NoNewIP)
    case FailRow => a.(pc := Release)
    case StampCooldown => a.(pc := Write, stamp := s.now)
    case WriteMachine => a.(pc := Sync)
    case SyncDNS(result) => a.(pc := Post, dns := result)
    case StartPost => a.(pc := PostWait, check := |s.checks|)
    case EndPost => a.(pc := Finish, post := PostResult(s.checks[a.check]))
    case FinishRow => Leave(a, Rotated)
    case Unlock => a.(pc := Done)
    case CancelContext => a.(ctx := Cancelled(a.newIP != ""))
  }

  function LocksAfter(s: State, i: nat, a: Attempt, step: Step): map<MachineId, nat> {
    match step
    case Acquire => if a.machine in s.locks then s.locks else s.locks[a.machine := i]
    case Unlock => s.locks - {a.machine}
    case _ => s.locks
  }

  function NewRow(a: Attempt, i: nat): Row {
    Row(a.machine, a.oldIP, "", a.trigger, Running, DnsNone, PostNone, a.started, None, i)
  }

  function RowsAfter(s: State, i: nat, a: Attempt, step: Step): seq<Row> {
    match step
    case InsertRow => if a.ctx.Cancelled? then s.rows else s.rows + [NewRow(a, i)]
    case FailRow =>
      if a.row >= |s.rows| then s.rows
      else s.rows[a.row := s.rows[a.row].(status := Failed, finished := Some(Secs(s.now)))]
    case FinishRow =>
      if a.ctx.Cancelled? || a.row >= |s.rows| then s.rows
      else s.rows[a.row := s.rows[a.row].(newIP := a.newIP, status := Completed, dns := a.dns, post := a.post,
                                          finished := Some(Secs(s.now)))]
    case _ => s.rows
  }

  /** The machine row after a rotation. */
  function MachineRotated(cfg: Config, now: int, m: Machine, a: Attempt): Machine {
    m.(profile := m.profile.(ipv4 := a.newIP), health := Unknown, failures := 0, successes := 0,
       lastRotation := Some(Secs(now)), cooldownUntil := Some(Secs(a.stamp + cfg.rotationCooldown)))
  }

  /** The statements up to the ledger row. */
  predicate IsEarly(step: Step) {
    || step == Acquire || step == ReadMachine || step == PassGate || step == ComputeDay || step == CountRows
    || step == StartConfirm || step == EndConfirm || step.Resolve? || step == StampStart || step == InsertRow
  }

  /** Whether the statement is a machine-row update that the database executes. */
  predicate Writes(a: Attempt, step: Step) {
    step == WriteMachine && a.ctx.Live?
  }

  function MachinesAfter(cfg: Config, s: State, a: Attempt, step: Step): map<MachineId, Machine> {
    if Writes(a, step) && a.machine in s.machines then
      s.machines[a.machine := MachineRotated(cfg, s.now, s.machines[a.machine], a)]
    else s.machines
  }

  function CommitsAfter(s: State, a: Attempt, step: Step): map<nat, int> {
    if Writes(a, step) && a.machine in s.machines then s.commits[a.row := a.stamp] else s.commits
  }

  function DetachedAfter(s: State, a: Attempt, step: Step): set<nat> {
    if Writes(a, step) && a.machine !in s.machines then s.detached + {a.row} else s.detached
  }

  function ChecksAfter(s: State, i: nat, a: Attempt, step: Step): seq<Check> {
    if step == StartConfirm || step == StartPost then s.checks + [NewCheck(s, a.machine, Some(i))] else s.checks
  }

  function ApplyOwn(cfg: Config, s: State, i: nat, step: Step): State
    requires i < |s.attempts| && StepEnabled(s, s.attempts[i], step)
  {
    var a := s.attempts[i];
    State(s.now, MachinesAfter(cfg, s, a, step), RowsAfter(s, i, a, step), LocksAfter(s, i, a, step),
          s.attempts[i := Local(cfg, s, a, step)], ChecksAfter(s, i, a, step), s.fails,
          CommitsAfter(s, a, step), DetachedAfter(s, a, step))
  }

  // ----- the environment -----

  function RowsOf(rows: seq<Row>, id: MachineId): set<nat> {
    set r: nat | 0 <= r < |rows| && rows[r].machine == id
  }

  function KillAttempt(a: Attempt): Attempt {
    if a.pc == Done then a else a.(pc := Crashed)
  }

  function KillCheck(k: Check): Check {
    if Ended(k.pc) then k else k.(pc := Killed)
  }

  /** `COALESCE(NULLIF(?,''),column)`. */
  function Coalesce(incoming: string, stored: string): string {
    if incoming != "" then incoming else stored
  }

  function MachinesEnv(s: State, e: EnvAction): map<MachineId, Machine>
    requires EnvEnabled(s, e)
  {
    match e
    case CreateMachine(id, profile, auto) => s.machines[id := FreshMachine(profile, auto)]
    case DeleteMachine(id) => s.machines - {id}
    case EditMachine(id, profile, auto) => s.machines[id := s.machines[id].(profile := profile, autoRotate := auto)]
    case Heartbeat(id, ipv4, ipv6) =>
      var p := s.machines[id].profile;
      s.machines[id := s.machines[id].(profile := p.(ipv4 := Coalesce(ipv4, p.ipv4), ipv6 := Coalesce(ipv6, p.ipv6)))]
    case SyncProvider(provider, list) => UpsertAll(s.machines, provider, list)
    case _ => s.machines
  }

  function ApplyEnv(s: State, e: EnvAction): State
    requires EnvEnabled(s, e)
  {
    match e
    case Tick(d) => s.(now := s.now + d)
    case DeleteMachine(id) =>
      s.(machines := MachinesEnv(s, e), commits := s.commits - RowsOf(s.rows, id),
         detached := s.detached + RowsOf(s.rows, id))
    case RetryDNS(r) => s.(rows := s.rows[r := s.rows[r].(dns := DnsCompleted)])
    case StartManual(id) => s.(attempts := s.attempts + [NewAttempt(s, id, Manual)])
    case StartCheck(id) => s.(checks := s.checks + [NewCheck(s, id, None)])
    case Crash =>
      // memory is lost, the database stays
      s.(locks := map[],
         attempts := seq(|s.attempts|, i requires 0 <= i < |s.attempts| => KillAttempt(s.attempts[i])),
         checks := seq(|s.checks|, i requires 0 <= i < |s.checks| => KillCheck(s.checks[i])))
    case _ => s.(machines := MachinesEnv(s, e))
  }

  // ----- a statement of checkMachineNow -----

  function CountersRead(s: State, k: Check): Health.Counters {
    if ContextDone(s, k) || k.machine !in s.machines then Health.Counters(0, 0)
    else Health.Counters(s.machines[k.machine].failures, s.machines[k.machine].successes)
  }

  function CountersAfter(cfg: Config, k: Check): Health.Counters {
    Health.Advance(k.read, Health.Failing(k.score), cfg.successRecovery)
  }

  function VerdictOf(cfg: Config, k: Check): HealthStatus {
    Health.Verdict(CountersAfter(cfg, k), Health.Failing(k.score), cfg.failureThreshold)
  }

  function LocalCheck(s: State, k: Check, work: CheckStep): Check {
    match work
    case RunProbes(score, total) => k.(pc := if total == 0 then Refused else Reading, score := score, total := total)
    case ReadCounters => k.(pc := Writing, read := CountersRead(s, k))
    case WriteCounters => k.(pc := Concluded)
    case CancelCheck => k.(cancelled := true)
  }

  /** The counter update; dropped when the context is cancelled or the row is gone. */
  function MachinesProbed(cfg: Config, s: State, k: Check, work: CheckStep): map<MachineId, Machine> {
    if work == WriteCounters && !ContextDone(s, k) && k.machine in s.machines then
      var after := CountersAfter(cfg, k);
      s.machines[k.machine := s.machines[k.machine].(health := VerdictOf(cfg, k), failures := after.failures,
                                                     successes := after.successes)]
    else s.machines
  }

  function FailsProbed(s: State, k: Check, work: CheckStep): map<MachineId, nat> {
    if work == WriteCounters && Health.Failing(k.score) then s.fails[k.machine := FailsOf(s, k.machine) + 1] else s.fails
  }

  /** The automatic trigger; it depends on the verdict only, not on the update's success. */
  predicate Triggers(cfg: Config, k: Check, work: CheckStep) {
    work == WriteCounters && VerdictOf(cfg, k) == Suspect && cfg.autoRotateGlobal
  }

  function ApplyProbe(cfg: Config, s: State, c: nat, work: CheckStep): State
    requires c < |s.checks|
  {
    var k := s.checks[c];
    var s' := s.(machines := MachinesProbed(cfg, s, k, work), fails := FailsProbed(s, k, work),
                 checks := s.checks[c := LocalCheck(s, k, work)]);
    if Triggers(cfg, k, work) then s'.(attempts := s.attempts + [NewAttempt(s', k.machine, Auto)]) else s'
  }

  /** The state after one action. */
  function Apply(cfg: Config, s: State, act: Action): State
    requires Enabled(s, act)
  {
    match act
    case Env(e) => ApplyEnv(s, e)
    case Own(i, step) => ApplyOwn(cfg, s, i, step)
    case Probe(c, work) => ApplyProbe(cfg, s, c, work)
  }

  // ----- runs -----

  /** A controller started on an empty database. */
  function Initial(now: int): State {
    State(now, map[], [], map[], [], [], map[], map[], {})
  }

  /** The `k`-th action is enabled and leads from the `k`-th state to the next. */
  ghost predicate StepAt(cfg: Config, states: seq<State>, acts: seq<Action>, k: nat)
    requires k < |acts| < |states|
  {
    Enabled(states[k], acts[k]) && states[k + 1] == Apply(cfg, states[k], acts[k])
  }

  /** The states a run goes through, from the initial one, and the actions between them. */
  ghost predicate IsRun(cfg: Config, states: seq<State>, acts: seq<Action>) {
    && |states| == |acts| + 1
    && states[0] == Initial(states[0].now)
    && forall k :: 0 <= k < |acts| ==> StepAt(cfg, states, acts, k)
  }

  /** A run grows at its end. */
  lemma RunGrows(cfg: Config, states: seq<State>, acts: seq<Action>, act: Action)
    requires IsRun(cfg, states, acts) && Enabled(states[|acts|], act)
    ensures IsRun(cfg, states + [Apply(cfg, states[|acts|], act)], acts + [act])
  {
    forall k | 0 <= k < |acts| + 1
      ensures StepAt(cfg, states + [Apply(cfg, states[|acts|], act)], acts + [act], k)
    {
      assert k < |acts| ==> StepAt(cfg, states, acts, k);
    }
  }
}
