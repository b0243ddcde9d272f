/** The daily cap: automatic rotations completed per machine and UTC day never exceed
    `MaxRotationsPerDay`. */
module DailyCap {
  import opened Inventory
  import opened Rotation
  import opened Ledger
  import Sets

  /** The completed automatic rotations of a machine that started on a UTC day. */
  function AutoOn(rows: seq<Row>, m: MachineId, day: int): set<nat> {
    set r: nat | 0 <= r < |rows| && rows[r].machine == m && rows[r].status == Completed
                 && rows[r].trigger == Auto && DayOf(rows[r].started) == day
  }

  /** Past the cap gate, up to the end of the critical section's work. */
  predicate PastCap(pc: PC) {
    || pc == Confirm || pc == Confirming || pc == Provider || pc == Stamp || pc == Insert
    || HoldsRow(pc)
  }

  /** `started_at` has been read. */
  predicate HasStarted(pc: PC) {
    pc == Insert || HoldsRow(pc)
  }

  /** What an automatic attempt past the cap gate knows: the count it read still bounds the
      completed rotations since the start of the day it computed. */
  predicate CapOk(cfg: Config, now: int, rows: seq<Row>, a: Attempt) {
    a.trigger == Auto ==>
      && (a.pc == CountDay || PastCap(a.pc) ==> a.day <= Secs(now) && a.day == StartOfDay(a.day))
      && (PastCap(a.pc) ==> |CompletedSince(rows, a.machine, a.day)| < cfg.maxRotationsPerDay)
      && (HasStarted(a.pc) ==> a.day <= a.started)
  }

  predicate WithinCap(cfg: Config, n: nat) {
    n <= cfg.maxRotationsPerDay || n == 0
  }

  ghost predicate CapInv(cfg: Config, s: State) {
    && (forall i :: 0 <= i < |s.attempts| ==> CapOk(cfg, s.now, s.rows, s.attempts[i]))
    && (forall m, day :: WithinCap(cfg, |AutoOn(s.rows, m, day)|))
  }

  /** Two ledgers that agree on every column the cap reads. */
  predicate SameCounts(rows: seq<Row>, rows': seq<Row>) {
    && |rows| <= |rows'|
    && (forall r :: 0 <= r < |rows| ==>
          rows'[r].machine == rows[r].machine && rows'[r].trigger == rows[r].trigger && rows'[r].started == rows[r].started
          && (rows'[r].status == Completed <==> rows[r].status == Completed))
    && (forall r :: |rows| <= r < |rows'| ==> rows'[r].status != Completed)
  }

  lemma CountsStay(rows: seq<Row>, rows': seq<Row>, m: MachineId, x: int)
    requires SameCounts(rows, rows')
    ensures CompletedSince(rows', m, x) == CompletedSince(rows, m, x)
    ensures AutoOn(rows', m, x) == AutoOn(rows, m, x)
  {
  }

  /** Completing a running row adds it to its machine's counts and to no other count. */
  lemma CountsGrow(rows: seq<Row>, r: nat, row: Row, m: MachineId, x: int)
    requires r < |rows| && rows[r].status == Running && row.status == Completed
    requires row.machine == rows[r].machine && row.trigger == rows[r].trigger && row.started == rows[r].started
    ensures CompletedSince(rows[r := row], m, x) ==
            CompletedSince(rows, m, x) + (if row.machine == m && x <= row.started then {r} else {})
    ensures AutoOn(rows[r := row], m, x) ==
            AutoOn(rows, m, x) + (if row.machine == m && row.trigger == Auto && DayOf(row.started) == x then {r} else {})
  {
  }

  lemma DayBounds(start: int, secs: int)
    requires start == StartOfDay(start) && start <= secs
    ensures start <= DayOf(secs) * DAY_SECONDS
  {
  }

  lemma StartOfDayIsStart(secs: int)
    ensures StartOfDay(secs) <= secs && StartOfDay(StartOfDay(secs)) == StartOfDay(secs)
  {
    assert StartOfDay(secs) / DAY_SECONDS == secs / DAY_SECONDS;
  }

  lemma OnDayIsSince(rows: seq<Row>, m: MachineId, day: int, start: int)
    requires start <= day * DAY_SECONDS
    ensures |AutoOn(rows, m, day)| <= |CompletedSince(rows, m, start)|
  {
    forall r | r in AutoOn(rows, m, day) ensures r in CompletedSince(rows, m, start) {
      assert day * DAY_SECONDS <= rows[r].started;
    }
    Sets.SubsetSize(AutoOn(rows, m, day), CompletedSince(rows, m, start));
  }

  /** The cap gate is the only way past it. */
  lemma LocalGate(cfg: Config, s: State, a: Attempt, step: Step)
    requires StepEnabled(s, a, step) && a.trigger == Auto
    ensures PastCap(Local(cfg, s, a, step).pc) ==>
              PastCap(a.pc) || (a.pc == CountDay && |CompletedSince(s.rows, a.machine, a.day)| < cfg.maxRotationsPerDay)
  {
  }

  /** The day is computed once, before the count, and then kept. */
  lemma LocalDay(cfg: Config, s: State, a: Attempt, step: Step)
    requires StepEnabled(s, a, step)
    ensures var a' := Local(cfg, s, a, step);
            if step == ComputeDay then a'.pc == CountDay && a'.day == StartOfDay(Secs(s.now))
            else a'.day == a.day && (a'.pc == CountDay ==> a.pc == CountDay)
  {
  }

  lemma LocalStartedEarly(cfg: Config, s: State, a: Attempt, step: Step)
    requires StepEnabled(s, a, step) && IsEarly(step)
    ensures var a' := Local(cfg, s, a, step);
            HasStarted(a'.pc) ==>
              PastCap(a.pc) && ((HasStarted(a.pc) && a'.started == a.started) || a'.started == Secs(s.now))
  {
  }

  lemma LocalStartedLate(cfg: Config, s: State, a: Attempt, step: Step)
    requires StepEnabled(s, a, step) && !IsEarly(step)
    ensures var a' := Local(cfg, s, a, step);
            HasStarted(a'.pc) ==>
              PastCap(a.pc) && ((HasStarted(a.pc) && a'.started == a.started) || a'.started == Secs(s.now))
  {
  }

  lemma LocalStarted(cfg: Config, s: State, a: Attempt, step: Step)
    requires StepEnabled(s, a, step)
    ensures var a' := Local(cfg, s, a, step);
            HasStarted(a'.pc) ==>
              PastCap(a.pc) && ((HasStarted(a.pc) && a'.started == a.started) || a'.started == Secs(s.now))
  {
    if IsEarly(step) {
      LocalStartedEarly(cfg, s, a, step);
    } else {
      LocalStartedLate(cfg, s, a, step);
    }
  }

  lemma CapOkMoves(cfg: Config, now: int, rows: seq<Row>, a: Attempt, a': Attempt)
    requires CapOk(cfg, now, rows, a) && a'.machine == a.machine && a'.trigger == a.trigger == Auto
    requires PastCap(a'.pc) ==>
               && a'.day == a.day
               && (PastCap(a.pc) || (a.pc == CountDay && |CompletedSince(rows, a.machine, a.day)| < cfg.maxRotationsPerDay))
    requires a'.pc == CountDay ==> a'.day <= Secs(now) && a'.day == StartOfDay(a'.day)
    requires HasStarted(a'.pc) ==>
               PastCap(a.pc) && ((HasStarted(a.pc) && a'.started == a.started) || a'.started == Secs(now))
    ensures CapOk(cfg, now, rows, a')
  {
  }

  lemma LocalCap(cfg: Config, s: State, a: Attempt, step: Step)
    requires StepEnabled(s, a, step) && CapOk(cfg, s.now, s.rows, a)
    ensures CapOk(cfg, s.now, s.rows, Local(cfg, s, a, step))
  {
    LocalKeeps(cfg, s, a, step);
    if a.trigger == Auto {
      LocalGate(cfg, s, a, step);
      LocalDay(cfg, s, a, step);
      LocalStarted(cfg, s, a, step);
      StartOfDayIsStart(Secs(s.now));
      CapOkMoves(cfg, s.now, s.rows, a, Local(cfg, s, a, step));
    }
  }

  /** Nothing completes, the clock does not go back, attempts move as `CapOk` allows. */
  lemma CapFrame(cfg: Config, s: State, s': State)
    requires CapInv(cfg, s) && SameCounts(s.rows, s'.rows) && s.now <= s'.now
    requires forall j :: 0 <= j < |s'.attempts| ==>
               (j < |s.attempts| && s'.attempts[j] == s.attempts[j]) || CapOk(cfg, s.now, s.rows, s'.attempts[j])
    ensures CapInv(cfg, s')
  {
    forall j | 0 <= j < |s'.attempts| ensures CapOk(cfg, s'.now, s'.rows, s'.attempts[j]) {
      var a := s'.attempts[j];
      assert CapOk(cfg, s.now, s.rows, a);
      CountsStay(s.rows, s'.rows, a.machine, a.day);
    }
    forall m, day ensures WithinCap(cfg, |AutoOn(s'.rows, m, day)|) {
      CountsStay(s.rows, s'.rows, m, day);
    }
  }

  lemma CapInvEnv(cfg: Config, s: State, e: EnvAction)
    requires CapInv(cfg, s) && EnvEnabled(s, e)
    ensures CapInv(cfg, ApplyEnv(s, e))
  {
    var s' := ApplyEnv(s, e);
    if e == Crash {
      forall j | 0 <= j < |s'.attempts| ensures CapOk(cfg, s.now, s.rows, s'.attempts[j]) {
        assert s'.attempts[j] == KillAttempt(s.attempts[j]);
      }
    }
    CapFrame(cfg, s, s');
  }

  lemma CapInvProbe(cfg: Config, s: State, c: nat, work: CheckStep)
    requires CapInv(cfg, s) && Enabled(s, Probe(c, work))
    ensures CapInv(cfg, ApplyProbe(cfg, s, c, work))
  {
    CapFrame(cfg, s, ApplyProbe(cfg, s, c, work));
  }

  /** The completing statement's effect on one day's count: the gate's count, which the lock has
      kept, bounds every later day's. */
  lemma FinishWithinCap(cfg: Config, rows: seq<Row>, r: nat, row: Row, start: int, m: MachineId, day: int)
    requires r < |rows| && rows[r].status == Running && row.status == Completed
    requires row.machine == rows[r].machine && row.trigger == rows[r].trigger && row.started == rows[r].started
    requires row.trigger == Auto ==>
               && start == StartOfDay(start) && start <= row.started
               && |CompletedSince(rows, row.machine, start)| < cfg.maxRotationsPerDay
    requires WithinCap(cfg, |AutoOn(rows, m, day)|)
    ensures WithinCap(cfg, |AutoOn(rows[r := row], m, day)|)
  {
    CountsGrow(rows, r, row, m, day);
    if m == row.machine && row.trigger == Auto && DayOf(row.started) == day {
      DayBounds(start, row.started);
      OnDayIsSince(rows, m, day, start);
    } else {
      assert AutoOn(rows[r := row], m, day) == AutoOn(rows, m, day);
    }
  }

  lemma FinishKeepsOther(cfg: Config, now: int, rows: seq<Row>, r: nat, row: Row, b: Attempt)
    requires r < |rows| && rows[r].status == Running && row.status == Completed
    requires row.machine == rows[r].machine && row.trigger == rows[r].trigger && row.started == rows[r].started
    requires b.machine != row.machine || !(b.pc == CountDay || PastCap(b.pc))
    requires CapOk(cfg, now, rows, b)
    ensures CapOk(cfg, now, rows[r := row], b)
  {
    CountsGrow(rows, r, row, b.machine, b.day);
    if b.machine != row.machine {
      assert CompletedSince(rows[r := row], b.machine, b.day) == CompletedSince(rows, b.machine, b.day);
    }
  }

  /** The completing attempt's own facts: its row is running, and the gate's count still bounds. */
  lemma AtFinish(cfg: Config, s: State, i: nat)
    requires RowInv(s) && CapInv(cfg, s) && i < |s.attempts| && s.attempts[i].pc == Finish
    ensures var a := s.attempts[i];
            && a.row < |s.rows| && s.rows[a.row].status == Running && s.rows[a.row].machine == a.machine
            && s.rows[a.row].trigger == a.trigger && s.rows[a.row].started == a.started
            && CapOk(cfg, s.now, s.rows, a)
  {
    var a := s.attempts[i];
    assert RowOk(a.row, s.rows[a.row], a);
  }

  lemma CapFinishFrame(cfg: Config, s: State, s': State, i: nat, a': Attempt, row: Row)
    requires LockInv(s) && RowInv(s) && CapInv(cfg, s) && i < |s.attempts| && s.attempts[i].pc == Finish
    requires var a := s.attempts[i];
             && s'.now == s.now && s'.attempts == s.attempts[i := a'] && a.row < |s.rows| && s'.rows == s.rows[a.row := row]
             && a'.pc == Release && a'.machine == a.machine
             && row.status == Completed && row.machine == a.machine && row.trigger == a.trigger && row.started == a.started
    ensures CapInv(cfg, s')
  {
    var a := s.attempts[i];
    AtFinish(cfg, s, i);
    forall j | 0 <= j < |s'.attempts| ensures CapOk(cfg, s'.now, s'.rows, s'.attempts[j]) {
      if j != i {
        assert CapOk(cfg, s.now, s.rows, s.attempts[j]);
        FinishKeepsOther(cfg, s.now, s.rows, a.row, row, s.attempts[j]);
      }
    }
    forall m, day ensures WithinCap(cfg, |AutoOn(s'.rows, m, day)|) {
      FinishWithinCap(cfg, s.rows, a.row, row, a.day, m, day);
    }
  }

  lemma CapInvFinish(cfg: Config, s: State, i: nat)
    requires LockInv(s) && RowInv(s) && CapInv(cfg, s) && Enabled(s, Own(i, FinishRow)) && s.attempts[i].ctx.Live?
    ensures CapInv(cfg, ApplyOwn(cfg, s, i, FinishRow))
  {
    var s', a := ApplyOwn(cfg, s, i, FinishRow), s.attempts[i];
    AtFinish(cfg, s, i);
    assert s'.rows == RowsAfter(s, i, a, FinishRow);
    CapFinishFrame(cfg, s, s', i, s'.attempts[i], s'.rows[a.row]);
  }

  lemma CapInvOwn(cfg: Config, s: State, i: nat, step: Step)
    requires LockInv(s) && RowInv(s) && CapInv(cfg, s) && Enabled(s, Own(i, step))
    ensures CapInv(cfg, ApplyOwn(cfg, s, i, step))
  {
    if step == FinishRow && s.attempts[i].ctx.Live? {
      CapInvFinish(cfg, s, i);
    } else {
      assert CapOk(cfg, s.now, s.rows, s.attempts[i]);
      LocalCap(cfg, s, s.attempts[i], step);
      CapFrame(cfg, s, ApplyOwn(cfg, s, i, step));
    }
  }
}
