/** The scheduler: which probes its SQL filter calls due, and which machines a tick checks. */
module Scheduler {
  import Calendar
  import opened Inventory
  import opened Rotation
  import opened Timestamps

  datatype ProbeRow = ProbeRow(id: int, machine: MachineId, source: string, enabled: bool, interval: nat)

  /** A row of `probe_results`; `checked_at` holds `Format(at)`. */
  datatype ProbeResult = ProbeResult(probe: int, at: int)

  ghost predicate Stored(results: seq<ProbeResult>) {
    forall r :: r in results ==> InRange(r.at)
  }

  /** The subquery's row test: `r.probe_id=p.id AND r.checked_at > datetime('now','-'||interval||' seconds')`. */
  predicate Blocks(p: ProbeRow, r: ProbeResult, now: int)
    requires InRange(now - p.interval) && InRange(r.at)
  {
    r.probe == p.id && LaterStamp(r.at, now - p.interval)
  }

  lemma BlocksMeaning(p: ProbeRow, r: ProbeResult, now: int)
    requires InRange(now - p.interval) && InRange(r.at)
    ensures Blocks(p, r, now) <==> r.probe == p.id && (now - p.interval) / 86400 <= r.at / 86400
  {
    if r.probe == p.id {
      MixedOrder(now - p.interval, r.at);
    }
  }

  /** The `WHERE` clause of the scheduler's query. */
  predicate Due(p: ProbeRow, results: seq<ProbeResult>, now: int)
    requires InRange(now - p.interval) && Stored(results)
  {
    p.enabled && p.source == "controller" && !exists r :: r in results && Blocks(p, r, now)
  }

  /** Exactly when the filter lets a probe through: every result of it lies on a UTC date before
      the date of the cutoff. */
  lemma DueMeansDateTurned(p: ProbeRow, results: seq<ProbeResult>, now: int)
    requires InRange(now - p.interval) && Stored(results)
    ensures Due(p, results, now) <==>
            && p.enabled && p.source == "controller"
            && forall r :: r in results && r.probe == p.id ==> r.at / 86400 < (now - p.interval) / 86400
  {
    forall r | r in results
      ensures Blocks(p, r, now) <==> r.probe == p.id && (now - p.interval) / 86400 <= r.at / 86400
    {
      BlocksMeaning(p, r, now);
    }
  }

  /** The interval of the probe has elapsed since every result of it. */
  ghost predicate Elapsed(p: ProbeRow, results: seq<ProbeResult>, now: int) {
    forall r :: r in results && r.probe == p.id ==> r.at <= now - p.interval
  }

  /** A result of the probe on the cutoff's own UTC date. */
  ghost predicate OnCutoffDate(p: ProbeRow, results: seq<ProbeResult>, now: int) {
    exists r :: r in results && r.probe == p.id && DayOf(r.at) == DayOf(now - p.interval)
  }

  /** A due probe never has a result younger than its interval. */
  lemma DueIsElapsed(p: ProbeRow, results: seq<ProbeResult>, now: int)
    requires InRange(now - p.interval) && Stored(results) && Due(p, results, now)
    ensures Elapsed(p, results, now) && !OnCutoffDate(p, results, now)
  {
    DueMeansDateTurned(p, results, now);
  }

  /** For an enabled controller probe, the filter and the interval agree exactly when the interval
      has not elapsed or no result lies on the cutoff's date. */
  lemma FilterAgreesWithInterval(p: ProbeRow, results: seq<ProbeResult>, now: int)
    requires InRange(now - p.interval) && Stored(results) && p.enabled && p.source == "controller"
    ensures (Due(p, results, now) <==> Elapsed(p, results, now)) <==>
            !Elapsed(p, results, now) || !OnCutoffDate(p, results, now)
  {
    DueMeansDateTurned(p, results, now);
  }

  const FIVE_MINUTE_PROBE := ProbeRow(1, "m", "controller", true, 300)
  const RUN_AT_MIDNIGHT := [ProbeResult(1, 0)]
  const NOON := 43200

  /** A probe with an interval of five minutes, last run at midnight, is not picked at noon. */
  lemma ElapsedButNotPicked()
    ensures InRange(NOON - FIVE_MINUTE_PROBE.interval) && Stored(RUN_AT_MIDNIGHT)
    ensures Elapsed(FIVE_MINUTE_PROBE, RUN_AT_MIDNIGHT, NOON) && !Due(FIVE_MINUTE_PROBE, RUN_AT_MIDNIGHT, NOON)
  {
    assert Calendar.Civil(0).year == 0;
    assert RUN_AT_MIDNIGHT[0] in RUN_AT_MIDNIGHT;
    assert OnCutoffDate(FIVE_MINUTE_PROBE, RUN_AT_MIDNIGHT, NOON);
    FilterAgreesWithInterval(FIVE_MINUTE_PROBE, RUN_AT_MIDNIGHT, NOON);
  }

  /** The second loop of `schedulerTick`: one check per machine. `at` has the places in the list at
      which the machines first occur. */
  method StartChecks(due: seq<ProbeRow>) returns (started: seq<MachineId>, at: seq<nat>)
    ensures |at| == |started|
    ensures forall i :: 0 <= i < |at| ==>
              at[i] < |due| && due[at[i]].machine == started[i] && forall k :: 0 <= k < at[i] ==> due[k].machine != started[i]
    ensures forall i, j :: 0 <= i < j < |at| ==> at[i] < at[j] && started[i] != started[j]
    ensures forall k :: 0 <= k < |due| ==> due[k].machine in started
  {
    started, at := [], [];
    var seen: set<MachineId> := {};
    for k := 0 to |due|
      invariant |at| == |started| && forall m :: m in seen <==> m in started
      invariant forall i :: 0 <= i < |at| ==>
                  at[i] < k && due[at[i]].machine == started[i] && forall j :: 0 <= j < at[i] ==> due[j].machine != started[i]
      invariant forall i, j :: 0 <= i < j < |at| ==> at[i] < at[j] && started[i] != started[j]
      invariant forall j :: 0 <= j < k ==> due[j].machine in started
    {
      if due[k].machine in seen {
        continue;
      }
      seen := seen + {due[k].machine};
      started, at := started + [due[k].machine], at + [k];
    }
  }

  /** The first loop: the rows the query yields. */
  method SelectDue(probes: seq<ProbeRow>, results: seq<ProbeResult>, now: int) returns (due: seq<ProbeRow>)
    requires Stored(results) && forall p :: p in probes ==> InRange(now - p.interval)
    ensures forall p :: p in due <==> p in probes && Due(p, results, now)
  {
    due := [];
    for k := 0 to |probes|
      invariant forall p :: p in due <==> p in probes[..k] && Due(p, results, now)
    {
      assert forall p :: p in probes[..k + 1] <==> p in probes[..k] || p == probes[k];
      if Due(probes[k], results, now) {
        due := due + [probes[k]];
      }
    }
    assert probes[..|probes|] == probes;
  }

  /** `schedulerTick`: a check is started, once, of exactly the machines that have an enabled
      controller probe whose results all lie on dates before that of its cutoff. */
  method Tick(probes: seq<ProbeRow>, results: seq<ProbeResult>, now: int) returns (started: seq<MachineId>)
    requires Stored(results) && forall p :: p in probes ==> InRange(now - p.interval)
    ensures forall m :: m in started <==>
              exists p :: p in probes && p.machine == m && p.enabled && p.source == "controller"
                          && forall r :: r in results && r.probe == p.id ==> r.at / 86400 < (now - p.interval) / 86400
    ensures forall i, j :: 0 <= i < j < |started| ==> started[i] != started[j]
  {
    var due := SelectDue(probes, results, now);
    var at;
    started, at := StartChecks(due);
    forall p | p in probes
      ensures Due(p, results, now) <==>
              && p.enabled && p.source == "controller"
              && forall r :: r in results && r.probe == p.id ==> r.at / 86400 < (now - p.interval) / 86400
    {
      DueMeansDateTurned(p, results, now);
    }
    forall m ensures m in started <==> exists p :: p in due && p.machine == m {
      if m in started {
        var i :| 0 <= i < |started| && started[i] == m;
        assert due[at[i]] in due;
      }
    }
  }
}
