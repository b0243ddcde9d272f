/** The DNS fan-out after a rotation or on request: push the machine's address to every selected
    record, stop at the first failure. */
module Dns {
  import opened Options
  import opened Inventory
  import Rotation
  import Sets

  type RecordId = int

  datatype SyncStatus = NeverSynced | SyncCompleted | SyncFailed

  datatype Record = Record(
    machine: MachineId, provider: int, recordType: string, enabled: bool, syncAfterRotation: bool,
    lastIP: string, status: SyncStatus, error: string, syncedAt: Option<int>)

  /** A provider row: whether it is enabled and whether its stored token decrypts. */
  datatype DnsProvider = DnsProvider(enabled: bool, tokenOk: bool)

  /** A call of `dns.Sync`. */
  datatype Push = Push(record: RecordId, ip: string)

  /** The `WHERE` clause of the selection. */
  predicate Selected(x: Record, machine: MachineId, afterRotation: bool) {
    x.machine == machine && x.enabled && (afterRotation ==> x.syncAfterRotation)
  }

  /** The rows the query returns, in some order, each once. */
  ghost predicate IsSelection(records: map<RecordId, Record>, machine: MachineId, afterRotation: bool, ids: seq<RecordId>) {
    && (forall id :: id in ids <==> id in records && Selected(records[id], machine, afterRotation))
    && (forall i, j :: 0 <= i < j < |ids| ==> ids[i] != ids[j])
  }

  function SelectedIds(records: map<RecordId, Record>, machine: MachineId, afterRotation: bool): set<RecordId> {
    set id | id in records && Selected(records[id], machine, afterRotation)
  }

  lemma SelectionSize(records: map<RecordId, Record>, machine: MachineId, afterRotation: bool)
    ensures |SelectedIds(records, machine, afterRotation)| > 0 <==>
            exists id :: id in records && Selected(records[id], machine, afterRotation)
  {
    var chosen := SelectedIds(records, machine, afterRotation);
    forall id | id in records && Selected(records[id], machine, afterRotation) ensures |chosen| > 0 {
      assert id in chosen;
    }
    if |chosen| > 0 {
      var id := Sets.Member(chosen);
      assert id in records && Selected(records[id], machine, afterRotation);
    }
  }

  /** The address for a record: the stored IPv6 for AAAA, if the machine row is still there; the
      argument otherwise. */
  function Address(x: Record, ipv4: string, ipv6: Option<string>): string {
    if x.recordType == "AAAA" && ipv6.Some? then ipv6.value else ipv4
  }

  predicate Usable(providers: map<int, DnsProvider>, provider: int) {
    provider in providers && providers[provider].enabled && providers[provider].tokenOk
  }

  /** The record row after a push. */
  function Pushed(x: Record, ip: string, error: string, now: int): Record {
    x.(lastIP := ip, status := if error == "" then SyncCompleted else SyncFailed, error := error, syncedAt := Some(now))
  }

  /** The records after every one of `ids` with an address has been pushed it. */
  function Synced(records: map<RecordId, Record>, ids: seq<RecordId>, ipv4: string, ipv6: Option<string>, now: int)
    : map<RecordId, Record>
  {
    map id | id in records ::
      if id in ids && Address(records[id], ipv4, ipv6) != ""
      then Pushed(records[id], Address(records[id], ipv4, ipv6), "", now)
      else records[id]
  }

  /** Every one of `ids` has a row. */
  predicate Known(records: map<RecordId, Record>, ids: seq<RecordId>) {
    forall k :: 0 <= k < |ids| ==> ids[k] in records
  }

  /** The pushes of `ids`, in order, skipping records without an address. */
  function Pushes(records: map<RecordId, Record>, ids: seq<RecordId>, ipv4: string, ipv6: Option<string>): seq<Push>
    requires Known(records, ids)
  {
    if ids == [] then []
    else
      var last := ids[|ids| - 1];
      var ip := Address(records[last], ipv4, ipv6);
      Pushes(records, ids[..|ids| - 1], ipv4, ipv6) + (if ip == "" then [] else [Push(last, ip)])
  }

  lemma SyncedStep(records: map<RecordId, Record>, ids: seq<RecordId>, k: nat, ipv4: string, ipv6: Option<string>, now: int)
    requires k < |ids| && ids[k] in records && ids[k] !in ids[..k]
    requires Known(records, ids)
    ensures var x := records[ids[k]];
            var ip := Address(x, ipv4, ipv6);
            var before := Synced(records, ids[..k], ipv4, ipv6, now);
            && ids[k] in before && before[ids[k]] == x
            && Synced(records, ids[..k + 1], ipv4, ipv6, now) ==
               (if ip == "" then before else before[ids[k] := Pushed(x, ip, "", now)])
            && Pushes(records, ids[..k + 1], ipv4, ipv6) ==
               Pushes(records, ids[..k], ipv4, ipv6) + (if ip == "" then [] else [Push(ids[k], ip)])
  {
    assert ids[..k + 1][..k] == ids[..k];
    assert forall id :: id in ids[..k + 1] <==> id in ids[..k] || id == ids[k];
  }

  // ----- a request that may be cancelled -----

  // Cancellation is permanent, so a request lives for some number of its database statements, its
  // `lifetime`; every statement after these fails. `dns.Sync` is no statement.

  function Minus(a: nat, b: nat): nat {
    if a > b then a - b else 0
  }

  /** The statements a turn of the loop issues before it looks its provider up. */
  function Reads(x: Record): nat {
    if x.recordType == "AAAA" then 1 else 0
  }

  /** The statements of a whole turn without an error under a live request. */
  function Cost(x: Record, ipv4: string, ipv6: Option<string>): nat {
    Reads(x) + (if Address(x, ipv4, ipv6) == "" then 0 else 2)
  }

  function Used(records: map<RecordId, Record>, ids: seq<RecordId>, ipv4: string, ipv6: Option<string>): nat
    requires Known(records, ids)
  {
    if ids == [] then 0
    else Used(records, ids[..|ids| - 1], ipv4, ipv6) + Cost(records[ids[|ids| - 1]], ipv4, ipv6)
  }

  lemma UsedStep(records: map<RecordId, Record>, ids: seq<RecordId>, k: nat, ipv4: string, ipv6: Option<string>)
    requires k < |ids| && Known(records, ids)
    ensures ids[k] in records
    ensures Used(records, ids[..k + 1], ipv4, ipv6) ==
            Used(records, ids[..k], ipv4, ipv6) + Cost(records[ids[k]], ipv4, ipv6)
  {
    assert ids[..k + 1][..k] == ids[..k];
  }

  lemma {:induction false} UsedGrows(records: map<RecordId, Record>, ids: seq<RecordId>, i: nat, j: nat,
                                     ipv4: string, ipv6: Option<string>)
    requires i <= j <= |ids| && Known(records, ids)
    ensures Used(records, ids[..i], ipv4, ipv6) <= Used(records, ids[..j], ipv4, ipv6)
    decreases j
  {
    if i < j {
      UsedGrows(records, ids, i, j - 1, ipv4, ipv6);
      UsedStep(records, ids, j - 1, ipv4, ipv6);
    }
  }

  /** One turn of the loop, started with `life` statements to live and ended with `left`. */
  predicate Turn(providers: map<int, DnsProvider>, before: map<RecordId, Record>, after: map<RecordId, Record>,
                 calls: seq<Push>, calls': seq<Push>, id: RecordId, ipv4: string, ipv6: Option<string>, now: int,
                 error: string, life: nat, left: nat)
    requires id in before
  {
    var x := before[id];
    var ip := Address(x, ipv4, if life > 0 then ipv6 else None);
    var l := Minus(life, Reads(x));
    if ip == "" then error == "" && calls' == calls && after == before && left == l
    else if l == 0 || !Usable(providers, x.provider) then
      error != "" && calls' == calls && after == before && left == Minus(l, 1)
    else
      && calls' == calls + [Push(id, ip)] && left == Minus(l, 2)
      && after == if l >= 2 then before[id := Pushed(x, ip, error, now)] else before
  }

  /** `m` of the first `k` turns end under the live request: the most its lifetime allows. */
  predicate EndLive(records: map<RecordId, Record>, ids: seq<RecordId>, m: nat, k: nat, ipv4: string, ipv6: Option<string>,
                    life: nat)
    requires k <= |ids| && Known(records, ids)
  {
    && m <= k && Used(records, ids[..m], ipv4, ipv6) <= life
    && (m < k ==> life < Used(records, ids[..m + 1], ipv4, ipv6))
  }

  /** The request dies between the push of the `m`-th record and the update of its row. */
  predicate DiesAtUpdate(records: map<RecordId, Record>, ids: seq<RecordId>, m: nat, ipv4: string, ipv6: Option<string>,
                         life: nat)
    requires m < |ids| && Known(records, ids)
  {
    life == Used(records, ids[..m], ipv4, ipv6) + Reads(records[ids[m]]) + 1
  }

  function LostPush(records: map<RecordId, Record>, ids: seq<RecordId>, m: nat, k: nat, ipv4: string, ipv6: Option<string>,
                    life: nat): seq<Push>
    requires k <= |ids| && Known(records, ids)
  {
    if m < k && DiesAtUpdate(records, ids, m, ipv4, ipv6, life) then
      [Push(ids[m], Address(records[ids[m]], ipv4, ipv6))]
    else []
  }

  /** The first `k` turns were taken without an error, `m` of them to their end under the live
      request. The rows of these are marked; the turn after them, if any, pushed without marking
      or found no address, and so did those after it. */
  ghost predicate TurnsDone(before: map<RecordId, Record>, after: map<RecordId, Record>, calls: seq<Push>, calls': seq<Push>,
                            ids: seq<RecordId>, k: nat, m: nat, ipv4: string, ipv6: Option<string>, now: int,
                            life: nat, left: nat)
    requires k <= |ids| && Known(before, ids)
  {
    && EndLive(before, ids, m, k, ipv4, ipv6, life)
    && after == Synced(before, ids[..m], ipv4, ipv6, now)
    && calls' == calls + Pushes(before, ids[..m], ipv4, ipv6) + LostPush(before, ids, m, k, ipv4, ipv6, life)
    && left == (if m == k then life - Used(before, ids[..m], ipv4, ipv6) else 0)
    && (m < k ==> ipv4 == "" || (k == m + 1 && DiesAtUpdate(before, ids, m, ipv4, ipv6, life)))
  }

  /** The loop stopped with an error at position `k`. The records before it have had their turns,
      and those after it none. The failing record was pushed exactly if its provider was usable and
      looked up under the live request, and marked failed exactly if its update was live, too. */
  ghost predicate StoppedAt(providers: map<int, DnsProvider>, before: map<RecordId, Record>, after: map<RecordId, Record>,
                            calls: seq<Push>, calls': seq<Push>, ids: seq<RecordId>, k: nat, m: nat,
                            ipv4: string, ipv6: Option<string>, now: int, life: nat, error: string)
    requires Known(before, ids)
  {
    k < |ids| && ids[k] in before && EndLive(before, ids, m, k, ipv4, ipv6, life) && error != "" &&
    var x := before[ids[k]];
    var ip := Address(x, ipv4, ipv6);
    var done := Synced(before, ids[..m], ipv4, ipv6, now);
    var pushed := calls + Pushes(before, ids[..m], ipv4, ipv6) + LostPush(before, ids, m, k, ipv4, ipv6, life);
    var l := Minus(life, Used(before, ids[..k], ipv4, ipv6) + Reads(x));
    && (m < k ==> k == m + 1 && DiesAtUpdate(before, ids, m, ipv4, ipv6, life))
    && if l > 0 && Usable(providers, x.provider)
       then ip != "" && calls' == pushed + [Push(ids[k], ip)]
            && after == (if l >= 2 then done[ids[k] := Pushed(x, ip, error, now)] else done)
       else calls' == pushed && after == done
  }

  /** The rows of a query result: each known, each once. */
  predicate Loaded(records: map<RecordId, Record>, ids: seq<RecordId>) {
    Known(records, ids) && forall k :: 0 <= k < |ids| ==> ids[k] !in ids[..k]
  }

  lemma SelectionLoads(records: map<RecordId, Record>, machine: MachineId, afterRotation: bool, ids: seq<RecordId>)
    requires IsSelection(records, machine, afterRotation, ids) == true
    ensures Loaded(records, ids)
  {
    forall j | 0 <= j < |ids| ensures ids[j] in records {
      assert ids[j] in ids;
    }
  }

  lemma PrefixLoads(records: map<RecordId, Record>, ids: seq<RecordId>, n: nat)
    requires Loaded(records, ids) && n <= |ids|
    ensures Loaded(records, ids[..n])
  {
    assert forall k :: 0 <= k < n ==> ids[..n][k] == ids[k] && ids[..n][..k] == ids[..k];
  }

  /** A row that is not among the first `m` is as it was. */
  lemma NotYet(before: map<RecordId, Record>, ids: seq<RecordId>, m: nat, k: nat, ipv4: string, ipv6: Option<string>, now: int)
    requires m <= k < |ids| && Known(before, ids) && ids[k] !in ids[..k]
    ensures var done := Synced(before, ids[..m], ipv4, ipv6, now); ids[k] in done && done[ids[k]] == before[ids[k]]
  {
    assert ids[..k][..m] == ids[..m];
    assert forall id :: id in ids[..m] ==> id in ids[..k];
  }

  /** A turn that finds no address. */
  lemma TurnSkips(providers: map<int, DnsProvider>, before: map<RecordId, Record>, middle: map<RecordId, Record>,
                  after: map<RecordId, Record>, calls: seq<Push>, calls': seq<Push>, calls'': seq<Push>,
                  ids: seq<RecordId>, k: nat, ipv4: string, ipv6: Option<string>, now: int, error: string,
                  life: nat, middleLife: nat, left: nat)
    requires k < |ids| && ids[k] !in ids[..k] && Known(before, ids)
    requires TurnsDone(before, middle, calls, calls', ids, k, k, ipv4, ipv6, now, life, middleLife)
    requires ids[k] in middle && Turn(providers, middle, after, calls', calls'', ids[k], ipv4, ipv6, now, error, middleLife, left)
    requires error == "" && Cost(before[ids[k]], ipv4, ipv6) <= middleLife
    requires Address(before[ids[k]], ipv4, ipv6) == ""
    ensures TurnsDone(before, after, calls, calls'', ids, k + 1, k + 1, ipv4, ipv6, now, life, left)
  {
    SyncedStep(before, ids, k, ipv4, ipv6, now);
    UsedStep(before, ids, k, ipv4, ipv6);
  }

  /** A turn that pushes and marks. */
  lemma TurnMarks(providers: map<int, DnsProvider>, before: map<RecordId, Record>, middle: map<RecordId, Record>,
                  after: map<RecordId, Record>, calls: seq<Push>, calls': seq<Push>, calls'': seq<Push>,
                  ids: seq<RecordId>, k: nat, ipv4: string, ipv6: Option<string>, now: int, error: string,
                  life: nat, middleLife: nat, left: nat)
    requires k < |ids| && ids[k] !in ids[..k] && Known(before, ids)
    requires TurnsDone(before, middle, calls, calls', ids, k, k, ipv4, ipv6, now, life, middleLife)
    requires ids[k] in middle && Turn(providers, middle, after, calls', calls'', ids[k], ipv4, ipv6, now, error, middleLife, left)
    requires error == "" && Cost(before[ids[k]], ipv4, ipv6) <= middleLife
    requires Address(before[ids[k]], ipv4, ipv6) != ""
    ensures TurnsDone(before, after, calls, calls'', ids, k + 1, k + 1, ipv4, ipv6, now, life, left)
  {
    SyncedStep(before, ids, k, ipv4, ipv6, now);
    UsedStep(before, ids, k, ipv4, ipv6);
  }

  /** A turn without an error that the request survives. */
  lemma TurnEndsLive(providers: map<int, DnsProvider>, before: map<RecordId, Record>, middle: map<RecordId, Record>,
                     after: map<RecordId, Record>, calls: seq<Push>, calls': seq<Push>, calls'': seq<Push>,
                     ids: seq<RecordId>, k: nat, ipv4: string, ipv6: Option<string>, now: int, error: string,
                     life: nat, middleLife: nat, left: nat)
    requires k < |ids| && ids[k] !in ids[..k] && Known(before, ids)
    requires TurnsDone(before, middle, calls, calls', ids, k, k, ipv4, ipv6, now, life, middleLife)
    requires ids[k] in middle && Turn(providers, middle, after, calls', calls'', ids[k], ipv4, ipv6, now, error, middleLife, left)
    requires error == "" && Cost(before[ids[k]], ipv4, ipv6) <= middleLife
    ensures TurnsDone(before, after, calls, calls'', ids, k + 1, k + 1, ipv4, ipv6, now, life, left)
  {
    if Address(before[ids[k]], ipv4, ipv6) == "" {
      TurnSkips(providers, before, middle, after, calls, calls', calls'', ids, k, ipv4, ipv6, now, error, life, middleLife, left);
    } else {
      TurnMarks(providers, before, middle, after, calls, calls', calls'', ids, k, ipv4, ipv6, now, error, life, middleLife, left);
    }
  }

  /** A turn without an error that the request does not survive. */
  lemma TurnDies(providers: map<int, DnsProvider>, before: map<RecordId, Record>, middle: map<RecordId, Record>,
                 after: map<RecordId, Record>, calls: seq<Push>, calls': seq<Push>, calls'': seq<Push>,
                 ids: seq<RecordId>, k: nat, ipv4: string, ipv6: Option<string>, now: int, error: string,
                 life: nat, middleLife: nat, left: nat)
    requires k < |ids| && ids[k] !in ids[..k] && Known(before, ids)
    requires TurnsDone(before, middle, calls, calls', ids, k, k, ipv4, ipv6, now, life, middleLife)
    requires ids[k] in middle && Turn(providers, middle, after, calls', calls'', ids[k], ipv4, ipv6, now, error, middleLife, left)
    requires error == "" && Cost(before[ids[k]], ipv4, ipv6) > middleLife
    ensures TurnsDone(before, after, calls, calls'', ids, k + 1, k, ipv4, ipv6, now, life, left)
  {
    NotYet(before, ids, k, k, ipv4, ipv6, now);
    UsedStep(before, ids, k, ipv4, ipv6);
  }

  /** A turn that fails. */
  lemma TurnFails(providers: map<int, DnsProvider>, before: map<RecordId, Record>, middle: map<RecordId, Record>,
                  after: map<RecordId, Record>, calls: seq<Push>, calls': seq<Push>, calls'': seq<Push>,
                  ids: seq<RecordId>, k: nat, ipv4: string, ipv6: Option<string>, now: int, error: string,
                  life: nat, middleLife: nat, left: nat)
    requires k < |ids| && ids[k] !in ids[..k] && Known(before, ids)
    requires TurnsDone(before, middle, calls, calls', ids, k, k, ipv4, ipv6, now, life, middleLife)
    requires ids[k] in middle && Turn(providers, middle, after, calls', calls'', ids[k], ipv4, ipv6, now, error, middleLife, left)
    requires error != ""
    ensures StoppedAt(providers, before, after, calls, calls'', ids, k, k, ipv4, ipv6, now, life, error)
  {
    NotYet(before, ids, k, k, ipv4, ipv6, now);
  }

  /** The next turn starts when the request is dead. */
  lemma TurnAfterDeath(providers: map<int, DnsProvider>, before: map<RecordId, Record>, middle: map<RecordId, Record>,
                       after: map<RecordId, Record>, calls: seq<Push>, calls': seq<Push>, calls'': seq<Push>,
                       ids: seq<RecordId>, k: nat, m: nat, ipv4: string, ipv6: Option<string>, now: int, error: string,
                       life: nat, left: nat)
    requires m < k < |ids| && Known(before, ids)
    requires TurnsDone(before, middle, calls, calls', ids, k, m, ipv4, ipv6, now, life, 0)
    requires ids[k] in middle && middle[ids[k]] == before[ids[k]]
    requires Turn(providers, middle, after, calls', calls'', ids[k], ipv4, ipv6, now, error, 0, left)
    ensures error == "" ==> TurnsDone(before, after, calls, calls'', ids, k + 1, m, ipv4, ipv6, now, life, left)
    ensures error != "" ==> StoppedAt(providers, before, after, calls, calls'', ids, k, m, ipv4, ipv6, now, life, error)
  {
    UsedGrows(before, ids, m + 1, k, ipv4, ipv6);
  }

  /** Whatever a turn does, the loop is one turn further or has stopped. */
  lemma OneMoreTurn(providers: map<int, DnsProvider>, before: map<RecordId, Record>, middle: map<RecordId, Record>,
                    after: map<RecordId, Record>, calls: seq<Push>, calls': seq<Push>, calls'': seq<Push>,
                    ids: seq<RecordId>, k: nat, m: nat, ipv4: string, ipv6: Option<string>, now: int, error: string,
                    life: nat, middleLife: nat, left: nat)
    returns (m': nat)
    requires m <= k < |ids| && Loaded(before, ids)
    requires TurnsDone(before, middle, calls, calls', ids, k, m, ipv4, ipv6, now, life, middleLife) == true
    requires ids[k] in middle && Turn(providers, middle, after, calls', calls'', ids[k], ipv4, ipv6, now, error, middleLife, left) == true
    ensures error == "" ==> TurnsDone(before, after, calls, calls'', ids, k + 1, m', ipv4, ipv6, now, life, left)
    ensures error != "" ==> StoppedAt(providers, before, after, calls, calls'', ids, k, m', ipv4, ipv6, now, life, error)
  {
    NotYet(before, ids, m, k, ipv4, ipv6, now);
    m' := m;
    if m < k {
      TurnAfterDeath(providers, before, middle, after, calls, calls', calls'', ids, k, m, ipv4, ipv6, now, error, life, left);
    } else if error != "" {
      TurnFails(providers, before, middle, after, calls, calls', calls'', ids, k, ipv4, ipv6, now, error, life, middleLife, left);
    } else if middleLife < Cost(before[ids[k]], ipv4, ipv6) {
      TurnDies(providers, before, middle, after, calls, calls', calls'', ids, k, ipv4, ipv6, now, error, life, middleLife, left);
    } else {
      TurnEndsLive(providers, before, middle, after, calls, calls', calls'', ids, k, ipv4, ipv6, now, error, life, middleLife, left);
      m' := k + 1;
    }
  }

  /** Statements are left to the request after the loop exactly if all turns have not used them up. */
  lemma LeftIff(before: map<RecordId, Record>, after: map<RecordId, Record>, calls: seq<Push>, calls': seq<Push>,
                ids: seq<RecordId>, m: nat, ipv4: string, ipv6: Option<string>, now: int, life: nat, left: nat)
    requires Known(before, ids) && TurnsDone(before, after, calls, calls', ids, |ids|, m, ipv4, ipv6, now, life, left)
    ensures left > 0 <==> life > Used(before, ids, ipv4, ipv6)
    ensures m == |ids| <==> life >= Used(before, ids, ipv4, ipv6)
  {
    assert ids[..|ids|] == ids;
    if m < |ids| {
      UsedGrows(before, ids, m + 1, |ids|, ipv4, ipv6);
    }
  }

  /** Whether records are selected does not depend on what has been marked. */
  lemma SelectionStaysFor(before: map<RecordId, Record>, after: map<RecordId, Record>, machine: MachineId,
                          marked: seq<RecordId>, ipv4: string, ipv6: Option<string>, now: int)
    requires after == Synced(before, marked, ipv4, ipv6, now)
    ensures |SelectedIds(after, machine, true)| > 0 <==> |SelectedIds(before, machine, true)| > 0
  {
    SelectionSize(after, machine, true);
    SelectionSize(before, machine, true);
    forall id | id in before && Selected(before[id], machine, true) ensures |SelectedIds(after, machine, true)| > 0 {
      assert id in after && Selected(after[id], machine, true);
    }
    forall id | id in after && Selected(after[id], machine, true) ensures |SelectedIds(before, machine, true)| > 0 {
      assert id in before && Selected(before[id], machine, true);
    }
  }

  lemma SelectionNonEmpty(records: map<RecordId, Record>, machine: MachineId, ids: seq<RecordId>)
    requires IsSelection(records, machine, true, ids)
    ensures |SelectedIds(records, machine, true)| > 0 <==> ids != []
  {
    SelectionSize(records, machine, true);
    if ids != [] {
      var id := ids[0];
      assert id in ids;
    }
    forall id | id in records && Selected(records[id], machine, true) ensures ids != [] {
      assert id in ids;
    }
  }

  /** The outcome of the loop over `ids`, with the error it returns. */
  ghost predicate FanOut(providers: map<int, DnsProvider>, before: map<RecordId, Record>, after: map<RecordId, Record>,
                         calls: seq<Push>, calls': seq<Push>, ids: seq<RecordId>, ipv4: string, ipv6: Option<string>, now: int,
                         life: nat, left: nat, error: string, failedAt: nat, reached: nat)
  {
    Known(before, ids) &&
    if error == "" then TurnsDone(before, after, calls, calls', ids, |ids|, reached, ipv4, ipv6, now, life, left)
    else StoppedAt(providers, before, after, calls, calls', ids, failedAt, reached, ipv4, ipv6, now, life, error)
  }

  /** What has been read of the rows of a query: all of them unless the request dies meanwhile. */
  predicate ReadOf(loaded: seq<RecordId>, ids: seq<RecordId>, life: nat) {
    loaded <= ids && (life >= 2 ==> loaded == ids)
  }

  /** After a loop without an error the count finds a record exactly if some are selected and the
      request outlives the statements of all of them. */
  lemma LeftAfterLoop(providers: map<int, DnsProvider>, before: map<RecordId, Record>, after: map<RecordId, Record>,
                      calls: seq<Push>, calls': seq<Push>, machine: MachineId, ids: seq<RecordId>, loaded: seq<RecordId>,
                      ipv4: string, ipv6: Option<string>, now: int, life: nat, left: nat, error: string,
                      failedAt: nat, reached: nat)
    requires IsSelection(before, machine, true, ids) == true
    requires Known(before, ids) == true && life > 0 && ReadOf(loaded, ids, life) == true
    requires FanOut(providers, before, after, calls, calls', loaded, ipv4, ipv6, now, life - 1, left, error, failedAt, reached)
             == true
    requires error == ""
    ensures left > 0 && |SelectedIds(after, machine, true)| > 0 <==> ids != [] && life >= Used(before, ids, ipv4, ipv6) + 2
  {
    SelectionNonEmpty(before, machine, ids);
    LeftIff(before, after, calls, calls', loaded, reached, ipv4, ipv6, now, life - 1, left);
    SelectionStaysFor(before, after, machine, loaded[..reached], ipv4, ipv6, now);
  }

  /** The push goes to a known record with a usable provider, and `dns.Sync` answers it with `error`. */
  predicate Accepted(providers: map<int, DnsProvider>, records: map<RecordId, Record>, p: Push, answer: Push -> string,
                     error: string)
  {
    && p.record in records && p.ip != "" && answer(p) == error
    && var provider := records[p.record].provider;
       provider in providers && providers[provider].enabled && providers[provider].tokenOk
  }

  predicate Place(j: nat) {
    true
  }

  /** Every push after the first `n` was accepted, all but the last without an error. `Place` keeps the
      verifier from looking at every push in sight. */
  predicate AllAccepted(providers: map<int, DnsProvider>, records: map<RecordId, Record>, ids: seq<RecordId>, pushes: seq<Push>,
                        n: nat, answer: Push -> string, error: string)
  {
    n <= |pushes| &&
    forall j: nat {:trigger Place(j)} :: Place(j) && n <= j < |pushes| ==>
      && pushes[j].record in ids
      && (|| Accepted(providers, records, pushes[j], answer, "")
          || (j == |pushes| - 1 && Accepted(providers, records, pushes[j], answer, error)))
  }

  lemma AcceptedGrows(providers: map<int, DnsProvider>, before: map<RecordId, Record>, middle: map<RecordId, Record>,
                      ids: seq<RecordId>, k: nat, calls: seq<Push>, calls': seq<Push>, n: nat, answer: Push -> string, error: string)
    requires AllAccepted(providers, before, ids, calls, n, answer, "") && k < |ids|
    requires ids[k] in before && ids[k] in middle && middle[ids[k]] == before[ids[k]]
    requires calls' == calls
             || exists ip :: calls' == calls + [Push(ids[k], ip)] && Accepted(providers, middle, Push(ids[k], ip), answer, error)
    ensures AllAccepted(providers, before, ids, calls', n, answer, error)
  {
    if calls' != calls {
      var ip :| calls' == calls + [Push(ids[k], ip)] && Accepted(providers, middle, Push(ids[k], ip), answer, error);
      assert Accepted(providers, before, Push(ids[k], ip), answer, error);
    }
  }

  lemma AcceptedAmong(providers: map<int, DnsProvider>, records: map<RecordId, Record>, loaded: seq<RecordId>, ids: seq<RecordId>,
                      pushes: seq<Push>, n: nat, answer: Push -> string, error: string)
    requires AllAccepted(providers, records, loaded, pushes, n, answer, error) && loaded <= ids
    ensures AllAccepted(providers, records, ids, pushes, n, answer, error)
  {
    assert forall id :: id in loaded ==> id in ids;
  }

  /** Every push after the first `n` goes to an enabled record of the machine that is to be synchronised
      after rotations, with an enabled provider whose token decrypts; only the last may have failed. */
  ghost predicate Selective(providers: map<int, DnsProvider>, before: map<RecordId, Record>, machine: MachineId,
                            pushes: seq<Push>, n: nat, answer: Push -> string, error: string)
  {
    && n <= |pushes|
    && forall j :: n <= j < |pushes| ==>
              && pushes[j].record in before && pushes[j].ip != ""
              && var x := before[pushes[j].record];
                 && x.machine == machine && x.enabled && x.syncAfterRotation
                 && x.provider in providers && providers[x.provider].enabled && providers[x.provider].tokenOk
                 && (answer(pushes[j]) == "" || (j == |pushes| - 1 && answer(pushes[j]) == error))
  }

  /** What every push of a synchronisation after a rotation is. */
  lemma AcceptedMeans(providers: map<int, DnsProvider>, before: map<RecordId, Record>, machine: MachineId, loaded: seq<RecordId>,
                      ids: seq<RecordId>, life: nat, pushes: seq<Push>, n: nat, answer: Push -> string, error: string)
    requires AllAccepted(providers, before, loaded, pushes, n, answer, error) == true
    requires IsSelection(before, machine, true, ids) == true && ReadOf(loaded, ids, life) == true
    ensures Selective(providers, before, machine, pushes, n, answer, error)
  {
    AcceptedAmong(providers, before, loaded, ids, pushes, n, answer, error);
    forall j | n <= j < |pushes|
      ensures pushes[j].record in before && pushes[j].ip != "" && Selected(before[pushes[j].record], machine, true)
      ensures Accepted(providers, before, pushes[j], answer, answer(pushes[j]))
      ensures answer(pushes[j]) == "" || (j == |pushes| - 1 && answer(pushes[j]) == error)
    {
      assert Place(j);
    }
  }

  class DnsTable {
    var records: map<RecordId, Record>
    var providers: map<int, DnsProvider>
    /** The calls of `dns.Sync` so far. */
    var pushes: seq<Push>
    /** The database statements the request lives for. */
    var lifetime: nat

    /** A database statement under the request's context. */
    method Statement() returns (live: bool)
      modifies this`lifetime
      ensures live <==> old(lifetime) > 0
      ensures lifetime == if old(lifetime) > 0 then old(lifetime) - 1 else 0
    {
      live := lifetime > 0;
      if live {
        lifetime := lifetime - 1;
      }
    }

    /** `syncOneDNS`, for which `dns.Sync` answers `answer`. It fails without a push when the provider
        is missing, disabled or has an undecryptable token, or when the request is cancelled before
        the provider is looked up; otherwise it pushes. The outcome is recorded only if the request
        is still live then, and the error of that update is discarded. */
    method SyncOne(id: RecordId, ip: string, now: int, answer: string) returns (error: string)
      requires id in records
      modifies this`records, this`pushes, this`lifetime
      ensures var x := old(records)[id];
              var found := old(lifetime) > 0 && x.provider in providers && providers[x.provider].enabled;
              if found && providers[x.provider].tokenOk
              then && error == answer && pushes == old(pushes) + [Push(id, ip)]
                   && lifetime == (if old(lifetime) >= 2 then old(lifetime) - 2 else 0)
                   && records == if old(lifetime) < 2 then old(records)
                                 else old(records)[id := x.(lastIP := ip, error := answer, syncedAt := Some(now),
                                                            status := if answer == "" then SyncCompleted else SyncFailed)]
              else && error == (if found then "DNS token cannot be decrypted" else "DNS provider unavailable")
                   && pushes == old(pushes) && records == old(records)
                   && lifetime == (if old(lifetime) >= 1 then old(lifetime) - 1 else 0)
    {
      var x := records[id];
      var live := Statement();
      if !live || x.provider !in providers || !providers[x.provider].enabled {
        return "DNS provider unavailable";
      }
      if !providers[x.provider].tokenOk {
        return "DNS token cannot be decrypted";
      }
      error := answer;
      pushes := pushes + [Push(id, ip)];
      var status := SyncCompleted;
      if error != "" {
        status := SyncFailed;
      }
      live := Statement();
      if live {
        records := records[id := x.(lastIP := ip, status := status, error := error, syncedAt := Some(now))];
      }
    }

    /** One turn of the loop: the record's address is chosen, and pushed if there is one. A failing
        query of the IPv6 address leaves the argument in place. */
    method SyncRecord(id: RecordId, ipv4: string, ipv6: Option<string>, now: int, answer: Push -> string)
      returns (error: string)
      requires id in records
      modifies this`records, this`pushes, this`lifetime
      ensures Turn(providers, old(records), records, old(pushes), pushes, id, ipv4, ipv6, now, error, old(lifetime), lifetime)
      ensures pushes == old(pushes) || exists ip ::
                pushes == old(pushes) + [Push(id, ip)] && Accepted(providers, old(records), Push(id, ip), answer, error)
    {
      error := "";
      var ip := ipv4;
      if records[id].recordType == "AAAA" {
        var live := Statement();
        if live && ipv6.Some? {
          ip := ipv6.value;
        }
      }
      if ip != "" {
        error := SyncOne(id, ip, now, answer(Push(id, ip)));
      }
    }

    /** The loop of `syncDNSForMachine`, for a request of any lifetime. `reached` turns end under
        the live request; their rows are marked. */
    method SyncAll(ids: seq<RecordId>, ipv4: string, ipv6: Option<string>, now: int, answer: Push -> string)
      returns (error: string, failedAt: nat, ghost reached: nat)
      requires Loaded(records, ids)
      modifies this`records, this`pushes, this`lifetime
      ensures AllAccepted(providers, old(records), ids, pushes, |old(pushes)|, answer, error)
      ensures FanOut(providers, old(records), records, old(pushes), pushes, ids, ipv4, ipv6, now, old(lifetime), lifetime,
                     error, failedAt, reached)
    {
      error, failedAt, reached := "", 0, 0;
      for k := 0 to |ids|
        invariant error == ""
        invariant AllAccepted(providers, old(records), ids, pushes, |old(pushes)|, answer, "")
        invariant TurnsDone(old(records), records, old(pushes), pushes, ids, k, reached, ipv4, ipv6, now, old(lifetime), lifetime)
      {
        ghost var middle, calls, life := records, pushes, lifetime;
        NotYet(old(records), ids, reached, k, ipv4, ipv6, now);
        error := SyncRecord(ids[k], ipv4, ipv6, now, answer);
        AcceptedGrows(providers, old(records), middle, ids, k, calls, pushes, |old(pushes)|, answer, error);
        reached := OneMoreTurn(providers, old(records), middle, records, old(pushes), calls, pushes, ids, k, reached,
                               ipv4, ipv6, now, error, old(lifetime), life, lifetime);
        if error != "" {
          failedAt := k;
          return;
        }
      }
    }

    /** The query of the selection. Reading its rows ends early, without an error, when the request
        is cancelled meanwhile. */
    method SelectRows(ids: seq<RecordId>) returns (loaded: Option<seq<RecordId>>)
      requires Loaded(records, ids)
      modifies this`lifetime
      ensures lifetime == Minus(old(lifetime), 1)
      ensures loaded.None? <==> old(lifetime) == 0
      ensures loaded.Some? ==>
                && Loaded(records, loaded.value) && loaded.value <= ids
                && (old(lifetime) >= 2 ==> loaded.value == ids)
    {
      var live := Statement();
      if !live {
        return None;
      }
      var n := |ids|;
      if lifetime == 0 {
        n :| 0 <= n <= |ids|;
      }
      PrefixLoads(records, ids, n);
      loaded := Some(ids[..n]);
    }

    /** `SELECT COUNT(*) FROM dns_records ...`; zero when it fails. */
    method CountSelected(machine: MachineId) returns (n: nat)
      modifies this`lifetime
      ensures n == if old(lifetime) > 0 then |SelectedIds(records, machine, true)| else 0
    {
      n := 0;
      var live := Statement();
      if live {
        n := |SelectedIds(records, machine, true)|;
      }
    }

    /** `syncDNSForMachine`: the query, whose rows are `ids` and of which `loaded` are read, and the
        loop. The comparison with `true` keeps the verifier from unfolding what the loop has proved. */
    method SyncMachine(ids: seq<RecordId>, ipv4: string, ipv6: Option<string>, now: int, answer: Push -> string)
      returns (error: string, loaded: seq<RecordId>, failedAt: nat, ghost reached: nat)
      requires Loaded(records, ids) == true
      modifies this`records, this`pushes, this`lifetime
      ensures AllAccepted(providers, old(records), loaded, pushes, |old(pushes)|, answer, error)
      ensures ReadOf(loaded, ids, old(lifetime))
      ensures old(lifetime) == 0 ==> error != "" && records == old(records) && pushes == old(pushes)
      ensures old(lifetime) > 0 ==>
                FanOut(providers, old(records), records, old(pushes), pushes, loaded, ipv4, ipv6, now,
                       old(lifetime) - 1, lifetime, error, failedAt, reached) == true
    {
      error, loaded, failedAt, reached := "context canceled", [], 0, 0;
      var rows := SelectRows(ids);
      if rows.None? {
        return;
      }
      loaded := rows.value;
      error, failedAt, reached := SyncAll(loaded, ipv4, ipv6, now, answer);
    }

    /** The status after a synchronisation that has returned `error`. */
    method StatusAfter(machine: MachineId, error: string) returns (status: Rotation.DnsStatus)
      modifies this`lifetime
      ensures status == Rotation.DnsFailed <==> error != ""
      ensures status == Rotation.DnsCompleted <==> error == "" && old(lifetime) > 0 && |SelectedIds(records, machine, true)| > 0
      ensures status == Rotation.DnsCompleted || status == Rotation.DnsFailed || status == Rotation.DnsDisabled
    {
      status := Rotation.DnsDisabled;
      if error != "" {
        status := Rotation.DnsFailed;
      } else {
        var n := CountSelected(machine);
        if n > 0 {
          status := Rotation.DnsCompleted;
        }
      }
    }

    /** The DNS part of `rotate`: the status that goes into the ledger row. The error of the count is
        discarded, and so a request cancelled by then reports that there was nothing to do. Pushes go
        to enabled records of the machine that are to be synchronised after rotations, with an enabled
        provider whose token decrypts; none follows one that fails. */
    method SyncAfterRotation(ids: seq<RecordId>, machine: MachineId, ipv4: string, ipv6: Option<string>, now: int,
                             answer: Push -> string)
      returns (status: Rotation.DnsStatus, error: string)
      requires IsSelection(records, machine, true, ids) == true
      modifies this`records, this`pushes, this`lifetime
      ensures Known(old(records), ids) == true
      ensures status == Rotation.DnsFailed <==> error != ""
      ensures status == Rotation.DnsCompleted <==>
                error == "" && ids != [] && old(lifetime) >= Used(old(records), ids, ipv4, ipv6) + 2
      ensures status == Rotation.DnsDisabled <==>
                error == "" && (ids == [] || old(lifetime) < Used(old(records), ids, ipv4, ipv6) + 2)
      ensures Selective(providers, old(records), machine, pushes, |old(pushes)|, answer, error) == true
    {
      SelectionLoads(records, machine, true, ids);
      ghost var before := records;
      ghost var reached;
      var loaded, failedAt;
      error, loaded, failedAt, reached := SyncMachine(ids, ipv4, ipv6, now, answer);
      AcceptedMeans(providers, before, machine, loaded, ids, old(lifetime), pushes, |old(pushes)|, answer, error);
      if error == "" {
        LeftAfterLoop(providers, before, records, old(pushes), pushes, machine, ids, loaded, ipv4, ipv6, now,
                      old(lifetime), lifetime, error, failedAt, reached);
      }
      status := StatusAfter(machine, error);
    }
  }

  // ----- what a cancellation can and cannot do -----

  /** The pushes of the turns that ended live and of the lost one are those of all turns. */
  lemma PushedBefore(before: map<RecordId, Record>, ids: seq<RecordId>, k: nat, m: nat,
                     ipv4: string, ipv6: Option<string>, life: nat)
    requires k <= |ids| && Known(before, ids) && EndLive(before, ids, m, k, ipv4, ipv6, life)
    requires m < k ==> k == m + 1 && DiesAtUpdate(before, ids, m, ipv4, ipv6, life)
    ensures Pushes(before, ids[..m], ipv4, ipv6) + LostPush(before, ids, m, k, ipv4, ipv6, life) ==
            Pushes(before, ids[..k], ipv4, ipv6)
  {
    if m < k {
      UsedStep(before, ids, m, ipv4, ipv6);
      assert ids[..m + 1][..m] == ids[..m];
    }
  }

  /** The pushes are always those of the first records with an address, in order: of the turns that
      ended live, and of at most one more. */
  lemma PushesInOrder(before: map<RecordId, Record>, after: map<RecordId, Record>, calls: seq<Push>, calls': seq<Push>,
                      ids: seq<RecordId>, k: nat, m: nat, ipv4: string, ipv6: Option<string>, now: int, life: nat, left: nat)
    returns (n: nat)
    requires k <= |ids| && Known(before, ids)
    requires TurnsDone(before, after, calls, calls', ids, k, m, ipv4, ipv6, now, life, left)
    ensures m <= n <= m + 1 && n <= k && calls' == calls + Pushes(before, ids[..n], ipv4, ipv6)
    ensures m < n <==> m < k && DiesAtUpdate(before, ids, m, ipv4, ipv6, life)
  {
    n := m;
    if m < k && DiesAtUpdate(before, ids, m, ipv4, ipv6, life) {
      n := m + 1;
      PushedBefore(before, ids, n, m, ipv4, ipv6, life);
      assert LostPush(before, ids, m, n, ipv4, ipv6, life) == LostPush(before, ids, m, k, ipv4, ipv6, life);
    }
    assert calls + Pushes(before, ids[..m], ipv4, ipv6) + LostPush(before, ids, m, k, ipv4, ipv6, life) ==
           calls + (Pushes(before, ids[..m], ipv4, ipv6) + LostPush(before, ids, m, k, ipv4, ipv6, life));
  }

  /** A failing loop has pushed the records before the failing one, in order, and nothing after
      it. */
  lemma StopsInOrder(providers: map<int, DnsProvider>, before: map<RecordId, Record>, after: map<RecordId, Record>,
                     calls: seq<Push>, calls': seq<Push>, ids: seq<RecordId>, k: nat, m: nat,
                     ipv4: string, ipv6: Option<string>, now: int, life: nat, error: string)
    requires Known(before, ids) && StoppedAt(providers, before, after, calls, calls', ids, k, m, ipv4, ipv6, now, life, error)
    ensures var pushed := calls + Pushes(before, ids[..k], ipv4, ipv6);
            calls' == pushed || calls' == pushed + [Push(ids[k], Address(before[ids[k]], ipv4, ipv6))]
    ensures m == k || m == k - 1
  {
    if m < k {
      UsedStep(before, ids, m, ipv4, ipv6);
      assert ids[..m + 1][..m] == ids[..m];
    }
  }

  /** A record among the first `m` has been marked. */
  lemma EndedIsMarked(before: map<RecordId, Record>, ids: seq<RecordId>, m: nat,
                      ipv4: string, ipv6: Option<string>, now: int, life: nat, j: nat)
    requires j < m <= |ids| && Known(before, ids) && Used(before, ids[..m], ipv4, ipv6) <= life
    requires Address(before[ids[j]], ipv4, ipv6) != ""
    ensures var x, done := before[ids[j]], Synced(before, ids[..m], ipv4, ipv6, now);
            && life > Used(before, ids[..j], ipv4, ipv6) + Reads(x) + 1
            && ids[j] in done && done[ids[j]] == Pushed(x, Address(x, ipv4, ipv6), "", now)
  {
    UsedStep(before, ids, j, ipv4, ipv6);
    UsedGrows(before, ids, j + 1, m, ipv4, ipv6);
    assert ids[..m][j] == ids[j];
  }

  /** A record after these has not, and has been pushed only if it is the next one. */
  lemma UnendedIsUnmarked(before: map<RecordId, Record>, ids: seq<RecordId>, k: nat, m: nat,
                          ipv4: string, ipv6: Option<string>, now: int, life: nat, j: nat)
    requires m <= j < k <= |ids| && Loaded(before, ids) && EndLive(before, ids, m, k, ipv4, ipv6, life)
    requires Address(before[ids[j]], ipv4, ipv6) != ""
    ensures var x, done := before[ids[j]], Synced(before, ids[..m], ipv4, ipv6, now);
            && life <= Used(before, ids[..j], ipv4, ipv6) + Reads(x) + 1
            && (life > Used(before, ids[..j], ipv4, ipv6) + Reads(x) <==>
                  j == m && DiesAtUpdate(before, ids, m, ipv4, ipv6, life))
            && ids[j] in done && done[ids[j]] == x
  {
    UsedStep(before, ids, m, ipv4, ipv6);
    NotYet(before, ids, m, j, ipv4, ipv6, now);
    if m < j {
      UsedGrows(before, ids, m + 1, j, ipv4, ipv6);
    }
  }

  /** The `j`-th record's part in a loop that has pushed the records before the `n`-th and marked
      those before the `m`-th. */
  lemma TurnOutcome(before: map<RecordId, Record>, ids: seq<RecordId>, k: nat, m: nat, n: nat,
                    ipv4: string, ipv6: Option<string>, now: int, life: nat, j: nat)
    requires j < k <= |ids| && Loaded(before, ids) && EndLive(before, ids, m, k, ipv4, ipv6, life)
    requires m <= n <= m + 1 && (m < n <==> m < k && DiesAtUpdate(before, ids, m, ipv4, ipv6, life))
    requires Address(before[ids[j]], ipv4, ipv6) != ""
    ensures var x, done := before[ids[j]], Synced(before, ids[..m], ipv4, ipv6, now);
            && (j < n <==> life > Used(before, ids[..j], ipv4, ipv6) + Reads(x))
            && ids[j] in done
            && done[ids[j]] == if life > Used(before, ids[..j], ipv4, ipv6) + Reads(x) + 1
                               then Pushed(x, Address(x, ipv4, ipv6), "", now) else x
  {
    if j < m {
      EndedIsMarked(before, ids, m, ipv4, ipv6, now, life, j);
    } else {
      UnendedIsUnmarked(before, ids, k, m, ipv4, ipv6, now, life, j);
    }
  }

  /** Without an error: a record with an address is pushed exactly if the request is live when its
      provider is looked up, and its row is marked exactly if the request is live at the update. */
  lemma MarkedIffLive(before: map<RecordId, Record>, after: map<RecordId, Record>, calls: seq<Push>, calls': seq<Push>,
                      ids: seq<RecordId>, k: nat, m: nat, ipv4: string, ipv6: Option<string>, now: int,
                      life: nat, left: nat, j: nat)
    returns (n: nat)
    requires j < k <= |ids| && Loaded(before, ids)
    requires TurnsDone(before, after, calls, calls', ids, k, m, ipv4, ipv6, now, life, left)
    requires Address(before[ids[j]], ipv4, ipv6) != ""
    ensures n <= k && calls' == calls + Pushes(before, ids[..n], ipv4, ipv6)
    ensures var x := before[ids[j]];
            && (j < n <==> life > Used(before, ids[..j], ipv4, ipv6) + Reads(x))
            && ids[j] in after
            && after[ids[j]] == if life > Used(before, ids[..j], ipv4, ipv6) + Reads(x) + 1
                                then x.(lastIP := Address(x, ipv4, ipv6), status := SyncCompleted, error := "", syncedAt := Some(now))
                                else x
  {
    n := PushesInOrder(before, after, calls, calls', ids, k, m, ipv4, ipv6, now, life, left);
    TurnOutcome(before, ids, k, m, n, ipv4, ipv6, now, life, j);
  }

  /** Before a failing record: each is pushed, and its row is marked exactly if the request is live at
      its update. */
  lemma MarkedBeforeStopIffLive(providers: map<int, DnsProvider>, before: map<RecordId, Record>, after: map<RecordId, Record>,
                                calls: seq<Push>, calls': seq<Push>, ids: seq<RecordId>, k: nat, m: nat,
                                ipv4: string, ipv6: Option<string>, now: int, life: nat, error: string, j: nat)
    requires j < k && Loaded(before, ids)
    requires StoppedAt(providers, before, after, calls, calls', ids, k, m, ipv4, ipv6, now, life, error)
    requires Address(before[ids[j]], ipv4, ipv6) != ""
    ensures var x := before[ids[j]];
            && calls + Pushes(before, ids[..k], ipv4, ipv6) <= calls'
            && ids[j] in after
            && after[ids[j]] == if life > Used(before, ids[..j], ipv4, ipv6) + Reads(x) + 1
                                then x.(lastIP := Address(x, ipv4, ipv6), status := SyncCompleted, error := "", syncedAt := Some(now))
                                else x
  {
    StopsInOrder(providers, before, after, calls, calls', ids, k, m, ipv4, ipv6, now, life, error);
    TurnOutcome(before, ids, k, m, k, ipv4, ipv6, now, life, j);
    assert ids[..k][j] == ids[j];
  }

  /** The failing record itself: it is pushed exactly if its provider is usable and the request live
      when the provider is looked up, and then marked failed exactly if the request is live at the
      update. */
  lemma StoppedRowIffLive(providers: map<int, DnsProvider>, before: map<RecordId, Record>, after: map<RecordId, Record>,
                          calls: seq<Push>, calls': seq<Push>, ids: seq<RecordId>, k: nat, m: nat,
                          ipv4: string, ipv6: Option<string>, now: int, life: nat, error: string)
    requires Loaded(before, ids)
    requires StoppedAt(providers, before, after, calls, calls', ids, k, m, ipv4, ipv6, now, life, error)
    ensures var x, used := before[ids[k]], Used(before, ids[..k], ipv4, ipv6) + Reads(before[ids[k]]);
            var pushed := life > used && x.provider in providers && providers[x.provider].enabled && providers[x.provider].tokenOk;
            && error != "" && calls' == calls + Pushes(before, ids[..k], ipv4, ipv6)
                         + (if pushed then [Push(ids[k], Address(x, ipv4, ipv6))] else [])
            && ids[k] in after
            && after[ids[k]] == if pushed && life > used + 1
                                then x.(lastIP := Address(x, ipv4, ipv6), status := SyncFailed, error := error, syncedAt := Some(now))
                                else x
  {
    NotYet(before, ids, m, k, ipv4, ipv6, now);
    PushedBefore(before, ids, k, m, ipv4, ipv6, life);
    assert calls + Pushes(before, ids[..m], ipv4, ipv6) + LostPush(before, ids, m, k, ipv4, ipv6, life) ==
           calls + Pushes(before, ids[..k], ipv4, ipv6);
  }

  /** The `j`-th record has an address. */
  predicate Addressed(records: map<RecordId, Record>, ids: seq<RecordId>, j: nat, ipv4: string, ipv6: Option<string>)
    requires j < |ids| && Known(records, ids)
  {
    Address(records[ids[j]], ipv4, ipv6) != ""
  }

  /** The request is live at the update of every record that has an address. */
  ghost predicate LivesThrough(records: map<RecordId, Record>, ids: seq<RecordId>, ipv4: string, ipv6: Option<string>, life: nat)
    requires Known(records, ids)
  {
    forall j :: 0 <= j < |ids| && Addressed(records, ids, j, ipv4, ipv6) ==>
      life > Used(records, ids[..j], ipv4, ipv6) + Reads(records[ids[j]]) + 1
  }

  /** Records without an address add no pushes. */
  lemma {:induction false} PushesSkip(records: map<RecordId, Record>, ids: seq<RecordId>, m: nat, k: nat,
                                      ipv4: string, ipv6: Option<string>)
    requires m <= k <= |ids| && Known(records, ids)
    requires forall j :: m <= j < k ==> !Addressed(records, ids, j, ipv4, ipv6)
    ensures Pushes(records, ids[..k], ipv4, ipv6) == Pushes(records, ids[..m], ipv4, ipv6)
  {
    if m < k {
      PushesSkip(records, ids, m, k - 1, ipv4, ipv6);
      assert ids[..k][..k - 1] == ids[..k - 1];
      assert !Addressed(records, ids, k - 1, ipv4, ipv6);
    }
  }

  /** Nor do they mark anything. */
  lemma SyncedSkips(records: map<RecordId, Record>, ids: seq<RecordId>, m: nat, ipv4: string, ipv6: Option<string>, now: int)
    requires m <= |ids| && Known(records, ids)
    requires forall j :: m <= j < |ids| ==> !Addressed(records, ids, j, ipv4, ipv6)
    ensures Synced(records, ids, ipv4, ipv6, now) == Synced(records, ids[..m], ipv4, ipv6, now)
  {
    forall id | id in records && id in ids && Address(records[id], ipv4, ipv6) != "" ensures id in ids[..m] {
      var j :| 0 <= j < |ids| && ids[j] == id;
      assert m <= j ==> !Addressed(records, ids, j, ipv4, ipv6);
      assert j < m && ids[..m][j] == id;
    }
  }

  /** A turn that does not end live belongs to a record that needed more of the request's life. */
  lemma LivesMeansEnded(records: map<RecordId, Record>, ids: seq<RecordId>, m: nat, ipv4: string, ipv6: Option<string>,
                        life: nat, j: nat)
    requires Known(records, ids) && EndLive(records, ids, m, |ids|, ipv4, ipv6, life) && j < |ids|
    requires LivesThrough(records, ids, ipv4, ipv6, life) && Addressed(records, ids, j, ipv4, ipv6)
    ensures j < m
  {
    UsedStep(records, ids, j, ipv4, ipv6);
    if m <= j {
      UsedGrows(records, ids, m + 1, j + 1, ipv4, ipv6);
    }
  }

  lemma WholeIfLive(before: map<RecordId, Record>, after: map<RecordId, Record>, calls: seq<Push>, calls': seq<Push>,
                    ids: seq<RecordId>, m: nat, ipv4: string, ipv6: Option<string>, now: int, life: nat, left: nat)
    requires Known(before, ids) && TurnsDone(before, after, calls, calls', ids, |ids|, m, ipv4, ipv6, now, life, left)
    requires LivesThrough(before, ids, ipv4, ipv6, life)
    ensures after == Synced(before, ids, ipv4, ipv6, now) && calls' == calls + Pushes(before, ids, ipv4, ipv6)
  {
    forall j | m <= j < |ids| ensures !Addressed(before, ids, j, ipv4, ipv6) {
      if Addressed(before, ids, j, ipv4, ipv6) {
        LivesMeansEnded(before, ids, m, ipv4, ipv6, life, j);
      }
    }
    SyncedSkips(before, ids, m, ipv4, ipv6, now);
    PushesSkip(before, ids, m, |ids|, ipv4, ipv6);
    assert ids[..|ids|] == ids;
    if m < |ids| {
      UsedStep(before, ids, m, ipv4, ipv6);
      assert !Addressed(before, ids, m, ipv4, ipv6);
    }
  }

  /** A record with an address that the loop has left as it was. */
  ghost predicate LeftOut(before: map<RecordId, Record>, after: map<RecordId, Record>, ids: seq<RecordId>, j: nat,
                          ipv4: string, ipv6: Option<string>, life: nat)
    requires j < |ids| && Known(before, ids)
  {
    && Addressed(before, ids, j, ipv4, ipv6) && life <= Used(before, ids[..j], ipv4, ipv6) + Reads(before[ids[j]]) + 1
    && ids[j] in after && after[ids[j]] == before[ids[j]]
  }

  /** A loop without an error has pushed and marked every record with an address, or has left one
      unmarked; the former exactly if the request is live at the updates of all of them. Given an
      IPv4 address, an unmarked record is the last one, and it has been pushed. */
  lemma WholeIffLive(before: map<RecordId, Record>, after: map<RecordId, Record>, calls: seq<Push>, calls': seq<Push>,
                     ids: seq<RecordId>, m: nat, ipv4: string, ipv6: Option<string>, now: int, life: nat, left: nat)
    requires Loaded(before, ids) && TurnsDone(before, after, calls, calls', ids, |ids|, m, ipv4, ipv6, now, life, left)
    ensures LivesThrough(before, ids, ipv4, ipv6, life) ==>
              after == Synced(before, ids, ipv4, ipv6, now) && calls' == calls + Pushes(before, ids, ipv4, ipv6)
    ensures !LivesThrough(before, ids, ipv4, ipv6, life) <==>
            exists j: nat :: j < |ids| && LeftOut(before, after, ids, j, ipv4, ipv6, life)
    ensures !LivesThrough(before, ids, ipv4, ipv6, life) && ipv4 != "" ==>
              && calls' == calls + Pushes(before, ids, ipv4, ipv6)
              && forall j: nat :: j < |ids| && LeftOut(before, after, ids, j, ipv4, ipv6, life) ==> j == |ids| - 1
  {
    if LivesThrough(before, ids, ipv4, ipv6, life) {
      WholeIfLive(before, after, calls, calls', ids, m, ipv4, ipv6, now, life, left);
    } else {
      var j :| 0 <= j < |ids| && Addressed(before, ids, j, ipv4, ipv6)
               && life <= Used(before, ids[..j], ipv4, ipv6) + Reads(before[ids[j]]) + 1;
      var n := MarkedIffLive(before, after, calls, calls', ids, |ids|, m, ipv4, ipv6, now, life, left, j);
      assert LeftOut(before, after, ids, j, ipv4, ipv6, life);
      if ipv4 != "" {
        LeftOutIsLast(before, after, calls, calls', ids, m, ipv4, ipv6, now, life, left);
      }
    }
  }

  lemma LeftOutUnended(before: map<RecordId, Record>, after: map<RecordId, Record>, ids: seq<RecordId>, m: nat,
                       ipv4: string, ipv6: Option<string>, life: nat, j: nat)
    requires Known(before, ids) && j < |ids| && EndLive(before, ids, m, |ids|, ipv4, ipv6, life)
    requires Addressed(before, ids, j, ipv4, ipv6)
    requires life <= Used(before, ids[..j], ipv4, ipv6) + Reads(before[ids[j]]) + 1
    ensures m <= j
  {
    UsedStep(before, ids, j, ipv4, ipv6);
    if j < m {
      UsedGrows(before, ids, j + 1, m, ipv4, ipv6);
    }
  }

  lemma DeadMeansUnended(before: map<RecordId, Record>, after: map<RecordId, Record>, ids: seq<RecordId>, m: nat,
                         ipv4: string, ipv6: Option<string>, life: nat)
    requires Known(before, ids) && EndLive(before, ids, m, |ids|, ipv4, ipv6, life)
    requires !LivesThrough(before, ids, ipv4, ipv6, life)
    ensures m < |ids|
  {
    var j :| 0 <= j < |ids| && Addressed(before, ids, j, ipv4, ipv6)
             && life <= Used(before, ids[..j], ipv4, ipv6) + Reads(before[ids[j]]) + 1;
    LeftOutUnended(before, after, ids, m, ipv4, ipv6, life, j);
  }

  lemma LeftOutIsLast(before: map<RecordId, Record>, after: map<RecordId, Record>, calls: seq<Push>, calls': seq<Push>,
                      ids: seq<RecordId>, m: nat, ipv4: string, ipv6: Option<string>, now: int, life: nat, left: nat)
    requires Loaded(before, ids) && TurnsDone(before, after, calls, calls', ids, |ids|, m, ipv4, ipv6, now, life, left)
    requires !LivesThrough(before, ids, ipv4, ipv6, life) && ipv4 != ""
    ensures calls' == calls + Pushes(before, ids, ipv4, ipv6)
    ensures forall j: nat :: j < |ids| && LeftOut(before, after, ids, j, ipv4, ipv6, life) ==> j == |ids| - 1
  {
    DeadMeansUnended(before, after, ids, m, ipv4, ipv6, life);
    var n := PushesInOrder(before, after, calls, calls', ids, |ids|, m, ipv4, ipv6, now, life, left);
    assert n == |ids| == m + 1 && ids[..|ids|] == ids;
    forall j: nat | j < |ids| && LeftOut(before, after, ids, j, ipv4, ipv6, life) ensures j == |ids| - 1 {
      LeftOutUnended(before, after, ids, m, ipv4, ipv6, life, j);
    }
  }

  const OLD := Record("m", 1, "A", true, true, "192.0.2.1", NeverSynced, "", None)
  const TABLE: map<RecordId, Record> := map[1 := OLD, 2 := OLD]

  /** A request cancelled after its only push: no error, and the row is not marked. */
  lemma PushedButUnmarked(now: int)
    ensures TurnsDone(TABLE, TABLE, [], [Push(1, "192.0.2.2")], [1], 1, 0, "192.0.2.2", None, now, 1, 0)
  {
    UsedStep(TABLE, [1], 0, "192.0.2.2", None);
    assert [1][..0] == [] && Used(TABLE, [], "192.0.2.2", None) == 0;
    assert Synced(TABLE, [], "192.0.2.2", None, now) == TABLE;
  }

  /** Cancelled one record earlier: the loop fails at the second record, and the first has been
      pushed and is not marked. */
  lemma FailsAfterUnmarked(providers: map<int, DnsProvider>, now: int, error: string)
    requires error != ""
    ensures StoppedAt(providers, TABLE, TABLE, [], [Push(1, "192.0.2.2")], [1, 2], 1, 0, "192.0.2.2", None, now, 1, error)
  {
    var ids: seq<RecordId> := [1, 2];
    UsedStep(TABLE, ids, 0, "192.0.2.2", None);
    assert ids[..0] == [] && Used(TABLE, [], "192.0.2.2", None) == 0;
    assert Synced(TABLE, [], "192.0.2.2", None, now) == TABLE;
  }

  /** Cancelled between the loop and the count: every record is pushed and marked, no statement is
      left for the count, and `SyncAfterRotation` reports that DNS is disabled. */
  lemma DisabledThoughPushed(now: int)
    ensures Used(TABLE, [1], "192.0.2.2", None) == 2
    ensures TurnsDone(TABLE, Synced(TABLE, [1], "192.0.2.2", None, now), [], [Push(1, "192.0.2.2")], [1], 1, 1,
                      "192.0.2.2", None, now, 2, 0)
  {
    UsedStep(TABLE, [1], 0, "192.0.2.2", None);
    var ids: seq<RecordId> := [1];
    assert ids[..0] == [] && ids[..1] == ids && Used(TABLE, [], "192.0.2.2", None) == 0;
    assert Pushes(TABLE, ids, "192.0.2.2", None) == [Push(1, "192.0.2.2")];
  }

  /** Two rows that differ at most in when they were synchronised. */
  predicate SameButTime(x: Record, y: Record) {
    y == x.(syncedAt := y.syncedAt)
  }

  /** A synchronisation does not change what a later one selects. */
  lemma SelectionStays(records: map<RecordId, Record>, machine: MachineId, afterRotation: bool, ids: seq<RecordId>,
                       ipv4: string, ipv6: Option<string>, now: int)
    requires IsSelection(records, machine, afterRotation, ids)
    ensures IsSelection(Synced(records, ids, ipv4, ipv6, now), machine, afterRotation, ids)
  {
  }

  /** Repeating a successful synchronisation changes only timestamps, in whatever order the second
      query returns the rows. */
  lemma RepeatChangesOnlyTime(records: map<RecordId, Record>, machine: MachineId, afterRotation: bool,
                              ids: seq<RecordId>, again: seq<RecordId>, ipv4: string, ipv6: Option<string>, t: int, u: int)
    requires IsSelection(records, machine, afterRotation, ids)
    requires IsSelection(Synced(records, ids, ipv4, ipv6, t), machine, afterRotation, again)
    ensures var once := Synced(records, ids, ipv4, ipv6, t);
            var twice := Synced(once, again, ipv4, ipv6, u);
            && twice == Synced(records, ids, ipv4, ipv6, u)
            && twice.Keys == once.Keys && forall id :: id in once ==> SameButTime(once[id], twice[id])
  {
    SelectionStays(records, machine, afterRotation, ids, ipv4, ipv6, t);
  }

  /** What a successful synchronisation leaves in each row. Only the enabled records of the machine
      are touched, after a rotation only those to be synchronised then. */
  lemma SyncedMeaning(records: map<RecordId, Record>, machine: MachineId, afterRotation: bool, ids: seq<RecordId>,
                      ipv4: string, ipv6: Option<string>, now: int, id: RecordId)
    requires IsSelection(records, machine, afterRotation, ids) && id in records
    ensures var x, y := records[id], Synced(records, ids, ipv4, ipv6, now)[id];
            var ip := if x.recordType == "AAAA" && ipv6.Some? then ipv6.value else ipv4;
            y == if x.machine == machine && x.enabled && (afterRotation ==> x.syncAfterRotation) && ip != ""
                 then x.(lastIP := ip, status := SyncCompleted, error := "", syncedAt := Some(now))
                 else x
  {
  }
}
