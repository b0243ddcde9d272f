/** The `machines` table: a row splits into the columns the provider owns (`Profile`)
    and the columns the rotation rules depend on. */
module Inventory {
  import opened Options

  type MachineId = string

  datatype HealthStatus = Unknown | Healthy | Degraded | Suspect

  /** The columns a provider synchronisation, an agent or an administrator may overwrite. */
  datatype Profile = Profile(
    provider: int, name: string, remark: string, region: string, status: string,
    ipv4: string, ipv6: string, traffic: string, expire: string, raw: string)

  /** A row of `machines`. Stored instants are whole seconds; `None` is SQL NULL. */
  datatype Machine = Machine(
    profile: Profile,
    autoRotate: bool,
    health: HealthStatus,
    failures: int,
    successes: int,
    cooldownUntil: Option<int>,
    lastRotation: Option<int>)

  /** An entry of the provider's machine list. */
  datatype ProviderMachine = ProviderMachine(
    id: string, name: string, remark: string, region: string, status: string,
    ipv4: string, ipv6: string, traffic: string, expire: string, raw: string)

  /** A row as the column defaults of the schema create it. */
  function FreshMachine(profile: Profile, autoRotate: bool): Machine {
    Machine(profile, autoRotate, Unknown, 0, 0, None, None)
  }

  /** Two rows that agree on everything the rotation rules read. */
  predicate SameSafety(x: Machine, y: Machine) {
    y == x.(profile := y.profile)
  }

  function ExcludedProfile(provider: int, e: ProviderMachine): Profile {
    Profile(provider, e.name, e.remark, e.region, e.status, e.ipv4, e.ipv6, e.traffic, e.expire, e.raw)
  }

  /** One `INSERT ... ON CONFLICT(id) DO UPDATE`: an empty incoming name keeps the stored one. */
  function Upsert(machines: map<MachineId, Machine>, provider: int, e: ProviderMachine): map<MachineId, Machine> {
    var incoming := ExcludedProfile(provider, e);
    if e.id in machines then
      var stored := machines[e.id];
      var name := if e.name != "" then e.name else stored.profile.name;
      machines[e.id := stored.(profile := incoming.(name := name))]
    else
      machines[e.id := FreshMachine(incoming, false)]
  }

  /** The left fold of the upserts over the provider's list. */
  function UpsertAll(machines: map<MachineId, Machine>, provider: int, list: seq<ProviderMachine>): map<MachineId, Machine>
    decreases |list|
  {
    if list == [] then machines
    else
      var init := list[..|list| - 1];
      Upsert(UpsertAll(machines, provider, init), provider, list[|list| - 1])
  }

  /** A synchronisation keeps every existing machine's automatic flag, counters, health and
      cooldown, and creates the others with the schema's defaults. */
  lemma {:induction false} UpsertAllKeepsSafety(machines: map<MachineId, Machine>, provider: int, list: seq<ProviderMachine>)
    ensures var after := UpsertAll(machines, provider, list);
            && machines.Keys <= after.Keys
            && (forall m :: m in machines ==> after[m] == machines[m].(profile := after[m].profile))
            && (forall m :: m in after && m !in machines ==>
                  after[m] == Machine(after[m].profile, false, Unknown, 0, 0, None, None))
    decreases |list|
  {
    if list != [] {
      UpsertAllKeepsSafety(machines, provider, list[..|list| - 1]);
    }
  }

  /** The last entry of the list for a machine decides every column it names; the name is the last
      one that is not empty, the stored one if there is none. */
  function LastEntry(list: seq<ProviderMachine>, id: MachineId): Option<ProviderMachine> {
    if list == [] then None
    else if list[|list| - 1].id == id then Some(list[|list| - 1])
    else LastEntry(list[..|list| - 1], id)
  }

  function LastName(list: seq<ProviderMachine>, id: MachineId, stored: string): string {
    if list == [] then stored
    else if list[|list| - 1].id == id && list[|list| - 1].name != "" then list[|list| - 1].name
    else LastName(list[..|list| - 1], id, stored)
  }

  lemma {:induction false} LastEntryIs(list: seq<ProviderMachine>, id: MachineId)
    ensures match LastEntry(list, id)
            case None => forall k :: 0 <= k < |list| ==> list[k].id != id
            case Some(e) => exists k :: 0 <= k < |list| && list[k] == e && e.id == id
                                        && forall j :: k < j < |list| ==> list[j].id != id
  {
    if list != [] && list[|list| - 1].id != id {
      LastEntryIs(list[..|list| - 1], id);
    }
  }

  lemma {:induction false} LastNameIs(list: seq<ProviderMachine>, id: MachineId, stored: string)
    ensures var name := LastName(list, id, stored);
            || (name == stored && forall k :: 0 <= k < |list| ==> list[k].id != id || list[k].name == "")
            || exists k :: 0 <= k < |list| && list[k].id == id && list[k].name == name != ""
                           && forall j :: k < j < |list| ==> list[j].id != id || list[j].name == ""
  {
    if list != [] && (list[|list| - 1].id != id || list[|list| - 1].name == "") {
      LastNameIs(list[..|list| - 1], id, stored);
    }
  }

  /** What a synchronisation leaves in the table, row by row. */
  lemma {:induction false} UpsertAllMeaning(machines: map<MachineId, Machine>, provider: int, list: seq<ProviderMachine>, id: MachineId)
    ensures var after := UpsertAll(machines, provider, list);
            && (id in after <==> id in machines || LastEntry(list, id).Some?)
            && (LastEntry(list, id).None? && id in machines ==> after[id] == machines[id])
            && (LastEntry(list, id).Some? ==>
                  var e, p := LastEntry(list, id).value, after[id].profile;
                  && p.provider == provider && p.remark == e.remark && p.region == e.region && p.status == e.status
                  && p.ipv4 == e.ipv4 && p.ipv6 == e.ipv6 && p.traffic == e.traffic && p.expire == e.expire && p.raw == e.raw
                  && p.name == LastName(list, id, if id in machines then machines[id].profile.name else ""))
    decreases |list|
  {
    if list != [] {
      UpsertAllMeaning(machines, provider, list[..|list| - 1], id);
      if LastEntry(list[..|list| - 1], id).None? {
        LastNameOfNone(list[..|list| - 1], id, if id in machines then machines[id].profile.name else "");
      }
    }
  }

  lemma {:induction false} LastNameOfNone(list: seq<ProviderMachine>, id: MachineId, stored: string)
    requires LastEntry(list, id).None?
    ensures LastName(list, id, stored) == stored
  {
    if list != [] {
      LastNameOfNone(list[..|list| - 1], id, stored);
    }
  }

  class MachineTable {
    var machines: map<MachineId, Machine>

    /** The transaction of `syncProvider`: the upserts go to the transaction's own view, which
        replaces the table on commit; a failing statement rolls it back. The request lives for
        `lifetime` statements, and the database refuses the upsert at place `refused`, if there is
        one. Success is reported when the transaction begins and every upsert executes; the error
        of the commit is discarded, and so a reported synchronisation has been applied exactly if
        the request is live at the commit, too. */
    method Sync(provider: int, list: seq<ProviderMachine>, lifetime: nat, refused: nat) returns (ok: bool)
      modifies this
      ensures ok <==> lifetime >= |list| + 1 && refused >= |list|
      ensures machines == if ok && lifetime >= |list| + 2 then UpsertAll(old(machines), provider, list) else old(machines)
      ensures forall m :: m in old(machines) ==> m in machines && SameSafety(old(machines)[m], machines[m])
    {
      var life: nat := lifetime;
      if life == 0 {
        // no transaction: the handler panics and the request fails
        return false;
      }
      life := life - 1;
      var view := machines;
      for k := 0 to |list|
        invariant machines == old(machines) && view == UpsertAll(old(machines), provider, list[..k])
        invariant k <= refused && life + k == lifetime - 1
      {
        if life == 0 || k == refused {
          return false;
        }
        life := life - 1;
        assert list[..k + 1][..k] == list[..k];
        view := Upsert(view, provider, list[k]);
      }
      assert list[..|list|] == list;
      UpsertAllKeepsSafety(machines, provider, list);
      if life > 0 {
        machines := view;
      }
      ok := true;
    }
  }

  const LISTED := ProviderMachine("m", "", "", "", "", "192.0.2.2", "", "", "", "")

  /** A synchronisation whose request is cancelled between the last upsert and the commit: success
      is reported, and the machine is not there. */
  method ReportedButUnapplied() returns (ok: bool, machines: map<MachineId, Machine>)
    ensures ok && machines == map[]
    ensures "m" in UpsertAll(map[], 1, [LISTED]) && machines != UpsertAll(map[], 1, [LISTED])
  {
    var table := new MachineTable;
    table.machines := map[];
    ok := table.Sync(1, [LISTED], 2, 1);
    machines := table.machines;
    assert [LISTED][..0] == [];
  }
}
