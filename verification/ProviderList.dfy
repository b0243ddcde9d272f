/** Reading the provider's answer: the search for the machine list in an arbitrary JSON value,
    and the loop that turns the list into machines. */
module ProviderList {
  import opened Options
  import opened Inventory

  datatype Json =
    | Null
    | Bool(b: bool)
    | Number(n: real)
    | Text(s: string)
    | Array(items: seq<Json>)
    | Object(fields: map<string, Json>)

  /** The keys the search descends into, in order of preference. */
  const KEYS: seq<string> := ["list", "records", "items", "data", "result"]

  /** `findList`: an array is the list; an object is searched key by key. */
  function FindList(v: Json): Option<seq<Json>>
    decreases v, |KEYS| + 1
  {
    match v
    case Array(items) => Some(items)
    case Object(fields) => FindUnder(v, 0)
    case _ => None
  }

  /** The loop over the keys, from the `k`-th on. */
  function FindUnder(v: Json, k: nat): Option<seq<Json>>
    requires v.Object? && k <= |KEYS|
    decreases v, |KEYS| - k
  {
    if k == |KEYS| then None
    else if KEYS[k] in v.fields && FindList(v.fields[KEYS[k]]).Some? then FindList(v.fields[KEYS[k]])
    else FindUnder(v, k + 1)
  }

  /** A path names keys by their places in `KEYS`. */
  type Path = seq<nat>

  function Follow(v: Json, path: Path): Option<Json> {
    if path == [] then Some(v)
    else if v.Object? && path[0] < |KEYS| && KEYS[path[0]] in v.fields then Follow(v.fields[KEYS[path[0]]], path[1..])
    else None
  }

  predicate ReachesList(v: Json, path: Path) {
    Follow(v, path).Some? && Follow(v, path).value.Array?
  }

  /** The order of the first differing key. */
  predicate PathLess(p: Path, q: Path) {
    if q == [] then false
    else if p == [] then true
    else p[0] < q[0] || (p[0] == q[0] && PathLess(p[1..], q[1..]))
  }

  /** The path reaches this list, and every other path to a list comes later. */
  ghost predicate LeastPath(v: Json, path: Path, list: seq<Json>) {
    && Follow(v, path) == Some(Array(list))
    && forall q :: ReachesList(v, q) ==> q == path || PathLess(path, q)
  }

  /** The same, among the paths whose first key is the `k`-th or later. */
  ghost predicate LeastPathFrom(v: Json, k: nat, path: Path, list: seq<Json>) {
    && path != [] && path[0] >= k && Follow(v, path) == Some(Array(list))
    && forall q :: ReachesList(v, q) && q != [] && q[0] >= k ==> q == path || PathLess(path, q)
  }

  ghost predicate NoPathFrom(v: Json, k: nat) {
    forall q :: ReachesList(v, q) ==> q == [] || q[0] < k
  }

  lemma {:induction false} FindUnderSearches(v: Json, k: nat) returns (path: Path)
    requires v.Object? && k <= |KEYS|
    ensures match FindUnder(v, k)
            case Some(list) => LeastPathFrom(v, k, path, list)
            case None => NoPathFrom(v, k)
    decreases v, |KEYS| - k
  {
    path := [];
    if k < |KEYS| {
      var here := FindUnderSearches(v, k + 1);
      path := here;
      if KEYS[k] in v.fields {
        var child := v.fields[KEYS[k]];
        var below := FindListSearches(child);
        if FindList(child).Some? {
          path := [k] + below;
          assert path[1..] == below;
          forall q | ReachesList(v, q) && q != [] && q[0] >= k ensures q == path || PathLess(path, q) {
            if q[0] == k {
              assert ReachesList(child, q[1..]) && q == [k] + q[1..];
            }
          }
        } else {
          forall q | ReachesList(v, q) && q != [] ensures q[0] != k {
            if q[0] == k {
              assert ReachesList(child, q[1..]);
            }
          }
        }
      }
    }
  }

  lemma {:induction false} FindListSearches(v: Json) returns (path: Path)
    ensures match FindList(v)
            case Some(list) => LeastPath(v, path, list)
            case None => forall q :: !ReachesList(v, q)
    decreases v, |KEYS| + 1
  {
    path := [];
    if v.Object? {
      path := FindUnderSearches(v, 0);
      assert !ReachesList(v, []);
    }
  }

  /** `findList` finds a list exactly when some path over the five keys reaches an array, and then
      it returns the array at the least such path; an empty array counts as found. */
  lemma FindListIsLeast(v: Json)
    ensures FindList(v).Some? <==> exists path :: ReachesList(v, path)
    ensures FindList(v).Some? ==> exists path :: LeastPath(v, path, FindList(v).value)
  {
    var path := FindListSearches(v);
    if FindList(v).Some? {
      assert LeastPath(v, path, FindList(v).value) && ReachesList(v, path);
    }
  }

  /** The order of preference, key by key. */
  lemma FindListByKeys(v: Json, k: nat)
    requires v.Object? && k <= 5
    requires forall j :: 0 <= j < k ==>
               var key := ["list", "records", "items", "data", "result"][j];
               key in v.fields ==> FindList(v.fields[key]).None?
    ensures k == 5 ==> FindList(v).None?
    ensures k < 5 ==>
              var key := ["list", "records", "items", "data", "result"][k];
              key in v.fields && FindList(v.fields[key]).Some? ==> FindList(v) == FindList(v.fields[key])
  {
    UnderSkips(v, k);
  }

  /** The loop passes over keys under which there is no list. */
  lemma {:induction false} UnderSkips(v: Json, k: nat)
    requires v.Object? && k <= |KEYS|
    requires forall j :: 0 <= j < k ==> KEYS[j] in v.fields ==> FindList(v.fields[KEYS[j]]).None?
    ensures FindList(v) == FindUnder(v, k)
  {
    if k > 0 {
      UnderSkips(v, k - 1);
      assert KEYS[k - 1] in v.fields ==> FindList(v.fields[KEYS[k - 1]]).None?;
    }
  }

  lemma {:induction false} PathLessAsymmetric(p: Path, q: Path)
    requires PathLess(p, q)
    ensures !PathLess(q, p)
  {
    if p != [] && p[0] == q[0] {
      PathLessAsymmetric(p[1..], q[1..]);
    }
  }

  /** The least path is unique, so the list is determined by the value alone. */
  lemma LeastListIsUnique(v: Json, p: Path, q: Path, x: seq<Json>, y: seq<Json>)
    requires LeastPath(v, p, x) && LeastPath(v, q, y)
    ensures p == q && x == y
  {
    assert ReachesList(v, p) && ReachesList(v, q);
    if p != q {
      PathLessAsymmetric(p, q);
    }
  }

  // ----- the list as machines -----

  /** How `str` prints a value that is not a string; the library's number formats are not part of
      this model. */
  type Printer = Json -> string

  /** `str`: the first key that is present decides, even if its value is empty. */
  function Str(fields: map<string, Json>, keys: seq<string>, show: Printer): string {
    if keys == [] then ""
    else if keys[0] in fields then
      (match fields[keys[0]] case Text(s) => s case other => show(other))
    else Str(fields, keys[1..], show)
  }

  /** The first of the keys that is present decides alone; without one the text is empty. */
  lemma {:induction false} FirstKeyDecides(fields: map<string, Json>, keys: seq<string>, show: Printer, k: nat)
    requires k <= |keys| && forall j :: 0 <= j < k ==> keys[j] !in fields
    ensures k == |keys| ==> Str(fields, keys, show) == ""
    ensures k < |keys| && keys[k] in fields ==>
              Str(fields, keys, show) ==
              (match fields[keys[k]] case Text(s) => s case other => show(other))
  {
    if k > 0 {
      FirstKeyDecides(fields, keys[1..], show, k - 1);
    }
  }

  /** The machine of one list element, if it is an object with an identifier. */
  function MachineOf(v: Json, show: Printer, raw: Printer): Option<ProviderMachine> {
    if !v.Object? then None
    else
      var f := v.fields;
      var id := Str(f, ["id", "machineId", "instanceId"], show);
      if id == "" then None
      else
        Some(ProviderMachine(
          id, Str(f, ["name", "instanceName"], show), Str(f, ["remark", "description"], show),
          Str(f, ["region", "regionName"], show), Str(f, ["status", "state"], show),
          Str(f, ["publicIpAddress", "publicIPv4", "ip"], show), Str(f, ["ipv6Address", "publicIPv6"], show),
          Str(f, ["traffic", "trafficText"], show), Str(f, ["expireTime", "expiration"], show), raw(v)))
  }

  /** The columns of a machine, each from its own keys; an element is a machine exactly if it is an
      object whose identifier is not empty. */
  lemma MachineColumns(v: Json, show: Printer, raw: Printer)
    ensures MachineOf(v, show, raw).Some? <==> v.Object? && Str(v.fields, ["id", "machineId", "instanceId"], show) != ""
    ensures MachineOf(v, show, raw).Some? ==>
              var f, m := v.fields, MachineOf(v, show, raw).value;
              && m.id == Str(f, ["id", "machineId", "instanceId"], show)
              && m.ipv4 == Str(f, ["publicIpAddress", "publicIPv4", "ip"], show)
              && m.ipv6 == Str(f, ["ipv6Address", "publicIPv6"], show)
              && m.name == Str(f, ["name", "instanceName"], show) && m.remark == Str(f, ["remark", "description"], show)
              && m.region == Str(f, ["region", "regionName"], show) && m.status == Str(f, ["status", "state"], show)
              && m.traffic == Str(f, ["traffic", "trafficText"], show)
              && m.expire == Str(f, ["expireTime", "expiration"], show) && m.raw == raw(v)
  {
  }

  /** The loop of `ListMachines`: elements without an identifier are dropped, the others keep
      their order and multiplicity. `kept` gives the position each machine came from. */
  method ListMachines(root: Json, show: Printer, raw: Printer) returns (out: Option<seq<ProviderMachine>>, kept: seq<nat>)
    ensures out.None? <==> forall path :: !ReachesList(root, path)
    ensures out.Some? ==>
              && FindList(root).Some?
              && var list := FindList(root).value;
                 && |kept| == |out.value|
                 && (forall i :: 0 <= i < |kept| ==>
                       kept[i] < |list| && MachineOf(list[kept[i]], show, raw) == Some(out.value[i]))
                 && (forall i, j :: 0 <= i < j < |kept| ==> kept[i] < kept[j])
                 && (forall k :: 0 <= k < |list| && MachineOf(list[k], show, raw).Some? ==> k in kept)
  {
    kept := [];
    FindListIsLeast(root);
    var found := FindList(root);
    match found
    case None => out := None;
    case Some(list) =>
      var machines: seq<ProviderMachine> := [];
      for k := 0 to |list|
        invariant |kept| == |machines|
        invariant forall i :: 0 <= i < |kept| ==> kept[i] < k && MachineOf(list[kept[i]], show, raw) == Some(machines[i])
        invariant forall i, j :: 0 <= i < j < |kept| ==> kept[i] < kept[j]
        invariant forall j :: 0 <= j < k && MachineOf(list[j], show, raw).Some? ==> j in kept
      {
        if list[k].Object? {
          var f := list[k].fields;
          var id := Str(f, ["id", "machineId", "instanceId"], show);
          if id == "" {
            continue;
          }
          machines := machines + [ProviderMachine(
            id, Str(f, ["name", "instanceName"], show), Str(f, ["remark", "description"], show),
            Str(f, ["region", "regionName"], show), Str(f, ["status", "state"], show),
            Str(f, ["publicIpAddress", "publicIPv4", "ip"], show), Str(f, ["ipv6Address", "publicIPv6"], show),
            Str(f, ["traffic", "trafficText"], show), Str(f, ["expireTime", "expiration"], show), raw(list[k]))];
          kept := kept + [k];
        }
      }
      out := Some(machines);
  }
}
