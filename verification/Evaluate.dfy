// Whether a port is free, active, reserved or in conflict: the lookups, the case analysis
// and the `check` command.
module Evaluate {
  import opened Wrappers
  import opened Chars
  import opened Models
  import opened Sorting

  /* Lookups. */

  predicate Listens(d: DiscoveredPort, port: int, protocol: Protocol) {
    HostPort(d) == port && d.protocol == protocol
  }

  // A reservation or a lookup without an address matches every address.
  predicate Covers(r: Reservation, slot: Slot, address: Option<string>) {
    && SlotOf(r) == slot
    && (r.details.bindAddress == None || address == None || r.details.bindAddress == address)
  }

  function FirstListening(ds: seq<DiscoveredPort>, port: int, protocol: Protocol): (found: Option<DiscoveredPort>)
    ensures found == None <==> forall k :: 0 <= k < |ds| ==> !Listens(ds[k], port, protocol)
    ensures found.Some? ==> found.value in ds && Listens(found.value, port, protocol)
  {
    if ds == [] then None
    else if Listens(ds[0], port, protocol) then Some(ds[0])
    else FirstListening(ds[1..], port, protocol)
  }

  function FirstCovering(rs: seq<Reservation>, slot: Slot, address: Option<string>): (found: Option<Reservation>)
    ensures found == None <==> forall k :: 0 <= k < |rs| ==> !Covers(rs[k], slot, address)
    ensures found.Some? ==> found.value in rs && Covers(found.value, slot, address)
  {
    if rs == [] then None
    else if Covers(rs[0], slot, address) then Some(rs[0])
    else FirstCovering(rs[1..], slot, address)
  }

  method FindDiscovered(ds: seq<DiscoveredPort>, port: int, protocol: Protocol) returns (found: Option<DiscoveredPort>)
    ensures found == FirstListening(ds, port, protocol)
  {
    for i := 0 to |ds|
      invariant FirstListening(ds, port, protocol) == FirstListening(ds[i..], port, protocol)
    {
      if HostPort(ds[i]) == port && ds[i].protocol == protocol {
        return Some(ds[i]);
      }
    }
    return None;
  }

  method FindReservation(rs: seq<Reservation>, slot: Slot, address: Option<string>) returns (found: Option<Reservation>)
    ensures found == FirstCovering(rs, slot, address)
  {
    for i := 0 to |rs|
      invariant FirstCovering(rs, slot, address) == FirstCovering(rs[i..], slot, address)
    {
      var r := rs[i];
      if r.host == slot.host && r.port == slot.port && r.protocol == slot.protocol {
        if r.details.bindAddress == None || address == None {
          return Some(r);
        }
        if r.details.bindAddress == address {
          return Some(r);
        }
      }
    }
    return None;
  }

  /* States. */

  datatype PortState = FREE | ACTIVE | RESERVED | CONFLICT | SYSTEM

  // An undetected project never matches.
  predicate ProjectMatches(discovered: Option<Project>, reserved: Project) {
    discovered.Some? && discovered.value != "" && LowerAll(Strip(discovered.value)) == LowerAll(Strip(reserved))
  }

  function EvaluatePort(d: Option<DiscoveredPort>, r: Option<Reservation>): (state: PortState)
    ensures state == FREE <==> d == None && r == None
    ensures state == CONFLICT <==>
            d.Some? && r.Some? && d.value.source != System && !ProjectMatches(d.value.projectName, r.value.project)
  {
    if d == None && r == None then FREE
    else if d == None then RESERVED
    else if d.value.source == System then SYSTEM
    else if r == None then ACTIVE
    else if ProjectMatches(d.value.projectName, r.value.project) then ACTIVE
    else CONFLICT
  }

  /* All ports at once. */

  datatype EvaluatedPort = EvaluatedPort(
    port: int, protocol: Protocol, state: PortState, listener: Option<DiscoveredPort>, reservation: Option<Reservation>)

  function Evaluated(host: Host, ds: seq<DiscoveredPort>, rs: seq<Reservation>, port: int,
                     protocol: Protocol): EvaluatedPort {
    var d, r := FirstListening(ds, port, protocol), FirstCovering(rs, Slot(host, port, protocol), None);
    EvaluatedPort(port, protocol, EvaluatePort(d, r), d, r)
  }

  function SlotKey(k: (int, Protocol)): SortKey {
    [Number(k.0), Text(ProtocolName(k.1))]
  }

  function Mentioned(host: Host, ds: seq<DiscoveredPort>, rs: seq<Reservation>): set<(int, Protocol)> {
    (set d | d in ds :: (HostPort(d), d.protocol)) + (set r | r in rs && r.host == host :: (r.port, r.protocol))
  }

  method InOrder(keys: set<(int, Protocol)>) returns (order: seq<(int, Protocol)>)
    ensures Sorted(order, SlotKey)
    ensures multiset(order) == multiset(keys)
  {
    var left := keys;
    order := [];
    while left != {}
      invariant left <= keys && multiset(order) == multiset(keys - left)
      decreases left
    {
      var k :| k in left;
      assert keys - (left - {k}) == keys - left + {k};
      order, left := order + [k], left - {k};
    }
    assert keys - {} == keys;
    SortSorted(order, SlotKey);
    SortElements(order, SlotKey);
    order := Sort(order, SlotKey);
  }

  // Every port that listens or is reserved on this host, once, in order, and no other.
  method EvaluateAll(host: Host, ds: seq<DiscoveredPort>, rs: seq<Reservation>) returns (results: seq<EvaluatedPort>)
    ensures forall i :: 0 <= i < |results| ==>
        results[i] == Evaluated(host, ds, rs, results[i].port, results[i].protocol)
    ensures forall i, j :: 0 <= i < j < |results| ==>
      KeyLe(SlotKey((results[i].port, results[i].protocol)), SlotKey((results[j].port, results[j].protocol)))
    ensures forall i, j :: 0 <= i < j < |results| ==>
      (results[i].port, results[i].protocol) != (results[j].port, results[j].protocol)
    ensures forall k :: k in Mentioned(host, ds, rs) <==>
      exists i :: 0 <= i < |results| && (results[i].port, results[i].protocol) == k
  {
    hide FirstListening, FirstCovering, EvaluatePort, KeyLe, SlotKey;
    var keys: set<(int, Protocol)> := {};
    for i := 0 to |ds|
      invariant keys == set d | d in ds[..i] :: (HostPort(d), d.protocol)
    {
      assert ds[..i + 1] == ds[..i] + [ds[i]];
      keys := keys + {(HostPort(ds[i]), ds[i].protocol)};
    }
    assert ds[..|ds|] == ds;
    ghost var listening := keys;
    for i := 0 to |rs|
      invariant keys == listening + set r | r in rs[..i] && r.host == host :: (r.port, r.protocol)
    {
      assert rs[..i + 1] == rs[..i] + [rs[i]];
      if rs[i].host == host {
        keys := keys + {(rs[i].port, rs[i].protocol)};
      }
    }
    assert rs[..|rs|] == rs;
    var order := InOrder(keys);
    OnceEach(order, keys);
    results := [];
    for i := 0 to |order|
      invariant |results| == i
      invariant forall k :: 0 <= k < i ==> results[k] == Evaluated(host, ds, rs, order[k].0, order[k].1)
    {
      var d := FindDiscovered(ds, order[i].0, order[i].1);
      var r := FindReservation(rs, Slot(host, order[i].0, order[i].1), None);
      results := results + [EvaluatedPort(order[i].0, order[i].1, EvaluatePort(d, r), d, r)];
    }
    forall k ensures k in keys <==> exists i :: 0 <= i < |results| && (results[i].port, results[i].protocol) == k {
      if k in keys {
        var i :| 0 <= i < |order| && order[i] == k;
        assert (results[i].port, results[i].protocol) == k;
      }
    }
  }

  lemma OnceEach<T>(order: seq<T>, keys: set<T>)
    requires multiset(order) == multiset(keys)
    ensures forall k :: k in keys <==> k in order
    ensures forall i, j :: 0 <= i < j < |order| ==> order[i] != order[j]
  {
    forall k ensures k in keys <==> k in order {
      assert k in order <==> k in multiset(order);
    }
    forall i, j | 0 <= i < j < |order| ensures order[i] != order[j] {
      assert order == order[..i] + [order[i]] + order[i + 1..j] + [order[j]] + order[j + 1..];
      assert multiset(order)[order[i]] <= 1;
    }
  }

  /* One port, for `check`. */

  // What stays fixed while one port is judged: `bindable` is the bind probe at `address`.
  datatype Snapshot = Snapshot(
    host: Host,
    protocol: Protocol,
    address: string,
    exclusions: seq<(int, int)>,
    discovered: seq<DiscoveredPort>,
    bindable: int -> bool)

  predicate IsExcluded(exclusions: seq<(int, int)>, port: int) {
    exists k :: 0 <= k < |exclusions| && exclusions[k].0 <= port <= exclusions[k].1
  }

  // The verdict of `portforge check`, which looks at the reservations of its own address.
  predicate CheckAvailable(s: Snapshot, rs: seq<Reservation>, port: int) {
    && EvaluatePort(FirstListening(s.discovered, port, s.protocol),
                    FirstCovering(rs, Slot(s.host, port, s.protocol), Some(s.address))) == FREE
    && s.bindable(port)
    && !IsExcluded(s.exclusions, port)
  }
}
