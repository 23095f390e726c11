// The Compose editor on a parsed document, and the planning loops that drive it.
module ComposeDocument {
  import opened Wrappers
  import opened Compose
  import Decimal

  type Scalars = map<string, string>

  datatype PortsNode = Absent | Listed(entries: seq<Entry>) | NotAList

  datatype ServiceNode = Service(ports: PortsNode, rest: Scalars) | NotAMapping

  // None when the document's `services` is no mapping.
  type Services = Option<map<string, ServiceNode>>

  datatype ComposeError = ServiceNotFound | ParseError | Ambiguous(matches: nat) | UnknownAllocation

  // `before` is absent for an added entry, or when the entry had no host side.
  datatype Change = Change(service: string, key: Key, before: Option<string>, after: string, added: bool)

  function Entries(s: ServiceNode): seq<Entry> {
    if s.Service? && s.ports.Listed? then s.ports.entries else []
  }

  predicate WellFormed(services: Services, service: string) {
    && services.Some? && service in services.value
    && services.value[service].Service? && services.value[service].ports != NotAList
  }

  function Matches(entries: seq<Entry>, key: Key): (indices: seq<nat>)
    ensures forall k :: 0 <= k < |indices| ==> indices[k] < |entries| && KeyOf(entries[indices[k]]) == Some(key)
  {
    if entries == [] then []
    else
      var before := Matches(entries[..|entries| - 1], key);
      if KeyOf(entries[|entries| - 1]) == Some(key) then before + [|entries| - 1] else before
  }

  function Edited(entries: seq<Entry>, key: WantedKey, port: nat): seq<Entry> {
    var found := Matches(entries, key);
    if found == [] then entries + [NewEntry(key, port)]
    else entries[found[0] := SetHost(entries[found[0]], port)]
  }

  function ChangeFor(entries: seq<Entry>, service: string, key: Key, port: nat): Change {
    var found := Matches(entries, key);
    Change(service, key, if found == [] then None else HostOf(entries[found[0]]), Decimal.Print(port), found == [])
  }

  function Apply(services: Services, service: string, key: WantedKey, port: nat)
    : Result<(Services, Change), ComposeError>
  {
    if services == None || service !in services.value then Err(ServiceNotFound)
    else if !WellFormed(services, service) then Err(ParseError)
    else
      var node := services.value[service];
      var found := Matches(Entries(node), key);
      if |found| > 1 then Err(Ambiguous(|found|))
      else Ok((Some(services.value[service := node.(ports := Listed(Edited(Entries(node), key, port)))]),
               ChangeFor(Entries(node), service, key, port)))
  }

  /* The planning loops: services in order, and the entries of each in order. */

  datatype PortEntry = PortEntry(allocation: string, key: WantedKey)

  datatype Wanted = Wanted(service: string, entry: PortEntry)

  function Tagged(service: string, entries: seq<PortEntry>): seq<Wanted> {
    seq(|entries|, k requires 0 <= k < |entries| => Wanted(service, entries[k]))
  }

  function Flatten(mapping: seq<(string, seq<PortEntry>)>): seq<Wanted> {
    if mapping == [] then []
    else Flatten(mapping[..|mapping| - 1]) + Tagged(mapping[|mapping| - 1].0, mapping[|mapping| - 1].1)
  }

  function ApplyOne(before: (Services, seq<Change>), w: Wanted, ports: map<string, nat>)
    : Result<(Services, seq<Change>), ComposeError>
  {
    if w.entry.allocation !in ports then Err(UnknownAllocation)
    else
      match Apply(before.0, w.service, w.entry.key, ports[w.entry.allocation])
      case Err(e) => Err(e)
      case Ok(now) => Ok((now.0, before.1 + [now.1]))
  }

  function ApplyAll(services: Services, ws: seq<Wanted>, ports: map<string, nat>)
    : Result<(Services, seq<Change>), ComposeError>
  {
    if ws == [] then Ok((services, []))
    else
      match ApplyAll(services, ws[..|ws| - 1], ports)
      case Err(e) => Err(e)
      case Ok(before) => ApplyOne(before, ws[|ws| - 1], ports)
  }

  lemma ApplyAllSnoc(services: Services, ws: seq<Wanted>, w: Wanted, ports: map<string, nat>)
    ensures ApplyAll(services, ws + [w], ports) ==
      match ApplyAll(services, ws, ports)
      case Err(e) => Err(e)
      case Ok(before) => ApplyOne(before, w, ports)
  {
    assert (ws + [w])[..|ws|] == ws;
  }

  lemma {:induction false} FirstErrorWins(services: Services, ws: seq<Wanted>, more: seq<Wanted>,
                                            ports: map<string, nat>)
    requires ApplyAll(services, ws, ports).Err?
    ensures ApplyAll(services, ws + more, ports) == ApplyAll(services, ws, ports)
  {
    if more == [] {
      assert ws + more == ws;
    } else {
      var init := more[..|more| - 1];
      assert ws + more == (ws + init) + [more[|more| - 1]];
      FirstErrorWins(services, ws, init, ports);
      ApplyAllSnoc(services, ws + init, more[|more| - 1], ports);
    }
  }

  // Up to the j-th entry of a service.
  function UpTo(done: seq<Wanted>, service: string, entries: seq<PortEntry>, j: nat): seq<Wanted>
    requires j <= |entries|
  {
    done + Tagged(service, entries[..j])
  }

  lemma EntryNext(services: Services, done: seq<Wanted>, service: string, entries: seq<PortEntry>, j: nat,
                  ports: map<string, nat>)
    requires j < |entries|
    ensures ApplyAll(services, UpTo(done, service, entries, j + 1), ports) ==
      match ApplyAll(services, UpTo(done, service, entries, j), ports)
      case Err(e) => Err(e)
      case Ok(before) => ApplyOne(before, Wanted(service, entries[j]), ports)
    ensures ApplyAll(services, UpTo(done, service, entries, j + 1), ports).Err? ==>
      ApplyAll(services, UpTo(done, service, entries, |entries|), ports) ==
          ApplyAll(services, UpTo(done, service, entries, j + 1), ports)
  {
    var init, next := UpTo(done, service, entries, j), UpTo(done, service, entries, j + 1);
    assert next == init + [Wanted(service, entries[j])];
    ApplyAllSnoc(services, init, Wanted(service, entries[j]), ports);
    if ApplyAll(services, next, ports).Err? {
      assert UpTo(done, service, entries, |entries|) == next + Tagged(service, entries[j + 1..]);
      FirstErrorWins(services, next, Tagged(service, entries[j + 1..]), ports);
    }
  }

  class Document {
    var services: Services
    // Everything else in the document.
    var rest: Scalars

    constructor (services: Services, rest: Scalars)
      ensures this.services == services && this.rest == rest
    {
      this.services, this.rest := services, rest;
    }

    method FindMatches(entries: seq<Entry>, key: Key) returns (found: seq<nat>)
      ensures found == Matches(entries, key)
    {
      found := [];
      for i := 0 to |entries|
        invariant found == Matches(entries[..i], key)
      {
        assert entries[..i + 1][..i] == entries[..i];
        if KeyOf(entries[i]) == Some(key) {
          found := found + [i];
        }
      }
      assert entries[..|entries|] == entries;
    }

    // One mapping, in place; an error leaves the document alone.
    method ApplyPortMapping(service: string, key: WantedKey, port: nat) returns (r: Result<Change, ComposeError>)
      modifies this`services
      ensures match Apply(old(services), service, key, port)
        case Ok(now) => r == Ok(now.1) && services == now.0
        case Err(e) => r == Err(e) && services == old(services)
    {
      if services == None || service !in services.value {
        return Err(ServiceNotFound);
      }
      var node := services.value[service];
      if node.NotAMapping? || node.ports == NotAList {
        return Err(ParseError);
      }
      var entries := if node.ports == Absent then [] else node.ports.entries;
      var found := FindMatches(entries, key);
      if |found| > 1 {
        return Err(Ambiguous(|found|));
      }
      var before: Option<string>;
      if |found| == 1 {
        var i := found[0];
        before := HostOf(entries[i]);
        entries := entries[i := SetHost(entries[i], port)];
      } else {
        before := None;
        entries := entries + [NewEntry(key, port)];
      }
      services := Some(services.value[service := node.(ports := Listed(entries))]);
      return Ok(Change(service, key, before, Decimal.Print(port), found == []));
    }

    // All mappings of a file, stopping at the first that fails.
    method PlanMappings(mapping: seq<(string, seq<PortEntry>)>, ports: map<string, nat>)
      returns (r: Result<seq<Change>, ComposeError>)
      modifies this`services
      ensures match ApplyAll(old(services), Flatten(mapping), ports)
        case Ok(now) => r == Ok(now.1) && services == now.0
        case Err(e) => r == Err(e)
    {
      hide ApplyAll, Flatten;
      ghost var start, all := services, Flatten(mapping);
      NothingFlat(mapping, services, ports);
      var changes: seq<Change> := [];
      for i := 0 to |mapping|
        invariant ApplyAll(start, Flatten(mapping[..i]), ports) == Ok((services, changes))
      {
        FlattenPrefix(mapping, i + 1);
        FlattenNext(mapping, i);
        r := PlanService(start, Flatten(mapping[..i]), mapping[i].0, mapping[i].1, changes, ports);
        if r.Err? {
          ghost var served := Flatten(mapping[..i + 1]);
          assert all == served + all[|served|..];
          FirstErrorWins(start, served, all[|served|..], ports);
          return;
        }
        changes := r.value;
      }
      assert mapping[..|mapping|] == mapping;
      return Ok(changes);
    }

    method PlanService(ghost start: Services, ghost done: seq<Wanted>, service: string, entries: seq<PortEntry>,
                       before: seq<Change>, ports: map<string, nat>)
      returns (r: Result<seq<Change>, ComposeError>)
      requires ApplyAll(start, done, ports) == Ok((services, before))
      modifies this`services
      ensures match ApplyAll(start, done + Tagged(service, entries), ports)
        case Ok(now) => r == Ok(now.1) && services == now.0
        case Err(e) => r == Err(e)
    {
      var changes := before;
      assert UpTo(done, service, entries, 0) == done;
      for j := 0 to |entries|
        invariant ApplyAll(start, UpTo(done, service, entries, j), ports) == Ok((services, changes))
      {
        EntryNext(start, done, service, entries, j, ports);
        r := PlanEntry(service, entries[j], changes, ports);
        if r.Err? {
          assert entries[..|entries|] == entries;
          return;
        }
        changes := r.value;
      }
      assert entries[..|entries|] == entries;
      return Ok(changes);
    }

    method PlanEntry(service: string, e: PortEntry, before: seq<Change>, ports: map<string, nat>)
      returns (r: Result<seq<Change>, ComposeError>)
      modifies this`services
      ensures match ApplyOne((old(services), before), Wanted(service, e), ports)
        case Ok(now) => r == Ok(now.1) && services == now.0
        case Err(e) => r == Err(e)
    {
      if e.allocation !in ports {
        return Err(UnknownAllocation);
      }
      var applied := ApplyPortMapping(service, e.key, ports[e.allocation]);
      match applied {
        case Ok(change) => return Ok(before + [change]);
        case Err(error) => return Err(error);
      }
    }
  }

  lemma NothingFlat(mapping: seq<(string, seq<PortEntry>)>, services: Services, ports: map<string, nat>)
    ensures Flatten(mapping[..0]) == [] && ApplyAll(services, [], ports) == Ok((services, []))
  {
  }

  lemma FlattenNext(mapping: seq<(string, seq<PortEntry>)>, i: nat)
    requires i < |mapping|
    ensures Flatten(mapping[..i + 1]) == Flatten(mapping[..i]) + Tagged(mapping[i].0, mapping[i].1)
  {
    assert mapping[..i + 1][..i] == mapping[..i];
  }

  lemma {:induction false} FlattenPrefix(mapping: seq<(string, seq<PortEntry>)>, n: nat)
    requires n <= |mapping|
    ensures Flatten(mapping[..n]) <= Flatten(mapping)
    decreases |mapping| - n
  {
    if n == |mapping| {
      assert mapping[..n] == mapping;
    } else {
      FlattenPrefix(mapping, n + 1);
      FlattenNext(mapping, n);
    }
  }
}
