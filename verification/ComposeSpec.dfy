// What planning a Compose file guarantees: which entries end up with which port, what is
// left alone, when it fails, and that planning again changes nothing.
module ComposeSpec {
  import opened Wrappers
  import opened Compose
  import opened ComposeDocument
  import Decimal

  /* Matching entries. */

  ghost predicate OnlyMatch(entries: seq<Entry>, key: Key, i: int) {
    && 0 <= i < |entries| && KeyOf(entries[i]) == Some(key)
    && forall j :: 0 <= j < |entries| && j != i ==> KeyOf(entries[j]) != Some(key)
  }

  ghost predicate NoMatch(entries: seq<Entry>, key: Key) {
    forall j :: 0 <= j < |entries| ==> KeyOf(entries[j]) != Some(key)
  }

  lemma {:induction false} MatchesComplete(entries: seq<Entry>, key: Key)
    ensures forall i :: 0 <= i < |entries| && KeyOf(entries[i]) == Some(key) ==> i in Matches(entries, key)
    ensures forall j, k :: 0 <= j < k < |Matches(entries, key)| ==> Matches(entries, key)[j] < Matches(entries, key)[k]
  {
    hide KeyOf;
    if entries != [] {
      var last := |entries| - 1;
      MatchesComplete(entries[..last], key);
      assert forall i :: 0 <= i < last && KeyOf(entries[..last][i]) == Some(key) ==> i in Matches(entries[..last], key);
      assert Matches(entries[..last], key) <= Matches(entries, key);
    }
  }

  lemma MatchesAre(entries: seq<Entry>, key: Key)
    ensures |Matches(entries, key)| == 0 <==> NoMatch(entries, key)
    ensures |Matches(entries, key)| == 1 <==> exists i :: OnlyMatch(entries, key, i)
    ensures |Matches(entries, key)| == 1 ==> OnlyMatch(entries, key, Matches(entries, key)[0])
  {
    var found := Matches(entries, key);
    MatchesComplete(entries, key);
    if |found| == 1 {
      assert forall i :: 0 <= i < |entries| && KeyOf(entries[i]) == Some(key) ==> i == found[0];
      assert OnlyMatch(entries, key, found[0]);
    } else if |found| > 1 {
      forall i ensures !OnlyMatch(entries, key, i) {
        assert KeyOf(entries[found[0]]) == Some(key) && KeyOf(entries[found[1]]) == Some(key) && found[0] < found[1];
      }
    }
  }

  // The count depends on the keys alone.
  lemma {:induction false} SameKeysSameMatches(a: seq<Entry>, b: seq<Entry>, key: Key)
    requires |a| == |b| && forall i :: 0 <= i < |a| ==> KeyOf(a[i]) == KeyOf(b[i])
    ensures Matches(a, key) == Matches(b, key)
  {
    if a != [] {
      SameKeysSameMatches(a[..|a| - 1], b[..|b| - 1], key);
    }
  }

  /* The ports a run of mappings asks for. */

  ghost predicate Mentions(ws: seq<Wanted>, service: string) {
    exists k :: 0 <= k < |ws| && ws[k].service == service
  }

  // The last mapping of a port wins.
  function PortFor(ws: seq<Wanted>, ports: map<string, nat>, service: string, key: Key): Option<nat> {
    if ws == [] then None
    else
      var w := ws[|ws| - 1];
      if w.service == service && w.entry.key == key && w.entry.allocation in ports then Some(ports[w.entry.allocation])
      else PortFor(ws[..|ws| - 1], ports, service, key)
  }

  lemma {:induction false} PortForMentioned(ws: seq<Wanted>, ports: map<string, nat>, service: string, key: Key)
    requires PortFor(ws, ports, service, key).Some?
    ensures Mentions(ws, service) && ValidWanted(key)
  {
    var last := |ws| - 1;
    if ws[last].service != service || ws[last].entry.key != key || ws[last].entry.allocation !in ports {
      PortForMentioned(ws[..last], ports, service, key);
      var k :| 0 <= k < last && ws[..last][k].service == service;
      assert ws[k].service == service;
    }
  }

  lemma {:induction false} PortForEach(ws: seq<Wanted>, ports: map<string, nat>, k: nat)
    requires k < |ws| && ws[k].entry.allocation in ports
    ensures PortFor(ws, ports, ws[k].service, ws[k].entry.key).Some?
  {
    if k < |ws| - 1 {
      PortForEach(ws[..|ws| - 1], ports, k);
    }
  }

  lemma PortForSnoc(ws: seq<Wanted>, w: Wanted, ports: map<string, nat>, service: string, key: Key)
    ensures PortFor(ws + [w], ports, service, key) ==
      if w.service == service && w.entry.key == key && w.entry.allocation in ports then Some(ports[w.entry.allocation])
      else PortFor(ws, ports, service, key)
  {
    assert (ws + [w])[..|ws|] == ws;
  }

  /* The outcome, entry by entry. `want` is the port asked for each key of one service. */

  function Updated(e: Entry, want: Key -> Option<nat>): Entry {
    if KeyOf(e).Some? && want(KeyOf(e).value).Some? then SetHost(e, want(KeyOf(e).value).value) else e
  }

  ghost predicate AddedFor(e: Entry, orig: seq<Entry>, want: Key -> Option<nat>) {
    && KeyOf(e).Some? && want(KeyOf(e).value).Some? && ValidWanted(KeyOf(e).value)
    && NoMatch(orig, KeyOf(e).value)
    && e == NewEntry(KeyOf(e).value, want(KeyOf(e).value).value)
  }

  // Original entries keep their place, those asked for with their new host side; behind
  // them come new entries for ports the service did not have; each port asked for once.
  ghost predicate Served(orig: seq<Entry>, want: Key -> Option<nat>, now: seq<Entry>) {
    && |orig| <= |now|
    && (forall i :: 0 <= i < |orig| ==> now[i] == Updated(orig[i], want))
    && (forall i :: |orig| <= i < |now| ==> AddedFor(now[i], orig, want))
    && (forall key :: want(key).Some? ==> exists i :: OnlyMatch(now, key, i))
  }

  lemma UpdatedKey(e: Entry, want: Key -> Option<nat>)
    ensures KeyOf(Updated(e, want)) == KeyOf(e)
    ensures KeyOf(e).Some? && want(KeyOf(e).value).Some? ==>
      HostOf(Updated(e, want)) == Some(Decimal.Print(want(KeyOf(e).value).value))
  {
    if KeyOf(e).Some? && want(KeyOf(e).value).Some? {
      SetHostSpec(e, want(KeyOf(e).value).value);
    }
  }

  // One more mapping.
  lemma EditedServes(orig: seq<Entry>, want: Key -> Option<nat>, now: seq<Entry>, key: WantedKey, port: nat,
                     more: Key -> Option<nat>)
    requires Served(orig, want, now) && |Matches(now, key)| <= 1
    requires forall k :: more(k) == if k == key then Some(port) else want(k)
    ensures Served(orig, more, Edited(now, key, port))
  {
    MatchesAre(now, key);
    if Matches(now, key) == [] {
      AddServes(orig, want, now, key, port, more);
    } else {
      SetServes(orig, want, now, key, port, more);
    }
  }

  lemma AddServes(orig: seq<Entry>, want: Key -> Option<nat>, now: seq<Entry>, key: WantedKey, port: nat,
                  more: Key -> Option<nat>)
    requires Served(orig, want, now) && NoMatch(now, key)
    requires forall k :: more(k) == if k == key then Some(port) else want(k)
    ensures Served(orig, more, now + [NewEntry(key, port)])
  {
    var after := now + [NewEntry(key, port)];
    NewEntrySpec(key, port);
    forall i | 0 <= i < |orig| ensures after[i] == Updated(orig[i], more) && KeyOf(orig[i]) != Some(key) {
      UpdatedKey(orig[i], want);
      assert KeyOf(now[i]) != Some(key);
    }
    forall i | |orig| <= i < |after| ensures AddedFor(after[i], orig, more) {
      if i < |now| {
        assert AddedFor(now[i], orig, want) && KeyOf(now[i]) != Some(key);
      }
    }
    assert OnlyMatch(after, key, |now|);
    forall k | more(k).Some? && k != key ensures exists i :: OnlyMatch(after, k, i) {
      var i :| OnlyMatch(now, k, i);
      assert OnlyMatch(after, k, i);
    }
  }

  lemma SetServes(orig: seq<Entry>, want: Key -> Option<nat>, now: seq<Entry>, key: WantedKey, port: nat,
                  more: Key -> Option<nat>)
    requires Served(orig, want, now) && Matches(now, key) != [] && OnlyMatch(now, key, Matches(now, key)[0])
    requires forall k :: more(k) == if k == key then Some(port) else want(k)
    ensures Served(orig, more, Edited(now, key, port))
  {
    hide KeyOf, HostOf, SetHost, NewEntry, Matches;
    var m, after := Matches(now, key)[0], Edited(now, key, port);
    SetHostSpec(now[m], port);
    assert forall i :: 0 <= i < |now| ==> KeyOf(after[i]) == KeyOf(now[i]);
    forall i | 0 <= i < |orig| ensures after[i] == Updated(orig[i], more) {
      UpdatedKey(orig[i], want);
      if i == m && want(key).Some? {
        SetHostSpec(orig[i], want(key).value);
      }
    }
    forall i | |orig| <= i < |after| ensures AddedFor(after[i], orig, more) {
      assert AddedFor(now[i], orig, want);
      if i == m {
        NewEntrySpec(key, want(key).value);
        NewEntrySpec(key, port);
      }
    }
    assert OnlyMatch(after, key, m);
    forall k | more(k).Some? && k != key ensures exists i :: OnlyMatch(after, k, i) {
      var i :| OnlyMatch(now, k, i);
      assert OnlyMatch(after, k, i);
    }
  }

  ghost predicate EachMatched(now: seq<Entry>, want: Key -> Option<nat>) {
    forall key :: want(key).Some? ==> !NoMatch(now, key)
  }

  lemma NothingToAdd(now: seq<Entry>, want: Key -> Option<nat>, again: seq<Entry>)
    requires EachMatched(now, want) && Served(now, want, again)
    ensures |again| == |now|
  {
    if |again| > |now| {
      NotAdded(again[|now|], now, want);
    }
  }

  lemma NotAdded(e: Entry, now: seq<Entry>, want: Key -> Option<nat>)
    requires EachMatched(now, want)
    ensures !AddedFor(e, now, want)
  {
  }

  // Serving again, for the same ports, changes nothing.
  lemma ServedTwice(orig: seq<Entry>, want: Key -> Option<nat>, now: seq<Entry>, again: seq<Entry>)
    requires Served(orig, want, now) && Served(now, want, again)
    ensures again == now
  {
    forall key | want(key).Some? ensures !NoMatch(now, key) {
      var i :| OnlyMatch(now, key, i);
    }
    NothingToAdd(now, want, again);
    forall i | 0 <= i < |now| ensures again[i] == now[i] {
      if i < |orig| {
        UpdatedKey(orig[i], want);
        if KeyOf(orig[i]).Some? && want(KeyOf(orig[i]).value).Some? {
          SetHostSpec(orig[i], want(KeyOf(orig[i]).value).value);
        }
      } else {
        assert AddedFor(now[i], orig, want);
        NewEntrySpec(KeyOf(now[i]).value, want(KeyOf(now[i]).value).value);
      }
    }
  }

  /* The whole document. */

  function WantIn(ws: seq<Wanted>, ports: map<string, nat>, service: string): Key -> Option<nat> {
    key => PortFor(ws, ports, service, key)
  }

  ghost predicate ServiceServed(orig: ServiceNode, ws: seq<Wanted>, ports: map<string, nat>, service: string,
                                now: ServiceNode) {
    if Mentions(ws, service) then
      && orig.Service? && orig.ports != NotAList
      && now.Service? && now.ports.Listed? && now.rest == orig.rest
      && Served(Entries(orig), WantIn(ws, ports, service), Entries(now))
    else now == orig
  }

  // Services not mentioned are untouched; in the others only the ports, as `Served` says.
  ghost predicate DocumentServed(orig: Services, ws: seq<Wanted>, ports: map<string, nat>, now: Services) {
    if orig == None then now == None && ws == []
    else
      && now.Some? && now.value.Keys == orig.value.Keys
      && (forall k :: 0 <= k < |ws| ==> ws[k].service in orig.value)
      && forall s :: s in orig.value ==> ServiceServed(orig.value[s], ws, ports, s, now.value[s])
  }

  lemma MentionsSnoc(ws: seq<Wanted>, w: Wanted, service: string)
    ensures Mentions(ws + [w], service) <==> Mentions(ws, service) || w.service == service
  {
    if Mentions(ws, service) {
      var k :| 0 <= k < |ws| && ws[k].service == service;
      assert (ws + [w])[k].service == service;
    }
    assert (ws + [w])[|ws|] == w;
  }

  // A service before any mapping of it is served for the empty wish.
  lemma StillServed(orig: ServiceNode, ws: seq<Wanted>, ports: map<string, nat>, service: string, now: ServiceNode)
    requires ServiceServed(orig, ws, ports, service, now)
    requires orig.Service? && orig.ports != NotAList
    ensures now.Service? && now.ports != NotAList && now.rest == orig.rest
    ensures Served(Entries(orig), WantIn(ws, ports, service), Entries(now))
  {
    if !Mentions(ws, service) {
      forall key ensures PortFor(ws, ports, service, key) == None {
        if PortFor(ws, ports, service, key).Some? {
          PortForMentioned(ws, ports, service, key);
        }
      }
    }
  }

  lemma ServeService(orig: ServiceNode, ws: seq<Wanted>, w: Wanted, ports: map<string, nat>, before: ServiceNode)
    requires ServiceServed(orig, ws, ports, w.service, before) && before.Service? && before.ports != NotAList
    requires w.entry.allocation in ports && |Matches(Entries(before), w.entry.key)| <= 1
    ensures ServiceServed(orig, ws + [w], ports, w.service,
                          before.(ports := Listed(Edited(Entries(before), w.entry.key, ports[w.entry.allocation]))))
  {
    MentionsSnoc(ws, w, w.service);
    WantSnoc(ws, w, ports, w.service);
    StillServed(orig, ws, ports, w.service, before);
    EditedServes(Entries(orig), WantIn(ws, ports, w.service), Entries(before), w.entry.key,
                 ports[w.entry.allocation], WantIn(ws + [w], ports, w.service));
  }

  lemma LeaveService(orig: ServiceNode, ws: seq<Wanted>, w: Wanted, ports: map<string, nat>, service: string,
                     before: ServiceNode)
    requires ServiceServed(orig, ws, ports, service, before) && service != w.service && w.entry.allocation in ports
    ensures ServiceServed(orig, ws + [w], ports, service, before)
  {
    MentionsSnoc(ws, w, service);
    WantSnoc(ws, w, ports, service);
    if Mentions(ws, service) {
      SameWant(Entries(orig), WantIn(ws, ports, service), Entries(before), WantIn(ws + [w], ports, service));
    }
  }

  lemma ServeOneMore(orig: Services, ws: seq<Wanted>, w: Wanted, ports: map<string, nat>, before: Services,
                     now: Services)
    requires DocumentServed(orig, ws, ports, before) && w.entry.allocation in ports
    requires Apply(before, w.service, w.entry.key, ports[w.entry.allocation]).Ok?
    requires now == Apply(before, w.service, w.entry.key, ports[w.entry.allocation]).value.0
    ensures DocumentServed(orig, ws + [w], ports, now)
  {
    hide ServiceServed;
    forall s | s in orig.value ensures ServiceServed(orig.value[s], ws + [w], ports, s, now.value[s]) {
      assert ServiceServed(orig.value[s], ws, ports, s, before.value[s]);
      if s == w.service {
        ServeService(orig.value[s], ws, w, ports, before.value[s]);
      } else {
        LeaveService(orig.value[s], ws, w, ports, s, before.value[s]);
      }
    }
  }

  lemma ServeLast(orig: Services, init: seq<Wanted>, w: Wanted, ws: seq<Wanted>, ports: map<string, nat>,
                  before: Services, now: Services)
    requires ws == init + [w] && DocumentServed(orig, init, ports, before) && w.entry.allocation in ports
    requires Apply(before, w.service, w.entry.key, ports[w.entry.allocation]).Ok?
    requires now == Apply(before, w.service, w.entry.key, ports[w.entry.allocation]).value.0
    ensures DocumentServed(orig, ws, ports, now)
  {
    ServeOneMore(orig, init, w, ports, before, now);
  }

  lemma WantSnoc(ws: seq<Wanted>, w: Wanted, ports: map<string, nat>, service: string)
    requires w.entry.allocation in ports
    ensures forall k :: (WantIn(ws + [w], ports, service)(k) ==
      if service == w.service && k == w.entry.key then Some(ports[w.entry.allocation])
      else WantIn(ws, ports, service)(k))
  {
    forall k {
      PortForSnoc(ws, w, ports, service, k);
    }
  }

  lemma SameWant(orig: seq<Entry>, want: Key -> Option<nat>, now: seq<Entry>, more: Key -> Option<nat>)
    requires Served(orig, want, now) && forall k :: more(k) == want(k)
    ensures Served(orig, more, now)
  {
    forall i | |orig| <= i < |now| ensures AddedFor(now[i], orig, more) {
      assert AddedFor(now[i], orig, want);
    }
  }

  lemma NothingServed(services: Services, ports: map<string, nat>)
    ensures DocumentServed(services, [], ports, services)
  {
  }

  lemma LastApplied(services: Services, ws: seq<Wanted>, ports: map<string, nat>)
    returns (before: (Services, seq<Change>))
    requires ws != [] && ApplyAll(services, ws, ports).Ok?
    ensures ApplyAll(services, ws[..|ws| - 1], ports) == Ok(before)
    ensures var w := ws[|ws| - 1];
      && w.entry.allocation in ports
      && Apply(before.0, w.service, w.entry.key, ports[w.entry.allocation]).Ok?
      && ApplyAll(services, ws, ports).value.0 ==
          Apply(before.0, w.service, w.entry.key, ports[w.entry.allocation]).value.0
  {
    before := ApplyAll(services, ws[..|ws| - 1], ports).value;
  }

  // What the planning loops leave behind, entry by entry.
  lemma {:induction false} PlannedDocument(services: Services, ws: seq<Wanted>, ports: map<string, nat>)
    requires ApplyAll(services, ws, ports).Ok?
    ensures DocumentServed(services, ws, ports, ApplyAll(services, ws, ports).value.0)
  {
    hide DocumentServed, Apply, ApplyOne;
    if ws == [] {
      NothingServed(services, ports);
    } else {
      var before := LastApplied(services, ws, ports);
      PlannedDocument(services, ws[..|ws| - 1], ports);
      ServeLast(services, ws[..|ws| - 1], ws[|ws| - 1], ws, ports, before.0, ApplyAll(services, ws, ports).value.0);
    }
  }

  // Each port asked for is published by exactly one entry, on the port of the last mapping
  // that asked for it.
  lemma EveryPortPlanned(services: Services, ws: seq<Wanted>, ports: map<string, nat>, k: nat)
    requires ApplyAll(services, ws, ports).Ok? && k < |ws|
    ensures ws[k].entry.allocation in ports
    ensures var now := ApplyAll(services, ws, ports).value.0;
      var want := PortFor(ws, ports, ws[k].service, ws[k].entry.key);
      && now.Some? && ws[k].service in now.value && want.Some?
      && exists i :: OnlyMatch(Entries(now.value[ws[k].service]), ws[k].entry.key, i) &&
           HostOf(Entries(now.value[ws[k].service])[i]) == Some(Decimal.Print(want.value))
  {
    var now, w := ApplyAll(services, ws, ports).value.0, ws[k];
    PlannedDocument(services, ws, ports);
    AllocationsKnown(services, ws, ports);
    PortForEach(ws, ports, k);
    assert ServiceServed(services.value[w.service], ws, ports, w.service, now.value[w.service]);
    var orig, entries := Entries(services.value[w.service]), Entries(now.value[w.service]);
    ServedHost(orig, WantIn(ws, ports, w.service), entries, w.entry.key);
  }

  lemma ServedHost(orig: seq<Entry>, want: Key -> Option<nat>, now: seq<Entry>, key: Key)
    requires Served(orig, want, now) && want(key).Some?
    ensures exists i :: OnlyMatch(now, key, i) && HostOf(now[i]) == Some(Decimal.Print(want(key).value))
  {
    var i :| OnlyMatch(now, key, i);
    if i < |orig| {
      UpdatedKey(orig[i], want);
    } else {
      assert AddedFor(now[i], orig, want);
      NewEntrySpec(key, want(key).value);
    }
  }

  lemma {:induction false} AllocationsKnown(services: Services, ws: seq<Wanted>, ports: map<string, nat>)
    requires ApplyAll(services, ws, ports).Ok?
    ensures forall k :: 0 <= k < |ws| ==> ws[k].entry.allocation in ports
  {
    hide Apply;
    if ws != [] {
      AllocationsKnown(services, ws[..|ws| - 1], ports);
      assert forall k :: 0 <= k < |ws| - 1 ==> ws[..|ws| - 1][k] == ws[k];
    }
  }

  // Whether a port is ambiguous never changes on the way.
  lemma ServedAmbiguity(orig: seq<Entry>, want: Key -> Option<nat>, now: seq<Entry>, key: Key)
    requires Served(orig, want, now)
    ensures |Matches(now, key)| <= 1 <==> |Matches(orig, key)| <= 1
  {
    MatchesAre(orig, key);
    MatchesAre(now, key);
    forall i | 0 <= i < |orig| ensures KeyOf(now[i]) == KeyOf(orig[i]) {
      UpdatedKey(orig[i], want);
    }
    if want(key).Some? {
      var i :| OnlyMatch(now, key, i);
      assert if i < |orig| then OnlyMatch(orig, key, i) else NoMatch(orig, key);
    } else {
      forall i | |orig| <= i < |now| ensures KeyOf(now[i]) != Some(key) {
        assert AddedFor(now[i], orig, want);
      }
      if i :| OnlyMatch(orig, key, i) {
        assert OnlyMatch(now, key, i);
      }
      if i :| OnlyMatch(now, key, i) {
        assert OnlyMatch(orig, key, i);
      }
    }
  }

  // Checkable on the original document: the allocation has the port, the service is well
  // formed, and no more than one of its entries has that container port and protocol.
  ghost predicate Plannable(services: Services, w: Wanted, ports: map<string, nat>) {
    && w.entry.allocation in ports
    && WellFormed(services, w.service)
    && |Matches(Entries(services.value[w.service]), w.entry.key)| <= 1
  }

  lemma OneMoreIff(services: Services, ws: seq<Wanted>, w: Wanted, ports: map<string, nat>,
                   before: (Services, seq<Change>))
    requires DocumentServed(services, ws, ports, before.0)
    ensures ApplyOne(before, w, ports).Ok? <==> Plannable(services, w, ports)
  {
    if services.Some? && w.service in services.value {
      assert ServiceServed(services.value[w.service], ws, ports, w.service, before.0.value[w.service]);
      if WellFormed(services, w.service) {
        StillServed(services.value[w.service], ws, ports, w.service, before.0.value[w.service]);
        ServedAmbiguity(Entries(services.value[w.service]), WantIn(ws, ports, w.service),
                        Entries(before.0.value[w.service]), w.entry.key);
      }
    }
  }

  ghost predicate AllPlannable(services: Services, ws: seq<Wanted>, ports: map<string, nat>) {
    forall k :: 0 <= k < |ws| ==> Plannable(services, ws[k], ports)
  }

  lemma AllPlannableSnoc(services: Services, ws: seq<Wanted>, w: Wanted, ports: map<string, nat>)
    ensures AllPlannable(services, ws + [w], ports) <==>
        AllPlannable(services, ws, ports) && Plannable(services, w, ports)
  {
    assert forall k :: 0 <= k < |ws| ==> (ws + [w])[k] == ws[k];
    assert (ws + [w])[|ws|] == w;
  }

  // Planning a file succeeds exactly if each of its mappings could be applied alone.
  lemma {:induction false} PlanSucceedsIff(services: Services, ws: seq<Wanted>, ports: map<string, nat>)
    ensures ApplyAll(services, ws, ports).Ok? <==> AllPlannable(services, ws, ports)
  {
    hide Plannable, DocumentServed;
    if ws != [] {
      var init, w := ws[..|ws| - 1], ws[|ws| - 1];
      PlanSucceedsIff(services, init, ports);
      AllPlannableSnoc(services, init, w, ports);
      assert ws == init + [w];
      if ApplyAll(services, init, ports).Ok? {
        PlannedDocument(services, init, ports);
        OneMoreIff(services, init, w, ports, ApplyAll(services, init, ports).value);
      }
    }
  }

  // Planning again for the same ports succeeds and changes nothing.
  lemma ReplanChangesNothing(services: Services, ws: seq<Wanted>, ports: map<string, nat>)
    requires ApplyAll(services, ws, ports).Ok?
    ensures var now := ApplyAll(services, ws, ports).value.0;
      ApplyAll(now, ws, ports).Ok? && ApplyAll(now, ws, ports).value.0 == now
  {
    var now := ApplyAll(services, ws, ports).value.0;
    PlannedDocument(services, ws, ports);
    PlanSucceedsIff(services, ws, ports);
    forall k | 0 <= k < |ws| ensures Plannable(now, ws[k], ports) {
      assert Plannable(services, ws[k], ports);
      StillPlannable(services, ws, ports, now, ws[k]);
    }
    PlanSucceedsIff(now, ws, ports);
    var again := ApplyAll(now, ws, ports).value.0;
    PlannedDocument(now, ws, ports);
    SameDocument(services, ws, ports, now, again);
  }

  lemma StillPlannable(services: Services, ws: seq<Wanted>, ports: map<string, nat>, now: Services, w: Wanted)
    requires DocumentServed(services, ws, ports, now) && Plannable(services, w, ports)
    ensures Plannable(now, w, ports)
  {
    assert ServiceServed(services.value[w.service], ws, ports, w.service, now.value[w.service]);
    StillServed(services.value[w.service], ws, ports, w.service, now.value[w.service]);
    ServedAmbiguity(Entries(services.value[w.service]), WantIn(ws, ports, w.service),
                    Entries(now.value[w.service]), w.entry.key);
  }

  lemma SameDocument(services: Services, ws: seq<Wanted>, ports: map<string, nat>, now: Services, again: Services)
    requires DocumentServed(services, ws, ports, now) && DocumentServed(now, ws, ports, again)
    ensures again == now
  {
    if services.Some? {
      forall s | s in services.value ensures again.value[s] == now.value[s] {
        assert ServiceServed(services.value[s], ws, ports, s, now.value[s]);
        assert ServiceServed(now.value[s], ws, ports, s, again.value[s]);
        if Mentions(ws, s) {
          ServedTwice(Entries(services.value[s]), WantIn(ws, ports, s), Entries(now.value[s]), Entries(again.value[s]));
        }
      }
      assert again.value == now.value;
    }
  }
}
