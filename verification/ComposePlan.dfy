// One Compose mapping and a whole plan of them: what exactly is written and reported, and
// what exactly is refused.
module ComposePlan {
  import opened Wrappers
  import opened Compose
  import opened ComposeParse
  import opened ComposeDocument
  import opened ComposeSpec
  import Decimal

  /* Counting the entries of a container port and protocol. */

  ghost function Having(entries: seq<Entry>, key: Key): set<int> {
    set i | 0 <= i < |entries| && HasKey(entries[i], key)
  }

  lemma HavingSnoc(entries: seq<Entry>, key: Key)
    requires entries != []
    ensures var init, last := Having(entries[..|entries| - 1], key), |entries| - 1;
      last !in init && Having(entries, key) == if HasKey(entries[last], key) then init + {last} else init
  {
    hide HasKey;
  }

  lemma {:induction false} MatchesCount(entries: seq<Entry>, key: Key)
    ensures |Matches(entries, key)| == |Having(entries, key)|
    ensures forall i :: i in Having(entries, key) <==> i in Matches(entries, key)
  {
    hide KeyOf, HasKey, Having;
    if entries == [] {
      NoneHaving(key);
    } else {
      MatchesCount(entries[..|entries| - 1], key);
      HavingSnoc(entries, key);
      KeyIff(entries[|entries| - 1], key);
    }
  }

  lemma NoneHaving(key: Key)
    ensures Having([], key) == {}
  {
  }

  lemma HavingNone(entries: seq<Entry>, key: Key)
    ensures Matches(entries, key) == [] <==> Having(entries, key) == {}
    ensures Matches(entries, key) != [] ==> Matches(entries, key)[0] in Having(entries, key)
  {
    hide Having, Matches;
    MatchesCount(entries, key);
    var found := Matches(entries, key);
    if found != [] {
      assert found[0] in found;
    }
  }

  lemma HavingOne(entries: seq<Entry>, key: Key)
    requires |Matches(entries, key)| == 1
    ensures Having(entries, key) == {Matches(entries, key)[0]}
  {
    hide Having, Matches;
    MatchesCount(entries, key);
    var found := Matches(entries, key);
    forall i | i in Having(entries, key) ensures i == found[0] {
      assert i in found;
    }
    assert found[0] in found;
  }

  /* One mapping. */

  ghost predicate Editable(services: Services, service: string) {
    && services.Some? && service in services.value
    && services.value[service].Service? && services.value[service].ports != NotAList
  }

  // The entries of a service before and after, and what is reported: an entry more where
  // there was none, otherwise the only one published anew.
  ghost predicate EntriesWritten(es: seq<Entry>, key: WantedKey, port: nat, fs: seq<Entry>, change: Change) {
    && change.key == key && change.after == Decimal.Print(port)
    && if Having(es, key) == {} then
         && fs == es + [Short(Decimal.Print(port) + ":" + Decimal.Print(key.container)
                              + if key.protocol == "udp" then "/udp" else "")]
         && change.added && change.before == None
       else
         && |fs| == |es| && !change.added
         && exists i :: Having(es, key) == {i} && Republished(es[i], port, fs[i])
              && (forall j :: 0 <= j < |es| && j != i ==> fs[j] == es[j])
              && (forall h :: change.before == Some(h) <==> HasHost(es[i], h))
  }

  ghost predicate Applied(services: Services, service: string, key: WantedKey, port: nat, now: Services,
                          change: Change) {
    && Editable(services, service) && now.Some? && now.value.Keys == services.value.Keys
    && (forall s :: s in services.value && s != service ==> now.value[s] == services.value[s])
    && var before, after := services.value[service], now.value[service];
       && after.Service? && after.rest == before.rest && after.ports.Listed?
       && change.service == service
       && EntriesWritten(if before.ports.Listed? then before.ports.entries else [], key, port, after.ports.entries,
                         change)
  }

  ghost predicate Refused(services: Services, service: string, key: Key, e: ComposeError) {
    match e
    case ServiceNotFound => services == None || service !in services.value
    case ParseError => services.Some? && service in services.value && !Editable(services, service)
    case Ambiguous(matches) =>
      Editable(services, service) && |Having(Entries(services.value[service]), key)| == matches > 1
    case UnknownAllocation => false
  }

  lemma EditedIsWritten(es: seq<Entry>, service: string, key: WantedKey, port: nat)
    requires |Matches(es, key)| <= 1
    ensures EntriesWritten(es, key, port, Edited(es, key, port), ChangeFor(es, service, key, port))
    ensures ChangeFor(es, service, key, port).service == service
  {
    hide KeyOf, HostOf, SetHost, NewEntry, Having, HasHost, Republished, Decimal.Print;
    HavingNone(es, key);
    if Matches(es, key) == [] {
      NewEntryIs(key, port);
    } else {
      var i := Matches(es, key)[0];
      HavingOne(es, key);
      SetHostIs(es[i], port);
      forall h ensures HostOf(es[i]) == Some(h) <==> HasHost(es[i], h) {
        HostIff(es[i], h);
      }
    }
  }

  // A mapping that is applied writes and reports exactly this; one that is refused is so for
  // exactly this reason.
  lemma ApplyIs(services: Services, service: string, key: WantedKey, port: nat)
    ensures match Apply(services, service, key, port)
      case Ok(now) => Applied(services, service, key, port, now.0, now.1)
      case Err(e) => Refused(services, service, key, e)
  {
    hide EntriesWritten, Edited, ChangeFor, Having;
    if Editable(services, service) {
      var es := Entries(services.value[service]);
      MatchesCount(es, key);
      if |Matches(es, key)| <= 1 {
        EditedIsWritten(es, service, key, port);
      }
    }
  }

  lemma RefusedIff(services: Services, service: string, key: WantedKey, port: nat, e: ComposeError)
    ensures Apply(services, service, key, port) == Err(e) <==> Refused(services, service, key, e)
  {
    hide Having, Matches, Edited, ChangeFor;
    if Editable(services, service) {
      MatchesCount(Entries(services.value[service]), key);
    }
  }

  /* Refusals of a plan. */

  ghost predicate MappingFails(services: Services, w: Wanted, ports: map<string, nat>, e: ComposeError) {
    if w.entry.allocation !in ports then e == UnknownAllocation
    else Refused(services, w.service, w.entry.key, e)
  }

  ghost predicate NoneFails(services: Services, ws: seq<Wanted>, ports: map<string, nat>) {
    forall k, e :: 0 <= k < |ws| ==> !MappingFails(services, ws[k], ports, e)
  }

  // An ambiguous port is left as it was by every plan that succeeds.
  lemma AmbiguityKept(orig: seq<Entry>, want: Key -> Option<nat>, now: seq<Entry>, key: Key)
    requires Served(orig, want, now)
    ensures |Matches(now, key)| == |Matches(orig, key)| || (|Matches(now, key)| <= 1 && |Matches(orig, key)| <= 1)
  {
    hide KeyOf, Matches;
    ServedAmbiguity(orig, want, now, key);
    if |Matches(orig, key)| > 1 {
      if want(key).Some? {
        MatchesAre(now, key);
        assert false;
      }
      SameMatches(orig, want, now, key);
    }
  }

  lemma SameMatches(orig: seq<Entry>, want: Key -> Option<nat>, now: seq<Entry>, key: Key)
    requires Served(orig, want, now) && want(key) == None
    ensures Matches(now, key) == Matches(orig, key)
  {
    hide KeyOf;
    var kept := now[..|orig|];
    forall i | 0 <= i < |orig| ensures KeyOf(kept[i]) == KeyOf(orig[i]) {
      UpdatedKey(orig[i], want);
    }
    SameKeysSameMatches(kept, orig, key);
    forall i | |orig| <= i < |now| ensures KeyOf(now[i]) != Some(key) {
      assert AddedFor(now[i], orig, want);
    }
    MatchesOfFront(now, |orig|, key);
  }

  lemma {:induction false} MatchesOfFront(entries: seq<Entry>, n: nat, key: Key)
    requires n <= |entries| && forall i :: n <= i < |entries| ==> KeyOf(entries[i]) != Some(key)
    ensures Matches(entries, key) == Matches(entries[..n], key)
  {
    hide KeyOf;
    if n == |entries| {
      assert entries[..n] == entries;
    } else {
      var init := entries[..|entries| - 1];
      assert init[..n] == entries[..n];
      MatchesOfFront(init, n, key);
    }
  }

  lemma SameRefusal(services: Services, ws: seq<Wanted>, w: Wanted, ports: map<string, nat>, before: Services,
                    e: ComposeError)
    requires DocumentServed(services, ws, ports, before)
    ensures Refused(before, w.service, w.entry.key, e) <==> Refused(services, w.service, w.entry.key, e)
  {
    hide Having, Matches, Served, PortFor;
    if services.Some? && w.service in services.value {
      assert ServiceServed(services.value[w.service], ws, ports, w.service, before.value[w.service]);
      if Editable(services, w.service) {
        StillServed(services.value[w.service], ws, ports, w.service, before.value[w.service]);
        var orig, now := Entries(services.value[w.service]), Entries(before.value[w.service]);
        AmbiguityKept(orig, WantIn(ws, ports, w.service), now, w.entry.key);
        MatchesCount(orig, w.entry.key);
        MatchesCount(now, w.entry.key);
      }
    }
  }

  lemma OneFails(services: Services, ws: seq<Wanted>, w: Wanted, ports: map<string, nat>,
                 before: (Services, seq<Change>), e: ComposeError)
    requires DocumentServed(services, ws, ports, before.0)
    ensures ApplyOne(before, w, ports) == Err(e) <==> MappingFails(services, w, ports, e)
  {
    hide Apply, DocumentServed, Refused;
    if w.entry.allocation in ports {
      RefusedIff(before.0, w.service, w.entry.key, ports[w.entry.allocation], e);
      SameRefusal(services, ws, w, ports, before.0, e);
    }
  }

  lemma FailsAt(services: Services, ws: seq<Wanted>, k: nat, ports: map<string, nat>, e: ComposeError)
    requires k < |ws| && ApplyAll(services, ws[..k], ports).Ok?
    ensures ApplyAll(services, ws[..k + 1], ports) == Err(e) <==> MappingFails(services, ws[k], ports, e)
    ensures MappingFails(services, ws[k], ports, e) ==> ApplyAll(services, ws, ports) == Err(e)
  {
    hide ApplyAll, ApplyOne, MappingFails, DocumentServed;
    PlannedDocument(services, ws[..k], ports);
    OneFails(services, ws[..k], ws[k], ports, ApplyAll(services, ws[..k], ports).value, e);
    assert ws[..k + 1] == ws[..k] + [ws[k]];
    ApplyAllSnoc(services, ws[..k], ws[k], ports);
    if MappingFails(services, ws[k], ports, e) {
      assert ws == ws[..k + 1] + ws[k + 1..];
      FirstErrorWins(services, ws[..k + 1], ws[k + 1..], ports);
    }
  }

  // A plan gets through its first mappings exactly if none of them fails alone.
  lemma {:induction false} PlansIff(services: Services, ws: seq<Wanted>, ports: map<string, nat>)
    ensures ApplyAll(services, ws, ports).Ok? <==> NoneFails(services, ws, ports)
  {
    hide ApplyAll, MappingFails;
    if ws == [] {
      NothingFlat([], services, ports);
    } else {
      var last := |ws| - 1;
      assert ws[..last + 1] == ws;
      PlansIff(services, ws[..last], ports);
      if ApplyAll(services, ws[..last], ports).Ok? {
        forall e ensures ApplyAll(services, ws, ports) == Err(e) <==> MappingFails(services, ws[last], ports, e) {
          FailsAt(services, ws, last, ports, e);
        }
        assert forall k :: 0 <= k < last ==> ws[..last][k] == ws[k];
      } else {
        assert ws == ws[..last] + ws[last..];
        FirstErrorWins(services, ws[..last], ws[last..], ports);
      }
    }
  }

  lemma FirstFailure(services: Services, ws: seq<Wanted>, ports: map<string, nat>) returns (k: nat)
    requires ApplyAll(services, ws, ports).Err?
    ensures k < |ws| && ApplyAll(services, ws[..k], ports).Ok? && ApplyAll(services, ws[..k + 1], ports).Err?
  {
    hide ApplyAll;
    NothingFlat([], services, ports);
    assert ws[..|ws|] == ws;
    k := 0;
    while ApplyAll(services, ws[..k + 1], ports).Ok?
      invariant k < |ws| && ApplyAll(services, ws[..k], ports).Ok?
      decreases |ws| - k
    {
      k := k + 1;
    }
  }

  // A plan fails with what is wrong, in the original document, with its first mapping that
  // could not be applied alone.
  lemma PlanFailsIff(services: Services, ws: seq<Wanted>, ports: map<string, nat>, e: ComposeError)
    ensures ApplyAll(services, ws, ports) == Err(e) <==>
      exists k :: 0 <= k < |ws| && NoneFails(services, ws[..k], ports) && MappingFails(services, ws[k], ports, e)
  {
    hide ApplyAll, MappingFails, NoneFails;
    if ApplyAll(services, ws, ports) == Err(e) {
      var k := FirstFailure(services, ws, ports);
      PlansIff(services, ws[..k], ports);
      FailsAt(services, ws, k, ports, ApplyAll(services, ws[..k + 1], ports).error);
    }
    forall k | 0 <= k < |ws| && NoneFails(services, ws[..k], ports) && MappingFails(services, ws[k], ports, e)
      ensures ApplyAll(services, ws, ports) == Err(e)
    {
      PlansIff(services, ws[..k], ports);
      FailsAt(services, ws, k, ports, e);
    }
  }

  /* The changes a plan reports. */

  // The host side before a mapping: the port of the last earlier mapping of that container
  // port, or else what the document had; it is an addition if there was neither.
  ghost predicate Told(orig: seq<Entry>, before: Option<nat>, key: Key, c: Change) {
    match before
    case Some(port) => !c.added && c.before == Some(Decimal.Print(port))
    case None =>
      if Having(orig, key) == {} then c.added && c.before == None
      else !c.added && exists i :: Having(orig, key) == {i} && forall h :: c.before == Some(h) <==> HasHost(orig[i], h)
  }

  ghost predicate Reports(services: Services, ws: seq<Wanted>, ports: map<string, nat>, w: Wanted, c: Change) {
    && w.entry.allocation in ports && Editable(services, w.service)
    && c.service == w.service && c.key == w.entry.key && c.after == Decimal.Print(ports[w.entry.allocation])
    && Told(Entries(services.value[w.service]), PortFor(ws, ports, w.service, w.entry.key), w.entry.key, c)
  }

  // What one mapping reports, on entries already served for the earlier ones.
  lemma ReportedHost(orig: seq<Entry>, want: Key -> Option<nat>, now: seq<Entry>, key: Key, i: int)
    requires Served(orig, want, now) && OnlyMatch(now, key, i)
    ensures match want(key)
      case Some(port) => HostOf(now[i]) == Some(Decimal.Print(port))
      case None => OnlyMatch(orig, key, i) && now[i] == orig[i]
  {
    hide HostOf, KeyOf, Decimal.Print;
    if want(key).Some? {
      ServedHost(orig, want, now, key);
    } else {
      SameOnlyMatch(orig, want, now, key, i);
    }
  }

  lemma SameOnlyMatch(orig: seq<Entry>, want: Key -> Option<nat>, now: seq<Entry>, key: Key, i: int)
    requires Served(orig, want, now) && want(key) == None && OnlyMatch(now, key, i)
    ensures OnlyMatch(orig, key, i) && now[i] == orig[i]
  {
    hide KeyOf;
    assert i >= |orig| ==> AddedFor(now[i], orig, want);
    forall j | 0 <= j < |orig| ensures KeyOf(now[j]) == KeyOf(orig[j]) {
      UpdatedKey(orig[j], want);
    }
  }

  lemma WantedIsMatched(orig: seq<Entry>, want: Key -> Option<nat>, now: seq<Entry>, key: Key)
    requires Served(orig, want, now) && want(key).Some?
    ensures !NoMatch(now, key)
  {
    hide KeyOf;
    var i :| OnlyMatch(now, key, i);
  }

  lemma NothingMatched(orig: seq<Entry>, want: Key -> Option<nat>, now: seq<Entry>, key: Key)
    requires Served(orig, want, now) && NoMatch(now, key)
    ensures want(key) == None && NoMatch(orig, key)
  {
    hide KeyOf;
    if want(key).Some? {
      WantedIsMatched(orig, want, now, key);
    }
    forall j | 0 <= j < |orig| ensures KeyOf(now[j]) == KeyOf(orig[j]) {
      UpdatedKey(orig[j], want);
    }
  }

  lemma ChangeReports(services: Services, ws: seq<Wanted>, w: Wanted, ports: map<string, nat>,
                      before: (Services, seq<Change>))
    requires DocumentServed(services, ws, ports, before.0) && ApplyOne(before, w, ports).Ok?
    ensures var now := ApplyOne(before, w, ports).value;
      && |now.1| == |before.1| + 1 && before.1 <= now.1
      && Reports(services, ws, ports, w, now.1[|before.1|])
  {
    hide Served, Having, HasHost, HostOf, Matches, PortFor, Edited, OnlyMatch, NoMatch;
    var key := w.entry.key;
    OneMoreIff(services, ws, w, ports, before);
    assert ServiceServed(services.value[w.service], ws, ports, w.service, before.0.value[w.service]);
    StillServed(services.value[w.service], ws, ports, w.service, before.0.value[w.service]);
    var orig, now, want := Entries(services.value[w.service]), Entries(before.0.value[w.service]),
      WantIn(ws, ports, w.service);
    ChangeTold(orig, want, now, w.service, key, ports[w.entry.allocation]);
  }

  lemma ChangeTold(orig: seq<Entry>, want: Key -> Option<nat>, now: seq<Entry>, service: string, key: Key, port: nat)
    requires Served(orig, want, now) && |Matches(now, key)| <= 1
    ensures Told(orig, want(key), key, ChangeFor(now, service, key, port))
  {
    hide Served, Having, HasHost, HostOf, Matches, OnlyMatch, NoMatch, Decimal.Print;
    MatchesAre(now, key);
    MatchesAre(orig, key);
    var found := Matches(now, key);
    if found == [] {
      NothingMatched(orig, want, now, key);
      HavingNone(orig, key);
    } else {
      ReportedHost(orig, want, now, key, found[0]);
      if want(key) == None {
        assert OnlyMatch(orig, key, found[0]);
        OnlyHaving(orig, key, found[0]);
        forall h ensures HostOf(orig[found[0]]) == Some(h) <==> HasHost(orig[found[0]], h) {
          HostIff(orig[found[0]], h);
        }
      }
    }
  }

  lemma OnlyHaving(entries: seq<Entry>, key: Key, i: int)
    requires OnlyMatch(entries, key, i)
    ensures Having(entries, key) == {i} && 0 <= i < |entries|
  {
    hide KeyOf, HasKey;
    forall j | 0 <= j < |entries| ensures KeyOf(entries[j]) == Some(key) <==> HasKey(entries[j], key) {
      KeyIff(entries[j], key);
    }
  }

  // A plan reports one change for each mapping, in order.
  lemma {:induction false} ChangesReported(services: Services, ws: seq<Wanted>, ports: map<string, nat>)
    requires ApplyAll(services, ws, ports).Ok?
    ensures var changes := ApplyAll(services, ws, ports).value.1;
      |changes| == |ws| && forall k :: 0 <= k < |ws| ==> Reports(services, ws[..k], ports, ws[k], changes[k])
  {
    hide Reports, DocumentServed, ApplyOne;
    if ws != [] {
      var last := |ws| - 1;
      var before := ApplyAll(services, ws[..last], ports).value;
      ChangesReported(services, ws[..last], ports);
      PlannedDocument(services, ws[..last], ports);
      ChangeReports(services, ws[..last], ws[last], ports, before);
      forall k | 0 <= k < last
        ensures Reports(services, ws[..k], ports, ws[k], ApplyAll(services, ws, ports).value.1[k])
      {
        assert ws[..last][..k] == ws[..k];
      }
    }
  }

  /* The order of the mappings: services in order, and the entries of each in order. */

  lemma {:induction false} FlattenConcat(a: seq<(string, seq<PortEntry>)>, b: seq<(string, seq<PortEntry>)>)
    ensures Flatten(a + b) == Flatten(a) + Flatten(b)
  {
    if b == [] {
      assert a + b == a;
    } else {
      assert (a + b)[..|a + b| - 1] == a + b[..|b| - 1];
      FlattenConcat(a, b[..|b| - 1]);
    }
  }

  lemma FlattenOne(service: string, entries: seq<PortEntry>)
    ensures var ws := Flatten([(service, entries)]);
      |ws| == |entries| && forall j :: 0 <= j < |ws| ==> ws[j] == Wanted(service, entries[j])
  {
    assert [(service, entries)][..0] == [];
    assert Flatten([(service, entries)]) == Tagged(service, entries);
  }
}
