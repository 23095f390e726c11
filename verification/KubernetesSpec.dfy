// What planning a Kubernetes file guarantees: only hostPort and nodePort values change, no
// mapping disturbs where another is found, and each located entry ends with its port.
module KubernetesSpec {
  import opened Wrappers
  import opened Chars
  import opened Kubernetes
  import opened KubernetesLookup

  /* Everything but the values the editor sets. */

  function BareItem(e: PortItem): PortItem {
    if e.PortItem? then e.(published := None) else e
  }

  function BareItems(items: Items): Items {
    match items
    case None => None
    case Some(es) => Some(seq(|es|, k requires 0 <= k < |es| => BareItem(es[k])))
  }

  function BareContainer(c: Container): Container {
    if c.Container? then c.(ports := BareItems(c.ports)) else c
  }

  function BareTemplate(t: Template): Template {
    if t.Template? then
      t.(containers := seq(|t.containers|, k requires 0 <= k < |t.containers| => BareContainer(t.containers[k])))
    else t
  }

  function BareDoc(d: Doc): Doc {
    if d.Doc? && d.spec.Some? then
      d.(spec := Some(d.spec.value.(ports := BareItems(d.spec.value.ports),
          template := BareTemplate(d.spec.value.template))))
    else d
  }

  function Skeleton(docs: seq<Doc>): (bare: seq<Doc>)
    ensures |bare| == |docs|
  {
    seq(|docs|, k requires 0 <= k < |docs| => BareDoc(docs[k]))
  }

  /* Searches see the skeleton only. */

  lemma {:induction false} SameIndices<S, T>(xs: seq<S>, p: S -> bool, ys: seq<T>, q: T -> bool)
    requires |xs| == |ys| && forall k :: 0 <= k < |xs| ==> p(xs[k]) == q(ys[k])
    ensures Indices(xs, p) == Indices(ys, q)
  {
    if xs != [] {
      SameIndices(xs[..|xs| - 1], p, ys[..|ys| - 1], q);
    }
  }

  lemma BareFindPort(items: seq<PortItem>, number: int, protocol: string)
    ensures FindPort(BareItems(Some(items)).value, number, protocol) == FindPort(items, number, protocol)
  {
    SameIndices(items, e => IsPort(e, number, protocol), BareItems(Some(items)).value,
        e => IsPort(e, number, protocol));
  }

  lemma BareFindContainer(t: Template, name: string)
    requires t.Template?
    ensures FindContainer(BareTemplate(t).containers, name) == FindContainer(t.containers, name)
  {
    SameIndices(t.containers, (c: Container) => c.Container? && c.name == Some(name),
                BareTemplate(t).containers, (c: Container) => c.Container? && c.name == Some(name));
  }

  lemma BareFindResource(docs: seq<Doc>, kind: string, name: string, namespace: Option<string>)
    ensures FindResource(Skeleton(docs), kind, name, namespace) == FindResource(docs, kind, name, namespace)
  {
    SameIndices(docs, d => IsResource(d, kind, name, namespace), Skeleton(docs),
        d => IsResource(d, kind, name, namespace));
  }

  lemma BareItemsOf(items: Items)
    ensures BareItems(Some(ItemsOf(items))).value == ItemsOf(BareItems(items))
  {
  }

  lemma BareLocateInWorkload(docs: seq<Doc>, d: nat, t: Target)
    requires d < |docs| && docs[d].Doc? && t.HostPort?
    ensures LocateInWorkload(Skeleton(docs), d, t) == LocateInWorkload(docs, d, t)
  {
    var spec := docs[d].spec;
    if spec.Some? && spec.value.template.Template? {
      var template := spec.value.template;
      BareFindContainer(template, t.container);
      var c := FindContainer(template.containers, t.container);
      if c.Ok? {
        BareItemsOf(template.containers[c.value].ports);
        BareFindPort(ItemsOf(template.containers[c.value].ports), t.number, t.protocol);
      }
    }
  }

  lemma BareLocateInService(docs: seq<Doc>, d: nat, t: Target)
    requires d < |docs| && docs[d].Doc? && t.NodePort?
    ensures LocateInService(Skeleton(docs), d, t) == LocateInService(docs, d, t)
  {
    var spec := docs[d].spec;
    if spec.Some? && spec.value.ports.Some? {
      BareFindPort(spec.value.ports.value, t.number, t.protocol);
    }
  }

  // Where a mapping leads does not depend on any hostPort or nodePort.
  lemma LocateSeesSkeleton(docs: seq<Doc>, t: Target)
    ensures Locate(Skeleton(docs), t) == Locate(docs, t)
  {
    match t
    case HostPort(kind, name, namespace, _, _, _) =>
      BareFindResource(docs, kind, name, namespace);
      var d := FindResource(docs, kind, name, namespace);
      if d.Ok? {
        BareLocateInWorkload(docs, d.value, t);
      }
    case NodePort(name, namespace, _, _) =>
      BareFindResource(docs, "Service", name, namespace);
      var d := FindResource(docs, "Service", name, namespace);
      if d.Ok? {
        BareLocateInService(docs, d.value, t);
      }
  }

  /* Setting one value. */

  lemma BareSetItem(items: Items, i: nat, port: int)
    requires ItemAt(items, i)
    ensures BareItems(SetItem(items, i, port)) == BareItems(items)
  {
    assert BareItems(SetItem(items, i, port)).value == BareItems(items).value;
  }

  lemma SetKeepsSkeleton(docs: seq<Doc>, p: Place, port: int)
    requires ValidPlace(docs, p)
    ensures Skeleton(SetAt(docs, p, port)) == Skeleton(docs)
  {
    var spec, now := docs[p.doc].spec.value, SetAt(docs, p, port)[p.doc].spec.value;
    match p
    case InContainer(_, c, i) =>
      BareSetItem(spec.template.containers[c].ports, i, port);
      assert BareTemplate(now.template) == BareTemplate(spec.template);
    case InService(_, i) => BareSetItem(spec.ports, i, port);
  }

  lemma PlacesOfSkeleton(docs: seq<Doc>, p: Place)
    ensures ValidPlace(Skeleton(docs), p) <==> ValidPlace(docs, p)
  {
  }

  lemma SamePlaces(docs: seq<Doc>, now: seq<Doc>, p: Place)
    requires Skeleton(now) == Skeleton(docs) && ValidPlace(docs, p)
    ensures ValidPlace(now, p)
  {
    PlacesOfSkeleton(docs, p);
    PlacesOfSkeleton(now, p);
  }

  lemma ReadAfterSet(docs: seq<Doc>, p: Place, port: int, q: Place)
    requires ValidPlace(docs, p) && ValidPlace(docs, q)
    ensures ValidPlace(SetAt(docs, p, port), q)
    ensures Read(SetAt(docs, p, port), q) == if q == p then Some(port) else Read(docs, q)
  {
    SetKeepsSkeleton(docs, p, port);
    SamePlaces(docs, SetAt(docs, p, port), q);
  }

  /* The planning loops. */

  // The place and port of a mapping, judged on the original documents.
  ghost predicate Asks(docs: seq<Doc>, w: Wanted, ports: map<string, nat>, p: Place) {
    Locate(docs, w.target) == Ok(p) && w.allocation in ports
  }

  // The last mapping of an entry wins.
  function ValueAt(docs: seq<Doc>, ws: seq<Wanted>, ports: map<string, nat>, p: Place): Option<int>
    requires ValidPlace(docs, p)
  {
    if ws == [] then Read(docs, p)
    else
      var w := ws[|ws| - 1];
      if Locate(docs, w.target) == Ok(p) && w.allocation in ports then Some(ports[w.allocation])
      else ValueAt(docs, ws[..|ws| - 1], ports, p)
  }

  // Between two versions of the documents only hostPort and nodePort values may differ.
  ghost predicate Reads(docs: seq<Doc>, ws: seq<Wanted>, ports: map<string, nat>, now: seq<Doc>) {
    && Skeleton(now) == Skeleton(docs)
    && forall p :: ValidPlace(docs, p) ==> ValidPlace(now, p) && Read(now, p) == ValueAt(docs, ws, ports, p)
  }

  lemma SameSkeletonSameLocate(docs: seq<Doc>, now: seq<Doc>, t: Target)
    requires Skeleton(now) == Skeleton(docs)
    ensures Locate(now, t) == Locate(docs, t)
  {
    LocateSeesSkeleton(docs, t);
    LocateSeesSkeleton(now, t);
  }

  lemma OneMoreReads(docs: seq<Doc>, ws: seq<Wanted>, ports: map<string, nat>, before: seq<Doc>, now: seq<Doc>)
    requires ws != [] && Reads(docs, ws[..|ws| - 1], ports, before) && ApplyOne(before, ws[|ws| - 1], ports) == Ok(now)
    ensures Reads(docs, ws, ports, now)
  {
    var w := ws[|ws| - 1];
    SameSkeletonSameLocate(docs, before, w.target);
    var place, port := Locate(before, w.target).value, ports[w.allocation];
    SetKeepsSkeleton(before, place, port);
    forall p | ValidPlace(docs, p) ensures ValidPlace(now, p) && Read(now, p) == ValueAt(docs, ws, ports, p) {
      ReadAfterSet(before, place, port, p);
    }
  }

  lemma LastApplied(docs: seq<Doc>, ws: seq<Wanted>, ports: map<string, nat>) returns (before: seq<Doc>)
    requires ws != [] && ApplyAll(docs, ws, ports).Ok?
    ensures ApplyAll(docs, ws[..|ws| - 1], ports) == Ok(before)
    ensures ApplyOne(before, ws[|ws| - 1], ports) == ApplyAll(docs, ws, ports)
  {
    before := ApplyAll(docs, ws[..|ws| - 1], ports).value;
  }

  // Everything the planning loops do: identities and match fields stay, and each entry
  // holds the port of the last mapping located there in the original, or what it held.
  lemma {:induction false} PlannedDocuments(docs: seq<Doc>, ws: seq<Wanted>, ports: map<string, nat>)
    requires ApplyAll(docs, ws, ports).Ok?
    ensures Reads(docs, ws, ports, ApplyAll(docs, ws, ports).value)
  {
    if ws == [] {
      ReadsUnchanged(docs, ports);
    } else {
      var before := LastApplied(docs, ws, ports);
      PlannedDocuments(docs, ws[..|ws| - 1], ports);
      OneMoreReads(docs, ws, ports, before, ApplyAll(docs, ws, ports).value);
    }
  }

  lemma ReadsUnchanged(docs: seq<Doc>, ports: map<string, nat>)
    ensures Reads(docs, [], ports, docs)
  {
  }

  ghost predicate Applicable(docs: seq<Doc>, w: Wanted, ports: map<string, nat>) {
    && Locate(docs, w.target).Ok?
    && w.allocation in ports
    && (w.target.NodePort? ==> NODE_PORT_LOW <= ports[w.allocation] <= NODE_PORT_HIGH)
  }

  ghost predicate AllApplicable(docs: seq<Doc>, ws: seq<Wanted>, ports: map<string, nat>) {
    forall k :: 0 <= k < |ws| ==> Applicable(docs, ws[k], ports)
  }

  lemma OneMoreIff(docs: seq<Doc>, before: seq<Doc>, w: Wanted, ports: map<string, nat>)
    requires Skeleton(before) == Skeleton(docs)
    ensures ApplyOne(before, w, ports).Ok? <==> Applicable(docs, w, ports)
  {
    SameSkeletonSameLocate(docs, before, w.target);
  }

  lemma AllApplicableSnoc(docs: seq<Doc>, ws: seq<Wanted>, w: Wanted, ports: map<string, nat>)
    ensures AllApplicable(docs, ws + [w], ports) <==> AllApplicable(docs, ws, ports) && Applicable(docs, w, ports)
  {
    assert forall k :: 0 <= k < |ws| ==> (ws + [w])[k] == ws[k];
    assert (ws + [w])[|ws|] == w;
  }

  lemma {:induction false} AppliesIff(docs: seq<Doc>, ws: seq<Wanted>, ports: map<string, nat>)
    ensures ApplyAll(docs, ws, ports).Ok? <==> AllApplicable(docs, ws, ports)
  {
    if ws != [] {
      var init, w := ws[..|ws| - 1], ws[|ws| - 1];
      AppliesIff(docs, init, ports);
      AllApplicableSnoc(docs, init, w, ports);
      assert ws == init + [w];
      if ApplyAll(docs, init, ports).Ok? {
        PlannedDocuments(docs, init, ports);
        OneMoreIff(docs, ApplyAll(docs, init, ports).value, w, ports);
      }
    }
  }

  // What a mapping needs of the original documents: its allocation, a port its kind allows,
  // and the one entry it describes.
  ghost predicate Plannable(docs: seq<Doc>, w: Wanted, ports: map<string, nat>) {
    && w.allocation in ports
    && (w.target.NodePort? ==> 30000 <= ports[w.allocation] <= 32767)
    && exists p :: TheEntry(docs, w.target, p)
  }

  ghost predicate AllPlannable(docs: seq<Doc>, ws: seq<Wanted>, ports: map<string, nat>) {
    forall k :: 0 <= k < |ws| ==> Plannable(docs, ws[k], ports)
  }

  lemma PlannableIff(docs: seq<Doc>, w: Wanted, ports: map<string, nat>)
    ensures Plannable(docs, w, ports) <==> Applicable(docs, w, ports)
  {
    hide Locate, TheEntry;
    var found := Locate(docs, w.target);
    if found.Ok? {
      LocateIff(docs, w.target, found.value);
    }
    forall p | TheEntry(docs, w.target, p) ensures found == Ok(p) {
      LocateIff(docs, w.target, p);
    }
  }

  // Planning a file succeeds exactly if each of its mappings could be applied alone.
  lemma PlanSucceedsIff(docs: seq<Doc>, ws: seq<Wanted>, ports: map<string, nat>)
    ensures ApplyAll(docs, ws, ports).Ok? <==> AllPlannable(docs, ws, ports)
  {
    hide ApplyAll, Plannable, Applicable;
    AppliesIff(docs, ws, ports);
    forall k | 0 <= k < |ws| ensures Plannable(docs, ws[k], ports) <==> Applicable(docs, ws[k], ports) {
      PlannableIff(docs, ws[k], ports);
    }
  }

  // The error of a mapping that cannot be planned.
  ghost predicate MappingFails(docs: seq<Doc>, w: Wanted, ports: map<string, nat>, e: KubernetesError) {
    if w.allocation !in ports then e == UnknownAllocation
    else if w.target.NodePort? && !(30000 <= ports[w.allocation] <= 32767) then e == NodePortOutOfRange
    else Fails(docs, w.target, e)
  }

  lemma MappingError(docs: seq<Doc>, before: seq<Doc>, w: Wanted, ports: map<string, nat>, e: KubernetesError)
    requires Skeleton(before) == Skeleton(docs)
    ensures ApplyOne(before, w, ports) == Err(e) <==> MappingFails(docs, w, ports, e)
  {
    hide Locate, Fails, Skeleton;
    SameSkeletonSameLocate(docs, before, w.target);
    LocateErrorIff(docs, w.target, e);
  }

  // A plan fails with what is wrong, in the original documents, with its first mapping that
  // could not be applied alone.
  lemma PlanFailsIff(docs: seq<Doc>, ws: seq<Wanted>, ports: map<string, nat>, e: KubernetesError)
    ensures ApplyAll(docs, ws, ports) == Err(e) <==>
      exists k :: 0 <= k < |ws| && AllPlannable(docs, ws[..k], ports) && MappingFails(docs, ws[k], ports, e)
  {
    hide ApplyAll, AllPlannable, MappingFails;
    if ApplyAll(docs, ws, ports) == Err(e) {
      var k := FirstFailure(docs, ws, ports);
      FailsAt(docs, ws, k, ports, e);
    }
    forall k | 0 <= k < |ws| && AllPlannable(docs, ws[..k], ports) && MappingFails(docs, ws[k], ports, e)
      ensures ApplyAll(docs, ws, ports) == Err(e)
    {
      FailsAt(docs, ws, k, ports, e);
    }
  }

  lemma FailsAt(docs: seq<Doc>, ws: seq<Wanted>, k: nat, ports: map<string, nat>, e: KubernetesError)
    requires k < |ws| && AllPlannable(docs, ws[..k], ports)
    ensures MappingFails(docs, ws[k], ports, e) ==> ApplyAll(docs, ws, ports) == Err(e)
    ensures ApplyAll(docs, ws[..k + 1], ports).Err? && ApplyAll(docs, ws, ports) == Err(e) ==>
      MappingFails(docs, ws[k], ports, e)
  {
    hide ApplyAll, ApplyOne, AllPlannable, MappingFails, Skeleton;
    PlanSucceedsIff(docs, ws[..k], ports);
    PlannedDocuments(docs, ws[..k], ports);
    ApplyNext(docs, ws, k, ports);
    MappingError(docs, ApplyAll(docs, ws[..k], ports).value, ws[k], ports, e);
  }

  lemma NothingFails(docs: seq<Doc>, ports: map<string, nat>)
    ensures ApplyAll(docs, [], ports).Ok?
  {
  }

  lemma FirstFailure(docs: seq<Doc>, ws: seq<Wanted>, ports: map<string, nat>) returns (k: nat)
    requires ApplyAll(docs, ws, ports).Err?
    ensures k < |ws| && AllPlannable(docs, ws[..k], ports) && ApplyAll(docs, ws[..k + 1], ports).Err?
  {
    hide ApplyAll, AllPlannable;
    NothingFails(docs, ports);
    assert ws[..|ws|] == ws;
    k := 0;
    while ApplyAll(docs, ws[..k + 1], ports).Ok?
      invariant k < |ws| && ApplyAll(docs, ws[..k], ports).Ok?
      decreases |ws| - k
    {
      k := k + 1;
    }
    PlanSucceedsIff(docs, ws[..k], ports);
  }

  lemma {:induction false} OwnValue(docs: seq<Doc>, ws: seq<Wanted>, ports: map<string, nat>, k: nat, p: Place)
    requires k < |ws| && Asks(docs, ws[k], ports, p) && ValidPlace(docs, p)
    requires forall j :: k < j < |ws| ==> !Asks(docs, ws[j], ports, p)
    ensures ValueAt(docs, ws, ports, p) == Some(ports[ws[k].allocation])
  {
    if k < |ws| - 1 {
      OwnValue(docs, ws[..|ws| - 1], ports, k, p);
    }
  }

  // An entry ends with the port of the last mapping that names it, whatever the others are.
  lemma EveryPortPlanned(docs: seq<Doc>, ws: seq<Wanted>, ports: map<string, nat>, k: nat)
    requires ApplyAll(docs, ws, ports).Ok? && k < |ws|
    requires forall j :: k < j < |ws| ==> !Alias(ws[k].target, ws[j].target)
    ensures Served(ApplyAll(docs, ws, ports).value, ws[k], ports)
    ensures ws[k].target.NodePort? ==> 30000 <= ports[ws[k].allocation] <= 32767
  {
    hide Locate, TheEntry, Read, ValidPlace, Skeleton, ApplyAll;
    var now := ApplyAll(docs, ws, ports).value;
    AppliesIff(docs, ws, ports);
    assert Applicable(docs, ws[k], ports);
    var p := Locate(docs, ws[k].target).value;
    forall j | k < j < |ws| ensures !Asks(docs, ws[j], ports, p) {
      assert Applicable(docs, ws[j], ports);
      NamespaceAliases(docs, ws[k].target, ws[j].target);
    }
    PlannedDocuments(docs, ws, ports);
    SameSkeletonSameLocate(docs, now, ws[k].target);
    OwnValue(docs, ws, ports, k, p);
    ServedIff(now, ws[k], ports);
  }

  // The mapping's allocated port is what its entry holds.
  ghost predicate Served(now: seq<Doc>, w: Wanted, ports: map<string, nat>) {
    && w.allocation in ports
    && exists p :: TheEntry(now, w.target, p) && ValidPlace(now, p) && Read(now, p) == Some(ports[w.allocation])
  }

  lemma ServedIff(now: seq<Doc>, w: Wanted, ports: map<string, nat>)
    ensures Served(now, w, ports) <==>
      && w.allocation in ports && Locate(now, w.target).Ok?
      && Read(now, Locate(now, w.target).value) == Some(ports[w.allocation])
  {
    hide Locate, TheEntry, Read, ValidPlace;
    var found := Locate(now, w.target);
    if found.Ok? {
      LocateIff(now, w.target, found.value);
    }
    forall p | TheEntry(now, w.target, p) ensures found == Ok(p) {
      LocateIff(now, w.target, p);
    }
  }

  // Mappings that name one entry want one port.
  ghost predicate AliasesAgree(ws: seq<Wanted>, ports: map<string, nat>) {
    forall j, k :: 0 <= j < k < |ws| && Alias(ws[j].target, ws[k].target) ==> SamePort(ws[j], ws[k], ports)
  }

  predicate SamePort(v: Wanted, w: Wanted, ports: map<string, nat>) {
    v.allocation in ports && w.allocation in ports && ports[v.allocation] == ports[w.allocation]
  }

  lemma FindLast(docs: seq<Doc>, ws: seq<Wanted>, ports: map<string, nat>, k: nat, p: Place) returns (l: nat)
    requires k < |ws| && Asks(docs, ws[k], ports, p)
    ensures k <= l < |ws| && Asks(docs, ws[l], ports, p)
    ensures forall j :: l < j < |ws| ==> !Asks(docs, ws[j], ports, p)
  {
    hide Asks;
    l := |ws| - 1;
    while !Asks(docs, ws[l], ports, p)
      invariant k <= l < |ws|
      invariant forall j :: l < j < |ws| ==> !Asks(docs, ws[j], ports, p)
      decreases l
    {
      l := l - 1;
    }
  }

  lemma HeldValue(docs: seq<Doc>, ws: seq<Wanted>, ports: map<string, nat>, k: nat) returns (l: nat)
    requires ApplyAll(docs, ws, ports).Ok? && k < |ws|
    ensures k <= l < |ws| && (l == k || Alias(ws[k].target, ws[l].target))
    ensures var now := ApplyAll(docs, ws, ports).value;
      && Locate(now, ws[k].target).Ok? && ws[k].allocation in ports && ws[l].allocation in ports
      && Read(now, Locate(now, ws[k].target).value) == Some(ports[ws[l].allocation])
  {
    hide Locate, Read, ValidPlace, Skeleton, ApplyAll;
    var now := ApplyAll(docs, ws, ports).value;
    AppliesIff(docs, ws, ports);
    PlannedDocuments(docs, ws, ports);
    assert Applicable(docs, ws[k], ports);
    var p := Locate(docs, ws[k].target).value;
    l := FindLast(docs, ws, ports, k, p);
    assert Applicable(docs, ws[l], ports);
    NamespaceAliases(docs, ws[k].target, ws[l].target);
    SameSkeletonSameLocate(docs, now, ws[k].target);
    OwnValue(docs, ws, ports, l, p);
  }

  lemma BothServed(docs: seq<Doc>, ws: seq<Wanted>, ports: map<string, nat>, j: nat, k: nat)
    requires ApplyAll(docs, ws, ports).Ok? && j < k < |ws| && Alias(ws[j].target, ws[k].target)
    requires Served(ApplyAll(docs, ws, ports).value, ws[j], ports)
    requires Served(ApplyAll(docs, ws, ports).value, ws[k], ports)
    ensures SamePort(ws[j], ws[k], ports)
  {
    hide Locate, Read, ApplyAll, Served;
    var now := ApplyAll(docs, ws, ports).value;
    ServedIff(now, ws[j], ports);
    ServedIff(now, ws[k], ports);
    NamespaceAliases(now, ws[j].target, ws[k].target);
  }

  // After a plan every mapping's entry holds that mapping's port, exactly if mappings that
  // name one entry want one port.
  lemma EachMappingServedIff(docs: seq<Doc>, ws: seq<Wanted>, ports: map<string, nat>)
    requires ApplyAll(docs, ws, ports).Ok?
    ensures AliasesAgree(ws, ports) <==>
      forall k :: 0 <= k < |ws| ==> Served(ApplyAll(docs, ws, ports).value, ws[k], ports)
  {
    hide ApplyAll, Served, Alias, SamePort;
    var now := ApplyAll(docs, ws, ports).value;
    if AliasesAgree(ws, ports) {
      forall k | 0 <= k < |ws| ensures Served(now, ws[k], ports) {
        ServedIfAgreed(docs, ws, ports, k);
      }
    }
    if forall k :: 0 <= k < |ws| ==> Served(now, ws[k], ports) {
      forall j, k | 0 <= j < k < |ws| && Alias(ws[j].target, ws[k].target) ensures SamePort(ws[j], ws[k], ports) {
        BothServed(docs, ws, ports, j, k);
      }
    }
  }

  lemma ServedIfAgreed(docs: seq<Doc>, ws: seq<Wanted>, ports: map<string, nat>, k: nat)
    requires ApplyAll(docs, ws, ports).Ok? && AliasesAgree(ws, ports) && k < |ws|
    ensures Served(ApplyAll(docs, ws, ports).value, ws[k], ports)
  {
    hide Locate, Read, ApplyAll, Alias, Served;
    var l := HeldValue(docs, ws, ports, k);
    ServedIff(ApplyAll(docs, ws, ports).value, ws[k], ports);
    if l != k {
      assert SamePort(ws[k], ws[l], ports);
    }
  }

  /* Planning again. */

  lemma SameItems(a: Items, b: Items)
    requires BareItems(a) == BareItems(b)
    requires forall i: nat :: ItemAt(a, i) && ItemAt(b, i) ==> a.value[i].published == b.value[i].published
    ensures a == b
  {
    if a.Some? {
      forall i | 0 <= i < |a.value| ensures a.value[i] == b.value[i] {
        assert BareItems(a).value[i] == BareItems(b).value[i];
      }
      assert a.value == b.value;
    }
  }

  lemma SameDoc(docs: seq<Doc>, now: seq<Doc>, d: nat)
    requires Skeleton(now) == Skeleton(docs) && d < |docs|
    requires forall p :: ValidPlace(docs, p) && ValidPlace(now, p) ==> Read(now, p) == Read(docs, p)
    ensures now[d] == docs[d]
  {
    assert Skeleton(now)[d] == Skeleton(docs)[d];
    if docs[d].Doc? && docs[d].spec.Some? {
      var a, b := docs[d].spec.value, now[d].spec.value;
      forall i: nat | ItemAt(a.ports, i) &&
          ItemAt(b.ports, i) ensures a.ports.value[i].published == b.ports.value[i].published {
        assert Read(now, InService(d, i)) == Read(docs, InService(d, i));
      }
      SameItems(a.ports, b.ports);
      SameTemplate(docs, now, d);
    }
  }

  lemma SameTemplate(docs: seq<Doc>, now: seq<Doc>, d: nat)
    requires Skeleton(now) == Skeleton(docs) && d < |docs| && docs[d].Doc? && docs[d].spec.Some?
    requires now[d].Doc? && now[d].spec.Some? &&
        BareTemplate(now[d].spec.value.template) == BareTemplate(docs[d].spec.value.template)
    requires forall p :: ValidPlace(docs, p) && ValidPlace(now, p) ==> Read(now, p) == Read(docs, p)
    ensures now[d].spec.value.template == docs[d].spec.value.template
  {
    var a, b := docs[d].spec.value.template, now[d].spec.value.template;
    if a.Template? {
      forall c | 0 <= c < |a.containers| ensures a.containers[c] == b.containers[c] {
        assert BareTemplate(a).containers[c] == BareTemplate(b).containers[c];
        if a.containers[c].Container? {
          forall i: nat | ItemAt(a.containers[c].ports, i) && ItemAt(b.containers[c].ports, i)
            ensures a.containers[c].ports.value[i].published == b.containers[c].ports.value[i].published
          {
            assert Read(now, InContainer(d, c, i)) == Read(docs, InContainer(d, c, i));
          }
          SameItems(a.containers[c].ports, b.containers[c].ports);
        }
      }
      assert a.containers == b.containers;
    }
  }

  lemma ValueLast(docs: seq<Doc>, ws: seq<Wanted>, n: nat,
                                        ports: map<string, nat>, p: Place)
    requires 0 < n <= |ws| && ValidPlace(docs, p)
    ensures ValueAt(docs, ws[..n], ports, p) ==
      if Asks(docs, ws[n - 1], ports, p) then Some(ports[ws[n - 1].allocation])
      else ValueAt(docs, ws[..n - 1], ports, p)
  {
    assert ws[..n][..n - 1] == ws[..n - 1];
  }

  lemma {:induction false} ValueAgain(docs: seq<Doc>, now: seq<Doc>, ws: seq<Wanted>, n: nat,
                                        ports: map<string, nat>, p: Place)
    requires n <= |ws| && Skeleton(now) == Skeleton(docs) && ValidPlace(docs, p) && ValidPlace(now, p)
    requires Read(now, p) == ValueAt(docs, ws[..n], ports, p)
    ensures ValueAt(now, ws[..n], ports, p) == Read(now, p)
  {
    hide Locate, Skeleton, ValidPlace;
    if n > 0 {
      ValueLast(docs, ws, n, ports, p);
      ValueLast(now, ws, n, ports, p);
      SameSkeletonSameLocate(docs, now, ws[n - 1].target);
      if !Asks(docs, ws[n - 1], ports, p) {
        ValueAgain(docs, now, ws, n - 1, ports, p);
      }
    }
  }

  // Planning again for the same ports succeeds and changes nothing.
  lemma ReplanChangesNothing(docs: seq<Doc>, ws: seq<Wanted>, ports: map<string, nat>)
    requires ApplyAll(docs, ws, ports).Ok?
    ensures ApplyAll(ApplyAll(docs, ws, ports).value, ws, ports) == Ok(ApplyAll(docs, ws, ports).value)
  {
    var now := ApplyAll(docs, ws, ports).value;
    PlannedDocuments(docs, ws, ports);
    AppliesIff(docs, ws, ports);
    AppliesIff(now, ws, ports);
    forall k | 0 <= k < |ws| ensures Applicable(now, ws[k], ports) {
      assert Applicable(docs, ws[k], ports);
      SameSkeletonSameLocate(docs, now, ws[k].target);
    }
    var again := ApplyAll(now, ws, ports).value;
    PlannedDocuments(now, ws, ports);
    SameAgain(docs, now, again, ws, ports);
  }

  lemma SameAgain(docs: seq<Doc>, now: seq<Doc>, again: seq<Doc>, ws: seq<Wanted>, ports: map<string, nat>)
    requires Reads(docs, ws, ports, now) && Reads(now, ws, ports, again)
    ensures again == now
  {
    assert ws[..|ws|] == ws;
    forall p | ValidPlace(now, p) && ValidPlace(again, p) ensures Read(again, p) == Read(now, p) {
      SamePlaces(now, docs, p);
      ValueAgain(docs, now, ws, |ws|, ports, p);
    }
    assert |Skeleton(again)| == |Skeleton(now)|;
    forall d | 0 <= d < |now| ensures again[d] == now[d] {
      SameDoc(now, again, d);
    }
  }

  /* What being located means. */

  // The port entry a mapping describes, whichever way it is looked for.
  ghost predicate Describes(docs: seq<Doc>, t: Target, p: Place) {
    && ValidPlace(docs, p)
    && var spec := docs[p.doc].spec.value;
       match t
       case HostPort(kind, name, namespace, container, number, protocol) =>
         && p.InContainer? && kind in {"Deployment", "StatefulSet"} && IsResource(docs[p.doc], kind, name, namespace)
         && spec.template.containers[p.container].name == Some(container)
         && IsPort(spec.template.containers[p.container].ports.value[p.item], number, protocol)
       case NodePort(name, namespace, number, protocol) =>
         && p.InService? && IsResource(docs[p.doc], "Service", name, namespace)
         && spec.serviceType in {Some("NodePort"), Some("LoadBalancer")}
         && IsPort(spec.ports.value[p.item], number, protocol)
  }

  lemma {:induction false} OnlyIndex<T>(xs: seq<T>, p: T -> bool, i: nat)
    requires |Indices(xs, p)| == 1 && i < |xs| && p(xs[i])
    ensures Indices(xs, p)[0] == i
  {
    IndicesComplete(xs, p, i);
  }

  lemma OnlyResource(docs: seq<Doc>, kind: string, name: string, namespace: Option<string>, d: nat)
    requires FindResource(docs, kind, name, namespace).Ok? && d < |docs| && IsResource(docs[d], kind, name, namespace)
    ensures FindResource(docs, kind, name, namespace) == Ok(d)
  {
    OnlyIndex(docs, x => IsResource(x, kind, name, namespace), d);
  }

  lemma OnlyPort(items: seq<PortItem>, number: int, protocol: string, i: nat)
    requires FindPort(items, number, protocol).Ok? && i < |items| && IsPort(items[i], number, protocol)
    ensures FindPort(items, number, protocol) == Ok(i)
  {
    OnlyIndex(items, e => IsPort(e, number, protocol), i);
  }

  lemma OnlyContainer(containers: seq<Container>, name: string, c: nat)
    requires FindContainer(containers, name).Ok?
    requires c < |containers| && containers[c].Container? && containers[c].name == Some(name)
    ensures FindContainer(containers, name) == Ok(c)
  {
    OnlyIndex(containers, (x: Container) => x.Container? && x.name == Some(name), c);
  }

  // What a lookup finds is the one entry of the file that the mapping describes.
  lemma LocateFindsTheOnlyOne(docs: seq<Doc>, t: Target, p: Place)
    requires Locate(docs, t).Ok?
    ensures Describes(docs, t, p) <==> Locate(docs, t) == Ok(p)
  {
    hide IsResource, IsPort, FindPort, FindContainer, FindResource;
    LocateDescribes(docs, t);
    if Describes(docs, t, p) {
      var spec := docs[p.doc].spec.value;
      match t
      case HostPort(kind, name, namespace, container, number, protocol) =>
        OnlyResource(docs, kind, name, namespace, p.doc);
        OnlyContainer(spec.template.containers, container, p.container);
        OnlyPort(ItemsOf(spec.template.containers[p.container].ports), number, protocol, p.item);
      case NodePort(name, namespace, number, protocol) =>
        OnlyResource(docs, "Service", name, namespace, p.doc);
        OnlyPort(spec.ports.value, number, protocol, p.item);
    }
  }

  lemma LocateDescribes(docs: seq<Doc>, t: Target)
    requires Locate(docs, t).Ok?
    ensures Describes(docs, t, Locate(docs, t).value)
  {
    hide IsResource, IsPort, Indices;
    if t.HostPort? {
      var d := FindResource(docs, t.kind, t.name, t.namespace).value;
      NamedContainer(docs[d].spec.value.template.containers, t.container);
    }
  }

  lemma NamedContainer(containers: seq<Container>, name: string)
    requires FindContainer(containers, name).Ok?
    ensures containers[FindContainer(containers, name).value].name == Some(name)
  {
  }

  /* The duplicate check of the manifest compares namespaces literally. */

  lemma {:induction false} IndicesComplete<T>(xs: seq<T>, p: T -> bool, i: nat)
    requires i < |xs| && p(xs[i])
    ensures i in Indices(xs, p)
  {
    if i < |xs| - 1 {
      IndicesComplete(xs[..|xs| - 1], p, i);
    }
  }

  // Two mappings alike but for their namespaces, which are equal or of which one is missing.
  ghost predicate Alias(t: Target, u: Target) {
    && (t.namespace == u.namespace || t.namespace == None || u.namespace == None)
    && match t
       case HostPort(kind, name, _, container, number, protocol) =>
         && u.HostPort? && u.kind == kind && u.name == name && u.container == container
         && u.number == number && UpperAll(u.protocol) == UpperAll(protocol)
       case NodePort(name, _, number, protocol) =>
         u.NodePort? && u.name == name && u.number == number && UpperAll(u.protocol) == UpperAll(protocol)
  }

  // Of two mappings that are found, both are found at one entry exactly if they are aliases.
  lemma NamespaceAliases(docs: seq<Doc>, t: Target, u: Target)
    requires Locate(docs, t).Ok? && Locate(docs, u).Ok?
    ensures Locate(docs, t) == Locate(docs, u) <==> Alias(t, u)
  {
    hide Locate;
    var p, q := Locate(docs, t).value, Locate(docs, u).value;
    LocateFindsTheOnlyOne(docs, t, p);
    LocateFindsTheOnlyOne(docs, u, q);
    LocateFindsTheOnlyOne(docs, t, q);
    LocateFindsTheOnlyOne(docs, u, p);
  }

  function TwoNames(): (Target, Target) {
    (NodePort("web", None, 80, "tcp"), NodePort("web", Some("shop"), 80, "tcp"))
  }

  function OneService(): seq<Doc> {
    [Doc(Some("Service"), Some(Metadata(Some("web"), Some("shop"), map[])),
         Some(Spec(Some("NodePort"), Some([PortItem(Some(80), None, None, map[])]), NoTemplate, map[])), map[])]
  }

  function TwoWanted(): seq<Wanted> {
    [Wanted(TwoNames().0, "a"), Wanted(TwoNames().1, "b")]
  }

  function TwoPorts(): map<string, nat> {
    map["a" := 30001, "b" := 30002]
  }

  lemma BothNamesPlan()
    ensures ApplyAll(OneService(), TwoWanted(), TwoPorts()).Ok?
  {
    hide Locate, ApplyAll;
    OneServiceFound(TwoNames().0);
    OneServiceFound(TwoNames().1);
    AppliesIff(OneService(), TwoWanted(), TwoPorts());
    assert Applicable(OneService(), TwoWanted()[0], TwoPorts());
    assert Applicable(OneService(), TwoWanted()[1], TwoPorts());
  }

  // A file and two mappings that are no duplicates for the manifest, for two allocations:
  // planning succeeds, and the port of the first is nowhere in the file.
  lemma AliasesLoseAPort()
    ensures var t, u := TwoNames().0, TwoNames().1;
      var planned := ApplyAll(OneService(), TwoWanted(), TwoPorts());
      && t != u && Alias(t, u) && planned.Ok?
      && Locate(planned.value, t).Ok? && Read(planned.value, Locate(planned.value, t).value) == Some(30002)
  {
    hide Locate, ApplyAll, Read, ValidPlace, TheEntry, Served, OneService, Skeleton, Alias;
    var t, u, ws, ports := TwoNames().0, TwoNames().1, TwoWanted(), TwoPorts();
    BothNamesPlan();
    var now := ApplyAll(OneService(), ws, ports).value;
    EveryPortPlanned(OneService(), ws, ports, 1);
    ServedIff(now, ws[1], ports);
    PlannedDocuments(OneService(), ws, ports);
    OneServiceFound(t);
    OneServiceFound(u);
    SameSkeletonSameLocate(OneService(), now, t);
    SameSkeletonSameLocate(OneService(), now, u);
    NamesAlias();
  }

  lemma NamesAlias()
    ensures Alias(TwoNames().0, TwoNames().1)
  {
  }

  lemma OneServiceFound(t: Target)
    requires t in {TwoNames().0, TwoNames().1}
    ensures Locate(OneService(), t) == Ok(InService(0, 0))
  {
    var docs := OneService();
    var items := docs[0].spec.value.ports.value;
    SingleIndex(docs, d => IsResource(d, "Service", t.name, t.namespace));
    assert UpperAll("TCP") == UpperAll("tcp");
    SingleIndex(items, e => IsPort(e, t.number, t.protocol));
  }

  lemma SingleIndex<T>(xs: seq<T>, p: T -> bool)
    requires |xs| == 1 && p(xs[0])
    ensures Indices(xs, p) == [0]
  {
    assert xs[..0] == [];
    assert Indices(xs[..0], p) == [];
  }
}
