// When the Kubernetes editor finds the port entry of a mapping, and what it says when it
// does not, told by counting what a file holds.
module KubernetesLookup {
  import opened Wrappers
  import opened Chars
  import opened CharsSpec
  import opened Kubernetes

  /* Counting. */

  ghost function Where<T>(xs: seq<T>, p: T -> bool): set<int> {
    set i | 0 <= i < |xs| && p(xs[i])
  }

  lemma WhereSnoc<T>(xs: seq<T>, p: T -> bool)
    requires xs != []
    ensures var init, last := Where(xs[..|xs| - 1], p), |xs| - 1;
      last !in init && Where(xs, p) == if p(xs[last]) then init + {last} else init
  {
  }

  lemma {:induction false} IndicesAre<T>(xs: seq<T>, p: T -> bool)
    ensures |Indices(xs, p)| == |Where(xs, p)|
    ensures forall i :: i in Where(xs, p) <==> i in Indices(xs, p)
  {
    hide Where;
    if xs == [] {
      assert Where(xs, p) == {} by {
        NoneWhere(p);
      }
    } else {
      IndicesAre(xs[..|xs| - 1], p);
      WhereSnoc(xs, p);
    }
  }

  lemma NoneWhere<T>(p: T -> bool)
    ensures Where([], p) == {}
  {
  }

  lemma OnlyOne(s: set<int>, i: int, j: int)
    requires |s| == 1 && i in s && j in s
    ensures i == j
  {
    assert |s - {i}| == 0;
    assert j == i || j in s - {i};
  }

  /* What a mapping describes. */

  // A namespace counts only if the mapping gives one.
  ghost predicate Named(d: Doc, kind: string, name: string, namespace: Option<string>) {
    && d.Doc? && d.kind == Some(kind) && d.metadata.Some? && d.metadata.value.name == Some(name)
    && (namespace.Some? ==> d.metadata.value.namespace == namespace)
  }

  // An entry without a protocol is a TCP one; protocols are compared without regard to case.
  ghost predicate Numbered(e: PortItem, number: int, protocol: string) {
    && e.PortItem? && e.number == Some(number)
    && AlikeButCase(match e.protocol case None => "TCP" case Some(p) => p, protocol)
  }

  ghost function Resources(docs: seq<Doc>, kind: string, name: string, namespace: Option<string>): set<int> {
    set i | 0 <= i < |docs| && Named(docs[i], kind, name, namespace)
  }

  ghost function ContainersOf(cs: seq<Container>, name: string): set<int> {
    set i | 0 <= i < |cs| && cs[i].Container? && cs[i].name == Some(name)
  }

  // No list of ports is an empty one.
  ghost function PortsOf(items: Items, number: int, protocol: string): set<int> {
    set i | items.Some? && 0 <= i < |items.value| && Numbered(items.value[i], number, protocol)
  }

  lemma ResourceIs(d: Doc, kind: string, name: string, namespace: Option<string>)
    ensures IsResource(d, kind, name, namespace) <==> Named(d, kind, name, namespace)
  {
  }

  lemma PortIs(e: PortItem, number: int, protocol: string)
    ensures IsPort(e, number, protocol) <==> Numbered(e, number, protocol)
  {
    hide UpperAll, AlikeButCase;
    if e.PortItem? {
      CaseIff(if e.protocol.Some? then e.protocol.value else "TCP", protocol);
    }
  }

  /* The three searches. */

  ghost predicate Finds(found: Result<nat, KubernetesError>, s: set<int>, none: KubernetesError,
                        many: KubernetesError) {
    && (|s| == 0 ==> found == Err(none))
    && (|s| > 1 ==> found == Err(many))
    && (|s| == 1 ==> found.Ok? && found.value in s)
  }

  lemma FindsResource(docs: seq<Doc>, kind: string, name: string, namespace: Option<string>)
    ensures var s := Resources(docs, kind, name, namespace);
      Finds(FindResource(docs, kind, name, namespace), s, ResourceNotFound, ResourceAmbiguous(|s|))
  {
    hide IsResource, Named;
    var p := d => IsResource(d, kind, name, namespace);
    IndicesAre(docs, p);
    forall i | 0 <= i < |docs| ensures p(docs[i]) <==> Named(docs[i], kind, name, namespace) {
      ResourceIs(docs[i], kind, name, namespace);
    }
    assert Where(docs, p) == Resources(docs, kind, name, namespace);
    var found := Indices(docs, p);
    assert |found| > 0 ==> found[0] in found;
  }

  lemma FindsContainer(cs: seq<Container>, name: string)
    ensures Finds(FindContainer(cs, name), ContainersOf(cs, name), ContainerNotFound, ContainerAmbiguous)
  {
    var p := (c: Container) => c.Container? && c.name == Some(name);
    IndicesAre(cs, p);
    assert Where(cs, p) == ContainersOf(cs, name);
    var found := Indices(cs, p);
    assert |found| > 0 ==> found[0] in found;
  }

  lemma FindsPort(items: seq<PortItem>, number: int, protocol: string)
    ensures var s := PortsOf(Some(items), number, protocol);
      Finds(FindPort(items, number, protocol), s, PortNotFound, PortAmbiguous(|s|))
  {
    hide IsPort, Numbered;
    var p := e => IsPort(e, number, protocol);
    IndicesAre(items, p);
    forall i | 0 <= i < |items| ensures p(items[i]) <==> Numbered(items[i], number, protocol) {
      PortIs(items[i], number, protocol);
    }
    assert Where(items, p) == PortsOf(Some(items), number, protocol);
    var found := Indices(items, p);
    assert |found| > 0 ==> found[0] in found;
  }

  lemma NoPorts(number: int, protocol: string)
    ensures PortsOf(None, number, protocol) == {} == PortsOf(Some([]), number, protocol)
  {
  }

  /* The whole lookup. */

  ghost predicate KindKnown(t: Target) {
    t.HostPort? ==> t.kind == "Deployment" || t.kind == "StatefulSet"
  }

  ghost function Candidates(docs: seq<Doc>, t: Target): set<int> {
    Resources(docs, if t.HostPort? then t.kind else "Service", t.name, t.namespace)
  }

  // The one document of the mapping.
  ghost predicate TheDocument(docs: seq<Doc>, t: Target, d: int) {
    KindKnown(t) && |Candidates(docs, t)| == 1 && d in Candidates(docs, t)
  }

  ghost predicate Templated(d: Doc) {
    d.Doc? && d.spec.Some? && d.spec.value.template.Template?
  }

  // The one container of the mapping, in that document.
  ghost predicate TheContainer(docs: seq<Doc>, t: Target, d: int, c: int) {
    && t.HostPort? && TheDocument(docs, t, d) && Templated(docs[d])
    && var named := ContainersOf(docs[d].spec.value.template.containers, t.container);
       |named| == 1 && c in named
  }

  ghost predicate PublishesNodePorts(d: Doc) {
    d.Doc? && d.spec.Some? &&
    (d.spec.value.serviceType == Some("NodePort") || d.spec.value.serviceType == Some("LoadBalancer"))
  }

  // The list the port of the mapping must be in.
  ghost predicate TheItems(docs: seq<Doc>, t: Target, d: int, c: int, items: Items) {
    if t.HostPort? then TheContainer(docs, t, d, c) && items == docs[d].spec.value.template.containers[c].ports
    else TheDocument(docs, t, d) && PublishesNodePorts(docs[d]) && items == docs[d].spec.value.ports
  }

  // The one port entry of the mapping.
  ghost predicate TheEntry(docs: seq<Doc>, t: Target, p: Place) {
    && p.InContainer? == t.HostPort?
    && exists c, items :: TheItems(docs, t, p.doc, c, items) && (p.InContainer? ==> c == p.container) &&
         |PortsOf(items, t.number, t.protocol)| == 1 && p.item in PortsOf(items, t.number, t.protocol)
  }

  // What is wrong with a mapping that has no one entry.
  ghost predicate Fails(docs: seq<Doc>, t: Target, e: KubernetesError) {
    var n := |Candidates(docs, t)|;
    match e
    case KindUnsupported => !KindKnown(t)
    case ResourceNotFound => KindKnown(t) && n == 0
    case ResourceAmbiguous(matches) => KindKnown(t) && n == matches > 1
    case ParseError =>
      exists d :: TheDocument(docs, t, d) && docs[d].Doc? &&
        if t.HostPort? then !Templated(docs[d]) else docs[d].spec == None
    case ContainerNotFound =>
      exists d :: t.HostPort? && TheDocument(docs, t, d) && Templated(docs[d]) &&
        |ContainersOf(docs[d].spec.value.template.containers, t.container)| == 0
    case ContainerAmbiguous =>
      exists d :: t.HostPort? && TheDocument(docs, t, d) && Templated(docs[d]) &&
        |ContainersOf(docs[d].spec.value.template.containers, t.container)| > 1
    case ServiceTypeUnsupported =>
      exists d :: t.NodePort? && TheDocument(docs, t, d) && docs[d].Doc? && docs[d].spec.Some? &&
        !PublishesNodePorts(docs[d])
    case PortNotFound =>
      exists d, c, items :: TheItems(docs, t, d, c, items) && |PortsOf(items, t.number, t.protocol)| == 0
    case PortAmbiguous(matches) =>
      exists d, c, items :: TheItems(docs, t, d, c, items) && |PortsOf(items, t.number, t.protocol)| == matches > 1
    case NodePortOutOfRange => false
    case UnknownAllocation => false
  }

  /* A lookup step by step. */

  lemma Member(s: set<int>, i: int)
    requires i in s
    ensures |s| > 0
  {
    assert |s - {i}| >= 0;
  }

  function KindOf(t: Target): string {
    if t.HostPort? then t.kind else "Service"
  }

  lemma DocumentFound(docs: seq<Doc>, t: Target, d: int)
    requires TheDocument(docs, t, d)
    ensures 0 <= d < |docs| && docs[d].Doc? && FindResource(docs, KindOf(t), t.name, t.namespace) == Ok(d)
  {
    hide FindResource;
    FindsResource(docs, KindOf(t), t.name, t.namespace);
    OnlyOne(Candidates(docs, t), d, FindResource(docs, KindOf(t), t.name, t.namespace).value);
  }

  lemma ContainerFound(docs: seq<Doc>, t: Target, d: int, c: int)
    requires TheContainer(docs, t, d, c)
    ensures 0 <= d < |docs| && docs[d].Doc? && Templated(docs[d])
    ensures var cs := docs[d].spec.value.template.containers;
      0 <= c < |cs| && FindContainer(cs, t.container) == Ok(c)
  {
    hide FindContainer;
    DocumentFound(docs, t, d);
    var cs := docs[d].spec.value.template.containers;
    FindsContainer(cs, t.container);
    OnlyOne(ContainersOf(cs, t.container), c, FindContainer(cs, t.container).value);
  }

  // Behind the document and the container only the port is left to be found.
  lemma PortLeft(docs: seq<Doc>, t: Target, d: int, c: int, items: Items)
    requires TheItems(docs, t, d, c, items)
    ensures 0 <= d && (t.HostPort? ==> 0 <= c)
    ensures var found := FindPort(ItemsOf(items), t.number, t.protocol);
      Locate(docs, t) ==
        if found.Err? then Err(found.error)
        else Ok(if t.HostPort? then InContainer(d, c, found.value) else InService(d, found.value))
  {
    hide FindPort, FindContainer, FindResource;
    DocumentFound(docs, t, d);
    if t.HostPort? {
      ContainerFound(docs, t, d, c);
    } else if items == None {
      NoneFound(t.number, t.protocol);
    }
  }

  lemma NoneFound(number: int, protocol: string)
    ensures FindPort([], number, protocol) == Err(PortNotFound)
  {
  }

  lemma PortsAre(items: Items, number: int, protocol: string)
    ensures PortsOf(Some(ItemsOf(items)), number, protocol) == PortsOf(items, number, protocol)
  {
    NoPorts(number, protocol);
  }

  lemma PortCounted(items: Items, number: int, protocol: string)
    ensures var s := PortsOf(items, number, protocol);
      Finds(FindPort(ItemsOf(items), number, protocol), s, PortNotFound, PortAmbiguous(|s|))
  {
    PortsAre(items, number, protocol);
    FindsPort(ItemsOf(items), number, protocol);
  }

  /* Exactly one answer is right. */

  ghost predicate Right(docs: seq<Doc>, t: Target, r: Result<Place, KubernetesError>) {
    match r
    case Ok(p) => TheEntry(docs, t, p)
    case Err(e) => Fails(docs, t, e)
  }

  lemma PortTells(docs: seq<Doc>, t: Target, d: int, c: int, items: Items)
    requires TheItems(docs, t, d, c, items)
    ensures Right(docs, t, Locate(docs, t))
  {
    hide Locate, FindPort, TheItems, PortsOf;
    PortLeft(docs, t, d, c, items);
    PortCounted(items, t.number, t.protocol);
  }

  lemma WorkloadTells(docs: seq<Doc>, t: Target, d: int)
    requires TheDocument(docs, t, d) && t.HostPort?
    ensures Right(docs, t, Locate(docs, t))
  {
    hide FindPort, FindContainer, FindResource, ContainersOf;
    DocumentFound(docs, t, d);
    if Templated(docs[d]) {
      var cs := docs[d].spec.value.template.containers;
      FindsContainer(cs, t.container);
      var found := FindContainer(cs, t.container);
      if found.Ok? {
        PortTells(docs, t, d, found.value, cs[found.value].ports);
      } else {
        assert Fails(docs, t, found.error);
      }
    } else {
      assert Fails(docs, t, ParseError);
    }
  }

  lemma ServiceTells(docs: seq<Doc>, t: Target, d: int)
    requires TheDocument(docs, t, d) && t.NodePort?
    ensures Right(docs, t, Locate(docs, t))
  {
    hide FindPort, FindContainer, FindResource;
    DocumentFound(docs, t, d);
    if PublishesNodePorts(docs[d]) {
      assert TheItems(docs, t, d, 0, docs[d].spec.value.ports);
      PortTells(docs, t, d, 0, docs[d].spec.value.ports);
    } else if docs[d].spec == None {
      assert Fails(docs, t, ParseError);
    } else {
      assert Fails(docs, t, ServiceTypeUnsupported);
    }
  }

  lemma LocateTells(docs: seq<Doc>, t: Target)
    ensures Right(docs, t, Locate(docs, t))
  {
    hide FindPort, FindContainer, FindResource;
    FindsResource(docs, KindOf(t), t.name, t.namespace);
    if KindKnown(t) && |Candidates(docs, t)| == 1 {
      var d := FindResource(docs, KindOf(t), t.name, t.namespace).value;
      assert TheDocument(docs, t, d);
      if t.HostPort? {
        WorkloadTells(docs, t, d);
      } else {
        ServiceTells(docs, t, d);
      }
    }
  }

  lemma EntryIsFound(docs: seq<Doc>, t: Target, p: Place)
    requires TheEntry(docs, t, p)
    ensures Locate(docs, t) == Ok(p)
  {
    hide Locate, FindPort, TheItems, PortsOf;
    var c, items :| TheItems(docs, t, p.doc, c, items) && (p.InContainer? ==> c == p.container) &&
      |PortsOf(items, t.number, t.protocol)| == 1 && p.item in PortsOf(items, t.number, t.protocol);
    PortLeft(docs, t, p.doc, c, items);
    PortCounted(items, t.number, t.protocol);
    OnlyOne(PortsOf(items, t.number, t.protocol), p.item, FindPort(ItemsOf(items), t.number, t.protocol).value);
  }

  lemma PortFails(docs: seq<Doc>, t: Target, e: KubernetesError)
    requires Fails(docs, t, e) && (e.PortNotFound? || e.PortAmbiguous?)
    ensures Locate(docs, t) == Err(e)
  {
    hide Locate, FindPort, TheItems, PortsOf;
    var d, c, items :| TheItems(docs, t, d, c, items) &&
      |PortsOf(items, t.number, t.protocol)| == if e.PortNotFound? then 0 else e.matches;
    PortLeft(docs, t, d, c, items);
    PortCounted(items, t.number, t.protocol);
  }

  lemma ContainerFails(docs: seq<Doc>, t: Target, e: KubernetesError)
    requires Fails(docs, t, e) && (e.ContainerNotFound? || e.ContainerAmbiguous?)
    ensures Locate(docs, t) == Err(e)
  {
    hide FindPort, FindContainer, FindResource, ContainersOf;
    var d :| t.HostPort? && TheDocument(docs, t, d) && Templated(docs[d]) &&
      var n := |ContainersOf(docs[d].spec.value.template.containers, t.container)|;
      if e.ContainerNotFound? then n == 0 else n > 1;
    DocumentFound(docs, t, d);
    FindsContainer(docs[d].spec.value.template.containers, t.container);
  }

  lemma DocumentFails(docs: seq<Doc>, t: Target, e: KubernetesError)
    requires Fails(docs, t, e) && (e.ParseError? || e.ServiceTypeUnsupported?)
    ensures Locate(docs, t) == Err(e)
  {
    hide FindPort, FindContainer, FindResource;
    var d :| TheDocument(docs, t, d) && docs[d].Doc? &&
      if e.ServiceTypeUnsupported? then t.NodePort? && docs[d].spec.Some? && !PublishesNodePorts(docs[d])
      else if t.HostPort? then !Templated(docs[d]) else docs[d].spec == None;
    DocumentFound(docs, t, d);
  }

  // The lookup finds an entry exactly if the kind is supported, one document is the
  // resource, it has what the mapping needs, one container has the name, and one port item
  // of that container or Service matches; and that item is what it finds.
  lemma LocateIff(docs: seq<Doc>, t: Target, p: Place)
    ensures Locate(docs, t) == Ok(p) <==> TheEntry(docs, t, p)
  {
    hide Locate, TheEntry, Fails;
    LocateTells(docs, t);
    if TheEntry(docs, t, p) {
      EntryIsFound(docs, t, p);
    }
  }

  // Which of these fails first decides what it says.
  lemma LocateErrorIff(docs: seq<Doc>, t: Target, e: KubernetesError)
    ensures Locate(docs, t) == Err(e) <==> Fails(docs, t, e)
  {
    hide Locate, TheEntry, Fails;
    LocateTells(docs, t);
    if Fails(docs, t, e) {
      FailureTold(docs, t, e);
    }
  }

  lemma FailureTold(docs: seq<Doc>, t: Target, e: KubernetesError)
    requires Fails(docs, t, e)
    ensures Locate(docs, t) == Err(e)
  {
    if e.PortNotFound? || e.PortAmbiguous? {
      PortFails(docs, t, e);
    } else if e.ContainerNotFound? || e.ContainerAmbiguous? {
      ContainerFails(docs, t, e);
    } else if e.ParseError? || e.ServiceTypeUnsupported? {
      DocumentFails(docs, t, e);
    } else {
      ResourceFails(docs, t, e);
    }
  }

  lemma ResourceFails(docs: seq<Doc>, t: Target, e: KubernetesError)
    requires Fails(docs, t, e) && (e.KindUnsupported? || e.ResourceNotFound? || e.ResourceAmbiguous?)
    ensures Locate(docs, t) == Err(e)
  {
    hide FindPort, FindContainer, FindResource;
    FindsResource(docs, KindOf(t), t.name, t.namespace);
  }
}
