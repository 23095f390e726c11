// The Kubernetes editor: locating one port entry in parsed documents, and setting its
// hostPort or nodePort.
module Kubernetes {
  import opened Wrappers
  import opened Chars

  type Scalars = map<string, string>

  /* Parsed documents, as far as the editor looks. Every `rest` stands for the other fields. */

  // In a container, `number` is containerPort and `published` hostPort; in a Service they are
  // port and nodePort.
  datatype PortItem =
    | PortItem(number: Option<int>, protocol: Option<string>, published: Option<int>, rest: Scalars)
    | OtherItem(node: string)

  // None when there is no list.
  type Items = Option<seq<PortItem>>

  datatype Container =
    | Container(name: Option<string>, ports: Items, rest: Scalars)
    | OtherContainer(node: string)

  datatype Template = NoTemplate | NoPodSpec | NoContainers | Template(containers: seq<Container>, rest: Scalars)

  datatype Spec = Spec(serviceType: Option<string>, ports: Items, template: Template, rest: Scalars)

  datatype Metadata = Metadata(name: Option<string>, namespace: Option<string>, rest: Scalars)

  datatype Doc =
    | Doc(kind: Option<string>, metadata: Option<Metadata>, spec: Option<Spec>, rest: Scalars)
    | OtherDoc(node: string)

  /* What a manifest asks for. */

  datatype Target =
    | HostPort(kind: string, name: string, namespace: Option<string>, container: string, number: int, protocol: string)
    | NodePort(name: string, namespace: Option<string>, number: int, protocol: string)

  datatype KubernetesError =
    | KindUnsupported
    | ResourceNotFound
    | ResourceAmbiguous(matches: nat)
    | ParseError
    | ContainerNotFound
    | ContainerAmbiguous
    | ServiceTypeUnsupported
    | PortNotFound
    | PortAmbiguous(matches: nat)
    | NodePortOutOfRange
    | UnknownAllocation

  datatype Place = InContainer(doc: nat, container: nat, item: nat) | InService(doc: nat, item: nat)

  /* Searching. */

  function Indices<T>(xs: seq<T>, p: T -> bool): (found: seq<nat>)
    ensures forall k :: 0 <= k < |found| ==> found[k] < |xs| && p(xs[found[k]])
  {
    if xs == [] then []
    else
      var before := Indices(xs[..|xs| - 1], p);
      if p(xs[|xs| - 1]) then before + [|xs| - 1] else before
  }

  method FindAll<T>(xs: seq<T>, p: T -> bool) returns (found: seq<nat>)
    ensures found == Indices(xs, p)
  {
    found := [];
    for i := 0 to |xs|
      invariant found == Indices(xs[..i], p)
    {
      assert xs[..i + 1][..i] == xs[..i];
      if p(xs[i]) {
        found := found + [i];
      }
    }
    assert xs[..|xs|] == xs;
  }

  // A namespace is compared only if the mapping gives one.
  predicate IsResource(d: Doc, kind: string, name: string, namespace: Option<string>) {
    && d.Doc? && d.kind == Some(kind)
    && d.metadata.Some? && d.metadata.value.name == Some(name)
    && (namespace == None || d.metadata.value.namespace == namespace)
  }

  predicate IsPort(e: PortItem, number: int, protocol: string) {
    && e.PortItem? && e.number == Some(number)
    && UpperAll(if e.protocol.Some? then e.protocol.value else "TCP") == UpperAll(protocol)
  }

  function FindResource(docs: seq<Doc>, kind: string, name: string, namespace: Option<string>)
    : (r: Result<nat, KubernetesError>)
    ensures r.Ok? ==> r.value < |docs| && IsResource(docs[r.value], kind, name, namespace)
  {
    var found := Indices(docs, d => IsResource(d, kind, name, namespace));
    if |found| == 0 then Err(ResourceNotFound)
    else if |found| > 1 then Err(ResourceAmbiguous(|found|))
    else Ok(found[0])
  }

  function FindPort(items: seq<PortItem>, number: int, protocol: string): (r: Result<nat, KubernetesError>)
    ensures r.Ok? ==> r.value < |items| && IsPort(items[r.value], number, protocol)
  {
    var found := Indices(items, e => IsPort(e, number, protocol));
    if |found| > 1 then Err(PortAmbiguous(|found|))
    else if |found| == 0 then Err(PortNotFound)
    else Ok(found[0])
  }

  function FindContainer(containers: seq<Container>, name: string): (r: Result<nat, KubernetesError>)
    ensures r.Ok? ==> r.value < |containers| && containers[r.value].Container?
  {
    var found := Indices(containers, (c: Container) => c.Container? && c.name == Some(name));
    if |found| == 0 then Err(ContainerNotFound)
    else if |found| > 1 then Err(ContainerAmbiguous)
    else Ok(found[0])
  }

  function ItemsOf(items: Items): seq<PortItem> {
    if items.Some? then items.value else []
  }

  function LocateInWorkload(docs: seq<Doc>, d: nat, t: Target): (r: Result<Place, KubernetesError>)
    requires d < |docs| && docs[d].Doc? && t.HostPort?
    ensures r.Ok? ==> ValidPlace(docs, r.value)
  {
    var spec := docs[d].spec;
    if spec == None || !spec.value.template.Template? then Err(ParseError)
    else
      var containers := spec.value.template.containers;
      match FindContainer(containers, t.container)
      case Err(e) => Err(e)
      case Ok(c) =>
        match FindPort(ItemsOf(containers[c].ports), t.number, t.protocol)
        case Err(e) => Err(e)
        case Ok(i) => Ok(InContainer(d, c, i))
  }

  function LocateInService(docs: seq<Doc>, d: nat, t: Target): (r: Result<Place, KubernetesError>)
    requires d < |docs| && docs[d].Doc? && t.NodePort?
    ensures r.Ok? ==> ValidPlace(docs, r.value)
  {
    var spec := docs[d].spec;
    if spec == None then Err(ParseError)
    else if spec.value.serviceType !in {Some("NodePort"), Some("LoadBalancer")} then Err(ServiceTypeUnsupported)
    else if spec.value.ports == None then Err(PortNotFound)
    else
      match FindPort(spec.value.ports.value, t.number, t.protocol)
      case Err(e) => Err(e)
      case Ok(i) => Ok(InService(d, i))
  }

  // The one port entry a mapping is about, or why there is none.
  function Locate(docs: seq<Doc>, t: Target): (r: Result<Place, KubernetesError>)
    ensures r.Ok? ==> ValidPlace(docs, r.value)
  {
    match t
    case HostPort(kind, name, namespace, _, _, _) =>
      if kind !in {"Deployment", "StatefulSet"} then Err(KindUnsupported)
      else
        (match FindResource(docs, kind, name, namespace)
         case Err(e) => Err(e)
         case Ok(d) => LocateInWorkload(docs, d, t))
    case NodePort(name, namespace, _, _) =>
      (match FindResource(docs, "Service", name, namespace)
       case Err(e) => Err(e)
       case Ok(d) => LocateInService(docs, d, t))
  }

  /* Reading and writing one place. */

  predicate ItemAt(items: Items, i: nat) {
    items.Some? && i < |items.value| && items.value[i].PortItem?
  }

  predicate ValidPlace(docs: seq<Doc>, p: Place) {
    && p.doc < |docs| && docs[p.doc].Doc? && docs[p.doc].spec.Some?
    && var spec := docs[p.doc].spec.value;
       match p
       case InContainer(_, c, i) =>
         && spec.template.Template? && c < |spec.template.containers|
         && spec.template.containers[c].Container? && ItemAt(spec.template.containers[c].ports, i)
       case InService(_, i) => ItemAt(spec.ports, i)
  }

  function Read(docs: seq<Doc>, p: Place): Option<int>
    requires ValidPlace(docs, p)
  {
    var spec := docs[p.doc].spec.value;
    match p
    case InContainer(_, c, i) => spec.template.containers[c].ports.value[i].published
    case InService(_, i) => spec.ports.value[i].published
  }

  function SetItem(items: Items, i: nat, port: int): Items
    requires ItemAt(items, i)
  {
    Some(items.value[i := items.value[i].(published := Some(port))])
  }

  function SetAt(docs: seq<Doc>, p: Place, port: int): seq<Doc>
    requires ValidPlace(docs, p)
  {
    var spec := docs[p.doc].spec.value;
    var now := match p
      case InContainer(_, c, i) =>
        var container := spec.template.containers[c];
        spec.(template := spec.template.(containers :=
          spec.template.containers[c := container.(ports := SetItem(container.ports, i, port))]))
      case InService(_, i) => spec.(ports := SetItem(spec.ports, i, port));
    docs[p.doc := docs[p.doc].(spec := Some(now))]
  }

  function Apply(docs: seq<Doc>, t: Target, port: int): Result<seq<Doc>, KubernetesError> {
    match Locate(docs, t)
    case Err(e) => Err(e)
    case Ok(p) => Ok(SetAt(docs, p, port))
  }

  /* The planning loops: host ports in order, then node ports in order. */

  const NODE_PORT_LOW := 30000
  const NODE_PORT_HIGH := 32767

  datatype Wanted = Wanted(target: Target, allocation: string)

  function ApplyOne(docs: seq<Doc>, w: Wanted, ports: map<string, nat>): Result<seq<Doc>, KubernetesError> {
    if w.allocation !in ports then Err(UnknownAllocation)
    else if w.target.NodePort? && !(NODE_PORT_LOW <= ports[w.allocation] <= NODE_PORT_HIGH) then Err(NodePortOutOfRange)
    else Apply(docs, w.target, ports[w.allocation])
  }

  function ApplyAll(docs: seq<Doc>, ws: seq<Wanted>, ports: map<string, nat>): Result<seq<Doc>, KubernetesError> {
    if ws == [] then Ok(docs)
    else
      match ApplyAll(docs, ws[..|ws| - 1], ports)
      case Err(e) => Err(e)
      case Ok(before) => ApplyOne(before, ws[|ws| - 1], ports)
  }

  lemma {:induction false} FirstErrorWins(docs: seq<Doc>, ws: seq<Wanted>, n: nat, ports: map<string, nat>)
    requires n <= |ws| && ApplyAll(docs, ws[..n], ports).Err?
    ensures ApplyAll(docs, ws, ports) == ApplyAll(docs, ws[..n], ports)
  {
    if n == |ws| {
      assert ws[..n] == ws;
    } else {
      assert ws[..|ws| - 1][..n] == ws[..n];
      FirstErrorWins(docs, ws[..|ws| - 1], n, ports);
    }
  }

  // The next mapping, and what its failure means for the whole.
  lemma ApplyNext(docs: seq<Doc>, ws: seq<Wanted>, n: nat, ports: map<string, nat>)
    requires n < |ws| && ApplyAll(docs, ws[..n], ports).Ok?
    ensures ApplyAll(docs, ws[..n + 1], ports) == ApplyOne(ApplyAll(docs, ws[..n], ports).value, ws[n], ports)
    ensures ApplyAll(docs, ws[..n + 1], ports).Err? ==> ApplyAll(docs, ws, ports) == ApplyAll(docs, ws[..n + 1], ports)
  {
    assert ws[..n + 1][..n] == ws[..n];
    if ApplyAll(docs, ws[..n + 1], ports).Err? {
      FirstErrorWins(docs, ws, n + 1, ports);
    }
  }

  lemma {:induction false} ApplyBoth(docs: seq<Doc>, us: seq<Wanted>, vs: seq<Wanted>, ports: map<string, nat>)
    ensures ApplyAll(docs, us + vs, ports) ==
      match ApplyAll(docs, us, ports)
      case Err(e) => Err(e)
      case Ok(now) => ApplyAll(now, vs, ports)
  {
    if vs == [] {
      assert us + vs == us;
    } else {
      assert (us + vs)[..|us + vs| - 1] == us + vs[..|vs| - 1];
      ApplyBoth(docs, us, vs[..|vs| - 1], ports);
    }
  }

  class Documents {
    var docs: seq<Doc>

    constructor (docs: seq<Doc>)
      ensures this.docs == docs
    {
      this.docs := docs;
    }

    method Resource(kind: string, name: string, namespace: Option<string>) returns (r: Result<nat, KubernetesError>)
      ensures r == FindResource(docs, kind, name, namespace)
    {
      var matches := FindAll(docs, d => IsResource(d, kind, name, namespace));
      if |matches| == 0 {
        return Err(ResourceNotFound);
      }
      if |matches| > 1 {
        return Err(ResourceAmbiguous(|matches|));
      }
      return Ok(matches[0]);
    }

    // Sets the one hostPort a mapping is about; an error leaves the documents alone.
    method ApplyHostPort(t: Target, port: int) returns (error: Option<KubernetesError>)
      requires t.HostPort?
      modifies this
      ensures match Apply(old(docs), t, port)
        case Ok(now) => error == None && docs == now
        case Err(e) => error == Some(e) && docs == old(docs)
    {
      if t.kind != "Deployment" && t.kind != "StatefulSet" {
        return Some(KindUnsupported);
      }
      var resource := Resource(t.kind, t.name, t.namespace);
      if resource.Err? {
        return Some(resource.error);
      }
      var d := resource.value;
      var spec := docs[d].spec;
      if spec == None || !spec.value.template.Template? {
        return Some(ParseError);
      }
      var containers := spec.value.template.containers;
      var named := FindAll(containers, (c: Container) => c.Container? && c.name == Some(t.container));
      if |named| == 0 {
        return Some(ContainerNotFound);
      }
      if |named| > 1 {
        return Some(ContainerAmbiguous);
      }
      var items := ItemsOf(containers[named[0]].ports);
      var matches := FindAll(items, e => IsPort(e, t.number, t.protocol));
      if |matches| > 1 {
        return Some(PortAmbiguous(|matches|));
      }
      if |matches| == 0 {
        return Some(PortNotFound);
      }
      docs := SetAt(docs, InContainer(d, named[0], matches[0]), port);
      return None;
    }

    method ApplyNodePort(t: Target, port: int) returns (error: Option<KubernetesError>)
      requires t.NodePort?
      modifies this
      ensures match Apply(old(docs), t, port)
        case Ok(now) => error == None && docs == now
        case Err(e) => error == Some(e) && docs == old(docs)
    {
      var resource := Resource("Service", t.name, t.namespace);
      if resource.Err? {
        return Some(resource.error);
      }
      var d := resource.value;
      var spec := docs[d].spec;
      if spec == None {
        return Some(ParseError);
      }
      var serviceType := if spec.value.serviceType.Some? then spec.value.serviceType.value else "ClusterIP";
      if serviceType != "NodePort" && serviceType != "LoadBalancer" {
        return Some(ServiceTypeUnsupported);
      }
      if spec.value.ports == None {
        return Some(PortNotFound);
      }
      var matches := FindAll(spec.value.ports.value, e => IsPort(e, t.number, t.protocol));
      if |matches| > 1 {
        return Some(PortAmbiguous(|matches|));
      }
      if |matches| == 0 {
        return Some(PortNotFound);
      }
      docs := SetAt(docs, InService(d, matches[0]), port);
      return None;
    }

    method PlanMappings(hostPorts: seq<Wanted>, nodePorts: seq<Wanted>, ports: map<string, nat>)
      returns (error: Option<KubernetesError>)
      requires forall k :: 0 <= k < |hostPorts| ==> hostPorts[k].target.HostPort?
      requires forall k :: 0 <= k < |nodePorts| ==> nodePorts[k].target.NodePort?
      modifies this
      ensures match ApplyAll(old(docs), hostPorts + nodePorts, ports)
        case Ok(now) => error == None && docs == now
        case Err(e) => error == Some(e)
    {
      ApplyBoth(docs, hostPorts, nodePorts, ports);
      error := PlanHostPorts(hostPorts, ports);
      if error == None {
        error := PlanNodePorts(nodePorts, ports);
      }
    }

    method PlanHostPorts(ws: seq<Wanted>, ports: map<string, nat>) returns (error: Option<KubernetesError>)
      requires forall k :: 0 <= k < |ws| ==> ws[k].target.HostPort?
      modifies this
      ensures match ApplyAll(old(docs), ws, ports)
        case Ok(now) => error == None && docs == now
        case Err(e) => error == Some(e)
    {
      ghost var start := docs;
      for i := 0 to |ws|
        invariant ApplyAll(start, ws[..i], ports) == Ok(docs)
      {
        ApplyNext(start, ws, i, ports);
        error := PlanHostPort(ws[i], ports);
        if error.Some? {
          return;
        }
      }
      assert ws[..|ws|] == ws;
      return None;
    }

    method PlanNodePorts(ws: seq<Wanted>, ports: map<string, nat>) returns (error: Option<KubernetesError>)
      requires forall k :: 0 <= k < |ws| ==> ws[k].target.NodePort?
      modifies this
      ensures match ApplyAll(old(docs), ws, ports)
        case Ok(now) => error == None && docs == now
        case Err(e) => error == Some(e)
    {
      ghost var start := docs;
      for i := 0 to |ws|
        invariant ApplyAll(start, ws[..i], ports) == Ok(docs)
      {
        ApplyNext(start, ws, i, ports);
        error := PlanNodePort(ws[i], ports);
        if error.Some? {
          return;
        }
      }
      assert ws[..|ws|] == ws;
      return None;
    }

    method PlanHostPort(w: Wanted, ports: map<string, nat>) returns (error: Option<KubernetesError>)
      requires w.target.HostPort?
      modifies this
      ensures match ApplyOne(old(docs), w, ports)
        case Ok(now) => error == None && docs == now
        case Err(e) => error == Some(e) && docs == old(docs)
    {
      if w.allocation !in ports {
        return Some(UnknownAllocation);
      }
      error := ApplyHostPort(w.target, ports[w.allocation]);
    }

    method PlanNodePort(w: Wanted, ports: map<string, nat>) returns (error: Option<KubernetesError>)
      requires w.target.NodePort?
      modifies this
      ensures match ApplyOne(old(docs), w, ports)
        case Ok(now) => error == None && docs == now
        case Err(e) => error == Some(e) && docs == old(docs)
    {
      if w.allocation !in ports {
        return Some(UnknownAllocation);
      }
      if ports[w.allocation] < NODE_PORT_LOW || NODE_PORT_HIGH < ports[w.allocation] {
        return Some(NodePortOutOfRange);
      }
      error := ApplyNodePort(w.target, ports[w.allocation]);
    }
  }
}
