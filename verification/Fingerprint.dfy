// The workflow fingerprint: the canonical form of a manifest that request ids are held to.
// The form stands for its JSON text and digest, which are taken to be injective.
module Fingerprint {
  import opened Wrappers
  import opened Sorting

  datatype PortRequest = PortRequest(
    name: string, purpose: string, protocol: string, preferred: Option<int>, range: Option<string>)

  datatype DotenvMapping = DotenvMapping(file: string, values: map<string, string>)

  datatype ComposeEntry = ComposeEntry(allocation: string, container: int, protocol: string)

  datatype ComposeMapping = ComposeMapping(file: string, services: map<string, seq<ComposeEntry>>)

  datatype HostPortEntry = HostPortEntry(
    kind: string, name: string, namespace: Option<string>, container: string, containerPort: int,
    protocol: string, allocation: string)

  datatype NodePortEntry = NodePortEntry(
    name: string, namespace: Option<string>, servicePort: int, protocol: string, allocation: string)

  datatype KubernetesMapping = KubernetesMapping(
    file: string, hostPorts: seq<HostPortEntry>, nodePorts: seq<NodePortEntry>)

  datatype Config = Config(
    dotenv: seq<DotenvMapping>, compose: seq<ComposeMapping>, kubernetes: seq<KubernetesMapping>)

  datatype Manifest = Manifest(
    project: string, host: string, requests: seq<PortRequest>, config: Option<Config>)

  /* The canonical form. */

  // A request without its range.
  datatype RequestView = RequestView(name: string, purpose: string, protocol: string, preferred: Option<int>)

  function View(r: PortRequest): RequestView {
    RequestView(r.name, r.purpose, r.protocol, r.preferred)
  }

  function Views(rs: seq<PortRequest>): (vs: seq<RequestView>)
    ensures |vs| == |rs|
  {
    seq(|rs|, k requires 0 <= k < |rs| => View(rs[k]))
  }

  function RequestKey(v: RequestView): SortKey { [Text(v.name)] }
  function DotenvKey(m: DotenvMapping): SortKey { [Text(m.file)] }
  function EntryKey(e: ComposeEntry): SortKey { [Text(e.allocation), Number(e.container)] }
  function ComposeKey(m: ComposeMapping): SortKey { [Text(m.file)] }
  function HostPortKey(e: HostPortEntry): SortKey {
    [Text(e.kind), Text(e.name), Text(e.container), Number(e.containerPort)]
  }
  function NodePortKey(e: NodePortEntry): SortKey { [Text(e.name), Number(e.servicePort)] }
  function KubernetesKey(m: KubernetesMapping): SortKey { [Text(m.file)] }

  function CanonicalCompose(m: ComposeMapping): ComposeMapping {
    m.(services := map s | s in m.services :: Sort(m.services[s], EntryKey))
  }

  function CanonicalKubernetes(m: KubernetesMapping): KubernetesMapping {
    m.(hostPorts := Sort(m.hostPorts, HostPortKey), nodePorts := Sort(m.nodePorts, NodePortKey))
  }

  function ComposeFiles(ms: seq<ComposeMapping>): seq<ComposeMapping> {
    seq(|ms|, k requires 0 <= k < |ms| => CanonicalCompose(ms[k]))
  }

  function KubernetesFiles(ms: seq<KubernetesMapping>): seq<KubernetesMapping> {
    seq(|ms|, k requires 0 <= k < |ms| => CanonicalKubernetes(ms[k]))
  }

  function CanonicalConfig(c: Config): Config {
    Config(Sort(c.dotenv, DotenvKey), Sort(ComposeFiles(c.compose), ComposeKey),
        Sort(KubernetesFiles(c.kubernetes), KubernetesKey))
  }

  datatype Canonical = Canonical(
    project: string, host: string, requests: seq<RequestView>, config: Option<Config>)

  function CanonicalForm(m: Manifest): Canonical {
    Canonical(m.project, m.host, Sort(Views(m.requests), RequestKey),
              if m.config == None then None else Some(CanonicalConfig(m.config.value)))
  }

  // Everything a request says counts but its range.
  lemma ViewIff(r: PortRequest, s: PortRequest)
    ensures View(r) == View(s) <==> r.(range := s.range) == s
  {
  }

  // Requests tie by name, mappings by file, Compose entries by allocation and container
  // port, Kubernetes ports by all but namespace, protocol and allocation.
  lemma TiesIff(v: RequestView, v': RequestView, d: DotenvMapping, d': DotenvMapping, c: ComposeMapping,
                c': ComposeMapping, k: KubernetesMapping, k': KubernetesMapping)
    ensures RequestKey(v) == RequestKey(v') <==> v.name == v'.name
    ensures DotenvKey(d) == DotenvKey(d') <==> d.file == d'.file
    ensures ComposeKey(c) == ComposeKey(c') <==> c.file == c'.file
    ensures KubernetesKey(k) == KubernetesKey(k') <==> k.file == k'.file
  {
    assert RequestKey(v)[0] == Text(v.name) && RequestKey(v')[0] == Text(v'.name);
    assert DotenvKey(d)[0] == Text(d.file) && DotenvKey(d')[0] == Text(d'.file);
    assert ComposeKey(c)[0] == Text(c.file) && ComposeKey(c')[0] == Text(c'.file);
    assert KubernetesKey(k)[0] == Text(k.file) && KubernetesKey(k')[0] == Text(k'.file);
  }

  lemma EntriesTieIff(e: ComposeEntry, e': ComposeEntry, h: HostPortEntry, h': HostPortEntry, n: NodePortEntry,
                      n': NodePortEntry)
    ensures EntryKey(e) == EntryKey(e') <==> e.(protocol := e'.protocol) == e'
    ensures HostPortKey(h) == HostPortKey(h') <==>
      h.(namespace := h'.namespace, protocol := h'.protocol, allocation := h'.allocation) == h'
    ensures NodePortKey(n) == NodePortKey(n') <==>
      n.(namespace := n'.namespace, protocol := n'.protocol, allocation := n'.allocation) == n'
  {
    assert EntryKey(e)[0] == Text(e.allocation) && EntryKey(e')[0] == Text(e'.allocation);
    assert EntryKey(e)[1] == Number(e.container) && EntryKey(e')[1] == Number(e'.container);
    assert HostPortKey(h)[0] == Text(h.kind) && HostPortKey(h')[0] == Text(h'.kind);
    assert HostPortKey(h)[1] == Text(h.name) && HostPortKey(h')[1] == Text(h'.name);
    assert HostPortKey(h)[2] == Text(h.container) && HostPortKey(h')[2] == Text(h'.container);
    assert HostPortKey(h)[3] == Number(h.containerPort) && HostPortKey(h')[3] == Number(h'.containerPort);
    assert NodePortKey(n)[0] == Text(n.name) && NodePortKey(n')[0] == Text(n'.name);
    assert NodePortKey(n)[1] == Number(n.servicePort) && NodePortKey(n')[1] == Number(n'.servicePort);
  }

  /* Which manifests share it. */

  ghost predicate SameConfig(c: Config, d: Config) {
    && SameHaving(c.dotenv, d.dotenv, DotenvKey)
    && SameHaving(ComposeFiles(c.compose), ComposeFiles(d.compose), ComposeKey)
    && SameHaving(KubernetesFiles(c.kubernetes), KubernetesFiles(d.kubernetes), KubernetesKey)
  }

  // Exactly those that agree on project and host, and, name by name and file by file, on
  // requests and mappings in order.
  lemma SameFormIff(m: Manifest, n: Manifest)
    ensures CanonicalForm(m) == CanonicalForm(n) <==>
      && m.project == n.project && m.host == n.host
      && SameHaving(Views(m.requests), Views(n.requests), RequestKey)
      && (m.config.Some? <==> n.config.Some?)
      && (m.config.Some? ==> SameConfig(m.config.value, n.config.value))
  {
    SortAlikeIff(Views(m.requests), Views(n.requests), RequestKey);
    if m.config.Some? && n.config.Some? {
      var c, d := m.config.value, n.config.value;
      SortAlikeIff(c.dotenv, d.dotenv, DotenvKey);
      SortAlikeIff(ComposeFiles(c.compose), ComposeFiles(d.compose), ComposeKey);
      SortAlikeIff(KubernetesFiles(c.kubernetes), KubernetesFiles(d.kubernetes), KubernetesKey);
    }
  }

  lemma SameComposeFileIff(m: ComposeMapping, n: ComposeMapping)
    ensures CanonicalCompose(m) == CanonicalCompose(n) <==>
      && m.file == n.file && m.services.Keys == n.services.Keys
      && forall s :: s in m.services && s in n.services ==> SameHaving(m.services[s], n.services[s], EntryKey)
  {
    var a, b := CanonicalCompose(m).services, CanonicalCompose(n).services;
    assert a.Keys == m.services.Keys && b.Keys == n.services.Keys;
    forall s | s in m.services && s in n.services
      ensures a[s] == b[s] <==> SameHaving(m.services[s], n.services[s], EntryKey)
    {
      SortAlikeIff(m.services[s], n.services[s], EntryKey);
    }
  }

  lemma SameKubernetesFileIff(m: KubernetesMapping, n: KubernetesMapping)
    ensures CanonicalKubernetes(m) == CanonicalKubernetes(n) <==>
      && m.file == n.file
      && SameHaving(m.hostPorts, n.hostPorts, HostPortKey) && SameHaving(m.nodePorts, n.nodePorts, NodePortKey)
  {
    SortAlikeIff(m.hostPorts, n.hostPorts, HostPortKey);
    SortAlikeIff(m.nodePorts, n.nodePorts, NodePortKey);
  }

  /* Without ties, order is irrelevant and nothing else is. */

  // No two requests of one name, no two mappings of one file, and no two entries of one
  // service or file that sort alike.
  ghost predicate NoTies(m: Manifest) {
    && DistinctKeys(Views(m.requests), RequestKey)
    && (m.config.Some? ==>
          && DistinctKeys(m.config.value.dotenv, DotenvKey)
          && DistinctKeys(m.config.value.compose, ComposeKey)
          && DistinctKeys(m.config.value.kubernetes, KubernetesKey)
          && (forall f :: f in m.config.value.compose ==> NoEntryTies(f))
          && (forall f :: f in m.config.value.kubernetes ==> NoPortTies(f)))
  }

  ghost predicate NoEntryTies(m: ComposeMapping) {
    forall s :: s in m.services ==> DistinctKeys(m.services[s], EntryKey)
  }

  ghost predicate NoPortTies(m: KubernetesMapping) {
    DistinctKeys(m.hostPorts, HostPortKey) && DistinctKeys(m.nodePorts, NodePortKey)
  }

  // The same mapping up to the order of entries.
  ghost predicate AlikeCompose(m: ComposeMapping, n: ComposeMapping) {
    && m.file == n.file && m.services.Keys == n.services.Keys
    && forall s :: s in m.services && s in n.services ==> multiset(m.services[s]) == multiset(n.services[s])
  }

  ghost predicate AlikeKubernetes(m: KubernetesMapping, n: KubernetesMapping) {
    && m.file == n.file
    && multiset(m.hostPorts) == multiset(n.hostPorts) && multiset(m.nodePorts) == multiset(n.nodePorts)
  }

  // The same configuration up to the order of files, services and entries.
  ghost predicate SameUpToOrder(c: Config, d: Config) {
    && multiset(c.dotenv) == multiset(d.dotenv)
    && (forall f :: f in c.compose ==> exists g :: g in d.compose && AlikeCompose(f, g))
    && (forall g :: g in d.compose ==> exists f :: f in c.compose && AlikeCompose(f, g))
    && (forall f :: f in c.kubernetes ==> exists g :: g in d.kubernetes && AlikeKubernetes(f, g))
    && (forall g :: g in d.kubernetes ==> exists f :: f in c.kubernetes && AlikeKubernetes(f, g))
  }

  lemma AlikeComposeIff(m: ComposeMapping, n: ComposeMapping)
    requires NoEntryTies(m) && NoEntryTies(n)
    ensures CanonicalCompose(m) == CanonicalCompose(n) <==> AlikeCompose(m, n)
  {
    var a, b := CanonicalCompose(m).services, CanonicalCompose(n).services;
    assert a.Keys == m.services.Keys && b.Keys == n.services.Keys;
    forall s | s in m.services && s in n.services
      ensures a[s] == b[s] <==> multiset(m.services[s]) == multiset(n.services[s])
    {
      PermutationsSortAlike(m.services[s], n.services[s], EntryKey);
    }
  }

  lemma AlikeKubernetesIff(m: KubernetesMapping, n: KubernetesMapping)
    requires NoPortTies(m) && NoPortTies(n)
    ensures CanonicalKubernetes(m) == CanonicalKubernetes(n) <==> AlikeKubernetes(m, n)
  {
    PermutationsSortAlike(m.hostPorts, n.hostPorts, HostPortKey);
    PermutationsSortAlike(m.nodePorts, n.nodePorts, NodePortKey);
  }

  // Sequences without repeats are permutations of each other if they have the same elements.
  lemma SameElements<T(!new)>(xs: seq<T>, ys: seq<T>, key: T -> SortKey)
    requires DistinctKeys(xs, key) && DistinctKeys(ys, key)
    ensures multiset(xs) == multiset(ys) <==> forall x :: x in xs <==> x in ys
  {
    forall x ensures multiset(xs)[x] == (if x in xs then 1 else 0) && multiset(ys)[x] == (if x in ys then 1 else 0) {
      OccursOnce(xs, key, x);
      OccursOnce(ys, key, x);
    }
    if multiset(xs) == multiset(ys) {
      forall x ensures x in xs <==> x in ys {
        assert x in xs <==> multiset(xs)[x] == 1;
      }
    }
  }

  lemma {:induction false} OccursOnce<T>(xs: seq<T>, key: T -> SortKey, x: T)
    requires DistinctKeys(xs, key)
    ensures multiset(xs)[x] == if x in xs then 1 else 0
  {
    if xs != [] {
      var init, last := xs[..|xs| - 1], xs[|xs| - 1];
      OccursOnce(init, key, x);
      assert xs == init + [last];
      assert last !in init;
    }
  }

  lemma SameComposeFiles(ms: seq<ComposeMapping>, ns: seq<ComposeMapping>)
    requires DistinctKeys(ms, ComposeKey) && DistinctKeys(ns, ComposeKey)
    requires forall f :: f in ms ==> NoEntryTies(f)
    requires forall f :: f in ns ==> NoEntryTies(f)
    ensures Sort(ComposeFiles(ms), ComposeKey) == Sort(ComposeFiles(ns), ComposeKey) <==>
      && (forall f :: f in ms ==> exists g :: g in ns && AlikeCompose(f, g))
      && (forall g :: g in ns ==> exists f :: f in ms && AlikeCompose(f, g))
  {
    var a, b := ComposeFiles(ms), ComposeFiles(ns);
    PermutationsSortAlike(a, b, ComposeKey);
    SameElements(a, b, ComposeKey);
    forall f, g | f in ms && g in ns ensures CanonicalCompose(f) == CanonicalCompose(g) <==> AlikeCompose(f, g) {
      AlikeComposeIff(f, g);
    }
    CanonicalComposeAmong(ms);
    CanonicalComposeAmong(ns);
  }

  lemma CanonicalComposeAmong(ms: seq<ComposeMapping>)
    ensures forall f :: f in ms ==> CanonicalCompose(f) in ComposeFiles(ms)
    ensures forall x :: x in ComposeFiles(ms) ==> exists f :: f in ms && CanonicalCompose(f) == x
  {
    forall f | f in ms ensures CanonicalCompose(f) in ComposeFiles(ms) {
      var k :| 0 <= k < |ms| && ms[k] == f;
      assert ComposeFiles(ms)[k] == CanonicalCompose(f);
    }
    forall x | x in ComposeFiles(ms) ensures exists f :: f in ms && CanonicalCompose(f) == x {
      var k :| 0 <= k < |ms| && ComposeFiles(ms)[k] == x;
      assert ms[k] in ms;
    }
  }

  lemma SameKubernetesFiles(ms: seq<KubernetesMapping>, ns: seq<KubernetesMapping>)
    requires DistinctKeys(ms, KubernetesKey) && DistinctKeys(ns, KubernetesKey)
    requires forall f :: f in ms ==> NoPortTies(f)
    requires forall f :: f in ns ==> NoPortTies(f)
    ensures Sort(KubernetesFiles(ms), KubernetesKey) == Sort(KubernetesFiles(ns), KubernetesKey) <==>
      && (forall f :: f in ms ==> exists g :: g in ns && AlikeKubernetes(f, g))
      && (forall g :: g in ns ==> exists f :: f in ms && AlikeKubernetes(f, g))
  {
    var a, b := KubernetesFiles(ms), KubernetesFiles(ns);
    PermutationsSortAlike(a, b, KubernetesKey);
    SameElements(a, b, KubernetesKey);
    forall f, g | f in ms && g in ns
      ensures CanonicalKubernetes(f) == CanonicalKubernetes(g) <==> AlikeKubernetes(f, g)
    {
      AlikeKubernetesIff(f, g);
    }
    CanonicalKubernetesAmong(ms);
    CanonicalKubernetesAmong(ns);
  }

  lemma CanonicalKubernetesAmong(ms: seq<KubernetesMapping>)
    ensures forall f :: f in ms ==> CanonicalKubernetes(f) in KubernetesFiles(ms)
    ensures forall x :: x in KubernetesFiles(ms) ==> exists f :: f in ms && CanonicalKubernetes(f) == x
  {
    forall f | f in ms ensures CanonicalKubernetes(f) in KubernetesFiles(ms) {
      var k :| 0 <= k < |ms| && ms[k] == f;
      assert KubernetesFiles(ms)[k] == CanonicalKubernetes(f);
    }
    forall x | x in KubernetesFiles(ms) ensures exists f :: f in ms && CanonicalKubernetes(f) == x {
      var k :| 0 <= k < |ms| && KubernetesFiles(ms)[k] == x;
      assert ms[k] in ms;
    }
  }

  // Manifests without ties share a fingerprint exactly if they are equal up to the order of
  // requests, files, services and entries.
  lemma SameFormIffPermuted(m: Manifest, n: Manifest)
    requires NoTies(m) && NoTies(n)
    ensures CanonicalForm(m) == CanonicalForm(n) <==>
      && m.project == n.project && m.host == n.host
      && multiset(Views(m.requests)) == multiset(Views(n.requests))
      && (m.config.Some? <==> n.config.Some?)
      && (m.config.Some? ==> SameUpToOrder(m.config.value, n.config.value))
  {
    PermutationsSortAlike(Views(m.requests), Views(n.requests), RequestKey);
    if m.config.Some? && n.config.Some? {
      var c, d := m.config.value, n.config.value;
      PermutationsSortAlike(c.dotenv, d.dotenv, DotenvKey);
      SameComposeFiles(c.compose, d.compose);
      SameKubernetesFiles(c.kubernetes, d.kubernetes);
    }
  }

  /* What the fingerprint does not, and does, tell apart. */

  // It is blind to requested ranges.
  lemma RangesAreIgnored(m: Manifest, n: Manifest)
    requires |m.requests| == |n.requests| && m.(requests := n.requests) == n
    requires forall k :: 0 <= k < |m.requests| ==> m.requests[k].(range := n.requests[k].range) == n.requests[k]
    ensures CanonicalForm(m) == CanonicalForm(n)
  {
    assert Views(m.requests) == Views(n.requests);
  }

  // It is not blind to the order of tied entries: publishing one container port for one
  // allocation over tcp and over udp gives two fingerprints, depending on the order.
  lemma ProtocolsTie(file: string, service: string, allocation: string, container: int)
    ensures var tcp, udp := ComposeEntry(allocation, container, "tcp"), ComposeEntry(allocation, container, "udp");
      && multiset([tcp, udp]) == multiset([udp, tcp])
      && CanonicalCompose(ComposeMapping(file, map[service := [tcp, udp]])) !=
         CanonicalCompose(ComposeMapping(file, map[service := [udp, tcp]]))
  {
    var tcp, udp := ComposeEntry(allocation, container, "tcp"), ComposeEntry(allocation, container, "udp");
    assert "tcp"[0] != "udp"[0];
    TiesAreOrdered(tcp, udp, EntryKey);
    var a := CanonicalCompose(ComposeMapping(file, map[service := [tcp, udp]])).services;
    var b := CanonicalCompose(ComposeMapping(file, map[service := [udp, tcp]])).services;
    assert a[service] != b[service];
  }
}
