// Merging what the operating system and Docker say about the same sockets.
module Discovery {
  import opened Wrappers
  import opened Models
  import opened Sorting

  // The identity of a host socket.
  datatype Binding = Binding(protocol: Protocol, address: string, port: int)

  function BindingOf(d: DiscoveredPort): Binding {
    Binding(d.protocol, d.bindAddress, HostPort(d))
  }

  // The listing order; a host port of zero counts as absent here.
  function OrderKey(d: DiscoveredPort): SortKey {
    var port := if d.hostPort.Some? && d.hostPort.value != 0 then d.hostPort.value else d.port;
    [Number(port), Text(ProtocolName(d.protocol)), Text(d.bindAddress)]
  }

  function FirstByBinding(natives: seq<DiscoveredPort>): (firsts: map<Binding, DiscoveredPort>)
    ensures forall b :: b in firsts ==> firsts[b] in natives && BindingOf(firsts[b]) == b
    ensures forall n :: n in natives ==> BindingOf(n) in firsts
  {
    if natives == [] then map[]
    else
      var before := FirstByBinding(natives[..|natives| - 1]);
      var n := natives[|natives| - 1];
      if BindingOf(n) in before then before else before[BindingOf(n) := n]
  }

  function Truthy(s: Option<string>): bool {
    s.Some? && s.value != ""
  }

  // Docker says who owns the socket, the native record which process holds it.
  function Attributed(d: DiscoveredPort, n: DiscoveredPort): DiscoveredPort {
    d.(pid := n.pid, processName := n.processName, processPath := n.processPath,
       workingDirectory := n.workingDirectory, rawState := if Truthy(n.rawState) then n.rawState else d.rawState)
  }

  function FromDocker(d: DiscoveredPort, firsts: map<Binding, DiscoveredPort>): DiscoveredPort {
    if BindingOf(d) in firsts then Attributed(d, firsts[BindingOf(d)]) else d
  }

  function FromDockers(dockers: seq<DiscoveredPort>, firsts: map<Binding, DiscoveredPort>): seq<DiscoveredPort> {
    seq(|dockers|, k requires 0 <= k < |dockers| => FromDocker(dockers[k], firsts))
  }

  predicate Observes(ds: seq<DiscoveredPort>, b: Binding) {
    exists k :: 0 <= k < |ds| && BindingOf(ds[k]) == b
  }

  // The natives of sockets Docker does not know, in order.
  function Unclaimed(natives: seq<DiscoveredPort>, dockers: seq<DiscoveredPort>): seq<DiscoveredPort> {
    if natives == [] then []
    else
      var init, n := Unclaimed(natives[..|natives| - 1], dockers), natives[|natives| - 1];
      if Observes(dockers, BindingOf(n)) then init else init + [n]
  }

  function Merged(natives: seq<DiscoveredPort>, dockers: seq<DiscoveredPort>): seq<DiscoveredPort> {
    FromDockers(dockers, FirstByBinding(natives)) + Unclaimed(natives, dockers)
  }

  method MergeNativeAndDocker(natives: seq<DiscoveredPort>, dockers: seq<DiscoveredPort>)
    returns (r: seq<DiscoveredPort>)
    ensures r == Sort(Merged(natives, dockers), OrderKey)
  {
    var firsts := IndexNatives(natives);
    var merged, consumed := MergeDockers(dockers, firsts);
    merged := AddNatives(merged, natives, dockers, consumed);
    return Sort(merged, OrderKey);
  }

  method IndexNatives(natives: seq<DiscoveredPort>) returns (firsts: map<Binding, DiscoveredPort>)
    ensures firsts == FirstByBinding(natives)
  {
    firsts := map[];
    for i := 0 to |natives|
      invariant firsts == FirstByBinding(natives[..i])
    {
      assert natives[..i + 1][..i] == natives[..i];
      if BindingOf(natives[i]) !in firsts {
        firsts := firsts[BindingOf(natives[i]) := natives[i]];
      }
    }
    assert natives[..|natives|] == natives;
  }

  method MergeDockers(dockers: seq<DiscoveredPort>, firsts: map<Binding, DiscoveredPort>)
    returns (merged: seq<DiscoveredPort>, consumed: set<Binding>)
    ensures merged == FromDockers(dockers, firsts)
    ensures forall b :: b in consumed <==> b in firsts && Observes(dockers, b)
  {
    merged, consumed := [], {};
    for j := 0 to |dockers|
      invariant merged == FromDockers(dockers, firsts)[..j]
      invariant forall b :: b in consumed <==> b in firsts && Observes(dockers[..j], b)
    {
      var b := BindingOf(dockers[j]);
      forall c ensures Observes(dockers[..j + 1], c) <==> Observes(dockers[..j], c) || c == b {
        ObservesSnoc(dockers, j, c);
      }
      if b in firsts {
        consumed := consumed + {b};
        merged := merged + [Attributed(dockers[j], firsts[b])];
      } else {
        merged := merged + [dockers[j]];
      }
    }
    assert dockers[..|dockers|] == dockers;
  }

  method AddNatives(docker: seq<DiscoveredPort>, natives: seq<DiscoveredPort>, ghost dockers: seq<DiscoveredPort>,
                    consumed: set<Binding>)
    returns (merged: seq<DiscoveredPort>)
    requires forall n :: n in natives ==> (BindingOf(n) in consumed <==> Observes(dockers, BindingOf(n)))
    ensures merged == docker + Unclaimed(natives, dockers)
  {
    merged := docker;
    for i := 0 to |natives|
      invariant merged == docker + Unclaimed(natives[..i], dockers)
    {
      assert natives[..i + 1][..i] == natives[..i];
      if BindingOf(natives[i]) in consumed {
        continue;
      }
      merged := merged + [natives[i]];
    }
    assert natives[..|natives|] == natives;
  }

  lemma ObservesSnoc(ds: seq<DiscoveredPort>, j: nat, b: Binding)
    requires j < |ds|
    ensures Observes(ds[..j + 1], b) <==> Observes(ds[..j], b) || b == BindingOf(ds[j])
  {
    if Observes(ds[..j], b) {
      var k :| 0 <= k < j && BindingOf(ds[..j][k]) == b;
      assert BindingOf(ds[..j + 1][k]) == b;
    }
    assert ds[..j + 1][j] == ds[j];
  }

  /* What the merged view says. */

  lemma FirstsSeen(natives: seq<DiscoveredPort>, b: Binding)
    ensures b in FirstByBinding(natives) <==> Observes(natives, b)
  {
    if Observes(natives, b) {
      var k :| 0 <= k < |natives| && BindingOf(natives[k]) == b;
      assert natives[k] in natives;
    }
    if b in FirstByBinding(natives) {
      SeenIn(natives, FirstByBinding(natives)[b]);
    }
  }

  // The native record a socket is attributed to is the first one observed.
  lemma {:induction false} FirstIsFirst(natives: seq<DiscoveredPort>, i: nat)
    requires i < |natives| && forall j :: 0 <= j < i ==> BindingOf(natives[j]) != BindingOf(natives[i])
    ensures BindingOf(natives[i]) in FirstByBinding(natives)
    ensures FirstByBinding(natives)[BindingOf(natives[i])] == natives[i]
  {
    hide BindingOf;
    var init := natives[..|natives| - 1];
    FirstsSeen(init, BindingOf(natives[i]));
    if i < |natives| - 1 {
      FirstIsFirst(init, i);
    }
  }

  lemma {:induction false} UnclaimedAre(natives: seq<DiscoveredPort>, dockers: seq<DiscoveredPort>, n: DiscoveredPort)
    ensures n in Unclaimed(natives, dockers) <==> n in natives && !Observes(dockers, BindingOf(n))
    ensures multiset(Unclaimed(natives, dockers))[n] ==
        if Observes(dockers, BindingOf(n)) then 0 else multiset(natives)[n]
  {
    if natives != [] {
      UnclaimedAre(natives[..|natives| - 1], dockers, n);
      assert natives == natives[..|natives| - 1] + [natives[|natives| - 1]];
    }
  }

  // The result is sorted; it has one record per Docker observation, with Docker's ownership
  // and the native process, and every native observation of a socket Docker does not know.
  lemma MergeSpec(natives: seq<DiscoveredPort>, dockers: seq<DiscoveredPort>)
    ensures var r := Sort(Merged(natives, dockers), OrderKey);
      && Sorted(r, OrderKey)
      && multiset(r) == multiset(FromDockers(dockers, FirstByBinding(natives))) + multiset(Unclaimed(natives, dockers))
      && (forall k :: 0 <= k < |dockers| ==>
            && FromDocker(dockers[k], FirstByBinding(natives)) in r
            && BindingOf(FromDocker(dockers[k], FirstByBinding(natives))) == BindingOf(dockers[k]))
      && (forall n :: n in natives && !Observes(dockers, BindingOf(n)) ==> n in r)
  {
    var firsts, merged := FirstByBinding(natives), Merged(natives, dockers);
    SortSorted(merged, OrderKey);
    SortElements(merged, OrderKey);
    forall x | x in merged ensures x in Sort(merged, OrderKey) {
      assert x in multiset(merged);
    }
    forall k | 0 <= k < |dockers| ensures FromDocker(dockers[k], firsts) in merged {
      assert merged[k] == FromDocker(dockers[k], firsts);
    }
    forall n | n in natives && !Observes(dockers, BindingOf(n)) ensures n in merged {
      UnclaimedAre(natives, dockers, n);
    }
  }

  lemma Tally(natives: seq<DiscoveredPort>, dockers: seq<DiscoveredPort>, x: DiscoveredPort)
    ensures x in Sort(Merged(natives, dockers), OrderKey) <==>
      x in FromDockers(dockers, FirstByBinding(natives)) || (x in natives && !Observes(dockers, BindingOf(x)))
  {
    var merged := Merged(natives, dockers);
    SortElements(merged, OrderKey);
    UnclaimedAre(natives, dockers, x);
    assert x in Sort(merged, OrderKey) <==> x in multiset(merged);
  }

  lemma DockerShown(natives: seq<DiscoveredPort>, dockers: seq<DiscoveredPort>, b: Binding)
    requires Observes(dockers, b)
    ensures Observes(Sort(Merged(natives, dockers), OrderKey), b)
  {
    var k :| 0 <= k < |dockers| && BindingOf(dockers[k]) == b;
    var shown := FromDocker(dockers[k], FirstByBinding(natives));
    assert FromDockers(dockers, FirstByBinding(natives))[k] == shown;
    Tally(natives, dockers, shown);
    SeenIn(Sort(Merged(natives, dockers), OrderKey), shown);
  }

  lemma NativeShown(natives: seq<DiscoveredPort>, dockers: seq<DiscoveredPort>, b: Binding)
    requires Observes(natives, b) && !Observes(dockers, b)
    ensures Observes(Sort(Merged(natives, dockers), OrderKey), b)
  {
    var i :| 0 <= i < |natives| && BindingOf(natives[i]) == b;
    Tally(natives, dockers, natives[i]);
    SeenIn(Sort(Merged(natives, dockers), OrderKey), natives[i]);
  }

  lemma ShownSeen(natives: seq<DiscoveredPort>, dockers: seq<DiscoveredPort>, x: DiscoveredPort)
    requires x in Sort(Merged(natives, dockers), OrderKey)
    ensures Observes(natives, BindingOf(x)) || Observes(dockers, BindingOf(x))
  {
    Tally(natives, dockers, x);
    if x in FromDockers(dockers, FirstByBinding(natives)) {
      var j :| 0 <= j < |dockers| && FromDocker(dockers[j], FirstByBinding(natives)) == x;
      SeenIn(dockers, dockers[j]);
    } else {
      SeenIn(natives, x);
    }
  }

  // No socket is lost and none is invented.
  lemma SocketsAreTheUnion(natives: seq<DiscoveredPort>, dockers: seq<DiscoveredPort>, b: Binding)
    ensures Observes(Sort(Merged(natives, dockers), OrderKey), b) <==> Observes(natives, b) || Observes(dockers, b)
  {
    var r := Sort(Merged(natives, dockers), OrderKey);
    if Observes(dockers, b) {
      DockerShown(natives, dockers, b);
    } else if Observes(natives, b) {
      NativeShown(natives, dockers, b);
    }
    if Observes(r, b) {
      var k :| 0 <= k < |r| && BindingOf(r[k]) == b;
      ShownSeen(natives, dockers, r[k]);
    }
  }

  lemma SeenIn(ds: seq<DiscoveredPort>, d: DiscoveredPort)
    requires d in ds
    ensures Observes(ds, BindingOf(d))
  {
  }

  // A socket Docker knows is shown once per Docker observation of it, never as native.
  lemma DockerOwns(natives: seq<DiscoveredPort>, dockers: seq<DiscoveredPort>, x: DiscoveredPort)
    requires x in Sort(Merged(natives, dockers), OrderKey) && Observes(dockers, BindingOf(x))
    ensures exists k :: 0 <= k < |dockers| && x == FromDocker(dockers[k], FirstByBinding(natives))
  {
    Tally(natives, dockers, x);
  }

  // In a merged record Docker's ownership stands, and process and state come from the first
  // native observation of the socket, if there is one.
  lemma WhoOwnsAndWhoHolds(natives: seq<DiscoveredPort>, d: DiscoveredPort, i: nat)
    requires i < |natives| && BindingOf(natives[i]) == BindingOf(d)
    requires forall j :: 0 <= j < i ==> BindingOf(natives[j]) != BindingOf(d)
    ensures var x, n := FromDocker(d, FirstByBinding(natives)), natives[i];
      && x.(pid := d.pid, processName := d.processName, processPath := d.processPath,
            workingDirectory := d.workingDirectory, rawState := d.rawState) == d
      && x.pid == n.pid && x.processName == n.processName && x.processPath == n.processPath
      && x.workingDirectory == n.workingDirectory
      && (n.rawState.Some? && n.rawState.value != "" ==> x.rawState == n.rawState)
      && (n.rawState in {None, Some("")} ==> x.rawState == d.rawState)
  {
    FirstIsFirst(natives, i);
  }

  lemma UnmatchedDocker(natives: seq<DiscoveredPort>, d: DiscoveredPort)
    requires !Observes(natives, BindingOf(d))
    ensures FromDocker(d, FirstByBinding(natives)) == d
  {
    FirstsSeen(natives, BindingOf(d));
  }
}
