// Which records are of one socket, and in which order they are listed.
module DiscoverySpec {
  import opened Wrappers
  import opened Models
  import opened Sorting
  import opened Discovery
  import opened EvaluateSpec

  // Two records are of one socket if they agree on address and protocol and on the port the
  // host sees.
  lemma OneSocketIff(a: DiscoveredPort, b: DiscoveredPort)
    ensures BindingOf(a) == BindingOf(b) <==>
      a.bindAddress == b.bindAddress && exists p, protocol :: ListensAt(a, p, protocol) && ListensAt(b, p, protocol)
  {
    if BindingOf(a) == BindingOf(b) {
      assert ListensAt(a, HostPort(a), a.protocol) && ListensAt(b, HostPort(a), a.protocol);
    }
  }

  /* The listing. */

  // Where two strings first differ decides; a prefix comes first.
  ghost predicate Alphabetical(s: string, t: string) {
    s <= t || exists k :: 0 <= k < |s| && DiffersAt(s, t, k)
  }

  ghost predicate DiffersAt(s: string, t: string, k: nat) {
    k < |s| && k < |t| && s[..k] == t[..k] && s[k] < t[k]
  }

  lemma {:induction false} LexIff(s: string, t: string)
    ensures LexLe(CharLe, s, t) <==> Alphabetical(s, t)
  {
    if s != [] && t != [] {
      if s[0] == t[0] {
        LexIff(s[1..], t[1..]);
        TailsIff(s, t);
      } else {
        if s[0] < t[0] {
          assert DiffersAt(s, t, 0);
        }
        forall k | 0 <= k < |s| && DiffersAt(s, t, k) ensures k == 0 {
          if k > 0 {
            StartAlike(s, t, k);
          }
        }
      }
    }
  }

  lemma StartAlike(s: string, t: string, k: nat)
    requires DiffersAt(s, t, k) && k > 0
    ensures s[0] == t[0]
  {
    assert s[..k][0] == t[..k][0];
  }

  lemma TailsIff(s: string, t: string)
    requires s != [] && t != [] && s[0] == t[0]
    ensures Alphabetical(s, t) <==> Alphabetical(s[1..], t[1..])
  {
    assert s == [s[0]] + s[1..] && t == [t[0]] + t[1..];
    forall k | 0 <= k < |s| - 1 ensures DiffersAt(s[1..], t[1..], k) <==> DiffersAt(s, t, k + 1) {
      ShiftedDifference(s, t, k);
    }
    if k :| 0 <= k < |s| && DiffersAt(s, t, k) {
      assert DiffersAt(s[1..], t[1..], k - 1);
    }
    if k :| 0 <= k < |s[1..]| && DiffersAt(s[1..], t[1..], k) {
      assert DiffersAt(s, t, k + 1);
    }
  }

  lemma ShiftedDifference(s: string, t: string, k: nat)
    requires s != [] && t != [] && s[0] == t[0]
    ensures DiffersAt(s[1..], t[1..], k) <==> DiffersAt(s, t, k + 1)
  {
    if k + 1 < |s| && k + 1 < |t| {
      assert s[..k + 1] == [s[0]] + s[1..][..k] && t[..k + 1] == [t[0]] + t[1..][..k];
      if s[..k + 1] == t[..k + 1] {
        assert s[1..][..k] == s[..k + 1][1..] && t[1..][..k] == t[..k + 1][1..];
      }
    }
  }

  // A host port of zero is no host port here.
  ghost predicate ShownOn(d: DiscoveredPort, port: int) {
    if d.hostPort == None || d.hostPort == Some(0) then port == d.port else d.hostPort == Some(port)
  }

  // By port, then tcp before udp, then by address.
  ghost predicate ListedBefore(a: DiscoveredPort, b: DiscoveredPort) {
    forall p, q :: ShownOn(a, p) && ShownOn(b, q) ==>
      || p < q
      || (p == q && a.protocol == TCP && b.protocol == UDP)
      || (p == q && a.protocol == b.protocol && Alphabetical(a.bindAddress, b.bindAddress))
  }

  lemma OrderIff(a: DiscoveredPort, b: DiscoveredPort)
    ensures KeyLe(OrderKey(a), OrderKey(b)) <==> ListedBefore(a, b)
  {
    hide Alphabetical, LexLe;
    var p := OrderKey(a)[0].n;
    var q := OrderKey(b)[0].n;
    assert ShownOn(a, p) && ShownOn(b, q);
    LexIff(a.bindAddress, b.bindAddress);
    NameOrder(a.protocol, b.protocol);
    ThreePartKeys(p, ProtocolName(a.protocol), a.bindAddress, q, ProtocolName(b.protocol), b.bindAddress);
  }

  lemma ThreePartKeys(m: int, s: string, u: string, n: int, t: string, v: string)
    ensures KeyLe([Number(m), Text(s), Text(u)], [Number(n), Text(t), Text(v)]) <==>
      m < n || (m == n && (if s == t then LexLe(CharLe, u, v) else LexLe(CharLe, s, t)))
  {
    HeadFirst(Number(m), [Text(s), Text(u)], Number(n), [Text(t), Text(v)]);
    HeadFirst(Text(s), [Text(u)], Text(t), [Text(v)]);
    HeadFirst(Text(u), [], Text(v), []);
    LexReflexive(CharLe, u);
    assert [Number(m)] + [Text(s), Text(u)] == [Number(m), Text(s), Text(u)];
    assert [Number(n)] + [Text(t), Text(v)] == [Number(n), Text(t), Text(v)];
    assert [Text(s)] + [Text(u)] == [Text(s), Text(u)] && [Text(t)] + [Text(v)] == [Text(t), Text(v)];
    assert [Text(u)] + [] == [Text(u)] && [Text(v)] + [] == [Text(v)];
  }

  // The merged list runs in this order.
  lemma ListedInOrder(natives: seq<DiscoveredPort>, dockers: seq<DiscoveredPort>)
    ensures var r := Sort(Merged(natives, dockers), OrderKey);
      forall i, j :: 0 <= i < j < |r| ==> ListedBefore(r[i], r[j])
  {
    hide ListedBefore, Merged, OrderKey, Sort, KeyLe;
    var r := Sort(Merged(natives, dockers), OrderKey);
    SortSorted(Merged(natives, dockers), OrderKey);
    forall i, j | 0 <= i < j < |r| ensures ListedBefore(r[i], r[j]) {
      OrderIff(r[i], r[j]);
    }
  }
}
