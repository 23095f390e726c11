// What listening, covering, excluded and same project mean, and the whole table of states,
// told from the records alone.
module EvaluateSpec {
  import opened Wrappers
  import opened Chars
  import opened CharsSpec
  import opened Models
  import opened Sorting
  import opened Evaluate
  import opened Recommend

  /* Records. */

  // On the host a record listens on its host port, or on its port if it gives no host port.
  ghost predicate ListensAt(d: DiscoveredPort, port: int, protocol: Protocol) {
    d.protocol == protocol && (d.hostPort == Some(port) || (d.hostPort == None && d.port == port))
  }

  ghost predicate Reserves(r: Reservation, slot: Slot) {
    r.host == slot.host && r.port == slot.port && r.protocol == slot.protocol
  }

  // An address is compared only if both sides give one.
  ghost predicate ReservesAt(r: Reservation, slot: Slot, address: Option<string>) {
    && Reserves(r, slot)
    && forall a, b :: r.details.bindAddress == Some(a) && address == Some(b) ==> a == b
  }

  lemma ListensIff(d: DiscoveredPort, port: int, protocol: Protocol)
    ensures Listens(d, port, protocol) <==> ListensAt(d, port, protocol)
  {
  }

  lemma CoversIff(r: Reservation, slot: Slot, address: Option<string>)
    ensures SlotOf(r) == slot <==> Reserves(r, slot)
    ensures Covers(r, slot, address) <==> ReservesAt(r, slot, address)
  {
    if Covers(r, slot, address) && r.details.bindAddress.Some? && address.Some? {
      assert r.details.bindAddress.value == address.value;
    }
  }

  // Two names alike once trimmed, whatever the case of their letters.
  ghost predicate SameName(a: string, b: string) {
    exists s, t :: Trims(a, s) && Trims(b, t) && AlikeButCase(s, t)
  }

  lemma SameNameIff(a: string, b: string)
    ensures LowerAll(Strip(a)) == LowerAll(Strip(b)) <==> SameName(a, b)
  {
    hide Trims, AlikeButCase, Strip, LowerAll;
    StripIff(a, Strip(a));
    StripIff(b, Strip(b));
    CaseIff(Strip(a), Strip(b));
    forall s, t | Trims(a, s) && Trims(b, t) ensures s == Strip(a) && t == Strip(b) {
      StripIff(a, s);
      StripIff(b, t);
    }
  }

  // A missing or empty name is nobody's.
  ghost predicate Owns(a: Option<Project>, b: Option<Project>) {
    a.Some? && b.Some? && a.value != "" && b.value != "" && SameName(a.value, b.value)
  }

  lemma SameProjectIff(a: Option<Project>, b: Option<Project>)
    ensures SameProject(a, b) <==> Owns(a, b)
  {
    hide SameName, LowerAll, Strip;
    if a.Some? && b.Some? {
      SameNameIff(a.value, b.value);
    }
  }

  // A detected project matches a reservation of the same name.
  ghost predicate Matching(discovered: Option<Project>, reserved: Project) {
    discovered.Some? && discovered.value != "" && SameName(discovered.value, reserved)
  }

  lemma MatchingIff(discovered: Option<Project>, reserved: Project)
    ensures ProjectMatches(discovered, reserved) <==> Matching(discovered, reserved)
  {
    hide SameName, LowerAll, Strip;
    if discovered.Some? {
      SameNameIff(discovered.value, reserved);
    }
  }

  /* Lookups. */

  ghost predicate FirstListener(ds: seq<DiscoveredPort>, port: int, protocol: Protocol, d: Option<DiscoveredPort>) {
    match d
    case None => forall k :: 0 <= k < |ds| ==> !ListensAt(ds[k], port, protocol)
    case Some(found) => exists k :: IsFirst(ds, port, protocol, found, k)
  }

  ghost predicate IsFirst(ds: seq<DiscoveredPort>, port: int, protocol: Protocol, d: DiscoveredPort, k: nat) {
    && k < |ds| && ds[k] == d && ListensAt(d, port, protocol)
    && forall j :: 0 <= j < k ==> !ListensAt(ds[j], port, protocol)
  }

  lemma {:induction false} FirstListeningIs(ds: seq<DiscoveredPort>, port: int, protocol: Protocol)
    ensures FirstListener(ds, port, protocol, FirstListening(ds, port, protocol))
  {
    hide ListensAt, Listens;
    if ds != [] {
      ListensIff(ds[0], port, protocol);
      if Listens(ds[0], port, protocol) {
        IsFirstAt(ds, port, protocol, ds[0], 0);
      } else {
        FirstListeningIs(ds[1..], port, protocol);
        BehindOne(ds, port, protocol, FirstListening(ds[1..], port, protocol));
      }
    }
  }

  lemma BehindOne(ds: seq<DiscoveredPort>, port: int, protocol: Protocol, d: Option<DiscoveredPort>)
    requires ds != [] && !ListensAt(ds[0], port, protocol) && FirstListener(ds[1..], port, protocol, d)
    ensures FirstListener(ds, port, protocol, d)
  {
    hide ListensAt;
    assert ds == [ds[0]] + ds[1..];
    if d.Some? {
      var k: nat :| IsFirst(ds[1..], port, protocol, d.value, k);
      IsFirstAt(ds, port, protocol, d.value, k + 1);
    }
  }

  lemma IsFirstAt(ds: seq<DiscoveredPort>, port: int, protocol: Protocol, d: DiscoveredPort, k: nat)
    requires IsFirst(ds, port, protocol, d, k)
    ensures FirstListener(ds, port, protocol, Some(d))
  {
  }

  ghost predicate FirstReservation(rs: seq<Reservation>, slot: Slot, address: Option<string>, r: Option<Reservation>) {
    match r
    case None => forall k :: 0 <= k < |rs| ==> !ReservesAt(rs[k], slot, address)
    case Some(found) => exists k :: IsFirstAmong(rs, slot, address, found, k)
  }

  ghost predicate IsFirstAmong(rs: seq<Reservation>, slot: Slot, address: Option<string>, r: Reservation, k: nat) {
    && k < |rs| && rs[k] == r && ReservesAt(r, slot, address)
    && forall j :: 0 <= j < k ==> !ReservesAt(rs[j], slot, address)
  }

  lemma {:induction false} FirstCoveringIs(rs: seq<Reservation>, slot: Slot, address: Option<string>)
    ensures FirstReservation(rs, slot, address, FirstCovering(rs, slot, address))
  {
    hide ReservesAt, Covers;
    if rs != [] {
      CoversIff(rs[0], slot, address);
      if Covers(rs[0], slot, address) {
        IsFirstAmongAt(rs, slot, address, rs[0], 0);
      } else {
        FirstCoveringIs(rs[1..], slot, address);
        BehindOther(rs, slot, address, FirstCovering(rs[1..], slot, address));
      }
    }
  }

  lemma BehindOther(rs: seq<Reservation>, slot: Slot, address: Option<string>, r: Option<Reservation>)
    requires rs != [] && !ReservesAt(rs[0], slot, address) && FirstReservation(rs[1..], slot, address, r)
    ensures FirstReservation(rs, slot, address, r)
  {
    hide ReservesAt;
    assert rs == [rs[0]] + rs[1..];
    if r.Some? {
      var k: nat :| IsFirstAmong(rs[1..], slot, address, r.value, k);
      IsFirstAmongAt(rs, slot, address, r.value, k + 1);
    }
  }

  lemma IsFirstAmongAt(rs: seq<Reservation>, slot: Slot, address: Option<string>, r: Reservation, k: nat)
    requires IsFirstAmong(rs, slot, address, r, k)
    ensures FirstReservation(rs, slot, address, Some(r))
  {
  }

  /* States. */

  // The state of a port with a listener `d`, if there is one, and a reservation `r`, if any.
  ghost predicate HasState(d: Option<DiscoveredPort>, r: Option<Reservation>, state: PortState) {
    match state
    case FREE => d == None && r == None
    case RESERVED => d == None && r.Some?
    case SYSTEM => d.Some? && d.value.source == System
    case ACTIVE =>
      d.Some? && d.value.source != System && (r.Some? ==> Matching(d.value.projectName, r.value.project))
    case CONFLICT =>
      d.Some? && d.value.source != System && r.Some? && !Matching(d.value.projectName, r.value.project)
  }

  lemma StateIff(d: Option<DiscoveredPort>, r: Option<Reservation>, state: PortState)
    ensures EvaluatePort(d, r) == state <==> HasState(d, r, state)
  {
    hide ProjectMatches, Matching;
    if d.Some? && r.Some? {
      MatchingIff(d.value.projectName, r.value.project);
    }
  }

  // A line of the overview: the first listener, the first reservation at any address, and
  // the state the two give.
  lemma EvaluatedIs(host: Host, ds: seq<DiscoveredPort>, rs: seq<Reservation>, port: int, protocol: Protocol)
    ensures var e := Evaluated(host, ds, rs, port, protocol);
      && e.port == port && e.protocol == protocol
      && FirstListener(ds, port, protocol, e.listener)
      && FirstReservation(rs, Slot(host, port, protocol), None, e.reservation)
      && HasState(e.listener, e.reservation, e.state)
  {
    hide FirstListener, FirstReservation, HasState, EvaluatePort;
    var e := Evaluated(host, ds, rs, port, protocol);
    FirstListeningIs(ds, port, protocol);
    FirstCoveringIs(rs, Slot(host, port, protocol), None);
    StateIff(e.listener, e.reservation, e.state);
  }

  // The overview has the ports something listens on, and those reserved on this host.
  lemma MentionedIff(host: Host, ds: seq<DiscoveredPort>, rs: seq<Reservation>, port: int, protocol: Protocol)
    ensures (port, protocol) in Mentioned(host, ds, rs) <==>
      || (exists k :: 0 <= k < |ds| && ListensAt(ds[k], port, protocol))
      || (exists k :: 0 <= k < |rs| && Reserves(rs[k], Slot(host, port, protocol)))
  {
    if k :| 0 <= k < |ds| && ListensAt(ds[k], port, protocol) {
      assert ds[k] in ds && (HostPort(ds[k]), ds[k].protocol) == (port, protocol);
    }
    if k :| 0 <= k < |rs| && Reserves(rs[k], Slot(host, port, protocol)) {
      assert rs[k] in rs && (rs[k].port, rs[k].protocol) == (port, protocol);
    }
    if d :| d in ds && (HostPort(d), d.protocol) == (port, protocol) {
      var k :| 0 <= k < |ds| && ds[k] == d;
    }
    if r :| r in rs && r.host == host && (r.port, r.protocol) == (port, protocol) {
      var k :| 0 <= k < |rs| && rs[k] == r;
    }
  }

  // The overview runs by port and, at one port, tcp before udp.
  lemma SlotOrder(a: (int, Protocol), b: (int, Protocol))
    ensures KeyLe(SlotKey(a), SlotKey(b)) <==> a.0 < b.0 || (a.0 == b.0 && (a.1 == TCP || b.1 == UDP))
  {
    NameOrder(a.1, b.1);
    TwoPartKeys(a.0, ProtocolName(a.1), b.0, ProtocolName(b.1));
  }

  lemma NameOrder(p: Protocol, q: Protocol)
    ensures LexLe(CharLe, ProtocolName(p), ProtocolName(q)) <==> p == TCP || q == UDP
    ensures ProtocolName(p) == ProtocolName(q) <==> p == q
  {
    assert "tcp"[0] == 't' && "udp"[0] == 'u';
    LexReflexive(CharLe, "tcp");
    LexReflexive(CharLe, "udp");
  }

  lemma TwoPartKeys(m: int, s: string, n: int, t: string)
    ensures KeyLe([Number(m), Text(s)], [Number(n), Text(t)]) <==> m < n || (m == n && LexLe(CharLe, s, t))
  {
    HeadFirst(Number(m), [Text(s)], Number(n), [Text(t)]);
    HeadFirst(Text(s), [], Text(t), []);
    LexReflexive(CharLe, s);
    assert [Number(m)] + [Text(s)] == [Number(m), Text(s)] && [Number(n)] + [Text(t)] == [Number(n), Text(t)];
    assert [Text(s)] + [] == [Text(s)] && [Text(t)] + [] == [Text(t)];
  }

  // The first parts decide unless they are equal.
  lemma HeadFirst(p: Part, a: SortKey, q: Part, b: SortKey)
    ensures KeyLe([p] + a, [q] + b) <==> if p == q then KeyLe(a, b) else PartLe(p, q)
  {
    assert ([p] + a)[1..] == a && ([q] + b)[1..] == b;
  }

  /* Availability. */

  // Exclusions are ranges with both ends in them.
  ghost predicate InSomeRange(exclusions: seq<(int, int)>, port: int) {
    exists range :: range in exclusions && !(port < range.0 || range.1 < port)
  }

  lemma ExcludedIff(exclusions: seq<(int, int)>, port: int)
    ensures IsExcluded(exclusions, port) <==> InSomeRange(exclusions, port)
  {
    if IsExcluded(exclusions, port) {
      var k :| 0 <= k < |exclusions| && exclusions[k].0 <= port <= exclusions[k].1;
      assert exclusions[k] in exclusions;
    }
    if InSomeRange(exclusions, port) {
      var range :| range in exclusions && !(port < range.0 || range.1 < port);
      var k :| 0 <= k < |exclusions| && exclusions[k] == range;
    }
  }

  // Nothing listens on the port, nobody reserved it at that address, it can be bound, and no
  // exclusion has it.
  ghost predicate Clear(s: Snapshot, rs: seq<Reservation>, port: int, address: Option<string>) {
    && (forall k :: 0 <= k < |s.discovered| ==> !ListensAt(s.discovered[k], port, s.protocol))
    && (forall k :: 0 <= k < |rs| ==> !ReservesAt(rs[k], Slot(s.host, port, s.protocol), address))
    && s.bindable(port) && !InSomeRange(s.exclusions, port)
  }

  // `check` looks at the snapshot's address, a recommendation at every one.
  lemma CheckIff(s: Snapshot, rs: seq<Reservation>, port: int)
    ensures CheckAvailable(s, rs, port) <==> Clear(s, rs, port, Some(s.address))
    ensures Passes(s, rs, port) <==> Clear(s, rs, port, None)
  {
    hide ListensAt, Listens, Covers, ReservesAt, IsExcluded, InSomeRange;
    var slot := Slot(s.host, port, s.protocol);
    ExcludedIff(s.exclusions, port);
    forall k | 0 <= k < |s.discovered|
      ensures Listens(s.discovered[k], port, s.protocol) <==> ListensAt(s.discovered[k], port, s.protocol)
    {
      ListensIff(s.discovered[k], port, s.protocol);
    }
    forall k, address | 0 <= k < |rs| ensures Covers(rs[k], slot, address) <==> ReservesAt(rs[k], slot, address) {
      CoversIff(rs[k], slot, address);
    }
  }

  // The port recommended from a range is its least clear one.
  ghost predicate LeastClear(s: Snapshot, rs: seq<Reservation>, range: Option<(int, int)>, port: int) {
    && range.Some? && range.value.0 <= port <= range.value.1 && Clear(s, rs, port, None)
    && forall p :: range.value.0 <= p < port ==> !Clear(s, rs, p, None)
  }

  lemma RecommendedIff(s: Snapshot, rs: seq<Reservation>, range: Option<(int, int)>, port: int)
    ensures Recommended(s, rs, range) == Some(port) <==> LeastClear(s, rs, range, port)
  {
    hide Clear, Passes;
    forall p ensures Passes(s, rs, p) <==> Clear(s, rs, p, None) {
      CheckIff(s, rs, p);
    }
  }
}
