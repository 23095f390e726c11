// What every reservation operation keeps: unique slots, distinct ids, fixed owners.
module RegistrySafety {
  import opened Wrappers
  import opened Models
  import opened Evaluate
  import opened Recommend
  import opened Registry

  ghost predicate UniqueSlots(rs: seq<Reservation>) {
    forall i, j :: 0 <= i < j < |rs| ==> SlotOf(rs[i]) != SlotOf(rs[j])
  }

  ghost predicate DistinctIds(rs: seq<Reservation>) {
    forall i, j :: 0 <= i < j < |rs| ==> rs[i].id != rs[j].id
  }

  ghost predicate Sound(rs: seq<Reservation>) {
    UniqueSlots(rs) && DistinctIds(rs)
  }

  ghost predicate HasId(rs: seq<Reservation>, id: string) {
    exists k :: 0 <= k < |rs| && rs[k].id == id
  }

  // New ids are drawn at random; they do not occur in the list.
  ghost predicate FreshId(rs: seq<Reservation>, q: Request) {
    q.Reserve? || q.RecommendAndReserve? ==> !HasId(rs, q.newId)
  }

  ghost predicate Removes(rs: seq<Reservation>, now: seq<Reservation>, i: nat) {
    i < |rs| && now == rs[..i] + rs[i + 1..]
  }

  lemma {:induction false} WithoutAbsent(rs: seq<Reservation>, id: string)
    requires !HasId(rs, id)
    ensures Without(rs, id) == rs
  {
    if rs != [] {
      assert forall k :: 0 <= k < |rs| - 1 ==> rs[..|rs| - 1][k] == rs[k];
      WithoutAbsent(rs[..|rs| - 1], id);
    }
  }

  // Filtering by id takes out that one reservation.
  lemma {:induction false} WithoutRemoves(rs: seq<Reservation>, i: nat)
    requires DistinctIds(rs) && i < |rs|
    ensures Removes(rs, Without(rs, rs[i].id), i)
  {
    var last := |rs| - 1;
    var init := rs[..last];
    if i == last {
      WithoutAbsent(init, rs[i].id);
      assert rs[..i] + rs[i + 1..] == init;
    } else {
      WithoutRemoves(init, i);
      assert init[..i] == rs[..i] && init[i + 1..] + [rs[last]] == rs[i + 1..];
      assert init[..i] + init[i + 1..] + [rs[last]] == rs[..i] + rs[i + 1..];
    }
  }

  /* The whole effect of a call, by outcome. */

  ghost predicate Claims(rs: seq<Reservation>, now: seq<Reservation>, slot: Slot, project: Project, id: string) {
    && |now| == |rs| + 1 && now[..|rs|] == rs
    && SlotOf(now[|rs|]) == slot && now[|rs|].project == project && now[|rs|].id == id
    && forall k :: 0 <= k < |rs| ==> SlotOf(rs[k]) != slot
  }

  ghost predicate Refreshes(rs: seq<Reservation>, now: seq<Reservation>, q: Request) {
    exists i :: 0 <= i < |rs| && RefreshesAt(rs, now, q, i)
  }

  ghost predicate RefreshesAt(rs: seq<Reservation>, now: seq<Reservation>, q: Request, i: int) {
    && 0 <= i < |rs| && |now| == |rs| && q.Reserve?
    && (forall k :: 0 <= k < |rs| && k != i ==> now[k] == rs[k])
    && now[i].(details := rs[i].details, updatedAt := rs[i].updatedAt) == rs[i]
    && SlotOf(rs[i]) == q.slot && SameProject(Some(rs[i].project), Some(q.project))
    && now[i].updatedAt == q.now && Supersedes(q.details, rs[i].details, now[i].details)
  }

  // What the caller gave counts; what it left out stays.
  ghost predicate Supersedes(given: Details, before: Details, now: Details) {
    && now.service == (if given.service.Some? then given.service else before.service)
    && now.purpose == (if given.purpose.Some? then given.purpose else before.purpose)
    && now.bindAddress == (if given.bindAddress.Some? then given.bindAddress else before.bindAddress)
    && now.notes == (if given.notes.Some? then given.notes else before.notes)
  }

  // A new reservation carries the caller's details; a recommended one is for any address.
  ghost predicate CarriesDetails(rs: seq<Reservation>, now: seq<Reservation>, q: Request) {
    |now| == |rs| + 1 &&
    match q
    case Reserve(_, _, details, _, _, time) => now[|rs|].details == details && now[|rs|].updatedAt == time
    case RecommendAndReserve(_, _, _, details, _, time) =>
      now[|rs|].details == details.(bindAddress := None) && now[|rs|].updatedAt == time
    case _ => false
  }

  // The reservation a release is about.
  ghost predicate Names(q: Request, r: Reservation) {
    match q
    case Release(slot, project) => SlotOf(r) == slot && SameProject(Some(r.project), Some(project))
    case ReleaseById(id, claimant) => r.id == id && (claimant.Some? ==> SameProject(Some(r.project), claimant))
    case _ => false
  }

  ghost predicate HasEffect(rs: seq<Reservation>, q: Request) {
    var outcome, now := Decide(rs, q).0, After(rs, q);
    match outcome
    case Created => q.Reserve? && Claims(rs, now, q.slot, q.project, q.newId) && CarriesDetails(rs, now, q)
    case AdoptedActiveSameProject => q.Reserve? && Claims(rs, now, q.slot, q.project, q.newId) &&
        CarriesDetails(rs, now, q)
    case RecommendedAndReserved(port) =>
      && q.RecommendAndReserve? && Passes(q.snapshot, rs, port) && CarriesDetails(rs, now, q)
      && Claims(rs, now, Slot(q.snapshot.host, port, q.snapshot.protocol), q.project, q.newId)
    case UpdatedSameProject => Refreshes(rs, now, q)
    case Released => exists i :: 0 <= i < |rs| && Names(q, rs[i]) && Removes(rs, now, i)
    case _ => now == rs
  }

  lemma ReserveEffect(rs: seq<Reservation>, q: Request)
    requires Sound(rs) && q.Reserve?
    ensures HasEffect(rs, q)
  {
    if Decide(rs, q).0 == UpdatedSameProject {
      assert RefreshesAt(rs, After(rs, q), q, IndexAt(rs, q.slot));
    }
  }

  lemma ReleaseEffect(rs: seq<Reservation>, q: Request)
    requires Sound(rs) && (q.Release? || q.ReleaseById?)
    ensures HasEffect(rs, q)
  {
    var i := if q.Release? then IndexAt(rs, q.slot) else IndexOfId(rs, q.id);
    if Decide(rs, q).0 == Released {
      WithoutRemoves(rs, i);
      assert Names(q, rs[i]);
    }
  }

  lemma RecommendEffect(rs: seq<Reservation>, q: Request)
    requires q.RecommendAndReserve?
    ensures HasEffect(rs, q)
  {
    if Decide(rs, q).0 != NoCandidate {
      var port := Recommended(q.snapshot, rs, q.portRange).value;
      assert Passes(q.snapshot, rs, port);
      assert forall k :: 0 <= k < |rs| ==> !Covers(rs[k], Slot(q.snapshot.host, port, q.snapshot.protocol), None);
    }
  }

  // Exactly one entry is added, refreshed or removed, or the list stays as it is.
  lemma CallEffect(rs: seq<Reservation>, q: Request)
    requires Sound(rs)
    ensures HasEffect(rs, q)
  {
    match q
    case Reserve(_, _, _, _, _, _) => ReserveEffect(rs, q);
    case Release(_, _) => ReleaseEffect(rs, q);
    case ReleaseById(_, _) => ReleaseEffect(rs, q);
    case RecommendAndReserve(_, _, _, _, _, _) => RecommendEffect(rs, q);
  }

  // Nobody's slot, id or owner moves: entries are kept, refreshed, removed or added at the end.
  ghost predicate Steady(rs: seq<Reservation>, now: seq<Reservation>) {
    forall k, j :: 0 <= k < |rs| && 0 <= j < |now| && rs[k].id == now[j].id ==>
      rs[k].project == now[j].project && SlotOf(rs[k]) == SlotOf(now[j])
  }

  lemma ClaimKeepsSound(rs: seq<Reservation>, now: seq<Reservation>, slot: Slot, project: Project, id: string)
    requires Sound(rs) && !HasId(rs, id) && Claims(rs, now, slot, project, id)
    ensures Sound(now) && Steady(rs, now)
  {
    assert forall k :: 0 <= k < |rs| ==> now[k] == now[..|rs|][k] == rs[k];
    assert forall k :: 0 <= k < |rs| ==> rs[k].id != id;
  }

  lemma RefreshKeepsSound(rs: seq<Reservation>, now: seq<Reservation>, q: Request, i: int)
    requires Sound(rs) && RefreshesAt(rs, now, q, i)
    ensures Sound(now) && Steady(rs, now)
  {
    assert forall k :: 0 <= k < |rs| ==> SlotOf(now[k]) == SlotOf(rs[k]) && now[k].id == rs[k].id;
  }

  lemma RemovalKeepsSound(rs: seq<Reservation>, now: seq<Reservation>, i: nat)
    requires Sound(rs) && Removes(rs, now, i)
    ensures Sound(now) && Steady(rs, now)
  {
    assert forall j :: 0 <= j < |now| ==> now[j] == rs[if j < i then j else j + 1];
  }

  lemma CallKeepsSound(rs: seq<Reservation>, q: Request)
    requires Sound(rs) && FreshId(rs, q)
    ensures Sound(After(rs, q)) && Steady(rs, After(rs, q))
  {
    CallEffect(rs, q);
    var outcome, now := Decide(rs, q).0, After(rs, q);
    if outcome == UpdatedSameProject {
      var i :| 0 <= i < |rs| && RefreshesAt(rs, now, q, i);
      RefreshKeepsSound(rs, now, q, i);
    } else if outcome == Released {
      var i :| 0 <= i < |rs| && Names(q, rs[i]) && Removes(rs, now, i);
      RemovalKeepsSound(rs, now, i);
    } else if outcome in {Created, AdoptedActiveSameProject} {
      ClaimKeepsSound(rs, now, q.slot, q.project, q.newId);
    } else if outcome.RecommendedAndReserved? {
      ClaimKeepsSound(rs, now, Slot(q.snapshot.host, outcome.port, q.snapshot.protocol), q.project, q.newId);
    } else {
      assert Steady(rs, rs);
    }
  }

  // What a call may not touch: whatever belongs to a project other than the one it names.
  ghost predicate OffLimits(q: Request, r: Reservation) {
    match q
    case Reserve(_, project, _, _, _, _) => !SameProject(Some(r.project), Some(project))
    case Release(_, project) => !SameProject(Some(r.project), Some(project))
    case ReleaseById(_, claimant) => claimant.Some? && !SameProject(Some(r.project), claimant)
    case RecommendAndReserve(_, _, _, _, _, _) => true
  }

  lemma RemovalSpares(rs: seq<Reservation>, now: seq<Reservation>, i: nat, k: nat)
    requires Removes(rs, now, i) && k < |rs| && k != i
    ensures rs[k] in now
  {
    assert now[if k < i then k else k - 1] == rs[k];
  }

  // A call that names a project touches no reservation of any other.
  lemma OthersUntouched(rs: seq<Reservation>, q: Request, k: nat)
    requires Sound(rs) && k < |rs| && OffLimits(q, rs[k])
    ensures rs[k] in After(rs, q)
  {
    CallEffect(rs, q);
    var outcome, now := Decide(rs, q).0, After(rs, q);
    if outcome == UpdatedSameProject {
      var i :| 0 <= i < |rs| && RefreshesAt(rs, now, q, i);
      assert now[k] == rs[k];
    } else if outcome == Released {
      var i :| 0 <= i < |rs| && Names(q, rs[i]) && Removes(rs, now, i);
      RemovalSpares(rs, now, i, k);
    } else if outcome in {Created, AdoptedActiveSameProject} || outcome.RecommendedAndReserved? {
      assert now[k] == now[..|rs|][k];
    }
  }

  // While its id is in the list, a reservation keeps its slot and its project.
  lemma OwnersFixed(rs: seq<Reservation>, q: Request, r: Reservation, s: Reservation)
    requires Sound(rs) && FreshId(rs, q) && r in rs && s in After(rs, q) && r.id == s.id
    ensures s.project == r.project && SlotOf(s) == SlotOf(r)
  {
    CallKeepsSound(rs, q);
  }

  // What success means for the caller: the slot is reserved for its project, or, for a
  // project without a name, by the reservation just made.
  lemma ReserveSucceedsIff(rs: seq<Reservation>, q: Request)
    requires Sound(rs) && FreshId(rs, q) && q.Reserve?
    ensures Successful(Decide(rs, q).0) <==>
            exists r :: r in After(rs, q) && SlotOf(r) == q.slot && HeldFor(r, q)
  {
    ReserveEffect(rs, q);
    var outcome, now := Decide(rs, q).0, After(rs, q);
    if outcome == UpdatedSameProject {
      var i :| 0 <= i < |rs| && RefreshesAt(rs, now, q, i);
      assert now[i] in now;
    } else if outcome in {Created, AdoptedActiveSameProject} {
      assert now[|rs|] in now;
    } else {
      forall k | 0 <= k < |rs| ensures !(SlotOf(rs[k]) == q.slot && HeldFor(rs[k], q)) {
        assert HasId(rs, rs[k].id);
      }
    }
  }

  ghost predicate HeldFor(r: Reservation, q: Request)
    requires q.Reserve?
  {
    SameProject(Some(r.project), Some(q.project)) || (r.id == q.newId && r.project == q.project)
  }

  // A project without a name gets a slot exactly if nobody has it and nothing listens there.
  lemma NamelessReserveIff(rs: seq<Reservation>, q: Request)
    requires Sound(rs) && q.Reserve? && q.project == ""
    ensures Successful(Decide(rs, q).0) <==>
      && (forall k :: 0 <= k < |rs| ==> SlotOf(rs[k]) != q.slot)
      && (forall k :: 0 <= k < |q.discovered| ==> !Listens(q.discovered[k], q.slot.port, q.slot.protocol))
  {
  }

  function NamelessRequest(): Request {
    Reserve(Slot("host", 8000, TCP), "", Details(None, None, None, None), [], "id", 0)
  }

  // A project without a name gets a reservation that it can neither refresh nor release.
  lemma NamelessIsStuck()
    ensures var q := NamelessRequest();
      && Sound([]) && FreshId([], q)
      && Decide([], q).0 == Created
      && Decide(After([], q), q).0 == RefusedOtherProjectReservation
      && Decide(After([], q), Release(q.slot, "")).0 == RefusedOtherProject
  {
    var q := NamelessRequest();
    assert After([], q)[0].project == "" && SlotOf(After([], q)[0]) == q.slot;
  }

  lemma ReleaseSucceedsIff(rs: seq<Reservation>, q: Request)
    requires Sound(rs) && q.Release?
    ensures Successful(Decide(rs, q).0) <==> forall r :: r in After(rs, q) ==> SlotOf(r) != q.slot
  {
    ReleaseEffect(rs, q);
  }

  lemma ReleaseByIdSucceedsIff(rs: seq<Reservation>, q: Request)
    requires Sound(rs) && q.ReleaseById?
    ensures Successful(Decide(rs, q).0) <==> !HasId(After(rs, q), q.id)
  {
    ReleaseEffect(rs, q);
  }

  // Releasing what was just reserved restores the list, exactly if the project has a name.
  lemma ReleaseUndoesReserveIff(rs: seq<Reservation>, q: Request)
    requires Sound(rs) && FreshId(rs, q) && q.Reserve? && Decide(rs, q).0 in {Created, AdoptedActiveSameProject}
    ensures q.project != "" <==> After(After(rs, q), Release(q.slot, q.project)) == rs
  {
    CallEffect(rs, q);
    CallKeepsSound(rs, q);
    var now := After(rs, q);
    assert IndexAt(now, q.slot) == |rs|;
    if q.project != "" {
      WithoutRemoves(now, |rs|);
    }
  }

  // Reserving again, with whatever new id, refreshes the one reservation: the same request
  // at the same time changes nothing, exactly if the project has a name.
  lemma ReserveAgainIff(rs: seq<Reservation>, q: Request, again: Request)
    requires Sound(rs) && FreshId(rs, q) && q.Reserve? && Decide(rs, q).0 in {Created, AdoptedActiveSameProject}
    requires again.Reserve? && again == Reserve(q.slot, q.project, q.details, q.discovered, again.newId, q.now)
    ensures q.project != "" <==> Decide(After(rs, q), again).0 == UpdatedSameProject
    ensures After(After(rs, q), again) == After(rs, q)
  {
    CallEffect(rs, q);
    var now := After(rs, q);
    assert IndexAt(now, q.slot) == |rs|;
    assert now[|rs| := now[|rs|]] == now;
  }
}
