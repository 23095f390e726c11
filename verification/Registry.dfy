// The reservation operations: what each decides from the loaded list, and the store whose
// critical sections perform them.
module Registry {
  import opened Wrappers
  import opened Models
  import opened Evaluate
  import opened Recommend

  // One call: its arguments, what it discovered before taking the lock, and the id and time
  // it would give a new reservation.
  datatype Request =
    | Reserve(slot: Slot, project: Project, details: Details, discovered: seq<DiscoveredPort>, newId: string, now: nat)
    | Release(slot: Slot, project: Project)
    | ReleaseById(id: string, claimant: Option<Project>)
    | RecommendAndReserve(snapshot: Snapshot, portRange: Option<(int, int)>, project: Project, details: Details,
        newId: string, now: nat)

  datatype Outcome =
    | Created
    | AdoptedActiveSameProject
    | UpdatedSameProject
    | RefusedOtherProjectReservation
    | RefusedActiveOtherOwner
    | Released
    | AlreadyAbsent
    | RefusedOtherProject
    | RecommendedAndReserved(port: int)
    | NoCandidate

  function Successful(outcome: Outcome): bool {
    outcome in {Created, AdoptedActiveSameProject, UpdatedSameProject, Released, AlreadyAbsent} ||
    outcome.RecommendedAndReserved?
  }

  /* What each call decides. */

  function IndexAt(rs: seq<Reservation>, slot: Slot): (i: nat)
    ensures i <= |rs| && (i < |rs| ==> SlotOf(rs[i]) == slot)
    ensures forall k :: 0 <= k < i ==> SlotOf(rs[k]) != slot
  {
    if rs == [] then 0 else if SlotOf(rs[0]) == slot then 0 else 1 + IndexAt(rs[1..], slot)
  }

  function IndexOfId(rs: seq<Reservation>, id: string): (i: nat)
    ensures i <= |rs| && (i < |rs| ==> rs[i].id == id)
    ensures forall k :: 0 <= k < i ==> rs[k].id != id
  {
    if rs == [] then 0 else if rs[0].id == id then 0 else 1 + IndexOfId(rs[1..], id)
  }

  function Without(rs: seq<Reservation>, id: string): seq<Reservation> {
    if rs == [] then []
    else
      var init := Without(rs[..|rs| - 1], id);
      if rs[|rs| - 1].id == id then init else init + [rs[|rs| - 1]]
  }

  function Or<T>(given: Option<T>, kept: Option<T>): Option<T> {
    if given.Some? then given else kept
  }

  // A refresh keeps what the caller left out.
  function Refreshed(r: Reservation, details: Details, now: nat): Reservation {
    r.(details := Details(Or(details.service, r.details.service), Or(details.purpose, r.details.purpose),
                          Or(details.bindAddress, r.details.bindAddress), Or(details.notes, r.details.notes)),
       updatedAt := now)
  }

  function NewReservation(id: string, slot: Slot, project: Project, details: Details, now: nat): Reservation {
    Reservation(id, slot.host, slot.port, slot.protocol, project, details, now)
  }

  // The outcome, and the list to save if there is one.
  function Decide(rs: seq<Reservation>, q: Request): (Outcome, Option<seq<Reservation>>) {
    match q
    case Reserve(slot, project, details, discovered, newId, now) =>
      var i := IndexAt(rs, slot);
      if i < |rs| then
        if SameProject(Some(rs[i].project), Some(project))
        then (UpdatedSameProject, Some(rs[i := Refreshed(rs[i], details, now)]))
        else (RefusedOtherProjectReservation, None)
      else
        var active := FirstListening(discovered, slot.port, slot.protocol);
        var claimed := Some(rs + [NewReservation(newId, slot, project, details, now)]);
        if active == None then (Created, claimed)
        else if SameProject(active.value.projectName, Some(project)) then (AdoptedActiveSameProject, claimed)
        else (RefusedActiveOtherOwner, None)
    case Release(slot, project) =>
      var i := IndexAt(rs, slot);
      if i == |rs| then (AlreadyAbsent, None)
      else if !SameProject(Some(rs[i].project), Some(project)) then (RefusedOtherProject, None)
      else (Released, Some(Without(rs, rs[i].id)))
    case ReleaseById(id, claimant) =>
      var i := IndexOfId(rs, id);
      if i == |rs| then (AlreadyAbsent, None)
      else if claimant.Some? && !SameProject(Some(rs[i].project), claimant) then (RefusedOtherProject, None)
      else (Released, Some(Without(rs, id)))
    case RecommendAndReserve(snapshot, portRange, project, details, newId, now) =>
      match Recommended(snapshot, rs, portRange)
      case None => (NoCandidate, None)
      case Some(port) =>
        var slot := Slot(snapshot.host, port, snapshot.protocol);
        (RecommendedAndReserved(port),
         Some(rs + [NewReservation(newId, slot, project, details.(bindAddress := None), now)]))
  }

  function After(rs: seq<Reservation>, q: Request): seq<Reservation> {
    match Decide(rs, q).1
    case None => rs
    case Some(now) => now
  }

  /* The critical sections. */

  class ReservationStore {
    // The contents of reservations.json.
    var saved: seq<Reservation>

    constructor ()
      ensures saved == []
    {
      saved := [];
    }

    method FindExact(rs: seq<Reservation>, slot: Slot) returns (i: nat)
      ensures i == IndexAt(rs, slot)
    {
      i := 0;
      while i < |rs|
        invariant i <= |rs| && IndexAt(rs, slot) == i + IndexAt(rs[i..], slot)
      {
        if rs[i].host == slot.host && rs[i].port == slot.port && rs[i].protocol == slot.protocol {
          return;
        }
        i := i + 1;
      }
    }

    method Filter(rs: seq<Reservation>, id: string) returns (kept: seq<Reservation>)
      ensures kept == Without(rs, id)
    {
      kept := [];
      for k := 0 to |rs|
        invariant kept == Without(rs[..k], id)
      {
        assert rs[..k + 1][..k] == rs[..k];
        if rs[k].id != id {
          kept := kept + [rs[k]];
        }
      }
      assert rs[..|rs|] == rs;
    }

    method DoReserve(q: Request) returns (outcome: Outcome)
      requires q.Reserve?
      modifies this
      ensures outcome == Decide(old(saved), q).0 && saved == After(old(saved), q)
    {
      var reservations := saved;
      var i := FindExact(reservations, q.slot);
      if i < |reservations| {
        if SameProject(Some(reservations[i].project), Some(q.project)) {
          reservations := reservations[i := Refreshed(reservations[i], q.details, q.now)];
          saved := reservations;
          return UpdatedSameProject;
        }
        return RefusedOtherProjectReservation;
      }
      var active := FindDiscovered(q.discovered, q.slot.port, q.slot.protocol);
      outcome := Created;
      if active.Some? {
        if SameProject(active.value.projectName, Some(q.project)) {
          outcome := AdoptedActiveSameProject;
        } else {
          return RefusedActiveOtherOwner;
        }
      }
      reservations := reservations + [NewReservation(q.newId, q.slot, q.project, q.details, q.now)];
      saved := reservations;
    }

    method DoRelease(q: Request) returns (outcome: Outcome)
      requires q.Release?
      modifies this
      ensures outcome == Decide(old(saved), q).0 && saved == After(old(saved), q)
    {
      var i := FindExact(saved, q.slot);
      if i == |saved| {
        return AlreadyAbsent;
      }
      if !SameProject(Some(saved[i].project), Some(q.project)) {
        return RefusedOtherProject;
      }
      saved := Filter(saved, saved[i].id);
      return Released;
    }

    method DoReleaseById(q: Request) returns (outcome: Outcome)
      requires q.ReleaseById?
      modifies this
      ensures outcome == Decide(old(saved), q).0 && saved == After(old(saved), q)
    {
      var i := 0;
      while i < |saved| && saved[i].id != q.id
        invariant i <= |saved| && IndexOfId(saved, q.id) == i + IndexOfId(saved[i..], q.id)
      {
        i := i + 1;
      }
      if i == |saved| {
        return AlreadyAbsent;
      }
      if q.claimant.Some? && !SameProject(Some(saved[i].project), q.claimant) {
        return RefusedOtherProject;
      }
      saved := Filter(saved, q.id);
      return Released;
    }

    method DoRecommendAndReserve(q: Request) returns (outcome: Outcome)
      requires q.RecommendAndReserve?
      modifies this
      ensures outcome == Decide(old(saved), q).0 && saved == After(old(saved), q)
    {
      var result := RecommendPort(q.snapshot, saved, q.portRange);
      if result.port == None {
        return NoCandidate;
      }
      var slot := Slot(q.snapshot.host, result.port.value, q.snapshot.protocol);
      saved := saved + [NewReservation(q.newId, slot, q.project, q.details.(bindAddress := None), q.now)];
      return RecommendedAndReserved(result.port.value);
    }
  }
}
