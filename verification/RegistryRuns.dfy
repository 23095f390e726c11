// Runs of reservation calls, one after the other: what holds of the saved list after any
// number of critical sections.
module RegistryRuns {
  import opened Models
  import opened Registry
  import opened RegistrySafety

  function Replay(init: seq<Reservation>, qs: seq<Request>): seq<Reservation> {
    if qs == [] then init else After(Replay(init, qs[..|qs| - 1]), qs[|qs| - 1])
  }

  // The list before, and the outcome of, the k-th call.
  function Before(init: seq<Reservation>, qs: seq<Request>, k: nat): seq<Reservation>
    requires k <= |qs|
  {
    Replay(init, qs[..k])
  }

  function OutcomeAt(init: seq<Reservation>, qs: seq<Request>, k: nat): Outcome
    requires k < |qs|
  {
    Decide(Before(init, qs, k), qs[k]).0
  }

  lemma Next(init: seq<Reservation>, qs: seq<Request>, k: nat)
    requires k < |qs|
    ensures Before(init, qs, k + 1) == After(Before(init, qs, k), qs[k])
  {
    assert qs[..k + 1][..k] == qs[..k];
  }

  predicate Draws(q: Request, id: string) {
    (q.Reserve? || q.RecommendAndReserve?) && q.newId == id
  }

  // Random ids: none was in the list to begin with, none is drawn twice.
  ghost predicate FreshIds(init: seq<Reservation>, qs: seq<Request>) {
    && (forall k :: 0 <= k < |qs| ==> FreshId(init, qs[k]))
    && (forall j, k, id :: 0 <= j < k < |qs| && Draws(qs[j], id) ==> !Draws(qs[k], id))
  }

  ghost predicate NoNewId(rs: seq<Reservation>, now: seq<Reservation>) {
    forall j :: 0 <= j < |now| ==> HasId(rs, now[j].id)
  }

  lemma RefreshNoNewId(rs: seq<Reservation>, now: seq<Reservation>, q: Request, i: int)
    requires RefreshesAt(rs, now, q, i)
    ensures NoNewId(rs, now)
  {
    assert forall j :: 0 <= j < |now| ==> rs[j].id == now[j].id;
  }

  lemma RemovalNoNewId(rs: seq<Reservation>, now: seq<Reservation>, i: nat)
    requires Removes(rs, now, i)
    ensures NoNewId(rs, now)
  {
    assert forall j :: 0 <= j < |now| ==> rs[if j < i then j else j + 1].id == now[j].id;
  }

  lemma ClaimNoNewId(rs: seq<Reservation>, now: seq<Reservation>, slot: Slot, project: Project, newId: string,
                     id: string)
    requires Claims(rs, now, slot, project, newId) && HasId(now, id)
    ensures HasId(rs, id) || id == newId
  {
    var j :| 0 <= j < |now| && now[j].id == id;
    assert j < |rs| ==> now[..|rs|][j] == rs[j];
  }

  lemma NewIdsDrawn(rs: seq<Reservation>, q: Request, id: string)
    requires Sound(rs) && HasId(After(rs, q), id)
    ensures HasId(rs, id) || Draws(q, id)
  {
    CallEffect(rs, q);
    var outcome, now := Decide(rs, q).0, After(rs, q);
    if outcome == UpdatedSameProject {
      var i :| 0 <= i < |rs| && RefreshesAt(rs, now, q, i);
      RefreshNoNewId(rs, now, q, i);
    } else if outcome == Released {
      var i :| 0 <= i < |rs| && Names(q, rs[i]) && Removes(rs, now, i);
      RemovalNoNewId(rs, now, i);
    } else if outcome in {Created, AdoptedActiveSameProject} {
      ClaimNoNewId(rs, now, q.slot, q.project, q.newId, id);
    } else if outcome.RecommendedAndReserved? {
      ClaimNoNewId(rs, now, Slot(q.snapshot.host, outcome.port, q.snapshot.protocol), q.project, q.newId, id);
    }
  }

  lemma SoundNext(init: seq<Reservation>, qs: seq<Request>, n: nat)
    requires n < |qs| && Sound(Before(init, qs, n)) && FreshId(Before(init, qs, n), qs[n])
    ensures Sound(Before(init, qs, n + 1)) && Steady(Before(init, qs, n), Before(init, qs, n + 1))
  {
    Next(init, qs, n);
    CallKeepsSound(Before(init, qs, n), qs[n]);
  }

  lemma IdsNext(init: seq<Reservation>, qs: seq<Request>, n: nat, id: string)
    requires n < |qs| && Sound(Before(init, qs, n)) && HasId(Before(init, qs, n + 1), id)
    ensures HasId(Before(init, qs, n), id) || Draws(qs[n], id)
  {
    Next(init, qs, n);
    NewIdsDrawn(Before(init, qs, n), qs[n], id);
  }

  lemma {:induction false} IdsAfter(init: seq<Reservation>, qs: seq<Request>, n: nat, id: string)
    requires Sound(init) && FreshIds(init, qs) && n <= |qs|
    ensures Sound(Before(init, qs, n))
    ensures HasId(Before(init, qs, n), id) ==> HasId(init, id) || exists k :: 0 <= k < n && Draws(qs[k], id)
  {
    hide Replay, After, Sound;
    if n > 0 {
      IdsAfter(init, qs, n - 1, id);
      FreshAt(init, qs, n - 1);
      SoundNext(init, qs, n - 1);
      if HasId(Before(init, qs, n), id) {
        IdsNext(init, qs, n - 1, id);
      }
    } else {
      StartsAtInit(init, qs);
    }
  }

  lemma StartsAtInit(init: seq<Reservation>, qs: seq<Request>)
    ensures Before(init, qs, 0) == init
  {
  }

  lemma {:induction false} FreshAt(init: seq<Reservation>, qs: seq<Request>, n: nat)
    requires Sound(init) && FreshIds(init, qs) && n < |qs|
    ensures FreshId(Before(init, qs, n), qs[n])
  {
    if (qs[n].Reserve? || qs[n].RecommendAndReserve?) && HasId(Before(init, qs, n), qs[n].newId) {
      IdsAfter(init, qs, n, qs[n].newId);
      assert Draws(qs[n], qs[n].newId);
    }
  }

  // Over any run: at most one reservation per slot, and distinct ids.
  lemma RunSound(init: seq<Reservation>, qs: seq<Request>)
    requires Sound(init) && FreshIds(init, qs)
    ensures Sound(Replay(init, qs))
  {
    IdsAfter(init, qs, |qs|, "");
    assert qs[..|qs|] == qs;
  }

  /* A reservation's life. */

  ghost predicate Holds(rs: seq<Reservation>, id: string, slot: Slot, project: Project) {
    exists k :: 0 <= k < |rs| && rs[k].id == id && SlotOf(rs[k]) == slot && rs[k].project == project
  }

  lemma RemovalHolds(rs: seq<Reservation>, now: seq<Reservation>, i: nat, k: nat)
    requires Removes(rs, now, i) && k < |rs| && k != i
    ensures Holds(now, rs[k].id, SlotOf(rs[k]), rs[k].project)
  {
    assert now[if k < i then k else k - 1] == rs[k];
  }

  lemma RefreshHolds(rs: seq<Reservation>, now: seq<Reservation>, q: Request, i: int, k: nat)
    requires RefreshesAt(rs, now, q, i) && k < |rs|
    ensures Holds(now, rs[k].id, SlotOf(rs[k]), rs[k].project)
  {
    assert now[k].id == rs[k].id && SlotOf(now[k]) == SlotOf(rs[k]) && now[k].project == rs[k].project;
  }

  lemma PrefixHolds(rs: seq<Reservation>, now: seq<Reservation>, k: nat)
    requires k < |rs| && rs <= now
    ensures Holds(now, rs[k].id, SlotOf(rs[k]), rs[k].project)
  {
    assert now[k] == rs[k];
  }

  // Only a successful release that names it takes a reservation out.
  lemma LeavesOnlyByRelease(rs: seq<Reservation>, q: Request, id: string, slot: Slot, project: Project)
    requires Sound(rs) && Holds(rs, id, slot, project)
    ensures Holds(After(rs, q), id, slot, project) || (Decide(rs, q).0 == Released && ReleasesIt(rs, q, id))
  {
    CallEffect(rs, q);
    var outcome, now := Decide(rs, q).0, After(rs, q);
    var k :| 0 <= k < |rs| && rs[k].id == id && SlotOf(rs[k]) == slot && rs[k].project == project;
    match outcome
    case UpdatedSameProject =>
      var i :| 0 <= i < |rs| && RefreshesAt(rs, now, q, i);
      RefreshHolds(rs, now, q, i, k);
    case Released =>
      var i :| 0 <= i < |rs| && Names(q, rs[i]) && Removes(rs, now, i);
      if i != k {
        RemovalHolds(rs, now, i, k);
      }
    case _ => PrefixHolds(rs, now, k);
  }

  ghost predicate ReleasesIt(rs: seq<Reservation>, q: Request, id: string) {
    exists k :: 0 <= k < |rs| && rs[k].id == id && Names(q, rs[k])
  }

  ghost predicate ReleasedBetween(init: seq<Reservation>, qs: seq<Request>, i: nat, n: nat, id: string)
    requires n <= |qs|
  {
    exists j :: i <= j < n && OutcomeAt(init, qs, j) == Released && ReleasesIt(Before(init, qs, j), qs[j], id)
  }

  // From then on it stays, with its slot and its project, until such a release.
  lemma {:induction false} StaysUntilReleased(init: seq<Reservation>, qs: seq<Request>, i: nat, n: nat, id: string,
                                              slot: Slot, project: Project)
    requires Sound(init) && FreshIds(init, qs) && i <= n <= |qs|
    requires Holds(Before(init, qs, i), id, slot, project)
    ensures Holds(Before(init, qs, n), id, slot, project) || ReleasedBetween(init, qs, i, n, id)
  {
    if i < n {
      StaysUntilReleased(init, qs, i, n - 1, id, slot, project);
      if Holds(Before(init, qs, n - 1), id, slot, project) {
        Next(init, qs, n - 1);
        IdsAfter(init, qs, n - 1, id);
        LeavesOnlyByRelease(Before(init, qs, n - 1), qs[n - 1], id, slot, project);
      }
    }
  }

  // What a successful claim is for.
  function ClaimedSlot(q: Request, outcome: Outcome): Slot
    requires q.Reserve? || (q.RecommendAndReserve? && outcome.RecommendedAndReserved?)
  {
    if q.Reserve? then q.slot else Slot(q.snapshot.host, outcome.port, q.snapshot.protocol)
  }

  predicate IsClaim(outcome: Outcome) {
    outcome == Created || outcome == AdoptedActiveSameProject || outcome.RecommendedAndReserved?
  }

  // No claim is lost: it is still there at the end of the run, unless a later release that
  // names it succeeded.
  lemma NoClaimIsLost(init: seq<Reservation>, qs: seq<Request>, k: nat)
    requires Sound(init) && FreshIds(init, qs) && k < |qs| && IsClaim(OutcomeAt(init, qs, k))
    ensures qs[k].Reserve? || (qs[k].RecommendAndReserve? && OutcomeAt(init, qs, k).RecommendedAndReserved?)
    ensures var slot := ClaimedSlot(qs[k], OutcomeAt(init, qs, k));
      Holds(Replay(init, qs), qs[k].newId, slot, qs[k].project) || ReleasedBetween(init, qs, k + 1, |qs|, qs[k].newId)
  {
    ClaimedAt(init, qs, k);
    var q, slot := qs[k], ClaimedSlot(qs[k], OutcomeAt(init, qs, k));
    StaysUntilReleased(init, qs, k + 1, |qs|, q.newId, slot, q.project);
    assert qs[..|qs|] == qs;
  }

  ghost predicate OnlyAt(rs: seq<Reservation>, id: string, slot: Slot) {
    forall k :: 0 <= k < |rs| && rs[k].id == id ==> SlotOf(rs[k]) == slot
  }

  lemma ClaimedAt(init: seq<Reservation>, qs: seq<Request>, k: nat)
    requires Sound(init) && FreshIds(init, qs) && k < |qs| && IsClaim(OutcomeAt(init, qs, k))
    ensures qs[k].Reserve? || (qs[k].RecommendAndReserve? && OutcomeAt(init, qs, k).RecommendedAndReserved?)
    ensures OnlyAt(Before(init, qs, k + 1), qs[k].newId, ClaimedSlot(qs[k], OutcomeAt(init, qs, k)))
    ensures Holds(Before(init, qs, k + 1), qs[k].newId, ClaimedSlot(qs[k], OutcomeAt(init, qs, k)), qs[k].project)
  {
    var rs, q := Before(init, qs, k), qs[k];
    IdsAfter(init, qs, k, q.newId);
    FreshAt(init, qs, k);
    Next(init, qs, k);
    CallEffect(rs, q);
    ClaimShows(rs, After(rs, q), ClaimedSlot(q, Decide(rs, q).0), q.project, q.newId);
  }

  lemma ClaimShows(rs: seq<Reservation>, now: seq<Reservation>, slot: Slot, project: Project, id: string)
    requires Claims(rs, now, slot, project, id) && !HasId(rs, id)
    ensures OnlyAt(now, id, slot) && Holds(now, id, slot, project)
  {
    assert now[|rs|].id == id;
    assert forall k :: 0 <= k < |rs| ==> now[k] == now[..|rs|][k] && rs[k].id != id;
  }

  lemma SteadyOnlyAt(rs: seq<Reservation>, now: seq<Reservation>, id: string, slot: Slot)
    requires Steady(rs, now) && OnlyAt(rs, id, slot) && (HasId(now, id) ==> HasId(rs, id))
    ensures OnlyAt(now, id, slot)
  {
    forall j | 0 <= j < |now| && now[j].id == id ensures SlotOf(now[j]) == slot {
      var i :| 0 <= i < |rs| && rs[i].id == id;
    }
  }

  lemma OnlyAtNext(init: seq<Reservation>, qs: seq<Request>, n: nat, id: string, slot: Slot)
    requires Sound(init) && FreshIds(init, qs) && n < |qs| && !Draws(qs[n], id)
    requires OnlyAt(Before(init, qs, n), id, slot)
    ensures OnlyAt(Before(init, qs, n + 1), id, slot)
  {
    IdsAfter(init, qs, n, id);
    FreshAt(init, qs, n);
    SoundNext(init, qs, n);
    if HasId(Before(init, qs, n + 1), id) {
      IdsNext(init, qs, n, id);
    }
    SteadyOnlyAt(Before(init, qs, n), Before(init, qs, n + 1), id, slot);
  }

  lemma {:induction false} ClaimKeepsItsSlot(init: seq<Reservation>, qs: seq<Request>, i: nat, n: nat, id: string,
                                             slot: Slot)
    requires Sound(init) && FreshIds(init, qs) && i <= n <= |qs|
    requires OnlyAt(Before(init, qs, i), id, slot)
    requires forall k :: i <= k < n ==> !Draws(qs[k], id)
    ensures OnlyAt(Before(init, qs, n), id, slot)
    decreases n - i
  {
    if i < n {
      OnlyAtNext(init, qs, i, id, slot);
      ClaimKeepsItsSlot(init, qs, i + 1, n, id, slot);
    }
  }

  lemma DrawnOnce(init: seq<Reservation>, qs: seq<Request>, k: nat, slot: Slot)
    requires Sound(init) && FreshIds(init, qs) && k < |qs| && qs[k].RecommendAndReserve?
    requires OnlyAt(Before(init, qs, k + 1), qs[k].newId, slot)
    ensures OnlyAt(Replay(init, qs), qs[k].newId, slot)
  {
    assert Draws(qs[k], qs[k].newId);
    ClaimKeepsItsSlot(init, qs, k + 1, |qs|, qs[k].newId, slot);
    assert qs[..|qs|] == qs;
  }

  // Two calls whose reservations coexist never hold the same host, protocol and port.
  lemma CoexistingClaimsDiffer(init: seq<Reservation>, qs: seq<Request>, j: nat, k: nat)
    requires Sound(init) && FreshIds(init, qs) && j < k < |qs|
    requires qs[j].RecommendAndReserve? && qs[k].RecommendAndReserve?
    requires IsClaim(OutcomeAt(init, qs, j)) && IsClaim(OutcomeAt(init, qs, k))
    requires HasId(Replay(init, qs), qs[j].newId) && HasId(Replay(init, qs), qs[k].newId)
    ensures OutcomeAt(init, qs, j).RecommendedAndReserved? && OutcomeAt(init, qs, k).RecommendedAndReserved?
    ensures ClaimedSlot(qs[j], OutcomeAt(init, qs, j)) != ClaimedSlot(qs[k], OutcomeAt(init, qs, k))
  {
    ClaimedAt(init, qs, j);
    ClaimedAt(init, qs, k);
    CoexistingSlotsDiffer(init, qs, j, k, ClaimedSlot(qs[j], OutcomeAt(init, qs, j)),
        ClaimedSlot(qs[k], OutcomeAt(init, qs, k)));
  }

  lemma CoexistingSlotsDiffer(init: seq<Reservation>, qs: seq<Request>, j: nat, k: nat, x: Slot, y: Slot)
    requires Sound(init) && FreshIds(init, qs) && j < k < |qs|
    requires qs[j].RecommendAndReserve? && qs[k].RecommendAndReserve?
    requires OnlyAt(Before(init, qs, j + 1), qs[j].newId, x) && OnlyAt(Before(init, qs, k + 1), qs[k].newId, y)
    requires HasId(Replay(init, qs), qs[j].newId) && HasId(Replay(init, qs), qs[k].newId)
    ensures x != y
  {
    DrawnOnce(init, qs, j, x);
    DrawnOnce(init, qs, k, y);
    RunSound(init, qs);
    IdsDiffer(init, qs, j, k);
    TwoSlots(Replay(init, qs), qs[j].newId, qs[k].newId, x, y);
  }

  lemma IdsDiffer(init: seq<Reservation>, qs: seq<Request>, j: nat, k: nat)
    requires FreshIds(init, qs) && j < k < |qs| && qs[j].RecommendAndReserve? && qs[k].RecommendAndReserve?
    ensures qs[j].newId != qs[k].newId
  {
    assert Draws(qs[j], qs[j].newId);
  }

  lemma TwoSlots(rs: seq<Reservation>, a: string, b: string, x: Slot, y: Slot)
    requires Sound(rs) && a != b && HasId(rs, a) && HasId(rs, b) && OnlyAt(rs, a, x) && OnlyAt(rs, b, y)
    ensures x != y
  {
    var i :| 0 <= i < |rs| && rs[i].id == a;
    var j :| 0 <= j < |rs| && rs[j].id == b;
    assert i != j;
  }
}
