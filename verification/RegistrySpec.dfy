// What each reservation call answers, told from the list it finds.
module RegistrySpec {
  import opened Wrappers
  import opened Models
  import opened Evaluate
  import opened EvaluateSpec
  import opened Recommend
  import opened Registry

  ghost predicate FirstAt(rs: seq<Reservation>, slot: Slot, i: nat) {
    i < |rs| && Reserves(rs[i], slot) && forall k :: 0 <= k < i ==> !Reserves(rs[k], slot)
  }

  ghost predicate FirstWithId(rs: seq<Reservation>, id: string, i: nat) {
    i < |rs| && rs[i].id == id && forall k :: 0 <= k < i ==> rs[k].id != id
  }

  // A slot somebody has is refreshed for its owner and refused to others. A free one is given
  // unless another project, or nobody known, listens there.
  ghost predicate ReserveAnswers(rs: seq<Reservation>, q: Request, o: Outcome)
    requires q.Reserve?
  {
    if exists i: nat :: FirstAt(rs, q.slot, i) then
      exists i: nat :: FirstAt(rs, q.slot, i) &&
        o == if Owns(Some(rs[i].project), Some(q.project)) then UpdatedSameProject else RefusedOtherProjectReservation
    else
      exists d :: FirstListener(q.discovered, q.slot.port, q.slot.protocol, d) &&
        o == if d == None then Created
             else if Owns(d.value.projectName, Some(q.project)) then AdoptedActiveSameProject
             else RefusedActiveOtherOwner
  }

  // Nothing to release is no error; what there is only its owner may release.
  ghost predicate ReleaseAnswers(rs: seq<Reservation>, q: Request, o: Outcome)
    requires q.Release?
  {
    if exists i: nat :: FirstAt(rs, q.slot, i) then
      exists i: nat :: FirstAt(rs, q.slot, i) &&
        o == if Owns(Some(rs[i].project), Some(q.project)) then Released else RefusedOtherProject
    else o == AlreadyAbsent
  }

  // By id, whoever claims no project may release anything.
  ghost predicate ReleaseByIdAnswers(rs: seq<Reservation>, q: Request, o: Outcome)
    requires q.ReleaseById?
  {
    if exists i: nat :: FirstWithId(rs, q.id, i) then
      exists i: nat :: FirstWithId(rs, q.id, i) &&
        o == if q.claimant == None || Owns(Some(rs[i].project), q.claimant) then Released else RefusedOtherProject
    else o == AlreadyAbsent
  }

  // The least clear port of the range is reserved, if there is one.
  ghost predicate RecommendAnswers(rs: seq<Reservation>, q: Request, o: Outcome)
    requires q.RecommendAndReserve?
  {
    match o
    case RecommendedAndReserved(port) => LeastClear(q.snapshot, rs, q.portRange, port)
    case NoCandidate => forall port :: !LeastClear(q.snapshot, rs, q.portRange, port)
    case _ => false
  }

  ghost predicate Answers(rs: seq<Reservation>, q: Request, o: Outcome) {
    match q
    case Reserve(_, _, _, _, _, _) => ReserveAnswers(rs, q, o)
    case Release(_, _) => ReleaseAnswers(rs, q, o)
    case ReleaseById(_, _) => ReleaseByIdAnswers(rs, q, o)
    case RecommendAndReserve(_, _, _, _, _, _) => RecommendAnswers(rs, q, o)
  }

  lemma FirstIndex(rs: seq<Reservation>, slot: Slot)
    ensures var i := IndexAt(rs, slot);
      if i < |rs| then FirstAt(rs, slot, i) else forall k: nat :: !FirstAt(rs, slot, k)
  {
    hide Reserves, SlotOf;
    forall k | 0 <= k < |rs| ensures SlotOf(rs[k]) == slot <==> Reserves(rs[k], slot) {
      CoversIff(rs[k], slot, None);
    }
  }

  lemma ReserveAnswer(rs: seq<Reservation>, q: Request)
    requires q.Reserve?
    ensures ReserveAnswers(rs, q, Decide(rs, q).0)
  {
    hide FirstAt, FirstListener, Owns, SameProject, Refreshed, NewReservation;
    var i := IndexAt(rs, q.slot);
    FirstIndex(rs, q.slot);
    var d := FirstListening(q.discovered, q.slot.port, q.slot.protocol);
    if i < |rs| {
      SameProjectIff(Some(rs[i].project), Some(q.project));
    } else {
      FirstListeningIs(q.discovered, q.slot.port, q.slot.protocol);
      if d.Some? {
        SameProjectIff(d.value.projectName, Some(q.project));
      }
    }
  }

  lemma ReleaseAnswer(rs: seq<Reservation>, q: Request)
    requires q.Release?
    ensures ReleaseAnswers(rs, q, Decide(rs, q).0)
  {
    hide FirstAt, Owns, SameProject, Without;
    var i := IndexAt(rs, q.slot);
    FirstIndex(rs, q.slot);
    if i < |rs| {
      SameProjectIff(Some(rs[i].project), Some(q.project));
    }
  }

  lemma ReleaseByIdAnswer(rs: seq<Reservation>, q: Request)
    requires q.ReleaseById?
    ensures ReleaseByIdAnswers(rs, q, Decide(rs, q).0)
  {
    hide Owns, SameProject, Without;
    var i := IndexOfId(rs, q.id);
    if i < |rs| {
      assert FirstWithId(rs, q.id, i);
      SameProjectIff(Some(rs[i].project), q.claimant);
    }
  }

  lemma RecommendAnswer(rs: seq<Reservation>, q: Request)
    requires q.RecommendAndReserve?
    ensures RecommendAnswers(rs, q, Decide(rs, q).0)
  {
    hide Recommended, LeastClear, NewReservation;
    forall port ensures Recommended(q.snapshot, rs, q.portRange) == Some(port) <==>
      LeastClear(q.snapshot, rs, q.portRange, port)
    {
      RecommendedIff(q.snapshot, rs, q.portRange, port);
    }
  }

  // Every call answers in exactly this way.
  lemma CallAnswers(rs: seq<Reservation>, q: Request)
    ensures Answers(rs, q, Decide(rs, q).0)
  {
    hide Decide, ReserveAnswers, ReleaseAnswers, ReleaseByIdAnswers, RecommendAnswers;
    match q
    case Reserve(_, _, _, _, _, _) => ReserveAnswer(rs, q);
    case Release(_, _) => ReleaseAnswer(rs, q);
    case ReleaseById(_, _) => ReleaseByIdAnswer(rs, q);
    case RecommendAndReserve(_, _, _, _, _, _) => RecommendAnswer(rs, q);
  }
}
