// Recommending a port: the first of a range that no layer objects to.
module Recommend {
  import opened Wrappers
  import opened Models
  import opened Evaluate

  datatype Step = Step(name: string, passed: bool)

  // `steps` are those of the recommended candidate.
  datatype Recommendation = Recommendation(port: Option<int>, steps: seq<Step>, tried: nat, unknownType: bool)

  // The layers, in the order they are asked; the reservation layer asks for any address.
  predicate Passes(s: Snapshot, rs: seq<Reservation>, port: int) {
    && !IsExcluded(s.exclusions, port)
    && FirstListening(s.discovered, port, s.protocol) == None
    && FirstCovering(rs, Slot(s.host, port, s.protocol), None) == None
    && s.bindable(port)
  }

  // The least port from `start` to `end` that passes.
  function FirstPassing(s: Snapshot, rs: seq<Reservation>, start: int, end: int): (port: Option<int>)
    ensures port.Some? ==> start <= port.value <= end && Passes(s, rs, port.value)
    ensures port.Some? ==> forall p :: start <= p < port.value ==> !Passes(s, rs, p)
    ensures port == None <==> forall p :: start <= p <= end ==> !Passes(s, rs, p)
    decreases end - start
  {
    if start > end then None
    else if Passes(s, rs, start) then Some(start)
    else FirstPassing(s, rs, start + 1, end)
  }

  const ALL_PASSED := [
    Step("discovery", true), Step("reservation", true), Step("exclusion", true), Step("bind_probe", true)]

  function Recommended(s: Snapshot, rs: seq<Reservation>, portRange: Option<(int, int)>): Option<int> {
    if portRange == None then None else FirstPassing(s, rs, portRange.value.0, portRange.value.1)
  }

  // The candidate loop finds the least passing port, having tried it and all below it.
  method RecommendPort(s: Snapshot, rs: seq<Reservation>, portRange: Option<(int, int)>) returns (r: Recommendation)
    ensures r.port == Recommended(s, rs, portRange)
    ensures r.unknownType == portRange.None?
    ensures portRange == None ==> r.tried == 0
    ensures portRange.Some? && r.port.Some? ==> r.tried == r.port.value - portRange.value.0 + 1 && r.steps == ALL_PASSED
    ensures portRange.Some? && r.port == None ==>
      r.steps == [] && r.tried ==
          if portRange.value.0 <= portRange.value.1 then portRange.value.1 - portRange.value.0 + 1 else 0
  {
    hide IsExcluded, FirstListening, FirstCovering;
    if portRange == None {
      return Recommendation(None, [], 0, true);
    }
    var (start, end) := portRange.value;
    var tried: nat := 0;
    var candidate := start;
    while candidate <= end
      invariant tried == candidate - start && candidate <= (if start <= end then end + 1 else start)
      invariant FirstPassing(s, rs, start, end) == FirstPassing(s, rs, candidate, end)
    {
      var port := candidate;
      candidate, tried := candidate + 1, tried + 1;
      var steps: seq<Step> := [];
      if IsExcluded(s.exclusions, port) {
        steps := steps + [Step("exclusion", false)];
        continue;
      }
      var existing := FindDiscovered(s.discovered, port, s.protocol);
      if existing.Some? {
        steps := steps + [Step("discovery", false)];
        continue;
      }
      steps := steps + [Step("discovery", true)];
      var reservation := FindReservation(rs, Slot(s.host, port, s.protocol), None);
      if reservation.Some? {
        steps := steps + [Step("reservation", false)];
        continue;
      }
      steps := steps + [Step("reservation", true)];
      steps := steps + [Step("exclusion", true)];
      if !s.bindable(port) {
        steps := steps + [Step("bind_probe", false)];
        continue;
      }
      steps := steps + [Step("bind_probe", true)];
      return Recommendation(Some(port), steps, tried, false);
    }
    return Recommendation(None, [], tried, false);
  }

  // A port passes exactly if `check` calls it available and it is not reserved at some
  // other address.
  lemma PassesIffAvailable(s: Snapshot, rs: seq<Reservation>, port: int)
    ensures Passes(s, rs, port) <==>
            CheckAvailable(s, rs, port) && forall k :: 0 <= k < |rs| ==> !ReservedElsewhere(s, rs[k], port)
  {
    var slot := Slot(s.host, port, s.protocol);
    if Passes(s, rs, port) {
      assert forall k :: 0 <= k < |rs| ==> !Covers(rs[k], slot, None);
    }
    if forall k :: 0 <= k < |rs| ==> !Covers(rs[k], slot, Some(s.address)) && !ReservedElsewhere(s, rs[k], port) {
      assert forall k :: 0 <= k < |rs| ==> !Covers(rs[k], slot, None);
    }
  }

  predicate ReservedElsewhere(s: Snapshot, r: Reservation, port: int) {
    SlotOf(r) == Slot(s.host, port, s.protocol) && r.details.bindAddress.Some? &&
        r.details.bindAddress != Some(s.address)
  }

  // Under one snapshot `check` reports every recommended port available; and a smaller port
  // it reports available was passed over for a reservation at another address only.
  lemma CheckAgrees(s: Snapshot, rs: seq<Reservation>, start: int, end: int)
    ensures var r := FirstPassing(s, rs, start, end);
      && (r.Some? ==> CheckAvailable(s, rs, r.value))
      && (forall p :: start <= p <= end && (r.Some? ==> p < r.value) && CheckAvailable(s, rs, p) ==>
            exists k :: 0 <= k < |rs| && ReservedElsewhere(s, rs[k], p))
  {
    forall p ensures Passes(s, rs, p) <==>
      CheckAvailable(s, rs, p) && forall k :: 0 <= k < |rs| ==> !ReservedElsewhere(s, rs[k], p)
    {
      PassesIffAvailable(s, rs, p);
    }
  }
}
