// What workflow calls guarantee over every run: crashes between any two steps, lost
// responses, releases and config commands by others.
module WorkflowSafety {
  import opened Wrappers
  import opened ConfigManager
  import opened Workflow

  /* What effects leave behind. */

  ghost predicate Concerns(e: Effect, rid: RequestId) {
    (e.CreateAt? || e.ReleaseAt?) && e.requestId == rid
  }

  lemma {:induction false} CentralFrame(w: World, es: seq<Effect>, rid: RequestId)
    requires forall k :: 0 <= k < |es| ==> !Concerns(es[k], rid)
    ensures rid in Unfold(w, es).central <==> rid in w.central
    ensures rid in w.central ==> Unfold(w, es).central[rid] == w.central[rid]
  {
    if es != [] {
      CentralFrame(w, es[..|es| - 1], rid);
    }
  }

  // Nothing but a release ever happens to an allocation.
  lemma {:induction false} AllocationKept(w: World, es: seq<Effect>, rid: RequestId)
    requires rid in w.central
    requires forall k :: 0 <= k < |es| ==> !(es[k].CreateAt? && es[k].requestId == rid)
    ensures rid in Unfold(w, es).central
    ensures Unfold(w, es).central[rid] in {w.central[rid], w.central[rid].(active := false)}
    ensures (forall k :: 0 <= k < |es| ==> !es[k].ReleaseAt?) ==> Unfold(w, es).central[rid] == w.central[rid]
  {
    if es != [] {
      AllocationKept(w, es[..|es| - 1], rid);
    }
  }

  lemma {:induction false} WorkflowAfter(w: World, es: seq<Effect>, rid: RequestId)
    ensures var before, after := Lookup(w, rid), Lookup(Unfold(w, es), rid);
      after == before || (after.Some? && SaveWorkflow(rid, after.value) in es)
    ensures (forall k :: 0 <= k < |es| ==> !(es[k].SaveWorkflow? && es[k].requestId == rid)) ==>
      Lookup(Unfold(w, es), rid) == Lookup(w, rid)
  {
    if es != [] {
      WorkflowAfter(w, es[..|es| - 1], rid);
      assert es == es[..|es| - 1] + [es[|es| - 1]];
    }
  }

  /* The shape of a call. */

  // Every record a call saves names its own allocation, and has its ports unless it FAILED.
  ghost predicate Faithful(c: Call, a: Allocation, r: WorkflowRecord) {
    && r.manifestHash == c.manifestHash
    && r.allocationId == Some(a.id)
    && (r.status != FAILED ==> r.ports == a.ports && a.active)
    && (r.status == APPLIED <==> r.configApplied)
    && (r.status == APPLIED ==> c.hasConfig && r.mutationId.Some?)
  }

  ghost predicate OwnEffect(c: Call, granted: (Allocation, bool), e: Effect) {
    match e
    case CreateAt(_, _) => false
    case ReleaseAt(rid) => rid == c.requestId && !granted.1
    case SaveWorkflow(rid, r) => rid == c.requestId && Faithful(c, granted.0, r)
    case OnDisk(_) => true
  }

  ghost predicate SavesApplied(e: Effect) {
    e.SaveWorkflow? && e.record.status == APPLIED
  }

  lemma GiveUpShape(d: Disk, c: Call, granted: (Allocation, bool), existing: Option<WorkflowRecord>,
                    mutation: Option<MutationId>, env: Env)
    ensures var base := BaseRecord(c.manifestHash, granted.0, CreatedHere(existing, granted.1));
      forall k :: 0 <= k < |GiveUp(d, c, base, mutation, env).1| ==>
        OwnEffect(c, granted, GiveUp(d, c, base, mutation, env).1[k]) &&
            !SavesApplied(GiveUp(d, c, base, mutation, env).1[k])
  {
  }

  lemma ConfigureShape(d: Disk, c: Call, granted: (Allocation, bool), existing: Option<WorkflowRecord>, env: Env)
    requires granted.0.active && c.hasConfig
    ensures var es := Configure(d, c, granted.0, CreatedHere(existing, granted.1), env).1;
      && (forall k :: 0 <= k < |es| ==> OwnEffect(c, granted, es[k]))
      && (forall k :: 0 <= k < |es| && SavesApplied(es[k]) ==> k == |es| - 1 && forall j :: 0 <= j < |es| ==>
          !es[j].ReleaseAt?)
  {
    hide GiveUp, Exec, PlanAndApplyWrites;
    var base := BaseRecord(c.manifestHash, granted.0, CreatedHere(existing, granted.1));
    match c.build(d.files, granted.0.ports)
    case PlanRaised =>
    case PlanRejected => GiveUpShape(d, c, granted, existing, None, env);
    case PlanReady(plan) =>
      var ws := PlanAndApplyWrites(d, granted.0.id, plan, env);
      if ws.0 != Done && ws.0 != AlreadyDone {
        GiveUpShape(Exec(d, ws.1), c, granted, existing, Some(env.mutationId), env);
      }
  }

  lemma ProceedShape(d: Disk, c: Call, existing: Option<WorkflowRecord>, granted: (Allocation, bool), env: Env)
    ensures var es := Proceed(d, c, existing, granted, env).1;
      && (forall k :: 0 <= k < |es| ==> OwnEffect(c, granted, es[k]))
      && (forall k :: 0 <= k < |es| && SavesApplied(es[k]) ==> k == |es| - 1 && forall j :: 0 <= j < |es| ==>
          !es[j].ReleaseAt?)
      && (forall k :: 0 <= k < |es| && SavesApplied(es[k]) ==> granted.0.active)
  {
    hide Configure, Exec, PlanAndApplyWrites;
    if granted.0.active && c.hasConfig {
      ConfigureShape(d, c, granted, existing, env);
    }
  }

  // What a call may do to Central and to the records: create its own allocation, release
  // only what it created, and save only its own record, naming the allocation it was granted.
  ghost predicate Allowed(w: World, c: Call, env: Env, e: Effect) {
    match e
    case CreateAt(rid, a) =>
      rid == c.requestId && rid !in w.central && env.create != Unreached &&
          a == Allocation(env.create.id, env.create.ports, true)
    case ReleaseAt(rid) => rid == c.requestId && rid !in w.central
    case SaveWorkflow(rid, r) =>
      && rid == c.requestId
      && (|| r == FailedRecord(c.manifestHash, None)
          || (Granted(w, rid, env.create).Some? && Faithful(c, Granted(w, rid, env.create).value.0, r)))
    case OnDisk(_) => true
  }

  lemma CallShape(w: World, c: Call, env: Env)
    ensures var es := Workflow.Run(w, c, env).1;
      && (forall k :: 0 <= k < |es| ==> Allowed(w, c, env, es[k]))
      && (forall k :: 0 <= k < |es| && es[k].CreateAt? ==> k == 0)
      && (forall k :: 0 <= k < |es| && SavesApplied(es[k]) ==> k == |es| - 1 && forall j :: 0 <= j < |es| ==>
          !es[j].ReleaseAt?)
  {
    var granted := Granted(w, c.requestId, env.create);
    if granted.Some? {
      ProceedShape(w.disk, c, Lookup(w, c.requestId), granted.value, env);
    }
  }

  /* One call, cut short anywhere. */

  function CutEffects(es: seq<Effect>, survived: nat): seq<Effect> {
    if survived < |es| then es[..survived] else es
  }

  function AfterCall(w: World, c: Call, env: Env, survived: nat): World {
    Unfold(w, CutEffects(Workflow.Run(w, c, env).1, survived))
  }

  // A call releases an allocation only if that same call created it, and touches nobody
  // else's: whatever stood at Central before it stands unchanged after it.
  lemma CallsReleaseOnlyTheirOwn(w: World, c: Call, env: Env, survived: nat, rid: RequestId)
    requires rid in w.central || rid != c.requestId
    ensures var after := AfterCall(w, c, env, survived);
      (rid in after.central <==> rid in w.central) && (rid in w.central ==> after.central[rid] == w.central[rid])
  {
    CallShape(w, c, env);
    CentralFrame(w, CutEffects(Workflow.Run(w, c, env).1, survived), rid);
  }

  lemma CallsSaveOnlyTheirOwn(w: World, c: Call, env: Env, survived: nat, rid: RequestId)
    requires rid != c.requestId
    ensures Lookup(AfterCall(w, c, env, survived), rid) == Lookup(w, rid)
  {
    CallShape(w, c, env);
    WorkflowAfter(w, CutEffects(Workflow.Run(w, c, env).1, survived), rid);
  }

  // At most one allocation comes into being, and it is the one Central was asked for.
  lemma CreatedAllocation(w: World, c: Call, env: Env, survived: nat)
    requires c.requestId !in w.central && c.requestId in AfterCall(w, c, env, survived).central
    ensures env.create != Unreached
    ensures AfterCall(w, c, env, survived).central[c.requestId].(active := true) ==
        Allocation(env.create.id, env.create.ports, true)
  {
    hide Workflow.Run, Unfold;
    CallShape(w, c, env);
    var es := CutEffects(Workflow.Run(w, c, env).1, survived);
    if es == [] || !es[0].CreateAt? {
      NeverCreated(w, es, c.requestId);
      assert false;
    } else {
      CreatedFirst(w, es, c.requestId);
    }
  }

  lemma CreatedFirst(w: World, es: seq<Effect>, rid: RequestId)
    requires es != [] && es[0].CreateAt? && es[0].requestId == rid
    requires forall k :: 0 < k < |es| ==> !es[k].CreateAt?
    ensures rid in Unfold(w, es).central
    ensures Unfold(w, es).central[rid] in {es[0].allocation, es[0].allocation.(active := false)}
  {
    hide Unfold;
    assert es == [es[0]] + es[1..];
    UnfoldConcat(w, [es[0]], es[1..]);
    UnfoldOne(w, es[0]);
    AllocationKept(Happen(w, es[0]), es[1..], rid);
  }

  lemma {:induction false} NeverCreated(w: World, es: seq<Effect>, rid: RequestId)
    requires rid !in w.central && forall k :: 0 <= k < |es| ==> !es[k].CreateAt?
    ensures rid !in Unfold(w, es).central
  {
    if es != [] {
      NeverCreated(w, es[..|es| - 1], rid);
    }
  }

  /* The invariant. */

  // A record names the allocation Central holds for its request, and lists exactly that
  // allocation's ports unless it FAILED.
  ghost predicate Linked(w: World, rid: RequestId, r: WorkflowRecord) {
    && (r.allocationId.Some? ==> rid in w.central && w.central[rid].id == r.allocationId.value)
    && (r.status != FAILED ==> r.allocationId.Some? && r.ports == w.central[rid].ports)
    && (r.status == APPLIED <==> r.configApplied)
    && (r.status == APPLIED ==> r.mutationId.Some?)
  }

  ghost predicate AllLinked(w: World) {
    forall rid :: rid in w.workflows ==> Linked(w, rid, w.workflows[rid])
  }

  // Once a call has recorded the allocation it was granted, Central holds that allocation.
  lemma GrantStands(w: World, c: Call, env: Env, survived: nat)
    requires Granted(w, c.requestId, env.create).Some?
    requires var es := CutEffects(Workflow.Run(w, c, env).1, survived); exists k :: 0 <= k < |es| && es[k].SaveWorkflow?
    ensures var after, a := AfterCall(w, c, env, survived), Granted(w, c.requestId, env.create).value.0;
      && c.requestId in after.central
      && after.central[c.requestId] in {a, a.(active := false)}
      && (SavesApplied(Workflow.Run(w, c, env).1[|Workflow.Run(w, c, env).1| - 1]) ==> after.central[c.requestId] == a)
  {
    hide Unfold;
    CallShape(w, c, env);
    var rid, es := c.requestId, CutEffects(Workflow.Run(w, c, env).1, survived);
    if rid in w.central {
      CallsReleaseOnlyTheirOwn(w, c, env, survived, rid);
    } else {
      assert es[0] == CreateAt(rid, Granted(w, rid, env.create).value.0);
      assert es == [es[0]] + es[1..];
      UnfoldConcat(w, [es[0]], es[1..]);
      UnfoldOne(w, es[0]);
      AllocationKept(Happen(w, es[0]), es[1..], rid);
    }
  }

  lemma CallKeepsLinks(w: World, c: Call, env: Env, survived: nat)
    requires AllLinked(w)
    ensures AllLinked(AfterCall(w, c, env, survived))
  {
    var after, es := AfterCall(w, c, env, survived), CutEffects(Workflow.Run(w, c, env).1, survived);
    forall rid | rid in after.workflows ensures Linked(after, rid, after.workflows[rid]) {
      WorkflowAfter(w, es, rid);
      if rid in w.central || rid != c.requestId {
        CallsReleaseOnlyTheirOwn(w, c, env, survived, rid);
      }
      if SaveWorkflow(rid, after.workflows[rid]) in es {
        CallShape(w, c, env);
        var k :| 0 <= k < |es| && es[k] == SaveWorkflow(rid, after.workflows[rid]);
        assert Allowed(w, c, env, Workflow.Run(w, c, env).1[k]);
        if after.workflows[rid] != FailedRecord(c.manifestHash, None) {
          GrantStands(w, c, env, survived);
        }
      } else {
        assert Linked(w, rid, w.workflows[rid]);
      }
    }
  }

  // A record turns APPLIED only as the last effect of its own call, while the allocation it
  // names is active and stays so.
  lemma TurningApplied(w: World, c: Call, env: Env, survived: nat, rid: RequestId)
    requires IsApplied(AfterCall(w, c, env, survived), rid) && !IsApplied(w, rid)
    ensures rid == c.requestId && |Workflow.Run(w, c, env).1| <= survived
    ensures rid in AfterCall(w, c, env, survived).central && AfterCall(w, c, env, survived).central[rid].active
    ensures rid in w.central ==> w.central[rid].active
  {
    var all := Workflow.Run(w, c, env).1;
    var es, after := CutEffects(all, survived), AfterCall(w, c, env, survived);
    WorkflowAfter(w, es, rid);
    CallShape(w, c, env);
    var k :| 0 <= k < |es| && es[k] == SaveWorkflow(rid, after.workflows[rid]);
    assert SavesApplied(all[k]) && Allowed(w, c, env, all[k]);
    GrantStands(w, c, env, survived);
  }

  ghost predicate IsApplied(w: World, rid: RequestId) {
    rid in w.workflows && w.workflows[rid].status == APPLIED
  }

  // APPLIED is absorbing: such a call replays or is refused, and does nothing at all.
  lemma AppliedDoesNothing(w: World, c: Call, env: Env)
    requires IsApplied(w, c.requestId)
    ensures Workflow.Run(w, c, env) ==
      (if w.workflows[c.requestId].manifestHash == c.manifestHash then Success(w.workflows[c.requestId])
       else IdempotencyConflict, [])
  {
  }
}
