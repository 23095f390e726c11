// What a finished call leaves on record and at Central, and that repeating a successful one
// changes nothing.
module WorkflowReplay {
  import opened Wrappers
  import opened ConfigManager
  import opened Workflow
  import opened WorkflowSafety
  import opened WorkflowConfig

  ghost predicate EndsTelling(w: World, c: Call, o: WorkflowOutcome, es: seq<Effect>) {
    && (es == [] ==> o.Success? && Lookup(w, c.requestId) == Some(o.record))
    && (es != [] ==>
          && es[|es| - 1].SaveWorkflow? && es[|es| - 1].requestId == c.requestId
          && Tells(c, o, es[|es| - 1].record))
  }

  // The record a call ends with, if it got past the checks of an earlier record.
  lemma EndsWithSave(w: World, c: Call, env: Env)
    requires var o := Workflow.Run(w, c, env).0; !o.IdempotencyConflict? && !o.Raised?
    ensures EndsTelling(w, c, Workflow.Run(w, c, env).0, Workflow.Run(w, c, env).1)
  {
    hide Workflow.Run, Planning, Tells;
    if Failed(Workflow.Run(w, c, env).0) {
      EndsWithFailure(w, c, env);
    } else if Planning(w, c, env).Some? {
      EndsWithSuccess(w, c, env);
    } else {
      EndsWithoutPlan(w, c, env);
    }
  }

  lemma EndsWithSuccess(w: World, c: Call, env: Env)
    requires Planning(w, c, env).Some? && !Failed(Workflow.Run(w, c, env).0)
    ensures EndsTelling(w, c, Workflow.Run(w, c, env).0, Workflow.Run(w, c, env).1)
  {
    hide Exec, Apply, Rollback, PlanAndApplyWrites, Compensate;
    CallJournal(w, c, env);
    var final := Base(w, c, env).(status := APPLIED, mutationId := Some(env.mutationId), configApplied := true);
    assert After(w, c, env) == [SaveWorkflow(c.requestId, final)];
    assert Workflow.Run(w, c, env).0 == Success(final);
  }

  lemma EndsWithoutPlan(w: World, c: Call, env: Env)
    requires Planning(w, c, env).None?
    requires var o := Workflow.Run(w, c, env).0; !o.IdempotencyConflict? && !o.Raised? && !Failed(o)
    ensures EndsTelling(w, c, Workflow.Run(w, c, env).0, Workflow.Run(w, c, env).1)
  {
    hide Exec, PlanAndApplyWrites, Compensate;
  }

  // How the saved record reflects the outcome.
  ghost predicate Tells(c: Call, o: WorkflowOutcome, r: WorkflowRecord) {
    && r.manifestHash == c.manifestHash
    && match o
       case Success(record) => r == record && (r.status == APPLIED || (r.status == ALLOCATED && !c.hasConfig))
       case AllocationUnavailable => r.status == FAILED && r.allocationId == None
       case StateInconsistent => r.status == FAILED && r.allocationId.Some?
       case ConfigFailed(_) => r.status == FAILED && r.allocationId.Some? && !r.configApplied
       case CompensationFailed(_) => r.status == FAILED && r.allocationId.Some? && !r.configApplied
       case Raised => r.status == ALLOCATED && r.allocationId.Some? && !r.configApplied
       case IdempotencyConflict => false
  }

  lemma GiveUpTells(d: Disk, c: Call, base: WorkflowRecord, mutation: Option<MutationId>, env: Env)
    requires base.manifestHash == c.manifestHash && base.allocationId.Some? && !base.configApplied
    ensures var g := GiveUp(d, c, base, mutation, env);
      && g.1 != [] && g.1[|g.1| - 1].SaveWorkflow? && g.1[|g.1| - 1].requestId == c.requestId
      && Tells(c, g.0, g.1[|g.1| - 1].record)
  {
  }

  lemma EndsWithFailure(w: World, c: Call, env: Env)
    requires Failed(Workflow.Run(w, c, env).0)
    ensures var es := Workflow.Run(w, c, env).1;
      && es != [] && es[|es| - 1].SaveWorkflow? && es[|es| - 1].requestId == c.requestId
      && Tells(c, Workflow.Run(w, c, env).0, es[|es| - 1].record)
  {
    hide Workflow.Run, GiveUp, Exec;
    if Planning(w, c, env).None? {
      RejectedRun(w, c, env);
      GiveUpTells(w.disk, c, Base(w, c, env), None, env);
    } else {
      RefusedRun(w, c, env);
      CallJournal(w, c, env);
      GiveUpTells(Exec(w.disk, DiskPart(w, c, env).1), c, Base(w, c, env), Some(env.mutationId), env);
    }
  }

  lemma RaisedSaves(w: World, c: Call, env: Env)
    requires Workflow.Run(w, c, env).0.Raised?
    ensures Granted(w, c.requestId, env.create).Some?
    ensures Workflow.Run(w, c, env).1 == Before(w, c, env)
  {
    hide Exec, Apply, Rollback;
    Regroup(CreateEffects(w, c.requestId, env.create), [SaveWorkflow(c.requestId, Base(w, c, env))], []);
  }

  // After every call, except one refused for a conflict, the record says how it went.
  lemma RecordTellsOutcome(w: World, c: Call, env: Env)
    ensures var o, after := Workflow.Run(w, c, env).0, Finished(w, c, env);
      if o.IdempotencyConflict? then after == w
      else
        && Lookup(after, c.requestId).Some?
        && (Workflow.Run(w, c, env).1 == [] ==> o == Success(after.workflows[c.requestId]))
        && (Workflow.Run(w, c, env).1 != [] ==> Tells(c, o, after.workflows[c.requestId]))
  {
    hide Workflow.Run, Tells, Unfold;
    ConflictDoesNothing(w, c, env);
    assert Unfold(w, []) == w by {
      NothingUnfolds(w);
    }
    var o, es := Workflow.Run(w, c, env).0, Workflow.Run(w, c, env).1;
    if o.Raised? {
      RaisedSaves(w, c, env);
      LastSaved(w, es, c.requestId, Base(w, c, env));
      BaseTells(w, c, env);
    } else if !o.IdempotencyConflict? {
      EndsWithSave(w, c, env);
      if es != [] {
        LastSaved(w, es, c.requestId, es[|es| - 1].record);
      }
    }
  }

  lemma ConflictDoesNothing(w: World, c: Call, env: Env)
    ensures Workflow.Run(w, c, env).0.IdempotencyConflict? ==> Workflow.Run(w, c, env).1 == []
  {
    hide Exec, PlanAndApplyWrites, Compensate;
  }

  lemma NothingUnfolds(w: World)
    ensures Unfold(w, []) == w
  {
  }

  lemma BaseTells(w: World, c: Call, env: Env)
    requires Granted(w, c.requestId, env.create).Some?
    ensures Tells(c, Raised, Base(w, c, env))
  {
  }

  // Repeating a successful call, whatever the world outside would answer now, returns the
  // same result and touches neither Central nor any file.
  lemma ReplayRepeats(w: World, c: Call, env: Env, again: Env)
    requires Workflow.Run(w, c, env).0.Success?
    ensures Workflow.Run(Finished(w, c, env), c, again) == (Workflow.Run(w, c, env).0, [])
  {
    RecordTellsOutcome(w, c, env);
    var after := Finished(w, c, env);
    RepeatFromRecord(w, c, env, after, again);
  }

  lemma RepeatFromRecord(w: World, c: Call, env: Env, after: World, again: Env)
    requires Workflow.Run(w, c, env).0.Success? && Lookup(after, c.requestId) == Some(Workflow.Run(w, c, env).0.record)
    requires Workflow.Run(w, c, env).1 == [] ==> after == w
    requires Workflow.Run(w, c, env).1 != [] ==> Tells(c, Workflow.Run(w, c, env).0, after.workflows[c.requestId])
    ensures Workflow.Run(after, c, again) == (Workflow.Run(w, c, env).0, [])
  {
    hide Exec, Apply, Rollback, PlanAndApplyWrites, Proceed, Allocate;
    if Workflow.Run(w, c, env).1 == [] {
      NothingDone(w, c, env);
    }
  }

  lemma NothingDone(w: World, c: Call, env: Env)
    requires Workflow.Run(w, c, env).0.Success? && Workflow.Run(w, c, env).1 == []
    ensures Lookup(w, c.requestId).Some? && w.workflows[c.requestId].manifestHash == c.manifestHash
    ensures Replays(w.workflows[c.requestId], c.hasConfig)
  {
    hide Exec, Apply, Rollback, PlanAndApplyWrites;
  }

  /* What becomes of an allocation the call itself obtained. */

  ghost predicate LeavesAllocation(o: WorkflowOutcome, es: seq<Effect>, env: Env) {
    match o
    case IdempotencyConflict => false
    case Success(_) => es != []
    case AllocationUnavailable => env.create.AnswerLost?
    case StateInconsistent => false
    case ConfigFailed(_) => env.release == NotReleased
    case CompensationFailed(_) => env.release == NotReleased
    case Raised => true
  }

  ghost predicate Creates(es: seq<Effect>, rid: RequestId, env: Env) {
    && es != [] && env.create != Unreached
    && es[0] == CreateAt(rid, Allocation(env.create.id, env.create.ports, true))
  }

  // Only a refused config step ever releases.
  lemma UnlessFailed(w: World, c: Call, env: Env)
    requires c.requestId !in w.central && !Failed(Workflow.Run(w, c, env).0)
    ensures var r := Workflow.Run(w, c, env);
      && ReleaseAt(c.requestId) !in r.1
      && (if LeavesAllocation(r.0, r.1, env) then Creates(r.1, c.requestId, env)
          else forall k :: 0 <= k < |r.1| ==> !r.1[k].CreateAt?)
  {
    hide Exec, Apply, Rollback, PlanAndApplyWrites, Compensate;
    if Planning(w, c, env).Some? {
      CallJournal(w, c, env);
      EndsPlanned(w, c, env);
    }
  }

  lemma EndsPlanned(w: World, c: Call, env: Env)
    requires Planning(w, c, env).Some? && !Failed(Workflow.Run(w, c, env).0)
    ensures Workflow.Run(w, c, env).0.Success?
    ensures |After(w, c, env)| == 1 && After(w, c, env)[0].SaveWorkflow?
  {
    hide Exec, Apply, Rollback, PlanAndApplyWrites, Compensate;
  }

  lemma CreatedStays(w: World, es: seq<Effect>, rid: RequestId, env: Env)
    requires rid !in w.central && Creates(es, rid, env)
    requires forall k :: 0 < k < |es| ==> !es[k].CreateAt?
    ensures rid in Unfold(w, es).central
    ensures Unfold(w, es).central[rid].active <==> ReleaseAt(rid) !in es
  {
    assert es == [es[0]] + es[1..];
    UnfoldConcat(w, [es[0]], es[1..]);
    UnfoldOne(w, es[0]);
    ActiveUnlessReleased(Happen(w, es[0]), es[1..], rid);
  }

  /* The same, told before the call. */

  // The call gets past an earlier record, and Central creates an allocation for it.
  ghost predicate Obtains(w: World, c: Call, env: Env) {
    && (Lookup(w, c.requestId).Some? ==>
          && w.workflows[c.requestId].manifestHash == c.manifestHash
          && !Replays(w.workflows[c.requestId], c.hasConfig))
    && env.create != Unreached
  }

  // Its answer is lost, there is no config, planning ends in an exception nobody catches,
  // the config step works, or it is refused and the release does not reach Central.
  ghost predicate KeepsObtained(w: World, c: Call, env: Env) {
    && Obtains(w, c, env)
    && match env.create
       case Unreached => false
       case AnswerLost(_, _) => true
       case Answered(id, ports) =>
         || !c.hasConfig
         || match c.build(w.disk.files, ports)
            case PlanRaised => true
            case PlanRejected => env.release == NotReleased
            case PlanReady(plan) =>
              || env.release == NotReleased
              || Reached(PlanRecord(w.disk.files, id, plan).files, env.fault).1 == Done
  }

  lemma PlannedOutcome(w: World, c: Call, env: Env)
    requires Planning(w, c, env).Some?
    ensures var p := Planning(w, c, env).value;
      DiskPart(w, c, env).0 == Reached(PlanRecord(w.disk.files, p.0, p.1).files, env.fault).1
    ensures DiskPart(w, c, env).0 == Done ==> Workflow.Run(w, c, env).0.Success?
    ensures DiskPart(w, c, env).0 != Done ==> Failed(Workflow.Run(w, c, env).0)
    ensures Workflow.Run(w, c, env).1 != []
  {
    hide Exec, Apply, Rollback, PlanAndApplyWrites, Compensate;
    var p := Planning(w, c, env).value;
    PlanAndApplyOutcome(w.disk, p.0, p.1, env);
    CallJournal(w, c, env);
  }

  lemma KeepsIffLeaves(w: World, c: Call, env: Env)
    requires AllLinked(w) && c.requestId !in w.central
    ensures var r := Workflow.Run(w, c, env);
      && (KeepsObtained(w, c, env) <==> LeavesAllocation(r.0, r.1, env))
      && (Failed(r.0) ==> Obtains(w, c, env))
      && (Obtains(w, c, env) && !KeepsObtained(w, c, env) ==> Failed(r.0) && env.release != NotReleased)
  {
    hide Exec, Apply, Rollback, PlanAndApplyWrites, Compensate, Reached, PlanRecord;
    if Planning(w, c, env).Some? {
      PlannedOutcome(w, c, env);
    }
  }

  // If it releases at all, the journal does so last but one.
  ghost predicate ReleasesLast(es: seq<Effect>, rid: RequestId, release: ReleaseReply) {
    && (release == NotReleased ==> ReleaseAt(rid) !in es)
    && (release != NotReleased ==>
          |es| >= 2 && es[|es| - 2] == ReleaseAt(rid) && ReleaseAt(rid) !in es[..|es| - 2])
  }

  lemma BeforeCreates(w: World, c: Call, env: Env)
    requires c.requestId !in w.central && Granted(w, c.requestId, env.create).Some?
    ensures Creates(Before(w, c, env), c.requestId, env)
    ensures forall k :: 0 <= k < |Before(w, c, env)| ==> !Before(w, c, env)[k].ReleaseAt?
  {
  }

  lemma GiveUpLate(w: World, c: Call, env: Env, head: seq<Effect>, d: Disk, mutation: Option<MutationId>)
    requires AllLinked(w) && c.requestId !in w.central && Granted(w, c.requestId, env.create).Some?
    requires mutation == None || CompensateConfig(d, mutation) == ([ConfigNotAppliedNothingToRollBack], [])
    requires forall k :: 0 <= k < |head| ==> !head[k].ReleaseAt?
    ensures ReleasesLast(head + GiveUp(d, c, Base(w, c, env), mutation, env).1, c.requestId, env.release)
  {
    hide GiveUp, CompensateConfig;
    CreatedHereIff(w, c, env);
    GiveUpReports(d, c, Base(w, c, env), mutation, env);
    LateRelease(head, c.requestId, env.release, GiveUp(d, c, Base(w, c, env), mutation, env).1);
  }

  lemma ReleasesLate(w: World, c: Call, env: Env)
    requires AllLinked(w) && c.requestId !in w.central && Failed(Workflow.Run(w, c, env).0)
    ensures Creates(Workflow.Run(w, c, env).1, c.requestId, env)
    ensures ReleasesLast(Workflow.Run(w, c, env).1, c.requestId, env.release)
  {
    hide Workflow.Run, Exec, PlanAndApplyWrites, GiveUp, Before, After, ReleasesLast, Base;
    if Planning(w, c, env).None? {
      RejectedRun(w, c, env);
      BeforeCreates(w, c, env);
      GiveUpLate(w, c, env, Before(w, c, env), w.disk, None);
    } else {
      RefusedRun(w, c, env);
      BeforeCreates(w, c, env);
      CallJournal(w, c, env);
      var plan, part := Planning(w, c, env).value, DiskPart(w, c, env);
      NothingToRollBack(w.disk, plan.0, plan.1, env);
      NoReleaseOnDisk(Before(w, c, env), part.1);
      GiveUpLate(w, c, env, Before(w, c, env) + DiskEffects(part.1), Exec(w.disk, part.1), Some(env.mutationId));
    }
  }

  lemma NoReleaseOnDisk(head: seq<Effect>, ws: seq<Write>)
    requires forall k :: 0 <= k < |head| ==> !head[k].ReleaseAt?
    ensures forall k :: 0 <= k < |head + DiskEffects(ws)| ==> !(head + DiskEffects(ws))[k].ReleaseAt?
  {
  }

  lemma LateRelease(head: seq<Effect>, rid: RequestId, release: ReleaseReply, tail: seq<Effect>)
    requires forall k :: 0 <= k < |head| ==> !head[k].ReleaseAt?
    requires |tail| > 0 && tail[|tail| - 1].SaveWorkflow?
    requires tail == ReleaseEffects(rid, true, release) + [tail[|tail| - 1]]
    ensures ReleasesLast(head + tail, rid, release)
  {
    if release != NotReleased {
      assert tail == [ReleaseAt(rid), tail[|tail| - 1]];
      assert (head + tail)[..|head + tail| - 2] == head;
    } else {
      assert tail == [tail[|tail| - 1]];
    }
  }

  // Cut short anywhere, be it by a crash or by a write error nobody catches, a call leaves
  // an allocation of its own active exactly if it had obtained one by then and either keeps
  // it to the end or had not come to release it, which it does last but one.
  lemma CutCallLeavesAllocationIff(w: World, c: Call, env: Env, survived: nat)
    requires AllLinked(w) && c.requestId !in w.central
    ensures var after := AfterCall(w, c, env, survived);
      c.requestId in after.central && after.central[c.requestId].active <==>
      && Obtains(w, c, env) && survived > 0
      && (KeepsObtained(w, c, env) || survived < |Workflow.Run(w, c, env).1| - 1)
  {
    hide Workflow.Run, Unfold, Obtains, KeepsObtained;
    var r := Workflow.Run(w, c, env);
    var es := CutEffects(r.1, survived);
    CallShape(w, c, env);
    KeepsIffLeaves(w, c, env);
    KeepsMeansObtains(w, c, env);
    if Failed(r.0) {
      ReleasesLate(w, c, env);
    } else {
      UnlessFailed(w, c, env);
    }
    if survived > 0 && Obtains(w, c, env) {
      CreatedStays(w, es, c.requestId, env);
    } else {
      NeverCreated(w, es, c.requestId);
    }
  }

  // A whole call leaves an allocation of its own active exactly if it keeps what it obtains.
  lemma LeavesAllocationIff(w: World, c: Call, env: Env)
    requires AllLinked(w) && c.requestId !in w.central
    ensures var after := Finished(w, c, env);
      c.requestId in after.central && after.central[c.requestId].active <==> KeepsObtained(w, c, env)
  {
    hide Workflow.Run, Unfold, KeepsObtained, Obtains;
    var es := Workflow.Run(w, c, env).1;
    assert CutEffects(es, |es| + 1) == es;
    CutCallLeavesAllocationIff(w, c, env, |es| + 1);
    KeepsMeansObtains(w, c, env);
  }

  lemma KeepsMeansObtains(w: World, c: Call, env: Env)
    ensures KeepsObtained(w, c, env) ==> Obtains(w, c, env)
  {
  }
}
