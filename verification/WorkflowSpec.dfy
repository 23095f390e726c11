// How every workflow call ends: its answer, the record it leaves field by field, what
// Central then holds, and what is on disk, told from the state it found and what the world
// outside answered.
module WorkflowSpec {
  import opened Wrappers
  import opened ConfigManager
  import opened ConfigSpec
  import opened Workflow
  import opened WorkflowSafety
  import opened WorkflowConfig
  import opened WorkflowReplay

  /* Before anything is asked of Central. */

  // The request id is on record for another manifest.
  ghost predicate Conflicts(w: World, c: Call) {
    c.requestId in w.workflows && w.workflows[c.requestId].manifestHash != c.manifestHash
  }

  // The request was done before: applied, or allocated when there is no config.
  ghost predicate Repeats(w: World, c: Call) {
    && c.requestId in w.workflows && w.workflows[c.requestId].manifestHash == c.manifestHash
    && (|| w.workflows[c.requestId].status == APPLIED
        || (w.workflows[c.requestId].status == ALLOCATED && !c.hasConfig))
  }

  /* The answer and the record of an attempt. */

  // A write or read-back error past the last planned file hits nothing.
  ghost predicate GoesThrough(fault: Fault, files: nat) {
    match fault
    case NoFault => true
    case WriteFails(at) => at >= files
    case ReadBackFails(at) => at >= files
  }

  // An allocation this call did not create is preserved. One it did create is released, and
  // if that is not confirmed the compensation has failed.
  ghost predicate GivesUp(w: World, c: Call, env: Env, o: WorkflowOutcome, config: seq<Action>) {
    if c.requestId in w.central then o == ConfigFailed(config + [AllocationPreserved])
    else if env.release == Confirmed then o == ConfigFailed(config + [AllocationReleased])
    else o == CompensationFailed(config + [AllocationReleaseFailed])
  }

  // Fields: manifest hash, status, allocation, whether this call created it, mutation,
  // whether the config was applied, ports.
  ghost predicate Concludes(w: World, c: Call, env: Env, o: WorkflowOutcome, r: WorkflowRecord) {
    if !env.create.Answered? then
      o == AllocationUnavailable && r == WorkflowRecord(c.manifestHash, FAILED, None, false, None, false, map[])
    else
      var created := c.requestId !in w.central;
      var id := if created then env.create.id else w.central[c.requestId].id;
      var ports := if created then env.create.ports else w.central[c.requestId].ports;
      if !created && !w.central[c.requestId].active then
        o == StateInconsistent && r == WorkflowRecord(c.manifestHash, FAILED, Some(id), false, None, false, map[])
      else if !c.hasConfig then
        o == Success(r) && r == WorkflowRecord(c.manifestHash, ALLOCATED, Some(id), created, None, false, ports)
      else match c.build(w.disk.files, ports)
        case PlanRaised =>
          o == Raised && r == WorkflowRecord(c.manifestHash, ALLOCATED, Some(id), created, None, false, ports)
        case PlanRejected =>
          && GivesUp(w, c, env, o, [])
          && r == WorkflowRecord(c.manifestHash, FAILED, Some(id), created, None, false, ports)
        case PlanReady(plan) =>
          if GoesThrough(env.fault, |plan|) then
            && o == Success(r)
            && r == WorkflowRecord(c.manifestHash, APPLIED, Some(id), created, Some(env.mutationId), true, ports)
          else
            && GivesUp(w, c, env, o, [ConfigNotAppliedNothingToRollBack])
            && r == WorkflowRecord(c.manifestHash, FAILED, Some(id), created, Some(env.mutationId), false, ports)
  }

  ghost predicate LastSave(c: Call, es: seq<Effect>, r: WorkflowRecord) {
    es != [] && es[|es| - 1] == SaveWorkflow(c.requestId, r)
  }

  lemma ReachedIff(entries: seq<FileEntry>, fault: Fault)
    ensures Reached(entries, fault).1 == Done <==> GoesThrough(fault, |entries|)
  {
  }

  lemma GiveUpIs(w: World, d: Disk, c: Call, env: Env, base: WorkflowRecord, mutation: Option<MutationId>)
    requires base.createdByThisAttempt == (c.requestId !in w.central)
    requires mutation == None || CompensateConfig(d, mutation) == ([ConfigNotAppliedNothingToRollBack], [])
    ensures var g := GiveUp(d, c, base, mutation, env);
      && GivesUp(w, c, env, g.0, if mutation == None then [] else [ConfigNotAppliedNothingToRollBack])
      && LastSave(c, g.1, base.(status := FAILED, mutationId := mutation))
  {
    hide CompensateConfig;
    NothingToUndo(d);
    var config := CompensateConfig(d, mutation).0;
    assert DiskEffects([]) == [];
  }

  lemma NothingToUndo(d: Disk)
    ensures CompensateConfig(d, None) == ([], [])
  {
  }

  lemma LastOfBoth(c: Call, head: seq<Effect>, tail: seq<Effect>, r: WorkflowRecord)
    requires LastSave(c, tail, r)
    ensures LastSave(c, head + tail, r)
  {
  }

  // What a call that plans nothing on disk does.
  lemma ConcludesOffDisk(w: World, c: Call, env: Env) returns (r: WorkflowRecord)
    requires AllLinked(w) && !Conflicts(w, c) && !Repeats(w, c) && Planning(w, c, env).None?
    ensures Concludes(w, c, env, Workflow.Run(w, c, env).0, r) && LastSave(c, Workflow.Run(w, c, env).1, r)
  {
    hide Exec, PlanAndApplyWrites, GiveUp, GivesUp;
    var es := Workflow.Run(w, c, env).1;
    if Granted(w, c.requestId, env.create).Some? && Granted(w, c.requestId, env.create).value.0.active {
      CreatedHereIff(w, c, env);
      var base := Base(w, c, env);
      if c.hasConfig && c.build(w.disk.files, base.ports).PlanRejected? {
        GiveUpIs(w, w.disk, c, env, base, None);
        r := base.(status := FAILED, mutationId := None);
        RejectedEnd(w, c, env);
        LastOfBoth(c, Before(w, c, env), GiveUp(w.disk, c, base, None, env).1, r);
      } else {
        r := base;
      }
    } else {
      r := es[|es| - 1].record;
    }
  }

  lemma RejectedEnd(w: World, c: Call, env: Env)
    requires !Conflicts(w, c) && !Repeats(w, c)
    requires Granted(w, c.requestId, env.create).Some? && Granted(w, c.requestId, env.create).value.0.active
    requires c.hasConfig && c.build(w.disk.files, Base(w, c, env).ports).PlanRejected?
    ensures var given := GiveUp(w.disk, c, Base(w, c, env), None, env);
      Workflow.Run(w, c, env) == (given.0, Before(w, c, env) + given.1)
  {
    hide Exec, PlanAndApplyWrites, GiveUp;
    Regroup(CreateEffects(w, c.requestId, env.create), [SaveWorkflow(c.requestId, Base(w, c, env))],
            GiveUp(w.disk, c, Base(w, c, env), None, env).1);
  }

  lemma ConcludesPlanned(w: World, c: Call, env: Env) returns (r: WorkflowRecord)
    requires AllLinked(w) && Planning(w, c, env).Some?
    ensures Concludes(w, c, env, Workflow.Run(w, c, env).0, r) && LastSave(c, Workflow.Run(w, c, env).1, r)
  {
    hide Workflow.Run, Exec, PlanAndApplyWrites, GiveUp, GivesUp, Before, After, Apply, Planning;
    var p, part := Planning(w, c, env).value, DiskPart(w, c, env);
    var base := PlannedBase(w, c, env);
    RecordOfPlan(w, c, env);
    PlanAndApplyOutcome(w.disk, p.0, p.1, env);
    ReachedIff(PlanRecord(w.disk.files, p.0, p.1).files, env.fault);
    CallJournal(w, c, env);
    ConcludedRun(w, c, env);
    if part.0 == Done {
      r := base.(status := APPLIED, mutationId := Some(env.mutationId), configApplied := true);
    } else {
      NothingToRollBack(w.disk, p.0, p.1, env);
      GiveUpIs(w, Exec(w.disk, part.1), c, env, base, Some(env.mutationId));
      r := base.(status := FAILED, mutationId := Some(env.mutationId));
    }
    LastOfBoth(c, Before(w, c, env) + DiskEffects(part.1), After(w, c, env), r);
  }

  lemma PlannedBase(w: World, c: Call, env: Env) returns (base: WorkflowRecord)
    requires AllLinked(w) && Planning(w, c, env).Some?
    ensures base == Base(w, c, env) && base.createdByThisAttempt == (c.requestId !in w.central)
  {
    CreatedHereIff(w, c, env);
    base := Base(w, c, env);
  }

  lemma ConcludedRun(w: World, c: Call, env: Env)
    requires Planning(w, c, env).Some?
    ensures var part := DiskPart(w, c, env);
      var rest := Conclude(Exec(w.disk, part.1), c, Base(w, c, env), part.0, env);
      Workflow.Run(w, c, env).0 == rest.0 && After(w, c, env) == rest.1
  {
    hide Exec, PlanAndApplyWrites, GiveUp;
  }

  // What a call with a plan has checked before.
  lemma RecordOfPlan(w: World, c: Call, env: Env)
    requires Planning(w, c, env).Some?
    ensures c.hasConfig && env.create.Answered? && Granted(w, c.requestId, env.create).Some?
    ensures var p, base := Planning(w, c, env).value, Base(w, c, env);
      var created := c.requestId !in w.central;
      && (created || w.central[c.requestId].active)
      && p.0 == (if created then env.create.id else w.central[c.requestId].id)
      && base.ports == (if created then env.create.ports else w.central[c.requestId].ports)
      && base.allocationId == Some(p.0) && base.manifestHash == c.manifestHash && !base.configApplied
      && c.build(w.disk.files, base.ports) == PlanReady(p.1)
  {
  }

  /* Compensation. */

  // Only an APPLIED mutation is rolled back; what cannot be found or rolled back is reported
  // as such, and then nothing is written.
  ghost predicate Undoes(d: Disk, id: MutationId, actions: seq<Action>, after: Disk) {
    if id in d.records && d.records[id].status != Applied then
      actions == [ConfigNotAppliedNothingToRollBack] && after == d
    else if id in d.records && RollbackAnswers(d, id, Done) then
      actions == [ConfigRolledBack] && RollsBack(d, id, after)
    else actions == [ConfigRollbackCheckFailed] && after == d
  }

  lemma CompensationIs(d: Disk, id: MutationId)
    ensures var undo := CompensateConfig(d, Some(id)); Undoes(d, id, undo.0, Exec(d, undo.1))
  {
    hide Rollback, RollsBack;
    if id in d.records {
      RollbackAnswer(d, id);
      DoneAlone(d, id);
      if Rollback(d, id).0 == Done {
        RolledBackEffect(d, id);
      } else {
        RefusedWritesNothing(d, id);
      }
    }
  }

  lemma DoneAlone(d: Disk, id: MutationId)
    requires id in d.records
    ensures RollbackAnswers(d, id, Done) ==> Rollback(d, id).0 == Done
  {
    hide UndoWrites, FirstEdited;
    FirstEditedIs(d.files, d.records[id].files);
    OthersExclude(d.files, d.records[id].files, true);
  }

  lemma RefusedWritesNothing(d: Disk, id: MutationId)
    requires Rollback(d, id).0 != Done
    ensures Rollback(d, id).1 == []
  {
    hide UndoWrites;
  }

  /* The world afterwards. */

  ghost predicate GaveUp(o: WorkflowOutcome) {
    o.ConfigFailed? || o.CompensationFailed?
  }

  // Central has gained at most the allocation the call asked for, released again if the call
  // gave up and the release got through.
  ghost predicate CentralEnds(w: World, c: Call, env: Env, o: WorkflowOutcome, after: World) {
    after.central ==
      if c.requestId in w.central || env.create == Unreached then w.central
      else w.central[c.requestId :=
        Allocation(env.create.id, env.create.ports, !GaveUp(o) || env.release == NotReleased)]
  }

  // The call gets as far as storing a plan for an allocation.
  ghost predicate StoresPlan(w: World, c: Call, env: Env, id: string, plan: seq<PlannedFile>) {
    && env.create.Answered? && c.hasConfig
    && if c.requestId in w.central then
         var a := w.central[c.requestId];
         a.active && id == a.id && c.build(w.disk.files, a.ports) == PlanReady(plan)
       else id == env.create.id && c.build(w.disk.files, env.create.ports) == PlanReady(plan)
  }

  // Either the stored plan was carried out, or it is stored as a plan and no file changed.
  ghost predicate DiskEnds(w: World, c: Call, env: Env, o: WorkflowOutcome, after: World) {
    && ((forall id, plan :: !StoresPlan(w, c, env, id, plan)) ==> after.disk == w.disk)
    && forall id, plan :: StoresPlan(w, c, env, id, plan) ==>
         && env.mutationId in after.disk.records
         && after.disk.records - {env.mutationId} == w.disk.records - {env.mutationId}
         && if o.Success? then
              && CarriedOut(w.disk.files, id, plan, after.disk.records[env.mutationId])
              && Holding(w.disk.files, plan, after.disk.files)
            else
              && Plans(w.disk.files, id, plan, after.disk.records[env.mutationId])
              && after.disk.files == w.disk.files
  }

  ghost predicate Ends(w: World, c: Call, env: Env, o: WorkflowOutcome, after: World) {
    if Conflicts(w, c) then o == IdempotencyConflict && after == w
    else if Repeats(w, c) then o == Success(w.workflows[c.requestId]) && after == w
    else
      && c.requestId in after.workflows
      && after.workflows == w.workflows[c.requestId := after.workflows[c.requestId]]
      && Concludes(w, c, env, o, after.workflows[c.requestId])
      && CentralEnds(w, c, env, o, after)
      && DiskEnds(w, c, env, o, after)
  }

  lemma NotAttempted(w: World, c: Call, env: Env)
    requires Conflicts(w, c) || Repeats(w, c)
    ensures Workflow.Run(w, c, env) ==
      (if Conflicts(w, c) then IdempotencyConflict else Success(w.workflows[c.requestId]), [])
    ensures Finished(w, c, env) == w
  {
    hide Allocate;
  }

  lemma RecordEnds(w: World, c: Call, env: Env)
    requires AllLinked(w) && !Conflicts(w, c) && !Repeats(w, c)
    ensures var after := Finished(w, c, env);
      && c.requestId in after.workflows
      && after.workflows == w.workflows[c.requestId := after.workflows[c.requestId]]
      && Concludes(w, c, env, Workflow.Run(w, c, env).0, after.workflows[c.requestId])
  {
    hide Workflow.Run, Concludes, Planning, Unfold;
    var es := Workflow.Run(w, c, env).1;
    var r := Concluded(w, c, env);
    LastSaved(w, es, c.requestId, r);
    OthersKept(w, c, env);
    OneRecord(w, Finished(w, c, env), c.requestId);
  }

  lemma Concluded(w: World, c: Call, env: Env) returns (r: WorkflowRecord)
    requires AllLinked(w) && !Conflicts(w, c) && !Repeats(w, c)
    ensures Concludes(w, c, env, Workflow.Run(w, c, env).0, r) && LastSave(c, Workflow.Run(w, c, env).1, r)
  {
    hide Workflow.Run, Concludes, Planning;
    if Planning(w, c, env).Some? {
      r := ConcludesPlanned(w, c, env);
    } else {
      r := ConcludesOffDisk(w, c, env);
    }
  }

  lemma OthersKept(w: World, c: Call, env: Env)
    ensures forall rid :: rid != c.requestId ==> Lookup(Finished(w, c, env), rid) == Lookup(w, rid)
    ensures forall rid :: rid != c.requestId || rid in w.central ==>
      SameAt(w.central, Finished(w, c, env).central, rid)
  {
    hide Workflow.Run, Unfold;
    var es := Workflow.Run(w, c, env).1;
    assert CutEffects(es, |es|) == es;
    forall rid | rid != c.requestId ensures Lookup(Finished(w, c, env), rid) == Lookup(w, rid) {
      CallsSaveOnlyTheirOwn(w, c, env, |es|, rid);
    }
    forall rid | rid != c.requestId || rid in w.central ensures SameAt(w.central, Finished(w, c, env).central, rid) {
      CallsReleaseOnlyTheirOwn(w, c, env, |es|, rid);
    }
  }

  ghost predicate SameAt(m: map<RequestId, Allocation>, n: map<RequestId, Allocation>, rid: RequestId) {
    (rid in m <==> rid in n) && (rid in m ==> n[rid] == m[rid])
  }

  lemma OneRecord(before: World, after: World, rid: RequestId)
    requires Lookup(after, rid).Some? && forall other :: other != rid ==> Lookup(after, other) == Lookup(before, other)
    ensures after.workflows == before.workflows[rid := after.workflows[rid]]
  {
    forall other | other != rid
      ensures other in after.workflows <==> other in before.workflows
      ensures other in before.workflows ==> after.workflows[other] == before.workflows[other]
    {
      assert Lookup(after, other) == Lookup(before, other);
    }
  }

  lemma OneAllocation(m: map<RequestId, Allocation>, n: map<RequestId, Allocation>, rid: RequestId)
    requires forall other :: other != rid ==> SameAt(m, n, other)
    ensures SameAt(m, n, rid) ==> n == m
    ensures rid in n ==> n == m[rid := n[rid]]
  {
    forall other | other != rid ensures other in m <==> other in n {
      assert SameAt(m, n, other);
    }
    forall other | other != rid && other in m ensures n[other] == m[other] {
      assert SameAt(m, n, other);
    }
  }

  // The state of an allocation the call created.
  lemma OwnAllocation(w: World, c: Call, env: Env)
    requires AllLinked(w) && !Conflicts(w, c) && !Repeats(w, c) && c.requestId !in w.central
    ensures var o, after := Workflow.Run(w, c, env).0, Finished(w, c, env);
      if env.create == Unreached then c.requestId !in after.central
      else c.requestId in after.central && after.central[c.requestId] ==
             Allocation(env.create.id, env.create.ports, !GaveUp(o) || env.release == NotReleased)
  {
    hide Workflow.Run, Unfold, KeepsObtained, Concludes;
    var es := Workflow.Run(w, c, env).1;
    assert CutEffects(es, |es|) == es;
    var r := Concluded(w, c, env);
    ConcludesTells(w, c, env, Workflow.Run(w, c, env).0, r);
    LeavesAllocationIff(w, c, env);
    KeepsIffLeaves(w, c, env);
    if env.create == Unreached {
      KeepsMeansObtains(w, c, env);
      CallShape(w, c, env);
      NeverCreated(w, es, c.requestId);
    } else {
      if Failed(Workflow.Run(w, c, env).0) {
        FailedCallChangesNoFile(w, c, env);
      }
      CreatedAllocation(w, c, env, |es|);
    }
  }

  // Without an allocation at Central an attempt that got an answer is neither refused nor
  // inconsistent.
  lemma ConcludesTells(w: World, c: Call, env: Env, o: WorkflowOutcome, r: WorkflowRecord)
    requires Concludes(w, c, env, o, r) && c.requestId !in w.central
    ensures !o.IdempotencyConflict? && !o.StateInconsistent?
    ensures o.AllocationUnavailable? <==> !env.create.Answered?
  {
  }

  lemma CentralIs(w: World, c: Call, env: Env)
    requires AllLinked(w) && !Conflicts(w, c) && !Repeats(w, c)
    ensures CentralEnds(w, c, env, Workflow.Run(w, c, env).0, Finished(w, c, env))
  {
    hide Workflow.Run, Unfold, GaveUp, SameAt;
    var after := Finished(w, c, env);
    OthersKept(w, c, env);
    OneAllocation(w.central, after.central, c.requestId);
    if c.requestId !in w.central {
      OwnAllocation(w, c, env);
      AbsentSame(w.central, after.central, c.requestId);
    }
  }

  lemma AbsentSame(m: map<RequestId, Allocation>, n: map<RequestId, Allocation>, rid: RequestId)
    requires rid !in m
    ensures rid !in n ==> SameAt(m, n, rid)
  {
  }

  lemma PlanningIff(w: World, c: Call, env: Env, id: string, plan: seq<PlannedFile>)
    requires !Conflicts(w, c) && !Repeats(w, c)
    ensures StoresPlan(w, c, env, id, plan) <==> Planning(w, c, env) == Some((id, plan))
  {
  }

  lemma PlannedDiskEnds(w: World, c: Call, env: Env)
    requires Planning(w, c, env).Some?
    ensures var p, o, after := Planning(w, c, env).value, Workflow.Run(w, c, env).0, Finished(w, c, env).disk;
      && env.mutationId in after.records
      && after.records - {env.mutationId} == w.disk.records - {env.mutationId}
      && (if o.Success? then
            && CarriedOut(w.disk.files, p.0, p.1, after.records[env.mutationId])
            && Holding(w.disk.files, p.1, after.files)
          else
            && Plans(w.disk.files, p.0, p.1, after.records[env.mutationId])
            && after.files == w.disk.files)
  {
    hide Workflow.Run, Unfold, Exec, PlanAndApplyWrites, Plans, CarriedOut, Holding, Planning, PlanRecord, TargetWrites;
    var p := Planning(w, c, env).value;
    WholeCall(w, c, env);
    PlanAndApplyOutcome(w.disk, p.0, p.1, env);
    PlanCarriedOut(w.disk, p.0, p.1);
    PlanIsPlanned(w.disk.files, p.0, p.1);
    PlannedOutcome(w, c, env);
  }

  lemma DiskIs(w: World, c: Call, env: Env)
    requires !Conflicts(w, c) && !Repeats(w, c)
    ensures DiskEnds(w, c, env, Workflow.Run(w, c, env).0, Finished(w, c, env))
  {
    hide Workflow.Run, Unfold, StoresPlan, Planning, Plans, CarriedOut, Holding;
    forall id, plan ensures StoresPlan(w, c, env, id, plan) <==> Planning(w, c, env) == Some((id, plan)) {
      PlanningIff(w, c, env, id, plan);
    }
    if Planning(w, c, env).Some? {
      var p := Planning(w, c, env).value;
      assert Planning(w, c, env) == Some((p.0, p.1));
      PlannedDiskEnds(w, c, env);
    } else {
      NoPlanOffDisk(w, c, env);
      OffDiskLeavesDisk(w, Workflow.Run(w, c, env).1);
    }
  }

  // Every call ends in exactly this way.
  lemma CallEnds(w: World, c: Call, env: Env)
    requires AllLinked(w)
    ensures Ends(w, c, env, Workflow.Run(w, c, env).0, Finished(w, c, env))
  {
    hide Workflow.Run, Unfold, Concludes, CentralEnds, DiskEnds, Conflicts, Repeats;
    if Conflicts(w, c) || Repeats(w, c) {
      NotAttempted(w, c, env);
    } else {
      RecordEnds(w, c, env);
      CentralIs(w, c, env);
      DiskIs(w, c, env);
    }
  }

  // What a call that succeeds returns is on record, and names the allocation Central then
  // holds for the request with exactly its ports; a fresh success is APPLIED with a config
  // and ALLOCATED without one.
  lemma SuccessIs(w: World, c: Call, env: Env)
    requires AllLinked(w) && Workflow.Run(w, c, env).0.Success?
    ensures var r, after := Workflow.Run(w, c, env).0.record, Finished(w, c, env);
      && Lookup(after, c.requestId) == Some(r) && c.requestId in after.central
      && r.manifestHash == c.manifestHash
      && r.allocationId == Some(after.central[c.requestId].id)
      && r.ports == after.central[c.requestId].ports
      && (Repeats(w, c) ==> after == w && (r.status == APPLIED || (r.status == ALLOCATED && !c.hasConfig)))
      && (!Repeats(w, c) ==>
            && r.status == (if c.hasConfig then APPLIED else ALLOCATED)
            && r.configApplied == c.hasConfig
            && r.mutationId == (if c.hasConfig then Some(env.mutationId) else None)
            && r.createdByThisAttempt == (c.requestId !in w.central))
  {
    hide Workflow.Run, Unfold, DiskEnds;
    CallEnds(w, c, env);
    if Repeats(w, c) {
      assert Linked(w, c.requestId, w.workflows[c.requestId]);
    }
  }

  /* Calls cut short. */

  // The call gets an active allocation and so comes to record it.
  ghost predicate Records(w: World, c: Call, env: Env) {
    && !Conflicts(w, c) && !Repeats(w, c) && env.create.Answered?
    && (c.requestId in w.central ==> w.central[c.requestId].active)
  }

  // The record of the allocation, before the config step has come to an end.
  ghost predicate Allocated(w: World, c: Call, env: Env, r: WorkflowRecord) {
    var created := c.requestId !in w.central;
    env.create.Answered? &&
    r == WorkflowRecord(c.manifestHash, ALLOCATED, Some(if created then env.create.id else w.central[c.requestId].id),
                        created, None, false, if created then env.create.ports else w.central[c.requestId].ports)
  }

  ghost predicate SavesOnly(es: seq<Effect>, rid: RequestId, r: WorkflowRecord, n: nat) {
    && n < |es| && es[n] == SaveWorkflow(rid, r)
    && forall k :: 0 <= k < |es| && es[k].SaveWorkflow? ==> k == n || k == |es| - 1
  }

  lemma TailSaves(head: seq<Effect>, middle: seq<Effect>, tail: seq<Effect>, rid: RequestId, r: WorkflowRecord)
    requires head != [] && SavesOnly(head, rid, r, |head| - 1)
    requires |head| > 1 ==> !head[0].SaveWorkflow?
    requires |head| <= 2 && forall k :: 0 <= k < |middle| ==> middle[k].OnDisk?
    requires tail == [] || (forall k :: 0 <= k < |tail| - 1 ==> tail[k].ReleaseAt?)
    requires tail == [] ==> middle == []
    ensures SavesOnly(head + middle + tail, rid, r, |head| - 1)
  {
  }

  // A call that records its allocation does so right behind creating it, and saves nothing
  // else before its last effect.
  lemma RecordsOnce(w: World, c: Call, env: Env) returns (r: WorkflowRecord)
    requires AllLinked(w) && Records(w, c, env)
    ensures Allocated(w, c, env, r)
    ensures SavesOnly(Workflow.Run(w, c, env).1, c.requestId, r, if c.requestId in w.central then 0 else 1)
  {
    hide Workflow.Run, Exec, PlanAndApplyWrites, GiveUp, SavesOnly;
    CreatedHereIff(w, c, env);
    r := Base(w, c, env);
    var head := Before(w, c, env);
    BeginsRecording(w, c, env);
    if Planning(w, c, env).Some? {
      CallJournal(w, c, env);
      var part := DiskPart(w, c, env);
      PlannedTail(w, c, env);
      TailSaves(head, DiskEffects(part.1), After(w, c, env), c.requestId, r);
    } else if Failed(Workflow.Run(w, c, env).0) {
      RejectedRun(w, c, env);
      GiveUpReports(w.disk, c, Base(w, c, env), None, env);
      TailSaves(head, [], GiveUp(w.disk, c, Base(w, c, env), None, env).1, c.requestId, r);
      assert head + [] == head;
    } else {
      OnlyRecorded(w, c, env);
    }
  }

  lemma BeginsRecording(w: World, c: Call, env: Env)
    requires Records(w, c, env)
    ensures var head, n := Before(w, c, env), if c.requestId in w.central then 0 else 1;
      && |head| == n + 1 && SavesOnly(head, c.requestId, Base(w, c, env), n)
      && (n == 1 ==> !head[0].SaveWorkflow?)
  {
  }

  lemma PlannedTail(w: World, c: Call, env: Env)
    requires Planning(w, c, env).Some?
    ensures var tail := After(w, c, env); tail != [] && forall k :: 0 <= k < |tail| - 1 ==> tail[k].ReleaseAt?
  {
    hide Exec, PlanAndApplyWrites, Workflow.Run;
    var p, part := Planning(w, c, env).value, DiskPart(w, c, env);
    if part.0 != Done && part.0 != AlreadyDone {
      NothingToRollBack(w.disk, p.0, p.1, env);
      GiveUpReports(Exec(w.disk, part.1), c, Base(w, c, env), Some(env.mutationId), env);
    }
  }

  lemma OnlyRecorded(w: World, c: Call, env: Env)
    requires Records(w, c, env) && Planning(w, c, env).None? && !Failed(Workflow.Run(w, c, env).0)
    ensures Workflow.Run(w, c, env).1 == Before(w, c, env)
  {
    hide Exec, PlanAndApplyWrites, CompensateConfig;
    Regroup(CreateEffects(w, c.requestId, env.create), [SaveWorkflow(c.requestId, Base(w, c, env))], []);
    assert Before(w, c, env) + [] == Before(w, c, env);
  }

  lemma SavedAndKept(w: World, es: seq<Effect>, rid: RequestId, r: WorkflowRecord, n: nat, survived: nat)
    requires SavesOnly(es, rid, r, n) && survived < |es|
    ensures Lookup(Unfold(w, es[..survived]), rid) == if survived <= n then Lookup(w, rid) else Some(r)
  {
    hide Unfold;
    if survived <= n {
      WorkflowAfter(w, es[..survived], rid);
    } else {
      var head, rest := es[..n + 1], es[n + 1..survived];
      assert es[..survived] == head + rest;
      UnfoldConcat(w, head, rest);
      LastSaved(w, head, rid, r);
      WorkflowAfter(Unfold(w, head), rest, rid);
    }
  }

  // Cut short once it has recorded its allocation, and before its last effect, a call leaves
  // the record ALLOCATED, with that allocation's id and ports; before, the record is as it was.
  lemma CutCallRecord(w: World, c: Call, env: Env, survived: nat)
    requires AllLinked(w) && Records(w, c, env) && survived < |Workflow.Run(w, c, env).1|
    ensures var now := Lookup(AfterCall(w, c, env, survived), c.requestId);
      if survived <= (if c.requestId in w.central then 0 else 1) then now == Lookup(w, c.requestId)
      else now.Some? && Allocated(w, c, env, now.value)
  {
    hide Workflow.Run, Unfold, SavesOnly, Allocated, Records;
    var r := RecordsOnce(w, c, env);
    SavedAndKept(w, Workflow.Run(w, c, env).1, c.requestId, r, if c.requestId in w.central then 0 else 1, survived);
  }
}
