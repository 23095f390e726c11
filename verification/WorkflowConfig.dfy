// The config half of a workflow call: what a failed one leaves, what a successful one
// leaves, and that its disk writes are one plan followed by one apply.
module WorkflowConfig {
  import opened Wrappers
  import opened ConfigFiles
  import opened ConfigManager
  import opened ConfigSafety
  import opened ConfigSpec
  import opened Workflow
  import opened WorkflowSafety
  import ConfigRuns

  /* Planning and applying in one breath. */

  lemma FreshPlanUnchanged(files: Files, allocationId: string, plan: seq<PlannedFile>)
    ensures FirstChanged(files, PlanRecord(files, allocationId, plan).files) == None
  {
    UnchangedIff(files, PlanRecord(files, allocationId, plan).files);
  }

  function PlannedDisk(d: Disk, allocationId: string, plan: seq<PlannedFile>, env: Env): Disk {
    d.(records := d.records[env.mutationId := PlanRecord(d.files, allocationId, plan)])
  }

  lemma PlanThenApply(d: Disk, allocationId: string, plan: seq<PlannedFile>, env: Env)
    ensures var planned, ws := PlannedDisk(d, allocationId, plan, env), PlanAndApplyWrites(d, allocationId, plan, env);
      && Attempted(planned, env.mutationId)
      && ws.0 == Apply(planned, env.mutationId, env.fault).0
      && Exec(d, ws.1) == Exec(planned, Apply(planned, env.mutationId, env.fault).1)
  {
    ConfigRuns.PlanPersisted(d, env.mutationId, allocationId, plan);
    FreshPlanUnchanged(d.files, allocationId, plan);
    var planned := PlannedDisk(d, allocationId, plan, env);
    ExecConcat(d, PersistPlan(d, env.mutationId, allocationId, plan), Apply(planned, env.mutationId, env.fault).1);
  }

  lemma AttemptedOutcome(d: Disk, id: MutationId, fault: Fault)
    ensures Attempted(d, id) ==> Apply(d, id, fault).0 == Reached(d.records[id].files, fault).1
  {
  }

  // Nothing edits files between the two, so only a write or a read-back can fail; and then
  // the files are as before and the record still says PLANNED.
  lemma PlanAndApplyOutcome(d: Disk, allocationId: string, plan: seq<PlannedFile>, env: Env)
    ensures var ws := PlanAndApplyWrites(d, allocationId, plan, env);
      var planned := PlanRecord(d.files, allocationId, plan);
      && ws.0 == Reached(planned.files, env.fault).1
      && (ws.0 != Done ==>
            && Exec(d, ws.1).files == d.files
            && Exec(d, ws.1).records == d.records[env.mutationId := planned])
      && (ws.0 == Done ==>
            && Exec(d, ws.1).records == d.records[env.mutationId := Completed(planned)]
            && Exec(d, ws.1).files == Exec(d, TargetWrites(planned.files)).files)
  {
    hide Exec, Apply, TargetWrites, PlanAndApplyWrites;
    var d' := PlannedDisk(d, allocationId, plan, env);
    AttemptedOutcome(d', env.mutationId, env.fault);
    PlanThenApply(d, allocationId, plan, env);
    if Apply(d', env.mutationId, env.fault).0 != Done {
      FailedApplyChangesNothing(d', env.mutationId, env.fault);
    } else {
      AppliedFiles(d', env.mutationId, env.fault);
      SameTargets(d, d', d'.records[env.mutationId].files);
    }
  }

  /* What a call writes to the disk. */

  // The plan a call gets as far as persisting.
  function Planning(w: World, c: Call, env: Env): Option<(string, seq<PlannedFile>)> {
    var existing := Lookup(w, c.requestId);
    if existing.Some? &&
        (existing.value.manifestHash != c.manifestHash || Replays(existing.value, c.hasConfig)) then None
    else match Granted(w, c.requestId, env.create)
      case None => None
      case Some(granted) =>
        if !granted.0.active || !c.hasConfig then None
        else match c.build(w.disk.files, granted.0.ports)
          case PlanReady(plan) => Some((granted.0.id, plan))
          case _ => None
  }

  ghost predicate OffDisk(es: seq<Effect>) {
    forall k :: 0 <= k < |es| ==> !es[k].OnDisk?
  }

  // Compensation never rolls anything back: the mutation it is asked about is not APPLIED.
  lemma NothingToRollBack(d: Disk, allocationId: string, plan: seq<PlannedFile>, env: Env)
    requires PlanAndApplyWrites(d, allocationId, plan, env).0 != Done
    ensures CompensateConfig(Exec(d, PlanAndApplyWrites(d, allocationId, plan, env).1), Some(env.mutationId)) ==
            ([ConfigNotAppliedNothingToRollBack], [])
  {
    PlanAndApplyOutcome(d, allocationId, plan, env);
  }

  lemma {:induction false} OffDiskLeavesDisk(w: World, es: seq<Effect>)
    requires OffDisk(es)
    ensures Unfold(w, es).disk == w.disk
  {
    if es != [] {
      OffDiskLeavesDisk(w, es[..|es| - 1]);
    }
  }

  function Base(w: World, c: Call, env: Env): WorkflowRecord
    requires Granted(w, c.requestId, env.create).Some?
  {
    var granted := Granted(w, c.requestId, env.create).value;
    BaseRecord(c.manifestHash, granted.0, CreatedHere(Lookup(w, c.requestId), granted.1))
  }

  function Before(w: World, c: Call, env: Env): seq<Effect>
    requires Granted(w, c.requestId, env.create).Some?
  {
    CreateEffects(w, c.requestId, env.create) + [SaveWorkflow(c.requestId, Base(w, c, env))]
  }

  function DiskPart(w: World, c: Call, env: Env): (Outcome, seq<Write>)
    requires Planning(w, c, env).Some?
  {
    PlanAndApplyWrites(w.disk, Planning(w, c, env).value.0, Planning(w, c, env).value.1, env)
  }

  function After(w: World, c: Call, env: Env): seq<Effect>
    requires Planning(w, c, env).Some?
  {
    Conclude(Exec(w.disk, DiskPart(w, c, env).1), c, Base(w, c, env), DiskPart(w, c, env).0, env).1
  }

  lemma CallJournal(w: World, c: Call, env: Env)
    requires Planning(w, c, env).Some?
    ensures Workflow.Run(w, c, env).1 == Before(w, c, env) + DiskEffects(DiskPart(w, c, env).1) + After(w, c, env)
    ensures OffDisk(Before(w, c, env)) && OffDisk(After(w, c, env))
  {
    hide Exec, PlanAndApplyWrites, Rollback;
    var plan := Planning(w, c, env).value;
    var create := CreateEffects(w, c.requestId, env.create);
    var begun := Before(w, c, env)[|create|..];
    Regroup(create, begun, DiskEffects(DiskPart(w, c, env).1) + After(w, c, env));
    Regroup(Before(w, c, env), DiskEffects(DiskPart(w, c, env).1), After(w, c, env));
    if DiskPart(w, c, env).0 != Done {
      PlanAndApplyOutcome(w.disk, plan.0, plan.1, env);
      NothingToRollBack(w.disk, plan.0, plan.1, env);
    }
  }

  lemma NoPlanOffDisk(w: World, c: Call, env: Env)
    requires Planning(w, c, env).None?
    ensures OffDisk(Workflow.Run(w, c, env).1)
  {
  }

  // As config events: nothing, or a plan followed by an apply that may be cut short.
  function DiskEvents(w: World, c: Call, env: Env, survived: nat): seq<ConfigRuns.Event> {
    if Planning(w, c, env).None? || survived <= |Before(w, c, env)| then []
    else PlanThenCut(env, Planning(w, c, env).value, survived - |Before(w, c, env)| - 1)
  }

  function PlanThenCut(env: Env, plan: (string, seq<PlannedFile>), survived: nat): seq<ConfigRuns.Event> {
    [ConfigRuns.PlanEvent(env.mutationId, plan.0, plan.1), ConfigRuns.ApplyEvent(env.mutationId, env.fault, survived)]
  }

  lemma TwoEvents(d: Disk, e: ConfigRuns.Event, f: ConfigRuns.Event)
    ensures ConfigRuns.Run(d, [e, f]) == ConfigRuns.Step(ConfigRuns.Step(d, e), f)
  {
    assert [e, f][..1] == [e] && [e][..0] == [];
    assert ConfigRuns.Run(d, [e]) == ConfigRuns.Step(ConfigRuns.Run(d, []), e);
  }

  lemma DiskEffectsPrefix(ws: seq<Write>, n: nat)
    requires n <= |ws|
    ensures DiskEffects(ws)[..n] == DiskEffects(ws[..n])
  {
  }

  lemma OffDiskPrefix(w: World, es: seq<Effect>, n: nat)
    requires OffDisk(es)
    ensures Unfold(w, CutEffects(es, n)).disk == w.disk
  {
    OffDiskLeavesDisk(w, CutEffects(es, n));
  }

  // Until its plan is persisted a call leaves the disk alone.
  lemma EarlyCrash(w: World, c: Call, env: Env, survived: nat)
    requires Planning(w, c, env).None? || survived <= |Before(w, c, env)|
    ensures AfterCall(w, c, env, survived).disk == w.disk
  {
    if Planning(w, c, env).None? {
      NoPlanOffDisk(w, c, env);
      OffDiskPrefix(w, Workflow.Run(w, c, env).1, survived);
    } else {
      CallJournal(w, c, env);
      PrefixOfFirst(Before(w, c, env), DiskEffects(DiskPart(w, c, env).1) + After(w, c, env), survived);
      Regroup(Before(w, c, env), DiskEffects(DiskPart(w, c, env).1), After(w, c, env));
      OffDiskPrefix(w, Before(w, c, env), survived);
    }
  }

  lemma PrefixOfFirst(es: seq<Effect>, fs: seq<Effect>, n: nat)
    requires n <= |es|
    ensures CutEffects(es + fs, n) == CutEffects(es, n)
  {
  }

  lemma LateCrash(w: World, c: Call, env: Env, survived: nat)
    requires Planning(w, c, env).Some? && |Before(w, c, env)| < survived && env.mutationId !in w.disk.records
    ensures AfterCall(w, c, env, survived).disk ==
            ConfigRuns.Run(w.disk, PlanThenCut(env, Planning(w, c, env).value, survived - |Before(w, c, env)| - 1))
  {
    hide Workflow.Run, PlanAndApplyWrites, ConfigRuns.Run, ConfigRuns.Step, Exec;
    PlannedCall(w, c, env, survived);
    CutPlanAndApply(w.disk, Planning(w, c, env).value.0, Planning(w, c, env).value.1, env,
        survived - |Before(w, c, env)|);
  }

  // On disk, a call cut short anywhere is a run of config events.
  lemma CallIsConfigRun(w: World, c: Call, env: Env, survived: nat)
    requires env.mutationId !in w.disk.records
    ensures AfterCall(w, c, env, survived).disk == ConfigRuns.Run(w.disk, DiskEvents(w, c, env, survived))
  {
    if Planning(w, c, env).None? || survived <= |Before(w, c, env)| {
      EarlyCrash(w, c, env, survived);
    } else {
      LateCrash(w, c, env, survived);
    }
  }

  lemma PlannedCall(w: World, c: Call, env: Env, survived: nat)
    requires Planning(w, c, env).Some? && |Before(w, c, env)| < survived
    ensures AfterCall(w, c, env, survived).disk ==
            Exec(w.disk, ConfigRuns.Cut(DiskPart(w, c, env).1, survived - |Before(w, c, env)|))
  {
    hide Workflow.Run, Exec, Unfold, DiskPart, Before, After;
    CallJournal(w, c, env);
    var before, ws, after := Before(w, c, env), DiskPart(w, c, env).1, After(w, c, env);
    var n := survived - |before|;
    var es := CutEffects(Workflow.Run(w, c, env).1, survived);
    var tail := if n <= |ws| then [] else es[|before| + |ws|..];
    assert es == before + DiskEffects(ConfigRuns.Cut(ws, n)) + tail;
    assert OffDisk(tail) by {
      assert forall k :: 0 <= k < |tail| ==> tail[k] == after[k];
    }
    UnfoldConcat(w, before + DiskEffects(ConfigRuns.Cut(ws, n)), tail);
    UnfoldConcat(w, before, DiskEffects(ConfigRuns.Cut(ws, n)));
    OffDiskLeavesDisk(w, before);
    UnfoldDisk(Unfold(w, before), ConfigRuns.Cut(ws, n));
    OffDiskLeavesDisk(Unfold(w, before + DiskEffects(ConfigRuns.Cut(ws, n))), tail);
  }

  lemma CutPlanAndApply(d: Disk, allocationId: string, plan: seq<PlannedFile>, env: Env, n: nat)
    requires 0 < n && env.mutationId !in d.records
    ensures Exec(d, ConfigRuns.Cut(PlanAndApplyWrites(d, allocationId, plan, env).1, n)) ==
            ConfigRuns.Run(d, PlanThenCut(env, (allocationId, plan), n - 1))
  {
    hide Exec, Apply;
    var first := PersistPlan(d, env.mutationId, allocationId, plan);
    var ws := Apply(Exec(d, first), env.mutationId, env.fault).1;
    assert ConfigRuns.Cut(first + ws, n) == first + ConfigRuns.Cut(ws, n - 1);
    ExecConcat(d, first, ConfigRuns.Cut(ws, n - 1));
    TwoEvents(d, ConfigRuns.PlanEvent(env.mutationId, allocationId, plan),
              ConfigRuns.ApplyEvent(env.mutationId, env.fault, n - 1));
  }

  /* Failure and success. */

  ghost predicate Failed(outcome: WorkflowOutcome) {
    outcome.ConfigFailed? || outcome.CompensationFailed?
  }

  function Finished(w: World, c: Call, env: Env): World {
    Unfold(w, Workflow.Run(w, c, env).1)
  }

  lemma {:induction false} ActiveUnlessReleased(w: World, es: seq<Effect>, rid: RequestId)
    requires rid in w.central && w.central[rid].active
    requires forall k :: 0 <= k < |es| ==> !es[k].CreateAt?
    ensures rid in Unfold(w, es).central
    ensures Unfold(w, es).central[rid].active <==> ReleaseAt(rid) !in es
  {
    if es != [] {
      ActiveUnlessReleased(w, es[..|es| - 1], rid);
      assert es == es[..|es| - 1] + [es[|es| - 1]];
    }
  }

  lemma LastSaved(w: World, es: seq<Effect>, rid: RequestId, r: WorkflowRecord)
    requires es != [] && es[|es| - 1] == SaveWorkflow(rid, r)
    ensures Lookup(Unfold(w, es), rid) == Some(r)
  {
  }

  // How a call whose config step is refused ends.
  ghost predicate EndsReleasing(w: World, c: Call, env: Env, es: seq<Effect>) {
    && es != []
    && es[|es| - 1].SaveWorkflow?
    && es[|es| - 1].requestId == c.requestId
    && es[|es| - 1].record.status == FAILED
    && (ReleaseAt(c.requestId) in es <==> c.requestId !in w.central && env.release != NotReleased)
  }

  ghost predicate Reported(w: World, c: Call, env: Env, outcome: WorkflowOutcome) {
    && Failed(outcome)
    && ConfigRolledBack !in outcome.actions && ConfigRollbackCheckFailed !in outcome.actions
    && (outcome.CompensationFailed? <==> c.requestId !in w.central && env.release != Confirmed)
  }

  lemma CreatedHereIff(w: World, c: Call, env: Env)
    requires AllLinked(w) && Granted(w, c.requestId, env.create).Some?
    ensures CreatedHere(Lookup(w, c.requestId), Granted(w, c.requestId, env.create).value.1) <==>
        c.requestId !in w.central
  {
    if c.requestId in w.workflows {
      assert Linked(w, c.requestId, w.workflows[c.requestId]);
    }
  }

  lemma GiveUpReports(d: Disk, c: Call, base: WorkflowRecord, mutation: Option<MutationId>, env: Env)
    requires mutation == None || CompensateConfig(d, mutation) == ([ConfigNotAppliedNothingToRollBack], [])
    ensures var r := GiveUp(d, c, base, mutation, env);
      && r.1 == ReleaseEffects(c.requestId, base.createdByThisAttempt, env.release) +
                [SaveWorkflow(c.requestId, base.(status := FAILED, mutationId := mutation))]
      && Failed(r.0)
      && ConfigRolledBack !in r.0.actions && ConfigRollbackCheckFailed !in r.0.actions
      && (r.0.CompensationFailed? <==> base.createdByThisAttempt && env.release != Confirmed)
  {
    assert DiskEffects([]) == [];
  }

  // A plan refused before anything was persisted.
  lemma RejectedRun(w: World, c: Call, env: Env)
    requires Planning(w, c, env).None? && Failed(Workflow.Run(w, c, env).0)
    ensures Granted(w, c.requestId, env.create).Some? && Granted(w, c.requestId, env.create).value.0.active
    ensures var given := GiveUp(w.disk, c, Base(w, c, env), None, env);
      Workflow.Run(w, c, env) == (given.0, Before(w, c, env) + given.1)
  {
    var granted := Granted(w, c.requestId, env.create);
    assert granted.Some? && granted.value.0.active;
    Regroup(CreateEffects(w, c.requestId, env.create), [SaveWorkflow(c.requestId, Base(w, c, env))],
            GiveUp(w.disk, c, Base(w, c, env), None, env).1);
  }

  // An apply that went wrong.
  lemma RefusedRun(w: World, c: Call, env: Env)
    requires Planning(w, c, env).Some? && Failed(Workflow.Run(w, c, env).0)
    ensures Granted(w, c.requestId, env.create).Some? && Granted(w, c.requestId, env.create).value.0.active
    ensures DiskPart(w, c, env).0 != Done
    ensures var given := GiveUp(Exec(w.disk, DiskPart(w, c, env).1), c, Base(w, c, env), Some(env.mutationId), env);
      Workflow.Run(w, c, env).0 == given.0 && After(w, c, env) == given.1
  {
    var plan := Planning(w, c, env).value;
    PlanAndApplyOutcome(w.disk, plan.0, plan.1, env);
  }

  lemma EndsWithGiveUp(w: World, c: Call, env: Env, head: seq<Effect>, d: Disk, mutation: Option<MutationId>)
    requires AllLinked(w) && Granted(w, c.requestId, env.create).Some?
    requires mutation == None || CompensateConfig(d, mutation) == ([ConfigNotAppliedNothingToRollBack], [])
    requires ReleaseAt(c.requestId) !in head
    ensures EndsReleasing(w, c, env, head + GiveUp(d, c, Base(w, c, env), mutation, env).1)
    ensures Reported(w, c, env, GiveUp(d, c, Base(w, c, env), mutation, env).0)
  {
    CreatedHereIff(w, c, env);
    GiveUpReports(d, c, Base(w, c, env), mutation, env);
    var tail := GiveUp(d, c, Base(w, c, env), mutation, env).1;
    MemberOfThree(head, [], tail, ReleaseAt(c.requestId));
    assert head + [] + tail == head + tail;
  }

  lemma FailedCallShape(w: World, c: Call, env: Env)
    requires AllLinked(w) && Failed(Workflow.Run(w, c, env).0)
    ensures EndsReleasing(w, c, env, Workflow.Run(w, c, env).1)
    ensures Reported(w, c, env, Workflow.Run(w, c, env).0)
    ensures Granted(w, c.requestId, env.create).Some? && Granted(w, c.requestId, env.create).value.0.active
  {
    if Planning(w, c, env).None? {
      RejectedRun(w, c, env);
      EndsWithGiveUp(w, c, env, Before(w, c, env), w.disk, None);
    } else {
      RefusedRun(w, c, env);
      CallJournal(w, c, env);
      var plan, part := Planning(w, c, env).value, DiskPart(w, c, env);
      NothingToRollBack(w.disk, plan.0, plan.1, env);
      var head := Before(w, c, env) + DiskEffects(part.1);
      MemberOfThree(Before(w, c, env), DiskEffects(part.1), [], ReleaseAt(c.requestId));
      assert head + [] == head;
      EndsWithGiveUp(w, c, env, head, Exec(w.disk, part.1), Some(env.mutationId));
    }
  }

  lemma MemberOfThree(a: seq<Effect>, b: seq<Effect>, c: seq<Effect>, e: Effect)
    ensures e in a + b + c <==> e in a || e in b || e in c
  {
  }

  // A workflow call whose config step fails, whatever failed, leaves the project files as
  // they were and no new APPLIED mutation; nothing ever needs rolling back; and the
  // allocation survives exactly if it was there before or Central kept it.
  lemma FailedCallChangesNoFile(w: World, c: Call, env: Env)
    requires AllLinked(w) && Failed(Workflow.Run(w, c, env).0)
    ensures var after := Finished(w, c, env);
      && after.disk.files == w.disk.files
      && after.disk.records == (match Planning(w, c, env)
           case None => w.disk.records
           case Some(p) => w.disk.records[env.mutationId := PlanRecord(w.disk.files, p.0, p.1)])
      && Lookup(after, c.requestId).Some? && after.workflows[c.requestId].status == FAILED
      && c.requestId in after.central
      && (after.central[c.requestId].active <==> c.requestId in w.central || env.release == NotReleased)
    ensures Reported(w, c, env, Workflow.Run(w, c, env).0)
  {
    FailedCallShape(w, c, env);
    var es := Workflow.Run(w, c, env).1;
    LastSaved(w, es, c.requestId, es[|es| - 1].record);
    FailedCallDisk(w, c, env);
    FailedCallCentral(w, c, env);
  }

  lemma FailedCallDisk(w: World, c: Call, env: Env)
    requires AllLinked(w) && Failed(Workflow.Run(w, c, env).0)
    ensures var after := Finished(w, c, env);
      && after.disk.files == w.disk.files
      && after.disk.records == (match Planning(w, c, env)
           case None => w.disk.records
           case Some(p) => w.disk.records[env.mutationId := PlanRecord(w.disk.files, p.0, p.1)])
  {
    match Planning(w, c, env)
    case None =>
      NoPlanOffDisk(w, c, env);
      OffDiskLeavesDisk(w, Workflow.Run(w, c, env).1);
    case Some(p) =>
      RefusedRun(w, c, env);
      CallJournal(w, c, env);
      WholeCall(w, c, env);
      PlanAndApplyOutcome(w.disk, p.0, p.1, env);
  }

  lemma WholeCall(w: World, c: Call, env: Env)
    requires Planning(w, c, env).Some?
    ensures Finished(w, c, env).disk == Exec(w.disk, DiskPart(w, c, env).1)
  {
    CallJournal(w, c, env);
    PlannedCall(w, c, env, |Workflow.Run(w, c, env).1| + 1);
  }

  lemma FailedCallCentral(w: World, c: Call, env: Env)
    requires AllLinked(w) && Failed(Workflow.Run(w, c, env).0)
    ensures var after := Finished(w, c, env);
      && c.requestId in after.central
      && (after.central[c.requestId].active <==> c.requestId in w.central || env.release == NotReleased)
  {
    FailedCallShape(w, c, env);
    CallShape(w, c, env);
    var es, rid := Workflow.Run(w, c, env).1, c.requestId;
    if rid in w.central {
      ActiveUnlessReleased(w, es, rid);
    } else {
      var a := Granted(w, rid, env.create).value.0;
      assert es[0] == CreateAt(rid, a);
      assert es == [es[0]] + es[1..];
      UnfoldConcat(w, [es[0]], es[1..]);
      UnfoldOne(w, es[0]);
      ActiveUnlessReleased(Happen(w, es[0]), es[1..], rid);
    }
  }

  lemma EndsApplied(w: World, c: Call, env: Env)
    requires !IsApplied(w, c.requestId) && IsApplied(Finished(w, c, env), c.requestId)
    ensures var es := Workflow.Run(w, c, env).1;
      es != [] && SavesApplied(es[|es| - 1]) &&
          es[|es| - 1] == SaveWorkflow(c.requestId, Finished(w, c, env).workflows[c.requestId])
  {
    hide Workflow.Run, Unfold;
    var es := Workflow.Run(w, c, env).1;
    WorkflowAfter(w, es, c.requestId);
    CallShape(w, c, env);
    var k :| 0 <= k < |es| && es[k] == SaveWorkflow(c.requestId, Finished(w, c, env).workflows[c.requestId]);
    assert SavesApplied(es[k]);
  }

  // Central ends with the allocation the plan was made for.
  lemma GrantNamed(w: World, c: Call, env: Env)
    requires Planning(w, c, env).Some?
    ensures var after := Finished(w, c, env);
      c.requestId in after.central && after.central[c.requestId].id == Planning(w, c, env).value.0
  {
    hide Workflow.Run, Unfold, DiskEffects, After, DiskPart;
    CallJournal(w, c, env);
    var es, begun := Workflow.Run(w, c, env).1, Before(w, c, env);
    assert CutEffects(es, |es|) == es;
    assert es[|begun| - 1] == begun[|begun| - 1];
    GrantStands(w, c, env, |es|);
  }

  // A call that newly succeeds with a config has written every planned file, recorded the
  // mutation as APPLIED for its allocation, and left that allocation active.
  lemma AppliedCallWroteItsPlan(w: World, c: Call, env: Env)
    requires !IsApplied(w, c.requestId) && IsApplied(Finished(w, c, env), c.requestId)
    ensures Planning(w, c, env).Some?
    ensures var after, p := Finished(w, c, env), Planning(w, c, env).value;
      var planned, r := PlanRecord(w.disk.files, p.0, p.1), after.workflows[c.requestId];
      && Workflow.Run(w, c, env).0 == Success(r)
      && r.mutationId == Some(env.mutationId) && r.configApplied && r.allocationId == Some(p.0)
      && after.disk.records == w.disk.records[env.mutationId := Completed(planned)]
      && after.disk.files == Exec(w.disk, TargetWrites(planned.files)).files
      && c.requestId in after.central && after.central[c.requestId].active
      && after.central[c.requestId].id == p.0
    ensures var after, p := Finished(w, c, env), Planning(w, c, env).value;
      && CarriedOut(w.disk.files, after.central[c.requestId].id, p.1, after.disk.records[env.mutationId])
      && after.disk.records[env.mutationId].allocationId == after.central[c.requestId].id
      && Holding(w.disk.files, p.1, after.disk.files)
  {
    hide Exec, Unfold, PlanAndApplyWrites;
    EndsApplied(w, c, env);
    SavedByPlan(w, c, env);
    var p, es := Planning(w, c, env).value, Workflow.Run(w, c, env).1;
    assert CutEffects(es, |es|) == es;
    TurningApplied(w, c, env, |es|, c.requestId);
    CallJournal(w, c, env);
    PlanAndApplyOutcome(w.disk, p.0, p.1, env);
    WholeCall(w, c, env);
    PlanCarriedOut(w.disk, p.0, p.1);
    GrantNamed(w, c, env);
  }

  lemma SavedByPlan(w: World, c: Call, env: Env)
    requires var es := Workflow.Run(w, c, env).1; es != [] && SavesApplied(es[|es| - 1])
    ensures Planning(w, c, env).Some? && DiskPart(w, c, env).0 in {Done, AlreadyDone}
    ensures var final := Base(w, c, env).(status := APPLIED, mutationId := Some(env.mutationId), configApplied := true);
      && Workflow.Run(w, c, env).0 == Success(final)
      && After(w, c, env) == [SaveWorkflow(c.requestId, final)]
  {
  }
}
