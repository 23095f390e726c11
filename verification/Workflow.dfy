// The workflow saga: allocate at Central, then plan and apply the config, with a persisted
// record, idempotent replay and compensation.
module Workflow {
  import opened Wrappers
  import opened ConfigFiles
  import opened ConfigManager

  type RequestId = string
  type Ports = map<string, nat>

  datatype Allocation = Allocation(id: string, ports: Ports, active: bool)

  datatype WorkflowStatus = ALLOCATED | FAILED | APPLIED

  datatype WorkflowRecord = WorkflowRecord(
    manifestHash: string,
    status: WorkflowStatus,
    allocationId: Option<string>,
    createdByThisAttempt: bool,
    mutationId: Option<MutationId>,
    configApplied: bool,
    ports: Ports)

  // Central's allocations by request id, this project's workflow records, and its disk.
  datatype World = World(
    central: map<RequestId, Allocation>, workflows: map<RequestId, WorkflowRecord>, disk: Disk)

  datatype PlanResult = PlanReady(plan: seq<PlannedFile>) | PlanRejected | PlanRaised

  // The part of a call that comes from the manifest. Building the plan only reads files.
  datatype Call = Call(
    requestId: RequestId, manifestHash: string, hasConfig: bool, build: (Files, Ports) -> PlanResult)

  // What the world outside does during a call.
  datatype CreateReply =
    | Unreached
    | Answered(id: string, ports: Ports)
    | AnswerLost(id: string, ports: Ports)

  datatype ReleaseReply = Confirmed | ConfirmationLost | NotReleased

  datatype Env = Env(create: CreateReply, mutationId: MutationId, fault: Fault, release: ReleaseReply)

  datatype Action =
    | ConfigRolledBack
    | ConfigNotAppliedNothingToRollBack
    | ConfigRollbackCheckFailed
    | AllocationReleased
    | AllocationReleaseFailed
    | AllocationPreserved

  datatype WorkflowOutcome =
    | IdempotencyConflict
    | Success(record: WorkflowRecord)
    | AllocationUnavailable
    | StateInconsistent
    | ConfigFailed(actions: seq<Action>)
    | CompensationFailed(actions: seq<Action>)
    | Raised

  /* Effects, in the order a call has them; a crash leaves a prefix. */

  datatype Effect =
    | CreateAt(requestId: RequestId, allocation: Allocation)
    | ReleaseAt(requestId: RequestId)
    | SaveWorkflow(requestId: RequestId, record: WorkflowRecord)
    | OnDisk(write: Write)

  function Happen(w: World, e: Effect): World {
    match e
    case CreateAt(rid, allocation) => w.(central := w.central[rid := allocation])
    case ReleaseAt(rid) =>
      if rid in w.central then w.(central := w.central[rid := w.central[rid].(active := false)]) else w
    case SaveWorkflow(rid, record) => w.(workflows := w.workflows[rid := record])
    case OnDisk(write) => w.(disk := Perform(w.disk, write))
  }

  function Unfold(w: World, es: seq<Effect>): World {
    if es == [] then w else Happen(Unfold(w, es[..|es| - 1]), es[|es| - 1])
  }

  function DiskEffects(ws: seq<Write>): seq<Effect> {
    seq(|ws|, k requires 0 <= k < |ws| => OnDisk(ws[k]))
  }

  /* The steps of a call. */

  function Replays(existing: WorkflowRecord, hasConfig: bool): bool {
    existing.status == APPLIED || (existing.status == ALLOCATED && !hasConfig)
  }

  // Central creates at most one allocation per request id and reports whether it replayed.
  function CreateEffects(w: World, rid: RequestId, reply: CreateReply): seq<Effect> {
    match reply
    case Unreached => []
    case Answered(id, ports) => if rid in w.central then [] else [CreateAt(rid, Allocation(id, ports, true))]
    case AnswerLost(id, ports) => if rid in w.central then [] else [CreateAt(rid, Allocation(id, ports, true))]
  }

  function Granted(w: World, rid: RequestId, reply: CreateReply): Option<(Allocation, bool)> {
    match reply
    case Unreached => None
    case AnswerLost(_, _) => None
    case Answered(id, ports) =>
      if rid in w.central then Some((w.central[rid], true)) else Some((Allocation(id, ports, true), false))
  }

  function FailedRecord(hash: string, allocationId: Option<string>): WorkflowRecord {
    WorkflowRecord(hash, FAILED, allocationId, false, None, false, map[])
  }

  function BaseRecord(hash: string, a: Allocation, created: bool): WorkflowRecord {
    WorkflowRecord(hash, ALLOCATED, Some(a.id), created, None, false, a.ports)
  }

  function CompensateConfig(d: Disk, mutation: Option<MutationId>): (seq<Action>, seq<Write>) {
    match mutation
    case None => ([], [])
    case Some(id) =>
      if id !in d.records then ([ConfigRollbackCheckFailed], [])
      else if d.records[id].status == Applied then
        var undo := Rollback(d, id);
        (if undo.0 == Done then [ConfigRolledBack] else [ConfigRollbackCheckFailed], undo.1)
      else ([ConfigNotAppliedNothingToRollBack], [])
  }

  function ReleaseAction(created: bool, reply: ReleaseReply): Action {
    if !created then AllocationPreserved
    else if reply == Confirmed then AllocationReleased else AllocationReleaseFailed
  }

  function ReleaseEffects(rid: RequestId, created: bool, reply: ReleaseReply): seq<Effect> {
    if created && reply != NotReleased then [ReleaseAt(rid)] else []
  }

  function Compensate(d: Disk, rid: RequestId, mutation: Option<MutationId>, created: bool, reply: ReleaseReply)
    : (seq<Action>, seq<Effect>)
  {
    var config := CompensateConfig(d, mutation);
    (config.0 + [ReleaseAction(created, reply)], DiskEffects(config.1) + ReleaseEffects(rid, created, reply))
  }

  function FailureOf(actions: seq<Action>): WorkflowOutcome {
    if AllocationReleaseFailed in actions || ConfigRollbackCheckFailed in actions then CompensationFailed(actions)
    else ConfigFailed(actions)
  }

  // The config step: plan, persist, apply; or compensate when one of them is refused.
  function Configure(d: Disk, c: Call, a: Allocation, created: bool, env: Env): (WorkflowOutcome, seq<Effect>) {
    var base := BaseRecord(c.manifestHash, a, created);
    match c.build(d.files, a.ports)
    case PlanRaised => (Raised, [])
    case PlanRejected => GiveUp(d, c, base, None, env)
    case PlanReady(plan) =>
      var ws := PlanAndApplyWrites(d, a.id, plan, env);
      var rest := Conclude(Exec(d, ws.1), c, base, ws.0, env);
      (rest.0, DiskEffects(ws.1) + rest.1)
  }

  function PlanAndApplyWrites(d: Disk, allocationId: string, plan: seq<PlannedFile>, env: Env): (Outcome, seq<Write>) {
    var planned := PersistPlan(d, env.mutationId, allocationId, plan);
    var applied := Apply(Exec(d, planned), env.mutationId, env.fault);
    (applied.0, planned + applied.1)
  }

  function Conclude(d: Disk, c: Call, base: WorkflowRecord, applied: Outcome, env: Env)
    : (WorkflowOutcome, seq<Effect>)
  {
    if applied == Done || applied == AlreadyDone then
      var final := base.(status := APPLIED, mutationId := Some(env.mutationId), configApplied := true);
      (Success(final), [SaveWorkflow(c.requestId, final)])
    else GiveUp(d, c, base, Some(env.mutationId), env)
  }

  function GiveUp(d: Disk, c: Call, base: WorkflowRecord, mutation: Option<MutationId>, env: Env)
    : (WorkflowOutcome, seq<Effect>)
  {
    var undo := Compensate(d, c.requestId, mutation, base.createdByThisAttempt, env.release);
    (FailureOf(undo.0), undo.1 + [SaveWorkflow(c.requestId, base.(status := FAILED, mutationId := mutation))])
  }

  function CreatedHere(existing: Option<WorkflowRecord>, replay: bool): bool {
    !replay && (existing == None || existing.value.allocationId == None)
  }

  function Lookup(w: World, rid: RequestId): Option<WorkflowRecord> {
    if rid in w.workflows then Some(w.workflows[rid]) else None
  }

  function Run(w: World, c: Call, env: Env): (WorkflowOutcome, seq<Effect>) {
    var existing := Lookup(w, c.requestId);
    if existing.Some? && existing.value.manifestHash != c.manifestHash then (IdempotencyConflict, [])
    else if existing.Some? && Replays(existing.value, c.hasConfig) then (Success(existing.value), [])
    else Allocate(w, c, existing, env)
  }

  function Allocate(w: World, c: Call, existing: Option<WorkflowRecord>, env: Env): (WorkflowOutcome, seq<Effect>) {
    var rest := match Granted(w, c.requestId, env.create)
      case None => (AllocationUnavailable, [SaveWorkflow(c.requestId, FailedRecord(c.manifestHash, None))])
      case Some(granted) => Proceed(w.disk, c, existing, granted, env);
    (rest.0, CreateEffects(w, c.requestId, env.create) + rest.1)
  }

  // With an allocation in hand: refuse one that is no longer active, or record it and go on.
  function Proceed(d: Disk, c: Call, existing: Option<WorkflowRecord>, granted: (Allocation, bool), env: Env)
    : (WorkflowOutcome, seq<Effect>)
  {
    if !granted.0.active then
      (StateInconsistent, [SaveWorkflow(c.requestId, FailedRecord(c.manifestHash, Some(granted.0.id)))])
    else
      var base := BaseRecord(c.manifestHash, granted.0, CreatedHere(existing, granted.1));
      var begun := [SaveWorkflow(c.requestId, base)];
      if !c.hasConfig then (Success(base), begun)
      else
        var rest := Configure(d, c, granted.0, base.createdByThisAttempt, env);
        (rest.0, begun + rest.1)
  }

  lemma UnfoldSnoc(w: World, es: seq<Effect>, e: Effect)
    ensures Unfold(w, es + [e]) == Happen(Unfold(w, es), e)
  {
    assert (es + [e])[..|es|] == es;
  }

  lemma {:induction false} UnfoldConcat(w: World, es: seq<Effect>, fs: seq<Effect>)
    ensures Unfold(w, es + fs) == Unfold(Unfold(w, es), fs)
  {
    if fs == [] {
      assert es + fs == es;
    } else {
      var init, f := fs[..|fs| - 1], fs[|fs| - 1];
      assert es + fs == (es + init) + [f];
      UnfoldConcat(w, es, init);
      UnfoldSnoc(w, es + init, f);
    }
  }

  lemma Regroup(h: seq<Effect>, es: seq<Effect>, fs: seq<Effect>)
    ensures (h + es) + fs == h + (es + fs)
  {
  }

  lemma UnfoldOne(w: World, e: Effect)
    ensures Unfold(w, [e]) == Happen(w, e)
  {
    UnfoldSnoc(w, [], e);
    assert [] + [e] == [e];
  }

  lemma CreateLeavesDisk(w: World, rid: RequestId, reply: CreateReply)
    ensures Unfold(w, CreateEffects(w, rid, reply)).disk == w.disk
  {
    var create := CreateEffects(w, rid, reply);
    if create != [] {
      UnfoldOne(w, create[0]);
    }
  }

  lemma {:induction false} UnfoldDisk(w: World, ws: seq<Write>)
    ensures Unfold(w, DiskEffects(ws)) == w.(disk := Exec(w.disk, ws))
  {
    if ws != [] {
      var init := ws[..|ws| - 1];
      UnfoldDisk(w, init);
      assert DiskEffects(ws) == DiskEffects(init) + [OnDisk(ws[|ws| - 1])];
      UnfoldSnoc(w, DiskEffects(init), OnDisk(ws[|ws| - 1]));
    }
  }

  /* The call itself, performed step by step. */

  class Orchestrator {
    var central: map<RequestId, Allocation>
    var workflows: map<RequestId, WorkflowRecord>
    const project: Project
    // Every effect so far, in order.
    ghost var history: seq<Effect>

    function Now(): World reads this, project {
      World(central, workflows, project.Now())
    }

    constructor (central: map<RequestId, Allocation>, project: Project)
      ensures this.project == project && Now() == World(central, map[], project.Now()) && history == []
    {
      this.central, workflows, this.project, history := central, map[], project, [];
    }

    method Effectuate(e: Effect)
      requires !e.OnDisk?
      modifies this
      ensures Now() == Happen(old(Now()), e) && history == old(history) + [e]
    {
      match e {
        case CreateAt(rid, allocation) => central := central[rid := allocation];
        case ReleaseAt(rid) =>
          if rid in central {
            central := central[rid := central[rid].(active := false)];
          }
        case SaveWorkflow(rid, record) => workflows := workflows[rid := record];
        case OnDisk(write) =>
      }
      history := history + [e];
    }

    method ApplyWorkflow(c: Call, env: Env) returns (outcome: WorkflowOutcome)
      modifies this, project
      ensures outcome == Run(old(Now()), c, env).0
      ensures history == old(history) + Run(old(Now()), c, env).1
      ensures Now() == Unfold(old(Now()), Run(old(Now()), c, env).1)
    {
      var existing := Lookup(Now(), c.requestId);
      if existing.Some? {
        if existing.value.manifestHash != c.manifestHash {
          return IdempotencyConflict;
        }
        if Replays(existing.value, c.hasConfig) {
          return Success(existing.value);
        }
      }
      outcome := AllocateThenConfigure(c, existing, env);
    }

    method CreateAllocation(rid: RequestId, reply: CreateReply) returns (granted: Option<(Allocation, bool)>)
      modifies this
      ensures granted == Granted(old(Now()), rid, reply)
      ensures history == old(history) + CreateEffects(old(Now()), rid, reply)
      ensures Now() == Unfold(old(Now()), CreateEffects(old(Now()), rid, reply))
    {
      granted := Granted(Now(), rid, reply);
      if reply != Unreached && rid !in central {
        var e := CreateAt(rid, Allocation(reply.id, reply.ports, true));
        UnfoldOne(Now(), e);
        Effectuate(e);
      }
    }

    method AllocateThenConfigure(c: Call, existing: Option<WorkflowRecord>, env: Env) returns (outcome: WorkflowOutcome)
      modifies this, project
      ensures outcome == Allocate(old(Now()), c, existing, env).0
      ensures history == old(history) + Allocate(old(Now()), c, existing, env).1
      ensures Now() == Unfold(old(Now()), Allocate(old(Now()), c, existing, env).1)
    {
      ghost var w, create := Now(), CreateEffects(Now(), c.requestId, env.create);
      ghost var rest := Allocate(w, c, existing, env).1[|create|..];
      CreateLeavesDisk(w, c.requestId, env.create);
      UnfoldConcat(w, create, rest);
      Regroup(history, create, rest);
      assert Allocate(w, c, existing, env).1 == create + rest;
      var granted := CreateAllocation(c.requestId, env.create);
      if granted == None {
        Save(c.requestId, FailedRecord(c.manifestHash, None));
        return AllocationUnavailable;
      }
      outcome := ProceedWith(c, existing, granted.value, env);
    }

    method ProceedWith(c: Call, existing: Option<WorkflowRecord>, granted: (Allocation, bool), env: Env)
      returns (outcome: WorkflowOutcome)
      modifies this, project
      ensures outcome == Proceed(old(Now().disk), c, existing, granted, env).0
      ensures history == old(history) + Proceed(old(Now().disk), c, existing, granted, env).1
      ensures Now() == Unfold(old(Now()), Proceed(old(Now().disk), c, existing, granted, env).1)
    {
      ghost var w, h := Now(), history;
      if !granted.0.active {
        Save(c.requestId, FailedRecord(c.manifestHash, Some(granted.0.id)));
        return StateInconsistent;
      }
      var base := BaseRecord(c.manifestHash, granted.0, CreatedHere(existing, granted.1));
      Save(c.requestId, base);
      if !c.hasConfig {
        return Success(base);
      }
      ghost var rest := Configure(w.disk, c, granted.0, base.createdByThisAttempt, env).1;
      UnfoldConcat(w, [SaveWorkflow(c.requestId, base)], rest);
      Regroup(h, [SaveWorkflow(c.requestId, base)], rest);
      outcome := PlanAndApply(c, granted.0, base.createdByThisAttempt, env);
    }

    method Save(rid: RequestId, record: WorkflowRecord)
      modifies this
      ensures history == old(history) + [SaveWorkflow(rid, record)]
      ensures Now() == Unfold(old(Now()), [SaveWorkflow(rid, record)])
      ensures Now().disk == old(Now().disk)
    {
      UnfoldOne(Now(), SaveWorkflow(rid, record));
      Effectuate(SaveWorkflow(rid, record));
    }

    method PlanAndApply(c: Call, a: Allocation, created: bool, env: Env) returns (outcome: WorkflowOutcome)
      modifies this, project
      ensures outcome == Configure(old(Now().disk), c, a, created, env).0
      ensures history == old(history) + Configure(old(Now().disk), c, a, created, env).1
      ensures Now() == Unfold(old(Now()), Configure(old(Now().disk), c, a, created, env).1)
    {
      var base := BaseRecord(c.manifestHash, a, created);
      match c.build(project.files, a.ports) {
        case PlanRaised => return Raised;
        case PlanRejected => outcome := CompensateAndFail(c, base, None, env);
        case PlanReady(plan) =>
          ghost var w, h, ws := Now(), history, PlanAndApplyWrites(Now().disk, a.id, plan, env).1;
          UnfoldDisk(w, ws);
          var result := ApplyPlan(a.id, plan, env);
          ghost var rest := Conclude(Now().disk, c, base, result, env).1;
          UnfoldConcat(w, DiskEffects(ws), rest);
          Regroup(h, DiskEffects(ws), rest);
          outcome := ConcludeWith(c, base, result, env);
      }
    }

    method ConcludeWith(c: Call, base: WorkflowRecord, applied: Outcome, env: Env) returns (outcome: WorkflowOutcome)
      modifies this, project
      ensures outcome == Conclude(old(Now().disk), c, base, applied, env).0
      ensures history == old(history) + Conclude(old(Now().disk), c, base, applied, env).1
      ensures Now() == Unfold(old(Now()), Conclude(old(Now().disk), c, base, applied, env).1)
    {
      if applied == Done || applied == AlreadyDone {
        var final := base.(status := APPLIED, mutationId := Some(env.mutationId), configApplied := true);
        Save(c.requestId, final);
        outcome := Success(final);
      } else {
        outcome := CompensateAndFail(c, base, Some(env.mutationId), env);
      }
    }

    method ApplyPlan(allocationId: string, plan: seq<PlannedFile>, env: Env) returns (result: Outcome)
      modifies this, project
      ensures result == PlanAndApplyWrites(old(Now().disk), allocationId, plan, env).0
      ensures history == old(history) + DiskEffects(PlanAndApplyWrites(old(Now().disk), allocationId, plan, env).1)
      ensures Now() == old(Now()).(disk := Exec(old(Now().disk),
          PlanAndApplyWrites(old(Now().disk), allocationId, plan, env).1))
    {
      ghost var d := project.Now();
      ghost var planned := PersistPlan(d, env.mutationId, allocationId, plan);
      project.Persist(env.mutationId, allocationId, plan);
      ExecConcat(d, planned, Apply(project.Now(), env.mutationId, env.fault).1);
      result := project.ApplyMutation(env.mutationId, env.fault);
      history := history + DiskEffects(PlanAndApplyWrites(d, allocationId, plan, env).1);
    }

    method CompensateAndFail(c: Call, base: WorkflowRecord, mutation: Option<MutationId>, env: Env)
      returns (outcome: WorkflowOutcome)
      modifies this, project
      ensures outcome == GiveUp(old(Now().disk), c, base, mutation, env).0
      ensures history == old(history) + GiveUp(old(Now().disk), c, base, mutation, env).1
      ensures Now() == Unfold(old(Now()), GiveUp(old(Now().disk), c, base, mutation, env).1)
    {
      ghost var w := Now();
      var created := base.createdByThisAttempt;
      ghost var config, released := DiskEffects(CompensateConfig(w.disk, mutation).1),
          ReleaseEffects(c.requestId, created, env.release);
      var failed := base.(status := FAILED, mutationId := mutation);
      UnfoldDisk(w, CompensateConfig(w.disk, mutation).1);
      UnfoldConcat(w, config, released);
      UnfoldConcat(w, config + released, [SaveWorkflow(c.requestId, failed)]);
      Regroup(history, config, released);
      Regroup(history, config + released, [SaveWorkflow(c.requestId, failed)]);
      var actions := UndoConfig(mutation);
      if created && env.release != NotReleased {
        UnfoldOne(Now(), ReleaseAt(c.requestId));
        Effectuate(ReleaseAt(c.requestId));
      }
      Save(c.requestId, failed);
      outcome := FailureOf(actions + [ReleaseAction(created, env.release)]);
    }

    method UndoConfig(mutation: Option<MutationId>) returns (actions: seq<Action>)
      modifies this, project
      ensures actions == CompensateConfig(old(Now().disk), mutation).0
      ensures history == old(history) + DiskEffects(CompensateConfig(old(Now().disk), mutation).1)
      ensures Now() == old(Now()).(disk := Exec(old(Now().disk), CompensateConfig(old(Now().disk), mutation).1))
    {
      actions := [];
      if mutation.Some? {
        var id := mutation.value;
        if id !in project.records {
          actions := [ConfigRollbackCheckFailed];
        } else if project.records[id].status == Applied {
          ghost var ws := Rollback(project.Now(), id).1;
          var undone := project.RollbackMutation(id);
          history := history + DiskEffects(ws);
          actions := if undone == Done then [ConfigRolledBack] else [ConfigRollbackCheckFailed];
        } else {
          actions := [ConfigNotAppliedNothingToRollBack];
        }
      }
    }
  }

}
