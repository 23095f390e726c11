// Whole runs of workflow calls for any requests, each cut short anywhere, between releases
// and config commands by others.
module WorkflowRuns {
  import opened Wrappers
  import opened ConfigFiles
  import opened ConfigManager
  import opened Workflow
  import opened WorkflowSafety
  import opened WorkflowConfig
  import ConfigRuns

  datatype Event =
    | CallEvent(c: Call, env: Env, survived: nat)
    | ReleaseEvent(requestId: RequestId)
    | ConfigEvent(event: ConfigRuns.Event)

  function Step(w: World, e: Event): World {
    match e
    case CallEvent(c, env, survived) => AfterCall(w, c, env, survived)
    case ReleaseEvent(rid) => Happen(w, ReleaseAt(rid))
    case ConfigEvent(event) => w.(disk := ConfigRuns.Step(w.disk, event))
  }

  function Run(w: World, es: seq<Event>): World {
    if es == [] then w else Step(Run(w, es[..|es| - 1]), es[|es| - 1])
  }

  function Start(files: Files): World {
    World(map[], map[], ConfigRuns.Fresh(files))
  }

  function At(files: Files, es: seq<Event>, i: nat): World
    requires i <= |es|
  {
    Run(Start(files), es[..i])
  }

  lemma Next(files: Files, es: seq<Event>, i: nat)
    requires i < |es|
    ensures At(files, es, i + 1) == Step(At(files, es, i), es[i])
  {
    assert es[..i + 1][..i] == es[..i];
  }

  lemma StepKeepsLinks(w: World, e: Event)
    requires AllLinked(w)
    ensures AllLinked(Step(w, e))
  {
    if e.CallEvent? {
      CallKeepsLinks(w, e.c, e.env, e.survived);
    } else {
      forall rid | rid in w.workflows ensures WorkflowSafety.Linked(Step(w, e), rid, w.workflows[rid]) {
        assert WorkflowSafety.Linked(w, rid, w.workflows[rid]);
      }
    }
  }

  lemma {:induction false} RunLinked(w: World, es: seq<Event>)
    requires AllLinked(w)
    ensures AllLinked(Run(w, es))
  {
    if es != [] {
      RunLinked(w, es[..|es| - 1]);
      StepKeepsLinks(Run(w, es[..|es| - 1]), es[|es| - 1]);
    }
  }

  lemma LinkedAt(files: Files, es: seq<Event>, i: nat, rid: RequestId)
    requires i <= |es| && rid in At(files, es, i).workflows
    ensures WorkflowSafety.Linked(At(files, es, i), rid, At(files, es, i).workflows[rid])
  {
    RunLinked(Start(files), es[..i]);
  }

  /* Central. */

  // One event never removes or replaces an allocation, and deactivates one only if it is an
  // explicit release.
  lemma StepKeepsAllocations(w: World, e: Event, rid: RequestId)
    requires rid in w.central
    ensures rid in Step(w, e).central
    ensures Step(w, e).central[rid] ==
            if e == ReleaseEvent(rid) then w.central[rid].(active := false) else w.central[rid]
  {
    if e.CallEvent? {
      CallsReleaseOnlyTheirOwn(w, e.c, e.env, e.survived, rid);
    }
  }

  lemma AllocationNext(files: Files, es: seq<Event>, k: nat, rid: RequestId)
    requires k < |es| && rid in At(files, es, k).central
    ensures rid in At(files, es, k + 1).central
    ensures At(files, es, k + 1).central[rid] ==
            if es[k] == ReleaseEvent(rid) then At(files, es, k).central[rid].(active := false)
            else At(files, es, k).central[rid]
  {
    Next(files, es, k);
    StepKeepsAllocations(At(files, es, k), es[k], rid);
  }

  // Over every run a request has at most one allocation, and once released it stays so.
  lemma {:induction false} OneAllocationPerRequest(files: Files, es: seq<Event>, i: nat, j: nat, rid: RequestId)
    requires i <= j <= |es| && rid in At(files, es, i).central
    ensures rid in At(files, es, j).central
    ensures At(files, es, j).central[rid] in
            {At(files, es, i).central[rid], At(files, es, i).central[rid].(active := false)}
    ensures (forall k :: i <= k < j ==> es[k] != ReleaseEvent(rid)) ==>
            At(files, es, j).central[rid] == At(files, es, i).central[rid]
    decreases j - i
  {
    if i < j {
      AllocationNext(files, es, i, rid);
      OneAllocationPerRequest(files, es, i + 1, j, rid);
    }
  }

  // Whatever allocation a request's record ever names is the one Central still has for it.
  lemma RecordsNameTheOneAllocation(files: Files, es: seq<Event>, i: nat, j: nat, rid: RequestId)
    requires i <= j <= |es| && rid in At(files, es, i).workflows
    requires At(files, es, i).workflows[rid].allocationId.Some?
    ensures rid in At(files, es, j).central
    ensures Some(At(files, es, j).central[rid].id) == At(files, es, i).workflows[rid].allocationId
  {
    LinkedAt(files, es, i, rid);
    OneAllocationPerRequest(files, es, i, j, rid);
  }

  // Over every run a record that is ALLOCATED or APPLIED lists exactly the ports of the
  // allocation Central has for its request, then and ever after.
  lemma RecordsListTheirPorts(files: Files, es: seq<Event>, i: nat, j: nat, rid: RequestId)
    requires i <= j <= |es| && rid in At(files, es, i).workflows
    requires At(files, es, i).workflows[rid].status != FAILED
    ensures rid in At(files, es, j).central
    ensures At(files, es, i).workflows[rid].allocationId == Some(At(files, es, j).central[rid].id)
    ensures At(files, es, i).workflows[rid].ports == At(files, es, j).central[rid].ports
  {
    LinkedAt(files, es, i, rid);
    OneAllocationPerRequest(files, es, i, j, rid);
  }

  /* APPLIED. */

  lemma StepKeepsApplied(w: World, e: Event, rid: RequestId)
    requires IsApplied(w, rid)
    ensures Lookup(Step(w, e), rid) == Lookup(w, rid)
  {
    if e.CallEvent? {
      if e.c.requestId == rid {
        AppliedDoesNothing(w, e.c, e.env);
      } else {
        CallsSaveOnlyTheirOwn(w, e.c, e.env, e.survived, rid);
      }
    }
  }

  lemma AppliedNext(files: Files, es: seq<Event>, k: nat, rid: RequestId)
    requires k < |es| && IsApplied(At(files, es, k), rid)
    ensures Lookup(At(files, es, k + 1), rid) == Lookup(At(files, es, k), rid)
  {
    Next(files, es, k);
    StepKeepsApplied(At(files, es, k), es[k], rid);
  }

  // APPLIED is absorbing, and the ports it reports are its allocation's for the rest of the run.
  lemma {:induction false} AppliedForGood(files: Files, es: seq<Event>, i: nat, j: nat, rid: RequestId)
    requires i <= j <= |es| && IsApplied(At(files, es, i), rid)
    ensures Lookup(At(files, es, j), rid) == Lookup(At(files, es, i), rid)
    ensures rid in At(files, es, j).central
    ensures At(files, es, j).workflows[rid].ports == At(files, es, j).central[rid].ports
    ensures At(files, es, j).workflows[rid].allocationId == Some(At(files, es, j).central[rid].id)
    decreases j - i
  {
    if i < j {
      AppliedNext(files, es, i, rid);
      AppliedForGood(files, es, i + 1, j, rid);
    } else {
      LinkedAt(files, es, j, rid);
    }
  }

  ghost predicate Dead(w: World, rid: RequestId) {
    rid in w.central && !w.central[rid].active && !IsApplied(w, rid)
  }

  lemma StepKeepsDead(w: World, e: Event, rid: RequestId)
    requires Dead(w, rid)
    ensures Dead(Step(w, e), rid)
  {
    StepKeepsAllocations(w, e, rid);
    if e.CallEvent? && IsApplied(Step(w, e), rid) {
      TurningApplied(w, e.c, e.env, e.survived, rid);
    }
  }

  lemma DeadNext(files: Files, es: seq<Event>, k: nat, rid: RequestId)
    requires k < |es| && Dead(At(files, es, k), rid)
    ensures Dead(At(files, es, k + 1), rid)
  {
    Next(files, es, k);
    StepKeepsDead(At(files, es, k), es[k], rid);
  }

  // Once its allocation is released, a request that is not APPLIED never becomes so.
  lemma {:induction false} ReleasedNeverApplied(files: Files, es: seq<Event>, i: nat, j: nat, rid: RequestId)
    requires i <= j <= |es| && Dead(At(files, es, i), rid)
    ensures Dead(At(files, es, j), rid)
    decreases j - i
  {
    if i < j {
      DeadNext(files, es, i, rid);
      ReleasedNeverApplied(files, es, i + 1, j, rid);
    }
  }

  /* The disk: a workflow run is a config run. */

  // Each call that plans draws a mutation id no record has.
  ghost predicate FreshIds(files: Files, es: seq<Event>) {
    forall i :: 0 <= i < |es| && es[i].CallEvent? ==> es[i].env.mutationId !in At(files, es, i).disk.records
  }

  function EventsOf(w: World, e: Event): seq<ConfigRuns.Event> {
    match e
    case CallEvent(c, env, survived) => DiskEvents(w, c, env, survived)
    case ReleaseEvent(_) => []
    case ConfigEvent(event) => [event]
  }

  function ConfigHistory(files: Files, es: seq<Event>): seq<ConfigRuns.Event> {
    if es == [] then []
    else
      var init := es[..|es| - 1];
      ConfigHistory(files, init) + EventsOf(Run(Start(files), init), es[|es| - 1])
  }

  lemma {:induction false} RunConcat(d: Disk, es: seq<ConfigRuns.Event>, fs: seq<ConfigRuns.Event>)
    ensures ConfigRuns.Run(d, es + fs) == ConfigRuns.Run(ConfigRuns.Run(d, es), fs)
  {
    if fs == [] {
      assert es + fs == es;
    } else {
      assert (es + fs)[..|es + fs| - 1] == es + fs[..|fs| - 1];
      RunConcat(d, es, fs[..|fs| - 1]);
    }
  }

  lemma StepIsConfigRun(w: World, e: Event)
    requires e.CallEvent? ==> e.env.mutationId !in w.disk.records
    ensures Step(w, e).disk == ConfigRuns.Run(w.disk, EventsOf(w, e))
  {
    match e
    case CallEvent(c, env, survived) => CallIsConfigRun(w, c, env, survived);
    case ReleaseEvent(_) =>
    case ConfigEvent(event) => assert [event][..0] == [];
  }

  // Every workflow run is, on disk, a run of plans, applies, roll backs and edits, so all
  // that holds over those runs holds over workflows too.
  lemma {:induction false} WorkflowsRefineConfigRuns(files: Files, es: seq<Event>)
    requires FreshIds(files, es)
    ensures Run(Start(files), es).disk == ConfigRuns.Run(ConfigRuns.Fresh(files), ConfigHistory(files, es))
    ensures ConfigRuns.Consistent(Run(Start(files), es).disk)
  {
    if es != [] {
      var init := es[..|es| - 1];
      assert FreshIds(files, init) by {
        forall i | 0 <= i < |init| ensures At(files, init, i) == At(files, es, i) && init[i] == es[i] {
          assert init[..i] == es[..i];
        }
      }
      WorkflowsRefineConfigRuns(files, init);
      var w := Run(Start(files), init);
      assert At(files, es, |es| - 1) == w;
      StepIsConfigRun(w, es[|es| - 1]);
      RunConcat(ConfigRuns.Fresh(files), ConfigHistory(files, init), EventsOf(w, es[|es| - 1]));
    }
    ConfigRuns.RunConsistent(files, ConfigHistory(files, es));
  }
}
