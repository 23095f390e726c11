// Retrying a workflow whose config is dotenv files: after a crash anywhere the retry ends
// with the files an undisturbed call would have left, and when the first attempt had
// already written them the retry leaves every byte alone, exactly if each edit keeps its
// file's newline style.
module WorkflowRetry {
  import opened Wrappers
  import opened ConfigFiles
  import opened ConfigManager
  import opened ConfigSafety
  import opened Workflow
  import opened WorkflowSafety
  import opened WorkflowConfig
  import opened DotenvPlan
  import ConfigRuns
  import Dot = Dotenv
  import DotenvSpec
  import DotenvText

  function DotenvCall(rid: RequestId, hash: string, fs: seq<DotenvFile>): Call {
    Call(rid, hash, fs != [], (files, ports) => Build(files, fs, ports))
  }

  ghost predicate ValidFiles(fs: seq<DotenvFile>) {
    forall k :: 0 <= k < |fs| ==> ValidFile(fs[k])
  }

  ghost predicate KeepsNewline(files: Files, f: DotenvFile, ports: Ports) {
    Resolve(f.values, ports).Some? && !DotenvText.TurnsCRLF(ReadFile(files, f.path), Resolve(f.values, ports).value)
  }

  /* What the targets end up holding. */

  // The content planned last for a file.
  function LastFor(plan: seq<PlannedFile>, p: Path): Option<Text> {
    if plan == [] then None
    else if plan[|plan| - 1].path == p then Some(plan[|plan| - 1].content)
    else LastFor(plan[..|plan| - 1], p)
  }

  function Written(d: Disk, allocationId: string, plan: seq<PlannedFile>): Files {
    Exec(d, TargetWrites(PlanRecord(d.files, allocationId, plan).files)).files
  }

  lemma {:induction false} WrittenFile(d: Disk, allocationId: string, plan: seq<PlannedFile>, p: Path)
    ensures ReadFile(Written(d, allocationId, plan), p) ==
            if LastFor(plan, p).Some? then LastFor(plan, p) else ReadFile(d.files, p)
  {
    var entries := PlanRecord(d.files, allocationId, plan).files;
    if plan != [] {
      var init := plan[..|plan| - 1];
      WrittenFile(d, allocationId, init, p);
      var w := Target(plan[|plan| - 1].path, Some(plan[|plan| - 1].content));
      assert TargetWrites(entries) == TargetWrites(PlanRecord(d.files, allocationId, init).files) + [w];
      ExecSnoc(d, TargetWrites(PlanRecord(d.files, allocationId, init).files), w);
    }
  }

  lemma {:induction false} LastIsPlanned(plan: seq<PlannedFile>, p: Path) returns (k: nat)
    requires LastFor(plan, p).Some?
    ensures k < |plan| && plan[k].path == p && LastFor(plan, p) == Some(plan[k].content)
    ensures forall j :: k < j < |plan| ==> plan[j].path != p
  {
    k := |plan| - 1;
    if plan[k].path != p {
      k := LastIsPlanned(plan[..|plan| - 1], p);
    }
  }

  lemma {:induction false} PlannedHasLast(plan: seq<PlannedFile>, k: nat)
    requires k < |plan|
    ensures LastFor(plan, plan[k].path).Some?
    ensures (forall j :: k < j < |plan| ==> plan[j].path != plan[k].path) ==>
        LastFor(plan, plan[k].path) == Some(plan[k].content)
  {
    if k < |plan| - 1 && plan[|plan| - 1].path != plan[k].path {
      PlannedHasLast(plan[..|plan| - 1], k);
    }
  }

  /* Editing again. */

  // What planning `f` makes of a text.
  function Edit(text: Option<Text>, f: DotenvFile, ports: Ports): Option<Text> {
    match Resolve(f.values, ports)
    case None => None
    case Some(settings) =>
      match Dot.Update(text, settings)
      case Err(_) => None
      case Ok(edited) => Some(edited.0)
  }

  lemma EditOfPlan(files: Files, f: DotenvFile, ports: Ports)
    ensures PlanFile(files, f, ports).Ok? <==> Edit(ReadFile(files, f.path), f, ports).Some?
    ensures PlanFile(files, f, ports).Ok? ==>
      PlanFile(files, f, ports).value == PlannedFile(f.path, Dotenv, Edit(ReadFile(files, f.path), f, ports).value)
  {
  }

  lemma EditAgainIff(text: Option<Text>, f: DotenvFile, ports: Ports)
    requires ValidFile(f) && Edit(text, f, ports).Some?
    ensures var now := Edit(text, f, ports);
      !DotenvText.TurnsCRLF(text, Resolve(f.values, ports).value) <==> Edit(now, f, ports) == now
  {
    ResolvedValid(f, ports);
    var settings := Resolve(f.values, ports).value;
    if DotenvText.TurnsCRLF(text, settings) {
      DotenvText.SecondUpdateDiffers(text, settings);
    } else {
      DotenvText.SecondUpdateChangesNothing(text, settings);
    }
  }

  // Another mapping of the same file that could be planned before still can.
  lemma EditAfterOther(text: Option<Text>, f: DotenvFile, g: DotenvFile, ports: Ports)
    requires ValidFile(f) && ValidFile(g) && Edit(text, f, ports).Some? && Edit(text, g, ports).Some?
    requires !DotenvText.TurnsCRLF(text, Resolve(g.values, ports).value)
    ensures Edit(Edit(text, g, ports), f, ports).Some?
  {
    var mine, other := Resolve(f.values, ports).value, Resolve(g.values, ports).value;
    ResolvedValid(f, ports);
    ResolvedValid(g, ports);
    var lines, now := Dot.LayoutOf(text).lines, Edit(text, g, ports);
    DotenvSpec.UpdateFailsIff(text, mine);
    DotenvSpec.UpdateFailsIff(text, other);
    DotenvSpec.UpdateFailsIff(now, mine);
    forall k | 0 <= k < |mine| ensures DotenvSpec.Count(Dot.LayoutOf(now).lines, mine[k].key) <= 1 {
      DotenvSpec.CountAfter(lines, other, mine[k].key);
      LinesAfter(text, other, mine[k].key);
    }
  }

  lemma LinesAfter(text: Option<Text>, mapping: seq<Dot.Setting>, key: string)
    requires Dot.ValidMapping(mapping) && Dot.Update(text, mapping).Ok? && !DotenvText.TurnsCRLF(text, mapping)
    ensures var now := Dot.LayoutOf(Some(Dot.Update(text, mapping).value.0)).lines;
      var lines := Dot.NewLines(Dot.LayoutOf(text).lines, mapping);
      now == lines || (lines == [] && DotenvSpec.Count(now, key) <= 1)
  {
    if Dot.NewLines(Dot.LayoutOf(text).lines, mapping) != [] {
      DotenvText.EditReadsBack(text, mapping);
    } else {
      var now := Dot.LayoutOf(Some(Dot.Update(text, mapping).value.0)).lines;
      OneBlankLine(text, mapping);
      DotenvSpec.CountSnoc([], now[0], key);
      assert [] + [now[0]] == now;
    }
  }

  lemma OneBlankLine(text: Option<Text>, mapping: seq<Dot.Setting>)
    requires Dot.Update(text, mapping).Ok? && Dot.NewLines(Dot.LayoutOf(text).lines, mapping) == []
    ensures |Dot.LayoutOf(Some(Dot.Update(text, mapping).value.0)).lines| == 1
  {
    var now := Dot.Update(text, mapping).value.0;
    assert Dot.LayoutOf(text).lines == [];
    assert now == "" || now == "\n" || now == "\r\n";
  }

  /* Planning again. */

  ghost predicate IsLast(fs: seq<DotenvFile>, k: int) {
    0 <= k < |fs| && forall j :: k < j < |fs| ==> fs[j].path != fs[k].path
  }

  // Of the mappings of one file, the last one written keeps the newline style.
  ghost predicate AllKeepNewlines(files: Files, fs: seq<DotenvFile>, ports: Ports) {
    forall k :: IsLast(fs, k) ==> KeepsNewline(files, fs[k], ports)
  }

  lemma PlannedEdits(files: Files, fs: seq<DotenvFile>, ports: Ports)
    ensures Build(files, fs, ports).PlanReady? <==>
            forall k :: 0 <= k < |fs| ==> Edit(ReadFile(files, fs[k].path), fs[k], ports).Some?
    ensures Build(files, fs, ports).PlanReady? ==>
      var plan := Build(files, fs, ports).plan;
      && |plan| == |fs|
      && forall k :: 0 <= k < |fs| ==>
        && Edit(ReadFile(files, fs[k].path), fs[k], ports).Some?
        && plan[k] == PlannedFile(fs[k].path, Dotenv, Edit(ReadFile(files, fs[k].path), fs[k], ports).value)
  {
    PlanFilePerFile(files, fs, ports);
    forall k | 0 <= k < |fs| {
      EditOfPlan(files, fs[k], ports);
    }
  }

  lemma LastIndex(fs: seq<DotenvFile>, k: nat) returns (l: nat)
    requires k < |fs|
    ensures IsLast(fs, l) && fs[l].path == fs[k].path
  {
    l := |fs| - 1;
    while fs[l].path != fs[k].path
      invariant k <= l < |fs|
      invariant forall j :: l < j < |fs| ==> fs[j].path != fs[k].path
      decreases l
    {
      l := l - 1;
    }
  }

  // A file planned last by `fs[l]` holds that edit of the original.
  lemma WrittenByLast(d: Disk, allocationId: string, fs: seq<DotenvFile>, ports: Ports, l: nat)
    requires IsLast(fs, l) && Build(d.files, fs, ports).PlanReady?
    ensures ReadFile(Written(d, allocationId, Build(d.files, fs, ports).plan), fs[l].path) ==
            Edit(ReadFile(d.files, fs[l].path), fs[l], ports)
  {
    var plan := Build(d.files, fs, ports).plan;
    PlannedEdits(d.files, fs, ports);
    WrittenFile(d, allocationId, plan, fs[l].path);
    assert forall j :: l < j < |plan| ==> plan[j].path == fs[j].path;
    PlannedHasLast(plan, l);
  }

  lemma ReplanReady(d: Disk, allocationId: string, fs: seq<DotenvFile>, ports: Ports, k: nat)
    requires ValidFiles(fs) && Build(d.files, fs, ports).PlanReady? && AllKeepNewlines(d.files, fs, ports) && k < |fs|
    ensures Edit(ReadFile(Written(d, allocationId, Build(d.files, fs, ports).plan), fs[k].path), fs[k], ports).Some?
  {
    var l := LastIndex(fs, k);
    PlannedEdits(d.files, fs, ports);
    WrittenByLast(d, allocationId, fs, ports, l);
    assert KeepsNewline(d.files, fs[l], ports);
    EditAfterOther(ReadFile(d.files, fs[k].path), fs[k], fs[l], ports);
  }

  ghost predicate ReplanChangesNothing(d: Disk, allocationId: string, fs: seq<DotenvFile>, ports: Ports) {
    && Build(d.files, fs, ports).PlanReady?
    && Written(d, allocationId, Build(d.files, fs, ports).plan) == d.files
  }

  // Once the planned files are written, planning and writing again changes nothing, exactly
  // if every file kept its newline style.
  lemma ReplanIff(d: Disk, now: Disk, allocationId: string, fs: seq<DotenvFile>, ports: Ports)
    requires ValidFiles(fs) && Build(d.files, fs, ports).PlanReady?
    requires now.files == Written(d, allocationId, Build(d.files, fs, ports).plan)
    ensures AllKeepNewlines(d.files, fs, ports) <==> ReplanChangesNothing(now, allocationId, fs, ports)
  {
    PlannedEdits(now.files, fs, ports);
    if AllKeepNewlines(d.files, fs, ports) {
      ReplanSafe(d, now, allocationId, fs, ports);
    }
    if ReplanChangesNothing(now, allocationId, fs, ports) {
      forall l | IsLast(fs, l) ensures KeepsNewline(d.files, fs[l], ports) {
        PlannedEdits(d.files, fs, ports);
        WrittenByLast(d, allocationId, fs, ports, l);
        WrittenByLast(now, allocationId, fs, ports, l);
        EditAgainIff(ReadFile(d.files, fs[l].path), fs[l], ports);
      }
    }
  }

  lemma ReplanSafe(d: Disk, now: Disk, allocationId: string, fs: seq<DotenvFile>, ports: Ports)
    requires ValidFiles(fs) && Build(d.files, fs, ports).PlanReady? && AllKeepNewlines(d.files, fs, ports)
    requires now.files == Written(d, allocationId, Build(d.files, fs, ports).plan)
    ensures ReplanChangesNothing(now, allocationId, fs, ports)
  {
    forall k | 0 <= k < |fs| ensures Edit(ReadFile(now.files, fs[k].path), fs[k], ports).Some? {
      ReplanReady(d, allocationId, fs, ports, k);
    }
    PlannedEdits(now.files, fs, ports);
    var again := Build(now.files, fs, ports).plan;
    forall p ensures ReadFile(Written(now, allocationId, again), p) == ReadFile(now.files, p) {
      WrittenFile(now, allocationId, again, p);
      if LastFor(again, p).Some? {
        var l := LastIsPlanned(again, p);
        assert forall j :: 0 <= j < |fs| ==> fs[j].path == again[j].path;
        assert IsLast(fs, l);
        PlannedEdits(d.files, fs, ports);
        WrittenByLast(d, allocationId, fs, ports, l);
        assert KeepsNewline(d.files, fs[l], ports);
        EditAgainIff(ReadFile(d.files, p), fs[l], ports);
      }
    }
    SameFiles(Written(now, allocationId, again), now.files);
  }

  /* The retry. */

  // The world once the allocation is granted and recorded, and nothing else yet.
  function Begun(w: World, c: Call, env: Env): World
    requires Granted(w, c.requestId, env.create).Some?
  {
    World(w.central[c.requestId := Granted(w, c.requestId, env.create).value.0],
          w.workflows[c.requestId := Base(w, c, env)], w.disk)
  }

  lemma BegunIs(w: World, c: Call, env: Env)
    requires Granted(w, c.requestId, env.create).Some?
    ensures Unfold(w, Before(w, c, env)) == Begun(w, c, env)
  {
    var create := CreateEffects(w, c.requestId, env.create);
    UnfoldSnoc(w, create, SaveWorkflow(c.requestId, Base(w, c, env)));
    if create != [] {
      UnfoldOne(w, create[0]);
    }
  }

  lemma MidPrefix(es: seq<Effect>, ws: seq<Write>, fs: seq<Effect>, n: nat)
    requires n <= |ws|
    ensures CutEffects(es + DiskEffects(ws) + fs, |es| + n) == es + DiskEffects(ws[..n])
  {
    DiskEffectsPrefix(ws, n);
  }

  lemma MidCall(w: World, c: Call, env: Env, n: nat)
    requires Planning(w, c, env).Some? && n <= |DiskPart(w, c, env).1|
    ensures AfterCall(w, c, env, |Before(w, c, env)| + n) ==
            Begun(w, c, env).(disk := Exec(w.disk, DiskPart(w, c, env).1[..n]))
  {
    hide Workflow.Run, Exec, Unfold, DiskPart, Before, After;
    var before, ws := Before(w, c, env), DiskPart(w, c, env).1;
    CallJournal(w, c, env);
    MidPrefix(before, ws, After(w, c, env), n);
    UnfoldConcat(w, before, DiskEffects(ws[..n]));
    BegunIs(w, c, env);
    UnfoldDisk(Begun(w, c, env), ws[..n]);
  }

  // The first attempt wrote and recorded the config, and died before saying so.
  lemma DiedBeforeApplied(w: World, c: Call, env: Env)
    requires !IsApplied(w, c.requestId) && IsApplied(Finished(w, c, env), c.requestId)
    ensures Planning(w, c, env).Some? && Workflow.Run(w, c, env).1 != []
    ensures var died, p := AfterCall(w, c, env, |Workflow.Run(w, c, env).1| - 1), Planning(w, c, env).value;
      && died == Begun(w, c, env).(disk := died.disk)
      && died.disk.files == Written(w.disk, p.0, p.1)
      && Granted(w, c.requestId, env.create).value.0.active
  {
    AppliedCallWroteItsPlan(w, c, env);
    CallJournal(w, c, env);
    AppliedAfter(w, c, env);
    var p, ws := Planning(w, c, env).value, DiskPart(w, c, env).1;
    PlanAndApplyOutcome(w.disk, p.0, p.1, env);
    WholeCall(w, c, env);
    assert ws[..|ws|] == ws;
    MidCall(w, c, env, |ws|);
  }

  lemma AppliedAfter(w: World, c: Call, env: Env)
    requires !IsApplied(w, c.requestId) && IsApplied(Finished(w, c, env), c.requestId) && Planning(w, c, env).Some?
    ensures |After(w, c, env)| == 1
  {
    EndsApplied(w, c, env);
    SavedByPlan(w, c, env);
  }

  // A retry that reaches the config step without a fault.
  lemma RetryPlans(w: World, rid: RequestId, hash: string, fs: seq<DotenvFile>, retry: Env)
    requires rid in w.central && w.central[rid].active && fs != []
    requires Lookup(w, rid).Some? ==> w.workflows[rid].manifestHash == hash && w.workflows[rid].status != APPLIED
    requires retry.create.Answered? && retry.fault == NoFault
    ensures var c, a := DotenvCall(rid, hash, fs), w.central[rid];
      match Build(w.disk.files, fs, a.ports)
      case PlanReady(plan) =>
        && Planning(w, c, retry) == Some((a.id, plan))
        && IsApplied(Finished(w, c, retry), rid)
        && Finished(w, c, retry).disk.files == Written(w.disk, a.id, plan)
      case _ => !IsApplied(Finished(w, c, retry), rid)
  {
    hide Workflow.Run, Exec, PlanAndApplyWrites, TargetWrites, Finished;
    var c, a := DotenvCall(rid, hash, fs), w.central[rid];
    match Build(w.disk.files, fs, a.ports)
    case PlanReady(plan) =>
      PlanAndApplyOutcome(w.disk, a.id, plan, retry);
      CallJournal(w, c, retry);
      WholeCall(w, c, retry);
      RetrySaves(w, c, retry);
    case _ =>
      if IsApplied(Finished(w, c, retry), rid) {
        AppliedCallWroteItsPlan(w, c, retry);
      }
  }

  lemma RetrySaves(w: World, c: Call, env: Env)
    requires Planning(w, c, env).Some? && DiskPart(w, c, env).0 == Done
    ensures IsApplied(Finished(w, c, env), c.requestId)
  {
    CallJournal(w, c, env);
    var es, final := Workflow.Run(w, c, env).1,
      Base(w, c, env).(status := APPLIED, mutationId := Some(env.mutationId), configApplied := true);
    assert After(w, c, env) == [SaveWorkflow(c.requestId, final)];
    LastSaved(w, es, c.requestId, final);
  }

  // A first attempt that died with its config applied but not yet recorded so: the retry
  // succeeds and leaves every project file byte-identical, exactly if no edit of the first
  // attempt turned its file from LF to CRLF.
  lemma RetryConvergesIff(w: World, rid: RequestId, hash: string, fs: seq<DotenvFile>, env: Env, retry: Env)
    requires ValidFiles(fs)
    requires var c := DotenvCall(rid, hash, fs); !IsApplied(w, rid) && IsApplied(Finished(w, c, env), rid)
    requires retry.create.Answered? && retry.fault == NoFault
    ensures var c := DotenvCall(rid, hash, fs);
      && Workflow.Run(w, c, env).1 != [] && Granted(w, rid, env.create).Some?
      && var died := AfterCall(w, c, env, |Workflow.Run(w, c, env).1| - 1);
         var after := Finished(died, c, retry);
         AllKeepNewlines(w.disk.files, fs, Granted(w, rid, env.create).value.0.ports) <==>
         IsApplied(after, rid) && after.disk.files == died.disk.files
  {
    var c := DotenvCall(rid, hash, fs);
    DiedBeforeApplied(w, c, env);
    var died, a := AfterCall(w, c, env, |Workflow.Run(w, c, env).1| - 1), Granted(w, rid, env.create).value.0;
    RetryPlans(died, rid, hash, fs, retry);
    ReplanIff(w.disk, died.disk, a.id, fs, a.ports);
  }

  /* Retrying after a crash anywhere. */

  ghost predicate DistinctPaths(fs: seq<DotenvFile>) {
    forall j, k :: 0 <= j < k < |fs| ==> fs[j].path != fs[k].path
  }

  // Each file holds either what it held before the first attempt or what that attempt planned.
  ghost predicate PartlyWritten(before: Files, now: Files, plan: seq<PlannedFile>) {
    forall p :: ReadFile(now, p) == ReadFile(before, p) ||
      exists k :: 0 <= k < |plan| && plan[k].path == p && ReadFile(now, p) == Some(plan[k].content)
  }

  // The last mapping of each file makes of what is there now what it made of the original.
  ghost predicate LastEditsAgree(before: Files, now: Files, fs: seq<DotenvFile>, ports: Ports) {
    forall l :: IsLast(fs, l) ==>
      Edit(ReadFile(now, fs[l].path), fs[l], ports) == Edit(ReadFile(before, fs[l].path), fs[l], ports)
  }

  ghost predicate AllPlannable(files: Files, fs: seq<DotenvFile>, ports: Ports) {
    forall k :: 0 <= k < |fs| ==> Edit(ReadFile(files, fs[k].path), fs[k], ports).Some?
  }

  lemma NotPlannedNotWritten(before: Files, now: Files, plan: seq<PlannedFile>, p: Path)
    requires PartlyWritten(before, now, plan)
    ensures LastFor(plan, p) == None ==> ReadFile(now, p) == ReadFile(before, p)
  {
    if ReadFile(now, p) != ReadFile(before, p) {
      var k :| 0 <= k < |plan| && plan[k].path == p;
      PlannedHasLast(plan, k);
    }
  }

  // Planning a partly written config and writing it out gives the undisturbed files exactly
  // if the last mapping of each file is not misled by what is already there.
  lemma WrittenAlikeIff(d: Disk, now: Disk, allocationId: string, fs: seq<DotenvFile>, ports: Ports)
    requires Build(d.files, fs, ports).PlanReady? && Build(now.files, fs, ports).PlanReady?
    requires PartlyWritten(d.files, now.files, Build(d.files, fs, ports).plan)
    ensures LastEditsAgree(d.files, now.files, fs, ports) <==>
            Written(now, allocationId, Build(now.files, fs, ports).plan) ==
            Written(d, allocationId, Build(d.files, fs, ports).plan)
  {
    var after, wanted := Written(now, allocationId, Build(now.files, fs, ports).plan),
      Written(d, allocationId, Build(d.files, fs, ports).plan);
    forall l | IsLast(fs, l)
      ensures ReadFile(after, fs[l].path) == Edit(ReadFile(now.files, fs[l].path), fs[l], ports)
      ensures ReadFile(wanted, fs[l].path) == Edit(ReadFile(d.files, fs[l].path), fs[l], ports)
    {
      WrittenByLast(now, allocationId, fs, ports, l);
      WrittenByLast(d, allocationId, fs, ports, l);
    }
    if LastEditsAgree(d.files, now.files, fs, ports) {
      forall p ensures ReadFile(after, p) == ReadFile(wanted, p) {
        WrittenElsewhere(d, now, allocationId, fs, ports, p);
      }
      SameFiles(after, wanted);
    }
  }

  // A file no mapping names is written by neither.
  lemma WrittenElsewhere(d: Disk, now: Disk, allocationId: string, fs: seq<DotenvFile>, ports: Ports, p: Path)
    requires Build(d.files, fs, ports).PlanReady? && Build(now.files, fs, ports).PlanReady?
    requires PartlyWritten(d.files, now.files, Build(d.files, fs, ports).plan)
    ensures (exists l :: IsLast(fs, l) && fs[l].path == p) ||
            ReadFile(Written(now, allocationId, Build(now.files, fs, ports).plan), p) ==
            ReadFile(Written(d, allocationId, Build(d.files, fs, ports).plan), p)
  {
    var again, plan := Build(now.files, fs, ports).plan, Build(d.files, fs, ports).plan;
    PlannedEdits(d.files, fs, ports);
    PlannedEdits(now.files, fs, ports);
    if LastFor(again, p).Some? {
      var k := LastIsPlanned(again, p);
      var l := LastIndex(fs, k);
    } else if LastFor(plan, p).Some? {
      var k := LastIsPlanned(plan, p);
      var l := LastIndex(fs, k);
    } else {
      WrittenFile(now, allocationId, again, p);
      WrittenFile(d, allocationId, plan, p);
      NotPlannedNotWritten(d.files, now.files, plan, p);
    }
  }

  // With one mapping per file, a file is read as it was or as that mapping left it.
  lemma ReadAgainIff(before: Files, now: Files, fs: seq<DotenvFile>, ports: Ports, k: nat)
    requires ValidFiles(fs) && DistinctPaths(fs) && k < |fs| && Build(before, fs, ports).PlanReady?
    requires PartlyWritten(before, now, Build(before, fs, ports).plan)
    ensures var p := fs[k].path;
      && Edit(ReadFile(now, p), fs[k], ports) == Edit(ReadFile(before, p), fs[k], ports) <==>
         ReadFile(now, p) == ReadFile(before, p) || KeepsNewline(before, fs[k], ports)
  {
    var plan := Build(before, fs, ports).plan;
    PlannedEdits(before, fs, ports);
    EditAgainIff(ReadFile(before, fs[k].path), fs[k], ports);
    assert forall j :: 0 <= j < |plan| && plan[j].path == fs[k].path ==> j == k;
  }

  // Cut short anywhere, with any fault, a call leaves every file in its original or its
  // planned form.
  lemma CrashedCallFiles(w: World, c: Call, env: Env, survived: nat)
    ensures AfterCall(w, c, env, survived).disk.files == w.disk.files ||
      (&& Planning(w, c, env).Some? && |Before(w, c, env)| < survived
       && PartlyWritten(w.disk.files, AfterCall(w, c, env, survived).disk.files, Planning(w, c, env).value.1))
  {
    hide Workflow.Run, Exec, Unfold, Before, After, PartlyWritten, PlanAndApplyWrites;
    var all := Workflow.Run(w, c, env).1;
    if Planning(w, c, env).None? {
      NoPlanOffDisk(w, c, env);
      OffDiskLeavesDisk(w, CutEffects(all, survived));
    } else {
      CallJournal(w, c, env);
      var n := |Before(w, c, env)|;
      if survived <= n {
        assert CutEffects(all, survived) == Before(w, c, env)[..survived];
        OffDiskLeavesDisk(w, CutEffects(all, survived));
      } else {
        PlannedCall(w, c, env, survived);
        CutApply(w.disk, Planning(w, c, env).value.0, Planning(w, c, env).value.1, env, survived - n);
      }
    }
  }

  lemma CutApply(d: Disk, allocationId: string, plan: seq<PlannedFile>, env: Env, n: nat)
    requires 0 < n
    ensures PartlyWritten(d.files,
        Exec(d, ConfigRuns.Cut(PlanAndApplyWrites(d, allocationId, plan, env).1, n)).files, plan)
  {
    var planned := PlannedDisk(d, allocationId, plan, env);
    var first, applied := PersistPlan(d, env.mutationId, allocationId, plan),
        Apply(planned, env.mutationId, env.fault).1;
    ConfigRuns.PlanPersisted(d, env.mutationId, allocationId, plan);
    var m := if n - 1 <= |applied| then n - 1 else |applied|;
    var now := Exec(planned, applied[..m]).files;
    assert ConfigRuns.Cut(first + applied, n) == first + applied[..m];
    ExecConcat(d, first, applied[..m]);
    forall p ensures ReadFile(now, p) == ReadFile(d.files, p) ||
      exists k :: 0 <= k < |plan| && plan[k].path == p && ReadFile(now, p) == Some(plan[k].content)
    {
      CrashInvariant(planned, env.mutationId, env.fault, m, p);
      if ReadFile(now, p) != ReadFile(d.files, p) {
        var entries := planned.records[env.mutationId].files;
        var k :| 0 <= k < |entries| && entries[k].path == p && Some(entries[k].content) == ReadFile(now, p);
        assert plan[k].path == p;
      }
    }
  }

  // The ports a crashed call planned with are those of the allocation still on record.
  lemma CrashedCallPorts(w: World, c: Call, env: Env, survived: nat)
    requires Planning(w, c, env).Some? && |Before(w, c, env)| < survived
    ensures var after, a := AfterCall(w, c, env, survived), Granted(w, c.requestId, env.create).value.0;
      && c.requestId in after.central && after.central[c.requestId].ports == a.ports
      && c.build(w.disk.files, a.ports) == PlanReady(Planning(w, c, env).value.1)
  {
    CallJournal(w, c, env);
    var es, k := CutEffects(Workflow.Run(w, c, env).1, survived), |Before(w, c, env)| - 1;
    assert es[k] == Before(w, c, env)[k] && es[k].SaveWorkflow?;
    GrantStands(w, c, env, survived);
  }

  lemma ReadAgainAllIff(before: Files, now: Files, fs: seq<DotenvFile>, ports: Ports)
    requires ValidFiles(fs) && DistinctPaths(fs) && Build(before, fs, ports).PlanReady?
    requires PartlyWritten(before, now, Build(before, fs, ports).plan)
    ensures AllPlannable(now, fs, ports) && LastEditsAgree(before, now, fs, ports) <==>
            forall k :: 0 <= k < |fs| ==>
              ReadFile(now, fs[k].path) == ReadFile(before, fs[k].path) || KeepsNewline(before, fs[k], ports)
  {
    hide Edit, KeepsNewline, PartlyWritten, Build;
    PlannedEdits(before, fs, ports);
    forall k | 0 <= k < |fs|
      ensures IsLast(fs, k)
      ensures Edit(ReadFile(now, fs[k].path), fs[k], ports) == Edit(ReadFile(before, fs[k].path), fs[k], ports) <==>
              ReadFile(now, fs[k].path) == ReadFile(before, fs[k].path) || KeepsNewline(before, fs[k], ports)
    {
      ReadAgainIff(before, now, fs, ports, k);
    }
  }

  // What a retry of a crashed call finds: files as before or as planned.
  lemma RetryFinds(w: World, c: Call, env: Env, survived: nat)
    requires var died := AfterCall(w, c, env, survived);
      c.requestId in died.central && c.build(w.disk.files, died.central[c.requestId].ports).PlanReady?
    ensures var died := AfterCall(w, c, env, survived);
      PartlyWritten(w.disk.files, died.disk.files, c.build(w.disk.files, died.central[c.requestId].ports).plan)
  {
    CrashedCallFiles(w, c, env, survived);
    if AfterCall(w, c, env, survived).disk.files != w.disk.files {
      CrashedCallPorts(w, c, env, survived);
    }
  }

  // Whatever the first attempt got done before it died, a retry that is granted the
  // allocation ends APPLIED with exactly the files of an undisturbed call, if and only if
  // every mapping can be planned on the files as found and the last mapping of each file
  // makes of them what it made of the originals.
  lemma RetryCompletesIff(w: World, rid: RequestId, hash: string, fs: seq<DotenvFile>, env: Env,
                          survived: nat, retry: Env)
    requires fs != []
    requires var died := AfterCall(w, DotenvCall(rid, hash, fs), env, survived);
      && rid in died.central && died.central[rid].active && !IsApplied(died, rid)
      && (Lookup(died, rid).Some? ==> died.workflows[rid].manifestHash == hash)
      && Build(w.disk.files, fs, died.central[rid].ports).PlanReady?
    requires retry.create.Answered? && retry.fault == NoFault
    ensures var died := AfterCall(w, DotenvCall(rid, hash, fs), env, survived);
      var after, a := Finished(died, DotenvCall(rid, hash, fs), retry), died.central[rid];
      AllPlannable(died.disk.files, fs, a.ports) && LastEditsAgree(w.disk.files, died.disk.files, fs, a.ports) <==>
      IsApplied(after, rid) && after.disk.files == Written(w.disk, a.id, Build(w.disk.files, fs, a.ports).plan)
  {
    var c := DotenvCall(rid, hash, fs);
    var died := AfterCall(w, c, env, survived);
    var a := died.central[rid];
    RetryFinds(w, c, env, survived);
    PlannedEdits(died.disk.files, fs, a.ports);
    RetryPlans(died, rid, hash, fs, retry);
    if AllPlannable(died.disk.files, fs, a.ports) {
      WrittenAlikeIff(w.disk, died.disk, a.id, fs, a.ports);
    }
  }

  // With one mapping per file: exactly if no file the first attempt got to write was turned
  // from LF to CRLF.
  lemma RetryCompletes(w: World, rid: RequestId, hash: string, fs: seq<DotenvFile>, env: Env, survived: nat, retry: Env)
    requires ValidFiles(fs) && DistinctPaths(fs) && fs != []
    requires var died := AfterCall(w, DotenvCall(rid, hash, fs), env, survived);
      && rid in died.central && died.central[rid].active && !IsApplied(died, rid)
      && (Lookup(died, rid).Some? ==> died.workflows[rid].manifestHash == hash)
      && Build(w.disk.files, fs, died.central[rid].ports).PlanReady?
    requires retry.create.Answered? && retry.fault == NoFault
    ensures var died := AfterCall(w, DotenvCall(rid, hash, fs), env, survived);
      var after, a := Finished(died, DotenvCall(rid, hash, fs), retry), died.central[rid];
      (forall k :: 0 <= k < |fs| ==>
         ReadFile(died.disk.files, fs[k].path) == ReadFile(w.disk.files, fs[k].path) ||
         KeepsNewline(w.disk.files, fs[k], a.ports)) <==>
      IsApplied(after, rid) && after.disk.files == Written(w.disk, a.id, Build(w.disk.files, fs, a.ports).plan)
  {
    var c := DotenvCall(rid, hash, fs);
    var died := AfterCall(w, c, env, survived);
    var ports := died.central[rid].ports;
    hide Workflow.Run, Exec, AfterCall, Finished, Written, Build, IsLast, DistinctPaths, KeepsNewline;
    RetryFinds(w, c, env, survived);
    RetryCompletesIff(w, rid, hash, fs, env, survived, retry);
    ReadAgainAllIff(w.disk.files, died.disk.files, fs, ports);
  }
}
