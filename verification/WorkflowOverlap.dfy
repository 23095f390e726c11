// Retrying a call that has several mappings of one file: when what the crash left of an
// earlier mapping does not show in the end.
module WorkflowOverlap {
  import opened Wrappers
  import opened ConfigFiles
  import opened ConfigManager
  import opened Workflow
  import opened WorkflowSafety
  import opened WorkflowConfig
  import opened WorkflowRetry
  import opened DotenvPlan
  import DotenvOverlap
  import DotenvText
  import Dot = Dotenv

  // No mapping is empty, as the manifest demands, and none turns the newlines of its file.
  ghost predicate AllKeep(files: Files, fs: seq<DotenvFile>, ports: Ports) {
    forall k :: 0 <= k < |fs| ==> fs[k].values != [] && KeepsNewline(files, fs[k], ports)
  }

  // The earlier mapping leaves nothing in the file that shows behind the last one.
  ghost predicate Behind(text: Option<Text>, earlier: DotenvFile, last: DotenvFile, ports: Ports) {
    && Resolve(earlier.values, ports).Some? && Resolve(last.values, ports).Some?
    && DotenvOverlap.Hidden(
         Dot.LayoutOf(text).lines, Resolve(earlier.values, ports).value, Resolve(last.values, ports).value)
  }

  // A file whose last mapping is `l` is as it was, or as a mapping left it that does not show.
  ghost predicate Harmless(before: Files, now: Files, fs: seq<DotenvFile>, ports: Ports, l: int)
    requires 0 <= l < |fs|
  {
    var p := fs[l].path;
    || ReadFile(now, p) == ReadFile(before, p)
    || exists k :: 0 <= k < |fs| && fs[k].path == p && ReadFile(now, p) == Edit(ReadFile(before, p), fs[k], ports) &&
         Behind(ReadFile(before, p), fs[k], fs[l], ports)
  }

  lemma EditBehindIff(text: Option<Text>, earlier: DotenvFile, last: DotenvFile, ports: Ports)
    requires ValidFile(earlier) && ValidFile(last) && earlier.values != [] && last.values != []
    requires Edit(text, earlier, ports).Some? && Edit(text, last, ports).Some?
    requires !DotenvText.TurnsCRLF(text, Resolve(earlier.values, ports).value)
    requires !DotenvText.TurnsCRLF(text, Resolve(last.values, ports).value)
    ensures Edit(Edit(text, earlier, ports), last, ports) == Edit(text, last, ports) <==>
            Behind(text, earlier, last, ports)
  {
    hide DotenvText.TurnsCRLF, Dot.Update, DotenvOverlap.Hidden, Dot.LayoutOf;
    ResolvedValid(earlier, ports);
    ResolvedValid(last, ports);
    ResolvedAre(earlier.values, ports);
    ResolvedAre(last.values, ports);
    DotenvOverlap.HiddenIff(text, Resolve(earlier.values, ports).value, Resolve(last.values, ports).value);
  }

  lemma LastEditAgreesIff(before: Files, now: Files, fs: seq<DotenvFile>, ports: Ports, l: nat)
    requires ValidFiles(fs) && l < |fs| && Build(before, fs, ports).PlanReady? && AllKeep(before, fs, ports)
    requires PartlyWritten(before, now, Build(before, fs, ports).plan)
    ensures Edit(ReadFile(now, fs[l].path), fs[l], ports) == Edit(ReadFile(before, fs[l].path), fs[l], ports) <==>
            Harmless(before, now, fs, ports, l)
  {
    hide Edit, DotenvText.TurnsCRLF, Behind, Build;
    var p := fs[l].path;
    PlannedEdits(before, fs, ports);
    forall k | 0 <= k < |fs| && fs[k].path == p
      ensures Edit(Edit(ReadFile(before, p), fs[k], ports), fs[l], ports) ==
              Edit(ReadFile(before, p), fs[l], ports) <==>
              Behind(ReadFile(before, p), fs[k], fs[l], ports)
    {
      EditBehindIff(ReadFile(before, p), fs[k], fs[l], ports);
    }
    if ReadFile(now, p) != ReadFile(before, p) {
      var plan := Build(before, fs, ports).plan;
      var k :| 0 <= k < |plan| && plan[k].path == p && ReadFile(now, p) == Some(plan[k].content);
      assert fs[k].path == p && ReadFile(now, p) == Edit(ReadFile(before, p), fs[k], ports);
    }
  }

  lemma StillPlannable(before: Files, now: Files, fs: seq<DotenvFile>, ports: Ports)
    requires ValidFiles(fs) && Build(before, fs, ports).PlanReady? && AllKeep(before, fs, ports)
    requires PartlyWritten(before, now, Build(before, fs, ports).plan)
    ensures AllPlannable(now, fs, ports)
  {
    hide Edit, DotenvText.TurnsCRLF, Build;
    PlannedEdits(before, fs, ports);
    forall l | 0 <= l < |fs| ensures Edit(ReadFile(now, fs[l].path), fs[l], ports).Some? {
      var p, plan := fs[l].path, Build(before, fs, ports).plan;
      if ReadFile(now, p) != ReadFile(before, p) {
        var k :| 0 <= k < |plan| && plan[k].path == p && ReadFile(now, p) == Some(plan[k].content);
        assert fs[k].path == p && KeepsNewline(before, fs[k], ports);
        EditAfterOther(ReadFile(before, p), fs[l], fs[k], ports);
      }
    }
  }

  // Mappings that keep the newlines, any number of them for one file: after a crash anywhere
  // the retry ends APPLIED with the files of an undisturbed call, if and only if every file
  // is as before the first attempt, or as left by a mapping that does not show behind the last.
  lemma RetryCompletesOnKeysIff(w: World, rid: RequestId, hash: string, fs: seq<DotenvFile>, env: Env,
                                survived: nat, retry: Env)
    requires ValidFiles(fs) && fs != []
    requires var died := AfterCall(w, DotenvCall(rid, hash, fs), env, survived);
      && rid in died.central && died.central[rid].active && !IsApplied(died, rid)
      && (Lookup(died, rid).Some? ==> died.workflows[rid].manifestHash == hash)
      && Build(w.disk.files, fs, died.central[rid].ports).PlanReady?
      && AllKeep(w.disk.files, fs, died.central[rid].ports)
    requires retry.create.Answered? && retry.fault == NoFault
    ensures var died := AfterCall(w, DotenvCall(rid, hash, fs), env, survived);
      var after, a := Finished(died, DotenvCall(rid, hash, fs), retry), died.central[rid];
      (forall l :: IsLast(fs, l) ==> Harmless(w.disk.files, died.disk.files, fs, a.ports, l)) <==>
      IsApplied(after, rid) && after.disk.files == Written(w.disk, a.id, Build(w.disk.files, fs, a.ports).plan)
  {
    hide Workflow.Run, Exec, AfterCall, Finished, Written, Build, AllKeep, Harmless, Edit, PartlyWritten;
    var died := AfterCall(w, DotenvCall(rid, hash, fs), env, survived);
    var ports := died.central[rid].ports;
    RetryFinds(w, DotenvCall(rid, hash, fs), env, survived);
    RetryCompletesIff(w, rid, hash, fs, env, survived, retry);
    StillPlannable(w.disk.files, died.disk.files, fs, ports);
    forall l | IsLast(fs, l)
      ensures Edit(ReadFile(died.disk.files, fs[l].path), fs[l], ports) ==
              Edit(ReadFile(w.disk.files, fs[l].path), fs[l], ports) <==>
              Harmless(w.disk.files, died.disk.files, fs, ports, l)
    {
      LastEditAgreesIff(w.disk.files, died.disk.files, fs, ports, l);
    }
  }
}
