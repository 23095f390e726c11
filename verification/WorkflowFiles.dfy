// What a recorded success means for the dotenv files themselves.
module WorkflowFiles {
  import opened Wrappers
  import opened ConfigFiles
  import opened ConfigManager
  import opened Workflow
  import opened WorkflowSafety
  import opened WorkflowConfig
  import opened WorkflowRetry
  import opened DotenvPlan
  import Decimal
  import DotenvLine
  import DotenvSpec
  import DotenvText
  import Dot = Dotenv
  import DotenvTurned
  import DotenvReaders

  function Assignments(text: Option<Text>, key: string): nat {
    DotenvSpec.Count(Dot.LayoutOf(text).lines, key)
  }

  lemma OtherVariables(text: Option<Text>, mapping: seq<Dot.Setting>, key: string)
    requires Dot.ValidMapping(mapping) && Dot.Update(text, mapping).Ok?
    requires DotenvLine.ValidKey(key) && !DotenvSpec.Maps(mapping, key)
    ensures var count := Assignments(Some(Dot.Update(text, mapping).value.0), key);
      count <= Assignments(text, key) && (!DotenvText.TurnsCRLF(text, mapping) ==> count == Assignments(text, key))
  {
    hide DotenvText.TurnsCRLF, DotenvLine.MatchKey, DotenvLine.ValidKey, Dot.ValidMapping,
      Dot.LayoutOf, Dot.NewLines, Dot.Update;
    if DotenvText.TurnsCRLF(text, mapping) {
      DotenvReaders.TurnedOthers(text, mapping, key);
    } else if Dot.NewLines(Dot.LayoutOf(text).lines, mapping) != [] {
      DotenvText.EditReadsBack(text, mapping);
      DotenvSpec.CountAfter(Dot.LayoutOf(text).lines, mapping, key);
    } else {
      DotenvReaders.BlankStays(text, mapping, key);
    }
  }

  /* From a recorded success to the variables. */

  // Each file a newly APPLIED call planned holds what its last mapping made of the original.
  lemma AppliedText(w: World, rid: RequestId, hash: string, fs: seq<DotenvFile>, env: Env, l: nat)
    requires !IsApplied(w, rid) && IsApplied(Finished(w, DotenvCall(rid, hash, fs), env), rid) && IsLast(fs, l)
    ensures Granted(w, rid, env.create).Some?
    ensures var text, ports := ReadFile(w.disk.files, fs[l].path), Granted(w, rid, env.create).value.0.ports;
      && Edit(text, fs[l], ports).Some?
      && ReadFile(Finished(w, DotenvCall(rid, hash, fs), env).disk.files, fs[l].path) == Edit(text, fs[l], ports)
  {
    hide Edit, Build, Workflow.Run, Finished, Exec;
    var c := DotenvCall(rid, hash, fs);
    AppliedCallWroteItsPlan(w, c, env);
    var a := Granted(w, rid, env.create).value.0;
    assert Build(w.disk.files, fs, a.ports) == PlanReady(Planning(w, c, env).value.1);
    PlannedEdits(w.disk.files, fs, a.ports);
    WrittenByLast(w.disk, a.id, fs, a.ports, l);
  }

  // Every variable of the mapping is assigned on exactly one line and reads back as the
  // port allocated for it.
  ghost predicate VariablesSet(now: Option<Text>, f: DotenvFile, ports: Ports) {
    && now.Some?
    && forall k :: 0 <= k < |f.values| ==>
      && f.values[k].1 in ports
      && DotenvReaders.SetTo(now.value, f.values[k].0, Decimal.Print(ports[f.values[k].1]))
  }

  // The edit keeps the newlines, or appends one variable and has all others on what then
  // is the first line.
  ghost predicate StaysReadable(text: Option<Text>, f: DotenvFile, ports: Ports) {
    && Resolve(f.values, ports).Some?
    && var settings := Resolve(f.values, ports).value;
       || !DotenvText.TurnsCRLF(text, settings)
       || DotenvReaders.OneOnEachSide(Dot.LayoutOf(text).lines, settings, DotenvTurned.TurnedHead(text, settings))
  }

  lemma EditSetsVariablesIff(text: Option<Text>, f: DotenvFile, ports: Ports)
    requires ValidFile(f) && Edit(text, f, ports).Some?
    ensures StaysReadable(text, f, ports) <==> VariablesSet(Edit(text, f, ports), f, ports)
  {
    hide DotenvText.TurnsCRLF, DotenvReaders.SetTo, DotenvReaders.OneOnEachSide, Dot.Update, DotenvTurned.TurnedHead;
    ResolvedAre(f.values, ports);
    ResolvedValid(f, ports);
    var settings := Resolve(f.values, ports).value;
    DotenvReaders.AllSetIff(text, settings);
    var now := Edit(text, f, ports);
    assert DotenvReaders.AllSet(now.value, settings) <==> VariablesSet(now, f, ports);
  }

  // After a newly APPLIED call the variables of the last mapping of a file are there to
  // read, with the ports on record, exactly if the edit leaves them readable.
  lemma AppliedSetsVariablesIff(w: World, rid: RequestId, hash: string, fs: seq<DotenvFile>, env: Env, l: nat)
    requires ValidFiles(fs) && !IsApplied(w, rid) && IsApplied(Finished(w, DotenvCall(rid, hash, fs), env), rid)
    requires IsLast(fs, l)
    ensures var after := Finished(w, DotenvCall(rid, hash, fs), env);
      var now, ports := ReadFile(after.disk.files, fs[l].path), after.workflows[rid].ports;
      StaysReadable(ReadFile(w.disk.files, fs[l].path), fs[l], ports) <==> VariablesSet(now, fs[l], ports)
  {
    hide Workflow.Run, Finished, Edit, StaysReadable, VariablesSet;
    AppliedText(w, rid, hash, fs, env, l);
    AppliedPorts(w, DotenvCall(rid, hash, fs), env);
    EditSetsVariablesIff(ReadFile(w.disk.files, fs[l].path), fs[l], Granted(w, rid, env.create).value.0.ports);
  }

  lemma AppliedPorts(w: World, c: Call, env: Env)
    requires !IsApplied(w, c.requestId) && IsApplied(Finished(w, c, env), c.requestId)
    ensures Granted(w, c.requestId, env.create).Some?
    ensures Finished(w, c, env).workflows[c.requestId].ports == Granted(w, c.requestId, env.create).value.0.ports
  {
    hide Workflow.Run, Finished, Exec;
    AppliedCallWroteItsPlan(w, c, env);
    EndsApplied(w, c, env);
    SavedByPlan(w, c, env);
  }

  // What a variable that an edit does not name is read from afterwards.
  ghost function LinesBehind(text: Option<Text>, f: DotenvFile, ports: Ports): seq<string> {
    match Resolve(f.values, ports)
    case None => []
    case Some(settings) =>
      if DotenvText.TurnsCRLF(text, settings) then [DotenvTurned.TurnedHead(text, settings)]
      else Dot.LayoutOf(text).lines
  }

  lemma EditLeavesVariableIff(text: Option<Text>, f: DotenvFile, ports: Ports, key: string, value: string)
    requires ValidFile(f) && Edit(text, f, ports).Some? && DotenvLine.ValidKey(key)
    requires forall i :: 0 <= i < |f.values| ==> f.values[i].0 != key
    ensures DotenvReaders.SetTo(Edit(text, f, ports).value, key, value) <==>
            DotenvReaders.SetIn(LinesBehind(text, f, ports), key, value)
    ensures var count := Assignments(Edit(text, f, ports), key);
      count <= Assignments(text, key) &&
      (!DotenvText.TurnsCRLF(text, Resolve(f.values, ports).value) ==> count == Assignments(text, key))
  {
    hide DotenvText.TurnsCRLF, Dot.Update, Assignments, DotenvReaders.SetTo, DotenvReaders.SetIn,
      DotenvTurned.TurnedHead, Dot.LayoutOf;
    ResolvedAre(f.values, ports);
    ResolvedValid(f, ports);
    var settings := Resolve(f.values, ports).value;
    OtherVariables(text, settings, key);
    DotenvReaders.OtherVariableIff(text, settings, key, value);
  }

  // What an earlier mapping of a file was to set and the last one does not name is set after
  // a newly APPLIED call exactly if it was set before, the text having kept its newlines;
  // and it is assigned no more often than before. The earlier mapping is lost.
  lemma EarlierMappingIsLost(w: World, rid: RequestId, hash: string, fs: seq<DotenvFile>, env: Env,
                             l: nat, j: nat, k: nat, value: string)
    requires ValidFiles(fs) && !IsApplied(w, rid) && IsApplied(Finished(w, DotenvCall(rid, hash, fs), env), rid)
    requires IsLast(fs, l) && j < l && fs[j].path == fs[l].path && k < |fs[j].values|
    requires forall i :: 0 <= i < |fs[l].values| ==> fs[l].values[i].0 != fs[j].values[k].0
    ensures var after := Finished(w, DotenvCall(rid, hash, fs), env);
      var text, now := ReadFile(w.disk.files, fs[l].path), ReadFile(after.disk.files, fs[l].path);
      var key, ports := fs[j].values[k].0, after.workflows[rid].ports;
      && now.Some?
      && (DotenvReaders.SetTo(now.value, key, value) <==>
            DotenvReaders.SetIn(LinesBehind(text, fs[l], ports), key, value))
      && Assignments(now, key) <= Assignments(text, key)
      && (KeepsNewline(w.disk.files, fs[l], ports) ==> Assignments(now, key) == Assignments(text, key))
  {
    hide Workflow.Run, Finished, DotenvText.TurnsCRLF, Edit, Assignments, LinesBehind,
      DotenvReaders.SetTo, DotenvReaders.SetIn;
    AppliedText(w, rid, hash, fs, env, l);
    AppliedPorts(w, DotenvCall(rid, hash, fs), env);
    assert ValidFile(fs[j]);
    EditLeavesVariableIff(ReadFile(w.disk.files, fs[l].path), fs[l], Granted(w, rid, env.create).value.0.ports,
                          fs[j].values[k].0, value);
  }
}
