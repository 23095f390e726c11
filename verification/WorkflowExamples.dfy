// Concrete calls whose retry does not leave the files an undisturbed call would have left.
module WorkflowExamples {
  import opened Wrappers
  import opened Lines
  import opened ConfigFiles
  import opened ConfigManager
  import opened Workflow
  import opened WorkflowSafety
  import opened WorkflowConfig
  import opened WorkflowRetry
  import WorkflowReplay
  import opened DotenvPlan
  import Decimal
  import DotenvLine
  import DotenvSpec
  import DotenvText
  import Dot = Dotenv
  import DotenvTurned

  const ENV_FILE: Path := ".env"
  const REQUEST: RequestId := "r"
  const PORTS: Ports := map["x" := 1, "y" := 2]
  const ALLOCATION := Allocation("a", PORTS, true)
  const CALM := Env(Answered("a", PORTS), "m", NoFault, Confirmed)

  // The allocation is there already, and no workflow is on record.
  function Start(files: Files): World {
    World(map[REQUEST := ALLOCATION], map[], Disk(files, map[], map[]))
  }

  const MAPPING_A := DotenvFile(ENV_FILE, [("A", "x")])
  const MAPPING_B := DotenvFile(ENV_FILE, [("B", "y")])
  const SET_A := Dot.Setting("A", "1")
  const SET_B := Dot.Setting("B", "2")

  lemma Resolved()
    ensures Resolve(MAPPING_A.values, PORTS) == Some([SET_A]) && Resolve(MAPPING_B.values, PORTS) == Some([SET_B])
    ensures ValidFile(MAPPING_A) && ValidFile(MAPPING_B)
    ensures Dot.ValidMapping([SET_A]) && Dot.ValidMapping([SET_B])
  {
    assert [SET_A] == [] + [SET_A] && [SET_B] == [] + [SET_B];
    assert [("A", "x")][..0] == [] && [("B", "y")][..0] == [];
    assert Decimal.Print(1) == "1" && Decimal.Print(2) == "2";
  }

  /* Two mappings of one file. */

  lemma AppendToNothing(s: Dot.Setting)
    ensures Dot.Update(None, [s]).Ok?
    ensures Dot.Update(None, [s]).value.0 == DotenvLine.Assignment(s.key, s.value) + LF
  {
    assert [] + [s] == [s];
    Dot.AppendedStep([], [], s);
    DotenvSpec.UpdateFailsIff(None, [s]);
    assert Dot.NewLines([], [s]) == [DotenvLine.Assignment(s.key, s.value)];
  }

  lemma LineText(l: string)
    requires DotenvText.PlainLine(l)
    ensures Dot.LayoutOf(Some(l + LF)) == Dot.Layout([l], LF, true)
  {
    DotenvText.PlainLineUnbroken(l, LF);
    DotenvText.ParsePrint(Dot.Layout([l], LF, true));
    assert DotenvText.Print(Dot.Layout([l], LF, true)) == l + LF;
  }

  lemma AppendToLine(l: string, s: Dot.Setting)
    requires DotenvText.PlainLine(l) && !DotenvLine.Assigns(l, s.key)
    ensures Dot.Update(Some(l + LF), [s]).Ok?
    ensures Dot.Update(Some(l + LF), [s]).value.0 == l + LF + DotenvLine.Assignment(s.key, s.value) + LF
  {
    hide DotenvLine.MatchKey, Dot.NewLine, Dot.LayoutOf, DotenvLine.Assignment;
    LineText(l);
    DotenvTurned.OneCRLines(l, s);
    DotenvSpec.UpdateFailsIff(Some(l + LF), [s]);
    var a := DotenvLine.Assignment(s.key, s.value);
    assert [l] + [a] == [l, a] && [l, a][1..] == [a];
    assert Join([l, a], LF) == l + LF + a;
  }

  lemma EditsOfTwo()
    ensures Edit(None, MAPPING_A, PORTS) == Some("A=1\n") && Edit(None, MAPPING_B, PORTS) == Some("B=2\n")
    ensures Edit(Some("A=1\n"), MAPPING_A, PORTS).Some? && Edit(Some("A=1\n"), MAPPING_B, PORTS) == Some("A=1\nB=2\n")
  {
    hide Dot.Update, Resolve, DotenvLine.MatchKey;
    Resolved();
    AppendToNothing(SET_A);
    AppendToNothing(SET_B);
    assert "A" + "=" + "1" + LF == "A=1\n" && "B" + "=" + "2" + LF == "B=2\n";
    DotenvTurned.OneAssignment("A", "1", "B");
    assert "A" + "=" + "1" == "A=1";
    AppendToLine("A=1", SET_B);
    assert "A=1" + LF + ("B" + "=" + "2") + LF == "A=1\nB=2\n";
    WorkflowRetry.EditAgainIff(None, MAPPING_A, PORTS);
  }

  const TWICE := [MAPPING_A, MAPPING_B]

  lemma PlanOfTwo()
    ensures Build(map[], TWICE, PORTS) ==
      PlanReady([PlannedFile(ENV_FILE, Dotenv, "A=1\n"), PlannedFile(ENV_FILE, Dotenv, "B=2\n")])
  {
    hide Edit, Build;
    EditsOfTwo();
    var files: Files := map[];
    assert ReadFile(files, ENV_FILE) == None;
    PlannedEdits(files, TWICE, PORTS);
    assert TWICE[0] == MAPPING_A && TWICE[1] == MAPPING_B;
  }

  const PLAN := [PlannedFile(ENV_FILE, Dotenv, "A=1\n"), PlannedFile(ENV_FILE, Dotenv, "B=2\n")]

  // Nothing to back up: after the record come the two targets.
  lemma WritesOfTwo(d: Disk)
    requires d == Disk(map[], map[], map[])
    ensures var ws := PlanAndApplyWrites(d, "a", PLAN, CALM).1;
      && |ws| >= 2 && ws[0].SaveRecord? && ws[1] == Target(ENV_FILE, Some("A=1\n"))
  {
    hide FirstChanged, TargetWrites, BackupWrites;
    var r := PlanRecord(d.files, "a", PLAN);
    ExecOne(d, PersistPlan(d, "m", "a", PLAN)[0]);
    FreshPlanUnchanged(d.files, "a", PLAN);
    NothingToBackUp(d.files, "m", r.files);
    TwoTargets(r.files);
    assert Apply(Exec(d, PersistPlan(d, "m", "a", PLAN)), "m", NoFault).1[0] == TargetWrites(r.files[..2])[0];
  }

  lemma ExecOne(d: Disk, w: Write)
    ensures Exec(d, [w]) == Perform(d, w)
  {
    ExecSnoc(d, [], w);
    assert [] + [w] == [w];
  }

  lemma {:induction false} NothingToBackUp(files: Files, id: MutationId, entries: seq<FileEntry>)
    requires forall k :: 0 <= k < |entries| ==> ReadFile(files, entries[k].path) == None
    ensures BackupWrites(files, id, entries) == []
  {
    if entries != [] {
      NothingToBackUp(files, id, entries[..|entries| - 1]);
    }
  }

  lemma TwoTargets(entries: seq<FileEntry>)
    requires |entries| == 2 && entries[0].path == ENV_FILE && entries[0].content == "A=1\n"
    ensures |TargetWrites(entries[..2])| == 2
    ensures TargetWrites(entries[..2])[0] == Target(ENV_FILE, Some("A=1\n"))
  {
  }

  lemma FilesOfTwo(d: Disk, ws: seq<Write>)
    requires d.files == map[] && |ws| >= 2 && ws[0].SaveRecord? && ws[1] == Target(ENV_FILE, Some("A=1\n"))
    ensures Exec(d, ws[..2]).files == map[ENV_FILE := "A=1\n"]
  {
    assert ws[..2] == [ws[0]] + [ws[1]];
    ExecOne(d, ws[0]);
    ExecSnoc(d, [ws[0]], ws[1]);
  }

  function CallTwice(): Call {
    DotenvCall(REQUEST, "h", TWICE)
  }

  // Cut short after the first of the two targets.
  lemma DiedBetween()
    ensures var died := AfterCall(Start(map[]), CallTwice(), CALM, 3);
      && died.disk.files == map[ENV_FILE := "A=1\n"]
      && died.central == map[REQUEST := ALLOCATION]
      && Lookup(died, REQUEST) == Some(BaseRecord("h", ALLOCATION, false))
  {
    hide Exec, Build, PlanAndApplyWrites, Workflow.Run, AfterCall;
    var w, c := Start(map[]), CallTwice();
    PlanOfTwo();
    assert Planning(w, c, CALM) == Some(("a", PLAN));
    WritesOfTwo(w.disk);
    MidCall(w, c, CALM, 2);
    FilesOfTwo(w.disk, DiskPart(w, c, CALM).1);
  }

  // The retry keeps the earlier mapping's assignment, which an undisturbed call overwrites.
  lemma RetryCombinesMappings()
    ensures var w := Start(map[]);
      var died := AfterCall(w, CallTwice(), CALM, 3);
      var undisturbed, after := Finished(w, CallTwice(), CALM), Finished(died, CallTwice(), CALM);
      && IsApplied(undisturbed, REQUEST) && ReadFile(undisturbed.disk.files, ENV_FILE) == Some("B=2\n")
      && IsApplied(after, REQUEST) && ReadFile(after.disk.files, ENV_FILE) == Some("A=1\nB=2\n")
  {
    hide AfterCall, Finished, Edit;
    var w := Start(map[]);
    DiedBetween();
    EditsOfTwo();
    EndsWithLast(w);
    EndsWithLast(AfterCall(w, CallTwice(), CALM, 3));
  }

  // A call that is granted the allocation writes what the last mapping makes of the file.
  lemma EndsWithLast(w: World)
    requires REQUEST in w.central && w.central[REQUEST] == ALLOCATION
    requires Lookup(w, REQUEST).Some? ==> w.workflows[REQUEST] == BaseRecord("h", ALLOCATION, false)
    requires AllPlannable(w.disk.files, TWICE, PORTS)
    ensures var after := Finished(w, CallTwice(), CALM);
      && IsApplied(after, REQUEST)
      && ReadFile(after.disk.files, ENV_FILE) == Edit(ReadFile(w.disk.files, ENV_FILE), MAPPING_B, PORTS)
  {
    hide Exec, Build, Edit, Workflow.Run, Finished, Written;
    PlannedEdits(w.disk.files, TWICE, PORTS);
    RetryPlans(w, REQUEST, "h", TWICE, CALM);
    assert IsLast(TWICE, 1);
    WrittenByLast(w.disk, "a", TWICE, PORTS, 1);
  }

  /* A file whose newlines the first attempt turns. */

  function CallOnce(): Call {
    DotenvCall(REQUEST, "h", [MAPPING_B])
  }

  lemma EditTurns()
    ensures var files: Files := map[ENV_FILE := "A=1\r"];
      && Edit(ReadFile(files, ENV_FILE), MAPPING_B, PORTS) == Some("A=1\r\nB=2\n")
      && !KeepsNewline(files, MAPPING_B, PORTS)
  {
    hide Dot.Update, Resolve, DotenvText.TurnsCRLF, DotenvTurned.Composes;
    Resolved();
    DotenvTurned.FinalCRExample();
    assert ReadFile(map[ENV_FILE := "A=1\r"], ENV_FILE) == Some("A=1\r");
  }

  // The first attempt wrote everything and died before saying so; the retry rewrites it.
  lemma RetryRewritesTurnedFile()
    ensures var w, c := Start(map[ENV_FILE := "A=1\r"]), CallOnce();
      && !IsApplied(w, REQUEST) && IsApplied(Finished(w, c, CALM), REQUEST)
      && Workflow.Run(w, c, CALM).1 != []
      && var died := AfterCall(w, c, CALM, |Workflow.Run(w, c, CALM).1| - 1);
         && died.disk.files == Finished(w, c, CALM).disk.files
         && !(IsApplied(Finished(died, c, CALM), REQUEST) && Finished(died, c, CALM).disk.files == died.disk.files)
  {
    hide Edit, Build, Workflow.Run, Finished, AfterCall, KeepsNewline, Written;
    var w, c, fs := Start(map[ENV_FILE := "A=1\r"]), CallOnce(), [MAPPING_B];
    Resolved();
    EditTurns();
    PlannedEdits(w.disk.files, fs, PORTS);
    RetryPlans(w, REQUEST, "h", fs, CALM);
    DiedBeforeApplied(w, c, CALM);
    RetryConvergesIff(w, REQUEST, "h", fs, CALM, CALM);
    assert IsLast(fs, 0);
  }

  /* A plan that cannot be made. */

  // A variable for a port that Central's answer does not name.
  function CallUnnamed(): Call {
    DotenvCall(REQUEST, "h", [DotenvFile(ENV_FILE, [("A", "z")])])
  }

  // The planner's exception leaves the call with its new allocation active and a record
  // that says ALLOCATED.
  lemma RaisedLeavesAllocation()
    ensures var w := World(map[], map[], Disk(map[], map[], map[]));
      var after := Finished(w, CallUnnamed(), CALM);
      && AllLinked(w) && Workflow.Run(w, CallUnnamed(), CALM).0 == Raised
      && REQUEST in after.central && after.central[REQUEST].active
      && Lookup(after, REQUEST).Some? && after.workflows[REQUEST].status == ALLOCATED
  {
    hide Exec, Unfold, Dot.Update, Decimal.Print;
    var w := World(map[], map[], Disk(map[], map[], map[]));
    var files: Files := map[];
    var f := DotenvFile(ENV_FILE, [("A", "z")]);
    assert Resolve(f.values, PORTS) == None;
    assert [f][..0] == [] && [f][0] == f;
    assert Build(files, [f], PORTS) == PlanRaised;
    WorkflowReplay.RecordTellsOutcome(w, CallUnnamed(), CALM);
    WorkflowReplay.LeavesAllocationIff(w, CallUnnamed(), CALM);
  }
}
