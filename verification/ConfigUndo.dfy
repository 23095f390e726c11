// Exactly when rolling back undoes an apply, for one mutation and for a stack of
// overlapping ones.
module ConfigUndo {
  import opened Wrappers
  import opened ConfigFiles
  import opened ConfigManager
  import opened ConfigSafety
  import opened ConfigRuns

  ghost predicate SamePathSameContent(entries: seq<FileEntry>) {
    forall i, j :: 0 <= i < j < |entries| && entries[i].path == entries[j].path ==>
        entries[i].content == entries[j].content
  }

  // Checkable on the plan alone: a file planned twice is planned alike, and files whose
  // backups share a name had equal originals.
  ghost predicate Reversible(entries: seq<FileEntry>) {
    SamePathSameContent(entries) && BackupNamesAgree(entries)
  }

  function Applied(d: Disk, id: MutationId): Disk {
    Exec(d, Apply(d, id, NoFault).1)
  }

  function RolledBack(d: Disk, id: MutationId): Disk {
    Exec(d, Rollback(d, id).1)
  }

  ghost predicate Listed(entries: seq<FileEntry>, p: Path) {
    exists k :: 0 <= k < |entries| && entries[k].path == p
  }

  lemma AppliedState(d: Disk, id: MutationId)
    requires Consistent(d) && Apply(d, id, NoFault).0 == Done
    ensures Attempted(d, id) && Consistent(Applied(d, id))
    ensures Applied(d, id).records == d.records[id := Completed(d.records[id])]
  {
    AppliedConsistent(d, id);
    AppliedRecords(d, id);
  }

  lemma AppliedConsistent(d: Disk, id: MutationId)
    requires Consistent(d)
    ensures Consistent(Applied(d, id))
  {
    var ws := Apply(d, id, NoFault).1;
    StepKeepsConsistent(d, ApplyEvent(id, NoFault, |ws|));
  }

  lemma AppliedRecords(d: Disk, id: MutationId)
    requires Apply(d, id, NoFault).0 == Done
    ensures Attempted(d, id)
    ensures Applied(d, id).records == d.records[id := Completed(d.records[id])]
  {
    var guarded := Apply(d, id, NoFault).1;
    var last := SaveRecord(id, Completed(d.records[id]));
    ApplyJournal(d, id, NoFault);
    assert guarded[|guarded| - 1] == last;
    RecordsAfter(d, guarded[..|guarded| - 1]);
  }

  // A listed file ends with some content planned for it; every other file is untouched.
  lemma AppliedFile(d: Disk, id: MutationId, p: Path)
    requires Apply(d, id, NoFault).0 == Done
    ensures if Listed(d.records[id].files, p)
      then PlannedFor(d.records[id].files, p, ReadFile(Applied(d, id).files, p))
      else ReadFile(Applied(d, id).files, p) == ReadFile(d.files, p)
  {
    var entries := d.records[id].files;
    var saved, targets := BackupWrites(d.files, id, entries), TargetWrites(entries);
    var mid := Exec(d, saved);
    assert entries[..|entries|] == entries;
    ExecSnoc(d, saved + targets, SaveRecord(id, Completed(d.records[id])));
    ExecConcat(d, saved, targets);
    BackupsLeaveFiles(d, id, entries);
    FileAfter(mid, targets, p);
    if Listed(entries, p) {
      var k :| 0 <= k < |entries| && entries[k].path == p;
      assert targets[k].path == p;
      assert Touches(targets, p);
    }
  }

  lemma AppliedContents(d: Disk, id: MutationId)
    requires Apply(d, id, NoFault).0 == Done
    ensures SamePathSameContent(d.records[id].files) <==>
            forall k :: 0 <= k < |d.records[id].files| ==>
              ReadFile(Applied(d, id).files, d.records[id].files[k].path) == Some(d.records[id].files[k].content)
  {
    var entries := d.records[id].files;
    if SamePathSameContent(entries) {
      forall k | 0 <= k < |entries|
        ensures ReadFile(Applied(d, id).files, entries[k].path) == Some(entries[k].content)
      {
        AppliedFile(d, id, entries[k].path);
      }
    }
  }

  lemma RollbackGuard(d: Disk, id: MutationId)
    requires Consistent(d) && Apply(d, id, NoFault).0 == Done
    ensures Rollback(Applied(d, id), id).0 == Done <==> SamePathSameContent(d.records[id].files)
  {
    hide Apply, Applied, Consistent, SamePathSameContent;
    AppliedState(d, id);
    AppliedContents(d, id);
    var now, stamped := Applied(d, id).files, Stamped(d.records[id].files);
    UneditedIff(now, stamped);
    assert forall k :: 0 <= k < |stamped| ==>
      (DigestOf(now, stamped[k].path) == stamped[k].after <==>
          ReadFile(now, d.records[id].files[k].path) == Some(d.records[id].files[k].content));
  }

  // After a rollback a listed file holds whatever its backup name leads to.
  lemma RolledBackFile(d: Disk, id: MutationId, p: Path)
    requires Rollback(d, id).0 == Done
    ensures ReadFile(RolledBack(d, id).files, p) ==
            if Listed(d.records[id].files, p) then ReadBackup(d, id, p) else ReadFile(d.files, p)
  {
    var entries := d.records[id].files;
    var undo := UndoWrites(d, id, entries);
    ExecSnoc(d, undo, SaveRecord(id, d.records[id].(status := ConfigManager.RolledBack)));
    FileAfter(d, undo, p);
    if Listed(entries, p) {
      var k :| 0 <= k < |entries| && entries[k].path == p;
      assert undo[k].path == p;
      assert Touches(undo, p);
    }
  }

  lemma BackupsExact(d: Disk, id: MutationId)
    requires Consistent(d) && Apply(d, id, NoFault).0 == Done
    ensures BackupNamesAgree(d.records[id].files) <==>
            forall p :: Listed(d.records[id].files, p) ==> ReadBackup(Applied(d, id), id, p) == ReadFile(d.files, p)
  {
    hide Applied, Apply;
    AppliedState(d, id);
    var d', entries := Applied(d, id), d.records[id].files;
    UnchangedIff(d.files, entries);
    if BackupNamesAgree(entries) {
      forall p | Listed(entries, p) ensures ReadBackup(d', id, p) == ReadFile(d.files, p) {
        var k :| 0 <= k < |entries| && entries[k].path == p;
        AgreeingPlans(d.records[id], d'.records[id]);
        BackupIsOriginal(d', id, k, ReadFile(d.files, p));
      }
    } else {
      var i, j :| 0 <= i < j < |entries| && SafeBackupName(entries[i].path) == SafeBackupName(entries[j].path) &&
                  entries[i].before != entries[j].before;
      assert Listed(entries, entries[i].path) && Listed(entries, entries[j].path);
      assert ReadBackup(d', id, entries[i].path) == ReadBackup(d', id, entries[j].path);
    }
  }

  // Rolling back right after an apply succeeds and restores every file, deleting the ones
  // apply created, if and only if the plan is reversible.
  lemma RollbackUndoesApply(d: Disk, id: MutationId)
    requires Consistent(d) && Apply(d, id, NoFault).0 == Done
    ensures Reversible(d.records[id].files) <==>
            Rollback(Applied(d, id), id).0 == Done && RolledBack(Applied(d, id), id).files == d.files
  {
    var d', entries := Applied(d, id), d.records[id].files;
    RollbackGuard(d, id);
    BackupsExact(d, id);
    AppliedState(d, id);
    if Rollback(d', id).0 == Done {
      var d'' := RolledBack(d', id);
      assert forall p :: Listed(entries, p) <==> Listed(d'.records[id].files, p) by {
        SameListing(entries, d'.records[id].files);
      }
      forall p
        ensures Listed(entries, p) ==> ReadFile(d''.files, p) == ReadBackup(d', id, p)
        ensures !Listed(entries, p) ==> ReadFile(d''.files, p) == ReadFile(d.files, p)
      {
        RolledBackFile(d', id, p);
        AppliedFile(d, id, p);
      }
      if Reversible(entries) {
        SameFiles(d''.files, d.files);
      }
    }
  }

  lemma SameListing(entries: seq<FileEntry>, others: seq<FileEntry>)
    requires |entries| == |others| && forall k :: 0 <= k < |entries| ==> entries[k].path == others[k].path
    ensures forall p :: Listed(entries, p) <==> Listed(others, p)
  {
    forall p ensures Listed(entries, p) <==> Listed(others, p) {
      if Listed(entries, p) {
        var k :| 0 <= k < |entries| && entries[k].path == p;
        assert others[k].path == p;
      }
      if Listed(others, p) {
        var k :| 0 <= k < |others| && others[k].path == p;
        assert entries[k].path == p;
      }
    }
  }

  /* The failing family is not empty. */

  lemma CollidingBackupNames()
    ensures SafeBackupName("a/b") == SafeBackupName("a__b")
  {
    assert SafeBackupName("b") == "b";
    assert SafeBackupName("/b") == "__b" && SafeBackupName("_b") == "_b";
    assert SafeBackupName("__b") == "__b";
  }

  function CollidingPlan(): Disk {
    Disk(map["a/b" := "1", "a__b" := "2"], map[], map["m" := PlanRecord(map["a/b" := "1", "a__b" := "2"], "allocation",
      [PlannedFile("a/b", Dotenv, "8"), PlannedFile("a__b", Dotenv, "9")])])
  }

  lemma CollidingPlanApplies()
    ensures Consistent(CollidingPlan()) && Apply(CollidingPlan(), "m", NoFault).0 == Done
  {
    var d := CollidingPlan();
    var entries := d.records["m"].files;
    UnchangedIff(d.files, entries);
    assert Apply(d, "m", NoFault).0 == Attempt(d.files, entries, NoFault).0;
  }

  lemma CollidingEntries()
    ensures "m" in CollidingPlan().records
    ensures SamePathSameContent(CollidingPlan().records["m"].files) && !Reversible(CollidingPlan().records["m"].files)
  {
    var entries := CollidingPlan().records["m"].files;
    assert entries[0].path == "a/b" && entries[1].path == "a__b" && entries[0].path[1] != entries[1].path[1];
    assert entries[0].before == Some(Sha256("1")) && entries[1].before == Some(Sha256("2")) && "1"[0] != "2"[0];
    CollidingBackupNames();
  }

  // A plan for "a/b" and "a__b" applies and rolls back without an error, and leaves both
  // files with one content, the original of one of them.
  lemma CollisionLosesContent()
    ensures Apply(CollidingPlan(), "m", NoFault).0 == Done
    ensures Rollback(Applied(CollidingPlan(), "m"), "m").0 == Done
    ensures var before, after := CollidingPlan().files, RolledBack(Applied(CollidingPlan(), "m"), "m").files;
      && ReadFile(before, "a/b") != ReadFile(before, "a__b")
      && ReadFile(after, "a/b") == ReadFile(after, "a__b")
      && ReadFile(after, "a/b") in {ReadFile(before, "a/b"), ReadFile(before, "a__b")}
  {
    hide CollidingPlan, Apply, Rollback, Applied, RolledBack, Consistent;
    CollidingPlanApplies();
    CollidingEntries();
    RollbackGuard(CollidingPlan(), "m");
    AppliedState(CollidingPlan(), "m");
    CollidingOriginals();
    CollidedFile("a/b");
    CollidedFile("a__b");
  }

  lemma CollidingOriginals()
    ensures ReadFile(CollidingPlan().files, "a/b") == Some("1")
    ensures ReadFile(CollidingPlan().files, "a__b") == Some("2")
    ensures Some("1") != Some("2")
  {
    assert "a/b"[1] != "a__b"[1] && "1"[0] != "2"[0];
  }

  lemma CollidedFile(p: Path)
    requires p in {"a/b", "a__b"} && Rollback(Applied(CollidingPlan(), "m"), "m").0 == Done
    ensures var d, d' := CollidingPlan(), Applied(CollidingPlan(), "m");
      && ReadFile(RolledBack(d', "m").files, p) == ReadBackup(d', "m", "a/b")
      && ReadBackup(d', "m", "a/b") in {Some("1"), Some("2")}
  {
    hide Apply, Rollback, Applied, RolledBack;
    var d, d' := CollidingPlan(), Applied(CollidingPlan(), "m");
    CollidingPlanApplies();
    AppliedState(d, "m");
    CollidingBackupNames();
    RolledBackFile(d', "m", p);
    assert d'.records["m"].files[0].path == "a/b" && d'.records["m"].files[1].path == "a__b";
    assert Listed(d'.records["m"].files, p);
    var key := ("m", SafeBackupName("a/b"));
    assert d'.records["m"].files[0].before.Some? && key in d'.backups by {
      AppliedFully(d, "m");
    }
    assert BackupFromPlan(d'.records["m"], key.1, d'.backups[key]);
  }

  lemma AppliedFully(d: Disk, id: MutationId)
    requires Consistent(d) && Apply(d, id, NoFault).0 == Done
    ensures id in Applied(d, id).records && FullyApplied(Applied(d, id), id, Applied(d, id).records[id])
  {
    hide Apply, Applied;
    AppliedState(d, id);
  }

  /* Doing things twice. */

  // Applying an applied mutation, and rolling back a rolled-back one, does nothing.
  lemma ApplyTwice(d: Disk, id: MutationId, fault: Fault)
    requires Apply(d, id, NoFault).0 == Done
    ensures Apply(Applied(d, id), id, fault) == (AlreadyDone, [])
  {
    hide Applied;
    AppliedRecords(d, id);
  }

  lemma RolledBackRecords(d: Disk, id: MutationId)
    requires Rollback(d, id).0 == Done
    ensures id in d.records
    ensures RolledBack(d, id).records == d.records[id := d.records[id].(status := ConfigManager.RolledBack)]
  {
    var undo := UndoWrites(d, id, d.records[id].files);
    ExecSnoc(d, undo, SaveRecord(id, d.records[id].(status := ConfigManager.RolledBack)));
    RecordsAfter(d, undo);
  }

  lemma RollbackTwice(d: Disk, id: MutationId)
    requires Rollback(d, id).0 == Done
    ensures Rollback(RolledBack(d, id), id) == (AlreadyDone, [])
  {
    hide RolledBack;
    RolledBackRecords(d, id);
  }

  ghost predicate SameRecord(r: Record, s: Record) {
    |r.files| == |s.files| && forall k :: 0 <= k < |r.files| ==> s.files[k].(after := r.files[k].after) == r.files[k]
  }

  // A rolled-back mutation can be applied again, and then leaves the files of the first
  // time, exactly if its plan is reversible.
  lemma ApplyAfterRollback(d: Disk, id: MutationId)
    requires Consistent(d) && Apply(d, id, NoFault).0 == Done
    ensures var undone := RolledBack(Applied(d, id), id);
      && (Reversible(d.records[id].files) <==> Apply(undone, id, NoFault).0 == Done)
      && (Reversible(d.records[id].files) ==> Applied(undone, id).files == Applied(d, id).files)
  {
    hide Applied, RolledBack, SamePathSameContent, BackupNamesAgree;
    var undone := RolledBack(Applied(d, id), id);
    RollbackUndoesApply(d, id);
    AppliedRecords(d, id);
    RollbackGuard(d, id);
    if Reversible(d.records[id].files) {
      RolledBackRecords(Applied(d, id), id);
      assert SameRecord(d.records[id], undone.records[id]);
      SameFilesSameApply(d, undone, id);
    } else if SamePathSameContent(d.records[id].files) {
      RolledBackRecords(Applied(d, id), id);
      BackupsExact(d, id);
      LostBackupRefused(d, id);
    } else {
      RefusedRollbackStays(Applied(d, id), id);
    }
  }

  lemma RefusedRollbackStays(d: Disk, id: MutationId)
    requires Rollback(d, id).0 != Done
    ensures RolledBack(d, id) == d
  {
  }

  lemma RefusedIfChanged(d: Disk, id: MutationId, k: nat)
    requires id in d.records && d.records[id].status != ConfigManager.Applied && k < |d.records[id].files|
    requires DigestOf(d.files, d.records[id].files[k].path) != d.records[id].files[k].before
    ensures Apply(d, id, NoFault).0 != Done
  {
    UnchangedIff(d.files, d.records[id].files);
  }

  // A file restored to something else than it held makes the next apply refuse.
  lemma LostBackupRefused(d: Disk, id: MutationId)
    requires Consistent(d) && Apply(d, id, NoFault).0 == Done && Rollback(Applied(d, id), id).0 == Done
    requires !BackupNamesAgree(d.records[id].files)
    ensures Apply(RolledBack(Applied(d, id), id), id, NoFault).0 != Done
  {
    hide Applied, RolledBack, BackupNamesAgree, Rollback, Consistent, ReadBackup, Apply;
    AppliedRecords(d, id);
    var d', entries := Applied(d, id), d.records[id].files;
    BackupsExact(d, id);
    RolledBackRecords(d', id);
    SameListing(entries, d'.records[id].files);
    var p :| Listed(entries, p) && ReadBackup(d', id, p) != ReadFile(d.files, p);
    RolledBackFile(d', id, p);
    var k :| 0 <= k < |entries| && entries[k].path == p;
    UnchangedIff(d.files, entries);
    var undone := RolledBack(d', id);
    assert undone.records[id].files[k].path == p && undone.records[id].files[k].before == entries[k].before;
    RefusedIfChanged(undone, id, k);
  }

  lemma SameFilesSameApply(d: Disk, e: Disk, id: MutationId)
    requires Apply(d, id, NoFault).0 == Done && Reversible(d.records[id].files)
    requires id in e.records && e.records[id].status != ConfigManager.Applied &&
        SameRecord(d.records[id], e.records[id])
    requires e.files == d.files
    ensures Apply(e, id, NoFault).0 == Done && Applied(e, id).files == Applied(d, id).files
  {
    var entries, again := d.records[id].files, e.records[id].files;
    UnchangedIff(d.files, entries);
    UnchangedIff(e.files, again);
    SameListing(entries, again);
    forall p ensures ReadFile(Applied(e, id).files, p) == ReadFile(Applied(d, id).files, p) {
      AppliedFile(d, id, p);
      AppliedFile(e, id, p);
      if Listed(entries, p) {
        OnePlan(entries, again, p, ReadFile(Applied(d, id).files, p), ReadFile(Applied(e, id).files, p));
      }
    }
    SameFiles(Applied(e, id).files, Applied(d, id).files);
  }

  lemma OnePlan(entries: seq<FileEntry>, again: seq<FileEntry>, p: Path, a: Option<Text>, b: Option<Text>)
    requires SamePathSameContent(entries) && |again| == |entries|
    requires forall k :: 0 <= k < |entries| ==> again[k].(after := entries[k].after) == entries[k]
    requires PlannedFor(entries, p, a) && PlannedFor(again, p, b)
    ensures a == b
  {
    var i :| 0 <= i < |entries| && entries[i].path == p && Some(entries[i].content) == a;
    var j :| 0 <= j < |again| && again[j].path == p && Some(again[j].content) == b;
    assert entries[j].path == p && entries[j].content == again[j].content;
  }

  /* Stacks of mutations over shared files. */

  datatype Mutation = Mutation(id: MutationId, allocationId: string, plan: seq<PlannedFile>)

  function Planned(d: Disk, m: Mutation): Disk {
    Step(d, PlanEvent(m.id, m.allocationId, m.plan))
  }

  function StackUp(d: Disk, ms: seq<Mutation>): Disk
    decreases ms
  {
    if ms == [] then d else StackUp(Applied(Planned(d, ms[0]), ms[0].id), ms[1..])
  }

  // Roll back the last one first.
  function Unwind(d: Disk, ms: seq<Mutation>): Disk {
    if ms == [] then d else RolledBack(Unwind(d, ms[1..]), ms[0].id)
  }

  ghost predicate AllRollBack(d: Disk, ms: seq<Mutation>) {
    ms != [] ==> AllRollBack(d, ms[1..]) && Rollback(Unwind(d, ms[1..]), ms[0].id).0 == Done
  }

  // Each mutation has a fresh id and a reversible plan, made on what the earlier ones left.
  ghost predicate Stackable(d: Disk, ms: seq<Mutation>)
    decreases ms
  {
    ms != [] ==>
      && ms[0].id !in d.records
      && Reversible(PlanRecord(d.files, ms[0].allocationId, ms[0].plan).files)
      && Stackable(Applied(Planned(d, ms[0]), ms[0].id), ms[1..])
  }

  // Nothing kept for mutation `id` differs between the two disks.
  ghost predicate Untouched(d: Disk, e: Disk, id: MutationId) {
    && (id in d.records <==> id in e.records)
    && (id in d.records ==> d.records[id] == e.records[id])
    && (forall name :: (id, name) in d.backups <==> (id, name) in e.backups)
    && (forall name :: (id, name) in d.backups ==> d.backups[(id, name)] == e.backups[(id, name)])
  }

  // With no edit in between, a fresh plan always applies.
  lemma FreshPlanApplies(d: Disk, m: Mutation)
    requires Consistent(d) && m.id !in d.records
    ensures Consistent(Planned(d, m)) && Planned(d, m).files == d.files && Planned(d, m).backups == d.backups
    ensures Planned(d, m).records == d.records[m.id := PlanRecord(d.files, m.allocationId, m.plan)]
    ensures Apply(Planned(d, m), m.id, NoFault).0 == Done
  {
    PlanPersisted(d, m.id, m.allocationId, m.plan);
    StepKeepsConsistent(d, PlanEvent(m.id, m.allocationId, m.plan));
    UnchangedIff(d.files, PlanRecord(d.files, m.allocationId, m.plan).files);
  }

  lemma ApplyFrame(d: Disk, id: MutationId, other: MutationId)
    requires Consistent(d) && Apply(d, id, NoFault).0 == Done && other != id
    ensures Untouched(d, Applied(d, id), other)
  {
    AppliedState(d, id);
    ApplyJournal(d, id, NoFault);
    var ws := Apply(d, id, NoFault).1;
    forall name
      ensures (other, name) in d.backups <==> (other, name) in Exec(d, ws).backups
      ensures (other, name) in d.backups ==> d.backups[(other, name)] == Exec(d, ws).backups[(other, name)]
    {
      BackupAfter(d, ws, other, name);
    }
  }

  lemma RollbackFrame(d: Disk, id: MutationId, other: MutationId)
    requires other != id
    ensures Untouched(d, RolledBack(d, id), other)
  {
    RollbackRecords(d, id, |Rollback(d, id).1|);
  }

  // Rolling back depends on the files and on what is kept for that mutation, nothing else.
  lemma RollbackSame(d: Disk, e: Disk, id: MutationId)
    requires Untouched(d, e, id) && d.files == e.files && Rollback(d, id).0 == Done
    ensures Rollback(e, id).0 == Done && RolledBack(e, id).files == RolledBack(d, id).files
  {
    forall p ensures ReadFile(RolledBack(e, id).files, p) == ReadFile(RolledBack(d, id).files, p) {
      RolledBackFile(d, id, p);
      RolledBackFile(e, id, p);
    }
    SameFiles(RolledBack(e, id).files, RolledBack(d, id).files);
  }

  // Each mutation has an id no record had before it.
  ghost predicate FreshStack(d: Disk, ms: seq<Mutation>)
    decreases ms
  {
    ms != [] ==> ms[0].id !in d.records && FreshStack(Applied(Planned(d, ms[0]), ms[0].id), ms[1..])
  }

  // Going up and down a stack touches nothing kept for the mutations below it.
  lemma {:induction false} StackFrame(d: Disk, ms: seq<Mutation>)
    requires Consistent(d) && FreshStack(d, ms)
    ensures forall id :: id in d.records ==> Untouched(d, Unwind(StackUp(d, ms), ms), id)
    decreases ms
  {
    hide Apply, Rollback, Reversible, RolledBack, Consistent;
    if ms != [] {
      var id, base := ms[0].id, Planned(d, ms[0]);
      FreshPlanApplies(d, ms[0]);
      AppliedState(base, id);
      StackFrame(Applied(base, id), ms[1..]);
      var top := Unwind(StackUp(Applied(base, id), ms[1..]), ms[1..]);
      forall other | other in d.records ensures Untouched(d, RolledBack(top, id), other) {
        ApplyFrame(base, id, other);
        RollbackFrame(top, id, other);
      }
    }
  }

  // A stack m1 .. mn, each planned on what the previous left, rolled back mn .. m1: every
  // rollback succeeds and the initial files are restored, exactly if every plan is reversible.
  lemma {:induction false} StackUndone(d: Disk, ms: seq<Mutation>)
    requires Consistent(d) && FreshStack(d, ms)
    ensures Stackable(d, ms) <==> AllRollBack(StackUp(d, ms), ms) && Unwind(StackUp(d, ms), ms).files == d.files
    ensures forall id :: id in d.records ==> Untouched(d, Unwind(StackUp(d, ms), ms), id)
    decreases ms
  {
    hide Apply, Rollback, Reversible, RolledBack, Applied, Consistent, Untouched;
    StackFrame(d, ms);
    if ms != [] {
      var id, base := ms[0].id, Planned(d, ms[0]);
      FreshPlanApplies(d, ms[0]);
      AppliedState(base, id);
      var d' := Applied(base, id);
      StackFrame(d', ms[1..]);
      StackUndone(d', ms[1..]);
      var top := Unwind(StackUp(d', ms[1..]), ms[1..]);
      assert Untouched(d', top, id);
      if Stackable(d, ms) {
        RollbackUndoesApply(base, id);
        RollbackSame(d', top, id);
      }
      if AllRollBack(StackUp(d, ms), ms) && Unwind(StackUp(d, ms), ms).files == d.files {
        BottomReversible(base, d', top, id);
      }
    }
  }

  // If what comes back at the bottom of the stack is right, so was what came down to it.
  lemma BottomReversible(base: Disk, d': Disk, top: Disk, id: MutationId)
    requires Consistent(base) && Apply(base, id, NoFault).0 == Done && d' == Applied(base, id)
    requires Untouched(d', top, id)
    requires Rollback(top, id).0 == Done && RolledBack(top, id).files == base.files
    ensures top.files == d'.files && Reversible(base.records[id].files)
  {
    hide Applied, RolledBack, Reversible, Consistent;
    AppliedState(base, id);
    GuardedContents(base, top, id);
    forall p ensures ReadFile(top.files, p) == ReadFile(d'.files, p) {
      AppliedFile(base, id, p);
      RolledBackFile(top, id, p);
      SameListing(base.records[id].files, top.records[id].files);
      if Listed(base.records[id].files, p) {
        OnePlan(base.records[id].files, base.records[id].files, p, ReadFile(top.files, p), ReadFile(d'.files, p));
      }
    }
    SameFiles(top.files, d'.files);
    UntouchedBack(d', top, id);
    RollbackSame(top, d', id);
    RollbackUndoesApply(base, id);
  }

  lemma UntouchedBack(d: Disk, e: Disk, id: MutationId)
    requires Untouched(d, e, id)
    ensures Untouched(e, d, id)
  {
  }

  // What the guard of the rollback has seen: each listed file holds its planned content.
  lemma GuardedContents(base: Disk, top: Disk, id: MutationId)
    requires Consistent(base) && Apply(base, id, NoFault).0 == Done
    requires Untouched(Applied(base, id), top, id) && Rollback(top, id).0 == Done
    ensures SamePathSameContent(base.records[id].files)
    ensures id in top.records && |top.records[id].files| == |base.records[id].files|
    ensures forall k :: 0 <= k < |base.records[id].files| ==>
      top.records[id].files[k].path == base.records[id].files[k].path
    ensures forall p :: Listed(base.records[id].files, p) ==>
        PlannedFor(base.records[id].files, p, ReadFile(top.files, p))
  {
    hide Applied, Consistent;
    AppliedState(base, id);
    var entries, stamped := base.records[id].files, top.records[id].files;
    UneditedIff(top.files, stamped);
    forall k | 0 <= k < |entries|
      ensures ReadFile(top.files, entries[k].path) == Some(entries[k].content)
    {
      assert stamped[k].path == entries[k].path && stamped[k].after == Some(Sha256(entries[k].content));
    }
  }

  // An apply is refused, with nothing written, exactly when some file no longer holds what
  // its plan read.
  lemma ApplyRefusedIff(d: Disk, id: MutationId, fault: Fault)
    requires id in d.records && d.records[id].status != ConfigManager.Applied
    ensures Apply(d, id, fault).0.ChangedSincePlan? <==>
            exists k :: 0 <= k < |d.records[id].files| &&
              DigestOf(d.files, d.records[id].files[k].path) != d.records[id].files[k].before
    ensures Apply(d, id, fault).0.ChangedSincePlan? ==> Apply(d, id, fault).1 == []
  {
    UnchangedIff(d.files, d.records[id].files);
  }

  // An applied mutation rolls back exactly when each of its files still holds what it
  // wrote; otherwise, say because a later mutation changed one, nothing is written.
  lemma RollbackRefusedIff(d: Disk, id: MutationId)
    requires Consistent(d) && id in d.records && d.records[id].status == ConfigManager.Applied
    ensures Rollback(d, id).0 == Done <==>
            forall k :: 0 <= k < |d.records[id].files| ==>
              ReadFile(d.files, d.records[id].files[k].path) == Some(d.records[id].files[k].content)
    ensures Rollback(d, id).0 != Done ==> Rollback(d, id).0.ChangedSinceApply? && RolledBack(d, id) == d
  {
    var entries := d.records[id].files;
    UneditedIff(d.files, entries);
    assert forall k :: 0 <= k < |entries| ==>
      (DigestOf(d.files, entries[k].path) == entries[k].after <==>
          ReadFile(d.files, entries[k].path) == Some(entries[k].content));
  }

  /* Rolling back at any point of a run. */

  lemma BackupsRead(d: Disk, id: MutationId, planned: Record, before: Files, k: nat)
    requires Consistent(d) && id in d.records && d.records[id].status == ConfigManager.Applied
    requires SamePlan(planned, d.records[id]) && k < |planned.files|
    requires planned.files[k].before == DigestOf(before, planned.files[k].path)
    requires BackupNamesAgree(planned.files)
    ensures ReadBackup(d, id, planned.files[k].path) == ReadFile(before, planned.files[k].path)
  {
    hide SafeBackupName, BackupFromPlan;
    AgreeingPlans(planned, d.records[id]);
    assert d.records[id].files[k].path == planned.files[k].path;
    BackupIsOriginal(d, id, k, ReadFile(before, planned.files[k].path));
  }

  lemma OriginalsAgree(d: Disk, id: MutationId, planned: Record, before: Files)
    requires forall k :: 0 <= k < |planned.files| ==>
      && planned.files[k].before == DigestOf(before, planned.files[k].path)
      && ReadBackup(d, id, planned.files[k].path) == ReadFile(before, planned.files[k].path)
    ensures BackupNamesAgree(planned.files)
  {
    hide SafeBackupName;
  }

  lemma RollbackOfPlan(d: Disk, id: MutationId, planned: Record, before: Files)
    requires Consistent(d) && Rollback(d, id).0 == Done && SamePlan(planned, d.records[id])
    requires forall k :: 0 <= k < |planned.files| ==> planned.files[k].before == DigestOf(before, planned.files[k].path)
    ensures BackupNamesAgree(planned.files) <==>
            forall k :: 0 <= k < |planned.files| ==>
              ReadFile(RolledBack(d, id).files, planned.files[k].path) == ReadFile(before, planned.files[k].path)
  {
    hide RolledBack, BackupNamesAgree, Consistent, ReadBackup;
    forall k | 0 <= k < |planned.files|
      ensures ReadFile(RolledBack(d, id).files, planned.files[k].path) == ReadBackup(d, id, planned.files[k].path)
    {
      RolledBackFile(d, id, planned.files[k].path);
      assert d.records[id].files[k].path == planned.files[k].path;
    }
    if BackupNamesAgree(planned.files) {
      forall k | 0 <= k < |planned.files|
        ensures ReadBackup(d, id, planned.files[k].path) == ReadFile(before, planned.files[k].path)
      {
        BackupsRead(d, id, planned, before, k);
      }
    }
    if forall k :: 0 <= k < |planned.files| ==>
        ReadFile(RolledBack(d, id).files, planned.files[k].path) == ReadFile(before, planned.files[k].path)
    {
      OriginalsAgree(d, id, planned, before);
    }
  }

  // Whatever happened in between, a rollback that runs to its end leaves every file of the
  // plan with what the plan read, exactly if files sharing a backup name were read alike.
  lemma RollbacksRestoreIff(files: Files, es: seq<Event>, j: nat, i: nat)
    requires j < i < |es| && es[j].PlanEvent? && es[j].id !in At(files, es, j).records
    requires es[i].RollbackEvent? && es[i].id == es[j].id
    requires Rollback(At(files, es, i), es[i].id).0 == Done
    requires |Rollback(At(files, es, i), es[i].id).1| <= es[i].survived
    ensures BackupNamesAgree(PlanRecord(At(files, es, j).files, es[j].allocationId, es[j].plan).files) <==>
            forall k :: 0 <= k < |es[j].plan| ==>
              ReadFile(At(files, es, i + 1).files, es[j].plan[k].path) ==
              ReadFile(At(files, es, j).files, es[j].plan[k].path)
  {
    hide Exec, Rollback, Run, BackupNamesAgree, Consistent;
    var planned := PlanRecord(At(files, es, j).files, es[j].allocationId, es[j].plan);
    PlanSeenLater(files, es, j, i);
    Next(files, es, i);
    RunConsistent(files, es[..i]);
    RollbackOfPlan(At(files, es, i), es[i].id, planned, At(files, es, j).files);
    assert forall k :: 0 <= k < |es[j].plan| ==> planned.files[k].path == es[j].plan[k].path;
  }
}
