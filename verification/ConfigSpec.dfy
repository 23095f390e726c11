// What each config command answers and leaves behind, told from the disk it finds.
module ConfigSpec {
  import opened Wrappers
  import opened ConfigFiles
  import opened ConfigManager
  import opened ConfigSafety

  /* Backup names. */

  // Every slash or backslash of a path becomes two underscores; the rest stays.
  lemma {:induction false} BackupNameOf(a: Path, b: Path)
    ensures SafeBackupName(a + b) == SafeBackupName(a) + SafeBackupName(b)
    ensures SafeBackupName("") == ""
    ensures |a| == 1 ==> SafeBackupName(a) == if a == "/" || a == "\\" then "__" else a
  {
    if a == "" {
      assert a + b == b;
    } else {
      assert (a + b)[1..] == a[1..] + b;
      BackupNameOf(a[1..], b);
    }
  }

  /* What a file holds. */

  // None is a missing file.
  ghost predicate Holds(files: Files, path: Path, digest: Option<Digest>) {
    match digest
    case None => path !in files
    case Some(d) => path in files && d == Sha256(files[path])
  }

  ghost predicate FirstOther(files: Files, path: Path, entries: seq<FileEntry>, k: nat, applied: bool) {
    && k < |entries| && entries[k].path == path
    && !Holds(files, path, if applied then entries[k].after else entries[k].before)
    && forall j :: 0 <= j < k ==>
         Holds(files, entries[j].path, if applied then entries[j].after else entries[j].before)
  }

  ghost predicate FirstDiffers(files: Files, path: Path, entries: seq<FileEntry>, applied: bool) {
    exists k: nat :: FirstOther(files, path, entries, k, applied)
  }

  lemma DiffersAt(files: Files, path: Path, entries: seq<FileEntry>, k: nat, applied: bool)
    requires FirstOther(files, path, entries, k, applied)
    ensures FirstDiffers(files, path, entries, applied)
  {
  }

  ghost predicate AllHold(files: Files, entries: seq<FileEntry>, applied: bool) {
    forall k :: 0 <= k < |entries| ==>
      Holds(files, entries[k].path, if applied then entries[k].after else entries[k].before)
  }

  lemma HoldsIff(files: Files, path: Path, digest: Option<Digest>)
    ensures Holds(files, path, digest) <==> DigestOf(files, path) == digest
  {
  }

  lemma {:induction false} FirstChangedIs(files: Files, entries: seq<FileEntry>)
    ensures match FirstChanged(files, entries)
      case None => AllHold(files, entries, false)
      case Some(path) => FirstDiffers(files, path, entries, false)
  {
    if entries != [] {
      FirstChangedIs(files, entries[1..]);
      HoldsIff(files, entries[0].path, entries[0].before);
      var found := FirstChanged(files, entries);
      if !Holds(files, entries[0].path, entries[0].before) {
        DiffersAt(files, found.value, entries, 0, false);
      } else {
        OneFurther(files, entries, false);
      }
    }
  }

  lemma {:induction false} FirstEditedIs(files: Files, entries: seq<FileEntry>)
    ensures match FirstEdited(files, entries)
      case None => AllHold(files, entries, true)
      case Some(path) => FirstDiffers(files, path, entries, true)
  {
    if entries != [] {
      FirstEditedIs(files, entries[1..]);
      HoldsIff(files, entries[0].path, entries[0].after);
      var found := FirstEdited(files, entries);
      if !Holds(files, entries[0].path, entries[0].after) {
        DiffersAt(files, found.value, entries, 0, true);
      } else {
        OneFurther(files, entries, true);
      }
    }
  }

  lemma OneFurther(files: Files, entries: seq<FileEntry>, applied: bool)
    requires entries != []
    requires Holds(files, entries[0].path, if applied then entries[0].after else entries[0].before)
    ensures AllHold(files, entries[1..], applied) ==> AllHold(files, entries, applied)
    ensures forall path :: FirstDiffers(files, path, entries[1..], applied) ==>
      FirstDiffers(files, path, entries, applied)
  {
    hide Holds;
    assert entries == [entries[0]] + entries[1..];
    forall path | FirstDiffers(files, path, entries[1..], applied) ensures FirstDiffers(files, path, entries, applied) {
      var k: nat :| FirstOther(files, path, entries[1..], k, applied);
      assert FirstOther(files, path, entries, k + 1, applied);
    }
  }

  /* Answers. */

  // What an apply answers.
  ghost predicate ApplyAnswers(d: Disk, id: MutationId, fault: Fault, o: Outcome) {
    if id !in d.records then o == MutationNotFound
    else if d.records[id].status == Applied then o == AlreadyDone
    else
      var entries := d.records[id].files;
      if !AllHold(d.files, entries, false) then
        exists path :: FirstDiffers(d.files, path, entries, false) && o == ChangedSincePlan(path)
      else match fault
        case WriteFails(at) => o == if at < |entries| then ApplyFailed else Done
        case ReadBackFails(at) => o == if at < |entries| then ValidationFailed(entries[at].path) else Done
        case NoFault => o == Done
  }

  lemma ApplyAnswer(d: Disk, id: MutationId, fault: Fault)
    ensures ApplyAnswers(d, id, fault, Apply(d, id, fault).0)
  {
    hide AllHold, FirstDiffers, BackupWrites;
    if id in d.records {
      FirstChangedIs(d.files, d.records[id].files);
      OthersExclude(d.files, d.records[id].files, false);
    }
  }

  lemma OthersExclude(files: Files, entries: seq<FileEntry>, applied: bool)
    ensures AllHold(files, entries, applied) ==> forall path :: !FirstDiffers(files, path, entries, applied)
  {
    hide Holds;
  }

  // What a rollback answers.
  ghost predicate RollbackAnswers(d: Disk, id: MutationId, o: Outcome) {
    if id !in d.records then o == MutationNotFound
    else match d.records[id].status
      case RolledBack => o == AlreadyDone
      case Planned => o == NotApplied
      case Applied =>
        var entries := d.records[id].files;
        if AllHold(d.files, entries, true) then o == Done
        else exists path :: FirstDiffers(d.files, path, entries, true) && o == ChangedSinceApply(path)
  }

  lemma RollbackAnswer(d: Disk, id: MutationId)
    ensures RollbackAnswers(d, id, Rollback(d, id).0)
  {
    hide AllHold, FirstDiffers, UndoWrites;
    if id in d.records {
      FirstEditedIs(d.files, d.records[id].files);
      OthersExclude(d.files, d.records[id].files, true);
    }
  }

  /* Effects. */

  // The record of a finished apply: as planned, with the digest of what each file holds now.
  ghost predicate Stamps(r: Record, s: Record) {
    && s.allocationId == r.allocationId && s.status == Applied && |s.files| == |r.files|
    && forall k :: 0 <= k < |r.files| ==>
         && s.files[k].path == r.files[k].path && s.files[k].kind == r.files[k].kind
         && s.files[k].before == r.files[k].before && s.files[k].content == r.files[k].content
         && s.files[k].after == Some(Sha256(r.files[k].content))
  }

  ghost predicate LastFor(entries: seq<FileEntry>, k: nat, p: Path) {
    k < |entries| && entries[k].path == p && forall j :: k < j < |entries| ==> entries[j].path != p
  }

  // Each planned file holds its content, that of the last entry if it has several, and no
  // other file changes.
  ghost predicate Applies(d: Disk, id: MutationId, after: Disk)
    requires id in d.records
  {
    var entries := d.records[id].files;
    && id in after.records && Stamps(d.records[id], after.records[id])
    && after.records - {id} == d.records - {id}
    && (forall p, k: nat :: LastFor(entries, k, p) ==> p in after.files && after.files[p] == entries[k].content)
    && (forall p :: (forall k :: 0 <= k < |entries| ==> entries[k].path != p) ==>
          (p in after.files <==> p in d.files) && (p in d.files ==> after.files[p] == d.files[p]))
  }

  lemma AppliedFiles(d: Disk, id: MutationId, fault: Fault)
    requires Attempted(d, id) && Apply(d, id, fault).0 == Done
    ensures var after := Exec(d, Apply(d, id, fault).1);
      && after.records == d.records[id := Completed(d.records[id])]
      && after.files == Exec(d, TargetWrites(d.records[id].files)).files
  {
    var entries := d.records[id].files;
    var saved, targets := BackupWrites(d.files, id, entries), TargetWrites(entries);
    assert entries[..|entries|] == entries;
    ExecSnoc(d, saved + targets, SaveRecord(id, Completed(d.records[id])));
    ExecConcat(d, saved, targets);
    BackupsLeaveFiles(d, id, entries);
    RecordsAfter(Exec(d, saved), targets);
    SameTargets(d, Exec(d, saved), entries);
  }

  // Target writes depend on the files alone.
  lemma {:induction false} SameTargets(d: Disk, d': Disk, entries: seq<FileEntry>)
    requires d.files == d'.files
    ensures Exec(d, TargetWrites(entries)).files == Exec(d', TargetWrites(entries)).files
  {
    if entries != [] {
      var init := entries[..|entries| - 1];
      SameTargets(d, d', init);
      var w := Target(entries[|entries| - 1].path, Some(entries[|entries| - 1].content));
      assert TargetWrites(entries) == TargetWrites(init) + [w];
      ExecSnoc(d, TargetWrites(init), w);
      ExecSnoc(d', TargetWrites(init), w);
    }
  }

  lemma AppliedEffect(d: Disk, id: MutationId, fault: Fault)
    requires Apply(d, id, fault).0 == Done
    ensures Applies(d, id, Exec(d, Apply(d, id, fault).1))
  {
    hide Exec, Apply, TargetWrites, BackupWrites;
    DoneMeansAttempted(d, id, fault);
    AppliedFiles(d, id, fault);
    var entries := d.records[id].files;
    var now := Exec(d, TargetWrites(entries));
    StampsCompleted(d.records[id]);
    forall p, k: nat | LastFor(entries, k, p) ensures p in now.files && now.files[p] == entries[k].content {
      LastTarget(d, entries, k, p);
    }
    forall p | forall k :: 0 <= k < |entries| ==> entries[k].path != p
      ensures (p in now.files <==> p in d.files) && (p in d.files ==> now.files[p] == d.files[p])
    {
      NoTarget(d, entries, p);
    }
  }

  lemma DoneMeansAttempted(d: Disk, id: MutationId, fault: Fault)
    requires Apply(d, id, fault).0 == Done
    ensures Attempted(d, id)
  {
    hide BackupWrites;
  }

  lemma StampsCompleted(r: Record)
    ensures Stamps(r, Completed(r))
  {
  }

  lemma LastTarget(d: Disk, entries: seq<FileEntry>, k: nat, p: Path)
    requires LastFor(entries, k, p)
    ensures ReadFile(Exec(d, TargetWrites(entries)).files, p) == Some(entries[k].content)
  {
    hide Exec;
    LastWriteWins(d, TargetWrites(entries), p, k);
  }

  lemma NoTarget(d: Disk, entries: seq<FileEntry>, p: Path)
    requires forall k :: 0 <= k < |entries| ==> entries[k].path != p
    ensures ReadFile(Exec(d, TargetWrites(entries)).files, p) == ReadFile(d.files, p)
  {
    hide Exec;
    FileAfter(d, TargetWrites(entries), p);
  }

  // Each file of the mutation is what its backup holds, or gone without one; no other file
  // changes, and the record says ROLLED_BACK.
  ghost predicate RollsBack(d: Disk, id: MutationId, after: Disk)
    requires id in d.records
  {
    var entries := d.records[id].files;
    && after.backups == d.backups
    && after.records == d.records[id := d.records[id].(status := RolledBack)]
    && (forall k :: 0 <= k < |entries| ==>
          var p, key := entries[k].path, (id, SafeBackupName(entries[k].path));
          (p in after.files <==> key in d.backups) && (key in d.backups ==> after.files[p] == d.backups[key]))
    && (forall p :: (forall k :: 0 <= k < |entries| ==> entries[k].path != p) ==>
          (p in after.files <==> p in d.files) && (p in d.files ==> after.files[p] == d.files[p]))
  }

  lemma RolledBackEffect(d: Disk, id: MutationId)
    requires Rollback(d, id).0 == Done
    ensures RollsBack(d, id, Exec(d, Rollback(d, id).1))
  {
    hide Exec, Touches, WritesTo, SafeBackupName;
    var entries, undo := d.records[id].files, UndoWrites(d, id, d.records[id].files);
    var now := Exec(d, undo);
    ExecSnoc(d, undo, SaveRecord(id, d.records[id].(status := RolledBack)));
    RecordsAfter(d, undo);
    BackupsAfterTargets(d, undo);
    forall k | 0 <= k < |entries|
      ensures ReadFile(now.files, entries[k].path) == ReadBackup(d, id, entries[k].path)
    {
      UndoneIs(d, id, entries[k].path);
    }
    forall p | forall k :: 0 <= k < |entries| ==> entries[k].path != p
      ensures ReadFile(now.files, p) == ReadFile(d.files, p)
    {
      UndoneIs(d, id, p);
    }
    UndoneFiles(d, id, now.files);
  }

  lemma UndoneFiles(d: Disk, id: MutationId, now: Files)
    requires id in d.records
    requires var entries := d.records[id].files;
      && (forall k :: 0 <= k < |entries| ==> ReadFile(now, entries[k].path) == ReadBackup(d, id, entries[k].path))
      && (forall p :: (forall k :: 0 <= k < |entries| ==> entries[k].path != p) ==>
            ReadFile(now, p) == ReadFile(d.files, p))
    ensures RollsBack(d, id, Disk(now, d.backups, d.records[id := d.records[id].(status := RolledBack)]))
  {
    hide SafeBackupName;
    var entries := d.records[id].files;
    forall k | 0 <= k < |entries|
      ensures var p, key := entries[k].path, (id, SafeBackupName(entries[k].path));
        (p in now <==> key in d.backups) && (key in d.backups ==> now[p] == d.backups[key])
    {
      assert ReadFile(now, entries[k].path) == ReadBackup(d, id, entries[k].path);
    }
    forall p | forall k :: 0 <= k < |entries| ==> entries[k].path != p
      ensures (p in now <==> p in d.files) && (p in d.files ==> now[p] == d.files[p])
    {
      assert ReadFile(now, p) == ReadFile(d.files, p);
    }
  }

  ghost predicate UndoneFile(d: Disk, id: MutationId, now: Files, p: Path)
    requires id in d.records
  {
    var entries := d.records[id].files;
    if exists k :: 0 <= k < |entries| && entries[k].path == p then ReadFile(now, p) == ReadBackup(d, id, p)
    else ReadFile(now, p) == ReadFile(d.files, p)
  }

  lemma UndoneIs(d: Disk, id: MutationId, p: Path)
    requires id in d.records
    ensures UndoneFile(d, id, Exec(d, UndoWrites(d, id, d.records[id].files)).files, p)
  {
    hide Exec, SafeBackupName, ReadBackup;
    var entries := d.records[id].files;
    var ws := UndoWrites(d, id, entries);
    FileAfter(d, ws, p);
    if k :| 0 <= k < |entries| && entries[k].path == p {
      assert ws[k].Target? && ws[k].path == p;
      assert Touches(ws, p);
    }
  }

  /* A plan carried out. */

  // The record of a plan that was applied.
  ghost predicate CarriedOut(files: Files, allocationId: string, plan: seq<PlannedFile>, r: Record) {
    exists planned :: Plans(files, allocationId, plan, planned) && Stamps(planned, r)
  }

  // Each planned file holds its planned content, the last one if it is planned several
  // times, and every other file what it held.
  ghost predicate Holding(before: Files, plan: seq<PlannedFile>, now: Files) {
    && (forall k :: 0 <= k < |plan| && (forall j :: k < j < |plan| ==> plan[j].path != plan[k].path) ==>
          plan[k].path in now && now[plan[k].path] == plan[k].content)
    && (forall p :: (forall k :: 0 <= k < |plan| ==> plan[k].path != p) ==>
          (p in now <==> p in before) && (p in before ==> now[p] == before[p]))
  }

  lemma PlanIsPlanned(files: Files, allocationId: string, plan: seq<PlannedFile>)
    ensures Plans(files, allocationId, plan, PlanRecord(files, allocationId, plan))
  {
  }

  lemma PlanCarriedOut(d: Disk, allocationId: string, plan: seq<PlannedFile>)
    ensures var planned := PlanRecord(d.files, allocationId, plan);
      && CarriedOut(d.files, allocationId, plan, Completed(planned))
      && Holding(d.files, plan, Exec(d, TargetWrites(planned.files)).files)
  {
    hide Exec, TargetWrites, Stamps, Plans, PlanRecord, Completed, Holding;
    var planned := PlanRecord(d.files, allocationId, plan);
    PlanIsPlanned(d.files, allocationId, plan);
    StampsCompleted(planned);
    PlanHeld(d, allocationId, plan, planned);
  }

  lemma PlanHeld(d: Disk, allocationId: string, plan: seq<PlannedFile>, planned: Record)
    requires Plans(d.files, allocationId, plan, planned)
    ensures Holding(d.files, plan, Exec(d, TargetWrites(planned.files)).files)
  {
    hide Exec, TargetWrites, Holding, ReadFile;
    var now := Exec(d, TargetWrites(planned.files)).files;
    forall k | 0 <= k < |plan| && forall j :: k < j < |plan| ==> plan[j].path != plan[k].path
      ensures ReadFile(now, plan[k].path) == Some(plan[k].content)
    {
      LastPlanned(d, allocationId, plan, planned, k);
    }
    forall p | forall k :: 0 <= k < |plan| ==> plan[k].path != p
      ensures ReadFile(now, p) == ReadFile(d.files, p)
    {
      NotPlanned(d, allocationId, plan, planned, p);
    }
    HeldFiles(d.files, plan, now);
  }

  lemma LastPlanned(d: Disk, allocationId: string, plan: seq<PlannedFile>, planned: Record, k: nat)
    requires Plans(d.files, allocationId, plan, planned)
    requires k < |plan| && forall j :: k < j < |plan| ==> plan[j].path != plan[k].path
    ensures ReadFile(Exec(d, TargetWrites(planned.files)).files, plan[k].path) == Some(plan[k].content)
  {
    hide Exec, TargetWrites, ReadFile;
    assert forall j :: k < j < |plan| ==> planned.files[j].path == plan[j].path;
    LastTarget(d, planned.files, k, plan[k].path);
  }

  lemma NotPlanned(d: Disk, allocationId: string, plan: seq<PlannedFile>, planned: Record, p: Path)
    requires Plans(d.files, allocationId, plan, planned) && forall k :: 0 <= k < |plan| ==> plan[k].path != p
    ensures ReadFile(Exec(d, TargetWrites(planned.files)).files, p) == ReadFile(d.files, p)
  {
    hide Exec, TargetWrites, ReadFile;
    assert forall j :: 0 <= j < |plan| ==> planned.files[j].path == plan[j].path;
    NoTarget(d, planned.files, p);
  }

  lemma HeldFiles(before: Files, plan: seq<PlannedFile>, now: Files)
    requires forall k :: 0 <= k < |plan| && (forall j :: k < j < |plan| ==> plan[j].path != plan[k].path) ==>
      ReadFile(now, plan[k].path) == Some(plan[k].content)
    requires forall p :: (forall k :: 0 <= k < |plan| ==> plan[k].path != p) ==> ReadFile(now, p) == ReadFile(before, p)
    ensures Holding(before, plan, now)
  {
    forall k | 0 <= k < |plan| && forall j :: k < j < |plan| ==> plan[j].path != plan[k].path
      ensures plan[k].path in now && now[plan[k].path] == plan[k].content
    {
      assert ReadFile(now, plan[k].path) == Some(plan[k].content);
    }
    forall p | forall k :: 0 <= k < |plan| ==> plan[k].path != p
      ensures (p in now <==> p in before) && (p in before ==> now[p] == before[p])
    {
      assert ReadFile(now, p) == ReadFile(before, p);
    }
  }
}
