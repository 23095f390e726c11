// Whether an apply or a rollback that died part-way can be finished by calling it again.
module ConfigResume {
  import opened Wrappers
  import opened ConfigFiles
  import opened ConfigManager
  import opened ConfigSafety
  import opened ConfigRuns
  import opened ConfigUndo

  /* Roll back. */

  function CutRollback(d: Disk, id: MutationId, n: nat): Disk
    requires n <= |Rollback(d, id).1|
  {
    Exec(d, Rollback(d, id).1[..n])
  }

  lemma RestoreJournal(d: Disk, id: MutationId)
    requires Rollback(d, id).0 == Done
    ensures id in d.records && |Rollback(d, id).1| == |d.records[id].files| + 1
    ensures forall k :: 0 <= k < |d.records[id].files| ==>
      Rollback(d, id).1[k] == Target(d.records[id].files[k].path, ReadBackup(d, id, d.records[id].files[k].path))
  {
  }

  // The first n files are restored, the others as the apply left them.
  lemma CutFile(d: Disk, id: MutationId, n: nat, p: Path)
    requires Rollback(d, id).0 == Done && n <= |d.records[id].files|
    ensures ReadFile(CutRollback(d, id, n).files, p) ==
            if Listed(d.records[id].files[..n], p) then ReadBackup(d, id, p) else ReadFile(d.files, p)
  {
    hide Rollback, Exec;
    RestoreJournal(d, id);
    var ws, entries := Rollback(d, id).1[..n], d.records[id].files;
    FileAfter(d, ws, p);
    if Listed(entries[..n], p) {
      var k :| 0 <= k < n && entries[..n][k].path == p;
      assert ws[k].path == p;
    }
    if Touches(ws, p) {
      var k :| 0 <= k < |ws| && ws[k].Target? && ws[k].path == p;
      assert entries[..n][k].path == p;
    }
  }

  lemma CutKeepsRecords(d: Disk, id: MutationId, n: nat)
    requires Consistent(d) && Rollback(d, id).0 == Done && n <= |d.records[id].files|
    ensures CutRollback(d, id, n).records == d.records && CutRollback(d, id, n).backups == d.backups
    ensures Consistent(CutRollback(d, id, n))
  {
    RestoreJournal(d, id);
    var ws := Rollback(d, id).1[..n];
    RecordsAfter(d, ws);
    BackupsAfterTargets(d, ws);
    StepKeepsConsistent(d, RollbackEvent(id, n));
  }

  // Finishing a rollback that died after n files: accepted exactly if each of the n held
  // before the apply what the apply wrote. Then it ends like one that never died; else it
  // is refused for good, with the rest of the files still as applied.
  lemma CutRollbackResumesIff(d: Disk, id: MutationId, n: nat)
    requires Consistent(d) && Rollback(d, id).0 == Done && n <= |d.records[id].files|
    ensures var cut, entries := CutRollback(d, id, n), d.records[id].files;
      && (Rollback(cut, id).0 == Done <==>
            forall k :: 0 <= k < n ==> ReadBackup(d, id, entries[k].path) == Some(entries[k].content))
      && (Rollback(cut, id).0 == Done ==> ConfigUndo.RolledBack(cut, id).files == ConfigUndo.RolledBack(d, id).files)
      && (Rollback(cut, id).0 != Done ==>
            Rollback(cut, id).0.ChangedSinceApply? && ConfigUndo.RolledBack(cut, id) == cut)
  {
    hide Rollback, ConfigUndo.RolledBack, CutRollback, Consistent, ReadBackup;
    AppliedStatus(d, id);
    RestoreJournal(d, id);
    var cut, entries := CutRollback(d, id, n), d.records[id].files;
    CutKeepsRecords(d, id, n);
    RollbackRefusedIff(d, id);
    RollbackRefusedIff(cut, id);
    forall k | 0 <= k < |entries| {
      CutFile(d, id, n, entries[k].path);
    }
    forall k | 0 <= k < n ensures Listed(entries[..n], entries[k].path) {
      assert entries[..n][k].path == entries[k].path;
    }
    if forall k :: 0 <= k < n ==> ReadBackup(d, id, entries[k].path) == Some(entries[k].content) {
      forall k | 0 <= k < |entries| ensures ReadFile(cut.files, entries[k].path) == Some(entries[k].content) {
        if Listed(entries[..n], entries[k].path) {
          var j :| 0 <= j < n && entries[..n][j].path == entries[k].path;
          assert ReadBackup(d, id, entries[j].path) == Some(entries[j].content);
        }
      }
    }
    if Rollback(cut, id).0 == Done {
      SameEnd(d, cut, id, n);
    }
  }

  lemma AppliedStatus(d: Disk, id: MutationId)
    requires Rollback(d, id).0 == Done
    ensures id in d.records && d.records[id].status == ConfigManager.Applied
  {
  }

  lemma SameEnd(d: Disk, cut: Disk, id: MutationId, n: nat)
    requires Rollback(d, id).0 == Done && Rollback(cut, id).0 == Done && n <= |d.records[id].files|
    requires cut == CutRollback(d, id, n) && cut.records == d.records && cut.backups == d.backups
    ensures ConfigUndo.RolledBack(cut, id).files == ConfigUndo.RolledBack(d, id).files
  {
    hide Rollback, ConfigUndo.RolledBack, CutRollback;
    AppliedStatus(d, id);
    forall p ensures ReadFile(ConfigUndo.RolledBack(cut, id).files, p) ==
        ReadFile(ConfigUndo.RolledBack(d, id).files, p)
    {
      RolledBackFile(d, id, p);
      RolledBackFile(cut, id, p);
      CutFile(d, id, n, p);
      if Listed(d.records[id].files[..n], p) {
        var k :| 0 <= k < n && d.records[id].files[..n][k].path == p;
        assert d.records[id].files[k].path == p;
      }
    }
    SameFiles(ConfigUndo.RolledBack(cut, id).files, ConfigUndo.RolledBack(d, id).files);
  }

  /* Apply. */

  // Of the first n writes of an apply that backs up b files: how many entries are written,
  // and how many of those are put back again because of a fault.
  function WrittenBy(entries: seq<FileEntry>, fault: Fault, b: nat, n: nat): (w: nat)
    ensures w <= Reached(entries, fault).0
  {
    if n <= b then 0 else if n - b <= Reached(entries, fault).0 then n - b else Reached(entries, fault).0
  }

  function PutBackBy(entries: seq<FileEntry>, fault: Fault, b: nat, n: nat): nat {
    if n <= b + Reached(entries, fault).0 then 0 else n - b - Reached(entries, fault).0
  }

  // The last of the first w entries for a file.
  ghost predicate LastOf(entries: seq<FileEntry>, w: nat, k: int) {
    && 0 <= k < w <= |entries|
    && forall j :: k < j < w ==> entries[j].path != entries[k].path
  }

  function Touched(files: Files, entries: seq<FileEntry>, w: nat, q: nat): seq<Write>
    requires w <= |entries| && q <= |entries|
  {
    TargetWrites(entries[..w]) + RestoreWrites(files, entries[..q])
  }

  // A cut of the journal is a cut of the backups, or all of them and some target writes.
  lemma CutJournal(d: Disk, id: MutationId, fault: Fault, n: nat)
    requires Attempted(d, id) && n <= |Apply(d, id, fault).1|
    requires n < |Apply(d, id, fault).1| || Apply(d, id, fault).0 != Done
    ensures var entries, ws := d.records[id].files, Apply(d, id, fault).1;
      var saved := BackupWrites(d.files, id, entries);
      var w, q := WrittenBy(entries, fault, |saved|, n), PutBackBy(entries, fault, |saved|, n);
      && q <= w
      && (n <= |saved| ==> ws[..n] == saved[..n])
      && (n > |saved| ==> ws[..n] == saved + Touched(d.files, entries, w, q))
  {
    hide BackupWrites, TargetWrites, RestoreWrites;
    var entries := d.records[id].files;
    var saved, r := BackupWrites(d.files, id, entries), Reached(entries, fault).0;
    var done := entries[..r];
    TargetsPrefix(done);
    RestoresPrefix(d.files, done);
    var w, q := WrittenBy(entries, fault, |saved|, n), PutBackBy(entries, fault, |saved|, n);
    assert done[..w] == entries[..w];
    if Apply(d, id, fault).0 == Done {
      assert Apply(d, id, fault).1[..n] == (saved + TargetWrites(done))[..n];
      assert RestoreWrites(d.files, entries[..0]) == [] by {
        NoRestores(d.files, entries);
      }
    } else {
      assert done[..q] == entries[..q];
    }
  }

  lemma NoRestores(files: Files, entries: seq<FileEntry>)
    ensures RestoreWrites(files, entries[..0]) == []
  {
  }

  lemma TargetsPrefix(done: seq<FileEntry>)
    ensures |TargetWrites(done)| == |done|
    ensures forall w :: 0 <= w <= |done| ==> TargetWrites(done)[..w] == TargetWrites(done[..w])
  {
  }

  lemma RestoresPrefix(files: Files, done: seq<FileEntry>)
    ensures |RestoreWrites(files, done)| == |done|
    ensures forall q :: 0 <= q <= |done| ==> RestoreWrites(files, done)[..q] == RestoreWrites(files, done[..q])
  {
  }

  // A file written and not put back holds the content of its last entry; any other is as before.
  lemma TouchedFile(d: Disk, entries: seq<FileEntry>, w: nat, q: nat, p: Path)
    requires q <= w <= |entries|
    ensures Exec(d, Touched(d.files, entries, w, q)).records == d.records
    ensures !Listed(entries[..w], p) || Listed(entries[..q], p) ==>
        ReadFile(Exec(d, Touched(d.files, entries, w, q)).files, p) == ReadFile(d.files, p)
    ensures !Listed(entries[..q], p) ==> forall k :: LastOf(entries, w, k) && entries[k].path == p ==>
        ReadFile(Exec(d, Touched(d.files, entries, w, q)).files, p) == Some(entries[k].content)
  {
    hide Exec;
    var targets, back := TargetWrites(entries[..w]), RestoreWrites(d.files, entries[..q]);
    ExecConcat(d, targets, back);
    RecordsAfter(d, targets);
    RecordsAfter(Exec(d, targets), back);
    FileAfter(d, targets, p);
    FileAfter(Exec(d, targets), back, p);
    if Listed(entries[..q], p) {
      var j :| 0 <= j < q && entries[..q][j].path == p;
      assert back[j].path == p;
      assert Touches(back, p);
    } else {
      NotTouchedUnlessListed(d.files, entries[..q], p);
      if !Listed(entries[..w], p) {
        NotTargetedUnlessListed(entries[..w], p);
      }
      forall k | LastOf(entries, w, k) && entries[k].path == p
        ensures ReadFile(Exec(d, targets).files, p) == Some(entries[k].content)
      {
        LastWriteWins(d, targets, p, k);
      }
    }
  }

  lemma NotTouchedUnlessListed(files: Files, entries: seq<FileEntry>, p: Path)
    requires !Listed(entries, p)
    ensures !Touches(RestoreWrites(files, entries), p)
  {
  }

  lemma NotTargetedUnlessListed(entries: seq<FileEntry>, p: Path)
    requires !Listed(entries, p)
    ensures !Touches(TargetWrites(entries), p)
  {
  }

  // Among the first n writes of the journal the file was written and not put back.
  ghost predicate LeftWritten(entries: seq<FileEntry>, w: nat, q: nat, k: int) {
    LastOf(entries, w, k) && !Listed(entries[..if q <= |entries| then q else |entries|], entries[k].path)
  }

  // A file left written holds what its last entry says; any other is as before.
  ghost predicate LeftAt(before: Files, now: Files, entries: seq<FileEntry>, w: nat, q: nat, p: Path) {
    && ((forall k :: LeftWritten(entries, w, q, k) ==> entries[k].path != p) ==>
          ReadFile(now, p) == ReadFile(before, p))
    && (forall k :: LeftWritten(entries, w, q, k) && entries[k].path == p ==>
          ReadFile(now, p) == Some(entries[k].content))
  }

  lemma CutFiles(d: Disk, id: MutationId, fault: Fault, n: nat, p: Path)
    requires Attempted(d, id) && n <= |Apply(d, id, fault).1|
    requires n < |Apply(d, id, fault).1| || Apply(d, id, fault).0 != Done
    ensures var cut, entries := Exec(d, Apply(d, id, fault).1[..n]), d.records[id].files;
      var b := |BackupWrites(d.files, id, entries)|;
      var w, q := WrittenBy(entries, fault, b, n), PutBackBy(entries, fault, b, n);
      cut.records == d.records && LeftAt(d.files, cut.files, entries, w, q, p)
  {
    hide Exec, Apply, BackupWrites, Touched;
    var entries := d.records[id].files;
    var saved := BackupWrites(d.files, id, entries);
    var w, q := WrittenBy(entries, fault, |saved|, n), PutBackBy(entries, fault, |saved|, n);
    CutJournal(d, id, fault, n);
    if n <= |saved| {
      OnlyBackups(d.files, id, entries);
      CutBackups(d, saved[..n], p);
    } else {
      ExecConcat(d, saved, Touched(d.files, entries, w, q));
      BackupsLeaveFiles(d, id, entries);
      TouchedFile(Exec(d, saved), entries, w, q, p);
      if Listed(entries[..w], p) && !Listed(entries[..q], p) {
        var k := FindLastOf(entries, w, p);
      }
    }
  }

  lemma CutBackups(d: Disk, ws: seq<Write>, p: Path)
    requires forall k :: 0 <= k < |ws| ==> ws[k].BackUp?
    ensures Exec(d, ws).records == d.records && ReadFile(Exec(d, ws).files, p) == ReadFile(d.files, p)
  {
    hide Exec;
    RecordsAfter(d, ws);
    FileAfter(d, ws, p);
  }

  lemma FindLastOf(entries: seq<FileEntry>, w: nat, p: Path) returns (k: nat)
    requires w <= |entries| && Listed(entries[..w], p)
    ensures LastOf(entries, w, k) && entries[k].path == p
  {
    var i :| 0 <= i < w && entries[..w][i].path == p;
    k := w - 1;
    while entries[k].path != p
      invariant i <= k < w
      invariant forall j :: k < j < w ==> entries[j].path != p
      decreases k
    {
      k := k - 1;
    }
  }

  // None of the files written and not put back was changed by that.
  ghost predicate NothingChanged(entries: seq<FileEntry>, w: nat, q: nat) {
    forall k :: LeftWritten(entries, w, q, k) ==> entries[k].before == Some(Sha256(entries[k].content))
  }

  lemma {:induction false} ExecFilesAlike(d: Disk, e: Disk, ws: seq<Write>)
    requires d.files == e.files
    ensures Exec(d, ws).files == Exec(e, ws).files
  {
    if ws != [] {
      ExecFilesAlike(d, e, ws[..|ws| - 1]);
    }
  }

  lemma NothingChangedIff(d: Disk, cut: Disk, entries: seq<FileEntry>, w: nat, q: nat)
    requires FirstChanged(d.files, entries) == None
    requires forall p :: LeftAt(d.files, cut.files, entries, w, q, p)
    ensures NothingChanged(entries, w, q) <==> FirstChanged(cut.files, entries) == None
    ensures NothingChanged(entries, w, q) ==> cut.files == d.files
  {
    UnchangedIff(d.files, entries);
    UnchangedIff(cut.files, entries);
    if NothingChanged(entries, w, q) {
      forall p ensures ReadFile(cut.files, p) == ReadFile(d.files, p) {
        assert LeftAt(d.files, cut.files, entries, w, q, p);
        if k :| LeftWritten(entries, w, q, k) && entries[k].path == p {
          assert DigestOf(d.files, p) == entries[k].before;
        }
      }
      SameFiles(cut.files, d.files);
    } else {
      var k :| LeftWritten(entries, w, q, k) && entries[k].before != Some(Sha256(entries[k].content));
      assert LeftAt(d.files, cut.files, entries, w, q, entries[k].path);
      assert DigestOf(cut.files, entries[k].path) != entries[k].before;
    }
  }

  // Finishing an apply that died after n of its writes, undoing a fault or not, and did not
  // get to record itself: accepted exactly if none of the files it had written and not put
  // back was changed by that. Then it ends like an apply that never died; else it is refused
  // with nothing written. A rollback is refused in any case.
  lemma CutApplyResumesIff(d: Disk, id: MutationId, fault: Fault, n: nat)
    requires Attempted(d, id) && n <= |Apply(d, id, fault).1|
    requires n < |Apply(d, id, fault).1| || Apply(d, id, fault).0 != Done
    ensures var cut, entries := Exec(d, Apply(d, id, fault).1[..n]), d.records[id].files;
      var b := |BackupWrites(d.files, id, entries)|;
      && (Apply(cut, id, NoFault).0 == Done <==>
            NothingChanged(entries, WrittenBy(entries, fault, b, n), PutBackBy(entries, fault, b, n)))
      && (Apply(cut, id, NoFault).0 == Done ==> ConfigUndo.Applied(cut, id).files == ConfigUndo.Applied(d, id).files)
      && (Apply(cut, id, NoFault).0 != Done ==>
            Apply(cut, id, NoFault).0.ChangedSincePlan? && Apply(cut, id, NoFault).1 == [])
      && Rollback(cut, id).0 != Done
  {
    hide Exec, BackupWrites, Apply, Rollback, LeftAt, NothingChanged, WrittenBy, PutBackBy;
    var cut, entries := Exec(d, Apply(d, id, fault).1[..n]), d.records[id].files;
    var b := |BackupWrites(d.files, id, entries)|;
    var w, q := WrittenBy(entries, fault, b, n), PutBackBy(entries, fault, b, n);
    forall p ensures cut.records == d.records && LeftAt(d.files, cut.files, entries, w, q, p) {
      CutFiles(d, id, fault, n, p);
    }
    CutFiles(d, id, fault, n, "");
    NothingChangedIff(d, cut, entries, w, q);
    ApplyAgain(d, cut, id);
  }

  lemma ApplyAgain(d: Disk, cut: Disk, id: MutationId)
    requires Attempted(d, id) && cut.records == d.records
    ensures Apply(cut, id, NoFault).0 == Done <==> FirstChanged(cut.files, d.records[id].files) == None
    ensures Apply(cut, id, NoFault).0 != Done ==>
      Apply(cut, id, NoFault).0.ChangedSincePlan? && Apply(cut, id, NoFault).1 == []
    ensures cut.files == d.files ==> ConfigUndo.Applied(cut, id).files == ConfigUndo.Applied(d, id).files
    ensures Rollback(cut, id).0 != Done
  {
    hide Exec, BackupWrites, FirstChanged;
    if cut.files == d.files {
      ExecFilesAlike(d, cut, Apply(d, id, NoFault).1);
    }
  }

  /* One file, cut after it was written. */

  function OneFilePlan(): Disk {
    Disk(map["f" := "1"], map[], map["m" := PlanRecord(map["f" := "1"], "allocation", [PlannedFile("f", Dotenv, "8")])])
  }

  lemma OneEntry()
    ensures var d := OneFilePlan();
      && Consistent(d) && Attempted(d, "m") && |d.records["m"].files| == 1
      && d.records["m"].files[0] == FileEntry("f", Dotenv, Some(Sha256("1")), "8", None)
      && ReadFile(d.files, "f") == Some("1") && "1" != "8"
  {
    var d := OneFilePlan();
    UnchangedIff(d.files, d.records["m"].files);
    assert "1"[0] != "8"[0];
  }

  // Applied, rolled back as far as the one file, and stuck: the rollback takes its own
  // write for an edit.
  lemma CutRollbackExample()
    ensures var d := ConfigUndo.Applied(OneFilePlan(), "m");
      && Apply(OneFilePlan(), "m", NoFault).0 == Done && Rollback(d, "m").0 == Done
      && 1 <= |Rollback(d, "m").1| && Rollback(CutRollback(d, "m", 1), "m").0.ChangedSinceApply?
  {
    hide Exec, Rollback, ConfigUndo.Applied, CutRollback, Consistent, OneFilePlan, ReadBackup, Attempt, BackupWrites;
    var before, d := OneFilePlan(), ConfigUndo.Applied(OneFilePlan(), "m");
    OneEntry();
    OneApplies();
    AppliedState(before, "m");
    RollbackUndoesApply(before, "m");
    BackupsExact(before, "m");
    assert Listed(before.records["m"].files, "f");
    assert ReadBackup(d, "m", "f") == Some("1");
    RestoreJournal(d, "m");
    CutRollbackResumesIff(d, "m", 1);
    assert d.records["m"].files[0].path == "f" && d.records["m"].files[0].content == "8";
  }

  lemma OneApplies()
    ensures Apply(OneFilePlan(), "m", NoFault).0 == Done
    ensures Reversible(OneFilePlan().records["m"].files)
  {
    OneEntry();
  }

  // Backed up and written, and stuck: the apply takes its own write for an edit, and there
  // is nothing APPLIED to roll back.
  lemma CutApplyExample()
    ensures 2 <= |Apply(OneFilePlan(), "m", NoFault).1|
    ensures var cut := Exec(OneFilePlan(), Apply(OneFilePlan(), "m", NoFault).1[..2]);
      Apply(cut, "m", NoFault).0.ChangedSincePlan? && Rollback(cut, "m").0 != Done
  {
    hide Exec, OneFilePlan;
    var d := OneFilePlan();
    OneEntry();
    OneApplies();
    var entries := d.records["m"].files;
    assert entries[..0] == [];
    assert BackupWrites(d.files, "m", entries) == [BackUp("m", SafeBackupName("f"), "1")];
    CutApplyResumesIff(d, "m", NoFault, 2);
    assert LeftWritten(entries, 1, 0, 0);
  }
}
