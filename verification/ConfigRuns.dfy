// Every interleaving of plans, applies, rollbacks, crashes and external edits.
module ConfigRuns {
  import opened Wrappers
  import opened ConfigFiles
  import opened ConfigManager
  import opened ConfigSafety

  // Apply and roll back get `survived` primitive writes done before the process dies; a
  // count beyond the journal means they ran to the end.
  datatype Event =
    | PlanEvent(id: MutationId, allocationId: string, plan: seq<PlannedFile>)
    | ApplyEvent(id: MutationId, fault: Fault, survived: nat)
    | RollbackEvent(id: MutationId, survived: nat)
    | EditEvent(path: Path, content: Option<Text>)

  function Cut(ws: seq<Write>, survived: nat): seq<Write> {
    if survived < |ws| then ws[..survived] else ws
  }

  // A plan always takes a fresh mutation id.
  function Step(d: Disk, e: Event): Disk {
    match e
    case PlanEvent(id, allocationId, plan) =>
      if id in d.records then d else Exec(d, PersistPlan(d, id, allocationId, plan))
    case ApplyEvent(id, fault, survived) => Exec(d, Cut(Apply(d, id, fault).1, survived))
    case RollbackEvent(id, survived) => Exec(d, Cut(Rollback(d, id).1, survived))
    case EditEvent(path, content) => d.(files := Put(d.files, path, content))
  }

  function Run(d: Disk, es: seq<Event>): Disk {
    if es == [] then d else Step(Run(d, es[..|es| - 1]), es[|es| - 1])
  }

  function Fresh(files: Files): Disk {
    Disk(files, map[], map[])
  }

  /* The invariant. */

  ghost predicate BackupFromPlan(r: Record, name: string, c: Text) {
    exists i :: 0 <= i < |r.files| && SafeBackupName(r.files[i].path) == name && r.files[i].before == Some(Sha256(c))
  }

  ghost predicate FullyApplied(d: Disk, id: MutationId, r: Record) {
    forall i :: 0 <= i < |r.files| ==>
      && r.files[i].after == Some(Sha256(r.files[i].content))
      && (r.files[i].before.Some? ==> (id, SafeBackupName(r.files[i].path)) in d.backups)
  }

  ghost predicate BackupsConsistent(d: Disk) {
    forall id, name :: (id, name) in d.backups ==>
      id in d.records && BackupFromPlan(d.records[id], name, d.backups[(id, name)])
  }

  ghost predicate Consistent(d: Disk) {
    && BackupsConsistent(d)
    && forall id :: id in d.records && d.records[id].status == Applied ==> FullyApplied(d, id, d.records[id])
  }

  // Planning fixes a record's allocation and files for good; only its status and
  // after-hashes move.
  ghost predicate SamePlan(r: Record, s: Record) {
    && r.allocationId == s.allocationId
    && |r.files| == |s.files|
    && forall i :: 0 <= i < |r.files| ==>
      && s.files[i].path == r.files[i].path
      && s.files[i].kind == r.files[i].kind
      && s.files[i].before == r.files[i].before
      && s.files[i].content == r.files[i].content
  }

  lemma FromSamePlan(r: Record, s: Record, name: string, c: Text)
    requires SamePlan(r, s) && BackupFromPlan(r, name, c)
    ensures BackupFromPlan(s, name, c)
  {
    var i :| 0 <= i < |r.files| && SafeBackupName(r.files[i].path) == name && r.files[i].before == Some(Sha256(c));
    assert SafeBackupName(s.files[i].path) == name;
  }

  lemma ApplyJournal(d: Disk, id: MutationId, fault: Fault)
    requires Attempted(d, id)
    ensures var r, ws := d.records[id], Apply(d, id, fault).1;
      forall k :: 0 <= k < |ws| ==>
        && (ws[k].BackUp? ==> BacksUp(d.files, id, r.files, ws[k]))
        && (ws[k].SaveRecord? ==> k == |ws| - 1 && ws[k] == SaveRecord(id, Completed(r)))
  {
    var r, ws := d.records[id], Apply(d, id, fault).1;
    JournalShape(d, id, fault);
    var saved := BackupWrites(d.files, id, r.files);
    BackupWritesAre(d.files, id, r.files);
    assert forall k :: 0 <= k < |saved| ==> ws[k] == saved[k];
  }

  // A journal that saves one record, and only as its last write.
  lemma SavedLast(d: Disk, ws: seq<Write>, survived: nat, id: MutationId, r: Record)
    requires forall k :: 0 <= k < |ws| && ws[k].SaveRecord? ==> k == |ws| - 1 && ws[k] == SaveRecord(id, r)
    ensures var after := Exec(d, Cut(ws, survived)).records;
      after == d.records || (ws != [] && |ws| <= survived && after == d.records[id := r])
  {
    if survived < |ws| {
      RecordsAfter(d, ws[..survived]);
    } else if ws != [] {
      RecordsAfter(d, ws[..|ws| - 1]);
    }
  }

  lemma ApplyRecords(d: Disk, id: MutationId, fault: Fault, survived: nat)
    ensures var ws := Apply(d, id, fault).1;
      var after := Exec(d, Cut(ws, survived)).records;
      || after == d.records
      || (Attempted(d, id) && |ws| <= survived && after == d.records[id := Completed(d.records[id])])
  {
    if Attempted(d, id) {
      ApplyJournal(d, id, fault);
      SavedLast(d, Apply(d, id, fault).1, survived, id, Completed(d.records[id]));
    }
  }

  lemma ApplyBackups(d: Disk, id: MutationId, fault: Fault, survived: nat, other: MutationId, name: string)
    requires BackupsConsistent(d)
    ensures var after := Exec(d, Cut(Apply(d, id, fault).1, survived));
      (other, name) in after.backups ==>
        && other in d.records
        && BackupFromPlan(d.records[other], name, after.backups[(other, name)])
  {
    var ws := Apply(d, id, fault).1;
    var after := Exec(d, Cut(ws, survived));
    BackupAfter(d, Cut(ws, survived), other, name);
    if (other, name) in after.backups {
      var w := BackUp(other, name, after.backups[(other, name)]);
      if w in Cut(ws, survived) {
        assert w in ws;
        ApplyJournal(d, id, fault);
        UnchangedIff(d.files, d.records[id].files);
      }
    }
  }

  lemma RollbackRecords(d: Disk, id: MutationId, survived: nat)
    ensures var ws := Rollback(d, id).1;
      var after := Exec(d, Cut(ws, survived));
      && after.backups == d.backups
      && (|| after.records == d.records
          || (id in d.records && after.records == d.records[id := d.records[id].(status := RolledBack)]))
  {
    var ws := Rollback(d, id).1;
    if ws != [] {
      var undo := UndoWrites(d, id, d.records[id].files);
      SavedLast(d, ws, survived, id, d.records[id].(status := RolledBack));
      assert ws[..|ws| - 1] == undo;
      BackupsAfterTargets(d, undo);
      if survived < |ws| {
        BackupsAfterTargets(d, undo[..survived]);
        assert undo[..survived] == ws[..survived];
      }
    }
  }

  lemma PlanPersisted(d: Disk, id: MutationId, allocationId: string, plan: seq<PlannedFile>)
    ensures Exec(d, PersistPlan(d, id, allocationId, plan)) ==
            d.(records := d.records[id := PlanRecord(d.files, allocationId, plan)])
  {
    ExecSnoc(d, [], SaveRecord(id, PlanRecord(d.files, allocationId, plan)));
    assert [] + PersistPlan(d, id, allocationId, plan) == PersistPlan(d, id, allocationId, plan);
  }

  lemma StepKeepsPlans(d: Disk, e: Event, id: MutationId)
    requires id in d.records
    ensures id in Step(d, e).records && SamePlan(d.records[id], Step(d, e).records[id])
  {
    match e
    case ApplyEvent(other, fault, survived) => ApplyRecords(d, other, fault, survived);
    case RollbackEvent(other, survived) => RollbackRecords(d, other, survived);
    case PlanEvent(other, allocationId, plan) => PlanPersisted(d, other, allocationId, plan);
    case EditEvent(_, _) =>
  }

  lemma ApplyKeepsConsistent(d: Disk, id: MutationId, fault: Fault, survived: nat)
    requires Consistent(d)
    ensures Consistent(Step(d, ApplyEvent(id, fault, survived)))
  {
    var after := Step(d, ApplyEvent(id, fault, survived));
    forall other, name | (other, name) in after.backups
      ensures other in after.records && BackupFromPlan(after.records[other], name, after.backups[(other, name)])
    {
      ApplyBackups(d, id, fault, survived, other, name);
      StepKeepsPlans(d, ApplyEvent(id, fault, survived), other);
      FromSamePlan(d.records[other], after.records[other], name, after.backups[(other, name)]);
    }
    forall other | other in after.records && after.records[other].status == Applied
      ensures FullyApplied(after, other, after.records[other])
    {
      ApplyLeavesApplied(d, id, fault, survived, other);
    }
  }

  lemma ApplyLeavesApplied(d: Disk, id: MutationId, fault: Fault, survived: nat, other: MutationId)
    requires Consistent(d)
    requires var after := Step(d, ApplyEvent(id, fault, survived));
      other in after.records && after.records[other].status == Applied
    ensures var after := Step(d, ApplyEvent(id, fault, survived));
      FullyApplied(after, other, after.records[other])
  {
    hide Apply, Exec, BackupWrites;
    var ws := Cut(Apply(d, id, fault).1, survived);
    var after := Exec(d, ws);
    var r := after.records[other];
    ApplyRecords(d, id, fault, survived);
    forall i | 0 <= i < |r.files|
      ensures r.files[i].after == Some(Sha256(r.files[i].content))
      ensures r.files[i].before.Some? ==> (other, SafeBackupName(r.files[i].path)) in after.backups
    {
      BackupAfter(d, ws, other, SafeBackupName(r.files[i].path));
      if after.records != d.records && other == id && r.files[i].before.Some? {
        UnchangedIff(d.files, d.records[id].files);
        JournalShape(d, id, fault);
        assert ws[..|ws|] == ws;
        BackupsComplete(d, id, fault, |ws|, i);
      }
    }
  }

  // Whatever keeps the backups and every plan, and turns no record APPLIED.
  lemma StaysConsistent(d: Disk, after: Disk)
    requires Consistent(d) && after.backups == d.backups
    requires forall id :: id in d.records ==> id in after.records && SamePlan(d.records[id], after.records[id])
    requires forall id :: id in after.records && after.records[id].status == Applied ==>
        id in d.records && after.records[id] == d.records[id]
    ensures Consistent(after)
  {
    hide BackupFromPlan, SamePlan, SafeBackupName;
    forall id, name | (id, name) in d.backups
      ensures id in after.records && BackupFromPlan(after.records[id], name, d.backups[(id, name)])
    {
      FromSamePlan(d.records[id], after.records[id], name, d.backups[(id, name)]);
    }
  }

  lemma StepKeepsConsistent(d: Disk, e: Event)
    requires Consistent(d)
    ensures Consistent(Step(d, e))
  {
    hide Consistent, SamePlan, Exec, Apply, Rollback;
    forall id | id in d.records ensures id in Step(d, e).records && SamePlan(d.records[id], Step(d, e).records[id]) {
      StepKeepsPlans(d, e, id);
    }
    match e
    case ApplyEvent(id, fault, survived) => ApplyKeepsConsistent(d, id, fault, survived);
    case RollbackEvent(id, survived) =>
      RollbackRecords(d, id, survived);
      StaysConsistent(d, Step(d, e));
    case PlanEvent(id, allocationId, plan) =>
      PlanPersisted(d, id, allocationId, plan);
      StaysConsistent(d, Step(d, e));
    case EditEvent(_, _) => StaysConsistent(d, Step(d, e));
  }

  lemma {:induction false} RunConsistent(files: Files, es: seq<Event>)
    ensures Consistent(Run(Fresh(files), es))
  {
    if es != [] {
      RunConsistent(files, es[..|es| - 1]);
      StepKeepsConsistent(Run(Fresh(files), es[..|es| - 1]), es[|es| - 1]);
    }
  }

  /* Safety over whole runs. */

  function At(files: Files, es: seq<Event>, i: nat): Disk
    requires i <= |es|
  {
    Run(Fresh(files), es[..i])
  }

  lemma Next(files: Files, es: seq<Event>, i: nat)
    requires i < |es|
    ensures At(files, es, i + 1) == Step(At(files, es, i), es[i])
  {
    assert es[..i + 1][..i] == es[..i];
  }

  lemma {:induction false} PlansAreFixed(files: Files, es: seq<Event>, i: nat, j: nat, id: MutationId)
    requires i <= j <= |es| && id in At(files, es, i).records
    ensures id in At(files, es, j).records && SamePlan(At(files, es, i).records[id], At(files, es, j).records[id])
  {
    if i < j {
      PlansAreFixed(files, es, i, j - 1, id);
      Next(files, es, j - 1);
      StepKeepsPlans(At(files, es, j - 1), es[j - 1], id);
    }
  }

  lemma {:induction false} BackupsAreKept(files: Files, es: seq<Event>, i: nat, j: nat, id: MutationId, name: string)
    requires i <= j <= |es| && (id, name) in At(files, es, i).backups
    ensures (id, name) in At(files, es, j).backups
  {
    if i < j {
      BackupsAreKept(files, es, i, j - 1, id, name);
      Next(files, es, j - 1);
      var d := At(files, es, j - 1);
      match es[j - 1]
      case ApplyEvent(other, fault, survived) => BackupAfter(d, Cut(Apply(d, other, fault).1, survived), id, name);
      case RollbackEvent(other, survived) => RollbackRecords(d, other, survived);
      case PlanEvent(other, allocationId, plan) => PlanPersisted(d, other, allocationId, plan);
      case EditEvent(_, _) =>
    }
  }

  // In a consistent state, the backup of a file whose name clashes with no different
  // original can only be what the plan read.
  lemma BackupIsOriginal(d: Disk, id: MutationId, i: nat, original: Option<Text>)
    requires BackupsConsistent(d) && id in d.records && i < |d.records[id].files|
    requires var e := d.records[id].files[i];
      && BackupNamesAgree(d.records[id].files)
      && e.before == (match original case None => None case Some(c) => Some(Sha256(c)))
      && (original.Some? ==> (id, SafeBackupName(e.path)) in d.backups)
    ensures ReadBackup(d, id, d.records[id].files[i].path) == original
  {
    var entries := d.records[id].files;
    var name := SafeBackupName(entries[i].path);
    if (id, name) in d.backups {
      var k :| 0 <= k < |entries| && SafeBackupName(entries[k].path) == name &&
               entries[k].before == Some(Sha256(d.backups[(id, name)]));
      assert entries[i].before == entries[k].before;
    }
  }

  lemma AgreeingPlans(r: Record, s: Record)
    requires SamePlan(r, s) && BackupNamesAgree(r.files)
    ensures BackupNamesAgree(s.files)
  {
  }

  // The record a fresh plan left behind, seen from any later point of the run.
  lemma PlanSeenLater(files: Files, es: seq<Event>, j: nat, i: nat)
    requires j < i <= |es| && es[j].PlanEvent? && es[j].id !in At(files, es, j).records
    ensures es[j].id in At(files, es, i).records
    ensures SamePlan(PlanRecord(At(files, es, j).files, es[j].allocationId, es[j].plan),
        At(files, es, i).records[es[j].id])
  {
    Next(files, es, j);
    PlanPersisted(At(files, es, j), es[j].id, es[j].allocationId, es[j].plan);
    PlansAreFixed(files, es, j + 1, i, es[j].id);
  }

  // Whatever happens in between, the bytes an apply overwrites are the bytes its plan read,
  // and they stay recoverable from that mutation's backup for the rest of the run.
  lemma AppliesOverwriteOnlyWhatWasPlanned(files: Files, es: seq<Event>, j: nat, i: nat, p: Path)
    requires j < i < |es| && es[j].PlanEvent? && es[j].id !in At(files, es, j).records
    requires es[i].ApplyEvent? && es[i].id == es[j].id
    requires ReadFile(At(files, es, i + 1).files, p) != ReadFile(At(files, es, i).files, p)
    ensures exists k :: 0 <= k < |es[j].plan| && es[j].plan[k].path == p &&
              ReadFile(At(files, es, i + 1).files, p) == Some(es[j].plan[k].content)
    ensures ReadFile(At(files, es, i).files, p) == ReadFile(At(files, es, j).files, p)
    ensures BackupNamesAgree(PlanRecord(At(files, es, j).files, es[j].allocationId, es[j].plan).files) ==>
              forall m :: i < m <= |es| ==>
                  ReadBackup(At(files, es, m), es[j].id, p) == ReadFile(At(files, es, j).files, p)
  {
    hide Exec, Apply, Run, BackupNamesAgree;
    var d, id := At(files, es, i), es[j].id;
    var planned := PlanRecord(At(files, es, j).files, es[j].allocationId, es[j].plan);
    PlanSeenLater(files, es, j, i);
    Next(files, es, i);
    var ws := Apply(d, id, es[i].fault).1;
    var n := if es[i].survived < |ws| then es[i].survived else |ws|;
    assert Cut(ws, es[i].survived) == ws[..n];
    CrashInvariant(d, id, es[i].fault, n, p);
    var entries := d.records[id].files;
    var k :| 0 <= k < |entries| && entries[k].path == p &&
             Some(entries[k].content) == ReadFile(At(files, es, i + 1).files, p);
    assert es[j].plan[k].path == p && es[j].plan[k].content == entries[k].content;
    UnchangedIff(d.files, entries);
    if BackupNamesAgree(planned.files) {
      AgreeingPlans(planned, d.records[id]);
      forall m | i < m <= |es| ensures ReadBackup(At(files, es, m), id, p) == ReadFile(At(files, es, j).files, p) {
        RecoverableLater(files, es, j, i, m, k);
      }
    }
  }

  lemma RecoverableLater(files: Files, es: seq<Event>, j: nat, i: nat, m: nat, k: nat)
    requires j < i < m <= |es| && es[j].PlanEvent? && es[j].id !in At(files, es, j).records
    requires k < |es[j].plan|
    requires BackupNamesAgree(PlanRecord(At(files, es, j).files, es[j].allocationId, es[j].plan).files)
    requires var original := ReadFile(At(files, es, j).files, es[j].plan[k].path);
      original.Some? ==> (es[j].id, SafeBackupName(es[j].plan[k].path)) in At(files, es, i + 1).backups
    ensures ReadBackup(At(files, es, m), es[j].id, es[j].plan[k].path) ==
        ReadFile(At(files, es, j).files, es[j].plan[k].path)
  {
    var id, original := es[j].id, ReadFile(At(files, es, j).files, es[j].plan[k].path);
    PlanSeenLater(files, es, j, m);
    AgreeingPlans(PlanRecord(At(files, es, j).files, es[j].allocationId, es[j].plan), At(files, es, m).records[id]);
    RunConsistent(files, es[..m]);
    if original.Some? {
      BackupsAreKept(files, es, i + 1, m, id, SafeBackupName(es[j].plan[k].path));
    }
    BackupIsOriginal(At(files, es, m), id, k, original);
  }

  // What a rollback changes, even cut short, held what its record says apply wrote.
  lemma RollbackOverwrites(d: Disk, id: MutationId, survived: nat, p: Path)
    requires Consistent(d) && id in d.records
    requires ReadFile(Exec(d, Cut(Rollback(d, id).1, survived)).files, p) != ReadFile(d.files, p)
    ensures exists k :: 0 <= k < |d.records[id].files| && d.records[id].files[k].path == p &&
              ReadFile(d.files, p) == Some(d.records[id].files[k].content)
  {
    hide Exec, BackupsConsistent;
    var ws, entries := Cut(Rollback(d, id).1, survived), d.records[id].files;
    FileAfter(d, ws, p);
    UneditedIff(d.files, entries);
    var k :| 0 <= k < |ws| && ws[k].Target? && ws[k].path == p;
    assert ws[k] == Rollback(d, id).1[k] && k < |entries|;
    assert UndoWrites(d, id, entries)[k] == ws[k];
    assert DigestOf(d.files, p) == entries[k].after == Some(Sha256(entries[k].content));
  }

  // The bytes a rollback overwrites are exactly bytes its own apply wrote.
  lemma RollbacksOverwriteOnlyWhatWasApplied(files: Files, es: seq<Event>, j: nat, i: nat, p: Path)
    requires j < i < |es| && es[j].PlanEvent? && es[j].id !in At(files, es, j).records
    requires es[i].RollbackEvent? && es[i].id == es[j].id
    requires ReadFile(At(files, es, i + 1).files, p) != ReadFile(At(files, es, i).files, p)
    ensures exists k :: 0 <= k < |es[j].plan| && es[j].plan[k].path == p &&
              ReadFile(At(files, es, i).files, p) == Some(es[j].plan[k].content)
  {
    hide Exec, Rollback, Consistent, Run;
    var d, id := At(files, es, i), es[j].id;
    PlanSeenLater(files, es, j, i);
    Next(files, es, i);
    RunConsistent(files, es[..i]);
    RollbackOverwrites(d, id, es[i].survived, p);
    var entries := d.records[id].files;
    var k :| 0 <= k < |entries| && entries[k].path == p && ReadFile(d.files, p) == Some(entries[k].content);
    assert es[j].plan[k].path == p && es[j].plan[k].content == entries[k].content;
  }
}
