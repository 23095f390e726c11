// Plan, apply and roll back config mutations: the journal of primitive writes each
// operation performs, and the project object that performs them.
module ConfigManager {
  import opened Wrappers
  import opened ConfigFiles

  type MutationId = string

  datatype Kind = Dotenv | Compose | Kubernetes

  datatype Status = Planned | Applied | RolledBack

  datatype FileEntry = FileEntry(
    path: Path, kind: Kind, before: Option<Digest>, content: Text, after: Option<Digest>)

  datatype Record = Record(allocationId: string, status: Status, files: seq<FileEntry>)

  // Project files, the backups kept per mutation, and the mutation records.
  datatype Disk = Disk(
    files: Files, backups: map<(MutationId, string), Text>, records: map<MutationId, Record>)

  datatype Outcome =
    | Done
    | AlreadyDone
    | MutationNotFound
    | ChangedSincePlan(path: Path)
    | ValidationFailed(path: Path)
    | ApplyFailed
    | NotApplied
    | ChangedSinceApply(path: Path)

  // At most one target write goes wrong per call: either the write itself raises, or the
  // file reads back different from the plan or fails to parse.
  datatype Fault = NoFault | WriteFails(at: nat) | ReadBackFails(at: nat)

  function SafeBackupName(path: Path): string {
    if path == "" then ""
    else (if path[0] == '/' || path[0] == '\\' then "__" else [path[0]]) + SafeBackupName(path[1..])
  }

  /* The journal: every primitive write is atomic, so a crash leaves the disk after a prefix. */

  datatype Write =
    | BackUp(id: MutationId, name: string, original: Text)
    | Target(path: Path, content: Option<Text>)
    | SaveRecord(mutation: MutationId, record: Record)

  function Perform(d: Disk, w: Write): Disk {
    match w
    case BackUp(id, name, original) => d.(backups := d.backups[(id, name) := original])
    case Target(path, content) => d.(files := Put(d.files, path, content))
    case SaveRecord(id, record) => d.(records := d.records[id := record])
  }

  function Exec(d: Disk, ws: seq<Write>): Disk {
    if ws == [] then d else Perform(Exec(d, ws[..|ws| - 1]), ws[|ws| - 1])
  }

  lemma ExecSnoc(d: Disk, ws: seq<Write>, w: Write)
    ensures Exec(d, ws + [w]) == Perform(Exec(d, ws), w)
  {
    assert (ws + [w])[..|ws|] == ws;
  }

  lemma {:induction false} ExecConcat(d: Disk, us: seq<Write>, vs: seq<Write>)
    ensures Exec(d, us + vs) == Exec(Exec(d, us), vs)
  {
    if vs == [] {
      assert us + vs == us;
    } else {
      var init, w := vs[..|vs| - 1], vs[|vs| - 1];
      assert us + vs == (us + init) + [w];
      ExecConcat(d, us, init);
      ExecSnoc(d, us + init, w);
    }
  }

  /* Apply. */

  // The first file whose live content no longer has the digest seen by the plan.
  function FirstChanged(files: Files, entries: seq<FileEntry>): Option<Path> {
    if entries == [] then None
    else if DigestOf(files, entries[0].path) != entries[0].before then Some(entries[0].path)
    else FirstChanged(files, entries[1..])
  }

  function BackupOf(files: Files, id: MutationId, e: FileEntry): seq<Write> {
    match ReadFile(files, e.path)
    case None => []
    case Some(original) => [BackUp(id, SafeBackupName(e.path), original)]
  }

  function BackupWrites(files: Files, id: MutationId, entries: seq<FileEntry>): seq<Write> {
    if entries == [] then []
    else
      var last := |entries| - 1;
      BackupWrites(files, id, entries[..last]) + BackupOf(files, id, entries[last])
  }

  lemma NothingBackedUp(d: Disk, id: MutationId, entries: seq<FileEntry>)
    ensures BackupWrites(d.files, id, entries[..0]) == [] && Exec(d, []) == d
  {
  }

  lemma BackupStep(files: Files, id: MutationId, entries: seq<FileEntry>, i: nat)
    requires i < |entries|
    ensures BackupWrites(files, id, entries[..i + 1]) ==
            BackupWrites(files, id, entries[..i]) + BackupOf(files, id, entries[i])
  {
    assert entries[..i + 1][..i] == entries[..i];
  }

  function TargetWrites(entries: seq<FileEntry>): seq<Write> {
    seq(|entries|, k requires 0 <= k < |entries| => Target(entries[k].path, Some(entries[k].content)))
  }

  lemma NothingWritten(d: Disk, entries: seq<FileEntry>)
    ensures TargetWrites(entries[..0]) == [] && Exec(d, []) == d
  {
  }

  lemma TargetStep(entries: seq<FileEntry>, n: nat)
    requires n < |entries|
    ensures TargetWrites(entries[..n + 1]) ==
            TargetWrites(entries[..n]) + [Target(entries[n].path, Some(entries[n].content))]
  {
  }

  function RestoreWrites(files: Files, entries: seq<FileEntry>): seq<Write> {
    seq(|entries|, k requires 0 <= k < |entries| => Target(entries[k].path, ReadFile(files, entries[k].path)))
  }

  function Stamped(entries: seq<FileEntry>): seq<FileEntry> {
    seq(|entries|, k requires 0 <= k < |entries| => entries[k].(after := Some(Sha256(entries[k].content))))
  }

  // How many targets were written, and with which outcome.
  function Reached(entries: seq<FileEntry>, fault: Fault): (r: (nat, Outcome))
    ensures r.0 <= |entries|
  {
    match fault
    case WriteFails(at) => if at < |entries| then (at, ApplyFailed) else (|entries|, Done)
    case ReadBackFails(at) =>
      if at < |entries| then (at + 1, ValidationFailed(entries[at].path)) else (|entries|, Done)
    case NoFault => (|entries|, Done)
  }

  // The guarded part: write the targets, and undo them all if one goes wrong.
  function Attempt(files: Files, entries: seq<FileEntry>, fault: Fault): (Outcome, seq<Write>) {
    var reached := Reached(entries, fault);
    var done := entries[..reached.0];
    (reached.1, if reached.1 == Done then TargetWrites(done) else TargetWrites(done) + RestoreWrites(files, done))
  }

  function Apply(d: Disk, id: MutationId, fault: Fault): (Outcome, seq<Write>) {
    if id !in d.records then (MutationNotFound, [])
    else
      var r := d.records[id];
      if r.status == Applied then (AlreadyDone, [])
      else match FirstChanged(d.files, r.files)
        case Some(path) => (ChangedSincePlan(path), [])
        case None =>
          Transaction(d.files, id, r, fault)
  }

  function Transaction(files: Files, id: MutationId, r: Record, fault: Fault): (Outcome, seq<Write>) {
    var attempt := Attempt(files, r.files, fault);
    var guarded := BackupWrites(files, id, r.files) + attempt.1;
    (attempt.0, if attempt.0 == Done then guarded + [SaveRecord(id, Completed(r))] else guarded)
  }

  function Completed(r: Record): Record {
    r.(status := Applied, files := Stamped(r.files))
  }

  /* Roll back. */

  function FirstEdited(files: Files, entries: seq<FileEntry>): Option<Path> {
    if entries == [] then None
    else if DigestOf(files, entries[0].path) != entries[0].after then Some(entries[0].path)
    else FirstEdited(files, entries[1..])
  }

  function ReadBackup(d: Disk, id: MutationId, path: Path): Option<Text> {
    var key := (id, SafeBackupName(path));
    if key in d.backups then Some(d.backups[key]) else None
  }

  function UndoWrites(d: Disk, id: MutationId, entries: seq<FileEntry>): seq<Write> {
    seq(|entries|, k requires 0 <= k < |entries| => Target(entries[k].path, ReadBackup(d, id, entries[k].path)))
  }

  function Rollback(d: Disk, id: MutationId): (Outcome, seq<Write>) {
    if id !in d.records then (MutationNotFound, [])
    else
      var r := d.records[id];
      if r.status == RolledBack then (AlreadyDone, [])
      else if r.status != Applied then (NotApplied, [])
      else match FirstEdited(d.files, r.files)
        case Some(path) => (ChangedSinceApply(path), [])
        case None => (Done, UndoWrites(d, id, r.files) + [SaveRecord(id, r.(status := RolledBack))])
  }

  /* Plan. */

  datatype PlannedFile = PlannedFile(path: Path, kind: Kind, content: Text)

  function EntryFor(files: Files, p: PlannedFile): FileEntry {
    FileEntry(p.path, p.kind, DigestOf(files, p.path), p.content, None)
  }

  function PlanRecord(files: Files, allocationId: string, plan: seq<PlannedFile>): Record {
    Record(allocationId, Planned, seq(|plan|, k requires 0 <= k < |plan| => EntryFor(files, plan[k])))
  }

  // A plan as it is stored: for the allocation, with one entry for each planned file, in
  // order, and the digest of what the file held.
  ghost predicate Plans(files: Files, allocationId: string, plan: seq<PlannedFile>, r: Record) {
    && r.allocationId == allocationId && r.status == Planned && |r.files| == |plan|
    && forall k :: 0 <= k < |plan| ==>
         && r.files[k].path == plan[k].path && r.files[k].kind == plan[k].kind
         && r.files[k].content == plan[k].content && r.files[k].after == None
         && r.files[k].before == if plan[k].path in files then Some(Sha256(files[plan[k].path])) else None
  }

  function PersistPlan(d: Disk, id: MutationId, allocationId: string, plan: seq<PlannedFile>): seq<Write> {
    [SaveRecord(id, PlanRecord(d.files, allocationId, plan))]
  }

  /* The operations, performed on the project step by step. */

  class Project {
    var files: Files
    var backups: map<(MutationId, string), Text>
    var records: map<MutationId, Record>
    // Every primitive write so far, in order.
    ghost var journal: seq<Write>

    function Now(): Disk reads this {
      Disk(files, backups, records)
    }

    constructor (files: Files)
      ensures Now() == Disk(files, map[], map[]) && journal == []
    {
      this.files, backups, records, journal := files, map[], map[], [];
    }

    method Commit(w: Write)
      modifies this
      ensures Now() == Perform(old(Now()), w) && journal == old(journal) + [w]
    {
      match w {
        case BackUp(id, name, original) => backups := backups[(id, name) := original];
        case Target(path, content) => files := Put(files, path, content);
        case SaveRecord(id, record) => records := records[id := record];
      }
      journal := journal + [w];
    }

    method Persist(id: MutationId, allocationId: string, plan: seq<PlannedFile>)
      modifies this
      ensures journal == old(journal) + PersistPlan(old(Now()), id, allocationId, plan)
      ensures Now() == Exec(old(Now()), PersistPlan(old(Now()), id, allocationId, plan))
      ensures id in records && Plans(files, allocationId, plan, records[id])
      ensures files == old(files) && backups == old(backups) && records - {id} == old(records) - {id}
    {
      ghost var d := Now();
      var w := SaveRecord(id, PlanRecord(files, allocationId, plan));
      ExecSnoc(d, [], w);
      assert [] + [w] == [w];
      Commit(w);
    }

    method ApplyMutation(id: MutationId, fault: Fault) returns (outcome: Outcome)
      modifies this
      ensures outcome == Apply(old(Now()), id, fault).0
      ensures journal == old(journal) + Apply(old(Now()), id, fault).1
      ensures Now() == Exec(old(Now()), Apply(old(Now()), id, fault).1)
    {
      if id !in records {
        return MutationNotFound;
      }
      var record := records[id];
      if record.status == Applied {
        return AlreadyDone;
      }
      var changed := FindChanged(record.files);
      if changed.Some? {
        return ChangedSincePlan(changed.value);
      }
      outcome := Transact(id, record, fault);
    }

    method Transact(id: MutationId, record: Record, fault: Fault) returns (outcome: Outcome)
      modifies this
      ensures outcome == Transaction(old(files), id, record, fault).0
      ensures journal == old(journal) + Transaction(old(files), id, record, fault).1
      ensures Now() == Exec(old(Now()), Transaction(old(files), id, record, fault).1)
    {
      hide Exec, BackupWrites, Attempt;
      ghost var d, j := Now(), journal;
      ghost var saved, ws := BackupWrites(files, id, record.files), Attempt(files, record.files, fault).1;
      ExecConcat(d, saved, ws);
      var prepared := BackUpAll(id, record.files);
      outcome := WriteOrRestore(record.files, prepared, fault);
      assert journal == j + (saved + ws);
      assert Now() == Exec(d, saved + ws);
      if outcome == Done {
        var last := SaveRecord(id, Completed(record));
        ExecSnoc(d, saved + ws, last);
        Commit(last);
        assert journal == j + (saved + ws + [last]);
      }
    }

    method FindChanged(entries: seq<FileEntry>) returns (changed: Option<Path>)
      ensures changed == FirstChanged(files, entries)
    {
      for i := 0 to |entries|
        invariant FirstChanged(files, entries) == FirstChanged(files, entries[i..])
      {
        if DigestOf(files, entries[i].path) != entries[i].before {
          return Some(entries[i].path);
        }
      }
      return None;
    }

    // Read and back up every original before any target is written.
    method BackUpAll(id: MutationId, entries: seq<FileEntry>) returns (prepared: seq<(Path, Option<Text>)>)
      modifies this
      ensures |prepared| == |entries|
      ensures forall k :: 0 <= k < |entries| ==>
        prepared[k] == (entries[k].path, ReadFile(old(files), entries[k].path))
      ensures journal == old(journal) + BackupWrites(old(files), id, entries)
      ensures Now() == Exec(old(Now()), BackupWrites(old(files), id, entries))
      ensures files == old(files)
    {
      hide Exec, BackupWrites, BackupOf, ReadFile;
      ghost var d, j := Now(), journal;
      prepared := [];
      NothingBackedUp(d, id, entries);
      for i := 0 to |entries|
        invariant |prepared| == i
        invariant forall k :: 0 <= k < i ==> prepared[k] == (entries[k].path, ReadFile(d.files, entries[k].path))
        invariant journal == j + BackupWrites(d.files, id, entries[..i])
        invariant Now() == Exec(d, BackupWrites(d.files, id, entries[..i]))
        invariant files == d.files
      {
        BackupStep(d.files, id, entries, i);
        ExecConcat(d, BackupWrites(d.files, id, entries[..i]), BackupOf(d.files, id, entries[i]));
        var original := BackUpOne(id, entries[i]);
        prepared := prepared + [(entries[i].path, original)];
      }
      assert entries[..|entries|] == entries;
    }

    method BackUpOne(id: MutationId, e: FileEntry) returns (original: Option<Text>)
      modifies this
      ensures original == ReadFile(old(files), e.path)
      ensures journal == old(journal) + BackupOf(old(files), id, e)
      ensures Now() == Exec(old(Now()), BackupOf(old(files), id, e))
      ensures files == old(files)
    {
      original := ReadFile(files, e.path);
      if original.Some? {
        var w := BackUp(id, SafeBackupName(e.path), original.value);
        ghost var d := Now();
        ExecSnoc(d, [], w);
        assert [] + [w] == [w];
        Commit(w);
      }
    }

    method WriteOrRestore(entries: seq<FileEntry>, prepared: seq<(Path, Option<Text>)>, fault: Fault)
      returns (outcome: Outcome)
      requires |prepared| == |entries|
      requires forall k :: 0 <= k < |entries| ==> prepared[k] == (entries[k].path, ReadFile(files, entries[k].path))
      modifies this
      ensures outcome == Attempt(old(files), entries, fault).0
      ensures journal == old(journal) + Attempt(old(files), entries, fault).1
      ensures Now() == Exec(old(Now()), Attempt(old(files), entries, fault).1)
    {
      hide Exec;
      ghost var d, j := Now(), journal;
      var written;
      written, outcome := WriteAll(entries, fault);
      ghost var done := entries[..written];
      if outcome != Done {
        assert RestoreWrites(d.files, done) == Undoing(prepared[..written]);
        ExecConcat(d, TargetWrites(done), RestoreWrites(d.files, done));
        Restore(prepared[..written]);
      } else {
        assert TargetWrites(done) + [] == TargetWrites(done);
      }
    }

    // Write the targets in order, stopping at the first that fails.
    method WriteAll(entries: seq<FileEntry>, fault: Fault) returns (written: nat, problem: Outcome)
      modifies this
      ensures (written, problem) == Reached(entries, fault)
      ensures journal == old(journal) + TargetWrites(entries[..written])
      ensures Now() == Exec(old(Now()), TargetWrites(entries[..written]))
    {
      hide Exec, TargetWrites;
      ghost var d, j := Now(), journal;
      written := 0;
      NothingWritten(d, entries);
      while written < |entries|
        invariant written <= |entries|
        invariant fault.WriteFails? ==> written <= fault.at || |entries| <= fault.at
        invariant fault.ReadBackFails? ==> written <= fault.at || |entries| <= fault.at
        invariant journal == j + TargetWrites(entries[..written])
        invariant Now() == Exec(d, TargetWrites(entries[..written]))
      {
        if fault == WriteFails(written) {
          return written, ApplyFailed;
        }
        var f := entries[written];
        var w := Target(f.path, Some(f.content));
        TargetStep(entries, written);
        ExecSnoc(d, TargetWrites(entries[..written]), w);
        Commit(w);
        written := written + 1;
        if fault == ReadBackFails(written - 1) {
          return written, ValidationFailed(f.path);
        }
      }
      return written, Done;
    }

    static ghost function Undoing(originals: seq<(Path, Option<Text>)>): seq<Write> {
      seq(|originals|, k requires 0 <= k < |originals| => Target(originals[k].0, originals[k].1))
    }

    method Restore(originals: seq<(Path, Option<Text>)>)
      modifies this
      ensures journal == old(journal) + Undoing(originals)
      ensures Now() == Exec(old(Now()), Undoing(originals))
    {
      ghost var d, j := Now(), journal;
      for i := 0 to |originals|
        invariant journal == j + Undoing(originals[..i])
        invariant Now() == Exec(d, Undoing(originals[..i]))
      {
        var w := Target(originals[i].0, originals[i].1);
        assert Undoing(originals[..i + 1]) == Undoing(originals[..i]) + [w];
        ExecSnoc(d, Undoing(originals[..i]), w);
        Commit(w);
      }
      assert originals[..|originals|] == originals;
    }

    method RollbackMutation(id: MutationId) returns (outcome: Outcome)
      modifies this
      ensures outcome == Rollback(old(Now()), id).0
      ensures journal == old(journal) + Rollback(old(Now()), id).1
      ensures Now() == Exec(old(Now()), Rollback(old(Now()), id).1)
    {
      if id !in records {
        return MutationNotFound;
      }
      var record := records[id];
      if record.status == RolledBack {
        return AlreadyDone;
      }
      if record.status != Applied {
        return NotApplied;
      }
      var edited := FindEdited(record.files);
      if edited.Some? {
        return ChangedSinceApply(edited.value);
      }
      ghost var d := Now();
      UndoAll(id, record.files);
      ExecSnoc(d, UndoWrites(d, id, record.files), SaveRecord(id, record.(status := RolledBack)));
      Commit(SaveRecord(id, record.(status := RolledBack)));
      return Done;
    }

    method FindEdited(entries: seq<FileEntry>) returns (edited: Option<Path>)
      ensures edited == FirstEdited(files, entries)
    {
      for i := 0 to |entries|
        invariant FirstEdited(files, entries) == FirstEdited(files, entries[i..])
      {
        if DigestOf(files, entries[i].path) != entries[i].after {
          return Some(entries[i].path);
        }
      }
      return None;
    }

    // Restore each file from its backup, or unlink it when there is none.
    method UndoAll(id: MutationId, entries: seq<FileEntry>)
      modifies this
      ensures journal == old(journal) + UndoWrites(old(Now()), id, entries)
      ensures Now() == Exec(old(Now()), UndoWrites(old(Now()), id, entries))
    {
      ghost var d, j := Now(), journal;
      for i := 0 to |entries|
        invariant journal == j + UndoWrites(d, id, entries[..i])
        invariant Now() == Exec(d, UndoWrites(d, id, entries[..i]))
        invariant backups == d.backups
      {
        var w := Target(entries[i].path, ReadBackup(Now(), id, entries[i].path));
        assert UndoWrites(d, id, entries[..i + 1]) == UndoWrites(d, id, entries[..i]) + [w];
        ExecSnoc(d, UndoWrites(d, id, entries[..i]), w);
        Commit(w);
      }
      assert entries[..|entries|] == entries;
    }
  }
}
