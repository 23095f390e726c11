// What plan, apply and roll back guarantee: fault atomicity, the crash invariant, safety
// over every run, and exactly when a rollback undoes its apply.
module ConfigSafety {
  import opened Wrappers
  import opened ConfigFiles
  import opened ConfigManager

  /* What a journal leaves behind. */

  ghost predicate Touches(ws: seq<Write>, p: Path) {
    exists k :: 0 <= k < |ws| && ws[k].Target? && ws[k].path == p
  }

  ghost predicate WritesTo(ws: seq<Write>, p: Path, content: Option<Text>) {
    exists k :: 0 <= k < |ws| && ws[k] == Target(p, content)
  }

  // A file keeps its content unless a write targets it, and then holds a written content.
  lemma {:induction false} FileAfter(d: Disk, ws: seq<Write>, p: Path)
    ensures !Touches(ws, p) ==> ReadFile(Exec(d, ws).files, p) == ReadFile(d.files, p)
    ensures Touches(ws, p) ==> WritesTo(ws, p, ReadFile(Exec(d, ws).files, p))
  {
    if ws != [] {
      var init, w := ws[..|ws| - 1], ws[|ws| - 1];
      FileAfter(d, init, p);
      if w.Target? && w.path == p {
        assert ws[|ws| - 1] == Target(p, ReadFile(Exec(d, ws).files, p));
      } else if Touches(ws, p) {
        assert Touches(init, p);
        var k :| 0 <= k < |init| && init[k] == Target(p, ReadFile(Exec(d, init).files, p));
        assert ws[k] == init[k];
      }
    }
  }

  // Of several writes to a file the last one counts.
  lemma LastWriteWins(d: Disk, ws: seq<Write>, p: Path, k: nat)
    requires k < |ws| && ws[k].Target? && ws[k].path == p
    requires forall j :: k < j < |ws| ==> !(ws[j].Target? && ws[j].path == p)
    ensures ReadFile(Exec(d, ws).files, p) == ws[k].content
  {
    hide Exec, Touches;
    var first, rest := ws[..k] + [ws[k]], ws[k + 1..];
    assert ws == first + rest;
    ExecConcat(d, first, rest);
    FileAfter(Exec(d, first), rest, p);
    NotTouched(rest, p);
    ExecSnoc(d, ws[..k], ws[k]);
  }

  lemma NotTouched(ws: seq<Write>, p: Path)
    requires forall j :: 0 <= j < |ws| ==> !(ws[j].Target? && ws[j].path == p)
    ensures !Touches(ws, p)
  {
  }

  lemma {:induction false} BackupAfter(d: Disk, ws: seq<Write>, id: MutationId, name: string)
    ensures (id, name) in Exec(d, ws).backups <==>
            || (id, name) in d.backups
            || exists k :: 0 <= k < |ws| && ws[k].BackUp? && (ws[k].id, ws[k].name) == (id, name)
    ensures (id, name) in Exec(d, ws).backups ==>
              var c := Exec(d, ws).backups[(id, name)];
              BackUp(id, name, c) in ws || ((id, name) in d.backups && d.backups[(id, name)] == c)
    ensures forall c :: BackUp(id, name, c) in ws ==>
              (id, name) in Exec(d, ws).backups && BackUp(id, name, Exec(d, ws).backups[(id, name)]) in ws
  {
    if ws != [] {
      BackupAfter(d, ws[..|ws| - 1], id, name);
      assert ws == ws[..|ws| - 1] + [ws[|ws| - 1]];
    }
  }

  lemma {:induction false} RecordsAfter(d: Disk, ws: seq<Write>)
    requires forall k :: 0 <= k < |ws| ==> !ws[k].SaveRecord?
    ensures Exec(d, ws).records == d.records
  {
    if ws != [] {
      RecordsAfter(d, ws[..|ws| - 1]);
    }
  }

  lemma {:induction false} BackupsAfterTargets(d: Disk, ws: seq<Write>)
    requires forall k :: 0 <= k < |ws| ==> ws[k].Target?
    ensures Exec(d, ws).backups == d.backups
  {
    if ws != [] {
      BackupsAfterTargets(d, ws[..|ws| - 1]);
    }
  }

  lemma {:induction false} BackupWritesAre(files: Files, id: MutationId, entries: seq<FileEntry>)
    ensures forall k :: 0 <= k < |BackupWrites(files, id, entries)| ==>
        BacksUp(files, id, entries, BackupWrites(files, id, entries)[k])
    ensures forall i :: 0 <= i < |entries| && entries[i].path in files ==>
              BackUp(id, SafeBackupName(entries[i].path), files[entries[i].path]) in BackupWrites(files, id, entries)
  {
    if entries != [] {
      var last := |entries| - 1;
      BackupWritesAre(files, id, entries[..last]);
      var ws := BackupWrites(files, id, entries);
      forall k | 0 <= k < |ws| ensures BacksUp(files, id, entries, ws[k]) {
        if k < |BackupWrites(files, id, entries[..last])| {
          assert BacksUp(files, id, entries[..last], ws[k]);
          var i :| 0 <= i < last && BacksUpEntry(files, id, entries[..last][i], ws[k]);
          assert BacksUpEntry(files, id, entries[i], ws[k]);
        } else {
          assert BacksUpEntry(files, id, entries[last], ws[k]);
        }
      }
    }
  }

  ghost predicate BacksUpEntry(files: Files, id: MutationId, e: FileEntry, w: Write) {
    e.path in files && w == BackUp(id, SafeBackupName(e.path), files[e.path])
  }

  ghost predicate BacksUp(files: Files, id: MutationId, entries: seq<FileEntry>, w: Write) {
    exists i :: 0 <= i < |entries| && BacksUpEntry(files, id, entries[i], w)
  }

  /* Preconditions. */

  lemma {:induction false} UnchangedIff(files: Files, entries: seq<FileEntry>)
    ensures FirstChanged(files, entries) == None <==>
            forall k :: 0 <= k < |entries| ==> DigestOf(files, entries[k].path) == entries[k].before
  {
    if entries != [] {
      UnchangedIff(files, entries[1..]);
      assert forall k :: 1 <= k < |entries| ==> entries[k] == entries[1..][k - 1];
    }
  }

  lemma {:induction false} UneditedIff(files: Files, entries: seq<FileEntry>)
    ensures FirstEdited(files, entries) == None <==>
            forall k :: 0 <= k < |entries| ==> DigestOf(files, entries[k].path) == entries[k].after
  {
    if entries != [] {
      UneditedIff(files, entries[1..]);
      assert forall k :: 1 <= k < |entries| ==> entries[k] == entries[1..][k - 1];
    }
  }

  /* Fault atomicity. */

  lemma RestoredFile(d: Disk, done: seq<FileEntry>, p: Path)
    ensures ReadFile(Exec(Exec(d, TargetWrites(done)), RestoreWrites(d.files, done)).files, p) == ReadFile(d.files, p)
  {
    var forward, back := TargetWrites(done), RestoreWrites(d.files, done);
    FileAfter(d, forward, p);
    FileAfter(Exec(d, forward), back, p);
    if !Touches(back, p) {
      assert forall k :: 0 <= k < |forward| ==> forward[k].path == back[k].path;
      assert !Touches(forward, p);
    }
  }

  lemma AttemptRestores(d: Disk, entries: seq<FileEntry>, fault: Fault)
    requires Attempt(d.files, entries, fault).0 != Done
    ensures Exec(d, Attempt(d.files, entries, fault).1) == d
  {
    var done := entries[..Reached(entries, fault).0];
    var ws := TargetWrites(done) + RestoreWrites(d.files, done);
    ExecConcat(d, TargetWrites(done), RestoreWrites(d.files, done));
    forall p {
      RestoredFile(d, done, p);
    }
    SameFiles(Exec(d, ws).files, d.files);
    BackupsAfterTargets(d, ws);
    RecordsAfter(d, ws);
  }

  lemma SameFiles(f: Files, g: Files)
    requires forall p :: ReadFile(f, p) == ReadFile(g, p)
    ensures f == g
  {
    forall p ensures p in f <==> p in g {
      assert ReadFile(f, p) == ReadFile(g, p);
    }
    forall p | p in f ensures f[p] == g[p] {
      assert ReadFile(f, p) == ReadFile(g, p);
    }
  }

  lemma BackupsLeaveFiles(d: Disk, id: MutationId, entries: seq<FileEntry>)
    ensures Exec(d, BackupWrites(d.files, id, entries)).files == d.files
    ensures Exec(d, BackupWrites(d.files, id, entries)).records == d.records
  {
    var ws := BackupWrites(d.files, id, entries);
    BackupWritesAre(d.files, id, entries);
    assert forall k :: 0 <= k < |ws| ==> ws[k].BackUp?;
    RecordsAfter(d, ws);
    forall p ensures ReadFile(Exec(d, ws).files, p) == ReadFile(d.files, p) {
      FileAfter(d, ws, p);
    }
    SameFiles(Exec(d, ws).files, d.files);
  }

  lemma FailedTransaction(d: Disk, id: MutationId, r: Record, fault: Fault)
    requires Attempt(d.files, r.files, fault).0 != Done
    ensures var after := Exec(d, BackupWrites(d.files, id, r.files) + Attempt(d.files, r.files, fault).1);
      after.files == d.files && after.records == d.records
  {
    hide Exec, BackupWrites, Attempt;
    var saved := BackupWrites(d.files, id, r.files);
    ExecConcat(d, saved, Attempt(d.files, r.files, fault).1);
    BackupsLeaveFiles(d, id, r.files);
    AttemptRestores(Exec(d, saved), r.files, fault);
  }

  // All or nothing: an apply that does not succeed leaves every target and every record as
  // they were, whichever file the fault hits.
  lemma FailedApplyChangesNothing(d: Disk, id: MutationId, fault: Fault)
    requires Apply(d, id, fault).0 != Done
    ensures Exec(d, Apply(d, id, fault).1).files == d.files
    ensures Exec(d, Apply(d, id, fault).1).records == d.records
  {
    hide BackupWrites, Attempt;
    if Attempted(d, id) {
      FailedTransaction(d, id, d.records[id], fault);
    }
  }

  /* The crash invariant. */

  // Apply gets as far as touching the disk.
  ghost predicate Attempted(d: Disk, id: MutationId) {
    && id in d.records
    && d.records[id].status != Applied
    && FirstChanged(d.files, d.records[id].files) == None
  }

  ghost predicate PlannedFor(entries: seq<FileEntry>, p: Path, content: Option<Text>) {
    exists i :: 0 <= i < |entries| && entries[i].path == p && Some(entries[i].content) == content
  }

  // Two files whose backups share a name had the same original.
  ghost predicate BackupNamesAgree(entries: seq<FileEntry>) {
    forall i, j :: 0 <= i < j < |entries| && SafeBackupName(entries[i].path) == SafeBackupName(entries[j].path) ==>
      entries[i].before == entries[j].before
  }

  // First every backup, then only target writes, then the record.
  lemma JournalShape(d: Disk, id: MutationId, fault: Fault)
    requires Attempted(d, id)
    ensures var r, ws := d.records[id], Apply(d, id, fault).1;
      var saved := BackupWrites(d.files, id, r.files);
      && saved <= ws
      && (forall k :: |saved| <= k < |ws| ==>
            || (ws[k].Target? && ws[k].content == ReadFile(d.files, ws[k].path))
            || (ws[k].Target? && PlannedFor(r.files, ws[k].path, ws[k].content))
            || (ws[k] == SaveRecord(id, Completed(r)) && k == |ws| - 1 && Apply(d, id, fault).0 == Done))
  {
    hide BackupWrites, FirstChanged;
    var r, ws := d.records[id], Apply(d, id, fault).1;
    var saved := BackupWrites(d.files, id, r.files);
    var done := r.files[..Reached(r.files, fault).0];
    forall k | 0 <= k < |done| ensures PlannedFor(r.files, TargetWrites(done)[k].path, TargetWrites(done)[k].content) {
      assert r.files[k] == done[k];
    }
  }

  lemma BackupsComplete(d: Disk, id: MutationId, fault: Fault, n: nat, i: nat)
    requires Attempted(d, id) && n <= |Apply(d, id, fault).1| && i < |d.records[id].files|
    requires |BackupWrites(d.files, id, d.records[id].files)| <= n
    requires d.records[id].files[i].path in d.files
    ensures var name := SafeBackupName(d.records[id].files[i].path);
      var after := Exec(d, Apply(d, id, fault).1[..n]);
      (id, name) in after.backups &&
      BacksUp(d.files, id, d.records[id].files, BackUp(id, name, after.backups[(id, name)]))
  {
    hide Exec, Apply, BackupWrites;
    var entries, ws := d.records[id].files, Apply(d, id, fault).1;
    var e, saved := entries[i], BackupWrites(d.files, id, entries);
    JournalShape(d, id, fault);
    BackupWritesAre(d.files, id, entries);
    assert BackUp(id, SafeBackupName(e.path), d.files[e.path]) in saved;
    assert ws[..n] == saved + ws[|saved|..n];
    BackupAfter(d, ws[..n], id, SafeBackupName(e.path));
  }

  lemma SameNameSameOriginal(files: Files, id: MutationId, entries: seq<FileEntry>, i: nat, c: Text)
    requires i < |entries| && BackupNamesAgree(entries) && FirstChanged(files, entries) == None
    requires BacksUp(files, id, entries, BackUp(id, SafeBackupName(entries[i].path), c))
    ensures ReadFile(files, entries[i].path) == Some(c)
  {
    UnchangedIff(files, entries);
    var j :| 0 <= j < |entries| && BacksUpEntry(files, id, entries[j], BackUp(id, SafeBackupName(entries[i].path), c));
    assert entries[i].before == entries[j].before;
  }

  lemma JournalMeansAttempt(d: Disk, id: MutationId, fault: Fault)
    ensures Apply(d, id, fault).1 != [] ==> Attempted(d, id)
  {
  }

  lemma CrashedFile(d: Disk, id: MutationId, fault: Fault, n: nat, p: Path)
    requires n <= |Apply(d, id, fault).1|
    requires ReadFile(Exec(d, Apply(d, id, fault).1[..n]).files, p) != ReadFile(d.files, p)
    ensures Attempted(d, id)
    ensures PlannedFor(d.records[id].files, p, ReadFile(Exec(d, Apply(d, id, fault).1[..n]).files, p))
    ensures |BackupWrites(d.files, id, d.records[id].files)| <= n
  {
    hide Exec, Apply, BackupWrites, PlannedFor, BacksUp;
    var ws := Apply(d, id, fault).1;
    JournalMeansAttempt(d, id, fault);
    FileAfter(d, ws[..n], p);
    var k :| 0 <= k < n && ws[k] == Target(p, ReadFile(Exec(d, ws[..n]).files, p));
    JournalShape(d, id, fault);
    OnlyBackups(d.files, id, d.records[id].files);
    assert BackupWrites(d.files, id, d.records[id].files) == ws[..|BackupWrites(d.files, id, d.records[id].files)|];
  }

  lemma OnlyBackups(files: Files, id: MutationId, entries: seq<FileEntry>)
    ensures forall k :: 0 <= k < |BackupWrites(files, id, entries)| ==> BackupWrites(files, id, entries)[k].BackUp?
  {
    BackupWritesAre(files, id, entries);
  }

  // Wherever an apply is cut short, each file holds its original or its planned bytes in
  // full, and a file that no longer holds its original has it in the backup area.
  lemma CrashInvariant(d: Disk, id: MutationId, fault: Fault, n: nat, p: Path)
    requires n <= |Apply(d, id, fault).1|
    ensures var after := Exec(d, Apply(d, id, fault).1[..n]);
      ReadFile(after.files, p) != ReadFile(d.files, p) ==>
        && Attempted(d, id)
        && PlannedFor(d.records[id].files, p, ReadFile(after.files, p))
        && (p in d.files && BackupNamesAgree(d.records[id].files) ==> ReadBackup(after, id, p) == Some(d.files[p]))
  {
    var after := Exec(d, Apply(d, id, fault).1[..n]);
    if ReadFile(after.files, p) != ReadFile(d.files, p) {
      CrashedFile(d, id, fault, n, p);
      var entries := d.records[id].files;
      if p in d.files && BackupNamesAgree(entries) {
        var i :| 0 <= i < |entries| && entries[i].path == p;
        BackupsComplete(d, id, fault, n, i);
        SameNameSameOriginal(d.files, id, entries, i, after.backups[(id, SafeBackupName(p))]);
      }
    }
  }
}
