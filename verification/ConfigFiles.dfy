// Project-bounded file access: reading, hashing, and the write-temp-then-replace
// primitive every other write goes through.
module ConfigFiles {
  import opened Wrappers

  type Path = string
  type Text = string
  type Files = map<Path, Text>

  // SHA-256 is modelled as a collision-free digest.
  datatype Digest = Sha256(content: Text)

  function ReadFile(files: Files, path: Path): Option<Text> {
    if path in files then Some(files[path]) else None
  }

  function DigestOf(files: Files, path: Path): Option<Digest> {
    match ReadFile(files, path)
    case None => None
    case Some(content) => Some(Sha256(content))
  }

  // Replace a file's content, or unlink it (a missing file is not an error).
  function Put(files: Files, path: Path, content: Option<Text>): Files {
    match content
    case None => files - {path}
    case Some(text) => files[path := text]
  }

  // Where an atomic write can be hit by an OSError.
  datatype WriteStage = CreatingTemp | Writing(done: nat) | Replacing

  // What a crash during a write of `content` to `path` may leave: the target holds its
  // old or its new content in full, and only the temporary file can differ besides.
  ghost predicate OldOrNew(before: Files, now: Files, path: Path, content: Text, temp: Path) {
    && ReadFile(now, path) in {ReadFile(before, path), Some(content)}
    && now - {path, temp} == before - {path}
  }

  lemma TempOnly(before: Files, path: Path, content: Text, temp: Path, written: Text)
    requires temp !in before && temp != path
    ensures OldOrNew(before, before[temp := written], path, content, temp)
    ensures before[temp := written] - {temp} == before
  {
  }

  lemma InPlace(before: Files, path: Path, content: Text, temp: Path)
    requires temp !in before && temp != path
    ensures OldOrNew(before, before, path, content, temp)
    ensures OldOrNew(before, before[path := content], path, content, temp)
    ensures before[temp := content][path := content] - {temp} == before[path := content]
  {
  }

  class Directory {
    var files: Files
    // Every directory content an observer, or a crash, has found so far.
    ghost var exposed: seq<Files>

    constructor ()
      ensures files == map[] && exposed == []
    {
      files, exposed := map[], [];
    }

    // One change of the directory, exposed to observers.
    method Step(now: Files)
      modifies this
      ensures files == now && exposed == old(exposed) + [now]
    {
      files, exposed := now, exposed + [now];
    }

    method AtomicWrite(path: Path, content: Text, temp: Path, fault: Option<WriteStage>) returns (ok: bool)
      requires temp !in files && temp != path
      modifies this
      ensures ok == (fault == None)
      ensures files == if ok then old(files)[path := content] else old(files)
      ensures old(exposed) <= exposed
      ensures forall k :: |old(exposed)| <= k < |exposed| ==> OldOrNew(old(files), exposed[k], path, content, temp)
    {
      hide OldOrNew;
      ghost var before := files;
      InPlace(before, path, content, temp);
      if fault == Some(CreatingTemp) {
        return false;
      }
      TempOnly(before, path, content, temp, "");
      Step(files[temp := ""]);
      var reached := match fault
        case Some(Writing(done)) => if done <= |content| then done else |content|
        case _ => |content|;
      TempOnly(before, path, content, temp, content[..reached]);
      assert before[temp := ""][temp := content[..reached]] == before[temp := content[..reached]];
      Step(files[temp := content[..reached]]);
      if fault != None {
        Step(files - {temp});
        return false;
      }
      assert content[..reached] == content;
      Step(files[path := files[temp]] - {temp});
      return true;
    }
  }
}
