# PortForge agent: verified model

A Dafny model of the PortForge agent's state machines and of the editors they run.

- **Config mutations** (`Config*.dfy`). Plan, apply and roll back are written as methods of a
  `Project` object and specified by the journal of primitive writes they perform; a crash is a
  prefix of a journal. On top: fault atomicity, the crash invariant, safety over every run
  with external edits, and exactly when a rollback undoes its apply; `ConfigSpec` tells what
  each command answers and leaves without the journal.
- **The workflow saga** (`Workflow*.dfy`). Allocate at Central, plan, apply, compensate, with
  a persisted record, lost answers and crashes between any two effects. `WorkflowRuns` has the
  theorems over whole runs, `WorkflowSpec` how a call ends in every case, `WorkflowRetry` what
  a retry after a crash converges to, `WorkflowFiles` what a recorded success means for the
  files.
- **The dotenv editor** (`Lines`, `DotenvLine`, `Dotenv*`), on text, including both newline
  styles, `export` prefixes and comments. `DotenvMeaning` tells the whole update from the text
  and the assignment pattern alone, `DotenvComment` where a comment starts. `DotenvTurned` and
  `DotenvReaders` are about texts whose newlines an edit turns, `DotenvOverlap` about updates
  that share keys.
- **The Compose editor** (`Compose*`) and **the Kubernetes editor** (`Kubernetes*`), on parsed
  documents. `ComposeParse`, `ComposePlan` and `KubernetesLookup` tell which entries are found,
  what is written and reported, and every refusal.
- **The reservation registry** (`Registry*`, `Recommend`, `Evaluate`): the operations as
  critical sections of a store, runs of them, and processes that interleave under the lock.
  `EvaluateSpec` and `RegistrySpec` tell every state and every answer from the records alone.
- **The workflow fingerprint** (`Fingerprint`, `Sorting`) and **the merge of discovery
  sources** (`Discovery`).

Conventions. SHA-256 is a collision-free digest. Paths are resolved and file contents are
decoded text. Central is a map from request id to allocation. Fresh mutation and reservation
ids are hypotheses of the theorems that need them. One target write goes wrong per call at
most, and each primitive write is atomic, as `AtomicWrite` shows.

Where the code falls short of its documentation the model follows the code:

- Backup names collide, so a rollback can leave a file with another file's content
  (`ConfigUndo.CollisionLosesContent`); `RollbackUndoesApply` has the exact condition.
- A dotenv file in LF style whose last line ends in a lone carriage return turns into a CRLF
  file when a key is appended (`DotenvTurned.FinalCRExample`, `DotenvReaders.UnsetExample`); `IdempotentIff`,
  `DisjointUpdatesComposeIff`, `AllSetIff` and `RetryConvergesIff` have the exact conditions.
- Of two mappings of one dotenv file only the last one shows, and a retry after a crash
  between their writes shows both (`WorkflowFiles.EarlierMappingIsLost`,
  `WorkflowExamples.RetryCombinesMappings`); `RetryCompletesOnKeysIff` has the exact condition.
- An exception that the workflow does not catch leaves a new allocation active
  (`WorkflowExamples.RaisedLeavesAllocation`); `WorkflowReplay.LeavesAllocationIff` and
  `CutCallLeavesAllocationIff` have the exact conditions.
- A reservation made for an empty project name cannot be released by naming that project
  (`RegistrySafety.NamelessIsStuck`, `RegistrySafety.ReleaseUndoesReserveIff`).
- A rollback or an apply that died part-way can be finished only if what it wrote by then
  changed no file; otherwise its repetition refuses (`ConfigResume.CutRollbackExample`,
  `CutApplyExample`); `CutRollbackResumesIff` and `CutApplyResumesIff` have the exact conditions.
- The branch of compensation that rolls the config back is never taken
  (`WorkflowConfig.NothingToRollBack`).
- The fingerprint ignores requested ranges and tells apart orders of tied entries
  (`Fingerprint.RangesAreIgnored`, `Fingerprint.ProtocolsTie`).
- The duplicate check of Kubernetes mappings misses pairs that name one entry with and without
  its namespace (`KubernetesSpec.AliasesLoseAPort`); `NamespaceAliases` and
  `EachMappingServedIff` have the exact conditions.

`dafny verify dfyconfig.toml` checks the whole project.

## Model

| member | source | states |
|---|---|---|
| ConfigFiles.Directory.AtomicWrite | agent/portforge_agent/config_files.py:76-98 | at every moment of an atomic write, with an error at any stage, the target holds its old or its new content in full and nothing but the temporary file differs besides; afterwards it is exactly written or exactly untouched |
| ConfigManager.Project.ApplyMutation | agent/portforge_agent/config_manager.py:445-505 | the outcome, the primitive writes in their order, and the resulting disk of one apply, for any single fault |
| ConfigManager.Project.FindChanged | agent/portforge_agent/config_manager.py:454-464 | the first file whose live hash differs from the planned one, all checked before any write |
| ConfigManager.Project.BackUpAll | agent/portforge_agent/config_manager.py:466-476 | every original is read and backed up before any target is touched, and no target changes |
| ConfigManager.Project.WriteAll | agent/portforge_agent/config_manager.py:478-488 | targets are written in order up to the first failure, and how far it got |
| ConfigManager.Project.Restore | agent/portforge_agent/config_manager.py:493-497 | every written target is put back or deleted |
| ConfigManager.Project.RollbackMutation | agent/portforge_agent/config_manager.py:534-576 | the outcome, the writes and the disk of one rollback |
| ConfigManager.Project.Persist | agent/portforge_agent/config_manager.py:360-380 | the stored record names the given allocation, says PLANNED, and has one entry for each planned file, in order, with its path, kind and content, the digest of what was read and no digest of a result; nothing else changes |
| ConfigSpec.BackupNameOf | agent/portforge_agent/config_manager.py:356-357 | a backup name is the path with every slash and backslash replaced by two underscores, the names of joined paths being joined |
| ConfigSpec.ApplyAnswer | agent/portforge_agent/config_manager.py:445-505 | what an apply answers: not found, already applied, changed since the plan with the path of the first file that differs, the failure of the file the fault hits, or done |
| ConfigSpec.RollbackAnswer | agent/portforge_agent/config_manager.py:534-560 | what a rollback answers: not found, already rolled back, not applied, changed since the apply with the path of the first file that no longer has the applied digest, or done |
| ConfigSpec.AppliedEffect | agent/portforge_agent/config_manager.py:478-505 | a finished apply leaves each planned file with its content, the last one if it is planned several times, touches no other file, and changes of the records only its own, which says APPLIED and gains the digest of each content |
| ConfigSpec.RolledBackEffect | agent/portforge_agent/config_manager.py:562-576 | a finished rollback leaves each file of its record with what its backup holds, or without the file where there is none, touches nothing else, and says ROLLED_BACK |
| ConfigSafety.FileAfter | agent/portforge_agent/config_files.py:76-98 | after a journal a file holds a content some write of it gave that file, and is untouched if none targets it |
| ConfigSafety.LastWriteWins | agent/portforge_agent/config_manager.py:478-488 | of several writes of one journal to a file the last one counts |
| ConfigSafety.FailedApplyChangesNothing | agent/portforge_agent/config_manager.py:478-500 | all or nothing: whichever file a write, read-back or validation fails on, every file and every record is as before the call |
| ConfigSafety.CrashInvariant | agent/portforge_agent/config_manager.py:466-488 | wherever an apply is cut short each file holds its original or a planned content in full, and a file that no longer holds its original has it in the backup area, provided files that share a backup name had equal originals |
| ConfigSafety.BackupsComplete | agent/portforge_agent/config_manager.py:469-476 | once targets are being written, every file that existed has a backup under its backup name, holding the original of a planned file of that name: its own, unless backup names collide |
| ConfigRuns.RunConsistent | agent/portforge_agent/config_manager.py:445-576 | over every run of plans, applies, rollbacks, crashes and external edits, backups hold only what plans read and an APPLIED record has every backup and after-hash |
| ConfigRuns.AppliesOverwriteOnlyWhatWasPlanned | agent/portforge_agent/config_manager.py:454-488 | over every such run, what an apply overwrites is what its plan read, byte for byte, by a content of that plan; if files sharing a backup name had equal originals it stays recoverable from that mutation's backup ever after |
| ConfigRuns.RollbacksOverwriteOnlyWhatWasApplied | agent/portforge_agent/config_manager.py:548-571 | over every such run, what a rollback overwrites is a content its own plan wrote |
| ConfigUndo.RollbacksRestoreIff | agent/portforge_agent/config_manager.py:562-571 | over every such run, a rollback that runs to its end leaves every file of its plan with what the plan read, if and only if files that share a backup name were read alike |
| ConfigRuns.PlansAreFixed | agent/portforge_agent/config_manager.py:360-393 | no event ever alters the allocation a stored plan names, or the paths, kinds, before-hashes or contents it lists |
| ConfigUndo.RollbackUndoesApply | agent/portforge_agent/config_manager.py:534-576 | rolling back right after an apply succeeds and restores every file, deleting created ones, if and only if files planned twice are planned alike and files sharing a backup name had equal originals |
| ConfigUndo.CollidingBackupNames | agent/portforge_agent/config_manager.py:356-357 | the backup names of a/b and a__b coincide |
| ConfigUndo.CollisionLosesContent | agent/portforge_agent/config_manager.py:562-571 | a concrete plan of two files with different originals for which apply and rollback both succeed and both files end with one content, the original of one of them |
| ConfigUndo.RollbackGuard | agent/portforge_agent/config_manager.py:548-560 | the rollback after an apply is accepted exactly if files planned twice are planned alike |
| ConfigUndo.StackUndone | agent/portforge_agent/config_manager.py:534-576 | freshly planned mutations over shared files, applied in one order and rolled back in the reverse order: every rollback succeeds and the initial files return, if and only if every plan of the stack is reversible where it is applied |
| ConfigUndo.RollbackRefusedIff | agent/portforge_agent/config_manager.py:548-560 | a rollback is refused, with nothing written, exactly if some file no longer holds what the apply left |
| ConfigUndo.ApplyTwice | agent/portforge_agent/config_manager.py:448-449 | applying an applied mutation again does nothing |
| ConfigUndo.RollbackTwice | agent/portforge_agent/config_manager.py:537-538 | rolling back a rolled-back mutation again does nothing |
| ConfigUndo.ApplyAfterRollback | agent/portforge_agent/config_manager.py:445-449 | a rolled-back mutation can be applied again, and then leaves the files of the first time, if and only if its plan is reversible |
| ConfigUndo.ApplyRefusedIff | agent/portforge_agent/config_manager.py:451-464 | an apply is refused, with nothing written, exactly if some file no longer holds what the plan read |
| ConfigResume.CutRollbackResumesIff | agent/portforge_agent/config_manager.py:548-571 | a rollback that died after n files can be finished exactly if the backup of each of the n equals what the apply wrote, and then ends like one that never died; otherwise its repetition is refused with nothing written |
| ConfigResume.CutApplyResumesIff | agent/portforge_agent/config_manager.py:454-500 | an apply that died after any number of its writes, also while undoing a fault, can be finished exactly if no file it had written and not put back was changed by that, and then ends like one that never died; otherwise its repetition is refused with nothing written, and a rollback never accepts it |
| ConfigResume.CutRollbackExample | agent/portforge_agent/config_manager.py:548-560 | a plan for one file, applied, whose rollback dies after its one write and is refused when repeated |
| ConfigResume.CutApplyExample | agent/portforge_agent/config_manager.py:454-464 | a plan for one file whose apply dies after its one write and is refused when repeated, as is a rollback |
| Lines.JoinSplit | agent/portforge_agent/dotenv_editor.py:79-79 | joining the split text gives it back |
| Lines.SplitJoin | agent/portforge_agent/dotenv_editor.py:79-124 | splitting joined lines that hold no separator gives them back |
| DotenvLine.MatchesPattern | agent/portforge_agent/dotenv_editor.py:21-41 | the computed match of a line is the one and only match of the assignment pattern, given declaratively |
| DotenvLine.AtMostOneKey | agent/portforge_agent/dotenv_editor.py:40-41 | a line assigns at most one key |
| DotenvLine.SplitValueAndComment | agent/portforge_agent/dotenv_editor.py:44-56 | the loop computes the split that DotenvComment.SplitsIff characterises |
| DotenvComment.CommentIff | agent/portforge_agent/dotenv_editor.py:44-56 | a comment starts exactly at a hash before which there are only characters other than quotes and hashes, complete groups in single quotes without one inside, and complete groups in double quotes without one inside |
| DotenvComment.SplitsIff | agent/portforge_agent/dotenv_editor.py:44-56 | the value and comment of an assignment are what stands before and from that hash, or all of it and nothing where there is no such hash |
| DotenvComment.ReadBackIff | agent/portforge_agent/dotenv_editor.py:109-114 | a line reads as a value exactly if it matches the assignment pattern and what stands behind `KEY=`, up to the comment, is that value with space around it |
| DotenvLine.RewriteReadsBack | agent/portforge_agent/dotenv_editor.py:109-115 | a rewritten line assigns the same key, reads back as the new value and keeps prefix and comment |
| Dotenv.ComputeDotenvUpdate | agent/portforge_agent/dotenv_editor.py:63-125 | the editor's loops compute the update that DotenvMeaning.UpdateMeans characterises |
| Dotenv.FindOccurrences | agent/portforge_agent/dotenv_editor.py:85-90 | all lines assigning a key, in order |
| DotenvMeaning.LayoutIs | agent/portforge_agent/dotenv_editor.py:71-80 | the text as lines without newlines: CRLF if there is one anywhere, else LF, and whether the last line is ended |
| DotenvMeaning.UpdateMeans | agent/portforge_agent/dotenv_editor.py:63-125 | the whole update told from the text and the assignment pattern: which keys are duplicates, with their line numbers from 1; otherwise the edited lines `prefix KEY=value  comment`, the appended ones in mapping order, the newlines and the final one, and the changes reported, in mapping order, with what each variable read before |
| DotenvSpec.UpdateFailsIff | agent/portforge_agent/dotenv_editor.py:92-99 | an update fails exactly if some mapped key is assigned twice |
| DotenvSpec.UpdateSpec | agent/portforge_agent/dotenv_editor.py:101-125 | lines matching the pattern of no mapped key keep content and position; an edited line is its prefix, the key, the new value and, two spaces behind, its comment, and reads back as the new value; behind the old lines come assignments of exactly the missing keys in mapping order; each mapped key is assigned once, every other key as often as before |
| DotenvSpec.CountAfter | agent/portforge_agent/dotenv_editor.py:105-121 | how often each key is assigned after an update |
| DotenvSpec.SecondPass | agent/portforge_agent/dotenv_editor.py:63-125 | on the lines of a first pass the second pass finds nothing to change |
| DotenvText.PrintParse | agent/portforge_agent/dotenv_editor.py:75-80 | reading a text into lines and printing them gives the text back |
| DotenvText.ParsePrint | agent/portforge_agent/dotenv_editor.py:75-124 | printing a layout and reading it gives the layout back, for every layout a text can have |
| DotenvText.EditReadsBack | agent/portforge_agent/dotenv_editor.py:123-125 | an updated text with some line, whose newline style the edit did not turn, reads back as the edited lines in the old style |
| DotenvText.IdempotentIff | agent/portforge_agent/dotenv_editor.py:63-125 | a second update is byte-identical with no changes, exactly unless the first one appends behind a last line that still ends in a lone carriage return |
| DotenvTurned.DisjointUpdatesComposeIff | agent/portforge_agent/dotenv_editor.py:63-125 | updates with disjoint keys, one after the other, succeed exactly when one update with both does and yield its text, if and only if the first fails, or keeps the newline style, or the second is empty or replaces just one value, before a comment, on the lines that end up above the newline that turns |
| DotenvTurned.FinalCRExample | agent/portforge_agent/dotenv_editor.py:58-80 | a text and a mapping for which the newlines turn, so that neither idempotence nor composition holds |
| DotenvTurned.FoldedExample | agent/portforge_agent/dotenv_editor.py:58-80 | a text whose newlines turn and two updates that compose nevertheless |
| DotenvReaders.AllSetIff | agent/portforge_agent/dotenv_editor.py:63-125 | after an update every mapped variable is assigned on exactly one line and reads back as its value, if and only if the newline style is kept, or one variable is missing from the text and the lines above the newline that turns, read as one, assign all others |
| DotenvReaders.UnsetExample | agent/portforge_agent/dotenv_editor.py:58-80 | a text and a mapping of two variables after whose update a reader does not find both |
| DotenvReaders.OtherVariableIff | agent/portforge_agent/dotenv_editor.py:105-125 | a variable the mapping does not name is set to a value after an update exactly if it was before, or, if the newlines turn, if the lines above, read as one, set it |
| DotenvOverlap.HiddenIff | agent/portforge_agent/dotenv_editor.py:63-125 | for updates that keep the newlines, the text of the second is the same with and without the first before it, if and only if what the second does not name already stands in the text as the first wants it and the keys the first appends are, in order, the first ones the second would |
| DotenvPlan.BuildPlan | agent/portforge_agent/config_manager.py:307-308 | the dotenv files of a manifest are planned in order and the first failure decides |
| DotenvPlan.BuildIs | agent/portforge_agent/config_manager.py:144-175 | one planned dotenv file for each mapping, in order, with the printed port of each named request as the value of its variable; otherwise the first mapping that fails decides: a name without a port raises, a refused edit is rejected |
| DotenvPlan.ResolvedValid | agent/portforge_agent/config_manager.py:153-153 | what the planner hands the editor are distinct valid names and decimal ports |
| Decimal.ParsePrint | agent/portforge_agent/config_manager.py:153-153 | printing a port in decimal and parsing it gives the port back |
| Decimal.ParseIsPositional | agent/portforge_agent/compose_editor.py:105-115 | a numeral written behind another moves that one up by as many places as it has digits |
| Decimal.NoLeadingZero | agent/portforge_agent/config_manager.py:153-153 | a printed number starts with 0 only if it is 0 |
| CharsSpec.StripIff | agent/portforge_agent/dotenv_editor.py:113-113 | trimming takes away exactly the space around a string |
| CharsSpec.CaseIff | agent/portforge_agent/k8s_editor.py:238-240 | comparing in one case is comparing without regard to the case of letters |
| Workflow.Orchestrator.ApplyWorkflow | agent/portforge_agent/workflow.py:256-404 | the steps of one call have the outcome, effects and world that WorkflowSpec.CallEnds characterises |
| WorkflowSpec.CallEnds | agent/portforge_agent/workflow.py:256-404 | from every state a run can reach, how a call ends, case by case: conflict, replay, allocation unavailable, allocation no longer active, allocated, raised, rejected, applied, or failed with exactly these compensation actions; the record it leaves field by field; what Central then holds; and which plan is stored or carried out on disk |
| WorkflowSpec.SuccessIs | agent/portforge_agent/workflow.py:260-272 | from every such state, a call that succeeds returns the record it leaves: the hash of its manifest, APPLIED with a config and ALLOCATED without, the mutation if there is one, and the id and exactly the ports of the allocation Central then holds for the request |
| WorkflowSpec.CutCallRecord | agent/portforge_agent/workflow.py:350-364 | a call cut short once it has recorded its allocation and before its last effect leaves the record ALLOCATED, with the id and ports of that allocation; cut earlier it leaves the record as it was |
| Workflow.Orchestrator.CreateAllocation | backend/app/api/allocations.py:42-46 | Central creates at most one allocation per request id and reports a replay; its answer may be lost |
| Workflow.Orchestrator.CompensateAndFail | agent/portforge_agent/workflow.py:366-393 | compensation and the FAILED record it saves |
| Workflow.Orchestrator.UndoConfig | agent/portforge_agent/workflow.py:233-245 | the config half of compensation |
| WorkflowSpec.CompensationIs | agent/portforge_agent/workflow.py:233-245 | the config half of compensation rolls back an APPLIED mutation and says so, leaves any other alone, and reports as failed, with nothing written, what cannot be found or rolled back |
| WorkflowSafety.CallsReleaseOnlyTheirOwn | agent/portforge_agent/workflow.py:247-251 | cut short anywhere, a call leaves every allocation that existed before it untouched, so it releases only what it created |
| WorkflowSafety.CallsSaveOnlyTheirOwn | agent/portforge_agent/workflow.py:143-146 | a call never changes another request's record |
| WorkflowSafety.CreatedAllocation | agent/portforge_agent/workflow.py:278-284 | the only allocation a call can bring about is the one Central granted it |
| WorkflowSafety.CallKeepsLinks | agent/portforge_agent/workflow.py:350-364 | every record names the allocation Central holds for its request and, unless it FAILED, lists exactly its ports |
| WorkflowSafety.TurningApplied | agent/portforge_agent/workflow.py:401-404 | a record turns APPLIED only as the last effect of its own call, with its allocation active |
| WorkflowSafety.AppliedDoesNothing | agent/portforge_agent/workflow.py:260-272 | a call on an APPLIED request replays or conflicts and has no effect |
| WorkflowConfig.PlanAndApplyOutcome | agent/portforge_agent/workflow.py:366-371 | planning and applying in one breath fails only by a fault, and then files are as before and the record says PLANNED |
| WorkflowConfig.NothingToRollBack | agent/portforge_agent/workflow.py:233-245 | compensation after a failed apply never finds the mutation APPLIED, so it never rolls back |
| WorkflowConfig.CallIsConfigRun | agent/portforge_agent/workflow.py:366-404 | on disk, a call cut short anywhere is one plan followed by one apply cut short somewhere, or nothing |
| WorkflowConfig.FailedCallChangesNoFile | agent/portforge_agent/workflow.py:372-399 | a call whose config step is refused, at planning or by a fault while applying, leaves the project files as they were, no new APPLIED mutation, a FAILED record, and the allocation active exactly if it was there before or Central kept it; compensation is reported incomplete exactly if a release was due and not confirmed |
| WorkflowReplay.LeavesAllocationIff | agent/portforge_agent/workflow.py:278-404 | a call leaves an allocation it obtained itself active exactly if Central creates one for it and its answer is lost, or there is no config, or planning ends in an exception nobody catches, or the config step works, or that is refused and the release does not reach Central |
| WorkflowReplay.CutCallLeavesAllocationIff | agent/portforge_agent/workflow.py:278-404 | cut short anywhere, by a crash or by a write error nobody catches, a call leaves such an allocation active exactly if it had obtained it by then and keeps it to the end or had not come to release it, which it does last but one |
| WorkflowExamples.RaisedLeavesAllocation | agent/portforge_agent/workflow.py:366-372 | a call whose plan names a port Central does not: it ends in the exception, its new allocation active and its record ALLOCATED |
| WorkflowConfig.AppliedCallWroteItsPlan | agent/portforge_agent/workflow.py:366-404 | a newly APPLIED call has written every planned file and no other, stored the plan and stamped it APPLIED, under the id of the allocation Central then holds, and left that allocation active |
| WorkflowFiles.AppliedSetsVariablesIff | agent/portforge_agent/workflow.py:366-404 | after a newly APPLIED call every variable of the last mapping of a dotenv file is assigned on exactly one line and reads back as its port on record, if and only if the edit keeps the newlines, or one variable is missing and the lines above the newline that turns, read as one, assign all others |
| WorkflowFiles.EarlierMappingIsLost | agent/portforge_agent/config_manager.py:307-308 | after a newly APPLIED call a variable that only an earlier mapping of the same file names is set to a value exactly if it was before the call, or, if the newlines turn, if the lines above, read as one, set it; and it is assigned no more often than before |
| WorkflowRuns.OneAllocationPerRequest | agent/portforge_agent/workflow.py:224-404 | over every run of calls, crashes, lost answers and releases a request has at most one allocation, which only an explicit release deactivates |
| WorkflowRuns.RecordsNameTheOneAllocation | agent/portforge_agent/workflow.py:333-347 | whatever allocation a record ever named is the one Central has for the rest of the run |
| WorkflowRuns.RecordsListTheirPorts | agent/portforge_agent/workflow.py:347-364 | over every run an ALLOCATED or APPLIED record names the allocation Central has for its request, and lists exactly its ports, for the rest of the run |
| WorkflowRuns.AppliedForGood | agent/portforge_agent/workflow.py:260-272 | over every run APPLIED is absorbing and its ports stay its allocation's ports |
| WorkflowRuns.ReleasedNeverApplied | agent/portforge_agent/workflow.py:312-331 | over every run, once its allocation is released a request that is not APPLIED never becomes so |
| WorkflowRuns.WorkflowsRefineConfigRuns | agent/portforge_agent/workflow.py:256-404 | every workflow run is, on disk, a run of plans, applies, rollbacks and edits, so the config theorems carry over |
| WorkflowRetry.ReplanIff | agent/portforge_agent/config_manager.py:144-170 | once the planned dotenv files are written, planning and writing again changes nothing, exactly if the last mapping of each file kept its newline style |
| WorkflowRetry.RetryConvergesIff | agent/portforge_agent/workflow.py:270-276 | after a crash between applying the config and saying APPLIED, the retry ends APPLIED with every file byte-identical, exactly if the last mapping of each file kept its newline style |
| WorkflowRetry.RetryCompletes | agent/portforge_agent/workflow.py:366-404 | after a crash anywhere, a retry that is granted the allocation ends APPLIED with the files of an undisturbed call, for distinct files, if and only if each file is as before the first attempt or its edit kept the newline style |
| WorkflowRetry.RetryCompletesIff | agent/portforge_agent/workflow.py:366-404 | the same for any files: if and only if every mapping can be planned on the files as found and the last mapping of each file makes of them what it made of the originals |
| WorkflowOverlap.RetryCompletesOnKeysIff | agent/portforge_agent/workflow.py:366-404 | for mappings that keep the newlines, any number of them per file: if and only if each file is as before the first attempt or as left by a mapping that does not show behind the last, told from the keys and lines of the original |
| WorkflowExamples.RetryCombinesMappings | agent/portforge_agent/config_manager.py:307-308 | a call with two mappings of one file, cut short between its two writes: the retry ends APPLIED with both assignments, an undisturbed call with the second only |
| WorkflowExamples.RetryRewritesTurnedFile | agent/portforge_agent/workflow.py:270-276 | a call that wrote its config and died before saying so, whose retry does not leave the file as it is |
| WorkflowReplay.RecordTellsOutcome | agent/portforge_agent/workflow.py:286-404 | after every call that is no conflict the saved record says how it went, with the fingerprint it is held to |
| WorkflowReplay.ReplayRepeats | agent/portforge_agent/workflow.py:260-272 | repeating a successful call returns the same result and touches neither Central nor any file, whatever the world would answer |
| Evaluate.FindDiscovered | agent/portforge_agent/evaluate.py:74-86 | the first listener on a host port and protocol |
| Evaluate.FindReservation | agent/portforge_agent/evaluate.py:46-71 | the first reservation of a slot at an address, where a missing address matches all |
| EvaluateSpec.SameProjectIff | agent/portforge_agent/reserve_ops.py:274-277 | two project names are the same if neither is missing or empty and they are alike once trimmed, whatever the case of their letters |
| EvaluateSpec.FirstListeningIs | agent/portforge_agent/evaluate.py:74-86 | it is the first record of that protocol whose host port, or port where there is no host port, is the one asked for |
| EvaluateSpec.FirstCoveringIs | agent/portforge_agent/evaluate.py:46-71 | it is the first reservation of that host, port and protocol that does not differ in address, where only addresses given on both sides can differ |
| Evaluate.EvaluatePort | agent/portforge_agent/evaluate.py:116-157 | the state of a port, as EvaluateSpec.StateIff characterises it; FREE and CONFLICT outright |
| EvaluateSpec.StateIff | agent/portforge_agent/evaluate.py:116-157 | the whole table: FREE without listener and reservation, RESERVED without listener, SYSTEM for a system listener, ACTIVE for another one unless the port is reserved for a project its own is not confirmed to be, and CONFLICT then |
| Evaluate.EvaluateAll | agent/portforge_agent/evaluate.py:160-182 | every listening or reserved port of the host appears exactly once, in order, with its state |
| EvaluateSpec.EvaluatedIs | agent/portforge_agent/evaluate.py:116-182 | each line has the first listener, the first reservation at any address, and the state the two give |
| EvaluateSpec.MentionedIff | agent/portforge_agent/evaluate.py:160-172 | the overview has exactly the ports something listens on and those reserved on this host |
| EvaluateSpec.SlotOrder | agent/portforge_agent/evaluate.py:177-182 | the overview runs by port and, at one port, tcp before udp |
| Recommend.RecommendPort | agent/portforge_agent/recommend.py:93-156 | the candidate loop returns the least port passing all layers, or none, with the exact number tried |
| Recommend.FirstPassing | agent/portforge_agent/recommend.py:119-156 | the least passing port of a range; none exactly if no port passes |
| Recommend.PassesIffAvailable | agent/portforge_agent/cli.py:339-349 | a port passes exactly if check calls it available and it is not reserved at another address |
| EvaluateSpec.ExcludedIff | agent/portforge_agent/config.py:61-72 | exclusions are ranges with both ends in them |
| EvaluateSpec.CheckIff | agent/portforge_agent/cli.py:339-349 | check calls a port available exactly under the same conditions with the reservations at its own address |
| EvaluateSpec.RecommendedIff | agent/portforge_agent/recommend.py:119-156 | the recommended port is the least of the range that nothing listens on, nobody reserved at any address, no exclusion has within its ends, and that can be bound |
| Recommend.CheckAgrees | agent/portforge_agent/recommend.py:119-156 | check reports every recommended port available, and any smaller port it reports available is reserved at another address |
| Registry.ReservationStore.DoReserve | agent/portforge_agent/reserve_ops.py:95-158 | the critical section of reserve: outcome and new list |
| Registry.ReservationStore.DoRelease | agent/portforge_agent/reserve_ops.py:171-193 | the critical section of release |
| Registry.ReservationStore.DoReleaseById | agent/portforge_agent/reserve_ops.py:202-224 | the critical section of release by id |
| Registry.ReservationStore.DoRecommendAndReserve | agent/portforge_agent/recommend.py:197-226 | the critical section of recommend and reserve |
| RegistrySpec.CallAnswers | agent/portforge_agent/reserve_ops.py:66-224 | what each call answers: a slot somebody has is refreshed for its owner and refused to others, a free one is adopted by the project known to listen there and refused if anybody else does; only the owner releases, by id also whoever claims no project; a recommendation reserves the least clear port |
| RegistrySafety.CallEffect | agent/portforge_agent/reserve_ops.py:66-224 | each call adds, refreshes or removes exactly the one entry its outcome says, with the details the caller gave and those it left out kept, or leaves the list alone |
| RegistrySafety.CallKeepsSound | agent/portforge_agent/reserve_ops.py:66-224 | slots stay unique, ids distinct, and nobody's slot or owner moves |
| RegistrySafety.OthersUntouched | agent/portforge_agent/reserve_ops.py:97-120 | a call naming a project touches no reservation of another project |
| RegistrySafety.OwnersFixed | agent/portforge_agent/reserve_ops.py:97-107 | while its id is listed a reservation keeps project and slot |
| RegistrySafety.ReserveSucceedsIff | agent/portforge_agent/reserve_ops.py:26-53 | reserve reports success exactly if the slot ends up with a reservation of that project or, for an empty project name, with the one just made |
| RegistrySafety.NamelessReserveIff | agent/portforge_agent/reserve_ops.py:97-158 | reserving for an empty project name succeeds exactly if the slot is not reserved and nothing listens there |
| RegistrySafety.NamelessIsStuck | agent/portforge_agent/reserve_ops.py:97-193 | a reservation made for an empty project name can be neither refreshed nor released by naming that project |
| RegistrySafety.ReleaseSucceedsIff | agent/portforge_agent/reserve_ops.py:161-193 | release reports success exactly if the slot ends up free |
| RegistrySafety.ReleaseByIdSucceedsIff | agent/portforge_agent/reserve_ops.py:196-224 | release by id reports success exactly if the id ends up absent |
| RegistrySafety.ReserveAgainIff | agent/portforge_agent/reserve_ops.py:97-110 | reserving again refreshes the one reservation and changes nothing else, exactly if the project name is not empty |
| RegistrySafety.ReleaseUndoesReserveIff | agent/portforge_agent/reserve_ops.py:274-277 | releasing what was just reserved restores the list, exactly if the project name is not empty |
| RegistryRuns.RunSound | agent/portforge_agent/reserve_ops.py:66-224 | over every run at most one reservation per slot, and distinct ids |
| RegistryRuns.LeavesOnlyByRelease | agent/portforge_agent/reserve_ops.py:189-193 | only a successful release that names it takes a reservation out |
| RegistryRuns.NoClaimIsLost | agent/portforge_agent/recommend.py:212-226 | over every run a claim answered with success is in the list until such a release |
| RegistryRuns.CoexistingClaimsDiffer | agent/portforge_agent/recommend.py:159-226 | two recommended reservations that coexist never hold the same host, port and protocol |
| RegistryLock.AcquireLock | agent/portforge_agent/reservations/lock.py:84-92 | the polling loop takes the lock at the first free try, gives up only at a try past the deadline, and always tries once |
| RegistryLock.MutualExclusion | agent/portforge_agent/reservations/lock.py:67-97 | in any interleaving with timeouts, failures and crashes no two processes are inside the lock |
| RegistryLock.ActsSequentially | agent/portforge_agent/reservations/storage.py:56-139 | in any such interleaving the file is that of a sequential run of the finished critical sections in lock order, each answered as in that run, once per process; a call that timed out or failed to load or save changed nothing |
| RegistryLock.SharedRegistry | agent/portforge_agent/recommend.py:195-226 | so the shared file never has two reservations of one slot, and no successful claim is lost |
| RegistryLock.NoPortGivenTwice | agent/portforge_agent/recommend.py:195-226 | no two processes whose recommended reservations coexist were given the same slot |
| RegistryLock.UndisturbedCall | agent/portforge_agent/reservations/lock.py:67-97 | a call that finds the lock free and is not disturbed is answered as the file decides, saves what it decides, and gives the lock back |
| RegistryLock.LockComesFree | agent/portforge_agent/reservations/lock.py:84-97 | nobody takes the lock from its holder, a wait that times out fails and leaves lock and file alone, and once the holder is done, failed or dead the next try gets it |
| Compose.RewriteParsesBack | agent/portforge_agent/compose_editor.py:82-139 | rewriting replaces the host side only: address, container and protocol parse back as they were, the protocol spelled out exactly if it was |
| Compose.RewritesCollapse | agent/portforge_agent/compose_editor.py:132-139 | of successive rewrites only the last counts |
| Compose.SetHostSpec | agent/portforge_agent/compose_editor.py:185-194 | updating an entry, short or long, keeps what it matches and sets its host side |
| Compose.NewEntrySpec | agent/portforge_agent/compose_editor.py:195-203 | an added entry parses as the wanted port |
| ComposeParse.ShortIff | agent/portforge_agent/compose_editor.py:82-116 | a string is a single-port entry exactly if, trimmed, it is `c`, `h:c`, `:c`, `ip:h:c`, `ip::c`, `:h:c` or `::c` with numerals c and h and an address without a colon, followed by `/tcp`, `/udp` or nothing; and each part is the one written |
| ComposeParse.NoneIff | agent/portforge_agent/compose_editor.py:82-116 | every string that is not put together like this, a range for instance, is no candidate |
| ComposeParse.KeyIff | agent/portforge_agent/compose_editor.py:119-129 | the container port and protocol of an entry as they are written there, tcp where there is none |
| ComposeParse.HostIff | agent/portforge_agent/compose_editor.py:119-129 | the host side of an entry as it is written there |
| ComposeParse.SetHostIs | agent/portforge_agent/compose_editor.py:132-194 | an updated short entry is its address, the new host port, its container port and the protocol it spells out; of a long one only `published` is another |
| ComposeParse.NewEntryIs | agent/portforge_agent/compose_editor.py:195-203 | an added entry is `host:container`, with `/udp` behind it for udp |
| ComposeDocument.Document.ApplyPortMapping | agent/portforge_agent/compose_editor.py:142-213 | one mapping in place does what ComposePlan.ApplyIs characterises |
| ComposePlan.ApplyIs | agent/portforge_agent/compose_editor.py:142-213 | one mapping adds an entry where none has its container port and protocol, and otherwise publishes the only one that has anew, touching nothing else; it reports the host side the entry had and whether it was added |
| ComposePlan.RefusedIff | agent/portforge_agent/compose_editor.py:156-183 | exactly when and why one mapping is refused: no such service, a service or list of the wrong shape, or the number of entries that match if more than one |
| ComposeDocument.Document.PlanMappings | agent/portforge_agent/config_manager.py:186-206 | the nested planning loops, stopping at the first failure |
| ComposeSpec.PlannedDocument | agent/portforge_agent/config_manager.py:186-206 | after the loops, services not mapped are untouched; in the others every original entry keeps its place and only matched host sides change, and only ports the service lacked are added |
| ComposeSpec.EveryPortPlanned | agent/portforge_agent/config_manager.py:186-206 | each mapped port is published by exactly one entry, on the port of the last mapping asking for it |
| ComposeSpec.PlanSucceedsIff | agent/portforge_agent/compose_editor.py:156-183 | planning succeeds exactly if, on the original document, every allocation is known, every service well formed and no mapped port ambiguous |
| ComposePlan.PlanFailsIff | agent/portforge_agent/config_manager.py:186-206 | a plan fails with an error exactly if that is what is wrong, in the original document, with the first mapping that could not be applied alone |
| ComposePlan.ChangesReported | agent/portforge_agent/config_manager.py:186-206 | a plan reports one change for each mapping, in order: the host side the document had, or the port of the last earlier mapping of that container port, and the new one |
| ComposePlan.FlattenConcat | agent/portforge_agent/config_manager.py:188-190 | the mappings are taken service by service and entry by entry, in order |
| ComposeSpec.ReplanChangesNothing | agent/portforge_agent/config_manager.py:186-206 | planning the result again succeeds and changes nothing |
| Kubernetes.Documents.Resource | agent/portforge_agent/k8s_editor.py:138-170 | the one document of a kind and name, or why there is none |
| Kubernetes.Documents.ApplyHostPort | agent/portforge_agent/k8s_editor.py:173-271 | sets the one hostPort that KubernetesLookup.LocateIff characterises, or errs with the documents untouched |
| Kubernetes.Documents.ApplyNodePort | agent/portforge_agent/k8s_editor.py:274-349 | sets the one nodePort that KubernetesLookup.LocateIff characterises, or errs with the documents untouched |
| Kubernetes.Documents.PlanMappings | agent/portforge_agent/config_manager.py:238-284 | host ports then node ports, stopping at the first failure |
| KubernetesSpec.LocateSeesSkeleton | agent/portforge_agent/k8s_editor.py:198-255 | where a mapping leads depends on no hostPort or nodePort, so no mapping disturbs another's lookup |
| KubernetesLookup.LocateIff | agent/portforge_agent/k8s_editor.py:138-255 | a lookup finds an entry exactly if the kind is Deployment or StatefulSet, one document is that resource, it has a pod template with one container of the name, and one of its ports has the number and protocol; or, for a node port, if one Service of type NodePort or LoadBalancer has one such port; and that entry is what it finds |
| KubernetesLookup.LocateErrorIff | agent/portforge_agent/k8s_editor.py:138-255 | each error is given exactly if it names the first of these conditions that fails, with the number of matches where there are several |
| KubernetesSpec.LocateFindsTheOnlyOne | agent/portforge_agent/k8s_editor.py:138-255 | what a lookup finds is the one entry of the whole file that the mapping describes |
| KubernetesSpec.ReadAfterSet | agent/portforge_agent/k8s_editor.py:257-259 | setting one value changes that value alone |
| KubernetesSpec.PlannedDocuments | agent/portforge_agent/config_manager.py:238-284 | after both loops only hostPort and nodePort values differ, and each is that of the last mapping located there, or as before |
| KubernetesSpec.EveryPortPlanned | agent/portforge_agent/config_manager.py:238-284 | the entry of a mapping that no later mapping is an alias of ends with that mapping's port, and every nodePort lies in 30000 to 32767 |
| KubernetesSpec.EachMappingServedIff | agent/portforge_agent/config_manager.py:238-284 | after planning the entry of every mapping holds that mapping's port, if and only if aliases want the same port |
| KubernetesSpec.PlanSucceedsIff | agent/portforge_agent/config_manager.py:238-284 | planning succeeds exactly if, in the original, each mapping has an allocated port, for a node port one from 30000 to 32767, and the one entry LocateIff speaks of |
| KubernetesSpec.PlanFailsIff | agent/portforge_agent/config_manager.py:238-284 | a plan fails with an error exactly if that is what is wrong, in the original, with the first mapping that could not be applied alone |
| KubernetesSpec.ReplanChangesNothing | agent/portforge_agent/config_manager.py:238-284 | planning the result again succeeds and changes nothing |
| KubernetesSpec.NamespaceAliases | agent/portforge_agent/manifest.py:545-573 | two mappings that are found lead to one entry if and only if they agree in everything, protocols up to case, but for their namespaces, which are equal or one of them missing |
| KubernetesSpec.AliasesLoseAPort | agent/portforge_agent/manifest.py:545-573 | two mappings that are no duplicates for the manifest and lead to one entry: planning succeeds and the port of the first is not there |
| Sorting.SortAlikeIff | agent/portforge_agent/workflow.py:65-132 | two lists sort alike exactly if they agree, in order, on the elements of each key |
| Sorting.PermutationsSortAlike | agent/portforge_agent/workflow.py:65-132 | without ties they sort alike exactly if they are permutations of each other |
| Fingerprint.SameFormIff | agent/portforge_agent/workflow.py:59-135 | which manifests share a fingerprint, exactly |
| Fingerprint.SameFormIffPermuted | agent/portforge_agent/workflow.py:59-135 | without ties among requests, files and entries, exactly those equal up to the order of requests, files, services and entries |
| Fingerprint.AlikeComposeIff | agent/portforge_agent/workflow.py:88-103 | Compose mappings without tied entries count as the same exactly if file and services agree and each service has the same entries in some order |
| Fingerprint.AlikeKubernetesIff | agent/portforge_agent/workflow.py:104-130 | Kubernetes mappings without tied entries count as the same exactly if the file agrees and host and node ports are the same in some order |
| Fingerprint.SameComposeFileIff | agent/portforge_agent/workflow.py:88-103 | which Compose mappings count as the same |
| Fingerprint.SameKubernetesFileIff | agent/portforge_agent/workflow.py:104-130 | which Kubernetes mappings count as the same |
| Fingerprint.RangesAreIgnored | agent/portforge_agent/workflow.py:69-75 | the fingerprint never depends on requested ranges |
| Fingerprint.ViewIff | agent/portforge_agent/workflow.py:66-75 | everything a request says counts but its range |
| Fingerprint.EntriesTieIff | agent/portforge_agent/workflow.py:94-128 | Compose entries tie exactly if they differ at most in protocol, Kubernetes ports if they differ at most in namespace, protocol and allocation |
| Fingerprint.ProtocolsTie | agent/portforge_agent/workflow.py:94-99 | two entries that differ in protocol only tie, so their order changes the fingerprint |
| Discovery.MergeNativeAndDocker | agent/portforge_agent/discovery.py:112-172 | the loops compute the sorted merged view |
| Discovery.MergeSpec | agent/portforge_agent/discovery.py:112-172 | one record per Docker observation with Docker's ownership and the native process, plus every native observation of a socket Docker does not know, sorted |
| Discovery.SocketsAreTheUnion | agent/portforge_agent/discovery.py:91-109 | the sockets shown are exactly those either source observed |
| Discovery.WhoOwnsAndWhoHolds | agent/portforge_agent/discovery.py:122-165 | in a merged record Docker's ownership fields stand, and process and state come from the first native observation |
| Discovery.UnmatchedDocker | agent/portforge_agent/discovery.py:162-163 | a Docker record of a socket no native source saw is shown as it is |
| DiscoverySpec.OneSocketIff | agent/portforge_agent/discovery.py:91-109 | two records are of one socket exactly if they agree on address and protocol and on the port the host sees |
| DiscoverySpec.ListedInOrder | agent/portforge_agent/discovery.py:170-172 | the merged view is listed by the port shown, tcp before udp, and then by address; a host port of zero counts as none |
| Discovery.FirstIsFirst | agent/portforge_agent/discovery.py:140-142 | a socket is attributed to the first native observation of it |
| Discovery.DockerOwns | agent/portforge_agent/discovery.py:156-165 | a socket Docker knows is never shown as a native record |

## Left out

- ConfigManager.Project.ApplyMutation: does not model an OSError while backing up, restoring or saving the record; the code does not catch it, so it leaves what a crash at that write leaves, and one fault per call is all the fault model has.
- ConfigUndo.RollbackUndoesApply: is about a rollback that runs to its end; a rollback is not all-or-nothing under write errors, and the run theorems and ConfigResume cover it cut short.
- ConfigRuns.AppliesOverwriteOnlyWhatWasPlanned: takes each call as atomic with respect to external edits; the code checks hashes and then writes without protection in between.
- WorkflowReplay.LeavesAllocationIff: is about calls that run to their end; an OSError of `persist_plan` or of saving a record escapes the call as well, and leaves what CutCallLeavesAllocationIff says of a call cut there.
- Workflow.Orchestrator.ApplyWorkflow: takes calls as sequential, as the code holds no lock; a release by id is a release of the request's one allocation, and every failed answer of Central counts as not reached or lost.
- WorkflowRetry.RetryConvergesIff: is for manifests whose only config is dotenv; for Compose and Kubernetes the matching results are the ReplanChangesNothing lemmas on parsed documents, since YAML printing is not modelled.
- DotenvLine.MatchesPattern: covers valid keys; the key check of the manifest also lets a trailing newline through, which is not modelled.
- ComposeParse.ShortIff: takes ASCII digits where Python's isdigit takes more.
- Fingerprint.SameFormIff: speaks of the canonical form; that its JSON text and digest are injective is taken for granted.
- Evaluate.EvaluateAll: models states and records, not the wording of conflict reasons.
- RegistryLock.ActsSequentially: models one call per process and an operating system that drops the lock of a dead process.
- Aliasing of loaded reservations, parsed documents and YAML anchors: lists and trees are values that the methods replace.
- Targets inside the mutation directory, symbolic links, `resolve_within_root`, and byte encodings: paths are resolved and contents decoded before the model starts.
- `find_latest_planned_mutation`, `get_status`, `sync_project_reservations`, `evaluate_physical`, `prepare_workflow`: lookups and wrappers that would add easy members.
- `migrate_legacy_reservations`: can create two entries for one slot, outside the registry's own operations.
- Manifest validation, YAML parsing and printing, JSON storage formats and schema checks, change lists of the Kubernetes editor, redaction, messages and timestamps.
- Case mapping and whitespace beyond ASCII letters and the Unicode space characters listed in `Chars`.
- The backend, the dashboard, collectors, the bind probe (an arbitrary predicate fixed during a scan), and the command line apart from the verdict of `check`.
