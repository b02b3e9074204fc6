# BMAD workflow guards and REST template, modelled in Dafny

This project models the guard scripts of a BMAD delivery workflow and a small REST API
template. The workflow runs a product through ordered stages. Each stage must produce some
artifacts, which are files named in `workflow.yaml`.

- `bmad/scripts/audit_workflow.py` audits three things:
  - the workflow definition;
  - the delivery state in `.bmad/state.json` against that definition;
  - the milestone lock, which freezes the SHA-256 of the scope-defining artifacts once the
    project reaches a given stage.

  Every problem becomes a finding, which has a severity (ERROR, WARN or INFO), a code, a
  subject and the file it concerns. The run fails exactly when some finding is an ERROR.
- `bmad/scripts/milestone_lock.py` creates, imports, verifies, restores ("use"),
  reports on and activates milestone locks. A lock is a YAML document listing, for each
  milestone key, the locked copy's path and its SHA-256.
- `bmad/scripts/spec_baseline.py` seeds, snapshots, imports and reports on a baseline copy
  of the specification artifacts.
- `rest-api-template.rs` is the pagination, response envelope, error mapping and
  mock user handlers of an axum REST API template.

## How the model is built

The file system is a `map<Path, Bytes>` held by a `Host.Repo` object. Commands that write
files are methods that modify `repo.files`. Each such method is proved equal to a
function of the old file map. The codecs, SHA-256, the clock and `Path.resolve` are
fields of `Host.Env`, so every result is stated for any behaviour of those. YAML and JSON
values are `Values.Value`.

Python's run-time errors become `Failure` strings (or `Raised` outcomes) on the exact inputs
that trigger them. These are a `KeyError`, an `IndexError`, an `AttributeError`, and a
`TypeError` from an unhashable `in` test or from joining a path to a non-string. No
precondition excludes them.

Each loop of the source is a `method` with a `while`/`for` loop. The method is proved
equal to a specification function defined by recursion on the input's prefix. The
properties are proved about those functions.

| module | source |
|---|---|
| `Findings`, `WorkflowDefinition`, `WorkflowDefinitionProofs`, `ArtifactContent`, `MilestoneAudit`, `StateAudit` | `audit_workflow.py` |
| `MilestoneLock`, `MilestoneLockProofs` | `milestone_lock.py` |
| `SpecBaseline` | `spec_baseline.py` |
| `RestApi` | `rest-api-template.rs` |
| `Values`, `Paths`, `Ordering`, `Host`, `Wrappers` | shared: dictionaries, strings, paths, `sorted`, the host |

## Model

| member | source | states |
|---|---|---|
| Findings.PrintFindings | bmad/scripts/audit_workflow.py:876-891 | Returns exit 1 exactly when some finding is an ERROR, and 0 otherwise. It also returns the per-severity tallies, which add up to the number of findings. |
| Findings.CountPositiveIffHasError | bmad/scripts/audit_workflow.py:880-891 | The error tally is positive exactly when some finding has severity ERROR (`return 1 if errors else 0`). |
| Values.StripEmptyIffBlank | bmad/scripts/audit_workflow.py:128 | `s.strip()` is empty exactly when every character of `s` is whitespace. |
| Values.GetSet | bmad/scripts/milestone_lock.py:152-167 | After `d[k] = v`, looking up `k` gives `v` and every other key is unchanged. |
| Paths.RelPathJoin | bmad/scripts/milestone_lock.py:68-72 | `relpath` of `root / x` is `x`, and joining it back to the root gives the same path. |
| WorkflowDefinition.UnmappedKeysExact | bmad/scripts/audit_workflow.py:180-190 | The key scan raises (TypeError) exactly when some key is unhashable. Otherwise it yields one WF_MILESTONE_KEY_UNMAPPED per key missing from `artifacts`, in order. |
| WorkflowDefinition.ValidIdsMembers | bmad/scripts/audit_workflow.py:192-217 | A stage id is collected exactly when some stage is a mapping whose `id` is a non-blank string. |
| WorkflowDefinition.ScanStagesFacts | bmad/scripts/audit_workflow.py:192-263 | The stage scan collects exactly the valid ids, in order, and emits only stage codes, all of them errors. |
| WorkflowDefinition.CheckStageFacts | bmad/scripts/audit_workflow.py:193-263 | A stage contributes its id exactly when it is valid, and reports only stage codes, all errors. A non-mapping stage yields exactly one finding, WF_STAGE_INVALID. A mapping without a valid id yields exactly one, WF_STAGE_ID_MISSING. |
| WorkflowDefinition.CheckStageRaises | bmad/scripts/audit_workflow.py:193-251 | A stage raises exactly when it is valid, lists its outputs, and one of them is unhashable. |
| WorkflowDefinition.OutputKeysExact | bmad/scripts/audit_workflow.py:242-251 | The `outputs_required` loop raises (TypeError) exactly when some output key is unhashable. Otherwise it yields one WF_OUTPUT_KEY_UNMAPPED per output key missing from `artifacts`, in order. |
| WorkflowDefinition.HeaderCounts | bmad/scripts/audit_workflow.py:77-178 | A malformed `artifacts`, `stages` or `milestone` yields exactly one error each. The later checks then see empty `artifacts` and `stages`. |
| WorkflowDefinition.CheckWorkflow | bmad/scripts/audit_workflow.py:69-305 | The imperative check (section checks, key loop, stage loop) computes exactly `CheckWorkflowDefinition`. |
| WorkflowDefinition.StageLoop | bmad/scripts/audit_workflow.py:192-263 | The loop over `enumerate(stages)` equals the stage-scan specification, including the first raise. |
| WorkflowDefinition.UnmappedLoop | bmad/scripts/audit_workflow.py:180-190 | The milestone-key loop equals its specification, including a TypeError on the first unhashable key. |
| WorkflowDefinition.OutputLoop | bmad/scripts/audit_workflow.py:242-251 | The `outputs_required` loop equals its specification. |
| WorkflowDefinitionProofs.ValidStageCounts | bmad/scripts/audit_workflow.py:215-262 | For a valid stage: WF_STAGE_OWNER_MISSING exactly when neither `owner` nor `owners` is truthy. WF_STAGE_OUTPUTS_MISSING exactly when `outputs_required` is not a non-empty list. WF_STAGE_EXIT_GATE_MISSING exactly when `exit_gate.criteria` is not a non-empty list. Otherwise, one WF_OUTPUT_KEY_UNMAPPED per listed key missing from `artifacts`. |
| WorkflowDefinitionProofs.StagesMalformedFailSoft | bmad/scripts/audit_workflow.py:86-305 | A malformed `stages` section does not stop the check. It raises only in the milestone-key loop. Otherwise no stage finding and no stage id result, and a named enforcing stage is reported unknown when milestones are enabled. |
| WorkflowDefinitionProofs.ArtifactsMalformedUnmapsKeys | bmad/scripts/audit_workflow.py:77-190 | A malformed `artifacts` section becomes an empty mapping. With milestones enabled, every configured key is then reported unmapped. |
| WorkflowDefinitionProofs.AllErrors | bmad/scripts/audit_workflow.py:69-305 | Every finding of the definition check is an ERROR. |
| WorkflowDefinitionProofs.Counts | bmad/scripts/audit_workflow.py:69-305 | Each code is counted only in its own group. |
| WorkflowDefinitionProofs.SectionErrors | bmad/scripts/audit_workflow.py:77-108 | A malformed `artifacts`, `stages` or `milestone` gives exactly one error. The metadata then holds empty artifacts and stages. |
| WorkflowDefinitionProofs.UnmappedKeyErrors | bmad/scripts/audit_workflow.py:180-190 | With milestones enabled, the number of WF_MILESTONE_KEY_UNMAPPED findings is the number of configured keys missing from `artifacts`. With milestones disabled it is zero. |
| WorkflowDefinitionProofs.StageIdsAreValid | bmad/scripts/audit_workflow.py:289-305 | `stage_ids` in the metadata are exactly the valid stages' ids, in order. |
| WorkflowDefinitionProofs.DuplicateIffRepeated | bmad/scripts/audit_workflow.py:265-273 | One WF_STAGE_DUPLICATE exactly when the ids are not distinct. |
| WorkflowDefinitionProofs.EnforceIffUnknown | bmad/scripts/audit_workflow.py:275-287 | One WF_MILESTONE_ENFORCE_STAGE_UNKNOWN exactly when milestones are enabled and the enforcing stage is named but is not a valid id. |
| WorkflowDefinitionProofs.MilestoneDefaults | bmad/scripts/audit_workflow.py:110-115 | Without a `milestone` section, the defaults apply: enabled, `.bmad/milestones`, `ACTIVE`, `milestone-lock.yml`, the default keys and `parallel_dev`. |
| WorkflowDefinitionProofs.NoParallelDevFails | bmad/scripts/audit_workflow.py:110-115 | A definition with no `milestone` section and no valid `parallel_dev` stage always has an error. |
| ArtifactContent.NoTokensIff | bmad/scripts/audit_workflow.py:312-324 | No markers are required exactly when the key is not a gate report and not one of the four named keys. |
| ArtifactContent.ArchitectureReviewTokens | bmad/scripts/audit_workflow.py:314-321 | The architecture review gate report requires the gate markers and then its own two, so "Gate Status" is listed twice. |
| ArtifactContent.QaTokens | bmad/scripts/audit_workflow.py:316-319 | The QA plan and report require exactly their listed markers. |
| ArtifactContent.MissingTokens | bmad/scripts/audit_workflow.py:350 | A marker is reported missing exactly when it is required and does not occur in the content. |
| ArtifactContent.CheckMinimumContent | bmad/scripts/audit_workflow.py:327-360 | At most one ARTIFACT_CONTENT_INCOMPLETE error, present exactly when some required marker is absent. Nothing is reported when no markers are required. |
| ArtifactContent.GateReportComplete | bmad/scripts/audit_workflow.py:314-315 | A plain gate report passes exactly when it contains both "Gate Status" and "Blockers". |
| MilestoneAudit.StageIndex | bmad/scripts/audit_workflow.py:656-660 | The index map gives the last position of an id (later duplicates overwrite earlier ones), and `None` for an absent id. |
| MilestoneAudit.ResolveLockPath | bmad/scripts/audit_workflow.py:363-367 | An absolute path is kept. A relative one is joined to the repository root. |
| MilestoneAudit.Gate | bmad/scripts/audit_workflow.py:381-426 | With no milestone required, nothing is reported. When one is required, a missing id gives exactly one error, STATE_MILESTONE_ID_MISSING. A present id with a missing lock path gives exactly STATE_MILESTONE_LOCK_PATH_MISSING. |
| MilestoneAudit.KeyShape | bmad/scripts/audit_workflow.py:498-604 | Each key gives at most one error and at most two findings. Any non-error is the artifact-name drift warning. |
| MilestoneAudit.KeyClean | bmad/scripts/audit_workflow.py:498-604 | A key yields no error exactly when it is mapped, its lock entry is well-formed, and its locked copy and artifact are non-empty and hash to the locked digest. |
| MilestoneAudit.DriftAfterLockedMatch | bmad/scripts/audit_workflow.py:571-602 | MILESTONE_ARTIFACT_DRIFT is only reported after the locked copy matched its digest. |
| MilestoneAudit.CheckKeysClean | bmad/scripts/audit_workflow.py:498-604 | The key loop yields no error exactly when every milestone key is intact. |
| MilestoneAudit.LockDocumentClean | bmad/scripts/audit_workflow.py:469-604 | A lock document listing files has no error exactly when its milestone id agrees with the state (or is blank) and every key is intact. |
| MilestoneAudit.UnexpectedOnlyWarns | bmad/scripts/audit_workflow.py:428-444 | An unexpected lock path only warns. It never changes whether the lock check has an error. |
| MilestoneAudit.KeyLoop | bmad/scripts/audit_workflow.py:498-604 | The key loop equals its specification, including the first raise. |
| MilestoneAudit.KeyStep | bmad/scripts/audit_workflow.py:499-604 | One pass of the key loop equals `CheckKey`. |
| MilestoneAudit.LockDocumentChecks | bmad/scripts/audit_workflow.py:469-604 | The checks on a loaded lock equal their specification. |
| MilestoneAudit.LockChecks | bmad/scripts/audit_workflow.py:428-606 | The lock-path, existence, parse and document checks equal their specification. |
| MilestoneAudit.MilestoneConsistency | bmad/scripts/audit_workflow.py:370-606 | `check_milestone_consistency` equals its specification. |
| StateAudit.ShapeDiff | bmad/scripts/audit_workflow.py:631-654 | The shape findings are one STATE_FIELD_MISSING error per template field absent from the state, then one STATE_FIELD_UNKNOWN warning per state field absent from the template. Both lists are sorted and duplicate-free, and both memberships are if-and-only-if. |
| StateAudit.EachField | bmad/scripts/audit_workflow.py:632-654 | One finding per field, in order, with the given severity and code. |
| StateAudit.Lacking | bmad/scripts/audit_workflow.py:631-632 | A field is kept exactly when it is listed and absent from the other mapping. |
| StateAudit.SequenceFindings | bmad/scripts/audit_workflow.py:673-693 | An unknown `current_stage` gives STATE_CURRENT_STAGE_INVALID. Otherwise STATE_SEQUENCE_INVALID is reported exactly when `completed_stages` differs from the ids before the current stage. |
| StateAudit.DuplicateFindings | bmad/scripts/audit_workflow.py:695-703 | STATE_COMPLETED_DUPLICATE is reported exactly when the completed entries are not distinct under Python equality (`True == 1`). |
| StateAudit.UnknownCompletedCount | bmad/scripts/audit_workflow.py:705-715 | One STATE_COMPLETED_UNKNOWN per completed entry that is not a stage id. There are none exactly when every entry is known. |
| StateAudit.ExistingOutputVerdict | bmad/scripts/audit_workflow.py:754-778 | An existing output file gives OUTPUT_EMPTY_FILE exactly when it is empty, and otherwise the content check. OUTPUT_NOT_TRACKED is added exactly when its filename is not in `artifacts_created`. |
| StateAudit.UnknownCompletedRaises | bmad/scripts/audit_workflow.py:729-731 | A completed entry that is not a stage id makes the outputs loop raise (`stage_index[sid]`). |
| StateAudit.StaleNamesAreStale | bmad/scripts/audit_workflow.py:780-817 | Every name in the stale list is a non-empty filename of a current-stage output that exists and is newer than `last_updated_at`. |
| StateAudit.StaleNamesComplete | bmad/scripts/audit_workflow.py:780-817 | Every such stale output is in the list. |
| StateAudit.Membership | bmad/scripts/audit_workflow.py:819-840 | The `in {…}` test raises exactly for an unhashable value. Otherwise it reports at most one error, and none exactly when the value is an allowed string. |
| StateAudit.TaskFindings | bmad/scripts/audit_workflow.py:841-859 | Nothing is reported about `task_ids` exactly when it is a list, and a non-empty one once `parallel_dev` is among the completed stages. |
| StateAudit.Chars | bmad/scripts/audit_workflow.py:731-732 | Iterating a string yields its one-character strings, in order. |
| StateAudit.UnhashableCompletedRaises | bmad/scripts/audit_workflow.py:695-697 | An unhashable completed entry makes the audit raise at `set(completed)`. |
| StateAudit.UnknownNeverReported | bmad/scripts/audit_workflow.py:705-731 | A state audit that returns has no unknown completed entries. So STATE_COMPLETED_UNKNOWN never reaches the caller: the outputs loop raises first. |
| StateAudit.AuditOpening | bmad/scripts/audit_workflow.py:631-693 | The audit's findings begin with the shape findings followed by the progress findings. |
| StateAudit.MisalignedStage | bmad/scripts/audit_workflow.py:729-733 | When an earlier stage has no id, `stages[stage_index[sid]]` reads the wrong stage. In the concrete example, stage "a" is checked with no outputs. |
| StateAudit.EmitFields | bmad/scripts/audit_workflow.py:632-654 | The field loop equals `EachField`. |
| StateAudit.ReportUnknown | bmad/scripts/audit_workflow.py:705-715 | The unknown-entry loop equals its specification. |
| StateAudit.CheckStageOutputs | bmad/scripts/audit_workflow.py:733-778 | The loop over a stage's outputs equals its specification, including the first raise. |
| StateAudit.CheckCompletedOutputs | bmad/scripts/audit_workflow.py:729-778 | The loop over completed stages equals its specification. |
| StateAudit.CollectStale | bmad/scripts/audit_workflow.py:796-806 | The stale loop equals its specification. |
| StateAudit.CheckLastUpdated | bmad/scripts/audit_workflow.py:780-817 | The `last_updated_at` checks equal their specification. |
| StateAudit.RunLaterChecks | bmad/scripts/audit_workflow.py:695-873 | The checks after the sequence check equal their specification. |
| StateAudit.CheckStateAgainstWorkflow | bmad/scripts/audit_workflow.py:609-873 | `check_state_against_workflow` equals its specification. A missing state file gives exactly STATE_MISSING. |
| MilestoneLock.ResolveConfig | bmad/scripts/milestone_lock.py:86-124 | The configuration resolves exactly when every section has its required type. It then carries the section values, with the paths joined to the root and the keys defaulted when absent. |
| MilestoneLock.ResolveConfigDefaults | bmad/scripts/milestone_lock.py:86-124 | A workflow with a mapping `artifacts` and neither a `milestone` nor an `artifacts_dir` section resolves to the documented defaults: enabled, the default directories, pointer, lock file name and keys. |
| MilestoneLock.ReadActive | bmad/scripts/milestone_lock.py:127-131 | No active id when the pointer file is absent or blank. Otherwise the id is non-empty, with no whitespace at either end. |
| MilestoneLock.WriteActive | bmad/scripts/milestone_lock.py:134-136 | Writing the pointer changes that one file only. |
| MilestoneLock.ReadAfterWrite | bmad/scripts/milestone_lock.py:127-136 | Reading the pointer after writing a stripped id gives that id back. |
| MilestoneLock.LockPathInjective | bmad/scripts/milestone_lock.py:146-149 | Distinct relative milestone ids give distinct lock paths. |
| MilestoneLock.StampStateFields | bmad/scripts/milestone_lock.py:152-167 | Stamping sets `milestone_id`, `milestone_lock_path` and `milestone_locked_at`, and leaves every other field as it was. |
| MilestoneLock.UpdateStateMilestone | bmad/scripts/milestone_lock.py:152-167 | A missing or unreadable state file leaves the files unchanged. Otherwise only the state file is rewritten, with the stamped state. |
| MilestoneLock.UpdateStateOnlyStamps | bmad/scripts/milestone_lock.py:152-167 | Reading the state back gives the stamped fields and every other field unchanged. |
| MilestoneLock.PartitionFacts | bmad/scripts/milestone_lock.py:208-238 | The partition raises exactly on a key mapped to a non-string name. Otherwise every key lands in exactly one list, the available items are exactly the lockable keys, and nothing is missing exactly when every key is lockable. |
| MilestoneLock.CreateRun | bmad/scripts/milestone_lock.py:170-299 | A disabled milestone exits 1, an existing lock without `force` exits 1, and a missing source without `allow_partial` exits 1. All three leave the files untouched. Only exit 0 or 1 is returned. |
| MilestoneLock.PartitionLoop | bmad/scripts/milestone_lock.py:208-238 | The partition loop equals its specification. |
| MilestoneLock.CopyLoop | bmad/scripts/milestone_lock.py:240-254 | The copy loop's final files, entries and copied list equal its specification. |
| MilestoneLock.CreateLock | bmad/scripts/milestone_lock.py:170-299 | `create_lock` leaves exactly the files and outcome its specification gives. |
| MilestoneLock.Create | bmad/scripts/milestone_lock.py:380-392 | `cmd_create` locks the configured artifacts directory. |
| MilestoneLock.ImportArchive | bmad/scripts/milestone_lock.py:395-420 | The archive is the given directory or the latest one. A missing one exits 1 without changes. Otherwise the command is `create_lock` on it. |
| MilestoneLock.ResolveTarget | bmad/scripts/milestone_lock.py:423-452 | The target is the given id, or the active one. The lock path follows the convention, and the lock loads. |
| MilestoneLock.VerifyKey | bmad/scripts/milestone_lock.py:567-605 | Classifies each key in the source's order. An unmapped name, a missing entry, a blank locked path, a missing locked copy or a missing artifact is Missing. A locked copy whose hash differs from the recorded one is Drift, and so is an artifact whose hash differs. When both hashes match, the key is OK, and OK happens only then. Only the as-written call or a non-string name raises. |
| MilestoneLock.VerifyPartition | bmad/scripts/milestone_lock.py:567-605 | Every key lands in exactly one of ok, drift and missing. |
| MilestoneLock.VerifyAllOk | bmad/scripts/milestone_lock.py:567-605 | When every key verifies, all of them are OK and none drift or are missing. |
| MilestoneLock.ExtraKeys | bmad/scripts/milestone_lock.py:607-609 | The extra keys are exactly the lock's keys that are not configured. |
| MilestoneLock.VerifyWith | bmad/scripts/milestone_lock.py:536-632 | Exits 0 only with no drift and nothing missing. An unresolved target exits 1. |
| MilestoneLock.Verify | bmad/scripts/milestone_lock.py:536-632 | `cmd_verify`, with the locked path resolved against the repository root, equals `VerifyRun`. |
| MilestoneLock.VerifyLoop | bmad/scripts/milestone_lock.py:567-605 | The verify loop equals its specification. |
| MilestoneLock.UseStepShape | bmad/scripts/milestone_lock.py:483-509 | One restore step either changes nothing, or copies a locked file whose hash matches onto the artifact path. |
| MilestoneLock.UseOnlyVerified | bmad/scripts/milestone_lock.py:483-509 | Every file `use` changes receives a locked copy whose hash matched the lock. |
| MilestoneLock.UseKeepsExisting | bmad/scripts/milestone_lock.py:483-509 | Without `force`, no existing file is overwritten. |
| MilestoneLock.UseStepFails | bmad/scripts/milestone_lock.py:483-509 | A key is added to the failed list exactly when it is not restorable: it is unmapped, has no entry, or its locked file is missing or does not hash to the lock's digest. |
| MilestoneLock.UseTarget | bmad/scripts/milestone_lock.py:483-533 | Exits 1 exactly when some key failed, and raises exactly when the restore loop raised. On exit 0, the files are the restore loop's with the state binding updated to the target. Otherwise they are the loop's, unchanged. |
| MilestoneLock.UseBindsState | bmad/scripts/milestone_lock.py:520-533 | After a clean `use`, a state file that held a JSON mapping reads back with the target's id and lock path, and every other field is unchanged. A `use` that did not exit 0 leaves the state file as the loop left it. |
| MilestoneLock.UseRun | bmad/scripts/milestone_lock.py:455-533 | An unresolved target exits 1 and changes nothing. |
| MilestoneLock.UseLoop | bmad/scripts/milestone_lock.py:483-509 | The restore loop's files and lists equal its specification. |
| MilestoneLock.Use | bmad/scripts/milestone_lock.py:455-533 | `cmd_use` leaves exactly the files and outcome its specification gives. |
| MilestoneLock.StatusAgreesWithVerify | bmad/scripts/milestone_lock.py:339-375 | For a well-formed entry, `status` counts a key as missing exactly when `verify` does not find it OK. |
| MilestoneLock.MissingCountIff | bmad/scripts/milestone_lock.py:339-375 | The missing count is positive exactly when some key is not OK. |
| MilestoneLock.StatusRun | bmad/scripts/milestone_lock.py:302-377 | Never exits 1 without `--strict`. Only exit 0 or 1 is returned. |
| MilestoneLock.StatusStrictIff | bmad/scripts/milestone_lock.py:320-377 | With milestones enabled, `--strict` exits 1 exactly when there is no ACTIVE pointer, no lock file, or some configured key is missing or drifted. Without `--strict`, those cases exit 0. |
| MilestoneLock.StatusLoop | bmad/scripts/milestone_lock.py:339-375 | The status loop equals its specification. |
| MilestoneLock.Status | bmad/scripts/milestone_lock.py:302-377 | `cmd_status` equals `StatusRun`. |
| MilestoneLock.SetActiveRun | bmad/scripts/milestone_lock.py:635-660 | Exits 0 exactly when the configuration loads, milestones are enabled and the lock exists. Only then is the pointer written; otherwise the files are unchanged. |
| MilestoneLock.SetActive | bmad/scripts/milestone_lock.py:635-660 | `cmd_set_active` equals its specification. |
| MilestoneLock.SetActiveThenRead | bmad/scripts/milestone_lock.py:635-660 | After a successful `set-active`, the active id read back is the one set. |
| MilestoneLockProofs.CopyCoherent | bmad/scripts/milestone_lock.py:240-254 | When no copy target is also a source, every item is copied byte for byte and recorded with its digest. |
| MilestoneLockProofs.CreatedLock | bmad/scripts/milestone_lock.py:170-299 | When every configured key is lockable, `create` exits 0. The lock then loads, and lists every key with its copy's relative path and SHA-256. The sources are unchanged and the copies equal them. |
| MilestoneLockProofs.CreatedLockDocument | bmad/scripts/milestone_lock.py:236-269 | Any `create` that exits 0, including a partial one under `--allow-partial`, writes a lock that loads back. It records the milestone id and the full configured key list. Its `files` has an entry for exactly the lockable configured keys. |
| MilestoneLockProofs.CreatedPointer | bmad/scripts/milestone_lock.py:271-272 | Any `create` that exits 0 writes the id and a newline to the ACTIVE pointer when `--set-active` is given. Otherwise it leaves the pointer file as it was. |
| MilestoneLockProofs.CreatedState | bmad/scripts/milestone_lock.py:274 | Any `create` that exits 0 stamps a state file that held a JSON mapping with the three milestone fields. Any other state file is left as it was. |
| MilestoneLockProofs.CreatedTarget | bmad/scripts/milestone_lock.py:535-605 | After a create, `verify` with that id resolves the new lock. Every configured key then verifies OK with corrected resolution, and raises with the call as written. |
| MilestoneLockProofs.CreateThenVerify | bmad/scripts/milestone_lock.py:170-299 | Verifying a freshly created lock exits 0 with every key OK (corrected locked-path resolution). |
| MilestoneLockProofs.CreateThenVerifyAsWritten | bmad/scripts/milestone_lock.py:584 | With the call as written, verifying a freshly created non-empty lock always raises. |
| MilestoneLockProofs.CopyPathRoundTrip | bmad/scripts/milestone_lock.py:68-72 | The relative path recorded for a copy resolves back to that copy. |
| SpecBaseline.BaselineKeys | bmad/scripts/spec_baseline.py:45-49 | The configured keys when they form a list, and the six defaults otherwise. |
| SpecBaseline.ResolveConfig | bmad/scripts/spec_baseline.py:32-56 | A non-mapping `artifacts` or `baseline` raises, and so does a non-string directory. Otherwise the directories are joined to the root, with the defaults. |
| SpecBaseline.SyncPartition | bmad/scripts/spec_baseline.py:123-137 | Without a raise, every key is counted exactly once among the outcomes. |
| SpecBaseline.SyncKeepsExisting | bmad/scripts/spec_baseline.py:123-137 | Seeding without `--force` never overwrites an existing file. |
| SpecBaseline.SyncNeverSkips | bmad/scripts/spec_baseline.py:178-190 | A snapshot never skips a key. |
| SpecBaseline.SyncOnlyCopies | bmad/scripts/spec_baseline.py:123-137 | When no mapped key's source path is another mapped key's destination path, every file after a sync was already there or is a copy of a mapped key's original source. |
| SpecBaseline.SyncDelivers | bmad/scripts/spec_baseline.py:123-137 | When no mapped key's source path is another mapped key's destination path, every mapped key with a non-empty source ends with its destination holding the source's bytes, unless an existing file was kept. |
| SpecBaseline.CopyKeys | bmad/scripts/spec_baseline.py:123-137 | The copy loop's files and tallies equal its specification. |
| SpecBaseline.Finish | bmad/scripts/spec_baseline.py:110-163 | A command raises exactly when its loop did. Otherwise it exits 0. |
| SpecBaseline.SeedRun | bmad/scripts/spec_baseline.py:110-163 | `seed` exits 0 or raises. Without `--force` it keeps every existing file. |
| SpecBaseline.SnapshotRun | bmad/scripts/spec_baseline.py:166-213 | `snapshot` exits 0 or raises, and skips nothing. |
| SpecBaseline.ImportRun | bmad/scripts/spec_baseline.py:216-273 | Exits 1 exactly when the configuration loads and there is no usable archive directory. It then changes nothing. |
| SpecBaseline.Seed | bmad/scripts/spec_baseline.py:110-163 | `cmd_seed` equals its specification. |
| SpecBaseline.Snapshot | bmad/scripts/spec_baseline.py:166-213 | `cmd_snapshot` equals its specification. |
| SpecBaseline.ImportArchive | bmad/scripts/spec_baseline.py:216-273 | `cmd_import_archive` equals its specification. |
| SpecBaseline.MissingCountPositive | bmad/scripts/spec_baseline.py:91-105 | The count raises exactly on a non-string name. Otherwise it is positive exactly when some key's baseline copy is missing or empty. |
| SpecBaseline.StatusRun | bmad/scripts/spec_baseline.py:77-107 | Exits 1 exactly under `--strict` when some key lacks a non-empty baseline copy. |
| SpecBaseline.CountMissing | bmad/scripts/spec_baseline.py:91-105 | The status loop equals its specification. |
| SpecBaseline.Status | bmad/scripts/spec_baseline.py:77-107 | `cmd_status` equals `StatusRun`. |
| RestApi.TruncDiv | claude/skills/api-design-principles/assets/rest-api-template.rs:116 | Rust's truncating `/` agrees with floor division on non-negative operands. |
| RestApi.NewPaginated | claude/skills/api-design-principles/assets/rest-api-template.rs:115-124 | The division is defined exactly when it does not panic: a non-zero page size, and not `i64::MIN / -1` after wrap-around. `pages` always fits in i64. For a non-negative total and a positive page size whose sum does not overflow, `pages` is the least count of pages holding every item. |
| RestApi.HasNextIffMoreItems | claude/skills/api-design-principles/assets/rest-api-template.rs:126-128 | `has_next` holds exactly when items remain beyond this page. |
| RestApi.HasPrevIffNotFirst | claude/skills/api-design-principles/assets/rest-api-template.rs:130-132 | `has_prev` holds exactly when some items precede this page. |
| RestApi.SuccessResponse | claude/skills/api-design-principles/assets/rest-api-template.rs:147-152 | A success envelope carries the data and no error. |
| RestApi.ErrorResponse | claude/skills/api-design-principles/assets/rest-api-template.rs:154-164 | An error envelope carries no data, and the given code and message without details. |
| RestApi.IntoResponse | claude/skills/api-design-principles/assets/rest-api-template.rs:329-349 | The status and the body's code agree, and the variant is recoverable from them. Internal errors are 5xx and all others 4xx. |
| RestApi.ListUsers | claude/skills/api-design-principles/assets/rest-api-template.rs:192-226 | A page below 1 or a page size outside 1..100 is a bad request. Otherwise the page holds the mock users of its range, at most one page's worth, none beyond the total, and `pages` is correct. |
| RestApi.GetUser | claude/skills/api-design-principles/assets/rest-api-template.rs:252-275 | Not found exactly for id "999". Otherwise the user with that id. |
| RestApi.UpdateUser | claude/skills/api-design-principles/assets/rest-api-template.rs:278-307 | An invalid payload is a validation error. Otherwise not found exactly for "999". Each given field is applied, and each absent field takes its fixed default: `user@example.com`, `User Name` and Active. |
| RestApi.DeleteUser | claude/skills/api-design-principles/assets/rest-api-template.rs:310-324 | Not found exactly for "999". Otherwise 204. |
| RestApi.HandlersAgree | claude/skills/api-design-principles/assets/rest-api-template.rs:252-324 | Get and delete fail on the same ids. An empty valid update returns what get returns. |
| RestApi.WrapI64 | claude/skills/api-design-principles/assets/rest-api-template.rs:209-210 | The wrapped product is an i64, and equals the exact product when that fits. |
| RestApi.PageRangeOverflows | claude/skills/api-design-principles/assets/rest-api-template.rs:209-210 | With page 2^61+1 and page size 4, the wrapped range lies entirely beyond the 100 users and has four entries. |
| RestApi.PageRangeAsWrittenExact | claude/skills/api-design-principles/assets/rest-api-template.rs:209-210 | Without overflow, the range as written is the exact one. |

## Findings

| source | as written | input that shows it | evidently intended | confidence | as-written member | corrected member |
|---|---|---|---|---|---|---|
| bmad/scripts/milestone_lock.py:584 | `cmd_verify` calls the three-argument `resolve_lock_path` with two arguments, which raises TypeError. | Any lock with at least one mapped key whose entry has a valid `locked_path`, such as one `create` has just written. | Resolve `locked_path` against the repository root, as `cmd_status` (line 351) and the audit (`audit_workflow.py`:559) do. | not executed | MilestoneLockProofs.CreateThenVerifyAsWritten | MilestoneLockProofs.CreateThenVerify |
| claude/skills/api-design-principles/assets/rest-api-template.rs:209-210 | `(page - 1) * page_size` and `page * page_size` are i64 products, which wrap in a release build. | page = 2305843009213693953 (2^61+1), page_size = 4. | Reject the request or return an empty page, never users beyond the total of 100. | not executed | RestApi.PageRangeOverflows | RestApi.ListUsers |

## Left out

- Printing, report files (`write_report`), argument parsing and the `main` functions. In particular `audit_workflow.py`:916-1016 and its WF_FILE_MISSING / WF_LOAD_FAILED paths are left out. Exit codes and findings are modelled; their text is not.
- The YAML and JSON codecs, SHA-256, the clock, `Path.resolve` and file modification times are abstract parameters of `Host.Env`. Results hold for any behaviour of these.
- Directories, `is_dir`, `mkdir` and `find_latest_archive_dir`. The latest archive is a parameter, `latest`, and the archive directories a set, `dirs`.
- ARTIFACT_READ_FAILED (`audit_workflow.py`:336-348) is left out: reading is total in the model, so no OSError occurs.
- Timestamps are abstract integers, and float modification times are left out.
- `Values.Str` renders lists and mappings as the placeholders `[...]` and `{...}`, not as Python's `str()` does. Only finding subjects and lock entries' `sha256` text use it.
- `Paths.Join(p, "")` yields `p/`, where pathlib yields `p`. A lock entry without `locked_path` therefore resolves to `root/` rather than the repository root. The model counts that key as missing in `status` and `use`, where the source would raise IsADirectoryError in `sha256_file`.
- `Values.Value` has string keys and no floats or dates. A YAML document with non-string keys or float values is outside the model.
- `create_user`, the `validator` crate and the axum runtime. The payload's validity is a boolean parameter of `RestApi.UpdateUser`.
- RestApi.ListUsers: states the corrected range. A debug build's overflow panic is not modelled.
- RestApi.NewPaginated: follows a release build, where `total + page_size - 1` wraps around in i64. A debug build's panic on that overflow is not modelled. The page count is stated only when the sum does not overflow.
- SpecBaseline.SyncOnlyCopies, SpecBaseline.SyncDelivers: stated only when no mapped key's source path is another mapped key's destination path. Otherwise one key's copy can overwrite another key's source before it is copied, and the model then promises nothing about which bytes arrive.
- StateAudit.AuditOpening: fixes only the opening segments (shape, then progress). The later segments are stated by the functions that build them.
