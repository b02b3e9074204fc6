/**
 * `check_milestone_consistency` of bmad/scripts/audit_workflow.py: once the workflow has
 * progressed far enough, the state must name a milestone whose lock file exists, and every
 * milestone key's artifact must still hash to the value the lock recorded.
 */
module MilestoneAudit {
  import opened Wrappers
  import opened Values
  import opened Paths
  import opened Host
  import opened Findings
  import opened WorkflowDefinition

  const ID_MISSING := "STATE_MILESTONE_ID_MISSING"
  const LOCK_PATH_MISSING := "STATE_MILESTONE_LOCK_PATH_MISSING"
  const LOCK_PATH_UNEXPECTED := "STATE_MILESTONE_LOCK_PATH_UNEXPECTED"
  const LOCK_MISSING := "MILESTONE_LOCK_MISSING"
  const LOCK_INVALID := "MILESTONE_LOCK_INVALID"
  const FILES_INVALID := "MILESTONE_LOCK_FILES_INVALID"
  const ID_MISMATCH := "MILESTONE_ID_MISMATCH"
  const ARTIFACT_UNMAPPED := "MILESTONE_ARTIFACT_UNMAPPED"
  const ENTRY_MISSING := "MILESTONE_LOCK_ENTRY_MISSING"
  const LOCKED_PATH_INVALID := "MILESTONE_LOCKED_PATH_INVALID"
  const HASH_INVALID := "MILESTONE_LOCK_HASH_INVALID"
  const NAME_DRIFT := "MILESTONE_LOCK_ARTIFACT_NAME_DRIFT"
  const LOCKED_FILE_MISSING := "MILESTONE_LOCKED_FILE_MISSING"
  const LOCK_HASH_MISMATCH := "MILESTONE_LOCK_HASH_MISMATCH"
  const ARTIFACT_MISSING := "MILESTONE_ARTIFACT_MISSING"
  const ARTIFACT_DRIFT := "MILESTONE_ARTIFACT_DRIFT"
  /** `Path / x` for an `x` that is not a string. */
  const PATH_TYPE_ERROR := "TypeError: unsupported operand type for /"

  /** What the audit reads: the host routines, the repository files, its root and the state file's path. */
  datatype Ctx = Ctx(env: Env, fs: map<Path, Bytes>, root: Path, statePath: Path)


  /** `{sid: i for i, sid in enumerate(stage_ids)}.get(x)`: a repeated id keeps its last index. */
  function StageIndex(ids: seq<string>, x: string): (r: Option<nat>)
    ensures r.None? <==> x !in ids
    ensures r.Some? ==> r.value < |ids| && ids[r.value] == x && forall j :: r.value < j < |ids| ==> ids[j] != x
  {
    if ids == [] then None
    else if ids[|ids| - 1] == x then Some(|ids| - 1)
    else StageIndex(ids[..|ids| - 1], x)
  }

  /** `resolve_lock_path`: an absolute value is kept, a relative one is taken from the root. */
  function ResolveLockPath(root: Path, value: string): (p: Path)
    ensures IsAbsolute(value) ==> p == value
    ensures !IsAbsolute(value) ==> p == root + "/" + value
  {
    Join(root, value)
  }

  /** `resolve_artifact_path`, raising when the directory or the file name is not a string. */
  function ArtifactPath(root: Path, artifactsDir: Value, filename: Value): Result<Path, string> {
    if artifactsDir.VStr? && filename.VStr? then Success(Join(Join(root, artifactsDir.s), filename.s))
    else Failure(PATH_TYPE_ERROR)
  }

  /** Whether the milestone checks apply at this point of the workflow. */
  predicate RequireMilestone(ids: seq<string>, enforce: string, current: Value, completed: seq<Value>) {
    var scopeFreeze := StageIndex(ids, "scope_freeze");
    var enforceIdx := StageIndex(ids, enforce);
    || (scopeFreeze.Some? && |completed| > scopeFreeze.value)
    || (enforceIdx.Some? && |completed| >= enforceIdx.value)
    || (enforceIdx.Some? && current.VStr? && StageIndex(ids, current.s).Some?
        && StageIndex(ids, current.s).value >= enforceIdx.value)
  }

  // ---------- one milestone key ----------

  /** The lock entry's fields the key check reads. */
  function EntryField(entry: Value, field: string): Value {
    if entry.VMap? then GetOr(entry.entries, field, VNull) else VNull
  }

  /**
   * The key is intact: it is mapped, the lock records a path and a hash for it, and both the
   * locked copy and the live artifact are non-empty files with that hash.
   */
  predicate KeyIntact(ctx: Ctx, meta: Meta, files: Entries, key: string) {
    var filename := GetOr(meta.artifacts, key, VNull);
    var entry := GetOr(files, key, VNull);
    var lockedPath := EntryField(entry, "locked_path");
    var hash := EntryField(entry, "sha256");
    && Truthy(filename) && entry.VMap? && IsNonBlankStr(lockedPath) && IsNonBlankStr(hash)
    && NonEmptyFile(ctx.fs, ResolveLockPath(ctx.root, lockedPath.s))
    && ctx.env.sha256(ctx.fs[ResolveLockPath(ctx.root, lockedPath.s)]) == hash.s
    && ArtifactPath(ctx.root, meta.artifactsDir, filename).Success?
    && NonEmptyFile(ctx.fs, ArtifactPath(ctx.root, meta.artifactsDir, filename).value)
    && ctx.env.sha256(ctx.fs[ArtifactPath(ctx.root, meta.artifactsDir, filename).value]) == hash.s
  }

  /** The locked copy exists and still has the recorded hash. */
  predicate LockedCopyMatches(ctx: Ctx, files: Entries, key: string) {
    var entry := GetOr(files, key, VNull);
    var lockedPath := EntryField(entry, "locked_path");
    var hash := EntryField(entry, "sha256");
    && entry.VMap? && IsNonBlankStr(lockedPath) && IsNonBlankStr(hash)
    && NonEmptyFile(ctx.fs, ResolveLockPath(ctx.root, lockedPath.s))
    && ctx.env.sha256(ctx.fs[ResolveLockPath(ctx.root, lockedPath.s)]) == hash.s
  }

  /** The checks for one milestone key, short-circuiting at the first error. */
  function CheckKey(ctx: Ctx, meta: Meta, files: Entries, lockPath: Path, key: string): Result<seq<Finding>, string> {
    var filename := GetOr(meta.artifacts, key, VNull);
    var entry := GetOr(files, key, VNull);
    var lockedPath := EntryField(entry, "locked_path");
    var hash := EntryField(entry, "sha256");
    var name := EntryField(entry, "artifact");
    if !Truthy(filename) then Success([Err(ARTIFACT_UNMAPPED, key, ctx.statePath)])
    else if !entry.VMap? then Success([Err(ENTRY_MISSING, key, lockPath)])
    else if !IsNonBlankStr(lockedPath) then Success([Err(LOCKED_PATH_INVALID, key, lockPath)])
    else if !IsNonBlankStr(hash) then Success([Err(HASH_INVALID, key, lockPath)])
    else
      var drift := if name.VStr? && name != filename then [Warning(NAME_DRIFT, key, lockPath)] else [];
      var locked := ResolveLockPath(ctx.root, lockedPath.s);
      if !NonEmptyFile(ctx.fs, locked) then Success(drift + [Err(LOCKED_FILE_MISSING, key, locked)])
      else if ctx.env.sha256(ctx.fs[locked]) != hash.s then Success(drift + [Err(LOCK_HASH_MISMATCH, key, locked)])
      else match ArtifactPath(ctx.root, meta.artifactsDir, filename)
        case Failure(e) => Failure(e)
        case Success(path) =>
          if !NonEmptyFile(ctx.fs, path) then Success(drift + [Err(ARTIFACT_MISSING, key, path)])
          else if ctx.env.sha256(ctx.fs[path]) != hash.s then Success(drift + [Err(ARTIFACT_DRIFT, key, path)])
          else Success(drift)
  }

  /** A key yields at most one error, and otherwise only a name-drift warning. */
  lemma KeyShape(ctx: Ctx, meta: Meta, files: Entries, lockPath: Path, key: string)
    requires CheckKey(ctx, meta, files, lockPath, key).Success?
    ensures var fs := CheckKey(ctx, meta, files, lockPath, key).value;
      && Count(fs, Error) <= 1 && |fs| <= 2
      && forall i :: 0 <= i < |fs| && fs[i].severity != Error ==> fs[i].code == NAME_DRIFT
  {
    var fs := CheckKey(ctx, meta, files, lockPath, key).value;
    assert DriftThenError(fs);
    DriftThenErrorShape(fs);
  }

  /** An optional name-drift warning followed by at most one error. */
  predicate DriftThenError(fs: seq<Finding>) {
    || fs == []
    || (|fs| == 1 && (fs[0].severity == Error || fs[0].code == NAME_DRIFT))
    || (|fs| == 2 && fs[0].severity == Warn && fs[0].code == NAME_DRIFT && fs[1].severity == Error)
  }

  lemma DriftThenErrorShape(fs: seq<Finding>)
    requires DriftThenError(fs)
    ensures Count(fs, Error) <= 1 && |fs| <= 2
    ensures forall i :: 0 <= i < |fs| && fs[i].severity != Error ==> fs[i].code == NAME_DRIFT
  {
    if |fs| == 2 {
      assert fs[..1][..0] == [];
    } else if |fs| == 1 {
      assert fs[..0] == [];
    }
  }

  /** A key yields no error exactly when it is intact. */
  lemma KeyClean(ctx: Ctx, meta: Meta, files: Entries, lockPath: Path, key: string)
    requires CheckKey(ctx, meta, files, lockPath, key).Success?
    ensures !HasError(CheckKey(ctx, meta, files, lockPath, key).value) <==> KeyIntact(ctx, meta, files, key)
  {
    var fs := CheckKey(ctx, meta, files, lockPath, key).value;
    if KeyIntact(ctx, meta, files, key) {
      assert forall i :: 0 <= i < |fs| ==> fs[i].severity == Warn;
    } else {
      assert fs[|fs| - 1].severity == Error;
    }
  }

  /**
   * Artifact drift, and the type error of a non-string artifact path, are reached only once
   * the locked copy matched its recorded hash.
   */
  lemma DriftAfterLockedMatch(ctx: Ctx, meta: Meta, files: Entries, lockPath: Path, key: string)
    ensures var r := CheckKey(ctx, meta, files, lockPath, key);
      && (r.Success? && r.value != [] && r.value[|r.value| - 1].code == ARTIFACT_DRIFT ==>
            LockedCopyMatches(ctx, files, key))
      && (r.Failure? ==> LockedCopyMatches(ctx, files, key))
  {
  }

  // ---------- the key loop ----------

  /** The milestone key loop, in configuration order. */
  function CheckKeys(ctx: Ctx, meta: Meta, files: Entries, lockPath: Path, keys: seq<string>): Result<seq<Finding>, string> {
    if keys == [] then Success([])
    else match CheckKeys(ctx, meta, files, lockPath, keys[..|keys| - 1])
      case Failure(e) => Failure(e)
      case Success(acc) =>
        match CheckKey(ctx, meta, files, lockPath, keys[|keys| - 1])
        case Failure(e) => Failure(e)
        case Success(one) => Success(acc + one)
  }

  lemma HasErrorAppend(a: seq<Finding>, b: seq<Finding>)
    ensures HasError(a + b) <==> HasError(a) || HasError(b)
  {
    if HasError(a + b) {
      var i :| 0 <= i < |a + b| && (a + b)[i].severity == Error;
      if i >= |a| {
        assert b[i - |a|] == (a + b)[i];
      }
    }
    if HasError(b) {
      var i :| 0 <= i < |b| && b[i].severity == Error;
      assert (a + b)[|a| + i] == b[i];
    }
    if HasError(a) {
      var i :| 0 <= i < |a| && a[i].severity == Error;
      assert (a + b)[i] == a[i];
    }
  }

  /** Every element of `keys` satisfies `p`, checked from the end as the loop's fold is. */
  predicate AllOf(p: string -> bool, keys: seq<string>) {
    keys == [] || (AllOf(p, keys[..|keys| - 1]) && p(keys[|keys| - 1]))
  }

  lemma {:induction false} AllOfIff(p: string -> bool, keys: seq<string>)
    ensures AllOf(p, keys) <==> forall i :: 0 <= i < |keys| ==> p(keys[i])
  {
    if keys != [] {
      var init := keys[..|keys| - 1];
      AllOfIff(p, init);
      assert forall i :: 0 <= i < |init| ==> init[i] == keys[i];
    }
  }

  function Intact(ctx: Ctx, meta: Meta, files: Entries): string -> bool {
    key => KeyIntact(ctx, meta, files, key)
  }

  /** The key loop reports no error exactly when every milestone key is intact. */
  lemma {:induction false} CheckKeysClean(ctx: Ctx, meta: Meta, files: Entries, lockPath: Path, keys: seq<string>)
    requires CheckKeys(ctx, meta, files, lockPath, keys).Success?
    ensures !HasError(CheckKeys(ctx, meta, files, lockPath, keys).value) <==>
      forall i :: 0 <= i < |keys| ==> KeyIntact(ctx, meta, files, keys[i])
  {
    KeysCleanStep(ctx, meta, files, lockPath, keys);
    AllOfIff(Intact(ctx, meta, files), keys);
  }

  lemma {:induction false} KeysCleanStep(ctx: Ctx, meta: Meta, files: Entries, lockPath: Path, keys: seq<string>)
    requires CheckKeys(ctx, meta, files, lockPath, keys).Success?
    ensures !HasError(CheckKeys(ctx, meta, files, lockPath, keys).value) <==> AllOf(Intact(ctx, meta, files), keys)
  {
    if keys != [] {
      var init := keys[..|keys| - 1];
      var last := keys[|keys| - 1];
      KeysCleanStep(ctx, meta, files, lockPath, init);
      KeyClean(ctx, meta, files, lockPath, last);
      HasErrorAppend(CheckKeys(ctx, meta, files, lockPath, init).value, CheckKey(ctx, meta, files, lockPath, last).value);
    }
  }

  lemma {:induction false} KeysFailureSticks(ctx: Ctx, meta: Meta, files: Entries, lockPath: Path, keys: seq<string>, i: nat)
    requires i <= |keys| && CheckKeys(ctx, meta, files, lockPath, keys[..i]).Failure?
    ensures CheckKeys(ctx, meta, files, lockPath, keys) == CheckKeys(ctx, meta, files, lockPath, keys[..i])
    decreases |keys|
  {
    if i < |keys| {
      assert keys[..|keys| - 1][..i] == keys[..i];
      KeysFailureSticks(ctx, meta, files, lockPath, keys[..|keys| - 1], i);
    } else {
      assert keys[..i] == keys;
    }
  }

  /** The body of the key loop. */
  method KeyStep(ctx: Ctx, meta: Meta, files: Entries, lockPath: Path, key: string) returns (r: Result<seq<Finding>, string>)
    ensures r == CheckKey(ctx, meta, files, lockPath, key)
  {
    var filename := GetOr(meta.artifacts, key, VNull);
    if !Truthy(filename) {
      return Success([Err(ARTIFACT_UNMAPPED, key, ctx.statePath)]);
    }
    var entry := GetOr(files, key, VNull);
    if !entry.VMap? {
      return Success([Err(ENTRY_MISSING, key, lockPath)]);
    }
    var lockedPath := EntryField(entry, "locked_path");
    var hash := EntryField(entry, "sha256");
    var name := EntryField(entry, "artifact");
    if !IsNonBlankStr(lockedPath) {
      return Success([Err(LOCKED_PATH_INVALID, key, lockPath)]);
    }
    if !IsNonBlankStr(hash) {
      return Success([Err(HASH_INVALID, key, lockPath)]);
    }
    var found: seq<Finding> := [];
    if name.VStr? && name != filename {
      found := [Warning(NAME_DRIFT, key, lockPath)];
    }
    var locked := ResolveLockPath(ctx.root, lockedPath.s);
    if !NonEmptyFile(ctx.fs, locked) {
      return Success(found + [Err(LOCKED_FILE_MISSING, key, locked)]);
    }
    if ctx.env.sha256(ctx.fs[locked]) != hash.s {
      return Success(found + [Err(LOCK_HASH_MISMATCH, key, locked)]);
    }
    var path := ArtifactPath(ctx.root, meta.artifactsDir, filename);
    if path.Failure? {
      return Failure(path.error);
    }
    if !NonEmptyFile(ctx.fs, path.value) {
      return Success(found + [Err(ARTIFACT_MISSING, key, path.value)]);
    }
    if ctx.env.sha256(ctx.fs[path.value]) != hash.s {
      return Success(found + [Err(ARTIFACT_DRIFT, key, path.value)]);
    }
    r := Success(found);
  }

  /** The key loop of `check_milestone_consistency`. */
  method KeyLoop(ctx: Ctx, meta: Meta, files: Entries, lockPath: Path, keys: seq<string>) returns (r: Result<seq<Finding>, string>)
    ensures r == CheckKeys(ctx, meta, files, lockPath, keys)
  {
    var findings: seq<Finding> := [];
    for i := 0 to |keys|
      invariant CheckKeys(ctx, meta, files, lockPath, keys[..i]) == Success(findings)
    {
      assert keys[..i + 1][..i] == keys[..i];
      var one := KeyStep(ctx, meta, files, lockPath, keys[i]);
      if one.Failure? {
        KeysFailureSticks(ctx, meta, files, lockPath, keys, i + 1);
        return Failure(one.error);
      }
      findings := findings + one.value;
    }
    assert keys[..|keys|] == keys;
    r := Success(findings);
  }

  // ---------- the whole check ----------

  /** The lock file the convention expects: `<root>/<dir>/<milestone id>/<lock filename>`. */
  function ExpectedLock(root: Path, m: MilestoneMeta, milestoneId: string): Path {
    Join(Join(Join(root, Str(m.dir)), milestoneId), Str(m.lockFilename))
  }

  /** The warning for a lock path off the convention. */
  function Unexpected(ctx: Ctx, meta: Meta, milestoneId: string, lockPath: Path): seq<Finding> {
    if ctx.env.resolve(lockPath) != ctx.env.resolve(ExpectedLock(ctx.root, meta.milestone, milestoneId))
    then [Warning(LOCK_PATH_UNEXPECTED, "milestone_lock_path", ctx.statePath)] else []
  }

  /** The checks of a parsed lock document: its `files` mapping, its milestone id, and the keys. */
  function CheckLockDocument(ctx: Ctx, meta: Meta, milestoneId: string, lockPath: Path, lock: Entries)
    : Result<seq<Finding>, string>
  {
    var files := GetOr(lock, "files", VNull);
    var lockId := GetOr(lock, "milestone_id", VNull);
    if !files.VMap? then Success([Err(FILES_INVALID, "files", lockPath)])
    else
      var mismatch := if IsNonBlankStr(lockId) && lockId.s != milestoneId then [Err(ID_MISMATCH, lockId.s, lockPath)] else [];
      match CheckKeys(ctx, meta, files.entries, lockPath, meta.milestone.keys)
      case Failure(e) => Failure(e)
      case Success(keys) => Success(mismatch + keys)
  }

  /** The checks after the milestone id and lock path were found. */
  function CheckLock(ctx: Ctx, meta: Meta, milestoneId: string, lockPath: Path): Result<seq<Finding>, string> {
    var unexpected := Unexpected(ctx, meta, milestoneId, lockPath);
    if lockPath !in ctx.fs then Success(unexpected + [Err(LOCK_MISSING, "milestone_lock_path", lockPath)])
    else match LoadYamlMapping(ctx.env, ctx.fs, lockPath)
      case None => Success(unexpected + [Err(LOCK_INVALID, "milestone_lock_path", lockPath)])
      case Some(lock) =>
        match CheckLockDocument(ctx, meta, milestoneId, lockPath, lock)
        case Failure(e) => Failure(e)
        case Success(fs) => Success(unexpected + fs)
  }

  /** `check_milestone_consistency`. */
  function CheckMilestone(ctx: Ctx, state: Entries, meta: Meta, current: Value, completed: seq<Value>)
    : Result<seq<Finding>, string>
  {
    var milestoneId := GetOr(state, "milestone_id", VNull);
    var lockValue := GetOr(state, "milestone_lock_path", VNull);
    if !meta.milestone.enabled || !RequireMilestone(meta.stageIds, meta.milestone.enforce, current, completed) then
      Success([])
    else if !IsNonBlankStr(milestoneId) then Success([Err(ID_MISSING, "milestone_id", ctx.statePath)])
    else if !IsNonBlankStr(lockValue) then Success([Err(LOCK_PATH_MISSING, "milestone_lock_path", ctx.statePath)])
    else CheckLock(ctx, meta, milestoneId.s, ResolveLockPath(ctx.root, lockValue.s))
  }

  /**
   * Nothing is reported while milestones are disabled or not yet required; once required, a
   * missing milestone id or lock path is exactly one error and stops the check.
   */
  lemma Gate(ctx: Ctx, state: Entries, meta: Meta, current: Value, completed: seq<Value>)
    ensures var r := CheckMilestone(ctx, state, meta, current, completed);
      var required := meta.milestone.enabled && RequireMilestone(meta.stageIds, meta.milestone.enforce, current, completed);
      && (!required ==> r == Success([]))
      && (required && !IsNonBlankStr(GetOr(state, "milestone_id", VNull)) ==>
            r.Success? && |r.value| == 1 && r.value[0].code == ID_MISSING && Count(r.value, Error) == 1)
      && (required && IsNonBlankStr(GetOr(state, "milestone_id", VNull))
          && !IsNonBlankStr(GetOr(state, "milestone_lock_path", VNull)) ==>
            r.Success? && |r.value| == 1 && r.value[0].code == LOCK_PATH_MISSING && Count(r.value, Error) == 1)
  {
    var r := CheckMilestone(ctx, state, meta, current, completed);
    if r.Success? && |r.value| == 1 {
      assert r.value[..0] == [];
    }
  }

  /**
   * A lock document that lists its files yields no error exactly when its milestone id
   * agrees with the state and every milestone key is intact.
   */
  lemma LockDocumentClean(ctx: Ctx, meta: Meta, milestoneId: string, lockPath: Path, lock: Entries)
    requires GetOr(lock, "files", VNull).VMap?
    requires CheckLockDocument(ctx, meta, milestoneId, lockPath, lock).Success?
    ensures var files := GetOr(lock, "files", VNull).entries;
      var lockId := GetOr(lock, "milestone_id", VNull);
      !HasError(CheckLockDocument(ctx, meta, milestoneId, lockPath, lock).value) <==>
        && (!IsNonBlankStr(lockId) || lockId.s == milestoneId)
        && forall i :: 0 <= i < |meta.milestone.keys| ==> KeyIntact(ctx, meta, files, meta.milestone.keys[i])
  {
    var files := GetOr(lock, "files", VNull).entries;
    var lockId := GetOr(lock, "milestone_id", VNull);
    var mismatch := if IsNonBlankStr(lockId) && lockId.s != milestoneId then [Err(ID_MISMATCH, lockId.s, lockPath)] else [];
    var keys := CheckKeys(ctx, meta, files, lockPath, meta.milestone.keys).value;
    assert CheckLockDocument(ctx, meta, milestoneId, lockPath, lock).value == mismatch + keys;
    CheckKeysClean(ctx, meta, files, lockPath, meta.milestone.keys);
    HasErrorAppend(mismatch, keys);
    if mismatch != [] {
      assert mismatch[0].severity == Error;
    }
  }

  /**
   * Once the lock file parses, the lock checks report no error exactly when the lock document
   * does: a lock path off the convention is only a warning.
   */
  lemma UnexpectedOnlyWarns(ctx: Ctx, meta: Meta, milestoneId: string, lockPath: Path)
    requires LoadYamlMapping(ctx.env, ctx.fs, lockPath).Some?
    requires CheckLock(ctx, meta, milestoneId, lockPath).Success?
    ensures var lock := LoadYamlMapping(ctx.env, ctx.fs, lockPath).value;
      && CheckLockDocument(ctx, meta, milestoneId, lockPath, lock).Success?
      && (!HasError(CheckLock(ctx, meta, milestoneId, lockPath).value) <==>
          !HasError(CheckLockDocument(ctx, meta, milestoneId, lockPath, lock).value))
  {
    var lock := LoadYamlMapping(ctx.env, ctx.fs, lockPath).value;
    var unexpected := Unexpected(ctx, meta, milestoneId, lockPath);
    HasErrorAppend(unexpected, CheckLockDocument(ctx, meta, milestoneId, lockPath, lock).value);
  }

  /** The checks of a parsed lock document, with the key loop. */
  method LockDocumentChecks(ctx: Ctx, meta: Meta, milestoneId: string, lockPath: Path, lock: Entries)
    returns (r: Result<seq<Finding>, string>)
    ensures r == CheckLockDocument(ctx, meta, milestoneId, lockPath, lock)
  {
    var files := GetOr(lock, "files", VNull);
    if !files.VMap? {
      return Success([Err(FILES_INVALID, "files", lockPath)]);
    }
    var findings: seq<Finding> := [];
    var lockId := GetOr(lock, "milestone_id", VNull);
    if IsNonBlankStr(lockId) && lockId.s != milestoneId {
      findings := [Err(ID_MISMATCH, lockId.s, lockPath)];
    }
    var keys := KeyLoop(ctx, meta, files.entries, lockPath, meta.milestone.keys);
    if keys.Failure? {
      return Failure(keys.error);
    }
    r := Success(findings + keys.value);
  }

  /** The lock checks of `check_milestone_consistency`. */
  method LockChecks(ctx: Ctx, meta: Meta, milestoneId: string, lockPath: Path) returns (r: Result<seq<Finding>, string>)
    ensures r == CheckLock(ctx, meta, milestoneId, lockPath)
  {
    var findings := Unexpected(ctx, meta, milestoneId, lockPath);
    if lockPath !in ctx.fs {
      return Success(findings + [Err(LOCK_MISSING, "milestone_lock_path", lockPath)]);
    }
    var lock := LoadYamlMapping(ctx.env, ctx.fs, lockPath);
    if lock.None? {
      return Success(findings + [Err(LOCK_INVALID, "milestone_lock_path", lockPath)]);
    }
    var rest := LockDocumentChecks(ctx, meta, milestoneId, lockPath, lock.value);
    if rest.Failure? {
      return Failure(rest.error);
    }
    r := Success(findings + rest.value);
  }

  /** `check_milestone_consistency`. */
  method MilestoneConsistency(ctx: Ctx, state: Entries, meta: Meta, current: Value, completed: seq<Value>)
    returns (r: Result<seq<Finding>, string>)
    ensures r == CheckMilestone(ctx, state, meta, current, completed)
  {
    if !meta.milestone.enabled || !RequireMilestone(meta.stageIds, meta.milestone.enforce, current, completed) {
      return Success([]);
    }
    var milestoneId := GetOr(state, "milestone_id", VNull);
    var lockValue := GetOr(state, "milestone_lock_path", VNull);
    if !IsNonBlankStr(milestoneId) {
      return Success([Err(ID_MISSING, "milestone_id", ctx.statePath)]);
    }
    if !IsNonBlankStr(lockValue) {
      return Success([Err(LOCK_PATH_MISSING, "milestone_lock_path", ctx.statePath)]);
    }
    r := LockChecks(ctx, meta, milestoneId.s, ResolveLockPath(ctx.root, lockValue.s));
  }
}
