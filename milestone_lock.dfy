/**
 * The milestone lock engine (bmad/scripts/milestone_lock.py). A lock freezes the
 * configured spec artifacts of one milestone: their bytes are copied into
 * `<milestone dir>/<id>/spec/`, and a YAML lock file records, per key, the artifact's
 * file name, the copy's path relative to the repository root and the copy's SHA-256.
 * An ACTIVE pointer file names the current milestone, and the workflow-state JSON
 * records which lock it is bound to.
 */
module MilestoneLock {
  import opened Wrappers
  import opened Values
  import opened Paths
  import opened Host

  const DEFAULT_KEYS: seq<string> := ["prd", "scope", "adr", "impact", "ui_ux_spec", "api_design"]
  const DEFAULT_ARTIFACTS_DIR: string := ".bmad/artifacts"
  const DEFAULT_MILESTONE_DIR: string := ".bmad/milestones"
  const DEFAULT_POINTER: string := ".bmad/milestones/ACTIVE"
  const DEFAULT_LOCK_FILENAME: string := "milestone-lock.yml"
  /** Where the state binding lives; fixed, whatever the workflow's `artifacts_dir`. */
  const STATE_FILE: string := ".bmad/artifacts/workflow-state.json"
  /** The source directory of `create`; fixed, whatever the workflow's `artifacts_dir`. */
  const CREATE_SOURCE_DIR: string := ".bmad/artifacts"
  const TYPE_ERROR: string := "TypeError: unsupported operand type for /"

  // ---------- configuration ----------

  datatype Config = Config(enabled: bool, artifactsDir: Path, milestoneDir: Path, lockFilename: string,
                           pointer: Path, artifacts: Entries, keys: seq<string>)

  function MilestoneSection(workflow: Entries): Value {
    GetOr(workflow, "milestone", VMap([]))
  }

  /**
   * `resolve_config`: raises on a non-mapping `artifacts` or `milestone`, a non-bool
   * `enabled`, a blank or non-string `dir`, `active_pointer` or `lock_filename`, a
   * non-list `keys`, or (in the path join) a non-string `artifacts_dir`.
   */
  function ResolveConfig(workflow: Entries, root: Path): (r: Result<Config, string>)
    ensures r.Success? <==>
      var ms := MilestoneSection(workflow);
      && GetOr(workflow, "artifacts", VMap([])).VMap? && ms.VMap?
      && GetOr(ms.entries, "enabled", VBool(true)).VBool?
      && IsNonBlankStr(GetOr(ms.entries, "dir", VStr(DEFAULT_MILESTONE_DIR)))
      && IsNonBlankStr(GetOr(ms.entries, "active_pointer", VStr(DEFAULT_POINTER)))
      && IsNonBlankStr(GetOr(ms.entries, "lock_filename", VStr(DEFAULT_LOCK_FILENAME)))
      && (HasKey(ms.entries, "keys") ==> GetOr(ms.entries, "keys", VNull).VList?)
      && GetOr(workflow, "artifacts_dir", VStr(DEFAULT_ARTIFACTS_DIR)).VStr?
    ensures r.Success? ==>
      var ms := MilestoneSection(workflow).entries;
      && VMap(r.value.artifacts) == GetOr(workflow, "artifacts", VMap([]))
      && VBool(r.value.enabled) == GetOr(ms, "enabled", VBool(true))
      && r.value.milestoneDir == Join(root, GetOr(ms, "dir", VStr(DEFAULT_MILESTONE_DIR)).s)
      && r.value.pointer == Join(root, GetOr(ms, "active_pointer", VStr(DEFAULT_POINTER)).s)
      && r.value.lockFilename == GetOr(ms, "lock_filename", VStr(DEFAULT_LOCK_FILENAME)).s
      && r.value.artifactsDir == Join(root, GetOr(workflow, "artifacts_dir", VStr(DEFAULT_ARTIFACTS_DIR)).s)
      && r.value.keys == (if HasKey(ms, "keys") then StrAll(GetOr(ms, "keys", VNull).items) else DEFAULT_KEYS)
  {
    var artifactsDir := GetOr(workflow, "artifacts_dir", VStr(DEFAULT_ARTIFACTS_DIR));
    var artifacts := GetOr(workflow, "artifacts", VMap([]));
    var milestone := MilestoneSection(workflow);
    if !artifacts.VMap? then Failure("ValueError: workflow.artifacts must be a mapping")
    else if !milestone.VMap? then Failure("ValueError: workflow.milestone must be a mapping")
    else
      var ms := milestone.entries;
      var enabled := GetOr(ms, "enabled", VBool(true));
      var mdir := GetOr(ms, "dir", VStr(DEFAULT_MILESTONE_DIR));
      var pointer := GetOr(ms, "active_pointer", VStr(DEFAULT_POINTER));
      var lockFilename := GetOr(ms, "lock_filename", VStr(DEFAULT_LOCK_FILENAME));
      if !enabled.VBool? then Failure("ValueError: workflow.milestone.enabled must be bool")
      else if !IsNonBlankStr(mdir) then Failure("ValueError: workflow.milestone.dir must be non-empty string")
      else if !IsNonBlankStr(pointer) then Failure("ValueError: workflow.milestone.active_pointer must be non-empty string")
      else if !IsNonBlankStr(lockFilename) then Failure("ValueError: workflow.milestone.lock_filename must be non-empty string")
      else if HasKey(ms, "keys") && !GetOr(ms, "keys", VNull).VList? then Failure("ValueError: workflow.milestone.keys must be a list")
      else if !artifactsDir.VStr? then Failure(TYPE_ERROR)
      else
        var keys := if HasKey(ms, "keys") then StrAll(GetOr(ms, "keys", VNull).items) else DEFAULT_KEYS;
        Success(Config(enabled.b, Join(root, artifactsDir.s), Join(root, mdir.s), lockFilename.s,
                       Join(root, pointer.s), artifacts.entries, keys))
  }

  /** Without `milestone` and `artifacts_dir` sections, the documented defaults apply. */
  lemma ResolveConfigDefaults(workflow: Entries, root: Path)
    requires GetOr(workflow, "artifacts", VMap([])).VMap?
    requires !HasKey(workflow, "milestone") && !HasKey(workflow, "artifacts_dir")
    ensures var r := ResolveConfig(workflow, root);
      && r.Success? && r.value.enabled && r.value.keys == DEFAULT_KEYS
      && r.value.milestoneDir == Join(root, DEFAULT_MILESTONE_DIR) && r.value.pointer == Join(root, DEFAULT_POINTER)
      && r.value.lockFilename == DEFAULT_LOCK_FILENAME && r.value.artifactsDir == Join(root, DEFAULT_ARTIFACTS_DIR)
  {
    assert MilestoneSection(workflow) == VMap([]);
    assert GetOr(workflow, "artifacts_dir", VStr(DEFAULT_ARTIFACTS_DIR)) == VStr(DEFAULT_ARTIFACTS_DIR);
    assert NonBlank(DEFAULT_MILESTONE_DIR) by { assert !IsSpace(DEFAULT_MILESTONE_DIR[0]); }
    assert NonBlank(DEFAULT_POINTER) by { assert !IsSpace(DEFAULT_POINTER[0]); }
    assert NonBlank(DEFAULT_LOCK_FILENAME) by { assert !IsSpace(DEFAULT_LOCK_FILENAME[0]); }
  }

  /** `load_yaml` of the workflow file followed by `resolve_config`. */
  function LoadConfig(env: Env, fs: map<Path, Bytes>, root: Path, workflow: string): Result<Config, string> {
    match LoadYamlMapping(env, fs, Join(root, workflow))
    case None => Failure("ValueError: invalid YAML object")
    case Some(wf) => ResolveConfig(wf, root)
  }

  // ---------- the ACTIVE pointer ----------

  /** `read_active_milestone`: the stripped pointer text, or None when absent or blank. */
  function ReadActive(env: Env, fs: map<Path, Bytes>, pointer: Path): (r: Option<string>)
    ensures pointer !in fs ==> r.None?
    ensures pointer in fs ==> (r.None? <==> !NonBlank(env.decode(fs[pointer])))
    ensures r.Some? ==> Stripped(r.value)
  {
    if pointer !in fs then None else StripNonBlank(env.decode(fs[pointer]))
  }

  /** `write_active_milestone`: the id and a newline. */
  function WriteActive(env: Env, fs: map<Path, Bytes>, pointer: Path, id: string): (r: map<Path, Bytes>)
    ensures r.Keys == fs.Keys + {pointer}
    ensures forall p :: p in fs && p != pointer ==> r[p] == fs[p]
  {
    fs[pointer := env.encode(id + "\n")]
  }

  /**
   * Writing an id without surrounding whitespace to the pointer and reading it back gives
   * the id, when the UTF-8 codec round-trips the line.
   */
  lemma ReadAfterWrite(env: Env, fs: map<Path, Bytes>, pointer: Path, id: string)
    requires env.decode(env.encode(id + "\n")) == id + "\n"
    requires Stripped(id)
    ensures ReadActive(env, WriteActive(env, fs, pointer, id), pointer) == Some(id)
  {
    StripLine(id);
  }

  // ---------- lock paths and the state binding ----------

  /** `resolve_lock_path`: `<milestone dir>/<id>/<lock file name>`. */
  function LockPath(milestoneDir: Path, id: string, lockFilename: string): Path {
    Join(Join(milestoneDir, id), lockFilename)
  }

  /** Distinct relative milestone ids have distinct lock files. */
  lemma LockPathInjective(milestoneDir: Path, id1: string, id2: string, lockFilename: string)
    requires !IsAbsolute(id1) && !IsAbsolute(id2) && !IsAbsolute(lockFilename)
    requires LockPath(milestoneDir, id1, lockFilename) == LockPath(milestoneDir, id2, lockFilename)
    ensures id1 == id2
  {
    JoinLeftInjective(Join(milestoneDir, id1), Join(milestoneDir, id2), lockFilename);
    JoinInjective(milestoneDir, id1, id2);
  }

  /** The directory of the locked copies: the `spec` sibling of the lock file. */
  function SpecDir(lockPath: Path): Path {
    Join(Parent(lockPath), "spec")
  }

  function StatePath(root: Path): Path {
    Join(root, STATE_FILE)
  }

  /** The three fields `update_state_milestone` sets. */
  function StampState(state: Entries, id: string, lockRel: string, now: string): Entries {
    Set(Set(Set(state, "milestone_id", VStr(id)), "milestone_lock_path", VStr(lockRel)), "milestone_locked_at", VStr(now))
  }

  /** Stamping sets the three milestone fields and leaves every other field as it was. */
  lemma StampStateFields(state: Entries, id: string, lockRel: string, now: string, k: string)
    ensures Get(StampState(state, id, lockRel, now), k) ==
      if k == "milestone_locked_at" then Some(VStr(now))
      else if k == "milestone_lock_path" then Some(VStr(lockRel))
      else if k == "milestone_id" then Some(VStr(id))
      else Get(state, k)
  {
    var s1 := Set(state, "milestone_id", VStr(id));
    var s2 := Set(s1, "milestone_lock_path", VStr(lockRel));
    GetSet(state, "milestone_id", VStr(id), k);
    GetSet(s1, "milestone_lock_path", VStr(lockRel), k);
    GetSet(s2, "milestone_locked_at", VStr(now), k);
  }

  /**
   * `update_state_milestone`: rewrites the state file with the binding stamped in; a
   * missing or unparsable state file is left alone.
   */
  function UpdateStateMilestone(env: Env, fs: map<Path, Bytes>, root: Path, id: string, lockPath: Path): (r: map<Path, Bytes>)
    ensures LoadJsonMapping(env, fs, StatePath(root)).None? ==> r == fs
    ensures LoadJsonMapping(env, fs, StatePath(root)).Some? ==>
      r == fs[StatePath(root) := env.dumpJson(VMap(StampState(LoadJsonMapping(env, fs, StatePath(root)).value, id, RelPath(lockPath, root), env.now)))]
    ensures r.Keys == fs.Keys && forall p :: p in fs && p != StatePath(root) ==> r[p] == fs[p]
  {
    match LoadJsonMapping(env, fs, StatePath(root))
    case None => fs
    case Some(state) =>
      fs[StatePath(root) := env.dumpJson(VMap(StampState(state, id, RelPath(lockPath, root), env.now)))]
  }

  /**
   * After a successful update, reading the state back (when the JSON codec round-trips)
   * shows the three new fields and every other field unchanged.
   */
  lemma UpdateStateOnlyStamps(env: Env, fs: map<Path, Bytes>, root: Path, id: string, lockPath: Path, k: string)
    requires LoadJsonMapping(env, fs, StatePath(root)).Some?
    requires forall v :: env.loadJson(env.dumpJson(v)) == Some(v)
    ensures var before := LoadJsonMapping(env, fs, StatePath(root)).value;
      var after := LoadJsonMapping(env, UpdateStateMilestone(env, fs, root, id, lockPath), StatePath(root));
      && after.Some?
      && Get(after.value, k) ==
           if k == "milestone_locked_at" then Some(VStr(env.now))
           else if k == "milestone_lock_path" then Some(VStr(RelPath(lockPath, root)))
           else if k == "milestone_id" then Some(VStr(id))
           else Get(before, k)
  {
    var before := LoadJsonMapping(env, fs, StatePath(root)).value;
    StampStateFields(before, id, RelPath(lockPath, root), env.now, k);
  }

  // ---------- create ----------

  /** An available key: its artifact file name and source path. */
  datatype Item = Item(key: string, name: string, src: Path)

  datatype Partition = Partition(missingMap: seq<string>, missingSource: seq<string>, available: seq<Item>)

  /** A key whose artifact can be locked: mapped, with a non-empty source file. */
  predicate Lockable(fs: map<Path, Bytes>, sourceDir: Path, artifacts: Entries, key: string) {
    Mapped(artifacts, key) && NonEmptyFile(fs, Join(sourceDir, FileName(artifacts, key)))
  }

  /** The first loop of `create_lock`, sorting the keys; a truthy non-string name raises. */
  function PartitionKeys(fs: map<Path, Bytes>, sourceDir: Path, artifacts: Entries, keys: seq<string>): Result<Partition, string> {
    if keys == [] then Success(Partition([], [], []))
    else match PartitionKeys(fs, sourceDir, artifacts, keys[..|keys| - 1])
      case Failure(e) => Failure(e)
      case Success(p) =>
        var key := keys[|keys| - 1];
        if !Truthy(NameOf(artifacts, key)) then Success(p.(missingMap := p.missingMap + [key]))
        else if BadName(artifacts, key) then Failure(TYPE_ERROR)
        else
          var src := Join(sourceDir, FileName(artifacts, key));
          if !NonEmptyFile(fs, src) then Success(p.(missingSource := p.missingSource + [key + ":" + src]))
          else Success(p.(available := p.available + [Item(key, FileName(artifacts, key), src)]))
  }

  /** The items describe lockable keys of `keys`, with their names and sources. */
  predicate ItemsOf(fs: map<Path, Bytes>, sourceDir: Path, artifacts: Entries, keys: seq<string>, items: seq<Item>) {
    forall i :: 0 <= i < |items| ==>
      && items[i].key in keys && Lockable(fs, sourceDir, artifacts, items[i].key)
      && items[i].name == FileName(artifacts, items[i].key) && items[i].src == Join(sourceDir, items[i].name)
  }

  /**
   * Every key lands in exactly one of the three lists; `available` holds exactly the
   * lockable keys; nothing is missing exactly when every key is lockable.
   */
  lemma PartitionFacts(fs: map<Path, Bytes>, sourceDir: Path, artifacts: Entries, keys: seq<string>)
    ensures PartitionKeys(fs, sourceDir, artifacts, keys).Failure? <==> exists k :: k in keys && BadName(artifacts, k)
    ensures PartitionKeys(fs, sourceDir, artifacts, keys).Success? ==>
      var p := PartitionKeys(fs, sourceDir, artifacts, keys).value;
      && |p.missingMap| + |p.missingSource| + |p.available| == |keys|
      && ItemsOf(fs, sourceDir, artifacts, keys, p.available)
      && (forall k :: k in keys && Lockable(fs, sourceDir, artifacts, k) ==> exists i :: 0 <= i < |p.available| && p.available[i].key == k)
      && (p.missingMap == [] && p.missingSource == [] <==> forall k :: k in keys ==> Lockable(fs, sourceDir, artifacts, k))
  {
    PartitionFails(fs, sourceDir, artifacts, keys);
    if PartitionKeys(fs, sourceDir, artifacts, keys).Success? {
      PartitionSizes(fs, sourceDir, artifacts, keys);
      PartitionCovers(fs, sourceDir, artifacts, keys);
      PartitionComplete(fs, sourceDir, artifacts, keys);
    }
  }

  lemma {:induction false} PartitionFails(fs: map<Path, Bytes>, sourceDir: Path, artifacts: Entries, keys: seq<string>)
    ensures PartitionKeys(fs, sourceDir, artifacts, keys).Failure? <==> exists k :: k in keys && BadName(artifacts, k)
  {
    if keys != [] {
      var init := keys[..|keys| - 1];
      var last := keys[|keys| - 1];
      PartitionFails(fs, sourceDir, artifacts, init);
      assert keys == init + [last];
      assert forall k :: k in keys <==> k in init || k == last;
    }
  }

  lemma {:induction false} PartitionSizes(fs: map<Path, Bytes>, sourceDir: Path, artifacts: Entries, keys: seq<string>)
    requires PartitionKeys(fs, sourceDir, artifacts, keys).Success?
    ensures var p := PartitionKeys(fs, sourceDir, artifacts, keys).value;
      && |p.missingMap| + |p.missingSource| + |p.available| == |keys|
      && ItemsOf(fs, sourceDir, artifacts, keys, p.available)
  {
    if keys != [] {
      var init := keys[..|keys| - 1];
      var last := keys[|keys| - 1];
      PartitionSizes(fs, sourceDir, artifacts, init);
      assert keys == init + [last];
      assert forall k :: k in init ==> k in keys;
    }
  }

  lemma {:induction false} PartitionCovers(fs: map<Path, Bytes>, sourceDir: Path, artifacts: Entries, keys: seq<string>)
    requires PartitionKeys(fs, sourceDir, artifacts, keys).Success?
    ensures var p := PartitionKeys(fs, sourceDir, artifacts, keys).value;
      forall k :: k in keys && Lockable(fs, sourceDir, artifacts, k) ==> exists i :: 0 <= i < |p.available| && p.available[i].key == k
  {
    if keys != [] {
      var init := keys[..|keys| - 1];
      var last := keys[|keys| - 1];
      PartitionCovers(fs, sourceDir, artifacts, init);
      assert keys == init + [last];
      var p := PartitionKeys(fs, sourceDir, artifacts, init).value;
      var p' := PartitionKeys(fs, sourceDir, artifacts, keys).value;
      forall k | k in keys && Lockable(fs, sourceDir, artifacts, k)
        ensures exists i :: 0 <= i < |p'.available| && p'.available[i].key == k
      {
        if k != last {
          assert k in init;
          var i :| 0 <= i < |p.available| && p.available[i].key == k;
          assert p'.available[i] == p.available[i];
        } else {
          assert p'.available[|p.available|].key == last;
        }
      }
    }
  }

  lemma {:induction false} PartitionComplete(fs: map<Path, Bytes>, sourceDir: Path, artifacts: Entries, keys: seq<string>)
    requires PartitionKeys(fs, sourceDir, artifacts, keys).Success?
    ensures var p := PartitionKeys(fs, sourceDir, artifacts, keys).value;
      p.missingMap == [] && p.missingSource == [] <==> forall k :: k in keys ==> Lockable(fs, sourceDir, artifacts, k)
  {
    if keys != [] {
      var init := keys[..|keys| - 1];
      var last := keys[|keys| - 1];
      PartitionComplete(fs, sourceDir, artifacts, init);
      assert keys == init + [last];
      assert forall k :: k in keys <==> k in init || k == last;
      var p := PartitionKeys(fs, sourceDir, artifacts, init).value;
      var p' := PartitionKeys(fs, sourceDir, artifacts, keys).value;
      assert p'.missingMap == [] && p'.missingSource == [] <==>
        p.missingMap == [] && p.missingSource == [] && Lockable(fs, sourceDir, artifacts, last);
    }
  }

  /** One lock-file entry. */
  function LockEntry(name: string, lockedPath: string, digest: string): Value {
    VMap([("artifact", VStr(name)), ("locked_path", VStr(lockedPath)), ("sha256", VStr(digest))])
  }

  /** The files, the lock entries, the copied paths, and the exception that stopped the loop. */
  datatype Copying = Copying(files: map<Path, Bytes>, entries: Entries, copied: seq<string>, crash: Option<string>)

  /** One iteration of the copy loop: copy, then record the copy's hash. */
  function CopyStep(c: Copying, env: Env, root: Path, specDir: Path, item: Item): Copying {
    if c.crash.Some? then c
    else
      var dst := Join(specDir, item.name);
      if item.src !in c.files then c.(crash := Some("FileNotFoundError"))
      else if item.src == dst then c.(crash := Some("SameFileError"))
      else
        var bytes := c.files[item.src];
        Copying(c.files[dst := bytes],
                Set(c.entries, item.key, LockEntry(item.name, RelPath(dst, root), env.sha256(bytes))),
                c.copied + [RelPath(dst, root)], None)
  }

  /** The second loop of `create_lock`, over the available items in order. */
  function CopyItems(env: Env, fs: map<Path, Bytes>, root: Path, specDir: Path, items: seq<Item>): Copying {
    if items == [] then Copying(fs, [], [], None)
    else CopyStep(CopyItems(env, fs, root, specDir, items[..|items| - 1]), env, root, specDir, items[|items| - 1])
  }

  /** The lock document `create_lock` writes. */
  function LockDocument(workflowPath: string, id: string, now: string, sourceLabel: string, sourceRel: string,
                        artifactsRel: string, keys: seq<string>, entries: Entries): Value {
    VMap([("schema_version", VInt(1)), ("workflow_path", VStr(workflowPath)), ("milestone_id", VStr(id)),
          ("created_at", VStr(now)),
          ("source", VMap([("type", VStr(sourceLabel)), ("path", VStr(sourceRel))])),
          ("artifacts_dir", VStr(artifactsRel)), ("keys", VList(StrValues(keys))), ("files", VMap(entries))])
  }

  /** What a lock command leaves behind: the files and its exit status or exception. */
  datatype LockRun = LockRun(files: map<Path, Bytes>, outcome: Outcome)

  /** Everything `create_lock` writes once the copies are made. */
  function Commit(env: Env, c: Copying, cfg: Config, root: Path, workflowPath: string, sourceDir: Path,
                  sourceLabel: string, id: string, setActive: bool): map<Path, Bytes> {
    var lockPath := LockPath(cfg.milestoneDir, id, cfg.lockFilename);
    var lock := LockDocument(workflowPath, id, env.now, sourceLabel, RelPath(sourceDir, root),
                             RelPath(cfg.artifactsDir, root), cfg.keys, c.entries);
    var withLock := c.files[lockPath := env.dumpYaml(lock)];
    var withPointer := if setActive then WriteActive(env, withLock, cfg.pointer, id) else withLock;
    UpdateStateMilestone(env, withPointer, root, id, lockPath)
  }

  /**
   * `create_lock`. It refuses with exit 1 and no change when the milestone is disabled,
   * when the lock exists and `force` is off, or when some key is missing and
   * `allowPartial` is off (the report file is not modelled).
   */
  function CreateRun(env: Env, fs: map<Path, Bytes>, root: Path, workflowPath: string, sourceDir: Path,
                     sourceLabel: string, id: string, force: bool, allowPartial: bool, setActive: bool): (r: LockRun)
    ensures LoadConfig(env, fs, root, workflowPath).Failure? ==> r.files == fs && r.outcome.Raised?
    ensures LoadConfig(env, fs, root, workflowPath).Success? ==>
      var cfg := LoadConfig(env, fs, root, workflowPath).value;
      && (!cfg.enabled ==> r == LockRun(fs, Exit(1)))
      && (cfg.enabled && LockPath(cfg.milestoneDir, id, cfg.lockFilename) in fs && !force ==> r == LockRun(fs, Exit(1)))
      && ((cfg.enabled && !allowPartial && (exists k :: k in cfg.keys && !Lockable(fs, sourceDir, cfg.artifacts, k))
             && (forall k :: k in cfg.keys ==> !BadName(cfg.artifacts, k))) ==> r == LockRun(fs, Exit(1)))
    ensures r.outcome.Exit? ==> r.outcome.code in {0, 1}
  {
    match LoadConfig(env, fs, root, workflowPath)
    case Failure(e) => LockRun(fs, Raised(e))
    case Success(cfg) =>
      if !cfg.enabled then LockRun(fs, Exit(1))
      else
        var lockPath := LockPath(cfg.milestoneDir, id, cfg.lockFilename);
        if lockPath in fs && !force then LockRun(fs, Exit(1))
        else
          PartitionFacts(fs, sourceDir, cfg.artifacts, cfg.keys);
          match PartitionKeys(fs, sourceDir, cfg.artifacts, cfg.keys)
          case Failure(e) => LockRun(fs, Raised(e))
          case Success(part) =>
            if (part.missingMap != [] || part.missingSource != []) && !allowPartial then LockRun(fs, Exit(1))
            else
              var c := CopyItems(env, fs, root, SpecDir(lockPath), part.available);
              if c.crash.Some? then LockRun(c.files, Raised(c.crash.value))
              else LockRun(Commit(env, c, cfg, root, workflowPath, sourceDir, sourceLabel, id, setActive), Exit(0))
  }

  /** The first loop of `create_lock`. */
  method PartitionLoop(fs: map<Path, Bytes>, sourceDir: Path, artifacts: Entries, keys: seq<string>)
    returns (r: Result<Partition, string>)
    ensures r == PartitionKeys(fs, sourceDir, artifacts, keys)
  {
    var missingMap, missingSource, available := [], [], [];
    for i := 0 to |keys|
      invariant PartitionKeys(fs, sourceDir, artifacts, keys[..i]) == Success(Partition(missingMap, missingSource, available))
    {
      assert keys[..i + 1][..i] == keys[..i];
      var key := keys[i];
      var name := GetOr(artifacts, key, VNull);
      if !Truthy(name) {
        missingMap := missingMap + [key];
      } else if !name.VStr? {
        PartitionFailureSticks(fs, sourceDir, artifacts, keys, i + 1);
        return Failure(TYPE_ERROR);
      } else {
        var src := Join(sourceDir, name.s);
        if !NonEmptyFile(fs, src) {
          missingSource := missingSource + [key + ":" + src];
        } else {
          available := available + [Item(key, name.s, src)];
        }
      }
    }
    assert keys[..|keys|] == keys;
    r := Success(Partition(missingMap, missingSource, available));
  }

  lemma {:induction false} PartitionFailureSticks(fs: map<Path, Bytes>, sourceDir: Path, artifacts: Entries,
                                                  keys: seq<string>, i: nat)
    requires i <= |keys| && PartitionKeys(fs, sourceDir, artifacts, keys[..i]).Failure?
    ensures PartitionKeys(fs, sourceDir, artifacts, keys) == PartitionKeys(fs, sourceDir, artifacts, keys[..i])
    decreases |keys|
  {
    if i < |keys| {
      var init := keys[..|keys| - 1];
      assert init[..i] == keys[..i];
      PartitionFailureSticks(fs, sourceDir, artifacts, init, i);
    } else {
      assert keys[..i] == keys;
    }
  }

  lemma {:induction false} CopyCrashSticks(env: Env, fs: map<Path, Bytes>, root: Path, specDir: Path, items: seq<Item>, i: nat)
    requires i <= |items| && CopyItems(env, fs, root, specDir, items[..i]).crash.Some?
    ensures CopyItems(env, fs, root, specDir, items) == CopyItems(env, fs, root, specDir, items[..i])
    decreases |items|
  {
    if i < |items| {
      var init := items[..|items| - 1];
      assert init[..i] == items[..i];
      CopyCrashSticks(env, fs, root, specDir, init, i);
    } else {
      assert items[..i] == items;
    }
  }

  /** The copy loop of `create_lock`. */
  method CopyLoop(repo: Repo, env: Env, specDir: Path, items: seq<Item>)
    returns (entries: Entries, copied: seq<string>, crash: Option<string>)
    modifies repo
    ensures Copying(repo.files, entries, copied, crash) == CopyItems(env, old(repo.files), repo.root, specDir, items)
  {
    ghost var fs0 := repo.files;
    entries, copied, crash := [], [], None;
    for i := 0 to |items|
      invariant Copying(repo.files, entries, copied, crash) == CopyItems(env, fs0, repo.root, specDir, items[..i])
    {
      assert items[..i + 1][..i] == items[..i];
      var item := items[i];
      var dst := Join(specDir, item.name);
      if item.src !in repo.files {
        crash := Some("FileNotFoundError");
        CopyCrashSticks(env, fs0, repo.root, specDir, items, i + 1);
        return;
      }
      if item.src == dst {
        crash := Some("SameFileError");
        CopyCrashSticks(env, fs0, repo.root, specDir, items, i + 1);
        return;
      }
      repo.files := repo.files[dst := repo.files[item.src]];
      var digest := env.sha256(repo.files[dst]);
      entries := Set(entries, item.key, LockEntry(item.name, RelPath(dst, repo.root), digest));
      copied := copied + [RelPath(dst, repo.root)];
    }
    assert items[..|items|] == items;
  }

  /** `create_lock`. */
  method CreateLock(repo: Repo, env: Env, workflowPath: string, sourceDir: Path, sourceLabel: string, id: string,
                    force: bool, allowPartial: bool, setActive: bool) returns (outcome: Outcome)
    modifies repo
    ensures LockRun(repo.files, outcome) ==
      CreateRun(env, old(repo.files), repo.root, workflowPath, sourceDir, sourceLabel, id, force, allowPartial, setActive)
  {
    var config := LoadConfig(env, repo.files, repo.root, workflowPath);
    if config.Failure? {
      return Raised(config.error);
    }
    var cfg := config.value;
    if !cfg.enabled {
      return Exit(1);
    }
    var lockPath := LockPath(cfg.milestoneDir, id, cfg.lockFilename);
    if lockPath in repo.files && !force {
      return Exit(1);
    }
    var partition := PartitionLoop(repo.files, sourceDir, cfg.artifacts, cfg.keys);
    if partition.Failure? {
      return Raised(partition.error);
    }
    var part := partition.value;
    if (part.missingMap != [] || part.missingSource != []) && !allowPartial {
      return Exit(1);
    }
    var entries, copied, crash := CopyLoop(repo, env, SpecDir(lockPath), part.available);
    if crash.Some? {
      return Raised(crash.value);
    }
    var lock := LockDocument(workflowPath, id, env.now, sourceLabel, RelPath(sourceDir, repo.root),
                             RelPath(cfg.artifactsDir, repo.root), cfg.keys, entries);
    repo.files := repo.files[lockPath := env.dumpYaml(lock)];
    if setActive {
      repo.files := WriteActive(env, repo.files, cfg.pointer, id);
    }
    repo.files := UpdateStateMilestone(env, repo.files, repo.root, id, lockPath);
    outcome := Exit(0);
  }

  /** `cmd_create`: a lock of the workspace at the fixed `.bmad/artifacts`. */
  method Create(repo: Repo, env: Env, workflowPath: string, id: string, force: bool, allowPartial: bool, setActive: bool)
    returns (outcome: Outcome)
    modifies repo
    ensures LockRun(repo.files, outcome) ==
      CreateRun(env, old(repo.files), repo.root, workflowPath, Join(repo.root, CREATE_SOURCE_DIR), "artifacts", id,
                force, allowPartial, setActive)
  {
    outcome := CreateLock(repo, env, workflowPath, Join(repo.root, CREATE_SOURCE_DIR), "artifacts", id,
                          force, allowPartial, setActive);
  }

  /**
   * `cmd_import_archive`: a lock of an archive directory, `--archive-dir` or else the
   * latest archive; exit 1 when there is none or it is not a directory.
   */
  method ImportArchive(repo: Repo, env: Env, dirs: set<Path>, workflowPath: string, archiveArg: Option<string>,
                       latest: Option<Path>, id: string, force: bool, allowPartial: bool, setActive: bool)
    returns (outcome: Outcome)
    modifies repo
    ensures var source := if archiveArg.Some? && archiveArg.value != "" then Some(Join(repo.root, archiveArg.value)) else latest;
      if source.None? || source.value !in dirs then outcome == Exit(1) && repo.files == old(repo.files)
      else (LockRun(repo.files, outcome) ==
            CreateRun(env, old(repo.files), repo.root, workflowPath, source.value, "archive", id, force, allowPartial, setActive))
  {
    var source := if archiveArg.Some? && archiveArg.value != "" then Some(Join(repo.root, archiveArg.value)) else latest;
    if source.None? || source.value !in dirs {
      return Exit(1);
    }
    outcome := CreateLock(repo, env, workflowPath, source.value, "archive", id, force, allowPartial, setActive);
  }

  // ---------- locating a lock ----------

  datatype Target = Target(cfg: Config, id: string, lockPath: Path, files: Entries)

  /** `load_lock`: the lock document, which must hold a `files` mapping. */
  function LoadLock(env: Env, fs: map<Path, Bytes>, lockPath: Path): (r: Option<Entries>)
    ensures r.Some? ==> lockPath in fs
  {
    match LoadYamlMapping(env, fs, lockPath)
    case None => None
    case Some(lock) => if GetOr(lock, "files", VNull).VMap? then Some(GetOr(lock, "files", VNull).entries) else None
  }

  /**
   * `resolve_target_lock`: the milestone given, else the ACTIVE one, with its loaded
   * lock. It fails (raises) when the milestone is disabled, no id is known, or the lock
   * file is missing or malformed.
   */
  function ResolveTarget(env: Env, fs: map<Path, Bytes>, root: Path, workflowPath: string, idArg: Option<string>)
    : (r: Result<Target, string>)
    ensures r.Success? ==>
      && LoadConfig(env, fs, root, workflowPath) == Success(r.value.cfg) && r.value.cfg.enabled
      && r.value.id != ""
      && (idArg.Some? && idArg.value != "" ==> r.value.id == idArg.value)
      && (!(idArg.Some? && idArg.value != "") ==> ReadActive(env, fs, r.value.cfg.pointer) == Some(r.value.id))
      && r.value.lockPath == LockPath(r.value.cfg.milestoneDir, r.value.id, r.value.cfg.lockFilename)
      && LoadLock(env, fs, r.value.lockPath) == Some(r.value.files)
  {
    match LoadConfig(env, fs, root, workflowPath)
    case Failure(e) => Failure(e)
    case Success(cfg) =>
      if !cfg.enabled then Failure("ValueError: milestone is disabled in workflow")
      else
        var id := if idArg.Some? && idArg.value != "" then Some(idArg.value) else ReadActive(env, fs, cfg.pointer);
        if id.None? then Failure("ValueError: milestone_id is required")
        else
          var lockPath := LockPath(cfg.milestoneDir, id.value, cfg.lockFilename);
          if lockPath !in fs then Failure("ValueError: lock file not found")
          else match LoadLock(env, fs, lockPath)
            case None => Failure("ValueError: lock missing files mapping")
            case Some(files) => Success(Target(cfg, id.value, lockPath, files))
  }

  // ---------- verify ----------

  datatype Verdict = Ok(item: string) | Drift(item: string) | Missing(item: string)

  function EntryOf(files: Entries, key: string): Value {
    GetOr(files, key, VNull)
  }

  /** The recorded hash, `str(entry.get("sha256", ""))`. */
  function ExpectedHash(entry: Entries): string {
    Str(GetOr(entry, "sha256", VStr("")))
  }

  /**
   * The checks of `cmd_verify` for one key, in order. With `asWritten`, reaching the
   * locked-path resolution raises TypeError, as the two-argument call of the
   * three-parameter `resolve_lock_path` does; otherwise the locked path is resolved
   * against the repository root, as `cmd_status` and `cmd_use` do. A missing file
   * or blank path is a Missing verdict, a hash that differs from the recorded one
   * is Drift, and only a key whose two files both match is Ok.
   */
  function VerifyKey(env: Env, fs: map<Path, Bytes>, root: Path, artifactsDir: Path, artifacts: Entries,
                     files: Entries, key: string, asWritten: bool): (r: Result<Verdict, string>)
    ensures r.Success? && r.value.Ok? ==>
      && Mapped(artifacts, key) && EntryOf(files, key).VMap?
      && IsNonBlankStr(GetOr(EntryOf(files, key).entries, "locked_path", VNull))
      && var locked := Join(root, GetOr(EntryOf(files, key).entries, "locked_path", VNull).s);
      && var artifact := Join(artifactsDir, FileName(artifacts, key));
      && NonEmptyFile(fs, locked) && NonEmptyFile(fs, artifact)
      && env.sha256(fs[locked]) == ExpectedHash(EntryOf(files, key).entries)
      && env.sha256(fs[artifact]) == ExpectedHash(EntryOf(files, key).entries)
    ensures !Truthy(NameOf(artifacts, key)) ==> r.Success? && r.value.Missing?
    ensures Truthy(NameOf(artifacts, key)) && !EntryOf(files, key).VMap? ==> r.Success? && r.value.Missing?
    ensures r.Failure? ==> asWritten || BadName(artifacts, key)
    ensures Truthy(NameOf(artifacts, key)) && EntryOf(files, key).VMap? ==>
      var entry := EntryOf(files, key).entries;
      var lp := GetOr(entry, "locked_path", VNull);
      && (!IsNonBlankStr(lp) ==> r.Success? && r.value.Missing?)
      && (IsNonBlankStr(lp) && asWritten ==> r.Failure?)
      && (IsNonBlankStr(lp) && !asWritten ==>
            var locked := Join(root, lp.s);
            && (!NonEmptyFile(fs, locked) ==> r.Success? && r.value.Missing?)
            && (NonEmptyFile(fs, locked) && env.sha256(fs[locked]) != ExpectedHash(entry) ==> r.Success? && r.value.Drift?)
            && (NonEmptyFile(fs, locked) && env.sha256(fs[locked]) == ExpectedHash(entry) ==>
                  && (BadName(artifacts, key) ==> r.Failure?)
                  && (Mapped(artifacts, key) ==>
                        var artifact := Join(artifactsDir, FileName(artifacts, key));
                        && (!NonEmptyFile(fs, artifact) ==> r.Success? && r.value.Missing?)
                        && (NonEmptyFile(fs, artifact) && env.sha256(fs[artifact]) != ExpectedHash(entry) ==>
                              r.Success? && r.value.Drift?)
                        && (NonEmptyFile(fs, artifact) && env.sha256(fs[artifact]) == ExpectedHash(entry) ==>
                              r.Success? && r.value.Ok?))))
  {
    if !Truthy(NameOf(artifacts, key)) then Success(Missing(key + ":not mapped in workflow.artifacts"))
    else
      var entry := EntryOf(files, key);
      if !entry.VMap? then Success(Missing(key + ":missing lock entry"))
      else
        var lockedPath := GetOr(entry.entries, "locked_path", VNull);
        var expected := ExpectedHash(entry.entries);
        if !IsNonBlankStr(lockedPath) then Success(Missing(key + ":invalid locked_path in lock"))
        else if asWritten then Failure("TypeError: resolve_lock_path() missing 1 required positional argument")
        else
          var locked := Join(root, lockedPath.s);
          if !NonEmptyFile(fs, locked) then Success(Missing(key + ":locked file missing " + locked))
          else if env.sha256(fs[locked]) != expected then Success(Drift(key + ":locked file hash mismatch " + RelPath(locked, root)))
          else if BadName(artifacts, key) then Failure(TYPE_ERROR)
          else
            var artifact := Join(artifactsDir, FileName(artifacts, key));
            if !NonEmptyFile(fs, artifact) then Success(Missing(key + ":" + artifact))
            else if env.sha256(fs[artifact]) == expected then Success(Ok(key + ":" + RelPath(artifact, root)))
            else Success(Drift(key + ":" + RelPath(artifact, root)))
  }

  datatype Tallies = Tallies(ok: seq<string>, drift: seq<string>, missing: seq<string>)

  function AddVerdict(t: Tallies, v: Verdict): Tallies {
    match v
    case Ok(s) => t.(ok := t.ok + [s])
    case Drift(s) => t.(drift := t.drift + [s])
    case Missing(s) => t.(missing := t.missing + [s])
  }

  /** The key loop of `cmd_verify`. */
  function VerifyKeys(env: Env, fs: map<Path, Bytes>, root: Path, artifactsDir: Path, artifacts: Entries,
                      files: Entries, keys: seq<string>, asWritten: bool): Result<Tallies, string> {
    if keys == [] then Success(Tallies([], [], []))
    else match VerifyKeys(env, fs, root, artifactsDir, artifacts, files, keys[..|keys| - 1], asWritten)
      case Failure(e) => Failure(e)
      case Success(t) =>
        match VerifyKey(env, fs, root, artifactsDir, artifacts, files, keys[|keys| - 1], asWritten)
        case Failure(e) => Failure(e)
        case Success(v) => Success(AddVerdict(t, v))
  }

  /** Each key lands in exactly one of ok, drift and missing. */
  lemma {:induction false} VerifyPartition(env: Env, fs: map<Path, Bytes>, root: Path, artifactsDir: Path,
                                           artifacts: Entries, files: Entries, keys: seq<string>, asWritten: bool)
    requires VerifyKeys(env, fs, root, artifactsDir, artifacts, files, keys, asWritten).Success?
    ensures var t := VerifyKeys(env, fs, root, artifactsDir, artifacts, files, keys, asWritten).value;
      |t.ok| + |t.drift| + |t.missing| == |keys|
  {
    if keys != [] {
      VerifyPartition(env, fs, root, artifactsDir, artifacts, files, keys[..|keys| - 1], asWritten);
    }
  }

  /** When every key verifies OK, so does the loop, with nothing drifted or missing. */
  lemma {:induction false} VerifyAllOk(env: Env, fs: map<Path, Bytes>, root: Path, artifactsDir: Path,
                                       artifacts: Entries, files: Entries, keys: seq<string>)
    requires forall k :: k in keys ==>
      VerifyKey(env, fs, root, artifactsDir, artifacts, files, k, false).Success?
      && VerifyKey(env, fs, root, artifactsDir, artifacts, files, k, false).value.Ok?
    ensures VerifyKeys(env, fs, root, artifactsDir, artifacts, files, keys, false).Success?
    ensures var t := VerifyKeys(env, fs, root, artifactsDir, artifacts, files, keys, false).value;
      |t.ok| == |keys| && t.drift == [] && t.missing == []
  {
    if keys != [] {
      VerifyAllOk(env, fs, root, artifactsDir, artifacts, files, keys[..|keys| - 1]);
    }
  }

  /** The lock keys outside the configured set, in lock order. */
  function ExtraKeys(files: Entries, keys: seq<string>): (r: seq<string>)
    ensures forall x :: x in r <==> (exists i :: 0 <= i < |files| && files[i].0 == x) && x !in keys
  {
    if files == [] then []
    else
      var rest := ExtraKeys(files[1..], keys);
      assert forall i :: 0 < i < |files| ==> files[i] == files[1..][i - 1];
      (if files[0].0 in keys then [] else [files[0].0]) + rest
  }

  datatype VerifyReport = VerifyReport(tallies: Tallies, extra: seq<string>, outcome: Outcome)

  const NO_TALLIES: Tallies := Tallies([], [], [])

  /** `cmd_verify` over the corrected or the as-written locked-path resolution. */
  function VerifyWith(env: Env, fs: map<Path, Bytes>, root: Path, workflowPath: string, idArg: Option<string>,
                      asWritten: bool): (r: VerifyReport)
    ensures r.outcome.Exit? ==> r.outcome.code in {0, 1}
    ensures r.outcome == Exit(0) ==> r.tallies.drift == [] && r.tallies.missing == []
    ensures r.outcome == Exit(1) && ResolveTarget(env, fs, root, workflowPath, idArg).Success? ==>
      r.tallies.drift != [] || r.tallies.missing != []
    ensures ResolveTarget(env, fs, root, workflowPath, idArg).Failure? ==> r.outcome == Exit(1)
  {
    match ResolveTarget(env, fs, root, workflowPath, idArg)
    case Failure(_) => VerifyReport(NO_TALLIES, [], Exit(1))
    case Success(t) =>
      match VerifyKeys(env, fs, root, t.cfg.artifactsDir, t.cfg.artifacts, t.files, t.cfg.keys, asWritten)
      case Failure(e) => VerifyReport(NO_TALLIES, [], Raised(e))
      case Success(tallies) =>
        VerifyReport(tallies, ExtraKeys(t.files, t.cfg.keys),
                     Exit(if tallies.drift != [] || tallies.missing != [] then 1 else 0))
  }

  /** `cmd_verify` as evidently intended: locked paths resolved against the repository root. */
  function VerifyRun(env: Env, fs: map<Path, Bytes>, root: Path, workflowPath: string, idArg: Option<string>): VerifyReport {
    VerifyWith(env, fs, root, workflowPath, idArg, false)
  }

  /** `cmd_verify` as written, with the failing `resolve_lock_path` call. */
  function VerifyRunAsWritten(env: Env, fs: map<Path, Bytes>, root: Path, workflowPath: string, idArg: Option<string>): VerifyReport {
    VerifyWith(env, fs, root, workflowPath, idArg, true)
  }

  /** The key loop of `cmd_verify`. */
  method VerifyLoop(env: Env, fs: map<Path, Bytes>, root: Path, artifactsDir: Path, artifacts: Entries,
                    files: Entries, keys: seq<string>) returns (r: Result<Tallies, string>)
    ensures r == VerifyKeys(env, fs, root, artifactsDir, artifacts, files, keys, false)
  {
    var ok, drift, missing := [], [], [];
    for i := 0 to |keys|
      invariant VerifyKeys(env, fs, root, artifactsDir, artifacts, files, keys[..i], false) == Success(Tallies(ok, drift, missing))
    {
      assert keys[..i + 1][..i] == keys[..i];
      var v := VerifyKey(env, fs, root, artifactsDir, artifacts, files, keys[i], false);
      if v.Failure? {
        VerifyFailureSticks(env, fs, root, artifactsDir, artifacts, files, keys, i + 1, false);
        return Failure(v.error);
      }
      match v.value
      case Ok(s) => ok := ok + [s];
      case Drift(s) => drift := drift + [s];
      case Missing(s) => missing := missing + [s];
    }
    assert keys[..|keys|] == keys;
    r := Success(Tallies(ok, drift, missing));
  }

  lemma {:induction false} VerifyFailureSticks(env: Env, fs: map<Path, Bytes>, root: Path, artifactsDir: Path,
                                               artifacts: Entries, files: Entries, keys: seq<string>, i: nat,
                                               asWritten: bool)
    requires i <= |keys| && VerifyKeys(env, fs, root, artifactsDir, artifacts, files, keys[..i], asWritten).Failure?
    ensures VerifyKeys(env, fs, root, artifactsDir, artifacts, files, keys, asWritten) ==
            VerifyKeys(env, fs, root, artifactsDir, artifacts, files, keys[..i], asWritten)
    decreases |keys|
  {
    if i < |keys| {
      var init := keys[..|keys| - 1];
      assert init[..i] == keys[..i];
      VerifyFailureSticks(env, fs, root, artifactsDir, artifacts, files, init, i, asWritten);
    } else {
      assert keys[..i] == keys;
    }
  }

  /** `cmd_verify` (corrected); it reads the repository and changes nothing but its report. */
  method Verify(repo: Repo, env: Env, workflowPath: string, idArg: Option<string>) returns (report: VerifyReport)
    ensures report == VerifyRun(env, repo.files, repo.root, workflowPath, idArg)
  {
    var target := ResolveTarget(env, repo.files, repo.root, workflowPath, idArg);
    if target.Failure? {
      return VerifyReport(NO_TALLIES, [], Exit(1));
    }
    var t := target.value;
    var tallies := VerifyLoop(env, repo.files, repo.root, t.cfg.artifactsDir, t.cfg.artifacts, t.files, t.cfg.keys);
    if tallies.Failure? {
      return VerifyReport(NO_TALLIES, [], Raised(tallies.error));
    }
    var tl := tallies.value;
    report := VerifyReport(tl, ExtraKeys(t.files, t.cfg.keys),
                           Exit(if tl.drift != [] || tl.missing != [] then 1 else 0));
  }

  // ---------- use ----------

  /** The files, the three lists, and the exception that stopped the loop. */
  datatype Using = Using(files: map<Path, Bytes>, copied: seq<string>, skipped: seq<string>, failed: seq<string>,
                         crash: Option<string>)

  /** The locked copy an entry points at, `repo_root / str(entry.get("locked_path", ""))`. */
  function LockedSource(root: Path, entry: Entries): Path {
    Join(root, Str(GetOr(entry, "locked_path", VStr(""))))
  }

  /** The entry can be restored: a mapping, mapped, whose locked copy exists and hashes as recorded. */
  predicate Restorable(env: Env, fs: map<Path, Bytes>, root: Path, artifacts: Entries, key: string, entry: Value) {
    && entry.VMap? && Mapped(artifacts, key)
    && NonEmptyFile(fs, LockedSource(root, entry.entries))
    && env.sha256(fs[LockedSource(root, entry.entries)]) == ExpectedHash(entry.entries)
  }

  /** One iteration of the loop of `cmd_use` over the lock's entries. */
  function UseStep(u: Using, env: Env, root: Path, artifactsDir: Path, artifacts: Entries, force: bool,
                   key: string, entry: Value): Using {
    if u.crash.Some? then u
    else if !entry.VMap? then u.(failed := u.failed + [key + ":invalid lock entry"])
    else if !Truthy(NameOf(artifacts, key)) then u.(failed := u.failed + [key + ":not mapped in workflow.artifacts"])
    else
      var src := LockedSource(root, entry.entries);
      if !NonEmptyFile(u.files, src) then u.(failed := u.failed + [key + ":locked file missing " + src])
      else if env.sha256(u.files[src]) != ExpectedHash(entry.entries) then
        u.(failed := u.failed + [key + ":locked file hash mismatch " + src])
      else if BadName(artifacts, key) then u.(crash := Some(TYPE_ERROR))
      else
        var dst := Join(artifactsDir, FileName(artifacts, key));
        if dst in u.files && !force then u.(skipped := u.skipped + [RelPath(dst, root)])
        else if src == dst then u.(crash := Some("SameFileError"))
        else u.(files := u.files[dst := u.files[src]], copied := u.copied + [RelPath(dst, root)])
  }

  function UseEntries(env: Env, fs: map<Path, Bytes>, root: Path, artifactsDir: Path, artifacts: Entries,
                      force: bool, entries: Entries): Using {
    if entries == [] then Using(fs, [], [], [], None)
    else
      var last := entries[|entries| - 1];
      UseStep(UseEntries(env, fs, root, artifactsDir, artifacts, force, entries[..|entries| - 1]),
              env, root, artifactsDir, artifacts, force, last.0, last.1)
  }

  /** The destination of entry `i` received bytes that hash to that entry's recorded digest. */
  predicate VerifiedCopy(env: Env, fs: map<Path, Bytes>, artifactsDir: Path, artifacts: Entries, entries: Entries,
                         i: int, p: Path)
    requires p in fs
  {
    && 0 <= i < |entries| && entries[i].1.VMap? && Mapped(artifacts, entries[i].0)
    && p == Join(artifactsDir, FileName(artifacts, entries[i].0))
    && env.sha256(fs[p]) == ExpectedHash(entries[i].1.entries)
  }

  /** Every file of `fs` is as it was in `fs0` or a verified copy for one of the entries. */
  ghost predicate OnlyVerified(env: Env, fs0: map<Path, Bytes>, fs: map<Path, Bytes>, artifactsDir: Path,
                         artifacts: Entries, entries: Entries) {
    && fs0.Keys <= fs.Keys
    && forall p :: p in fs ==>
         (p in fs0 && fs[p] == fs0[p]) || exists i :: VerifiedCopy(env, fs, artifactsDir, artifacts, entries, i, p)
  }

  /** A step either leaves the files alone or copies a locked file whose hash matches the entry. */
  lemma UseStepShape(u: Using, env: Env, root: Path, artifactsDir: Path, artifacts: Entries, force: bool,
                     key: string, entry: Value)
    ensures var u' := UseStep(u, env, root, artifactsDir, artifacts, force, key, entry);
      || u'.files == u.files
      || (&& entry.VMap? && Mapped(artifacts, key)
          && LockedSource(root, entry.entries) in u.files
          && env.sha256(u.files[LockedSource(root, entry.entries)]) == ExpectedHash(entry.entries)
          && u'.files == u.files[Join(artifactsDir, FileName(artifacts, key)) := u.files[LockedSource(root, entry.entries)]])
  {
  }

  /**
   * `use` restores only verified copies: every file the loop changed or created is the
   * destination of a lock entry and hashes to the digest that entry records.
   */
  lemma {:induction false} UseOnlyVerified(env: Env, fs: map<Path, Bytes>, root: Path, artifactsDir: Path,
                                           artifacts: Entries, force: bool, entries: Entries)
    ensures OnlyVerified(env, fs, UseEntries(env, fs, root, artifactsDir, artifacts, force, entries).files,
                         artifactsDir, artifacts, entries)
  {
    if entries != [] {
      var init := entries[..|entries| - 1];
      var n := |entries| - 1;
      UseOnlyVerified(env, fs, root, artifactsDir, artifacts, force, init);
      var u := UseEntries(env, fs, root, artifactsDir, artifacts, force, init);
      var files' := UseEntries(env, fs, root, artifactsDir, artifacts, force, entries).files;
      UseStepShape(u, env, root, artifactsDir, artifacts, force, entries[n].0, entries[n].1);
      var dst := if Mapped(artifacts, entries[n].0) then Join(artifactsDir, FileName(artifacts, entries[n].0)) else "";
      forall p | p in files' && !(p in fs && files'[p] == fs[p])
        ensures exists i :: VerifiedCopy(env, files', artifactsDir, artifacts, entries, i, p)
      {
        if files' != u.files && p == dst {
          assert VerifiedCopy(env, files', artifactsDir, artifacts, entries, n, p);
        } else {
          var i :| VerifiedCopy(env, u.files, artifactsDir, artifacts, init, i, p);
          assert entries[i] == init[i];
          assert VerifiedCopy(env, files', artifactsDir, artifacts, entries, i, p);
        }
      }
    }
  }

  /** Without `force`, the loop never changes a file that already existed. */
  lemma {:induction false} UseKeepsExisting(env: Env, fs: map<Path, Bytes>, root: Path, artifactsDir: Path,
                                            artifacts: Entries, entries: Entries)
    ensures var u := UseEntries(env, fs, root, artifactsDir, artifacts, false, entries);
      forall p :: p in fs ==> p in u.files && u.files[p] == fs[p]
  {
    if entries != [] {
      var init := entries[..|entries| - 1];
      var last := entries[|entries| - 1];
      UseKeepsExisting(env, fs, root, artifactsDir, artifacts, init);
      UseStepKeeps(UseEntries(env, fs, root, artifactsDir, artifacts, false, init), env, root, artifactsDir, artifacts,
                   last.0, last.1);
    }
  }

  /** Without `force`, one step only adds files. */
  lemma UseStepKeeps(u: Using, env: Env, root: Path, artifactsDir: Path, artifacts: Entries, key: string, entry: Value)
    ensures var u' := UseStep(u, env, root, artifactsDir, artifacts, false, key, entry);
      forall p :: p in u.files ==> p in u'.files && u'.files[p] == u.files[p]
  {
  }

  /** An entry fails exactly when it is not restorable and does not raise. */
  lemma UseStepFails(u: Using, env: Env, root: Path, artifactsDir: Path, artifacts: Entries, force: bool,
                     key: string, entry: Value)
    requires u.crash.None?
    ensures var u' := UseStep(u, env, root, artifactsDir, artifacts, force, key, entry);
      u'.crash.None? ==> (|u'.failed| == |u.failed| + 1 <==> !Restorable(env, u.files, root, artifacts, key, entry))
  {
  }

  datatype UseReport = UseReport(files: map<Path, Bytes>, copied: seq<string>, skipped: seq<string>,
                                 failed: seq<string>, outcome: Outcome)

  /**
   * `cmd_use` once the lock is resolved: binds the state to the lock only when no entry
   * failed; exit 1 exactly when an entry failed.
   */
  function UseTarget(env: Env, fs: map<Path, Bytes>, root: Path, t: Target, force: bool): (r: UseReport)
    ensures var u := UseEntries(env, fs, root, t.cfg.artifactsDir, t.cfg.artifacts, force, t.files);
      && (r.outcome.Exit? ==> r.outcome.code in {0, 1} && (r.outcome.code == 1 <==> r.failed != []))
      && (r.outcome.Raised? <==> u.crash.Some?)
      && (r.outcome != Exit(0) ==> r.files == u.files)
      && (r.outcome == Exit(0) ==>
            && r.files == UpdateStateMilestone(env, u.files, root, t.id, t.lockPath)
            && r.files.Keys == u.files.Keys && forall p :: p in u.files && p != StatePath(root) ==> r.files[p] == u.files[p])
  {
    var u := UseEntries(env, fs, root, t.cfg.artifactsDir, t.cfg.artifacts, force, t.files);
    if u.crash.Some? then UseReport(u.files, u.copied, u.skipped, u.failed, Raised(u.crash.value))
    else if u.failed != [] then UseReport(u.files, u.copied, u.skipped, u.failed, Exit(1))
    else UseReport(UpdateStateMilestone(env, u.files, root, t.id, t.lockPath), u.copied, u.skipped, u.failed, Exit(0))
  }

  /**
   * A clean `use` binds the state to the lock: when the state file holds a JSON mapping
   * (and the codec round-trips) it reads back with the target's id and lock path and
   * every other field as it was; a `use` that did not exit 0 leaves the state file as the
   * restore loop left it.
   */
  lemma UseBindsState(env: Env, fs: map<Path, Bytes>, root: Path, t: Target, force: bool, k: string)
    requires forall v :: env.loadJson(env.dumpJson(v)) == Some(v)
    ensures var u := UseEntries(env, fs, root, t.cfg.artifactsDir, t.cfg.artifacts, force, t.files);
      var r := UseTarget(env, fs, root, t, force);
      && (r.outcome != Exit(0) ==> r.files == u.files)
      && (r.outcome == Exit(0) && LoadJsonMapping(env, u.files, StatePath(root)).Some? ==>
            var after := LoadJsonMapping(env, r.files, StatePath(root));
            && after.Some?
            && Get(after.value, "milestone_id") == Some(VStr(t.id))
            && Get(after.value, "milestone_lock_path") == Some(VStr(RelPath(t.lockPath, root)))
            && (k != "milestone_id" && k != "milestone_lock_path" && k != "milestone_locked_at" ==>
                  Get(after.value, k) == Get(LoadJsonMapping(env, u.files, StatePath(root)).value, k)))
  {
    var u := UseEntries(env, fs, root, t.cfg.artifactsDir, t.cfg.artifacts, force, t.files);
    if UseTarget(env, fs, root, t, force).outcome == Exit(0) && LoadJsonMapping(env, u.files, StatePath(root)).Some? {
      UpdateStateOnlyStamps(env, u.files, root, t.id, t.lockPath, k);
      UpdateStateOnlyStamps(env, u.files, root, t.id, t.lockPath, "milestone_id");
      UpdateStateOnlyStamps(env, u.files, root, t.id, t.lockPath, "milestone_lock_path");
    }
  }

  /** `cmd_use`: exit 1 with nothing changed when no lock resolves. */
  function UseRun(env: Env, fs: map<Path, Bytes>, root: Path, workflowPath: string, idArg: Option<string>,
                  force: bool): (r: UseReport)
    ensures ResolveTarget(env, fs, root, workflowPath, idArg).Failure? ==> r.outcome == Exit(1) && r.files == fs
  {
    match ResolveTarget(env, fs, root, workflowPath, idArg)
    case Failure(_) => UseReport(fs, [], [], [], Exit(1))
    case Success(t) => UseTarget(env, fs, root, t, force)
  }

  lemma {:induction false} UseCrashSticks(env: Env, fs: map<Path, Bytes>, root: Path, artifactsDir: Path,
                                          artifacts: Entries, force: bool, entries: Entries, i: nat)
    requires i <= |entries| && UseEntries(env, fs, root, artifactsDir, artifacts, force, entries[..i]).crash.Some?
    ensures UseEntries(env, fs, root, artifactsDir, artifacts, force, entries) ==
            UseEntries(env, fs, root, artifactsDir, artifacts, force, entries[..i])
    decreases |entries|
  {
    if i < |entries| {
      var init := entries[..|entries| - 1];
      assert init[..i] == entries[..i];
      UseCrashSticks(env, fs, root, artifactsDir, artifacts, force, init, i);
    } else {
      assert entries[..i] == entries;
    }
  }

  /** The loop of `cmd_use` over the lock's entries. */
  method UseLoop(repo: Repo, env: Env, artifactsDir: Path, artifacts: Entries, force: bool, entries: Entries)
    returns (copied: seq<string>, skipped: seq<string>, failed: seq<string>, crash: Option<string>)
    modifies repo
    ensures Using(repo.files, copied, skipped, failed, crash) ==
            UseEntries(env, old(repo.files), repo.root, artifactsDir, artifacts, force, entries)
  {
    ghost var fs0 := repo.files;
    copied, skipped, failed, crash := [], [], [], None;
    for i := 0 to |entries|
      invariant Using(repo.files, copied, skipped, failed, crash) ==
                UseEntries(env, fs0, repo.root, artifactsDir, artifacts, force, entries[..i])
    {
      assert entries[..i + 1][..i] == entries[..i];
      var (key, entry) := entries[i];
      if !entry.VMap? {
        failed := failed + [key + ":invalid lock entry"];
        continue;
      }
      var name := GetOr(artifacts, key, VNull);
      if !Truthy(name) {
        failed := failed + [key + ":not mapped in workflow.artifacts"];
        continue;
      }
      var src := LockedSource(repo.root, entry.entries);
      if !(src in repo.files && |repo.files[src]| > 0) {
        failed := failed + [key + ":locked file missing " + src];
        continue;
      }
      if env.sha256(repo.files[src]) != ExpectedHash(entry.entries) {
        failed := failed + [key + ":locked file hash mismatch " + src];
        continue;
      }
      if !name.VStr? {
        crash := Some(TYPE_ERROR);
        UseCrashSticks(env, fs0, repo.root, artifactsDir, artifacts, force, entries, i + 1);
        return;
      }
      var dst := Join(artifactsDir, name.s);
      if dst in repo.files && !force {
        skipped := skipped + [RelPath(dst, repo.root)];
        continue;
      }
      if src == dst {
        crash := Some("SameFileError");
        UseCrashSticks(env, fs0, repo.root, artifactsDir, artifacts, force, entries, i + 1);
        return;
      }
      repo.files := repo.files[dst := repo.files[src]];
      copied := copied + [RelPath(dst, repo.root)];
    }
    assert entries[..|entries|] == entries;
  }

  /** `cmd_use`. */
  method Use(repo: Repo, env: Env, workflowPath: string, idArg: Option<string>, force: bool) returns (report: UseReport)
    modifies repo
    ensures report == UseRun(env, old(repo.files), repo.root, workflowPath, idArg, force)
    ensures repo.files == report.files
  {
    var target := ResolveTarget(env, repo.files, repo.root, workflowPath, idArg);
    if target.Failure? {
      return UseReport(repo.files, [], [], [], Exit(1));
    }
    var t := target.value;
    var copied, skipped, failed, crash := UseLoop(repo, env, t.cfg.artifactsDir, t.cfg.artifacts, force, t.files);
    if crash.Some? {
      return UseReport(repo.files, copied, skipped, failed, Raised(crash.value));
    }
    if failed == [] {
      repo.files := UpdateStateMilestone(env, repo.files, repo.root, t.id, t.lockPath);
    }
    report := UseReport(repo.files, copied, skipped, failed, Exit(if failed != [] then 1 else 0));
  }

  // ---------- status ----------

  /**
   * Whether `cmd_status` counts `key` as missing (any of its checks failing, or drift);
   * the artifact path join raises on a bad name as soon as the entry is a mapping.
   */
  function StatusKey(env: Env, fs: map<Path, Bytes>, root: Path, artifactsDir: Path, artifacts: Entries,
                     files: Entries, key: string): Result<bool, string> {
    if !Truthy(NameOf(artifacts, key)) then Success(true)
    else
      var entry := EntryOf(files, key);
      if !entry.VMap? then Success(true)
      else if BadName(artifacts, key) then Failure(TYPE_ERROR)
      else
        var locked := LockedSource(root, entry.entries);
        var artifact := Join(artifactsDir, FileName(artifacts, key));
        var digest := ExpectedHash(entry.entries);
        if !NonEmptyFile(fs, locked) then Success(true)
        else if digest != env.sha256(fs[locked]) then Success(true)
        else if !NonEmptyFile(fs, artifact) then Success(true)
        else Success(env.sha256(fs[artifact]) != digest)
  }

  /**
   * For a well-formed entry (its locked path a non-blank string) and a name that does
   * not raise, `status` counts a key as fine exactly when `verify` reports it OK.
   */
  lemma StatusAgreesWithVerify(env: Env, fs: map<Path, Bytes>, root: Path, artifactsDir: Path, artifacts: Entries,
                               files: Entries, key: string)
    requires !BadName(artifacts, key)
    requires EntryOf(files, key).VMap? ==> IsNonBlankStr(GetOr(EntryOf(files, key).entries, "locked_path", VNull))
    ensures StatusKey(env, fs, root, artifactsDir, artifacts, files, key).Success?
    ensures VerifyKey(env, fs, root, artifactsDir, artifacts, files, key, false).Success?
    ensures StatusKey(env, fs, root, artifactsDir, artifacts, files, key) == Success(false) <==>
            VerifyKey(env, fs, root, artifactsDir, artifacts, files, key, false).value.Ok?
  {
  }

  function MissingCount(env: Env, fs: map<Path, Bytes>, root: Path, artifactsDir: Path, artifacts: Entries,
                        files: Entries, keys: seq<string>): Result<nat, string> {
    if keys == [] then Success(0)
    else match MissingCount(env, fs, root, artifactsDir, artifacts, files, keys[..|keys| - 1])
      case Failure(e) => Failure(e)
      case Success(n) =>
        match StatusKey(env, fs, root, artifactsDir, artifacts, files, keys[|keys| - 1])
        case Failure(e) => Failure(e)
        case Success(miss) => Success(n + if miss then 1 else 0)
  }

  /** `cmd_status` counts `key` as missing (it does not raise on it). */
  predicate KeyMissing(env: Env, fs: map<Path, Bytes>, root: Path, artifactsDir: Path, artifacts: Entries,
                       files: Entries, key: string) {
    StatusKey(env, fs, root, artifactsDir, artifacts, files, key) == Success(true)
  }

  /** The missing count is positive exactly when some configured key is missing or drifted. */
  lemma {:induction false} MissingCountIff(env: Env, fs: map<Path, Bytes>, root: Path, artifactsDir: Path,
                                           artifacts: Entries, files: Entries, keys: seq<string>)
    requires MissingCount(env, fs, root, artifactsDir, artifacts, files, keys).Success?
    ensures MissingCount(env, fs, root, artifactsDir, artifacts, files, keys).value > 0 <==>
      exists k :: k in keys && KeyMissing(env, fs, root, artifactsDir, artifacts, files, k)
  {
    if keys != [] {
      var init := keys[..|keys| - 1];
      MissingStep(env, fs, root, artifactsDir, artifacts, files, keys);
      MissingCountIff(env, fs, root, artifactsDir, artifacts, files, init);
      InitOrLast(keys);
    }
  }

  /** One more key adds one to the count exactly when that key is missing. */
  lemma MissingStep(env: Env, fs: map<Path, Bytes>, root: Path, artifactsDir: Path,
                    artifacts: Entries, files: Entries, keys: seq<string>)
    requires keys != [] && MissingCount(env, fs, root, artifactsDir, artifacts, files, keys).Success?
    ensures MissingCount(env, fs, root, artifactsDir, artifacts, files, keys[..|keys| - 1]).Success?
    ensures MissingCount(env, fs, root, artifactsDir, artifacts, files, keys).value ==
      MissingCount(env, fs, root, artifactsDir, artifacts, files, keys[..|keys| - 1]).value +
      if KeyMissing(env, fs, root, artifactsDir, artifacts, files, keys[|keys| - 1]) then 1 else 0
  {
  }

  /** `cmd_status`: exit 1 only under `strict`, when something is absent or not OK. */
  function StatusRun(env: Env, fs: map<Path, Bytes>, root: Path, workflowPath: string, strict: bool): (r: Outcome)
    ensures !strict ==> r != Exit(1)
    ensures r.Exit? ==> r.code in {0, 1}
  {
    match LoadConfig(env, fs, root, workflowPath)
    case Failure(e) => Raised(e)
    case Success(cfg) =>
      if !cfg.enabled then Exit(0)
      else match ReadActive(env, fs, cfg.pointer)
        case None => Exit(if strict then 1 else 0)
        case Some(active) =>
          var lockPath := LockPath(cfg.milestoneDir, active, cfg.lockFilename);
          if lockPath !in fs then Exit(if strict then 1 else 0)
          else match LoadLock(env, fs, lockPath)
            case None => Raised("ValueError: lock missing files mapping")
            case Some(files) =>
              match MissingCount(env, fs, root, cfg.artifactsDir, cfg.artifacts, files, cfg.keys)
              case Failure(e) => Raised(e)
              case Success(missing) => Exit(if missing > 0 && strict then 1 else 0)
  }

  /**
   * With milestones enabled, `status --strict` exits 1 exactly when there is no ACTIVE
   * pointer, the lock file is absent, or some configured key is missing or drifted; without
   * `--strict` those cases exit 0.
   */
  lemma StatusStrictIff(env: Env, fs: map<Path, Bytes>, root: Path, workflowPath: string, strict: bool)
    requires LoadConfig(env, fs, root, workflowPath).Success? && LoadConfig(env, fs, root, workflowPath).value.enabled
    ensures var cfg := LoadConfig(env, fs, root, workflowPath).value;
      var r := StatusRun(env, fs, root, workflowPath, strict);
      var active := ReadActive(env, fs, cfg.pointer);
      && (active.None? ==> r == Exit(if strict then 1 else 0))
      && (active.Some? && LockPath(cfg.milestoneDir, active.value, cfg.lockFilename) !in fs ==>
            r == Exit(if strict then 1 else 0))
      && (active.Some? && LoadLock(env, fs, LockPath(cfg.milestoneDir, active.value, cfg.lockFilename)).Some? ==>
            var files := LoadLock(env, fs, LockPath(cfg.milestoneDir, active.value, cfg.lockFilename)).value;
            MissingCount(env, fs, root, cfg.artifactsDir, cfg.artifacts, files, cfg.keys).Success? ==>
              (r == Exit(1) <==>
                 strict && exists k :: k in cfg.keys && KeyMissing(env, fs, root, cfg.artifactsDir, cfg.artifacts, files, k)))
  {
    var cfg := LoadConfig(env, fs, root, workflowPath).value;
    var active := ReadActive(env, fs, cfg.pointer);
    if active.Some? && LoadLock(env, fs, LockPath(cfg.milestoneDir, active.value, cfg.lockFilename)).Some? {
      var files := LoadLock(env, fs, LockPath(cfg.milestoneDir, active.value, cfg.lockFilename)).value;
      if MissingCount(env, fs, root, cfg.artifactsDir, cfg.artifacts, files, cfg.keys).Success? {
        MissingCountIff(env, fs, root, cfg.artifactsDir, cfg.artifacts, files, cfg.keys);
      }
    }
  }

  lemma {:induction false} MissingCountFailureSticks(env: Env, fs: map<Path, Bytes>, root: Path, artifactsDir: Path,
                                                     artifacts: Entries, files: Entries, keys: seq<string>, i: nat)
    requires i <= |keys| && MissingCount(env, fs, root, artifactsDir, artifacts, files, keys[..i]).Failure?
    ensures MissingCount(env, fs, root, artifactsDir, artifacts, files, keys) ==
            MissingCount(env, fs, root, artifactsDir, artifacts, files, keys[..i])
    decreases |keys|
  {
    if i < |keys| {
      var init := keys[..|keys| - 1];
      assert init[..i] == keys[..i];
      MissingCountFailureSticks(env, fs, root, artifactsDir, artifacts, files, init, i);
    } else {
      assert keys[..i] == keys;
    }
  }

  /** The loop of `cmd_status`. */
  method StatusLoop(env: Env, fs: map<Path, Bytes>, root: Path, artifactsDir: Path, artifacts: Entries,
                    files: Entries, keys: seq<string>) returns (r: Result<nat, string>)
    ensures r == MissingCount(env, fs, root, artifactsDir, artifacts, files, keys)
  {
    var missing := 0;
    for i := 0 to |keys|
      invariant MissingCount(env, fs, root, artifactsDir, artifacts, files, keys[..i]) == Success(missing)
    {
      assert keys[..i + 1][..i] == keys[..i];
      var miss := StatusKey(env, fs, root, artifactsDir, artifacts, files, keys[i]);
      if miss.Failure? {
        MissingCountFailureSticks(env, fs, root, artifactsDir, artifacts, files, keys, i + 1);
        return Failure(miss.error);
      }
      if miss.value {
        missing := missing + 1;
      }
    }
    assert keys[..|keys|] == keys;
    r := Success(missing);
  }

  /** `cmd_status`. */
  method Status(repo: Repo, env: Env, workflowPath: string, strict: bool) returns (outcome: Outcome)
    ensures outcome == StatusRun(env, repo.files, repo.root, workflowPath, strict)
  {
    var config := LoadConfig(env, repo.files, repo.root, workflowPath);
    if config.Failure? {
      return Raised(config.error);
    }
    var cfg := config.value;
    if !cfg.enabled {
      return Exit(0);
    }
    var active := ReadActive(env, repo.files, cfg.pointer);
    if active.None? {
      return Exit(if strict then 1 else 0);
    }
    var lockPath := LockPath(cfg.milestoneDir, active.value, cfg.lockFilename);
    if lockPath !in repo.files {
      return Exit(if strict then 1 else 0);
    }
    var files := LoadLock(env, repo.files, lockPath);
    if files.None? {
      return Raised("ValueError: lock missing files mapping");
    }
    var missing := StatusLoop(env, repo.files, repo.root, cfg.artifactsDir, cfg.artifacts, files.value, cfg.keys);
    if missing.Failure? {
      return Raised(missing.error);
    }
    outcome := Exit(if missing.value > 0 && strict then 1 else 0);
  }

  // ---------- set-active ----------

  /** `cmd_set_active`: moves the pointer only to a milestone whose lock file exists. */
  function SetActiveRun(env: Env, fs: map<Path, Bytes>, root: Path, workflowPath: string, id: string): (r: LockRun)
    ensures r.outcome == Exit(0) <==>
      LoadConfig(env, fs, root, workflowPath).Success? && LoadConfig(env, fs, root, workflowPath).value.enabled
      && LockPath(LoadConfig(env, fs, root, workflowPath).value.milestoneDir, id,
                  LoadConfig(env, fs, root, workflowPath).value.lockFilename) in fs
    ensures r.outcome != Exit(0) ==> r.files == fs
    ensures r.outcome == Exit(0) ==>
      r.files == WriteActive(env, fs, LoadConfig(env, fs, root, workflowPath).value.pointer, id)
  {
    match LoadConfig(env, fs, root, workflowPath)
    case Failure(e) => LockRun(fs, Raised(e))
    case Success(cfg) =>
      if !cfg.enabled then LockRun(fs, Exit(1))
      else if LockPath(cfg.milestoneDir, id, cfg.lockFilename) !in fs then LockRun(fs, Exit(1))
      else LockRun(WriteActive(env, fs, cfg.pointer, id), Exit(0))
  }

  method SetActive(repo: Repo, env: Env, workflowPath: string, id: string) returns (outcome: Outcome)
    modifies repo
    ensures LockRun(repo.files, outcome) == SetActiveRun(env, old(repo.files), repo.root, workflowPath, id)
  {
    var config := LoadConfig(env, repo.files, repo.root, workflowPath);
    if config.Failure? {
      return Raised(config.error);
    }
    var cfg := config.value;
    if !cfg.enabled || LockPath(cfg.milestoneDir, id, cfg.lockFilename) !in repo.files {
      return Exit(1);
    }
    repo.files := WriteActive(env, repo.files, cfg.pointer, id);
    outcome := Exit(0);
  }

  /**
   * After a successful `set-active`, the ACTIVE milestone reads back as the id (when
   * the UTF-8 codec round-trips it and the pointer is not the workflow file itself).
   */
  lemma SetActiveThenRead(env: Env, fs: map<Path, Bytes>, root: Path, workflowPath: string, id: string)
    requires SetActiveRun(env, fs, root, workflowPath, id).outcome == Exit(0)
    requires env.decode(env.encode(id + "\n")) == id + "\n"
    requires Stripped(id)
    ensures var cfg := LoadConfig(env, fs, root, workflowPath).value;
      ReadActive(env, SetActiveRun(env, fs, root, workflowPath, id).files, cfg.pointer) == Some(id)
  {
    var cfg := LoadConfig(env, fs, root, workflowPath).value;
    ReadAfterWrite(env, fs, cfg.pointer, id);
  }
}
