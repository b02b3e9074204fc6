/**
 * The long-lived spec baseline (bmad/scripts/spec_baseline.py): `seed` copies baseline
 * specs into the artifacts workspace, `snapshot` copies the workspace back into the
 * baseline, `import-archive` fills the baseline from an archived run, and `status`
 * reports which baseline files are present.
 *
 * The three copying commands share one per-key loop, `CopyKeys`, specified by the
 * fold `SyncKeys`; they differ only in the source and destination directories and in
 * whether an existing destination is kept (seed without `--force`).
 */
module SpecBaseline {
  import opened Wrappers
  import opened Values
  import opened Paths
  import opened Host

  const DEFAULT_BASELINE_KEYS: seq<string> := ["prd", "scope", "adr", "impact", "ui_ux_spec", "api_design"]
  const DEFAULT_ARTIFACTS_DIR: string := ".bmad/artifacts"
  const DEFAULT_BASELINE_DIR: string := ".bmad/baseline/spec"

  datatype Config = Config(artifactsDir: Path, baselineDir: Path, artifacts: Entries, keys: seq<string>)

  /** `baseline.get("keys")`, falling back to the defaults when absent or not a list. */
  function BaselineKeys(baseline: Entries): (r: seq<string>)
    ensures !(Get(baseline, "keys").Some? && Get(baseline, "keys").value.VList?) ==> r == DEFAULT_BASELINE_KEYS
    ensures Get(baseline, "keys").Some? && Get(baseline, "keys").value.VList? ==>
      |r| == |Get(baseline, "keys").value.items|
      && forall i :: 0 <= i < |r| ==> r[i] == Str(Get(baseline, "keys").value.items[i])
  {
    match Get(baseline, "keys")
    case Some(VList(items)) => StrAll(items)
    case _ => DEFAULT_BASELINE_KEYS
  }

  /**
   * `resolve_config`: a non-mapping `artifacts` or `baseline` raises ValueError (in that
   * order); a directory that is not a string makes the path join raise TypeError.
   */
  function ResolveConfig(workflow: Entries, root: Path): (r: Result<Config, string>)
    ensures !GetOr(workflow, "artifacts", VMap([])).VMap? ==> r.Failure?
    ensures !GetOr(workflow, "baseline", VMap([])).VMap? ==> r.Failure?
    ensures !GetOr(workflow, "artifacts_dir", VStr(DEFAULT_ARTIFACTS_DIR)).VStr? ==> r.Failure?
    ensures r.Success? ==>
      && GetOr(workflow, "artifacts", VMap([])) == VMap(r.value.artifacts)
      && GetOr(workflow, "baseline", VMap([])).VMap?
      && r.value.keys == BaselineKeys(GetOr(workflow, "baseline", VMap([])).entries)
      && r.value.artifactsDir == Join(root, GetOr(workflow, "artifacts_dir", VStr(DEFAULT_ARTIFACTS_DIR)).s)
      && GetOr(GetOr(workflow, "baseline", VMap([])).entries, "dir", VStr(DEFAULT_BASELINE_DIR)).VStr?
      && r.value.baselineDir == Join(root, GetOr(GetOr(workflow, "baseline", VMap([])).entries, "dir", VStr(DEFAULT_BASELINE_DIR)).s)
    ensures !HasKey(workflow, "artifacts_dir") && !HasKey(workflow, "baseline") && GetOr(workflow, "artifacts", VMap([])).VMap? ==>
      r.Success? && r.value.artifactsDir == Join(root, DEFAULT_ARTIFACTS_DIR)
      && r.value.baselineDir == Join(root, DEFAULT_BASELINE_DIR) && r.value.keys == DEFAULT_BASELINE_KEYS
  {
    var artifactsDir := GetOr(workflow, "artifacts_dir", VStr(DEFAULT_ARTIFACTS_DIR));
    var artifacts := GetOr(workflow, "artifacts", VMap([]));
    var baseline := GetOr(workflow, "baseline", VMap([]));
    if !artifacts.VMap? then Failure("ValueError: workflow.artifacts must be a mapping")
    else if !baseline.VMap? then Failure("ValueError: workflow.baseline must be a mapping")
    else
      var baselineDir := GetOr(baseline.entries, "dir", VStr(DEFAULT_BASELINE_DIR));
      if !artifactsDir.VStr? || !baselineDir.VStr? then Failure("TypeError: unsupported operand type for /")
      else Success(Config(Join(root, artifactsDir.s), Join(root, baselineDir.s), artifacts.entries,
                          BaselineKeys(baseline.entries)))
  }

  // ---------- the per-key copy loop ----------

  datatype Tally = Tally(copied: seq<Path>, skipped: seq<Path>, missingSource: seq<string>, missingMap: seq<string>)

  const NO_KEYS: Tally := Tally([], [], [], [])

  function Total(t: Tally): nat {
    |t.copied| + |t.skipped| + |t.missingSource| + |t.missingMap|
  }

  /** The files, the four lists, and the exception that stopped the loop, if one did. */
  datatype Sync = Sync(files: map<Path, Bytes>, tally: Tally, crash: Option<string>)

  /** One iteration of the key loop. `keep` is true when an existing destination is skipped. */
  function SyncStep(s: Sync, srcDir: Path, dstDir: Path, artifacts: Entries, keep: bool, key: string): Sync {
    if s.crash.Some? then s
    else if !Truthy(NameOf(artifacts, key)) then
      s.(tally := s.tally.(missingMap := s.tally.missingMap + [key]))
    else if BadName(artifacts, key) then
      s.(crash := Some("TypeError: unsupported operand type for /"))
    else
      var src := Join(srcDir, FileName(artifacts, key));
      var dst := Join(dstDir, FileName(artifacts, key));
      if !NonEmptyFile(s.files, src) then
        s.(tally := s.tally.(missingSource := s.tally.missingSource + [key + ":" + src]))
      else if keep && dst in s.files then
        s.(tally := s.tally.(skipped := s.tally.skipped + [dst]))
      else if src == dst then
        s.(crash := Some("SameFileError"))
      else
        Sync(s.files[dst := s.files[src]], s.tally.(copied := s.tally.copied + [dst]), None)
  }

  /** The loop over `keys`, one `SyncStep` per key in order. */
  function SyncKeys(fs: map<Path, Bytes>, srcDir: Path, dstDir: Path, artifacts: Entries, keep: bool,
                    keys: seq<string>): Sync
  {
    if keys == [] then Sync(fs, NO_KEYS, None)
    else SyncStep(SyncKeys(fs, srcDir, dstDir, artifacts, keep, keys[..|keys| - 1]),
                  srcDir, dstDir, artifacts, keep, keys[|keys| - 1])
  }

  /** Once a key has raised, the later keys change nothing. */
  lemma {:induction false} SyncCrashSticks(fs: map<Path, Bytes>, srcDir: Path, dstDir: Path, artifacts: Entries,
                                           keep: bool, keys: seq<string>, i: nat)
    requires i <= |keys| && SyncKeys(fs, srcDir, dstDir, artifacts, keep, keys[..i]).crash.Some?
    ensures SyncKeys(fs, srcDir, dstDir, artifacts, keep, keys) == SyncKeys(fs, srcDir, dstDir, artifacts, keep, keys[..i])
    decreases |keys|
  {
    if i < |keys| {
      var init := keys[..|keys| - 1];
      assert init[..i] == keys[..i];
      SyncCrashSticks(fs, srcDir, dstDir, artifacts, keep, init, i);
    } else {
      assert keys[..i] == keys;
    }
  }

  /**
   * The key loop of `cmd_seed`, `cmd_snapshot` and `cmd_import_archive`: copies the file
   * of each mapped key from `srcDir` to `dstDir`, stopping at the first exception.
   */
  method CopyKeys(repo: Repo, srcDir: Path, dstDir: Path, artifacts: Entries, keep: bool, keys: seq<string>)
    returns (tally: Tally, crash: Option<string>)
    modifies repo
    ensures Sync(repo.files, tally, crash) == SyncKeys(old(repo.files), srcDir, dstDir, artifacts, keep, keys)
  {
    ghost var fs0 := repo.files;
    tally, crash := NO_KEYS, None;
    var i := 0;
    while i < |keys|
      invariant 0 <= i <= |keys|
      invariant Sync(repo.files, tally, crash) == SyncKeys(fs0, srcDir, dstDir, artifacts, keep, keys[..i])
      invariant crash.None?
    {
      assert keys[..i + 1][..i] == keys[..i];
      var key := keys[i];
      var name := GetOr(artifacts, key, VNull);
      if !Truthy(name) {
        tally := tally.(missingMap := tally.missingMap + [key]);
      } else if !name.VStr? {
        crash := Some("TypeError: unsupported operand type for /");
        SyncCrashSticks(fs0, srcDir, dstDir, artifacts, keep, keys, i + 1);
        return;
      } else {
        var src := Join(srcDir, name.s);
        var dst := Join(dstDir, name.s);
        if !(src in repo.files && |repo.files[src]| > 0) {
          tally := tally.(missingSource := tally.missingSource + [key + ":" + src]);
        } else if keep && dst in repo.files {
          tally := tally.(skipped := tally.skipped + [dst]);
        } else if src == dst {
          crash := Some("SameFileError");
          SyncCrashSticks(fs0, srcDir, dstDir, artifacts, keep, keys, i + 1);
          return;
        } else {
          repo.files := repo.files[dst := repo.files[src]];
          tally := tally.(copied := tally.copied + [dst]);
        }
      }
      i := i + 1;
    }
    assert keys[..i] == keys;
  }

  // ---------- properties of the key loop ----------

  /** Without an exception, every key lands in exactly one of the four lists. */
  lemma {:induction false} SyncPartition(fs: map<Path, Bytes>, srcDir: Path, dstDir: Path, artifacts: Entries,
                                         keep: bool, keys: seq<string>)
    requires SyncKeys(fs, srcDir, dstDir, artifacts, keep, keys).crash.None?
    ensures Total(SyncKeys(fs, srcDir, dstDir, artifacts, keep, keys).tally) == |keys|
  {
    if keys != [] {
      SyncPartition(fs, srcDir, dstDir, artifacts, keep, keys[..|keys| - 1]);
    }
  }

  /** When existing destinations are kept, no file that existed before is changed or removed. */
  lemma {:induction false} SyncKeepsExisting(fs: map<Path, Bytes>, srcDir: Path, dstDir: Path, artifacts: Entries,
                                             keys: seq<string>)
    ensures var s := SyncKeys(fs, srcDir, dstDir, artifacts, true, keys);
      forall p :: p in fs ==> p in s.files && s.files[p] == fs[p]
  {
    if keys != [] {
      SyncKeepsExisting(fs, srcDir, dstDir, artifacts, keys[..|keys| - 1]);
    }
  }

  /** When destinations are overwritten (snapshot, import-archive, seed --force), nothing is skipped. */
  lemma {:induction false} SyncNeverSkips(fs: map<Path, Bytes>, srcDir: Path, dstDir: Path, artifacts: Entries,
                                          keys: seq<string>)
    ensures SyncKeys(fs, srcDir, dstDir, artifacts, false, keys).tally.skipped == []
  {
    if keys != [] {
      SyncNeverSkips(fs, srcDir, dstDir, artifacts, keys[..|keys| - 1]);
    }
  }

  /** No mapped key's source is another (or the same) mapped key's destination. */
  predicate Disjoint(srcDir: Path, dstDir: Path, artifacts: Entries, keys: seq<string>) {
    forall k1, k2 :: k1 in keys && k2 in keys && Mapped(artifacts, k1) && Mapped(artifacts, k2) ==>
      Join(srcDir, FileName(artifacts, k1)) != Join(dstDir, FileName(artifacts, k2))
  }

  /** `p` holds a copy of the original source file of the mapped key `k`. */
  predicate CopyOf(fs0: map<Path, Bytes>, fs: map<Path, Bytes>, srcDir: Path, dstDir: Path, artifacts: Entries,
                   k: string, p: Path)
    requires p in fs
  {
    && Mapped(artifacts, k)
    && p == Join(dstDir, FileName(artifacts, k))
    && Join(srcDir, FileName(artifacts, k)) in fs0
    && fs[p] == fs0[Join(srcDir, FileName(artifacts, k))]
  }

  /**
   * The loop only adds files, and every file it changed or created is the destination
   * of a mapped key holding that key's original source bytes.
   */
  lemma {:induction false} SyncOnlyCopies(fs: map<Path, Bytes>, srcDir: Path, dstDir: Path, artifacts: Entries,
                                          keep: bool, keys: seq<string>)
    requires Disjoint(srcDir, dstDir, artifacts, keys)
    ensures var s := SyncKeys(fs, srcDir, dstDir, artifacts, keep, keys);
      && fs.Keys <= s.files.Keys
      && forall p :: p in s.files ==>
           (p in fs && s.files[p] == fs[p]) || exists k :: k in keys && CopyOf(fs, s.files, srcDir, dstDir, artifacts, k, p)
  {
    if keys != [] {
      var init := keys[..|keys| - 1];
      var key := keys[|keys| - 1];
      SyncOnlyCopies(fs, srcDir, dstDir, artifacts, keep, init);
      var s := SyncKeys(fs, srcDir, dstDir, artifacts, keep, init);
      var s' := SyncKeys(fs, srcDir, dstDir, artifacts, keep, keys);
      if s.crash.None? && Truthy(NameOf(artifacts, key)) && !BadName(artifacts, key) {
        var src := Join(srcDir, FileName(artifacts, key));
        var dst := Join(dstDir, FileName(artifacts, key));
        if s'.files != s.files {
          assert s'.files == s.files[dst := s.files[src]];
          SourceUnchanged(fs, s.files, srcDir, dstDir, artifacts, keep, init, keys, key);
          assert CopyOf(fs, s'.files, srcDir, dstDir, artifacts, key, dst);
          forall p | p in s'.files && p != dst
            ensures (p in fs && s'.files[p] == fs[p]) || exists k :: k in keys && CopyOf(fs, s'.files, srcDir, dstDir, artifacts, k, p)
          {
            if !(p in fs && s'.files[p] == fs[p]) {
              var k :| k in init && CopyOf(fs, s.files, srcDir, dstDir, artifacts, k, p);
              assert CopyOf(fs, s'.files, srcDir, dstDir, artifacts, k, p);
            }
          }
        }
      }
    }
  }

  /** Under `Disjoint`, the source of a mapped key still holds its original bytes. */
  lemma SourceUnchanged(fs: map<Path, Bytes>, files: map<Path, Bytes>, srcDir: Path, dstDir: Path, artifacts: Entries,
                        keep: bool, init: seq<string>, keys: seq<string>, key: string)
    requires Disjoint(srcDir, dstDir, artifacts, keys)
    requires forall k :: k in init ==> k in keys
    requires key in keys && Mapped(artifacts, key)
    requires fs.Keys <= files.Keys
    requires forall p :: p in files ==>
      (p in fs && files[p] == fs[p]) || exists k :: k in init && CopyOf(fs, files, srcDir, dstDir, artifacts, k, p)
    requires Join(srcDir, FileName(artifacts, key)) in files
    ensures var src := Join(srcDir, FileName(artifacts, key)); src in fs && files[src] == fs[src]
  {
  }

  /**
   * Every mapped key whose source file exists non-empty ends with its destination
   * holding the source's bytes, unless the destination already existed and was kept.
   */
  lemma {:induction false} SyncDelivers(fs: map<Path, Bytes>, srcDir: Path, dstDir: Path, artifacts: Entries,
                                        keep: bool, keys: seq<string>)
    requires Disjoint(srcDir, dstDir, artifacts, keys)
    requires SyncKeys(fs, srcDir, dstDir, artifacts, keep, keys).crash.None?
    ensures var s := SyncKeys(fs, srcDir, dstDir, artifacts, keep, keys);
      forall k :: k in keys && Mapped(artifacts, k) && NonEmptyFile(fs, Join(srcDir, FileName(artifacts, k))) ==>
        var dst := Join(dstDir, FileName(artifacts, k));
        dst in s.files && s.files[dst] == (if keep && dst in fs then fs[dst] else fs[Join(srcDir, FileName(artifacts, k))])
  {
    if keys != [] {
      var init := keys[..|keys| - 1];
      var key := keys[|keys| - 1];
      var s := SyncKeys(fs, srcDir, dstDir, artifacts, keep, init);
      var s' := SyncKeys(fs, srcDir, dstDir, artifacts, keep, keys);
      assert s.crash.None?;
      SyncDelivers(fs, srcDir, dstDir, artifacts, keep, init);
      SyncOnlyCopies(fs, srcDir, dstDir, artifacts, keep, init);
      if keep {
        SyncKeepsExisting(fs, srcDir, dstDir, artifacts, keys);
      }
      forall k | k in keys
        ensures Delivered(fs, s'.files, srcDir, dstDir, artifacts, keep, k)
      {
        if k == key {
          DeliverLast(fs, s, srcDir, dstDir, artifacts, keep, init, keys, key);
        } else {
          assert k in init;
          DeliverEarlier(fs, s, srcDir, dstDir, artifacts, keep, init, keys, key, k);
        }
      }
    }
  }

  /** The mapped key `k` with a non-empty source has its destination holding the delivered bytes. */
  predicate Delivered(fs0: map<Path, Bytes>, files: map<Path, Bytes>, srcDir: Path, dstDir: Path, artifacts: Entries,
                      keep: bool, k: string) {
    Mapped(artifacts, k) && NonEmptyFile(fs0, Join(srcDir, FileName(artifacts, k))) ==>
      var dst := Join(dstDir, FileName(artifacts, k));
      dst in files && files[dst] == (if keep && dst in fs0 then fs0[dst] else fs0[Join(srcDir, FileName(artifacts, k))])
  }

  /** Every file of `files` is as in `fs0` or a copy of the source of one of `keys`. */
  predicate OnlyCopiesOf(fs0: map<Path, Bytes>, files: map<Path, Bytes>, srcDir: Path, dstDir: Path, artifacts: Entries,
                         keys: seq<string>) {
    && fs0.Keys <= files.Keys
    && forall p :: p in files ==>
         (p in fs0 && files[p] == fs0[p]) || exists k :: k in keys && CopyOf(fs0, files, srcDir, dstDir, artifacts, k, p)
  }

  /** The last key of the loop is delivered by its own step. */
  lemma DeliverLast(fs: map<Path, Bytes>, s: Sync, srcDir: Path, dstDir: Path, artifacts: Entries, keep: bool,
                    init: seq<string>, keys: seq<string>, key: string)
    requires keys == init + [key] && Disjoint(srcDir, dstDir, artifacts, keys)
    requires s.crash.None? && SyncStep(s, srcDir, dstDir, artifacts, keep, key).crash.None?
    requires OnlyCopiesOf(fs, s.files, srcDir, dstDir, artifacts, init)
    requires keep ==> forall p :: p in fs ==>
      (p in SyncStep(s, srcDir, dstDir, artifacts, keep, key).files && SyncStep(s, srcDir, dstDir, artifacts, keep, key).files[p] == fs[p])
    ensures Delivered(fs, SyncStep(s, srcDir, dstDir, artifacts, keep, key).files, srcDir, dstDir, artifacts, keep, key)
  {
    if Mapped(artifacts, key) && NonEmptyFile(fs, Join(srcDir, FileName(artifacts, key))) {
      var name := FileName(artifacts, key);
      var dst := Join(dstDir, name);
      SourceUnchanged(fs, s.files, srcDir, dstDir, artifacts, keep, init, keys, key);
      if keep && dst in s.files && dst !in fs {
        var k' :| k' in init && CopyOf(fs, s.files, srcDir, dstDir, artifacts, k', dst);
        assert !IsAbsolute(name) && !IsAbsolute(FileName(artifacts, k'));
        JoinInjective(dstDir, FileName(artifacts, k'), name);
      }
    }
  }

  /** A key delivered before the last step stays delivered. */
  lemma DeliverEarlier(fs: map<Path, Bytes>, s: Sync, srcDir: Path, dstDir: Path, artifacts: Entries, keep: bool,
                       init: seq<string>, keys: seq<string>, key: string, k: string)
    requires keys == init + [key] && Disjoint(srcDir, dstDir, artifacts, keys) && k in init
    requires s.crash.None? && SyncStep(s, srcDir, dstDir, artifacts, keep, key).crash.None?
    requires OnlyCopiesOf(fs, s.files, srcDir, dstDir, artifacts, init)
    requires Delivered(fs, s.files, srcDir, dstDir, artifacts, keep, k)
    ensures Delivered(fs, SyncStep(s, srcDir, dstDir, artifacts, keep, key).files, srcDir, dstDir, artifacts, keep, k)
  {
    var s' := SyncStep(s, srcDir, dstDir, artifacts, keep, key);
    if Mapped(artifacts, k) && NonEmptyFile(fs, Join(srcDir, FileName(artifacts, k))) && s'.files != s.files {
      var name := FileName(artifacts, key);
      var dst := Join(dstDir, name);
      assert s'.files == s.files[dst := s.files[Join(srcDir, name)]];
      if Join(dstDir, FileName(artifacts, k)) == dst {
        assert !IsAbsolute(name) && !IsAbsolute(FileName(artifacts, k));
        JoinInjective(dstDir, FileName(artifacts, k), name);
        SourceUnchanged(fs, s.files, srcDir, dstDir, artifacts, keep, init, keys, key);
      }
    }
  }

  // ---------- the commands ----------

  /** What a command leaves behind: the files, the key lists, and its exit status or exception. */
  datatype Run = Run(files: map<Path, Bytes>, tally: Tally, outcome: Outcome)

  /** `load_workflow` followed by `resolve_config`. */
  function LoadConfig(env: Env, fs: map<Path, Bytes>, root: Path, workflow: string): Result<Config, string> {
    match LoadYamlMapping(env, fs, Join(root, workflow))
    case None => Failure("ValueError: invalid workflow YAML")
    case Some(wf) => ResolveConfig(wf, root)
  }

  function Finish(s: Sync): (r: Run)
    ensures r.files == s.files && r.tally == s.tally
    ensures r.outcome.Raised? <==> s.crash.Some?
    ensures r.outcome.Exit? ==> r.outcome.code == 0
  {
    Run(s.files, s.tally, if s.crash.Some? then Raised(s.crash.value) else Exit(0))
  }

  /** `cmd_seed`: baseline to workspace; an existing workspace file is kept unless `force`. */
  function SeedRun(env: Env, fs: map<Path, Bytes>, root: Path, workflow: string, force: bool): (r: Run)
    ensures r.outcome.Exit? ==> r.outcome.code == 0
    ensures !force ==> forall p :: p in fs ==> p in r.files && r.files[p] == fs[p]
  {
    match LoadConfig(env, fs, root, workflow)
    case Failure(e) => Run(fs, NO_KEYS, Raised(e))
    case Success(cfg) =>
      SyncKeepsExisting(fs, cfg.baselineDir, cfg.artifactsDir, cfg.artifacts, cfg.keys);
      Finish(SyncKeys(fs, cfg.baselineDir, cfg.artifactsDir, cfg.artifacts, !force, cfg.keys))
  }

  /** `cmd_snapshot`: workspace to baseline, overwriting. */
  function SnapshotRun(env: Env, fs: map<Path, Bytes>, root: Path, workflow: string): (r: Run)
    ensures r.outcome.Exit? ==> r.outcome.code == 0
    ensures r.tally.skipped == []
  {
    match LoadConfig(env, fs, root, workflow)
    case Failure(e) => Run(fs, NO_KEYS, Raised(e))
    case Success(cfg) =>
      SyncNeverSkips(fs, cfg.artifactsDir, cfg.baselineDir, cfg.artifacts, cfg.keys);
      Finish(SyncKeys(fs, cfg.artifactsDir, cfg.baselineDir, cfg.artifacts, false, cfg.keys))
  }

  /** The archive directory `cmd_import_archive` reads: `--archive-dir`, else the latest archive. */
  function ArchiveDir(root: Path, archiveArg: Option<string>, latest: Option<Path>): Option<Path> {
    if archiveArg.Some? && archiveArg.value != "" then Some(Join(root, archiveArg.value)) else latest
  }

  /**
   * `cmd_import_archive`: archive to baseline, overwriting. `latest` is what
   * `find_latest_archive_dir` found and `dirs` are the existing directories.
   */
  function ImportRun(env: Env, fs: map<Path, Bytes>, dirs: set<Path>, root: Path, workflow: string,
                     archiveArg: Option<string>, latest: Option<Path>): (r: Run)
    ensures r.outcome == Exit(1) <==>
      LoadConfig(env, fs, root, workflow).Success?
      && (ArchiveDir(root, archiveArg, latest).None? || ArchiveDir(root, archiveArg, latest).value !in dirs)
    ensures r.outcome == Exit(1) ==> r.files == fs && r.tally == NO_KEYS
    ensures r.outcome.Exit? ==> r.outcome.code in {0, 1}
    ensures r.tally.skipped == []
  {
    match LoadConfig(env, fs, root, workflow)
    case Failure(e) => Run(fs, NO_KEYS, Raised(e))
    case Success(cfg) =>
      match ArchiveDir(root, archiveArg, latest)
      case None => Run(fs, NO_KEYS, Exit(1))
      case Some(archive) =>
        if archive !in dirs then Run(fs, NO_KEYS, Exit(1))
        else
          SyncNeverSkips(fs, archive, cfg.baselineDir, cfg.artifacts, cfg.keys);
          Finish(SyncKeys(fs, archive, cfg.baselineDir, cfg.artifacts, false, cfg.keys))
  }

  method Seed(repo: Repo, env: Env, workflow: string, force: bool) returns (outcome: Outcome, tally: Tally)
    modifies repo
    ensures Run(repo.files, tally, outcome) == SeedRun(env, old(repo.files), repo.root, workflow, force)
  {
    var config := LoadConfig(env, repo.files, repo.root, workflow);
    if config.Failure? {
      return Raised(config.error), NO_KEYS;
    }
    var cfg := config.value;
    var crash;
    tally, crash := CopyKeys(repo, cfg.baselineDir, cfg.artifactsDir, cfg.artifacts, !force, cfg.keys);
    outcome := if crash.Some? then Raised(crash.value) else Exit(0);
  }

  method Snapshot(repo: Repo, env: Env, workflow: string) returns (outcome: Outcome, tally: Tally)
    modifies repo
    ensures Run(repo.files, tally, outcome) == SnapshotRun(env, old(repo.files), repo.root, workflow)
  {
    var config := LoadConfig(env, repo.files, repo.root, workflow);
    if config.Failure? {
      return Raised(config.error), NO_KEYS;
    }
    var cfg := config.value;
    var crash;
    tally, crash := CopyKeys(repo, cfg.artifactsDir, cfg.baselineDir, cfg.artifacts, false, cfg.keys);
    outcome := if crash.Some? then Raised(crash.value) else Exit(0);
  }

  method ImportArchive(repo: Repo, env: Env, dirs: set<Path>, workflow: string,
                       archiveArg: Option<string>, latest: Option<Path>) returns (outcome: Outcome, tally: Tally)
    modifies repo
    ensures Run(repo.files, tally, outcome) == ImportRun(env, old(repo.files), dirs, repo.root, workflow, archiveArg, latest)
  {
    var config := LoadConfig(env, repo.files, repo.root, workflow);
    if config.Failure? {
      return Raised(config.error), NO_KEYS;
    }
    var cfg := config.value;
    var archive := ArchiveDir(repo.root, archiveArg, latest);
    if archive.None? || archive.value !in dirs {
      return Exit(1), NO_KEYS;
    }
    var crash;
    tally, crash := CopyKeys(repo, archive.value, cfg.baselineDir, cfg.artifacts, false, cfg.keys);
    outcome := if crash.Some? then Raised(crash.value) else Exit(0);
  }

  // ---------- status ----------

  /** A key is OK when it is mapped and its baseline file exists non-empty. */
  predicate BaselineOk(fs: map<Path, Bytes>, baselineDir: Path, artifacts: Entries, key: string) {
    Mapped(artifacts, key) && NonEmptyFile(fs, Join(baselineDir, FileName(artifacts, key)))
  }

  /** The number of keys not OK, or None when some key's name raises TypeError first. */
  function MissingCount(fs: map<Path, Bytes>, baselineDir: Path, artifacts: Entries, keys: seq<string>): Option<nat> {
    if keys == [] then Some(0)
    else match MissingCount(fs, baselineDir, artifacts, keys[..|keys| - 1])
      case None => None
      case Some(n) =>
        var key := keys[|keys| - 1];
        if BadName(artifacts, key) then None
        else Some(n + if BaselineOk(fs, baselineDir, artifacts, key) then 0 else 1)
  }

  lemma {:induction false} MissingCountNone(fs: map<Path, Bytes>, baselineDir: Path, artifacts: Entries,
                                            keys: seq<string>, i: nat)
    requires i <= |keys| && MissingCount(fs, baselineDir, artifacts, keys[..i]).None?
    ensures MissingCount(fs, baselineDir, artifacts, keys).None?
    decreases |keys|
  {
    if i < |keys| {
      var init := keys[..|keys| - 1];
      assert init[..i] == keys[..i];
      MissingCountNone(fs, baselineDir, artifacts, init, i);
    } else {
      assert keys[..i] == keys;
    }
  }

  /** The count is positive exactly when some key is not OK; it fails only on a bad name. */
  lemma {:induction false} MissingCountPositive(fs: map<Path, Bytes>, baselineDir: Path, artifacts: Entries,
                                                keys: seq<string>)
    ensures MissingCount(fs, baselineDir, artifacts, keys).None? <==> exists k :: k in keys && BadName(artifacts, k)
    ensures MissingCount(fs, baselineDir, artifacts, keys).Some? ==>
      (MissingCount(fs, baselineDir, artifacts, keys).value > 0 <==>
       exists k :: k in keys && !BaselineOk(fs, baselineDir, artifacts, k))
  {
    if keys != [] {
      var init := keys[..|keys| - 1];
      var last := keys[|keys| - 1];
      MissingCountPositive(fs, baselineDir, artifacts, init);
      assert keys == init + [last];
      assert forall k :: k in keys <==> k in init || k == last;
    }
  }

  /** `cmd_status`: exit 1 exactly when `strict` is set and some key is not OK. */
  function StatusRun(env: Env, fs: map<Path, Bytes>, root: Path, workflow: string, strict: bool): (r: Outcome)
    ensures r.Exit? ==> r.code in {0, 1}
    ensures r.Raised? <==> (LoadConfig(env, fs, root, workflow).Failure?
      || exists k :: k in LoadConfig(env, fs, root, workflow).value.keys && BadName(LoadConfig(env, fs, root, workflow).value.artifacts, k))
    ensures r.Exit? ==> var cfg := LoadConfig(env, fs, root, workflow).value;
      (r.code == 1 <==> strict && exists k :: k in cfg.keys && !BaselineOk(fs, cfg.baselineDir, cfg.artifacts, k))
  {
    match LoadConfig(env, fs, root, workflow)
    case Failure(e) => Raised(e)
    case Success(cfg) =>
      MissingCountPositive(fs, cfg.baselineDir, cfg.artifacts, cfg.keys);
      match MissingCount(fs, cfg.baselineDir, cfg.artifacts, cfg.keys)
      case None => Raised("TypeError: unsupported operand type for /")
      case Some(missing) => Exit(if missing > 0 && strict then 1 else 0)
  }

  /** The loop of `cmd_status`: counts the keys that are not OK, stopping at a bad name. */
  method CountMissing(fs: map<Path, Bytes>, baselineDir: Path, artifacts: Entries, keys: seq<string>)
    returns (r: Option<nat>)
    ensures r == MissingCount(fs, baselineDir, artifacts, keys)
  {
    var missing := 0;
    for i := 0 to |keys|
      invariant MissingCount(fs, baselineDir, artifacts, keys[..i]) == Some(missing)
    {
      assert keys[..i + 1][..i] == keys[..i];
      var name := GetOr(artifacts, keys[i], VNull);
      if !Truthy(name) {
        missing := missing + 1;
      } else if !name.VStr? {
        MissingCountNone(fs, baselineDir, artifacts, keys, i + 1);
        return None;
      } else if !NonEmptyFile(fs, Join(baselineDir, name.s)) {
        missing := missing + 1;
      }
    }
    assert keys[..|keys|] == keys;
    r := Some(missing);
  }

  /** `cmd_status`. */
  method Status(repo: Repo, env: Env, workflow: string, strict: bool) returns (outcome: Outcome)
    ensures outcome == StatusRun(env, repo.files, repo.root, workflow, strict)
  {
    var config := LoadConfig(env, repo.files, repo.root, workflow);
    if config.Failure? {
      return Raised(config.error);
    }
    var cfg := config.value;
    var missing := CountMissing(repo.files, cfg.baselineDir, cfg.artifacts, cfg.keys);
    if missing.None? {
      return Raised("TypeError: unsupported operand type for /");
    }
    outcome := Exit(if missing.value > 0 && strict then 1 else 0);
  }
}
