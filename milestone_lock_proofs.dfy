/**
 * The round trip of the milestone lock engine: a lock created from a workspace whose
 * configured artifacts all exist verifies clean afterwards, and the as-written verify
 * raises on that same lock.
 */
module MilestoneLockProofs {
  import opened Wrappers
  import opened Values
  import opened Paths
  import opened Host
  import opened MilestoneLock

  /** The bytes of `item`'s source now sit at its copy, and the lock records their hash. */
  predicate Copied(env: Env, fs0: map<Path, Bytes>, c: Copying, root: Path, specDir: Path, item: Item)
    requires item.src in fs0
  {
    var dst := Join(specDir, item.name);
    && dst in c.files && c.files[dst] == fs0[item.src]
    && Get(c.entries, item.key) == Some(LockEntry(item.name, RelPath(dst, root), env.sha256(fs0[item.src])))
  }

  /** Artifact names are relative, and no copy lands on a source. */
  predicate CopySafe(sourceDir: Path, specDir: Path, artifacts: Entries, keys: seq<string>) {
    forall k, k' :: k in keys && k' in keys ==>
      Mapped(artifacts, k) && Mapped(artifacts, k') && !IsAbsolute(FileName(artifacts, k))
      && Join(specDir, FileName(artifacts, k)) != Join(sourceDir, FileName(artifacts, k'))
  }

  /** `p` is none of the items' destinations. */
  predicate NotCopyTarget(specDir: Path, items: seq<Item>, p: Path) {
    forall i :: 0 <= i < |items| ==> p != Join(specDir, items[i].name)
  }

  /** Items that can be copied in any order with one outcome per key and per destination. */
  predicate Coherent(fs0: map<Path, Bytes>, specDir: Path, items: seq<Item>) {
    && (forall i :: 0 <= i < |items| ==> items[i].src in fs0 && NotCopyTarget(specDir, items, items[i].src))
    && (forall i, j :: 0 <= i < |items| && 0 <= j < |items| && items[i].key == items[j].key ==> items[i] == items[j])
    && (forall i, j :: 0 <= i < |items| && 0 <= j < |items| && Join(specDir, items[i].name) == Join(specDir, items[j].name) ==>
          items[i].src == items[j].src)
  }

  ghost predicate CopiedAll(env: Env, fs0: map<Path, Bytes>, c: Copying, root: Path, specDir: Path, items: seq<Item>) {
    && c.crash.None?
    && fs0.Keys <= c.files.Keys
    && (forall p :: p in fs0 && NotCopyTarget(specDir, items, p) ==> c.files[p] == fs0[p])
    && (forall i :: 0 <= i < |items| ==> items[i].src in fs0 && Copied(env, fs0, c, root, specDir, items[i]))
  }

  lemma CopyStepKeeps(env: Env, fs0: map<Path, Bytes>, c: Copying, root: Path, specDir: Path, init: seq<Item>, last: Item)
    requires Coherent(fs0, specDir, init + [last])
    requires CopiedAll(env, fs0, c, root, specDir, init)
    ensures CopiedAll(env, fs0, CopyStep(c, env, root, specDir, last), root, specDir, init + [last])
  {
    var items := init + [last];
    assert items[|init|] == last;
    assert NotCopyTarget(specDir, init, last.src) by {
      forall i | 0 <= i < |init| ensures last.src != Join(specDir, init[i].name) {
        assert items[i] == init[i];
      }
    }
    var dst := Join(specDir, last.name);
    var entry := LockEntry(last.name, RelPath(dst, root), env.sha256(fs0[last.src]));
    var c' := Copying(c.files[dst := fs0[last.src]], Set(c.entries, last.key, entry), c.copied + [RelPath(dst, root)], None);
    assert CopyStep(c, env, root, specDir, last) == c';
    CopyStepFiles(fs0, c, c', specDir, init, last);
    CopyStepCopies(env, fs0, c, c', root, specDir, init, last);
  }

  /** A copy step leaves alone every file that is no item's destination. */
  lemma CopyStepFiles(fs0: map<Path, Bytes>, c: Copying, c': Copying, specDir: Path, init: seq<Item>, last: Item)
    requires last.src in fs0
    requires fs0.Keys <= c.files.Keys
    requires forall p :: p in fs0 && NotCopyTarget(specDir, init, p) ==> c.files[p] == fs0[p]
    requires c'.files == c.files[Join(specDir, last.name) := fs0[last.src]]
    ensures fs0.Keys <= c'.files.Keys
    ensures forall p :: p in fs0 && NotCopyTarget(specDir, init + [last], p) ==> c'.files[p] == fs0[p]
  {
    var items := init + [last];
    forall p | p in fs0 && NotCopyTarget(specDir, items, p) ensures c'.files[p] == fs0[p] {
      assert p != Join(specDir, items[|init|].name);
      assert NotCopyTarget(specDir, init, p) by {
        forall i | 0 <= i < |init| ensures p != Join(specDir, init[i].name) {
          assert items[i] == init[i];
        }
      }
    }
  }

  /** After a copy step every item, earlier ones included, is copied and recorded. */
  lemma CopyStepCopies(env: Env, fs0: map<Path, Bytes>, c: Copying, c': Copying, root: Path, specDir: Path,
                       init: seq<Item>, last: Item)
    requires Coherent(fs0, specDir, init + [last])
    requires forall i :: 0 <= i < |init| ==> init[i].src in fs0 && Copied(env, fs0, c, root, specDir, init[i])
    requires last.src in fs0
    requires c'.files == c.files[Join(specDir, last.name) := fs0[last.src]]
    requires c'.entries == Set(c.entries, last.key,
      LockEntry(last.name, RelPath(Join(specDir, last.name), root), env.sha256(fs0[last.src])))
    ensures forall i :: 0 <= i < |init + [last]| ==> (init + [last])[i].src in fs0 && Copied(env, fs0, c', root, specDir, (init + [last])[i])
  {
    var items := init + [last];
    var entry := LockEntry(last.name, RelPath(Join(specDir, last.name), root), env.sha256(fs0[last.src]));
    forall i | 0 <= i < |items| ensures items[i].src in fs0 && Copied(env, fs0, c', root, specDir, items[i]) {
      assert items[|init|] == last;
      GetSet(c.entries, last.key, entry, items[i].key);
      if i < |init| {
        assert items[i] == init[i];
      }
    }
  }

  lemma {:induction false} CopyCoherent(env: Env, fs0: map<Path, Bytes>, root: Path, specDir: Path, items: seq<Item>)
    requires Coherent(fs0, specDir, items)
    ensures CopiedAll(env, fs0, CopyItems(env, fs0, root, specDir, items), root, specDir, items)
  {
    if items != [] {
      var n := |items| - 1;
      var init := items[..n];
      assert items == init + [items[n]];
      assert Coherent(fs0, specDir, init) by {
        forall i | 0 <= i < n ensures NotCopyTarget(specDir, init, init[i].src) {
          assert NotCopyTarget(specDir, items, items[i].src);
        }
      }
      CopyCoherent(env, fs0, root, specDir, init);
      CopyStepKeeps(env, fs0, CopyItems(env, fs0, root, specDir, init), root, specDir, init, items[n]);
    }
  }

  /**
   * The copy loop over lockable items never crashes, copies each source's bytes to its
   * destination, records each copy's hash, and leaves every other file alone.
   */
  lemma CopyFacts(env: Env, fs0: map<Path, Bytes>, root: Path, specDir: Path, sourceDir: Path,
                  artifacts: Entries, keys: seq<string>, items: seq<Item>)
    requires ItemsOf(fs0, sourceDir, artifacts, keys, items)
    requires CopySafe(sourceDir, specDir, artifacts, keys)
    ensures CopiedAll(env, fs0, CopyItems(env, fs0, root, specDir, items), root, specDir, items)
  {
    forall i, j | 0 <= i < |items| && 0 <= j < |items| && Join(specDir, items[i].name) == Join(specDir, items[j].name)
      ensures items[i].src == items[j].src
    {
      assert items[i].key in keys;
      JoinInjective(specDir, items[i].name, items[j].name);
    }
    forall i, j | 0 <= i < |items| && 0 <= j < |items|
      ensures items[i].src != Join(specDir, items[j].name)
    {
      assert items[i].key in keys && items[j].key in keys;
    }
    CopyCoherent(env, fs0, root, specDir, items);
  }

  /** Committing writes only the lock, the pointer and the state file. */
  lemma CommitKeeps(env: Env, c: Copying, cfg: Config, root: Path, workflowPath: string, sourceDir: Path,
                    sourceLabel: string, id: string, setActive: bool, p: Path)
    requires p != LockPath(cfg.milestoneDir, id, cfg.lockFilename) && p != cfg.pointer && p != StatePath(root)
    ensures var fs1 := Commit(env, c, cfg, root, workflowPath, sourceDir, sourceLabel, id, setActive);
      (p in fs1 <==> p in c.files) && (p in c.files ==> fs1[p] == c.files[p])
  {
  }

  /** The lock file holds the lock document, unless it is also the pointer or state file. */
  lemma CommitWritesLock(env: Env, c: Copying, cfg: Config, root: Path, workflowPath: string, sourceDir: Path,
                         sourceLabel: string, id: string, setActive: bool)
    requires var lp := LockPath(cfg.milestoneDir, id, cfg.lockFilename); lp != cfg.pointer && lp != StatePath(root)
    ensures var fs1 := Commit(env, c, cfg, root, workflowPath, sourceDir, sourceLabel, id, setActive);
      var lp := LockPath(cfg.milestoneDir, id, cfg.lockFilename);
      lp in fs1 && fs1[lp] == env.dumpYaml(LockDocument(workflowPath, id, env.now, sourceLabel, RelPath(sourceDir, root),
                                                       RelPath(cfg.artifactsDir, root), cfg.keys, c.entries))
  {
  }

  /** The `files` mapping of a lock document is the one it was built from. */
  lemma LockDocumentFiles(workflowPath: string, id: string, now: string, sourceLabel: string, sourceRel: string,
                          artifactsRel: string, keys: seq<string>, entries: Entries)
    ensures GetOr(LockDocument(workflowPath, id, now, sourceLabel, sourceRel, artifactsRel, keys, entries).entries,
                  "files", VNull) == VMap(entries)
  {
    var m := LockDocument(workflowPath, id, now, sourceLabel, sourceRel, artifactsRel, keys, entries).entries;
    var front := m[..7];
    assert m == front + [("files", VMap(entries))];
    GetAppendFresh(front, "files", VMap(entries));
  }

  /** Where the files go: the written paths never coincide with the read ones or each other. */
  predicate Separate(workflowFile: Path, sourceDir: Path, specDir: Path, lockPath: Path, pointer: Path,
                     statePath: Path, artifacts: Entries, keys: seq<string>)
  {
    && CopySafe(sourceDir, specDir, artifacts, keys)
    && (forall k :: k in keys ==>
          var dst := Join(specDir, FileName(artifacts, k));
          var src := Join(sourceDir, FileName(artifacts, k));
          && dst != workflowFile && dst != lockPath && dst != pointer && dst != statePath
          && src != lockPath && src != pointer && src != statePath)
    && workflowFile != lockPath && workflowFile != pointer && workflowFile != statePath
    && lockPath != pointer && lockPath != statePath
  }

  /** The situation of the round trip: an enabled milestone whose configured artifacts all exist. */
  predicate Lockworthy(env: Env, fs0: map<Path, Bytes>, root: Path, workflowPath: string, sourceDir: Path,
                       id: string, force: bool, specRel: string)
  {
    && LoadConfig(env, fs0, root, workflowPath).Success?
    && var cfg := LoadConfig(env, fs0, root, workflowPath).value;
    && var lockPath := LockPath(cfg.milestoneDir, id, cfg.lockFilename);
    && cfg.enabled && sourceDir == cfg.artifactsDir
    && (forall k :: k in cfg.keys ==> Lockable(fs0, sourceDir, cfg.artifacts, k))
    && (lockPath !in fs0 || force)
    && id != ""
    && specRel != [] && !IsAbsolute(specRel) && SpecDir(lockPath) == Join(root, specRel)
    && Separate(Join(root, workflowPath), sourceDir, SpecDir(lockPath), lockPath, cfg.pointer, StatePath(root),
                cfg.artifacts, cfg.keys)
  }

  /** The available items of the partition of a lockworthy workspace. */
  function Available(env: Env, fs0: map<Path, Bytes>, root: Path, workflowPath: string, sourceDir: Path): seq<Item>
    requires LoadConfig(env, fs0, root, workflowPath).Success?
  {
    var cfg := LoadConfig(env, fs0, root, workflowPath).value;
    match PartitionKeys(fs0, sourceDir, cfg.artifacts, cfg.keys)
    case Success(part) => part.available
    case Failure(_) => []
  }

  /** In a lockworthy workspace, create partitions without loss, copies everything, and commits. */
  lemma CreateCommits(env: Env, fs0: map<Path, Bytes>, root: Path, workflowPath: string, sourceDir: Path,
                      sourceLabel: string, id: string, force: bool, allowPartial: bool, setActive: bool, specRel: string)
    requires Lockworthy(env, fs0, root, workflowPath, sourceDir, id, force, specRel)
    ensures var cfg := LoadConfig(env, fs0, root, workflowPath).value;
      var specDir := SpecDir(LockPath(cfg.milestoneDir, id, cfg.lockFilename));
      var items := Available(env, fs0, root, workflowPath, sourceDir);
      var c := CopyItems(env, fs0, root, specDir, items);
      && ItemsOf(fs0, sourceDir, cfg.artifacts, cfg.keys, items)
      && (forall k :: k in cfg.keys ==> exists i :: 0 <= i < |items| && items[i].key == k)
      && CopiedAll(env, fs0, c, root, specDir, items)
      && CreateRun(env, fs0, root, workflowPath, sourceDir, sourceLabel, id, force, allowPartial, setActive) ==
         LockRun(Commit(env, c, cfg, root, workflowPath, sourceDir, sourceLabel, id, setActive), Exit(0))
  {
    var cfg := LoadConfig(env, fs0, root, workflowPath).value;
    var specDir := SpecDir(LockPath(cfg.milestoneDir, id, cfg.lockFilename));
    PartitionFacts(fs0, sourceDir, cfg.artifacts, cfg.keys);
    var items := Available(env, fs0, root, workflowPath, sourceDir);
    CopyFacts(env, fs0, root, specDir, sourceDir, cfg.artifacts, cfg.keys, items);
  }

  /**
   * What a successful create leaves: the workflow file and the sources as they were,
   * a loadable lock whose entry for each key names the copy, which holds the source's
   * bytes and their hash.
   */
  lemma CreatedLock(env: Env, fs0: map<Path, Bytes>, root: Path, workflowPath: string, sourceDir: Path,
                    sourceLabel: string, id: string, force: bool, allowPartial: bool, setActive: bool, specRel: string)
    requires Lockworthy(env, fs0, root, workflowPath, sourceDir, id, force, specRel)
    requires forall v :: env.loadYaml(env.dumpYaml(v)) == Some(v)
    ensures var cfg := LoadConfig(env, fs0, root, workflowPath).value;
      var lockPath := LockPath(cfg.milestoneDir, id, cfg.lockFilename);
      var r := CreateRun(env, fs0, root, workflowPath, sourceDir, sourceLabel, id, force, allowPartial, setActive);
      && r.outcome == Exit(0)
      && LoadConfig(env, r.files, root, workflowPath) == Success(cfg)
      && LoadLock(env, r.files, lockPath).Some?
      && FreshCopies(env, fs0, r.files, root, sourceDir, SpecDir(lockPath), cfg.artifacts, cfg.keys,
                     LoadLock(env, r.files, lockPath).value)
  {
    var cfg := LoadConfig(env, fs0, root, workflowPath).value;
    var lockPath := LockPath(cfg.milestoneDir, id, cfg.lockFilename);
    var specDir := SpecDir(lockPath);
    CreateCommits(env, fs0, root, workflowPath, sourceDir, sourceLabel, id, force, allowPartial, setActive, specRel);
    var items := Available(env, fs0, root, workflowPath, sourceDir);
    var c := CopyItems(env, fs0, root, specDir, items);
    var fs1 := Commit(env, c, cfg, root, workflowPath, sourceDir, sourceLabel, id, setActive);
    var wf := Join(root, workflowPath);
    assert NotCopyTarget(specDir, items, wf) by {
      forall i | 0 <= i < |items| ensures wf != Join(specDir, items[i].name) {
        assert items[i].key in cfg.keys;
      }
    }
    CommitKeeps(env, c, cfg, root, workflowPath, sourceDir, sourceLabel, id, setActive, wf);
    LoadConfigReadsWorkflow(env, fs0, fs1, root, workflowPath);
    LockLoads(env, c, cfg, root, workflowPath, sourceDir, sourceLabel, id, setActive);
    forall k | k in cfg.keys
      ensures var src := Join(sourceDir, FileName(cfg.artifacts, k));
        var dst := Join(specDir, FileName(cfg.artifacts, k));
        && src in fs1 && fs1[src] == fs0[src]
        && dst in fs1 && fs1[dst] == fs0[src]
        && Get(c.entries, k) == Some(LockEntry(FileName(cfg.artifacts, k), RelPath(dst, root), env.sha256(fs0[src])))
    {
      CreatedKey(env, fs0, c, cfg, root, workflowPath, sourceDir, sourceLabel, id, setActive, items, k);
    }
    assert FreshCopies(env, fs0, fs1, root, sourceDir, specDir, cfg.artifacts, cfg.keys, c.entries);
  }

  // ---------- any create that exits 0 ----------

  /** A create that exits 0 got past every refusal, partitioned, copied without a crash and committed. */
  lemma CreateExitZero(env: Env, fs0: map<Path, Bytes>, root: Path, workflowPath: string, sourceDir: Path,
                       sourceLabel: string, id: string, force: bool, allowPartial: bool, setActive: bool)
    requires CreateRun(env, fs0, root, workflowPath, sourceDir, sourceLabel, id, force, allowPartial, setActive).outcome == Exit(0)
    ensures LoadConfig(env, fs0, root, workflowPath).Success?
    ensures var cfg := LoadConfig(env, fs0, root, workflowPath).value;
      var lockPath := LockPath(cfg.milestoneDir, id, cfg.lockFilename);
      && cfg.enabled && (lockPath !in fs0 || force)
      && PartitionKeys(fs0, sourceDir, cfg.artifacts, cfg.keys).Success?
      && var part := PartitionKeys(fs0, sourceDir, cfg.artifacts, cfg.keys).value;
      && (part.missingMap != [] || part.missingSource != [] ==> allowPartial)
      && var c := CopyItems(env, fs0, root, SpecDir(lockPath), part.available);
      && c.crash.None?
      && CreateRun(env, fs0, root, workflowPath, sourceDir, sourceLabel, id, force, allowPartial, setActive).files ==
         Commit(env, c, cfg, root, workflowPath, sourceDir, sourceLabel, id, setActive)
  {
    var r := CreateRun(env, fs0, root, workflowPath, sourceDir, sourceLabel, id, force, allowPartial, setActive);
    assert LoadConfig(env, fs0, root, workflowPath).Success?;
    var cfg := LoadConfig(env, fs0, root, workflowPath).value;
    var lockPath := LockPath(cfg.milestoneDir, id, cfg.lockFilename);
    assert cfg.enabled && (lockPath !in fs0 || force);
    assert PartitionKeys(fs0, sourceDir, cfg.artifacts, cfg.keys).Success?;
    var part := PartitionKeys(fs0, sourceDir, cfg.artifacts, cfg.keys).value;
    assert part.missingMap != [] || part.missingSource != [] ==> allowPartial;
    var c := CopyItems(env, fs0, root, SpecDir(lockPath), part.available);
    assert c.crash.None?;
    assert r == LockRun(Commit(env, c, cfg, root, workflowPath, sourceDir, sourceLabel, id, setActive), Exit(0));
  }

  /** Some item carries key `k`. */
  predicate KeyOf(items: seq<Item>, k: string) {
    exists i :: 0 <= i < |items| && items[i].key == k
  }

  lemma KeyOfLast(items: seq<Item>, k: string)
    requires items != []
    ensures KeyOf(items, k) <==> KeyOf(items[..|items| - 1], k) || items[|items| - 1].key == k
  {
    var n := |items| - 1;
    if KeyOf(items[..n], k) {
      var i :| 0 <= i < n && items[..n][i].key == k;
      assert items[i].key == k;
    }
    if KeyOf(items, k) {
      var i :| 0 <= i < |items| && items[i].key == k;
      if i < n {
        assert items[..n][i].key == k;
      }
    }
  }

  /** A copy step that does not crash records an entry under the item's key. */
  lemma CopyStepEntries(c: Copying, env: Env, root: Path, specDir: Path, item: Item, k: string)
    requires CopyStep(c, env, root, specDir, item).crash.None?
    ensures c.crash.None?
    ensures HasKey(CopyStep(c, env, root, specDir, item).entries, k) <==> HasKey(c.entries, k) || item.key == k
  {
    var dst := Join(specDir, item.name);
    GetSet(c.entries, item.key, LockEntry(item.name, RelPath(dst, root), env.sha256(c.files[item.src])), k);
  }

  /** A copy loop that did not crash records an entry for exactly the items' keys. */
  lemma {:induction false} CopyEntriesKeys(env: Env, fs: map<Path, Bytes>, root: Path, specDir: Path, items: seq<Item>)
    requires CopyItems(env, fs, root, specDir, items).crash.None?
    ensures forall k :: HasKey(CopyItems(env, fs, root, specDir, items).entries, k) <==> KeyOf(items, k)
  {
    if items != [] {
      var n := |items| - 1;
      var c := CopyItems(env, fs, root, specDir, items[..n]);
      CopyStepEntries(c, env, root, specDir, items[n], items[n].key);
      CopyEntriesKeys(env, fs, root, specDir, items[..n]);
      forall k ensures HasKey(CopyItems(env, fs, root, specDir, items).entries, k) <==> KeyOf(items, k) {
        CopyStepEntries(c, env, root, specDir, items[n], k);
        KeyOfLast(items, k);
      }
    }
  }

  /** The copy loop leaves alone every file that is none of the items' destinations. */
  lemma {:induction false} CopyItemsKeeps(env: Env, fs: map<Path, Bytes>, root: Path, specDir: Path, items: seq<Item>, p: Path)
    requires NotCopyTarget(specDir, items, p)
    ensures var c := CopyItems(env, fs, root, specDir, items);
      (p in c.files <==> p in fs) && (p in fs ==> c.files[p] == fs[p])
  {
    if items != [] {
      var n := |items| - 1;
      assert NotCopyTarget(specDir, items[..n], p) by {
        forall i | 0 <= i < n ensures p != Join(specDir, items[..n][i].name) {
          assert items[..n][i] == items[i];
        }
      }
      CopyItemsKeeps(env, fs, root, specDir, items[..n], p);
      assert p != Join(specDir, items[n].name);
    }
  }

  /** Finding a key in a mapping whose earlier keys all differ from it. */
  lemma {:induction false} GetAt(m: Entries, i: nat)
    requires i < |m| && forall j :: 0 <= j < i ==> m[j].0 != m[i].0
    ensures Get(m, m[i].0) == Some(m[i].1)
  {
    if i > 0 {
      assert forall j :: 0 <= j < i - 1 ==> m[1..][j] == m[j + 1];
      GetAt(m[1..], i - 1);
    }
  }

  /** A lock document records its milestone id, its configured keys and its entries. */
  lemma LockDocumentFields(workflowPath: string, id: string, now: string, sourceLabel: string, sourceRel: string,
                           artifactsRel: string, keys: seq<string>, entries: Entries)
    ensures var m := LockDocument(workflowPath, id, now, sourceLabel, sourceRel, artifactsRel, keys, entries).entries;
      && GetOr(m, "milestone_id", VNull) == VStr(id)
      && GetOr(m, "keys", VNull) == VList(StrValues(keys))
      && GetOr(m, "files", VNull) == VMap(entries)
  {
    var m := LockDocument(workflowPath, id, now, sourceLabel, sourceRel, artifactsRel, keys, entries).entries;
    assert m[2].0 == "milestone_id" && |m[0].0| == 14 && |m[1].0| == 13;
    GetAt(m, 2);
    assert m[6].0 == "keys" && |m[2].0| == 12 && |m[3].0| == 10 && |m[4].0| == 6 && |m[5].0| == 13;
    GetAt(m, 6);
    LockDocumentFiles(workflowPath, id, now, sourceLabel, sourceRel, artifactsRel, keys, entries);
  }

  /**
   * Any create that exits 0, a partial one under `allowPartial` included, writes a lock
   * that loads back (when the YAML codec round-trips) with the milestone id, the full
   * configured key list, and a `files` entry for exactly the configured keys that were
   * lockable; the keys missing a mapping or a source get no entry.
   */
  lemma CreatedLockDocument(env: Env, fs0: map<Path, Bytes>, root: Path, workflowPath: string, sourceDir: Path,
                            sourceLabel: string, id: string, force: bool, allowPartial: bool, setActive: bool)
    requires CreateRun(env, fs0, root, workflowPath, sourceDir, sourceLabel, id, force, allowPartial, setActive).outcome == Exit(0)
    requires forall v :: env.loadYaml(env.dumpYaml(v)) == Some(v)
    ensures LoadConfig(env, fs0, root, workflowPath).Success?
    ensures var cfg := LoadConfig(env, fs0, root, workflowPath).value;
      var lockPath := LockPath(cfg.milestoneDir, id, cfg.lockFilename);
      var r := CreateRun(env, fs0, root, workflowPath, sourceDir, sourceLabel, id, force, allowPartial, setActive);
      lockPath != cfg.pointer && lockPath != StatePath(root) ==>
        && LoadYamlMapping(env, r.files, lockPath).Some?
        && var doc := LoadYamlMapping(env, r.files, lockPath).value;
        && GetOr(doc, "milestone_id", VNull) == VStr(id)
        && GetOr(doc, "keys", VNull) == VList(StrValues(cfg.keys))
        && GetOr(doc, "files", VNull).VMap?
        && forall k :: HasKey(GetOr(doc, "files", VNull).entries, k) <==>
             k in cfg.keys && Lockable(fs0, sourceDir, cfg.artifacts, k)
  {
    CreateExitZero(env, fs0, root, workflowPath, sourceDir, sourceLabel, id, force, allowPartial, setActive);
    var cfg := LoadConfig(env, fs0, root, workflowPath).value;
    var lockPath := LockPath(cfg.milestoneDir, id, cfg.lockFilename);
    if lockPath != cfg.pointer && lockPath != StatePath(root) {
      var part := PartitionKeys(fs0, sourceDir, cfg.artifacts, cfg.keys).value;
      var items := part.available;
      var c := CopyItems(env, fs0, root, SpecDir(lockPath), items);
      var doc := LockDocument(workflowPath, id, env.now, sourceLabel, RelPath(sourceDir, root),
                              RelPath(cfg.artifactsDir, root), cfg.keys, c.entries);
      CommitLoads(env, c, cfg, root, workflowPath, sourceDir, sourceLabel, id, setActive);
      LockDocumentFields(workflowPath, id, env.now, sourceLabel, RelPath(sourceDir, root),
                         RelPath(cfg.artifactsDir, root), cfg.keys, c.entries);
      AvailableKeys(fs0, sourceDir, cfg.artifacts, cfg.keys);
      CopyEntriesKeys(env, fs0, root, SpecDir(lockPath), items);
    }
  }

  /** The committed lock file loads back as the lock document, when the YAML codec round-trips. */
  lemma CommitLoads(env: Env, c: Copying, cfg: Config, root: Path, workflowPath: string, sourceDir: Path,
                    sourceLabel: string, id: string, setActive: bool)
    requires var lp := LockPath(cfg.milestoneDir, id, cfg.lockFilename); lp != cfg.pointer && lp != StatePath(root)
    requires forall v :: env.loadYaml(env.dumpYaml(v)) == Some(v)
    ensures var fs1 := Commit(env, c, cfg, root, workflowPath, sourceDir, sourceLabel, id, setActive);
      LoadYamlMapping(env, fs1, LockPath(cfg.milestoneDir, id, cfg.lockFilename)) ==
        Some(LockDocument(workflowPath, id, env.now, sourceLabel, RelPath(sourceDir, root),
                          RelPath(cfg.artifactsDir, root), cfg.keys, c.entries).entries)
  {
    CommitWritesLock(env, c, cfg, root, workflowPath, sourceDir, sourceLabel, id, setActive);
  }

  /** The available items carry exactly the lockable configured keys. */
  lemma AvailableKeys(fs: map<Path, Bytes>, sourceDir: Path, artifacts: Entries, keys: seq<string>)
    requires PartitionKeys(fs, sourceDir, artifacts, keys).Success?
    ensures forall k :: KeyOf(PartitionKeys(fs, sourceDir, artifacts, keys).value.available, k) <==>
      k in keys && Lockable(fs, sourceDir, artifacts, k)
  {
    PartitionFacts(fs, sourceDir, artifacts, keys);
  }

  /** What the commit leaves at the pointer path, for any copy result. */
  lemma CommitPointer(env: Env, c: Copying, cfg: Config, root: Path, workflowPath: string, sourceDir: Path,
                      sourceLabel: string, id: string, setActive: bool)
    ensures var fs1 := Commit(env, c, cfg, root, workflowPath, sourceDir, sourceLabel, id, setActive);
      var lockPath := LockPath(cfg.milestoneDir, id, cfg.lockFilename);
      && (setActive && cfg.pointer != StatePath(root) ==>
            cfg.pointer in fs1 && fs1[cfg.pointer] == env.encode(id + "\n"))
      && (!setActive && cfg.pointer != lockPath && cfg.pointer != StatePath(root) ==>
            (cfg.pointer in fs1 <==> cfg.pointer in c.files) && (cfg.pointer in c.files ==> fs1[cfg.pointer] == c.files[cfg.pointer]))
  {
  }

  /** What the commit leaves at the state path, for any copy result. */
  lemma CommitState(env: Env, c: Copying, cfg: Config, root: Path, workflowPath: string, sourceDir: Path,
                    sourceLabel: string, id: string, setActive: bool)
    requires var lockPath := LockPath(cfg.milestoneDir, id, cfg.lockFilename);
      StatePath(root) != lockPath && StatePath(root) != cfg.pointer
    ensures var fs1 := Commit(env, c, cfg, root, workflowPath, sourceDir, sourceLabel, id, setActive);
      var lockPath := LockPath(cfg.milestoneDir, id, cfg.lockFilename);
      var sp := StatePath(root);
      && (LoadJsonMapping(env, c.files, sp).None? ==> (sp in fs1 <==> sp in c.files) && (sp in c.files ==> fs1[sp] == c.files[sp]))
      && (LoadJsonMapping(env, c.files, sp).Some? ==>
            sp in fs1 &&
            fs1[sp] == env.dumpJson(VMap(StampState(LoadJsonMapping(env, c.files, sp).value, id, RelPath(lockPath, root), env.now))))
  {
    var lockPath := LockPath(cfg.milestoneDir, id, cfg.lockFilename);
    var lock := LockDocument(workflowPath, id, env.now, sourceLabel, RelPath(sourceDir, root),
                             RelPath(cfg.artifactsDir, root), cfg.keys, c.entries);
    var withLock := c.files[lockPath := env.dumpYaml(lock)];
    var withPointer := if setActive then WriteActive(env, withLock, cfg.pointer, id) else withLock;
    assert LoadJsonMapping(env, withPointer, StatePath(root)) == LoadJsonMapping(env, c.files, StatePath(root));
  }

  /**
   * Any create that exits 0 writes the milestone id and a newline to the ACTIVE pointer
   * when `setActive` is on, and otherwise leaves the pointer file as it was (when the
   * pointer is neither the lock, the state file nor a copy destination).
   */
  lemma CreatedPointer(env: Env, fs0: map<Path, Bytes>, root: Path, workflowPath: string, sourceDir: Path,
                       sourceLabel: string, id: string, force: bool, allowPartial: bool, setActive: bool)
    requires CreateRun(env, fs0, root, workflowPath, sourceDir, sourceLabel, id, force, allowPartial, setActive).outcome == Exit(0)
    ensures LoadConfig(env, fs0, root, workflowPath).Success?
    ensures var cfg := LoadConfig(env, fs0, root, workflowPath).value;
      var lockPath := LockPath(cfg.milestoneDir, id, cfg.lockFilename);
      var r := CreateRun(env, fs0, root, workflowPath, sourceDir, sourceLabel, id, force, allowPartial, setActive);
      && (setActive && cfg.pointer != StatePath(root) ==>
            cfg.pointer in r.files && r.files[cfg.pointer] == env.encode(id + "\n"))
      && (!setActive && cfg.pointer != lockPath && cfg.pointer != StatePath(root)
          && NotCopyTarget(SpecDir(lockPath), Available(env, fs0, root, workflowPath, sourceDir), cfg.pointer) ==>
            (cfg.pointer in r.files <==> cfg.pointer in fs0) && (cfg.pointer in fs0 ==> r.files[cfg.pointer] == fs0[cfg.pointer]))
  {
    CreateExitZero(env, fs0, root, workflowPath, sourceDir, sourceLabel, id, force, allowPartial, setActive);
    var cfg := LoadConfig(env, fs0, root, workflowPath).value;
    var lockPath := LockPath(cfg.milestoneDir, id, cfg.lockFilename);
    var items := Available(env, fs0, root, workflowPath, sourceDir);
    CommitPointer(env, CopyItems(env, fs0, root, SpecDir(lockPath), items), cfg, root, workflowPath, sourceDir,
                  sourceLabel, id, setActive);
    if !setActive && NotCopyTarget(SpecDir(lockPath), items, cfg.pointer) {
      CopyItemsKeeps(env, fs0, root, SpecDir(lockPath), items, cfg.pointer);
    }
  }

  /**
   * Any create that exits 0 binds the state to the new lock: a state file holding a JSON
   * mapping is rewritten with the three milestone fields stamped, and any other state file
   * is left as it was (when the state file is neither the lock, the pointer nor a copy
   * destination).
   */
  lemma CreatedState(env: Env, fs0: map<Path, Bytes>, root: Path, workflowPath: string, sourceDir: Path,
                     sourceLabel: string, id: string, force: bool, allowPartial: bool, setActive: bool)
    requires CreateRun(env, fs0, root, workflowPath, sourceDir, sourceLabel, id, force, allowPartial, setActive).outcome == Exit(0)
    ensures LoadConfig(env, fs0, root, workflowPath).Success?
    ensures var cfg := LoadConfig(env, fs0, root, workflowPath).value;
      var lockPath := LockPath(cfg.milestoneDir, id, cfg.lockFilename);
      var r := CreateRun(env, fs0, root, workflowPath, sourceDir, sourceLabel, id, force, allowPartial, setActive);
      var sp := StatePath(root);
      sp != lockPath && sp != cfg.pointer && NotCopyTarget(SpecDir(lockPath), Available(env, fs0, root, workflowPath, sourceDir), sp) ==>
        && (LoadJsonMapping(env, fs0, sp).None? ==> (sp in r.files <==> sp in fs0) && (sp in fs0 ==> r.files[sp] == fs0[sp]))
        && (LoadJsonMapping(env, fs0, sp).Some? ==>
              sp in r.files &&
              r.files[sp] == env.dumpJson(VMap(StampState(LoadJsonMapping(env, fs0, sp).value, id, RelPath(lockPath, root), env.now))))
  {
    CreateExitZero(env, fs0, root, workflowPath, sourceDir, sourceLabel, id, force, allowPartial, setActive);
    var cfg := LoadConfig(env, fs0, root, workflowPath).value;
    var lockPath := LockPath(cfg.milestoneDir, id, cfg.lockFilename);
    var items := Available(env, fs0, root, workflowPath, sourceDir);
    var sp := StatePath(root);
    if sp != lockPath && sp != cfg.pointer && NotCopyTarget(SpecDir(lockPath), items, sp) {
      CopyItemsKeeps(env, fs0, root, SpecDir(lockPath), items, sp);
      var c := CopyItems(env, fs0, root, SpecDir(lockPath), items);
      assert LoadJsonMapping(env, c.files, sp) == LoadJsonMapping(env, fs0, sp);
      CommitState(env, c, cfg, root, workflowPath, sourceDir, sourceLabel, id, setActive);
    }
  }

  /**
   * Every key's source is non-empty and unchanged in `fs1`, its copy holds the same bytes,
   * and `files` records the copy's root-relative path and hash.
   */
  predicate FreshCopies(env: Env, fs0: map<Path, Bytes>, fs1: map<Path, Bytes>, root: Path, sourceDir: Path,
                        specDir: Path, artifacts: Entries, keys: seq<string>, files: Entries) {
    forall k :: k in keys ==>
      && Lockable(fs0, sourceDir, artifacts, k)
      && var src := Join(sourceDir, FileName(artifacts, k));
      && var dst := Join(specDir, FileName(artifacts, k));
      && src in fs1 && fs1[src] == fs0[src]
      && dst in fs1 && fs1[dst] == fs0[src]
      && Get(files, k) == Some(LockEntry(FileName(artifacts, k), RelPath(dst, root), env.sha256(fs0[src])))
  }

  /** The configuration is read from the workflow file alone. */
  lemma LoadConfigReadsWorkflow(env: Env, fs0: map<Path, Bytes>, fs1: map<Path, Bytes>, root: Path, workflowPath: string)
    requires Join(root, workflowPath) in fs0 ==> Join(root, workflowPath) in fs1 && fs1[Join(root, workflowPath)] == fs0[Join(root, workflowPath)]
    requires Join(root, workflowPath) in fs0 || LoadConfig(env, fs0, root, workflowPath).Success?
    ensures LoadConfig(env, fs1, root, workflowPath) == LoadConfig(env, fs0, root, workflowPath)
  {
    assert LoadYamlMapping(env, fs1, Join(root, workflowPath)) == LoadYamlMapping(env, fs0, Join(root, workflowPath));
  }

  /** The committed lock loads back, when the YAML codec round-trips, with the recorded entries. */
  lemma LockLoads(env: Env, c: Copying, cfg: Config, root: Path, workflowPath: string, sourceDir: Path,
                  sourceLabel: string, id: string, setActive: bool)
    requires var lp := LockPath(cfg.milestoneDir, id, cfg.lockFilename); lp != cfg.pointer && lp != StatePath(root)
    requires forall v :: env.loadYaml(env.dumpYaml(v)) == Some(v)
    ensures var fs1 := Commit(env, c, cfg, root, workflowPath, sourceDir, sourceLabel, id, setActive);
      LoadLock(env, fs1, LockPath(cfg.milestoneDir, id, cfg.lockFilename)) == Some(c.entries)
  {
    CommitWritesLock(env, c, cfg, root, workflowPath, sourceDir, sourceLabel, id, setActive);
    LockDocumentFiles(workflowPath, id, env.now, sourceLabel, RelPath(sourceDir, root),
                      RelPath(cfg.artifactsDir, root), cfg.keys, c.entries);
  }

  lemma CreatedKey(env: Env, fs0: map<Path, Bytes>, c: Copying, cfg: Config, root: Path, workflowPath: string,
                   sourceDir: Path, sourceLabel: string, id: string, setActive: bool, items: seq<Item>, k: string)
    requires var lockPath := LockPath(cfg.milestoneDir, id, cfg.lockFilename);
      && ItemsOf(fs0, sourceDir, cfg.artifacts, cfg.keys, items)
      && (exists i :: 0 <= i < |items| && items[i].key == k)
      && CopiedAll(env, fs0, c, root, SpecDir(lockPath), items)
      && k in cfg.keys
      && Separate(Join(root, workflowPath), sourceDir, SpecDir(lockPath), lockPath, cfg.pointer, StatePath(root),
                  cfg.artifacts, cfg.keys)
    ensures var specDir := SpecDir(LockPath(cfg.milestoneDir, id, cfg.lockFilename));
      var fs1 := Commit(env, c, cfg, root, workflowPath, sourceDir, sourceLabel, id, setActive);
      var src := Join(sourceDir, FileName(cfg.artifacts, k));
      var dst := Join(specDir, FileName(cfg.artifacts, k));
      && src in fs1 && fs1[src] == fs0[src]
      && dst in fs1 && fs1[dst] == fs0[src]
      && Get(c.entries, k) == Some(LockEntry(FileName(cfg.artifacts, k), RelPath(dst, root), env.sha256(fs0[src])))
  {
    var specDir := SpecDir(LockPath(cfg.milestoneDir, id, cfg.lockFilename));
    var src := Join(sourceDir, FileName(cfg.artifacts, k));
    var dst := Join(specDir, FileName(cfg.artifacts, k));
    var i :| 0 <= i < |items| && items[i].key == k;
    assert Copied(env, fs0, c, root, specDir, items[i]);
    assert NotCopyTarget(specDir, items, src) by {
      forall j | 0 <= j < |items| ensures src != Join(specDir, items[j].name) {
        assert items[j].key in cfg.keys;
      }
    }
    CommitKeeps(env, c, cfg, root, workflowPath, sourceDir, sourceLabel, id, setActive, src);
    CommitKeeps(env, c, cfg, root, workflowPath, sourceDir, sourceLabel, id, setActive, dst);
  }

  /** A copy under `root/specRel` is recorded relative to the root and resolves back to itself. */
  lemma CopyPathRoundTrip(root: Path, specRel: string, name: string)
    requires specRel != [] && !IsAbsolute(specRel) && !IsAbsolute(name)
    ensures var dst := Join(Join(root, specRel), name);
      && Join(root, RelPath(dst, root)) == dst
      && IsNonBlankStr(VStr(RelPath(dst, root)))
  {
    var rel := specRel + "/" + name;
    JoinAssoc(root, specRel, name);
    RelPathJoin(root, rel);
    assert !IsSpace(rel[|specRel|]);
  }

  lemma LockEntryFields(name: string, lockedPath: string, digest: string)
    ensures GetOr(LockEntry(name, lockedPath, digest).entries, "locked_path", VNull) == VStr(lockedPath)
    ensures GetOr(LockEntry(name, lockedPath, digest).entries, "sha256", VStr("")) == VStr(digest)
  {
    var m := LockEntry(name, lockedPath, digest).entries;
    assert m[1..][0] == ("locked_path", VStr(lockedPath));
    assert Get(m, "locked_path") == Get(m[1..], "locked_path");
    assert m[1..][1..] == [("sha256", VStr(digest))];
    assert Get(m, "sha256") == Get(m[1..], "sha256") == Get(m[1..][1..], "sha256");
  }

  /** Each key of a freshly created lock verifies OK. */
  lemma CreatedKeyVerifies(env: Env, fs1: map<Path, Bytes>, root: Path, sourceDir: Path,
                           specRel: string, artifacts: Entries, files: Entries, k: string, bytes: Bytes)
    requires Mapped(artifacts, k) && !IsAbsolute(FileName(artifacts, k)) && |bytes| > 0
    requires specRel != [] && !IsAbsolute(specRel)
    requires var src := Join(sourceDir, FileName(artifacts, k));
      var dst := Join(Join(root, specRel), FileName(artifacts, k));
      && src in fs1 && fs1[src] == bytes
      && dst in fs1 && fs1[dst] == bytes
      && Get(files, k) == Some(LockEntry(FileName(artifacts, k), RelPath(dst, root), env.sha256(bytes)))
    ensures VerifyKey(env, fs1, root, sourceDir, artifacts, files, k, false) ==
            Success(Ok(k + ":" + RelPath(Join(sourceDir, FileName(artifacts, k)), root)))
    ensures VerifyKey(env, fs1, root, sourceDir, artifacts, files, k, true).Failure?
  {
    var name := FileName(artifacts, k);
    var dst := Join(Join(root, specRel), name);
    CopyPathRoundTrip(root, specRel, name);
    LockEntryFields(name, RelPath(dst, root), env.sha256(bytes));
  }

  /** Every freshly copied key verifies OK when resolved correctly, and raises as written. */
  lemma FreshKeysVerify(env: Env, fs0: map<Path, Bytes>, fs1: map<Path, Bytes>, root: Path, sourceDir: Path,
                        specRel: string, artifacts: Entries, keys: seq<string>, files: Entries)
    requires specRel != [] && !IsAbsolute(specRel)
    requires forall k :: k in keys ==> Mapped(artifacts, k) && !IsAbsolute(FileName(artifacts, k))
    requires FreshCopies(env, fs0, fs1, root, sourceDir, Join(root, specRel), artifacts, keys, files)
    ensures forall k :: k in keys ==>
      && VerifyKey(env, fs1, root, sourceDir, artifacts, files, k, false).Success?
      && VerifyKey(env, fs1, root, sourceDir, artifacts, files, k, false).value.Ok?
      && VerifyKey(env, fs1, root, sourceDir, artifacts, files, k, true).Failure?
  {
    forall k | k in keys
      ensures VerifyKey(env, fs1, root, sourceDir, artifacts, files, k, false).Success?
      ensures VerifyKey(env, fs1, root, sourceDir, artifacts, files, k, false).value.Ok?
      ensures VerifyKey(env, fs1, root, sourceDir, artifacts, files, k, true).Failure?
    {
      CreatedKeyVerifies(env, fs1, root, sourceDir, specRel, artifacts, files, k, fs0[Join(sourceDir, FileName(artifacts, k))]);
    }
  }

  /** With an explicit id, `verify` resolves to the configured lock of that id when it loads. */
  lemma ResolvesExplicit(env: Env, fs: map<Path, Bytes>, root: Path, workflowPath: string, cfg: Config,
                         id: string, files: Entries)
    requires LoadConfig(env, fs, root, workflowPath) == Success(cfg) && cfg.enabled && id != ""
    requires LoadLock(env, fs, LockPath(cfg.milestoneDir, id, cfg.lockFilename)) == Some(files)
    ensures ResolveTarget(env, fs, root, workflowPath, Some(id)) ==
            Success(Target(cfg, id, LockPath(cfg.milestoneDir, id, cfg.lockFilename), files))
  {
  }

  /**
   * After a lockworthy create, `verify` resolves the new lock, and every configured key
   * verifies OK with the corrected path resolution and raises with the as-written one.
   */
  lemma CreatedTarget(env: Env, fs0: map<Path, Bytes>, root: Path, workflowPath: string, sourceDir: Path,
                      sourceLabel: string, id: string, force: bool, allowPartial: bool, setActive: bool,
                      specRel: string)
    requires Lockworthy(env, fs0, root, workflowPath, sourceDir, id, force, specRel)
    requires forall v :: env.loadYaml(env.dumpYaml(v)) == Some(v)
    ensures var cfg := LoadConfig(env, fs0, root, workflowPath).value;
      var r := CreateRun(env, fs0, root, workflowPath, sourceDir, sourceLabel, id, force, allowPartial, setActive);
      && r.outcome == Exit(0)
      && ResolveTarget(env, r.files, root, workflowPath, Some(id)).Success?
      && var t := ResolveTarget(env, r.files, root, workflowPath, Some(id)).value;
      && t.cfg == cfg
      && forall k :: k in cfg.keys ==>
           && VerifyKey(env, r.files, root, cfg.artifactsDir, cfg.artifacts, t.files, k, false).Success?
           && VerifyKey(env, r.files, root, cfg.artifactsDir, cfg.artifacts, t.files, k, false).value.Ok?
           && VerifyKey(env, r.files, root, cfg.artifactsDir, cfg.artifacts, t.files, k, true).Failure?
  {
    var cfg := LoadConfig(env, fs0, root, workflowPath).value;
    var lockPath := LockPath(cfg.milestoneDir, id, cfg.lockFilename);
    var r := CreateRun(env, fs0, root, workflowPath, sourceDir, sourceLabel, id, force, allowPartial, setActive);
    CreatedLock(env, fs0, root, workflowPath, sourceDir, sourceLabel, id, force, allowPartial, setActive, specRel);
    var files := LoadLock(env, r.files, lockPath).value;
    ResolvesExplicit(env, r.files, root, workflowPath, cfg, id, files);
    assert forall k :: k in cfg.keys ==> Mapped(cfg.artifacts, k) && !IsAbsolute(FileName(cfg.artifacts, k)) by {
      assert CopySafe(sourceDir, SpecDir(lockPath), cfg.artifacts, cfg.keys);
    }
    FreshKeysVerify(env, fs0, r.files, root, sourceDir, specRel, cfg.artifacts, cfg.keys, files);
  }

  /**
   * Creating a lock and then verifying it (corrected `verify`) succeeds with every key
   * OK, provided the YAML codec round-trips and the written and read paths are apart.
   */
  lemma CreateThenVerify(env: Env, fs0: map<Path, Bytes>, root: Path, workflowPath: string, sourceDir: Path,
                         sourceLabel: string, id: string, force: bool, allowPartial: bool, setActive: bool,
                         specRel: string)
    requires Lockworthy(env, fs0, root, workflowPath, sourceDir, id, force, specRel)
    requires forall v :: env.loadYaml(env.dumpYaml(v)) == Some(v)
    ensures var r := CreateRun(env, fs0, root, workflowPath, sourceDir, sourceLabel, id, force, allowPartial, setActive);
      var v := VerifyRun(env, r.files, root, workflowPath, Some(id));
      && r.outcome == Exit(0)
      && v.outcome == Exit(0)
      && |v.tallies.ok| == |LoadConfig(env, fs0, root, workflowPath).value.keys|
  {
    var cfg := LoadConfig(env, fs0, root, workflowPath).value;
    var r := CreateRun(env, fs0, root, workflowPath, sourceDir, sourceLabel, id, force, allowPartial, setActive);
    CreatedTarget(env, fs0, root, workflowPath, sourceDir, sourceLabel, id, force, allowPartial, setActive, specRel);
    var t := ResolveTarget(env, r.files, root, workflowPath, Some(id)).value;
    VerifyAllOk(env, r.files, root, cfg.artifactsDir, cfg.artifacts, t.files, cfg.keys);
  }

  /**
   * As written, `verify` raises TypeError on that same freshly created lock as soon as
   * one key is configured: every key reaches the two-argument `resolve_lock_path` call.
   */
  lemma CreateThenVerifyAsWritten(env: Env, fs0: map<Path, Bytes>, root: Path, workflowPath: string, sourceDir: Path,
                                  sourceLabel: string, id: string, force: bool, allowPartial: bool, setActive: bool,
                                  specRel: string)
    requires Lockworthy(env, fs0, root, workflowPath, sourceDir, id, force, specRel)
    requires forall v :: env.loadYaml(env.dumpYaml(v)) == Some(v)
    requires LoadConfig(env, fs0, root, workflowPath).value.keys != []
    ensures var r := CreateRun(env, fs0, root, workflowPath, sourceDir, sourceLabel, id, force, allowPartial, setActive);
      VerifyRunAsWritten(env, r.files, root, workflowPath, Some(id)).outcome.Raised?
  {
    var cfg := LoadConfig(env, fs0, root, workflowPath).value;
    var r := CreateRun(env, fs0, root, workflowPath, sourceDir, sourceLabel, id, force, allowPartial, setActive);
    CreatedTarget(env, fs0, root, workflowPath, sourceDir, sourceLabel, id, force, allowPartial, setActive, specRel);
    var t := ResolveTarget(env, r.files, root, workflowPath, Some(id)).value;
    assert cfg.keys[0] in cfg.keys;
    FirstKeyRaises(env, r.files, root, cfg.artifactsDir, cfg.artifacts, t.files, cfg.keys);
  }

  /** A raise on the first key ends the as-written loop. */
  lemma FirstKeyRaises(env: Env, fs: map<Path, Bytes>, root: Path, artifactsDir: Path, artifacts: Entries,
                       files: Entries, keys: seq<string>)
    requires keys != [] && VerifyKey(env, fs, root, artifactsDir, artifacts, files, keys[0], true).Failure?
    ensures VerifyKeys(env, fs, root, artifactsDir, artifacts, files, keys, true).Failure?
  {
    assert keys[..1] == [keys[0]];
    assert keys[..1][..0] == [];
    VerifyFailureSticks(env, fs, root, artifactsDir, artifacts, files, keys, 1, true);
  }
}
