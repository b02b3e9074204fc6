/**
 * `check_workflow_definition` of bmad/scripts/audit_workflow.py: a fail-soft validation
 * of a decoded workflow definition. Each malformed section becomes an ERROR finding and
 * is replaced by an empty or default value, so that the later checks still run; the
 * normalised metadata feeds the state audit.
 */
module WorkflowDefinition {
  import opened Wrappers
  import opened Values
  import opened Ordering
  import opened Findings

  const DEFAULT_MILESTONE_KEYS: seq<string> := ["prd", "scope", "adr", "impact", "ui_ux_spec", "api_design"]
  const DEFAULT_ENFORCE_STAGE: string := "parallel_dev"
  const DEFAULT_ARTIFACTS_DIR: string := ".bmad/artifacts"
  const DEFAULT_MILESTONE_DIR: string := ".bmad/milestones"
  const DEFAULT_POINTER: string := ".bmad/milestones/ACTIVE"
  const DEFAULT_LOCK_FILENAME: string := "milestone-lock.yml"
  /** `x in some_dict` and `set(xs)` on a list or mapping. */
  const UNHASHABLE: string := "TypeError: unhashable type"

  const ARTIFACTS_MISSING := "WF_ARTIFACTS_MISSING"
  const STAGES_MISSING := "WF_STAGES_MISSING"
  const MILESTONE_INVALID := "WF_MILESTONE_INVALID"
  const ENABLED_INVALID := "WF_MILESTONE_ENABLED_INVALID"
  const DIR_INVALID := "WF_MILESTONE_DIR_INVALID"
  const POINTER_INVALID := "WF_MILESTONE_POINTER_INVALID"
  const LOCK_FILENAME_INVALID := "WF_MILESTONE_LOCK_FILENAME_INVALID"
  const KEYS_INVALID := "WF_MILESTONE_KEYS_INVALID"
  const ENFORCE_INVALID := "WF_MILESTONE_ENFORCE_INVALID"
  const KEY_UNMAPPED := "WF_MILESTONE_KEY_UNMAPPED"
  const STAGE_INVALID := "WF_STAGE_INVALID"
  const STAGE_ID_MISSING := "WF_STAGE_ID_MISSING"
  const OWNER_MISSING := "WF_STAGE_OWNER_MISSING"
  const OUTPUTS_MISSING := "WF_STAGE_OUTPUTS_MISSING"
  const OUTPUT_KEY_UNMAPPED := "WF_OUTPUT_KEY_UNMAPPED"
  const EXIT_GATE_MISSING := "WF_STAGE_EXIT_GATE_MISSING"
  const STAGE_DUPLICATE := "WF_STAGE_DUPLICATE"
  const ENFORCE_STAGE_UNKNOWN := "WF_MILESTONE_ENFORCE_STAGE_UNKNOWN"

  /** The codes of the section checks, the stage loop, and the final two checks. */
  const HEADER_CODES: set<string> := {ARTIFACTS_MISSING, STAGES_MISSING, MILESTONE_INVALID, ENABLED_INVALID, DIR_INVALID,
                                      POINTER_INVALID, LOCK_FILENAME_INVALID, KEYS_INVALID, ENFORCE_INVALID}
  const STAGE_CODES: set<string> := {STAGE_INVALID, STAGE_ID_MISSING, OWNER_MISSING, OUTPUTS_MISSING,
                                     OUTPUT_KEY_UNMAPPED, EXIT_GATE_MISSING}

  /** The normalised `milestone` record of the metadata. */
  datatype MilestoneMeta = MilestoneMeta(enabled: bool, dir: Value, pointer: Value, lockFilename: Value,
                                         keys: seq<string>, enforce: string)

  /** The metadata the state audit reads (the `path` and `workflow` entries are not used there). */
  datatype Meta = Meta(artifactsDir: Value, artifacts: Entries, stages: seq<Value>, stageIds: seq<string>,
                       milestone: MilestoneMeta)

  /** The section checks, with each malformed value replaced. */
  datatype Header = Header(findings: seq<Finding>, artifacts: Entries, stages: seq<Value>, enabled: bool,
                           dir: Value, pointer: Value, lockFilename: Value, keys: seq<Value>, enforce: string)

  function MilestoneOf(wf: Entries): Entries {
    var m := GetOr(wf, "milestone", VMap([]));
    if m.VMap? then m.entries else []
  }

  const MILESTONE_CODES: set<string> := {ENABLED_INVALID, DIR_INVALID, POINTER_INVALID, LOCK_FILENAME_INVALID,
                                         KEYS_INVALID, ENFORCE_INVALID}

  /** One check: no finding when `ok`, else one error. */
  function Flag(ok: bool, code: string, subject: string, ref: string): (r: seq<Finding>)
    ensures r == [] <==> ok
    ensures forall i :: 0 <= i < |r| ==> r[i] == Err(code, subject, ref)
  {
    if ok then [] else [Err(code, subject, ref)]
  }

  /** Every finding is an error whose code is in `codes`. */
  predicate ErrorsIn(fs: seq<Finding>, codes: set<string>) {
    forall i :: 0 <= i < |fs| ==> fs[i].code in codes && fs[i].severity == Error
  }

  lemma ErrorsInAppend(a: seq<Finding>, b: seq<Finding>, codes: set<string>)
    requires ErrorsIn(a, codes) && ErrorsIn(b, codes)
    ensures ErrorsIn(a + b, codes)
  {
  }

  /** The three section checks: `artifacts`, `stages` and `milestone`. */
  function SectionFindings(wf: Entries, ref: string): seq<Finding> {
    var stages := GetOr(wf, "stages", VNull);
    Flag(GetOr(wf, "artifacts", VNull).VMap?, ARTIFACTS_MISSING, "artifacts", ref)
    + Flag(stages.VList? && stages.items != [], STAGES_MISSING, "stages", ref)
    + Flag(GetOr(wf, "milestone", VMap([])).VMap?, MILESTONE_INVALID, "milestone", ref)
  }

  /** The checks of the fields of the `milestone` section, after its defaults are applied. */
  function MilestoneFindings(ms: Entries, ref: string): seq<Finding> {
    Flag(GetOr(ms, "enabled", VBool(true)).VBool?, ENABLED_INVALID, "milestone.enabled", ref)
    + Flag(IsNonBlankStr(GetOr(ms, "dir", VStr(DEFAULT_MILESTONE_DIR))), DIR_INVALID, "milestone.dir", ref)
    + Flag(IsNonBlankStr(GetOr(ms, "active_pointer", VStr(DEFAULT_POINTER))), POINTER_INVALID,
           "milestone.active_pointer", ref)
    + Flag(IsNonBlankStr(GetOr(ms, "lock_filename", VStr(DEFAULT_LOCK_FILENAME))), LOCK_FILENAME_INVALID,
           "milestone.lock_filename", ref)
    + Flag(GetOr(ms, "keys", VList(StrValues(DEFAULT_MILESTONE_KEYS))).VList?, KEYS_INVALID, "milestone.keys", ref)
    + Flag(GetOr(ms, "enforce_from_stage", VStr(DEFAULT_ENFORCE_STAGE)).VStr?, ENFORCE_INVALID,
           "milestone.enforce_from_stage", ref)
  }

  lemma MilestoneFindingsCodes(ms: Entries, ref: string)
    ensures ErrorsIn(MilestoneFindings(ms, ref), MILESTONE_CODES)
  {
    var f4 := Flag(GetOr(ms, "enabled", VBool(true)).VBool?, ENABLED_INVALID, "milestone.enabled", ref);
    var f5 := Flag(IsNonBlankStr(GetOr(ms, "dir", VStr(DEFAULT_MILESTONE_DIR))), DIR_INVALID, "milestone.dir", ref);
    var f6 := Flag(IsNonBlankStr(GetOr(ms, "active_pointer", VStr(DEFAULT_POINTER))), POINTER_INVALID,
                   "milestone.active_pointer", ref);
    var f7 := Flag(IsNonBlankStr(GetOr(ms, "lock_filename", VStr(DEFAULT_LOCK_FILENAME))), LOCK_FILENAME_INVALID,
                   "milestone.lock_filename", ref);
    var f8 := Flag(GetOr(ms, "keys", VList(StrValues(DEFAULT_MILESTONE_KEYS))).VList?, KEYS_INVALID,
                   "milestone.keys", ref);
    var f9 := Flag(GetOr(ms, "enforce_from_stage", VStr(DEFAULT_ENFORCE_STAGE)).VStr?, ENFORCE_INVALID,
                   "milestone.enforce_from_stage", ref);
    ErrorsInAppend(f4, f5, MILESTONE_CODES);
    ErrorsInAppend(f4 + f5, f6, MILESTONE_CODES);
    ErrorsInAppend(f4 + f5 + f6, f7, MILESTONE_CODES);
    ErrorsInAppend(f4 + f5 + f6 + f7, f8, MILESTONE_CODES);
    ErrorsInAppend(f4 + f5 + f6 + f7 + f8, f9, MILESTONE_CODES);
  }

  lemma SectionFindingsCodes(wf: Entries, ref: string)
    ensures ErrorsIn(SectionFindings(wf, ref), {ARTIFACTS_MISSING, STAGES_MISSING, MILESTONE_INVALID})
  {
    var stages := GetOr(wf, "stages", VNull);
    var f1 := Flag(GetOr(wf, "artifacts", VNull).VMap?, ARTIFACTS_MISSING, "artifacts", ref);
    var f2 := Flag(stages.VList? && stages.items != [], STAGES_MISSING, "stages", ref);
    var f3 := Flag(GetOr(wf, "milestone", VMap([])).VMap?, MILESTONE_INVALID, "milestone", ref);
    ErrorsInAppend(f1, f2, {ARTIFACTS_MISSING, STAGES_MISSING, MILESTONE_INVALID});
    ErrorsInAppend(f1 + f2, f3, {ARTIFACTS_MISSING, STAGES_MISSING, MILESTONE_INVALID});
  }

  function HeaderFindings(wf: Entries, ref: string): seq<Finding> {
    SectionFindings(wf, ref) + MilestoneFindings(MilestoneOf(wf), ref)
  }

  /** The section checks, and each section with a malformed value replaced. */
  function CheckHeader(wf: Entries, ref: string): Header {
    var artifacts := GetOr(wf, "artifacts", VNull);
    var stages := GetOr(wf, "stages", VNull);
    var ms := MilestoneOf(wf);
    var enabled := GetOr(ms, "enabled", VBool(true));
    var keys := GetOr(ms, "keys", VList(StrValues(DEFAULT_MILESTONE_KEYS)));
    var enforce := GetOr(ms, "enforce_from_stage", VStr(DEFAULT_ENFORCE_STAGE));
    Header(HeaderFindings(wf, ref),
           if artifacts.VMap? then artifacts.entries else [],
           if stages.VList? && stages.items != [] then stages.items else [],
           if enabled.VBool? then enabled.b else true,
           GetOr(ms, "dir", VStr(DEFAULT_MILESTONE_DIR)),
           GetOr(ms, "active_pointer", VStr(DEFAULT_POINTER)),
           GetOr(ms, "lock_filename", VStr(DEFAULT_LOCK_FILENAME)),
           if keys.VList? then keys.items else [],
           if enforce.VStr? then enforce.s else "")
  }

  lemma FlagCount(ok: bool, code: string, subject: string, ref: string, c: string)
    ensures CountCode(Flag(ok, code, subject, ref), c) == if !ok && c == code then 1 else 0
  {
    var r := Flag(ok, code, subject, ref);
    if r != [] {
      assert r[..|r| - 1] == [];
    }
  }

  /** Each malformed section yields exactly one error among the three section checks. */
  lemma SectionCounts(wf: Entries, ref: string)
    ensures var fs := SectionFindings(wf, ref);
      && CountCode(fs, ARTIFACTS_MISSING) == (if GetOr(wf, "artifacts", VNull).VMap? then 0 else 1)
      && CountCode(fs, STAGES_MISSING) ==
         (if GetOr(wf, "stages", VNull).VList? && GetOr(wf, "stages", VNull).items != [] then 0 else 1)
      && CountCode(fs, MILESTONE_INVALID) == (if GetOr(wf, "milestone", VMap([])).VMap? then 0 else 1)
  {
    var stages := GetOr(wf, "stages", VNull);
    var ok1 := GetOr(wf, "artifacts", VNull).VMap?;
    var ok2 := stages.VList? && stages.items != [];
    var ok3 := GetOr(wf, "milestone", VMap([])).VMap?;
    var f1 := Flag(ok1, ARTIFACTS_MISSING, "artifacts", ref);
    var f2 := Flag(ok2, STAGES_MISSING, "stages", ref);
    var f3 := Flag(ok3, MILESTONE_INVALID, "milestone", ref);
    assert f1 + f2 + f3 + [] == SectionFindings(wf, ref);
    CountOne(f1, f2, f3, [], ARTIFACTS_MISSING, STAGES_MISSING, MILESTONE_INVALID);
    CountOne(f2, f1, f3, [], STAGES_MISSING, ARTIFACTS_MISSING, MILESTONE_INVALID);
    CountOne(f3, f1, f2, [], MILESTONE_INVALID, ARTIFACTS_MISSING, STAGES_MISSING);
    FlagCount(ok1, ARTIFACTS_MISSING, "artifacts", ref, ARTIFACTS_MISSING);
    FlagCount(ok2, STAGES_MISSING, "stages", ref, STAGES_MISSING);
    FlagCount(ok3, MILESTONE_INVALID, "milestone", ref, MILESTONE_INVALID);
  }

  /**
   * A malformed `artifacts`, `stages` or `milestone` section yields exactly one error
   * among the section checks, and `artifacts` and `stages` are then replaced by empty values.
   */
  lemma HeaderCounts(wf: Entries, ref: string)
    ensures var h := CheckHeader(wf, ref);
      && CountCode(h.findings, ARTIFACTS_MISSING) == (if GetOr(wf, "artifacts", VNull).VMap? then 0 else 1)
      && CountCode(h.findings, STAGES_MISSING) ==
         (if GetOr(wf, "stages", VNull).VList? && GetOr(wf, "stages", VNull).items != [] then 0 else 1)
      && CountCode(h.findings, MILESTONE_INVALID) == (if GetOr(wf, "milestone", VMap([])).VMap? then 0 else 1)
      && (!GetOr(wf, "artifacts", VNull).VMap? ==> h.artifacts == [])
      && (!(GetOr(wf, "stages", VNull).VList? && GetOr(wf, "stages", VNull).items != []) ==> h.stages == [])
  {
    assert CheckHeader(wf, ref).findings == HeaderFindings(wf, ref);
    HeaderFindingsCounts(wf, ref);
  }

  lemma HeaderFindingsCounts(wf: Entries, ref: string)
    ensures var fs := HeaderFindings(wf, ref);
      && CountCode(fs, ARTIFACTS_MISSING) == (if GetOr(wf, "artifacts", VNull).VMap? then 0 else 1)
      && CountCode(fs, STAGES_MISSING) ==
         (if GetOr(wf, "stages", VNull).VList? && GetOr(wf, "stages", VNull).items != [] then 0 else 1)
      && CountCode(fs, MILESTONE_INVALID) == (if GetOr(wf, "milestone", VMap([])).VMap? then 0 else 1)
  {
    SectionCounts(wf, ref);
    MilestoneFindingsCodes(MilestoneOf(wf), ref);
    SectionCodesApart();
    CountWithTail(SectionFindings(wf, ref), MilestoneFindings(MilestoneOf(wf), ref), MILESTONE_CODES);
  }

  /** The three section codes are none of the milestone field codes. */
  lemma SectionCodesApart()
    ensures ARTIFACTS_MISSING !in MILESTONE_CODES && STAGES_MISSING !in MILESTONE_CODES
    ensures MILESTONE_INVALID !in MILESTONE_CODES
  {
    assert |ARTIFACTS_MISSING| == |MILESTONE_INVALID| == 20 && |STAGES_MISSING| == 17;
    assert forall c :: c in MILESTONE_CODES ==> |c| >= 24;
  }

  /** A tail whose codes all lie outside the three section codes does not change their counts. */
  lemma CountWithTail(fs: seq<Finding>, ms: seq<Finding>, codes: set<string>)
    requires ErrorsIn(ms, codes)
    requires ARTIFACTS_MISSING !in codes && STAGES_MISSING !in codes && MILESTONE_INVALID !in codes
    ensures CountCode(fs + ms, ARTIFACTS_MISSING) == CountCode(fs, ARTIFACTS_MISSING)
    ensures CountCode(fs + ms, STAGES_MISSING) == CountCode(fs, STAGES_MISSING)
    ensures CountCode(fs + ms, MILESTONE_INVALID) == CountCode(fs, MILESTONE_INVALID)
  {
    LacksFrom(ms, codes, ARTIFACTS_MISSING);
    LacksFrom(ms, codes, STAGES_MISSING);
    LacksFrom(ms, codes, MILESTONE_INVALID);
    CountCodeAppend(fs, ms, ARTIFACTS_MISSING);
    CountCodeAppend(fs, ms, STAGES_MISSING);
    CountCodeAppend(fs, ms, MILESTONE_INVALID);
  }

  /** A segment whose codes all lie outside `c` has no finding with code `c`. */
  lemma LacksFrom(fs: seq<Finding>, codes: set<string>, c: string)
    requires ErrorsIn(fs, codes) && c !in codes
    ensures CountCode(fs, c) == 0
  {
    LacksCountZero(fs, c);
  }

  /** The section checks report only their own codes, all of them errors. */
  lemma HeaderCodes(wf: Entries, ref: string)
    ensures ErrorsIn(CheckHeader(wf, ref).findings, HEADER_CODES)
  {
    SectionFindingsCodes(wf, ref);
    MilestoneFindingsCodes(MilestoneOf(wf), ref);
    ErrorsInAppend(SectionFindings(wf, ref), MilestoneFindings(MilestoneOf(wf), ref), HEADER_CODES);
  }

  /** Counting code `c` over four segments where only the first can carry it. */
  lemma CountOne(a: seq<Finding>, b: seq<Finding>, d: seq<Finding>, e: seq<Finding>, c: string, cb: string, cd: string)
    requires forall i :: 0 <= i < |b| ==> b[i].code == cb
    requires forall i :: 0 <= i < |d| ==> d[i].code == cd
    requires cb != c && cd != c && Lacks(e, c)
    ensures CountCode(a + b + d + e, c) == CountCode(a, c)
    ensures CountCode(b + a + d + e, c) == CountCode(a, c)
    ensures CountCode(b + d + a + e, c) == CountCode(a, c)
  {
    LacksCountZero(b, c);
    LacksCountZero(d, c);
    LacksCountZero(e, c);
    CountCodeAppend(a, b, c);
    CountCodeAppend(a + b, d, c);
    CountCodeAppend(a + b + d, e, c);
    CountCodeAppend(b, a, c);
    CountCodeAppend(b + a, d, c);
    CountCodeAppend(b + a + d, e, c);
    CountCodeAppend(b, d, c);
    CountCodeAppend(b + d, a, c);
    CountCodeAppend(b + d + a, e, c);
  }

  // ---------- milestone keys ----------

  /** The configured keys that `key not in artifacts` reports, in order. */
  function UnmappedOf(artifacts: Entries, keys: seq<Value>): (r: seq<Value>)
    requires forall i :: 0 <= i < |keys| ==> Hashable(keys[i])
    ensures forall x :: x in r <==> x in keys && Lookup(artifacts, x).None?
  {
    if keys == [] then []
    else (if Lookup(artifacts, keys[0]).None? then [keys[0]] else []) + UnmappedOf(artifacts, keys[1..])
  }

  /** The milestone key loop: one WF_MILESTONE_KEY_UNMAPPED per key missing from `artifacts`. */
  function UnmappedKeys(artifacts: Entries, keys: seq<Value>, ref: string): Result<seq<Finding>, string> {
    if keys == [] then Success([])
    else match UnmappedKeys(artifacts, keys[..|keys| - 1], ref)
      case Failure(e) => Failure(e)
      case Success(fs) =>
        var key := keys[|keys| - 1];
        if !Hashable(key) then Failure(UNHASHABLE)
        else if Lookup(artifacts, key).None? then Success(fs + [Err(KEY_UNMAPPED, Str(key), ref)])
        else Success(fs)
  }

  /**
   * The loop raises exactly on an unhashable key; otherwise it reports each unmapped key
   * once, in order, and nothing else.
   */
  lemma {:induction false} UnmappedKeysExact(artifacts: Entries, keys: seq<Value>, ref: string)
    ensures UnmappedKeys(artifacts, keys, ref).Success? <==> forall i :: 0 <= i < |keys| ==> Hashable(keys[i])
    ensures UnmappedKeys(artifacts, keys, ref).Success? ==>
      var fs := UnmappedKeys(artifacts, keys, ref).value;
      var missing := UnmappedOf(artifacts, keys);
      && |fs| == |missing|
      && forall i :: 0 <= i < |fs| ==> fs[i] == Err(KEY_UNMAPPED, Str(missing[i]), ref)
  {
    if keys != [] {
      var init := keys[..|keys| - 1];
      var last := keys[|keys| - 1];
      UnmappedKeysExact(artifacts, init, ref);
      assert keys == init + [last];
      if forall i :: 0 <= i < |keys| ==> Hashable(keys[i]) {
        assert forall i :: 0 <= i < |init| ==> Hashable(init[i]) by {
          forall i | 0 <= i < |init| ensures Hashable(init[i]) {
            assert init[i] == keys[i];
          }
        }
        assert Hashable(last);
        UnmappedOfAppend(artifacts, init, last);
        assert UnmappedKeys(artifacts, keys, ref).Success?;
      } else {
        var j :| 0 <= j < |keys| && !Hashable(keys[j]);
        if j < |init| {
          assert init[j] == keys[j];
        }
      }
    }
  }

  lemma {:induction false} UnmappedOfAppend(artifacts: Entries, keys: seq<Value>, key: Value)
    requires forall i :: 0 <= i < |keys| ==> Hashable(keys[i])
    requires Hashable(key)
    ensures forall i :: 0 <= i < |keys + [key]| ==> Hashable((keys + [key])[i])
    ensures UnmappedOf(artifacts, keys + [key]) ==
      UnmappedOf(artifacts, keys) + (if Lookup(artifacts, key).None? then [key] else [])
  {
    if keys != [] {
      assert (keys + [key])[1..] == keys[1..] + [key];
      UnmappedOfAppend(artifacts, keys[1..], key);
    }
  }

  // ---------- stages ----------

  /** A stage's id when the stage is an object with a non-blank string id. */
  function StageId(stage: Value): Option<string> {
    if stage.VMap? && IsNonBlankStr(GetOr(stage.entries, "id", VNull)) then Some(GetOr(stage.entries, "id", VNull).s)
    else None
  }

  /** The ids of the valid stages, in definition order. */
  function ValidIds(stages: seq<Value>): seq<string> {
    if stages == [] then []
    else (if StageId(stages[0]).Some? then [StageId(stages[0]).value] else []) + ValidIds(stages[1..])
  }

  /** A stage id is collected exactly when some stage carries it. */
  lemma {:induction false} ValidIdsMembers(stages: seq<Value>)
    ensures forall x :: x in ValidIds(stages) <==> exists i :: 0 <= i < |stages| && StageId(stages[i]) == Some(x)
  {
    if stages != [] {
      ValidIdsMembers(stages[1..]);
      assert forall i :: 0 < i < |stages| ==> stages[i] == stages[1..][i - 1];
    }
  }

  /** The findings of one stage and its id, if it contributes one. */
  datatype StageScan = StageScan(findings: seq<Finding>, ids: seq<string>)

  /** The `outputs_required` key loop of one stage. */
  function OutputKeys(artifacts: Entries, sid: string, outputs: seq<Value>, ref: string): Result<seq<Finding>, string> {
    if outputs == [] then Success([])
    else match OutputKeys(artifacts, sid, outputs[..|outputs| - 1], ref)
      case Failure(e) => Failure(e)
      case Success(fs) =>
        var key := outputs[|outputs| - 1];
        if !Hashable(key) then Failure(UNHASHABLE)
        else if Lookup(artifacts, key).None? then Success(fs + [Err(OUTPUT_KEY_UNMAPPED, sid + ":" + Str(key), ref)])
        else Success(fs)
  }

  /** `owner` or `owners` is truthy. */
  predicate HasOwner(e: Entries) {
    Truthy(GetOr(e, "owner", VNull)) || Truthy(GetOr(e, "owners", VNull))
  }

  /** `outputs_required` is a non-empty list. */
  predicate HasOutputs(e: Entries) {
    GetOr(e, "outputs_required", VNull).VList? && GetOr(e, "outputs_required", VNull).items != []
  }

  /** `exit_gate` is a mapping whose `criteria` is a non-empty list. */
  predicate HasCriteria(e: Entries) {
    var exitGate := GetOr(e, "exit_gate", VNull);
    var criteria := if exitGate.VMap? then GetOr(exitGate.entries, "criteria", VNull) else VNull;
    criteria.VList? && criteria.items != []
  }

  /** The checks of one stage entry, in order. */
  function CheckStage(artifacts: Entries, idx: nat, stage: Value, ref: string): Result<StageScan, string> {
    if !stage.VMap? then Success(StageScan([Err(STAGE_INVALID, "stage[" + NatToString(idx) + "]", ref)], []))
    else if StageId(stage).None? then Success(StageScan([Err(STAGE_ID_MISSING, "stage[" + NatToString(idx) + "]", ref)], []))
    else
      var sid := StageId(stage).value;
      var e := stage.entries;
      var owners := Flag(HasOwner(e), OWNER_MISSING, sid, ref);
      var gate := Flag(HasCriteria(e), EXIT_GATE_MISSING, sid, ref);
      var outs := if HasOutputs(e) then OutputKeys(artifacts, sid, GetOr(e, "outputs_required", VNull).items, ref)
                  else Success([Err(OUTPUTS_MISSING, sid, ref)]);
      match outs
      case Failure(err) => Failure(err)
      case Success(fs) => Success(StageScan(owners + fs + gate, [sid]))
  }

  /** The stage loop: findings and the valid ids, in order. */
  function ScanStages(artifacts: Entries, stages: seq<Value>, ref: string): Result<StageScan, string> {
    if stages == [] then Success(StageScan([], []))
    else match ScanStages(artifacts, stages[..|stages| - 1], ref)
      case Failure(e) => Failure(e)
      case Success(acc) =>
        match CheckStage(artifacts, |stages| - 1, stages[|stages| - 1], ref)
        case Failure(e) => Failure(e)
        case Success(one) => Success(StageScan(acc.findings + one.findings, acc.ids + one.ids))
  }

  /**
   * The output-key loop of a stage raises exactly on an unhashable key; otherwise it
   * reports each output key missing from `artifacts` once, in order, and nothing else.
   */
  lemma {:induction false} OutputKeysExact(artifacts: Entries, sid: string, outputs: seq<Value>, ref: string)
    ensures OutputKeys(artifacts, sid, outputs, ref).Success? <==> forall i :: 0 <= i < |outputs| ==> Hashable(outputs[i])
    ensures OutputKeys(artifacts, sid, outputs, ref).Success? ==>
      var fs := OutputKeys(artifacts, sid, outputs, ref).value;
      var missing := UnmappedOf(artifacts, outputs);
      && |fs| == |missing|
      && forall i :: 0 <= i < |fs| ==> fs[i] == Err(OUTPUT_KEY_UNMAPPED, sid + ":" + Str(missing[i]), ref)
  {
    if outputs != [] {
      var init := outputs[..|outputs| - 1];
      var last := outputs[|outputs| - 1];
      OutputKeysExact(artifacts, sid, init, ref);
      assert outputs == init + [last];
      if forall i :: 0 <= i < |outputs| ==> Hashable(outputs[i]) {
        assert forall i :: 0 <= i < |init| ==> Hashable(init[i]) by {
          forall i | 0 <= i < |init| ensures Hashable(init[i]) {
            assert init[i] == outputs[i];
          }
        }
        assert Hashable(last);
        UnmappedOfAppend(artifacts, init, last);
        assert OutputKeys(artifacts, sid, outputs, ref).Success?;
      } else {
        var j :| 0 <= j < |outputs| && !Hashable(outputs[j]);
        if j < |init| {
          assert init[j] == outputs[j];
        }
      }
    }
  }

  lemma {:induction false} OutputKeysCodes(artifacts: Entries, sid: string, outputs: seq<Value>, ref: string)
    requires OutputKeys(artifacts, sid, outputs, ref).Success?
    ensures ErrorsIn(OutputKeys(artifacts, sid, outputs, ref).value, {OUTPUT_KEY_UNMAPPED})
  {
    if outputs != [] {
      OutputKeysCodes(artifacts, sid, outputs[..|outputs| - 1], ref);
    }
  }

  /**
   * One stage contributes its id exactly when it is valid, and only stage errors. A stage
   * that is not a mapping, or has no valid id, yields exactly one error and nothing else.
   */
  lemma CheckStageFacts(artifacts: Entries, idx: nat, stage: Value, ref: string)
    requires CheckStage(artifacts, idx, stage, ref).Success?
    ensures var one := CheckStage(artifacts, idx, stage, ref).value;
      && one.ids == (if StageId(stage).Some? then [StageId(stage).value] else [])
      && ErrorsIn(one.findings, STAGE_CODES)
      && (StageId(stage).None? ==>
            |one.findings| == 1 && one.findings[0].code == (if stage.VMap? then STAGE_ID_MISSING else STAGE_INVALID))
  {
    if stage.VMap? && StageId(stage).Some? {
      var sid := StageId(stage).value;
      var e := stage.entries;
      var owners := Flag(HasOwner(e), OWNER_MISSING, sid, ref);
      var gate := Flag(HasCriteria(e), EXIT_GATE_MISSING, sid, ref);
      var fs := CheckStage(artifacts, idx, stage, ref).value.findings;
      if HasOutputs(e) {
        var items := GetOr(e, "outputs_required", VNull).items;
        OutputKeysCodes(artifacts, sid, items, ref);
        var outs := OutputKeys(artifacts, sid, items, ref).value;
        assert ErrorsIn(outs, STAGE_CODES);
        assert fs == owners + outs + gate;
        ErrorsInAppend(owners, outs, STAGE_CODES);
        ErrorsInAppend(owners + outs, gate, STAGE_CODES);
      }
    }
  }

  /**
   * A stage raises exactly when it is valid, lists its outputs, and one of those output
   * keys is unhashable (`key not in artifacts`).
   */
  lemma CheckStageRaises(artifacts: Entries, idx: nat, stage: Value, ref: string)
    ensures CheckStage(artifacts, idx, stage, ref).Failure? <==>
      && StageId(stage).Some? && HasOutputs(stage.entries)
      && exists i :: 0 <= i < |GetOr(stage.entries, "outputs_required", VNull).items| &&
                     !Hashable(GetOr(stage.entries, "outputs_required", VNull).items[i])
  {
    if StageId(stage).Some? && HasOutputs(stage.entries) {
      OutputKeysExact(artifacts, StageId(stage).value, GetOr(stage.entries, "outputs_required", VNull).items, ref);
    }
  }

  /**
   * The stage loop collects exactly the valid ids, in definition order, and reports
   * only stage codes, all of them errors.
   */
  lemma ScanStagesFacts(artifacts: Entries, stages: seq<Value>, ref: string)
    requires ScanStages(artifacts, stages, ref).Success?
    ensures ScanStages(artifacts, stages, ref).value.ids == ValidIds(stages)
    ensures ErrorsIn(ScanStages(artifacts, stages, ref).value.findings, STAGE_CODES)
  {
    ScanStagesIds(artifacts, stages, ref);
    ScanStagesCodes(artifacts, stages, ref);
  }

  lemma {:induction false} ScanStagesIds(artifacts: Entries, stages: seq<Value>, ref: string)
    requires ScanStages(artifacts, stages, ref).Success?
    ensures ScanStages(artifacts, stages, ref).value.ids == ValidIds(stages)
  {
    if stages != [] {
      var init := stages[..|stages| - 1];
      var last := stages[|stages| - 1];
      ScanStep(artifacts, init, last, ref);
      assert stages == init + [last];
      ScanStagesIds(artifacts, init, ref);
      CheckStageFacts(artifacts, |init|, last, ref);
      ValidIdsAppend(init, last);
    }
  }

  /** One more stage appends its own findings and ids to those of the stages before it. */
  lemma ScanStep(artifacts: Entries, init: seq<Value>, last: Value, ref: string)
    requires ScanStages(artifacts, init + [last], ref).Success?
    ensures ScanStages(artifacts, init, ref).Success? && CheckStage(artifacts, |init|, last, ref).Success?
    ensures var acc := ScanStages(artifacts, init, ref).value;
      var one := CheckStage(artifacts, |init|, last, ref).value;
      ScanStages(artifacts, init + [last], ref).value == StageScan(acc.findings + one.findings, acc.ids + one.ids)
  {
    assert (init + [last])[..|init|] == init;
  }

  lemma {:induction false} ScanStagesCodes(artifacts: Entries, stages: seq<Value>, ref: string)
    requires ScanStages(artifacts, stages, ref).Success?
    ensures ErrorsIn(ScanStages(artifacts, stages, ref).value.findings, STAGE_CODES)
  {
    if stages != [] {
      var init := stages[..|stages| - 1];
      var last := stages[|stages| - 1];
      ScanStep(artifacts, init, last, ref);
      assert stages == init + [last];
      ScanStagesCodes(artifacts, init, ref);
      CheckStageFacts(artifacts, |init|, last, ref);
      var acc := ScanStages(artifacts, init, ref).value;
      var one := CheckStage(artifacts, |init|, last, ref).value;
      ErrorsInAppend(acc.findings, one.findings, STAGE_CODES);
    }
  }

  lemma {:induction false} ValidIdsAppend(stages: seq<Value>, stage: Value)
    ensures ValidIds(stages + [stage]) == ValidIds(stages) + (if StageId(stage).Some? then [StageId(stage).value] else [])
  {
    if stages != [] {
      assert (stages + [stage])[1..] == stages[1..] + [stage];
      ValidIdsAppend(stages[1..], stage);
    }
  }

  // ---------- the whole definition ----------

  /** WF_STAGE_DUPLICATE: `len(stage_ids) != len(set(stage_ids))`. */
  function DuplicateFinding(ids: seq<string>, ref: string): seq<Finding> {
    if |Elements(ids)| != |ids| then [Err(STAGE_DUPLICATE, "stages", ref)] else []
  }

  function EnforceFinding(enabled: bool, enforce: string, ids: seq<string>, ref: string): seq<Finding> {
    if enabled && enforce != "" && enforce !in ids then [Err(ENFORCE_STAGE_UNKNOWN, enforce, ref)] else []
  }

  /** `check_workflow_definition` on the decoded document; an unhashable key raises. */
  function CheckWorkflowDefinition(wf: Entries, ref: string): Result<(seq<Finding>, Meta), string> {
    var h := CheckHeader(wf, ref);
    var keys := if h.enabled then UnmappedKeys(h.artifacts, h.keys, ref) else Success([]);
    match keys
    case Failure(e) => Failure(e)
    case Success(keyFindings) =>
      match ScanStages(h.artifacts, h.stages, ref)
      case Failure(e) => Failure(e)
      case Success(scan) =>
        var findings := h.findings + keyFindings + scan.findings + DuplicateFinding(scan.ids, ref)
                        + EnforceFinding(h.enabled, h.enforce, scan.ids, ref);
        var milestone := MilestoneMeta(h.enabled, h.dir, h.pointer, h.lockFilename, StrAll(h.keys), h.enforce);
        Success((findings, Meta(GetOr(wf, "artifacts_dir", VStr(DEFAULT_ARTIFACTS_DIR)), h.artifacts, h.stages,
                                scan.ids, milestone)))
  }

  // ---------- the loops ----------

  lemma {:induction false} UnmappedFailureSticks(artifacts: Entries, keys: seq<Value>, ref: string, i: nat)
    requires i <= |keys| && UnmappedKeys(artifacts, keys[..i], ref).Failure?
    ensures UnmappedKeys(artifacts, keys, ref) == UnmappedKeys(artifacts, keys[..i], ref)
    decreases |keys|
  {
    if i < |keys| {
      assert keys[..|keys| - 1][..i] == keys[..i];
      UnmappedFailureSticks(artifacts, keys[..|keys| - 1], ref, i);
    } else {
      assert keys[..i] == keys;
    }
  }

  method UnmappedLoop(artifacts: Entries, keys: seq<Value>, ref: string) returns (r: Result<seq<Finding>, string>)
    ensures r == UnmappedKeys(artifacts, keys, ref)
  {
    var findings := [];
    for i := 0 to |keys|
      invariant UnmappedKeys(artifacts, keys[..i], ref) == Success(findings)
    {
      assert keys[..i + 1][..i] == keys[..i];
      var key := keys[i];
      if !Hashable(key) {
        UnmappedFailureSticks(artifacts, keys, ref, i + 1);
        return Failure(UNHASHABLE);
      }
      if Lookup(artifacts, key).None? {
        findings := findings + [Err(KEY_UNMAPPED, Str(key), ref)];
      }
    }
    assert keys[..|keys|] == keys;
    r := Success(findings);
  }

  lemma {:induction false} OutputFailureSticks(artifacts: Entries, sid: string, outputs: seq<Value>, ref: string, i: nat)
    requires i <= |outputs| && OutputKeys(artifacts, sid, outputs[..i], ref).Failure?
    ensures OutputKeys(artifacts, sid, outputs, ref) == OutputKeys(artifacts, sid, outputs[..i], ref)
    decreases |outputs|
  {
    if i < |outputs| {
      assert outputs[..|outputs| - 1][..i] == outputs[..i];
      OutputFailureSticks(artifacts, sid, outputs[..|outputs| - 1], ref, i);
    } else {
      assert outputs[..i] == outputs;
    }
  }

  method OutputLoop(artifacts: Entries, sid: string, outputs: seq<Value>, ref: string) returns (r: Result<seq<Finding>, string>)
    ensures r == OutputKeys(artifacts, sid, outputs, ref)
  {
    var findings := [];
    for i := 0 to |outputs|
      invariant OutputKeys(artifacts, sid, outputs[..i], ref) == Success(findings)
    {
      assert outputs[..i + 1][..i] == outputs[..i];
      var key := outputs[i];
      if !Hashable(key) {
        OutputFailureSticks(artifacts, sid, outputs, ref, i + 1);
        return Failure(UNHASHABLE);
      }
      if Lookup(artifacts, key).None? {
        findings := findings + [Err(OUTPUT_KEY_UNMAPPED, sid + ":" + Str(key), ref)];
      }
    }
    assert outputs[..|outputs|] == outputs;
    r := Success(findings);
  }

  lemma {:induction false} ScanFailureSticks(artifacts: Entries, stages: seq<Value>, ref: string, i: nat)
    requires i <= |stages| && ScanStages(artifacts, stages[..i], ref).Failure?
    ensures ScanStages(artifacts, stages, ref) == ScanStages(artifacts, stages[..i], ref)
    decreases |stages|
  {
    if i < |stages| {
      assert stages[..|stages| - 1][..i] == stages[..i];
      ScanFailureSticks(artifacts, stages[..|stages| - 1], ref, i);
    } else {
      assert stages[..i] == stages;
    }
  }

  /** The body of the stage loop for the stage at index `idx`. */
  method StageStep(artifacts: Entries, idx: nat, stage: Value, ref: string) returns (r: Result<StageScan, string>)
    ensures r == CheckStage(artifacts, idx, stage, ref)
  {
    if !stage.VMap? {
      return Success(StageScan([Err(STAGE_INVALID, "stage[" + NatToString(idx) + "]", ref)], []));
    }
    var sid := GetOr(stage.entries, "id", VNull);
    if !IsNonBlankStr(sid) {
      return Success(StageScan([Err(STAGE_ID_MISSING, "stage[" + NatToString(idx) + "]", ref)], []));
    }
    var e := stage.entries;
    var owners: seq<Finding> := [];
    if !Truthy(GetOr(e, "owner", VNull)) && !Truthy(GetOr(e, "owners", VNull)) {
      owners := [Err(OWNER_MISSING, sid.s, ref)];
    }
    var outputs := GetOr(e, "outputs_required", VNull);
    var outs: seq<Finding>;
    if !outputs.VList? || outputs.items == [] {
      outs := [Err(OUTPUTS_MISSING, sid.s, ref)];
    } else {
      var keys := OutputLoop(artifacts, sid.s, outputs.items, ref);
      if keys.Failure? {
        return Failure(keys.error);
      }
      outs := keys.value;
    }
    var exitGate := GetOr(e, "exit_gate", VNull);
    var criteria := if exitGate.VMap? then GetOr(exitGate.entries, "criteria", VNull) else VNull;
    var gate: seq<Finding> := [];
    if !criteria.VList? || criteria.items == [] {
      gate := [Err(EXIT_GATE_MISSING, sid.s, ref)];
    }
    r := Success(StageScan(owners + outs + gate, [sid.s]));
  }

  /** The stage loop of `check_workflow_definition`. */
  method StageLoop(artifacts: Entries, stages: seq<Value>, ref: string) returns (r: Result<StageScan, string>)
    ensures r == ScanStages(artifacts, stages, ref)
  {
    var findings: seq<Finding> := [];
    var ids: seq<string> := [];
    for idx := 0 to |stages|
      invariant ScanStages(artifacts, stages[..idx], ref) == Success(StageScan(findings, ids))
    {
      assert stages[..idx + 1][..idx] == stages[..idx];
      var one := StageStep(artifacts, idx, stages[idx], ref);
      if one.Failure? {
        ScanFailureSticks(artifacts, stages, ref, idx + 1);
        return Failure(one.error);
      }
      findings := findings + one.value.findings;
      ids := ids + one.value.ids;
    }
    assert stages[..|stages|] == stages;
    r := Success(StageScan(findings, ids));
  }

  /** `check_workflow_definition`. */
  method CheckWorkflow(wf: Entries, ref: string) returns (r: Result<(seq<Finding>, Meta), string>)
    ensures r == CheckWorkflowDefinition(wf, ref)
  {
    var h := CheckHeader(wf, ref);
    var keyFindings: seq<Finding> := [];
    if h.enabled {
      var keys := UnmappedLoop(h.artifacts, h.keys, ref);
      if keys.Failure? {
        return Failure(keys.error);
      }
      keyFindings := keys.value;
    }
    var scan := StageLoop(h.artifacts, h.stages, ref);
    if scan.Failure? {
      return Failure(scan.error);
    }
    var s := scan.value;
    var findings := h.findings + keyFindings + s.findings + DuplicateFinding(s.ids, ref)
                    + EnforceFinding(h.enabled, h.enforce, s.ids, ref);
    var milestone := MilestoneMeta(h.enabled, h.dir, h.pointer, h.lockFilename, StrAll(h.keys), h.enforce);
    r := Success((findings, Meta(GetOr(wf, "artifacts_dir", VStr(DEFAULT_ARTIFACTS_DIR)), h.artifacts, h.stages,
                                 s.ids, milestone)));
  }
}

module WorkflowDefinitionProofs {
  import opened Wrappers
  import opened Values
  import opened Ordering
  import opened Findings
  import opened WorkflowDefinition

  /** The milestone-key findings of a definition that passed the key loop. */
  function KeyPart(wf: Entries, ref: string): seq<Finding> {
    var h := CheckHeader(wf, ref);
    if h.enabled && UnmappedKeys(h.artifacts, h.keys, ref).Success? then UnmappedKeys(h.artifacts, h.keys, ref).value
    else []
  }

  /** The stage-loop result of a definition that passed the stage loop. */
  function ScanPart(wf: Entries, ref: string): StageScan {
    var h := CheckHeader(wf, ref);
    match ScanStages(h.artifacts, h.stages, ref)
    case Success(scan) => scan
    case Failure(_) => StageScan([], [])
  }

  /** A successful check is the five groups of findings, in order, over the normalised sections. */
  lemma Shape(wf: Entries, ref: string)
    requires CheckWorkflowDefinition(wf, ref).Success?
    ensures var (findings, meta) := CheckWorkflowDefinition(wf, ref).value;
      var h := CheckHeader(wf, ref);
      var scan := ScanPart(wf, ref);
      && findings == HeaderFindings(wf, ref) + KeyPart(wf, ref) + scan.findings + DuplicateFinding(scan.ids, ref)
                     + EnforceFinding(h.enabled, h.enforce, scan.ids, ref)
      && meta.artifacts == h.artifacts && meta.stages == h.stages && meta.stageIds == scan.ids
      && meta.milestone == MilestoneMeta(h.enabled, h.dir, h.pointer, h.lockFilename, StrAll(h.keys), h.enforce)
      && ScanStages(h.artifacts, h.stages, ref) == Success(scan)
      && (h.enabled ==> UnmappedKeys(h.artifacts, h.keys, ref) == Success(KeyPart(wf, ref)))
  {
  }

  const TAIL_CODES: set<string> := {KEY_UNMAPPED, STAGE_DUPLICATE, ENFORCE_STAGE_UNKNOWN}

  /** The four codes a valid stage can report are pairwise distinct. */
  lemma StageCodesApart()
    ensures OWNER_MISSING != OUTPUTS_MISSING && OWNER_MISSING != EXIT_GATE_MISSING
    ensures OWNER_MISSING != OUTPUT_KEY_UNMAPPED && OUTPUTS_MISSING != EXIT_GATE_MISSING
    ensures OUTPUTS_MISSING != OUTPUT_KEY_UNMAPPED && EXIT_GATE_MISSING != OUTPUT_KEY_UNMAPPED
  {
    assert |OWNER_MISSING| == |OUTPUT_KEY_UNMAPPED| == 22 && |OUTPUTS_MISSING| == 24 && |EXIT_GATE_MISSING| == 26;
    assert OWNER_MISSING[3] != OUTPUT_KEY_UNMAPPED[3];
  }

  /** Counting code `c` over three segments. */
  lemma CountThree(a: seq<Finding>, b: seq<Finding>, d: seq<Finding>, c: string)
    ensures CountCode(a + b + d, c) == CountCode(a, c) + CountCode(b, c) + CountCode(d, c)
  {
    CountCodeAppend(a, b, c);
    CountCodeAppend(a + b, d, c);
  }

  /** The output findings of a valid stage: the key loop's, or one WF_STAGE_OUTPUTS_MISSING. */
  function OutputPart(artifacts: Entries, sid: string, e: Entries, ref: string): seq<Finding> {
    if !HasOutputs(e) then [Err(OUTPUTS_MISSING, sid, ref)]
    else match OutputKeys(artifacts, sid, GetOr(e, "outputs_required", VNull).items, ref)
      case Success(fs) => fs
      case Failure(_) => []
  }

  lemma OutputPartCounts(artifacts: Entries, sid: string, e: Entries, ref: string)
    requires HasOutputs(e) ==> OutputKeys(artifacts, sid, GetOr(e, "outputs_required", VNull).items, ref).Success?
    ensures var outs := OutputPart(artifacts, sid, e, ref);
      && CountCode(outs, OWNER_MISSING) == 0 && CountCode(outs, EXIT_GATE_MISSING) == 0
      && CountCode(outs, OUTPUTS_MISSING) == (if HasOutputs(e) then 0 else 1)
      && (!HasOutputs(e) ==> CountCode(outs, OUTPUT_KEY_UNMAPPED) == 0)
      && (HasOutputs(e) ==>
            && (forall i :: 0 <= i < |GetOr(e, "outputs_required", VNull).items| ==>
                  Hashable(GetOr(e, "outputs_required", VNull).items[i]))
            && CountCode(outs, OUTPUT_KEY_UNMAPPED) == |UnmappedOf(artifacts, GetOr(e, "outputs_required", VNull).items)|)
  {
    StageCodesApart();
    var outs := OutputPart(artifacts, sid, e, ref);
    if HasOutputs(e) {
      var items := GetOr(e, "outputs_required", VNull).items;
      OutputKeysCodes(artifacts, sid, items, ref);
      OutputKeysExact(artifacts, sid, items, ref);
      CountUniform(outs, OUTPUT_KEY_UNMAPPED);
      LacksFrom(outs, {OUTPUT_KEY_UNMAPPED}, OWNER_MISSING);
      LacksFrom(outs, {OUTPUT_KEY_UNMAPPED}, EXIT_GATE_MISSING);
      LacksFrom(outs, {OUTPUT_KEY_UNMAPPED}, OUTPUTS_MISSING);
    } else {
      assert outs[..0] == [];
    }
  }

  /**
   * A valid stage reports WF_STAGE_OWNER_MISSING exactly when it has neither `owner` nor
   * `owners`, WF_STAGE_OUTPUTS_MISSING exactly when `outputs_required` is not a non-empty
   * list, WF_STAGE_EXIT_GATE_MISSING exactly when `exit_gate.criteria` is not a non-empty
   * list, and one WF_OUTPUT_KEY_UNMAPPED per listed output key that `artifacts` does not map.
   */
  lemma ValidStageCounts(artifacts: Entries, idx: nat, stage: Value, ref: string)
    requires CheckStage(artifacts, idx, stage, ref).Success? && StageId(stage).Some?
    ensures var fs := CheckStage(artifacts, idx, stage, ref).value.findings;
      var e := stage.entries;
      var outputs := GetOr(e, "outputs_required", VNull);
      && CountCode(fs, OWNER_MISSING) == (if HasOwner(e) then 0 else 1)
      && CountCode(fs, OUTPUTS_MISSING) == (if HasOutputs(e) then 0 else 1)
      && CountCode(fs, EXIT_GATE_MISSING) == (if HasCriteria(e) then 0 else 1)
      && (!HasOutputs(e) ==> CountCode(fs, OUTPUT_KEY_UNMAPPED) == 0)
      && (HasOutputs(e) ==>
            && (forall i :: 0 <= i < |outputs.items| ==> Hashable(outputs.items[i]))
            && CountCode(fs, OUTPUT_KEY_UNMAPPED) == |UnmappedOf(artifacts, outputs.items)|)
  {
    var sid := StageId(stage).value;
    StageParts(artifacts, idx, stage, ref);
    OutputPartCounts(artifacts, sid, stage.entries, ref);
    FlaggedCounts(HasOwner(stage.entries), HasCriteria(stage.entries), OutputPart(artifacts, sid, stage.entries, ref), sid, ref);
  }

  /** A valid stage's findings are the owner flag, the output part and the exit-gate flag. */
  lemma StageParts(artifacts: Entries, idx: nat, stage: Value, ref: string)
    requires CheckStage(artifacts, idx, stage, ref).Success? && StageId(stage).Some?
    ensures var sid := StageId(stage).value;
      var e := stage.entries;
      && (HasOutputs(e) ==> OutputKeys(artifacts, sid, GetOr(e, "outputs_required", VNull).items, ref).Success?)
      && CheckStage(artifacts, idx, stage, ref).value.findings ==
         Flag(HasOwner(e), OWNER_MISSING, sid, ref) + OutputPart(artifacts, sid, e, ref)
         + Flag(HasCriteria(e), EXIT_GATE_MISSING, sid, ref)
  {
  }

  /** Counting the four stage codes over an owner flag, a middle part and an exit-gate flag. */
  lemma FlaggedCounts(hasOwner: bool, hasCriteria: bool, outs: seq<Finding>, sid: string, ref: string)
    requires CountCode(outs, OWNER_MISSING) == 0 && CountCode(outs, EXIT_GATE_MISSING) == 0
    ensures var fs := Flag(hasOwner, OWNER_MISSING, sid, ref) + outs + Flag(hasCriteria, EXIT_GATE_MISSING, sid, ref);
      && CountCode(fs, OWNER_MISSING) == (if hasOwner then 0 else 1)
      && CountCode(fs, EXIT_GATE_MISSING) == (if hasCriteria then 0 else 1)
      && CountCode(fs, OUTPUTS_MISSING) == CountCode(outs, OUTPUTS_MISSING)
      && CountCode(fs, OUTPUT_KEY_UNMAPPED) == CountCode(outs, OUTPUT_KEY_UNMAPPED)
  {
    StageCodesApart();
    var owners := Flag(hasOwner, OWNER_MISSING, sid, ref);
    var gate := Flag(hasCriteria, EXIT_GATE_MISSING, sid, ref);
    CountThree(owners, outs, gate, OWNER_MISSING);
    CountThree(owners, outs, gate, OUTPUTS_MISSING);
    CountThree(owners, outs, gate, EXIT_GATE_MISSING);
    CountThree(owners, outs, gate, OUTPUT_KEY_UNMAPPED);
    FlagCount(hasOwner, OWNER_MISSING, sid, ref, OWNER_MISSING);
    FlagCount(hasOwner, OWNER_MISSING, sid, ref, OUTPUTS_MISSING);
    FlagCount(hasOwner, OWNER_MISSING, sid, ref, EXIT_GATE_MISSING);
    FlagCount(hasOwner, OWNER_MISSING, sid, ref, OUTPUT_KEY_UNMAPPED);
    FlagCount(hasCriteria, EXIT_GATE_MISSING, sid, ref, OWNER_MISSING);
    FlagCount(hasCriteria, EXIT_GATE_MISSING, sid, ref, OUTPUTS_MISSING);
    FlagCount(hasCriteria, EXIT_GATE_MISSING, sid, ref, EXIT_GATE_MISSING);
    FlagCount(hasCriteria, EXIT_GATE_MISSING, sid, ref, OUTPUT_KEY_UNMAPPED);
  }

  /** Every group holds only its own codes, and every finding is an error. */
  lemma PartCodes(wf: Entries, ref: string)
    ensures ErrorsIn(HeaderFindings(wf, ref), HEADER_CODES)
    ensures ErrorsIn(KeyPart(wf, ref), {KEY_UNMAPPED})
    ensures ErrorsIn(ScanPart(wf, ref).findings, STAGE_CODES)
    ensures ErrorsIn(DuplicateFinding(ScanPart(wf, ref).ids, ref), {STAGE_DUPLICATE})
    ensures var h := CheckHeader(wf, ref);
      ErrorsIn(EnforceFinding(h.enabled, h.enforce, ScanPart(wf, ref).ids, ref), {ENFORCE_STAGE_UNKNOWN})
  {
    HeaderCodes(wf, ref);
    assert CheckHeader(wf, ref).findings == HeaderFindings(wf, ref);
    KeyPartCodes(wf, ref);
    ScanPartCodes(wf, ref);
    var h := CheckHeader(wf, ref);
    TailCodes(h.enabled, h.enforce, ScanPart(wf, ref).ids, ref);
  }

  lemma KeyPartCodes(wf: Entries, ref: string)
    ensures ErrorsIn(KeyPart(wf, ref), {KEY_UNMAPPED})
  {
    var h := CheckHeader(wf, ref);
    if h.enabled && UnmappedKeys(h.artifacts, h.keys, ref).Success? {
      UnmappedCodes(h.artifacts, h.keys, ref);
    }
  }

  lemma {:induction false} UnmappedCodes(artifacts: Entries, keys: seq<Value>, ref: string)
    requires UnmappedKeys(artifacts, keys, ref).Success?
    ensures ErrorsIn(UnmappedKeys(artifacts, keys, ref).value, {KEY_UNMAPPED})
  {
    if keys != [] {
      UnmappedCodes(artifacts, keys[..|keys| - 1], ref);
    }
  }

  lemma TailCodes(enabled: bool, enforce: string, ids: seq<string>, ref: string)
    ensures ErrorsIn(DuplicateFinding(ids, ref), {STAGE_DUPLICATE})
    ensures ErrorsIn(EnforceFinding(enabled, enforce, ids, ref), {ENFORCE_STAGE_UNKNOWN})
  {
  }

  lemma ScanPartCodes(wf: Entries, ref: string)
    ensures ErrorsIn(ScanPart(wf, ref).findings, STAGE_CODES)
  {
    var h := CheckHeader(wf, ref);
    if ScanStages(h.artifacts, h.stages, ref).Success? {
      ScanStagesCodes(h.artifacts, h.stages, ref);
    }
  }

  /** Only the part in the middle can carry code `c`. */
  lemma CountOnly(pre: seq<Finding>, part: seq<Finding>, post: seq<Finding>, codes: set<string>, c: string)
    requires ErrorsIn(pre, codes) && ErrorsIn(post, codes) && c !in codes
    ensures CountCode(pre + part + post, c) == CountCode(part, c)
  {
    LacksCountZero(pre, c);
    LacksCountZero(post, c);
    CountCodeAppend(pre, part, c);
    CountCodeAppend(pre + part, post, c);
  }

  /** A group made only of code `c` counts one per finding. */
  lemma {:induction false} CountUniform(fs: seq<Finding>, c: string)
    requires ErrorsIn(fs, {c})
    ensures CountCode(fs, c) == |fs|
  {
    if fs != [] {
      CountUniform(fs[..|fs| - 1], c);
    }
  }

  /** Every finding of the definition check is an error. */
  lemma AllErrors(wf: Entries, ref: string)
    requires CheckWorkflowDefinition(wf, ref).Success?
    ensures forall i :: 0 <= i < |CheckWorkflowDefinition(wf, ref).value.0| ==>
      CheckWorkflowDefinition(wf, ref).value.0[i].severity == Error
  {
    Shape(wf, ref);
    PartCodes(wf, ref);
    var h := CheckHeader(wf, ref);
    var scan := ScanPart(wf, ref);
    var all := HEADER_CODES + STAGE_CODES + TAIL_CODES;
    var d := DuplicateFinding(scan.ids, ref);
    var e := EnforceFinding(h.enabled, h.enforce, scan.ids, ref);
    ErrorsInAppend(HeaderFindings(wf, ref), KeyPart(wf, ref), all);
    ErrorsInAppend(HeaderFindings(wf, ref) + KeyPart(wf, ref), scan.findings, all);
    ErrorsInAppend(HeaderFindings(wf, ref) + KeyPart(wf, ref) + scan.findings, d, all);
    ErrorsInAppend(HeaderFindings(wf, ref) + KeyPart(wf, ref) + scan.findings + d, e, all);
  }

  predicate Grouped(h: seq<Finding>, k: seq<Finding>, sc: seq<Finding>, d: seq<Finding>, e: seq<Finding>) {
    && ErrorsIn(h, HEADER_CODES) && ErrorsIn(k, {KEY_UNMAPPED}) && ErrorsIn(sc, STAGE_CODES)
    && ErrorsIn(d, {STAGE_DUPLICATE}) && ErrorsIn(e, {ENFORCE_STAGE_UNKNOWN})
  }

  /** How the codes are distributed over the five groups of a definition check. */
  lemma GroupCounts(h: seq<Finding>, k: seq<Finding>, sc: seq<Finding>, d: seq<Finding>, e: seq<Finding>)
    requires Grouped(h, k, sc, d, e)
    ensures forall c :: c in HEADER_CODES ==> CountCode(h + k + sc + d + e, c) == CountCode(h, c)
    ensures CountCode(h + k + sc + d + e, KEY_UNMAPPED) == |k|
    ensures CountCode(h + k + sc + d + e, STAGE_DUPLICATE) == |d|
    ensures CountCode(h + k + sc + d + e, ENFORCE_STAGE_UNKNOWN) == |e|
  {
    HeaderGroup(h, k, sc, d, e);
    KeyGroup(h, k, sc, d, e);
    DuplicateGroup(h, k, sc, d, e);
    EnforceGroup(h, k, sc, d, e);
  }

  /** The header, stage and tail codes are pairwise distinct groups. */
  lemma CodesApart()
    ensures forall c :: c in HEADER_CODES ==> c !in STAGE_CODES + TAIL_CODES
    ensures KEY_UNMAPPED !in HEADER_CODES + STAGE_CODES + {STAGE_DUPLICATE, ENFORCE_STAGE_UNKNOWN}
    ensures STAGE_DUPLICATE !in HEADER_CODES + STAGE_CODES + {KEY_UNMAPPED, ENFORCE_STAGE_UNKNOWN}
    ensures ENFORCE_STAGE_UNKNOWN !in HEADER_CODES + STAGE_CODES + {KEY_UNMAPPED, STAGE_DUPLICATE}
  {
    assert DIR_INVALID[3] != OUTPUTS_MISSING[3];
    assert KEYS_INVALID[16] != KEY_UNMAPPED[16];
    assert LOCK_FILENAME_INVALID[13] != ENFORCE_STAGE_UNKNOWN[13];
  }

  lemma HeaderGroup(h: seq<Finding>, k: seq<Finding>, sc: seq<Finding>, d: seq<Finding>, e: seq<Finding>)
    requires Grouped(h, k, sc, d, e)
    ensures forall c :: c in HEADER_CODES ==> CountCode(h + k + sc + d + e, c) == CountCode(h, c)
  {
    CodesApart();
    var tail := STAGE_CODES + TAIL_CODES;
    ErrorsInAppend(k, sc, tail);
    ErrorsInAppend(k + sc, d, tail);
    ErrorsInAppend(k + sc + d, e, tail);
    assert h + k + sc + d + e == [] + h + (k + sc + d + e);
    forall c | c in HEADER_CODES
      ensures CountCode(h + k + sc + d + e, c) == CountCode(h, c)
    {
      CountOnly([], h, k + sc + d + e, tail, c);
    }
  }

  lemma KeyGroup(h: seq<Finding>, k: seq<Finding>, sc: seq<Finding>, d: seq<Finding>, e: seq<Finding>)
    requires Grouped(h, k, sc, d, e)
    ensures CountCode(h + k + sc + d + e, KEY_UNMAPPED) == |k|
  {
    CodesApart();
    var others := HEADER_CODES + STAGE_CODES + {STAGE_DUPLICATE, ENFORCE_STAGE_UNKNOWN};
    ErrorsInAppend(sc, d, others);
    ErrorsInAppend(sc + d, e, others);
    assert h + k + sc + d + e == h + k + (sc + d + e);
    CountOnly(h, k, sc + d + e, others, KEY_UNMAPPED);
    CountUniform(k, KEY_UNMAPPED);
  }

  lemma DuplicateGroup(h: seq<Finding>, k: seq<Finding>, sc: seq<Finding>, d: seq<Finding>, e: seq<Finding>)
    requires Grouped(h, k, sc, d, e)
    ensures CountCode(h + k + sc + d + e, STAGE_DUPLICATE) == |d|
  {
    CodesApart();
    var others := HEADER_CODES + STAGE_CODES + {KEY_UNMAPPED, ENFORCE_STAGE_UNKNOWN};
    ErrorsInAppend(h, k, others);
    ErrorsInAppend(h + k, sc, others);
    CountOnly(h + k + sc, d, e, others, STAGE_DUPLICATE);
    CountUniform(d, STAGE_DUPLICATE);
  }

  lemma EnforceGroup(h: seq<Finding>, k: seq<Finding>, sc: seq<Finding>, d: seq<Finding>, e: seq<Finding>)
    requires Grouped(h, k, sc, d, e)
    ensures CountCode(h + k + sc + d + e, ENFORCE_STAGE_UNKNOWN) == |e|
  {
    CodesApart();
    var others := HEADER_CODES + STAGE_CODES + {KEY_UNMAPPED, STAGE_DUPLICATE};
    ErrorsInAppend(h, k, others);
    ErrorsInAppend(h + k, sc, others);
    ErrorsInAppend(h + k + sc, d, others);
    assert h + k + sc + d + e == h + k + sc + d + e + [];
    CountOnly(h + k + sc + d, e, [], others, ENFORCE_STAGE_UNKNOWN);
    CountUniform(e, ENFORCE_STAGE_UNKNOWN);
  }

  /** The findings of a successful check, counted group by group. */
  lemma Counts(wf: Entries, ref: string)
    requires CheckWorkflowDefinition(wf, ref).Success?
    ensures var findings := CheckWorkflowDefinition(wf, ref).value.0;
      var h := CheckHeader(wf, ref);
      var scan := ScanPart(wf, ref);
      && (forall c :: c in HEADER_CODES ==> CountCode(findings, c) == CountCode(HeaderFindings(wf, ref), c))
      && CountCode(findings, KEY_UNMAPPED) == |KeyPart(wf, ref)|
      && CountCode(findings, STAGE_DUPLICATE) == |DuplicateFinding(scan.ids, ref)|
      && CountCode(findings, ENFORCE_STAGE_UNKNOWN) == |EnforceFinding(h.enabled, h.enforce, scan.ids, ref)|
  {
    Shape(wf, ref);
    PartCodes(wf, ref);
    var h := CheckHeader(wf, ref);
    var scan := ScanPart(wf, ref);
    GroupCounts(HeaderFindings(wf, ref), KeyPart(wf, ref), scan.findings, DuplicateFinding(scan.ids, ref),
                EnforceFinding(h.enabled, h.enforce, scan.ids, ref));
  }

  /**
   * A malformed `artifacts`, `stages` or `milestone` section yields exactly one error,
   * and `artifacts` and `stages` are replaced by empty values for the later checks.
   */
  lemma SectionErrors(wf: Entries, ref: string)
    requires CheckWorkflowDefinition(wf, ref).Success?
    ensures var (findings, meta) := CheckWorkflowDefinition(wf, ref).value;
      var stages := GetOr(wf, "stages", VNull);
      && CountCode(findings, ARTIFACTS_MISSING) == (if GetOr(wf, "artifacts", VNull).VMap? then 0 else 1)
      && CountCode(findings, STAGES_MISSING) == (if stages.VList? && stages.items != [] then 0 else 1)
      && CountCode(findings, MILESTONE_INVALID) == (if GetOr(wf, "milestone", VMap([])).VMap? then 0 else 1)
      && (!GetOr(wf, "artifacts", VNull).VMap? ==> meta.artifacts == [])
      && (!(stages.VList? && stages.items != []) ==> meta.stages == [] && meta.stageIds == [])
  {
    Counts(wf, ref);
    HeaderFindingsCounts(wf, ref);
    HeaderCounts(wf, ref);
    Shape(wf, ref);
    var h := CheckHeader(wf, ref);
    ScanStagesFacts(h.artifacts, h.stages, ref);
  }

  /**
   * With milestones enabled, each configured key that `artifacts` does not map yields one
   * WF_MILESTONE_KEY_UNMAPPED; with them disabled the keys are not checked.
   */
  lemma UnmappedKeyErrors(wf: Entries, ref: string)
    requires CheckWorkflowDefinition(wf, ref).Success?
    ensures var (findings, meta) := CheckWorkflowDefinition(wf, ref).value;
      var keys := CheckHeader(wf, ref).keys;
      && (meta.milestone.enabled ==> forall i :: 0 <= i < |keys| ==> Hashable(keys[i]))
      && CountCode(findings, KEY_UNMAPPED) ==
         (if meta.milestone.enabled then |UnmappedOf(meta.artifacts, keys)| else 0)
  {
    Counts(wf, ref);
    Shape(wf, ref);
    var h := CheckHeader(wf, ref);
    if h.enabled {
      UnmappedKeysExact(h.artifacts, h.keys, ref);
    }
  }

  /** The ids the metadata carries are exactly the valid stages' ids, in definition order. */
  lemma StageIdsAreValid(wf: Entries, ref: string)
    requires CheckWorkflowDefinition(wf, ref).Success?
    ensures var meta := CheckWorkflowDefinition(wf, ref).value.1;
      meta.stageIds == ValidIds(meta.stages)
  {
    Shape(wf, ref);
    var h := CheckHeader(wf, ref);
    ScanStagesFacts(h.artifacts, h.stages, ref);
  }

  /**
   * A malformed `stages` section does not stop the check: it is replaced by an empty list,
   * so the check raises only in the milestone-key loop, no stage finding is reported, and
   * the enforcing stage, when milestones are enabled and it is named, is reported unknown.
   */
  lemma StagesMalformedFailSoft(wf: Entries, ref: string)
    requires !(GetOr(wf, "stages", VNull).VList? && GetOr(wf, "stages", VNull).items != [])
    ensures var h := CheckHeader(wf, ref);
      CheckWorkflowDefinition(wf, ref).Success? <==>
        (h.enabled ==> forall i :: 0 <= i < |h.keys| ==> Hashable(h.keys[i]))
    ensures CheckWorkflowDefinition(wf, ref).Success? ==>
      var (findings, meta) := CheckWorkflowDefinition(wf, ref).value;
      && meta.stages == [] && meta.stageIds == []
      && CountCode(findings, STAGES_MISSING) == 1
      && (forall c :: c in STAGE_CODES ==> CountCode(findings, c) == 0)
      && CountCode(findings, ENFORCE_STAGE_UNKNOWN) ==
         (if meta.milestone.enabled && meta.milestone.enforce != "" then 1 else 0)
  {
    var h := CheckHeader(wf, ref);
    HeaderCounts(wf, ref);
    assert h.stages == [];
    UnmappedKeysExact(h.artifacts, h.keys, ref);
    if CheckWorkflowDefinition(wf, ref).Success? {
      SectionErrors(wf, ref);
      EnforceIffUnknown(wf, ref);
      NoStageFindings(wf, ref);
    }
  }

  /** With no stage scanned, the findings carry no stage code. */
  lemma NoStageFindings(wf: Entries, ref: string)
    requires CheckWorkflowDefinition(wf, ref).Success? && CheckHeader(wf, ref).stages == []
    ensures forall c :: c in STAGE_CODES ==> CountCode(CheckWorkflowDefinition(wf, ref).value.0, c) == 0
  {
    Shape(wf, ref);
    PartCodes(wf, ref);
    var h := CheckHeader(wf, ref);
    var scan := ScanPart(wf, ref);
    NoStageGroup(HeaderFindings(wf, ref), KeyPart(wf, ref), scan.findings, DuplicateFinding(scan.ids, ref),
                 EnforceFinding(h.enabled, h.enforce, scan.ids, ref));
  }

  lemma NoStageGroup(h: seq<Finding>, k: seq<Finding>, sc: seq<Finding>, d: seq<Finding>, e: seq<Finding>)
    requires Grouped(h, k, sc, d, e) && sc == []
    ensures forall c :: c in STAGE_CODES ==> CountCode(h + k + sc + d + e, c) == 0
  {
    CodesApart();
    var all := HEADER_CODES + TAIL_CODES;
    ErrorsInAppend(h, k, all);
    assert h + k + sc == h + k;
    ErrorsInAppend(h + k, d, all);
    ErrorsInAppend(h + k + d, e, all);
    forall c | c in STAGE_CODES
      ensures CountCode(h + k + sc + d + e, c) == 0
    {
      LacksFrom(h + k + sc + d + e, all, c);
    }
  }

  lemma {:induction false} UnmappedOfNothing(keys: seq<Value>)
    requires forall i :: 0 <= i < |keys| ==> Hashable(keys[i])
    ensures UnmappedOf([], keys) == keys
  {
    if keys != [] {
      UnmappedOfNothing(keys[1..]);
    }
  }

  /**
   * A malformed `artifacts` section is replaced by an empty mapping, so with milestones
   * enabled every configured key is reported unmapped.
   */
  lemma ArtifactsMalformedUnmapsKeys(wf: Entries, ref: string)
    requires !GetOr(wf, "artifacts", VNull).VMap? && CheckWorkflowDefinition(wf, ref).Success?
    ensures var (findings, meta) := CheckWorkflowDefinition(wf, ref).value;
      && meta.artifacts == []
      && CountCode(findings, KEY_UNMAPPED) == (if meta.milestone.enabled then |CheckHeader(wf, ref).keys| else 0)
  {
    HeaderCounts(wf, ref);
    UnmappedKeyErrors(wf, ref);
    Shape(wf, ref);
    var h := CheckHeader(wf, ref);
    if h.enabled {
      UnmappedOfNothing(h.keys);
    }
  }

  /** One WF_STAGE_DUPLICATE exactly when two valid stages share an id. */
  lemma DuplicateIffRepeated(wf: Entries, ref: string)
    requires CheckWorkflowDefinition(wf, ref).Success?
    ensures var (findings, meta) := CheckWorkflowDefinition(wf, ref).value;
      CountCode(findings, STAGE_DUPLICATE) == if Distinct(meta.stageIds) then 0 else 1
  {
    Counts(wf, ref);
    Shape(wf, ref);
    SetSizeIffDistinct(ScanPart(wf, ref).ids);
  }

  /**
   * One WF_MILESTONE_ENFORCE_STAGE_UNKNOWN exactly when milestones are enabled and the
   * enforcing stage is named but is not the id of a valid stage.
   */
  lemma EnforceIffUnknown(wf: Entries, ref: string)
    requires CheckWorkflowDefinition(wf, ref).Success?
    ensures var (findings, meta) := CheckWorkflowDefinition(wf, ref).value;
      var m := meta.milestone;
      CountCode(findings, ENFORCE_STAGE_UNKNOWN) ==
        if m.enabled && m.enforce != "" && m.enforce !in meta.stageIds then 1 else 0
  {
    Counts(wf, ref);
    Shape(wf, ref);
  }

  lemma {:induction false} StrAllValues(ss: seq<string>)
    ensures StrAll(StrValues(ss)) == ss
  {
  }

  /** Without a `milestone` section, milestones are enabled with the documented defaults. */
  lemma MilestoneDefaults(wf: Entries, ref: string)
    requires !HasKey(wf, "milestone") && CheckWorkflowDefinition(wf, ref).Success?
    ensures CheckWorkflowDefinition(wf, ref).value.1.milestone ==
      MilestoneMeta(true, VStr(DEFAULT_MILESTONE_DIR), VStr(DEFAULT_POINTER), VStr(DEFAULT_LOCK_FILENAME),
                    DEFAULT_MILESTONE_KEYS, DEFAULT_ENFORCE_STAGE)
  {
    Shape(wf, ref);
    assert MilestoneOf(wf) == [];
    StrAllValues(DEFAULT_MILESTONE_KEYS);
  }

  /**
   * A definition without a `milestone` section and without a valid `parallel_dev` stage
   * always fails: the default enforcing stage is unknown.
   */
  lemma NoParallelDevFails(wf: Entries, ref: string)
    requires !HasKey(wf, "milestone") && CheckWorkflowDefinition(wf, ref).Success?
    requires DEFAULT_ENFORCE_STAGE !in ValidIds(CheckWorkflowDefinition(wf, ref).value.1.stages)
    ensures HasError(CheckWorkflowDefinition(wf, ref).value.0)
  {
    MilestoneDefaults(wf, ref);
    StageIdsAreValid(wf, ref);
    EnforceIffUnknown(wf, ref);
    AllErrors(wf, ref);
    CountCodeWitness(CheckWorkflowDefinition(wf, ref).value.0, ENFORCE_STAGE_UNKNOWN);
  }
}
