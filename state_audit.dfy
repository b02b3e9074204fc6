/**
 * `check_state_against_workflow` of bmad/scripts/audit_workflow.py: the runtime state file
 * (workflow-state.json) is compared with its template, with the workflow's stage order, and
 * with the artifacts the completed stages must have produced; the milestone checks close it.
 */
module StateAudit {
  import opened Wrappers
  import opened Values
  import opened Paths
  import opened Host
  import opened Ordering
  import opened Findings
  import opened WorkflowDefinition
  import opened ArtifactContent
  import opened MilestoneAudit

  const STATE_MISSING := "STATE_MISSING"
  const FIELD_MISSING := "STATE_FIELD_MISSING"
  const FIELD_UNKNOWN := "STATE_FIELD_UNKNOWN"
  const COMPLETED_INVALID := "STATE_COMPLETED_INVALID"
  const CURRENT_STAGE_INVALID := "STATE_CURRENT_STAGE_INVALID"
  const SEQUENCE_INVALID := "STATE_STAGE_SEQUENCE_INVALID"
  const COMPLETED_DUPLICATE := "STATE_COMPLETED_DUPLICATE"
  const COMPLETED_UNKNOWN := "STATE_COMPLETED_UNKNOWN"
  const CREATED_INVALID := "STATE_ARTIFACTS_CREATED_INVALID"
  const OUTPUT_UNMAPPED := "STATE_OUTPUT_UNMAPPED"
  const OUTPUT_MISSING_FILE := "STATE_OUTPUT_MISSING_FILE"
  const OUTPUT_EMPTY_FILE := "STATE_OUTPUT_EMPTY_FILE"
  const OUTPUT_NOT_TRACKED := "STATE_OUTPUT_NOT_TRACKED"
  const LAST_UPDATED_INVALID := "STATE_LAST_UPDATED_INVALID"
  const STALE_OUTPUTS := "STATE_CURRENT_STAGE_STALE_OUTPUTS"
  const POLICY_INVALID := "STATE_VERIFICATION_POLICY_INVALID"
  const DECISION_INVALID := "STATE_VERIFICATION_DECISION_INVALID"
  const TASK_IDS_INVALID := "STATE_TASK_IDS_INVALID"
  const TASK_IDS_EMPTY := "STATE_TASK_IDS_EMPTY"

  /** The exceptions that escape the audit. */
  const JSON_ERROR := "ValueError: JSON root must be object"
  const KEY_ERROR := "KeyError: stage id"
  const INDEX_ERROR := "IndexError: list index out of range"
  const ATTRIBUTE_ERROR := "AttributeError: stage has no get"
  const NOT_ITERABLE := "TypeError: object is not iterable"

  // ---------- template shape ----------

  /** The fields of `a` that `b` lacks, sorted and without repetition. */
  function FieldsMissingFrom(a: Entries, b: Entries): seq<string> {
    SortedSet(Lacking(Keys(a), b))
  }

  function Lacking(fields: seq<string>, b: Entries): (r: seq<string>)
    ensures forall x :: x in r <==> x in fields && !HasKey(b, x)
  {
    if fields == [] then [] else (if HasKey(b, fields[0]) then [] else [fields[0]]) + Lacking(fields[1..], b)
  }

  /** One finding per field, in order. */
  function EachField(fields: seq<string>, severity: Severity, code: string, ref: Path): (r: seq<Finding>)
    ensures |r| == |fields|
    ensures forall i :: 0 <= i < |fields| ==> r[i] == Finding(severity, code, fields[i], Some(ref))
  {
    if fields == [] then []
    else EachField(fields[..|fields| - 1], severity, code, ref) + [Finding(severity, code, fields[|fields| - 1], Some(ref))]
  }

  /** The missing-field errors followed by the unknown-field warnings. */
  function ShapeFindings(state: Entries, template: Entries, ref: Path): seq<Finding> {
    EachField(FieldsMissingFrom(template, state), Error, FIELD_MISSING, ref)
    + EachField(FieldsMissingFrom(state, template), Warn, FIELD_UNKNOWN, ref)
  }

  /**
   * Every template field the state lacks is reported once as an ERROR and every state field the
   * template lacks once as a WARN, each group in strictly increasing order.
   */
  lemma ShapeDiff(state: Entries, template: Entries, ref: Path)
    ensures var fs := ShapeFindings(state, template, ref);
      var missing := FieldsMissingFrom(template, state);
      var unknown := FieldsMissingFrom(state, template);
      && fs[..|missing|] == EachField(missing, Error, FIELD_MISSING, ref)
      && fs[|missing|..] == EachField(unknown, Warn, FIELD_UNKNOWN, ref)
      && StrictlySorted(missing) && StrictlySorted(unknown)
      && (forall f :: f in missing <==> HasKey(template, f) && !HasKey(state, f))
      && (forall f :: f in unknown <==> HasKey(state, f) && !HasKey(template, f))
  {
    var missing := FieldsMissingFrom(template, state);
    var unknown := FieldsMissingFrom(state, template);
    SortedSetStrict(Lacking(Keys(template), state));
    SortedSetStrict(Lacking(Keys(state), template));
    forall f ensures f in missing <==> HasKey(template, f) && !HasKey(state, f) {
      KeysHasKey(template, f);
    }
    forall f ensures f in unknown <==> HasKey(state, f) && !HasKey(template, f) {
      KeysHasKey(state, f);
    }
  }

  // ---------- stage progress ----------

  /** `completed_stages`, replaced by [] (with an error) when it is not a list. */
  function CompletedOf(state: Entries): seq<Value> {
    var v := GetOr(state, "completed_stages", VNull);
    if v.VList? then v.items else []
  }

  /** Whether `current_stage` is a string naming a valid stage. */
  predicate KnownCurrent(ids: seq<string>, current: Value) {
    current.VStr? && current.s in ids
  }

  /** The current-stage check and, for a known current stage, the completed-prefix check. */
  function SequenceFindings(ids: seq<string>, current: Value, completed: seq<Value>, ref: Path): (r: seq<Finding>)
    ensures |r| <= 1 && forall i :: 0 <= i < |r| ==> r[i].severity == Error
    ensures !KnownCurrent(ids, current) ==> r == [Err(CURRENT_STAGE_INVALID, "current_stage", ref)]
    ensures KnownCurrent(ids, current) ==>
      (r != [] <==> completed != StrValues(ids[..StageIndex(ids, current.s).value]))
      && (r != [] ==> r[0].code == SEQUENCE_INVALID)
  {
    if !KnownCurrent(ids, current) then [Err(CURRENT_STAGE_INVALID, "current_stage", ref)]
    else if completed != StrValues(ids[..StageIndex(ids, current.s).value]) then
      [Err(SEQUENCE_INVALID, "completed_stages", ref)]
    else []
  }

  /** A correct state: the completed stages are exactly the ones before the current stage. */
  lemma PrefixAccepted(ids: seq<string>, i: nat, ref: Path)
    requires i < |ids| && Distinct(ids)
    ensures SequenceFindings(ids, VStr(ids[i]), StrValues(ids[..i]), ref) == []
  {
  }

  /** `set(x)` and `x in dict` raise on an unhashable element. */
  predicate AllHashable(xs: seq<Value>) {
    forall i :: 0 <= i < |xs| ==> Hashable(xs[i])
  }

  /** The elements as Python's `set` identifies them. */
  function CanonAll(xs: seq<Value>): (r: seq<Value>)
    ensures |r| == |xs| && forall i :: 0 <= i < |xs| ==> r[i] == Canon(xs[i])
  {
    if xs == [] then [] else [Canon(xs[0])] + CanonAll(xs[1..])
  }

  /** `len(completed) != len(set(completed))`, on hashable elements. */
  function DuplicateFindings(completed: seq<Value>, ref: Path): (r: seq<Finding>)
    ensures r != [] <==> !Distinct(CanonAll(completed))
  {
    SetSizeIffDistinct(CanonAll(completed));
    if |Elements(CanonAll(completed))| != |completed| then [Err(COMPLETED_DUPLICATE, "completed_stages", ref)] else []
  }

  /** `sid not in stage_index`: only a string can be a stage id. */
  predicate KnownId(ids: seq<string>, sid: Value) {
    sid.VStr? && sid.s in ids
  }

  /** One error per completed entry that is not a valid stage id, in order. */
  function UnknownCompleted(ids: seq<string>, completed: seq<Value>, ref: Path): seq<Finding> {
    if completed == [] then []
    else
      var sid := completed[|completed| - 1];
      UnknownCompleted(ids, completed[..|completed| - 1], ref)
      + (if KnownId(ids, sid) then [] else [Err(COMPLETED_UNKNOWN, Str(sid), ref)])
  }

  lemma {:induction false} UnknownCompletedCount(ids: seq<string>, completed: seq<Value>, ref: Path)
    ensures CountCode(UnknownCompleted(ids, completed, ref), COMPLETED_UNKNOWN) ==
            |UnknownCompleted(ids, completed, ref)|
    ensures UnknownCompleted(ids, completed, ref) == [] <==> forall i :: 0 <= i < |completed| ==> KnownId(ids, completed[i])
  {
    if completed != [] {
      var init := completed[..|completed| - 1];
      UnknownCompletedCount(ids, init, ref);
      assert forall i :: 0 <= i < |init| ==> init[i] == completed[i];
      var last := if KnownId(ids, completed[|completed| - 1]) then []
                  else [Err(COMPLETED_UNKNOWN, Str(completed[|completed| - 1]), ref)];
      CountCodeAppend(UnknownCompleted(ids, init, ref), last, COMPLETED_UNKNOWN);
      if last != [] {
        assert last[..0] == [];
      }
    }
  }

  // ---------- outputs of the completed stages ----------

  /** `artifacts_created`, replaced by [] (with an error) when it is not a list. */
  function CreatedOf(state: Entries): seq<Value> {
    var v := GetOr(state, "artifacts_created", VList([]));
    if v.VList? then v.items else []
  }

  /** The one-character strings of `s`, as iterating a string yields them. */
  function Chars(s: string): (r: seq<Value>)
    ensures |r| == |s| && forall i :: 0 <= i < |s| ==> r[i] == VStr([s[i]])
  {
    if s == [] then [] else [VStr([s[0]])] + Chars(s[1..])
  }

  /** `for key in outputs`: a list yields its items, a string its characters, a mapping its keys. */
  function Iterate(v: Value): Result<seq<Value>, string> {
    match v
    case VList(items) => Success(items)
    case VStr(s) => Success(Chars(s))
    case VMap(entries) => Success(StrValues(Keys(entries)))
    case _ => Failure(NOT_ITERABLE)
  }

  /**
   * `stages[stage_index[sid]].get("outputs_required", [])`, iterated. The index counts valid
   * stages only while `stages` holds every entry, so with an invalid entry before a valid one
   * this reads a different stage.
   */
  function StageOutputs(meta: Meta, sid: Value): Result<seq<Value>, string> {
    if !sid.VStr? || StageIndex(meta.stageIds, sid.s).None? then Failure(KEY_ERROR)
    else
      var idx := StageIndex(meta.stageIds, sid.s).value;
      if idx >= |meta.stages| then Failure(INDEX_ERROR)
      else if !meta.stages[idx].VMap? then Failure(ATTRIBUTE_ERROR)
      else Iterate(GetOr(meta.stages[idx].entries, "outputs_required", VList([])))
  }

  /** `artifacts.get(key)`, raising on an unhashable key. */
  function ArtifactOf(artifacts: Entries, key: Value): Result<Value, string> {
    if !Hashable(key) then Failure(UNHASHABLE)
    else match Lookup(artifacts, key)
      case Some(v) => Success(v)
      case None => Success(VNull)
  }

  /** An existing output file: the empty-file error, or else its marker check. */
  function OutputBody(ctx: Ctx, sid: string, key: Value, filename: Value, path: Path): seq<Finding>
    requires path in ctx.fs
  {
    if |ctx.fs[path]| == 0 then [Err(OUTPUT_EMPTY_FILE, sid, path)]
    else CheckMinimumContent(ctx.env.decode(ctx.fs[path]), Str(key), Str(filename), path)
  }

  /** The untracked warning, when `artifacts_created` does not list the name. */
  function Tracking(ctx: Ctx, created: seq<Value>, filename: Value): seq<Finding> {
    if filename !in created then [Warning(OUTPUT_NOT_TRACKED, Str(filename), ctx.statePath)] else []
  }

  /**
   * An output file that exists: checked for emptiness, then for its markers, and reported
   * untracked when `artifacts_created` does not list its name.
   */
  function ExistingOutput(ctx: Ctx, created: seq<Value>, sid: string, key: Value, filename: Value, path: Path): seq<Finding>
    requires path in ctx.fs
  {
    OutputBody(ctx, sid, key, filename, path) + Tracking(ctx, created, filename)
  }

  /** The body never carries the untracked code, and carries the empty-file code exactly for an empty file. */
  lemma OutputBodyCodes(ctx: Ctx, sid: string, key: Value, filename: Value, path: Path)
    requires path in ctx.fs
    ensures var body := OutputBody(ctx, sid, key, filename, path);
      && (forall i :: 0 <= i < |body| ==> body[i].code != OUTPUT_NOT_TRACKED)
      && (CountCode(body, OUTPUT_EMPTY_FILE) == 1 <==> |ctx.fs[path]| == 0)
  {
    var body := OutputBody(ctx, sid, key, filename, path);
    if |ctx.fs[path]| == 0 {
      assert body[..0] == [];
    } else {
      LacksCountZero(body, OUTPUT_EMPTY_FILE);
    }
  }

  /**
   * The untracked warning comes last and exactly when the name is not listed; the empty-file
   * error exactly when the file is empty; a non-empty file gets the marker check.
   */
  lemma ExistingOutputVerdict(ctx: Ctx, created: seq<Value>, sid: string, key: Value, filename: Value, path: Path)
    requires path in ctx.fs
    ensures var fs := ExistingOutput(ctx, created, sid, key, filename, path);
      && (CountCode(fs, OUTPUT_NOT_TRACKED) == 1 <==> filename !in created)
      && CountCode(fs, OUTPUT_NOT_TRACKED) <= 1
      && (CountCode(fs, OUTPUT_EMPTY_FILE) == 1 <==> |ctx.fs[path]| == 0)
      && (|ctx.fs[path]| > 0 ==>
            fs[..|fs| - CountCode(fs, OUTPUT_NOT_TRACKED)] ==
            CheckMinimumContent(ctx.env.decode(ctx.fs[path]), Str(key), Str(filename), path))
  {
    var body := OutputBody(ctx, sid, key, filename, path);
    var tracked := Tracking(ctx, created, filename);
    OutputBodyCodes(ctx, sid, key, filename, path);
    SingleCodeCount(body, tracked, OUTPUT_NOT_TRACKED, OUTPUT_EMPTY_FILE);
  }

  /** The checks of one output key of a completed stage. */
  function CheckOutput(ctx: Ctx, meta: Meta, created: seq<Value>, sid: string, key: Value): Result<seq<Finding>, string> {
    match ArtifactOf(meta.artifacts, key)
    case Failure(e) => Failure(e)
    case Success(filename) =>
      if !Truthy(filename) then Success([Finding(Error, OUTPUT_UNMAPPED, sid + ":" + Str(key), None)])
      else match ArtifactPath(ctx.root, meta.artifactsDir, filename)
        case Failure(e) => Failure(e)
        case Success(path) =>
          if path !in ctx.fs then Success([Err(OUTPUT_MISSING_FILE, sid, path)])
          else Success(ExistingOutput(ctx, created, sid, key, filename, path))
  }

  /** Counting in `body + tracked` where `tracked` holds at most one NOT_TRACKED warning. */
  lemma SingleCodeCount(body: seq<Finding>, tracked: seq<Finding>, t: string, e: string)
    requires |tracked| <= 1 && forall i :: 0 <= i < |tracked| ==> tracked[i].code == t
    requires forall i :: 0 <= i < |body| ==> body[i].code != t
    requires t != e
    ensures CountCode(body + tracked, t) == |tracked|
    ensures CountCode(body + tracked, e) == CountCode(body, e)
    ensures (body + tracked)[..|body + tracked| - |tracked|] == body
  {
    CountCodeAppend(body, tracked, t);
    CountCodeAppend(body, tracked, e);
    LacksCountZero(body, t);
    if tracked != [] {
      assert tracked[..0] == [];
    }
  }

  /** The output-key loop of one completed stage. */
  function CheckOutputs(ctx: Ctx, meta: Meta, created: seq<Value>, sid: string, keys: seq<Value>)
    : Result<seq<Finding>, string>
  {
    if keys == [] then Success([])
    else match CheckOutputs(ctx, meta, created, sid, keys[..|keys| - 1])
      case Failure(e) => Failure(e)
      case Success(acc) =>
        match CheckOutput(ctx, meta, created, sid, keys[|keys| - 1])
        case Failure(e) => Failure(e)
        case Success(one) => Success(acc + one)
  }

  /** One completed stage: its outputs, looked up through `stage_index`. */
  function CheckCompletedStage(ctx: Ctx, meta: Meta, created: seq<Value>, sid: Value): Result<seq<Finding>, string> {
    match StageOutputs(meta, sid)
    case Failure(e) => Failure(e)
    case Success(keys) => CheckOutputs(ctx, meta, created, sid.s, keys)
  }

  /** The loop over the completed stages. */
  function CheckCompleted(ctx: Ctx, meta: Meta, created: seq<Value>, completed: seq<Value>): Result<seq<Finding>, string> {
    if completed == [] then Success([])
    else match CheckCompleted(ctx, meta, created, completed[..|completed| - 1])
      case Failure(e) => Failure(e)
      case Success(acc) =>
        match CheckCompletedStage(ctx, meta, created, completed[|completed| - 1])
        case Failure(e) => Failure(e)
        case Success(one) => Success(acc + one)
  }

  /** A completed entry that is not a valid stage id makes the loop raise, after it was reported unknown. */
  lemma {:induction false} UnknownCompletedRaises(ctx: Ctx, meta: Meta, created: seq<Value>, completed: seq<Value>, j: nat)
    requires j < |completed| && !KnownId(meta.stageIds, completed[j])
    ensures CheckCompleted(ctx, meta, created, completed).Failure?
  {
    var init := completed[..|completed| - 1];
    if j < |init| {
      assert init[j] == completed[j];
      UnknownCompletedRaises(ctx, meta, created, init, j);
    }
  }

  // ---------- staleness of the current stage's outputs ----------

  /** `iso_to_datetime(str(state.get("last_updated_at", "")))`. */
  function LastUpdated(env: Env, state: Entries): Option<int> {
    var text := Str(GetOr(state, "last_updated_at", VStr("")));
    if !NonBlank(text) then None else env.parseIso(text)
  }

  /** The names of the current stage's existing outputs modified before `last`, in key order. */
  function StaleNames(ctx: Ctx, meta: Meta, last: int, keys: seq<Value>): Result<seq<string>, string> {
    if keys == [] then Success([])
    else match StaleNames(ctx, meta, last, keys[..|keys| - 1])
      case Failure(e) => Failure(e)
      case Success(acc) =>
        match ArtifactOf(meta.artifacts, keys[|keys| - 1])
        case Failure(e) => Failure(e)
        case Success(filename) =>
          if !Truthy(filename) then Success(acc)
          else match ArtifactPath(ctx.root, meta.artifactsDir, filename)
            case Failure(e) => Failure(e)
            case Success(path) =>
              if path in ctx.fs && ctx.env.mtime(path) < last then Success(acc + [filename.s]) else Success(acc)
  }

  /** `k` maps to the (non-empty) file name `n`, whose file exists and was last modified before `last`. */
  predicate StaleOutput(ctx: Ctx, meta: Meta, last: int, k: Value, n: string) {
    && Hashable(k) && n != "" && Lookup(meta.artifacts, k) == Some(VStr(n)) && meta.artifactsDir.VStr?
    && Join(Join(ctx.root, meta.artifactsDir.s), n) in ctx.fs
    && ctx.env.mtime(Join(Join(ctx.root, meta.artifactsDir.s), n)) < last
  }

  /** Every name reported stale is a mapped output whose file exists and predates `last`. */
  lemma {:induction false} StaleNamesAreStale(ctx: Ctx, meta: Meta, last: int, keys: seq<Value>)
    requires StaleNames(ctx, meta, last, keys).Success?
    ensures forall n :: n in StaleNames(ctx, meta, last, keys).value ==>
      exists k :: k in keys && StaleOutput(ctx, meta, last, k, n)
  {
    if keys != [] {
      var init := keys[..|keys| - 1];
      StaleNamesAreStale(ctx, meta, last, init);
      forall n | n in StaleNames(ctx, meta, last, keys).value
        ensures exists k :: k in keys && StaleOutput(ctx, meta, last, k, n)
      {
        if n in StaleNames(ctx, meta, last, init).value {
          var k :| k in init && StaleOutput(ctx, meta, last, k, n);
          assert k in keys;
        } else {
          assert keys[|keys| - 1] in keys;
        }
      }
    }
  }

  /** Conversely, every mapped output whose file exists and predates `last` is reported. */
  lemma {:induction false} StaleNamesComplete(ctx: Ctx, meta: Meta, last: int, keys: seq<Value>, k: Value, n: string)
    requires StaleNames(ctx, meta, last, keys).Success?
    requires k in keys && StaleOutput(ctx, meta, last, k, n)
    ensures n in StaleNames(ctx, meta, last, keys).value
  {
    var init := keys[..|keys| - 1];
    if k in init {
      StaleNamesComplete(ctx, meta, last, init, k, n);
    } else {
      assert k == keys[|keys| - 1];
      assert ArtifactOf(meta.artifacts, k) == Success(VStr(n));
      assert StaleNames(ctx, meta, last, init).Success?;
    }
  }

  /** The last-updated check and, for a known current stage, the stale-output warning. */
  function LastUpdatedFindings(ctx: Ctx, meta: Meta, state: Entries, current: Value): Result<seq<Finding>, string> {
    match LastUpdated(ctx.env, state)
    case None => Success([Err(LAST_UPDATED_INVALID, "last_updated_at", ctx.statePath)])
    case Some(last) =>
      if !KnownCurrent(meta.stageIds, current) then Success([])
      else match StageOutputs(meta, current)
        case Failure(e) => Failure(e)
        case Success(keys) =>
          match StaleNames(ctx, meta, last, keys)
          case Failure(e) => Failure(e)
          case Success(stale) =>
            if stale == [] then Success([])
            else Success([Warning(STALE_OUTPUTS, JoinComma(Sort(stale)), ctx.statePath)])
  }

  // ---------- verification settings and task ids ----------

  /** `value not in {...}` on a set of strings; an unhashable value raises. */
  function Membership(v: Value, allowed: set<string>, code: string, field: string, ref: Path): (r: Result<seq<Finding>, string>)
    ensures r.Failure? <==> !Hashable(v)
    ensures r.Success? ==> (r.value == [] <==> v.VStr? && v.s in allowed) && |r.value| <= 1
  {
    if !Hashable(v) then Failure(UNHASHABLE)
    else if v.VStr? && v.s in allowed then Success([])
    else Success([Err(code, field, ref)])
  }

  function PolicyFindings(state: Entries, ref: Path): Result<seq<Finding>, string> {
    match Membership(GetOr(state, "verification_policy", VNull), {"default", "ask", "strict"}, POLICY_INVALID,
                     "verification_policy", ref)
    case Failure(e) => Failure(e)
    case Success(policy) =>
      match Membership(GetOr(state, "verification_decision", VNull), {"unknown", "execute", "skip"}, DECISION_INVALID,
                       "verification_decision", ref)
      case Failure(e) => Failure(e)
      case Success(decision) => Success(policy + decision)
  }

  function TaskFindings(state: Entries, completed: seq<Value>, ref: Path): (r: seq<Finding>)
    ensures r == [] <==> GetOr(state, "task_ids", VList([])).VList?
                         && (VStr("parallel_dev") in completed ==> GetOr(state, "task_ids", VList([])).items != [])
  {
    var taskIds := GetOr(state, "task_ids", VList([]));
    if !taskIds.VList? then [Err(TASK_IDS_INVALID, "task_ids", ref)]
    else if VStr("parallel_dev") in completed && taskIds.items == [] then [Err(TASK_IDS_EMPTY, "task_ids", ref)]
    else []
  }

  // ---------- the whole audit ----------

  /** The findings up to the duplicate check, which cannot raise. */
  function Progress(meta: Meta, state: Entries, ref: Path): seq<Finding> {
    var completedInvalid := if GetOr(state, "completed_stages", VNull).VList? then []
                            else [Err(COMPLETED_INVALID, "completed_stages", ref)];
    completedInvalid + SequenceFindings(meta.stageIds, GetOr(state, "current_stage", VNull), CompletedOf(state), ref)
  }

  /** The checks after the duplicate check's `set(completed)`, which needs hashable entries. */
  function LaterChecks(ctx: Ctx, meta: Meta, state: Entries): Result<seq<Finding>, string>
    requires AllHashable(CompletedOf(state))
  {
    var ref := ctx.statePath;
    var completed := CompletedOf(state);
    var current := GetOr(state, "current_stage", VNull);
    var ids := DuplicateFindings(completed, ref) + UnknownCompleted(meta.stageIds, completed, ref)
               + (if GetOr(state, "artifacts_created", VList([])).VList? then []
                  else [Err(CREATED_INVALID, "artifacts_created", ref)]);
    match CheckCompleted(ctx, meta, CreatedOf(state), completed)
    case Failure(e) => Failure(e)
    case Success(outputs) =>
      match LastUpdatedFindings(ctx, meta, state, current)
      case Failure(e) => Failure(e)
      case Success(stale) =>
        match PolicyFindings(state, ref)
        case Failure(e) => Failure(e)
        case Success(policy) =>
          match CheckMilestone(ctx, state, meta, current, completed)
          case Failure(e) => Failure(e)
          case Success(milestone) =>
            Success(ids + outputs + stale + policy + TaskFindings(state, completed, ref) + milestone)
  }

  /** The checks of a loaded state against its template and the workflow metadata. */
  function Audit(ctx: Ctx, meta: Meta, state: Entries, template: Entries): Result<seq<Finding>, string> {
    if !AllHashable(CompletedOf(state)) then Failure(UNHASHABLE)
    else match LaterChecks(ctx, meta, state)
      case Failure(e) => Failure(e)
      case Success(rest) =>
        Success(ShapeFindings(state, template, ctx.statePath) + Progress(meta, state, ctx.statePath) + rest)
  }

  /** `check_state_against_workflow`; a state or template that is not a JSON object raises. */
  function CheckState(ctx: Ctx, templatePath: Path, meta: Meta): Result<seq<Finding>, string> {
    if ctx.statePath !in ctx.fs then Success([Err(STATE_MISSING, "workflow-state.json", ctx.statePath)])
    else match LoadJsonMapping(ctx.env, ctx.fs, ctx.statePath)
      case None => Failure(JSON_ERROR)
      case Some(state) =>
        if templatePath !in ctx.fs then Audit(ctx, meta, state, [])
        else match LoadJsonMapping(ctx.env, ctx.fs, templatePath)
          case None => Failure(JSON_ERROR)
          case Some(template) => Audit(ctx, meta, state, template)
  }

  // ---------- consequences for the whole audit ----------

  /** A completed list with an unhashable entry makes `set(completed)` raise. */
  lemma UnhashableCompletedRaises(ctx: Ctx, meta: Meta, state: Entries, template: Entries)
    requires exists i :: 0 <= i < |CompletedOf(state)| && !Hashable(CompletedOf(state)[i])
    ensures Audit(ctx, meta, state, template) == Failure(UNHASHABLE)
  {
  }

  /**
   * The unknown-entry errors never reach the caller: any completed entry that is not a valid
   * stage id makes the output loop raise, so a successful audit reports none and every
   * completed entry names a valid stage.
   */
  lemma UnknownNeverReported(ctx: Ctx, meta: Meta, state: Entries, template: Entries)
    requires Audit(ctx, meta, state, template).Success?
    ensures forall i :: 0 <= i < |CompletedOf(state)| ==> KnownId(meta.stageIds, CompletedOf(state)[i])
    ensures UnknownCompleted(meta.stageIds, CompletedOf(state), ctx.statePath) == []
  {
    var completed := CompletedOf(state);
    forall i | 0 <= i < |completed| ensures KnownId(meta.stageIds, completed[i]) {
      if !KnownId(meta.stageIds, completed[i]) {
        UnknownCompletedRaises(ctx, meta, CreatedOf(state), completed, i);
      }
    }
    UnknownCompletedCount(meta.stageIds, completed, ctx.statePath);
  }

  /**
   * A successful audit opens with the template-shape findings and then the completed-list and
   * current-stage findings, so `ShapeDiff` and `SequenceFindings` describe those parts of it.
   */
  lemma AuditOpening(ctx: Ctx, meta: Meta, state: Entries, template: Entries)
    requires Audit(ctx, meta, state, template).Success?
    ensures var fs := Audit(ctx, meta, state, template).value;
      var shape := ShapeFindings(state, template, ctx.statePath);
      var progress := Progress(meta, state, ctx.statePath);
      |shape| + |progress| <= |fs| && fs[..|shape|] == shape && fs[|shape|..|shape| + |progress|] == progress
  {
    var fs := Audit(ctx, meta, state, template).value;
    var shape := ShapeFindings(state, template, ctx.statePath);
    var progress := Progress(meta, state, ctx.statePath);
    var rest := LaterChecks(ctx, meta, state).value;
    assert fs == shape + progress + rest;
    assert fs[..|shape|] == shape;
    assert fs[|shape|..|shape| + |progress|] == progress;
  }

  /**
   * `stage_index` counts valid stages only while `stages[...]` indexes every entry: with an entry
   * lacking an id before stage "a", the outputs read for "a" are that entry's (none), not the
   * ones "a" requires.
   */
  lemma MisalignedStage(meta: Meta)
    requires meta.stages == [VMap([("owner", VStr("pm"))]),
                             VMap([("id", VStr("a")), ("outputs_required", VList([VStr("prd")]))])]
    requires meta.stageIds == ValidIds(meta.stages)
    ensures meta.stageIds == ["a"]
    ensures StageOutputs(meta, VStr("a")) == Success([])
  {
    assert StageId(meta.stages[0]).None?;
    assert GetOr(meta.stages[1].entries, "id", VNull) == VStr("a");
    assert !IsSpace("a"[0]);
    assert StageId(meta.stages[1]) == Some("a");
    assert meta.stages[1..][1..] == [];
    assert ValidIds(meta.stages[1..]) == ["a"];
    assert StageIndex(["a"], "a") == Some(0);
  }

  // ---------- the loops ----------

  method EmitFields(fields: seq<string>, severity: Severity, code: string, ref: Path) returns (r: seq<Finding>)
    ensures r == EachField(fields, severity, code, ref)
  {
    r := [];
    for i := 0 to |fields|
      invariant r == EachField(fields[..i], severity, code, ref)
    {
      assert fields[..i + 1][..i] == fields[..i];
      r := r + [Finding(severity, code, fields[i], Some(ref))];
    }
    assert fields[..|fields|] == fields;
  }

  method ReportUnknown(ids: seq<string>, completed: seq<Value>, ref: Path) returns (r: seq<Finding>)
    ensures r == UnknownCompleted(ids, completed, ref)
  {
    r := [];
    for i := 0 to |completed|
      invariant r == UnknownCompleted(ids, completed[..i], ref)
    {
      assert completed[..i + 1][..i] == completed[..i];
      if !(completed[i].VStr? && completed[i].s in ids) {
        r := r + [Err(COMPLETED_UNKNOWN, Str(completed[i]), ref)];
      }
    }
    assert completed[..|completed|] == completed;
  }

  lemma {:induction false} OutputsFailureSticks(ctx: Ctx, meta: Meta, created: seq<Value>, sid: string, keys: seq<Value>, i: nat)
    requires i <= |keys| && CheckOutputs(ctx, meta, created, sid, keys[..i]).Failure?
    ensures CheckOutputs(ctx, meta, created, sid, keys) == CheckOutputs(ctx, meta, created, sid, keys[..i])
    decreases |keys| - i
  {
    if i < |keys| {
      assert keys[..i + 1][..i] == keys[..i];
      OutputsFailureSticks(ctx, meta, created, sid, keys, i + 1);
    } else {
      assert keys[..i] == keys;
    }
  }

  /** The inner loop: the checks of every output key of one completed stage. */
  method CheckStageOutputs(ctx: Ctx, meta: Meta, created: seq<Value>, sid: string, keys: seq<Value>)
    returns (r: Result<seq<Finding>, string>)
    ensures r == CheckOutputs(ctx, meta, created, sid, keys)
  {
    var acc := [];
    for i := 0 to |keys|
      invariant CheckOutputs(ctx, meta, created, sid, keys[..i]) == Success(acc)
    {
      assert keys[..i + 1][..i] == keys[..i];
      var one := CheckOutput(ctx, meta, created, sid, keys[i]);
      if one.Failure? {
        OutputsFailureSticks(ctx, meta, created, sid, keys, i + 1);
        return Failure(one.error);
      }
      acc := acc + one.value;
    }
    assert keys[..|keys|] == keys;
    r := Success(acc);
  }

  lemma {:induction false} CompletedFailureSticks(ctx: Ctx, meta: Meta, created: seq<Value>, completed: seq<Value>, i: nat)
    requires i <= |completed| && CheckCompleted(ctx, meta, created, completed[..i]).Failure?
    ensures CheckCompleted(ctx, meta, created, completed) == CheckCompleted(ctx, meta, created, completed[..i])
    decreases |completed| - i
  {
    if i < |completed| {
      assert completed[..i + 1][..i] == completed[..i];
      CompletedFailureSticks(ctx, meta, created, completed, i + 1);
    } else {
      assert completed[..i] == completed;
    }
  }

  /** The outer loop over the completed stages. */
  method CheckCompletedOutputs(ctx: Ctx, meta: Meta, created: seq<Value>, completed: seq<Value>)
    returns (r: Result<seq<Finding>, string>)
    ensures r == CheckCompleted(ctx, meta, created, completed)
  {
    var acc := [];
    for i := 0 to |completed|
      invariant CheckCompleted(ctx, meta, created, completed[..i]) == Success(acc)
    {
      assert completed[..i + 1][..i] == completed[..i];
      var keys := StageOutputs(meta, completed[i]);
      if keys.Failure? {
        CompletedFailureSticks(ctx, meta, created, completed, i + 1);
        return Failure(keys.error);
      }
      var one := CheckStageOutputs(ctx, meta, created, completed[i].s, keys.value);
      if one.Failure? {
        CompletedFailureSticks(ctx, meta, created, completed, i + 1);
        return Failure(one.error);
      }
      acc := acc + one.value;
    }
    assert completed[..|completed|] == completed;
    r := Success(acc);
  }

  lemma {:induction false} StaleFailureSticks(ctx: Ctx, meta: Meta, last: int, keys: seq<Value>, i: nat)
    requires i <= |keys| && StaleNames(ctx, meta, last, keys[..i]).Failure?
    ensures StaleNames(ctx, meta, last, keys) == StaleNames(ctx, meta, last, keys[..i])
    decreases |keys| - i
  {
    if i < |keys| {
      assert keys[..i + 1][..i] == keys[..i];
      StaleFailureSticks(ctx, meta, last, keys, i + 1);
    } else {
      assert keys[..i] == keys;
    }
  }

  /** The loop collecting the current stage's outputs older than the last update. */
  method CollectStale(ctx: Ctx, meta: Meta, last: int, keys: seq<Value>) returns (r: Result<seq<string>, string>)
    ensures r == StaleNames(ctx, meta, last, keys)
  {
    var stale := [];
    for i := 0 to |keys|
      invariant StaleNames(ctx, meta, last, keys[..i]) == Success(stale)
    {
      assert keys[..i + 1][..i] == keys[..i];
      var filename := ArtifactOf(meta.artifacts, keys[i]);
      if filename.Failure? {
        StaleFailureSticks(ctx, meta, last, keys, i + 1);
        return Failure(filename.error);
      }
      if Truthy(filename.value) {
        var path := ArtifactPath(ctx.root, meta.artifactsDir, filename.value);
        if path.Failure? {
          StaleFailureSticks(ctx, meta, last, keys, i + 1);
          return Failure(path.error);
        }
        if path.value in ctx.fs && ctx.env.mtime(path.value) < last {
          stale := stale + [filename.value.s];
        }
      }
    }
    assert keys[..|keys|] == keys;
    r := Success(stale);
  }

  /** The last-updated check, running the stale-output loop for a known current stage. */
  method CheckLastUpdated(ctx: Ctx, meta: Meta, state: Entries, current: Value) returns (r: Result<seq<Finding>, string>)
    ensures r == LastUpdatedFindings(ctx, meta, state, current)
  {
    var last := LastUpdated(ctx.env, state);
    if last.None? {
      return Success([Err(LAST_UPDATED_INVALID, "last_updated_at", ctx.statePath)]);
    }
    if !(current.VStr? && current.s in meta.stageIds) {
      return Success([]);
    }
    var keys := StageOutputs(meta, current);
    if keys.Failure? {
      return Failure(keys.error);
    }
    var stale := CollectStale(ctx, meta, last.value, keys.value);
    if stale.Failure? {
      return Failure(stale.error);
    }
    if stale.value == [] {
      return Success([]);
    }
    r := Success([Warning(STALE_OUTPUTS, JoinComma(Sort(stale.value)), ctx.statePath)]);
  }

  /** Everything after the template shape and the current-stage checks. */
  method RunLaterChecks(ctx: Ctx, meta: Meta, state: Entries) returns (r: Result<seq<Finding>, string>)
    requires AllHashable(CompletedOf(state))
    ensures r == LaterChecks(ctx, meta, state)
  {
    var ref := ctx.statePath;
    var completed := CompletedOf(state);
    var current := GetOr(state, "current_stage", VNull);
    var findings := DuplicateFindings(completed, ref);
    var unknown := ReportUnknown(meta.stageIds, completed, ref);
    var createdInvalid := if GetOr(state, "artifacts_created", VList([])).VList? then []
                          else [Err(CREATED_INVALID, "artifacts_created", ref)];
    findings := findings + unknown + createdInvalid;
    var outputs := CheckCompletedOutputs(ctx, meta, CreatedOf(state), completed);
    if outputs.Failure? {
      return Failure(outputs.error);
    }
    var stale := CheckLastUpdated(ctx, meta, state, current);
    if stale.Failure? {
      return Failure(stale.error);
    }
    var policy := PolicyFindings(state, ref);
    if policy.Failure? {
      return Failure(policy.error);
    }
    var milestone := MilestoneConsistency(ctx, state, meta, current, completed);
    if milestone.Failure? {
      return Failure(milestone.error);
    }
    r := Success(findings + outputs.value + stale.value + policy.value + TaskFindings(state, completed, ref) + milestone.value);
  }

  /** `check_state_against_workflow`, loop by loop. */
  method CheckStateAgainstWorkflow(ctx: Ctx, templatePath: Path, meta: Meta) returns (r: Result<seq<Finding>, string>)
    ensures r == CheckState(ctx, templatePath, meta)
  {
    if ctx.statePath !in ctx.fs {
      return Success([Err(STATE_MISSING, "workflow-state.json", ctx.statePath)]);
    }
    var state := LoadJsonMapping(ctx.env, ctx.fs, ctx.statePath);
    if state.None? {
      return Failure(JSON_ERROR);
    }
    var template: Entries := [];
    if templatePath in ctx.fs {
      var loaded := LoadJsonMapping(ctx.env, ctx.fs, templatePath);
      if loaded.None? {
        return Failure(JSON_ERROR);
      }
      template := loaded.value;
    }
    var missing := EmitFields(FieldsMissingFrom(template, state.value), Error, FIELD_MISSING, ctx.statePath);
    var unknown := EmitFields(FieldsMissingFrom(state.value, template), Warn, FIELD_UNKNOWN, ctx.statePath);
    var findings := missing + unknown + Progress(meta, state.value, ctx.statePath);
    if !AllHashable(CompletedOf(state.value)) {
      return Failure(UNHASHABLE);
    }
    var rest := RunLaterChecks(ctx, meta, state.value);
    if rest.Failure? {
      return Failure(rest.error);
    }
    r := Success(findings + rest.value);
  }
}
