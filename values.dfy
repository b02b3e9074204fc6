/**
 * Decoded YAML/JSON documents and the handful of Python built-ins the scripts apply to
 * them: truthiness, `dict.get`, `dict[k] = v`, `str.strip()` and `str(x)`.
 *
 * A mapping keeps its entries in document order (Python dicts iterate in insertion
 * order, which the lock engine observes). Mapping keys are strings.
 */
module Values {
  import opened Wrappers

  newtype byte = x: int | 0 <= x < 256
  type Bytes = seq<byte>

  datatype Value =
    | VNull
    | VBool(b: bool)
    | VInt(i: int)
    | VStr(s: string)
    | VList(items: seq<Value>)
    | VMap(entries: seq<(string, Value)>)

  type Entries = seq<(string, Value)>

  /** Python truthiness (`if x:` / `not x`). */
  predicate Truthy(v: Value) {
    match v
    case VNull => false
    case VBool(b) => b
    case VInt(i) => i != 0
    case VStr(s) => s != ""
    case VList(items) => items != []
    case VMap(entries) => entries != []
  }

  /** Lists and dicts are unhashable: `x in some_dict` and `set(xs)` raise TypeError on them. */
  predicate Hashable(v: Value) {
    !v.VList? && !v.VMap?
  }

  /** Python's `==` between hashable scalars identifies `True` with `1` and `False` with `0`. */
  function Canon(v: Value): Value {
    if v.VBool? then VInt(if v.b then 1 else 0) else v
  }

  /** `m.get(k)`: the value stored under `k`, if any. */
  function Get(m: Entries, k: string): (r: Option<Value>)
    ensures r.None? <==> forall i :: 0 <= i < |m| ==> m[i].0 != k
  {
    if m == [] then None
    else if m[0].0 == k then Some(m[0].1)
    else Get(m[1..], k)
  }

  predicate HasKey(m: Entries, k: string) {
    Get(m, k).Some?
  }

  /** `m.get(k, d)`. */
  function GetOr(m: Entries, k: string, d: Value): Value {
    match Get(m, k)
    case Some(v) => v
    case None => d
  }

  /** `m.get(key)` for an arbitrary hashable key: only a string can match a string key. */
  function Lookup(m: Entries, key: Value): Option<Value>
    requires Hashable(key)
  {
    if key.VStr? then Get(m, key.s) else None
  }

  /** `m[k] = v`: replaces the value in place when `k` is present, else appends. */
  function Set(m: Entries, k: string, v: Value): (r: Entries)
    ensures |r| == if HasKey(m, k) then |m| else |m| + 1
  {
    if m == [] then [(k, v)]
    else if m[0].0 == k then [(k, v)] + m[1..]
    else [m[0]] + Set(m[1..], k, v)
  }

  lemma {:induction false} GetSet(m: Entries, k: string, v: Value, k': string)
    ensures Get(Set(m, k, v), k') == if k' == k then Some(v) else Get(m, k')
  {
    if m != [] && m[0].0 != k {
      GetSet(m[1..], k, v, k');
    }
  }

  /** A key absent from `m` and appended last is found at the end. */
  lemma {:induction false} GetAppendFresh(m: Entries, k: string, v: Value)
    requires forall i :: 0 <= i < |m| ==> m[i].0 != k
    ensures Get(m + [(k, v)], k) == Some(v)
  {
    if m != [] {
      assert (m + [(k, v)])[1..] == m[1..] + [(k, v)];
      GetAppendFresh(m[1..], k, v);
    }
  }

  /** The keys of a mapping, in order (`m.keys()`). */
  function Keys(m: Entries): (r: seq<string>)
    ensures |r| == |m| && forall i :: 0 <= i < |m| ==> r[i] == m[i].0
  {
    if m == [] then [] else [m[0].0] + Keys(m[1..])
  }

  lemma {:induction false} KeysHasKey(m: Entries, k: string)
    ensures k in Keys(m) <==> HasKey(m, k)
  {
    if m != [] {
      KeysHasKey(m[1..], k);
    }
  }

  /** The characters for which Python's `str.isspace()` holds, i.e. what `strip()` removes. */
  predicate IsSpace(c: char) {
    var n := c as int;
    (9 <= n <= 13) || (28 <= n <= 32) || n == 0x85 || n == 0xA0 || n == 0x1680
    || (0x2000 <= n <= 0x200A) || n == 0x2028 || n == 0x2029 || n == 0x202F
    || n == 0x205F || n == 0x3000
  }

  /** `s.strip() != ""`. */
  predicate NonBlank(s: string) {
    exists i :: 0 <= i < |s| && !IsSpace(s[i])
  }

  function TrimStart(s: string): (r: string)
    ensures |r| <= |s| && r == s[|s| - |r|..]
    ensures r == [] || !IsSpace(r[0])
    ensures forall i :: 0 <= i < |s| - |r| ==> IsSpace(s[i])
  {
    if s != [] && IsSpace(s[0]) then TrimStart(s[1..]) else s
  }

  function TrimEnd(s: string): (r: string)
    ensures |r| <= |s| && r == s[..|r|]
    ensures r == [] || !IsSpace(r[|r| - 1])
    ensures forall i :: |r| <= i < |s| ==> IsSpace(s[i])
  {
    if s != [] && IsSpace(s[|s| - 1]) then TrimEnd(s[..|s| - 1]) else s
  }

  /** `s.strip()`: whitespace is removed from both ends. */
  function Strip(s: string): (r: string)
    ensures r == [] || (!IsSpace(r[0]) && !IsSpace(r[|r| - 1]))
  {
    var t := TrimStart(s);
    var r := TrimEnd(t);
    assert r == [] || r[0] == t[0];
    r
  }

  lemma StripEmptyIffBlank(s: string)
    ensures Strip(s) == "" <==> !NonBlank(s)
  {
    var t := TrimStart(s);
    if Strip(s) == "" {
      assert t == [];
    } else {
      var r := Strip(s);
      assert r[0] == t[0];
      assert t[0] == s[|s| - |t|];
    }
  }

  /** A non-empty string with no whitespace at either end, which `strip()` leaves alone. */
  predicate Stripped(s: string) {
    s != [] && !IsSpace(s[0]) && !IsSpace(s[|s| - 1])
  }

  /** `s.strip()` when it is not empty. */
  function StripNonBlank(s: string): (r: Option<string>)
    ensures r.None? <==> !NonBlank(s)
    ensures r.Some? ==> r.value == Strip(s) && Stripped(r.value)
  {
    StripEmptyIffBlank(s);
    if Strip(s) == "" then None else Some(Strip(s))
  }

  /** A string that `strip()` leaves alone is recovered from the line `s + "\n"`. */
  lemma StripLine(s: string)
    requires Stripped(s)
    ensures Strip(s + "\n") == s
  {
    var line := s + "\n";
    assert TrimStart(line) == line;
    assert line[..|line| - 1] == s;
    assert TrimEnd(line) == TrimEnd(s);
  }

  function DigitChar(d: nat): char
    requires d < 10
  {
    "0123456789"[d]
  }

  /** Decimal rendering of a natural number, as `str(n)` prints it. */
  function NatToString(n: nat): (r: string)
    ensures r != []
    decreases n
  {
    if n < 10 then [DigitChar(n)] else NatToString(n / 10) + [DigitChar(n % 10)]
  }

  /**
   * `str(v)` for a scalar; a list or a mapping is rendered as a fixed placeholder
   * (Python's `repr` of containers is not modelled).
   */
  function Str(v: Value): string {
    match v
    case VNull => "None"
    case VBool(b) => if b then "True" else "False"
    case VInt(i) => if i < 0 then "-" + NatToString(-i) else NatToString(i)
    case VStr(s) => s
    case VList(_) => "[...]"
    case VMap(_) => "{...}"
  }

  /** `isinstance(v, str) and v.strip()`: a string with a non-whitespace character. */
  predicate IsNonBlankStr(v: Value) {
    v.VStr? && NonBlank(v.s)
  }

  /** The strings a value holds, as `[str(k) for k in xs]` renders a list. */
  function StrAll(xs: seq<Value>): (r: seq<string>)
    ensures |r| == |xs| && forall i :: 0 <= i < |xs| ==> r[i] == Str(xs[i])
  {
    if xs == [] then [] else [Str(xs[0])] + StrAll(xs[1..])
  }

  /** The list `[VStr(s) for s in ss]`. */
  function StrValues(ss: seq<string>): (r: seq<Value>)
    ensures |r| == |ss| && forall i :: 0 <= i < |ss| ==> r[i] == VStr(ss[i])
  {
    if ss == [] then [] else [VStr(ss[0])] + StrValues(ss[1..])
  }

  /** `artifacts.get(key)` on a workflow's `artifacts` mapping (None when absent). */
  function NameOf(artifacts: Entries, key: string): Value {
    GetOr(artifacts, key, VNull)
  }

  /** The key maps to a non-empty file name. */
  predicate Mapped(artifacts: Entries, key: string) {
    NameOf(artifacts, key).VStr? && NameOf(artifacts, key).s != ""
  }

  /** The key maps to a truthy non-string, on which the path join raises TypeError. */
  predicate BadName(artifacts: Entries, key: string) {
    Truthy(NameOf(artifacts, key)) && !NameOf(artifacts, key).VStr?
  }

  function FileName(artifacts: Entries, key: string): string
    requires Mapped(artifacts, key)
  {
    NameOf(artifacts, key).s
  }

  /** Membership in a non-empty sequence splits into its front and its last element. */
  lemma InitOrLast<T>(s: seq<T>)
    requires s != []
    ensures forall x :: x in s <==> x in s[..|s| - 1] || x == s[|s| - 1]
  {
    assert s == s[..|s| - 1] + [s[|s| - 1]];
  }
}
