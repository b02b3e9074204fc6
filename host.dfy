/**
 * What the scripts receive from outside: the repository's files, and the library
 * routines the model does not look inside (SHA-256 of FIPS 180-4, the YAML and JSON
 * codecs, UTF-8, the clock, `Path.resolve()`, file modification times and ISO-8601
 * parsing). The routines are fields of `Env`, so every property proved here holds for
 * any implementation of them; none of them is assumed injective.
 */
module Host {
  import opened Wrappers
  import opened Values
  import opened Paths

  datatype Env = Env(
    sha256: Bytes -> string,            // hashlib.sha256(...).hexdigest()
    loadYaml: Bytes -> Option<Value>,   // yaml.safe_load; None when it raises
    dumpYaml: Value -> Bytes,           // yaml.safe_dump, UTF-8 encoded
    loadJson: Bytes -> Option<Value>,   // json.load; None when it raises
    dumpJson: Value -> Bytes,           // json.dumps(..., indent=2) + "\n", UTF-8 encoded
    decode: Bytes -> string,            // read_text(encoding="utf-8")
    encode: string -> Bytes,            // write_text(..., encoding="utf-8")
    now: string,                        // now_iso()
    resolve: Path -> Path,              // Path.resolve()
    parseIso: string -> Option<int>,    // datetime.fromisoformat, as a comparable instant
    mtime: Path -> int)                 // stat().st_mtime, on the same scale

  /** The repository: its root directory and the contents of every regular file under it. */
  class Repo {
    const root: Path
    var files: map<Path, Bytes>

    constructor (root: Path, files: map<Path, Bytes>)
      ensures this.root == root && this.files == files
    {
      this.root := root;
      this.files := files;
    }
  }

  /** `p.exists() and p.stat().st_size > 0`. */
  predicate NonEmptyFile(fs: map<Path, Bytes>, p: Path) {
    p in fs && |fs[p]| > 0
  }

  /** `load_yaml(p)`: the document at `p` when it parses to a mapping, else None (it raises). */
  function LoadYamlMapping(env: Env, fs: map<Path, Bytes>, p: Path): Option<Entries> {
    if p !in fs then None
    else match env.loadYaml(fs[p])
      case Some(VMap(m)) => Some(m)
      case _ => None
  }

  /** `load_json(p)`, likewise. */
  function LoadJsonMapping(env: Env, fs: map<Path, Bytes>, p: Path): Option<Entries> {
    if p !in fs then None
    else match env.loadJson(fs[p])
      case Some(VMap(m)) => Some(m)
      case _ => None
  }

  /** Outcome of a command: an exit status, or an exception that escapes to the interpreter. */
  datatype Outcome = Exit(code: int) | Raised(reason: string)
}
