/**
 * What `inspect` observes of the world: which files exist, what the
 * readable files hold, what the lockfile parser makes of each lockfile,
 * and the digest function used for the manifest checksum.
 */
module Environment {
  import opened Wrappers
  import opened Paths
  import opened Errors

  /** The dependency tree the parser and converter collaborators build from a lockfile; opaque here. */
  datatype DepTree = DepTree(pods: seq<string>)

  /** What the lockfile parser yields for a lockfile it accepts. */
  datatype Lockfile = Lockfile(podfileChecksum: Option<string>, depTree: DepTree)

  datatype Env = Env(
    /** the paths, relative to the root and normalised, that exist */
    files: set<Path>,
    /** the contents of the files that can be read, by the same paths */
    contents: map<Path, string>,
    /** the parser's verdict on each lockfile it can open: the parsed file or its error message */
    lockfiles: map<Path, Result<Lockfile, string>>,
    /** the lowercase hexadecimal SHA-1 digest of a text */
    digest: string -> string)

  /** `fsExists(path.join(root, p))`, for a path already in normal form. */
  predicate Exists(env: Env, p: Path) {
    p in env.files
  }

  /** `fsReadFile(path.join(root, p))`. */
  function ReadFile(env: Env, root: Path, p: Path): (r: Result<string, InspectError>)
    ensures r.Success? <==> Normalize(p) in env.contents
    ensures r.Success? ==> r.value == env.contents[Normalize(p)]
    ensures r.Failure? ==> r.error == FileNotFound(Join(root, p))
  {
    if Normalize(p) in env.contents then Success(env.contents[Normalize(p)])
    else Failure(FileNotFound(Join(root, p)))
  }

  /** `LockfileParser.readFile(path.join(root, p))`: a file it cannot open fails as a read, a file it rejects with the parser's message. */
  function ReadLockfile(env: Env, root: Path, p: Path): (r: Result<Lockfile, InspectError>)
    ensures Normalize(p) !in env.lockfiles ==> r == Failure(FileNotFound(Join(root, p)))
    ensures Normalize(p) in env.lockfiles ==>
      match env.lockfiles[Normalize(p)]
      case Success(l) => r == Success(l)
      case Failure(msg) => r == Failure(ParserRejected(msg))
  {
    if Normalize(p) !in env.lockfiles then Failure(FileNotFound(Join(root, p)))
    else match env.lockfiles[Normalize(p)]
      case Success(l) => Success(l)
      case Failure(msg) => Failure(ParserRejected(msg))
  }

  /**
   * `getAllDeps`: the dependency tree of the lockfile; any error reading it
   * is re-raised with the "Error while parsing Podfile.lock" prefix.
   */
  function GetAllDeps(env: Env, root: Path, lockfilePath: Path): (r: Result<DepTree, InspectError>)
    ensures r.Success? <==> ReadLockfile(env, root, lockfilePath).Success?
    ensures r.Success? ==> r.value == ReadLockfile(env, root, lockfilePath).value.depTree
    ensures r.Failure? ==>
      r.error == LockfileParseFailed(Message(ReadLockfile(env, root, lockfilePath).error))
  {
    match ReadLockfile(env, root, lockfilePath)
    case Success(l) => Success(l.depTree)
    case Failure(e) => Failure(LockfileParseFailed(Message(e)))
  }
}
