/**
 * `inspect`, the plugin's entry point: option defaults, target-file
 * resolution, the strict out-of-sync gate, the version probe and the
 * assembly of the result.
 */
module Plugin {
  import opened Wrappers
  import opened Paths
  import opened Errors
  import opened Environment
  import opened Resolver
  import opened Checksum
  import opened VersionProbe

  /** The inspect options the plugin reads; an absent option is `None`. */
  class InspectOptions {
    var dev: Option<bool>
    var subProject: Option<string>
    var strictOutOfSync: Option<bool>

    constructor (dev: Option<bool>, subProject: Option<string>, strictOutOfSync: Option<bool>)
      ensures this.dev == dev && this.subProject == subProject
      ensures this.strictOutOfSync == strictOutOfSync
    {
      this.dev := dev;
      this.subProject := subProject;
      this.strictOutOfSync := strictOutOfSync;
    }
  }

  /** The plugin metadata of a result; its `meta` object is always empty. */
  datatype PluginMetadata = PluginMetadata(name: string, runtime: string, targetFile: Path, meta: map<string, string>)

  datatype InspectResult = InspectResult(package: DepTree, plugin: PluginMetadata)

  /** `manifestFilePath || lockfilePath`: the file reported as inspected. */
  function ReportedTargetFile(manifestFilePath: Option<Path>, lockfilePath: Path): (r: Path)
    ensures Truthy(manifestFilePath) ==> r == manifestFilePath.value
    ensures !Truthy(manifestFilePath) ==> r == lockfilePath
  {
    if Truthy(manifestFilePath) then manifestFilePath.value else lockfilePath
  }

  /**
   * The strict out-of-sync check: the error it raises, if any.  Without a
   * manifest it refuses to check at all; a lockfile without a checksum is
   * its own error; only a checksum that disagrees is an out-of-sync error.
   */
  function StrictCheck(env: Env, root: Path, res: Resolution): (r: Option<InspectError>)
    ensures !Truthy(res.manifestFilePath) ==> r == Some(StrictWithoutManifest)
    ensures Truthy(res.manifestFilePath) ==>
      var verified := VerifyChecksum(env, root, res.manifestFilePath.value, res.lockfilePath);
      && (r.None? <==> verified == Success(Valid))
      && (verified.Failure? ==> r == Some(verified.error))
      && (r == Some(StrictWithoutChecksum) <==> verified == Success(NoChecksumInLockfile))
      && (verified == Success(Invalid) <==> r == Some(OutOfSync(res.manifestFilePath.value, res.lockfilePath)))
  {
    if !Truthy(res.manifestFilePath) then Some(StrictWithoutManifest)
    else
      match VerifyChecksum(env, root, res.manifestFilePath.value, res.lockfilePath)
      case Failure(e) => Some(e)
      case Success(NoChecksumInLockfile) => Some(StrictWithoutChecksum)
      case Success(Invalid) => Some(OutOfSync(res.manifestFilePath.value, res.lockfilePath))
      case Success(Valid) => None
  }

  /**
   * What `inspect(root, targetFile, options)` returns or throws, for the
   * options' `subProject` and `strictOutOfSync` values.
   */
  function InspectOutcome(root: Path, targetFile: Option<Path>, subProject: Option<string>,
                          strictOutOfSync: Option<bool>, env: Env, exec: Invocation -> ExecResult)
    : Result<InspectResult, InspectError>
  {
    if Truthy(subProject) then Failure(SubProjectUnsupported)
    else
      match Resolve(env, targetFile)
      case Failure(e) => Failure(e)
      case Success(res) => InspectResolved(root, res, strictOutOfSync == Some(true), env, exec)
  }

  /** The rest of `inspect` once the files are resolved: the strict gate, the probe, the dependency tree. */
  function InspectResolved(root: Path, res: Resolution, strict: bool, env: Env, exec: Invocation -> ExecResult)
    : Result<InspectResult, InspectError>
  {
    var strictError := if strict then StrictCheck(env, root, res) else None;
    if strictError.Some? then Failure(strictError.value)
    else
      var plugin := PluginMetadata("cocoapods", ProbeVersion(root, exec),
                                   ReportedTargetFile(res.manifestFilePath, res.lockfilePath), map[]);
      var depTree :- GetAllDeps(env, root, res.lockfilePath);
      Success(InspectResult(depTree, plugin))
  }

  /**
   * `inspect`.  A missing `strictOutOfSync` is set to false on the caller's
   * options object; nothing else about it changes.
   */
  method Inspect(root: Path, targetFile: Option<Path>, options: InspectOptions?, env: Env,
                 exec: Invocation -> ExecResult)
    returns (r: Result<InspectResult, InspectError>)
    modifies options
    ensures options != null ==> options.dev == old(options.dev) && options.subProject == old(options.subProject)
    ensures options != null ==>
      options.strictOutOfSync == (if old(options.strictOutOfSync).None? then Some(false) else old(options.strictOutOfSync))
    ensures r == InspectOutcome(root, targetFile,
                                if options == null then None else old(options.subProject),
                                if options == null then None else old(options.strictOutOfSync),
                                env, exec)
  {
    var opts := options;
    if opts == null {
      opts := new InspectOptions(Some(false), None, None);
    }
    if opts.strictOutOfSync.None? {
      opts.strictOutOfSync := Some(false);
    }
    r := InspectWith(root, targetFile, opts.subProject, opts.strictOutOfSync, env, exec);
  }

  /** The body of `inspect` once the options are defaulted: it reads them and never changes them. */
  method InspectWith(root: Path, targetFile: Option<Path>, subProject: Option<string>,
                     strictOutOfSync: Option<bool>, env: Env, exec: Invocation -> ExecResult)
    returns (r: Result<InspectResult, InspectError>)
    ensures r == InspectOutcome(root, targetFile, subProject, strictOutOfSync, env, exec)
  {
    if Truthy(subProject) {
      return Failure(SubProjectUnsupported);
    }

    var resolved := ResolveFiles(env, targetFile);
    if resolved.Failure? {
      return Failure(resolved.error);
    }
    var manifestFilePath, lockfilePath := resolved.value.manifestFilePath, resolved.value.lockfilePath;
    ghost var res := resolved.value;

    if strictOutOfSync == Some(true) {
      if !Truthy(manifestFilePath) {
        return Failure(StrictWithoutManifest);
      }
      var result := VerifyChecksum(env, root, manifestFilePath.value, lockfilePath);
      if result.Failure? {
        assert StrictCheck(env, root, res) == Some(result.error);
        return Failure(result.error);
      }
      if result.value == NoChecksumInLockfile {
        assert StrictCheck(env, root, res) == Some(StrictWithoutChecksum);
        return Failure(StrictWithoutChecksum);
      }
      if result.value == Invalid {
        assert StrictCheck(env, root, res) == Some(OutOfSync(manifestFilePath.value, lockfilePath));
        return Failure(OutOfSync(manifestFilePath.value, lockfilePath));
      }
      assert StrictCheck(env, root, res).None?;
    }

    var runtime, _ := CocoapodsVersion(root, exec);
    var plugin := PluginMetadata("cocoapods", runtime, ReportedTargetFile(manifestFilePath, lockfilePath), map[]);
    var depTree := GetAllDeps(env, root, lockfilePath);
    if depTree.Failure? {
      return Failure(depTree.error);
    }
    r := Success(InspectResult(depTree.value, plugin));
  }

  // ---------------------------------------------------------------------
  // Properties of an inspection

  /** A truthy `subProject` is refused before anything else, whatever the other inputs. */
  lemma SubProjectAlwaysRejected(root: Path, targetFile: Option<Path>, subProject: Option<string>,
                                 strictOutOfSync: Option<bool>, env: Env, exec: Invocation -> ExecResult)
    requires Truthy(subProject)
    ensures InspectOutcome(root, targetFile, subProject, strictOutOfSync, env, exec) == Failure(SubProjectUnsupported)
  {
  }

  /** An absent `strictOutOfSync` behaves as false. */
  lemma StrictDefaultsToFalse(root: Path, targetFile: Option<Path>, subProject: Option<string>,
                              env: Env, exec: Invocation -> ExecResult)
    ensures InspectOutcome(root, targetFile, subProject, None, env, exec)
         == InspectOutcome(root, targetFile, subProject, Some(false), env, exec)
  {
  }

  /**
   * A hint of an unrecognised name fails, in strict mode too, and the
   * outcome depends on no file contents, lockfile and subprocess.
   */
  lemma UnexpectedHintFailsEarly(root: Path, hint: Path, subProject: Option<string>,
                                 strictOutOfSync: Option<bool>, env: Env, exec: Invocation -> ExecResult)
    requires !Truthy(subProject) && hint != ""
    requires Parse(hint).base != LOCKFILE_NAME && Parse(hint).base !in MANIFEST_FILE_NAMES
    ensures InspectOutcome(root, Some(hint), subProject, strictOutOfSync, env, exec) == Failure(UnexpectedTargetFileName)
  {
    ResolveUnexpectedHint(env, hint);
  }

  /** The result of a successful inspection: its metadata and dependency tree. */
  lemma SuccessfulInspection(root: Path, targetFile: Option<Path>, subProject: Option<string>,
                             strictOutOfSync: Option<bool>, env: Env, exec: Invocation -> ExecResult)
    requires InspectOutcome(root, targetFile, subProject, strictOutOfSync, env, exec).Success?
    ensures !Truthy(subProject) && Resolve(env, targetFile).Success?
    ensures var res, result := Resolve(env, targetFile).value,
                               InspectOutcome(root, targetFile, subProject, strictOutOfSync, env, exec).value;
      && result.plugin.name == "cocoapods"
      && result.plugin.meta == map[]
      && result.plugin.runtime == ProbeVersion(root, exec)
      && result.plugin.targetFile == (if res.manifestFilePath.Some? then res.manifestFilePath.value else res.lockfilePath)
      && ReadLockfile(env, root, res.lockfilePath).Success?
      && result.package == ReadLockfile(env, root, res.lockfilePath).value.depTree
  {
    ResolvedManifestTruthy(env, targetFile);
  }

  /** Strict mode without a manifest fails, whatever the lockfile holds. */
  lemma StrictNeedsManifest(root: Path, targetFile: Option<Path>, subProject: Option<string>,
                            env: Env, exec: Invocation -> ExecResult)
    requires !Truthy(subProject)
    requires Resolve(env, targetFile).Success? && Resolve(env, targetFile).value.manifestFilePath.None?
    ensures InspectOutcome(root, targetFile, subProject, Some(true), env, exec) == Failure(StrictWithoutManifest)
  {
  }

  /** A lockfile without a checksum fails strict mode with its own error, never as out of sync. */
  lemma StrictNoChecksumIsNotOutOfSync(root: Path, targetFile: Option<Path>, subProject: Option<string>,
                                       env: Env, exec: Invocation -> ExecResult)
    requires !Truthy(subProject)
    requires Resolve(env, targetFile).Success?
    requires var res := Resolve(env, targetFile).value;
      res.manifestFilePath.Some? &&
      VerifyChecksum(env, root, res.manifestFilePath.value, res.lockfilePath) == Success(NoChecksumInLockfile)
    ensures InspectOutcome(root, targetFile, subProject, Some(true), env, exec) == Failure(StrictWithoutChecksum)
    ensures Code(StrictWithoutChecksum).None? && Name(StrictWithoutChecksum) != "OutOfSyncError"
  {
    ResolvedManifestTruthy(env, targetFile);
  }

  /** A checksum that disagrees fails strict mode with the out-of-sync error, status 422, naming both paths. */
  lemma StrictMismatchIsOutOfSync(root: Path, targetFile: Option<Path>, subProject: Option<string>,
                                  env: Env, exec: Invocation -> ExecResult)
    requires !Truthy(subProject)
    requires Resolve(env, targetFile).Success?
    requires var res := Resolve(env, targetFile).value;
      res.manifestFilePath.Some? &&
      VerifyChecksum(env, root, res.manifestFilePath.value, res.lockfilePath) == Success(Invalid)
    ensures var res := Resolve(env, targetFile).value;
      && InspectOutcome(root, targetFile, subProject, Some(true), env, exec)
           == Failure(OutOfSync(res.manifestFilePath.value, res.lockfilePath))
      && Code(OutOfSync(res.manifestFilePath.value, res.lockfilePath)) == Some(422)
      && Name(OutOfSync(res.manifestFilePath.value, res.lockfilePath)) == "OutOfSyncError"
  {
    ResolvedManifestTruthy(env, targetFile);
  }

  /** A checksum that agrees lets strict mode proceed exactly as the lax inspection does. */
  lemma StrictMatchProceeds(root: Path, targetFile: Option<Path>, subProject: Option<string>,
                            env: Env, exec: Invocation -> ExecResult)
    requires !Truthy(subProject)
    requires Resolve(env, targetFile).Success?
    requires var res := Resolve(env, targetFile).value;
      res.manifestFilePath.Some? &&
      VerifyChecksum(env, root, res.manifestFilePath.value, res.lockfilePath) == Success(Valid)
    ensures InspectOutcome(root, targetFile, subProject, Some(true), env, exec)
         == InspectOutcome(root, targetFile, subProject, Some(false), env, exec)
  {
    ResolvedManifestTruthy(env, targetFile);
  }

  /**
   * In strict mode a lockfile the parser rejects fails with the parser's own
   * error, before the wrapping that `getAllDeps` would add.
   */
  lemma StrictParserErrorUnwrapped(root: Path, res: Resolution, env: Env, exec: Invocation -> ExecResult,
                                   detail: string)
    requires Truthy(res.manifestFilePath)
    requires ReadFile(env, root, res.manifestFilePath.value).Success?
    requires ReadLockfile(env, root, res.lockfilePath) == Failure(ParserRejected(detail))
    ensures InspectResolved(root, res, true, env, exec) == Failure(ParserRejected(detail))
    ensures InspectResolved(root, res, false, env, exec) == Failure(LockfileParseFailed(detail))
  {
  }

  /**
   * A lockfile hint that names no file is accepted by the resolution and
   * fails only when the lockfile is parsed, with the wrapped ENOENT error.
   */
  lemma MissingLockfileHintFailsAtParse(root: Path, hint: Path, subProject: Option<string>,
                                        strictOutOfSync: Option<bool>, env: Env, exec: Invocation -> ExecResult)
    requires !Truthy(subProject) && strictOutOfSync != Some(true)
    requires Parse(hint).base == LOCKFILE_NAME && Normalize(hint) !in env.lockfiles
    ensures Resolve(env, Some(hint)).Success?
    ensures InspectOutcome(root, Some(hint), subProject, strictOutOfSync, env, exec)
         == Failure(LockfileParseFailed(Message(FileNotFound(Join(root, hint)))))
  {
    ResolveLockfileHint(env, hint);
  }

  /**
   * The version probe never decides the outcome: with any two subprocess
   * behaviours an inspection fails alike or succeeds alike, differing at
   * most in the reported runtime.
   */
  lemma ProbeNeverFailsInspection(root: Path, targetFile: Option<Path>, subProject: Option<string>,
                                  strictOutOfSync: Option<bool>, env: Env,
                                  exec1: Invocation -> ExecResult, exec2: Invocation -> ExecResult)
    ensures var o1, o2 := InspectOutcome(root, targetFile, subProject, strictOutOfSync, env, exec1),
                          InspectOutcome(root, targetFile, subProject, strictOutOfSync, env, exec2);
      && (o1.Success? <==> o2.Success?)
      && (o1.Failure? ==> o1 == o2)
      && (o1.Success? ==> o1.value.(plugin := o1.value.plugin.(runtime := "")) ==
                          o2.value.(plugin := o2.value.plugin.(runtime := "")))
  {
  }

  /** Outside strict mode no manifest is read: its contents and the digest do not matter. */
  lemma LaxIgnoresManifestContents(root: Path, targetFile: Option<Path>, subProject: Option<string>,
                                   strictOutOfSync: Option<bool>, env: Env, contents: map<Path, string>,
                                   digest: string -> string, exec: Invocation -> ExecResult)
    requires strictOutOfSync != Some(true)
    ensures InspectOutcome(root, targetFile, subProject, strictOutOfSync, env, exec)
         == InspectOutcome(root, targetFile, subProject, strictOutOfSync, env.(contents := contents, digest := digest), exec)
  {
    var env' := env.(contents := contents, digest := digest);
    ResolveIgnoresContents(env, env', targetFile);
    if !Truthy(subProject) && Resolve(env, targetFile).Success? {
      var res := Resolve(env, targetFile).value;
      assert ReadLockfile(env', root, res.lockfilePath) == ReadLockfile(env, root, res.lockfilePath);
      assert GetAllDeps(env', root, res.lockfilePath) == GetAllDeps(env, root, res.lockfilePath);
      assert InspectResolved(root, res, false, env', exec) == InspectResolved(root, res, false, env, exec);
    }
  }

  /** Resolution looks at existence only, never at contents or lockfiles. */
  lemma ResolveIgnoresContents(env: Env, env': Env, targetFile: Option<Path>)
    requires env'.files == env.files
    ensures Resolve(env', targetFile) == Resolve(env, targetFile)
  {
    FirstExistingOnFiles(env, env', ".", MANIFEST_FILE_NAMES);
    if Truthy(targetFile) {
      FirstExistingOnFiles(env, env', Parse(targetFile.value).dir, MANIFEST_FILE_NAMES);
    }
  }

  lemma {:induction false} FirstExistingOnFiles(env: Env, env': Env, dir: Path, names: seq<string>)
    requires env'.files == env.files
    ensures FirstExisting(env', dir, names) == FirstExisting(env, dir, names)
    decreases |names|
  {
    if names != [] {
      FirstExistingOnFiles(env, env', dir, names[1..]);
    }
  }
}
