/**
 * The integrity check of strict mode: the manifest's digest against the
 * checksum the lockfile records.
 */
module Checksum {
  import opened Wrappers
  import opened Paths
  import opened Errors
  import opened Environment

  datatype ChecksumVerificationResult = Valid | Invalid | NoChecksumInLockfile

  /** The three-way classification of a recorded checksum against the computed digest. */
  function Classify(recorded: Option<string>, computed: string): (r: ChecksumVerificationResult)
    ensures r == NoChecksumInLockfile <==> recorded.None?
    ensures r == Valid <==> recorded == Some(computed)
    ensures r == Invalid <==> recorded.Some? && recorded.value != computed
  {
    match recorded
    case None => NoChecksumInLockfile
    case Some(checksum) => if checksum == computed then Valid else Invalid
  }

  /**
   * `verifyChecksum`: read the manifest, digest it, open the lockfile and
   * classify its checksum.  A manifest that cannot be read fails first; a
   * lockfile the parser cannot open or rejects fails with the parser's own
   * error, not wrapped.
   */
  function VerifyChecksum(env: Env, root: Path, manifestFilePath: Path, lockfilePath: Path)
    : (r: Result<ChecksumVerificationResult, InspectError>)
    ensures ReadFile(env, root, manifestFilePath).Failure? ==>
      r == Failure(ReadFile(env, root, manifestFilePath).error)
    ensures ReadFile(env, root, manifestFilePath).Success? && ReadLockfile(env, root, lockfilePath).Failure? ==>
      r == Failure(ReadLockfile(env, root, lockfilePath).error)
    ensures r.Success? ==>
      var contents, lockfile := ReadFile(env, root, manifestFilePath).value, ReadLockfile(env, root, lockfilePath).value;
      && (r.value == NoChecksumInLockfile <==> lockfile.podfileChecksum.None?)
      && (r.value == Valid <==> lockfile.podfileChecksum == Some(env.digest(contents)))
    ensures ReadFile(env, root, manifestFilePath).Success? && ReadLockfile(env, root, lockfilePath).Success? ==>
      r == Success(Classify(ReadLockfile(env, root, lockfilePath).value.podfileChecksum,
                            env.digest(ReadFile(env, root, manifestFilePath).value)))
  {
    var contents :- ReadFile(env, root, manifestFilePath);
    var checksum := env.digest(contents);
    var parser :- ReadLockfile(env, root, lockfilePath);
    Success(Classify(parser.podfileChecksum, checksum))
  }

  /**
   * With a digest that tells the two contents apart, a lockfile that
   * records the checksum of one manifest text is out of sync with the other.
   */
  lemma EditedManifestIsInvalid(env: Env, root: Path, manifestFilePath: Path, lockfilePath: Path,
                                original: string)
    requires VerifyChecksum(env, root, manifestFilePath, lockfilePath).Success?
    requires ReadLockfile(env, root, lockfilePath).value.podfileChecksum == Some(env.digest(original))
    requires env.digest(ReadFile(env, root, manifestFilePath).value) != env.digest(original)
    ensures VerifyChecksum(env, root, manifestFilePath, lockfilePath) == Success(Invalid)
  {
  }
}
