/**
 * The errors `inspect` can fail with, the message each one carries and the
 * status code the host reads from the out-of-sync error.
 */
module Errors {
  import opened Wrappers
  import opened Paths

  datatype InspectError =
    | SubProjectUnsupported
    | LockfileNotFound
    | TargetFileMissing(targetFile: Path)
    | UnexpectedTargetFileName
    | StrictWithoutManifest
    | StrictWithoutChecksum
      /** `OutOfSyncError`: the manifest's digest differs from the one the lockfile records. */
    | OutOfSync(manifestFileName: Path, lockfileName: Path)
      /** Reading a file that is not there: Node's ENOENT error, naming the absolute path. */
    | FileNotFound(path: Path)
      /** The lockfile parser rejected the lockfile with this message. */
    | ParserRejected(detail: string)
      /** The dependency extraction wraps whatever reading the lockfile raised. */
    | LockfileParseFailed(detail: string)

  const OUT_OF_SYNC_PREFIX := "Your Podfile (\""
  const OUT_OF_SYNC_MIDDLE := "\") is not in sync with your lockfile (\""
  const OUT_OF_SYNC_SUFFIX := "\"). Please run \"pod install\" and try again."

  function Message(e: InspectError): string {
    match e
    case SubProjectUnsupported =>
      "The CocoaPods plugin doesn't support specifying a subProject!"
    case LockfileNotFound =>
      "Could not find lockfile \"Podfile.lock\"! This might be resolved by running `pod install`."
    case TargetFileMissing(t) =>
      "Given target file (\"" + t + "\") doesn't exist!"
    case UnexpectedTargetFileName =>
      "Unexpected name for target file!"
    case StrictWithoutManifest =>
      "Option `--strict-out-of-sync=true` given, but no manifest file could be found!"
    case StrictWithoutChecksum =>
      "Option `--strict-out-of-sync=true` given, but lockfile doesn't encode checksum of Podfile! "
      + "Try to update the CocoaPods integration via \"pod install\" or omit the option."
    case OutOfSync(m, l) =>
      OUT_OF_SYNC_PREFIX + m + OUT_OF_SYNC_MIDDLE + l + OUT_OF_SYNC_SUFFIX
    case FileNotFound(p) =>
      "ENOENT: no such file or directory, open '" + p + "'"
    case ParserRejected(detail) =>
      detail
    case LockfileParseFailed(detail) =>
      "Error while parsing Podfile.lock:\n" + detail
  }

  /** The error's `name`: only the out-of-sync error has a class of its own. */
  function Name(e: InspectError): (r: string)
    ensures r == "OutOfSyncError" <==> e.OutOfSync?
  {
    if e.OutOfSync? then "OutOfSyncError" else "Error"
  }

  /** The machine-readable status code: 422 on the out-of-sync error, none on the others. */
  function Code(e: InspectError): (r: Option<int>)
    ensures r.Some? <==> e.OutOfSync?
    ensures r.Some? ==> r.value == 422
  {
    if e.OutOfSync? then Some(422) else None
  }

  /** The out-of-sync message names the manifest, then the lockfile, each at a fixed place. */
  lemma OutOfSyncMessageNamesBoth(m: Path, l: Path)
    ensures var msg, i := Message(OutOfSync(m, l)), |OUT_OF_SYNC_PREFIX| + |m| + |OUT_OF_SYNC_MIDDLE|;
      && msg[..|OUT_OF_SYNC_PREFIX|] == OUT_OF_SYNC_PREFIX
      && msg[|OUT_OF_SYNC_PREFIX|..|OUT_OF_SYNC_PREFIX| + |m|] == m
      && msg[i..i + |l|] == l
      && msg[i + |l|..] == OUT_OF_SYNC_SUFFIX
  {
    var msg := Message(OutOfSync(m, l));
    var i := |OUT_OF_SYNC_PREFIX| + |m| + |OUT_OF_SYNC_MIDDLE|;
    assert msg == (OUT_OF_SYNC_PREFIX + m + OUT_OF_SYNC_MIDDLE) + l + OUT_OF_SYNC_SUFFIX;
    assert |OUT_OF_SYNC_PREFIX + m + OUT_OF_SYNC_MIDDLE| == i;
  }

  /** Among file names of given lengths, the out-of-sync message determines both names. */
  lemma OutOfSyncMessageDetermines(m1: Path, l1: Path, m2: Path, l2: Path)
    requires |m1| == |m2| && |l1| == |l2|
    requires Message(OutOfSync(m1, l1)) == Message(OutOfSync(m2, l2))
    ensures m1 == m2 && l1 == l2
  {
    OutOfSyncMessageNamesBoth(m1, l1);
    OutOfSyncMessageNamesBoth(m2, l2);
  }
}
