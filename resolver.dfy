/**
 * Target-file resolution: which manifest (optional) and which lockfile
 * (mandatory) govern the project, searched by existence alone.
 */
module Resolver {
  import opened Wrappers
  import opened Paths
  import opened Errors
  import opened Environment

  /** The recognised manifest names, in priority order. */
  const MANIFEST_FILE_NAMES: seq<string> :=
    ["CocoaPods.podfile.yaml", "CocoaPods.podfile", "Podfile", "Podfile.rb"]

  const LOCKFILE_NAME: string := "Podfile.lock"

  /** The manifest and lockfile chosen for one inspection, relative to the root. */
  datatype Resolution = Resolution(manifestFilePath: Option<Path>, lockfilePath: Path)

  /** JavaScript truthiness of an optional string: present and not empty. */
  predicate Truthy(s: Option<string>) {
    s.Some? && s.value != ""
  }

  /** `dir/names[k]` exists and no earlier name does. */
  predicate IsFirstExisting(env: Env, dir: Path, names: seq<string>, k: nat) {
    && k < |names|
    && Exists(env, Join(dir, names[k]))
    && forall j :: 0 <= j < k ==> !Exists(env, Join(dir, names[j]))
  }

  /** `dir/name` for the first of `names` that exists in `dir`, or nothing when none does. */
  function FirstExisting(env: Env, dir: Path, names: seq<string>): Option<Path> {
    if names == [] then None
    else if Exists(env, Join(dir, names[0])) then Some(Join(dir, names[0]))
    else FirstExisting(env, dir, names[1..])
  }

  /** The search finds nothing exactly when no name exists; otherwise it finds the first one that does. */
  lemma {:induction false} FirstExistingIsFirst(env: Env, dir: Path, names: seq<string>)
    ensures FirstExisting(env, dir, names).None? <==>
      forall k :: 0 <= k < |names| ==> !Exists(env, Join(dir, names[k]))
    ensures FirstExisting(env, dir, names).Some? ==> exists k: nat ::
      IsFirstExisting(env, dir, names, k) && FirstExisting(env, dir, names).value == Join(dir, names[k])
    decreases |names|
  {
    if names != [] {
      if Exists(env, Join(dir, names[0])) {
        assert IsFirstExisting(env, dir, names, 0);
      } else {
        FirstExistingIsFirst(env, dir, names[1..]);
        assert forall k :: 1 <= k < |names| ==> names[k] == names[1..][k - 1];
        var r := FirstExisting(env, dir, names[1..]);
        if r.Some? {
          var k: nat :| IsFirstExisting(env, dir, names[1..], k) && r.value == Join(dir, names[1..][k]);
          assert IsFirstExisting(env, dir, names, k + 1);
        }
      }
    }
  }

  /** The manifest `findManifestFile(root, dir)` finds. */
  function ManifestIn(env: Env, dir: Path): Option<Path> {
    FirstExisting(env, dir, MANIFEST_FILE_NAMES)
  }

  /** `findManifestFile`: tries each manifest name in turn and returns the first that exists. */
  method FindManifestFile(env: Env, dir: Path) returns (r: Option<Path>)
    ensures r == ManifestIn(env, dir)
  {
    var i := 0;
    while i < |MANIFEST_FILE_NAMES|
      invariant 0 <= i <= |MANIFEST_FILE_NAMES|
      invariant ManifestIn(env, dir) == FirstExisting(env, dir, MANIFEST_FILE_NAMES[i..])
    {
      var targetFilePath := Join(dir, MANIFEST_FILE_NAMES[i]);
      if Exists(env, targetFilePath) {
        return Some(targetFilePath);
      }
      assert MANIFEST_FILE_NAMES[i..][1..] == MANIFEST_FILE_NAMES[i + 1..];
      i := i + 1;
    }
    return None;
  }

  /** `findLockfile`: `dir/Podfile.lock` exactly when it exists. */
  function FindLockfile(env: Env, dir: Path): (r: Option<Path>)
    ensures r.Some? <==> Exists(env, Join(dir, LOCKFILE_NAME))
    ensures r.Some? ==> r.value == Join(dir, LOCKFILE_NAME)
  {
    if Exists(env, Join(dir, LOCKFILE_NAME)) then Some(Join(dir, LOCKFILE_NAME)) else None
  }

  /** `expectToFindLockfile`: the lockfile of `dir`, or the "Could not find lockfile" error. */
  function ExpectToFindLockfile(env: Env, dir: Path): (r: Result<Path, InspectError>)
    ensures r.Failure? <==> !Exists(env, Join(dir, LOCKFILE_NAME))
    ensures r.Failure? ==> r.error == LockfileNotFound
    ensures r.Success? ==> r.value == Join(dir, LOCKFILE_NAME)
  {
    match FindLockfile(env, dir)
    case None => Failure(LockfileNotFound)
    case Some(p) => Success(p)
  }

  /**
   * The branching of `inspect` over the target-file hint: a hint named like
   * the lockfile is the lockfile, a hint named like a manifest is the
   * manifest, no hint searches the root, any other hint is refused.
   */
  function Resolve(env: Env, targetFile: Option<Path>): Result<Resolution, InspectError> {
    if Truthy(targetFile) then
      var parsed := Parse(targetFile.value);
      if parsed.base == LOCKFILE_NAME then
        Success(Resolution(ManifestIn(env, parsed.dir), targetFile.value))
      else if parsed.base in MANIFEST_FILE_NAMES then
        if !Exists(env, Normalize(targetFile.value)) then Failure(TargetFileMissing(targetFile.value))
        else
          var lockfilePath :- ExpectToFindLockfile(env, parsed.dir);
          Success(Resolution(Some(targetFile.value), lockfilePath))
      else
        Failure(UnexpectedTargetFileName)
    else
      var manifestFilePath := ManifestIn(env, ".");
      var lockfilePath :- ExpectToFindLockfile(env, ".");
      Success(Resolution(manifestFilePath, lockfilePath))
  }

  /**
   * The branching of `inspect` that assigns `manifestFilePath` and
   * `lockfilePath` from the target-file hint.
   */
  method ResolveFiles(env: Env, targetFile: Option<Path>) returns (r: Result<Resolution, InspectError>)
    ensures r == Resolve(env, targetFile)
  {
    var lockfilePath: Path;
    var manifestFilePath: Option<Path>;
    if Truthy(targetFile) {
      var parsed := Parse(targetFile.value);
      if parsed.base == LOCKFILE_NAME {
        lockfilePath := targetFile.value;
        manifestFilePath := FindManifestFile(env, parsed.dir);
      } else if parsed.base in MANIFEST_FILE_NAMES {
        if !Exists(env, Normalize(targetFile.value)) {
          return Failure(TargetFileMissing(targetFile.value));
        }
        manifestFilePath := Some(targetFile.value);
        var found := ExpectToFindLockfile(env, parsed.dir);
        if found.Failure? {
          return Failure(found.error);
        }
        lockfilePath := found.value;
      } else {
        return Failure(UnexpectedTargetFileName);
      }
    } else {
      manifestFilePath := FindManifestFile(env, ".");
      var found := ExpectToFindLockfile(env, ".");
      if found.Failure? {
        return Failure(found.error);
      }
      lockfilePath := found.value;
    }
    r := Success(Resolution(manifestFilePath, lockfilePath));
  }

  // ---------------------------------------------------------------------
  // Properties of the resolution

  /** No hint: the manifest is the first existing one in the root, and `Podfile.lock` must exist whatever manifests there are. */
  lemma ResolveWithoutHint(env: Env)
    ensures Resolve(env, None) == Resolve(env, Some(""))
    ensures Resolve(env, None).Failure? <==> LOCKFILE_NAME !in env.files
    ensures Resolve(env, None).Failure? ==> Resolve(env, None).error == LockfileNotFound
    ensures Resolve(env, None).Success? ==>
      Resolve(env, None).value == Resolution(ManifestIn(env, "."), LOCKFILE_NAME)
  {
  }

  /** A lockfile hint is taken verbatim, never checked for existence, and the manifest is searched in its directory only. */
  lemma ResolveLockfileHint(env: Env, hint: Path)
    requires Parse(hint).base == LOCKFILE_NAME
    ensures Resolve(env, Some(hint)) == Success(Resolution(ManifestIn(env, Parse(hint).dir), hint))
  {
  }

  /** A manifest hint must exist; then it is the manifest and the lockfile of its directory must exist too. */
  lemma ResolveManifestHint(env: Env, hint: Path)
    requires Parse(hint).base in MANIFEST_FILE_NAMES
    ensures !Exists(env, Normalize(hint)) ==> Resolve(env, Some(hint)) == Failure(TargetFileMissing(hint))
    ensures Exists(env, Normalize(hint)) && !Exists(env, Join(Parse(hint).dir, LOCKFILE_NAME)) ==>
      Resolve(env, Some(hint)) == Failure(LockfileNotFound)
    ensures Exists(env, Normalize(hint)) && Exists(env, Join(Parse(hint).dir, LOCKFILE_NAME)) ==>
      Resolve(env, Some(hint)) == Success(Resolution(Some(hint), Join(Parse(hint).dir, LOCKFILE_NAME)))
    ensures HasNoSlash(hint) || (Parse(hint).dir != "" && Parse(hint).dir != ".") ==>
      (Exists(env, Normalize(hint)) <==> hint in env.files)
  {
    if HasNoSlash(hint) || (Parse(hint).dir != "" && Parse(hint).dir != ".") {
      JoinParse(hint);
    }
    assert Parse(hint).base != LOCKFILE_NAME by {
      assert LOCKFILE_NAME !in MANIFEST_FILE_NAMES;
    }
  }

  /** A hint with any other base name is refused, whatever the files. */
  lemma ResolveUnexpectedHint(env: Env, hint: Path)
    requires hint != ""
    requires Parse(hint).base != LOCKFILE_NAME && Parse(hint).base !in MANIFEST_FILE_NAMES
    ensures Resolve(env, Some(hint)) == Failure(UnexpectedTargetFileName)
  {
  }

  /** A manifest the search finds is one of the recognised names in that directory, so never the empty path. */
  lemma ManifestInShape(env: Env, dir: Path)
    ensures ManifestIn(env, dir).Some? ==>
      Parse(ManifestIn(env, dir).value) == Parsed(Canonical(dir), Parse(ManifestIn(env, dir).value).base)
      && Parse(ManifestIn(env, dir).value).base in MANIFEST_FILE_NAMES
      && ManifestIn(env, dir).value != ""
  {
    var r := ManifestIn(env, dir);
    if r.Some? {
      FirstExistingIsFirst(env, dir, MANIFEST_FILE_NAMES);
      var k: nat :| IsFirstExisting(env, dir, MANIFEST_FILE_NAMES, k) && r.value == Join(dir, MANIFEST_FILE_NAMES[k]);
      NoSlashInNames();
      ParseJoin(dir, MANIFEST_FILE_NAMES[k]);
    }
  }

  lemma NoSlashInNames()
    ensures forall k :: 0 <= k < |MANIFEST_FILE_NAMES| ==> HasNoSlash(MANIFEST_FILE_NAMES[k])
    ensures HasNoSlash(LOCKFILE_NAME)
  {
  }

  /**
   * Whatever resolution succeeds with, the two files lie in the same
   * directory, and it names a real manifest and a `Podfile.lock`.
   */
  lemma ResolvedInOneDirectory(env: Env, targetFile: Option<Path>)
    requires Resolve(env, targetFile).Success?
    ensures var res := Resolve(env, targetFile).value;
      && Parse(res.lockfilePath).base == LOCKFILE_NAME
      && (res.manifestFilePath.Some? ==>
            && Parse(res.manifestFilePath.value).base in MANIFEST_FILE_NAMES
            && Truthy(res.manifestFilePath)
            && Canonical(Parse(res.manifestFilePath.value).dir) == Canonical(Parse(res.lockfilePath).dir))
  {
    var res := Resolve(env, targetFile).value;
    NoSlashInNames();
    if Truthy(targetFile) {
      var parsed := Parse(targetFile.value);
      if parsed.base == LOCKFILE_NAME {
        ManifestInShape(env, parsed.dir);
      } else {
        ParseJoin(parsed.dir, LOCKFILE_NAME);
      }
    } else {
      ManifestInShape(env, ".");
      ParseJoin(".", LOCKFILE_NAME);
    }
  }

  /** A resolved manifest path is never empty, so JavaScript treats it as present. */
  lemma ResolvedManifestTruthy(env: Env, targetFile: Option<Path>)
    requires Resolve(env, targetFile).Success?
    ensures Truthy(Resolve(env, targetFile).value.manifestFilePath)
        <==> Resolve(env, targetFile).value.manifestFilePath.Some?
  {
    ResolvedInOneDirectory(env, targetFile);
  }

  /**
   * Naming the resolved root lockfile or manifest explicitly gives the same
   * pair as resolving without a hint, as long as no manifest of higher
   * priority sits beside the hinted one.
   */
  lemma HintRoundTrip(env: Env, hint: Path)
    requires Resolve(env, None).Success?
    requires hint == LOCKFILE_NAME || (hint in MANIFEST_FILE_NAMES && ManifestIn(env, ".") == Some(hint))
    ensures Resolve(env, Some(hint)) == Resolve(env, None)
  {
    NoSlashInNames();
    ParseParts(hint);
    if hint != LOCKFILE_NAME {
      FirstExistingIsFirst(env, ".", MANIFEST_FILE_NAMES);
      var k: nat :| IsFirstExisting(env, ".", MANIFEST_FILE_NAMES, k) && hint == Join(".", MANIFEST_FILE_NAMES[k]);
      assert Exists(env, hint);
      NormalizeJoin(".", hint);
    } else {
      FirstExistingRootSpelling(env, MANIFEST_FILE_NAMES);
    }
  }

  /** The root searched as "" and as "." is the same search. */
  lemma {:induction false} FirstExistingRootSpelling(env: Env, names: seq<string>)
    ensures FirstExisting(env, "", names) == FirstExisting(env, ".", names)
    decreases |names|
  {
    if names != [] {
      FirstExistingRootSpelling(env, names[1..]);
    }
  }
}
