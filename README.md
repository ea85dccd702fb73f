# CocoaPods plugin: target-file resolution and strict out-of-sync check

A Dafny model of the decision core of the CocoaPods dependency-scanning
plugin (`lib/index.ts`). `inspect(root, targetFile?, options?)` does these steps:

1. It picks the manifest (`CocoaPods.podfile.yaml`, `CocoaPods.podfile`, `Podfile`, `Podfile.rb`, in that
   priority order; optional) and the lockfile (`Podfile.lock`; mandatory).
2. It routes a target-file hint by its base name.
3. In strict mode it compares the manifest's digest with the checksum recorded in the lockfile.
4. It probes the CocoaPods version (`bundle exec pod --version`, then
   `pod --version`).
5. It assembles the result.

The world `inspect` observes is a value `Environment.Env`. It holds:
- the set of existing paths, relative to the root;
- the contents of the readable files;
- the lockfile parser's verdict on each lockfile;
- the digest function, which is left uninterpreted.

The subprocess is a total function from an invocation (command, arguments, working directory) to
success with its output, or failure. Errors are the datatype
`Errors.InspectError`. Its messages are the source's own text. Only the out-of-sync error carries
status code 422.

Modules:
- `Paths`: the `path.parse` / `path.join` subset.
- `Text`: JavaScript `trim`.
- `Errors`.
- `Environment`: file reads, lockfile reads, `getAllDeps`.
- `Resolver`: `findManifestFile`, `findLockfile`, the hint branching.
- `Checksum`: `verifyChecksum`.
- `VersionProbe`: `cocoapodsVersion`.
- `Plugin`: the options object, `inspect` and its properties.

`Plugin.Inspect` is imperative, as is the source. It sets a missing `strictOutOfSync`
to false on the caller's options object. It then runs the rest of the body, `Plugin.InspectWith`.
Its result equals the pure specification `Plugin.InspectOutcome`, and the lemmas of `Plugin` are
stated about that specification. The
branching that assigns `manifestFilePath` and `lockfilePath` is the method
`Resolver.ResolveFiles`, which `Inspect` calls. `findManifestFile` is a loop with an early return
(`Resolver.FindManifestFile`). It is proved equal to the recursive specification
`Resolver.FirstExisting`.

JavaScript truthiness is modelled where the source relies on it:
- an empty `targetFile` counts as no hint;
- an empty `subProject` counts as none;
- strict mode is on only for `strictOutOfSync === true`;
- `manifestFilePath || lockfilePath` tests for a non-empty manifest path.

Two behaviours follow the code rather than what a reader or its tests might expect:
- When both version probes fail, the runtime is the empty string. The test at
  `test/lib/index.test.ts:72` expects a placeholder, but the code yields `""`.
- In strict mode, a lockfile that cannot be parsed fails with the parser's error unwrapped. Only the later
  dependency extraction adds the "Error while parsing Podfile.lock" prefix.

## Model

| member | source | states |
|---|---|---|
| `Paths.Parse` | lib/index.ts:62 | definition of `path.parse`'s dir/base split; its properties are the lemmas `Paths.ParseParts` and `Paths.ParseJoin` |
| `Paths.Join` | lib/index.ts:136-138 | definition of `path.join` for a directory and a file name; its properties are the lemmas `Paths.ParseJoin` and `Paths.NormalizeJoin` |
| `Paths.Normalize` | lib/index.ts:67-68 | definition of the normal form used for existence checks; its properties are the lemmas `Paths.NormalizeJoin` and `Paths.JoinParse` |
| `Paths.LastSlash` | lib/index.ts:62 | the index of the last '/', and none exactly when the path has no '/' |
| `Paths.ParseParts` | lib/index.ts:62 | the base has no '/'. A path without '/' is all base. Otherwise dir, '/' and base give the path back |
| `Paths.ParseJoin` | lib/index.ts:136-138 | parsing `dir/name` gives back `name` and the directory, with "." read as the root |
| `Paths.NormalizeJoin` | lib/index.ts:136-138 | a joined path is already in the normal form used for lookups |
| `Paths.JoinParse` | lib/index.ts:67-68 | normalising a path that does not spell out the root as its directory leaves it unchanged |
| `Text.TrimStart` | lib/index.ts:193 | the result is the longest suffix not starting with white space; all removed characters are white space |
| `Text.TrimEnd` | lib/index.ts:193 | the result is the longest prefix not ending in white space; all removed characters are white space |
| `Text.Trim` | lib/index.ts:193 | definition of `String.prototype.trim`; its properties are the lemmas `Text.TrimIsSlice`, `Text.TrimRemovesOnlyWhitespace`, `Text.TrimEndsWithoutWhitespace` and `Text.TrimIdempotent` |
| `Text.TrimIsSlice` | lib/index.ts:193 | the trimmed text is the slice of the input that follows its leading white space |
| `Text.TrimRemovesOnlyWhitespace` | lib/index.ts:193 | every character removed before or after that slice is white space |
| `Text.TrimEndsWithoutWhitespace` | lib/index.ts:193 | the trimmed text neither starts nor ends with white space |
| `Text.TrimIdempotent` | lib/index.ts:193 | trimming twice equals trimming once |
| `Errors.Message` | lib/index.ts:48-203 | definition of each error's text, matching the literals at lines 48, 55, 69, 74, 85, 91-92, 174 and 201-203; its properties are the lemmas `Errors.OutOfSyncMessageNamesBoth` and `Errors.OutOfSyncMessageDetermines` |
| `Errors.Name` | lib/index.ts:196-198 | the name is `OutOfSyncError` exactly for the out-of-sync error |
| `Errors.Code` | lib/index.ts:196-197 | a status code exists exactly for the out-of-sync error, and it is 422 |
| `Errors.OutOfSyncMessageNamesBoth` | lib/index.ts:200-203 | the out-of-sync message holds the manifest path, then the lockfile path, each at a fixed place between the fixed texts |
| `Errors.OutOfSyncMessageDetermines` | lib/index.ts:200-203 | for file names of given lengths the message determines both names |
| `Environment.ReadFile` | lib/index.ts:122-132 | reading succeeds exactly for a readable file and yields its contents. Otherwise it fails with ENOENT naming the absolute path |
| `Environment.ReadLockfile` | lib/index.ts:159 | an unopenable lockfile fails with ENOENT. A rejected one fails with the parser's message. An accepted one yields the parsed lockfile |
| `Environment.GetAllDeps` | lib/index.ts:169-178 | the tree of a readable lockfile. Any read error is re-raised with the "Error while parsing Podfile.lock" prefix around its message |
| `Resolver.FirstExisting` | lib/index.ts:134-141 | definition of the first-existing search; its properties are the lemmas `Resolver.FirstExistingIsFirst` and `Resolver.FirstExistingRootSpelling` |
| `Resolver.FirstExistingIsFirst` | lib/index.ts:134-141 | nothing exactly when no `dir/name` exists. Otherwise it is `dir/names[k]`, which exists, and no earlier name exists |
| `Resolver.ManifestIn` | lib/index.ts:134-141 | definition: the search over the four manifest names in priority order; its properties are the lemmas `Resolver.ManifestInShape` and `Resolver.FirstExistingIsFirst` |
| `Resolver.FindManifestFile` | lib/index.ts:134-141 | the loop with early return finds the first existing manifest in priority order (equals `FirstExisting` over the four names) |
| `Resolver.FindLockfile` | lib/index.ts:143-148 | `dir/Podfile.lock` exactly when it exists, nothing otherwise |
| `Resolver.ExpectToFindLockfile` | lib/index.ts:52-58 | fails with the "Could not find lockfile" error exactly when `dir/Podfile.lock` does not exist |
| `Resolver.Resolve` | lib/index.ts:60-79 | definition of the hint branching; its properties are the lemmas `Resolver.ResolveWithoutHint`, `Resolver.ResolveLockfileHint`, `Resolver.ResolveManifestHint`, `Resolver.ResolveUnexpectedHint`, `Resolver.ResolvedInOneDirectory` and `Resolver.HintRoundTrip` |
| `Resolver.ResolveFiles` | lib/index.ts:60-79 | the branching over the hint assigns the manifest and lockfile the resolution specification prescribes |
| `Resolver.ResolveWithoutHint` | lib/index.ts:76-79 | without a hint (or with an empty one) the manifest is the root's first existing one. A missing `Podfile.lock` fails with `LockfileNotFound` whatever manifests exist |
| `Resolver.ResolveLockfileHint` | lib/index.ts:63-65 | a `Podfile.lock` hint is the lockfile, taken verbatim and never checked for existence. The manifest is searched in the hint's directory only and may be absent |
| `Resolver.ResolveManifestHint` | lib/index.ts:66-72 | a manifest-named hint that does not exist fails with "doesn't exist". Otherwise it is the manifest, and the lockfile of its directory must exist. For a hint that is a bare name or has an ordinary directory, existence means the hint itself is a file |
| `Resolver.ResolveUnexpectedHint` | lib/index.ts:73-75 | any other base name fails with "Unexpected name for target file!", whatever the files |
| `Resolver.ResolvedInOneDirectory` | lib/index.ts:61-79 | on success the lockfile is a `Podfile.lock` and a manifest has a recognised name. Both lie in the same directory |
| `Resolver.ResolvedManifestTruthy` | lib/index.ts:84 | a resolved manifest path is never empty, so the source's truthiness tests mean "present" |
| `Resolver.HintRoundTrip` | lib/index.ts:61-79 | naming the root lockfile or the root's chosen manifest as hint resolves to the same pair as no hint |
| `Resolver.FirstExistingRootSpelling` | lib/index.ts:134-138 | searching the root as "" (a bare hint's directory) or as "." (the default) finds the same manifest |
| `Checksum.Classify` | lib/index.ts:160-166 | `NoChecksumInLockfile` exactly when no checksum is recorded. `Valid` exactly when it equals the digest (exact string equality). `Invalid` exactly otherwise |
| `Checksum.VerifyChecksum` | lib/index.ts:156-167 | a manifest read error comes first, then the lockfile's error, unwrapped. When both reads succeed, verification succeeds with `Classify` of the recorded checksum against the manifest contents' digest |
| `Checksum.EditedManifestIsInvalid` | lib/index.ts:156-166 | a lockfile recording the digest of other manifest text classifies as `Invalid` |
| `VersionProbe.CocoapodsVersion` | lib/index.ts:180-194 | bundler first. `pod` only when bundler fails. The version is the trimmed output of the first success, or `""` when both fail. The method never fails |
| `VersionProbe.ProbeVersion` | lib/index.ts:180-194 | definition of the reported runtime; its connection to the imperative probe is `VersionProbe.CocoapodsVersion`, and its property is the lemma `VersionProbe.ProbeVersionTrimmed` |
| `VersionProbe.ProbeVersionTrimmed` | lib/index.ts:193 | the reported runtime never starts or ends with white space |
| `Plugin.ReportedTargetFile` | lib/index.ts:103 | the manifest path when one is present, else the lockfile path |
| `Plugin.StrictCheck` | lib/index.ts:83-97 | no manifest fails with the "no manifest file" error. Otherwise: `Valid` passes, `NoChecksumInLockfile` gives the "doesn't encode checksum" error, `Invalid` gives `OutOfSync(manifest, lockfile)`, and read errors propagate |
| `Plugin.InspectOutcome` | lib/index.ts:47-109 | definition of the steps of `inspect`; its properties are the `Plugin` lemmas from `Plugin.SubProjectAlwaysRejected` to `Plugin.LaxIgnoresManifestContents`, and `Plugin.InspectWith` is proved equal to it |
| `Plugin.InspectResolved` | lib/index.ts:83-109 | definition of the steps after resolution: strict gate, probe, dependency tree; its property is the lemma `Plugin.StrictParserErrorUnwrapped`, and the lemmas about `Plugin.InspectOutcome` reach it through that definition |
| `Plugin.Inspect` | lib/index.ts:35-110 | defaults a missing `strictOutOfSync` to false on the caller's options and changes nothing else. The result equals `InspectOutcome` of the original options |
| `Plugin.InspectWith` | lib/index.ts:47-109 | once the options are defaulted, the sequence of steps returns exactly `InspectOutcome`: subProject check, resolution, strict gate, probe, then dependency tree |
| `Plugin.SubProjectAlwaysRejected` | lib/index.ts:47-49 | a `subProject` fails with the fixed message before any lookup, for every other input |
| `Plugin.StrictDefaultsToFalse` | lib/index.ts:40-45 | an absent `strictOutOfSync` behaves as `false` |
| `Plugin.UnexpectedHintFailsEarly` | lib/index.ts:73-75 | an unrecognised hint fails the same way in strict mode too, whatever the contents, lockfiles and subprocess |
| `Plugin.SuccessfulInspection` | lib/index.ts:99-109 | a result has name `cocoapods` and an empty `meta`. Its runtime is the probe's. Its target file is the manifest if resolved, else the lockfile. Its package is the lockfile's tree |
| `Plugin.StrictNeedsManifest` | lib/index.ts:84-86 | strict mode without a manifest fails with the "no manifest file could be found" error |
| `Plugin.StrictNoChecksumIsNotOutOfSync` | lib/index.ts:90-93 | a lockfile without a checksum fails strict mode with the "doesn't encode checksum" error. That error has no status code and is not an `OutOfSyncError` |
| `Plugin.StrictMismatchIsOutOfSync` | lib/index.ts:94-96 | a mismatching checksum fails strict mode with `OutOfSyncError`, named after both paths, code 422 |
| `Plugin.StrictMatchProceeds` | lib/index.ts:83-97 | a matching checksum makes the strict inspection equal to the lax one |
| `Plugin.StrictParserErrorUnwrapped` | lib/index.ts:169-175 | a lockfile the parser rejects fails strict mode with the parser's own error. The lax inspection fails with the wrapped parse error |
| `Plugin.MissingLockfileHintFailsAtParse` | test/lib/index.test.ts:103-110 | a lockfile hint naming no file passes resolution. It fails only at parse time, with the wrapped ENOENT error |
| `Plugin.ProbeNeverFailsInspection` | lib/index.ts:180-194 | whatever the subprocess does, the outcomes fail alike or succeed alike. Successes differ only in the runtime |
| `Plugin.LaxIgnoresManifestContents` | lib/index.ts:83-97 | outside strict mode, manifest contents and digest do not affect the outcome |
| `Plugin.ResolveIgnoresContents` | lib/index.ts:134-148 | resolution depends on file existence only |

## Left out

- `lib/sub-process.ts` is not part of this model. That covers `child_process.spawn`, the output listeners, the Windows shell switch and `shescape` quoting. A subprocess call is an abstract function returning success with its text or failure.
- The SHA-1 digest is an uninterpreted function `Env.digest` over the manifest text.
- The lockfile parser, `toDepGraph` and `graphToDepTree` are external collaborators. A lockfile is what the parser yields for it: an optional checksum and an opaque dependency tree, or the parser's error message.
- File reads and existence checks (`fsExists`, `fsReadFile`, promises, async) are lookups in the environment's set and maps. The only I/O error modelled is ENOENT for a missing file.
- Node path normalisation is limited to treating the directories "" and "." as the root. The model does not handle a directory written with a leading `./` (such as `./sub/Podfile`), `..`, repeated or trailing separators, an absolute `/` directory or Windows separators. A manifest hint of this form is looked up unnormalised, so `Resolve` reports it missing (`TargetFileMissing`) although the source finds `sub/Podfile` and continues with `sub/Podfile.lock`.
- The compile-time plugin-interface check (lib/index.ts:13-20) and the error's captured stack trace are left out.
- `Plugin.Inspect` discards `CocoapodsVersion`'s call trace, as the source does. The call order is stated on `VersionProbe.CocoapodsVersion` alone.
- The `dev` option has no effect on the core. It is carried but never read.
