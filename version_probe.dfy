/**
 * `cocoapodsVersion`: ask CocoaPods for its version, first through bundler,
 * then directly, and never fail.
 */
module VersionProbe {
  import opened Wrappers
  import opened Paths
  import opened Text

  /** One call of the subprocess helper: a command, its arguments and the working directory. */
  datatype Invocation = Invocation(command: string, args: seq<string>, cwd: Path)

  /**
   * What the host answers to an invocation: the text the process printed
   * (its standard output, or its standard error when that is empty) on exit
   * code 0, or a failure otherwise.
   */
  type ExecResult = Result<string, string>

  function Bundled(root: Path): Invocation {
    Invocation("bundle exec pod", ["--version"], root)
  }

  function Direct(root: Path): Invocation {
    Invocation("pod", ["--version"], root)
  }

  /** The raw output the probe keeps: that of the first call that succeeds, else the empty string. */
  function ProbeOutput(root: Path, exec: Invocation -> ExecResult): string {
    match exec(Bundled(root))
    case Success(output) => output
    case Failure(_) =>
      match exec(Direct(root))
      case Success(output) => output
      case Failure(_) => ""
  }

  /** The runtime version the probe reports: its output, trimmed. */
  function ProbeVersion(root: Path, exec: Invocation -> ExecResult): string {
    Trim(ProbeOutput(root, exec))
  }

  /**
   * The probe: `calls` are the invocations made, in order.  The bundled
   * command always goes first; the bare `pod` is tried only when it fails;
   * the version is the trimmed output of the first call that succeeds, or
   * empty when both fail.
   */
  method CocoapodsVersion(root: Path, exec: Invocation -> ExecResult)
    returns (version: string, calls: seq<Invocation>)
    ensures |calls| >= 1 && calls[0] == Bundled(root)
    ensures |calls| == 1 <==> exec(Bundled(root)).Success?
    ensures |calls| != 1 ==> calls == [Bundled(root), Direct(root)]
    ensures exec(Bundled(root)).Success? ==> version == Trim(exec(Bundled(root)).value)
    ensures exec(Bundled(root)).Failure? && exec(Direct(root)).Success? ==>
      version == Trim(exec(Direct(root)).value)
    ensures exec(Bundled(root)).Failure? && exec(Direct(root)).Failure? ==> version == ""
    ensures version == ProbeVersion(root, exec)
  {
    var podVersionOutput := "";
    calls := [Bundled(root)];
    var bundled := exec(Bundled(root));
    if bundled.Success? {
      podVersionOutput := bundled.value;
    } else {
      calls := calls + [Direct(root)];
      var direct := exec(Direct(root));
      if direct.Success? {
        podVersionOutput := direct.value;
      }
    }
    version := Trim(podVersionOutput);
  }

  /** The reported version never starts or ends with white space. */
  lemma ProbeVersionTrimmed(root: Path, exec: Invocation -> ExecResult)
    ensures var v := ProbeVersion(root, exec);
      v != [] ==> !IsWhitespace(v[0]) && !IsWhitespace(v[|v| - 1])
  {
    TrimEndsWithoutWhitespace(ProbeOutput(root, exec));
  }
}
