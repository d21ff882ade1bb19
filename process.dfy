/**
 * The outside world as the tool sees it: child processes run by program name and
 * argument vector, and HTTP replies.  Both are oracles: the model never runs anything.
 */
module Process {
  import opened Common

  /** The host operating system (a build-time switch in the tool, a plain value here). */
  datatype Platform = Windows | MacOS | Linux

  /** The host CPU architecture. */
  datatype Arch = Aarch64 | X86_64 | OtherArch

  /** One child-process invocation: the program and its argument vector. */
  datatype Command = Command(program: string, args: seq<string>)

  /** What running a command gives: its exit status and captured output, or a failure to spawn it. */
  datatype Outcome = Exited(code: int, stdout: string) | SpawnFailed

  /** The backend: what each command would do if the tool ran it now. */
  type Shell = Command -> Outcome

  predicate Success(o: Outcome) {
    o.Exited? && o.code == 0
  }

  /**
   * How a step that waits for its child turns out: a child that could not be run is an
   * I/O error, exit status 0 is success, any other status is the step's own error.
   */
  function Verdict(o: Outcome, program: string, failure: Error): (r: Result<Unit>)
    ensures r.Ok? <==> Success(o)
    ensures o.SpawnFailed? ==> r == Err(SpawnError(program))
    ensures o.Exited? && o.code != 0 ==> r == Err(failure)
  {
    match o
    case SpawnFailed => Err(SpawnError(program))
    case Exited(code, _) => if code == 0 then Ok(Unit) else Err(failure)
  }

  /** The Homebrew executable's name on the host. */
  function BrewProgram(p: Platform): string {
    if p == Windows then "brew.exe" else "brew"
  }

  function Brew(p: Platform, args: seq<string>): Command {
    Command(BrewProgram(p), args)
  }

  /** A reply to an HTTP request: the request failed, or a status and the decoded body (None: decoding failed). */
  datatype HttpReply<T> = RequestFailed | Reply(status: int, body: Option<T>)

  /** `reqwest::StatusCode::is_success`. */
  predicate IsSuccess(status: int) {
    200 <= status < 300
  }
}
