/**
 * Running an arbitrary command through the tool: a program that is not on the search path
 * is installed first, then run with the remaining arguments (src/command_handler.rs).
 */
module CommandHandler {
  import opened Common
  import opened Strings
  import opened Process

  /** The executable to look up and run: on Windows ".exe" is appended unless already there. */
  function ExecutableName(p: Platform, command: string): (name: string)
    ensures p != Windows ==> name == command
    ensures p == Windows ==> EndsWith(name, ".exe")
    ensures p == Windows && EndsWith(command, ".exe") ==> name == command
    ensures p == Windows && !EndsWith(command, ".exe") ==> |name| == |command| + 4 && name[..|command|] == command
  {
    if p == Windows && !EndsWith(command, ".exe") then command + ".exe" else command
  }

  /** Naming the executable twice adds nothing more. */
  lemma ExecutableNameIdempotent(p: Platform, command: string)
    ensures ExecutableName(p, ExecutableName(p, command)) == ExecutableName(p, command)
  {
  }

  /**
   * Runs `args[0]` with `args[1..]`.  `onPath` says whether an executable is found on the
   * search path and `autoInstall` is the result of installing a package of that name.  When
   * the command is missing and cannot be installed the call ends quietly, without running
   * anything; otherwise the command is run once and its exit status decides the outcome.
   */
  method HandleCommand(p: Platform, sh: Shell, onPath: string -> bool, autoInstall: string -> Result<Unit>, args: seq<string>)
    returns (r: Result<Unit>, trace: seq<Command>)
    requires |args| > 0
    ensures var name := ExecutableName(p, args[0]);
            !onPath(name) && autoInstall(args[0]).Err? ==> r == Ok(Unit) && trace == []
    ensures var name := ExecutableName(p, args[0]);
            onPath(name) || autoInstall(args[0]).Ok? ==>
              trace == [Command(name, args[1..])]
              && (sh(trace[0]).SpawnFailed? ==> r == Err(SpawnError(name)))
              && (sh(trace[0]).Exited? ==> (r.Ok? <==> sh(trace[0]).code == 0))
              && (sh(trace[0]).Exited? && sh(trace[0]).code != 0 ==> r == Err(CommandFailed(sh(trace[0]).code)))
  {
    var command := args[0];
    var name := ExecutableName(p, command);
    trace := [];
    if !onPath(name) {
      var installed := autoInstall(command);
      if installed.Err? {
        return Ok(Unit), trace;
      }
    }
    var cmd := Command(name, args[1..]);
    trace := [cmd];
    var status := sh(cmd);
    if status.SpawnFailed? {
      return Err(SpawnError(name)), trace;
    }
    if status.code != 0 {
      return Err(CommandFailed(status.code)), trace;
    }
    r := Ok(Unit);
  }
}
