/** Global Node package operations through the selected manager (src/node/manager.rs). */
module NodeManager {
  import opened Common
  import opened Strings
  import opened Process
  import opened NodeTypes
  import PackageSpec
  import Homebrew

  /** The probe for a Node runtime: `node --version`. */
  const NodeProbe: Command := Command("node", ["--version"])

  /** What is handed to the manager: `name@version`, or the bare name. */
  function PackageTarget(name: string, version: Option<string>): string {
    match version
    case None => name
    case Some(v) => name + "@" + v
  }

  /** For a name without '@', the target parses back into the name and version it was built from. */
  lemma PackageTargetRoundTrip(name: string, version: Option<string>)
    requires '@' !in name
    ensures PackageSpec.ParsePackageSpec(PackageTarget(name, version)) == (name, version)
  {
    match version
    case None =>
    case Some(v) => PackageSpec.ParsePackageSpecUnique(name + "@" + v, name, v);
  }

  /**
   * What installing Node through Homebrew does: Homebrew itself must be available, the
   * formula registry must know "node", and then the one install command decides.
   */
  function NodeInstall(p: Platform, sh: Shell, reg: Homebrew.Registry): (n: Homebrew.Run<Unit>)
    ensures n.result.Ok? <==>
              (reg.brewOnPath || reg.installHomebrew.Ok?)
              && Homebrew.RegistryLookup(reg, "node", Some(Homebrew.FormulaPackage)).Ok?
              && Homebrew.RegistryLookup(reg, "node", Some(Homebrew.FormulaPackage)).value.Some?
              && Success(sh(Homebrew.InstallCommand(p, "node")))
    ensures forall c :: c in n.trace ==> c.program == BrewProgram(p)
  {
    if !reg.brewOnPath && reg.installHomebrew.Err? then Homebrew.Run(reg.installHomebrew, [])
    else
      match Homebrew.RegistryLookup(reg, "node", Some(Homebrew.FormulaPackage))
      case Err(e) => Homebrew.Run(Err(e), [])
      case Ok(None) => Homebrew.Run(Err(PackageNotFound("node")), [])
      case Ok(Some(_)) =>
        Homebrew.Run(Verdict(sh(Homebrew.InstallCommand(p, "node")), BrewProgram(p), InstallFailed("node")),
                     [Homebrew.InstallCommand(p, "node")])
  }

  class NodeManager {
    const packageManager: NodePackageManager

    constructor (m: NodePackageManager)
      ensures packageManager == m
    {
      packageManager := m;
    }

    function InstallCommandFor(name: string, version: Option<string>): Command {
      Command(CommandName(packageManager), InstallArgs(packageManager) + [PackageTarget(name, version)])
    }

    /** Node counts as installed when `node --version` runs and exits with status 0. */
    method IsNodeInstalled(sh: Shell) returns (installed: bool, trace: seq<Command>)
      ensures trace == [NodeProbe]
      ensures installed <==> Success(sh(NodeProbe))
    {
      trace := [NodeProbe];
      var o := sh(NodeProbe);
      installed := o.Exited? && o.code == 0;
    }

    /**
     * Installs a package globally.  Without a Node runtime, Node is installed through
     * Homebrew first and a failure there ends the call; the manager's command is the last
     * one issued, and only its exit status decides the outcome.
     */
    method InstallPackage(p: Platform, sh: Shell, reg: Homebrew.Registry, name: string, version: Option<string>)
      returns (r: Result<Unit>, trace: seq<Command>)
      ensures |trace| > 0 && trace[0] == NodeProbe
      ensures Success(sh(NodeProbe)) ==>
                trace == [NodeProbe, InstallCommandFor(name, version)]
                && r == Verdict(sh(InstallCommandFor(name, version)), CommandName(packageManager), InstallFailed(name))
      ensures InstallCommandFor(name, version) in trace ==>
                trace[|trace| - 1] == InstallCommandFor(name, version)
                && r == Verdict(sh(InstallCommandFor(name, version)), CommandName(packageManager), InstallFailed(name))
      ensures !Success(sh(NodeProbe)) && InstallCommandFor(name, version) in trace ==>
                |trace| >= 3 && trace[|trace| - 2] == Homebrew.InstallCommand(p, "node") && Success(sh(trace[|trace| - 2]))
      ensures !Success(sh(NodeProbe)) ==>
                var n := NodeInstall(p, sh, reg);
                (n.result.Err? ==> r == n.result && trace == [NodeProbe] + n.trace)
                && (n.result.Ok? ==>
                      trace == [NodeProbe] + n.trace + [InstallCommandFor(name, version)]
                      && r == Verdict(sh(InstallCommandFor(name, version)), CommandName(packageManager), InstallFailed(name)))
      ensures InstallCommandFor(name, version) !in trace ==> r.Err?
      ensures r.Ok? ==> Success(sh(InstallCommandFor(name, version)))
    {
      var target := InstallCommandFor(name, version);
      assert target.program != BrewProgram(p) && target.program != NodeProbe.program;
      var installed;
      installed, trace := IsNodeInstalled(sh);
      if !installed {
        var nodeResult, nodeTrace := InstallNode(p, sh, reg);
        assert target !in nodeTrace;
        trace := trace + nodeTrace;
        assert target !in trace;
        if nodeResult.Err? {
          return Err(nodeResult.error), trace;
        }
        assert |trace| >= 2 && trace[|trace| - 1] == Homebrew.InstallCommand(p, "node");
      }
      var args := InstallArgs(packageManager);
      args := args + [PackageTarget(name, version)];
      var cmd := Command(CommandName(packageManager), args);
      assert cmd == target;
      trace := trace + [cmd];
      r := Verdict(sh(cmd), CommandName(packageManager), InstallFailed(name));
    }

    /** Installs Node through Homebrew, as the formula "node" at its latest version. */
    static method InstallNode(p: Platform, sh: Shell, reg: Homebrew.Registry) returns (r: Result<Unit>, trace: seq<Command>)
      ensures Homebrew.Run(r, trace) == NodeInstall(p, sh, reg)
      ensures forall c :: c in trace ==> c.program == BrewProgram(p)
      ensures r.Ok? ==> |trace| > 0 && trace[|trace| - 1] == Homebrew.InstallCommand(p, "node") && Success(sh(trace[|trace| - 1]))
    {
      r, trace := Homebrew.InstallFormulaVersion(p, sh, reg, "node", None, false);
    }

    /** Uninstalls a package globally: one command, whose non-zero exit is an error. */
    method UninstallPackage(sh: Shell, name: string) returns (r: Result<Unit>, trace: seq<Command>)
      ensures trace == [Command(CommandName(packageManager), UninstallArgs(packageManager) + [name])]
      ensures r == Verdict(sh(trace[0]), CommandName(packageManager), UninstallFailed(name))
    {
      var args := UninstallArgs(packageManager);
      args := args + [name];
      var cmd := Command(CommandName(packageManager), args);
      trace := [cmd];
      r := Verdict(sh(cmd), CommandName(packageManager), UninstallFailed(name));
    }

    /** Updates the named packages (all of them when none is named) in one command. */
    method UpdatePackages(sh: Shell, packages: seq<string>) returns (r: Result<Unit>, trace: seq<Command>)
      ensures trace == [Command(CommandName(packageManager), UpdateArgs(packageManager) + packages)]
      ensures r == Verdict(sh(trace[0]), CommandName(packageManager), UpdateFailed)
    {
      var args := UpdateArgs(packageManager);
      args := args + packages;
      var cmd := Command(CommandName(packageManager), args);
      trace := [cmd];
      r := Verdict(sh(cmd), CommandName(packageManager), UpdateFailed);
    }

    /**
     * Lists the global packages: the lines the manager prints after its first (header) line.
     * A failed listing shows nothing and is not an error; a listing that cannot run is.
     */
    method ListPackages(sh: Shell) returns (r: Result<seq<string>>, trace: seq<Command>)
      ensures trace == [Command(CommandName(packageManager), ListArgs(packageManager))]
      ensures sh(trace[0]).SpawnFailed? <==> r.Err?
      ensures r.Err? ==> r.error == SpawnError(CommandName(packageManager))
      ensures sh(trace[0]).Exited? && !Success(sh(trace[0])) ==> r == Ok([])
      ensures Success(sh(trace[0])) ==>
                var lines := Lines(sh(trace[0]).stdout);
                r.Ok? && (lines == [] ==> r.value == []) && (lines != [] ==> [lines[0]] + r.value == lines)
    {
      var cmd := Command(CommandName(packageManager), ListArgs(packageManager));
      trace := [cmd];
      var o := sh(cmd);
      if o.SpawnFailed? {
        return Err(SpawnError(CommandName(packageManager))), trace;
      }
      if o.code != 0 {
        return Ok([]), trace;
      }
      var lines := Lines(o.stdout);
      r := Ok(if lines == [] then [] else lines[1..]);
    }
  }
}
