/**
 * Homebrew: formula records, the version-fallback rule, search dispatch, and the command
 * sequences of install and uninstall (src/homebrew.rs).
 */
module Homebrew {
  import opened Common
  import opened Strings
  import opened Process

  /** A formula as Homebrew's JSON describes it (`versions.stable` flattened to `stable`). */
  datatype Formula = Formula(
    name: string,
    fullName: string,
    desc: Option<string>,
    homepage: Option<string>,
    stable: string,
    versionedFormulae: seq<string>,
    aliases: seq<string>,
    tap: Option<string>,
    license: Option<string>)

  /** A cask as the cask API describes it. */
  datatype Cask = Cask(
    token: string,
    desc: Option<string>,
    homepage: Option<string>,
    version: string,
    tap: Option<string>)

  datatype PackageType = FormulaPackage | CaskPackage

  /**
   * What the Homebrew side of the world answers besides child processes: whether `brew`
   * is on the search path, what running the Homebrew installer would return, how the
   * output of `brew info --json=v2` decodes (None: it does not), and the registry's replies.
   */
  datatype Registry = Registry(
    brewOnPath: bool,
    installHomebrew: Result<Unit>,
    decodeInfo: string -> Option<seq<Formula>>,
    fetchFormula: string -> HttpReply<Formula>,
    fetchCask: string -> HttpReply<Cask>)

  /** A result together with the commands issued to reach it, in order. */
  datatype Run<T> = Run(result: Result<T>, trace: seq<Command>)

  const FormulaApi: string := "https://formulae.brew.sh/api/formula"
  const CaskApi: string := "https://formulae.brew.sh/api/cask"

  /** The alias Homebrew uses for version `v` of formula `name`. */
  function VersionedName(name: string, v: string): string {
    name + "@" + v
  }

  /**
   * The name to install for a requested version: the versioned alias when the formula
   * lists it, the bare name otherwise (with a warning, never an error).
   */
  function InstallName(f: Formula, version: Option<string>): (r: string)
    ensures r == f.name || r in f.versionedFormulae
    ensures version.None? ==> r == f.name
    ensures version.Some? ==>
      (r == VersionedName(f.name, version.value) <==> VersionedName(f.name, version.value) in f.versionedFormulae)
    ensures version.Some? && VersionedName(f.name, version.value) !in f.versionedFormulae ==> r == f.name
  {
    match version
    case None => f.name
    case Some(v) =>
      var versioned := VersionedName(f.name, v);
      if |f.versionedFormulae| > 0 && versioned in f.versionedFormulae then versioned else f.name
  }

  /** The warning printed when a requested version falls back to the latest one. */
  datatype VersionWarning =
    | OtherVersions(latest: string, versions: seq<string>)
    | OnlyLatest(stable: string)
    | NoVersionInfo

  /** The version part of an alias: the text between its first and second '@', or "". */
  function AliasVersion(alias: string): string {
    var parts := Split(alias, '@');
    if |parts| > 1 then parts[1] else ""
  }

  /** Reading the version back out of a versioned alias gives the version it was made with. */
  lemma AliasVersionOfVersionedName(name: string, v: string)
    requires '@' !in name && '@' !in v
    ensures AliasVersion(VersionedName(name, v)) == v
  {
    assert VersionedName(name, v) == Join([name, v], '@');
    SplitJoin([name, v], '@');
  }

  /**
   * The warning shown when the requested version is not listed: the latest version and the
   * version of every alias, in order, when there are aliases; else the latest version alone
   * when it is known; else that there is no version information.
   */
  function FallbackWarning(f: Formula, version: Option<string>): (w: Option<VersionWarning>)
    ensures w.Some? <==> version.Some? && InstallName(f, version) == f.name
    ensures w.Some? && f.versionedFormulae != [] ==>
      w.value.OtherVersions? && w.value.latest == f.stable && |w.value.versions| == |f.versionedFormulae|
      && forall i :: 0 <= i < |f.versionedFormulae| ==> w.value.versions[i] == AliasVersion(f.versionedFormulae[i])
    ensures w.Some? && f.versionedFormulae == [] && f.stable != "" ==> w.value == OnlyLatest(f.stable)
    ensures w.Some? && f.versionedFormulae == [] && f.stable == "" ==> w.value == NoVersionInfo
  {
    match version
    case None => None
    case Some(v) =>
      if |f.versionedFormulae| > 0 && VersionedName(f.name, v) in f.versionedFormulae then None
      else if |f.versionedFormulae| > 0 then
        Some(OtherVersions(f.stable, seq(|f.versionedFormulae|, i requires 0 <= i < |f.versionedFormulae| =>
          AliasVersion(f.versionedFormulae[i]))))
      else if f.stable != "" then Some(OnlyLatest(f.stable))
      else Some(NoVersionInfo)
  }

  /** Every alias `name@u` of a formula listed in the warning shows its version u. */
  lemma FallbackListsAliasVersions(f: Formula, version: Option<string>, i: nat, u: string)
    requires FallbackWarning(f, version).Some?
    requires '@' !in f.name && '@' !in u
    requires i < |f.versionedFormulae| && f.versionedFormulae[i] == VersionedName(f.name, u)
    ensures FallbackWarning(f, version).value == OtherVersions(f.stable, FallbackWarning(f, version).value.versions)
    ensures FallbackWarning(f, version).value.versions[i] == u
  {
    AliasVersionOfVersionedName(f.name, u);
  }

  /** A cask presented as a formula, so that the rest of the tool handles both alike. */
  function CaskToFormula(c: Cask): Formula {
    Formula(c.token, c.token, c.desc, c.homepage, c.version, [], [], c.tap, None)
  }

  /** A cask has no versioned aliases, so whatever version is asked for, its token is installed. */
  lemma CaskInstallName(c: Cask, version: Option<string>)
    ensures InstallName(CaskToFormula(c), version) == c.token
    ensures CaskToFormula(c).name == CaskToFormula(c).fullName == c.token
    ensures CaskToFormula(c).stable == c.version && CaskToFormula(c).license.None?
    ensures version.Some? ==> FallbackWarning(CaskToFormula(c), version)
                                == Some(if c.version != "" then OnlyLatest(c.version) else NoVersionInfo)
  {
  }

  /** `owner/tap` of a qualified name `owner/tap/formula`. */
  function TapOf(name: string): string
    requires |Split(name, '/')| == 3
  {
    var parts := Split(name, '/');
    parts[0] + "/" + parts[1]
  }

  lemma JoinThree(parts: seq<string>)
    requires |parts| == 3
    ensures Join(parts, '/') == parts[0] + "/" + parts[1] + "/" + parts[2]
  {
    var tail := parts[1..];
    assert tail[1..] == [parts[2]];
    assert Join(tail[1..], '/') == parts[2];
    assert Join(tail, '/') == parts[1] + ['/'] + parts[2];
    assert Join(parts, '/') == parts[0] + ['/'] + (parts[1] + ['/'] + parts[2]);
  }

  /** A qualified name is its tap, a slash, and the formula's own name. */
  lemma TapOfQualifiedName(name: string)
    requires |Split(name, '/')| == 3
    ensures name == TapOf(name) + "/" + Split(name, '/')[2]
    ensures '/' in TapOf(name)
  {
    var parts := Split(name, '/');
    JoinSplit(name, '/');
    JoinThree(parts);
    assert TapOf(name)[|parts[0]|] == '/';
  }

  function TapCommand(p: Platform, tap: string): Command {
    Brew(p, ["tap", tap])
  }

  function InfoCommand(p: Platform, name: string): Command {
    Brew(p, ["info", "--json=v2", name])
  }

  /** `<api>/<name>.json` for the cask API. */
  function CaskUrl(name: string): string {
    CaskApi + "/" + name + ".json"
  }

  /** `<api>/<name>.json` for the formula API. */
  function FormulaUrl(name: string): string {
    FormulaApi + "/" + name + ".json"
  }

  /**
   * Looks a formula up in the registry by its bare name, at the cask API when a cask is
   * asked for and at the formula API otherwise.  A failed request or a failure status finds
   * nothing; a successful reply that does not decode is a JSON error.
   */
  function RegistryLookup(reg: Registry, name: string, kind: Option<PackageType>): (r: Result<Option<Formula>>)
    ensures kind == Some(CaskPackage) ==>
      var reply := reg.fetchCask(CaskUrl(name));
      (r == Ok(None) <==> reply.RequestFailed? || !IsSuccess(reply.status))
      && (r == Err(JsonError) <==> reply.Reply? && IsSuccess(reply.status) && reply.body.None?)
      && (reply.Reply? && IsSuccess(reply.status) && reply.body.Some? ==> r == Ok(Some(CaskToFormula(reply.body.value))))
    ensures kind != Some(CaskPackage) ==>
      var reply := reg.fetchFormula(FormulaUrl(name));
      (r == Ok(None) <==> reply.RequestFailed? || !IsSuccess(reply.status))
      && (r == Err(JsonError) <==> reply.Reply? && IsSuccess(reply.status) && reply.body.None?)
      && (reply.Reply? && IsSuccess(reply.status) && reply.body.Some? ==> r == Ok(Some(reply.body.value)))
  {
    if kind == Some(CaskPackage) then
      match reg.fetchCask(CaskUrl(name))
      case RequestFailed => Ok(None)
      case Reply(status, body) =>
        if !IsSuccess(status) then Ok(None)
        else if body.None? then Err(JsonError)
        else Ok(Some(CaskToFormula(body.value)))
    else
      match reg.fetchFormula(FormulaUrl(name))
      case RequestFailed => Ok(None)
      case Reply(status, body) =>
        if !IsSuccess(status) then Ok(None)
        else if body.None? then Err(JsonError)
        else Ok(Some(body.value))
  }

  /**
   * Finds a formula: `owner/tap/name` taps then asks `brew info`; a bare name asks the
   * registry; any other number of '/'-separated parts finds nothing.
   */
  function SearchFormula(p: Platform, sh: Shell, reg: Registry, name: string, kind: Option<PackageType>)
    : (s: Run<Option<Formula>>)
    ensures forall c :: c in s.trace ==> c.program == BrewProgram(p)
    ensures Count(name, '/') == 0 ==> s == Run(RegistryLookup(reg, name, kind), [])
    ensures (Count(name, '/') == 0 && (forall url :: reg.fetchFormula(url).RequestFailed?)
             && kind != Some(CaskPackage)) ==> s.result == Ok(None)
    ensures Count(name, '/') == 2 ==> 1 <= |s.trace| <= 2 && s.trace[0] == TapCommand(p, TapOf(name))
    ensures Count(name, '/') == 2 && sh(TapCommand(p, TapOf(name))).Exited? && !Success(sh(TapCommand(p, TapOf(name)))) ==>
              s == Run(Err(TapFailed(TapOf(name))), [TapCommand(p, TapOf(name))])
    ensures Count(name, '/') == 2 && sh(TapCommand(p, TapOf(name))).SpawnFailed? ==>
              s == Run(Err(SpawnError(BrewProgram(p))), [TapCommand(p, TapOf(name))])
    ensures Count(name, '/') == 2 && Success(sh(TapCommand(p, TapOf(name)))) ==>
              s.trace == [TapCommand(p, TapOf(name)), InfoCommand(p, name)]
              && (sh(InfoCommand(p, name)).SpawnFailed? ==> s.result == Err(SpawnError(BrewProgram(p))))
              && (sh(InfoCommand(p, name)).Exited? && !Success(sh(InfoCommand(p, name))) ==> s.result == Ok(None))
              && (Success(sh(InfoCommand(p, name))) ==>
                    var decoded := reg.decodeInfo(sh(InfoCommand(p, name)).stdout);
                    (decoded.None? ==> s.result == Err(JsonError))
                    && (decoded == Some([]) ==> s.result == Ok(None))
                    && (decoded.Some? && decoded.value != [] ==> s.result == Ok(Some(decoded.value[0]))))
    ensures Count(name, '/') != 0 && Count(name, '/') != 2 ==> s == Run(Ok(None), [])
  {
    var parts := Split(name, '/');
    if |parts| == 3 then
      var tap := TapOf(name);
      var tapCmd := TapCommand(p, tap);
      match sh(tapCmd)
      case SpawnFailed => Run(Err(SpawnError(BrewProgram(p))), [tapCmd])
      case Exited(code, _) =>
        if code != 0 then Run(Err(TapFailed(tap)), [tapCmd])
        else
          var infoCmd := InfoCommand(p, name);
          var trace := [tapCmd, infoCmd];
          match sh(infoCmd)
          case SpawnFailed => Run(Err(SpawnError(BrewProgram(p))), trace)
          case Exited(code', out) =>
            if code' != 0 then Run(Ok(None), trace)
            else match reg.decodeInfo(out)
              case None => Run(Err(JsonError), trace)
              case Some(formulae) => Run(Ok(if formulae == [] then None else Some(formulae[0])), trace)
    else if |parts| == 1 then
      Run(RegistryLookup(reg, name, kind), [])
    else
      Run(Ok(None), [])
  }

  function InstallCommand(p: Platform, name: string): Command {
    Brew(p, ["install", name])
  }

  /**
   * Installs a formula or cask, setting Homebrew up first when it is missing.  A name with
   * two slashes is installed straight away; any other name must be found first.  As the
   * tool is written, the command it runs is `install <name>` as typed: the computed install
   * name (with the version fallback) and the `--cask` flag never reach it.
   */
  method InstallFormulaVersion(p: Platform, sh: Shell, reg: Registry, name: string, version: Option<string>, isCask: bool)
    returns (r: Result<Unit>, trace: seq<Command>)
    ensures !reg.brewOnPath && reg.installHomebrew.Err? ==> r == reg.installHomebrew && trace == []
    ensures (reg.brewOnPath || reg.installHomebrew.Ok?) && Count(name, '/') == 2 ==>
              trace == [InstallCommand(p, name)]
              && r == Verdict(sh(InstallCommand(p, name)), BrewProgram(p), InstallFailed(name))
    ensures (reg.brewOnPath || reg.installHomebrew.Ok?) && Count(name, '/') != 2 ==>
              var s := SearchFormula(p, sh, reg, name, Some(if isCask then CaskPackage else FormulaPackage));
              match s.result
              case Err(e) => r == Err(e) && trace == s.trace
              case Ok(None) => r == Err(PackageNotFound(name)) && trace == s.trace
              case Ok(Some(_)) =>
                trace == s.trace + [InstallCommand(p, name)]
                && r == Verdict(sh(InstallCommand(p, name)), BrewProgram(p), InstallFailed(name))
    ensures r.Ok? ==> |trace| > 0 && trace[|trace| - 1] == InstallCommand(p, name) && Success(sh(trace[|trace| - 1]))
    ensures forall c :: c in trace ==> c.program == BrewProgram(p)
  {
    trace := [];
    if !reg.brewOnPath {
      if reg.installHomebrew.Err? {
        return reg.installHomebrew, trace;
      }
    }
    var cmd := InstallCommand(p, name);
    if Count(name, '/') == 2 {
      trace := trace + [cmd];
      r := Verdict(sh(cmd), BrewProgram(p), InstallFailed(name));
      return;
    }
    var s := SearchFormula(p, sh, reg, name, Some(if isCask then CaskPackage else FormulaPackage));
    trace := s.trace;
    if s.result.Err? {
      return Err(s.result.error), trace;
    }
    if s.result.value.None? {
      return Err(PackageNotFound(name)), trace;
    }
    var installName := InstallName(s.result.value.value, version);
    var args := if isCask then ["install", "--cask"] else ["install"];
    args := args + [installName];   // built, as in the tool, but not what is run
    trace := trace + [cmd];
    r := Verdict(sh(cmd), BrewProgram(p), InstallFailed(name));
  }

  /** `brew list --versions <name>` followed by "--cask" or by an empty argument. */
  function ListVersionsCommand(p: Platform, name: string, isCask: bool): Command {
    Brew(p, ["list", "--versions", name, if isCask then "--cask" else ""])
  }

  function UninstallCommand(p: Platform, name: string, isCask: bool): Command {
    Brew(p, if isCask then ["uninstall", "--cask", name] else ["uninstall", name])
  }

  function CleanupCommand(p: Platform, name: string): Command {
    Brew(p, ["cleanup", name])
  }

  /** The listing says the package is installed: it succeeded and printed something. */
  predicate ListedAsInstalled(o: Outcome) {
    Success(o) && o.stdout != ""
  }

  /**
   * Uninstalls a package.  One that the listing does not show is left alone and the call
   * succeeds; a failed uninstall is an error; cleanup runs afterwards and only a failure to
   * start it matters.
   */
  method UninstallFormula(p: Platform, sh: Shell, reg: Registry, name: string, isCask: bool)
    returns (r: Result<Unit>, trace: seq<Command>)
    ensures !reg.brewOnPath ==> r == Err(HomebrewNotInstalled) && trace == []
    ensures reg.brewOnPath ==> 1 <= |trace| <= 3 && trace[0] == ListVersionsCommand(p, name, isCask)
    ensures reg.brewOnPath && sh(ListVersionsCommand(p, name, isCask)).SpawnFailed? ==>
              r == Err(SpawnError(BrewProgram(p))) && trace == [ListVersionsCommand(p, name, isCask)]
    ensures reg.brewOnPath && sh(ListVersionsCommand(p, name, isCask)).Exited?
            && !ListedAsInstalled(sh(ListVersionsCommand(p, name, isCask))) ==>
              r == Ok(Unit) && trace == [ListVersionsCommand(p, name, isCask)]
    ensures reg.brewOnPath && ListedAsInstalled(sh(ListVersionsCommand(p, name, isCask))) ==>
              |trace| >= 2 && trace[1] == UninstallCommand(p, name, isCask)
              && (!Success(sh(UninstallCommand(p, name, isCask))) ==>
                    r == Verdict(sh(UninstallCommand(p, name, isCask)), BrewProgram(p), UninstallFailed(name)) && |trace| == 2)
              && (Success(sh(UninstallCommand(p, name, isCask))) ==>
                    trace == [ListVersionsCommand(p, name, isCask), UninstallCommand(p, name, isCask), CleanupCommand(p, name)]
                    && r == if sh(CleanupCommand(p, name)).Exited? then Ok(Unit) else Err(SpawnError(BrewProgram(p))))
    ensures r.Err? && reg.brewOnPath ==> !Success(sh(trace[|trace| - 1]))
  {
    if !reg.brewOnPath {
      return Err(HomebrewNotInstalled), [];
    }
    var list := ListVersionsCommand(p, name, isCask);
    trace := [list];
    var installed := sh(list);
    if installed.SpawnFailed? {
      return Err(SpawnError(BrewProgram(p))), trace;
    }
    if installed.code != 0 || installed.stdout == "" {
      return Ok(Unit), trace;
    }
    var uninstall := UninstallCommand(p, name, isCask);
    trace := trace + [uninstall];
    r := Verdict(sh(uninstall), BrewProgram(p), UninstallFailed(name));
    if r.Err? {
      return;
    }
    var cleanup := CleanupCommand(p, name);
    trace := trace + [cleanup];
    if sh(cleanup).SpawnFailed? {
      return Err(SpawnError(BrewProgram(p))), trace;
    }
    r := Ok(Unit);
  }
}
