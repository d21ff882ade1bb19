/** The Node package managers and their command-line templates (src/node/types.rs). */
module NodeTypes {
  import opened Common
  import opened Strings

  datatype NodePackageManager = Npm | Yarn | Pnpm | Bun

  /** The executable each manager is run as. */
  function CommandName(m: NodePackageManager): string {
    match m
    case Npm => "npm"
    case Yarn => "yarn"
    case Pnpm => "pnpm"
    case Bun => "bun"
  }

  /** The words that precede the package in a global install. */
  function InstallArgs(m: NodePackageManager): seq<string> {
    match m
    case Npm => ["install", "-g"]
    case Yarn => ["global", "add"]
    case Pnpm => ["add", "-g"]
    case Bun => ["install", "-g"]
  }

  function UninstallArgs(m: NodePackageManager): seq<string> {
    match m
    case Npm => ["uninstall", "-g"]
    case Yarn => ["global", "remove"]
    case Pnpm => ["remove", "-g"]
    case Bun => ["remove", "-g"]
  }

  function ListArgs(m: NodePackageManager): seq<string> {
    match m
    case Npm => ["list", "-g", "--depth=0"]
    case Yarn => ["global", "list"]
    case Pnpm => ["list", "-g"]
    case Bun => ["list", "-g"]
  }

  function UpdateArgs(m: NodePackageManager): seq<string> {
    match m
    case Npm => ["update", "-g"]
    case Yarn => ["global", "upgrade"]
    case Pnpm => ["update", "-g"]
    case Bun => ["update", "-g"]
  }

  /** The manager names `FromStr` accepts, after lower-casing. */
  const ManagerNames: set<string> := {"npm", "yarn", "pnpm", "bun"}

  /** Parses a manager name, ignoring case; anything but the four names is an error. */
  function FromStr(s: string): (r: Result<NodePackageManager>)
    ensures r.Ok? <==> ToLower(s) in ManagerNames
    ensures r.Ok? ==> CommandName(r.value) == ToLower(s)
    ensures r.Err? ==> r.error == InvalidPackageManager(s)
  {
    var lower := ToLower(s);
    if lower == "npm" then Ok(Npm)
    else if lower == "yarn" then Ok(Yarn)
    else if lower == "pnpm" then Ok(Pnpm)
    else if lower == "bun" then Ok(Bun)
    else Err(InvalidPackageManager(s))
  }

  /** Lower-casing a lower-cased string changes nothing. */
  lemma ToLowerIdempotent(s: string)
    ensures ToLower(ToLower(s)) == ToLower(s)
  {
    assert forall k :: 0 <= k < |s| ==> LowerChar(LowerChar(s[k])) == LowerChar(s[k]);
  }

  /** Each manager's command name parses back to that manager. */
  lemma FromStrCommandName(m: NodePackageManager)
    ensures FromStr(CommandName(m)) == Ok(m)
  {
    var name := CommandName(m);
    assert ToLower(name) == name by {
      assert forall k :: 0 <= k < |name| ==> !('A' <= name[k] <= 'Z');
    }
  }

  /** Case does not matter: a string and its lower-cased form parse to the same manager. */
  lemma FromStrIgnoresCase(s: string)
    ensures FromStr(ToLower(s)).Ok? == FromStr(s).Ok?
    ensures FromStr(s).Ok? ==> FromStr(ToLower(s)).value == FromStr(s).value
  {
    ToLowerIdempotent(s);
  }

  /** Every template acts on the global installation: it carries "-g" or starts with "global". */
  lemma TemplatesAreGlobal(m: NodePackageManager)
    ensures "-g" in InstallArgs(m) || InstallArgs(m)[0] == "global"
    ensures "-g" in UninstallArgs(m) || UninstallArgs(m)[0] == "global"
    ensures "-g" in ListArgs(m) || ListArgs(m)[0] == "global"
    ensures "-g" in UpdateArgs(m) || UpdateArgs(m)[0] == "global"
  {
  }

  /** A manager's four templates are pairwise different, so no operation is issued as another. */
  lemma TemplatesDistinct(m: NodePackageManager)
    ensures InstallArgs(m) != UninstallArgs(m) && InstallArgs(m) != ListArgs(m)
    ensures InstallArgs(m) != UpdateArgs(m) && UninstallArgs(m) != ListArgs(m)
    ensures UninstallArgs(m) != UpdateArgs(m) && ListArgs(m) != UpdateArgs(m)
  {
  }
}
