# bert-cli in Dafny

This project models the decision logic of `bert`, a command-line front end to Homebrew and
to the Node package managers. It covers:

- resolving a package name (tap-qualified, registry lookup, cask converted into a formula);
- the version-fallback rule for installs;
- the command sequences issued by install and uninstall, both Homebrew and Node;
- the backup/restore engine for Homebrew packages;
- the self-update decision and its binary-replacement protocol;
- the settings file that selects the Node package manager;
- running an arbitrary command, installing it first when it is missing.

The outside world is an oracle. A `Shell` maps each command, meaning a program name and an
argument vector, to an outcome: it exited with a status and printed some output, or it could
not be started. Each operation returns its result together with the trace of commands it
issued, in order. HTTP replies, directory listings, the home directory and the executable's
path are parameters. The files the tool changes are held by small classes: `ConfigDisk`,
`BackupDisk` and `FileSystem`. Their fields are assigned by the methods that model the
writes, renames and removals.

Modules, one per source file:

- `Homebrew` — `src/homebrew.rs`.
- `BackupManager` — `src/backup_manager.rs`.
- `SelfUpdate` — `src/self_update.rs`.
- `NodeTypes` — `src/node/types.rs`.
- `NodeManager` — `src/node/manager.rs`.
- `Config` — `src/config.rs`.
- `PackageSpec` — `parse_package_spec` in `src/main.rs`.
- `CommandHandler` — `src/command_handler.rs`.

Shared definitions live in four modules:

- `Common`: results and errors.
- `Strings`: Rust's `lines`, `split_whitespace`, `contains`, `to_lowercase` and `ends_with`.
- `Paths`: `join`, `file_name`, `extension` and `with_extension` over '/'-separated paths.
- `Process`: commands, outcomes and HTTP replies.

Two behaviours of the code are worth knowing when reading the model:

- On Windows, the binary replacement first renames the running executable aside. If the
  second rename then fails, the executable is left at the aside path and not at its own
  path. Off Windows a single rename is used, so a failure leaves the executable untouched.
- `install_formula_version` computes an install name with the version fallback, and a
  `--cask` argument vector, but it runs `brew install <name>` with the name as typed. The
  model issues what the code issues. `InstallName` and `FallbackWarning` state the
  fallback rule on their own.

## Model

| member | source | states |
|---|---|---|
| `PackageSpec.ParsePackageSpec` | src/main.rs:152-159 | With no '@' the spec is the name and there is no version; otherwise the name has no '@' and name + "@" + version rebuilds the spec |
| `PackageSpec.ParsePackageSpecUnique` | src/main.rs:152-159 | The split is at the first '@': any writing of the spec as an '@'-free name, '@' and a version is the one returned (so the version may hold '@' and a leading '@' gives an empty name) |
| `Homebrew.InstallName` | src/homebrew.rs:60-96 | With no version the bare name; with version v, `name@v` exactly when that alias is listed, the bare name otherwise; the result is always the name or a listed alias, never an error |
| `Homebrew.FallbackWarning` | src/homebrew.rs:67-91 | A warning is shown exactly when a version was asked for and the bare name is installed instead; with listed aliases it shows the stable version as the latest and one version per alias, in the aliases' order; with none, only the stable version when there is one, and otherwise that no version information exists |
| `Homebrew.FallbackListsAliasVersions` | src/homebrew.rs:72-80 | The version the warning shows for the alias `name@u` is u |
| `Homebrew.AliasVersionOfVersionedName` | src/homebrew.rs:77 | The version shown for an alias `name@v` is v |
| `Homebrew.CaskInstallName` | src/homebrew.rs:411-425 | A cask becomes a formula named and fully named by its token, with its version as the stable one and no license; its install name is its token for any version asked, and asking a version always warns |
| `Homebrew.TapOfQualifiedName` | src/homebrew.rs:363-367 | A three-part name is its tap `owner/tap`, a slash and the formula name |
| `Homebrew.RegistryLookup` | src/homebrew.rs:393-435 | A cask is looked up at `<cask API>/<name>.json` and anything else at `<formula API>/<name>.json`; for both, a failed request or a failure status finds nothing, a successful reply whose body does not decode is a JSON error, and a decoded body is what is found (a cask converted into a formula) |
| `Homebrew.SearchFormula` | src/homebrew.rs:356-445 | Only `brew` commands are issued. A bare name is exactly the registry lookup, with no command. A three-part name first taps `owner/tap`: a tap that cannot start is a spawn error and a failed tap an error; then `info` runs, and one that cannot start is a spawn error, a failed one finds nothing, output that does not decode is a JSON error, an empty list finds nothing, and otherwise the first formula listed is found. Any other part count finds nothing and issues nothing |
| `Homebrew.InstallFormulaVersion` | src/homebrew.rs:248-354 | A missing Homebrew that cannot be installed stops everything; a name with two slashes issues exactly `install <name>`; otherwise the search runs, not-found is "package not found", and a found one issues `install <name>` last; success means that last command exited 0 |
| `Homebrew.UninstallFormula` | src/homebrew.rs:453-500 | Without Homebrew an error and no command. A listing that cannot start is a spawn error, after the listing alone. A package the listing does not show is a successful no-op after the listing. The uninstall's own verdict is the result when it fails (a spawn error or "failed to uninstall"). After a successful uninstall cleanup runs, and only a failure to start it is an error (a spawn error) |
| `NodeTypes.FromStr` | src/node/types.rs:58-69 | Accepts exactly the names npm, yarn, pnpm and bun in any letter case, to the manager whose command is the lower-cased input; any other input is an invalid-manager error |
| `NodeTypes.FromStrCommandName` | src/node/types.rs:13-20 | Each manager's command name parses back to that manager |
| `NodeTypes.FromStrIgnoresCase` | src/node/types.rs:59 | A string and its lower-cased form parse alike |
| `NodeTypes.TemplatesAreGlobal` | src/node/types.rs:22-56 | Every install, uninstall, list and update template works on the global installation ("-g" or "global") |
| `NodeTypes.TemplatesDistinct` | src/node/types.rs:22-56 | A manager's four templates differ from each other |
| `NodeManager.PackageTargetRoundTrip` | src/node/manager.rs:24-27 | The target `name@v` (or the bare name) parses back, by the package-spec parser, into the name and version it was built from when the name has no '@' |
| `NodeManager.NodeManager.constructor` | src/node/manager.rs:12-14 | The manager uses the package manager it was built with |
| `NodeManager.NodeManager.IsNodeInstalled` | src/node/manager.rs:127-133 | Issues `node --version`; installed exactly when it ran and exited 0 |
| `NodeManager.NodeManager.InstallPackage` | src/node/manager.rs:16-67 | The probe comes first. With Node present, the manager's command follows. Without it, Node is installed through Homebrew: a failure there is returned as it is and no manager command is issued; a success is followed by the manager's command. That command is install template + target, is the last issued, and its exit status alone decides the result |
| `NodeManager.NodeManager.InstallNode` | src/node/manager.rs:17-21 | Node is installed as the formula "node", with no version and not as a cask: the result and the commands are those of the Homebrew install of that formula |
| `NodeManager.NodeInstall` | src/node/manager.rs:17-21 | Installing Node succeeds exactly when Homebrew is available, the formula registry finds "node" and `brew install node` exits 0; only Homebrew commands are issued |
| `NodeManager.NodeManager.UninstallPackage` | src/node/manager.rs:69-89 | Issues exactly uninstall template + name; a non-zero exit is an uninstall error |
| `NodeManager.NodeManager.UpdatePackages` | src/node/manager.rs:91-110 | Issues one command, update template + the packages in order; a non-zero exit fails the call |
| `NodeManager.NodeManager.ListPackages` | src/node/manager.rs:112-125 | Issues the list template. A listing that cannot start is a spawn error of the manager, and the only error; a failed one shows nothing; a successful one shows every line but the first |
| `Config.ManagerOfSetting` | src/config.rs:58-65 | npm, yarn and pnpm select their own manager and every other stored name selects npm; bun is never selected |
| `Config.SetThenGet` | src/config.rs:53-65 | Storing a manager and reading it back gives that manager, except that bun reads back as npm |
| `Config.ManagerOfSettingAgreesWithFromStr` | src/config.rs:58-65 | On lower-case names other than bun, the settings reader and `from_str` agree |
| `Config.Config.Default` | src/config.rs:16-24 | The defaults are npm with no backup directory and no custom settings |
| `Config.Config.Save` | src/config.rs:40-51 | Fails without a home directory, when `~/.bert` cannot be created, or when `~/.bert/config.json` cannot be written, and then changes nothing; otherwise the file holds exactly the current settings |
| `Config.Config.SetNodePackageManager` | src/config.rs:53-56 | Stores the manager's command name, keeps the other settings, saves, and afterwards the getter yields the manager (bun as npm) |
| `Config.Config.GetNodePackageManager` | src/config.rs:58-65 | Never fails, and yields the manager the stored name selects |
| `Config.Load` | src/config.rs:27-38 | An unreadable file is an I/O error and an undecodable one a JSON error, both leaving the file alone; a stored file gives its settings; an absent file gives the defaults and persists them, and fails (leaving it absent) exactly when they cannot be saved |
| `BackupManager.NonEmptyLines` | src/backup_manager.rs:48-50 | Has no empty line, keeps every line of the input that is not empty, and is never longer than the input |
| `BackupManager.NonEmptyLinesAppend` | src/backup_manager.rs:48-50 | Dropping the empty lines of two concatenated listings is dropping them from each and concatenating, so order and repetitions are kept |
| `BackupManager.NonEmptyLinesOne` | src/backup_manager.rs:48-50 | A single line is kept exactly when it is not empty |
| `BackupManager.LinesContaining` | src/backup_manager.rs:63-67 | Every line kept contains the pattern, every input line containing it is kept, and the result is never longer than the input |
| `BackupManager.LinesContainingAppend` | src/backup_manager.rs:63-67 | Selecting from two concatenated outputs is selecting from each and concatenating, so order and repetitions are kept |
| `BackupManager.LinesContainingOne` | src/backup_manager.rs:63-67 | A single line is kept exactly when it contains the pattern |
| `BackupManager.ParseEntryShape` | src/backup_manager.rs:52-54 | A listing line made only of whitespace panics on the missing first token; any other yields a non-empty whitespace-free name and a whitespace-free version |
| `BackupManager.ParseEntryOfListing` | src/backup_manager.rs:52-54 | A line `name version …` parses back into that name and its first version |
| `BackupManager.ParseEntryOfName` | src/backup_manager.rs:54 | A line holding only a name parses with the empty version |
| `BackupManager.ProbedOptionsAreFlags` | src/backup_manager.rs:62-70 | A failed probe gives no options; a successful one gives exactly the lines of its output that contain "--", in the order printed and as often as printed (the options of any split of the output are those of each part, concatenated) |
| `BackupManager.CollectFormulas` | src/backup_manager.rs:48-78 | Succeeds exactly when every line parses and its `info` probe starts; then one formula per line, in order, named and versioned by its line, with the options of its own probe, and one probe per line; only queries are issued |
| `BackupManager.CollectCasks` | src/backup_manager.rs:85-95 | Succeeds exactly when every line parses, with one cask per line named and versioned by its line |
| `BackupManager.TakeSnapshot` | src/backup_manager.rs:34-102 | The tap listing is asked first and only Homebrew queries are issued. It succeeds exactly when the three listings start, every non-empty formula line parses and its `info` probe starts, and every non-empty cask line parses. A listing that cannot start is a spawn error, with nothing issued after it; every other failure is a panic |
| `BackupManager.SnapshotRecords` | src/backup_manager.rs:34-102 | A successful snapshot records the given creation time, every line `brew tap` printed, and one formula (cask) per non-empty line of the formula (cask) listing, named and versioned by that line. Each formula has the options its own `info` probe printed, and the probes are issued in line order between the formula and cask listings |
| `BackupManager.JsonPathExtension` | src/backup_manager.rs:221-227 | The `.json` filter used by the latest-backup search holds exactly when the path's extension is "json" |
| `BackupManager.BackupFileNameIsJson` | src/backup_manager.rs:194-227 | Every backup the tool names `bert_backup_<ts>.json` passes that filter |
| `BackupManager.LatestIsUnique` | src/backup_manager.rs:230-233 | There is only one latest backup: the last of the newest in listing order |
| `BackupManager.LatestBackupIn` | src/backup_manager.rs:219-235 | No readable `.json` entry gives "no backup files"; otherwise the path of the last entry, in listing order, among those with the greatest modification time |
| `BackupManager.TapCommands` | src/backup_manager.rs:142-146 | One `brew tap <tap>` per recorded tap, in order |
| `BackupManager.FormulaInstalls` | src/backup_manager.rs:157-166 | One `brew install <name> <options…>` per recorded formula, in order |
| `BackupManager.CaskInstalls` | src/backup_manager.rs:177-181 | One `brew install --cask <name>` per recorded cask, in order |
| `BackupManager.RestorePlanOrder` | src/backup_manager.rs:140-188 | Every tap comes before every formula install, and every formula install before every cask install |
| `BackupManager.ReplayClosedForm` | src/backup_manager.rs:142-188 | A replay issues every command up to the first that cannot start, that one included, and marks each command before it ✓ or ✗ by its own exit status |
| `BackupManager.ReplayAppend` | src/backup_manager.rs:140-188 | Replaying the three loops one after another is replaying their concatenation; an aborted loop ends it |
| `BackupManager.ReplayAllStart` | src/backup_manager.rs:148-152 | When every command starts, all are issued and a non-zero exit only marks ✗ |
| `BackupManager.ReplayStopsAtFirstSpawnFailure` | src/backup_manager.rs:144-146 | A command that cannot start is the last one issued |
| `BackupManager.ReadBackup` | src/backup_manager.rs:129-130 | Succeeds exactly when the file exists and decodes as a manifest, and then yields that manifest |
| `BackupManager.RestoreReadsFirst` | src/backup_manager.rs:129-142 | A manifest that cannot be read or decoded fails the restore before any command is issued |
| `BackupManager.BackupDisk.BackupDir` | src/backup_manager.rs:204-215 | Without a home directory an error; otherwise `~/.bert/backups`, created when missing, and an error when it cannot be created |
| `BackupManager.BackupDisk.BackupPath` | src/backup_manager.rs:194-202 | A given path is returned unchanged and no directory is created. Otherwise it succeeds exactly when the backup directory exists or can be created, and gives `bert_backup_<ts>.json` in that directory, which then exists; without a home directory, or when the directory cannot be created, it is the matching error |
| `BackupManager.BackupDisk.GetLatestBackup` | src/backup_manager.rs:217-236 | Creates the backup directory when it is missing. It is an error without a home directory, when the directory cannot be created, or when it cannot be read. Otherwise it succeeds exactly when some readable entry has extension "json", with the latest such entry, and gives "no backup files" when there is none |
| `BackupManager.CreateBackup` | src/backup_manager.rs:31-117 | Issues the snapshot's commands. It succeeds exactly when the snapshot does, the target's directory is available (a given path, or a backup directory that exists or can be created) and the target can be written; a refused target is a write error naming it. A failure writes nothing. Success writes exactly one file, at the given path or the fresh name, and reading it back yields the recorded manifest |
| `BackupManager.IssueEach` | src/backup_manager.rs:142-188 | The loop's marks, issued commands and abort flag are those of the replay |
| `BackupManager.RestoreFrom` | src/backup_manager.rs:126-192 | The result, marks and commands are exactly those of `RestoreSpec`: the manifest is read first, then taps, formulas and casks are replayed in that order, failing only on a command that cannot start |
| `BackupManager.RestoreBackup` | src/backup_manager.rs:119-192 | Restores from the given file. Otherwise each failure to find the latest backup is returned with no command issued: no home directory, a backup directory that cannot be created or read, or no backup files. When a backup exists, the restore runs from the latest one |
| `SelfUpdate.TrimLeadingV` | src/self_update.rs:51 | The result is what is left after removing the leading 'v's: a suffix preceded only by 'v's and not itself starting with 'v' |
| `SelfUpdate.TrimLeadingVIdempotent` | src/self_update.rs:51 | Trimming twice is trimming once |
| `SelfUpdate.TrimLeadingVOfPrefix` | src/self_update.rs:51 | Any number of 'v's before a version not starting with 'v' are all removed |
| `SelfUpdate.PlatformAssetNames` | src/self_update.rs:128-145 | Only the Windows asset is an ".exe", and two hosts ask for the same asset exactly when they are the same platform (on macOS, the same aarch64-or-not choice) |
| `SelfUpdate.FindAsset` | src/self_update.rs:69-74 | Nothing exactly when no asset has the name; otherwise the first asset with that name |
| `SelfUpdate.Decide` | src/self_update.rs:40-74 | A failed request, a failure status or an undecodable release is an error. It is up to date exactly when the trimmed tag equals the running version. Otherwise it downloads the first asset whose name matches, and gives "no compatible binary" exactly when none matches |
| `SelfUpdate.TempPathFileName` | src/self_update.rs:147-159 | The temporary file is named `<executable's file name>.new` |
| `SelfUpdate.ReplacementPathsDistinct` | src/self_update.rs:89-111 | The temporary path, the executable and its moved-aside `.old.exe` path are three different paths |
| `SelfUpdate.FileSystem.Write` | src/self_update.rs:94-95 | Writes the bytes (a new file gets mode 0o644, an existing one keeps its mode) unless the path is refused or locked, and then nothing changes |
| `SelfUpdate.FileSystem.SetPermissions` | src/self_update.rs:98-102 | Sets the mode of an existing, unrefused file and changes nothing else; fails otherwise without change |
| `SelfUpdate.FileSystem.Rename` | src/self_update.rs:110-118 | Moves the file, replacing an unlocked destination; fails without change when the source is missing or refused or the destination refused or locked |
| `SelfUpdate.FileSystem.Remove` | src/self_update.rs:113 | Removes an existing, unrefused, unlocked file; fails without change otherwise |
| `SelfUpdate.FileSystem.SwapIn` | src/self_update.rs:107-115 | Succeeds exactly when the executable can be renamed aside and the temporary file exists and is not refused. It moves the executable aside, moves the new file in, and removes the old one unless it is locked; a failed removal still succeeds. A failed first rename changes nothing, and a failed second one leaves the executable at the aside path |
| `SelfUpdate.FileSystem.ReplaceBinary` | src/self_update.rs:105-119 | Succeeds exactly when its renames can be done. Off Windows it is one rename of the temporary file onto the executable, and a failure changes nothing; on Windows it is the three-step swap, with the swap's outcomes |
| `SelfUpdate.Install` | src/self_update.rs:89-119 | Succeeds exactly when the temporary file can be written and the executable's path is not refused, and, off Windows, the executable can be replaced or, on Windows, it exists and its aside path can be written. Only the temporary, executable and aside paths change. Success leaves the new bytes at the executable (mode 0o755 off Windows) and no temporary file. A failure off Windows leaves the executable as it was; on Windows it leaves the original at its path or at the aside path |
| `SelfUpdate.InstallDownload` | src/self_update.rs:89-95 | An executable path without a file name panics, and a reply without a body is an HTTP error, both changing no file; otherwise it is the install, succeeding exactly when the install can be done |
| `SelfUpdate.DownloadAndInstall` | src/self_update.rs:78-95 | A failed request, a failure status or an unknown executable path is an error that changes no file. It succeeds exactly when the download succeeds with a body, the executable path is known and has a file name, and the install can be done |
| `SelfUpdate.SelfUpdate` | src/self_update.rs:26-126 | Asks for the release first. A decision error or an up-to-date version changes no file and requests nothing else. It succeeds exactly when the version is up to date, or when an asset is chosen and its download can be installed. A failed asset download changes no file, only the three replacement paths ever change, and success puts the downloaded bytes at the executable and removes the temporary file |
| `CommandHandler.ExecutableName` | src/command_handler.rs:9-13 | On Windows a name not ending in ".exe" gets ".exe" appended, and the result always ends in ".exe"; elsewhere, or when it already ends so, the name is unchanged |
| `CommandHandler.ExecutableNameIdempotent` | src/command_handler.rs:9-13 | Naming the executable again changes nothing |
| `CommandHandler.HandleCommand` | src/command_handler.rs:7-39 | A missing command whose installation fails ends successfully without running anything; otherwise the executable runs once with the remaining arguments, and a failure to start or a non-zero exit is an error |

## Left out

- Printing, colours, progress bars, confirmation prompts and the `try_wait`/`sleep` polling loops. They do not affect outcomes; each child process is reduced to the outcome its wait reports.
- `install_homebrew`. It downloads and runs a shell or PowerShell script and edits shell start-up files. Its result is the `installHomebrew` input of the registry.
- `is_homebrew_installed` and `which`. They are the `brewOnPath` input and the `onPath` function.
- `display_package_info` and the printed part of `list_packages`. They only print.
- `install_formula`. It is `install_formula_version` with no version, which the model covers.
- `src/package_manager.rs`. It is not part of this model. The automatic install it performs in `handle_command` is the `autoInstall` input.
- `src/node/api.rs`, `src/node/mod.rs` and `src/platform.rs` are not part of this model. The platform and the CPU architecture are parameters.
- JSON encoding and decoding, `reqwest`, `chrono` and `dirs`/`home`. A decoded document is an input, `None` when decoding fails. Timestamps and the creation time are parameters.
- Repeated commands. The shell is one fixed function per operation, so running the same command twice within one operation gives the same outcome both times.
- Paths. They are '/'-separated strings. Neither trailing separators nor "." components are normalised, and Windows' '\' is not treated as a separator.
- Letter case. Lower-casing covers the ASCII letters only. Every name the tool accepts is ASCII.
- Exit statuses without a code. A child killed by a signal is not modelled, since outcomes always carry a code.
- `BackupManager.LatestBackupIn`: the metadata panics of `get_latest_backup` are not modelled. It also replaces the in-place stable sort followed by `last` with a scan that picks the same entry.
- `BackupManager.IssueEach`: the three restore loops share this one loop over a command list, so the per-item ✓/✗ printing is reduced to a list of marks.
- `SelfUpdate.FileSystem.Write`: the mode a new file gets is taken as 0o644, a umask of 0o022. The contents of the files are the only data modelled.
- `Config.Config.Save`: only the paths `~/.bert` and `~/.bert/config.json` can fail. The file holds the settings, not their JSON text.
- `CommandHandler.HandleCommand`: the error for a non-zero exit carries the code, not the formatted status.
