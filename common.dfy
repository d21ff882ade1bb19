/** Shared value types: optional values, results and the error kinds the tool reports. */
module Common {

  datatype Option<+T> = None | Some(value: T)

  datatype Unit = Unit

  /** The error values the tool's operations bail out with (their `anyhow` messages). */
  datatype Error =
    | HomebrewSetupFailed                 // install_homebrew declined or failed
    | HomebrewNotInstalled                // "Homebrew is not installed"
    | InstallFailed(name: string)         // "Failed to install <name>"
    | PackageNotFound(name: string)       // "Package <name> not found"
    | TapFailed(tap: string)              // "Failed to add tap <tap>"
    | UninstallFailed(name: string)       // "Failed to uninstall <name>"
    | UpdateFailed                        // "Failed to update packages"
    | CommandFailed(code: int)            // "Command failed with exit code: <code>"
    | InvalidPackageManager(given: string)
    | NoBackupFiles                       // "No backup files found"
    | FetchReleaseFailed                  // "Failed to fetch latest release information"
    | NoCompatibleBinary                  // "No compatible binary found for your platform"
    | DownloadFailed                      // "Failed to download update"
    | SpawnError(program: string)         // a child process could not be started or waited on
    | HttpError                           // a request could not be sent or its body read
    | JsonError                           // a document could not be decoded
    | IoError(op: FileOp, path: string)   // a filesystem call failed
    | HomeDirUnknown                      // the home directory could not be determined
    | ExePathUnknown                      // the running executable's path could not be determined
    | Panic(reason: string)               // an `unwrap` or an index out of bounds

  datatype FileOp = ReadOp | WriteOp | CreateDirOp | PermissionsOp | RenameOp | RemoveOp | ListOp

  datatype Result<+T> = Ok(value: T) | Err(error: Error) {
    predicate IsFailure() { Err? }
    function PropagateFailure<U>(): Result<U>
      requires Err?
    {
      Err(error)
    }
    function Extract(): T
      requires Ok?
    {
      value
    }
  }
}
