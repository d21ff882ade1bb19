/** The tool's settings file and the Node package manager choice it holds (src/config.rs). */
module Config {
  import opened Common
  import opened NodeTypes
  import Paths
  import Strings

  /** The decoded settings document; custom settings are an opaque JSON value. */
  datatype Settings = Settings(nodePackageManager: string, backupDir: Option<string>, customSettings: Option<string>)

  /** The settings file as the filesystem holds it. */
  datatype StoredFile = Absent | Unreadable | Undecodable | Stored(settings: Settings)

  /** `Config::default`: npm, and neither a backup directory nor custom settings. */
  const DefaultSettings: Settings := Settings("npm", None, None)

  /** The directory that holds the settings file: `~/.bert`. */
  function ConfigDir(home: string): string {
    Paths.Join(home, ".bert")
  }

  /** `~/.bert/config.json`. */
  function ConfigPath(home: string): string {
    Paths.Join(ConfigDir(home), "config.json")
  }

  /** The manager a stored name selects: npm, yarn and pnpm by their own name, anything else npm. */
  function ManagerOfSetting(s: string): (m: NodePackageManager)
    ensures m != Bun
    ensures s in {"npm", "yarn", "pnpm"} <==> CommandName(m) == s
    ensures CommandName(m) != s ==> m == Npm
  {
    if s == "yarn" then Yarn
    else if s == "pnpm" then Pnpm
    else Npm
  }

  /** Storing a manager's command name and reading it back gives the manager, except that bun reads back as npm. */
  lemma SetThenGet(m: NodePackageManager)
    ensures ManagerOfSetting(CommandName(m)) == (if m == Bun then Npm else m)
  {
  }

  /** On the lower-case names the settings reader agrees with `FromStr`, bun apart. */
  lemma ManagerOfSettingAgreesWithFromStr(s: string)
    requires FromStr(s).Ok? && s == Strings.ToLower(s) && s != "bun"
    ensures ManagerOfSetting(s) == FromStr(s).value
  {
  }

  /** The part of the filesystem the settings live in. */
  class ConfigDisk {
    /** The home directory, when it can be determined. */
    const home: Option<string>
    /** Paths at which the filesystem refuses to create a directory or write a file. */
    const refused: set<string>
    var file: StoredFile

    constructor (home: Option<string>, refused: set<string>, file: StoredFile)
      ensures this.home == home && this.refused == refused && this.file == file
    {
      this.home := home;
      this.refused := refused;
      this.file := file;
    }
  }

  class Config {
    var nodePackageManager: string
    var backupDir: Option<string>
    var customSettings: Option<string>

    function Snapshot(): Settings
      reads this
    {
      Settings(nodePackageManager, backupDir, customSettings)
    }

    constructor Default()
      ensures Snapshot() == DefaultSettings
    {
      nodePackageManager := "npm";
      backupDir := None;
      customSettings := None;
    }

    constructor FromSettings(s: Settings)
      ensures Snapshot() == s
    {
      nodePackageManager := s.nodePackageManager;
      backupDir := s.backupDir;
      customSettings := s.customSettings;
    }

    /** Writes the settings to `~/.bert/config.json`, creating the directory first. */
    method Save(disk: ConfigDisk) returns (r: Result<Unit>)
      modifies disk
      ensures disk.home.None? ==> r == Err(HomeDirUnknown)
      ensures disk.home.Some? && ConfigDir(disk.home.value) in disk.refused ==>
                r == Err(IoError(CreateDirOp, ConfigDir(disk.home.value)))
      ensures disk.home.Some? && ConfigDir(disk.home.value) !in disk.refused && ConfigPath(disk.home.value) in disk.refused ==>
                r == Err(IoError(WriteOp, ConfigPath(disk.home.value)))
      ensures r.Ok? <==> disk.home.Some? && ConfigDir(disk.home.value) !in disk.refused && ConfigPath(disk.home.value) !in disk.refused
      ensures r.Ok? ==> disk.file == Stored(Snapshot())
      ensures r.Err? ==> disk.file == old(disk.file)
    {
      if disk.home.None? {
        return Err(HomeDirUnknown);
      }
      var dir := ConfigDir(disk.home.value);
      if dir in disk.refused {
        return Err(IoError(CreateDirOp, dir));
      }
      var path := ConfigPath(disk.home.value);
      if path in disk.refused {
        return Err(IoError(WriteOp, path));
      }
      disk.file := Stored(Snapshot());
      r := Ok(Unit);
    }

    /** Stores the manager's command name, keeps the other settings, and saves. */
    method SetNodePackageManager(m: NodePackageManager, disk: ConfigDisk) returns (r: Result<Unit>)
      requires disk as object != this
      modifies this, disk
      ensures nodePackageManager == CommandName(m)
      ensures backupDir == old(backupDir) && customSettings == old(customSettings)
      ensures GetNodePackageManager() == Ok(if m == Bun then Npm else m)
      ensures r.Ok? <==> disk.home.Some? && ConfigDir(disk.home.value) !in disk.refused && ConfigPath(disk.home.value) !in disk.refused
      ensures r.Ok? ==> disk.file == Stored(Snapshot())
      ensures r.Err? ==> disk.file == old(disk.file)
    {
      nodePackageManager := CommandName(m);
      r := Save(disk);
    }

    /** The manager the settings select; a name it does not know selects npm, so this never fails. */
    function GetNodePackageManager(): (r: Result<NodePackageManager>)
      reads this
      ensures r.Ok?
      ensures r.value == ManagerOfSetting(nodePackageManager)
    {
      Ok(ManagerOfSetting(nodePackageManager))
    }
  }

  /**
   * Reads the settings.  A missing file is replaced by the defaults, which are saved
   * first; a file that cannot be read or decoded is an error.
   */
  method Load(disk: ConfigDisk) returns (r: Result<Config>)
    modifies disk
    ensures disk.home.None? ==> r == Err(HomeDirUnknown) && disk.file == old(disk.file)
    ensures disk.home.Some? && old(disk.file).Unreadable? ==>
              r == Err(IoError(ReadOp, ConfigPath(disk.home.value))) && disk.file == old(disk.file)
    ensures disk.home.Some? && old(disk.file).Undecodable? ==> r == Err(JsonError) && disk.file == old(disk.file)
    ensures disk.home.Some? && old(disk.file).Stored? ==>
              r.Ok? && fresh(r.value) && r.value.Snapshot() == old(disk.file).settings && disk.file == old(disk.file)
    ensures disk.home.Some? && old(disk.file).Absent? ==>
              (r.Ok? <==> ConfigDir(disk.home.value) !in disk.refused && ConfigPath(disk.home.value) !in disk.refused)
    ensures disk.home.Some? && old(disk.file).Absent? && r.Ok? ==>
              fresh(r.value) && r.value.Snapshot() == DefaultSettings && disk.file == Stored(DefaultSettings)
    ensures disk.home.Some? && old(disk.file).Absent? && r.Err? ==> disk.file == Absent
  {
    if disk.home.None? {
      return Err(HomeDirUnknown);
    }
    if disk.file.Unreadable? {
      r := Err(IoError(ReadOp, ConfigPath(disk.home.value)));
    } else if disk.file.Undecodable? {
      r := Err(JsonError);
    } else if disk.file.Stored? {
      var config := new Config.FromSettings(disk.file.settings);
      r := Ok(config);
    } else {
      var config := new Config.Default();
      var saved := config.Save(disk);
      if saved.Err? {
        return Err(saved.error);
      }
      r := Ok(config);
    }
  }
}
