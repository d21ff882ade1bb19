/**
 * Updating the tool itself: deciding from the latest release whether and what to download,
 * and putting the downloaded binary in place of the running one (src/self_update.rs).
 */
module SelfUpdate {
  import opened Common
  import opened Strings
  import opened Process
  import Paths

  /** Where the latest release is described. */
  const ReleaseUrl: string := "https://api.github.com/repos/michaelessiet/bert-cli/releases/latest"

  /** Permission bits 0o755, given to the new binary on Unix hosts. */
  const ExecutableMode: nat := 493

  /** Permission bits 0o644, which a newly written file gets. */
  const DefaultMode: nat := 420

  datatype Asset = Asset(name: string, url: string)

  /** An HTTP GET the update makes: the latest-release description, or an asset's download. */
  datatype Request = LatestRelease | AssetDownload(url: string)

  function RequestUrl(q: Request): string {
    match q
    case LatestRelease => ReleaseUrl
    case AssetDownload(url) => url
  }

  datatype Release = Release(tagName: string, body: Option<string>, assets: seq<Asset>, htmlUrl: string)

  // ---------------------------------------------------------------------------
  // Deciding

  /** `trim_start_matches('v')`: the tag without any of its leading 'v's. */
  function TrimLeadingV(s: string): (r: string)
    ensures |r| <= |s| && s[|s| - |r|..] == r
    ensures forall k :: 0 <= k < |s| - |r| ==> s[k] == 'v'
    ensures r == [] || r[0] != 'v'
  {
    if s != [] && s[0] == 'v' then TrimLeadingV(s[1..]) else s
  }

  /** The 'v's are all gone: trimming again changes nothing. */
  lemma TrimLeadingVIdempotent(s: string)
    ensures TrimLeadingV(TrimLeadingV(s)) == TrimLeadingV(s)
  {
  }

  /** Any run of 'v's in front of a text that does not start with 'v' is exactly what is removed. */
  lemma {:induction false} TrimLeadingVOfPrefix(n: nat, rest: string)
    requires rest == [] || rest[0] != 'v'
    ensures TrimLeadingV(seq(n, _ => 'v') + rest) == rest
  {
    if n > 0 {
      var s := seq(n, _ => 'v') + rest;
      assert s[0] == 'v';
      assert s[1..] == seq(n - 1, _ => 'v') + rest;
      TrimLeadingVOfPrefix(n - 1, rest);
    } else {
      assert seq(n, _ => 'v') + rest == rest;
    }
  }

  /** The release asset built for the host. */
  function PlatformAssetName(p: Platform, arch: Arch): string {
    match p
    case Linux => "bert-linux-amd64"
    case MacOS => if arch == Aarch64 then "bert-darwin-arm64" else "bert-darwin-amd64"
    case Windows => "bert-windows-amd64.exe"
  }

  /** Only the Windows asset is an ".exe", and hosts that need different binaries ask for different assets. */
  lemma PlatformAssetNames(p: Platform, arch: Arch, p': Platform, arch': Arch)
    ensures EndsWith(PlatformAssetName(p, arch), ".exe") <==> p == Windows
    ensures PlatformAssetName(p, arch) == PlatformAssetName(p', arch') <==>
              p == p' && (p == MacOS ==> (arch == Aarch64 <==> arch' == Aarch64))
  {
  }

  /** The first asset with the given name. */
  function FindAsset(assets: seq<Asset>, name: string): (r: Option<Asset>)
    ensures r.None? <==> forall i :: 0 <= i < |assets| ==> assets[i].name != name
    ensures r.Some? ==>
              exists i :: 0 <= i < |assets| && assets[i] == r.value && r.value.name == name
                          && forall j :: 0 <= j < i ==> assets[j].name != name
    decreases |assets|
  {
    if assets == [] then None
    else if assets[0].name == name then Some(assets[0])
    else
      var r := FindAsset(assets[1..], name);
      assert forall i :: 1 <= i < |assets| ==> assets[i] == assets[1..][i - 1];
      if r.Some? then
        var i :| 0 <= i < |assets[1..]| && assets[1..][i] == r.value && r.value.name == name
                 && forall j :: 0 <= j < i ==> assets[1..][j].name != name;
        assert assets[i + 1] == r.value;
        r
      else r
  }

  /** What the release information calls for: nothing, or downloading one asset. */
  datatype Decision = UpToDate | Download(asset: Asset)

  /**
   * Reads the release answer: a failed request, a failure status or an undecodable body is
   * an error; a tag equal to the running version (after its leading 'v's) means nothing to
   * do; otherwise the host's asset is downloaded, and a release without one is an error.
   */
  function Decide(current: string, reply: HttpReply<Release>, assetName: string): (d: Result<Decision>)
    ensures reply.RequestFailed? ==> d == Err(HttpError)
    ensures reply.Reply? && !IsSuccess(reply.status) ==> d == Err(FetchReleaseFailed)
    ensures reply.Reply? && IsSuccess(reply.status) && reply.body.None? ==> d == Err(JsonError)
    ensures d == Ok(UpToDate) <==>
              reply.Reply? && IsSuccess(reply.status) && reply.body.Some?
              && TrimLeadingV(reply.body.value.tagName) == current
    ensures d.Ok? && d.value.Download? ==>
              reply.Reply? && reply.body.Some? && TrimLeadingV(reply.body.value.tagName) != current
              && Some(d.value.asset) == FindAsset(reply.body.value.assets, assetName)
    ensures reply.Reply? && IsSuccess(reply.status) && reply.body.Some?
            && TrimLeadingV(reply.body.value.tagName) != current
            && FindAsset(reply.body.value.assets, assetName).Some? ==>
              d == Ok(Download(FindAsset(reply.body.value.assets, assetName).value))
    ensures d == Err(NoCompatibleBinary) <==>
              reply.Reply? && IsSuccess(reply.status) && reply.body.Some?
              && TrimLeadingV(reply.body.value.tagName) != current
              && forall i :: 0 <= i < |reply.body.value.assets| ==> reply.body.value.assets[i].name != assetName
  {
    match reply
    case RequestFailed => Err(HttpError)
    case Reply(status, body) =>
      if !IsSuccess(status) then Err(FetchReleaseFailed)
      else if body.None? then Err(JsonError)
      else if TrimLeadingV(body.value.tagName) == current then Ok(UpToDate)
      else match FindAsset(body.value.assets, assetName)
        case None => Err(NoCompatibleBinary)
        case Some(a) => Ok(Download(a))
  }

  // ---------------------------------------------------------------------------
  // The paths involved in the replacement

  /** `<temp dir>/<executable's file name>.new`. */
  function TempPath(tempDir: string, exe: string): string {
    Paths.Join(tempDir, Paths.FileName(exe) + ".new")
  }

  /** Where Windows moves the running executable aside: its path with extension "old.exe". */
  function OldPath(exe: string): string {
    Paths.WithExtension(exe, "old.exe")
  }

  lemma TempPathFileName(tempDir: string, exe: string)
    ensures Paths.FileName(TempPath(tempDir, exe)) == Paths.FileName(exe) + ".new"
  {
    Paths.FileNameOfJoin(tempDir, Paths.FileName(exe) + ".new");
  }

  /** The temporary file, the executable and its moved-aside copy are three different files. */
  lemma ReplacementPathsDistinct(tempDir: string, exe: string)
    ensures TempPath(tempDir, exe) != exe
    ensures OldPath(exe) != exe
    ensures TempPath(tempDir, exe) != OldPath(exe)
  {
    TempPathFileName(tempDir, exe);
    Paths.WithExtensionDiffers(exe, "old.exe");
    Paths.FileNameOfWithExtension(exe, "old.exe");
    var t := Paths.FileName(TempPath(tempDir, exe));
    var o := Paths.FileName(OldPath(exe));
    assert t[|t| - 1] == 'w' && o[|o| - 1] == 'e';
  }

  // ---------------------------------------------------------------------------
  // The filesystem

  /** A file: its bytes, its permission bits, and whether it is in use and so cannot be removed or replaced. */
  datatype File = File(data: seq<bv8>, mode: nat, locked: bool)

  /** Whether a rename may replace what is at `to`. */
  predicate Replaceable(files: map<string, File>, to: string) {
    to !in files || !files[to].locked
  }

  /** The files after a successful rename of `from` to `to`. */
  function Moved(files: map<string, File>, from: string, to: string): (m: map<string, File>)
    requires from in files
    ensures to in m && m[to] == files[from]
    ensures from != to ==> from !in m
    ensures forall q :: q != from && q != to ==> (q in m <==> q in files) && (q in m ==> m[q] == files[q])
  {
    (files - {from})[to := files[from]]
  }

  /** Whether `fs::rename(from, to)` succeeds on these files. */
  predicate CanRename(files: map<string, File>, refused: set<string>, from: string, to: string) {
    from in files && from !in refused && to !in refused && (to == from || Replaceable(files, to))
  }

  /** Whether both renames of the Windows swap succeed: the executable moves aside, then the new file moves in. */
  predicate CanSwapIn(files: map<string, File>, refused: set<string>, temp: string, exe: string, aside: string) {
    CanRename(files, refused, exe, aside) && temp in files && temp !in refused
  }

  /** Whether the replacement of `exe` by `temp` succeeds on the host. */
  predicate CanReplace(p: Platform, files: map<string, File>, refused: set<string>, temp: string, exe: string, aside: string) {
    if p == Windows then CanSwapIn(files, refused, temp, exe, aside) else CanRename(files, refused, temp, exe)
  }

  /**
   * Whether writing the new binary to `temp`, making it executable and putting it in place
   * of `exe` all succeed, judged on the files before the write.
   */
  predicate CanInstall(p: Platform, files: map<string, File>, refused: set<string>, temp: string, exe: string, aside: string) {
    temp !in refused && Replaceable(files, temp) && exe !in refused
    && (p != Windows ==> Replaceable(files, exe))
    && (p == Windows ==> exe in files && aside !in refused && Replaceable(files, aside))
  }

  class FileSystem {
    var files: map<string, File>
    /** Paths the filesystem refuses every change at. */
    const refused: set<string>

    constructor (files: map<string, File>, refused: set<string>)
      ensures this.files == files && this.refused == refused
    {
      this.files := files;
      this.refused := refused;
    }

    /** `fs::write`: creates the file with the default mode, or overwrites its bytes. */
    method Write(path: string, data: seq<bv8>) returns (r: Result<Unit>)
      modifies this
      ensures r.Ok? <==> path !in refused && Replaceable(old(files), path)
      ensures r.Ok? ==>
                files == old(files)[path := File(data, if path in old(files) then old(files)[path].mode else DefaultMode, false)]
      ensures r.Err? ==> r == Err(IoError(WriteOp, path)) && files == old(files)
    {
      if path in refused || !Replaceable(files, path) {
        return Err(IoError(WriteOp, path));
      }
      var mode := if path in files then files[path].mode else DefaultMode;
      files := files[path := File(data, mode, false)];
      r := Ok(Unit);
    }

    /** `fs::set_permissions`. */
    method SetPermissions(path: string, mode: nat) returns (r: Result<Unit>)
      modifies this
      ensures r.Ok? <==> path in old(files) && path !in refused
      ensures r.Ok? ==> files == old(files)[path := old(files)[path].(mode := mode)]
      ensures r.Err? ==> r == Err(IoError(PermissionsOp, path)) && files == old(files)
    {
      if path !in files || path in refused {
        return Err(IoError(PermissionsOp, path));
      }
      files := files[path := files[path].(mode := mode)];
      r := Ok(Unit);
    }

    /** `fs::rename`: moves a file, replacing whatever unlocked file is at the destination. */
    method Rename(from: string, to: string) returns (r: Result<Unit>)
      modifies this
      ensures r.Ok? <==> CanRename(old(files), refused, from, to)
      ensures r.Ok? ==> files == Moved(old(files), from, to)
      ensures r.Err? ==> r == Err(IoError(RenameOp, from)) && files == old(files)
    {
      if !CanRename(files, refused, from, to) {
        return Err(IoError(RenameOp, from));
      }
      files := (files - {from})[to := files[from]];
      r := Ok(Unit);
    }

    /** `fs::remove_file`. */
    method Remove(path: string) returns (r: Result<Unit>)
      modifies this
      ensures r.Ok? <==> path in old(files) && path !in refused && !old(files)[path].locked
      ensures r.Ok? ==> files == old(files) - {path}
      ensures r.Err? ==> r == Err(IoError(RemoveOp, path)) && files == old(files)
    {
      if path !in files || path in refused || files[path].locked {
        return Err(IoError(RemoveOp, path));
      }
      files := files - {path};
      r := Ok(Unit);
    }

    /**
     * The Windows replacement: the running executable cannot be overwritten, so it is moved
     * aside, the new file is moved in, and the old one is removed if possible; a failure of
     * that removal is ignored.
     */
    method SwapIn(temp: string, exe: string, aside: string) returns (r: Result<Unit>)
      requires temp != exe && temp != aside && exe != aside
      modifies this
      ensures r.Ok? <==> CanSwapIn(old(files), refused, temp, exe, aside)
      ensures r.Ok? ==>
                var replaced := Moved(Moved(old(files), exe, aside), temp, exe);
                files == if old(files)[exe].locked then replaced else replaced - {aside}
      ensures r.Err? ==>
                files == if CanRename(old(files), refused, exe, aside) then Moved(old(files), exe, aside) else old(files)
    {
      ghost var before := files;
      r := Rename(exe, aside);
      if r.Err? {
        return;
      }
      ghost var movedAside := files;
      assert temp in movedAside <==> temp in before;
      assert exe !in movedAside;
      r := Rename(temp, exe);
      if r.Err? {
        return;
      }
      ghost var replaced := files;
      assert aside in replaced && replaced[aside] == before[exe];
      var removed := Remove(aside);
    }

    /**
     * Puts the file at `temp` in place of the executable `exe`: a single rename, except on
     * Windows, where the executable is first moved aside to `aside`.
     */
    method ReplaceBinary(p: Platform, temp: string, exe: string, aside: string) returns (r: Result<Unit>)
      requires temp != exe && temp != aside && exe != aside
      modifies this
      ensures r.Ok? <==> CanReplace(p, old(files), refused, temp, exe, aside)
      ensures p != Windows ==> files == if r.Ok? then Moved(old(files), temp, exe) else old(files)
      ensures p == Windows && r.Ok? ==>
                var replaced := Moved(Moved(old(files), exe, aside), temp, exe);
                files == if old(files)[exe].locked then replaced else replaced - {aside}
      ensures p == Windows && r.Err? ==>
                files == if CanRename(old(files), refused, exe, aside) then Moved(old(files), exe, aside) else old(files)
    {
      if p == Windows {
        r := SwapIn(temp, exe, aside);
      } else {
        r := Rename(temp, exe);
      }
    }
  }

  // ---------------------------------------------------------------------------
  // The update

  /** Whether `q` holds the same file, or the same absence of one, in both states. */
  predicate Kept(before: map<string, File>, after: map<string, File>, q: string) {
    (q in after <==> q in before) && (q in after ==> after[q] == before[q])
  }

  /**
   * Writes the downloaded bytes to `temp`, makes them executable off Windows, and puts them
   * in place of `exe`.  Nothing but the three paths changes; on success the executable holds
   * the new bytes and the temporary file is gone; on failure off Windows the executable is
   * untouched, and on Windows the original is either still in place or moved aside.
   */
  method Install(p: Platform, fs: FileSystem, data: seq<bv8>, temp: string, exe: string, aside: string) returns (r: Result<Unit>)
    requires temp != exe && temp != aside && exe != aside
    modifies fs
    ensures r.Ok? <==> CanInstall(p, old(fs.files), fs.refused, temp, exe, aside)
    ensures forall q :: q != temp && q != exe && q != aside ==> Kept(old(fs.files), fs.files, q)
    ensures r.Ok? ==>
              exe in fs.files && fs.files[exe].data == data && temp !in fs.files
              && (p != Windows ==> fs.files[exe].mode == ExecutableMode)
              && (p == Windows ==> exe in old(fs.files) && (aside in fs.files ==> fs.files[aside] == old(fs.files)[exe]))
    ensures r.Err? && p != Windows ==> Kept(old(fs.files), fs.files, exe)
    ensures r.Err? && p == Windows && exe in old(fs.files) ==>
              Kept(old(fs.files), fs.files, exe) || (aside in fs.files && fs.files[aside] == old(fs.files)[exe])
  {
    r := fs.Write(temp, data);
    if r.Err? {
      return;
    }
    if p != Windows {
      r := fs.SetPermissions(temp, ExecutableMode);
      if r.Err? {
        return;
      }
    }
    ghost var written := fs.files;
    assert Replaceable(written, exe) <==> Replaceable(old(fs.files), exe);
    assert Replaceable(written, aside) <==> Replaceable(old(fs.files), aside);
    assert CanReplace(p, written, fs.refused, temp, exe, aside) <==> CanInstall(p, old(fs.files), fs.refused, temp, exe, aside);
    r := fs.ReplaceBinary(p, temp, exe, aside);
    assert forall q :: q != temp && q != exe && q != aside ==> Kept(written, fs.files, q);
  }

  /** `file_name()` of the executable is defined: the path does not end in ".." and is not empty. */
  predicate HasFileName(exe: string) {
    Paths.FileName(exe) != [] && Paths.FileName(exe) != ".."
  }

  /**
   * Whether an answered asset download ends in a replaced executable: the reply succeeded,
   * the executable's path is known and has a file name, the body could be read, and the
   * filesystem allows every step of the installation.
   */
  predicate InstallPossible(p: Platform, files: map<string, File>, refused: set<string>, reply: HttpReply<seq<bv8>>,
                            currentExe: Option<string>, tempDir: string) {
    reply.Reply? && IsSuccess(reply.status) && currentExe.Some? && HasFileName(currentExe.value) && reply.body.Some?
    && CanInstall(p, files, refused, TempPath(tempDir, currentExe.value), currentExe.value, OldPath(currentExe.value))
  }

  /**
   * Derives the temporary path from `exe` (which panics when `exe` has no file name), reads
   * the downloaded bytes (`None`: reading them failed) and installs them over `exe`.
   */
  method InstallDownload(p: Platform, fs: FileSystem, body: Option<seq<bv8>>, exe: string, tempDir: string) returns (r: Result<Unit>)
    modifies fs
    ensures !HasFileName(exe) ==> r == Err(Panic("unwrap on a path without a file name")) && fs.files == old(fs.files)
    ensures HasFileName(exe) && body.None? ==> r == Err(HttpError) && fs.files == old(fs.files)
    ensures r.Ok? <==>
              HasFileName(exe) && body.Some?
              && CanInstall(p, old(fs.files), fs.refused, TempPath(tempDir, exe), exe, OldPath(exe))
    ensures fs.files != old(fs.files) ==>
              forall q :: q != exe && q != TempPath(tempDir, exe) && q != OldPath(exe) ==> Kept(old(fs.files), fs.files, q)
    ensures r.Ok? ==>
              exe in fs.files && fs.files[exe].data == body.value && TempPath(tempDir, exe) !in fs.files
              && (p != Windows ==> fs.files[exe].mode == ExecutableMode)
    ensures r.Err? && p != Windows ==> Kept(old(fs.files), fs.files, exe)
    ensures r.Err? && p == Windows && exe in old(fs.files) ==>
              Kept(old(fs.files), fs.files, exe) || (OldPath(exe) in fs.files && fs.files[OldPath(exe)] == old(fs.files)[exe])
  {
    if !HasFileName(exe) {
      return Err(Panic("unwrap on a path without a file name"));
    }
    var temp, aside := TempPath(tempDir, exe), OldPath(exe);
    if body.None? {
      return Err(HttpError);
    }
    ReplacementPathsDistinct(tempDir, exe);
    r := Install(p, fs, body.value, temp, exe, aside);
  }

  /**
   * Downloads the asset at `url` and installs it over the running executable.  A failed
   * request or a failure status changes no file; so does not knowing the executable's path.
   */
  method DownloadAndInstall(p: Platform, fs: FileSystem, url: string, download: string -> HttpReply<seq<bv8>>,
                            currentExe: Option<string>, tempDir: string) returns (r: Result<Unit>)
    modifies fs
    ensures download(url).RequestFailed? ==> r == Err(HttpError) && fs.files == old(fs.files)
    ensures download(url).Reply? && !IsSuccess(download(url).status) ==> r == Err(DownloadFailed) && fs.files == old(fs.files)
    ensures download(url).Reply? && IsSuccess(download(url).status) && currentExe.None? ==>
              r == Err(ExePathUnknown) && fs.files == old(fs.files)
    ensures r.Ok? <==> InstallPossible(p, old(fs.files), fs.refused, download(url), currentExe, tempDir)
    ensures fs.files != old(fs.files) ==>
              currentExe.Some?
              && var exe := currentExe.value;
                 forall q :: q != exe && q != TempPath(tempDir, exe) && q != OldPath(exe) ==> Kept(old(fs.files), fs.files, q)
    ensures r.Err? && p != Windows && currentExe.Some? ==> Kept(old(fs.files), fs.files, currentExe.value)
    ensures r.Err? && p == Windows && currentExe.Some? && currentExe.value in old(fs.files) ==>
              var exe := currentExe.value;
              Kept(old(fs.files), fs.files, exe) || (OldPath(exe) in fs.files && fs.files[OldPath(exe)] == old(fs.files)[exe])
    ensures r.Ok? ==>
              currentExe.Some? && download(url).Reply? && download(url).body.Some?
              && var exe := currentExe.value;
                 exe in fs.files && fs.files[exe].data == download(url).body.value
                 && TempPath(tempDir, exe) !in fs.files
                 && (p != Windows ==> fs.files[exe].mode == ExecutableMode)
  {
    var response := download(url);
    if response.RequestFailed? {
      return Err(HttpError);
    }
    if !IsSuccess(response.status) {
      return Err(DownloadFailed);
    }
    if currentExe.None? {
      return Err(ExePathUnknown);
    }
    r := InstallDownload(p, fs, response.body, currentExe.value, tempDir);
  }

  /**
   * Checks for a newer release and installs it.  `current` is the running version,
   * `release` the answer to the release request, `download` the answer for each asset URL,
   * and `currentExe` the running executable's path when the OS tells it.  `fetched` lists
   * the requests made, in order.
   */
  method SelfUpdate(p: Platform, arch: Arch, current: string, fs: FileSystem, release: HttpReply<Release>,
                    download: string -> HttpReply<seq<bv8>>, currentExe: Option<string>, tempDir: string)
    returns (r: Result<Unit>, fetched: seq<Request>)
    modifies fs
    ensures |fetched| > 0 && fetched[0] == LatestRelease
    ensures var d := Decide(current, release, PlatformAssetName(p, arch));
            d.Err? ==> r == Err(d.error) && fetched == [LatestRelease] && fs.files == old(fs.files)
    ensures var d := Decide(current, release, PlatformAssetName(p, arch));
            d == Ok(UpToDate) ==> r == Ok(Unit) && fetched == [LatestRelease] && fs.files == old(fs.files)
    ensures var d := Decide(current, release, PlatformAssetName(p, arch));
            d.Ok? && d.value.Download? ==>
              fetched == [LatestRelease, AssetDownload(d.value.asset.url)]
              && (download(d.value.asset.url).RequestFailed? ==> r == Err(HttpError) && fs.files == old(fs.files))
              && (download(d.value.asset.url).Reply? && !IsSuccess(download(d.value.asset.url).status) ==>
                    r == Err(DownloadFailed) && fs.files == old(fs.files))
    ensures fs.files != old(fs.files) ==>
              currentExe.Some?
              && var exe := currentExe.value;
                 forall q :: q != exe && q != TempPath(tempDir, exe) && q != OldPath(exe) ==> Kept(old(fs.files), fs.files, q)
    ensures r.Err? && p != Windows && currentExe.Some? ==> Kept(old(fs.files), fs.files, currentExe.value)
    ensures r.Err? && p == Windows && currentExe.Some? && currentExe.value in old(fs.files) ==>
              var exe := currentExe.value;
              Kept(old(fs.files), fs.files, exe) || (OldPath(exe) in fs.files && fs.files[OldPath(exe)] == old(fs.files)[exe])
    ensures r.Ok? && |fetched| == 2 ==>
              fetched[1].AssetDownload? &&
              currentExe.Some? && download(fetched[1].url).Reply? && download(fetched[1].url).body.Some?
              && var exe := currentExe.value;
                 exe in fs.files && fs.files[exe].data == download(fetched[1].url).body.value
                 && TempPath(tempDir, exe) !in fs.files
                 && (p != Windows ==> fs.files[exe].mode == ExecutableMode)
    ensures var d := Decide(current, release, PlatformAssetName(p, arch));
            d.Ok? && d.value.Download? ==>
              (r.Ok? <==> InstallPossible(p, old(fs.files), fs.refused, download(d.value.asset.url), currentExe, tempDir))
    ensures r.Ok? <==>
              var d := Decide(current, release, PlatformAssetName(p, arch));
              d == Ok(UpToDate)
              || (d.Ok? && d.value.Download?
                  && InstallPossible(p, old(fs.files), fs.refused, download(d.value.asset.url), currentExe, tempDir))
  {
    var decision := Decide(current, release, PlatformAssetName(p, arch));
    if decision.Err? {
      return Err(decision.error), [LatestRelease];
    }
    if decision.value.UpToDate? {
      return Ok(Unit), [LatestRelease];
    }
    var url := decision.value.asset.url;
    fetched := [LatestRelease, AssetDownload(url)];
    r := DownloadAndInstall(p, fs, url, download, currentExe, tempDir);
  }
}
