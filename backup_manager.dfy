/**
 * Backing up the installed Homebrew packages into a manifest file and replaying a
 * manifest to reinstall them (src/backup_manager.rs).
 */
module BackupManager {
  import opened Common
  import opened Strings
  import opened Process
  import Paths
  import Homebrew

  datatype FormulaBackup = FormulaBackup(name: string, version: string, options: seq<string>)

  datatype CaskBackup = CaskBackup(name: string, version: string)

  /** The manifest: when it was taken, and what to reinstall. */
  datatype BackupFile = BackupFile(createdAt: string, formulas: seq<FormulaBackup>, casks: seq<CaskBackup>, taps: seq<string>)

  /** A file's content: a manifest, or anything that does not decode as one. */
  datatype Content = BackupDocument(backup: BackupFile) | OtherContent

  /** A directory entry: its full path and its modification time. */
  datatype DirEntry = DirEntry(path: string, modified: int)

  // ---------------------------------------------------------------------------
  // Taking a backup

  function TapListing(p: Platform): Command {
    Brew(p, ["tap"])
  }

  function FormulaListing(p: Platform): Command {
    Brew(p, ["list", "--formula", "--versions"])
  }

  function CaskListing(p: Platform): Command {
    Brew(p, ["list", "--cask", "--versions"])
  }

  /** A command that only asks Homebrew something: a listing, `info`, or `tap` without a tap to add. */
  predicate IsQuery(c: Command) {
    |c.args| > 0 && (c.args[0] == "list" || c.args[0] == "info" || c.args == ["tap"])
  }

  /** Every command of `trace` is a Homebrew query. */
  predicate BrewQueries(p: Platform, trace: seq<Command>) {
    forall c :: c in trace ==> c.program == BrewProgram(p) && IsQuery(c)
  }

  /** A `brew info` probe ahead of queries leaves only queries. */
  lemma InfoThenQueries(p: Platform, name: string, trace: seq<Command>)
    requires BrewQueries(p, trace)
    ensures BrewQueries(p, [Homebrew.InfoCommand(p, name)] + trace)
  {
    var probe := Homebrew.InfoCommand(p, name);
    assert probe.args[0] == "info";
    forall c | c in [probe] + trace
      ensures c.program == BrewProgram(p) && IsQuery(c)
    {
      if c != probe {
        assert c in trace;
      }
    }
  }

  /** The lines of a listing with the empty ones dropped, in order. */
  function NonEmptyLines(ls: seq<string>): (r: seq<string>)
    ensures |r| <= |ls|
    ensures forall i :: 0 <= i < |r| ==> r[i] != ""
    ensures forall x :: x in r <==> x in ls && x != ""
  {
    if ls == [] then []
    else (if ls[0] == "" then [] else [ls[0]]) + NonEmptyLines(ls[1..])
  }

  /** The lines that contain `pat`, in order. */
  function LinesContaining(ls: seq<string>, pat: string): (r: seq<string>)
    ensures |r| <= |ls|
    ensures forall i :: 0 <= i < |r| ==> Contains(r[i], pat)
    ensures forall x :: x in r <==> x in ls && Contains(x, pat)
  {
    if ls == [] then []
    else (if Contains(ls[0], pat) then [ls[0]] else []) + LinesContaining(ls[1..], pat)
  }

  /**
   * Dropping the empty lines keeps the others in order and with their multiplicity:
   * across a concatenation it works piece by piece ...
   */
  lemma {:induction false} NonEmptyLinesAppend(a: seq<string>, b: seq<string>)
    ensures NonEmptyLines(a + b) == NonEmptyLines(a) + NonEmptyLines(b)
    decreases |a|
  {
    if a == [] {
      assert a + b == b;
    } else {
      var ab := a + b;
      assert ab[0] == a[0] && ab[1..] == a[1..] + b;
      NonEmptyLinesAppend(a[1..], b);
      var head := if a[0] == "" then [] else [a[0]];
      calc {
        NonEmptyLines(ab);
        head + NonEmptyLines(a[1..] + b);
        head + (NonEmptyLines(a[1..]) + NonEmptyLines(b));
        { Regroup(head, NonEmptyLines(a[1..]), NonEmptyLines(b)); }
        NonEmptyLines(a) + NonEmptyLines(b);
      }
    }
  }

  /** ... and a single line is kept exactly when it is not empty. */
  lemma NonEmptyLinesOne(x: string)
    ensures NonEmptyLines([x]) == if x == "" then [] else [x]
  {
    assert [x][1..] == [];
  }

  /**
   * Selecting the lines that contain `pat` keeps them in order and with their
   * multiplicity: across a concatenation it works piece by piece ...
   */
  lemma {:induction false} LinesContainingAppend(a: seq<string>, b: seq<string>, pat: string)
    ensures LinesContaining(a + b, pat) == LinesContaining(a, pat) + LinesContaining(b, pat)
    decreases |a|
  {
    if a == [] {
      assert a + b == b;
    } else {
      var ab := a + b;
      assert ab[0] == a[0] && ab[1..] == a[1..] + b;
      LinesContainingAppend(a[1..], b, pat);
      var head := if Contains(a[0], pat) then [a[0]] else [];
      calc {
        LinesContaining(ab, pat);
        head + LinesContaining(a[1..] + b, pat);
        head + (LinesContaining(a[1..], pat) + LinesContaining(b, pat));
        { Regroup(head, LinesContaining(a[1..], pat), LinesContaining(b, pat)); }
        LinesContaining(a, pat) + LinesContaining(b, pat);
      }
    }
  }

  /** ... and a single line is kept exactly when it contains `pat`. */
  lemma LinesContainingOne(x: string, pat: string)
    ensures LinesContaining([x], pat) == if Contains(x, pat) then [x] else []
  {
    assert [x][1..] == [];
  }

  /**
   * One listing line: its first whitespace-separated token is the name and its second the
   * version, or "" when there is none.  A line of whitespace only has no first token, and
   * indexing it panics.
   */
  function ParseEntry(line: string): (r: Result<(string, string)>)
    ensures r.Err? ==> r.error == Panic("index out of bounds")
  {
    var ts := Tokens(line);
    if ts == [] then Err(Panic("index out of bounds"))
    else Ok((ts[0], if |ts| > 1 then ts[1] else ""))
  }

  /** Only a line of whitespace fails; any other yields a non-empty name and a version, both free of whitespace. */
  lemma ParseEntryShape(line: string)
    ensures ParseEntry(line).Err? <==> AllWhitespace(line)
    ensures ParseEntry(line).Ok? ==>
              var (name, version) := ParseEntry(line).value;
              name != "" && NoWhitespace(name) && NoWhitespace(version)
  {
    TokensEmpty(line);
  }

  /** A word followed by whitespace (or nothing) is the longest whitespace-free prefix. */
  lemma {:induction false} WordOfPrefix(w: string, rest: string)
    requires NoWhitespace(w) && (rest == [] || IsWhitespace(rest[0]))
    ensures Word(w + rest) == w
    decreases |w|
  {
    if w == [] {
      assert w + rest == rest;
    } else {
      assert (w + rest)[0] == w[0];
      assert (w + rest)[1..] == w[1..] + rest;
      assert NoWhitespace(w[1..]) by {
        forall k | 0 <= k < |w[1..]| ensures !IsWhitespace(w[1..][k]) {
          assert w[1..][k] == w[k + 1];
        }
      }
      WordOfPrefix(w[1..], rest);
    }
  }

  /** A word followed by whitespace (or nothing) is the first token. */
  lemma TokensOfPrefix(w: string, rest: string)
    requires w != [] && NoWhitespace(w) && (rest == [] || IsWhitespace(rest[0]))
    ensures Tokens(w + rest) == [w] + Tokens(rest)
  {
    WordOfPrefix(w, rest);
    assert (w + rest)[0] == w[0];
    assert (w + rest)[|w|..] == rest;
  }

  /** A line `name version…` as Homebrew prints it parses back into its name and first version. */
  lemma ParseEntryOfListing(name: string, version: string, rest: string)
    requires name != "" && NoWhitespace(name) && version != "" && NoWhitespace(version)
    requires rest == [] || IsWhitespace(rest[0])
    ensures ParseEntry(name + " " + version + rest) == Ok((name, version))
  {
    var line := name + " " + version + rest;
    TokensOfListing(name, version, rest);
    ParseEntryOfTokens(line);
  }

  /** The tokens of a line `name version…`. */
  lemma TokensOfListing(name: string, version: string, rest: string)
    requires name != "" && NoWhitespace(name) && version != "" && NoWhitespace(version)
    requires rest == [] || IsWhitespace(rest[0])
    ensures var ts := Tokens(name + " " + version + rest);
            |ts| >= 2 && ts[0] == name && ts[1] == version
  {
    var tail := [' '] + (version + rest);
    Regroup(name, " ", version + rest);
    Regroup(name + " ", version, rest);
    TokensOfPrefix(name, tail);
    TokensAfterSpace(tail);
    TokensOfPrefix(version, rest);
  }

  /** A line of two tokens or more is parsed into its first two. */
  lemma ParseEntryOfTokens(line: string)
    requires |Tokens(line)| >= 2
    ensures ParseEntry(line) == Ok((Tokens(line)[0], Tokens(line)[1]))
  {
  }

  /** Leading whitespace yields no token. */
  lemma TokensAfterSpace(s: string)
    requires s != [] && IsWhitespace(s[0])
    ensures Tokens(s) == Tokens(s[1..])
  {
  }

  /** A line holding only a name parses with an empty version. */
  lemma ParseEntryOfName(name: string)
    requires name != "" && NoWhitespace(name)
    ensures ParseEntry(name) == Ok((name, ""))
  {
    TokensOfPrefix(name, []);
    assert name + [] == name;
  }

  /** The install options read off a successful `brew info`: the lines containing "--". */
  function ProbedOptions(o: Outcome): (options: seq<string>)
    requires o.Exited?
  {
    if o.code == 0 then LinesContaining(Lines(o.stdout), "--") else []
  }

  /**
   * A failed probe gives no options; a successful one every line of its output that
   * contains "--", and only those, in the order printed and as often as printed.
   */
  lemma ProbedOptionsAreFlags(o: Outcome)
    requires o.Exited?
    ensures !Success(o) ==> ProbedOptions(o) == []
    ensures forall x :: x in ProbedOptions(o) <==> Success(o) && x in Lines(o.stdout) && Contains(x, "--")
    ensures Success(o) ==> forall a, b :: Lines(o.stdout) == a + b ==>
              ProbedOptions(o) == LinesContaining(a, "--") + LinesContaining(b, "--")
  {
    if Success(o) {
      forall a, b | Lines(o.stdout) == a + b
        ensures ProbedOptions(o) == LinesContaining(a, "--") + LinesContaining(b, "--")
      {
        LinesContainingAppend(a, b, "--");
      }
    }
  }

  /** A listing line that parses and whose `brew info` probe starts. */
  predicate Collectable(p: Platform, sh: Shell, line: string) {
    ParseEntry(line).Ok? && !sh(Homebrew.InfoCommand(p, ParseEntry(line).value.0)).SpawnFailed?
  }

  predicate AllCollectable(p: Platform, sh: Shell, lines: seq<string>) {
    forall i :: 0 <= i < |lines| ==> Collectable(p, sh, lines[i])
  }

  lemma AllCollectableCons(p: Platform, sh: Shell, lines: seq<string>)
    requires lines != []
    ensures AllCollectable(p, sh, lines) <==> Collectable(p, sh, lines[0]) && AllCollectable(p, sh, lines[1..])
  {
    assert forall i :: 1 <= i < |lines| ==> lines[i] == lines[1..][i - 1];
  }

  /**
   * The formulas of a listing, line by line: each line is parsed and its formula probed
   * with `brew info`; a blank line or a probe that cannot start panics.
   */
  function CollectFormulas(p: Platform, sh: Shell, lines: seq<string>): (s: Homebrew.Run<seq<FormulaBackup>>)
    ensures BrewQueries(p, s.trace)
    ensures s.result.Ok? <==> AllCollectable(p, sh, lines)
    ensures s.result.Ok? ==> FormulasOfLines(p, sh, lines, s.result.value, s.trace)
    ensures s.result.Err? ==> s.result.error.Panic?
    decreases |lines|
  {
    if lines == [] then Homebrew.Run(Ok([]), [])
    else match ParseEntry(lines[0])
      case Err(e) => Homebrew.Run(Err(e), [])
      case Ok(entry) =>
        var probe := Homebrew.InfoCommand(p, entry.0);
        InfoThenQueries(p, entry.0, []);
        AllCollectableCons(p, sh, lines);
        var o := sh(probe);
        if o.SpawnFailed? then Homebrew.Run(Err(Panic("unwrap on a failed spawn")), [probe])
        else
          var formula := FormulaBackup(entry.0, entry.1, ProbedOptions(o));
          var rest := CollectFormulas(p, sh, lines[1..]);
          InfoThenQueries(p, entry.0, rest.trace);
          match rest.result
          case Err(e) => Homebrew.Run(Err(e), [probe] + rest.trace)
          case Ok(formulas) =>
            assert lines == [lines[0]] + lines[1..];
            FormulasOfLinesCons(p, sh, lines[0], lines[1..], formula, formulas, rest.trace);
            Homebrew.Run(Ok([formula] + formulas), [probe] + rest.trace)
  }

  /**
   * Each formula is its line's name and version with the options its own `brew info`
   * probe printed, and the probes are issued in the order of the lines.
   */
  predicate FormulasOfLines(p: Platform, sh: Shell, lines: seq<string>, formulas: seq<FormulaBackup>, trace: seq<Command>) {
    |formulas| == |lines| && |trace| == |lines|
    && forall i :: 0 <= i < |lines| ==>
         ParseEntry(lines[i]) == Ok((formulas[i].name, formulas[i].version))
         && trace[i] == Homebrew.InfoCommand(p, formulas[i].name)
         && sh(trace[i]).Exited? && formulas[i].options == ProbedOptions(sh(trace[i]))
  }

  lemma FormulasOfLinesCons(p: Platform, sh: Shell, line: string, lines: seq<string>, f: FormulaBackup,
                            formulas: seq<FormulaBackup>, trace: seq<Command>)
    requires ParseEntry(line) == Ok((f.name, f.version))
    requires sh(Homebrew.InfoCommand(p, f.name)).Exited?
    requires f.options == ProbedOptions(sh(Homebrew.InfoCommand(p, f.name)))
    requires FormulasOfLines(p, sh, lines, formulas, trace)
    ensures FormulasOfLines(p, sh, [line] + lines, [f] + formulas, [Homebrew.InfoCommand(p, f.name)] + trace)
  {
    var ls, fs, ts := [line] + lines, [f] + formulas, [Homebrew.InfoCommand(p, f.name)] + trace;
    forall i | 0 <= i < |ls|
      ensures ParseEntry(ls[i]) == Ok((fs[i].name, fs[i].version))
              && ts[i] == Homebrew.InfoCommand(p, fs[i].name)
              && sh(ts[i]).Exited? && fs[i].options == ProbedOptions(sh(ts[i]))
    {
      if i > 0 {
        assert ls[i] == lines[i - 1] && fs[i] == formulas[i - 1] && ts[i] == trace[i - 1];
      }
    }
  }

  /** The casks of a listing, line by line; a blank line panics. */
  function CollectCasks(lines: seq<string>): (r: Result<seq<CaskBackup>>)
    ensures r.Ok? <==> forall i :: 0 <= i < |lines| ==> ParseEntry(lines[i]).Ok?
    ensures r.Ok? ==>
              |r.value| == |lines|
              && forall i :: 0 <= i < |lines| ==> ParseEntry(lines[i]) == Ok((r.value[i].name, r.value[i].version))
    ensures r.Err? ==> r.error.Panic?
    decreases |lines|
  {
    if lines == [] then Ok([])
    else match ParseEntry(lines[0])
      case Err(e) => Err(e)
      case Ok(entry) =>
        var rest := CollectCasks(lines[1..]);
        assert forall i :: 1 <= i < |lines| ==> lines[i] == lines[1..][i - 1];
        match rest
        case Err(e) => Err(e)
        case Ok(casks) => Ok([CaskBackup(entry.0, entry.1)] + casks)
  }

  /** The three listings are queries. */
  lemma ListingsAreQueries(p: Platform)
    ensures BrewQueries(p, [TapListing(p)]) && BrewQueries(p, [TapListing(p), FormulaListing(p)])
  {
  }

  /** The formula probes, between the first two listings and the cask listing, leave only queries. */
  lemma ListingsAroundQueries(p: Platform, probes: seq<Command>)
    requires BrewQueries(p, probes)
    ensures BrewQueries(p, [TapListing(p), FormulaListing(p)] + probes)
    ensures BrewQueries(p, [TapListing(p), FormulaListing(p)] + probes + [CaskListing(p)])
  {
    var listed := [TapListing(p), FormulaListing(p)];
    forall c | c in listed + probes + [CaskListing(p)]
      ensures c.program == BrewProgram(p) && IsQuery(c)
    {
      if c !in listed && c != CaskListing(p) {
        assert c in probes;
      }
    }
  }

  /**
   * A snapshot can be taken when the three listings start, every non-empty line of the
   * formula listing parses and its `brew info` probe starts, and every non-empty line of
   * the cask listing parses.  Exit statuses are not looked at.
   */
  predicate SnapshotPossible(p: Platform, sh: Shell) {
    !sh(TapListing(p)).SpawnFailed? && !sh(FormulaListing(p)).SpawnFailed? && !sh(CaskListing(p)).SpawnFailed?
    && AllCollectable(p, sh, NonEmptyLines(Lines(sh(FormulaListing(p)).stdout)))
    && var caskLines := NonEmptyLines(Lines(sh(CaskListing(p)).stdout));
       forall i :: 0 <= i < |caskLines| ==> ParseEntry(caskLines[i]).Ok?
  }

  /**
   * What a backup records, and the commands asked to record it: the taps (every line
   * `brew tap` prints), the formulas with their options, then the casks.  A listing that
   * cannot start is a spawn error; a blank-only line or an info probe that cannot start
   * panics.
   */
  function TakeSnapshot(p: Platform, sh: Shell, createdAt: string): (s: Homebrew.Run<BackupFile>)
    ensures |s.trace| > 0 && s.trace[0] == TapListing(p)
    ensures BrewQueries(p, s.trace)
    ensures s.result.Ok? <==> SnapshotPossible(p, sh)
    ensures sh(TapListing(p)).SpawnFailed? ==> s == Homebrew.Run(Err(SpawnError(BrewProgram(p))), [TapListing(p)])
    ensures !sh(TapListing(p)).SpawnFailed? && sh(FormulaListing(p)).SpawnFailed? ==>
              s == Homebrew.Run(Err(SpawnError(BrewProgram(p))), [TapListing(p), FormulaListing(p)])
    ensures !sh(TapListing(p)).SpawnFailed? && !sh(FormulaListing(p)).SpawnFailed?
            && AllCollectable(p, sh, NonEmptyLines(Lines(sh(FormulaListing(p)).stdout)))
            && sh(CaskListing(p)).SpawnFailed? ==>
              s.result == Err(SpawnError(BrewProgram(p)))
    ensures s.result.Err? ==> s.result.error == SpawnError(BrewProgram(p)) || s.result.error.Panic?
  {
    ListingsAreQueries(p);
    var tapOut := sh(TapListing(p));
    if tapOut.SpawnFailed? then Homebrew.Run(Err(SpawnError(BrewProgram(p))), [TapListing(p)])
    else
      var taps := Lines(tapOut.stdout);
      var listed := [TapListing(p), FormulaListing(p)];
      var formulaOut := sh(FormulaListing(p));
      if formulaOut.SpawnFailed? then Homebrew.Run(Err(SpawnError(BrewProgram(p))), listed)
      else
        var formulas := CollectFormulas(p, sh, NonEmptyLines(Lines(formulaOut.stdout)));
        ListingsAroundQueries(p, formulas.trace);
        if formulas.result.Err? then Homebrew.Run(Err(formulas.result.error), listed + formulas.trace)
        else
          var all := listed + formulas.trace + [CaskListing(p)];
          var caskOut := sh(CaskListing(p));
          if caskOut.SpawnFailed? then Homebrew.Run(Err(SpawnError(BrewProgram(p))), all)
          else match CollectCasks(NonEmptyLines(Lines(caskOut.stdout)))
            case Err(e) => Homebrew.Run(Err(e), all)
            case Ok(casks) => Homebrew.Run(Ok(BackupFile(createdAt, formulas.result.value, casks, taps)), all)
  }

  /**
   * A snapshot that succeeds holds every line `brew tap` printed, and one formula (cask)
   * per non-empty line of the formula (cask) listing, named and versioned by that line.
   */
  lemma SnapshotRecords(p: Platform, sh: Shell, createdAt: string)
    ensures var s := TakeSnapshot(p, sh, createdAt);
            s.result.Ok? ==>
              var b := s.result.value;
              var formulaLines := NonEmptyLines(Lines(sh(FormulaListing(p)).stdout));
              var caskLines := NonEmptyLines(Lines(sh(CaskListing(p)).stdout));
              |s.trace| >= 3 && s.trace[1] == FormulaListing(p) && s.trace[|s.trace| - 1] == CaskListing(p)
              && sh(TapListing(p)).Exited? && sh(FormulaListing(p)).Exited? && sh(CaskListing(p)).Exited?
              && b.createdAt == createdAt
              && b.taps == Lines(sh(TapListing(p)).stdout)
              && |b.formulas| == |formulaLines| && |b.casks| == |caskLines|
              && (forall i :: 0 <= i < |b.formulas| ==> ParseEntry(formulaLines[i]) == Ok((b.formulas[i].name, b.formulas[i].version)))
              && (forall i :: 0 <= i < |b.casks| ==> ParseEntry(caskLines[i]) == Ok((b.casks[i].name, b.casks[i].version)))
              && |s.trace| == |b.formulas| + 3
              && (forall i :: 0 <= i < |b.formulas| ==>
                    s.trace[i + 2] == Homebrew.InfoCommand(p, b.formulas[i].name)
                    && sh(Homebrew.InfoCommand(p, b.formulas[i].name)).Exited?
                    && b.formulas[i].options == ProbedOptions(sh(Homebrew.InfoCommand(p, b.formulas[i].name))))
  {
    var s := TakeSnapshot(p, sh, createdAt);
    if s.result.Ok? {
      var formulas := CollectFormulas(p, sh, NonEmptyLines(Lines(sh(FormulaListing(p)).stdout)));
      assert s.trace == [TapListing(p), FormulaListing(p)] + formulas.trace + [CaskListing(p)];
      forall i | 0 <= i < |s.result.value.formulas|
        ensures s.trace[i + 2] == formulas.trace[i]
      {
      }
    }
  }

  // ---------------------------------------------------------------------------
  // Where backups live

  /** `~/.bert/backups`. */
  function BackupDirOf(home: string): string {
    Paths.Join(Paths.Join(home, ".bert"), "backups")
  }

  /** `bert_backup_<timestamp>.json`. */
  function BackupFileName(timestamp: string): string {
    "bert_backup_" + timestamp + ".json"
  }

  /** The file a backup is written to: the path given, or a fresh name in the backup directory. */
  function BackupTarget(custom: Option<string>, home: string, timestamp: string): string {
    if custom.Some? then custom.value else Paths.Join(BackupDirOf(home), BackupFileName(timestamp))
  }

  /** A path whose last component ends in ".json" after at least one other character. */
  predicate IsJsonPath(path: string) {
    |path| > 5 && path[|path| - 5..] == ".json" && path[|path| - 6] != Paths.Separator
  }

  /** `IsJsonPath` is exactly `Path::extension` being "json". */
  lemma JsonPathExtension(path: string)
    ensures IsJsonPath(path) <==> Paths.Extension(Paths.FileName(path)) == Some("json")
  {
    if IsJsonPath(path) {
      JsonPathHasExtension(path);
    }
    if Paths.Extension(Paths.FileName(path)) == Some("json") {
      JsonExtensionIsJsonPath(path);
    }
  }

  lemma JsonPathHasExtension(path: string)
    requires IsJsonPath(path)
    ensures Paths.Extension(Paths.FileName(path)) == Some("json")
  {
    var name := Paths.FileName(path);
    assert forall j :: |path| - 6 <= j < |path| ==> path[j] != Paths.Separator;
    assert |name| > 5;
    assert name[|name| - 5..] == path[|path| - 5..];
    JsonNameHasExtension(name);
  }

  /** A name ending in ".json" after at least one character has extension "json". */
  lemma JsonNameHasExtension(name: string)
    requires |name| > 5 && name[|name| - 5..] == ".json"
    ensures Paths.Extension(name) == Some("json")
  {
    var stem := name[..|name| - 5];
    assert name == stem + name[|name| - 5..];
    assert ".json" == ['.'] + "json";
    Regroup(stem, ['.'], "json");
    LastIndexOfAfter(stem, '.', "json");
    assert name[|stem| + 1..] == name[|name| - 5..][1..];
  }

  /** A bare ".json" is a hidden file with no extension. */
  lemma DotJsonHasNoExtension()
    ensures Paths.Extension(".json") == None
  {
    LastIndexOfAfter([], '.', "json");
    assert [] + ['.'] + "json" == ".json";
  }

  lemma JsonExtensionIsJsonPath(path: string)
    requires Paths.Extension(Paths.FileName(path)) == Some("json")
    ensures IsJsonPath(path)
  {
    var name := Paths.FileName(path);
    JsonNameShape(name);
    assert path[|path| - |name|..] == name;
    assert path[|path| - 5..] == name[|name| - 5..];
    assert path[|path| - 6] == name[|name| - 6];
  }

  /** A file name with extension "json" ends in ".json" after at least one character. */
  lemma JsonNameShape(name: string)
    requires Paths.Extension(name) == Some("json")
    ensures |name| > 5 && name[|name| - 5..] == ".json"
  {
    DotJsonHasNoExtension();
    var stem := Paths.FileStem(name);
    assert name == stem + "." + "json";
    assert stem != [];
  }

  /** The entries the latest-backup search looks at: readable, with extension "json". */
  predicate IsBackupEntry(e: Result<DirEntry>) {
    e.Ok? && IsJsonPath(e.value.path)
  }

  /** Every backup the tool names itself is one the latest-backup search considers. */
  lemma BackupFileNameIsJson(dir: string, timestamp: string, modified: int)
    requires Paths.Separator !in timestamp
    ensures IsBackupEntry(Ok(DirEntry(Paths.Join(dir, BackupFileName(timestamp)), modified)))
    ensures Paths.Extension(Paths.FileName(Paths.Join(dir, BackupFileName(timestamp)))) == Some("json")
  {
    var path := Paths.Join(dir, BackupFileName(timestamp));
    assert path == dir + [Paths.Separator] + "bert_backup_" + timestamp + ".json";
    assert path[|path| - 5..] == ".json";
    assert path[|path| - 6] == if timestamp == [] then '_' else timestamp[|timestamp| - 1];
    JsonPathExtension(path);
  }

  /**
   * Entry `k` is the latest backup among the first `n` entries: the last of those whose
   * time is the greatest, as a stable sort by time followed by taking the last one picks.
   */
  predicate IsLatestAt(es: seq<Result<DirEntry>>, k: int, n: int)
    requires 0 <= n <= |es|
  {
    0 <= k < n && IsBackupEntry(es[k])
    && (forall j :: 0 <= j < n && IsBackupEntry(es[j]) ==> es[j].value.modified <= es[k].value.modified)
    && (forall j :: k < j < n && IsBackupEntry(es[j]) ==> es[j].value.modified < es[k].value.modified)
  }

  /** There is only one latest backup. */
  lemma LatestIsUnique(es: seq<Result<DirEntry>>, k1: int, k2: int)
    requires IsLatestAt(es, k1, |es|) && IsLatestAt(es, k2, |es|)
    ensures k1 == k2
  {
  }

  /** An entry that is not a later-or-equal backup leaves the latest one in place. */
  lemma LatestKept(es: seq<Result<DirEntry>>, k: int, i: int)
    requires 0 <= i < |es| && IsLatestAt(es, k, i)
    requires !IsBackupEntry(es[i]) || es[i].value.modified < es[k].value.modified
    ensures IsLatestAt(es, k, i + 1)
  {
  }

  /** A backup at least as recent as every earlier one becomes the latest. */
  lemma LatestReplaced(es: seq<Result<DirEntry>>, i: int)
    requires 0 <= i < |es| && IsBackupEntry(es[i])
    requires forall j :: 0 <= j < i && IsBackupEntry(es[j]) ==> es[j].value.modified <= es[i].value.modified
    ensures IsLatestAt(es, i, i + 1)
  {
  }

  /** Picks the latest backup among a directory's entries; with none, there are no backup files. */
  method LatestBackupIn(es: seq<Result<DirEntry>>) returns (r: Result<string>)
    ensures r.Err? <==> forall j :: 0 <= j < |es| ==> !IsBackupEntry(es[j])
    ensures r.Err? ==> r.error == NoBackupFiles
    ensures r.Ok? ==> exists k :: IsLatestAt(es, k, |es|) && r.value == es[k].value.path
  {
    var found := false;
    var best := 0;
    var i := 0;
    while i < |es|
      invariant 0 <= i <= |es|
      invariant found ==> IsLatestAt(es, best, i)
      invariant !found ==> forall j :: 0 <= j < i ==> !IsBackupEntry(es[j])
    {
      if IsBackupEntry(es[i]) && (!found || es[i].value.modified >= es[best].value.modified) {
        LatestReplaced(es, i);
        best := i;
        found := true;
      } else if found {
        LatestKept(es, best, i);
      }
      i := i + 1;
    }
    if !found {
      return Err(NoBackupFiles);
    }
    assert IsLatestAt(es, best, |es|);
    r := Ok(es[best].value.path);
  }

  // ---------------------------------------------------------------------------
  // Restoring

  /** `brew install <name> <options…>`, the options in their recorded order. */
  function FormulaInstall(p: Platform, f: FormulaBackup): Command {
    Brew(p, ["install", f.name] + f.options)
  }

  function CaskInstall(p: Platform, c: CaskBackup): Command {
    Brew(p, ["install", "--cask", c.name])
  }

  function TapCommands(p: Platform, taps: seq<string>): (cmds: seq<Command>)
    ensures |cmds| == |taps| && forall i :: 0 <= i < |taps| ==> cmds[i] == Homebrew.TapCommand(p, taps[i])
  {
    seq(|taps|, i requires 0 <= i < |taps| => Homebrew.TapCommand(p, taps[i]))
  }

  function FormulaInstalls(p: Platform, formulas: seq<FormulaBackup>): (cmds: seq<Command>)
    ensures |cmds| == |formulas| && forall i :: 0 <= i < |formulas| ==> cmds[i] == FormulaInstall(p, formulas[i])
  {
    seq(|formulas|, i requires 0 <= i < |formulas| => FormulaInstall(p, formulas[i]))
  }

  function CaskInstalls(p: Platform, casks: seq<CaskBackup>): (cmds: seq<Command>)
    ensures |cmds| == |casks| && forall i :: 0 <= i < |casks| ==> cmds[i] == CaskInstall(p, casks[i])
  {
    seq(|casks|, i requires 0 <= i < |casks| => CaskInstall(p, casks[i]))
  }

  /** Every tap, then every formula, then every cask, each in manifest order. */
  function RestorePlan(p: Platform, b: BackupFile): seq<Command> {
    TapCommands(p, b.taps) + FormulaInstalls(p, b.formulas) + CaskInstalls(p, b.casks)
  }

  /**
   * The plan's order: taps first, then formulas with their options, then casks; a tap
   * command is never an install and every install comes after every tap.
   */
  lemma RestorePlanOrder(p: Platform, b: BackupFile)
    ensures var plan := RestorePlan(p, b);
            |plan| == |b.taps| + |b.formulas| + |b.casks|
            && (forall i :: 0 <= i < |b.taps| ==> plan[i] == Homebrew.TapCommand(p, b.taps[i]))
            && (forall i :: 0 <= i < |b.formulas| ==> plan[|b.taps| + i] == FormulaInstall(p, b.formulas[i]))
            && (forall i :: 0 <= i < |b.casks| ==> plan[|b.taps| + |b.formulas| + i] == CaskInstall(p, b.casks[i]))
  {
  }

  /** The commands issued, the ✓/✗ mark of each that ran, and whether one could not start. */
  datatype Replayed = Replayed(issued: seq<Command>, marks: seq<bool>, aborted: bool)

  /**
   * Issues the commands in order.  A command that exits non-zero is marked ✗ and the next
   * one follows; a command that cannot start stops everything after it.
   */
  function Replay(sh: Shell, cmds: seq<Command>): Replayed
    decreases |cmds|
  {
    if cmds == [] then Replayed([], [], false)
    else if sh(cmds[0]).SpawnFailed? then Replayed([cmds[0]], [], true)
    else
      var rest := Replay(sh, cmds[1..]);
      Replayed([cmds[0]] + rest.issued, [Success(sh(cmds[0]))] + rest.marks, rest.aborted)
  }

  /** The position of the first command that cannot start, or the number of commands when all can. */
  function FirstSpawnFailure(sh: Shell, cmds: seq<Command>): (k: nat)
    ensures k <= |cmds|
    ensures forall i :: 0 <= i < k ==> !sh(cmds[i]).SpawnFailed?
    ensures k < |cmds| ==> sh(cmds[k]).SpawnFailed?
    decreases |cmds|
  {
    if cmds == [] || sh(cmds[0]).SpawnFailed? then 0
    else
      var k := FirstSpawnFailure(sh, cmds[1..]);
      assert forall i :: 1 <= i < |cmds| ==> cmds[i] == cmds[1..][i - 1];
      k + 1
  }

  /** Each command's ✓/✗ mark: whether it exited with status 0. */
  function Marks(sh: Shell, cmds: seq<Command>): (marks: seq<bool>)
    ensures |marks| == |cmds|
    ensures forall i :: 0 <= i < |cmds| ==> marks[i] == Success(sh(cmds[i]))
  {
    seq(|cmds|, i requires 0 <= i < |cmds| => Success(sh(cmds[i])))
  }

  /**
   * A replay in closed form: every command up to and including the first that cannot
   * start is issued, and every one before it is marked with its own exit status.
   */
  lemma {:induction false} ReplayClosedForm(sh: Shell, cmds: seq<Command>)
    ensures var k := FirstSpawnFailure(sh, cmds);
            Replay(sh, cmds)
            == if k < |cmds| then Replayed(cmds[..k + 1], Marks(sh, cmds[..k]), true)
               else Replayed(cmds, Marks(sh, cmds), false)
    decreases |cmds|
  {
    if cmds == [] {
    } else if sh(cmds[0]).SpawnFailed? {
      assert cmds[..1] == [cmds[0]];
    } else {
      var tail := cmds[1..];
      var rest := Replay(sh, tail);
      assert cmds == [cmds[0]] + tail;
      ReplayCons(sh, cmds[0], tail);
      ReplayClosedForm(sh, tail);
      var k := FirstSpawnFailure(sh, tail);
      assert FirstSpawnFailure(sh, cmds) == k + 1;
      if k < |tail| {
        assert rest == Replayed(tail[..k + 1], Marks(sh, tail[..k]), true);
        assert cmds[..k + 2] == [cmds[0]] + tail[..k + 1];
        assert cmds[..k + 1] == [cmds[0]] + tail[..k];
        MarksCons(sh, cmds[0], tail[..k]);
      } else {
        assert rest == Replayed(tail, Marks(sh, tail), false);
        MarksCons(sh, cmds[0], tail);
      }
    }
  }

  lemma MarksCons(sh: Shell, c: Command, cmds: seq<Command>)
    ensures Marks(sh, [c] + cmds) == [Success(sh(c))] + Marks(sh, cmds)
  {
    var m := [Success(sh(c))] + Marks(sh, cmds);
    assert forall i :: 1 <= i < |m| ==> m[i] == Marks(sh, cmds)[i - 1];
  }

  /** Replaying two lists one after the other is replaying their concatenation. */
  lemma {:induction false} ReplayAppend(sh: Shell, a: seq<Command>, b: seq<Command>)
    ensures Replay(sh, a).aborted ==> Replay(sh, a + b) == Replay(sh, a)
    ensures !Replay(sh, a).aborted ==>
              Replay(sh, a + b)
              == Replayed(a + Replay(sh, b).issued, Replay(sh, a).marks + Replay(sh, b).marks, Replay(sh, b).aborted)
    decreases |a|
  {
    if a == [] {
      assert a + b == b;
    } else {
      var c, tail := a[0], a[1..];
      assert a == [c] + tail;
      assert a + b == [c] + (tail + b);
      ReplayCons(sh, c, tail);
      ReplayCons(sh, c, tail + b);
      ReplayAppend(sh, tail, b);
      if !sh(c).SpawnFailed? && !Replay(sh, tail).aborted {
        var rb := Replay(sh, b);
        assert [c] + (tail + rb.issued) == a + rb.issued;
        assert [Success(sh(c))] + (Replay(sh, tail).marks + rb.marks)
            == ([Success(sh(c))] + Replay(sh, tail).marks) + rb.marks;
      }
    }
  }

  /** The first step of a replay. */
  lemma ReplayCons(sh: Shell, c: Command, rest: seq<Command>)
    ensures Replay(sh, [c] + rest)
            == if sh(c).SpawnFailed? then Replayed([c], [], true)
               else Replayed([c] + Replay(sh, rest).issued, [Success(sh(c))] + Replay(sh, rest).marks, Replay(sh, rest).aborted)
  {
    assert ([c] + rest)[0] == c;
    assert ([c] + rest)[1..] == rest;
  }

  /** One more step of a replay that has not stopped. */
  lemma ReplayStep(sh: Shell, cmds: seq<Command>, n: int)
    requires 0 <= n < |cmds| && !Replay(sh, cmds[..n]).aborted
    ensures var prev := Replay(sh, cmds[..n]);
            Replay(sh, cmds[..n + 1])
            == if sh(cmds[n]).SpawnFailed? then Replayed(prev.issued + [cmds[n]], prev.marks, true)
               else Replayed(prev.issued + [cmds[n]], prev.marks + [Success(sh(cmds[n]))], false)
  {
    var c := cmds[n];
    assert cmds[..n + 1] == cmds[..n] + [c];
    ReplayClosedForm(sh, cmds[..n]);
    ReplayAppend(sh, cmds[..n], [c]);
    assert [c][1..] == [];
    if sh(c).SpawnFailed? {
      assert Replay(sh, [c]) == Replayed([c], [], true);
    } else {
      assert Replay(sh, [c]) == Replayed([c], [Success(sh(c))], false);
    }
  }

  /** Once a replay has stopped, the commands after it change nothing. */
  lemma ReplayStopped(sh: Shell, cmds: seq<Command>, n: int)
    requires 0 <= n <= |cmds| && Replay(sh, cmds[..n]).aborted
    ensures Replay(sh, cmds) == Replay(sh, cmds[..n])
  {
    assert cmds == cmds[..n] + cmds[n..];
    ReplayAppend(sh, cmds[..n], cmds[n..]);
  }

  /** When every command starts, every command is issued and each mark is its own exit status. */
  lemma ReplayAllStart(sh: Shell, cmds: seq<Command>)
    requires forall i :: 0 <= i < |cmds| ==> !sh(cmds[i]).SpawnFailed?
    ensures Replay(sh, cmds).issued == cmds && !Replay(sh, cmds).aborted
    ensures |Replay(sh, cmds).marks| == |cmds|
    ensures forall i :: 0 <= i < |cmds| ==> Replay(sh, cmds).marks[i] == Success(sh(cmds[i]))
  {
    ReplayClosedForm(sh, cmds);
  }

  /** The first command that cannot start is the last one issued. */
  lemma ReplayStopsAtFirstSpawnFailure(sh: Shell, cmds: seq<Command>, k: int)
    requires 0 <= k < |cmds| && sh(cmds[k]).SpawnFailed?
    requires forall i :: 0 <= i < k ==> !sh(cmds[i]).SpawnFailed?
    ensures Replay(sh, cmds).aborted && Replay(sh, cmds).issued == cmds[..k + 1]
  {
    ReplayClosedForm(sh, cmds);
    assert FirstSpawnFailure(sh, cmds) == k;
  }

  /** The outcome of a restore: its result, the marks shown, and the commands issued. */
  datatype Restored = Restored(result: Result<Unit>, marks: seq<bool>, trace: seq<Command>)

  /** Reads a manifest: a missing file is an I/O error, content that is not a manifest a decoding error. */
  function ReadBackup(files: map<string, Content>, path: string): (r: Result<BackupFile>)
    ensures path in files && files[path].BackupDocument? <==> r.Ok?
    ensures r.Ok? ==> r.value == files[path].backup
  {
    if path !in files then Err(IoError(ReadOp, path))
    else match files[path]
      case OtherContent => Err(JsonError)
      case BackupDocument(b) => Ok(b)
  }

  /** A restore from a given file: nothing is issued unless the manifest reads; then the plan is replayed. */
  function RestoreSpec(p: Platform, sh: Shell, files: map<string, Content>, path: string): Restored {
    match ReadBackup(files, path)
    case Err(e) => Restored(Err(e), [], [])
    case Ok(b) =>
      var out := Replay(sh, RestorePlan(p, b));
      Restored(if out.aborted then Err(SpawnError(BrewProgram(p))) else Ok(Unit), out.marks, out.issued)
  }

  /** Restores from a manifest whose content is read before any command is issued. */
  lemma RestoreReadsFirst(p: Platform, sh: Shell, files: map<string, Content>, path: string)
    ensures ReadBackup(files, path).Err? ==>
              RestoreSpec(p, sh, files, path) == Restored(Err(ReadBackup(files, path).error), [], [])
    ensures RestoreSpec(p, sh, files, path).trace != [] ==> ReadBackup(files, path).Ok?
  {
  }

  /** The filesystem as backups see it. */
  class BackupDisk {
    /** The home directory, when it can be determined. */
    const home: Option<string>
    /** Paths at which the filesystem refuses to create a directory or write a file. */
    const refused: set<string>
    var dirs: set<string>
    var files: map<string, Content>

    constructor (home: Option<string>, refused: set<string>, dirs: set<string>, files: map<string, Content>)
      ensures this.home == home && this.refused == refused && this.dirs == dirs && this.files == files
    {
      this.home := home;
      this.refused := refused;
      this.dirs := dirs;
      this.files := files;
    }

    /** The backup directory exists in `d` or can be created. */
    predicate CanMakeBackupDir(d: set<string>) {
      home.Some? && (BackupDirOf(home.value) in d || BackupDirOf(home.value) !in refused)
    }

    /** The directories once the backup directory has been asked for. */
    function DirsAfter(d: set<string>): set<string> {
      if CanMakeBackupDir(d) then d + {BackupDirOf(home.value)} else d
    }

    /** `~/.bert/backups`, created when missing. */
    method BackupDir() returns (r: Result<string>)
      modifies this`dirs
      ensures home.None? ==> r == Err(HomeDirUnknown) && dirs == old(dirs)
      ensures home.Some? && BackupDirOf(home.value) in old(dirs) ==> r == Ok(BackupDirOf(home.value)) && dirs == old(dirs)
      ensures home.Some? && BackupDirOf(home.value) !in old(dirs) && BackupDirOf(home.value) in refused ==>
                r == Err(IoError(CreateDirOp, BackupDirOf(home.value))) && dirs == old(dirs)
      ensures home.Some? && BackupDirOf(home.value) !in old(dirs) && BackupDirOf(home.value) !in refused ==>
                r == Ok(BackupDirOf(home.value)) && dirs == old(dirs) + {BackupDirOf(home.value)}
    {
      if home.None? {
        return Err(HomeDirUnknown);
      }
      var dir := BackupDirOf(home.value);
      if dir !in dirs {
        if dir in refused {
          return Err(IoError(CreateDirOp, dir));
        }
        dirs := dirs + {dir};
      }
      r := Ok(dir);
    }

    /** The path given, or `bert_backup_<timestamp>.json` in the backup directory. */
    method BackupPath(custom: Option<string>, timestamp: string) returns (r: Result<string>)
      modifies this`dirs
      ensures custom.Some? ==> r == Ok(custom.value) && dirs == old(dirs)
      ensures custom.None? && home.None? ==> r == Err(HomeDirUnknown)
      ensures custom.None? ==> (r.Ok? <==> CanMakeBackupDir(old(dirs))) && dirs == DirsAfter(old(dirs))
      ensures custom.None? && home.Some? && !CanMakeBackupDir(old(dirs)) ==> r == Err(IoError(CreateDirOp, BackupDirOf(home.value)))
      ensures r.Ok? ==> home.Some? || custom.Some?
      ensures r.Ok? ==> r.value == BackupTarget(custom, if custom.Some? then "" else home.value, timestamp)
      ensures r.Ok? && custom.None? ==> BackupDirOf(home.value) in dirs
    {
      if custom.Some? {
        return Ok(custom.value);
      }
      var dir := BackupDir();
      if dir.Err? {
        return Err(dir.error);
      }
      r := Ok(Paths.Join(dir.value, BackupFileName(timestamp)));
    }

    /** The latest backup in the backup directory, given what reading that directory yields. */
    method GetLatestBackup(listing: Result<seq<Result<DirEntry>>>) returns (r: Result<string>)
      modifies this`dirs
      ensures dirs == DirsAfter(old(dirs))
      ensures home.None? ==> r == Err(HomeDirUnknown)
      ensures home.Some? && !CanMakeBackupDir(old(dirs)) ==> r == Err(IoError(CreateDirOp, BackupDirOf(home.value)))
      ensures CanMakeBackupDir(old(dirs)) && listing.Err? ==> r == Err(IoError(ListOp, BackupDirOf(home.value)))
      ensures CanMakeBackupDir(old(dirs)) && listing.Ok? ==>
                (r == Err(NoBackupFiles) <==> forall j :: 0 <= j < |listing.value| ==> !IsBackupEntry(listing.value[j]))
                && (r.Err? ==> r == Err(NoBackupFiles))
      ensures r.Ok? <==> CanMakeBackupDir(old(dirs)) && listing.Ok? && exists j :: 0 <= j < |listing.value| && IsBackupEntry(listing.value[j])
      ensures r.Ok? ==> home.Some? && listing.Ok? && exists k :: IsLatestAt(listing.value, k, |listing.value|) && r.value == listing.value[k].value.path
    {
      var dir := BackupDir();
      if dir.Err? {
        return Err(dir.error);
      }
      if listing.Err? {
        return Err(IoError(ListOp, dir.value));
      }
      r := LatestBackupIn(listing.value);
    }
  }

  /**
   * Takes a backup and writes it: the manifest goes to the path given or to a fresh name
   * in the backup directory, and only a complete manifest is written.
   */
  method CreateBackup(p: Platform, sh: Shell, disk: BackupDisk, custom: Option<string>, createdAt: string, timestamp: string)
    returns (r: Result<Unit>, trace: seq<Command>)
    modifies disk
    ensures var s := TakeSnapshot(p, sh, createdAt);
            trace == s.trace && (s.result.Err? ==> r == Err(s.result.error))
    ensures r.Err? ==> disk.files == old(disk.files)
    ensures TakeSnapshot(p, sh, createdAt).result.Ok? && (custom.Some? || disk.CanMakeBackupDir(old(disk.dirs))) ==>
              var target := BackupTarget(custom, if custom.Some? || disk.home.None? then "" else disk.home.value, timestamp);
              target in disk.refused ==> r == Err(IoError(WriteOp, target))
    ensures r.Ok? <==>
              TakeSnapshot(p, sh, createdAt).result.Ok?
              && (custom.Some? || disk.CanMakeBackupDir(old(disk.dirs)))
              && BackupTarget(custom, if custom.Some? || disk.home.None? then "" else disk.home.value, timestamp) !in disk.refused
    ensures disk.dirs == if TakeSnapshot(p, sh, createdAt).result.Ok? && custom.None? then disk.DirsAfter(old(disk.dirs)) else old(disk.dirs)
    ensures r.Ok? ==> custom.Some? || disk.home.Some?
    ensures r.Ok? ==>
              var s := TakeSnapshot(p, sh, createdAt);
              var target := BackupTarget(custom, if custom.Some? || disk.home.None? then "" else disk.home.value, timestamp);
              s.result.Ok?
              && disk.files == old(disk.files)[target := BackupDocument(s.result.value)]
              && ReadBackup(disk.files, target) == s.result
  {
    var s := TakeSnapshot(p, sh, createdAt);
    trace := s.trace;
    if s.result.Err? {
      return Err(s.result.error), trace;
    }
    var path := disk.BackupPath(custom, timestamp);
    if path.Err? {
      return Err(path.error), trace;
    }
    if path.value in disk.refused {
      return Err(IoError(WriteOp, path.value)), trace;
    }
    disk.files := disk.files[path.value := BackupDocument(s.result.value)];
    r := Ok(Unit);
  }

  /**
   * Issues commands one after another: one that exits non-zero is marked ✗ and the next
   * follows; one that cannot start ends the run.
   */
  method IssueEach(sh: Shell, cmds: seq<Command>) returns (marks: seq<bool>, trace: seq<Command>, aborted: bool)
    ensures Replayed(trace, marks, aborted) == Replay(sh, cmds)
  {
    marks, trace := [], [];
    var i := 0;
    while i < |cmds|
      invariant 0 <= i <= |cmds|
      invariant Replay(sh, cmds[..i]) == Replayed(trace, marks, false)
    {
      ReplayStep(sh, cmds, i);
      trace := trace + [cmds[i]];
      var o := sh(cmds[i]);
      if o.SpawnFailed? {
        ReplayStopped(sh, cmds, i + 1);
        return marks, trace, true;
      }
      marks := marks + [Success(o)];
      i := i + 1;
    }
    assert cmds[..|cmds|] == cmds;
    aborted := false;
  }

  /**
   * Restores from the manifest at `path`: taps, then formulas, then casks.  A command
   * that exits non-zero only marks its line; one that cannot start ends the restore.
   */
  method RestoreFrom(p: Platform, sh: Shell, disk: BackupDisk, path: string)
    returns (r: Result<Unit>, marks: seq<bool>, trace: seq<Command>)
    ensures Restored(r, marks, trace) == RestoreSpec(p, sh, disk.files, path)
  {
    var read := ReadBackup(disk.files, path);
    if read.Err? {
      return Err(read.error), [], [];
    }
    var b := read.value;
    var taps, formulas, casks := TapCommands(p, b.taps), FormulaInstalls(p, b.formulas), CaskInstalls(p, b.casks);
    ReplayAppend(sh, taps, formulas);
    ReplayAppend(sh, taps + formulas, casks);
    ReplayClosedForm(sh, taps);
    ReplayClosedForm(sh, formulas);
    var aborted;
    marks, trace, aborted := IssueEach(sh, taps);
    if !aborted {
      var marks', trace';
      marks', trace', aborted := IssueEach(sh, formulas);
      marks, trace := marks + marks', trace + trace';
      if !aborted {
        marks', trace', aborted := IssueEach(sh, casks);
        marks, trace := marks + marks', trace + trace';
      }
    }
    r := if aborted then Err(SpawnError(BrewProgram(p))) else Ok(Unit);
  }

  /** Restores from the file given, or else from the latest backup in the backup directory. */
  method RestoreBackup(p: Platform, sh: Shell, disk: BackupDisk, path: Option<string>, listing: Result<seq<Result<DirEntry>>>)
    returns (r: Result<Unit>, marks: seq<bool>, trace: seq<Command>)
    modifies disk`dirs
    ensures path.Some? ==> Restored(r, marks, trace) == RestoreSpec(p, sh, disk.files, path.value)
    ensures disk.dirs == if path.None? then disk.DirsAfter(old(disk.dirs)) else old(disk.dirs)
    ensures path.None? && disk.home.None? ==> r == Err(HomeDirUnknown) && trace == []
    ensures path.None? && disk.home.Some? && !disk.CanMakeBackupDir(old(disk.dirs)) ==>
              r == Err(IoError(CreateDirOp, BackupDirOf(disk.home.value))) && marks == [] && trace == []
    ensures path.None? && disk.CanMakeBackupDir(old(disk.dirs)) && listing.Err? ==>
              r == Err(IoError(ListOp, BackupDirOf(disk.home.value))) && marks == [] && trace == []
    ensures path.None? && disk.CanMakeBackupDir(old(disk.dirs)) && listing.Ok?
            && (forall j :: 0 <= j < |listing.value| ==> !IsBackupEntry(listing.value[j])) ==>
              r == Err(NoBackupFiles) && marks == [] && trace == []
    ensures path.None? && disk.CanMakeBackupDir(old(disk.dirs)) && listing.Ok?
            && (exists j :: 0 <= j < |listing.value| && IsBackupEntry(listing.value[j])) ==>
              exists k :: IsLatestAt(listing.value, k, |listing.value|)
                          && Restored(r, marks, trace) == RestoreSpec(p, sh, disk.files, listing.value[k].value.path)
    ensures path.None? && trace != [] ==>
              listing.Ok?
              && exists k :: IsLatestAt(listing.value, k, |listing.value|)
                             && Restored(r, marks, trace) == RestoreSpec(p, sh, disk.files, listing.value[k].value.path)
  {
    var source: string;
    if path.Some? {
      source := path.value;
    } else {
      var latest := disk.GetLatestBackup(listing);
      if latest.Err? {
        return Err(latest.error), [], [];
      }
      source := latest.value;
    }
    r, marks, trace := RestoreFrom(p, sh, disk, source);
  }
}
