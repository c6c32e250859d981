/** The `gitai` command line: `init`, `analyze [dir]` and `fmt [dir]`; exit status 1 is `process.exit(1)`. */
module Cli {
  import opened Wrappers
  import opened Seqs
  import opened Chains
  import opened Model
  import opened FileSystem
  import opened Resolver
  import opened Report
  import Registry
  import Runner
  import Prettier
  import Eslint
  import EslintFix

  // ---------------------------------------------------------------- init

  /** `{ version: 1, plugins: [], lint: {}, analyze: { ast: true, dataflow: true } }`. */
  function DefaultConfig(): Config
  {
    Config(Some(1), Some([]), None, None, map[], map["ast" := Bool(true), "dataflow" := Bool(true)])
  }

  /**
   * `gitai init`: refuses (status 1, nothing written) when anything exists at
   * `<cwd>/.gitai.yml`; otherwise writes the default configuration there, serialised by `dump`.
   */
  method Init(disk: Disk, cwd: string, dump: Config -> string) returns (code: int)
    modifies disk
    ensures Exists(old(disk.files), old(disk.dirs), ConfigPath(cwd)) ==> code == 1 && disk.files == old(disk.files)
    ensures !Exists(old(disk.files), old(disk.dirs), ConfigPath(cwd)) ==>
              code == 0 && disk.files == old(disk.files)[ConfigPath(cwd) := dump(DefaultConfig())]
    ensures disk.dirs == old(disk.dirs)
  {
    var path := ConfigPath(cwd);
    if Exists(disk.files, disk.dirs, path) {
      return 1;
    }
    disk.Write(path, dump(DefaultConfig()));
    code := 0;
  }

  /** After a successful `init`, `loadConfig` finds the default configuration, provided `parse` reads back what `dump` wrote. */
  lemma InitThenLoadConfig(files: Contents, dirs: set<string>, cwd: string, dump: Config -> string, parse: string -> Result<Config, Error>)
    requires !Exists(files, dirs, ConfigPath(cwd))
    requires parse(dump(DefaultConfig())) == Ok(DefaultConfig())
    ensures LoadConfig(files[ConfigPath(cwd) := dump(DefaultConfig())], dirs, cwd, parse) == Ok(DefaultConfig())
  {
  }

  /**
   * The default configuration registers no analyzer: `analyze` then fails only on a file it
   * cannot read, and otherwise reports nothing.
   */
  lemma FreshConfigFindsNothing(dir: string, host: Host, files: Contents)
    ensures Runner.AnalyzeSpec(dir, DefaultConfig(), host, files).Ok? <==>
              forall e :: e in ResolveEntries(dir, host, files) ==> e in files
    ensures Runner.AnalyzeSpec(dir, DefaultConfig(), host, files).Ok? ==>
              Runner.AnalyzeSpec(dir, DefaultConfig(), host, files).value == []
  {
    var cfg := DefaultConfig();
    var entries := ResolveEntries(dir, host, files);
    assert Registry.LoadPlugins([], host.cwd, host.modules) == Ok([]);
    var plugins: seq<Analyzer> := [];
    Runner.RunAnalysisFindings(entries, plugins, cfg, files);
    forall i | 0 <= i < |entries|
      ensures Runner.AnalyzeFile(files, cfg, plugins, entries[i]).Ok? <==> entries[i] in files
    {
      Runner.AnalyzeFileFindings(files, cfg, plugins, entries[i]);
    }
    var run := Runner.RunAnalysis(entries, plugins, cfg, files);
    if run.Ok? && run.value != [] {
      Runner.RunAnalysisAttribution(entries, plugins, cfg, files, run.value[0]);
      assert false;
    }
  }

  // ---------------------------------------------------------------- analyze

  /** `loadConfig(process.cwd())` followed by `analyze(dir, cfg)`. */
  function AnalyzeRun(dir: string, host: Host, files: Contents, dirs: set<string>, parse: string -> Result<Config, Error>): Result<seq<Finding>, Error>
  {
    var cfg :- LoadConfig(files, dirs, host.cwd, parse);
    Runner.AnalyzeSpec(dir, cfg, host, files)
  }

  /** Every finding names its plugin, so every finding can be shown. */
  predicate Attributed(fs: seq<Finding>)
  {
    forall i :: 0 <= i < |fs| ==> fs[i].plugin.Some?
  }

  lemma GroupAttributed(fs: seq<Finding>, k: string)
    requires Attributed(fs)
    ensures Attributed(FileGroup(fs, k))
  {
    var g := FileGroup(fs, k);
    forall j | 0 <= j < |g|
      ensures g[j].plugin.Some?
    {
      FileGroupMembers(fs, k, g[j]);
    }
  }

  /** The printed block for one file: its path relative to the working directory, then one line per finding. */
  datatype Section = Section(path: string, lines: seq<Line>)

  function Lines(g: seq<Finding>): (ls: seq<Line>)
    requires Attributed(g)
    ensures |ls| == |g|
  {
    seq(|g|, j requires 0 <= j < |g| => LineFor(g[j]))
  }

  /** A section per key of `order`, each with the lines of that key's group. */
  function Sections(fs: seq<Finding>, order: seq<string>, relative: string -> string): (r: seq<Section>)
    requires Attributed(fs)
    ensures |r| == |order|
  {
    seq(|order|, i requires 0 <= i < |order| =>
      GroupAttributed(fs, order[i]);
      Section(relative(order[i]), Lines(FileGroup(fs, order[i]))))
  }

  /** The report: a section per file in the order the files first appear. */
  function ReportOf(fs: seq<Finding>, relative: string -> string): seq<Section>
    requires Attributed(fs)
  {
    Sections(fs, Dedup(Keys(fs)), relative)
  }

  lemma SectionsStep(fs: seq<Finding>, order: seq<string>, relative: string -> string, i: nat)
    requires Attributed(fs) && i < |order|
    ensures Attributed(FileGroup(fs, order[i]))
    ensures Sections(fs, order, relative)[..i + 1]
            == Sections(fs, order, relative)[..i] + [Section(relative(order[i]), Lines(FileGroup(fs, order[i])))]
  {
    GroupAttributed(fs, order[i]);
  }

  /** The inner report loop: one line per finding of a group. */
  method SectionLines(items: seq<Finding>) returns (lines: seq<Line>)
    requires Attributed(items)
    ensures lines == Lines(items)
  {
    lines := [];
    var j := 0;
    while j < |items|
      invariant 0 <= j <= |items|
      invariant lines == Lines(items)[..j]
    {
      assert Lines(items)[..j + 1] == Lines(items)[..j] + [LineFor(items[j])];
      lines := lines + [LineFor(items[j])];
      j := j + 1;
    }
  }

  /** The report loop: group the findings by file, then one line per finding of each group. */
  method PrintReport(fs: seq<Finding>, relative: string -> string) returns (report: seq<Section>)
    requires Attributed(fs)
    ensures report == ReportOf(fs, relative)
  {
    var order, groups := GroupByFile(fs);
    ghost var sections := Sections(fs, order, relative);
    report := [];
    var i := 0;
    while i < |order|
      invariant 0 <= i <= |order|
      invariant report == sections[..i]
    {
      var items := groups[order[i]];
      SectionsStep(fs, order, relative, i);
      var lines := SectionLines(items);
      report := report + [Section(relative(order[i]), lines)];
      i := i + 1;
    }
    assert sections[..i] == sections;
  }

  /**
   * `gitai analyze [dir]`: status 0 exactly when the configuration loads and the run finds
   * nothing; a finding or an error gives status 1. A run with findings prints its report.
   */
  method AnalyzeCommand(dir: string, host: Host, disk: Disk, parse: string -> Result<Config, Error>, relative: string -> string)
    returns (code: int, report: seq<Section>)
    ensures var run := AnalyzeRun(dir, host, disk.files, disk.dirs, parse);
            && (code == 0 <==> run == Ok([]))
            && (code == 0 || code == 1)
            && (run.Ok? ==> Attributed(run.value) && report == ReportOf(run.value, relative))
            && (run.Err? ==> report == [])
  {
    var cfg := LoadConfig(disk.files, disk.dirs, host.cwd, parse);
    if cfg.Err? {
      return 1, [];
    }
    var findings := Runner.Analyze(dir, cfg.value, host, disk);
    if findings.Err? {
      return 1, [];
    }
    var fs := findings.value;
    Runner.AnalyzeFindingsAttributed(dir, cfg.value, host, disk.files);
    assert Attributed(fs) by {
      forall i | 0 <= i < |fs|
        ensures fs[i].plugin.Some?
      {
        assert fs[i] in fs;
      }
    }
    if |fs| == 0 {
      return 0, [];
    }
    report := PrintReport(fs, relative);
    code := 1;
  }

  /**
   * The report shows every finding once: one section per distinct file, in first-appearance
   * order, whose line counts add up to the number of findings.
   */
  lemma ReportShowsEveryFinding(fs: seq<Finding>, relative: string -> string)
    requires Attributed(fs)
    ensures |ReportOf(fs, relative)| == |Dedup(Keys(fs))|
    ensures forall i :: 0 <= i < |ReportOf(fs, relative)| ==>
              ReportOf(fs, relative)[i].path == relative(Dedup(Keys(fs))[i])
    ensures var r := ReportOf(fs, relative);
            SumLengths(seq(|r|, i requires 0 <= i < |r| => r[i].lines)) == |fs|
  {
    var r := ReportOf(fs, relative);
    var ks := Dedup(Keys(fs));
    GroupSizesTotal(fs);
    SumLengthsPointwise(seq(|r|, i requires 0 <= i < |r| => r[i].lines), Groups(fs, ks));
  }

  // ---------------------------------------------------------------- fmt

  /**
   * The `fmt` Prettier loop: each file is read, formatted with its resolved configuration
   * and `filepath`, and written and recorded (relative to the working directory) exactly
   * when the text changed; the first failure ends the loop with earlier writes kept.
   */
  method FmtPrettier(lib: Prettier.Library, disk: Disk, paths: seq<string>, relative: string -> string)
    returns (r: Result<seq<string>, Error>)
    modifies disk
    ensures disk.files == Prettier.Run(lib, map[], old(disk.files), paths).state
    ensures r == match Prettier.Run(lib, map[], old(disk.files), paths).result
                 case Ok(changed) => Ok(MapSeq(relative, changed))
                 case Err(e) => Err(e)
    ensures disk.dirs == old(disk.dirs)
  {
    ghost var step := Prettier.Step(lib, map[]);
    ghost var changed: seq<string> := [];
    var fixed: seq<string> := [];
    var i := 0;
    while i < |paths|
      invariant 0 <= i <= |paths|
      invariant Thread(old(disk.files), paths[..i], step) == Outcome(disk.files, Ok(changed))
      invariant fixed == MapSeq(relative, changed)
      invariant disk.dirs == old(disk.dirs)
    {
      var file := paths[i];
      ThreadStep(old(disk.files), paths, i, step);
      ghost var o := Prettier.FormatFile(lib, map[], disk.files, file);
      assert step(disk.files, file) == o;
      var source := ReadFile(disk.files, file);
      if source.Err? {
        ThreadPrefixErr(old(disk.files), paths, i + 1, step);
        return Err(source.error);
      }
      var options := lib.resolveConfig(file).GetOr(map[]);
      options := options["filepath" := Str(file)];
      ConfigWithoutOptions(lib, file);
      var formatted := lib.format(source.value, options);
      if formatted.Err? {
        ThreadPrefixErr(old(disk.files), paths, i + 1, step);
        return Err(formatted.error);
      }
      if formatted.value != source.value {
        disk.Write(file, formatted.value);
        changed := changed + [file];
        fixed := fixed + [relative(file)];
        assert o == Outcome(disk.files, Ok([file]));
      } else {
        assert o == Outcome(disk.files, Ok([]));
        assert changed + [] == changed;
      }
      i := i + 1;
    }
    assert paths[..i] == paths;
    r := Ok(fixed);
  }

  /** With no options of its own, the Prettier formatter's configuration is the CLI's: resolved, plus `filepath`. */
  lemma ConfigWithoutOptions(lib: Prettier.Library, file: string)
    ensures Prettier.ConfigFor(lib, file, map[]) == lib.resolveConfig(file).GetOr(map[])["filepath" := Str(file)]
  {
    assert lib.resolveConfig(file).GetOr(map[]) + map[] == lib.resolveConfig(file).GetOr(map[]);
  }

  /**
   * `gitai fmt [dir]`: ESLint with fixes on over `dir`, its fixes written; then the Prettier
   * loop over the `.js`/`.ts` files under `dir`. Status 1 on the first failure, with the
   * writes made before it kept. Also returns the two lists of fixed files the command prints.
   */
  method Fmt(dir: string, host: Host, lint: Eslint.Linter, lib: Prettier.Library, relative: string -> string, disk: Disk)
    returns (code: int, eslintFixed: seq<string>, prettierFixed: seq<string>)
    modifies disk
    ensures var linted := lint(old(disk.files), map["fix" := Bool(true)], [dir]);
            linted.Err? ==> code == 1 && disk.files == old(disk.files) && eslintFixed == [] && prettierFixed == []
    ensures var linted := lint(old(disk.files), map["fix" := Bool(true)], [dir]);
            var target := Resolve(host.cwd, dir);
            linted.Ok? ==>
              var run := Prettier.Run(lib, map[], EslintFix.OutputFixes(old(disk.files), linted.value),
                                      Glob(target, host.listing(target)));
              && eslintFixed == MapSeq(relative, EslintFix.FixedPaths(linted.value))
              && disk.files == run.state
              && (code == 0 <==> run.result.Ok?)
              && (code == 0 || code == 1)
              && prettierFixed == if run.result.Ok? then MapSeq(relative, run.result.value) else []
    ensures disk.dirs == old(disk.dirs)
  {
    eslintFixed, prettierFixed := [], [];
    var linted := lint(disk.files, map["fix" := Bool(true)], [dir]);
    if linted.Err? {
      return 1, [], [];
    }
    var results := linted.value;
    // ESLint.outputFixes(results)
    disk.files := EslintFix.OutputFixes(disk.files, results);
    eslintFixed := MapSeq(relative, EslintFix.FixedPaths(results));
    var target := Resolve(host.cwd, dir);
    var files := Glob(target, host.listing(target));
    var fixed := FmtPrettier(lib, disk, files, relative);
    if fixed.Err? {
      return 1, eslintFixed, [];
    }
    prettierFixed := fixed.value;
    code := 0;
  }

  /**
   * The two halves of `fmt` are the two bundled formatters with no options of their own:
   * the ESLint half is `eslint-fix` on `[dir]`, the Prettier loop is `prettier` on the globbed files.
   */
  lemma FmtMatchesFormatters(lint: Eslint.Linter, lib: Prettier.Library, files: Contents, dir: string, paths: seq<string>, cfg: Config)
    ensures EslintFix.Plugin(lint)(files, FormatInvocation([dir], cfg, map[]))
            == var linted := lint(files, map["fix" := Bool(true)], [dir]);
               if linted.Err? then Outcome(files, Err(linted.error))
               else Outcome(EslintFix.OutputFixes(files, linted.value), Ok(EslintFix.FixedPaths(linted.value)))
    ensures Prettier.Plugin(lib)(files, FormatInvocation(paths, cfg, map[])) == Prettier.Run(lib, map[], files, paths)
  {
    assert EslintFix.FixOptions(map[]) == map["fix" := Bool(true)];
  }
}
