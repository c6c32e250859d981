/** The two orchestration runs: `analyze(dir, cfg)` and `format(dir, cfg)`. */
module Runner {
  import opened Wrappers
  import opened Seqs
  import opened Chains
  import opened Model
  import opened FileSystem
  import opened Registry
  import opened Resolver

  // ---------------------------------------------------------------- analysis

  /**
   * `{ plugin: name, ...f }`: the handle's name is put first, so a `plugin` key the
   * plugin supplied itself wins; every other key, `file` included, is the plugin's own.
   */
  function Stamp(name: string, f: Finding): (g: Finding)
    ensures g.plugin == if f.plugin.Some? then f.plugin else Some(name)
    ensures g.file == f.file && g.line == f.line && g.severity == f.severity && g.message == f.message
  {
    if f.plugin.Some? then f else f.(plugin := Some(name))
  }

  function StampAll(name: string, fs: seq<Finding>): (r: seq<Finding>)
    ensures |r| == |fs|
    ensures forall k :: 0 <= k < |fs| ==> r[k] == Stamp(name, fs[k])
  {
    seq(|fs|, k requires 0 <= k < |fs| => Stamp(name, fs[k]))
  }

  /** What an analyzer returns for one file, before stamping. */
  function Raw(h: Analyzer, file: string, source: string, cfg: Config): Result<seq<Finding>, Error>
  {
    h.analyze(AnalyzeInvocation(file, source, cfg, h.options))
  }

  /** One analyzer on one file, its findings stamped. */
  function PluginStep(file: string, source: string, cfg: Config): Analyzer -> Result<seq<Finding>, Error>
  {
    h =>
      match Raw(h, file, source, cfg)
      case Ok(out) => Ok(StampAll(h.name, out))
      case Err(e) => Err(e)
  }

  /** One file: read it once, then every analyzer in registration order. */
  function AnalyzeFile(files: Contents, cfg: Config, plugins: seq<Analyzer>, file: string): Result<seq<Finding>, Error>
  {
    var source :- ReadFile(files, file);
    Chain(plugins, PluginStep(file, source, cfg))
  }

  function FileStep(files: Contents, cfg: Config, plugins: seq<Analyzer>): string -> Result<seq<Finding>, Error>
  {
    file => AnalyzeFile(files, cfg, plugins, file)
  }

  /** The analyzers run over the resolved files: file-major, plugin-minor. */
  function RunAnalysis(entries: seq<string>, plugins: seq<Analyzer>, cfg: Config, files: Contents): Result<seq<Finding>, Error>
  {
    Chain(entries, FileStep(files, cfg, plugins))
  }

  /** `analyze(dir, cfg)`: plugins are loaded before the entries are resolved. */
  function AnalyzeSpec(dir: string, cfg: Config, host: Host, files: Contents): Result<seq<Finding>, Error>
  {
    var plugins :- LoadPlugins(cfg.plugins.GetOr([]), host.cwd, host.modules);
    RunAnalysis(ResolveEntries(dir, host, files), plugins, cfg, files)
  }

  /** The body of the loop over files: every analyzer on one file, pushing stamped findings. */
  method AnalyzeSource(file: string, source: string, cfg: Config, plugins: seq<Analyzer>, findings: seq<Finding>)
    returns (r: Result<seq<Finding>, Error>)
    ensures r == match Chain(plugins, PluginStep(file, source, cfg))
                 case Ok(v) => Ok(findings + v)
                 case Err(e) => Err(e)
  {
    ghost var step := PluginStep(file, source, cfg);
    var acc := findings;
    var j := 0;
    while j < |plugins|
      invariant 0 <= j <= |plugins|
      invariant Chain(plugins[..j], step).Ok?
      invariant acc == findings + Chain(plugins[..j], step).value
    {
      var plugin := plugins[j];
      var result := plugin.analyze(AnalyzeInvocation(file, source, cfg, plugin.options));
      ChainStep(plugins, j, step);
      if result.Err? {
        ChainPrefixErr(plugins, j + 1, step);
        return Err(result.error);
      }
      ghost var mid := acc;
      var k := 0;
      while k < |result.value|
        invariant 0 <= k <= |result.value|
        invariant acc == mid + StampAll(plugin.name, result.value[..k])
      {
        assert StampAll(plugin.name, result.value[..k + 1])
            == StampAll(plugin.name, result.value[..k]) + [Stamp(plugin.name, result.value[k])];
        acc := acc + [Stamp(plugin.name, result.value[k])];
        k := k + 1;
      }
      assert result.value[..k] == result.value;
      j := j + 1;
    }
    assert plugins[..j] == plugins;
    r := Ok(acc);
  }

  /** `analyze(dir, cfg)`, with its loop over the resolved files. */
  method Analyze(dir: string, cfg: Config, host: Host, disk: Disk) returns (r: Result<seq<Finding>, Error>)
    ensures r == AnalyzeSpec(dir, cfg, host, disk.files)
  {
    var loaded := LoadPlugins(cfg.plugins.GetOr([]), host.cwd, host.modules);
    if loaded.Err? {
      return Err(loaded.error);
    }
    var plugins := loaded.value;
    var entries := ResolveEntries(dir, host, disk.files);
    ghost var step := FileStep(disk.files, cfg, plugins);
    var findings: seq<Finding> := [];
    var i := 0;
    while i < |entries|
      invariant 0 <= i <= |entries|
      invariant Chain(entries[..i], step) == Ok(findings)
    {
      var file := entries[i];
      var source := ReadFile(disk.files, file);
      ChainStep(entries, i, step);
      if source.Err? {
        ChainPrefixErr(entries, i + 1, step);
        return Err(source.error);
      }
      var next := AnalyzeSource(file, source.value, cfg, plugins, findings);
      if next.Err? {
        ChainPrefixErr(entries, i + 1, step);
        return Err(next.error);
      }
      findings := next.value;
      i := i + 1;
    }
    assert entries[..i] == entries;
    r := Ok(findings);
  }

  /**
   * With no files to analyze no analyzer is called and the result is empty; a bad plugin
   * list still fails, because plugins are loaded first.
   */
  lemma AnalyzeNoFiles(dir: string, cfg: Config, host: Host, files: Contents)
    requires ResolveEntries(dir, host, files) == []
    ensures AnalyzeSpec(dir, cfg, host, files)
            == match LoadPlugins(cfg.plugins.GetOr([]), host.cwd, host.modules)
               case Ok(_) => Ok([])
               case Err(e) => Err(e)
  {
  }

  /** A plugin list that does not load fails the run, whatever the files. */
  lemma AnalyzeLoadsPluginsFirst(dir: string, cfg: Config, host: Host, files: Contents)
    requires LoadPlugins(cfg.plugins.GetOr([]), host.cwd, host.modules).Err?
    ensures AnalyzeSpec(dir, cfg, host, files) == Err(LoadPlugins(cfg.plugins.GetOr([]), host.cwd, host.modules).error)
  {
  }

  /** What `Raw` returned, or nothing if it failed. */
  function Reported(h: Analyzer, file: string, source: string, cfg: Config): seq<Finding>
  {
    match Raw(h, file, source, cfg)
    case Ok(out) => out
    case Err(_) => []
  }

  /**
   * One file succeeds exactly when it can be read and every analyzer succeeds on it; its
   * findings are then each analyzer's findings, stamped, in registration order, and their
   * number is the sum of what the analyzers returned.
   */
  lemma AnalyzeFileFindings(files: Contents, cfg: Config, plugins: seq<Analyzer>, file: string)
    ensures AnalyzeFile(files, cfg, plugins, file).Ok? <==>
              file in files && forall j :: 0 <= j < |plugins| ==> Raw(plugins[j], file, files[file], cfg).Ok?
    ensures AnalyzeFile(files, cfg, plugins, file).Ok? ==>
              var source := files[file];
              && AnalyzeFile(files, cfg, plugins, file).value
                 == Concat(seq(|plugins|, j requires 0 <= j < |plugins| =>
                             StampAll(plugins[j].name, Reported(plugins[j], file, source, cfg))))
              && |AnalyzeFile(files, cfg, plugins, file).value|
                 == SumLengths(seq(|plugins|, j requires 0 <= j < |plugins| => Reported(plugins[j], file, source, cfg)))
  {
    if file in files {
      var source := files[file];
      var step := PluginStep(file, source, cfg);
      ChainOk(plugins, step);
      if Chain(plugins, step).Ok? {
        var vs := MapAll(plugins, step).value;
        var stamped := seq(|plugins|, j requires 0 <= j < |plugins| =>
                         StampAll(plugins[j].name, Reported(plugins[j], file, source, cfg)));
        var raw := seq(|plugins|, j requires 0 <= j < |plugins| => Reported(plugins[j], file, source, cfg));
        assert vs == stamped;
        SumLengthsPointwise(vs, raw);
      }
    }
  }

  /**
   * The run succeeds exactly when every file does; its findings are the files' findings in
   * the order the files were resolved, and their number is the sum over the files.
   */
  lemma RunAnalysisFindings(entries: seq<string>, plugins: seq<Analyzer>, cfg: Config, files: Contents)
    ensures RunAnalysis(entries, plugins, cfg, files).Ok? <==>
              forall i :: 0 <= i < |entries| ==> AnalyzeFile(files, cfg, plugins, entries[i]).Ok?
    ensures RunAnalysis(entries, plugins, cfg, files).Ok? ==>
              var perFile := seq(|entries|, i requires 0 <= i < |entries| =>
                               AnalyzeFile(files, cfg, plugins, entries[i]).value);
              && RunAnalysis(entries, plugins, cfg, files).value == Concat(perFile)
              && |RunAnalysis(entries, plugins, cfg, files).value| == SumLengths(perFile)
  {
    var step := FileStep(files, cfg, plugins);
    ChainOk(entries, step);
    if Chain(entries, step).Ok? {
      var perFile := seq(|entries|, i requires 0 <= i < |entries| =>
                       AnalyzeFile(files, cfg, plugins, entries[i]).value);
      assert MapAll(entries, step).value == perFile;
    }
  }

  /**
   * Attribution: every finding of a successful run is a finding some analyzer reported for
   * some resolved file, stamped with that analyzer's name; so every finding names a plugin.
   */
  lemma RunAnalysisAttribution(entries: seq<string>, plugins: seq<Analyzer>, cfg: Config, files: Contents, f: Finding)
    requires RunAnalysis(entries, plugins, cfg, files).Ok?
    requires f in RunAnalysis(entries, plugins, cfg, files).value
    ensures f.plugin.Some?
    ensures exists i, j, g :: 0 <= i < |entries| && 0 <= j < |plugins| && entries[i] in files &&
              g in Reported(plugins[j], entries[i], files[entries[i]], cfg) && f == Stamp(plugins[j].name, g)
  {
    RunAnalysisFindings(entries, plugins, cfg, files);
    var perFile := seq(|entries|, i requires 0 <= i < |entries| =>
                     AnalyzeFile(files, cfg, plugins, entries[i]).value);
    ConcatMember(perFile, f);
    var i :| 0 <= i < |entries| && f in perFile[i];
    var file := entries[i];
    AnalyzeFileFindings(files, cfg, plugins, file);
    var source := files[file];
    var stamped := seq(|plugins|, j requires 0 <= j < |plugins| =>
                     StampAll(plugins[j].name, Reported(plugins[j], file, source, cfg)));
    ConcatMember(stamped, f);
    var j :| 0 <= j < |plugins| && f in stamped[j];
    var k :| 0 <= k < |stamped[j]| && stamped[j][k] == f;
    var g := Reported(plugins[j], file, source, cfg)[k];
    assert f == Stamp(plugins[j].name, g);
  }

  /** Every finding of a successful `analyze` names the plugin it is attributed to. */
  lemma AnalyzeFindingsAttributed(dir: string, cfg: Config, host: Host, files: Contents)
    requires AnalyzeSpec(dir, cfg, host, files).Ok?
    ensures forall f :: f in AnalyzeSpec(dir, cfg, host, files).value ==> f.plugin.Some?
  {
    var plugins := LoadPlugins(cfg.plugins.GetOr([]), host.cwd, host.modules).value;
    var entries := ResolveEntries(dir, host, files);
    forall f | f in AnalyzeSpec(dir, cfg, host, files).value
      ensures f.plugin.Some?
    {
      RunAnalysisAttribution(entries, plugins, cfg, files, f);
    }
  }

  // ---------------------------------------------------------------- formatting

  /** `dir === '.' && cfg.formatDir ? cfg.formatDir : dir`. */
  function FormatTarget(dir: string, cfg: Config): (t: string)
    ensures dir == "." && Truthy(cfg.formatDir) ==> t == cfg.formatDir.value
    ensures t != dir ==> dir == "." && Truthy(cfg.formatDir)
  {
    if dir == "." && Truthy(cfg.formatDir) then cfg.formatDir.value else dir
  }

  /** One formatter over the whole file set, on the disk as it stands. */
  function FormatterStep(entries: seq<string>, cfg: Config): (Contents, Formatter) -> FormatOutcome
  {
    (files: Contents, f: Formatter) => f.format(files, FormatInvocation(entries, cfg, f.options))
  }

  /** The formatters in registration order, each seeing what the earlier ones wrote. */
  function RunFormatters(files: Contents, formatters: seq<Formatter>, entries: seq<string>, cfg: Config): FormatOutcome
  {
    Thread(files, formatters, FormatterStep(entries, cfg))
  }

  /** `format(dir, cfg)`: the disk afterwards, and the de-duplicated changed paths or the error. */
  function FormatSpec(dir: string, cfg: Config, host: Host, files: Contents): FormatOutcome
  {
    match LoadFormatters(cfg.formatters.GetOr([]), host.cwd, host.modules)
    case Err(e) => Outcome(files, Err(e))
    case Ok(formatters) =>
      var entries := ResolveEntries(FormatTarget(dir, cfg), host, files);
      var o := RunFormatters(files, formatters, entries, cfg);
      Outcome(o.state, if o.result.Err? then Err(o.result.error) else Ok(Dedup(o.result.value)))
  }

  /** `format(dir, cfg)`, with its loop over the formatters. */
  method Format(dir: string, cfg: Config, host: Host, disk: Disk) returns (r: Result<seq<string>, Error>)
    modifies disk
    ensures disk.files == FormatSpec(dir, cfg, host, old(disk.files)).state
    ensures r == FormatSpec(dir, cfg, host, old(disk.files)).result
    ensures disk.dirs == old(disk.dirs)
  {
    var loaded := LoadFormatters(cfg.formatters.GetOr([]), host.cwd, host.modules);
    if loaded.Err? {
      return Err(loaded.error);
    }
    var formatters := loaded.value;
    var entries := ResolveEntries(FormatTarget(dir, cfg), host, disk.files);
    ghost var step := FormatterStep(entries, cfg);
    var changed: seq<string> := [];
    var i := 0;
    while i < |formatters|
      invariant 0 <= i <= |formatters|
      invariant Thread(old(disk.files), formatters[..i], step) == Outcome(disk.files, Ok(changed))
      invariant disk.dirs == old(disk.dirs)
    {
      var f := formatters[i];
      var out := f.format(disk.files, FormatInvocation(entries, cfg, f.options));
      ThreadStep(old(disk.files), formatters, i, step);
      disk.files := out.state;
      if out.result.Err? {
        ThreadPrefixErr(old(disk.files), formatters, i + 1, step);
        return Err(out.result.error);
      }
      changed := changed + out.result.value;
      i := i + 1;
    }
    assert formatters[..i] == formatters;
    r := Ok(Dedup(changed));
  }

  /**
   * The result of a successful `format` is a set: no path twice, exactly the paths some
   * formatter reported, in the order of their first report.
   */
  lemma FormatResultIsSet(dir: string, cfg: Config, host: Host, files: Contents)
    requires FormatSpec(dir, cfg, host, files).result.Ok?
    ensures LoadFormatters(cfg.formatters.GetOr([]), host.cwd, host.modules).Ok?
    ensures var formatters := LoadFormatters(cfg.formatters.GetOr([]), host.cwd, host.modules).value;
            var entries := ResolveEntries(FormatTarget(dir, cfg), host, files);
            var all := RunFormatters(files, formatters, entries, cfg).result;
            var r := FormatSpec(dir, cfg, host, files).result.value;
            && all.Ok?
            && NoDup(r)
            && (forall p :: p in r <==> p in all.value)
            && IsSubsequence(r, all.value)
            && InFirstOccurrenceOrder(r, all.value)
  {
    var formatters := LoadFormatters(cfg.formatters.GetOr([]), host.cwd, host.modules).value;
    var entries := ResolveEntries(FormatTarget(dir, cfg), host, files);
    var all := RunFormatters(files, formatters, entries, cfg).result.value;
    var r := Dedup(all);
    DedupOrder(all);
    forall p
      ensures p in r <==> p in all
    {
      if p in r {
        var k :| 0 <= k < |r| && r[k] == p;
      }
      if p in all {
        var k :| 0 <= k < |all| && all[k] == p;
      }
    }
  }

  /** Formatter `i` succeeded on the disk the formatters before it left, and its output is the next disk. */
  predicate AppliedToPrevious(files: Contents, formatters: seq<Formatter>, entries: seq<string>, cfg: Config, i: nat)
    requires i < |formatters|
  {
    var before := RunFormatters(files, formatters[..i], entries, cfg).state;
    var o := formatters[i].format(before, FormatInvocation(entries, cfg, formatters[i].options));
    && o.result.Ok?
    && RunFormatters(files, formatters[..i + 1], entries, cfg).state == o.state
  }

  /**
   * Composition: in a successful run each formatter is applied to the disk exactly as the
   * formatters before it left it, and the changed paths are their reports in order. So for
   * formatters `[A, B]` the disk ends as B applied to A's output.
   */
  lemma RunFormattersComposes(files: Contents, formatters: seq<Formatter>, entries: seq<string>, cfg: Config)
    requires RunFormatters(files, formatters, entries, cfg).result.Ok?
    ensures forall i :: 0 <= i < |formatters| ==> AppliedToPrevious(files, formatters, entries, cfg, i)
    ensures RunFormatters(files, formatters, entries, cfg).result.value
            == Concat(StepOutputs(files, formatters, FormatterStep(entries, cfg)))
  {
    var step := FormatterStep(entries, cfg);
    ThreadOkSteps(files, formatters, step);
    ThreadOk(files, formatters, step);
    forall i | 0 <= i < |formatters|
      ensures AppliedToPrevious(files, formatters, entries, cfg, i)
    {
      var before := Thread(files, formatters[..i], step);
      assert step(before.state, formatters[i]).result.Ok?;
      if before.result.Err? {
        ThreadPrefixErr(files, formatters, i, step);
        assert false;
      }
      ThreadStep(files, formatters, i, step);
    }
  }

  /**
   * Formatting is not transactional: a failing formatter ends the run with its error, and
   * the disk keeps what the formatters before it, and the failing one, wrote.
   */
  lemma RunFormattersFailFast(files: Contents, formatters: seq<Formatter>, entries: seq<string>, cfg: Config)
    requires RunFormatters(files, formatters, entries, cfg).result.Err?
    ensures exists k :: 0 <= k < |formatters| &&
              RunFormatters(files, formatters[..k], entries, cfg).result.Ok? &&
              var o := formatters[k].format(RunFormatters(files, formatters[..k], entries, cfg).state,
                                            FormatInvocation(entries, cfg, formatters[k].options));
              o.result.Err? && RunFormatters(files, formatters, entries, cfg) == Outcome(o.state, Err(o.result.error))
  {
    ThreadFirstError(files, formatters, FormatterStep(entries, cfg));
  }
}
