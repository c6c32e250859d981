/**
 * Plugin loading (`loadPlugins`, `loadFormatters`): every configured entry is normalised,
 * resolved, `require`d and checked for its export; one bad entry fails the whole load.
 */
module Registry {
  import opened Wrappers
  import opened Model
  import opened Chains
  import opened FileSystem

  /** A plugin reference after normalisation: a bare path, or a path with its options. */
  datatype PluginRef = Bare(path: string) | Configured(path: string, options: Options)

  /** The options a reference carries; a bare reference carries `{}`. */
  function RefOptions(r: PluginRef): Options
  {
    match r
    case Bare(_) => map[]
    case Configured(_, o) => o
  }

  /**
   * A string entry becomes a bare reference; an object with a truthy `path` becomes that
   * path with `options || {}`; anything else (an object without `path`, an empty `path`,
   * null, a number) is an invalid entry.
   */
  function Normalize(e: Entry, capability: Capability): (r: Result<PluginRef, Error>)
    ensures r.Ok? <==> e.Text? || (e.Record? && Truthy(e.path))
    ensures r.Err? ==> r.error == InvalidEntry(capability, e)
    ensures e.Text? ==> r == Ok(Bare(e.text)) && RefOptions(r.value) == map[]
    ensures e.Record? && r.Ok? ==> r.value.path == e.path.value && RefOptions(r.value) == e.options.GetOr(map[])
  {
    match e
    case Text(s) => Ok(Bare(s))
    case Record(p, o) =>
      if Truthy(p) then Ok(Configured(p.value, o.GetOr(map[]))) else Err(InvalidEntry(capability, e))
    case Other => Err(InvalidEntry(capability, e))
  }

  predicate StartsWithDot(p: string)
  {
    |p| > 0 && p[0] == '.'
  }

  /**
   * The request handed to `require`: a reference starting with "." (not only "./") is
   * resolved against the repository root, any other is passed through unchanged.
   */
  function ResolveRef(root: string, p: string): (r: string)
    ensures r == p <==> !StartsWithDot(p)
    ensures StartsWithDot(p) ==> r == Resolve(root, p)
  {
    if StartsWithDot(p) then Resolve(root, p) else p
  }

  /** Whether a module has the export the capability names, as a function. */
  predicate Exports(m: Module, capability: Capability)
  {
    match capability
    case AnalyzeCap => m.analyze.Some?
    case FormatCap => m.format.Some?
  }

  /** A normalised reference together with the module it loaded. */
  datatype Located = Located(ref: PluginRef, loaded: Module)

  /**
   * Normalise, resolve, `require`, check the export. The errors come in that order; a
   * missing export is reported under the reference as written, not the resolved path.
   */
  function Locate(e: Entry, root: string, modules: map<string, Module>, capability: Capability): (r: Result<Located, Error>)
    ensures r.Ok? <==>
              && Normalize(e, capability).Ok?
              && ResolveRef(root, Normalize(e, capability).value.path) in modules
              && Exports(modules[ResolveRef(root, Normalize(e, capability).value.path)], capability)
    ensures r.Ok? ==>
              && r.value.ref == Normalize(e, capability).value
              && ResolveRef(root, r.value.ref.path) in modules
              && r.value.loaded == modules[ResolveRef(root, r.value.ref.path)]
              && Exports(r.value.loaded, capability)
    ensures Normalize(e, capability).Err? ==> r == Err(Normalize(e, capability).error)
    ensures r.Err? && Normalize(e, capability).Ok? ==>
              var p := Normalize(e, capability).value.path;
              r.error == if ResolveRef(root, p) in modules then MissingCapability(p, capability)
                         else ModuleNotFound(ResolveRef(root, p))
  {
    var ref :- Normalize(e, capability);
    var request := ResolveRef(root, ref.path);
    if request !in modules then Err(ModuleNotFound(request))
    else if !Exports(modules[request], capability) then Err(MissingCapability(ref.path, capability))
    else Ok(Located(ref, modules[request]))
  }

  /** One analyzer entry: `{ name: pluginPath, analyze: mod.analyze, options }`. */
  function LoadAnalyzer(e: Entry, root: string, modules: map<string, Module>): Result<Analyzer, Error>
  {
    var loc :- Locate(e, root, modules, AnalyzeCap);
    Ok(Analyzer(loc.ref.path, loc.loaded.analyze.value, RefOptions(loc.ref)))
  }

  /** One formatter entry: `{ name: pluginPath, format: mod.format, options }`. */
  function LoadFormatter(e: Entry, root: string, modules: map<string, Module>): Result<Formatter, Error>
  {
    var loc :- Locate(e, root, modules, FormatCap);
    Ok(Formatter(loc.ref.path, loc.loaded.format.value, RefOptions(loc.ref)))
  }

  function AnalyzerLoader(root: string, modules: map<string, Module>): Entry -> Result<Analyzer, Error>
  {
    e => LoadAnalyzer(e, root, modules)
  }

  function FormatterLoader(root: string, modules: map<string, Module>): Entry -> Result<Formatter, Error>
  {
    e => LoadFormatter(e, root, modules)
  }

  /** `loadPlugins(entries, repoRoot)`. */
  function LoadPlugins(entries: seq<Entry>, root: string, modules: map<string, Module>): Result<seq<Analyzer>, Error>
  {
    MapAll(entries, AnalyzerLoader(root, modules))
  }

  /** `loadFormatters(entries, repoRoot)`. */
  function LoadFormatters(entries: seq<Entry>, root: string, modules: map<string, Module>): Result<seq<Formatter>, Error>
  {
    MapAll(entries, FormatterLoader(root, modules))
  }

  /**
   * Loading analyzers is all-or-nothing: it succeeds exactly when every entry locates a
   * module exporting `analyze`, and then yields one handle per entry, in order, named by
   * the reference as written; otherwise it fails with the first failing entry's error.
   */
  lemma LoadPluginsAllOrNothing(entries: seq<Entry>, root: string, modules: map<string, Module>)
    ensures var r := LoadPlugins(entries, root, modules);
            && (r.Ok? <==> forall i :: 0 <= i < |entries| ==> Locate(entries[i], root, modules, AnalyzeCap).Ok?)
            && (r.Ok? ==> |r.value| == |entries|)
            && (r.Ok? ==> forall i :: 0 <= i < |entries| ==>
                  var ref := Normalize(entries[i], AnalyzeCap).value;
                  && r.value[i].name == ref.path
                  && r.value[i].options == RefOptions(ref)
                  && Some(r.value[i].analyze) == modules[ResolveRef(root, ref.path)].analyze)
            && (r.Err? ==> exists k ::
                  && 0 <= k < |entries|
                  && Locate(entries[k], root, modules, AnalyzeCap) == Err(r.error)
                  && forall i :: 0 <= i < k ==> Locate(entries[i], root, modules, AnalyzeCap).Ok?)
  {
    var f := AnalyzerLoader(root, modules);
    MapAllOk(entries, f);
    if LoadPlugins(entries, root, modules).Err? {
      MapAllFirstError(entries, f);
    }
  }

  /** The same guarantee for formatters, whose export is `format`. */
  lemma LoadFormattersAllOrNothing(entries: seq<Entry>, root: string, modules: map<string, Module>)
    ensures var r := LoadFormatters(entries, root, modules);
            && (r.Ok? <==> forall i :: 0 <= i < |entries| ==> Locate(entries[i], root, modules, FormatCap).Ok?)
            && (r.Ok? ==> |r.value| == |entries|)
            && (r.Ok? ==> forall i :: 0 <= i < |entries| ==>
                  var ref := Normalize(entries[i], FormatCap).value;
                  && r.value[i].name == ref.path
                  && r.value[i].options == RefOptions(ref)
                  && Some(r.value[i].format) == modules[ResolveRef(root, ref.path)].format)
            && (r.Err? ==> exists k ::
                  && 0 <= k < |entries|
                  && Locate(entries[k], root, modules, FormatCap) == Err(r.error)
                  && forall i :: 0 <= i < k ==> Locate(entries[i], root, modules, FormatCap).Ok?)
  {
    var f := FormatterLoader(root, modules);
    MapAllOk(entries, f);
    if LoadFormatters(entries, root, modules).Err? {
      MapAllFirstError(entries, f);
    }
  }
}
