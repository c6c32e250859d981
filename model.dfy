/** The values the plugin manager passes around: configuration, plugin entries, findings, loaded modules. */
module Model {
  import opened Wrappers
  import opened Chains

  /** A scalar configuration or option value. */
  datatype Value = Null | Bool(b: bool) | Num(n: int) | Str(s: string)

  /** An options bag, keyed by option name. */
  type Options = map<string, Value>

  /** File contents by path. */
  type Contents = map<string, string>

  /**
   * One element of the configured `plugins` or `formatters` list, as the YAML document
   * gives it: a string, an object (whose `path` and `options` are `None` when absent or
   * `null`; an empty `path` is `Some("")` and is falsy), or any other value.
   */
  datatype Entry =
    | Text(text: string)
    | Record(path: Option<string>, options: Option<Options>)
    | Other

  /**
   * The parsed `.gitai.yml`. `None` is a key that is absent or `null`, the only falsy values
   * a list or an object key can take, so `GetOr` is the source's `||` default; `formatDir` is
   * a string, whose falsy `""` is tested separately with `Truthy`.
   */
  datatype Config = Config(
    version: Option<int>,
    plugins: Option<seq<Entry>>,
    formatters: Option<seq<Entry>>,
    formatDir: Option<string>,
    lint: Options,
    analyze: Options)

  /**
   * One reported issue; every key is optional because plugins build findings freely. `None`
   * is a key that is absent; a present falsy value such as `""` or `0` is `Some`.
   */
  datatype Finding = Finding(
    plugin: Option<string>,
    file: Option<string>,
    line: Option<int>,
    severity: Option<int>,
    message: Option<string>)

  /** The export a plugin module must provide: `analyze()` or `format()`. */
  datatype Capability = AnalyzeCap | FormatCap

  /** Everything the engine and its plugins can throw. */
  datatype Error =
    | ConfigMissing
    | ParseFailed(reason: string)
    | InvalidEntry(capability: Capability, entry: Entry)
    | ModuleNotFound(request: string)
    | MissingCapability(reference: string, capability: Capability)
    | ReadFailed(path: string)
    | PluginFailed(reason: string)

  /** The argument of an analyzer call: `{ file, source, config, options }`. */
  datatype AnalyzeInvocation = AnalyzeInvocation(file: string, source: string, config: Config, options: Options)

  /** The argument of a formatter call: `{ files, config, options }`. */
  datatype FormatInvocation = FormatInvocation(files: seq<string>, config: Config, options: Options)

  /** What a formatter leaves on disk, and the paths it reports as changed (or what it threw). */
  type FormatOutcome = Outcome<Contents, string, Error>

  /** An `analyze()` export. */
  type AnalyzeFn = AnalyzeInvocation -> Result<seq<Finding>, Error>

  /** A `format()` export: it sees the files on disk and may rewrite them. */
  type FormatFn = (Contents, FormatInvocation) -> FormatOutcome

  /** A loaded module and the two exports the engine looks for. */
  datatype Module = Module(analyze: Option<AnalyzeFn>, format: Option<FormatFn>)

  /** A loaded analyzer: `{ name, analyze, options }`. */
  datatype Analyzer = Analyzer(name: string, analyze: AnalyzeFn, options: Options)

  /** A loaded formatter: `{ name, format, options }`. */
  datatype Formatter = Formatter(name: string, format: FormatFn, options: Options)

  /**
   * What the engine takes from its process: the working directory, the modules
   * `require` can load (keyed by request string), and the directory lister behind
   * fast-glob (paths below a directory, relative to it, in traversal order).
   */
  datatype Host = Host(cwd: string, modules: map<string, Module>, listing: string -> seq<string>)

  /** JavaScript truthiness of an optional string: present and non-empty. */
  predicate Truthy(s: Option<string>)
  {
    s.Some? && s.value != ""
  }
}
