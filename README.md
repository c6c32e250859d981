# gitai plugin orchestration, modelled in Dafny

gitai is a command-line "copilot" for JavaScript/TypeScript repositories. Its
plugin manager reads `.gitai.yml` and loads the analyzer and formatter plugins
the file lists. An analyzer is a module exporting `analyze`; a formatter is a
module exporting `format`. The manager then runs the analyzers over every
`.js`/`.ts` file and collects their findings. It also runs the formatters in
order over the same files, each on the disk the previous ones left. Two
formatters ship with the manager: Prettier and ESLint `--fix`. So does one
analyzer, ESLint. The CLI (`gitai init | analyze | fmt`) prints findings
grouped by file and maps the outcome to an exit status.

The model is split into modules:

- `Model`: configuration entries, `Config`, `Finding`, errors, and plugins as
  functions.
- `FileSystem`: the disk as a `Disk` object whose `files` map the methods
  rewrite.
- `Registry`: `loadPlugins` and `loadFormatters`.
- `Resolver`: `loadConfig` and `_resolveEntries`.
- `Runner`: `analyze` and `format`.
- `Prettier`, `Eslint` and `EslintFix`: the three bundled plugins.
- `Report`: grouping by file, severity labels and plugin display names.
- `Cli`: the three commands.
- `Seqs` and `Chains`: sequence facts and the three failure-propagation
  combinators the code uses.
  - `MapAll`: a `map` whose callback may throw.
  - `Chain`: a concatenating loop.
  - `Thread`: a loop that threads the disk through its steps and keeps partial
    writes.

Code that loops or writes files is a `method` proved against a specification
function; the properties are stated as lemmas about those functions.

Two behaviours of the runner are easy to miss:

- An error a plugin throws while running propagates unwrapped: it is not wrapped
  with the plugin's name.
- The runner adds only `plugin` to a finding, via `{ plugin: name, ...f }`.
  - It never adds `file`.
  - A `plugin` key the analyzer supplied itself wins over the handle's name.

Formatting is not transactional. A failing formatter leaves earlier writes on
disk, and so does a failing file inside a formatter.

## Model

| member | source | states |
|---|---|---|
| Resolver.LoadConfig | packages/plugin-manager/src/index.js:9-15 | no `.gitai.yml` under the root gives the "run `gitai init` first" error; an existing file is parsed; an existing non-file fails to read |
| Registry.Normalize | packages/plugin-manager/src/index.js:23-32 | a string entry, or an object with a truthy `path`, is accepted, and nothing else is; options default to `{}`; rejections name the entry |
| Registry.ResolveRef | packages/plugin-manager/src/index.js:34-36 | a reference starting with "." is resolved against the root; any other is left unchanged, and only those are unchanged |
| Registry.Locate | packages/plugin-manager/src/index.js:22-41 | loading succeeds iff the entry normalises, the module exists and it exports the capability; errors come in that order: an entry that does not normalise fails with its `InvalidEntry` error, then a missing module with `ModuleNotFound` on the resolved request, then a missing export with `MissingCapability` naming the reference as written |
| Registry.LoadPluginsAllOrNothing | packages/plugin-manager/src/index.js:21-43 | `loadPlugins` succeeds iff every entry loads; then it gives one handle per entry in order, with the written name, the options and the `analyze` export; otherwise it gives the first failing entry's error |
| Registry.LoadFormattersAllOrNothing | packages/plugin-manager/src/index.js:49-71 | the same for `loadFormatters` and the `format` export |
| Chains.MapAllOk | packages/plugin-manager/src/index.js:22 | a map with a throwing callback succeeds iff every call does, and then holds their values in order |
| Chains.MapAllFirstError | packages/plugin-manager/src/index.js:22 | a failed map reports the error of its first failing call |
| Resolver.Glob | packages/plugin-manager/src/index.js:122-126 | the listed entries are exactly the `.js`/`.ts` paths outside `node_modules`, made absolute under the target, and no more of them than were listed |
| Resolver.ResolveEntries | packages/plugin-manager/src/index.js:116-127 | an existing regular file is returned alone, whatever its name; otherwise every entry is the target joined with a source path |
| Runner.Stamp | packages/plugin-manager/src/index.js:86 | the handle's name is used only when the finding has no `plugin`; every other field is kept |
| Runner.AnalyzeSource | packages/plugin-manager/src/index.js:84-87 | the loop over the analyzers for one file appends each analyzer's stamped findings in registration order, or fails with the first analyzer error |
| Runner.Analyze | packages/plugin-manager/src/index.js:76-90 | the loop over the files returns exactly the specification run: plugins load first, then files come in resolution order and analyzers within each file |
| Runner.AnalyzeNoFiles | packages/plugin-manager/src/index.js:78-79 | with nothing to analyze, the result is empty unless the plugin list fails to load |
| Runner.AnalyzeLoadsPluginsFirst | packages/plugin-manager/src/index.js:78 | a bad plugin list fails the run whatever the files |
| Runner.AnalyzeFileFindings | packages/plugin-manager/src/index.js:82-87 | a file succeeds iff it is readable and every analyzer succeeds on it; its findings are the analyzers' stamped outputs in order, and their count is the sum of the outputs' counts |
| Runner.RunAnalysisFindings | packages/plugin-manager/src/index.js:81-89 | the run succeeds iff every file does; its findings are the files' findings concatenated in order, and the count is their sum |
| Runner.RunAnalysisAttribution | packages/plugin-manager/src/index.js:84-86 | every finding is something some analyzer reported for some resolved file, stamped with that analyzer's name, so it names a plugin |
| Runner.AnalyzeFindingsAttributed | packages/plugin-manager/src/index.js:76-90 | every finding of a successful `analyze` carries a plugin name |
| Runner.FormatTarget | packages/plugin-manager/src/index.js:100 | `formatDir` replaces the directory only when the directory is "." and `formatDir` is truthy |
| Runner.Format | packages/plugin-manager/src/index.js:97-111 | the loop over the formatters leaves the disk and returns the result the specification run gives |
| Runner.FormatResultIsSet | packages/plugin-manager/src/index.js:104-110 | the returned paths have no duplicates, are exactly the reported paths, and are in order of first report |
| Runner.RunFormattersComposes | packages/plugin-manager/src/index.js:104-107 | each formatter runs on the disk the earlier ones left, and the reports are concatenated in order |
| Runner.RunFormattersFailFast | packages/plugin-manager/src/index.js:104-107 | a failing formatter ends the run with its error, and the disk keeps every earlier write and the failing formatter's own |
| Chains.ThreadFirstError | packages/plugin-manager/src/index.js:104-107 | a failed threaded run ends at the first failing step, on the state that step left |
| Seqs.DedupOrder | packages/plugin-manager/src/index.js:110 | `Array.from(new Set(s))` is a subsequence of `s` in first-occurrence order |
| Seqs.Dedup | packages/plugin-manager/src/index.js:110 | no duplicates, and the same members as the input |
| Prettier.ConfigFor | packages/plugin-manager/formatters/prettier.js:10-12 | `filepath` is always the file; plugin options override the resolved configuration; every other key comes from the resolved configuration |
| Prettier.Format | packages/plugin-manager/formatters/prettier.js:5-20 | the loop leaves the disk and returns the result the specification run gives |
| Prettier.RunWritesOnlyReported | packages/plugin-manager/formatters/prettier.js:14-17 | the reported files are a subsequence of the input; no file appears or disappears; an unreported file keeps its content |
| Prettier.RunFormatsEachFile | packages/plugin-manager/formatters/prettier.js:8-17 | with distinct paths, each file ends as Prettier's output for its original content, and it is reported iff that output differs |
| Prettier.RunCleanIffSettled | packages/plugin-manager/formatters/prettier.js:13-17 | a run writes and reports nothing iff every file is already formatted |
| Prettier.RunSettles | packages/plugin-manager/formatters/prettier.js:13-16 | with an idempotent Prettier, a successful run leaves every file formatted |
| Prettier.SecondRunIsClean | packages/plugin-manager/formatters/prettier.js:5-20 | with an idempotent Prettier, a second run reports and writes nothing |
| Eslint.MessageFinding | packages/plugin-manager/src/plugins/eslint.js:12-17 | `file` is the result's path; `line` is the message's line, or 0 when it has none; `severity` is copied; `message` is the bracketed rule id followed by the text |
| Eslint.Analyze | packages/plugin-manager/src/plugins/eslint.js:3-22 | the nested loops return one finding per lint message, result by result; a lint failure propagates; the result is what the `analyze` export (`Eslint.Plugin`) gives for any invocation on that file |
| Eslint.PluginFindings | packages/plugin-manager/src/plugins/eslint.js:3-22 | the `analyze` export, as the engine calls it, fails exactly when linting the one file fails, with that error; otherwise it gives one finding per message, none naming a plugin, each the mapped message of some result |
| Eslint.LintFindingsCount | packages/plugin-manager/src/plugins/eslint.js:10-19 | the number of findings is the total number of messages |
| Eslint.LintFindingsOrder | packages/plugin-manager/src/plugins/eslint.js:10-19 | message j of result i becomes the finding after those of all earlier results |
| Eslint.LintFindingsMembers | packages/plugin-manager/src/plugins/eslint.js:10-19 | each finding is the finding of some message of some result, and every message has its finding |
| EslintFix.FixOptions | packages/plugin-manager/formatters/eslint-fix.js:5 | fixing is on unless the options say otherwise; every given option is kept |
| EslintFix.FixedPaths | packages/plugin-manager/formatters/eslint-fix.js:9-11 | no more paths than results |
| EslintFix.FixedIndices | packages/plugin-manager/formatters/eslint-fix.js:9-10 | the positions of exactly the results that carry fixed output, strictly increasing |
| EslintFix.FixedPathsSpec | packages/plugin-manager/formatters/eslint-fix.js:9-11 | the k-th reported path is the path of the k-th result with fixed output, and there are no others; so the paths are a subsequence of the results' paths, and a path is reported iff some result for it has fixed output |
| EslintFix.OutputFixesWritesOnlyFixed | packages/plugin-manager/formatters/eslint-fix.js:7-11 | a path that is not reported is neither created nor changed |
| EslintFix.PluginReportsEveryWrite | packages/plugin-manager/formatters/eslint-fix.js:4-12 | every file the formatter creates or rewrites is among the paths it returns |
| Report.GroupByFile | packages/cli/src/index.js:47-52 | the reducer's keys come in first-appearance order, and each key's array is exactly the findings with that `file`, in order |
| Report.FileGroupMembers | packages/cli/src/index.js:47-50 | a finding is in a group iff it is one of the findings and its `file` is that group's key, so it is in exactly one group |
| Report.FileGroupOrder | packages/cli/src/index.js:48 | within a group, findings keep their relative order |
| Report.GroupSizesTotal | packages/cli/src/index.js:47-50 | the group sizes add up to the number of findings |
| Report.SeverityLabel | packages/cli/src/index.js:57-58 | "error" iff the severity is 2, "warning" otherwise |
| Report.ExtensionEmpty | packages/cli/src/index.js:59 | there is no extension iff the last segment has no dot after its first character, or is `..` |
| Report.ExtensionIsSuffix | packages/cli/src/index.js:59 | the extension is a tail of the last segment with exactly one dot |
| Report.DisplayName | packages/cli/src/index.js:59 | the display name followed by the extension is the last segment, and is empty only if the segment is |
| Report.DisplayNameOfModule | packages/cli/src/index.js:59 | a plugin at `<dir>/<name>.<ext>` is shown as `name` (`./plugins/eslint.js` is shown as `eslint`) |
| Report.LineFor | packages/cli/src/index.js:56-62 | a printed line has the severity label, the display name, and the finding's line and message |
| Cli.PrintReport | packages/cli/src/index.js:47-64 | the printing loops produce one section per file in first-appearance order, with one line per finding of that file |
| Cli.ReportShowsEveryFinding | packages/cli/src/index.js:52-64 | there are as many sections as distinct files, in order, and their line counts add up to the number of findings |
| Cli.AnalyzeCommand | packages/cli/src/index.js:36-71 | exit status 0 iff the configuration loads and the run finds nothing; a finding or an error gives 1; the report is printed exactly for a successful run |
| Cli.Init | packages/cli/src/index.js:18-31 | refuses with status 1 and writes nothing when `.gitai.yml` exists; otherwise writes the default configuration there |
| Cli.InitThenLoadConfig | packages/cli/src/index.js:19-29 | after `init`, `loadConfig` returns the default configuration when the YAML round-trips |
| Cli.FreshConfigFindsNothing | packages/cli/src/index.js:23-28 | the default configuration has no analyzers, so `analyze` then fails iff some file cannot be read, and otherwise finds nothing |
| Cli.FmtPrettier | packages/cli/src/index.js:109-125 | the loop writes and records a file iff the formatted text differs; it leaves the disk as the Prettier formatter with no options would; the records are relative paths |
| Cli.ConfigWithoutOptions | packages/cli/src/index.js:112-113 | the CLI's Prettier configuration is the formatter's configuration with no plugin options |
| Cli.Fmt | packages/cli/src/index.js:76-141 | ESLint with fixes on, its fixes written, then the Prettier loop over the globbed files; status 1 at the first failure, keeping earlier writes; both lists of fixed files are returned |
| Cli.FmtMatchesFormatters | packages/cli/src/index.js:81-83 | the CLI's ESLint step is the bundled `eslint-fix` formatter with no options, and its Prettier loop is the bundled `prettier` formatter with none |

## Left out

- YAML parsing and serialisation are parameters (`parse`, `dump`). The YAML
  value of `.gitai.yml` is modelled as an already-typed `Config`.
- `require` is a lookup in a table of modules, keyed by the request string.
  Node's module resolution, module caching and exports that are not functions
  are not modelled.
- `path.resolve` is `base + "/" + p` for a relative `p`, without normalising
  `.`/`..` or duplicate slashes. `path.relative` is a parameter.
- The fast-glob traversal is an opaque listing per directory. Its order, its
  dotfile rules and its pattern semantics are not modelled. The model keeps
  only the listed `.js`/`.ts` paths outside `node_modules`.
- The library internals are not modelled. ESLint's `lintFiles` and Prettier's
  `resolveConfig` and `format` are parameters.
  - `resolveConfig` never fails.
- EslintFix.OutputFixes: models ESLint's documented behaviour of
  `outputFixes`, writing each result's fixed `output` to its `filePath`. It
  does not model ESLint's implementation.
- Everything is awaited in sequence, so async/await is plain sequential calls.
  `outputFixes` writes concurrently; its writes are modelled one after another.
- Values of the wrong JavaScript type are out of scope:
  - a non-string `path`;
  - `options` that are not an object;
  - a plugin returning something other than an array;
  - a finding whose `plugin` is present but `undefined`.
  A finding either has a `plugin` string or has none.
- Console output, colours and the exact printed text are not modelled. The
  report is a list of sections and lines. `process.exit` is a returned status.
- Report.GroupByFile: follows insertion order. JavaScript puts integer-like
  property keys first; an absolute path never is one. The reducer writes into a
  plain `{}`, so a file key that `Object.prototype` already has (`__proto__`,
  `constructor`, `toString`, `valueOf`, `hasOwnProperty`, …) finds an inherited
  value instead of `[]`: the source then throws a TypeError on `.push`, and
  `analyze` exits with status 1. The
  model groups such keys like any other file, so its contract holds only for
  file keys that are not `Object.prototype` property names.
- Report.DisplayName: matches Node's `basename(p, ext)` only for the
  extension that `extname` returns for the same path, the only use here.
  A missing `plugin` would make `path.basename` throw. That cannot happen after
  the runner stamps every finding (Runner.AnalyzeFindingsAttributed), so
  `LineFor` requires a plugin name.
- FileSystem.Disk.Write: never fails. `fs.writeFileSync` can throw (in the
  Prettier formatter, in `init` and in the CLI's Prettier loop), and so can
  ESLint's `outputFixes`. The model has no write error, so Prettier.FormatFile
  and Cli.Init fail only on a read or format error, and EslintFix.OutputFixes
  always succeeds.
- Runner.Stamp: a finding is a record with exactly five fields (`plugin`,
  `file`, `line`, `severity`, `message`). Any other key a plugin puts on a
  finding, which the spread would pass through, is not represented, so "every
  other field is kept" holds for these fields only.
- Cli.Fmt: the ESLint step's error is the only failure modelled before the
  Prettier loop. The glob is taken over the directory as given and has no
  single-file case, as in the source.
