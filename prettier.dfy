/**
 * The Prettier formatter plugin: every file is read, formatted with its resolved
 * configuration, and rewritten (and reported) only when the output differs from the source.
 */
module Prettier {
  import opened Wrappers
  import opened Seqs
  import opened Chains
  import opened Model
  import opened FileSystem

  /** Prettier's `resolveConfig` (null when there is no configuration) and `format`. */
  datatype Library = Library(
    resolveConfig: string -> Option<Options>,
    format: (string, Options) -> Result<string, Error>)

  /**
   * The configuration a file is formatted with: the resolved configuration (or `{}`),
   * overridden by the plugin's options, with `filepath` always set to the file itself.
   */
  function ConfigFor(lib: Library, file: string, options: Options): (c: Options)
    ensures "filepath" in c && c["filepath"] == Str(file)
    ensures forall k :: k in options && k != "filepath" ==> k in c && c[k] == options[k]
    ensures forall k :: k in c && k != "filepath" && k !in options ==>
              k in lib.resolveConfig(file).GetOr(map[]) && c[k] == lib.resolveConfig(file).GetOr(map[])[k]
    ensures c.Keys == lib.resolveConfig(file).GetOr(map[]).Keys + options.Keys + {"filepath"}
  {
    (lib.resolveConfig(file).GetOr(map[]) + options)["filepath" := Str(file)]
  }

  /** One iteration of the loop over `files`. */
  function FormatFile(lib: Library, options: Options, files: Contents, file: string): FormatOutcome
  {
    if file !in files then Outcome(files, Err(ReadFailed(file)))
    else
      match lib.format(files[file], ConfigFor(lib, file, options))
      case Err(e) => Outcome(files, Err(e))
      case Ok(formatted) =>
        if formatted != files[file] then Outcome(files[file := formatted], Ok([file]))
        else Outcome(files, Ok([]))
  }

  function Step(lib: Library, options: Options): (Contents, string) -> FormatOutcome
  {
    (files: Contents, file: string) => FormatFile(lib, options, files, file)
  }

  /** The whole loop: the disk afterwards and the changed files (or the first error). */
  function Run(lib: Library, options: Options, files: Contents, paths: seq<string>): FormatOutcome
  {
    Thread(files, paths, Step(lib, options))
  }

  /** The module's `format` export as the engine calls it. */
  function Plugin(lib: Library): FormatFn
  {
    (files: Contents, inv: FormatInvocation) => Run(lib, inv.options, files, inv.files)
  }

  /** `format({ files, options })`, rewriting changed files in place. */
  method Format(lib: Library, disk: Disk, paths: seq<string>, options: Options) returns (r: Result<seq<string>, Error>)
    modifies disk
    ensures disk.files == Run(lib, options, old(disk.files), paths).state
    ensures r == Run(lib, options, old(disk.files), paths).result
    ensures disk.dirs == old(disk.dirs)
  {
    ghost var step := Step(lib, options);
    var changed: seq<string> := [];
    var i := 0;
    while i < |paths|
      invariant 0 <= i <= |paths|
      invariant Thread(old(disk.files), paths[..i], step) == Outcome(disk.files, Ok(changed))
      invariant disk.dirs == old(disk.dirs)
    {
      var file := paths[i];
      ThreadStep(old(disk.files), paths, i, step);
      ghost var o := FormatFile(lib, options, disk.files, file);
      assert step(disk.files, file) == o;
      var source := ReadFile(disk.files, file);
      if source.Err? {
        ThreadPrefixErr(old(disk.files), paths, i + 1, step);
        return Err(source.error);
      }
      var config := ConfigFor(lib, file, options);
      var formatted := lib.format(source.value, config);
      if formatted.Err? {
        ThreadPrefixErr(old(disk.files), paths, i + 1, step);
        return Err(formatted.error);
      }
      if formatted.value != source.value {
        disk.Write(file, formatted.value);
        changed := changed + [file];
        assert o == Outcome(disk.files, Ok([file]));
      } else {
        assert o == Outcome(disk.files, Ok([]));
        assert changed + [] == changed;
      }
      i := i + 1;
    }
    assert paths[..i] == paths;
    r := Ok(changed);
  }

  /** Unrolls `Run` by its last path: what the loop body adds. */
  lemma RunLast(lib: Library, options: Options, files: Contents, paths: seq<string>)
    requires paths != []
    ensures var n := |paths| - 1;
            var prev := Run(lib, options, files, paths[..n]);
            var o := FormatFile(lib, options, prev.state, paths[n]);
            Run(lib, options, files, paths)
              == if prev.result.Err? then prev
                 else Outcome(o.state, if o.result.Err? then Err(o.result.error) else Ok(prev.result.value + o.result.value))
  {
  }

  /** One successful step either reports nothing and writes nothing, or reports and rewrites just its file. */
  lemma FormatFileShape(lib: Library, options: Options, files: Contents, file: string)
    requires FormatFile(lib, options, files, file).result.Ok?
    ensures var o := FormatFile(lib, options, files, file);
            && file in files
            && o.state.Keys == files.Keys
            && (o.result.value == [] ==> o.state == files)
            && (o.result.value != [] ==> o.result.value == [file])
            && forall q :: q in files && q != file ==> o.state[q] == files[q]
  {
  }

  /**
   * The reported files are a subsequence of the input (order kept), the set of paths on
   * disk is unchanged, and a file that is not reported still has its original content:
   * only changed files are written.
   */
  lemma {:induction false} RunWritesOnlyReported(lib: Library, options: Options, files: Contents, paths: seq<string>)
    requires Run(lib, options, files, paths).result.Ok?
    ensures var o := Run(lib, options, files, paths);
            && IsSubsequence(o.result.value, paths)
            && o.state.Keys == files.Keys
            && forall q :: q in files && q !in o.result.value ==> o.state[q] == files[q]
  {
    if paths != [] {
      var n := |paths| - 1;
      var p, x := paths[..n], paths[n];
      RunLast(lib, options, files, paths);
      var prev := Run(lib, options, files, p);
      RunWritesOnlyReported(lib, options, files, p);
      var o := FormatFile(lib, options, prev.state, x);
      FormatFileShape(lib, options, prev.state, x);
      assert paths == p + [x];
      if o.result.value == [] {
        assert prev.result.value + [] == prev.result.value;
        SubsequenceWeaken(prev.result.value, p, x);
      } else {
        SubsequenceExtend(prev.result.value, p, x);
      }
    }
  }

  /** File `y` holds Prettier's output for its content in `before`, and is in `changed` exactly when that output differs. */
  predicate Formatted(lib: Library, options: Options, before: Contents, after: Contents, changed: seq<string>, y: string)
  {
    && y in before && y in after
    && lib.format(before[y], ConfigFor(lib, y, options)) == Ok(after[y])
    && (y in changed <==> after[y] != before[y])
  }

  /**
   * With no path listed twice, a successful run leaves every file holding Prettier's output
   * for its original content, and reports a file exactly when that output differs from it.
   * (Where a path repeats, its second visit formats the first visit's output instead.)
   */
  lemma {:induction false} RunFormatsEachFile(lib: Library, options: Options, files: Contents, paths: seq<string>)
    requires NoDup(paths)
    requires Run(lib, options, files, paths).result.Ok?
    ensures var o := Run(lib, options, files, paths);
            forall y :: y in paths ==> Formatted(lib, options, files, o.state, o.result.value, y)
  {
    if paths != [] {
      var n := |paths| - 1;
      var p, x := paths[..n], paths[n];
      assert paths == p + [x];
      RunLast(lib, options, files, paths);
      var prev := Run(lib, options, files, p);
      assert NoDup(p);
      RunFormatsEachFile(lib, options, files, p);
      RunWritesOnlyReported(lib, options, files, p);
      SubsequenceMembers(prev.result.value, p);
      assert x !in p;
      assert x !in prev.result.value;
      var o := Run(lib, options, files, paths);
      forall y | y in paths
        ensures Formatted(lib, options, files, o.state, o.result.value, y)
      {
        if y != x {
          assert y in p;
        }
      }
    }
  }

  /** Every listed file is on disk and Prettier leaves it as it is. */
  predicate Settled(lib: Library, options: Options, files: Contents, paths: seq<string>)
  {
    forall y :: y in paths ==> y in files && lib.format(files[y], ConfigFor(lib, y, options)) == Ok(files[y])
  }

  /** One step is clean exactly when its file is on disk and already formatted. */
  lemma FormatFileCleanIff(lib: Library, options: Options, files: Contents, file: string)
    ensures FormatFile(lib, options, files, file) == Outcome(files, Ok([])) <==>
            file in files && lib.format(files[file], ConfigFor(lib, file, options)) == Ok(files[file])
  {
  }

  /** `Settled` over a list is `Settled` over its prefix and its last path. */
  lemma SettledLast(lib: Library, options: Options, files: Contents, paths: seq<string>)
    requires paths != []
    ensures var n := |paths| - 1;
            Settled(lib, options, files, paths) <==>
            Settled(lib, options, files, paths[..n]) && Settled(lib, options, files, [paths[n]])
  {
    var n := |paths| - 1;
    assert paths == paths[..n] + [paths[n]];
  }

  /** A run changes nothing and reports nothing exactly when every listed file is already formatted. */
  lemma {:induction false} RunCleanIffSettled(lib: Library, options: Options, files: Contents, paths: seq<string>)
    ensures Run(lib, options, files, paths) == Outcome(files, Ok([])) <==> Settled(lib, options, files, paths)
  {
    if paths != [] {
      var n := |paths| - 1;
      var p, x := paths[..n], paths[n];
      assert paths == p + [x];
      RunLast(lib, options, files, paths);
      RunCleanIffSettled(lib, options, files, p);
      SettledLast(lib, options, files, paths);
      FormatFileCleanIff(lib, options, files, x);
      var prev := Run(lib, options, files, p);
      if Run(lib, options, files, paths) == Outcome(files, Ok([])) {
        assert prev.result.Ok?;
        RunWritesOnlyReported(lib, options, files, p);
        assert prev.result.value == [];
        assert prev.state == files;
      }
    }
  }

  /** Prettier is idempotent when formatting its own output changes nothing. */
  ghost predicate Idempotent(lib: Library)
  {
    forall s, c, t :: lib.format(s, c) == Ok(t) ==> lib.format(t, c) == Ok(t)
  }

  /** With an idempotent Prettier, a successful run leaves every listed file formatted. */
  lemma {:induction false} RunSettles(lib: Library, options: Options, files: Contents, paths: seq<string>)
    requires Idempotent(lib)
    requires Run(lib, options, files, paths).result.Ok?
    ensures Settled(lib, options, Run(lib, options, files, paths).state, paths)
  {
    if paths != [] {
      var n := |paths| - 1;
      var p, x := paths[..n], paths[n];
      assert paths == p + [x];
      RunLast(lib, options, files, paths);
      var prev := Run(lib, options, files, p);
      RunSettles(lib, options, files, p);
      var after := Run(lib, options, files, paths).state;
      forall y | y in paths
        ensures y in after && lib.format(after[y], ConfigFor(lib, y, options)) == Ok(after[y])
      {
        if y != x {
          assert y in p;
        }
      }
    }
  }

  /** With an idempotent Prettier, running the formatter a second time reports no file and writes nothing. */
  lemma SecondRunIsClean(lib: Library, options: Options, files: Contents, paths: seq<string>)
    requires Idempotent(lib)
    requires Run(lib, options, files, paths).result.Ok?
    ensures var once := Run(lib, options, files, paths).state;
            Run(lib, options, once, paths) == Outcome(once, Ok([]))
  {
    RunSettles(lib, options, files, paths);
    RunCleanIffSettled(lib, options, Run(lib, options, files, paths).state, paths);
  }
}
