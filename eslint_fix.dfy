/** The ESLint autofix formatter plugin: lint with fixes on, write the fixes, report the fixed files. */
module EslintFix {
  import opened Wrappers
  import opened Seqs
  import opened Chains
  import opened Model
  import opened Eslint

  /** `{ fix: true, ...options }`: fixing is on unless the plugin's options say otherwise. */
  function FixOptions(options: Options): (o: Options)
    ensures o.Keys == options.Keys + {"fix"}
    ensures o["fix"] == if "fix" in options then options["fix"] else Bool(true)
    ensures forall k :: k in options ==> o[k] == options[k]
  {
    map["fix" := Bool(true)] + options
  }

  /** `results.filter((r) => typeof r.output === "string").map((r) => r.filePath)`. */
  function FixedPaths(results: seq<LintResult>): (r: seq<string>)
    ensures |r| <= |results|
  {
    if results == [] then []
    else
      var n := |results| - 1;
      FixedPaths(results[..n]) + if results[n].output.Some? then [results[n].filePath] else []
  }

  /** The file paths of the results, in order. */
  function Paths(results: seq<LintResult>): seq<string>
  {
    seq(|results|, i requires 0 <= i < |results| => results[i].filePath)
  }

  /** The positions of the results that carry fixed output, in increasing order. */
  function FixedIndices(results: seq<LintResult>): (ix: seq<nat>)
    ensures forall k :: 0 <= k < |ix| ==> ix[k] < |results| && results[ix[k]].output.Some?
    ensures forall k, l :: 0 <= k < l < |ix| ==> ix[k] < ix[l]
    ensures forall i :: 0 <= i < |results| && results[i].output.Some? ==> i in ix
  {
    if results == [] then []
    else
      var n := |results| - 1;
      FixedIndices(results[..n]) + if results[n].output.Some? then [n] else []
  }

  /**
   * The reported paths are, in result order, the paths of exactly those results that carry
   * fixed output: the k-th reported path is the path of the k-th fixed result.
   */
  lemma {:induction false} FixedPathsSpec(results: seq<LintResult>)
    ensures |FixedPaths(results)| == |FixedIndices(results)|
    ensures forall k :: 0 <= k < |FixedIndices(results)| ==>
              FixedPaths(results)[k] == results[FixedIndices(results)[k]].filePath
    ensures IsSubsequence(FixedPaths(results), Paths(results))
    ensures forall p :: p in FixedPaths(results) <==>
              exists i :: 0 <= i < |results| && results[i].output.Some? && results[i].filePath == p
  {
    FixedPathsIndexed(results);
    FixedPathsOrder(results);
    forall p
      ensures p in FixedPaths(results) <==>
              exists i :: 0 <= i < |results| && results[i].output.Some? && results[i].filePath == p
    {
      FixedPathsMember(results, p);
    }
  }

  /** The fixed paths, position by position, are the paths at the fixed indices. */
  lemma {:induction false} FixedPathsIndexed(results: seq<LintResult>)
    ensures |FixedPaths(results)| == |FixedIndices(results)|
    ensures forall k :: 0 <= k < |FixedIndices(results)| ==>
              FixedPaths(results)[k] == results[FixedIndices(results)[k]].filePath
  {
    if results != [] {
      var n := |results| - 1;
      var prev := results[..n];
      FixedPathsIndexed(prev);
      forall k | 0 <= k < |FixedIndices(prev)|
        ensures results[FixedIndices(prev)[k]] == prev[FixedIndices(prev)[k]]
      {
      }
    }
  }

  /** The fixed paths keep the order of the results. */
  lemma {:induction false} FixedPathsOrder(results: seq<LintResult>)
    ensures IsSubsequence(FixedPaths(results), Paths(results))
  {
    if results != [] {
      var n := |results| - 1;
      var prev := results[..n];
      FixedPathsOrder(prev);
      assert Paths(results) == Paths(prev) + [results[n].filePath];
      if results[n].output.Some? {
        SubsequenceExtend(FixedPaths(prev), Paths(prev), results[n].filePath);
      } else {
        assert FixedPaths(results) == FixedPaths(prev);
        SubsequenceWeaken(FixedPaths(prev), Paths(prev), results[n].filePath);
      }
    }
  }

  /** A path is reported exactly when some result for it carries fixed output. */
  lemma {:induction false} FixedPathsMember(results: seq<LintResult>, p: string)
    ensures p in FixedPaths(results) <==>
            exists i :: 0 <= i < |results| && results[i].output.Some? && results[i].filePath == p
  {
    if results != [] {
      var n := |results| - 1;
      var prev := results[..n];
      FixedPathsMember(prev, p);
      if exists i :: 0 <= i < |results| && results[i].output.Some? && results[i].filePath == p {
        var i :| 0 <= i < |results| && results[i].output.Some? && results[i].filePath == p;
        if i < n {
          assert prev[i] == results[i];
        }
      }
      if p in FixedPaths(prev) {
        var i :| 0 <= i < |prev| && prev[i].output.Some? && prev[i].filePath == p;
        assert results[i] == prev[i];
      }
    }
  }

  /** `ESLint.outputFixes(results)`: each result with fixed output has it written to its file. */
  function OutputFixes(files: Contents, results: seq<LintResult>): Contents
  {
    if results == [] then files
    else
      var n := |results| - 1;
      var before := OutputFixes(files, results[..n]);
      if results[n].output.Some? then before[results[n].filePath := results[n].output.value] else before
  }

  /** A path the plugin does not report is left exactly as it was. */
  lemma {:induction false} OutputFixesWritesOnlyFixed(files: Contents, results: seq<LintResult>, q: string)
    requires q !in FixedPaths(results)
    ensures q in OutputFixes(files, results) <==> q in files
    ensures q in files ==> OutputFixes(files, results)[q] == files[q]
  {
    if results != [] {
      var n := |results| - 1;
      OutputFixesWritesOnlyFixed(files, results[..n], q);
    }
  }

  /** The module's `format` export as the engine calls it. */
  function Plugin(lint: Linter): FormatFn
  {
    (files: Contents, inv: FormatInvocation) =>
      match lint(files, FixOptions(inv.options), inv.files)
      case Err(e) => Outcome(files, Err(e))
      case Ok(results) => Outcome(OutputFixes(files, results), Ok(FixedPaths(results)))
  }

  /** Every file the plugin creates or rewrites is among the paths it reports. */
  lemma PluginReportsEveryWrite(lint: Linter, files: Contents, inv: FormatInvocation, q: string)
    requires Plugin(lint)(files, inv).result.Ok?
    requires var after := Plugin(lint)(files, inv).state;
             q in after && (q !in files || after[q] != files[q])
    ensures q in Plugin(lint)(files, inv).result.value
  {
    var results := lint(files, FixOptions(inv.options), inv.files).value;
    if q !in FixedPaths(results) {
      OutputFixesWritesOnlyFixed(files, results, q);
    }
  }
}
