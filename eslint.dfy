/** The ESLint analyzer plugin: every lint message of the file becomes one finding. */
module Eslint {
  import opened Wrappers
  import opened Seqs
  import opened Model
  import opened FileSystem

  /** A message of an ESLint lint result: `{ line, severity, ruleId, message }`. */
  datatype LintMessage = LintMessage(line: Option<int>, severity: int, ruleId: Option<string>, message: string)

  /** An ESLint lint result: the file, its messages, and the fixed text when fixes were applied. */
  datatype LintResult = LintResult(filePath: string, messages: seq<LintMessage>, output: Option<string>)

  /** `new ESLint(options).lintFiles(patterns)` over the files as they are on disk. */
  type Linter = (Contents, Options, seq<string>) -> Result<seq<LintResult>, Error>

  /** A rule id as a template literal prints it (`null` for a message without a rule). */
  function RuleText(ruleId: Option<string>): string
  {
    match ruleId
    case Some(id) => id
    case None => "null"
  }

  /**
   * The finding for one message: the result's file, the message's line (or the sentinel 0
   * when it has none), its severity unchanged, and its text prefixed by the rule id in brackets.
   */
  function MessageFinding(filePath: string, msg: LintMessage): (f: Finding)
    ensures f.plugin.None?
    ensures f.file == Some(filePath)
    ensures f.line.Some? && (f.line.value == 0 <==> msg.line.None? || msg.line == Some(0))
    ensures f.line.value != 0 ==> f.line == msg.line
    ensures f.severity == Some(msg.severity)
    ensures var rule := RuleText(msg.ruleId);
            && f.message.Some?
            && |f.message.value| == |rule| + 3 + |msg.message|
            && f.message.value[..|rule| + 3] == "[" + rule + "] "
            && f.message.value[|rule| + 3..] == msg.message
  {
    var line := if msg.line.Some? && msg.line.value != 0 then msg.line.value else 0;
    Finding(None, Some(filePath), Some(line), Some(msg.severity), Some("[" + RuleText(msg.ruleId) + "] " + msg.message))
  }

  /** The findings for one lint result, one per message, in message order. */
  function ResultFindings(r: LintResult): seq<Finding>
  {
    seq(|r.messages|, j requires 0 <= j < |r.messages| => MessageFinding(r.filePath, r.messages[j]))
  }

  /** The findings for all lint results: by result, then by message. */
  function LintFindings(results: seq<LintResult>): seq<Finding>
  {
    Concat(seq(|results|, i requires 0 <= i < |results| => ResultFindings(results[i])))
  }

  /** The message lists of the results, in order. */
  function MessageLists(results: seq<LintResult>): seq<seq<LintMessage>>
  {
    seq(|results|, i requires 0 <= i < |results| => results[i].messages)
  }

  lemma LintFindingsSnoc(results: seq<LintResult>, i: nat)
    requires i < |results|
    ensures LintFindings(results[..i + 1]) == LintFindings(results[..i]) + ResultFindings(results[i])
  {
    var parts := seq(|results[..i + 1]|, k requires 0 <= k < i + 1 => ResultFindings(results[..i + 1][k]));
    assert parts[..i] == seq(|results[..i]|, k requires 0 <= k < i => ResultFindings(results[..i][k]));
  }

  /** `analyze({ file })`: lint the one file with the default options and map every message. */
  method Analyze(lint: Linter, disk: Disk, file: string) returns (r: Result<seq<Finding>, Error>)
    ensures r == match lint(disk.files, map[], [file])
                 case Ok(results) => Ok(LintFindings(results))
                 case Err(e) => Err(e)
    ensures forall inv: AnalyzeInvocation :: inv.file == file ==> r == Plugin(lint, disk.files)(inv)
  {
    var linted := lint(disk.files, map[], [file]);
    if linted.Err? {
      return Err(linted.error);
    }
    var results := linted.value;
    var findings: seq<Finding> := [];
    var i := 0;
    while i < |results|
      invariant 0 <= i <= |results|
      invariant findings == LintFindings(results[..i])
    {
      var result := results[i];
      ghost var before := findings;
      var j := 0;
      while j < |result.messages|
        invariant 0 <= j <= |result.messages|
        invariant findings == before + ResultFindings(result)[..j]
      {
        var msg := result.messages[j];
        assert ResultFindings(result)[..j + 1] == ResultFindings(result)[..j] + [MessageFinding(result.filePath, msg)];
        findings := findings + [MessageFinding(result.filePath, msg)];
        j := j + 1;
      }
      assert ResultFindings(result)[..j] == ResultFindings(result);
      LintFindingsSnoc(results, i);
      i := i + 1;
    }
    assert results[..i] == results;
    r := Ok(findings);
  }

  /**
   * The module's `analyze` export as the engine calls it, over the disk as it stands when the
   * run starts: only the invocation's `file` is used; its source text, the configuration and
   * the plugin's options are ignored, since a default `ESLint` lints the file from disk.
   */
  function Plugin(lint: Linter, files: Contents): AnalyzeFn
  {
    (inv: AnalyzeInvocation) =>
      match lint(files, map[], [inv.file])
      case Ok(results) => Ok(LintFindings(results))
      case Err(e) => Err(e)
  }

  /**
   * The export fails exactly when linting fails, with the linter's error; otherwise it gives
   * one finding per message, none of them naming a plugin, each the mapped message of a result.
   */
  lemma PluginFindings(lint: Linter, files: Contents, inv: AnalyzeInvocation)
    ensures var out := lint(files, map[], [inv.file]);
            && (Plugin(lint, files)(inv).Ok? <==> out.Ok?)
            && (out.Err? ==> Plugin(lint, files)(inv) == Err(out.error))
            && (out.Ok? ==>
                  && |Plugin(lint, files)(inv).value| == SumLengths(MessageLists(out.value))
                  && forall f :: f in Plugin(lint, files)(inv).value ==>
                       f.plugin.None? &&
                       exists i, j :: 0 <= i < |out.value| && 0 <= j < |out.value[i].messages| &&
                         f == MessageFinding(out.value[i].filePath, out.value[i].messages[j]))
  {
    var out := lint(files, map[], [inv.file]);
    if out.Ok? {
      LintFindingsCount(out.value);
      forall f | f in LintFindings(out.value)
        ensures f.plugin.None? &&
                exists i, j :: 0 <= i < |out.value| && 0 <= j < |out.value[i].messages| &&
                  f == MessageFinding(out.value[i].filePath, out.value[i].messages[j])
      {
        LintFindingsMembers(out.value, f);
      }
    }
  }

  /** Exactly one finding per message: the count is the sum of the message counts. */
  lemma LintFindingsCount(results: seq<LintResult>)
    ensures |LintFindings(results)| == SumLengths(MessageLists(results))
  {
    var parts := seq(|results|, i requires 0 <= i < |results| => ResultFindings(results[i]));
    ConcatLength(parts);
    SumLengthsPointwise(parts, MessageLists(results));
  }

  /** Message `j` of result `i` becomes the finding after those of all earlier results. */
  lemma LintFindingsOrder(results: seq<LintResult>, i: nat, j: nat)
    requires i < |results| && j < |results[i].messages|
    ensures SumLengths(MessageLists(results)[..i]) + j < |LintFindings(results)|
    ensures LintFindings(results)[SumLengths(MessageLists(results)[..i]) + j]
            == MessageFinding(results[i].filePath, results[i].messages[j])
  {
    var parts := seq(|results|, k requires 0 <= k < |results| => ResultFindings(results[k]));
    ConcatIndex(parts, i, j);
    SumLengthsPointwise(parts[..i], MessageLists(results)[..i]);
  }

  /** Every finding is the finding of some message of some result, and carries that result's file. */
  lemma LintFindingsMembers(results: seq<LintResult>, f: Finding)
    ensures f in LintFindings(results) <==>
              exists i, j :: 0 <= i < |results| && 0 <= j < |results[i].messages| &&
                f == MessageFinding(results[i].filePath, results[i].messages[j])
  {
    var parts := seq(|results|, k requires 0 <= k < |results| => ResultFindings(results[k]));
    ConcatMember(parts, f);
    if f in LintFindings(results) {
      var i :| 0 <= i < |results| && f in parts[i];
      var j :| 0 <= j < |parts[i]| && parts[i][j] == f;
    }
    if exists i, j :: 0 <= i < |results| && 0 <= j < |results[i].messages| &&
         f == MessageFinding(results[i].filePath, results[i].messages[j]) {
      var i, j :| 0 <= i < |results| && 0 <= j < |results[i].messages| &&
                  f == MessageFinding(results[i].filePath, results[i].messages[j]);
      assert parts[i][j] == f;
    }
  }
}
