/** How the `analyze` command presents findings: grouped by file, labelled, named by plugin. */
module Report {
  import opened Wrappers
  import opened Seqs
  import opened Model

  // ---------------------------------------------------------------- grouping

  /** `map[f.file]`: the property key a finding is filed under (`undefined` becomes a string). */
  function Key(f: Finding): string
  {
    match f.file
    case Some(p) => p
    case None => "undefined"
  }

  function Keys(fs: seq<Finding>): seq<string>
  {
    MapSeq(Key, fs)
  }

  /** The findings filed under `k`, in the order the reducer pushes them. */
  function FileGroup(fs: seq<Finding>, k: string): (g: seq<Finding>)
    ensures |g| <= |fs|
  {
    if fs == [] then []
    else
      var n := |fs| - 1;
      FileGroup(fs[..n], k) + if Key(fs[n]) == k then [fs[n]] else []
  }

  /**
   * `findings.reduce((map, f) => { (map[f.file] = map[f.file] || []).push(f); return map; }, {})`,
   * with the object's keys in insertion order, which is the order `Object.entries` returns them.
   */
  method GroupByFile(fs: seq<Finding>) returns (order: seq<string>, groups: map<string, seq<Finding>>)
    ensures order == Dedup(Keys(fs))
    ensures forall k :: k in groups <==> k in order
    ensures forall k :: k in groups ==> groups[k] == FileGroup(fs, k)
  {
    order := [];
    groups := map[];
    var i := 0;
    while i < |fs|
      invariant 0 <= i <= |fs|
      invariant order == Dedup(Keys(fs[..i]))
      invariant GroupedBy(groups, order, fs[..i])
    {
      var f := fs[i];
      var k := Key(f);
      GroupStep(fs, i, order, groups);
      if k in groups {
        groups := groups[k := groups[k] + [f]];
      } else {
        order := order + [k];
        groups := groups[k := [f]];
      }
      i := i + 1;
    }
    assert fs[..i] == fs;
  }

  /** `groups` holds, for each key of `order` and no other, the findings filed under it. */
  ghost predicate GroupedBy(groups: map<string, seq<Finding>>, order: seq<string>, fs: seq<Finding>)
  {
    && (forall k :: k in groups <==> k in order)
    && (forall k :: k in groups ==> groups[k] == FileGroup(fs, k))
    && (forall k :: k !in groups ==> FileGroup(fs, k) == [])
  }

  /** One more finding: what the reducer's callback does to the key order and to the groups. */
  lemma GroupStep(fs: seq<Finding>, i: nat, order: seq<string>, groups: map<string, seq<Finding>>)
    requires i < |fs|
    requires order == Dedup(Keys(fs[..i])) && GroupedBy(groups, order, fs[..i])
    ensures var k := Key(fs[i]);
            if k in groups then
              && Dedup(Keys(fs[..i + 1])) == order
              && GroupedBy(groups[k := groups[k] + [fs[i]]], order, fs[..i + 1])
            else
              && Dedup(Keys(fs[..i + 1])) == order + [k]
              && GroupedBy(groups[k := [fs[i]]], order + [k], fs[..i + 1])
  {
    KeyOrderSnoc(fs, i);
    if Key(fs[i]) in groups {
      GroupAppend(fs, i, order, groups);
    } else {
      GroupCreate(fs, i, order, groups);
    }
  }

  /** A finding whose file already has a group is appended to it. */
  lemma GroupAppend(fs: seq<Finding>, i: nat, order: seq<string>, groups: map<string, seq<Finding>>)
    requires i < |fs| && GroupedBy(groups, order, fs[..i]) && Key(fs[i]) in groups
    ensures GroupedBy(groups[Key(fs[i]) := groups[Key(fs[i])] + [fs[i]]], order, fs[..i + 1])
  {
    forall g
      ensures FileGroup(fs[..i + 1], g) == FileGroup(fs[..i], g) + if Key(fs[i]) == g then [fs[i]] else []
    {
      FileGroupSnoc(fs, i, g);
    }
  }

  /** A finding whose file has no group yet starts one, and its file joins the key order. */
  lemma GroupCreate(fs: seq<Finding>, i: nat, order: seq<string>, groups: map<string, seq<Finding>>)
    requires i < |fs| && GroupedBy(groups, order, fs[..i]) && Key(fs[i]) !in groups
    ensures GroupedBy(groups[Key(fs[i]) := [fs[i]]], order + [Key(fs[i])], fs[..i + 1])
  {
    forall g
      ensures FileGroup(fs[..i + 1], g) == FileGroup(fs[..i], g) + if Key(fs[i]) == g then [fs[i]] else []
    {
      FileGroupSnoc(fs, i, g);
    }
  }

  lemma KeyOrderSnoc(fs: seq<Finding>, i: nat)
    requires i < |fs|
    ensures var d := Dedup(Keys(fs[..i]));
            Dedup(Keys(fs[..i + 1])) == if Key(fs[i]) in d then d else d + [Key(fs[i])]
  {
    var s := Keys(fs[..i + 1]);
    assert s[..|s| - 1] == Keys(fs[..i]);
  }

  lemma FileGroupSnoc(fs: seq<Finding>, i: nat, k: string)
    requires i < |fs|
    ensures FileGroup(fs[..i + 1], k) == FileGroup(fs[..i], k) + if Key(fs[i]) == k then [fs[i]] else []
  {
    assert fs[..i + 1][..i] == fs[..i];
  }

  /** A finding is in the group of `k` exactly when it is one of the findings and is filed under `k`. */
  lemma {:induction false} FileGroupMembers(fs: seq<Finding>, k: string, f: Finding)
    ensures f in FileGroup(fs, k) <==> f in fs && Key(f) == k
  {
    if fs != [] {
      var n := |fs| - 1;
      FileGroupMembers(fs[..n], k, f);
      assert fs == fs[..n] + [fs[n]];
    }
  }

  /** Within a group the findings keep the order they had in the run. */
  lemma {:induction false} FileGroupOrder(fs: seq<Finding>, k: string)
    ensures IsSubsequence(FileGroup(fs, k), fs)
  {
    if fs != [] {
      var n := |fs| - 1;
      FileGroupOrder(fs[..n], k);
      assert fs == fs[..n] + [fs[n]];
      if Key(fs[n]) == k {
        SubsequenceExtend(FileGroup(fs[..n], k), fs[..n], fs[n]);
      } else {
        assert FileGroup(fs, k) == FileGroup(fs[..n], k);
        SubsequenceWeaken(FileGroup(fs[..n], k), fs[..n], fs[n]);
      }
    }
  }

  /** The groups of `fs` for the keys `ks`, in the order of `ks`. */
  function Groups(fs: seq<Finding>, ks: seq<string>): seq<seq<Finding>>
  {
    seq(|ks|, i requires 0 <= i < |ks| => FileGroup(fs, ks[i]))
  }

  /** How often `x` occurs in `s`. */
  function Count(s: seq<string>, x: string): nat
  {
    if s == [] then 0 else Count(s[..|s| - 1], x) + if s[|s| - 1] == x then 1 else 0
  }

  lemma {:induction false} CountDistinct(s: seq<string>, x: string)
    requires NoDup(s)
    ensures Count(s, x) == if x in s then 1 else 0
  {
    if s != [] {
      var n := |s| - 1;
      assert NoDup(s[..n]);
      CountDistinct(s[..n], x);
      assert s == s[..n] + [s[n]];
      if s[n] == x {
        assert x !in s[..n];
      }
    }
  }

  /** Adding a finding adds one to every group whose key is its key. */
  lemma {:induction false} GroupsSnoc(fs: seq<Finding>, f: Finding, ks: seq<string>)
    ensures SumLengths(Groups(fs + [f], ks)) == SumLengths(Groups(fs, ks)) + Count(ks, Key(f))
  {
    if ks != [] {
      var n := |ks| - 1;
      GroupsSnoc(fs, f, ks[..n]);
      assert Groups(fs + [f], ks)[..n] == Groups(fs + [f], ks[..n]);
      assert Groups(fs, ks)[..n] == Groups(fs, ks[..n]);
      assert (fs + [f])[..|fs|] == fs;
    }
  }

  lemma {:induction false} GroupsOfNothing(ks: seq<string>)
    ensures SumLengths(Groups([], ks)) == 0
  {
    if ks != [] {
      var n := |ks| - 1;
      GroupsOfNothing(ks[..n]);
      assert Groups([], ks)[..n] == Groups([], ks[..n]);
    }
  }

  /** Over distinct keys that cover every finding, the group sizes add up to the number of findings. */
  lemma {:induction false} GroupSizes(fs: seq<Finding>, ks: seq<string>)
    requires NoDup(ks)
    requires forall i :: 0 <= i < |fs| ==> Key(fs[i]) in ks
    ensures SumLengths(Groups(fs, ks)) == |fs|
  {
    if fs == [] {
      GroupsOfNothing(ks);
    } else {
      var n := |fs| - 1;
      GroupSizes(fs[..n], ks);
      assert fs == fs[..n] + [fs[n]];
      GroupsSnoc(fs[..n], fs[n], ks);
      CountDistinct(ks, Key(fs[n]));
    }
  }

  /** The sizes of the groups, taken in the order the files first appear, add up to the number of findings. */
  lemma GroupSizesTotal(fs: seq<Finding>)
    ensures SumLengths(Groups(fs, Dedup(Keys(fs)))) == |fs|
  {
    var ks := Dedup(Keys(fs));
    forall i | 0 <= i < |fs|
      ensures Key(fs[i]) in ks
    {
      assert Keys(fs)[i] == Key(fs[i]);
    }
    GroupSizes(fs, ks);
  }

  // ---------------------------------------------------------------- one line per finding

  /** `severity === 2 ? "error" : "warning"`. */
  function SeverityLabel(severity: Option<int>): (word: string)
    ensures word == "error" <==> severity == Some(2)
    ensures word == "warning" <==> severity != Some(2)
  {
    if severity == Some(2) then "error" else "warning"
  }

  /** The path with its trailing slashes removed. */
  function TrimTrailingSlashes(p: string): string
  {
    if p != [] && p[|p| - 1] == '/' then TrimTrailingSlashes(p[..|p| - 1]) else p
  }

  /** What follows the last slash. */
  function AfterLastSlash(p: string): string
  {
    if p == [] || p[|p| - 1] == '/' then [] else AfterLastSlash(p[..|p| - 1]) + [p[|p| - 1]]
  }

  /** The last path segment, as `path.basename(p)` returns it. */
  function Basename(p: string): string
  {
    AfterLastSlash(TrimTrailingSlashes(p))
  }

  /** The index of the last dot, or -1. */
  function LastDot(s: string): (d: int)
    ensures -1 <= d < |s|
    ensures d >= 0 ==> s[d] == '.'
    ensures forall i :: d < i < |s| ==> s[i] != '.'
  {
    if s == [] then -1
    else if s[|s| - 1] == '.' then |s| - 1
    else LastDot(s[..|s| - 1])
  }

  /**
   * Where the extension of a last segment starts: at its last dot, except that a segment
   * whose only dot is its first character, and the segment `..`, have no extension
   * (it then starts at the end).
   */
  function ExtensionStart(b: string): (d: nat)
    ensures d <= |b|
    ensures d < |b| ==> 0 < d && b[d] == '.'
  {
    var d := LastDot(b);
    if d <= 0 || b == ".." then |b| else d
  }

  /** The extension of a last segment: from where it starts to the end. */
  function Extension(b: string): (e: string)
    ensures e == "" || e[0] == '.'
    ensures |e| < |b| || e == ""
  {
    b[ExtensionStart(b)..]
  }

  /** `path.extname(p)`: the extension of the last segment. */
  function Extname(p: string): string
  {
    Extension(Basename(p))
  }

  /** A segment has no extension exactly when it has no dot after its first character, or is `..`. */
  lemma ExtensionEmpty(b: string)
    ensures Extension(b) == "" <==> b == ".." || forall i :: 0 < i < |b| ==> b[i] != '.'
  {
  }

  /** A non-empty extension is a dot and what follows it to the end of the segment, with no further dot. */
  lemma ExtensionIsSuffix(b: string)
    ensures var e := Extension(b);
            && b == b[..|b| - |e|] + e
            && (e != "" ==> forall i :: 0 < i < |e| ==> e[i] != '.')
  {
    var d := ExtensionStart(b);
    assert b == b[..d] + b[d..];
  }

  /** `path.basename(plugin, path.extname(plugin))`: the last segment without its extension. */
  function DisplayName(plugin: string): (n: string)
    ensures n + Extname(plugin) == Basename(plugin)
    ensures n == "" ==> Basename(plugin) == ""
  {
    var b := Basename(plugin);
    var d := ExtensionStart(b);
    assert b[..d] + b[d..] == b;
    assert Extname(plugin) == b[d..];
    b[..d]
  }

  lemma {:induction false} AfterLastSlashOfSegment(dir: string, s: string)
    requires dir == "" || dir[|dir| - 1] == '/'
    requires '/' !in s
    ensures AfterLastSlash(dir + s) == s
  {
    if s != [] {
      var n := |s| - 1;
      assert (dir + s)[..|dir + s| - 1] == dir + s[..n];
      AfterLastSlashOfSegment(dir, s[..n]);
      assert s == s[..n] + [s[n]];
    } else {
      assert dir + s == dir;
    }
  }

  lemma {:induction false} LastDotBeforeExtension(name: string, ext: string)
    requires '.' !in ext
    ensures LastDot(name + "." + ext) == |name|
  {
    if ext != [] {
      var n := |ext| - 1;
      assert (name + "." + ext)[..|name + "." + ext| - 1] == name + "." + ext[..n];
      LastDotBeforeExtension(name, ext[..n]);
    }
  }

  /**
   * The name shown for a plugin loaded from `<dir>/<name>.<ext>` is `name`: a module file
   * `./plugins/eslint.js` is shown as `eslint`, `lint.config.ts` as `lint.config`.
   */
  lemma DisplayNameOfModule(dir: string, name: string, ext: string)
    requires dir == "" || dir[|dir| - 1] == '/'
    requires '/' !in name && '/' !in ext && '.' !in ext
    requires name != "" && (name != "." || ext != "")
    ensures DisplayName(dir + name + "." + ext) == name
  {
    var seg := name + "." + ext;
    assert dir + name + "." + ext == dir + seg;
    NoSlashInModuleName(name, ext);
    SegmentIsBasename(dir, seg);
    LastDotBeforeExtension(name, ext);
    assert seg != ".." by {
      if |seg| == 2 {
        assert |name| == 1 && ext == "";
        assert seg[0] == name[0];
      }
    }
    assert ExtensionStart(seg) == |name|;
    assert seg[..|name|] == name;
  }

  lemma SegmentIsBasename(dir: string, seg: string)
    requires dir == "" || dir[|dir| - 1] == '/'
    requires seg != "" && '/' !in seg
    ensures Basename(dir + seg) == seg
  {
    var p := dir + seg;
    assert p[|p| - 1] == seg[|seg| - 1];
    assert TrimTrailingSlashes(p) == p;
    AfterLastSlashOfSegment(dir, seg);
  }

  lemma NoSlashInModuleName(name: string, ext: string)
    requires '/' !in name && '/' !in ext
    ensures '/' !in name + "." + ext
  {
    var seg := name + "." + ext;
    forall i | 0 <= i < |seg|
      ensures seg[i] != '/'
    {
      if i < |name| {
        assert seg[i] == name[i];
      } else if i > |name| {
        assert seg[i] == ext[i - |name| - 1];
      }
    }
  }

  /** One line of the report: `<label> <plugin name>:<line> — <message>`. */
  datatype Line = Line(severity: string, plugin: string, line: Option<int>, message: Option<string>)

  /** The line for a finding; every finding of a successful run names its plugin. */
  function LineFor(f: Finding): (l: Line)
    requires f.plugin.Some?
    ensures l.severity == SeverityLabel(f.severity)
    ensures l.plugin + Extname(f.plugin.value) == Basename(f.plugin.value)
    ensures l.line == f.line && l.message == f.message
  {
    Line(SeverityLabel(f.severity), DisplayName(f.plugin.value), f.line, f.message)
  }
}
