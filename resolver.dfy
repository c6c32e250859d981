/** Configuration loading (`loadConfig`) and file resolution (`_resolveEntries`). */
module Resolver {
  import opened Wrappers
  import opened Model
  import opened FileSystem

  /** Where `loadConfig(repoRoot)` looks: `<repoRoot>/.gitai.yml`. */
  function ConfigPath(root: string): string
  {
    Resolve(root, ".gitai.yml")
  }

  /**
   * `loadConfig(repoRoot)`: a missing `.gitai.yml` is the "run `gitai init` first" error;
   * otherwise the file is read and handed to the YAML parser `parse`.
   */
  function LoadConfig(files: Contents, dirs: set<string>, root: string, parse: string -> Result<Config, Error>): (r: Result<Config, Error>)
    ensures !Exists(files, dirs, ConfigPath(root)) ==> r == Err(ConfigMissing)
    ensures ConfigPath(root) in files ==> r == parse(files[ConfigPath(root)])
    ensures ConfigPath(root) in dirs && ConfigPath(root) !in files ==> r == Err(ReadFailed(ConfigPath(root)))
  {
    var path := ConfigPath(root);
    if !Exists(files, dirs, path) then Err(ConfigMissing)
    else
      var text :- ReadFile(files, path);
      parse(text)
  }

  predicate StartsWith(s: string, prefix: string)
  {
    |prefix| <= |s| && s[..|prefix|] == prefix
  }

  /** A relative path with a `node_modules` directory among its segments: what the ignore pattern drops. */
  predicate InNodeModules(rel: string)
  {
    || StartsWith(rel, "node_modules/")
    || exists i :: 0 <= i < |rel| && rel[i] == '/' && StartsWith(rel[i + 1..], "node_modules/")
  }

  /** A relative path ending in `.js` or `.ts` that the ignore pattern does not drop. */
  predicate IsSourcePath(rel: string)
  {
    (EndsWith(rel, ".js") || EndsWith(rel, ".ts")) && !InNodeModules(rel)
  }

  /**
   * fast-glob's answer for a directory: the listed paths (relative to `target`, in
   * traversal order) that are source paths, made absolute.
   */
  function Glob(target: string, rels: seq<string>): (r: seq<string>)
    ensures |r| <= |rels|
    ensures forall p :: p in r <==> exists rel :: rel in rels && IsSourcePath(rel) && p == Resolve(target, rel)
  {
    if rels == [] then []
    else
      var n := |rels| - 1;
      assert rels == rels[..n] + [rels[n]];
      Glob(target, rels[..n]) + if IsSourcePath(rels[n]) then [Resolve(target, rels[n])] else []
  }

  /**
   * `_resolveEntries(dir)`: an existing regular file is returned alone, whatever its name
   * or location; anything else is listed as a directory, and the result is the source
   * paths among whatever the host's listing returns for it.
   */
  function ResolveEntries(dir: string, host: Host, files: Contents): (r: seq<string>)
    ensures Resolve(host.cwd, dir) in files ==> r == [Resolve(host.cwd, dir)]
    ensures Resolve(host.cwd, dir) !in files ==>
              forall p :: p in r ==> exists rel :: IsSourcePath(rel) && p == Resolve(Resolve(host.cwd, dir), rel)
  {
    var target := Resolve(host.cwd, dir);
    if target in files then [target] else Glob(target, host.listing(target))
  }
}
