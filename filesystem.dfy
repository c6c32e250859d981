/** The filesystem the engine reads and the formatters rewrite. */
module FileSystem {
  import opened Wrappers
  import opened Model

  predicate IsAbsolute(p: string)
  {
    |p| > 0 && p[0] == '/'
  }

  predicate EndsWith(s: string, suffix: string)
  {
    |suffix| <= |s| && s[|s| - |suffix|..] == suffix
  }

  /**
   * `path.resolve(base, p)` without normalisation of `.` and `..` segments: an
   * absolute `p` is kept, a relative one is placed under `base`.
   */
  function Resolve(base: string, p: string): (r: string)
    ensures EndsWith(r, p)
    ensures r == p <==> IsAbsolute(p)
  {
    if IsAbsolute(p) then p else base + "/" + p
  }

  /** `fs.existsSync(p)`: a regular file or another existing entry such as a directory. */
  predicate Exists(files: Contents, dirs: set<string>, p: string)
  {
    p in files || p in dirs
  }

  /** `fs.readFileSync(p, "utf8")`: succeeds on regular files only. */
  function ReadFile(files: Contents, p: string): (r: Result<string, Error>)
    ensures r.Ok? <==> p in files
    ensures r.Ok? ==> r.value == files[p]
    ensures r.Err? ==> r.error == ReadFailed(p)
  {
    if p in files then Ok(files[p]) else Err(ReadFailed(p))
  }

  /** The disk: regular files with their contents, and the other paths that exist. */
  class Disk {
    var files: Contents
    var dirs: set<string>

    constructor (files: Contents, dirs: set<string>)
      ensures this.files == files && this.dirs == dirs
    {
      this.files := files;
      this.dirs := dirs;
    }

    /** `fs.writeFileSync(path, content)`. */
    method Write(path: string, content: string)
      modifies this
      ensures files == old(files)[path := content]
      ensures dirs == old(dirs)
    {
      files := files[path := content];
    }
  }
}
