/**
 * The filesystem and the path library as the plugin uses them.  Nothing
 * here reads a disk: every query is a function handed in by the caller, so
 * a model run is a fixed snapshot of the filesystem.
 */
module Paths {

  /** One snapshot of the filesystem and of `pathlib`'s queries on it. */
  datatype FileSystem = FileSystem(
    resolve: string -> string,   // `Path.resolve()`: absolute, symlinks followed
    isFile: string -> bool,      // `Path.is_file()`
    isDir: string -> bool,       // `Path.is_dir()`
    pathExists: string -> bool,  // `Path.exists()`
    read: string -> string,      // the UTF-8 text of an existing file
    asUri: string -> string      // `Path.as_uri()`: the `file://` URI of an absolute path
  )

  /** `Path.is_absolute()` on a POSIX path. */
  predicate IsAbsolute(p: string) {
    |p| > 0 && p[0] == '/'
  }

  /** `Path(a).joinpath(b)`: an absolute `b` replaces `a`. */
  function JoinPath(a: string, b: string): string {
    if IsAbsolute(b) then b else a + "/" + b
  }

  /** One past the last '/' of `p`, or 0 when it has none. */
  function AfterLastSlash(p: string): (i: nat)
    ensures i <= |p| && (i > 0 ==> p[i - 1] == '/')
    ensures forall k :: i <= k < |p| ==> p[k] != '/'
  {
    if p == [] then 0
    else if p[|p| - 1] == '/' then |p|
    else AfterLastSlash(p[..|p| - 1])
  }

  /** `Path(p).parent` for a path written without "." parts or doubled
      and trailing separators: what comes before the last separator, "."
      for a bare name and "/" for a name at the root. */
  function Parent(p: string): string {
    var i := AfterLastSlash(p);
    if i == 0 then "." else if i == 1 then "/" else p[..i - 1]
  }

  /** The last separator of `p` is the one at `i` when none follows it. */
  lemma {:induction false} LastSlashAt(p: string, i: nat)
    requires i < |p| && p[i] == '/'
    requires forall k :: i < k < |p| ==> p[k] != '/'
    ensures AfterLastSlash(p) == i + 1
    decreases |p|
  {
    if i + 1 < |p| {
      LastSlashAt(p[..|p| - 1], i);
    }
  }

  /** The parent of a joined path is the directory it was joined to. */
  lemma ParentOfJoin(a: string, b: string)
    requires a != "" && b != "" && !IsAbsolute(b) && '/' !in b
    ensures Parent(JoinPath(a, b)) == a
  {
    var p := a + "/" + b;
    forall k | |a| < k < |p|
      ensures p[k] != '/'
    {
      assert p[k] == b[k - |a| - 1] && b[k - |a| - 1] in b;
    }
    LastSlashAt(p, |a|);
  }
}
