/**
 * The `to_url` template filter: a file name used by a template (a logo, an
 * image) becomes the `file://` URI of the first directory that holds it.
 */
module UrlFilter {
  import opened Wrappers
  import opened Paths

  /** The two parts of `urllib.parse.urlparse(pathname)` the filter looks at. */
  datatype UrlParts = UrlParts(scheme: string, netloc: string)

  /** The two configuration entries the filter reads. */
  datatype FilterConfig = FilterConfig(outdir: string, srcdir: string)

  /** The directories searched, in order: the build output directory, the
      documentation source directory (both resolved) and the working
      directory. */
  function SearchDirs(fs: FileSystem, cfg: FilterConfig): (dirs: seq<string>)
    ensures |dirs| == 3 && dirs[2] == "."
    ensures dirs[0] == fs.resolve(cfg.outdir) && dirs[1] == fs.resolve(cfg.srcdir)
  {
    [fs.resolve(cfg.outdir), fs.resolve(cfg.srcdir), "."]
  }

  /** Where `pathname` would be found inside directory `d`. */
  function CandidatePath(fs: FileSystem, d: string, pathname: string): string {
    fs.resolve(JoinPath(d, pathname))
  }

  /** Whether `pathname` names a file inside directory `d`. */
  predicate FoundIn(fs: FileSystem, d: string, pathname: string) {
    fs.isFile(CandidatePath(fs, d, pathname))
  }

  /** The index of the first directory from `k` on that holds `pathname`. */
  function FirstFoundFrom(fs: FileSystem, dirs: seq<string>, pathname: string, k: nat): (r: Option<nat>)
    requires k <= |dirs|
    ensures r.Some? ==> k <= r.value < |dirs| && FoundIn(fs, dirs[r.value], pathname)
    ensures r.Some? ==> forall j :: k <= j < r.value ==> !FoundIn(fs, dirs[j], pathname)
    ensures r.None? <==> forall j :: k <= j < |dirs| ==> !FoundIn(fs, dirs[j], pathname)
    decreases |dirs| - k
  {
    if k == |dirs| then None
    else if FoundIn(fs, dirs[k], pathname) then Some(k)
    else FirstFoundFrom(fs, dirs, pathname, k + 1)
  }

  /** Whether `urlparse` sees an address rather than a file name. */
  predicate IsAddress(parts: UrlParts) {
    parts.scheme != "" || parts.netloc != ""
  }

  /** What the filter returns for `pathname`. */
  function ToUrl(fs: FileSystem, urlparse: string -> UrlParts, cfg: FilterConfig, pathname: string): string
  {
    if pathname == "" then ""
    else if IsAddress(urlparse(pathname)) then pathname
    else
      var dirs := SearchDirs(fs, cfg);
      match FirstFoundFrom(fs, dirs, pathname, 0)
      case Some(i) => fs.asUri(CandidatePath(fs, dirs[i], pathname))
      case None => pathname
  }

  /** The filter as the source runs it: a search loop that returns as soon
      as a directory holds the file. */
  method Filter(fs: FileSystem, urlparse: string -> UrlParts, cfg: FilterConfig, pathname: string)
    returns (r: string)
    ensures r == ToUrl(fs, urlparse, cfg, pathname)
  {
    if pathname == "" {
      return "";
    }
    var targetUrl := urlparse(pathname);
    if targetUrl.scheme != "" || targetUrl.netloc != "" {
      return pathname;
    }
    var dirs := SearchDirs(fs, cfg);
    var k := 0;
    while k < |dirs|
      invariant 0 <= k <= |dirs|
      invariant FirstFoundFrom(fs, dirs, pathname, 0) == FirstFoundFrom(fs, dirs, pathname, k)
    {
      var path := CandidatePath(fs, dirs[k], pathname);
      if fs.isFile(path) {
        return fs.asUri(path);
      }
      k := k + 1;
    }
    return pathname;
  }

  /** The filter returns one of three things: nothing for an empty name,
      the name itself, or the URI of a file that exists in one of the
      searched directories; in the last case no earlier directory held
      the file. */
  lemma ToUrlCases(fs: FileSystem, urlparse: string -> UrlParts, cfg: FilterConfig, pathname: string)
    ensures pathname == "" ==> ToUrl(fs, urlparse, cfg, pathname) == ""
    ensures pathname != "" && IsAddress(urlparse(pathname)) ==> ToUrl(fs, urlparse, cfg, pathname) == pathname
    ensures pathname != "" && !IsAddress(urlparse(pathname)) ==>
      var dirs := SearchDirs(fs, cfg);
      || (ToUrl(fs, urlparse, cfg, pathname) == pathname
          && forall j :: 0 <= j < 3 ==> !FoundIn(fs, dirs[j], pathname))
      || exists i :: 0 <= i < 3 && FoundIn(fs, dirs[i], pathname)
           && ToUrl(fs, urlparse, cfg, pathname) == fs.asUri(CandidatePath(fs, dirs[i], pathname))
           && forall j :: 0 <= j < i ==> !FoundIn(fs, dirs[j], pathname)
  {
    if pathname != "" && !IsAddress(urlparse(pathname)) {
      var dirs := SearchDirs(fs, cfg);
      var f := FirstFoundFrom(fs, dirs, pathname, 0);
      if f.Some? {
        var i := f.value;
        assert FoundIn(fs, dirs[i], pathname)
          && ToUrl(fs, urlparse, cfg, pathname) == fs.asUri(CandidatePath(fs, dirs[i], pathname));
      }
    }
  }

  /** A file in the build output directory wins over the same name in the
      source directory: the output directory is searched first. */
  lemma OutdirWins(fs: FileSystem, urlparse: string -> UrlParts, cfg: FilterConfig, pathname: string)
    requires pathname != "" && !IsAddress(urlparse(pathname))
    requires FoundIn(fs, fs.resolve(cfg.outdir), pathname)
    ensures ToUrl(fs, urlparse, cfg, pathname) == fs.asUri(CandidatePath(fs, fs.resolve(cfg.outdir), pathname))
  {
  }

  /** An absolute name that exists is its own URI whatever directories are
      configured: joining an absolute path discards the directory. */
  lemma AbsoluteFileIsItsOwnUri(fs: FileSystem, urlparse: string -> UrlParts, cfg: FilterConfig, pathname: string)
    requires IsAbsolute(pathname) && !IsAddress(urlparse(pathname))
    requires fs.isFile(fs.resolve(pathname))
    ensures ToUrl(fs, urlparse, cfg, pathname) == fs.asUri(fs.resolve(pathname))
  {
  }

  /** A name none of the three searched directories holds comes back
      unchanged, whatever other directories hold it, so the template still
      gets a usable relative reference. */
  lemma MissingFileUnchanged(fs: FileSystem, urlparse: string -> UrlParts, cfg: FilterConfig, pathname: string)
    requires forall j :: 0 <= j < 3 ==> !FoundIn(fs, SearchDirs(fs, cfg)[j], pathname)
    ensures ToUrl(fs, urlparse, cfg, pathname) == pathname
  {
    ToUrlCases(fs, urlparse, cfg, pathname);
  }
}
