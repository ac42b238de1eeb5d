/**
 * Print style assembly (sphinx_pdf_generate/styles/__init__.py): the CSS
 * string escaping, the `:root` custom properties built from the options and
 * the page metadata, and the ordered list of `<style>` tags.
 */
module Styles {
  import opened Wrappers
  import opened PyStr
  import opened Utils
  import opened Paths

  // ---------------------------------------------------------------------
  // _css_escape
  // ---------------------------------------------------------------------

  /** Python's text conversions used by the escaper.  `html.unescape`
      returns its argument unchanged when it holds no '&'; what it does with
      character references is `decodeReferences`.  `str()` of a list is
      `listRepr`. */
  datatype PyText = PyText(decodeReferences: string -> string, listRepr: seq<string> -> string)

  /** `html.unescape(s)`. */
  function Unescape(py: PyText, s: string): string {
    if '&' in s then py.decodeReferences(s) else s
  }

  /** `str(v)`. */
  function Str(py: PyText, v: MetaValue): string {
    match v
    case Flag(b) => if b then "True" else "False"
    case NoneValue => "None"
    case Text(s) => s
    case Items(xs) => py.listRepr(xs)
  }

  /** An optional configuration string as a Python value. */
  function OptText(o: Option<string>): MetaValue {
    if o.Some? then Text(o.value) else NoneValue
  }

  /** The CSS escape of a single quote. */
  const QuoteEscape: string := "\\27"

  /** `_css_escape(v)`: "" for a falsy value, otherwise the unescaped text
      with every single quote written as `\27`. */
  function CssEscape(py: PyText, v: MetaValue): (r: string)
    ensures Falsy(v) ==> r == ""
    ensures '\'' !in r
    ensures !Falsy(v) ==> |r| == |Unescape(py, Str(py, v))| + 2 * Count(Unescape(py, Str(py, v)), "'")
  {
    if Falsy(v) then ""
    else
      var u := Unescape(py, Str(py, v));
      ReplaceRemovesChar(u, '\'', QuoteEscape);
      ReplaceLength(u, "'", QuoteEscape);
      ReplaceAll(u, "'", QuoteEscape)
  }

  /** The escape keeps the text between the quotes, in order: the same
      pieces that joined with "'" give the unescaped text, joined with
      `\27` give the result. */
  lemma CssEscapeKeepsText(py: PyText, v: MetaValue)
    requires !Falsy(v)
    ensures var u := Unescape(py, Str(py, v));
      && JoinWith("'", SplitOn(u, "'")) == u
      && JoinWith(QuoteEscape, SplitOn(u, "'")) == CssEscape(py, v)
  {
    var u := Unescape(py, Str(py, v));
    SplitJoinRoundTrip(u, "'");
    ReplaceIsJoinOfSplit(u, "'", QuoteEscape);
  }

  /** A value without quotes or '&' comes out unchanged. */
  lemma {:induction false} CssEscapePlainText(py: PyText, s: string)
    requires s != "" && '\'' !in s && '&' !in s
    ensures CssEscape(py, Text(s)) == s
  {
    CountOfAbsentChar(s, '\'');
    ReplaceWithoutMatch(s, "'", QuoteEscape);
  }

  // ---------------------------------------------------------------------
  // re.sub(r"http://|https://", "", site_url)
  // ---------------------------------------------------------------------

  /** Length of the scheme at the start of `s`, 0 when there is none. */
  function SchemeAt(s: string): nat
  {
    if |s| >= 7 && s[0] == 'h' && s[1] == 't' && s[2] == 't' && s[3] == 'p' then
      if s[4] == ':' && s[5] == '/' && s[6] == '/' then 7
      else if |s| >= 8 && s[4] == 's' && s[5] == ':' && s[6] == '/' && s[7] == '/' then 8
      else 0
    else 0
  }
  lemma SchemeAtMeans(s: string)
    ensures SchemeAt(s) == 7 <==> StartsWith(s, "http://")
    ensures SchemeAt(s) == 8 <==> StartsWith(s, "https://")
    ensures SchemeAt(s) in {0, 7, 8}
  {
    if |s| >= 8 { assert s[..8][..7] == s[..7]; }
  }
  /** One left-to-right pass deleting each "http://" and "https://"; the
      text after a deletion is not re-examined together with what came
      before it. */
  function RemoveSchemes(s: string): (r: string)
    ensures |r| <= |s|
    decreases |s|
  {
    if s == "" then ""
    else if SchemeAt(s) > 0 then RemoveSchemes(s[SchemeAt(s)..])
    else [s[0]] + RemoveSchemes(s[1..])
  }

  /** The site address is left unchanged exactly when it holds neither
      scheme prefix anywhere. */
  lemma {:induction false} RemoveSchemesUnchanged(s: string)
    ensures RemoveSchemes(s) == s <==> !Contains(s, "http://") && !Contains(s, "https://")
    decreases |s|
  {
    SchemeAtMeans(s);
    if s == "" {
    } else if SchemeAt(s) > 0 {
      assert |RemoveSchemes(s)| < |s|;
    } else {
      RemoveSchemesUnchanged(s[1..]);
      assert RemoveSchemes(s) == [s[0]] + RemoveSchemes(s[1..]);
      if RemoveSchemes(s) == s {
        assert RemoveSchemes(s[1..]) == s[1..];
      }
    }
  }

  lemma {:induction false} KeepPlain(p: string, x: string)
    requires 'h' !in p
    ensures RemoveSchemes(p + x) == p + RemoveSchemes(x)
    decreases |p|
  {
    if p != [] {
      var s := p + x;
      assert s[0] == p[0] && p[0] in p;
      assert s[1..] == p[1..] + x;
      KeepPlain(p[1..], x);
    } else {
      assert p + x == x;
    }
  }
  /** A scheme at the start is deleted. */
  lemma DropScheme(y: string)
    ensures RemoveSchemes("http://" + y) == RemoveSchemes(y)
  {
    var z := "http://" + y;
    assert SchemeAt(z) == 7 && z[7..] == y;
  }

  /** Two characters that start no scheme are kept. */
  lemma {:induction false} KeepTwo(z: string)
    requires z != [] && z[0] == 'h'
    ensures RemoveSchemes("ht" + z) == "ht" + RemoveSchemes(z)
  {
    var s := "ht" + z;
    assert s[2] == 'h' && s[1..] == "t" + z;
    assert ("t" + z)[0] == 't' && ("t" + z)[1..] == z;
    assert RemoveSchemes(s) == "h" + RemoveSchemes("t" + z);
  }

  /** The pass is single: "http://" split by another scheme, as in
      "ht" + "http://" + "tp://", is put together by the deletion and
      survives, whatever follows it. */
  lemma {:induction false} SchemeSurvivesOnePass(x: string)
    ensures RemoveSchemes("ht" + ("http://" + ("tp://" + x))) == "ht" + ("tp://" + RemoveSchemes(x))
  {
    var y := "tp://" + x;
    var z := "http://" + y;
    DropScheme(y);
    KeepPlain("tp://", x);
    KeepTwo(z);
  }

  // ---------------------------------------------------------------------
  // The :root custom properties
  // ---------------------------------------------------------------------

  /** The options `style_for_print` reads. */
  datatype StyleOptions = StyleOptions(
    author: Option<string>,
    authorLogo: Option<string>,
    copyright: Option<string>,
    bodyTitle: Option<string>,
    coverTitle: Option<string>,
    coverSubtitle: Option<string>,
    siteUrl: string,
    toc: bool,
    cover: bool,
    srcdir: string,
    customCssPath: Option<string>
  )

  /** `d.get(key, default)`. */
  function Get(d: map<string, MetaValue>, key: string, default: MetaValue): MetaValue {
    if key in d then d[key] else default
  }

  /** `a or b` on two optional strings. */
  function Or(a: Option<string>, b: Option<string>): MetaValue {
    if Falsy(OptText(a)) then OptText(b) else OptText(a)
  }

  /** The nine escaped values the template shows. */
  datatype RootVars = RootVars(
    author: string, authorLogo: string, copyright: string, title: string, subtitle: string,
    docType: string, revision: string, filename: string, siteUrl: string)

  /** No value holds a single quote. */
  predicate Unquoted(v: RootVars) {
    && '\'' !in v.author && '\'' !in v.authorLogo && '\'' !in v.copyright
    && '\'' !in v.title && '\'' !in v.subtitle && '\'' !in v.docType
    && '\'' !in v.revision && '\'' !in v.filename && '\'' !in v.siteUrl
  }

  /** The values of the `:root` block: the options' author, logo and
      copyright; the title, subtitle, type, revision and filename looked up
      in the metadata with their fallbacks; the site address without its
      schemes.  Each is escaped, so none holds a quote. */
  function RootValues(py: PyText, o: StyleOptions, meta: Option<map<string, MetaValue>>): (r: RootVars)
    ensures Unquoted(r)
  {
    var d := if meta.Some? then meta.value else map[];
    RootVars(
      CssEscape(py, OptText(o.author)),
      CssEscape(py, OptText(o.authorLogo)),
      CssEscape(py, OptText(o.copyright)),
      CssEscape(py, Get(d, "title", Or(o.bodyTitle, o.coverTitle))),
      CssEscape(py, Get(d, "subtitle", OptText(o.coverSubtitle))),
      CssEscape(py, Get(d, "type", Text("document"))),
      CssEscape(py, Get(d, "revision", Text(""))),
      CssEscape(py, Get(d, "filename", Text(""))),
      CssEscape(py, Text(RemoveSchemes(o.siteUrl))))
  }

  /** The `:root` block with the nine values filled in. */
  function RootCss(v: RootVars): string {
    "\n    :root {\n        --author: '" + v.author
    + "';\n        --author-logo: url('" + v.authorLogo
    + "');\n        --copyright: '" + v.copyright
    + "';\n        --title: '" + v.title
    + "';\n        --subtitle: '" + v.subtitle
    + "';\n        --type: '" + v.docType
    + "';\n        --revision: '" + v.revision
    + "';\n        --filename: '" + v.filename
    + "';\n        --site-url: '" + v.siteUrl
    + "';\n        --base-page-orientation: a4 portrait;\n        --rotated-page-orientation: a4 landscape;\n\n    }"
  }

  /** The title rule: a "title" key wins whenever it is present, even when
      its value is None (which gives ''); only without the key does the
      body title, or failing that the cover title, apply. */
  lemma TitleRule(py: PyText, o: StyleOptions, meta: Option<map<string, MetaValue>>)
    ensures meta.Some? && "title" in meta.value ==>
      RootValues(py, o, meta).title == CssEscape(py, meta.value["title"])
    ensures meta.Some? && "title" in meta.value && meta.value["title"] == NoneValue ==>
      RootValues(py, o, meta).title == ""
    ensures (meta.None? || "title" !in meta.value) && o.bodyTitle.Some? && o.bodyTitle.value != "" ==>
      RootValues(py, o, meta).title == CssEscape(py, Text(o.bodyTitle.value))
    ensures (meta.None? || "title" !in meta.value) && (o.bodyTitle.None? || o.bodyTitle == Some("")) ==>
      RootValues(py, o, meta).title == CssEscape(py, OptText(o.coverTitle))
  {
  }

  /** Defaults of the remaining metadata values: type "document",
      revision and filename ''. */
  lemma MetadataDefaults(py: PyText, o: StyleOptions, meta: Option<map<string, MetaValue>>)
    ensures (meta.None? || "type" !in meta.value) ==> RootValues(py, o, meta).docType == "document"
    ensures (meta.None? || "revision" !in meta.value) ==> RootValues(py, o, meta).revision == ""
    ensures (meta.None? || "filename" !in meta.value) ==> RootValues(py, o, meta).filename == ""
    ensures meta.Some? && "revision" in meta.value && meta.value["revision"] == NoneValue ==>
      RootValues(py, o, meta).revision == ""
  {
    assert '\'' !in "document" && '&' !in "document";
    CssEscapePlainText(py, "document");
  }

  /** With the dictionary `get_pdf_metadata` builds, the title comes from
      the page's "pdf-title" option or is '': the configured body and cover
      titles are never used, because the dictionary always has the key. */
  lemma PageMetadataTitle(py: PyText, o: StyleOptions, m: RawMetadata)
    ensures var meta := MetaUpTo(m, |PdfLocalOptions|);
      RootValues(py, o, Some(meta)).title == (if "pdf-title" in m then CssEscape(py, Text(m["pdf-title"])) else "")
  {
    MetaOfTable(m);
  }

  // ---------------------------------------------------------------------
  // The style tags
  // ---------------------------------------------------------------------

  /** A text appended to a `<style>` tag: the `:root` block with its
      values, or the rules read from a stylesheet. */
  datatype StyleText = RootBlock(vars: RootVars) | Rules(css: string)

  /** The CSS a text stands for. */
  function Render(t: StyleText): string {
    match t
    case RootBlock(v) => RootCss(v)
    case Rules(css) => css
  }

  /** A `<style>` tag: its class and the texts appended to it, in order. */
  datatype StyleTag = StyleTag(cls: string, texts: seq<StyleText>)

  /** Where the plugin's own stylesheets are installed. */
  datatype Install = Install(basePath: string)

  /** The stylesheets the plugin knows. */
  datatype Sheet = Paging | TocRules | CoverRules | CustomRules

  /** A stylesheet's file name. */
  function FileName(s: Sheet): string {
    match s
    case Paging => "_paging.css"
    case TocRules => "toc.css"
    case CoverRules => "cover.css"
    case CustomRules => "pdf_custom.css"
  }

  /** File names whose rules go into the default tag. */
  predicate Merged(name: string) {
    name in ["_styles.css", "_paging.css"]
  }

  /** The two name tests of the loop pick out one stylesheet each: only the
      paging rules are merged into the default tag, and only the custom
      rules are read from the custom directory. */
  lemma SheetNames(s: Sheet)
    ensures Merged(FileName(s)) <==> s == Paging
    ensures FileName(s) == "pdf_custom.css" <==> s == CustomRules
  {
    match s
    case Paging =>
    case TocRules =>
      assert |FileName(s)| == 7;
    case CoverRules =>
      assert |FileName(s)| == 9;
    case CustomRules =>
      assert |FileName(s)| == 14;
  }

  /** The custom stylesheet directory, when one is configured: a relative
      path is taken from the resolved source directory. */
  function CustomCssDir(fs: FileSystem, o: StyleOptions): (r: Option<string>)
    ensures r.Some? <==> o.customCssPath.Some?
    ensures o.customCssPath.Some? && IsAbsolute(o.customCssPath.value) ==> r == o.customCssPath
  {
    if o.customCssPath.None? then None
    else if IsAbsolute(o.customCssPath.value) then o.customCssPath
    else Some(JoinPath(fs.resolve(o.srcdir), o.customCssPath.value))
  }

  /** Whether a custom stylesheet directory is configured and exists. */
  predicate HasCustomDir(fs: FileSystem, o: StyleOptions) {
    var dir := CustomCssDir(fs, o);
    dir.Some? && fs.isDir(dir.value)
  }

  /** The stylesheets considered, in order. */
  function CssFiles(fs: FileSystem, o: StyleOptions): seq<Sheet> {
    [Paging]
    + (if o.toc then [TocRules] else [])
    + (if o.cover then [CoverRules] else [])
    + (if HasCustomDir(fs, o) then [CustomRules] else [])
  }

  /** Where a stylesheet is read from: the custom one from the custom
      directory, the others from the installation. */
  function CssPath(fs: FileSystem, inst: Install, o: StyleOptions, s: Sheet): string {
    var dir := CustomCssDir(fs, o);
    if s == CustomRules then JoinPath(if dir.Some? then dir.value else ".", FileName(s))
    else JoinPath(inst.basePath, FileName(s))
  }

  /** The class of a stylesheet's own tag. */
  function TagClass(name: string): string {
    "plugin-" + ReplaceAll(name, ".", "-")
  }

  /** What one stylesheet adds to the default tag. */
  function MergedOf(fs: FileSystem, inst: Install, o: StyleOptions, s: Sheet): seq<StyleText> {
    var path := CssPath(fs, inst, o, s);
    if fs.isFile(path) && s == Paging then [Rules(fs.read(path))] else []
  }

  /** The tag of its own one stylesheet gets. */
  function OwnOf(fs: FileSystem, inst: Install, o: StyleOptions, s: Sheet): seq<StyleTag> {
    var path := CssPath(fs, inst, o, s);
    if fs.isFile(path) && s != Paging then [StyleTag(TagClass(FileName(s)), [Rules(fs.read(path))])] else []
  }

  /** What each stylesheet adds to the default tag. */
  function MergedFn(fs: FileSystem, inst: Install, o: StyleOptions): Sheet -> seq<StyleText> {
    s => MergedOf(fs, inst, o, s)
  }

  /** The tag of its own each stylesheet gets. */
  function OwnFn(fs: FileSystem, inst: Install, o: StyleOptions): Sheet -> seq<StyleTag> {
    s => OwnOf(fs, inst, o, s)
  }

  /** What the listed stylesheets give, one after the other. */
  function Gather<T>(f: Sheet -> seq<T>, names: seq<Sheet>): seq<T> {
    if names == [] then []
    else Gather(f, names[..|names| - 1]) + f(names[|names| - 1])
  }

  /** The default tag, holding the `:root` block with the values `root`
      and the merged rules, comes first; the stylesheets' own tags follow
      in the order the stylesheets were considered. */
  function Styles(root: RootVars, fs: FileSystem, inst: Install, o: StyleOptions): seq<StyleTag> {
    var names := CssFiles(fs, o);
    [StyleTag("plugin-default-css", [RootBlock(root)] + Gather(MergedFn(fs, inst, o), names))]
    + Gather(OwnFn(fs, inst, o), names)
  }

  /** One more stylesheet gathered. */
  lemma GatherNext<T>(f: Sheet -> seq<T>, names: seq<Sheet>, k: nat)
    requires k < |names|
    ensures Gather(f, names[..k + 1]) == Gather(f, names[..k]) + f(names[k])
  {
    assert names[..k + 1][..k] == names[..k];
  }

  /** What the `k`-th stylesheet, read from `path`, adds to the default tag
      and to the list of own tags. */
  lemma SheetStep(fs: FileSystem, inst: Install, o: StyleOptions, names: seq<Sheet>, k: nat, path: string)
    requires k < |names| && path == CssPath(fs, inst, o, names[k])
    ensures Gather(MergedFn(fs, inst, o), names[..k + 1]) == Gather(MergedFn(fs, inst, o), names[..k])
      + (if fs.isFile(path) && Merged(FileName(names[k])) then [Rules(fs.read(path))] else [])
    ensures Gather(OwnFn(fs, inst, o), names[..k + 1]) == Gather(OwnFn(fs, inst, o), names[..k])
      + (if fs.isFile(path) && !Merged(FileName(names[k])) then [StyleTag(TagClass(FileName(names[k])), [Rules(fs.read(path))])] else [])
  {
    GatherNext(MergedFn(fs, inst, o), names, k);
    GatherNext(OwnFn(fs, inst, o), names, k);
    SheetNames(names[k]);
  }

  /** The path the loop reads a stylesheet from, given the custom
      directory it worked out, is the one `CssPath` names. */
  lemma FilenameOfSheet(fs: FileSystem, inst: Install, o: StyleOptions, s: Sheet, customCssPath: string)
    requires s == CustomRules ==> CustomCssDir(fs, o) == Some(customCssPath)
    ensures (if FileName(s) != "pdf_custom.css" then JoinPath(inst.basePath, FileName(s))
             else JoinPath(customCssPath, FileName(s))) == CssPath(fs, inst, o, s)
  {
    SheetNames(s);
  }

  /** The list of stylesheets and the custom directory, as the first half
      of `style_for_print` works them out. */
  method ChooseCssFiles(fs: FileSystem, o: StyleOptions) returns (cssFiles: seq<Sheet>, customCssPath: string)
    ensures cssFiles == CssFiles(fs, o)
    ensures CustomRules in cssFiles ==> CustomCssDir(fs, o) == Some(customCssPath)
  {
    cssFiles := [Paging];
    if o.toc {
      cssFiles := cssFiles + [TocRules];
    }
    if o.cover {
      cssFiles := cssFiles + [CoverRules];
    }
    var docsSrcDir := fs.resolve(o.srcdir);
    customCssPath := if o.customCssPath.Some? then o.customCssPath.value else ".";
    if o.customCssPath.Some? {
      if !IsAbsolute(customCssPath) {
        customCssPath := JoinPath(docsSrcDir, o.customCssPath.value);
      }
      if fs.isDir(customCssPath) {
        cssFiles := cssFiles + [CustomRules];
      }
    }
  }

  /** `style_for_print(options, pdf_metadata)`. */
  method StyleForPrint(py: PyText, fs: FileSystem, inst: Install, o: StyleOptions, meta: Option<map<string, MetaValue>>)
    returns (tags: seq<StyleTag>)
    ensures tags == Styles(RootValues(py, o, meta), fs, inst, o)
  {
    tags := AssembleStyles(RootValues(py, o, meta), fs, inst, o);
  }

  /** One turn of the loop of `style_for_print`: the stylesheet's rules,
      when its file exists, are appended to the default tag or become a
      tag of their own. */
  method AddSheet(fs: FileSystem, inst: Install, o: StyleOptions, customCssPath: string, cssFile: Sheet,
                  cssTag: StyleTag, cssStylesList: seq<StyleTag>)
    returns (cssTag': StyleTag, cssStylesList': seq<StyleTag>, filename: string)
    requires cssFile == CustomRules ==> CustomCssDir(fs, o) == Some(customCssPath)
    ensures filename == CssPath(fs, inst, o, cssFile)
    ensures cssTag'.cls == cssTag.cls
    ensures cssTag'.texts == cssTag.texts
      + (if fs.isFile(filename) && Merged(FileName(cssFile)) then [Rules(fs.read(filename))] else [])
    ensures cssStylesList' == cssStylesList
      + (if fs.isFile(filename) && !Merged(FileName(cssFile)) then [StyleTag(TagClass(FileName(cssFile)), [Rules(fs.read(filename))])] else [])
  {
    FilenameOfSheet(fs, inst, o, cssFile, customCssPath);
    filename := if FileName(cssFile) != "pdf_custom.css" then JoinPath(inst.basePath, FileName(cssFile))
                else JoinPath(customCssPath, FileName(cssFile));
    cssTag', cssStylesList' := cssTag, cssStylesList;
    if fs.isFile(filename) {
      var cssRules := fs.read(filename);
      if Merged(FileName(cssFile)) {
        cssTag' := cssTag.(texts := cssTag.texts + [Rules(cssRules)]);
      } else {
        cssStylesList' := cssStylesList + [StyleTag(TagClass(FileName(cssFile)), [Rules(cssRules)])];
      }
    }
  }

  /** The loop of `style_for_print` over the chosen stylesheets. */
  method ReadSheets(fs: FileSystem, inst: Install, o: StyleOptions, cssFiles: seq<Sheet>, customCssPath: string,
                    cssTag: StyleTag)
    returns (cssTag': StyleTag, cssStylesList: seq<StyleTag>)
    requires CustomRules in cssFiles ==> CustomCssDir(fs, o) == Some(customCssPath)
    ensures cssTag'.cls == cssTag.cls
    ensures cssTag'.texts == cssTag.texts + Gather(MergedFn(fs, inst, o), cssFiles)
    ensures cssStylesList == Gather(OwnFn(fs, inst, o), cssFiles)
  {
    cssTag' := cssTag;
    cssStylesList := [];
    for k := 0 to |cssFiles|
      invariant cssTag'.cls == cssTag.cls
      invariant cssTag'.texts == cssTag.texts + Gather(MergedFn(fs, inst, o), cssFiles[..k])
      invariant cssStylesList == Gather(OwnFn(fs, inst, o), cssFiles[..k])
    {
      assert cssFiles[k] in cssFiles;
      var filename;
      cssTag', cssStylesList, filename := AddSheet(fs, inst, o, customCssPath, cssFiles[k], cssTag', cssStylesList);
      SheetStep(fs, inst, o, cssFiles, k, filename);
    }
    assert cssFiles[..|cssFiles|] == cssFiles;
  }

  /** The tags of `style_for_print` once the `:root` values are known. */
  method AssembleStyles(root: RootVars, fs: FileSystem, inst: Install, o: StyleOptions) returns (tags: seq<StyleTag>)
    ensures tags == Styles(root, fs, inst, o)
  {
    var cssTag := StyleTag("plugin-default-css", [RootBlock(root)]);
    var cssFiles, customCssPath := ChooseCssFiles(fs, o);
    var cssStylesList;
    cssTag, cssStylesList := ReadSheets(fs, inst, o, cssFiles, customCssPath, cssTag);
    tags := [cssTag] + cssStylesList;
  }

  /** Replacing a character that first occurs after `a`. */
  lemma {:induction false} ReplaceAfterPlain(a: string, c: char, b: string, rep: string)
    requires c !in a
    ensures ReplaceAll(a + [c] + b, [c], rep) == a + rep + ReplaceAll(b, [c], rep)
    decreases |a|
  {
    var s := a + [c] + b;
    if a == [] {
      assert s[..1] == [c] && s[1..] == b;
    } else {
      assert s[0] == a[0] && a[0] in a;
      assert s[..1] != [c];
      assert s[1..] == a[1..] + [c] + b;
      ReplaceAfterPlain(a[1..], c, b, rep);
    }
  }

  /** The class of `<stem>.css` is `plugin-<stem>-css` when the stem has no
      dot: "toc.css" gets "plugin-toc-css", "pdf_custom.css" gets
      "plugin-pdf_custom-css". */
  lemma {:induction false} TagClassOfStem(stem: string)
    requires '.' !in stem
    ensures TagClass(stem + ".css") == "plugin-" + stem + "-css"
  {
    assert stem + ".css" == stem + ['.'] + "css";
    ReplaceAfterPlain(stem, '.', "css", "-");
    assert '.' !in "css";
    CountOfAbsentChar("css", '.');
    ReplaceWithoutMatch("css", ".", "-");
  }

  lemma GatherSnoc<T>(f: Sheet -> seq<T>, xs: seq<Sheet>, b: bool, x: Sheet)
    ensures Gather(f, xs + (if b then [x] else [])) == Gather(f, xs) + (if b then f(x) else [])
  {
    if b {
      assert (xs + [x])[..|xs|] == xs;
    } else {
      assert xs + [] == xs;
    }
  }

  /** Gathering over the considered stylesheets visits them in order. */
  lemma {:induction false} GatherInOrder<T>(f: Sheet -> seq<T>, toc: bool, cover: bool, custom: bool)
    ensures Gather(f, [Paging] + (if toc then [TocRules] else []) + (if cover then [CoverRules] else [])
        + (if custom then [CustomRules] else []))
      == f(Paging) + (if toc then f(TocRules) else []) + (if cover then f(CoverRules) else [])
        + (if custom then f(CustomRules) else [])
  {
    var a := [Paging];
    var b := a + (if toc then [TocRules] else []);
    var c := b + (if cover then [CoverRules] else []);
    assert a[..0] == [];
    assert Gather(f, a) == f(Paging);
    GatherSnoc(f, a, toc, TocRules);
    GatherSnoc(f, b, cover, CoverRules);
    GatherSnoc(f, c, custom, CustomRules);
  }

  /** Only the paging rules are merged into the default tag. */
  lemma MergedInOrder(fs: FileSystem, inst: Install, o: StyleOptions)
    ensures Gather(MergedFn(fs, inst, o), CssFiles(fs, o)) == MergedOf(fs, inst, o, Paging)
  {
    var m := MergedFn(fs, inst, o);
    GatherInOrder(m, o.toc, o.cover, HasCustomDir(fs, o));
    assert m(TocRules) == [] && m(CoverRules) == [] && m(CustomRules) == [];
  }

  /** The other stylesheets' own tags, in the order they are considered. */
  lemma OwnInOrder(fs: FileSystem, inst: Install, o: StyleOptions)
    ensures Gather(OwnFn(fs, inst, o), CssFiles(fs, o)) ==
      (if o.toc then OwnOf(fs, inst, o, TocRules) else [])
      + (if o.cover then OwnOf(fs, inst, o, CoverRules) else [])
      + (if HasCustomDir(fs, o) then OwnOf(fs, inst, o, CustomRules) else [])
  {
    var w := OwnFn(fs, inst, o);
    GatherInOrder(w, o.toc, o.cover, HasCustomDir(fs, o));
    assert w(Paging) == [] by {
      assert OwnOf(fs, inst, o, Paging) == [];
    }
    SubstituteSheets(w, OwnOf(fs, inst, o, TocRules), OwnOf(fs, inst, o, CoverRules), OwnOf(fs, inst, o, CustomRules),
      o.toc, o.cover, HasCustomDir(fs, o));
  }

  lemma SubstituteSheets<T>(w: Sheet -> seq<T>, a: seq<T>, b: seq<T>, c: seq<T>, x: bool, y: bool, z: bool)
    requires w(Paging) == [] && w(TocRules) == a && w(CoverRules) == b && w(CustomRules) == c
    ensures w(Paging) + (if x then w(TocRules) else []) + (if y then w(CoverRules) else []) + (if z then w(CustomRules) else [])
      == (if x then a else []) + (if y then b else []) + (if z then c else [])
  {
  }

  /** What the list holds, written out: the default tag with the `:root`
      block and then the paging rules when that file exists; then one tag
      for the table-of-contents rules if the table of contents is on and
      its file exists, one for the cover rules likewise, and one for the
      custom rules if a custom directory exists and holds its file.  A
      missing file contributes nothing. */
  lemma StylesInOrder(root: RootVars, fs: FileSystem, inst: Install, o: StyleOptions)
    ensures Styles(root, fs, inst, o) ==
      [StyleTag("plugin-default-css", [RootBlock(root)] + MergedOf(fs, inst, o, Paging))]
      + (if o.toc then OwnOf(fs, inst, o, TocRules) else [])
      + (if o.cover then OwnOf(fs, inst, o, CoverRules) else [])
      + (if HasCustomDir(fs, o) then OwnOf(fs, inst, o, CustomRules) else [])
  {
    MergedInOrder(fs, inst, o);
    OwnInOrder(fs, inst, o);
  }

  /** A stylesheet other than the paging rules gets a tag of its own
      exactly when its file exists, with the file's rules as its only text;
      the paging rules never do, and are merged into the default tag
      exactly when their file exists. */
  lemma OwnTagOfSheet(fs: FileSystem, inst: Install, o: StyleOptions, s: Sheet)
    ensures s != Paging ==>
      (OwnOf(fs, inst, o, s) != [] <==> fs.isFile(CssPath(fs, inst, o, s)))
    ensures s != Paging && fs.isFile(CssPath(fs, inst, o, s)) ==>
      OwnOf(fs, inst, o, s) == [StyleTag(TagClass(FileName(s)), [Rules(fs.read(CssPath(fs, inst, o, s)))])]
    ensures s == Paging ==> OwnOf(fs, inst, o, s) == []
    ensures MergedOf(fs, inst, o, s) != [] <==> s == Paging && fs.isFile(CssPath(fs, inst, o, s))
  {
  }
}
