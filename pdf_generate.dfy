/**
 * The per-page bookkeeping of the plugin: whether a page is converted,
 * what its PDF is called, and the counters of converted pages and errors
 * (sphinx_pdf_generate/pdf_generate.py, `PdfGeneratePlugin`).
 */
module PdfGenerate {
  import opened Wrappers
  import opened PyStr
  import opened Paths
  import opened Utils
  import opened UrlFilter

  /** The configuration entries a conversion reads. */
  datatype PluginConfig = PluginConfig(
    outdir: string,
    srcdir: string,
    debug: bool,
    debugTarget: Option<string>   // None when the configured target is empty
  )

  /** The library behaviour a conversion depends on. */
  datatype Env = Env(fs: FileSystem, urlparse: string -> UrlParts, platform: Platform)

  /** The renderer as the plugin calls it.  `writePdf(html, baseUrl,
      target, meta)` gives the reason of the exception it raised, or None
      when the PDF was written; `addLink(html, pdfFile)` is the theme's
      `modify_html`, which gives the linked HTML or the reason of the
      exception it raised. */
  datatype Renderer = Renderer(
    writePdf: (string, string, string, map<string, MetaValue>) -> Option<string>,
    addLink: (string, string) -> Result<string, string>
  )

  /** One page handed to the plugin: its HTML, its name relative to the
      source directory (without suffix), its metadata and the h1 elements
      of its HTML. */
  datatype Page = Page(html: string, pagename: string, metadata: Option<RawMetadata>, h1s: seq<H1>)

  /** What a conversion did. */
  datatype Outcome = Skipped | Converted(pdfFile: string, linked: string) | Failed(reason: string)

  /** The page's source: srcdir/pagename.rst. */
  function SrcPath(cfg: PluginConfig, pagename: string): string {
    JoinPath(cfg.srcdir, pagename + ".rst")
  }

  /** The directory the page's HTML, and its PDF, are written to: the
      parent of outdir/pagename.html. */
  function DestDir(cfg: PluginConfig, pagename: string): string {
    Parent(JoinPath(cfg.outdir, pagename + ".html"))
  }

  function FilterConfigOf(cfg: PluginConfig): FilterConfig {
    FilterConfig(cfg.outdir, cfg.srcdir)
  }

  /** `get_pdf_metadata` on the page's metadata, None counting as empty. */
  function PageMeta(m: Option<RawMetadata>): map<string, MetaValue> {
    MetaUpTo(if m.Some? then m.value else map[], |PdfLocalOptions|)
  }

  /** `meta.get(key)`. */
  function MetaGet(meta: map<string, MetaValue>, key: string): MetaValue {
    if key in meta then meta[key] else NoneValue
  }

  /** The build flag once the debug override has been applied: with debug
      on and a target set, only the page whose filtered source path equals
      the filtered target is built. */
  predicate BuildRequested(env: Env, cfg: PluginConfig, pagename: string, meta: map<string, MetaValue>) {
    if cfg.debug && cfg.debugTarget.Some? then
      ToUrl(env.fs, env.urlparse, FilterConfigOf(cfg), cfg.debugTarget.value)
        == ToUrl(env.fs, env.urlparse, FilterConfigOf(cfg), SrcPath(cfg, pagename))
    else !Falsy(MetaGet(meta, "build"))
  }

  /** The gate: the flag holds and the source file exists. */
  predicate Builds(env: Env, cfg: PluginConfig, pagename: string, meta: map<string, MetaValue>) {
    BuildRequested(env, cfg, pagename, meta) && env.fs.pathExists(SrcPath(cfg, pagename))
  }

  /** A text metadata value as an optional string, as `h1_title_tag`
      receives it. */
  function TextOf(v: MetaValue): Option<string> {
    if v.Text? then Some(v.s) else None
  }

  /** Whether an optional name is truthy. */
  predicate Named(n: Option<string>) {
    n.Some? && n.value != ""
  }

  /** The page's h1 title, `pdf_meta["title"]` when no h1 qualifies. */
  function BodyTitle(page: Page, meta: map<string, MetaValue>): Option<string> {
    H1TitleTag(page.h1s, TextOf(MetaGet(meta, "title")))
  }

  /** `pagename.split("/")[-1]`. */
  function LastSegment(pagename: string): string {
    var parts := SplitOn(pagename, "/");
    parts[|parts| - 1]
  }

  /** `filename or title or body_title`, falling back on the last segment
      of the page name. */
  function BaseName(meta: map<string, MetaValue>, bodyTitle: Option<string>, pagename: string): string {
    var fileName := TextOf(MetaGet(meta, "filename"));
    var title := TextOf(MetaGet(meta, "title"));
    if Named(fileName) then fileName.value
    else if Named(title) then title.value
    else if Named(bodyTitle) then bodyTitle.value
    else LastSegment(pagename)
  }

  /** The sanitised name of the page's PDF, without ".pdf". */
  function PdfStem(env: Env, meta: map<string, MetaValue>, bodyTitle: Option<string>, pagename: string): string {
    SecureFilename(BaseName(meta, bodyTitle, pagename), env.platform)
  }

  /** The message of the `PDFGenerateException` raised for a failed page. */
  function ErrorMessage(pagename: string, reason: string): string {
    "Error converting " + pagename + ".rst. Reason: " + reason
  }

  /** What converting `page` does, given its parsed metadata. */
  function OutcomeWith(env: Env, renderer: Renderer, cfg: PluginConfig, page: Page, meta: map<string, MetaValue>): Outcome {
    if !Builds(env, cfg, page.pagename, meta) then Skipped
    else
      RenderWith(env, renderer, page, meta, DestDir(cfg, page.pagename), PdfStem(env, meta, BodyTitle(page, meta), page.pagename))
  }

  /** The `try` block: the PDF `stem.pdf` is written into `dest`, then the
      theme links it from the page; an exception from either call is a
      failure. */
  function RenderWith(env: Env, renderer: Renderer, page: Page, meta: map<string, MetaValue>, dest: string, stem: string): Outcome {
    var reason := renderer.writePdf(page.html, env.fs.asUri(JoinPath(dest, stem)), JoinPath(dest, stem + ".pdf"), meta);
    if reason.Some? then Failed(reason.value)
    else match renderer.addLink(page.html, stem + ".pdf")
      case Ok(linked) => Converted(stem + ".pdf", linked)
      case Err(e) => Failed(e)
  }

  /** What converting `page` does. */
  function ConvertOutcome(env: Env, renderer: Renderer, cfg: PluginConfig, page: Page): Outcome {
    OutcomeWith(env, renderer, cfg, page, PageMeta(page.metadata))
  }

  /** What `convert_page_to_pdf` returns, or the message it raises. */
  function ConvertResult(page: Page, o: Outcome): Result<string, string> {
    if o.Converted? then Ok(o.linked)
    else if o.Failed? then Err(ErrorMessage(page.pagename, o.reason))
    else Ok(page.html)
  }

  class Plugin {
    const config: PluginConfig
    const renderer: Renderer
    var pdfNumFiles: nat
    var numErrors: nat
    var rstSrcPath: Option<string>   // `options.rst_src_path`
    var outDestPath: Option<string>  // `options.out_dest_path`
    var bodyTitle: Option<string>    // `options.body_title`

    constructor(config: PluginConfig, renderer: Renderer)
      ensures this.config == config && this.renderer == renderer
      ensures pdfNumFiles == 0 && numErrors == 0
      ensures rstSrcPath.None? && outDestPath.None? && bodyTitle == Some("")
    {
      this.config := config;
      this.renderer := renderer;
      pdfNumFiles := 0;
      numErrors := 0;
      rstSrcPath := None;
      outDestPath := None;
      bodyTitle := Some("");
    }

    /** `convert_page_to_pdf`: Ok with the returned HTML, or Err with the
        message of the raised `PDFGenerateException`. */
    method ConvertPageToPdf(env: Env, page: Page) returns (r: Result<string, string>)
      modifies this
      ensures rstSrcPath == Some(SrcPath(config, page.pagename))
      ensures outDestPath == Some(DestDir(config, page.pagename))
      ensures var meta := PageMeta(page.metadata);
        bodyTitle == (if Builds(env, config, page.pagename, meta) then BodyTitle(page, meta) else old(bodyTitle))
      ensures var o := ConvertOutcome(env, renderer, config, page);
        && pdfNumFiles == old(pdfNumFiles) + (if o.Converted? then 1 else 0)
        && numErrors == old(numErrors) + (if o.Failed? then 1 else 0)
        && r == ConvertResult(page, o)
    {
      rstSrcPath := Some(SrcPath(config, page.pagename));
      var destPath := DestDir(config, page.pagename);
      outDestPath := Some(destPath);
      var pdfMeta := GetPdfMetadata(page.metadata);
      var build := BuildGate(env, page.pagename, pdfMeta);
      if build {
        r := ConvertBuilt(env, page, pdfMeta);
      } else {
        r := Ok(page.html);
      }
    }

    /** The build flag, with the debug override, and the check that the
        source exists. */
    method BuildGate(env: Env, pagename: string, pdfMeta: map<string, MetaValue>) returns (build: bool)
      ensures build == Builds(env, config, pagename, pdfMeta)
    {
      build := !Falsy(MetaGet(pdfMeta, "build"));
      var srcPath := SrcPath(config, pagename);
      if config.debug && config.debugTarget.Some? {
        var debugTargetFile := Filter(env.fs, env.urlparse, FilterConfigOf(config), config.debugTarget.value);
        var docSrcPath := Filter(env.fs, env.urlparse, FilterConfigOf(config), srcPath);
        build := docSrcPath == debugTargetFile;
      }
      build := build && env.fs.pathExists(srcPath);
    }

    /** The conversion of a page that passed the gate: the body title,
        the file name, the renderer call and the counters. */
    method ConvertBuilt(env: Env, page: Page, pdfMeta: map<string, MetaValue>) returns (r: Result<string, string>)
      requires Builds(env, config, page.pagename, pdfMeta)
      modifies this
      ensures rstSrcPath == old(rstSrcPath) && outDestPath == old(outDestPath)
      ensures bodyTitle == BodyTitle(page, pdfMeta)
      ensures var o := OutcomeWith(env, renderer, config, page, pdfMeta);
        && pdfNumFiles == old(pdfNumFiles) + (if o.Converted? then 1 else 0)
        && numErrors == old(numErrors) + (if o.Failed? then 1 else 0)
        && r == ConvertResult(page, o)
    {
      var destPath := DestDir(config, page.pagename);
      bodyTitle := H1TitleTag(page.h1s, TextOf(MetaGet(pdfMeta, "title")));
      var fileName := BaseName(pdfMeta, bodyTitle, page.pagename);
      fileName := SecureFilename(fileName, env.platform);
      var o := TryRender(env, page, pdfMeta, destPath, fileName);
      if o.Failed? {
        numErrors := numErrors + 1;
        r := Err(ErrorMessage(page.pagename, o.reason));
      } else {
        pdfNumFiles := pdfNumFiles + 1;
        r := Ok(o.linked);
      }
    }

    /** The calls of the `try` block: `write_pdf`, then `add_link` once the
        PDF is written. */
    method TryRender(env: Env, page: Page, pdfMeta: map<string, MetaValue>, destPath: string, fileName: string)
      returns (o: Outcome)
      ensures o == RenderWith(env, renderer, page, pdfMeta, destPath, fileName)
      ensures !o.Skipped?
    {
      var baseUrl := env.fs.asUri(JoinPath(destPath, fileName));
      var pdfFile := fileName + ".pdf";
      var reason := renderer.writePdf(page.html, baseUrl, JoinPath(destPath, pdfFile), pdfMeta);
      if reason.Some? {
        return Failed(reason.value);
      }
      var linked := renderer.addLink(page.html, pdfFile);
      if linked.Err? {
        return Failed(linked.error);
      }
      o := Converted(pdfFile, linked.value);
    }
  }

  // ---------------------------------------------------------------------
  // Properties of a conversion
  // ---------------------------------------------------------------------

  /** A page is rendered only through the gate; a skipped page comes back
      unchanged, a converted one carries the theme's link to its PDF and a
      failed one raises. */
  lemma OutcomeOfGate(env: Env, renderer: Renderer, cfg: PluginConfig, page: Page)
    ensures var o := ConvertOutcome(env, renderer, cfg, page);
      && (o.Skipped? <==> !Builds(env, cfg, page.pagename, PageMeta(page.metadata)))
      && (o.Skipped? ==> ConvertResult(page, o) == Ok(page.html))
      && (o.Converted? ==> ConvertResult(page, o) == Ok(o.linked))
      && (o.Failed? ==> ConvertResult(page, o) == Err(ErrorMessage(page.pagename, o.reason)))
  {
  }

  /** A page past the gate fails when writing the PDF raises, or, once the
      PDF is written, when the theme's `modify_html` raises; it is converted,
      with the theme's linked HTML, only when both calls succeed. */
  lemma RenderOutcome(env: Env, renderer: Renderer, cfg: PluginConfig, page: Page)
    requires Builds(env, cfg, page.pagename, PageMeta(page.metadata))
    ensures var meta := PageMeta(page.metadata);
      var stem := PdfStem(env, meta, BodyTitle(page, meta), page.pagename);
      var dest := DestDir(cfg, page.pagename);
      var written := renderer.writePdf(page.html, env.fs.asUri(JoinPath(dest, stem)), JoinPath(dest, stem + ".pdf"), meta);
      var linked := renderer.addLink(page.html, stem + ".pdf");
      var o := ConvertOutcome(env, renderer, cfg, page);
      && (written.Some? ==> o == Failed(written.value))
      && (written.None? && linked.Err? ==> o == Failed(linked.error))
      && (written.None? && linked.Ok? ==> o == Converted(stem + ".pdf", linked.value))
  {
  }

  /** Without the debug override, the page is built exactly when its
      "pdf-build" entry is not "false" in any letter case and its source
      exists. */
  lemma BuildFollowsMetadata(env: Env, cfg: PluginConfig, pagename: string, m: Option<RawMetadata>)
    requires !(cfg.debug && cfg.debugTarget.Some?)
    ensures var raw := if m.Some? then m.value else map[];
      Builds(env, cfg, pagename, PageMeta(m))
      <==> !("pdf-build" in raw && LowerAscii(raw["pdf-build"]) == "false") && env.fs.pathExists(SrcPath(cfg, pagename))
  {
    MetaOfTable(if m.Some? then m.value else map[]);
  }

  /** With the debug override, the metadata's build entry does not matter,
      and the page whose source path is the target itself is built when it
      exists. */
  lemma DebugTargetDecides(env: Env, cfg: PluginConfig, pagename: string, meta1: map<string, MetaValue>, meta2: map<string, MetaValue>)
    requires cfg.debug && cfg.debugTarget.Some?
    ensures Builds(env, cfg, pagename, meta1) == Builds(env, cfg, pagename, meta2)
    ensures cfg.debugTarget.value == SrcPath(cfg, pagename) ==>
      (Builds(env, cfg, pagename, meta1) <==> env.fs.pathExists(SrcPath(cfg, pagename)))
  {
  }

  /** The base name of the PDF: the "pdf-filename" entry, else the
      "pdf-title" entry, else the body title, else the last segment of the
      page name; empty entries are passed over. */
  lemma BaseNamePrecedence(m: RawMetadata, bodyTitle: Option<string>, pagename: string)
    ensures var meta := MetaUpTo(m, |PdfLocalOptions|);
      var b := BaseName(meta, bodyTitle, pagename);
      && ("pdf-filename" in m && m["pdf-filename"] != "" ==> b == m["pdf-filename"])
      && (("pdf-filename" !in m || m["pdf-filename"] == "") && "pdf-title" in m && m["pdf-title"] != "" ==> b == m["pdf-title"])
      && ((("pdf-filename" !in m || m["pdf-filename"] == "") && ("pdf-title" !in m || m["pdf-title"] == "")
           && Named(bodyTitle)) ==> b == bodyTitle.value)
      && ((("pdf-filename" !in m || m["pdf-filename"] == "") && ("pdf-title" !in m || m["pdf-title"] == "")
           && !Named(bodyTitle)) ==> b == LastSegment(pagename))
  {
    MetaOfTable(m);
  }

  /** A converted page's PDF is the sanitised base name plus ".pdf": only
      safe characters, and no leading or trailing dot or underscore except
      for the guard put before a Windows device name. */
  lemma PdfNameIsSafe(env: Env, renderer: Renderer, cfg: PluginConfig, page: Page)
    requires ConvertOutcome(env, renderer, cfg, page).Converted?
    ensures var meta := PageMeta(page.metadata);
      var stem := PdfStem(env, meta, BodyTitle(page, meta), page.pagename);
      && ConvertOutcome(env, renderer, cfg, page).pdfFile == stem + ".pdf"
      && AllSafe(stem)
      && (CleanEnds(stem) || (env.platform == Nt && stem[0] == '_' && CleanEnds(stem[1..])))
  {
    var meta := PageMeta(page.metadata);
    SecureFilenameShape(BaseName(meta, BodyTitle(page, meta), page.pagename), env.platform);
  }

  /** A page name without a separator is its own last segment. */
  lemma LastSegmentOfBareName(pagename: string)
    requires '/' !in pagename
    ensures LastSegment(pagename) == pagename
  {
    SplitWithoutSeparator(pagename, '/');
  }

  /** Directories before the first separator do not reach the last
      segment. */
  lemma LastSegmentAfterDir(dir: string, rest: string)
    requires '/' !in dir
    ensures LastSegment(dir + "/" + rest) == LastSegment(rest)
  {
    SplitAtFirst(dir, '/', rest);
  }

  /** The PDF of a page inside a sub-directory lands in that sub-directory
      of the output directory. */
  lemma DestDirOfNestedPage(cfg: PluginConfig, dir: string, name: string)
    requires cfg.outdir != "" && dir != "" && !IsAbsolute(dir) && '/' !in name
    ensures DestDir(cfg, dir + "/" + name) == JoinPath(cfg.outdir, dir)
  {
    var b := name + ".html";
    assert b[|b| - 1] == 'l' && b[|b| - 5] == '.';
    assert '/' !in b by {
      forall k | 0 <= k < |b| ensures b[k] != '/' {
        if k < |name| {
          assert b[k] == name[k] && name[k] in name;
        }
      }
    }
    var rel := dir + "/" + b;
    assert (dir + "/" + name) + ".html" == rel;
    assert rel[0] == dir[0];
    assert JoinPath(cfg.outdir, rel) == cfg.outdir + "/" + rel;
    assert cfg.outdir + "/" + rel == JoinPath(cfg.outdir, dir) + "/" + b;
    assert b[0] in b;
    ParentOfJoin(JoinPath(cfg.outdir, dir), b);
  }

  /** A page at the top of the source tree writes its PDF into the output
      directory itself. */
  lemma DestDirOfTopPage(cfg: PluginConfig, name: string)
    requires cfg.outdir != "" && '/' !in name
    ensures DestDir(cfg, name) == cfg.outdir
  {
    var b := name + ".html";
    assert b[|b| - 5] == '.';
    assert '/' !in b by {
      forall k | 0 <= k < |b| ensures b[k] != '/' {
        if k < |name| {
          assert b[k] == name[k] && name[k] in name;
        }
      }
    }
    assert b[0] in b;
    ParentOfJoin(cfg.outdir, b);
  }
}
