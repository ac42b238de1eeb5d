/**
 * Content extraction and print normalisation of a rendered page
 * (sphinx_pdf_generate/preprocessor/prep.py): the body is reduced to the
 * main article, alignment attributes become inline styles, and for
 * separate PDFs links, assets and tab widgets are rewritten in turn.
 */
module Prep {
  import opened Wrappers
  import opened PyStr
  import opened Dom
  import opened TabbedBlock

  // ---------------------------------------------------------------------
  // Rewriting what a search selects
  // ---------------------------------------------------------------------

  /** Every node `sel` selects, with its kind rewritten by `upd`; the shape
      of the tree stays. */
  function Rewrite(f: Forest, sel: Kind -> bool, upd: Kind -> Kind): (g: Forest)
    requires Valid(f)
    ensures Valid(g) && SameParents(f, g)
    ensures forall i :: 0 <= i < |f| ==> g[i].children == f[i].children
  {
    seq(|f|, i requires 0 <= i < |f| => if Selected(f, i, sel) then f[i].(kind := upd(f[i].kind)) else f[i])
  }

  /** A rewrite that selects nothing changes nothing. */
  lemma RewriteNothing(f: Forest, sel: Kind -> bool, upd: Kind -> Kind)
    requires Valid(f) && forall i :: !Selected(f, i, sel)
    ensures Rewrite(f, sel, upd) == f
  {
  }

  // ---------------------------------------------------------------------
  // Alignment attributes become inline styles
  // ---------------------------------------------------------------------

  /** One of the three alignment loops: the tag it looks for, the
      alternatives of its regular expression, and the CSS property. */
  datatype AlignRule = AlignRule(tag: string, positions: seq<string>, property: string)

  const ImageRule: AlignRule := AlignRule("img", ["left", "right"], "float")
  const HeaderCellRule: AlignRule := AlignRule("th", ["left", "right", "center"], "text-align")
  const DataCellRule: AlignRule := AlignRule("td", ["left", "right", "center"], "text-align")

  /** `re.compile("left|right")` used as an attribute filter: a search, so
      an alternative anywhere in the value is a match. */
  predicate AlignMatches(rule: AlignRule, v: string) {
    exists p :: p in rule.positions && Contains(v, p)
  }

  /** What `find_all(rule.tag, attrs={"align": ...})` looks for. */
  predicate Aligned(rule: AlignRule, k: Kind) {
    IsElement(k, rule.tag) && Attr(k, "align").Some? && AlignMatches(rule, Attr(k, "align").value)
  }

  /** `tag["style"] = f"{property}:{position};"` then `del tag["align"]`. */
  function Restyled(rule: AlignRule, k: Kind): Kind {
    match k
    case Element(name, attrs) =>
      if "align" in attrs then Element(name, attrs["style" := rule.property + ":" + attrs["align"] + ";"] - {"align"})
      else k
    case TextNode(_) => k
  }

  function AlignSelector(rule: AlignRule): Kind -> bool {
    k => Aligned(rule, k)
  }

  function Restyle(rule: AlignRule): Kind -> Kind {
    k => Restyled(rule, k)
  }

  /** One alignment loop over the whole document. */
  function AlignSpec(f: Forest, rule: AlignRule): (g: Forest)
    requires Valid(f)
    ensures Valid(g) && SameParents(f, g)
  {
    Rewrite(f, AlignSelector(rule), Restyle(rule))
  }

  /** The three loops of `get_content`, images first. */
  function AlignAll(f: Forest): (g: Forest)
    requires Valid(f)
    ensures Valid(g) && SameParents(f, g)
    ensures forall i :: 0 <= i < |f| ==> g[i].children == f[i].children
  {
    AlignSpec(AlignSpec(AlignSpec(f, ImageRule), HeaderCellRule), DataCellRule)
  }

  method AlignPass(soup: Soup, rule: AlignRule)
    requires Valid(soup.nodes)
    modifies soup
    ensures soup.nodes == AlignSpec(old(soup.nodes), rule)
  {
    ghost var f := soup.nodes;
    ghost var upd := Restyle(rule);
    var found := FindAll(soup.nodes, AlignSelector(rule));
    for k := 0 to |found|
      invariant Valid(soup.nodes) && RewrittenUpTo(f, soup.nodes, found, k, upd)
    {
      var i := found[k];
      RewriteNext(f, soup.nodes, found, k, upd);
      assert found[k] in found;
      ghost var before := soup.nodes;
      var position := soup.nodes[i].kind.attrs["align"];
      soup.SetAttribute(i, "style", rule.property + ":" + position + ";");
      soup.DeleteAttribute(i, "align");
      RestyleStep(before, rule, i);
      RewriteStep(f, before, found, k, upd);
    }
    RewriteDone(f, AlignSelector(rule), upd, found, soup.nodes);
  }

  /** The two statements of the loop body restyle one element. */
  lemma RestyleStep(f: Forest, rule: AlignRule, i: nat)
    requires Valid(f) && i < |f| && Aligned(rule, f[i].kind)
    ensures var position := f[i].kind.attrs["align"];
      WithoutAttr(WithAttr(f, i, "style", rule.property + ":" + position + ";"), i, "align")
        == f[i := f[i].(kind := Restyle(rule)(f[i].kind))]
  {
    assert Restyle(rule)(f[i].kind) == Restyled(rule, f[i].kind);
  }

  /** A loop that rewrote exactly the nodes `find_all` returned has done
      what `Rewrite` says. */
  lemma RewriteDone(f: Forest, sel: Kind -> bool, upd: Kind -> Kind, found: seq<nat>, g: Forest)
    requires Valid(f) && found == FindAll(f, sel) && RewrittenUpTo(f, g, found, |found|, upd)
    ensures g == Rewrite(f, sel, upd)
  {
    assert found[..|found|] == found;
  }

  /** The state of a loop that has rewritten the first `k` nodes of
      `found`: those carry `upd` of their old kind, the rest are as they were. */
  ghost predicate RewrittenUpTo(f: Forest, g: Forest, found: seq<nat>, k: nat, upd: Kind -> Kind)
    requires k <= |found|
  {
    |g| == |f| && forall i :: 0 <= i < |f| ==> g[i] == if i in found[..k] then f[i].(kind := upd(f[i].kind)) else f[i]
  }

  /** The node a loop visits next has not been touched yet. */
  lemma RewriteNext(f: Forest, g: Forest, found: seq<nat>, k: nat, upd: Kind -> Kind)
    requires k < |found| && Increasing(found) && found[k] < |f| && RewrittenUpTo(f, g, found, k, upd)
    ensures g[found[k]] == f[found[k]]
  {
    assert found[k] !in found[..k];
  }

  /** Rewriting the next node advances the loop state by one. */
  lemma RewriteStep(f: Forest, g: Forest, found: seq<nat>, k: nat, upd: Kind -> Kind)
    requires k < |found| && Increasing(found) && found[k] < |f| && RewrittenUpTo(f, g, found, k, upd)
    ensures RewrittenUpTo(f, g[found[k] := g[found[k]].(kind := upd(g[found[k]].kind))], found, k + 1, upd)
  {
    RewriteNext(f, g, found, k, upd);
    assert found[..k + 1] == found[..k] + [found[k]];
  }

  /** A selected element gets `style` set to "<property>:<align>;",
      overwriting any style it had, and loses `align`; its other
      attributes and its name stay. */
  lemma AlignRestyles(f: Forest, rule: AlignRule, i: nat)
    requires Valid(f) && Selected(f, i, AlignSelector(rule))
    ensures var k, k' := f[i].kind, AlignSpec(f, rule)[i].kind;
      && k'.Element? && k'.name == rule.tag
      && "style" in k'.attrs && k'.attrs["style"] == rule.property + ":" + k.attrs["align"] + ";"
      && "align" !in k'.attrs
      && (forall key :: key in k'.attrs && key != "style" ==> key in k.attrs && k'.attrs[key] == k.attrs[key])
      && (forall key :: key in k.attrs && key != "style" && key != "align" ==> key in k'.attrs)
  {
  }

  /** Nodes the search does not select, such as an image aligned "center",
      are left exactly as they were. */
  lemma AlignLeavesOthers(f: Forest, rule: AlignRule, i: nat)
    requires Valid(f) && i < |f| && !Selected(f, i, AlignSelector(rule))
    ensures AlignSpec(f, rule)[i] == f[i]
  {
  }

  /** After a loop nothing in the document matches its search any more. */
  lemma AlignClears(f: Forest, rule: AlignRule)
    requires Valid(f)
    ensures forall i :: !Selected(AlignSpec(f, rule), i, AlignSelector(rule))
  {
    var g := AlignSpec(f, rule);
    AttachedOfSameParents(f, g);
    forall i: nat ensures !Selected(g, i, AlignSelector(rule)) {
      if i < |f| {
        if Selected(f, i, AlignSelector(rule)) {
          assert "align" !in g[i].kind.attrs;
          assert !Aligned(rule, g[i].kind);
        } else {
          assert g[i] == f[i] && Attached(g, i) == Attached(f, i);
        }
      }
    }
  }

  /** A second run of a loop changes nothing. */
  lemma AlignIdempotent(f: Forest, rule: AlignRule)
    requires Valid(f)
    ensures AlignSpec(AlignSpec(f, rule), rule) == AlignSpec(f, rule)
  {
    AlignClears(f, rule);
    RewriteNothing(AlignSpec(f, rule), AlignSelector(rule), Restyle(rule));
  }

  /** A loop for one tag does not make elements of another tag match. */
  lemma AlignKeepsOthersClear(f: Forest, rule: AlignRule, other: AlignRule)
    requires Valid(f) && rule.tag != other.tag
    requires forall i :: !Selected(f, i, AlignSelector(other))
    ensures forall i :: !Selected(AlignSpec(f, rule), i, AlignSelector(other))
  {
    var g := AlignSpec(f, rule);
    AttachedOfSameParents(f, g);
    forall i: nat ensures !Selected(g, i, AlignSelector(other)) {
      if i < |f| {
        if Selected(f, i, AlignSelector(rule)) {
          assert g[i].kind.name == rule.tag;
          assert !Aligned(other, g[i].kind);
        } else {
          assert g[i] == f[i] && Attached(g, i) == Attached(f, i);
          assert !Selected(f, i, AlignSelector(other));
        }
      }
    }
  }

  /** After the three loops no img, th or td with a matching align is
      left. */
  lemma AlignAllClears(f: Forest)
    requires Valid(f)
    ensures var g := AlignAll(f);
      forall i :: !Selected(g, i, AlignSelector(ImageRule))
        && !Selected(g, i, AlignSelector(HeaderCellRule))
        && !Selected(g, i, AlignSelector(DataCellRule))
  {
    var f1 := AlignSpec(f, ImageRule);
    var f2 := AlignSpec(f1, HeaderCellRule);
    AlignClears(f, ImageRule);
    AlignClears(f1, HeaderCellRule);
    AlignClears(f2, DataCellRule);
    AlignKeepsOthersClear(f1, HeaderCellRule, ImageRule);
    AlignKeepsOthersClear(f2, DataCellRule, ImageRule);
    AlignKeepsOthersClear(f2, DataCellRule, HeaderCellRule);
  }

  /** Running the alignment loops a second time changes nothing. */
  lemma AlignAllIdempotent(f: Forest)
    requires Valid(f)
    ensures AlignAll(AlignAll(f)) == AlignAll(f)
  {
    var g := AlignAll(f);
    AlignAllClears(f);
    var g1 := AlignSpec(g, ImageRule);
    RewriteNothing(g, AlignSelector(ImageRule), Restyle(ImageRule));
    RewriteNothing(g, AlignSelector(HeaderCellRule), Restyle(HeaderCellRule));
    RewriteNothing(g, AlignSelector(DataCellRule), Restyle(DataCellRule));
  }

  // ---------------------------------------------------------------------
  // get_content
  // ---------------------------------------------------------------------

  /** The exceptions `get_content` lets through: `soup.body` is None
      (AttributeError), or there is no article to insert (ValueError from
      inserting None). */
  datatype ContentError = NoBody | NoContent

  predicate IsBody(k: Kind) {
    IsElement(k, "body")
  }

  /** `find("article", attrs={"class": "md-content__inner"})`: the class is
      one of the element's classes. */
  predicate IsArticle(k: Kind) {
    IsElement(k, "article") && Attr(k, "class").Some? && "md-content__inner" in Words(Attr(k, "class").value)
  }

  /** Lines 36-39: the article is found, the body is cleared, and the body,
      looked up again, receives the article. */
  function Extract(f: Forest): (r: Result<Forest, ContentError>)
    requires Valid(f)
    ensures r.Ok? ==> Valid(r.value) && |r.value| == |f|
  {
    var content := FindFirst(f, IsArticle);
    match FindFirst(f, IsBody)
    case None => Err(NoBody)
    case Some(b) =>
      var g := Clear(f, b);
      match FindFirst(g, IsBody)
      case None => Err(NoBody)
      case Some(b') =>
        if content.None? then Err(NoContent)
        else
          assert g[b'].kind == f[b'].kind;
          Ok(Append(g, b', content.value))
  }

  /** `get_content`: extraction, then the three alignment loops. */
  function Content(f: Forest): (r: Result<Forest, ContentError>)
    requires Valid(f)
    ensures r.Ok? ==> Valid(r.value) && |r.value| == |f|
  {
    match Extract(f)
    case Err(e) => Err(e)
    case Ok(g) => Ok(AlignAll(g))
  }

  method GetContent(soup: Soup) returns (r: Result<(), ContentError>)
    requires Valid(soup.nodes)
    modifies soup
    ensures r.Ok? <==> Content(old(soup.nodes)).Ok?
    ensures r.Ok? ==> soup.nodes == Content(old(soup.nodes)).value
  {
    ghost var f := soup.nodes;
    var content := FindFirst(soup.nodes, IsArticle);
    var body := FindFirst(soup.nodes, IsBody);
    if body.None? {
      return Err(NoBody);
    }
    soup.ClearContents(body.value);
    var body' := FindFirst(soup.nodes, IsBody);
    if body'.None? {
      return Err(NoBody);
    }
    if content.None? {
      return Err(NoContent);
    }
    assert soup.nodes[body'.value].kind == f[body'.value].kind;
    soup.AppendChild(body'.value, content.value);
    assert soup.nodes == Extract(f).value;
    AlignPass(soup, ImageRule);
    AlignPass(soup, HeaderCellRule);
    AlignPass(soup, DataCellRule);
    r := Ok(());
  }

  /** In a document the parser built, the body ends up holding exactly the
      article, whatever it held before. */
  lemma ExtractKeepsOnlyArticle(f: Forest, b: nat, a: nat)
    requires Valid(f) && Consistent(f)
    requires FindFirst(f, IsBody) == Some(b) && FindFirst(f, IsArticle) == Some(a)
    ensures Extract(f).Ok?
    ensures Extract(f).value[b].children == [a] && Extract(f).value[a].parent == Some(b)
  {
    ClearKeepsFirst(f, b, IsBody);
    var g := Clear(f, b);
    assert g[b].children == [];
    assert g[b].kind == f[b].kind;
    assert Detach(g, a)[b].children == [];
  }

  /** Without a body `get_content` raises; with a body but no article it
      raises too, after clearing the body. */
  lemma ExtractErrors(f: Forest)
    requires Valid(f) && Consistent(f)
    ensures FindFirst(f, IsBody).None? ==> Extract(f) == Err(NoBody)
    ensures FindFirst(f, IsBody).Some? && FindFirst(f, IsArticle).None? ==> Extract(f) == Err(NoContent)
  {
    if FindFirst(f, IsBody).Some? {
      ClearKeepsFirst(f, FindFirst(f, IsBody).value, IsBody);
    }
  }

  /** The whole of `get_content`: the body holds just the article, and no
      alignment attribute the loops look for is left. */
  lemma ContentShape(f: Forest, b: nat, a: nat)
    requires Valid(f) && Consistent(f)
    requires FindFirst(f, IsBody) == Some(b) && FindFirst(f, IsArticle) == Some(a)
    ensures Content(f).Ok?
    ensures var g := Content(f).value;
      && g[b].children == [a] && g[a].parent == Some(b)
      && (forall i :: !Selected(g, i, AlignSelector(ImageRule))
                      && !Selected(g, i, AlignSelector(HeaderCellRule))
                      && !Selected(g, i, AlignSelector(DataCellRule)))
  {
    ExtractKeepsOnlyArticle(f, b, a);
    AlignAllClears(Extract(f).value);
  }

  // ---------------------------------------------------------------------
  // get_separate
  // ---------------------------------------------------------------------

  /** `find_all("a", href=True)`. */
  predicate IsLink(k: Kind) {
    IsElement(k, "a") && "href" in k.attrs
  }

  function HrefOf(k: Kind): string {
    if k.Element? && "href" in k.attrs then k.attrs["href"] else ""
  }

  function Relinked(k: Kind, href: string): Kind {
    match k
    case Element(name, attrs) => Element(name, attrs["href" := href])
    case TextNode(_) => k
  }

  /** `a["href"] = rel_html_href(base_url, a["href"], site_url, outdir)`;
      `rel_html_href` is a parameter. */
  function LinkRewrite(baseUrl: string, siteUrl: string, outdir: string,
                       relHtmlHref: (string, string, string, string) -> string): Kind -> Kind
  {
    k => Relinked(k, relHtmlHref(baseUrl, HrefOf(k), siteUrl, outdir))
  }

  function RewriteLinks(f: Forest, baseUrl: string, siteUrl: string, outdir: string,
                        relHtmlHref: (string, string, string, string) -> string): (g: Forest)
    requires Valid(f)
    ensures Valid(g) && SameParents(f, g)
  {
    Rewrite(f, IsLink, LinkRewrite(baseUrl, siteUrl, outdir, relHtmlHref))
  }

  method RewriteLinksInPlace(soup: Soup, baseUrl: string, siteUrl: string, outdir: string,
                             relHtmlHref: (string, string, string, string) -> string)
    requires Valid(soup.nodes)
    modifies soup
    ensures soup.nodes == RewriteLinks(old(soup.nodes), baseUrl, siteUrl, outdir, relHtmlHref)
  {
    ghost var f := soup.nodes;
    ghost var upd := LinkRewrite(baseUrl, siteUrl, outdir, relHtmlHref);
    var links := FindAll(soup.nodes, IsLink);
    for k := 0 to |links|
      invariant Valid(soup.nodes) && RewrittenUpTo(f, soup.nodes, links, k, upd)
    {
      var i := links[k];
      RewriteNext(f, soup.nodes, links, k, upd);
      assert links[k] in links;
      ghost var before := soup.nodes;
      soup.SetAttribute(i, "href", relHtmlHref(baseUrl, soup.nodes[i].kind.attrs["href"], siteUrl, outdir));
      RelinkStep(before, i, baseUrl, siteUrl, outdir, relHtmlHref);
      RewriteStep(f, before, links, k, upd);
    }
    RewriteDone(f, IsLink, upd, links, soup.nodes);
  }

  /** The assignment in the loop body rewrites one link. */
  lemma RelinkStep(f: Forest, i: nat, baseUrl: string, siteUrl: string, outdir: string,
                   relHtmlHref: (string, string, string, string) -> string)
    requires Valid(f) && i < |f| && IsLink(f[i].kind)
    ensures WithAttr(f, i, "href", relHtmlHref(baseUrl, f[i].kind.attrs["href"], siteUrl, outdir))
      == f[i := f[i].(kind := LinkRewrite(baseUrl, siteUrl, outdir, relHtmlHref)(f[i].kind))]
  {
    var k := f[i].kind;
    assert HrefOf(k) == k.attrs["href"];
    assert LinkRewrite(baseUrl, siteUrl, outdir, relHtmlHref)(k) == Relinked(k, relHtmlHref(baseUrl, HrefOf(k), siteUrl, outdir));
  }

  /** Every link in the document gets the href `rel_html_href` makes of
      its old one; no other attribute and no other node changes. */
  lemma RewriteLinksEffect(f: Forest, baseUrl: string, siteUrl: string, outdir: string,
                           relHtmlHref: (string, string, string, string) -> string, i: nat)
    requires Valid(f) && i < |f|
    ensures var g := RewriteLinks(f, baseUrl, siteUrl, outdir, relHtmlHref);
      if Selected(f, i, IsLink) then
        && g[i].kind.Element? && g[i].kind.name == "a"
        && g[i].kind.attrs == f[i].kind.attrs["href" := relHtmlHref(baseUrl, f[i].kind.attrs["href"], siteUrl, outdir)]
      else g[i] == f[i]
  {
    var g := RewriteLinks(f, baseUrl, siteUrl, outdir, relHtmlHref);
    if Selected(f, i, IsLink) {
      assert IsLink(f[i].kind);
      assert g[i].kind == Relinked(f[i].kind, relHtmlHref(baseUrl, HrefOf(f[i].kind), siteUrl, outdir));
    }
  }

  /** `get_separate`: links, then assets (`replace_asset_hrefs`, a
      parameter), then tab widgets. */
  function Separate(f: Forest, baseUrl: string, siteUrl: string, outdir: string,
                    relHtmlHref: (string, string, string, string) -> string,
                    replaceAssets: (Forest, string) -> Forest): Result<Forest, DomError>
    requires Valid(f)
    requires forall g, u :: Valid(g) ==> Valid(replaceAssets(g, u))
  {
    Restructure(replaceAssets(RewriteLinks(f, baseUrl, siteUrl, outdir, relHtmlHref), baseUrl))
  }

  method GetSeparate(soup: Soup, baseUrl: string, siteUrl: string, outdir: string,
                     relHtmlHref: (string, string, string, string) -> string,
                     replaceAssets: (Forest, string) -> Forest) returns (r: Result<(), DomError>)
    requires Valid(soup.nodes)
    requires forall g, u :: Valid(g) ==> Valid(replaceAssets(g, u))
    modifies soup
    ensures var expected := Separate(old(soup.nodes), baseUrl, siteUrl, outdir, relHtmlHref, replaceAssets);
      (r.Ok? <==> expected.Ok?) && (r.Ok? ==> soup.nodes == expected.value)
  {
    RewriteLinksInPlace(soup, baseUrl, siteUrl, outdir, relHtmlHref);
    soup.nodes := replaceAssets(soup.nodes, baseUrl);
    r := RestructureTabbedContent(soup);
  }
}
