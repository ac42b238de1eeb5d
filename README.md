# sphinx_pdf_generate, modelled in Dafny

`sphinx_pdf_generate` is a Sphinx extension that turns each built HTML page
into a PDF. This project models the part of the plugin that decides what
goes into the print version, and proves properties of it:

- **Heading numbering and the table of contents** (`toc.py`). This is a
  loop with six counters that writes `data-numbering` prefixes such as
  "1.2. " on the headings in place, and a loop with cursors that builds the
  nested `ul`/`li` table. The table is proved against a flat reference
  scan: each entry is at its depth, and orphaned headings are dropped.
- **Page metadata, file names and the body title** (`utils.py`).
  - The option table `PDF_LOCAL_OPTIONS` and the loop that fills the
    metadata dictionary.
  - `secure_filename`, including its Windows device-name guard.
  - `h1_title_tag`.
- **The HTML passes of the preprocessor.**
  - `get_content` keeps the article and rewrites alignment attributes
    into inline styles.
  - `get_separate` rewrites links, then assets, then tabs.
  - `restructure_tabbed_content` pairs tab labels with tab blocks.

  They work on an arena model of the BeautifulSoup tree, held by a
  `Soup` object whose nodes the passes change in place.
- **Print styles** (`styles/__init__.py`). This covers `_css_escape`, the
  `:root` values with their fallbacks, and the ordered choice of stylesheet
  tags.
- **The `to_url` template filter** (`templates/filters/url.py`). It does a
  first-match search over three directories.
- **Per-page conversion** (`pdf_generate.py`). `convert_page_to_pdf` is a
  method of a `Plugin` class with its counters. It covers the build gate
  with the debug override, the file name precedence and the renderer's
  success or failure.
- **The sphinx-build command line** (`cli.py` `_get_build_args`). It runs
  over the option table of `build.py`.
- **The Alabaster theme hooks** (`themes/alabaster.py`).

Library behaviour the plugin relies on is taken as a parameter (a function
value) wherever its details are not the plugin's own logic:

- the filesystem: `Path.resolve`, `is_file`, `is_dir`, `exists`, file reads
  and `as_uri`;
- `urllib.parse.urlparse`, `os.path.realpath` and `html.unescape`;
- `str()` of a list;
- the renderer's `write_pdf` and the theme's `add_link`;
- the link helpers `rel_html_href` and `replace_asset_hrefs`.

Python string operations that carry logic are written out in module `PyStr`:
`split`, `replace`, `strip`, `lower`, `upper` and `str.isspace`.

The modules are:

- `wrappers.dfy`: Option and Result.
- `pystr.dfy`: Python string operations.
- `paths.dfy`: path joining and parents, and the filesystem record.
- `dom.dfy`: the document tree and BeautifulSoup's operations on it.
- `utils.dfy`, `prep.dfy`, `tabbed_block.dfy`, `toc.dfy`, `styles.dfy`,
  `url_filter.dfy`, `pdf_generate.dfy`, `cli.dfy` and `alabaster.dfy`: one
  per source file.

Behaviour of the code that its comments and documentation do not state,
which the model follows:

- `get_content` raises when the page has no `article.md-content__inner`.
  BeautifulSoup refuses to insert None. The body has already been cleared
  at that point (`Prep.ExtractErrors`).
- The `--site-url` scheme removal is a single left-to-right pass.
  "ht" + "http://" + "tp://" therefore leaves "http://" behind
  (`Styles.SchemeSurvivesOnePass`).
- The metadata dictionary always holds a "title" key. With page metadata,
  the `--title` value never falls back to the body or cover title
  (`Styles.PageMetadataTitle`).
- `secure_filename` deletes non-ASCII characters rather than transliterating
  them. The docstring's umlaut example does not hold for this code: it
  gives "i_contain_cool_mluts.txt", not "i_contain_cool_umlauts.txt"
  (`Utils.UmlautsDeleted`).
- In `URLFilter.__call__`, the `if not d: continue` test can never skip a
  directory, because every `Path` object is truthy. The model has no such
  branch.
- In `makelink`, a heading without an id whose parent has no id either gets
  the href "#None".

## Model

| member | source | states |
|---|---|---|
| Toc.InjectHeadingOrder | sphinx_pdf_generate/toc.py:133-181 | The loop over the heading array leaves exactly `Numbering(old headings, toc_level)`: every numbered heading carries its counters-so-far prefix, and nothing else changes. |
| Toc.NumberHeading | sphinx_pdf_generate/toc.py:145-181 | One turn of the loop: the counters become those after this heading, the heading gets exactly the numbering `Numbering` gives it, and no other heading changes. |
| Toc.NextCounters | sphinx_pdf_generate/toc.py:144-179 | The six-way branch of the loop body: a heading is numbered iff its level is at most `toc_level` (within 1..6); a numbered hL adds one to counter L and zeroes the deeper ones; otherwise the counters stay. |
| Toc.BumpByLevel | sphinx_pdf_generate/toc.py:145-176 | The six written-out assignment lists of the source equal the one general bump rule. |
| Toc.CountersStep | sphinx_pdf_generate/toc.py:144-179 | The counters after one more heading are the bumped counters if it is numbered, unchanged otherwise. |
| Toc.NumberingAt | sphinx_pdf_generate/toc.py:148-181 | The j-th heading after numbering carries "n1.n2....nL. " made from the counters right after it when numbered, and its old attribute otherwise. |
| Toc.NumberingExample | sphinx_pdf_generate/toc.py:144-181 | h1, h2, h2, h1, h2 are numbered 1, 1.1, 1.2, 2, 2.1. |
| Toc.PrefixExamples | sphinx_pdf_generate/toc.py:148-162 | The written text is "1. " for the first h1, "1.2. " for a second h2 and "1.0.1. " for an h3 right after an h1. |
| Toc.SkippedLevelShowsZero | sphinx_pdf_generate/toc.py:159-162 | An h3 right after an h1, with no h2 between, is numbered 1.0.1. |
| Toc.NumberingTouches | sphinx_pdf_generate/toc.py:134-181 | Numbering changes only `data-numbering`, only on headings of a level within `toc_level` when that lies in 1..6, and always sets it on those. |
| Toc.NumberingOutOfRange | sphinx_pdf_generate/toc.py:134-136 | With `toc_level` outside 1..6 no heading changes. |
| Toc.CountersCount | sphinx_pdf_generate/toc.py:144-179 | Counter l counts the numbered level-l headings since the last numbered shallower one. |
| Toc.NumberShape | sphinx_pdf_generate/toc.py:145-176 | Right after a numbered hL, counter L is at least one and every deeper counter is zero. |
| Toc.CounterGrowth | sphinx_pdf_generate/toc.py:145-176 | Headings no shallower than m only ever add to counter m. |
| Toc.NumbersDistinct | sphinx_pdf_generate/toc.py:144-181 | No two numbered headings get the same number. |
| Toc.Clone | sphinx_pdf_generate/toc.py:184-196 | The deep copy equals the original element. |
| Toc.MakeLink | sphinx_pdf_generate/toc.py:41-59 | The loop over the heading's children yields the reference link `LinkOf(h)`. |
| Toc.LinkOfShape | sphinx_pdf_generate/toc.py:42-51 | The href is "#" + the heading's id when it is non-empty, otherwise "#" + the parent's id (or "#None"); the heading's `data-numbering` is carried over; the link fails iff its text does. |
| Toc.LinkTextShape | sphinx_pdf_generate/toc.py:52-56 | The link text has one piece per child, each the child's own piece; it fails exactly when some `<a>` child does not start with a string. |
| Toc.LinkPieceShape | sphinx_pdf_generate/toc.py:53-56 | A child other than `<a>` gives itself; an `<a>` child, when it starts with a string, gives a string holding no "¶". |
| Toc.Scan | sphinx_pdf_generate/toc.py:69-128 | The reference scan of the headings yields properly nested entries (each at most one level below the one before), none deeper than `toc_level`. |
| Toc.ScanStepShape | sphinx_pdf_generate/toc.py:70-128 | One heading either enters the table at the depth of its level (an h3+ only below an open entry one level up), fails, or is left out; an h3..h6 within `toc_level` is left out exactly when the cursor one level up is closed. |
| Toc.ScanErrSticks | sphinx_pdf_generate/toc.py:78-81 | Once the scan fails (an exception in the source), it stays failed. |
| Toc.AppendAtFacts | sphinx_pdf_generate/toc.py:79-125 | Appending an `li` at depth d adds exactly one item, at the end and at that depth, and moves the cursor path to it. |
| Toc.Tree | sphinx_pdf_generate/toc.py:66-125 | The depth of the cursor path of the built tree is the depth of the last entry. |
| Toc.TreeFlat | sphinx_pdf_generate/toc.py:70-125 | Reading the built tree back in document order gives the entries, each at its own depth. |
| Toc.CollectToc | sphinx_pdf_generate/toc.py:37-128 | The cursor loop (h1li..h6li, h2ul..h6ul) succeeds iff the reference scan does, and then builds exactly the tree of its entries; it fails with the scan's error. |
| Toc.TocTopLevel | sphinx_pdf_generate/toc.py:71-74 | Every h1 becomes a top-level item, in document order, and nothing else does. |
| Toc.AppendAtTop | sphinx_pdf_generate/toc.py:71-83 | A new item at depth one is a new top-level item; a deeper one leaves the top level alone. |
| Toc.ScanFailsOnH2BeforeH1 | sphinx_pdf_generate/toc.py:37-81 | With well-formed link texts, building the table fails exactly when an h2 (within `toc_level`) comes before the first h1. |
| Toc.DepthBelowMissingLevel | sphinx_pdf_generate/toc.py:88-120 | The cursor at depth L is never set while no heading of level L has been seen. |
| Toc.OrphanLeftOut | sphinx_pdf_generate/toc.py:88-128 | A heading deeper than `toc_level` is left out, and so is an h3..h6 when no heading one level up occurs anywhere before it (a special case of `Toc.ParentCursorDecides`). |
| Toc.ParentCursorDecides | sphinx_pdf_generate/toc.py:88-121 | Both directions of the orphan rule: an h3..h6 within `toc_level` with a well-formed link is appended as the next entry at its level exactly when the last entry is at least one level above it, so its parent cursor is still open (e.g. h1,h2,h3,h1,h3 drops the last h3); otherwise the scan is unchanged. |
| Toc.EntriesFromHeadings | sphinx_pdf_generate/toc.py:70-128 | No entry is made up: each is the link of a heading whose level is the entry's depth. |
| Toc.Render | sphinx_pdf_generate/toc.py:72-125 | One `li` per item of the table. |
| Toc.RenderedItem | sphinx_pdf_generate/toc.py:72-125 | Each `li` holds the item's link as an `a` (href, `data-numbering` exactly when numbered, text), then a `ul` of the sub-items exactly when there are any. |
| Toc.TocArticle | sphinx_pdf_generate/toc.py:61-67 | `article#doc-toc` holds the title as an h1 and then a `ul` with one `li` per top-level item. |
| Toc.MakeToc | sphinx_pdf_generate/toc.py:6-130 | Nothing changes unless `toc` is on; numbering runs iff `toc_ordering` is on; with `toc_level` in 1..6 the `article#doc-toc` (h1 title, then the list) becomes the body's first child, or the call fails exactly when the scan does. |
| Utils.GetPdfMetadata | sphinx_pdf_generate/utils.py:17-48 | The loop over the option table builds exactly the reference dictionary of the raw metadata; None counts as an empty mapping. |
| Utils.ReadOption | sphinx_pdf_generate/utils.py:36-47 | One turn of the loop: the key is the option without its first "pdf-", and the value is the parsed page value, or the default when the page does not set the option. |
| Utils.MetaOfTable | sphinx_pdf_generate/utils.py:7-47 | The keys are exactly build, title, subtitle, type, filename, revision; build is False iff "pdf-build" lower-cases to "false"; subtitle is the stripped "|"-pieces; each missing key takes its default (True, None, [], "document", None, None). |
| Utils.OptionKeys | sphinx_pdf_generate/utils.py:47 | Dropping the first "pdf-" gives the keys build, title, subtitle, type, filename, revision, in table order. |
| Utils.SubtitlesAreStripped | sphinx_pdf_generate/utils.py:45 | No subtitle starts or ends with whitespace. |
| Utils.SubtitlesCount | sphinx_pdf_generate/utils.py:45 | There is one subtitle more than there are "\|" characters. |
| Utils.SubtitlesOfFirst | sphinx_pdf_generate/utils.py:45 | The text before the first "\|" is the first subtitle, stripped, and the rest gives the remaining subtitles. |
| Utils.SubtitlesOfSingle | sphinx_pdf_generate/utils.py:45 | A value without "\|" is a single subtitle, stripped. |
| Utils.KeepSafe | sphinx_pdf_generate/utils.py:73-91 | The filter leaves only `[A-Za-z0-9_.-]` characters, and keeps each of them as often as it occurs in the input. |
| Utils.KeepSafeAppend | sphinx_pdf_generate/utils.py:73-91 | Filtering a concatenation filters each part, so the kept characters stay in input order. |
| Utils.KeepSafeDeletes | sphinx_pdf_generate/utils.py:73-91 | A text with no safe character, such as "ü", is deleted entirely, not transliterated. |
| Utils.SecureFilenameShape | sphinx_pdf_generate/utils.py:51-99 | The result holds only `[A-Za-z0-9_.-]` and does not start or end with "." or "_", except for the "_" put before a Windows device name. |
| Utils.CleanFilenameOfClean | sphinx_pdf_generate/utils.py:88-91 | A name that is already clean passes the cleaning unchanged. |
| Utils.FilterOfSafe | sphinx_pdf_generate/utils.py:88-91 | A name of safe characters passes separator replacement, word splitting and filtering unchanged. |
| Utils.CleanFilenameOfGuarded | sphinx_pdf_generate/utils.py:91-97 | A guarded device name loses its "_" again when cleaned. |
| Utils.SecureFilenameIdempotent | sphinx_pdf_generate/utils.py:51-99 | Sanitising twice gives the same result as sanitising once, on every platform. |
| Utils.SecureFilenameOfWords | sphinx_pdf_generate/utils.py:60-91 | Safe words separated by single spaces come out joined by "_", as in "My cool movie.mov" → "My_cool_movie.mov". |
| Utils.SecureFilenameOfPath | sphinx_pdf_generate/utils.py:88-91 | On POSIX, a "/"-separated path of safe segments becomes its segments joined by "_", stripped of leading and trailing "." and "_". |
| Utils.PasswdExample | sphinx_pdf_generate/utils.py:61-62 | "../../../etc/passwd" gives "etc_passwd", as documented. |
| Utils.UmlautsDeleted | sphinx_pdf_generate/utils.py:63-64 | "i contain cool ümläuts.txt" gives "i_contain_cool_mluts.txt": the umlauts are deleted, unlike what the docstring shows. |
| Utils.SecureFilenameOnPosix | sphinx_pdf_generate/utils.py:96-97 | Only Windows guards device names. |
| Utils.FirstTitledH1 | sphinx_pdf_generate/utils.py:106 | The h1 found is the first one whose id matches `[\w\-]+`. |
| Utils.H1TitleTagFallback | sphinx_pdf_generate/utils.py:107-108 | With no such h1 the title is `pdf_title`. |
| Utils.H1TitleTagFirstMatch | sphinx_pdf_generate/utils.py:106-110 | Otherwise the title is the first such h1's text with its numbering prefix dropped and no trailing "Â" or "¶". |
| Utils.DropNumberingPrefix | sphinx_pdf_generate/utils.py:109 | A leading "digits and dots, then a space" is removed, and only that. |
| Utils.DropNumberingWithoutPrefix | sphinx_pdf_generate/utils.py:109 | A text that does not start with a digit or a dot keeps its start. |
| Prep.Rewrite | sphinx_pdf_generate/preprocessor/prep.py:41-59 | A loop over a `find_all` keeps the document well formed, every parent and every list of contents. |
| Prep.RewriteNothing | sphinx_pdf_generate/preprocessor/prep.py:41-59 | A loop whose search selects nothing changes nothing. |
| Prep.AlignPass | sphinx_pdf_generate/preprocessor/prep.py:41-59 | One alignment loop, run in place, leaves exactly the reference rewrite of its search. |
| Prep.RestyleStep | sphinx_pdf_generate/preprocessor/prep.py:45-46 | The two statements of a loop body set the style and delete the align attribute of one element. |
| Prep.AlignRestyles | sphinx_pdf_generate/preprocessor/prep.py:41-59 | A selected element gets style "<property>:<align>;", overwriting any style it had, and loses `align`; its other attributes and its name stay. |
| Prep.AlignLeavesOthers | sphinx_pdf_generate/preprocessor/prep.py:41-54 | Nodes the search does not select, such as an image aligned "center", are left exactly as they were. |
| Prep.AlignClears | sphinx_pdf_generate/preprocessor/prep.py:41-59 | After a loop nothing in the document matches its search any more. |
| Prep.AlignIdempotent | sphinx_pdf_generate/preprocessor/prep.py:41-59 | A second run of a loop changes nothing. |
| Prep.AlignKeepsOthersClear | sphinx_pdf_generate/preprocessor/prep.py:41-59 | A loop for one tag does not make elements of another tag match. |
| Prep.AlignAllClears | sphinx_pdf_generate/preprocessor/prep.py:41-59 | After the three loops no img, th or td with a matching align is left. |
| Prep.AlignAllIdempotent | sphinx_pdf_generate/preprocessor/prep.py:41-59 | Running the three loops a second time changes nothing. |
| Prep.Extract | sphinx_pdf_generate/preprocessor/prep.py:36-39 | The article is found, the body is cleared, and the body, looked up again, receives the article; the node count is kept. |
| Prep.Content | sphinx_pdf_generate/preprocessor/prep.py:28-60 | Extraction, then the three loops, keep the document well formed. |
| Prep.GetContent | sphinx_pdf_generate/preprocessor/prep.py:28-60 | The in-place pass succeeds iff the reference does and then leaves its document. |
| Prep.ExtractKeepsOnlyArticle | sphinx_pdf_generate/preprocessor/prep.py:36-39 | The body ends up holding exactly the article, whatever it held before. |
| Prep.ExtractErrors | sphinx_pdf_generate/preprocessor/prep.py:36-39 | Without a body the pass fails; with a body but no article it fails too. |
| Prep.ContentShape | sphinx_pdf_generate/preprocessor/prep.py:28-60 | After `get_content` the body holds just the article, and no alignment attribute the loops look for is left. |
| Prep.RewriteLinks | sphinx_pdf_generate/preprocessor/prep.py:20-21 | Rewriting the hrefs keeps the document well formed and every parent. |
| Prep.RewriteLinksInPlace | sphinx_pdf_generate/preprocessor/prep.py:20-21 | The loop over `a[href]` leaves exactly the reference rewrite. |
| Prep.RelinkStep | sphinx_pdf_generate/preprocessor/prep.py:21 | The assignment in the loop body rewrites one link. |
| Prep.RewriteLinksEffect | sphinx_pdf_generate/preprocessor/prep.py:20-21 | Every link gets the href `rel_html_href` makes of its old one; no other attribute and no other node changes. |
| Prep.GetSeparate | sphinx_pdf_generate/preprocessor/prep.py:9-25 | Links, then assets, then tabs, in that order: the in-place pass succeeds iff the reference does and then leaves its document. |
| TabbedBlock.MarkBlocks | sphinx_pdf_generate/preprocessor/content/tabbed_block.py:19-21 | Marking the blocks keeps the document well formed and changes no parent and no contents. |
| TabbedBlock.MovePairs | sphinx_pdf_generate/preprocessor/content/tabbed_block.py:23-24 | Pairing labels with blocks by `insert_after`, as far as the shorter list goes, keeps the document well formed and its size when no exception ends the pass. |
| TabbedBlock.DecomposeAll | sphinx_pdf_generate/preprocessor/content/tabbed_block.py:26-27 | Decomposing the containers keeps the document well formed and its size. |
| TabbedBlock.Restructure | sphinx_pdf_generate/preprocessor/content/tabbed_block.py:6-29 | A pass that raises nothing keeps the document well formed and its size. |
| TabbedBlock.MarkInPlace | sphinx_pdf_generate/preprocessor/content/tabbed_block.py:19-21 | The first loop leaves exactly the marked document. |
| TabbedBlock.MoveInPlace | sphinx_pdf_generate/preprocessor/content/tabbed_block.py:23-24 | The second loop succeeds iff the reference moves do and then leaves their document. |
| TabbedBlock.DecomposeInPlace | sphinx_pdf_generate/preprocessor/content/tabbed_block.py:26-27 | The last loop leaves exactly the document with every container decomposed. |
| TabbedBlock.RestructureTabbedContent | sphinx_pdf_generate/preprocessor/content/tabbed_block.py:6-29 | The in-place pass succeeds iff the reference does and then leaves its document. |
| TabbedBlock.SelectionsApart | sphinx_pdf_generate/preprocessor/content/tabbed_block.py:13-15 | The selected labels, blocks and containers each have no repeats, and no label is a block or a container. |
| TabbedBlock.MovePairsPlaces | sphinx_pdf_generate/preprocessor/content/tabbed_block.py:23-24 | After the moves, each paired block sits right after its label, in the label's parent. |
| TabbedBlock.MovePairsKeepsKinds | sphinx_pdf_generate/preprocessor/content/tabbed_block.py:23-24 | Moving pairs changes no node's kind. |
| TabbedBlock.MovePairsKeepsParents | sphinx_pdf_generate/preprocessor/content/tabbed_block.py:23-24 | Moving pairs changes the parent of paired blocks only. |
| TabbedBlock.DecomposeLoosens | sphinx_pdf_generate/preprocessor/content/tabbed_block.py:26-27 | Decomposed containers hang from nothing. |
| TabbedBlock.DecomposeKeepsParents | sphinx_pdf_generate/preprocessor/content/tabbed_block.py:26-27 | Every node that is not decomposed keeps its parent. |
| TabbedBlock.RestructureStages | sphinx_pdf_generate/preprocessor/content/tabbed_block.py:6-29 | A successful pass is marking, then moving, then decomposing. |
| TabbedBlock.RestructureMarks | sphinx_pdf_generate/preprocessor/content/tabbed_block.py:19-21 | Every selected block is marked "new_tabbed_block", paired or not, and no other node changes what it is. |
| TabbedBlock.RestructurePairs | sphinx_pdf_generate/preprocessor/content/tabbed_block.py:23-24 | The n-th label is followed by the n-th block in the label's parent, unless that block is itself a removed container. |
| TabbedBlock.RestructureMovesOnlyPairs | sphinx_pdf_generate/preprocessor/content/tabbed_block.py:23-27 | Only paired blocks and removed containers change place; surplus labels and blocks stay where they were. |
| TabbedBlock.RestructureRemovesContainers | sphinx_pdf_generate/preprocessor/content/tabbed_block.py:26-27 | Every "tabbed-content" container leaves the document, with whatever still hangs below it. |
| Dom.FindAll | sphinx_pdf_generate/preprocessor/content/tabbed_block.py:13-15 | `find_all` returns exactly the attached nodes the search selects, in increasing document order, so without repeats. |
| Dom.FindFirst | sphinx_pdf_generate/preprocessor/prep.py:36 | `find` returns the first selected node, or none when nothing is selected. |
| Dom.WithAttr | sphinx_pdf_generate/preprocessor/prep.py:45 | `tag[key] = value` sets that one attribute and changes nothing else. |
| Dom.WithoutAttr | sphinx_pdf_generate/preprocessor/prep.py:46 | `del tag[key]` removes that one attribute and changes nothing else. |
| Dom.Clear | sphinx_pdf_generate/preprocessor/prep.py:38 | `clear()` empties the tag and leaves each former child hanging from nothing. |
| Dom.ClearKeepsFirst | sphinx_pdf_generate/preprocessor/prep.py:38-39 | The body looked up again after clearing it is the same body. |
| Dom.Append | sphinx_pdf_generate/preprocessor/prep.py:39 | `append` extracts the node and makes it the tag's last child. |
| Dom.Detach | sphinx_pdf_generate/preprocessor/content/tabbed_block.py:27 | `extract`/`decompose` takes the node out of its parent's contents and leaves every other parent and list of contents as it was. For `decompose` this holds for the document, meaning the nodes reachable from the root; the model does not destroy the detached subtree, it only makes it unreachable. |
| Dom.BelowLooseNode | sphinx_pdf_generate/preprocessor/content/tabbed_block.py:27 | Whatever hangs below a decomposed node is no longer part of the document. |
| Dom.InsertAfter | sphinx_pdf_generate/preprocessor/content/tabbed_block.py:24 | `insert_after` succeeds exactly when the anchor has a parent, is not the node itself, the node is not that parent, and the anchor is still among the parent's contents once the node is extracted; a success keeps the document well formed. |
| Dom.InsertAfterPlaces | sphinx_pdf_generate/preprocessor/content/tabbed_block.py:24 | A successful `insert_after` puts the node right after the anchor, hangs it from the anchor's parent, and moves nothing else. |
| Dom.Soup.SetAttribute | sphinx_pdf_generate/preprocessor/prep.py:45 | The in-place attribute set is `WithAttr`. |
| Dom.Soup.DeleteAttribute | sphinx_pdf_generate/preprocessor/prep.py:46 | The in-place attribute removal is `WithoutAttr`. |
| Dom.Soup.ClearContents | sphinx_pdf_generate/preprocessor/prep.py:38 | The in-place clear is `Clear`. |
| Dom.Soup.AppendChild | sphinx_pdf_generate/preprocessor/prep.py:39 | The in-place append is `Append`. |
| Dom.Soup.InsertNodeAfter | sphinx_pdf_generate/preprocessor/content/tabbed_block.py:24 | The in-place `insert_after` succeeds iff `InsertAfter` does and then leaves its document. |
| Dom.Soup.Decompose | sphinx_pdf_generate/preprocessor/content/tabbed_block.py:27 | The in-place `decompose` is `Detach`. |
| Styles.CssEscape | sphinx_pdf_generate/styles/__init__.py:11-22 | A falsy value gives ""; otherwise no single quote is left, and the result is the unescaped text's length plus two for every quote in it. |
| Styles.CssEscapeKeepsText | sphinx_pdf_generate/styles/__init__.py:17-22 | The pieces between quotes are kept in order: joined with "'" they give the unescaped text, joined with `\27` the result. |
| Styles.CssEscapePlainText | sphinx_pdf_generate/styles/__init__.py:14-22 | A non-empty text without quotes or "&" comes out unchanged. |
| Styles.RemoveSchemes | sphinx_pdf_generate/styles/__init__.py:52 | Deleting the scheme prefixes never lengthens the address. |
| Styles.RemoveSchemesUnchanged | sphinx_pdf_generate/styles/__init__.py:52 | The address is unchanged exactly when it holds neither "http://" nor "https://" anywhere. |
| Styles.DropScheme | sphinx_pdf_generate/styles/__init__.py:52 | A scheme at the start is deleted. |
| Styles.SchemeSurvivesOnePass | sphinx_pdf_generate/styles/__init__.py:52 | "ht" + "http://" + "tp://" + x becomes "http://" + the cleaned x: the deletion is a single pass. |
| Styles.RootValues | sphinx_pdf_generate/styles/__init__.py:29-53 | Every `:root` value is escaped, so none holds a single quote. |
| Styles.TitleRule | sphinx_pdf_generate/styles/__init__.py:47 | A "title" key wins whenever it is present, even holding None (giving ''); only without it do the body title, then the cover title, apply. |
| Styles.MetadataDefaults | sphinx_pdf_generate/styles/__init__.py:48-51 | Without their keys, type is "document" and revision and filename are ''; a revision holding None gives '' too. |
| Styles.PageMetadataTitle | sphinx_pdf_generate/styles/__init__.py:47 | With the dictionary `get_pdf_metadata` builds, the title is the page's "pdf-title" or '', never the body or cover title. |
| Styles.SheetNames | sphinx_pdf_generate/styles/__init__.py:75-79 | Only the paging rules are merged into the default tag, and only the custom rules are read from the custom directory. |
| Styles.CustomCssDir | sphinx_pdf_generate/styles/__init__.py:64-71 | There is a custom directory exactly when a path is configured; an absolute path is taken as it is. |
| Styles.ChooseCssFiles | sphinx_pdf_generate/styles/__init__.py:56-71 | The stylesheets considered are `_paging.css`, then `toc.css` iff toc, `cover.css` iff cover, `pdf_custom.css` iff the custom directory exists. |
| Styles.AddSheet | sphinx_pdf_generate/styles/__init__.py:75-87 | One loop turn: an existing paging file's rules go into the default tag, any other existing file becomes a tag of its own, and a missing file adds nothing. |
| Styles.ReadSheets | sphinx_pdf_generate/styles/__init__.py:73-87 | The loop leaves the default tag and the list the reference gathering gives. |
| Styles.AssembleStyles | sphinx_pdf_generate/styles/__init__.py:54-90 | The tags are the reference list for the given `:root` values. |
| Styles.StyleForPrint | sphinx_pdf_generate/styles/__init__.py:25-90 | `style_for_print` returns the reference list built from its `:root` values. |
| Styles.StylesInOrder | sphinx_pdf_generate/styles/__init__.py:54-89 | The list is the default tag (class plugin-default-css, the `:root` block and then the paging rules if present), then the toc, cover and custom tags in that order, each only when enabled and its file exists. |
| Styles.OwnTagOfSheet | sphinx_pdf_generate/styles/__init__.py:76-87 | A stylesheet other than paging gets its own tag exactly when its file exists; the paging rules are merged exactly when their file exists. |
| Styles.TagClassOfStem | sphinx_pdf_generate/styles/__init__.py:84 | The class of `<stem>.css` is `plugin-<stem>-css`. |
| Styles.GatherInOrder | sphinx_pdf_generate/styles/__init__.py:74 | The stylesheets are visited in the order considered. |
| UrlFilter.SearchDirs | sphinx_pdf_generate/templates/filters/url.py:20-24 | The directories searched are the resolved output directory, the resolved source directory and ".", in that order. |
| UrlFilter.FirstFoundFrom | sphinx_pdf_generate/templates/filters/url.py:25-31 | The index found holds the file and no earlier one does; none is found iff no directory holds it. |
| UrlFilter.Filter | sphinx_pdf_generate/templates/filters/url.py:10-35 | The early-return search loop returns what the reference `ToUrl` gives. |
| UrlFilter.ToUrlCases | sphinx_pdf_generate/templates/filters/url.py:10-35 | "" for an empty name; an address unchanged; otherwise the URI of the first directory holding the file, or the name unchanged when none does. |
| UrlFilter.OutdirWins | sphinx_pdf_generate/templates/filters/url.py:20-31 | A file in the output directory wins over the same name elsewhere. |
| UrlFilter.AbsoluteFileIsItsOwnUri | sphinx_pdf_generate/templates/filters/url.py:25-31 | An existing absolute name is its own URI, whatever directories are configured. |
| UrlFilter.MissingFileUnchanged | sphinx_pdf_generate/templates/filters/url.py:35 | A name that none of the three searched directories holds comes back unchanged, whatever other directories hold it. |
| Paths.ParentOfJoin | sphinx_pdf_generate/pdf_generate.py:161-166 | The parent of a directory joined with a plain name is that directory. |
| PdfGenerate.Plugin.constructor | sphinx_pdf_generate/pdf_generate.py:120-131 | Both counters start at zero. |
| PdfGenerate.Plugin.ConvertPageToPdf | sphinx_pdf_generate/pdf_generate.py:158-220 | The source and output paths are always recorded, and the body title changes only for a built page. `pdf_num_files` rises by one exactly when both `write_pdf` and the theme's `add_link` succeed, and the result is then the linked HTML. `num_errors` rises by one exactly when either of them raises, and the result is then the `PDFGenerateException` message. A skipped page is returned unchanged and leaves both counters alone. |
| PdfGenerate.Plugin.BuildGate | sphinx_pdf_generate/pdf_generate.py:173-185 | The gate is the metadata flag, replaced by the debug-target comparison when debugging with a target, and requires the source to exist. |
| PdfGenerate.Plugin.ConvertBuilt | sphinx_pdf_generate/pdf_generate.py:186-214 | For a page past the gate, the body title is extracted. A failure of `write_pdf` or of `add_link` adds one to `num_errors` and raises; otherwise `pdf_num_files` rises by one and the linked HTML is returned. |
| PdfGenerate.OutcomeOfGate | sphinx_pdf_generate/pdf_generate.py:185-216 | A page is skipped iff it fails the gate, and then comes back unchanged. A converted page returns the theme's linked HTML, and a failed one raises the message naming its source and the reason. |
| PdfGenerate.RenderOutcome | sphinx_pdf_generate/pdf_generate.py:201-214 | For a page past the gate, a `write_pdf` exception is a failure with its reason. Once the PDF is written, an `add_link` exception is a failure with its reason. The page is converted, carrying the linked HTML, only when both calls succeed. |
| PdfGenerate.BuildFollowsMetadata | sphinx_pdf_generate/pdf_generate.py:171-185 | Without the debug override a page is built iff its "pdf-build" is not "false" in any letter case and its source exists. |
| PdfGenerate.DebugTargetDecides | sphinx_pdf_generate/pdf_generate.py:175-185 | With the debug override the metadata's build entry does not matter, and the target page itself is built iff its source exists. |
| PdfGenerate.BaseNamePrecedence | sphinx_pdf_generate/pdf_generate.py:188-190 | The base name is "pdf-filename", else "pdf-title", else the body title, else the last "/"-segment of the page name, passing over empty values. |
| PdfGenerate.PdfNameIsSafe | sphinx_pdf_generate/pdf_generate.py:197-199 | A converted page's PDF is the sanitised base name + ".pdf", of safe characters only. |
| PdfGenerate.LastSegmentOfBareName | sphinx_pdf_generate/pdf_generate.py:190 | A page name without "/" is its own last segment. |
| PdfGenerate.LastSegmentAfterDir | sphinx_pdf_generate/pdf_generate.py:190 | Directories before a "/" do not reach the last segment. |
| PdfGenerate.DestDirOfNestedPage | sphinx_pdf_generate/pdf_generate.py:161-166 | The PDF of a page in a sub-directory lands in that sub-directory of the output directory. |
| PdfGenerate.DestDirOfTopPage | sphinx_pdf_generate/pdf_generate.py:161-166 | A top-level page's PDF lands in the output directory itself. |
| Cli.GetBuildArgs | sphinx_pdf_generate/cli.py:42-56 | The arguments are the table's contributions in table order, then `realpath(sourcedir)` and `realpath(outdir)`. |
| Cli.AddOption | sphinx_pdf_generate/cli.py:45-53 | One loop turn appends exactly that option's contribution. |
| Cli.PairsShape | sphinx_pdf_generate/cli.py:52-53 | A valued option emits "-x", v for each value, in order. |
| Cli.OptionArgsShape | sphinx_pdf_generate/cli.py:45-53 | A falsy value emits nothing, a flag counted n times emits "-x" n times, and a valued option emits a flag before each value. |
| Cli.EmittedInOrder | sphinx_pdf_generate/cli.py:44 | What earlier table entries emit is a prefix of what later ones extend. |
| Cli.NothingGiven | sphinx_pdf_generate/cli.py:45-47 | With no option given, no option word is emitted. |
| Cli.EmittedWords | sphinx_pdf_generate/cli.py:44-53 | Every emitted word is a flag of the table or a value given to one of its valued options. |
| Alabaster.GetStylesheet | sphinx_pdf_generate/themes/alabaster.py:4-5 | The theme contributes no stylesheet. |
| Alabaster.ModifyHtmlKeepsText | sphinx_pdf_generate/themes/alabaster.py:8-14 | The page is cut at the markers and glued back with marker plus link: all other text is kept, in order. |
| Alabaster.ModifyHtmlLength | sphinx_pdf_generate/themes/alabaster.py:12-13 | The result grows by one link per marker occurrence. |
| Alabaster.ModifyHtmlWithoutMarker | sphinx_pdf_generate/themes/alabaster.py:13 | Without the marker the page comes back unchanged. |

## Left out

- renderer.py, i.e. HTML parsing with html5lib and WeasyPrint rendering. It is reached only through the `write_pdf`/`add_link` parameters of `Renderer`. Either call may raise, and each failure is modelled as the reason text of the exception.
- cli.py `main` and the subprocess calls of build.py. They are I/O. Only the option table of build.py is modelled, as data.
- The mkdir of the output directory, file reads and writes, logging, and the `timer`/`total_time` bookkeeping. These are side effects or floating-point wall-clock values.
- `html.unescape`, `str()` of a list, `urlparse`, `os.path.realpath` and the `pathlib` queries. They are parameters, and their library behaviour is not modelled.
- Paths are strings joined with "/" without normalisation. `Path.resolve` is a parameter.
- `rel_html_href` and `replace_asset_hrefs` (preprocessor/links) are not part of this model. They are parameters of `get_separate`.
- `re` patterns: `\w` and `\d` are taken as ASCII only.
- `secure_filename` takes `os.path.sep`/`os.path.altsep` and `os.name` as the platform: "/" on POSIX, and "\\" and "/" on Windows.
- The Sphinx event hooks (`setup`, `builder_inited`, the page collection, `build_finished`), options.py, templates/template.py and the cover are not part of this model. They are plumbing and configuration.
- Toc.MakeToc: BeautifulSoup node identity inside the table is not modelled. The table is a value tree, and the headings are a flat array with their contents as values.
- Dom.FindAll: document order is taken as the order in which the parser numbered the nodes. Nodes moved by `insert_after` keep their numbers.
