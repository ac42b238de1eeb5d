/**
 * Flattening of tab widgets for print
 * (sphinx_pdf_generate/preprocessor/content/tabbed_block.py): every tab
 * body is moved right after its tab label, and the tab containers are
 * removed.
 */
module TabbedBlock {
  import opened Wrappers
  import opened PyStr
  import opened Dom

  // ---------------------------------------------------------------------
  // What the three find_all calls select
  // ---------------------------------------------------------------------

  predicate AllDigits(s: string) {
    |s| >= 1 && forall i :: 0 <= i < |s| ==> IsDigit(s[i])
  }

  predicate AllDigitsOrUnderscores(s: string) {
    |s| >= 1 && forall i :: 0 <= i < |s| ==> IsDigit(s[i]) || s[i] == '_'
  }

  predicate TabIdentifier(v: string) {
    (StartsWith(v, "__tabbed_") && AllDigitsOrUnderscores(v[9..]))
    || (StartsWith(v, "sd-tab-item-") && AllDigits(v[12..]))
  }

  /** `^__tabbed_[\d_]+$|^sd-tab-item-\d+$` matches: `$` also accepts a
      single newline at the very end. */
  predicate TabLabelTarget(v: string) {
    TabIdentifier(v) || (|v| >= 1 && v[|v| - 1] == '\n' && TabIdentifier(v[..|v| - 1]))
  }

  /** A `label` whose `for` names a tab. */
  predicate IsTabLabel(k: Kind) {
    IsElement(k, "label") && Attr(k, "for").Some? && TabLabelTarget(Attr(k, "for").value)
  }

  /** A `div` whose class text contains "tabbed-block" or "sd-tab-content". */
  predicate IsTabBlock(k: Kind) {
    IsElement(k, "div") && Attr(k, "class").Some?
    && (Contains(Attr(k, "class").value, "tabbed-block") || Contains(Attr(k, "class").value, "sd-tab-content"))
  }

  /** A `div` with the class "tabbed-content". */
  predicate IsTabContent(k: Kind) {
    IsElement(k, "div") && Attr(k, "class").Some? && "tabbed-content" in Words(Attr(k, "class").value)
  }

  const NewClass: string := "new_tabbed_block"

  // ---------------------------------------------------------------------
  // The pass, as functions of the document
  // ---------------------------------------------------------------------

  function Marked(k: Kind): Kind {
    match k
    case Element(name, attrs) => Element(name, attrs["class" := NewClass])
    case TextNode(_) => k
  }

  /** Every block's class replaced by "new_tabbed_block". */
  function MarkBlocks(f: Forest, blocks: seq<nat>): (g: Forest)
    requires Valid(f)
    ensures Valid(g) && SameParents(f, g)
    ensures forall i :: 0 <= i < |f| ==> g[i].children == f[i].children
  {
    seq(|f|, i requires 0 <= i < |f| => if i in blocks then f[i].(kind := Marked(f[i].kind)) else f[i])
  }

  /** `insert_after` for each label and block taken in pairs, front to back,
      as far as the shorter list goes; the first exception ends the pass. */
  function MovePairs(f: Forest, labels: seq<nat>, blocks: seq<nat>): (r: Result<Forest, DomError>)
    requires Valid(f) && AllBelow(labels, |f|) && AllBelow(blocks, |f|)
    ensures r.Ok? ==> Valid(r.value) && |r.value| == |f|
    decreases |labels|
  {
    if labels == [] || blocks == [] then Ok(f)
    else match InsertAfter(f, labels[0], blocks[0])
      case Err(e) => Err(e)
      case Ok(g) => MovePairs(g, labels[1..], blocks[1..])
  }

  /** The first `n` tab containers decomposed, in order. */
  function DecomposeAll(f: Forest, tabs: seq<nat>, n: nat): (g: Forest)
    requires Valid(f) && AllBelow(tabs, |f|) && n <= |tabs|
    ensures Valid(g) && |g| == |f|
  {
    if n == 0 then f else Detach(DecomposeAll(f, tabs, n - 1), tabs[n - 1])
  }

  function Labels(f: Forest): seq<nat> { FindAll(f, IsTabLabel) }
  function Blocks(f: Forest): seq<nat> { FindAll(f, IsTabBlock) }
  function TabContents(f: Forest): seq<nat> { FindAll(f, IsTabContent) }

  function Min(a: nat, b: nat): nat { if a <= b then a else b }

  /** `restructure_tabbed_content`: the three lists are taken first; an
      exception from `insert_after` ends the pass. */
  function Restructure(f: Forest): (r: Result<Forest, DomError>)
    requires Valid(f)
    ensures r.Ok? ==> Valid(r.value) && |r.value| == |f|
  {
    var labels, blocks, tabs := Labels(f), Blocks(f), TabContents(f);
    var marked := MarkBlocks(f, blocks);
    match MovePairs(marked, labels, blocks)
    case Err(e) => Err(e)
    case Ok(g) => Ok(DecomposeAll(g, tabs, |tabs|))
  }

  // ---------------------------------------------------------------------
  // The pass, in place
  // ---------------------------------------------------------------------

  /** The first loop: each block's class is overwritten. */
  method MarkInPlace(soup: Soup, blocks: seq<nat>) returns (newBlocks: seq<nat>)
    requires Valid(soup.nodes) && AllBelow(blocks, |soup.nodes|) && Distinct(blocks)
    modifies soup
    ensures newBlocks == blocks
    ensures soup.nodes == MarkBlocks(old(soup.nodes), blocks)
  {
    ghost var f := soup.nodes;
    newBlocks := [];
    for k := 0 to |blocks|
      invariant newBlocks == blocks[..k]
      invariant Valid(soup.nodes) && |soup.nodes| == |f|
      invariant forall i :: 0 <= i < |f| ==>
        soup.nodes[i] == if i in blocks[..k] then f[i].(kind := Marked(f[i].kind)) else f[i]
    {
      assert blocks[k] !in blocks[..k];
      soup.SetAttribute(blocks[k], "class", NewClass);
      newBlocks := newBlocks + [blocks[k]];
    }
    assert blocks[..|blocks|] == blocks;
  }

  /** The second loop: the n-th label gets the n-th block after it, for as
      many pairs as the shorter list has. */
  method MoveInPlace(soup: Soup, labels: seq<nat>, blocks: seq<nat>) returns (r: Result<(), DomError>)
    requires Valid(soup.nodes) && AllBelow(labels, |soup.nodes|) && AllBelow(blocks, |soup.nodes|)
    modifies soup
    ensures var outcome := MovePairs(old(soup.nodes), labels, blocks);
      (r.Ok? <==> outcome.Ok?) && (r.Ok? ==> soup.nodes == outcome.value)
  {
    ghost var f := soup.nodes;
    for k := 0 to Min(|labels|, |blocks|)
      invariant Valid(soup.nodes) && |soup.nodes| == |f|
      invariant MovePairs(f, labels, blocks) == MovePairs(soup.nodes, labels[k..], blocks[k..])
    {
      assert labels[k..][1..] == labels[k + 1..] && blocks[k..][1..] == blocks[k + 1..];
      r := soup.InsertNodeAfter(labels[k], blocks[k]);
      if r.Err? {
        return;
      }
    }
    r := Ok(());
  }

  /** The last loop: every container is decomposed. */
  method DecomposeInPlace(soup: Soup, tabs: seq<nat>)
    requires Valid(soup.nodes) && AllBelow(tabs, |soup.nodes|)
    modifies soup
    ensures soup.nodes == DecomposeAll(old(soup.nodes), tabs, |tabs|)
  {
    ghost var f := soup.nodes;
    for k := 0 to |tabs|
      invariant soup.nodes == DecomposeAll(f, tabs, k)
    {
      soup.Decompose(tabs[k]);
    }
  }

  /** `restructure_tabbed_content(soup)`. */
  method RestructureTabbedContent(soup: Soup) returns (r: Result<(), DomError>)
    requires Valid(soup.nodes)
    modifies soup
    ensures r.Ok? <==> Restructure(old(soup.nodes)).Ok?
    ensures r.Ok? ==> soup.nodes == Restructure(old(soup.nodes)).value
  {
    var labels := FindAll(soup.nodes, IsTabLabel);
    var blocks := FindAll(soup.nodes, IsTabBlock);
    var tabContent := FindAll(soup.nodes, IsTabContent);
    IncreasingIsDistinct(blocks);
    var newBlocks := MarkInPlace(soup, blocks);
    r := MoveInPlace(soup, labels, newBlocks);
    if r.Err? {
      return;
    }
    DecomposeInPlace(soup, tabContent);
  }

  // ---------------------------------------------------------------------
  // What the pass guarantees
  // ---------------------------------------------------------------------

  /** No node appears twice. */
  predicate Distinct(s: seq<nat>) {
    forall a, b :: 0 <= a < b < |s| ==> s[a] != s[b]
  }

  lemma IncreasingIsDistinct(s: seq<nat>)
    requires Increasing(s)
    ensures Distinct(s)
  {
  }

  /** The selected labels, blocks and containers are each without repeats,
      and no label is a block or a container. */
  lemma SelectionsApart(f: Forest)
    requires Valid(f)
    ensures Distinct(Labels(f)) && Distinct(Blocks(f)) && Distinct(TabContents(f))
    ensures forall a, b :: 0 <= a < |Labels(f)| && 0 <= b < |Blocks(f)| ==> Labels(f)[a] != Blocks(f)[b]
    ensures forall l :: l in Labels(f) ==> l !in TabContents(f)
  {
    var labels, blocks, tabs := Labels(f), Blocks(f), TabContents(f);
    forall a, b | 0 <= a < |labels| && 0 <= b < |blocks| ensures labels[a] != blocks[b] {
      assert labels[a] in labels && blocks[b] in blocks;
      assert IsTabLabel(f[labels[a]].kind) && IsTabBlock(f[blocks[b]].kind);
    }
    forall l | l in labels ensures l !in tabs {
      assert IsTabLabel(f[l].kind);
      assert !IsTabContent(f[l].kind);
    }
  }

  /** `i` is not among the blocks that get paired with a label. */
  predicate Unmoved(labels: seq<nat>, blocks: seq<nat>, i: nat) {
    forall j :: 0 <= j < |labels| && 0 <= j < |blocks| ==> blocks[j] != i
  }

  /** Moving pairs changes no node's kind. */
  lemma {:induction false} MovePairsKeepsKinds(f: Forest, labels: seq<nat>, blocks: seq<nat>)
    requires Valid(f) && AllBelow(labels, |f|) && AllBelow(blocks, |f|) && MovePairs(f, labels, blocks).Ok?
    ensures forall i :: 0 <= i < |f| ==> MovePairs(f, labels, blocks).value[i].kind == f[i].kind
    decreases |labels|
  {
    if labels != [] && blocks != [] {
      InsertAfterPlaces(f, labels[0], blocks[0]);
      MovePairsKeepsKinds(InsertAfter(f, labels[0], blocks[0]).value, labels[1..], blocks[1..]);
    }
  }

  /** Moving pairs changes the parent of paired blocks only. */
  lemma {:induction false} MovePairsKeepsParents(f: Forest, labels: seq<nat>, blocks: seq<nat>)
    requires Valid(f) && AllBelow(labels, |f|) && AllBelow(blocks, |f|) && MovePairs(f, labels, blocks).Ok?
    ensures forall i :: 0 <= i < |f| && Unmoved(labels, blocks, i) ==> MovePairs(f, labels, blocks).value[i].parent == f[i].parent
    decreases |labels|
  {
    if labels != [] && blocks != [] {
      InsertAfterPlaces(f, labels[0], blocks[0]);
      var g := InsertAfter(f, labels[0], blocks[0]).value;
      MovePairsKeepsParents(g, labels[1..], blocks[1..]);
      forall i | 0 <= i < |f| && Unmoved(labels, blocks, i)
        ensures MovePairs(f, labels, blocks).value[i].parent == f[i].parent
      {
        assert blocks[0] != i;
        assert Unmoved(labels[1..], blocks[1..], i) by {
          forall j | 0 <= j < |labels| - 1 && 0 <= j < |blocks| - 1 ensures blocks[1..][j] != i {
            assert blocks[j + 1] != i;
          }
        }
      }
    }
  }

  /** A successful run of moves is its first move followed by the rest. */
  lemma MovePairsFirst(f: Forest, labels: seq<nat>, blocks: seq<nat>)
    requires Valid(f) && AllBelow(labels, |f|) && AllBelow(blocks, |f|) && MovePairs(f, labels, blocks).Ok?
    requires labels != [] && blocks != []
    ensures InsertAfter(f, labels[0], blocks[0]).Ok?
    ensures MovePairs(InsertAfter(f, labels[0], blocks[0]).value, labels[1..], blocks[1..]) == MovePairs(f, labels, blocks)
  {
  }

  /** Later moves keep `b` right after `a` in `p` when neither is moved nor
      used as an anchor. */
  lemma {:induction false} MovePairsKeepsNext(f: Forest, labels: seq<nat>, blocks: seq<nat>, p: nat, a: nat, b: nat)
    requires Valid(f) && AllBelow(labels, |f|) && AllBelow(blocks, |f|) && MovePairs(f, labels, blocks).Ok?
    requires p < |f| && NextIn(f[p].children, a, b)
    requires a !in labels && a !in blocks && b !in blocks
    ensures NextIn(MovePairs(f, labels, blocks).value[p].children, a, b)
    decreases |labels|
  {
    if labels != [] && blocks != [] {
      MovePairsFirst(f, labels, blocks);
      InsertAfterKeepsNext(f, labels[0], blocks[0], p, a, b);
      MovePairsKeepsNext(InsertAfter(f, labels[0], blocks[0]).value, labels[1..], blocks[1..], p, a, b);
    }
  }

  /** What `MovePairsPlaces` needs of the lists carries over to their
      tails. */
  lemma TailsApart(labels: seq<nat>, blocks: seq<nat>)
    requires labels != [] && blocks != []
    requires Distinct(labels) && Distinct(blocks)
    requires forall a, b :: 0 <= a < |labels| && 0 <= b < |blocks| ==> labels[a] != blocks[b]
    ensures labels[0] !in labels[1..] && labels[0] !in blocks && blocks[0] !in blocks[1..]
    ensures Distinct(labels[1..]) && Distinct(blocks[1..])
    ensures forall a, b :: 0 <= a < |labels| - 1 && 0 <= b < |blocks| - 1 ==> labels[1..][a] != blocks[1..][b]
  {
    assert forall a :: 0 <= a < |labels| - 1 ==> labels[1..][a] == labels[a + 1];
    assert forall b :: 0 <= b < |blocks| - 1 ==> blocks[1..][b] == blocks[b + 1];
  }

  /** The first pair ends up in place. */
  lemma MovePairsPlacesFirst(f: Forest, labels: seq<nat>, blocks: seq<nat>)
    requires Valid(f) && AllBelow(labels, |f|) && AllBelow(blocks, |f|)
    requires labels != [] && blocks != []
    requires labels[0] !in labels[1..] && labels[0] !in blocks && blocks[0] !in blocks[1..]
    requires MovePairs(f, labels, blocks).Ok?
    ensures var h := MovePairs(f, labels, blocks).value;
      && f[labels[0]].parent.Some?
      && h[blocks[0]].parent == f[labels[0]].parent
      && NextIn(h[f[labels[0]].parent.value].children, labels[0], blocks[0])
  {
    var l, b, ls, bs := labels[0], blocks[0], labels[1..], blocks[1..];
    MovePairsFirst(f, labels, blocks);
    InsertAfterPlaces(f, l, b);
    var g := InsertAfter(f, l, b).value;
    MovePairsKeepsParents(g, ls, bs);
    assert Unmoved(ls, bs, b);
    MovePairsKeepsNext(g, ls, bs, f[l].parent.value, l, b);
  }

  /** After the moves, each paired block sits right after its label, in the
      label's parent. */
  lemma {:induction false} MovePairsPlaces(f: Forest, labels: seq<nat>, blocks: seq<nat>)
    requires Valid(f) && AllBelow(labels, |f|) && AllBelow(blocks, |f|)
    requires Distinct(labels) && Distinct(blocks)
    requires forall a, b :: 0 <= a < |labels| && 0 <= b < |blocks| ==> labels[a] != blocks[b]
    requires MovePairs(f, labels, blocks).Ok?
    ensures forall k :: 0 <= k < |labels| && 0 <= k < |blocks| ==>
      var h := MovePairs(f, labels, blocks).value;
      && f[labels[k]].parent.Some?
      && h[blocks[k]].parent == f[labels[k]].parent
      && NextIn(h[f[labels[k]].parent.value].children, labels[k], blocks[k])
    decreases |labels|
  {
    if labels != [] && blocks != [] {
      var l, b, ls, bs := labels[0], blocks[0], labels[1..], blocks[1..];
      TailsApart(labels, blocks);
      MovePairsFirst(f, labels, blocks);
      MovePairsPlacesFirst(f, labels, blocks);
      InsertAfterPlaces(f, l, b);
      var g := InsertAfter(f, l, b).value;
      var h := MovePairs(f, labels, blocks).value;
      MovePairsPlaces(g, ls, bs);
      forall k | 1 <= k < |labels| && k < |blocks|
        ensures f[labels[k]].parent.Some?
        ensures h[blocks[k]].parent == f[labels[k]].parent
        ensures NextIn(h[f[labels[k]].parent.value].children, labels[k], blocks[k])
      {
        assert ls[k - 1] == labels[k] && bs[k - 1] == blocks[k];
        assert labels[k] != b;
        assert g[labels[k]].parent == f[labels[k]].parent;
      }
    }
  }

  /** `i` is none of the first `n` entries of `s`. */
  predicate NoneOfFirst(s: seq<nat>, n: nat, i: nat) {
    forall j :: 0 <= j < n && j < |s| ==> s[j] != i
  }

  /** Decomposing changes no node's kind. */
  lemma {:induction false} DecomposeKeepsKinds(f: Forest, tabs: seq<nat>, n: nat)
    requires Valid(f) && AllBelow(tabs, |f|) && n <= |tabs|
    ensures forall i :: 0 <= i < |f| ==> DecomposeAll(f, tabs, n)[i].kind == f[i].kind
  {
    if n > 0 {
      DecomposeKeepsKinds(f, tabs, n - 1);
    }
  }

  /** Decomposed containers hang from nothing. */
  lemma {:induction false} DecomposeLoosens(f: Forest, tabs: seq<nat>, n: nat)
    requires Valid(f) && AllBelow(tabs, |f|) && n <= |tabs|
    ensures forall j :: 0 <= j < n ==> DecomposeAll(f, tabs, n)[tabs[j]].parent.None?
  {
    if n > 0 {
      DecomposeLoosens(f, tabs, n - 1);
      var g := DecomposeAll(f, tabs, n - 1);
      assert DecomposeAll(f, tabs, n) == Detach(g, tabs[n - 1]);
    }
  }

  /** Every node that is not decomposed keeps its parent. */
  lemma {:induction false} DecomposeKeepsParents(f: Forest, tabs: seq<nat>, n: nat)
    requires Valid(f) && AllBelow(tabs, |f|) && n <= |tabs|
    ensures forall i :: 0 <= i < |f| && NoneOfFirst(tabs, n, i) ==> DecomposeAll(f, tabs, n)[i].parent == f[i].parent
  {
    if n > 0 {
      DecomposeKeepsParents(f, tabs, n - 1);
      var g := DecomposeAll(f, tabs, n - 1);
      assert DecomposeAll(f, tabs, n) == Detach(g, tabs[n - 1]);
      forall i | 0 <= i < |f| && NoneOfFirst(tabs, n, i) ensures NoneOfFirst(tabs, n - 1, i) {
      }
    }
  }

  /** Decomposing keeps `b` right after `a` when neither is decomposed. */
  lemma {:induction false} DecomposeKeepsNext(f: Forest, tabs: seq<nat>, n: nat, p: nat, a: nat, b: nat)
    requires Valid(f) && AllBelow(tabs, |f|) && n <= |tabs| && p < |f|
    requires NoneOfFirst(tabs, n, a) && NoneOfFirst(tabs, n, b)
    requires NextIn(f[p].children, a, b)
    ensures NextIn(DecomposeAll(f, tabs, n)[p].children, a, b)
  {
    if n > 0 {
      DecomposeKeepsNext(f, tabs, n - 1, p, a, b);
      DetachKeepsNext(DecomposeAll(f, tabs, n - 1), tabs[n - 1], p, a, b);
    }
  }

  /** The stages of a successful pass. */
  lemma RestructureStages(f: Forest)
    requires Valid(f) && Restructure(f).Ok?
    ensures var labels, blocks, tabs := Labels(f), Blocks(f), TabContents(f);
      var marked := MarkBlocks(f, blocks);
      var moved := MovePairs(marked, labels, blocks);
      moved.Ok? && Restructure(f).value == DecomposeAll(moved.value, tabs, |tabs|)
  {
  }

  /** Every selected block is marked "new_tabbed_block", paired or not, and
      no other node changes what it is. */
  lemma RestructureMarks(f: Forest)
    requires Valid(f) && Restructure(f).Ok?
    ensures var g := Restructure(f).value;
      && (forall b :: b in Blocks(f) ==> g[b].kind == Element("div", f[b].kind.attrs["class" := NewClass]))
      && (forall i :: 0 <= i < |f| && i !in Blocks(f) ==> g[i].kind == f[i].kind)
  {
    var labels, blocks, tabs := Labels(f), Blocks(f), TabContents(f);
    var marked := MarkBlocks(f, blocks);
    RestructureStages(f);
    MovePairsKeepsKinds(marked, labels, blocks);
    var moved := MovePairs(marked, labels, blocks).value;
    DecomposeKeepsKinds(moved, tabs, |tabs|);
    forall b | b in blocks ensures IsElement(f[b].kind, "div") {
      assert IsTabBlock(f[b].kind);
    }
  }

  /** The n-th label is followed by the n-th block in the label's parent,
      unless that block is itself a removed container. */
  lemma RestructurePairs(f: Forest)
    requires Valid(f) && Restructure(f).Ok?
    ensures var g, labels, blocks := Restructure(f).value, Labels(f), Blocks(f);
      forall k :: 0 <= k < Min(|labels|, |blocks|) && blocks[k] !in TabContents(f) ==>
        && f[labels[k]].parent.Some?
        && g[blocks[k]].parent == f[labels[k]].parent
        && NextIn(g[f[labels[k]].parent.value].children, labels[k], blocks[k])
  {
    var labels, blocks, tabs := Labels(f), Blocks(f), TabContents(f);
    SelectionsApart(f);
    var marked := MarkBlocks(f, blocks);
    var n := Min(|labels|, |blocks|);
    RestructureStages(f);
    MovePairsPlaces(marked, labels, blocks);
    var moved := MovePairs(marked, labels, blocks).value;
    DecomposeKeepsParents(moved, tabs, |tabs|);
    forall k | 0 <= k < n && blocks[k] !in tabs
      ensures f[labels[k]].parent.Some?
      ensures Restructure(f).value[blocks[k]].parent == f[labels[k]].parent
      ensures NextIn(Restructure(f).value[f[labels[k]].parent.value].children, labels[k], blocks[k])
    {
      assert marked[labels[k]].parent == f[labels[k]].parent;
      assert labels[k] in labels;
      assert NoneOfFirst(tabs, |tabs|, labels[k]) && NoneOfFirst(tabs, |tabs|, blocks[k]);
      DecomposeKeepsNext(moved, tabs, |tabs|, f[labels[k]].parent.value, labels[k], blocks[k]);
    }
  }

  /** Only blocks that were paired and removed containers change place;
      surplus labels and blocks stay where they were. */
  lemma RestructureMovesOnlyPairs(f: Forest)
    requires Valid(f) && Restructure(f).Ok?
    ensures var g := Restructure(f).value;
      forall i :: 0 <= i < |f| && Unmoved(Labels(f), Blocks(f), i) && i !in TabContents(f) ==> g[i].parent == f[i].parent
  {
    var labels, blocks, tabs := Labels(f), Blocks(f), TabContents(f);
    var marked := MarkBlocks(f, blocks);
    RestructureStages(f);
    MovePairsKeepsParents(marked, labels, blocks);
    var moved := MovePairs(marked, labels, blocks).value;
    DecomposeKeepsParents(moved, tabs, |tabs|);
    forall i | 0 <= i < |f| && Unmoved(labels, blocks, i) && i !in tabs
      ensures Restructure(f).value[i].parent == f[i].parent
    {
      assert NoneOfFirst(tabs, |tabs|, i);
    }
  }

  /** Every "tabbed-content" container leaves the document, with whatever
      still hangs below it. */
  lemma RestructureRemovesContainers(f: Forest)
    requires Valid(f) && Restructure(f).Ok?
    ensures var g := Restructure(f).value;
      forall t, x, fuel :: t in TabContents(f) && Below(g, x, t, fuel) ==> !Attached(g, x)
  {
    var labels, blocks, tabs := Labels(f), Blocks(f), TabContents(f);
    var marked := MarkBlocks(f, blocks);
    RestructureStages(f);
    var moved := MovePairs(marked, labels, blocks).value;
    DecomposeLoosens(moved, tabs, |tabs|);
    var g := Restructure(f).value;
    forall t, x, fuel | t in tabs && Below(g, x, t, fuel) ensures !Attached(g, x) {
      BelowLooseNode(g, x, t, fuel, |g|);
    }
  }
}
